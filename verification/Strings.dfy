/** The string operations the worker's checks use.  Case folding is the ASCII one. */
module Strings {
  predicate IsSpace(c: char) {
    c == ' ' || c == '\t' || c == '\n' || c == '\r' || c == '\U{000B}' || c == '\U{000C}' || c == '\U{00A0}' || c == '\U{FEFF}'
    || c == '\U{1680}' || '\U{2000}' <= c <= '\U{200A}' || c == '\U{2028}' || c == '\U{2029}' || c == '\U{202F}'
    || c == '\U{205F}' || c == '\U{3000}'
  }

  function TrimStart(s: string): string {
    if s != "" && IsSpace(s[0]) then TrimStart(s[1..]) else s
  }

  function TrimEnd(s: string): string {
    if s != "" && IsSpace(s[|s| - 1]) then TrimEnd(s[..|s| - 1]) else s
  }

  function Trim(s: string): string {
    TrimEnd(TrimStart(s))
  }

  function LowerChar(c: char): char {
    if 'A' <= c <= 'Z' then c - 'A' + 'a' else c
  }

  function Lower(s: string): (r: string)
    ensures |r| == |s|
  {
    seq(|s|, i requires 0 <= i < |s| => LowerChar(s[i]))
  }

  const UPPER := "ABCDEFGHIJKLMNOPQRSTUVWXYZ"
  const LOWER := "abcdefghijklmnopqrstuvwxyz"

  /** Every capital becomes its small letter and nothing else changes, so lower-casing twice is lower-casing once. */
  lemma LowerTells(s: string, i: nat, k: nat)
    requires i < |s| && k < 26
    ensures s[i] == UPPER[k] ==> Lower(s)[i] == LOWER[k]
    ensures !('A' <= s[i] <= 'Z') ==> Lower(s)[i] == s[i]
    ensures Lower(Lower(s)) == Lower(s)
  {
    assert UPPER[k] == 'A' + k as char && LOWER[k] == 'a' + k as char;
  }

  /** Everything after the last separator, if there is one. */
  function AfterLast(s: string, c: char): string {
    if s == "" then ""
    else if s[|s| - 1] == c then ""
    else if c in s then AfterLast(s[..|s| - 1], c) + [s[|s| - 1]]
    else ""
  }

  /** A parameter value: what is no string and no list of values never matters. */
  datatype Value = Text(text: string) | List(items: seq<Value>) | Other

  function NormalizeEmail(s: string): string {
    Lower(Trim(s))
  }

  /** The text behind the last separator, wherever it stands. */
  lemma {:induction false} AfterLastIs(before: string, c: char, rest: string)
    requires c !in rest
    ensures AfterLast(before + ([c] + rest), c) == rest
  {
    var s := before + ([c] + rest);
    if rest == "" {
      assert s[|s| - 1] == c;
    } else {
      var init := rest[..|rest| - 1];
      AfterLastIs(before, c, init);
      assert s[..|s| - 1] == before + ([c] + init);
      assert s[|s| - 1] == rest[|rest| - 1] && s[|before|] == c;
    }
  }

  predicate Trimmed(s: string) {
    s == "" || (!IsSpace(s[0]) && !IsSpace(s[|s| - 1]))
  }

  lemma {:induction false} TrimEndIsTrimmed(s: string)
    requires s == "" || !IsSpace(s[0])
    ensures Trimmed(TrimEnd(s))
  {
    if s != "" && IsSpace(s[|s| - 1]) {
      TrimEndIsTrimmed(s[..|s| - 1]);
    }
  }

  lemma {:induction false} TrimStartLeavesNoSpace(s: string)
    ensures TrimStart(s) == "" || !IsSpace(TrimStart(s)[0])
  {
    if s != "" && IsSpace(s[0]) {
      TrimStartLeavesNoSpace(s[1..]);
    }
  }

  /** Trimming leaves no space at either end and changes nothing that has none. */
  lemma TrimIsIdempotent(s: string)
    ensures Trimmed(Trim(s)) && Trim(Trim(s)) == Trim(s)
    ensures Trimmed(s) ==> Trim(s) == s
  {
    TrimStartLeavesNoSpace(s);
    TrimEndIsTrimmed(TrimStart(s));
  }
}
