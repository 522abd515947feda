/** Fencing untrusted text: fence tags in it are replaced in one pass from the left. */
module PromptFence {
  import opened Wrappers
  import opened Strings

  /** Words that can name a tag: nothing that could end, open or replace one. */
  ghost predicate IsTagName(name: string) {
    name != "" && Trimmed(name) && '[' !in name && '<' !in name && '>' !in name && name[0] != '/'
  }

  /** A replacement that starts no tag. */
  predicate IsReplacement(redacted: string) {
    redacted != "" && redacted[0] == '[' && '<' !in redacted
  }

  /** The length up to and with the first '>', if there is one. */
  function ThroughGreater(s: string): (n: Option<nat>)
    ensures n.Some? ==> 0 < n.value <= |s| && s[n.value - 1] == '>'
  {
    if s == "" then None
    else if s[0] == '>' then Some(1)
    else
      match ThroughGreater(s[1..])
      case Some(n) => Some(n + 1)
      case None => None
  }

  function WithoutSlash(s: string): string {
    if s != "" && s[0] == '/' then s[1..] else s
  }

  /** An optional slash, then the name in any case, with space around it. */
  predicate IsTagBody(body: string, name: string) {
    Lower(Trim(WithoutSlash(body))) == Lower(name)
  }

  /** The length of the tag that the text starts with.  A tag holds no '>' but its last. */
  function TagLength(s: string, name: string): (n: Option<nat>)
    ensures n.Some? ==> 2 <= n.value <= |s|
  {
    if s == "" || s[0] != '<' then None
    else
      match ThroughGreater(s)
      case Some(n) => if n >= 2 && IsTagBody(s[1..n - 1], name) then Some(n) else None
      case None => None
  }

  /** Replaces every tag of the name. */
  function Replace(text: string, name: string, redacted: string): string
    decreases |text|
  {
    if text == "" then ""
    else
      match TagLength(text, name)
      case Some(n) => redacted + Replace(text[n..], name, redacted)
      case None => [text[0]] + Replace(text[1..], name, redacted)
  }

  /** The tags of a text, as one pass from the left finds them. */
  function Tags(text: string, name: string): seq<string>
    decreases |text|
  {
    if text == "" then []
    else
      match TagLength(text, name)
      case Some(n) => [text[..n]] + Tags(text[n..], name)
      case None => Tags(text[1..], name)
  }

  function Open(name: string): string {
    "<" + (name + ">")
  }

  function Close(name: string): string {
    "<" + (("/" + name) + ">")
  }

  function Enclose(text: string, name: string, redacted: string): string {
    Open(name) + ("\n" + (Replace(text, name, redacted) + ("\n" + Close(name))))
  }

  // ----- What a tag can hold -----

  lemma {:induction false} TrimStartKeeps(s: string, c: char)
    requires c in s && !IsSpace(c)
    ensures c in TrimStart(s)
  {
    if IsSpace(s[0]) {
      TrimStartKeeps(s[1..], c);
    }
  }

  lemma {:induction false} TrimEndKeeps(s: string, c: char)
    requires c in s && !IsSpace(c)
    ensures c in TrimEnd(s)
  {
    if IsSpace(s[|s| - 1]) {
      assert s == s[..|s| - 1] + [s[|s| - 1]];
      TrimEndKeeps(s[..|s| - 1], c);
    }
  }

  /** Characters that are no letters come through lower-casing unchanged, and from nowhere else. */
  lemma LowerKeeps(s: string, c: char)
    requires c == '[' || c == '<'
    ensures c in Lower(s) <==> c in s
  {
    if i :| 0 <= i < |s| && s[i] == c {
      assert Lower(s)[i] == c;
    }
    if i :| 0 <= i < |s| && Lower(s)[i] == c {
      assert s[i] == c;
    }
  }

  /** No bracket and no second '<' fits inside a tag. */
  lemma TagBodyHolds(body: string, name: string, c: char)
    requires IsTagName(name) && IsTagBody(body, name) && (c == '[' || c == '<')
    ensures c !in body
  {
    var rest := WithoutSlash(body);
    LowerKeeps(name, c);
    LowerKeeps(Trim(rest), c);
    assert c in body ==> c in rest;
    if c in rest {
      TrimStartKeeps(rest, c);
      TrimEndKeeps(TrimStart(rest), c);
    }
  }

  lemma {:induction false} FirstGreaterInPrefix(x: string, y: string, n: nat)
    requires n <= |x| && n <= |y| && x[..n] == y[..n] && ThroughGreater(x) == Some(n)
    ensures ThroughGreater(y) == Some(n)
  {
    assert x[0] == x[..n][0] && y[0] == y[..n][0];
    if n > 1 {
      assert x[1..][..n - 1] == x[..n][1..] && y[1..][..n - 1] == y[..n][1..];
      assert x[0] != '>';
      FirstGreaterInPrefix(x[1..], y[1..], n - 1);
    }
  }

  lemma {:induction false} SliceOfPrefix(x: string, n: nat, i: nat, j: nat)
    requires i <= j <= n <= |x|
    ensures x[..n][i..j] == x[i..j]
  {
  }

  /** Whether a text starts with a tag depends on the tag alone. */
  lemma TagIsItsPrefix(x: string, y: string, name: string, n: nat)
    requires TagLength(x, name) == Some(n) && n <= |y| && x[..n] == y[..n]
    ensures TagLength(y, name) == Some(n)
  {
    FirstGreaterInPrefix(x, y, n);
    assert x[0] == x[..n][0] && y[0] == y[..n][0];
    SliceOfPrefix(x, n, 1, n - 1);
    SliceOfPrefix(y, n, 1, n - 1);
  }

  // ----- The text with its tags replaced -----

  /** No suffix starts with a tag. */
  ghost predicate NoTags(s: string, name: string) {
    forall i :: 0 <= i < |s| ==> TagLength(s[i..], name).None?
  }

  lemma NoTagsBehind(s: string, name: string)
    requires NoTags(s, name) && s != ""
    ensures TagLength(s, name).None? && NoTags(s[1..], name)
  {
    assert s[0..] == s;
    forall i | 0 <= i < |s[1..]| ensures TagLength(s[1..][i..], name).None? {
      assert s[1..][i..] == s[i + 1..];
    }
  }

  lemma FirstCharacter(text: string, name: string, redacted: string)
    requires text != "" && IsReplacement(redacted)
    ensures var out := Replace(text, name, redacted);
            out != "" && out[0] == if TagLength(text, name).Some? then '[' else text[0]
  {
  }

  /** Up to the first bracket the result is the original. */
  lemma {:induction false} CopiesUntilBracket(text: string, name: string, redacted: string, m: nat)
    requires IsReplacement(redacted)
    requires m <= |Replace(text, name, redacted)| && '[' !in Replace(text, name, redacted)[..m]
    ensures m <= |text| && Replace(text, name, redacted)[..m] == text[..m]
  {
    if m > 0 {
      var out := Replace(text, name, redacted);
      FirstCharacter(text, name, redacted);
      assert out[..m][0] == out[0];
      assert TagLength(text, name).None?;
      var rest := Replace(text[1..], name, redacted);
      assert out[1..] == rest;
      assert out[..m] == [text[0]] + rest[..m - 1];
      CopiesUntilBracket(text[1..], name, redacted, m - 1);
      assert text[..m] == [text[0]] + text[1..][..m - 1];
    }
  }

  lemma SamePrefix(c: char, x: string, text: string, n: nat)
    requires 0 < n && n - 1 <= |x| && text != "" && text[0] == c && n - 1 <= |text| - 1 && x[..n - 1] == text[1..][..n - 1]
    ensures ([c] + x)[..n] == text[..n]
  {
    assert ([c] + x)[..n] == [c] + x[..n - 1];
    assert text[..n] == [c] + text[1..][..n - 1];
  }

  lemma TagTail(c: char, rest: string, name: string, n: nat)
    requires IsTagName(name) && TagLength([c] + rest, name) == Some(n)
    ensures '[' !in rest[..n - 1]
  {
    var out := [c] + rest;
    TagBodyHolds(out[1..n - 1], name, '[');
    assert rest[..n - 1] == out[1..n - 1] + [out[n - 1]];
  }

  /** A tag in the result that starts with a copied character is copied as a whole. */
  lemma TagIsCopied(text: string, name: string, redacted: string, n: nat)
    requires IsTagName(name) && IsReplacement(redacted)
    requires text != "" && TagLength(text, name).None? && TagLength(Replace(text, name, redacted), name) == Some(n)
    ensures n <= |text| && Replace(text, name, redacted)[..n] == text[..n]
  {
    var rest := Replace(text[1..], name, redacted);
    TagTail(text[0], rest, name, n);
    CopiesUntilBracket(text[1..], name, redacted, n - 1);
    SamePrefix(text[0], rest, text, n);
  }

  /** Copying one character makes no tag out of what follows it. */
  lemma CopyMakesNoTag(text: string, name: string, redacted: string)
    requires IsTagName(name) && IsReplacement(redacted) && text != "" && TagLength(text, name).None?
    ensures TagLength(Replace(text, name, redacted), name).None?
  {
    var out := Replace(text, name, redacted);
    if TagLength(out, name).Some? {
      TagIsCopied(text, name, redacted, TagLength(out, name).value);
      TagIsItsPrefix(out, text, name, TagLength(out, name).value);
    }
  }

  lemma PrependCopied(c: char, rest: string, name: string)
    requires NoTags(rest, name) && TagLength([c] + rest, name).None?
    ensures NoTags([c] + rest, name)
  {
    var s := [c] + rest;
    forall i | 0 <= i < |s| ensures TagLength(s[i..], name).None? {
      assert s[i..] == if i == 0 then s else rest[i - 1..];
    }
  }

  lemma PrependReplacement(redacted: string, rest: string, name: string)
    requires NoTags(rest, name) && '<' !in redacted
    ensures NoTags(redacted + rest, name)
  {
    var s := redacted + rest;
    forall i | 0 <= i < |s| ensures TagLength(s[i..], name).None? {
      if i < |redacted| {
        assert s[i..][0] == redacted[i];
      } else {
        assert s[i..] == rest[i - |redacted|..];
      }
    }
  }

  lemma {:induction false} ReplaceLeavesNoTags(text: string, name: string, redacted: string)
    requires IsTagName(name) && IsReplacement(redacted)
    ensures NoTags(Replace(text, name, redacted), name)
    decreases |text|
  {
    if text == "" {
      return;
    }
    if TagLength(text, name).Some? {
      var rest := text[TagLength(text, name).value..];
      ReplaceLeavesNoTags(rest, name, redacted);
      PrependReplacement(redacted, Replace(rest, name, redacted), name);
    } else {
      ReplaceLeavesNoTags(text[1..], name, redacted);
      CopyMakesNoTag(text, name, redacted);
      PrependCopied(text[0], Replace(text[1..], name, redacted), name);
    }
  }

  lemma {:induction false} NoTagsIsFixed(s: string, name: string, redacted: string)
    requires NoTags(s, name)
    ensures Replace(s, name, redacted) == s
  {
    if s != "" {
      NoTagsBehind(s, name);
      NoTagsIsFixed(s[1..], name, redacted);
    }
  }

  // ----- Only tags are replaced -----

  /** The text between the tags, as the same pass finds it: one piece more than tags. */
  function Pieces(text: string, name: string): (pieces: seq<string>)
    ensures pieces != []
    decreases |text|
  {
    if text == "" then [""]
    else
      match TagLength(text, name)
      case Some(n) => [""] + Pieces(text[n..], name)
      case None => var rest := Pieces(text[1..], name); [[text[0]] + rest[0]] + rest[1..]
  }

  /** The pieces with a separator between any two. */
  function Weave(pieces: seq<string>, between: seq<string>): string
    requires pieces != []
  {
    if between == [] || |pieces| == 1 then pieces[0]
    else pieces[0] + (between[0] + Weave(pieces[1..], between[1..]))
  }

  function Repeat(s: string, n: nat): seq<string> {
    if n == 0 then [] else [s] + Repeat(s, n - 1)
  }

  lemma WeavePrepends(c: char, pieces: seq<string>, between: seq<string>)
    requires pieces != []
    ensures Weave([[c] + pieces[0]] + pieces[1..], between) == [c] + Weave(pieces, between)
  {
    var longer := [[c] + pieces[0]] + pieces[1..];
    assert longer[1..] == pieces[1..] && |longer| == |pieces|;
    if between != [] && |pieces| > 1 {
      var rest := between[0] + Weave(pieces[1..], between[1..]);
      assert ([c] + pieces[0]) + rest == [c] + (pieces[0] + rest);
    }
  }

  lemma WeaveStarts(separator: string, pieces: seq<string>, between: seq<string>)
    requires pieces != []
    ensures Weave([""] + pieces, [separator] + between) == separator + Weave(pieces, between)
  {
    assert ([""] + pieces)[1..] == pieces && ([separator] + between)[1..] == between;
    assert "" + (separator + Weave(pieces, between)) == separator + Weave(pieces, between);
  }

  ghost predicate TagsOnly(text: string, name: string, redacted: string) {
    && |Pieces(text, name)| == |Tags(text, name)| + 1
    && Weave(Pieces(text, name), Tags(text, name)) == text
    && Weave(Pieces(text, name), Repeat(redacted, |Tags(text, name)|)) == Replace(text, name, redacted)
  }

  /** One step of the pass, over a tag or over a character. */
  lemma {:induction false} PassOverTag(text: string, name: string, redacted: string, n: nat)
    requires text != "" && TagLength(text, name) == Some(n)
    ensures Pieces(text, name) == [""] + Pieces(text[n..], name)
    ensures Tags(text, name) == [text[..n]] + Tags(text[n..], name)
    ensures Replace(text, name, redacted) == redacted + Replace(text[n..], name, redacted)
    ensures text == text[..n] + text[n..]
  {
  }

  lemma {:induction false} PassOverCharacter(text: string, name: string, redacted: string)
    requires text != "" && TagLength(text, name).None?
    ensures var rest := Pieces(text[1..], name); Pieces(text, name) == [[text[0]] + rest[0]] + rest[1..]
    ensures Tags(text, name) == Tags(text[1..], name)
    ensures Replace(text, name, redacted) == [text[0]] + Replace(text[1..], name, redacted)
    ensures text == [text[0]] + text[1..]
  {
  }

  lemma RepeatMore(s: string, n: nat)
    ensures Repeat(s, n + 1) == [s] + Repeat(s, n)
  {
  }

  lemma {:induction false} TagsOnlyFromTag(text: string, name: string, redacted: string, n: nat)
    requires text != "" && TagLength(text, name) == Some(n) && TagsOnly(text[n..], name, redacted)
    ensures TagsOnly(text, name, redacted)
  {
    var pieces, tags := Pieces(text[n..], name), Tags(text[n..], name);
    PassOverTag(text, name, redacted, n);
    RepeatMore(redacted, |tags|);
    WeaveStarts(text[..n], pieces, tags);
    WeaveStarts(redacted, pieces, Repeat(redacted, |tags|));
  }

  lemma {:induction false} TagsOnlyFromCharacter(text: string, name: string, redacted: string)
    requires text != "" && TagLength(text, name).None? && TagsOnly(text[1..], name, redacted)
    ensures TagsOnly(text, name, redacted)
  {
    var pieces, tags := Pieces(text[1..], name), Tags(text[1..], name);
    PassOverCharacter(text, name, redacted);
    WeavePrepends(text[0], pieces, tags);
    WeavePrepends(text[0], pieces, Repeat(redacted, |tags|));
  }

  lemma {:induction false} EveryTextIsTagsOnly(text: string, name: string, redacted: string)
    ensures TagsOnly(text, name, redacted)
    decreases |text|
  {
    if text == "" {
    } else if TagLength(text, name).Some? {
      EveryTextIsTagsOnly(text[TagLength(text, name).value..], name, redacted);
      TagsOnlyFromTag(text, name, redacted, TagLength(text, name).value);
    } else {
      EveryTextIsTagsOnly(text[1..], name, redacted);
      TagsOnlyFromCharacter(text, name, redacted);
    }
  }

  /** The text is its pieces and its tags; replacing keeps every piece and puts one replacement for each tag. */
  lemma {:induction false} ReplacesTagsOnly(text: string, name: string, redacted: string)
    ensures |Pieces(text, name)| == |Tags(text, name)| + 1
    ensures Weave(Pieces(text, name), Tags(text, name)) == text
    ensures Weave(Pieces(text, name), Repeat(redacted, |Tags(text, name)|)) == Replace(text, name, redacted)
  {
    EveryTextIsTagsOnly(text, name, redacted);
  }

  // ----- The fence -----

  lemma {:induction false} GreaterOfConcat(x: string, y: string)
    ensures ThroughGreater(x).Some? ==> ThroughGreater(x + y) == ThroughGreater(x)
    ensures ThroughGreater(x).None? && ThroughGreater(y).Some? ==> ThroughGreater(x + y) == Some(|x| + ThroughGreater(y).value)
  {
    if x == "" {
      assert x + y == y;
    } else {
      GreaterOfConcat(x[1..], y);
      assert (x + y)[1..] == x[1..] + y;
    }
  }

  /** A tag that ends inside the text is the text's own. */
  lemma TagInside(x: string, y: string, name: string, n: nat)
    requires ThroughGreater(x).Some? && TagLength(x + y, name) == Some(n)
    ensures TagLength(x, name) == Some(n)
  {
    GreaterOfConcat(x, y);
    assert (x + y)[..n] == x[..n];
    TagIsItsPrefix(x + y, x, name, n);
  }

  /** No tag holds a second '<'. */
  lemma NoTagOverLess(s: string, name: string, i: nat, n: nat)
    requires IsTagName(name) && ThroughGreater(s) == Some(n) && 0 < i < n - 1 && s[i] == '<'
    ensures TagLength(s, name).None?
  {
    assert s[1..n - 1][i - 1] == '<';
    if IsTagBody(s[1..n - 1], name) {
      TagBodyHolds(s[1..n - 1], name, '<');
    }
  }

  /** A '<' behind the text keeps a tag from reaching across. */
  lemma NoTagAcross(x: string, y: string, name: string, k: nat)
    requires IsTagName(name) && x != "" && TagLength(x, name).None? && ThroughGreater(y).Some?
    requires k < ThroughGreater(y).value - 1 && y[k] == '<'
    ensures TagLength(x + y, name).None?
  {
    var s := x + y;
    if ThroughGreater(x).Some? {
      if TagLength(s, name).Some? {
        TagInside(x, y, name, TagLength(s, name).value);
      }
    } else {
      GreaterOfConcat(x, y);
      NoTagOverLess(s, name, |x| + k, |x| + ThroughGreater(y).value);
    }
  }

  lemma {:induction false} TagsAcross(x: string, y: string, name: string, k: nat)
    requires IsTagName(name) && NoTags(x, name) && ThroughGreater(y).Some?
    requires k < ThroughGreater(y).value - 1 && y[k] == '<'
    ensures Tags(x + y, name) == Tags(y, name)
  {
    if x == "" {
      assert x + y == y;
    } else {
      NoTagsBehind(x, name);
      NoTagAcross(x, y, name, k);
      assert (x + y)[1..] == x[1..] + y;
      TagsAcross(x[1..], y, name, k);
    }
  }

  lemma {:induction false} NoGreater(s: string)
    requires '>' !in s
    ensures ThroughGreater(s).None?
  {
    if s != "" {
      NoGreater(s[1..]);
    }
  }

  lemma GreaterOfTag(body: string, rest: string)
    requires '>' !in body
    ensures ThroughGreater(("<" + (body + ">")) + rest) == Some(|body| + 2)
  {
    NoGreater(body);
    GreaterOfConcat(body, ">");
    NoGreater("<");
    GreaterOfConcat("<", body + ">");
    GreaterOfConcat("<" + (body + ">"), rest);
  }

  /** A tag written around a body without '>' is read back as such, whatever follows it. */
  lemma WrittenTagIsRead(body: string, name: string, rest: string)
    requires IsTagName(name) && '>' !in body && IsTagBody(body, name)
    ensures var tag := "<" + (body + ">");
            && ThroughGreater(tag + rest) == Some(|body| + 2)
            && TagLength(tag + rest, name) == Some(|body| + 2)
            && (tag + rest)[..|body| + 2] == tag && (tag + rest)[|body| + 2..] == rest
  {
    var tag := "<" + (body + ">");
    GreaterOfTag(body, rest);
    assert (tag + rest)[1..|body| + 1] == body;
  }

  lemma NamesAreBodies(name: string)
    requires IsTagName(name)
    ensures IsTagBody(name, name) && IsTagBody("/" + name, name) && '>' !in "/" + name
  {
    TrimIsIdempotent(name);
    assert WithoutSlash(name) == name && ("/" + name)[1..] == name;
  }

  lemma {:induction false} CloseBehindNewline(name: string)
    requires IsTagName(name)
    ensures var tail := "\n" + Close(name);
            && ThroughGreater(tail) == Some(|tail|) && tail[1] == '<' && |tail| > 3 && Tags(tail, name) == [Close(name)]
  {
    var tail := "\n" + Close(name);
    NamesAreBodies(name);
    WrittenTagIsRead("/" + name, name, "");
    assert Close(name) + "" == Close(name);
    NoGreater("\n");
    GreaterOfConcat("\n", Close(name));
    assert tail[1..] == Close(name) && TagLength(tail, name).None?;
    assert Tags(Close(name), name) == [Close(name)] + Tags("", name);
  }

  lemma TagsBehindNewline(inner: string, name: string)
    ensures Tags("\n" + inner, name) == Tags(inner, name)
  {
    assert ("\n" + inner)[1..] == inner && ("\n" + inner)[0] == '\n';
  }

  lemma TagsBehindOpen(rest: string, name: string)
    requires IsTagName(name)
    ensures Tags(Open(name) + rest, name) == [Open(name)] + Tags(rest, name)
  {
    NamesAreBodies(name);
    WrittenTagIsRead(name, name, rest);
  }

  lemma {:induction false} FenceTags(text: string, name: string, redacted: string)
    requires IsTagName(name) && IsReplacement(redacted)
    ensures Tags(Enclose(text, name, redacted), name) == [Open(name), Close(name)]
  {
    var tail := "\n" + Close(name);
    var inner := Replace(text, name, redacted) + tail;
    CloseBehindNewline(name);
    ReplaceLeavesNoTags(text, name, redacted);
    TagsAcross(Replace(text, name, redacted), tail, name, 1);
    TagsBehindNewline(inner, name);
    TagsBehindOpen("\n" + inner, name);
  }

  // ----- The worker's fence -----

  const NAME := "UNTRUSTED_USER_CONTENT"
  const REDACTED := "[REDACTED_FENCE_TAG]"

  function SanitizeUntrustedContent(text: string): string {
    Replace(text, NAME, REDACTED)
  }

  function FenceUntrustedContent(text: string): string {
    Enclose(text, NAME, REDACTED)
  }

  lemma FenceIsWellNamed()
    ensures IsTagName(NAME) && IsReplacement(REDACTED)
  {
  }

  /** The tag counts in any case and with space around the name, opening or closing. */
  lemma TagsInAnyForm(body: string)
    requires '>' !in body && Lower(Trim(body)) == Lower(NAME)
    ensures SanitizeUntrustedContent("<" + (body + ">")) == REDACTED
    ensures SanitizeUntrustedContent("<" + (("/" + body) + ">")) == REDACTED
  {
    NameIsNotSlashed(body);
    assert IsTagBody(body, NAME);
    OneTagIsReplaced(body);
    assert ("/" + body)[1..] == body;
    assert IsTagBody("/" + body, NAME);
    OneTagIsReplaced("/" + body);
  }

  lemma NameIsNotSlashed(body: string)
    requires Lower(Trim(body)) == Lower(NAME)
    ensures WithoutSlash(body) == body
  {
    if body != "" && body[0] == '/' {
      TrimStartKeepsFirst(body);
      LowerFirst(Trim(body));
    }
  }

  lemma LowerFirst(s: string)
    requires s != ""
    ensures Lower(s)[0] == LowerChar(s[0])
  {
  }

  lemma OneTagIsReplaced(body: string)
    requires '>' !in body && IsTagBody(body, NAME)
    ensures SanitizeUntrustedContent("<" + (body + ">")) == REDACTED
  {
    var tag := "<" + (body + ">");
    FenceIsWellNamed();
    WrittenTagIsRead(body, NAME, "");
    assert tag + "" == tag;
    assert Replace("", NAME, REDACTED) == "";
    assert REDACTED + "" == REDACTED;
  }

  lemma TrimStartKeepsFirst(s: string)
    requires s != "" && !IsSpace(s[0])
    ensures Trim(s) != "" && Trim(s)[0] == s[0]
  {
    TrimEndKeepsFirst(s);
  }

  lemma {:induction false} TrimEndKeepsFirst(s: string)
    requires s != "" && !IsSpace(s[0])
    ensures TrimEnd(s) != "" && TrimEnd(s)[0] == s[0]
  {
    if IsSpace(s[|s| - 1]) {
      TrimEndKeepsFirst(s[..|s| - 1]);
    }
  }

  /** Sanitized text holds no fence tag; only text with a tag changes, so sanitizing twice is sanitizing once. */
  lemma SanitizedIsClean(text: string)
    ensures NoTags(SanitizeUntrustedContent(text), NAME)
    ensures SanitizeUntrustedContent(text) == text <==> NoTags(text, NAME)
    ensures SanitizeUntrustedContent(SanitizeUntrustedContent(text)) == SanitizeUntrustedContent(text)
  {
    FenceIsWellNamed();
    ReplaceLeavesNoTags(text, NAME, REDACTED);
    NoTagsIsFixed(SanitizeUntrustedContent(text), NAME, REDACTED);
    if NoTags(text, NAME) {
      NoTagsIsFixed(text, NAME, REDACTED);
    }
  }

  /** Whatever the text, its fence holds exactly two tags: the open one first and the close one last. */
  lemma FenceHasTwoTags(text: string)
    ensures Tags(FenceUntrustedContent(text), NAME) == [Open(NAME), Close(NAME)]
    ensures Open(NAME) <= FenceUntrustedContent(text)
  {
    FenceIsWellNamed();
    FenceTags(text, NAME, REDACTED);
  }
}
