/**
 Turning the recipients of an e-mail into addresses, one clarification at a time.  The
 contact book is fixed; its lookups come from outside.
 */
module Clarification {
  import opened Wrappers
  import opened Strings

  datatype ContactOption = ContactOption(name: string, email: string)

  datatype Lookup = Found(email: string) | Ambiguous(options: seq<ContactOption>) | Unknown

  /** The acting user's contacts; None without a user. */
  type Book = Option<string -> Lookup>

  datatype Params = Params(to: Value, recipient: Value, recipients: Value, email: Value)

  datatype Resolution =
    | Resolved(to: seq<string>)
    | Clarify(reference: string, options: seq<ContactOption>)
    | Failed

  // ----- Addresses -----

  predicate NoSpaceNoAt(s: string) {
    forall i :: 0 <= i < |s| ==> !IsSpace(s[i]) && s[i] != '@'
  }

  predicate HasInnerDot(s: string) {
    exists i :: 0 < i < |s| - 1 && s[i] == '.'
  }

  predicate IsValidEmail(s: string) {
    exists k :: 0 < k < |s| && s[k] == '@' && NoSpaceNoAt(s[..k]) && NoSpaceNoAt(s[k + 1..]) && HasInnerDot(s[k + 1..])
  }

  /** The address in three parts, none of them empty and none with a space or an at sign. */
  predicate IsAddress(s: string, local: string, host: string, top: string) {
    && local != "" && host != "" && top != "" && NoSpaceNoAt(local) && NoSpaceNoAt(host) && NoSpaceNoAt(top)
    && s == local + ("@" + (host + ("." + top)))
  }

  /** An address is valid exactly when it is local@host.top for some such parts. */
  lemma ValidEmailsAreAddresses(s: string)
    ensures IsValidEmail(s) <==> exists local, host, top :: IsAddress(s, local, host, top)
  {
    if IsValidEmail(s) {
      var k :| 0 < k < |s| && s[k] == '@' && NoSpaceNoAt(s[..k]) && NoSpaceNoAt(s[k + 1..]) && HasInnerDot(s[k + 1..]);
      DomainHasParts(s[k + 1..]);
      var host, top :| host != "" && top != "" && NoSpaceNoAt(host) && NoSpaceNoAt(top) && s[k + 1..] == host + ("." + top);
      SplitsAt(s, k);
      assert IsAddress(s, s[..k], host, top);
    }
    forall local, host, top | IsAddress(s, local, host, top) ensures IsValidEmail(s) {
      AddressIsValid(s, local, host, top);
    }
  }

  lemma SplitsAt(s: string, k: nat)
    requires k < |s|
    ensures s == s[..k] + ([s[k]] + s[k + 1..])
  {
  }

  lemma DomainHasParts(domain: string)
    requires NoSpaceNoAt(domain) && HasInnerDot(domain)
    ensures exists host, top :: host != "" && top != "" && NoSpaceNoAt(host) && NoSpaceNoAt(top) && domain == host + ("." + top)
  {
    var i :| 0 < i < |domain| - 1 && domain[i] == '.';
    SplitsAt(domain, i);
    assert NoSpaceNoAt(domain[..i]) && NoSpaceNoAt(domain[i + 1..]);
  }

  lemma AddressIsValid(s: string, local: string, host: string, top: string)
    requires IsAddress(s, local, host, top)
    ensures IsValidEmail(s)
  {
    var k, domain := |local|, host + ("." + top);
    assert s[k] == '@' && s[..k] == local && s[k + 1..] == domain;
    assert domain[|host|] == '.' && 0 < |host| < |domain| - 1;
    forall i | 0 <= i < |domain| ensures !IsSpace(domain[i]) && domain[i] != '@' {
      if i > |host| {
        assert domain[i] == top[i - |host| - 1];
      }
    }
  }

  const PlaceholderDomains := [
    "example.com", "example.org", "example.net", "example.edu", "test.com", "test.org", "test.net", "foo.com", "bar.com",
    "domain.com", "email.com", "mail.com", "company.com", "mycompany.com", "yourcompany.com", "yourdomain.com",
    "yourname.com", "placeholder.com", "anywhere.com"]

  predicate EndsWith(s: string, suffix: string) {
    |s| >= |suffix| && s[|s| - |suffix|..] == suffix
  }

  predicate IsReserved(domain: string) {
    EndsWith(domain, ".test") || EndsWith(domain, ".example") || EndsWith(domain, ".invalid")
    || EndsWith(domain, ".localhost") || EndsWith(domain, ".local")
  }

  /** Reserved is what has a reserved top-level domain. */
  lemma ReservedTops(host: string, top: string)
    requires '.' !in top
    ensures IsReserved(host + ("." + top)) <==>
      top == "test" || top == "example" || top == "invalid" || top == "localhost" || top == "local"
  {
    EndsInTop(host, top, "test", ".test");
    EndsInTop(host, top, "example", ".example");
    EndsInTop(host, top, "invalid", ".invalid");
    EndsInTop(host, top, "localhost", ".localhost");
    EndsInTop(host, top, "local", ".local");
  }

  lemma EndsInTop(host: string, top: string, reserved: string, suffix: string)
    requires '.' !in top && '.' !in reserved && suffix == "." + reserved
    ensures EndsWith(host + ("." + top), suffix) <==> top == reserved
  {
    var s := host + ("." + top);
    AfterLastIs(host, '.', top);
    if EndsWith(s, suffix) {
      var k := |s| - |suffix|;
      assert s == s[..k] + ("." + reserved);
      AfterLastIs(s[..k], '.', reserved);
    }
    if top == reserved {
      assert s[|host|..] == suffix;
    }
  }

  predicate IsPlaceholderDomain(domain: string) {
    domain in PlaceholderDomains || IsReserved(domain)
  }

  predicate IsPlaceholderEmail(s: string) {
    IsValidEmail(s) && IsPlaceholderDomain(Lower(Trim(AfterLast(s, '@'))))
  }

  /** A valid address is a placeholder exactly when its domain is, in any case. */
  lemma PlaceholderTells(s: string, local: string, host: string, top: string)
    requires IsAddress(s, local, host, top)
    ensures IsPlaceholderEmail(s) <==> IsPlaceholderDomain(Lower(host + ("." + top)))
  {
    var domain := host + ("." + top);
    AddressIsValid(s, local, host, top);
    AfterLastIs(local, '@', domain);
    assert domain[0] == host[0] && domain[|domain| - 1] == top[|top| - 1];
    TrimIsIdempotent(domain);
  }

  // ----- References -----

  /** The pieces of a string between commas and semicolons, trimmed, blanks dropped. */
  function SplitClean(s: string, piece: string): seq<string>
    decreases |s|
  {
    if s == "" then (if Trim(piece) == "" then [] else [Trim(piece)])
    else if s[0] == ';' || s[0] == ',' then
      (if Trim(piece) == "" then [] else [Trim(piece)]) + SplitClean(s[1..], "")
    else SplitClean(s[1..], piece + [s[0]])
  }

  /** Both separators split, and what lies between them is trimmed; without one the text is one piece. */
  lemma {:induction false} SplitAtSeparator(a: string, c: char, b: string, piece: string)
    requires c == ',' || c == ';'
    ensures SplitClean(a + ([c] + b), piece) == SplitClean(a, piece) + SplitClean(b, "")
    decreases |a|
  {
    var s := a + ([c] + b);
    if a == "" {
      assert s[1..] == b;
    } else {
      assert s[1..] == a[1..] + ([c] + b);
      SplitAtSeparator(a[1..], c, b, if a[0] == ';' || a[0] == ',' then "" else piece + [a[0]]);
    }
  }

  lemma {:induction false} OnePiece(s: string, piece: string)
    requires ',' !in s && ';' !in s
    ensures SplitClean(s, piece) == if Trim(piece + s) == "" then [] else [Trim(piece + s)]
    decreases |s|
  {
    if s == "" {
      assert piece + s == piece;
    } else {
      OnePiece(s[1..], piece + [s[0]]);
      assert piece + [s[0]] + s[1..] == piece + s;
    }
  }

  function CleanItems(items: seq<Value>): seq<string> {
    if items == [] then []
    else (if items[0].Text? && Trim(items[0].text) != "" then [Trim(items[0].text)] else []) + CleanItems(items[1..])
  }

  function Candidates(v: Value): seq<string> {
    match v
    case Text(s) => SplitClean(s, "")
    case List(items) => CleanItems(items)
    case Other => []
  }

  function References(p: Params): seq<string> {
    if Candidates(p.to) != [] then Candidates(p.to)
    else if Candidates(p.recipient) != [] then Candidates(p.recipient)
    else if Candidates(p.recipients) != [] then Candidates(p.recipients)
    else Candidates(p.email)
  }

  /** The references are those of the first parameter that has any: to, recipient, recipients, email. */
  lemma ReferencesTell(p: Params, i: nat)
    requires i < 4
    ensures var sources := [Candidates(p.to), Candidates(p.recipient), Candidates(p.recipients), Candidates(p.email)];
            && (sources[i] != [] && (forall j :: 0 <= j < i ==> sources[j] == []) ==> References(p) == sources[i])
            && (References(p) == [] <==> forall j :: 0 <= j < 4 ==> sources[j] == [])
  {
    var sources := [Candidates(p.to), Candidates(p.recipient), Candidates(p.recipients), Candidates(p.email)];
    assert sources[0] == Candidates(p.to) && sources[1] == Candidates(p.recipient);
    assert sources[2] == Candidates(p.recipients) && sources[3] == Candidates(p.email);
  }

  predicate IsReference(s: string) {
    s != "" && Trimmed(s)
  }

  lemma {:induction false} SplitGivesReferences(s: string, piece: string)
    ensures forall r :: r in SplitClean(s, piece) ==> IsReference(r)
    decreases |s|
  {
    TrimIsIdempotent(piece);
    if s != "" {
      if s[0] == ';' || s[0] == ',' {
        SplitGivesReferences(s[1..], "");
      } else {
        SplitGivesReferences(s[1..], piece + [s[0]]);
      }
    }
  }

  lemma {:induction false} ItemsGiveReferences(items: seq<Value>)
    ensures forall r :: r in CleanItems(items) ==> IsReference(r)
  {
    if items != [] {
      ItemsGiveReferences(items[1..]);
      if items[0].Text? {
        TrimIsIdempotent(items[0].text);
      }
    }
  }

  lemma CandidatesAreReferences(v: Value)
    ensures forall r :: r in Candidates(v) ==> IsReference(r)
  {
    match v
    case Text(s) => SplitGivesReferences(s, "");
    case List(items) => ItemsGiveReferences(items);
    case Other =>
  }

  function Texts(refs: seq<string>): seq<Value> {
    seq(|refs|, i requires 0 <= i < |refs| => Text(refs[i]))
  }

  lemma {:induction false} TextsAreTheirReferences(refs: seq<string>)
    requires forall r :: r in refs ==> IsReference(r)
    ensures CleanItems(Texts(refs)) == refs
  {
    if refs != [] {
      assert IsReference(refs[0]);
      TrimIsIdempotent(refs[0]);
      assert Texts(refs)[0] == Text(refs[0]);
      assert refs == [refs[0]] + refs[1..];
      assert Texts(refs)[1..] == Texts(refs[1..]);
      TextsAreTheirReferences(refs[1..]);
    }
  }

  // ----- Resolving -----

  datatype Answer = Take(email: string) | Ask(options: seq<ContactOption>) | GiveUp

  /** What one reference comes to: a placeholder is asked about before any lookup. */
  function Classify(ref: string, book: Book): Answer {
    if IsPlaceholderEmail(ref) then Ask([])
    else if IsValidEmail(ref) then Take(NormalizeEmail(ref))
    else if book.None? then GiveUp
    else
      match book.value(ref)
      case Found(email) => Take(email)
      case Ambiguous(options) => if options != [] then Ask(options) else GiveUp
      case Unknown => GiveUp
  }

  /** A question is asked exactly about a placeholder, without options, and about a name that fits several contacts. */
  lemma AsksExactlyWhen(ref: string, book: Book)
    ensures Classify(ref, book) == Ask([]) <==> IsPlaceholderEmail(ref)
    ensures forall options :: options != [] ==>
              (Classify(ref, book) == Ask(options) <==> !IsValidEmail(ref) && book.Some? && book.value(ref) == Ambiguous(options))
    ensures Classify(ref, book).Take? <==>
      (IsValidEmail(ref) && !IsPlaceholderEmail(ref)) || (!IsValidEmail(ref) && book.Some? && book.value(ref).Found?)
    ensures Classify(ref, book).Take? ==>
      Classify(ref, book).email == if IsValidEmail(ref) then NormalizeEmail(ref) else book.value(ref).email
  {
  }

  predicate Needs(ref: string, book: Book) {
    Classify(ref, book).Ask?
  }

  /** First occurrences of the trimmed lower-case addresses, blanks dropped. */
  function Deduped(emails: seq<string>): seq<string> {
    if emails == [] then []
    else
      var before, e := Deduped(emails[..|emails| - 1]), NormalizeEmail(emails[|emails| - 1]);
      if e == "" || e in before then before else before + [e]
  }

  /** A deduplicated list is distinct, holds exactly the non-blank normal forms, and is its own. */
  lemma {:induction false} DedupedIsDistinct(emails: seq<string>)
    ensures Distinct(Deduped(emails))
    ensures forall e :: e in Deduped(emails) <==> e != "" && exists i :: 0 <= i < |emails| && e == NormalizeEmail(emails[i])
  {
    if emails != [] {
      var init := emails[..|emails| - 1];
      DedupedIsDistinct(init);
      forall e | e in Deduped(emails) ensures exists i :: 0 <= i < |emails| && e == NormalizeEmail(emails[i]) {
        if e in Deduped(init) {
          var i :| 0 <= i < |init| && e == NormalizeEmail(init[i]);
          assert emails[i] == init[i];
        } else {
          assert e == NormalizeEmail(emails[|emails| - 1]);
        }
      }
      forall i | 0 <= i < |emails| && NormalizeEmail(emails[i]) != "" ensures NormalizeEmail(emails[i]) in Deduped(emails) {
        if i < |init| {
          assert init[i] == emails[i];
        }
      }
    }
  }

  /** First occurrences keep their order: a longer list only appends. */
  lemma {:induction false} DedupedGrows(emails: seq<string>, more: seq<string>)
    ensures Deduped(emails) <= Deduped(emails + more)
  {
    if more == [] {
      assert emails + more == emails;
    } else {
      DedupedGrows(emails, more[..|more| - 1]);
      assert (emails + more)[..|emails + more| - 1] == emails + more[..|more| - 1];
    }
  }

  method DedupeEmails(emails: seq<string>) returns (output: seq<string>)
    ensures output == Deduped(emails)
  {
    var seen: set<string> := {};
    output := [];
    for i := 0 to |emails|
      invariant output == Deduped(emails[..i])
      invariant forall e :: e in seen <==> e in output
    {
      assert emails[..i + 1][..i] == emails[..i];
      var normalized := NormalizeEmail(emails[i]);
      if normalized == "" || normalized in seen {
        continue;
      }
      seen := seen + {normalized};
      output := output + [normalized];
    }
    assert emails[..|emails|] == emails;
  }

  /** The first reference that is not taken decides. */
  function ResolveRest(refs: seq<string>, taken: seq<string>, book: Book): Resolution {
    if refs == [] then Resolved(Deduped(taken))
    else
      match Classify(refs[0], book)
      case Take(email) => ResolveRest(refs[1..], taken + [email], book)
      case Ask(options) => Clarify(refs[0], options)
      case GiveUp => Failed
  }

  function Resolve(refs: seq<string>, book: Book): Resolution {
    if refs == [] then Failed else ResolveRest(refs, [], book)
  }

  method ResolveSendEmailParams(p: Params, book: Book) returns (r: Resolution)
    ensures r == Resolve(References(p), book)
  {
    var refs := References(p);
    if refs == [] {
      return Failed;
    }
    var taken: seq<string> := [];
    for i := 0 to |refs|
      invariant Resolve(refs, book) == ResolveRest(refs[i..], taken, book)
    {
      assert refs[i..][1..] == refs[i + 1..];
      match Classify(refs[i], book) {
        case Take(email) => taken := taken + [email];
        case Ask(options) => return Clarify(refs[i], options);
        case GiveUp => return Failed;
      }
    }
    var to := DedupeEmails(taken);
    r := Resolved(to);
  }

  /** A question is about a reference that needs it, and none needs one once the parameters are resolved. */
  lemma {:induction false} QuestionsAreNeeded(refs: seq<string>, taken: seq<string>, book: Book)
    ensures var r := ResolveRest(refs, taken, book);
            && (r.Clarify? ==> r.reference in refs && Classify(r.reference, book) == Ask(r.options))
            && (r.Resolved? ==> forall x :: x in refs ==> Classify(x, book).Take?)
  {
    if refs != [] && Classify(refs[0], book).Take? {
      QuestionsAreNeeded(refs[1..], taken + [Classify(refs[0], book).email], book);
    }
  }

  /** The addresses that taken references come to, in order. */
  function Emails(refs: seq<string>, book: Book): seq<string> {
    if refs == [] then []
    else (if Classify(refs[0], book).Take? then [Classify(refs[0], book).email] else []) + Emails(refs[1..], book)
  }

  lemma TakeOne(taken: seq<string>, email: string, rest: seq<string>)
    ensures (taken + [email]) + rest == taken + ([email] + rest)
  {
  }

  lemma {:induction false} ResolvedTakesAll(refs: seq<string>, taken: seq<string>, book: Book)
    requires ResolveRest(refs, taken, book).Resolved?
    ensures ResolveRest(refs, taken, book).to == Deduped(taken + Emails(refs, book))
  {
    if refs == [] {
      assert taken + [] == taken;
    } else {
      var email := Classify(refs[0], book).email;
      ResolvedTakesAll(refs[1..], taken + [email], book);
      TakeOne(taken, email, Emails(refs[1..], book));
    }
  }

  /** A resolved request has distinct lower-case recipients: every reference's address, and no other. */
  lemma {:induction false} ResolvedRecipients(refs: seq<string>, book: Book)
    requires Resolve(refs, book).Resolved?
    ensures var to, emails := Resolve(refs, book).to, Emails(refs, book);
            && Distinct(to) && |emails| == |refs|
            && forall e :: e in to <==> e != "" && exists i :: 0 <= i < |emails| && e == NormalizeEmail(emails[i])
  {
    QuestionsAreNeeded(refs, [], book);
    ResolvedTakesAll(refs, [], book);
    assert [] + Emails(refs, book) == Emails(refs, book);
    EmailForEach(refs, book);
    DedupedIsDistinct(Emails(refs, book));
  }

  lemma {:induction false} EmailForEach(refs: seq<string>, book: Book)
    requires forall x :: x in refs ==> Classify(x, book).Take?
    ensures |Emails(refs, book)| == |refs|
  {
    if refs != [] {
      EmailForEach(refs[1..], book);
    }
  }

  // ----- Replies -----

  predicate IsDigit(c: char) {
    '0' <= c <= '9'
  }

  function Digits(s: string, n: nat): nat {
    if s != "" && IsDigit(s[0]) then Digits(s[1..], 10 * n + (s[0] - '0') as nat) else n
  }

  /** The integer a text starts with, whatever follows it. */
  function ParseInt(s: string): Option<int> {
    if s != "" && IsDigit(s[0]) then Some(Digits(s, 0))
    else if |s| > 1 && (s[0] == '+' || s[0] == '-') && IsDigit(s[1]) then
      var n: int := Digits(s[1..], 0);
      Some(if s[0] == '-' then -n else n)
    else None
  }

  function FindByEmail(options: seq<ContactOption>, reply: string): Option<ContactOption> {
    if options == [] then None
    else if Lower(options[0].email) == Lower(reply) then Some(options[0])
    else FindByEmail(options[1..], reply)
  }

  function FindByName(options: seq<ContactOption>, reply: string): Option<ContactOption> {
    if options == [] then None
    else if Lower(options[0].name) == Lower(reply) then Some(options[0])
    else FindByName(options[1..], reply)
  }

  predicate NumbersOption(options: seq<ContactOption>, reply: string) {
    ParseInt(reply).Some? && 1 <= ParseInt(reply).value <= |options|
  }

  /** The address a reply selects: by number, then by address, then by name; any address when there are no options. */
  function Select(options: seq<ContactOption>, reply: string): Option<string> {
    var text := Trim(reply);
    if text == "" then None
    else if options == [] then (if IsValidEmail(text) then Some(text) else None)
    else if NumbersOption(options, text) then Some(options[ParseInt(text).value - 1].email)
    else if FindByEmail(options, text).Some? then Some(FindByEmail(options, text).value.email)
    else if FindByName(options, text).Some? then Some(FindByName(options, text).value.email)
    else None
  }

  lemma {:induction false} FindsTheEmail(options: seq<ContactOption>, reply: string)
    ensures FindByEmail(options, reply).Some? <==> exists i :: 0 <= i < |options| && Lower(options[i].email) == Lower(reply)
    ensures FindByEmail(options, reply).Some? ==>
      FindByEmail(options, reply).value in options && Lower(FindByEmail(options, reply).value.email) == Lower(reply)
  {
    if options != [] {
      FindsTheEmail(options[1..], reply);
      forall i | 0 < i < |options| ensures options[i] == options[1..][i - 1] {
      }
    }
  }

  lemma {:induction false} FindsAnOption(options: seq<ContactOption>, reply: string)
    ensures FindByName(options, reply).Some? ==> FindByName(options, reply).value in options
  {
    if options != [] {
      FindsAnOption(options[1..], reply);
    }
  }

  /** A selection is one of the options, or the address the user typed when there were none. */
  lemma SelectionIsOffered(options: seq<ContactOption>, reply: string)
    requires Select(options, reply).Some?
    ensures var e := Select(options, reply).value;
            if options == [] then e == Trim(reply) && IsValidEmail(e)
            else exists i :: 0 <= i < |options| && options[i].email == e
  {
    FindsTheEmail(options, Trim(reply));
    FindsAnOption(options, Trim(reply));
  }

  /**
   Replying with an option's address selects that address exactly when the address does not
   start with the number of another option.
   */
  lemma ReplyByAddress(options: seq<ContactOption>, i: nat)
    requires i < |options| && IsReference(options[i].email)
    ensures var e := options[i].email;
            (Select(options, e).Some? && Lower(Select(options, e).value) == Lower(e))
            <==> !NumbersOption(options, e) || Lower(options[ParseInt(e).value - 1].email) == Lower(e)
  {
    TrimIsIdempotent(options[i].email);
    FindsTheEmail(options, options[i].email);
  }

  /** A reply that is no number and no option's address selects the first option of that name, in any case. */
  lemma {:induction false} ReplyByName(options: seq<ContactOption>, i: nat)
    requires i < |options| && IsReference(options[i].name) && !NumbersOption(options, options[i].name)
    requires forall j :: 0 <= j < |options| ==> Lower(options[j].email) != Lower(options[i].name)
    requires forall j :: 0 <= j < i ==> Lower(options[j].name) != Lower(options[i].name)
    ensures Select(options, options[i].name) == Some(options[i].email)
  {
    TrimIsIdempotent(options[i].name);
    FindsTheEmail(options, options[i].name);
    FindsFirstName(options, i);
  }

  lemma {:induction false} FindsFirstName(options: seq<ContactOption>, i: nat)
    requires i < |options| && forall j :: 0 <= j < i ==> Lower(options[j].name) != Lower(options[i].name)
    ensures FindByName(options, options[i].name) == Some(options[i])
  {
    if i > 0 {
      assert options[0].name != options[i].name && options[1..][i - 1] == options[i];
      forall j | 0 <= j < i - 1 ensures Lower(options[1..][j].name) != Lower(options[i].name) {
        assert options[1..][j] == options[j + 1];
      }
      FindsFirstName(options[1..], i - 1);
    }
  }

  /** Nothing is selected exactly by a blank reply, by one that matches no option, or, without options, by one that is no address. */
  lemma {:induction false} SelectsNothing(options: seq<ContactOption>, reply: string)
    ensures var text := Trim(reply);
            Select(options, reply).None? <==>
              || text == "" || (options == [] && !IsValidEmail(text))
              || (options != [] && !NumbersOption(options, text)
                  && forall i :: 0 <= i < |options| ==> Lower(options[i].email) != Lower(text) && Lower(options[i].name) != Lower(text))
  {
    FindsTheEmail(options, Trim(reply));
    FindsTheName(options, Trim(reply));
  }

  lemma {:induction false} FindsTheName(options: seq<ContactOption>, reply: string)
    ensures FindByName(options, reply).Some? <==> exists i :: 0 <= i < |options| && Lower(options[i].name) == Lower(reply)
  {
    if options != [] {
      FindsTheName(options[1..], reply);
      forall i | 0 < i < |options| ensures options[i] == options[1..][i - 1] {
      }
    }
  }

  const TwoOptions := [ContactOption("A", "a@x.com"), ContactOption("B", "1b@x.com")]

  /** It fails: the second option's own address is read as the number 1, and selects the first option. */
  lemma AddressSelectsAnother()
    ensures TwoOptions[1].email == "1b@x.com" && Select(TwoOptions, "1b@x.com") == Some("a@x.com")
  {
    var reply := "1b@x.com";
    assert TrimStart(reply) == reply && TrimEnd(reply) == reply;
    assert reply[1..][0] == 'b';
    assert Digits(reply[1..], 1) == 1;
    assert ParseInt(reply) == Some(1);
  }

  /** A number as the question lists it. */
  function Decimal(n: nat): string {
    if n < 10 then [Digit(n)] else Decimal(n / 10) + [Digit(n % 10)]
  }

  function Digit(n: nat): (c: char)
    requires n < 10
    ensures IsDigit(c) && (c - '0') as nat == n
  {
    '0' + n as char
  }

  ghost predicate AllDigits(s: string) {
    s != "" && forall i :: 0 <= i < |s| ==> IsDigit(s[i])
  }

  lemma {:induction false} DigitsSnoc(s: string, c: char, n: nat)
    requires IsDigit(c) && forall i :: 0 <= i < |s| ==> IsDigit(s[i])
    ensures Digits(s + [c], n) == 10 * Digits(s, n) + (c - '0') as nat
  {
    if s == "" {
      assert s + [c] == [c];
      assert [c][1..] == "";
    } else {
      assert (s + [c])[1..] == s[1..] + [c];
      DigitsSnoc(s[1..], c, 10 * n + (s[0] - '0') as nat);
    }
  }

  lemma {:induction false} DecimalReads(n: nat)
    ensures AllDigits(Decimal(n)) && Digits(Decimal(n), 0) == n
  {
    if n < 10 {
      assert [Digit(n)][1..] == "";
    } else {
      DecimalReads(n / 10);
      DigitsSnoc(Decimal(n / 10), Digit(n % 10), 0);
    }
  }

  /** Replying with the number of an option selects it. */
  lemma ReplyByNumber(options: seq<ContactOption>, i: nat)
    requires i < |options|
    ensures Select(options, Decimal(i + 1)) == Some(options[i].email)
  {
    var reply := Decimal(i + 1);
    DecimalReads(i + 1);
    assert IsDigit(reply[0]) && IsDigit(reply[|reply| - 1]);
    TrimIsIdempotent(reply);
  }

  // ----- Rounds -----

  function Replace(refs: seq<string>, target: string, email: string): seq<string> {
    if refs == [] then []
    else [if Lower(refs[0]) == Lower(target) then email else refs[0]] + Replace(refs[1..], target, email)
  }

  function CountNeeds(refs: seq<string>, book: Book): nat {
    if refs == [] then 0 else (if Needs(refs[0], book) then 1 else 0) + CountNeeds(refs[1..], book)
  }

  /** Writing the selection into the snapshot, as the next round reads it back. */
  function Snapshot(p: Params, target: string, email: string): Params {
    p.(to := List(Texts(Replace(References(p), target, email))))
  }

  /** Every occurrence of the target, in any case, becomes the address, and nothing else changes. */
  lemma {:induction false} ReplacedAt(refs: seq<string>, target: string, email: string, i: nat)
    requires i < |refs|
    ensures |Replace(refs, target, email)| == |refs|
    ensures Replace(refs, target, email)[i] == if Lower(refs[i]) == Lower(target) then email else refs[i]
  {
    if i > 0 {
      ReplacedAt(refs[1..], target, email, i - 1);
    } else if |refs| > 1 {
      ReplacedAt(refs[1..], target, email, 0);
    }
  }

  lemma {:induction false} ReplaceKeepsReferences(refs: seq<string>, target: string, email: string)
    requires IsReference(email) && forall r :: r in refs ==> IsReference(r)
    ensures |Replace(refs, target, email)| == |refs| && forall r :: r in Replace(refs, target, email) ==> IsReference(r)
  {
    if refs != [] {
      ReplaceKeepsReferences(refs[1..], target, email);
    }
  }

  lemma ReferencesAreClean(p: Params)
    ensures forall r :: r in References(p) ==> IsReference(r)
  {
    CandidatesAreReferences(p.to);
    CandidatesAreReferences(p.recipient);
    CandidatesAreReferences(p.recipients);
    CandidatesAreReferences(p.email);
  }

  /** The snapshot's references are the old ones with the target replaced. */
  lemma SnapshotReplaces(p: Params, target: string, email: string)
    requires References(p) != [] && IsReference(email)
    ensures References(Snapshot(p, target, email)) == Replace(References(p), target, email)
  {
    ReferencesAreClean(p);
    ReplaceKeepsReferences(References(p), target, email);
    TextsAreTheirReferences(Replace(References(p), target, email));
  }

  lemma {:induction false} ReplaceCounts(refs: seq<string>, target: string, email: string, book: Book)
    ensures !Needs(email, book) ==> CountNeeds(Replace(refs, target, email), book) <= CountNeeds(refs, book)
    ensures !Needs(email, book) && target in refs && Needs(target, book) ==>
      CountNeeds(Replace(refs, target, email), book) < CountNeeds(refs, book)
    ensures Needs(email, book) ==> CountNeeds(Replace(refs, target, email), book) >= CountNeeds(refs, book)
  {
    if refs != [] {
      ReplaceCounts(refs[1..], target, email, book);
    }
  }

  /** A round leaves fewer references to ask about exactly when the selected address raises no question itself. */
  lemma RoundMakesProgress(p: Params, book: Book, email: string)
    requires Resolve(References(p), book).Clarify? && IsReference(email)
    ensures var target := Resolve(References(p), book).reference;
            CountNeeds(References(Snapshot(p, target, email)), book) < CountNeeds(References(p), book) <==> !Needs(email, book)
  {
    var refs := References(p);
    QuestionsAreNeeded(refs, [], book);
    var target := Resolve(refs, book).reference;
    SnapshotReplaces(p, target, email);
    ReplaceCounts(refs, target, email, book);
  }

  /** The conversation: each reply that selects an address is written into the snapshot, any other changes nothing. */
  function Rounds(p: Params, replies: seq<string>, book: Book): Params {
    if replies == [] then p
    else
      var before := Rounds(p, replies[..|replies| - 1], book);
      match Resolve(References(before), book)
      case Clarify(target, options) =>
        (match Select(options, replies[|replies| - 1])
         case Some(email) => Snapshot(before, target, email)
         case None => before)
      case _ => before
  }

  ghost predicate SelectsWell(p: Params, reply: string, book: Book) {
    var r := Resolve(References(p), book);
    r.Clarify? ==>
      Select(r.options, reply).Some? && IsReference(Select(r.options, reply).value) && !Needs(Select(r.options, reply).value, book)
  }

  /** Every reply selects an address that raises no question. */
  ghost predicate GoodReplies(p: Params, replies: seq<string>, book: Book) {
    replies != [] ==>
      GoodReplies(p, replies[..|replies| - 1], book)
      && SelectsWell(Rounds(p, replies[..|replies| - 1], book), replies[|replies| - 1], book)
  }

  lemma {:induction false} RoundsCountDown(p: Params, replies: seq<string>, book: Book)
    requires GoodReplies(p, replies, book)
    ensures var end := Rounds(p, replies, book);
            Resolve(References(end), book).Clarify? ==> CountNeeds(References(end), book) + |replies| <= CountNeeds(References(p), book)
    ensures CountNeeds(References(Rounds(p, replies, book)), book) <= CountNeeds(References(p), book)
  {
    if replies != [] {
      var init := replies[..|replies| - 1];
      RoundsCountDown(p, init, book);
      var before := Rounds(p, init, book);
      var r := Resolve(References(before), book);
      if r.Clarify? {
        RoundMakesProgress(before, book, Select(r.options, replies[|replies| - 1]).value);
      }
    }
  }

  lemma {:induction false} NeededIsCounted(refs: seq<string>, x: string, book: Book)
    requires x in refs && Needs(x, book)
    ensures CountNeeds(refs, book) > 0
  {
    if refs[0] != x {
      NeededIsCounted(refs[1..], x, book);
    }
  }

  /** With good replies a request asks at most as many questions as it has references that need one. */
  lemma FewRounds(p: Params, replies: seq<string>, book: Book)
    requires GoodReplies(p, replies, book) && |replies| >= CountNeeds(References(p), book)
    ensures !Resolve(References(Rounds(p, replies, book)), book).Clarify?
  {
    RoundsCountDown(p, replies, book);
    var refs := References(Rounds(p, replies, book));
    if Resolve(refs, book).Clarify? {
      QuestionsAreNeeded(refs, [], book);
      NeededIsCounted(refs, Resolve(refs, book).reference, book);
    }
  }

  /** The question about a placeholder accepts another placeholder, and asks again. */
  lemma PlaceholderReplyIsNoProgress(p: Params, book: Book, reply: string)
    requires var r := Resolve(References(p), book); r.Clarify? && r.options == []
    requires IsPlaceholderEmail(reply) && IsReference(reply)
    ensures Select([], reply) == Some(reply)
    ensures CountNeeds(References(Rounds(p, [reply], book)), book) >= CountNeeds(References(p), book)
  {
    TrimIsIdempotent(reply);
    RoundMakesProgress(p, book, reply);
    assert [reply][..0] == [];
    assert Rounds(p, [], book) == p;
    assert Rounds(p, [reply], book) == Snapshot(p, Resolve(References(p), book).reference, reply);
  }
}
