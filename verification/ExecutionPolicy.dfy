/** Whether an action runs by itself, waits for a human, or is refused. */
module ExecutionPolicy {
  import opened Wrappers
  import opened Strings

  datatype Outcome = AutoExecute | ApprovalRequired | Blocked

  datatype Mode = AutoMode | RequireApprovalMode | SuggestOnlyMode

  datatype GuardMode = GuardOff | GuardMonitor | GuardEnforce

  datatype Risk = Low | Medium | High

  datatype ActionType = SendEmail | ScheduleMeeting | CreateGithubIssue | NoTool

  datatype OrgPolicy = OrgPolicy(
    thresholds: map<string, Num>,
    allowedDomains: seq<string>,
    requireApprovalFor: seq<string>,
    denyList: seq<string>,
    guardMode: Option<GuardMode>)

  datatype Parameters = Parameters(
    to: Value, participants: Value, attendees: Value, attendeesText: Value, title: Value, semanticType: Option<string>)

  datatype Payload = Payload(
    actionType: ActionType,
    parameters: Parameters,
    confidence: Option<real>,
    needsApproval: bool,
    semanticType: Option<string>,
    participantEmails: seq<string>,
    contactEmails: seq<string>,
    orgPolicy: Option<OrgPolicy>,
    mode: Mode,
    enforce: bool,
    envDomains: seq<string>)

  datatype Reason =
    | ModeSuggestOnly | ModeRequireApproval | DeniedByPolicy | UpstreamApproval | ListedForApproval | LowConfidence
    | NoRecipients | OutsideDomains | ManyRecipients | NoParticipants | NoTitle
    | GuardFinding(email: string) | MonitoredFinding(email: string) | Passed

  datatype Decision = Decision(outcome: Outcome, risk: Risk, reasons: seq<Reason>)

  // ----- Reading the payload -----

  function ActionKey(a: ActionType): string {
    match a
    case SendEmail => "send_email"
    case ScheduleMeeting => "schedule_meeting"
    case CreateGithubIssue => "create_github_issue"
    case NoTool => "none"
  }

  function NonBlank(items: seq<Value>): seq<string> {
    if items == [] then []
    else (if items[0].Text? && Trim(items[0].text) != "" then [items[0].text] else []) + NonBlank(items[1..])
  }

  function ToStrings(v: Value): seq<string> {
    match v
    case List(items) => NonBlank(items)
    case Text(s) => if Trim(s) != "" then [Trim(s)] else []
    case Other => []
  }

  function EmailDomain(email: string): string {
    Lower(AfterLast(email, '@'))
  }

  /** The domains in force are the organisation's, in any case, or the environment's where it names none. */
  predicate Allows(p: Payload, domain: string) {
    if p.orgPolicy.None? || p.orgPolicy.value.allowedDomains == [] then domain in p.envDomains
    else exists i :: 0 <= i < |p.orgPolicy.value.allowedDomains| && Lower(p.orgPolicy.value.allowedDomains[i]) == domain
  }

  /** A recipient is inside exactly when what follows its last @ is an allowed domain, in any case. */
  lemma DomainDecides(p: Payload, local: string, domain: string)
    requires '@' !in domain
    ensures IsOutside(p, local + ("@" + domain)) <==> !Allows(p, Lower(domain))
  {
    AfterLastIs(local, '@', domain);
    assert (local + ("@" + domain))[|local|] == '@';
    if Allows(p, Lower(domain)) && p.orgPolicy.Some? && p.orgPolicy.value.allowedDomains != [] {
      var i :| 0 <= i < |p.orgPolicy.value.allowedDomains| && Lower(p.orgPolicy.value.allowedDomains[i]) == Lower(domain);
      assert AllowedDomains(p)[i] == Lower(domain);
    }
  }

  function SemanticType(p: Payload): Option<string> {
    if p.semanticType.Some? && p.semanticType.value != "" then p.semanticType else p.parameters.semanticType
  }

  function Confidence(p: Payload): real {
    if p.confidence.Some? then p.confidence.value else 0.5
  }

  function DefaultThreshold(semanticType: Option<string>): real {
    if semanticType == Some("incident") || semanticType == Some("automation") then 0.75
    else if semanticType == Some("escalation") then 0.85
    else if semanticType == Some("approval") then 0.9
    else 0.7
  }

  function Clamp(x: real): real {
    if x < 0.0 then 0.0 else if x > 1.0 then 1.0 else x
  }

  /** The organisation's own threshold for the type, else its one for unknown, else the default. */
  function Threshold(p: Payload): (t: real)
    ensures 0.0 <= t <= 1.0
  {
    var typed := SemanticType(p);
    var own := if p.orgPolicy.Some? then p.orgPolicy.value.thresholds else map[];
    if typed.Some? && typed.value != "" && typed.value in own && own[typed.value].Finite? then Clamp(own[typed.value].value)
    else if "unknown" in own && own["unknown"].Finite? then Clamp(own["unknown"].value)
    else DefaultThreshold(typed)
  }

  /** The organisation's entry that counts, if it has one: the one for the type before the one for unknown. */
  ghost predicate OwnEntry(p: Payload, value: real) {
    p.orgPolicy.Some? &&
    var own := p.orgPolicy.value.thresholds;
    if exists k :: SemanticType(p) == Some(k) && k != "" && k in own && own[k].Finite? then
      exists k :: SemanticType(p) == Some(k) && k in own && own[k] == Finite(value)
    else "unknown" in own && own["unknown"] == Finite(value)
  }

  /** An entry between 0 and 1 is the threshold; without one it is 0.7, and more for the types that act on many or on approvals. */
  lemma ThresholdTells(p: Payload, value: real)
    ensures OwnEntry(p, value) && 0.0 <= value <= 1.0 ==> Threshold(p) == value
    ensures OwnEntry(p, value) && value < 0.0 ==> Threshold(p) == 0.0
    ensures OwnEntry(p, value) && value > 1.0 ==> Threshold(p) == 1.0
    ensures p.orgPolicy.None? ==>
      var t := SemanticType(p);
      && (Threshold(p) == 0.9 <==> t == Some("approval")) && (Threshold(p) == 0.85 <==> t == Some("escalation"))
      && (Threshold(p) == 0.75 <==> t == Some("incident") || t == Some("automation"))
      && Threshold(p) >= 0.7 && (Threshold(p) > 0.7 ==> t.Some?)
  {
  }

  /** The type of the payload itself comes before the one in its parameters, and blank counts as none. */
  lemma TypeTells(p: Payload, t: string)
    requires t != ""
    ensures p.semanticType == Some(t) ==> SemanticType(p) == Some(t)
    ensures (p.semanticType.None? || p.semanticType == Some("")) ==> SemanticType(p) == p.parameters.semanticType
  {
  }

  function AllowedDomains(p: Payload): seq<string> {
    if p.orgPolicy.Some? && p.orgPolicy.value.allowedDomains != [] then
      seq(|p.orgPolicy.value.allowedDomains|, i requires 0 <= i < |p.orgPolicy.value.allowedDomains| =>
        Lower(p.orgPolicy.value.allowedDomains[i]))
    else p.envDomains
  }

  function GuardModeOf(p: Payload): GuardMode {
    if p.orgPolicy.Some? && p.orgPolicy.value.guardMode.Some? then p.orgPolicy.value.guardMode.value else GuardMonitor
  }

  function Recipients(p: Payload): seq<string> {
    ToStrings(p.parameters.to)
  }

  predicate Denied(p: Payload) {
    p.orgPolicy.Some? && ActionKey(p.actionType) in p.orgPolicy.value.denyList
  }

  predicate Listed(p: Payload) {
    p.orgPolicy.Some? && ActionKey(p.actionType) in p.orgPolicy.value.requireApprovalFor
  }

  predicate IsOutside(p: Payload, recipient: string) {
    '@' in recipient && EmailDomain(recipient) !in AllowedDomains(p)
  }

  predicate Outside(p: Payload) {
    AllowedDomains(p) != [] && exists i :: 0 <= i < |Recipients(p)| && IsOutside(p, Recipients(p)[i])
  }

  // ----- The prompt guard -----

  function TrimAll(ss: seq<string>): seq<string> {
    seq(|ss|, i requires 0 <= i < |ss| => Trim(ss[i]))
  }

  function Addressees(p: Payload): seq<string> {
    match p.actionType
    case SendEmail => TrimAll(Recipients(p))
    case ScheduleMeeting =>
      TrimAll(ToStrings(p.parameters.participants) + ToStrings(p.parameters.attendees) + ToStrings(p.parameters.attendeesText))
    case _ => []
  }

  /** A text is one item and a list is its texts; blanks count for nothing. */
  lemma {:induction false} ItemsTell(v: Value, x: string)
    ensures v.Text? ==> (x in ToStrings(v) <==> x == Trim(v.text) && x != "")
    ensures v.List? ==> (x in ToStrings(v) <==> Text(x) in v.items && Trim(x) != "")
    ensures v.Other? ==> ToStrings(v) == []
  {
    if v.List? {
      NonBlankTells(v.items, x);
    }
  }

  lemma {:induction false} NonBlankTells(items: seq<Value>, x: string)
    ensures x in NonBlank(items) <==> Text(x) in items && Trim(x) != ""
  {
    if items != [] {
      NonBlankTells(items[1..], x);
      assert items == [items[0]] + items[1..];
    }
  }

  /** The guard looks at every recipient of an e-mail, and at every participant and attendee of a meeting, named in whichever parameter. */
  lemma AddresseesTell(p: Payload, x: string)
    ensures p.actionType.SendEmail? && x in ToStrings(p.parameters.to) ==> Trim(x) in Addressees(p)
    ensures p.actionType.ScheduleMeeting?
            && (x in ToStrings(p.parameters.participants) || x in ToStrings(p.parameters.attendees) || x in ToStrings(p.parameters.attendeesText)) ==>
              Trim(x) in Addressees(p)
    ensures !p.actionType.SendEmail? && !p.actionType.ScheduleMeeting? ==> Addressees(p) == []
  {
    if p.actionType.SendEmail? {
      TrimmedIn(Recipients(p), x);
    } else if p.actionType.ScheduleMeeting? {
      TrimmedIn(ToStrings(p.parameters.participants) + ToStrings(p.parameters.attendees) + ToStrings(p.parameters.attendeesText), x);
    }
  }

  lemma TrimmedIn(ss: seq<string>, x: string)
    ensures x in ss ==> Trim(x) in TrimAll(ss)
  {
    if i :| 0 <= i < |ss| && ss[i] == x {
      assert TrimAll(ss)[i] == Trim(x);
    }
  }

  predicate LooksLikeEmail(s: string) {
    '@' in s && ' ' !in s
  }

  /** Contacts may be written to but not invited. */
  predicate Known(p: Payload, email: string) {
    email != ""
    && ((exists i :: 0 <= i < |p.participantEmails| && NormalizeEmail(p.participantEmails[i]) == email)
        || (p.actionType.SendEmail? && exists i :: 0 <= i < |p.contactEmails| && NormalizeEmail(p.contactEmails[i]) == email))
  }

  predicate Stranger(p: Payload, addressee: string) {
    LooksLikeEmail(addressee) && !Known(p, NormalizeEmail(addressee))
  }

  predicate GuardOk(p: Payload) {
    forall i :: 0 <= i < |Addressees(p)| ==> !Stranger(p, Addressees(p)[i])
  }

  /** The unknown addresses, in order. */
  function Strangers(p: Payload, who: seq<string>): seq<string> {
    if who == [] then []
    else Strangers(p, who[..|who| - 1]) + if Stranger(p, who[|who| - 1]) then [NormalizeEmail(who[|who| - 1])] else []
  }

  lemma {:induction false} NoStrangers(p: Payload, who: seq<string>)
    ensures Strangers(p, who) == [] <==> forall i :: 0 <= i < |who| ==> !Stranger(p, who[i])
  {
    if who != [] {
      var init := who[..|who| - 1];
      NoStrangers(p, init);
      assert forall i :: 0 <= i < |init| ==> init[i] == who[i];
    }
  }

  /** The strangers are exactly the unknown addressees, in the order given. */
  lemma {:induction false} StrangersTell(p: Payload, who: seq<string>, more: seq<string>, x: string)
    ensures x in Strangers(p, who) <==> exists i :: 0 <= i < |who| && Stranger(p, who[i]) && NormalizeEmail(who[i]) == x
    ensures Strangers(p, who) <= Strangers(p, who + more)
  {
    if more != [] {
      StrangersTell(p, who, more[..|more| - 1], x);
      assert (who + more)[..|who + more| - 1] == who + more[..|more| - 1];
    } else {
      assert who + more == who;
      if who != [] {
        var init := who[..|who| - 1];
        StrangersTell(p, init, [], x);
        if i :| 0 <= i < |init| && Stranger(p, init[i]) && NormalizeEmail(init[i]) == x {
          assert who[i] == init[i];
        }
      }
    }
  }

  method ValidateToolArgs(p: Payload) returns (found: seq<string>)
    ensures found == Strangers(p, Addressees(p))
    ensures found == [] <==> GuardOk(p)
  {
    var who := Addressees(p);
    found := [];
    for i := 0 to |who|
      invariant found == Strangers(p, who[..i])
    {
      assert who[..i + 1][..i] == who[..i];
      if Stranger(p, who[i]) {
        found := found + [NormalizeEmail(who[i])];
      }
    }
    assert who[..|who|] == who;
    NoStrangers(p, who);
  }

  // ----- The reference: every check gives its own verdict and the strictest wins -----

  function Join(a: Outcome, b: Outcome): Outcome {
    if a.Blocked? || b.Blocked? then Blocked
    else if a.ApprovalRequired? || b.ApprovalRequired? then ApprovalRequired
    else AutoExecute
  }

  function When(c: bool, o: Outcome): Outcome {
    if c then o else AutoExecute
  }

  function ModeVerdict(p: Payload): Outcome {
    if !p.enforce || p.mode.AutoMode? then AutoExecute
    else if p.mode.SuggestOnlyMode? then Blocked else ApprovalRequired
  }

  function OrgVerdict(p: Payload): Outcome {
    Join(When(Denied(p), Blocked), When(Listed(p) || p.needsApproval || Confidence(p) < Threshold(p), ApprovalRequired))
  }

  predicate HasNoParticipants(p: Payload) {
    ToStrings(p.parameters.participants) + ToStrings(p.parameters.attendees) == []
  }

  predicate HasNoTitle(p: Payload) {
    !p.parameters.title.Text? || Trim(p.parameters.title.text) == ""
  }

  function ToolVerdict(p: Payload): Outcome {
    match p.actionType
    case SendEmail => Join(When(Recipients(p) == [], Blocked), When(Outside(p) || |Recipients(p)| > 5, ApprovalRequired))
    case ScheduleMeeting => When(HasNoParticipants(p), ApprovalRequired)
    case CreateGithubIssue => When(HasNoTitle(p), ApprovalRequired)
    case NoTool => AutoExecute
  }

  predicate Guarded(p: Payload) {
    p.actionType.SendEmail? || p.actionType.ScheduleMeeting?
  }

  function GuardVerdict(p: Payload): Outcome {
    if !Guarded(p) || GuardOk(p) || GuardModeOf(p).GuardOff? then AutoExecute
    else if GuardModeOf(p).GuardEnforce? then Blocked else ApprovalRequired
  }

  function PolicyOutcome(p: Payload): Outcome {
    Join(ModeVerdict(p), Join(OrgVerdict(p), Join(ToolVerdict(p), GuardVerdict(p))))
  }

  predicate SuggestOnly(p: Payload) {
    p.enforce && p.mode.SuggestOnlyMode?
  }

  /** What the caller reads off the reasons: no recipients, or a recipient outside the allowed domains. */
  predicate Unsafe(d: Decision) {
    d.risk.High? && (OutsideDomains in d.reasons || NoRecipients in d.reasons)
  }

  predicate UnsafePayload(p: Payload) {
    && !SuggestOnly(p) && !Denied(p) && p.actionType.SendEmail?
    && (Recipients(p) == [] || (Outside(p) && !GuardVerdict(p).Blocked?))
  }

  method ApplyExecutionModeGate(d: Decision, p: Payload) returns (g: Decision)
    requires !SuggestOnly(p)
    ensures g.outcome == Join(ModeVerdict(p), d.outcome)
    ensures g.outcome == d.outcome ==> g == d
    ensures g.outcome != d.outcome ==> d.outcome.AutoExecute? && g.reasons == d.reasons + [ModeRequireApproval] && !g.risk.Low?
  {
    if p.enforce && p.mode.RequireApprovalMode? && d.outcome.AutoExecute? {
      return Decision(ApprovalRequired, if d.risk.Low? then Medium else d.risk, d.reasons + [ModeRequireApproval]);
    }
    g := d;
  }

  /** The reasons of the organisation's checks and the classifier. */
  method OrgReasons(p: Payload) returns (reasons: seq<Reason>)
    ensures reasons == [] <==> !p.needsApproval && !Listed(p) && Confidence(p) >= Threshold(p)
    ensures forall r :: r in reasons ==> r in {UpstreamApproval, ListedForApproval, LowConfidence}
  {
    reasons := [];
    if p.needsApproval {
      reasons := reasons + [UpstreamApproval];
    }
    if Listed(p) {
      reasons := reasons + [ListedForApproval];
    }
    if Confidence(p) < Threshold(p) {
      reasons := reasons + [LowConfidence];
    }
  }

  /** The reasons of the checks on the tool's own parameters, when there are recipients to check. */
  method ToolReasons(p: Payload) returns (reasons: seq<Reason>)
    requires p.actionType.SendEmail? ==> Recipients(p) != []
    ensures reasons == [] <==> ToolVerdict(p).AutoExecute?
    ensures NoRecipients !in reasons && ModeSuggestOnly !in reasons
    ensures OutsideDomains in reasons <==> p.actionType.SendEmail? && Outside(p)
  {
    reasons := [];
    if p.actionType.SendEmail? {
      if Outside(p) {
        reasons := reasons + [OutsideDomains];
      }
      if |Recipients(p)| > 5 {
        reasons := reasons + [ManyRecipients];
      }
    }
    if p.actionType.ScheduleMeeting? && HasNoParticipants(p) {
      reasons := reasons + [NoParticipants];
    }
    if p.actionType.CreateGithubIssue? && HasNoTitle(p) {
      reasons := reasons + [NoTitle];
    }
  }

  function Findings(found: seq<string>, monitored: bool): (r: seq<Reason>)
    ensures |r| == |found| && forall x :: x in r ==> x.GuardFinding? || x.MonitoredFinding?
  {
    seq(|found|, i requires 0 <= i < |found| => if monitored then MonitoredFinding(found[i]) else GuardFinding(found[i]))
  }

  /** The prompt guard and the final branch, once no earlier check has refused. */
  method FinishEvaluation(p: Payload, before: seq<Reason>) returns (d: Decision)
    requires !SuggestOnly(p) && ModeSuggestOnly !in before && NoRecipients !in before
    ensures d.outcome == Join(ModeVerdict(p), Join(When(before != [], ApprovalRequired), GuardVerdict(p)))
    ensures Unsafe(d) <==> OutsideDomains in before && !GuardVerdict(p).Blocked?
    ensures ModeSuggestOnly !in d.reasons
  {
    var reasons := before;
    if !GuardModeOf(p).GuardOff? && Guarded(p) {
      var found := ValidateToolArgs(p);
      if found != [] && GuardModeOf(p).GuardEnforce? {
        d := ApplyExecutionModeGate(Decision(Blocked, High, Findings(found, false)), p);
        return;
      }
      reasons := reasons + Findings(found, true);
    }
    if reasons == [] {
      d := ApplyExecutionModeGate(Decision(AutoExecute, Low, [Passed]), p);
      return;
    }
    var risk := if OutsideDomains in reasons then High else Medium;
    d := ApplyExecutionModeGate(Decision(ApprovalRequired, risk, reasons), p);
  }

  /** With its early returns, the evaluation still gives the strictest of all verdicts. */
  method EvaluateExecutionPolicy(p: Payload) returns (d: Decision)
    ensures d.outcome == PolicyOutcome(p)
    ensures Unsafe(d) <==> UnsafePayload(p)
    ensures ModeSuggestOnly in d.reasons <==> SuggestOnly(p)
  {
    if SuggestOnly(p) {
      return Decision(Blocked, High, [ModeSuggestOnly]);
    }
    if Denied(p) {
      d := ApplyExecutionModeGate(Decision(Blocked, High, [DeniedByPolicy]), p);
      return;
    }
    var reasons := OrgReasons(p);
    if p.actionType.SendEmail? && Recipients(p) == [] {
      d := ApplyExecutionModeGate(Decision(Blocked, High, [NoRecipients]), p);
      return;
    }
    var toolReasons := ToolReasons(p);
    d := FinishEvaluation(p, reasons + toolReasons);
  }

  // ----- Tightening -----

  function Rank(o: Outcome): nat {
    match o
    case AutoExecute => 0
    case ApprovalRequired => 1
    case Blocked => 2
  }

  function ModeRank(m: Mode): nat {
    match m
    case AutoMode => 0
    case RequireApprovalMode => 1
    case SuggestOnlyMode => 2
  }

  function GuardRank(g: GuardMode): nat {
    match g
    case GuardOff => 0
    case GuardMonitor => 1
    case GuardEnforce => 2
  }

  /** The same action on the same context, with every control at least as strict. */
  ghost predicate Tighter(p: Payload, q: Payload) {
    && q.actionType == p.actionType && q.parameters == p.parameters && q.envDomains == p.envDomains
    && q.participantEmails == p.participantEmails && q.contactEmails == p.contactEmails
    && (p.enforce ==> q.enforce) && ModeRank(p.mode) <= ModeRank(q.mode)
    && (p.needsApproval ==> q.needsApproval)
    && Confidence(q) <= Confidence(p) && Threshold(q) >= Threshold(p)
    && (Denied(p) ==> Denied(q)) && (Listed(p) ==> Listed(q))
    && AllowedDomains(q) == AllowedDomains(p) && GuardRank(GuardModeOf(p)) <= GuardRank(GuardModeOf(q))
  }

  lemma JoinIsMonotone(a: Outcome, b: Outcome, c: Outcome, d: Outcome)
    requires Rank(a) <= Rank(c) && Rank(b) <= Rank(d)
    ensures Rank(Join(a, b)) <= Rank(Join(c, d))
  {
  }

  lemma SameTool(p: Payload, q: Payload)
    requires Tighter(p, q)
    ensures ToolVerdict(p) == ToolVerdict(q) && GuardOk(p) == GuardOk(q)
  {
    assert Recipients(p) == Recipients(q) && Addressees(p) == Addressees(q);
    forall i | 0 <= i < |Recipients(p)| ensures IsOutside(p, Recipients(p)[i]) == IsOutside(q, Recipients(p)[i]) {
    }
    forall i | 0 <= i < |Addressees(p)| ensures Stranger(p, Addressees(p)[i]) == Stranger(q, Addressees(p)[i]) {
    }
  }

  /** No tightening makes the outcome more permissive. */
  lemma TighteningIsMonotone(p: Payload, q: Payload)
    requires Tighter(p, q)
    ensures Rank(PolicyOutcome(p)) <= Rank(PolicyOutcome(q))
  {
    SameTool(p, q);
    JoinIsMonotone(ToolVerdict(p), GuardVerdict(p), ToolVerdict(q), GuardVerdict(q));
    JoinIsMonotone(OrgVerdict(p), Join(ToolVerdict(p), GuardVerdict(p)), OrgVerdict(q), Join(ToolVerdict(q), GuardVerdict(q)));
    JoinIsMonotone(ModeVerdict(p), Join(OrgVerdict(p), Join(ToolVerdict(p), GuardVerdict(p))),
                   ModeVerdict(q), Join(OrgVerdict(q), Join(ToolVerdict(q), GuardVerdict(q))));
  }

  /** Every single check lets the action pass. */
  predicate EveryCheckPasses(p: Payload) {
    && (p.enforce ==> p.mode.AutoMode?)
    && (p.orgPolicy.Some? ==> !IsNamedIn(p.actionType, p.orgPolicy.value.denyList + p.orgPolicy.value.requireApprovalFor))
    && !p.needsApproval && (if p.confidence.Some? then p.confidence.value else 0.5) >= Threshold(p)
    && (p.actionType.SendEmail? ==> 0 < |Recipients(p)| <= 5 && !Outside(p))
    && (p.actionType.ScheduleMeeting? ==> !HasNoParticipants(p))
    && (p.actionType.CreateGithubIssue? ==> !HasNoTitle(p))
    && (Guarded(p) ==> GuardModeOf(p).GuardOff? || GuardOk(p))
  }

  /** An action runs by itself exactly when every check passes; a strict mode has the last word whatever they say. */
  lemma AutoMeansEveryCheckPasses(p: Payload)
    ensures PolicyOutcome(p).AutoExecute? <==> EveryCheckPasses(p)
    ensures SuggestOnly(p) ==> PolicyOutcome(p).Blocked?
    ensures p.enforce && p.mode.RequireApprovalMode? ==> !PolicyOutcome(p).AutoExecute?
  {
  }

  /** Lists name the tools by their wire names. */
  predicate IsNamedIn(a: ActionType, names: seq<string>) {
    || (a.SendEmail? && "send_email" in names)
    || (a.ScheduleMeeting? && "schedule_meeting" in names)
    || (a.CreateGithubIssue? && "create_github_issue" in names)
    || (a.NoTool? && "none" in names)
  }

  /**
   An action is refused outright exactly under suggest_only, on the deny list, without any
   recipient, or with a recipient or guest that an enforcing guard does not know; what is
   neither refused nor passed by every check waits for a human.
   */
  lemma BlockedExactlyWhen(p: Payload)
    ensures PolicyOutcome(p).Blocked? <==>
      || (p.enforce && p.mode.SuggestOnlyMode?)
      || (p.orgPolicy.Some? && IsNamedIn(p.actionType, p.orgPolicy.value.denyList))
      || (p.actionType.SendEmail? && Recipients(p) == [])
      || ((p.actionType.SendEmail? || p.actionType.ScheduleMeeting?) && p.orgPolicy.Some?
          && p.orgPolicy.value.guardMode == Some(GuardEnforce) && !GuardOk(p))
  {
  }

  /** Unless the organisation turns the guard off, an unknown addressee never goes out by itself. */
  lemma StrangersAreNeverAuto(p: Payload, i: nat)
    requires (p.actionType.SendEmail? || p.actionType.ScheduleMeeting?) && i < |Addressees(p)| && Stranger(p, Addressees(p)[i])
    requires p.orgPolicy.None? || p.orgPolicy.value.guardMode != Some(GuardOff)
    ensures !PolicyOutcome(p).AutoExecute?
  {
  }

  /** Participants of the conversation are known to every tool; contacts are, to e-mail only. */
  lemma KnownTells(p: Payload, email: string)
    requires email != ""
    ensures (exists q :: q in p.participantEmails && NormalizeEmail(q) == email) ==> Known(p, email)
    ensures p.actionType.SendEmail? && (exists q :: q in p.contactEmails && NormalizeEmail(q) == email) ==> Known(p, email)
    ensures Known(p, email) && !p.actionType.SendEmail? ==> exists q :: q in p.participantEmails && NormalizeEmail(q) == email
    ensures Known(p, email) ==> exists q :: (q in p.participantEmails || q in p.contactEmails) && NormalizeEmail(q) == email
  {
    if Known(p, email) {
      if i :| 0 <= i < |p.participantEmails| && NormalizeEmail(p.participantEmails[i]) == email {
        assert p.participantEmails[i] in p.participantEmails;
      } else {
        var j :| 0 <= j < |p.contactEmails| && NormalizeEmail(p.contactEmails[j]) == email;
        assert p.contactEmails[j] in p.contactEmails;
      }
    }
  }

  /** The same payload under overlays with the same keys, every threshold finite and none lower. */
  ghost predicate RaisesThresholds(p: Payload, q: Payload) {
    && p.orgPolicy.Some? && q.orgPolicy.Some?
    && q == p.(orgPolicy := Some(p.orgPolicy.value.(thresholds := q.orgPolicy.value.thresholds)))
    && q.orgPolicy.value.thresholds.Keys == p.orgPolicy.value.thresholds.Keys
    && forall k :: k in p.orgPolicy.value.thresholds ==>
         && p.orgPolicy.value.thresholds[k].Finite? && q.orgPolicy.value.thresholds[k].Finite?
         && p.orgPolicy.value.thresholds[k].value <= q.orgPolicy.value.thresholds[k].value
  }

  /** Raising thresholds of the organisation's overlay, typed or unknown, never makes the outcome more permissive. */
  lemma RaisingThresholdsIsMonotone(p: Payload, q: Payload)
    requires RaisesThresholds(p, q)
    ensures Threshold(p) <= Threshold(q) && Rank(PolicyOutcome(p)) <= Rank(PolicyOutcome(q))
  {
    TighteningIsMonotone(p, q);
  }
}
