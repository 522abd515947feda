/**
 Human approval outside suggest_only.  The worker puts an action up for approval under a
 unique key, and the approver may change its parameters; once approved, the action re-enters
 the request handler with its upstream flag cleared and its confidence lifted, and the
 handler evaluates the policy once more without looking at the approval.
 */
module ApprovalReentry {
  import opened Strings
  import opened Wrappers
  import opened ExecutionPolicy
  import opened RequestGates

  datatype ActionState = PendingApproval | Approved | Rejected

  /** The unique key of an action put up for approval: its tool and the message that triggered it. */
  datatype Key = Key(tool: ActionType, trigger: string)

  datatype PendingAction = PendingAction(payload: Payload, state: ActionState)

  /** What the handler looks up again at every evaluation. */
  datatype Context = Context(
    participantEmails: seq<string>,
    contactEmails: seq<string>,
    orgPolicy: Option<OrgPolicy>,
    mode: Mode,
    envDomains: seq<string>)

  /** `ranApproved` are the actions that reached the lease by their approval. */
  datatype State = State(actions: map<Key, PendingAction>, ranApproved: set<Key>)

  datatype Step =
    | HandleRequested(p: Payload, trigger: string, env: Env)
    | Decide(key: Key, approve: bool, parameters: Parameters)
    | HandleApproved(key: Key, env: Env)

  const Empty := State(map[], {})

  function In(c: Context, p: Payload): Payload {
    p.(participantEmails := c.participantEmails, contactEmails := c.contactEmails, orgPolicy := c.orgPolicy,
       mode := c.mode, enforce := true, envDomains := c.envDomains)
  }

  function Lifted(confidence: real): real {
    if confidence < 0.7 then 0.7 else confidence
  }

  /** The payload of the re-entry: tool and parameters of the action, and nothing of its semantic type. */
  function Rewritten(p: Payload): Payload {
    p.(confidence := Some(Lifted(Confidence(p))), needsApproval := false, semanticType := None)
  }

  function EndOf(c: Context, p: Payload, env: Env): End {
    Gate(Request(In(c, p), false, false), env)
  }

  function Next(c: Context, s: State, a: Step): State {
    match a
    case HandleRequested(p, trigger, env) =>
      var key := Key(p.actionType, trigger);
      if EndOf(c, p, env).ApprovalPending? && key !in s.actions then
        s.(actions := s.actions[key := PendingAction(p, PendingApproval)])
      else s
    case Decide(key, approve, parameters) =>
      if key in s.actions && s.actions[key].state.PendingApproval? then
        var p := s.actions[key].payload;
        s.(actions := s.actions[key :=
             if approve then PendingAction(p.(parameters := parameters), Approved) else PendingAction(p, Rejected)])
      else s
    case HandleApproved(key, env) =>
      // Pending again is the duplicate of the action's own key, so nothing is put up a second time.
      if key in s.actions && s.actions[key].state.Approved? && EndOf(c, Rewritten(s.actions[key].payload), env).LeaseAndRun? then
        s.(ranApproved := s.ranApproved + {key})
      else s
  }

  function Run(c: Context, steps: seq<Step>): State {
    if steps == [] then Empty
    else Next(c, Run(c, steps[..|steps| - 1]), steps[|steps| - 1])
  }

  // ----- What an approval lifts -----

  /** Nothing but the upstream flag and a confidence the approval lifts stood in the way. */
  predicate Liftable(p: Payload) {
    && p.mode.AutoMode? && !Listed(p)
    && (Confidence(p) >= Threshold(Rewritten(p)) || 0.7 >= Threshold(Rewritten(p)))
    && ToolVerdict(p).AutoExecute? && GuardVerdict(p).AutoExecute?
  }

  lemma SameChecks(p: Payload)
    ensures var q := Rewritten(p);
            ToolVerdict(q) == ToolVerdict(p) && GuardVerdict(q) == GuardVerdict(p) && (UnsafePayload(q) <==> UnsafePayload(p))
  {
    var q := Rewritten(p);
    assert Recipients(q) == Recipients(p) && Addressees(q) == Addressees(p) && AllowedDomains(q) == AllowedDomains(p);
    OutsideIgnoresMode(p, q);
    forall i | 0 <= i < |Addressees(p)| ensures Stranger(p, Addressees(p)[i]) == Stranger(q, Addressees(q)[i]) {
    }
    assert GuardOk(p) == GuardOk(q);
  }

  predicate MayHandle(p: Payload, env: Env) {
    Admitted(env) && (env.ownerKnown && IsHighRisk(p.actionType) ==> env.grant.Granted?)
  }

  lemma RunsWhenLiftable(c: Context, p: Payload, env: Env)
    requires !c.mode.SuggestOnlyMode? && !Denied(In(c, p))
    ensures EndOf(c, Rewritten(p), env).LeaseAndRun? <==> MayHandle(p, env) && Liftable(In(c, p))
  {
    SameChecks(In(c, p));
    assert In(c, Rewritten(p)) == Rewritten(In(c, p));
    assert Enforced(In(c, Rewritten(p))) == In(c, Rewritten(p));
  }

  /**
   An action that was put up for approval and approved as it is runs exactly when only the
   upstream flag and the confidence stood in the way; otherwise it is approval_required once more.
   */
  lemma ApprovalLiftsExactly(c: Context, p: Payload, before: Env, env: Env)
    requires !c.mode.SuggestOnlyMode? && EndOf(c, p, before).ApprovalPending? && MayHandle(p, env)
    ensures var again := EndOf(c, Rewritten(p), env);
            if Liftable(In(c, p)) then again.LeaseAndRun? else again.ApprovalPending?
  {
    SameChecks(In(c, p));
    assert In(c, Rewritten(p)) == Rewritten(In(c, p));
    assert Enforced(In(c, p)) == In(c, p);
  }

  /** No action is on the deny list, and those that ran were approved and liftable. */
  ghost predicate Inv(c: Context, s: State) {
    && (forall key :: key in s.actions ==> !Denied(In(c, s.actions[key].payload)))
    && (forall key :: key in s.ranApproved ==>
          key in s.actions && s.actions[key].state.Approved? && Liftable(In(c, s.actions[key].payload)))
  }

  /** An action keeps all but its parameters, and those too once it is approved. */
  predicate Keeps(before: PendingAction, after: PendingAction) {
    && after.payload == before.payload.(parameters := after.payload.parameters)
    && (before.state.Approved? ==> after == before)
  }

  lemma NextKeepsInv(c: Context, s: State, a: Step)
    requires Inv(c, s) && !c.mode.SuggestOnlyMode?
    ensures Inv(c, Next(c, s, a))
    ensures forall key :: key in s.actions ==> key in Next(c, s, a).actions && Keeps(s.actions[key], Next(c, s, a).actions[key])
  {
    match a
    case HandleApproved(key, env) =>
      if key in s.actions {
        RunsWhenLiftable(c, s.actions[key].payload, env);
      }
    case HandleRequested(p, _, env) =>
      assert EndOf(c, p, env).ApprovalPending? ==> !Denied(In(c, p));
    case Decide(key, _, _) =>
  }

  lemma {:induction false} RunKeepsInv(c: Context, steps: seq<Step>)
    requires !c.mode.SuggestOnlyMode?
    ensures Inv(c, Run(c, steps))
  {
    if steps != [] {
      RunKeepsInv(c, steps[..|steps| - 1]);
      NextKeepsInv(c, Run(c, steps[..|steps| - 1]), steps[|steps| - 1]);
    }
  }

  lemma RunSnoc(c: Context, steps: seq<Step>, a: Step)
    ensures Run(c, steps + [a]) == Next(c, Run(c, steps), a)
  {
    assert (steps + [a])[..|steps|] == steps;
  }

  lemma {:induction false} ActionStays(c: Context, before: seq<Step>, after: seq<Step>, key: Key)
    requires !c.mode.SuggestOnlyMode? && key in Run(c, before).actions
    ensures key in Run(c, before + after).actions
    ensures Keeps(Run(c, before).actions[key], Run(c, before + after).actions[key])
  {
    if after == [] {
      assert before + after == before;
    } else {
      var shorter, a := after[..|after| - 1], after[|after| - 1];
      ActionStays(c, before, shorter, key);
      assert before + after == (before + shorter) + [a];
      RunSnoc(c, before + shorter, a);
      RunKeepsInv(c, before + shorter);
      NextKeepsInv(c, Run(c, before + shorter), a);
    }
  }

  const Quiet := Env(false, ActiveOrg, false, Granted)

  lemma ApprovedThenRuns(c: Context, before: seq<Step>, key: Key)
    requires !c.mode.SuggestOnlyMode? && key in Run(c, before).actions && Run(c, before).actions[key].state.Approved?
    requires Liftable(In(c, Run(c, before).actions[key].payload))
    ensures key in Run(c, before + [HandleApproved(key, Quiet)]).ranApproved
  {
    RunKeepsInv(c, before);
    RunsWhenLiftable(c, Run(c, before).actions[key].payload, Quiet);
    RunSnoc(c, before, HandleApproved(key, Quiet));
  }

  /**
   In every run under one policy an approved action can reach the lease exactly when, with
   the approved parameters, only the upstream flag and the confidence stood in its way.
   Otherwise no number of deliveries of its approval runs it.
   */
  lemma {:induction false} ApprovedRunsExactlyWhen(c: Context, before: seq<Step>, key: Key)
    requires !c.mode.SuggestOnlyMode? && key in Run(c, before).actions && Run(c, before).actions[key].state.Approved?
    ensures (exists after :: key in Run(c, before + after).ranApproved) <==> Liftable(In(c, Run(c, before).actions[key].payload))
  {
    if Liftable(In(c, Run(c, before).actions[key].payload)) {
      ApprovedThenRuns(c, before, key);
    } else {
      forall after ensures key !in Run(c, before + after).ranApproved {
        ActionStays(c, before, after, key);
        RunKeepsInv(c, before + after);
      }
    }
  }

  /** And a pending one exactly when the approver has parameters to give it that pass. */
  lemma {:induction false} PendingRunsExactlyWhen(c: Context, before: seq<Step>, key: Key)
    requires !c.mode.SuggestOnlyMode? && key in Run(c, before).actions && Run(c, before).actions[key].state.PendingApproval?
    ensures var p := Run(c, before).actions[key].payload;
            (exists after :: key in Run(c, before + after).ranApproved)
            <==> exists q :: Liftable(In(c, p.(parameters := q)))
  {
    var p := Run(c, before).actions[key].payload;
    if q :| Liftable(In(c, p.(parameters := q))) {
      var approval := Decide(key, true, q);
      RunSnoc(c, before, approval);
      ApprovedThenRuns(c, before + [approval], key);
      var after := [approval] + [HandleApproved(key, Quiet)];
      assert before + after == before + [approval] + [HandleApproved(key, Quiet)];
    } else {
      forall after ensures key !in Run(c, before + after).ranApproved {
        ActionStays(c, before, after, key);
        RunKeepsInv(c, before + after);
      }
    }
  }

  ghost predicate IsRejected(s: State, key: Key, p: Payload) {
    key in s.actions && s.actions[key] == PendingAction(p, Rejected) && key !in s.ranApproved
  }

  lemma {:induction false} RejectedStays(c: Context, before: seq<Step>, key: Key, p: Payload, after: seq<Step>)
    requires IsRejected(Run(c, before), key, p)
    ensures IsRejected(Run(c, before + after), key, p)
  {
    if after == [] {
      assert before + after == before;
    } else {
      var shorter, a := after[..|after| - 1], after[|after| - 1];
      RejectedStays(c, before, key, p, shorter);
      assert before + after == (before + shorter) + [a];
      RunSnoc(c, before + shorter, a);
    }
  }

  /** A rejected action stays rejected and never runs, however often it is put up or delivered again. */
  lemma RejectionIsFinal(c: Context, before: seq<Step>, key: Key, parameters: Parameters, after: seq<Step>)
    requires !c.mode.SuggestOnlyMode? && key in Run(c, before).actions && Run(c, before).actions[key].state.PendingApproval?
    ensures IsRejected(Run(c, before + [Decide(key, false, parameters)] + after), key, Run(c, before).actions[key].payload)
  {
    RunKeepsInv(c, before);
    RunSnoc(c, before, Decide(key, false, parameters));
    RejectedStays(c, before + [Decide(key, false, parameters)], key, Run(c, before).actions[key].payload, after);
  }

  /** Under require_approval nothing runs at all, approved or not. */
  lemma RequireApprovalNeverRuns(c: Context, steps: seq<Step>, p: Payload, env: Env)
    requires c.mode.RequireApprovalMode?
    ensures Run(c, steps).ranApproved == {} && !EndOf(c, p, env).LeaseAndRun?
  {
    RunKeepsInv(c, steps);
    RunMeansEveryCheckPassed(Request(In(c, p), false, false), env);
  }

  const Bare := Parameters(Other, Other, Other, Other, Other, None)
  const Untooled := Payload(NoTool, Bare, Some(1.0), false, None, [], [], None, AutoMode, true, [])
  const Strict := Context([], [], None, RequireApprovalMode, [])

  /** A run: a certain request is put up for approval, approved, and handled again, and nothing runs then or ever after. */
  lemma ApprovedInVain(after: seq<Step>)
    ensures var key := Key(NoTool, "m");
            var steps := [HandleRequested(Untooled, "m", Quiet)] + [Decide(key, true, Bare)] + [HandleApproved(key, Quiet)];
            && key in Run(Strict, steps).actions && Run(Strict, steps).actions[key].state.Approved?
            && key !in Run(Strict, steps + after).ranApproved
  {
    var key := Key(NoTool, "m");
    var asked := [HandleRequested(Untooled, "m", Quiet)];
    var steps := asked + [Decide(key, true, Bare)] + [HandleApproved(key, Quiet)];
    RunMeansEveryCheckPassed(Request(In(Strict, Untooled), false, false), Quiet);
    assert [] + asked == asked;
    RunSnoc(Strict, [], HandleRequested(Untooled, "m", Quiet));
    RunSnoc(Strict, asked, Decide(key, true, Bare));
    RunSnoc(Strict, asked + [Decide(key, true, Bare)], HandleApproved(key, Quiet));
    RequireApprovalNeverRuns(Strict, steps + after, Untooled, Quiet);
  }
}
