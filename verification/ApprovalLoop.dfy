/**
 An explicit manager request on one task while its workspace is suggest_only, from the
 request to the approved re-entry, with every writer of actions and execution events.
 `keepsFlag` says whether the action that the worker puts up for approval keeps the
 request's explicit flag; the worker writes it without.
 */
module ApprovalLoop {
  import opened Strings
  import opened Wrappers
  import opened ExecutionPolicy
  import opened RequestGates

  datatype ActionState = Requested | PendingApproval | Approved | Rejected

  /** `requester` is the manager in the unique key of an explicit action; one manager has one such action on the task. */
  datatype TaskAction = TaskAction(state: ActionState, explicit: bool, requester: Option<string>)

  datatype Event = RequestedEvent(explicit: bool) | ApprovedEvent(action: nat)

  /** A manager's call, cut at its database operations. */
  datatype Pc =
    | CheckInFlight
    | InsertAction
    | RecheckInFlight     // after the duplicate key error
    | InsertEvent
    | Enqueued
    | IsAlreadyPending
    | Stopped             // a crash or a thrown error

  datatype ManagerCall = ManagerCall(manager: string, pc: Pc)

  datatype State = State(actions: seq<TaskAction>, events: seq<Event>, ran: bool, calls: seq<ManagerCall>)

  datatype Step =
    | StartRequest(manager: string)
    | Advance(call: nat)
    | Stop(call: nat)
    | Propose                                             // an accepted suggestion proposes a tool
    | Enqueue(explicit: bool)                             // any other writer of a request event
    | HandleRequested(event: nat, p: Payload, env: Env, duplicate: bool)
    | Decide(action: nat, approve: bool)
    | HandleApproved(event: nat, p: Payload, env: Env)

  const Empty := State([], [], false, [])

  predicate InFlight(a: TaskAction) {
    a.explicit && (a.state.Requested? || a.state.PendingApproval?)
  }

  predicate AlreadyPending(s: State) {
    exists i :: 0 <= i < |s.actions| && InFlight(s.actions[i])
  }

  function SuggestOnlyRequest(p: Payload, explicit: bool, approved: bool): Request {
    Request(p.(mode := SuggestOnlyMode), explicit, approved)
  }

  /** What the request handler does; a duplicate pending action is not created again. */
  function Handle(s: State, r: Request, env: Env, duplicate: bool, keepsFlag: bool): State {
    match Gate(r, env)
    case ApprovalPending =>
      if duplicate then s
      else s.(actions := s.actions + [TaskAction(PendingApproval, keepsFlag && r.explicitManagerRequest, None)])
    case LeaseAndRun => s.(ran := true)
    case _ => s
  }

  predicate HasAsked(s: State, manager: string) {
    exists i :: 0 <= i < |s.actions| && s.actions[i].requester == Some(manager)
  }

  function SetPc(s: State, k: nat, pc: Pc): State
    requires k < |s.calls|
  {
    s.(calls := s.calls[k := s.calls[k].(pc := pc)])
  }

  function Operate(s: State, k: nat): State
    requires k < |s.calls|
  {
    match s.calls[k].pc
    case CheckInFlight => SetPc(s, k, if AlreadyPending(s) then IsAlreadyPending else InsertAction)
    case InsertAction =>
      var manager := s.calls[k].manager;
      if HasAsked(s, manager) then SetPc(s, k, RecheckInFlight)
      else SetPc(s, k, InsertEvent).(actions := s.actions + [TaskAction(Requested, true, Some(manager))])
    case RecheckInFlight => SetPc(s, k, if AlreadyPending(s) then IsAlreadyPending else Stopped)
    case InsertEvent => SetPc(s, k, Enqueued).(events := s.events + [RequestedEvent(true)])
    case _ => s
  }

  function Next(s: State, a: Step, keepsFlag: bool): State {
    match a
    case StartRequest(manager) => s.(calls := s.calls + [ManagerCall(manager, CheckInFlight)])
    case Advance(k) => if k < |s.calls| then Operate(s, k) else s
    case Stop(k) => if k < |s.calls| && !s.calls[k].pc.Enqueued? && !s.calls[k].pc.IsAlreadyPending? then SetPc(s, k, Stopped) else s
    case Propose => s.(actions := s.actions + [TaskAction(PendingApproval, false, None)])
    case Enqueue(explicit) => s.(events := s.events + [RequestedEvent(explicit)])
    case HandleRequested(e, p, env, duplicate) =>
      if e < |s.events| && s.events[e].RequestedEvent? then
        Handle(s, SuggestOnlyRequest(p, s.events[e].explicit, false), env, duplicate, keepsFlag)
      else s
    case Decide(i, approve) =>
      if i < |s.actions| && s.actions[i].state.PendingApproval? then
        if approve then
          s.(actions := s.actions[i := s.actions[i].(state := Approved)], events := s.events + [ApprovedEvent(i)])
        else s.(actions := s.actions[i := s.actions[i].(state := Rejected)])
      else s
    case HandleApproved(e, p, env) =>
      if e < |s.events| && s.events[e].ApprovedEvent? && s.events[e].action < |s.actions| then
        var i := s.events[e].action;
        var flag := s.actions[i].explicit;
        Handle(s.(actions := s.actions[i := s.actions[i].(state := Approved)]),
               SuggestOnlyRequest(p, flag, flag), env, false, keepsFlag)
      else s
  }

  function Run(steps: seq<Step>, keepsFlag: bool): State {
    if steps == [] then Empty
    else Next(Run(steps[..|steps| - 1], keepsFlag), steps[|steps| - 1], keepsFlag)
  }

  /** Without the flag on pending actions, flagged actions stay where the manager's request left them. */
  ghost predicate Stuck(s: State) {
    && !s.ran
    && (forall i :: 0 <= i < |s.actions| && s.actions[i].explicit ==> s.actions[i].state.Requested?)
    && (forall e :: 0 <= e < |s.events| && s.events[e].ApprovedEvent? ==>
          s.events[e].action < |s.actions| && !s.actions[s.events[e].action].explicit)
  }

  lemma HandleStaysStuck(s: State, r: Request, env: Env, duplicate: bool)
    requires Stuck(s) && r.payload.mode.SuggestOnlyMode? && !(r.explicitManagerRequest && r.humanApprovedExecution)
    ensures Stuck(Handle(s, r, env, duplicate, false))
  {
    SuggestOnlyRunsOnlyWithBothFlags(r, env);
  }

  lemma NextStaysStuck(s: State, a: Step)
    requires Stuck(s)
    ensures Stuck(Next(s, a, false))
  {
    match a
    case HandleRequested(e, p, env, duplicate) =>
      if e < |s.events| && s.events[e].RequestedEvent? {
        HandleStaysStuck(s, SuggestOnlyRequest(p, s.events[e].explicit, false), env, duplicate);
      }
    case HandleApproved(e, p, env) =>
      if e < |s.events| && s.events[e].ApprovedEvent? {
        var i := s.events[e].action;
        HandleStaysStuck(s.(actions := s.actions[i := s.actions[i].(state := Approved)]), SuggestOnlyRequest(p, false, false), env, false);
      }
    case _ =>
  }

  lemma {:induction false} RunStaysStuck(steps: seq<Step>)
    ensures Stuck(Run(steps, false))
  {
    if steps != [] {
      RunStaysStuck(steps[..|steps| - 1]);
      NextStaysStuck(Run(steps[..|steps| - 1], false), steps[|steps| - 1]);
    }
  }

  ghost predicate CanRun(keepsFlag: bool) {
    exists steps :: Run(steps, keepsFlag).ran
  }

  lemma {:induction false} Extend(steps: seq<Step>, a: Step, keepsFlag: bool, next: State) returns (longer: seq<Step>)
    requires Next(Run(steps, keepsFlag), a, keepsFlag) == next
    ensures longer == steps + [a] && Run(longer, keepsFlag) == next
  {
    longer := steps + [a];
    assert longer[..|steps|] == steps;
  }

  const Quiet := Env(false, ActiveOrg, false, Granted)
  const AskedAction := TaskAction(Requested, true, Some("m"))
  const Done := [ManagerCall("m", Enqueued)]

  /** The manager's call, from its start to the event. */
  const Ask := [StartRequest("m")] + [Advance(0)] + [Advance(0)] + [Advance(0)]

  lemma AskInserts(keepsFlag: bool) returns (steps: seq<Step>)
    ensures steps == [StartRequest("m")] + [Advance(0)] + [Advance(0)]
    ensures Run(steps, keepsFlag) == State([AskedAction], [], false, [ManagerCall("m", InsertEvent)])
  {
    steps := Extend([], StartRequest("m"), keepsFlag, State([], [], false, [ManagerCall("m", CheckInFlight)]));
    steps := Extend(steps, Advance(0), keepsFlag, State([], [], false, [ManagerCall("m", InsertAction)]));
    steps := Extend(steps, Advance(0), keepsFlag, State([AskedAction], [], false, [ManagerCall("m", InsertEvent)]));
  }

  lemma KeptFlagPends(p: Payload) returns (steps: seq<Step>)
    ensures steps == Ask + [HandleRequested(0, p, Quiet, false)]
    ensures Run(steps, true) == State([AskedAction, TaskAction(PendingApproval, true, None)], [RequestedEvent(true)], false, Done)
  {
    SuggestOnlyRunsOnlyWithBothFlags(SuggestOnlyRequest(p, true, false), Quiet);
    steps := AskInserts(true);
    steps := Extend(steps, Advance(0), true, State([AskedAction], [RequestedEvent(true)], false, Done));
    var pending := State([AskedAction, TaskAction(PendingApproval, true, None)], [RequestedEvent(true)], false, Done);
    steps := Extend(steps, HandleRequested(0, p, Quiet, false), true, pending);
  }

  /** The manager's request and its approval, with the payload each request event carries. */
  function ApprovedRequest(p: Payload): seq<Step> {
    Ask + [HandleRequested(0, p, Quiet, false)] + [Decide(1, true)] + [HandleApproved(1, p, Quiet)]
  }

  lemma KeptFlagRuns(p: Payload) returns (steps: seq<Step>)
    ensures steps == ApprovedRequest(p) && Run(steps, true).ran
  {
    steps := KeptFlagPends(p);
    SuggestOnlyRunsOnlyWithBothFlags(SuggestOnlyRequest(p, true, true), Quiet);
    var approved := State([AskedAction, TaskAction(Approved, true, None)], [RequestedEvent(true), ApprovedEvent(1)], false, Done);
    steps := Extend(steps, Decide(1, true), true, approved);
    steps := Extend(steps, HandleApproved(1, p, Quiet), true, approved.(ran := true));
  }

  /**
   What a kept flag would let through.  Explicit requests name no tool, so recipients,
   domains and the guard never apply to them: the approved run goes through whatever the
   policy says, and of its denials it skips exactly a deny list that names "none".
   */
  lemma KeptFlagSkipsTheDenyList(p: Payload) returns (steps: seq<Step>)
    requires p.actionType.NoTool?
    ensures steps == ApprovedRequest(p) && Run(steps, true).ran
    ensures Gate(WithTools(SuggestOnlyRequest(p, true, true)), Quiet).PolicyRefused? <==>
      p.orgPolicy.Some? && "none" in p.orgPolicy.value.denyList
  {
    steps := KeptFlagRuns(p);
    BothFlagsLiftMoreThanTheMode(SuggestOnlyRequest(p, true, true), Quiet);
  }

  /**
   While the workspace is suggest_only, some run of requests and approvals reaches the
   lease exactly when the pending action keeps the explicit flag.  The worker drops it, so
   no explicit request is ever executed, however often it is approved.
   */
  lemma ExplicitRequestRunsExactlyWhenFlagIsKept(keepsFlag: bool)
    ensures CanRun(keepsFlag) <==> keepsFlag
  {
    if keepsFlag {
      var none := List([]);
      var p := Payload(NoTool, Parameters(none, none, none, none, none, None), None, true, None, [], [], None, SuggestOnlyMode, true, []);
      var steps := KeptFlagRuns(p);
    } else {
      forall steps ensures !Run(steps, false).ran {
        RunStaysStuck(steps);
      }
    }
  }

  lemma {:induction false} RunAppendSnoc(before: seq<Step>, after: seq<Step>, keepsFlag: bool)
    requires after != []
    ensures Run(before + after, keepsFlag) == Next(Run(before + after[..|after| - 1], keepsFlag), after[|after| - 1], keepsFlag)
  {
    var both := before + after;
    assert |both| == |before| + |after| && both[|both| - 1] == after[|after| - 1];
    assert both[..|both| - 1] == before + after[..|after| - 1];
    assert Run(both, keepsFlag) == Next(Run(both[..|both| - 1], keepsFlag), both[|both| - 1], keepsFlag);
  }

  lemma PendingStays(s: State, a: Step)
    requires Stuck(s) && AlreadyPending(s)
    ensures AlreadyPending(Next(s, a, false))
  {
    NextStaysStuck(s, a);
    var i :| 0 <= i < |s.actions| && InFlight(s.actions[i]);
    FlaggedStays(s, a, i);
  }

  /** And after the first request no manager can ask again: the action stays in flight for good, and every later check finds it. */
  lemma {:induction false} FirstRequestIsTheLast(before: seq<Step>, after: seq<Step>)
    requires AlreadyPending(Run(before, false))
    ensures var r := Run(before + after, false);
            && AlreadyPending(r)
            && forall k :: 0 <= k < |r.calls| && r.calls[k].pc.CheckInFlight? ==>
                 Next(r, Advance(k), false) == SetPc(r, k, IsAlreadyPending)
  {
    if after == [] {
      assert before + after == before;
    } else {
      var shorter, a := after[..|after| - 1], after[|after| - 1];
      FirstRequestIsTheLast(before, shorter);
      RunAppendSnoc(before, after, false);
      RunStaysStuck(before + shorter);
      PendingStays(Run(before + shorter, false), a);
    }
  }

  /** An action is in flight, no explicit request has an event, and no call is about to write either. */
  ghost predicate Silent(s: State) {
    && AlreadyPending(s)
    && (forall e :: 0 <= e < |s.events| && s.events[e].RequestedEvent? ==> !s.events[e].explicit)
    && (forall k :: 0 <= k < |s.calls| ==> s.calls[k].pc.CheckInFlight? || s.calls[k].pc.IsAlreadyPending? || s.calls[k].pc.Stopped?)
  }

  lemma NextStaysSilent(s: State, a: Step)
    requires Stuck(s) && Silent(s) && a != Enqueue(true)
    ensures Silent(Next(s, a, false))
  {
    PendingStays(s, a);
  }

  lemma {:induction false} RunStaysSilent(before: seq<Step>, after: seq<Step>)
    requires Silent(Run(before, false)) && Enqueue(true) !in after
    ensures Silent(Run(before + after, false))
  {
    if after == [] {
      assert before + after == before;
    } else {
      var shorter, a := after[..|after| - 1], after[|after| - 1];
      RunStaysSilent(before, shorter);
      RunAppendSnoc(before, after, false);
      RunStaysStuck(before + shorter);
      NextStaysSilent(Run(before + shorter, false), a);
    }
  }

  /**
   The action and its event are two writes.  A call that stops in between leaves an action
   in flight that no event will ever move: whatever follows, no explicit request is written
   any more, and every manager is told that one is pending.
   */
  lemma StoppedRequestBlocksAll(after: seq<Step>)
    requires Enqueue(true) !in after
    ensures var steps := [StartRequest("m")] + [Advance(0)] + [Advance(0)] + [Stop(0)];
            Run(steps, false).events == [] && Silent(Run(steps + after, false))
  {
    var steps := AskInserts(false);
    steps := Extend(steps, Stop(0), false, State([AskedAction], [], false, [ManagerCall("m", Stopped)]));
    assert InFlight(Run(steps, false).actions[0]);
    RunStaysSilent(steps, after);
  }

  // ----- Decisions, duplicates and races -----

  /** Every approval event belongs to an approved action. */
  ghost predicate EventsApproved(s: State) {
    forall e :: 0 <= e < |s.events| && s.events[e].ApprovedEvent? ==>
      s.events[e].action < |s.actions| && s.actions[s.events[e].action].state.Approved?
  }

  lemma HandleKeepsApproved(s: State, r: Request, env: Env, duplicate: bool, keepsFlag: bool)
    requires EventsApproved(s)
    ensures EventsApproved(Handle(s, r, env, duplicate, keepsFlag))
  {
  }

  lemma NextKeepsApproved(s: State, a: Step, keepsFlag: bool)
    requires EventsApproved(s)
    ensures EventsApproved(Next(s, a, keepsFlag))
  {
    match a
    case HandleRequested(e, p, env, duplicate) =>
      if e < |s.events| && s.events[e].RequestedEvent? {
        HandleKeepsApproved(s, SuggestOnlyRequest(p, s.events[e].explicit, false), env, duplicate, keepsFlag);
      }
    case HandleApproved(e, p, env) =>
      if e < |s.events| && s.events[e].ApprovedEvent? {
        var i, flag := s.events[e].action, s.actions[s.events[e].action].explicit;
        HandleKeepsApproved(s.(actions := s.actions[i := s.actions[i].(state := Approved)]), SuggestOnlyRequest(p, flag, flag), env, false, keepsFlag);
      }
    case _ =>
  }

  lemma {:induction false} RunKeepsApproved(steps: seq<Step>, keepsFlag: bool)
    ensures EventsApproved(Run(steps, keepsFlag))
  {
    if steps != [] {
      RunKeepsApproved(steps[..|steps| - 1], keepsFlag);
      NextKeepsApproved(Run(steps[..|steps| - 1], keepsFlag), steps[|steps| - 1], keepsFlag);
    }
  }

  /** The action is rejected, and no approval of it is on its way. */
  ghost predicate IsRejected(s: State, i: nat, a: TaskAction) {
    && i < |s.actions| && s.actions[i] == a.(state := Rejected)
    && forall e :: 0 <= e < |s.events| ==> s.events[e] != ApprovedEvent(i)
  }

  lemma NextKeepsRejected(s: State, step: Step, keepsFlag: bool, i: nat, a: TaskAction)
    requires EventsApproved(s) && IsRejected(s, i, a)
    ensures IsRejected(Next(s, step, keepsFlag), i, a)
  {
  }

  lemma {:induction false} RejectedStays(before: seq<Step>, i: nat, a: TaskAction, after: seq<Step>, keepsFlag: bool)
    requires IsRejected(Run(before, keepsFlag), i, a)
    ensures IsRejected(Run(before + after, keepsFlag), i, a)
  {
    if after == [] {
      assert before + after == before;
    } else {
      var shorter := after[..|after| - 1];
      RejectedStays(before, i, a, shorter, keepsFlag);
      RunKeepsApproved(before + shorter, keepsFlag);
      RunAppendSnoc(before, after, keepsFlag);
      NextKeepsRejected(Run(before + shorter, keepsFlag), after[|after| - 1], keepsFlag, i, a);
    }
  }

  lemma RejectingRejects(s: State, i: nat, keepsFlag: bool)
    requires EventsApproved(s) && i < |s.actions| && s.actions[i].state.PendingApproval?
    ensures IsRejected(Next(s, Decide(i, false), keepsFlag), i, s.actions[i])
  {
  }

  /** A rejected action stays rejected, and no approval of it is ever delivered. */
  lemma {:induction false} RejectionIsFinal(before: seq<Step>, i: nat, after: seq<Step>, keepsFlag: bool)
    requires i < |Run(before, keepsFlag).actions| && Run(before, keepsFlag).actions[i].state.PendingApproval?
    ensures IsRejected(Run(before + [Decide(i, false)] + after, keepsFlag), i, Run(before, keepsFlag).actions[i])
  {
    var s := Run(before, keepsFlag);
    RunKeepsApproved(before, keepsFlag);
    RejectingRejects(s, i, keepsFlag);
    var rejected := Extend(before, Decide(i, false), keepsFlag, Next(s, Decide(i, false), keepsFlag));
    RejectedStays(rejected, i, s.actions[i], after, keepsFlag);
  }

  /** The handler puts up at most one action, none for a duplicate, and never one that is decided already. */
  lemma HandlerPutsUp(s: State, r: Request, env: Env, duplicate: bool, keepsFlag: bool)
    ensures var s' := Handle(s, r, env, duplicate, keepsFlag);
            && s'.events == s.events && s'.calls == s.calls
            && (s'.actions != s.actions <==> !duplicate && Gate(r, env).ApprovalPending?)
            && (s'.actions != s.actions ==> |s'.actions| == |s.actions| + 1 && s'.actions[..|s.actions|] == s.actions
                                             && s'.actions[|s.actions|].state.PendingApproval?)
            && (s'.ran <==> s.ran || Gate(r, env).LeaseAndRun?)
  {
    if Gate(r, env).ApprovalPending? && !duplicate {
      assert |Handle(s, r, env, duplicate, keepsFlag).actions| == |s.actions| + 1;
    }
  }

  /** A manager is in the key of explicit actions only, and whoever met the duplicate has one. */
  ghost predicate AskedInv(s: State) {
    && (forall i :: 0 <= i < |s.actions| && s.actions[i].requester.Some? ==> s.actions[i].explicit)
    && (forall k :: 0 <= k < |s.calls| && s.calls[k].pc.RecheckInFlight? ==> HasAsked(s, s.calls[k].manager))
  }

  lemma HasAskedStays(s: State, a: Step, manager: string)
    requires HasAsked(s, manager)
    ensures HasAsked(Next(s, a, false), manager)
  {
    var i :| 0 <= i < |s.actions| && s.actions[i].requester == Some(manager);
    assert Next(s, a, false).actions[i].requester == Some(manager);
  }

  lemma NextKeepsAsked(s: State, a: Step)
    requires AskedInv(s)
    ensures AskedInv(Next(s, a, false))
  {
    var s' := Next(s, a, false);
    forall k | 0 <= k < |s'.calls| && s'.calls[k].pc.RecheckInFlight? ensures HasAsked(s', s'.calls[k].manager) {
      HasAskedStays(s, a, s'.calls[k].manager);
    }
  }

  lemma {:induction false} RunKeepsAsked(steps: seq<Step>)
    ensures AskedInv(Run(steps, false))
  {
    if steps != [] {
      RunKeepsAsked(steps[..|steps| - 1]);
      NextKeepsAsked(Run(steps[..|steps| - 1], false), steps[|steps| - 1]);
    }
  }

  /** A manager who asks again at the same moment meets his own action: the error is never passed on, he is told that it is pending. */
  lemma {:induction false} RepeatedRequestIsTold(steps: seq<Step>, k: nat)
    requires k < |Run(steps, false).calls| && Run(steps, false).calls[k].pc.RecheckInFlight?
    ensures Next(Run(steps, false), Advance(k), false) == SetPc(Run(steps, false), k, IsAlreadyPending)
  {
    RunKeepsAsked(steps);
    RunStaysStuck(steps);
    var s := Run(steps, false);
    var i :| 0 <= i < |s.actions| && s.actions[i].requester == Some(s.calls[k].manager);
    assert InFlight(s.actions[i]);
  }

  lemma FlaggedStays(s: State, a: Step, i: nat)
    requires Stuck(s) && i < |s.actions| && s.actions[i].explicit
    ensures var s' := Next(s, a, false); i < |s'.actions| && s'.actions[i] == s.actions[i]
  {
  }
}
