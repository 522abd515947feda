/** Policy early exits and cancellation, as they rewrite one task document. */
module TaskDocuments {
  import opened Wrappers
  import opened ExecutionStates
  import opened ExecutionRuns
  import opened ShadowHistory
  import TaskLease

  datatype Lifecycle =
    | LReady | LPlanning | LExecuting | LPaused | LBlocked | LWaitingForApproval | LRetryScheduled | LCompleted | LFailed

  datatype TaskStatus = TPending | TExecuting | TCompleted | TFailed | TPartial | TWaitingForInput

  datatype CancelOutcome = Finalized | Deferred | Noop

  function LegacyLifecycle(s: ExecutionState): Lifecycle {
    match KindOf(s)
    case KQueued => LReady
    case KPolicyEvaluating => LReady
    case KPolicyBlocked => LFailed
    case KAwaitingApproval => LWaitingForApproval
    case KPlanning => LPlanning
    case KBlocked => LBlocked
    case KPaused => LPaused
    case KRetryScheduled => LRetryScheduled
    case KCancelled => LFailed
    case KFailed => LFailed
    case KSucceeded => LCompleted
    case _ => LExecuting
  }

  function LegacyStatus(s: ExecutionState): TaskStatus {
    match KindOf(s)
    case KQueued => TPending
    case KPolicyEvaluating => TPending
    case KPlanning => TPending
    case KReadyToExecute => TPending
    case KAwaitingApproval => TPartial
    case KBlocked => TPartial
    case KRetryScheduled => TPartial
    case KPaused => TWaitingForInput
    case KPolicyBlocked => TFailed
    case KCancelled => TFailed
    case KFailed => TFailed
    case KSucceeded => TCompleted
    case _ => TExecuting
  }

  /** The states that end an execution. */
  predicate IsFinal(s: ExecutionState) {
    s.PolicyBlocked? || s.Cancelled? || s.Failed? || s.Succeeded?
  }

  /** The legacy fields agree on what ended, and how, and on what waits for whom. */
  lemma LegacyFieldsAgree(s: ExecutionState)
    ensures IsFinal(s) <==> LegacyLifecycle(s) == LCompleted || LegacyLifecycle(s) == LFailed
    ensures s.Succeeded? <==> LegacyLifecycle(s) == LCompleted
    ensures LegacyLifecycle(s) == LCompleted <==> LegacyStatus(s) == TCompleted
    ensures LegacyLifecycle(s) == LFailed <==> LegacyStatus(s) == TFailed
    ensures s.RetryScheduled? <==> LegacyLifecycle(s) == LRetryScheduled
    ensures s.AwaitingApproval? <==> LegacyLifecycle(s) == LWaitingForApproval
    ensures s.Blocked? <==> LegacyLifecycle(s) == LBlocked
    ensures s.Planning? <==> LegacyLifecycle(s) == LPlanning
    ensures s.Queued? || s.PolicyEvaluating? <==> LegacyLifecycle(s) == LReady
    ensures s.Paused? <==> LegacyLifecycle(s) == LPaused
    ensures s.Paused? <==> LegacyStatus(s) == TWaitingForInput
    ensures LegacyStatus(s) == TPartial <==> LegacyLifecycle(s) in {LWaitingForApproval, LBlocked, LRetryScheduled}
    ensures LegacyStatus(s) == TExecuting <==> LegacyLifecycle(s) == LExecuting && !s.ReadyToExecute?
    ensures LegacyStatus(s) == TPending <==> LegacyLifecycle(s) in {LReady, LPlanning} || s.ReadyToExecute?
  {
  }

  /** Cancelling, already cancelled, or one legal step away from cancelling. */
  predicate Cancellable(s: ExecutionState) {
    s.Cancelling? || s.Cancelled? || CanTransition(KindOf(s), KCancelling)
  }

  /** The events finalization applies: the request only when the state is not cancelling yet. */
  function CancelEvents(s: ExecutionState, request: ExecutionEvent, finalize: ExecutionEvent): seq<ExecutionEvent> {
    if s.Cancelling? then [finalize] else [request, finalize]
  }

  lemma RequestMoves(s: ExecutionState, request: ExecutionEvent)
    requires request.RequestCancel?
    ensures var x := Apply(s, request);
            if CanTransition(KindOf(s), KCancelling) then x.to.Cancelling? else x.to == s
  {
    assert KindOf(Departure(request, Truthy(RunIdOf(s)))) == KCancelling;
  }

  /** The stored state of a leased task after a cancel request. */
  function AfterRequest(stored: Option<ExecutionState>, request: ExecutionEvent, now: string): Option<ExecutionState> {
    var current := ResolveCurrent(stored, now);
    if current.Cancelling? then stored else Some(Apply(current, request).to)
  }

  /** It is cancelling exactly when it was, or could get there in one step; otherwise only a missing state is filled in. */
  lemma RequestReachesCancelling(stored: Option<ExecutionState>, request: ExecutionEvent, now: string)
    requires request.RequestCancel?
    ensures var before, after := ResolveCurrent(stored, now), AfterRequest(stored, request, now);
            && after.Some?
            && (after.value.Cancelling? <==> before.Cancelling? || CanTransition(KindOf(before), KCancelling))
            && (!after.value.Cancelling? ==> after.value == before)
  {
    RequestMoves(ResolveCurrent(stored, now), request);
  }

  lemma {:induction false} AfterTwo(s: ExecutionState, first: ExecutionEvent, second: ExecutionEvent)
    ensures After(s, [first]) == Apply(s, first).to
    ensures After(s, [first, second]) == Apply(Apply(s, first).to, second).to
  {
    assert [first, second][..1] == [first] && [first][..0] == [];
  }

  lemma {:induction false} FinalizeCancels(s: ExecutionState, finalize: ExecutionEvent)
    requires s.Cancelling? && finalize.FinalizeCancel?
    ensures Apply(s, finalize).to.Cancelled?
  {
  }

  lemma {:induction false} FinalizeIsRefused(s: ExecutionState, finalize: ExecutionEvent)
    requires !s.Cancelling? && finalize.FinalizeCancel?
    ensures Apply(s, finalize).to == s
  {
  }

  /** Requesting and finalizing ends cancelled from the cancellable states and changes no other. */
  lemma {:induction false} AfterCancelEvents(s: ExecutionState, request: ExecutionEvent, finalize: ExecutionEvent)
    requires request.RequestCancel? && finalize.FinalizeCancel?
    ensures var end := After(s, CancelEvents(s, request, finalize));
            if Cancellable(s) then end.Cancelled? else end == s
    ensures s.Cancelled? ==> After(s, CancelEvents(s, request, finalize)) == s
  {
    if s.Cancelling? {
      AfterTwo(s, finalize, finalize);
      FinalizeCancels(s, finalize);
    } else {
      AfterTwo(s, request, finalize);
      RequestMoves(s, request);
      var mid := Apply(s, request).to;
      if mid.Cancelling? {
        FinalizeCancels(mid, finalize);
      } else {
        FinalizeIsRefused(mid, finalize);
      }
    }
  }

  class TaskDocument {
    var executionState: Option<ExecutionState>
    var stateHistory: seq<Entry>
    var lifecycleState: Lifecycle
    var status: TaskStatus
    var progress: int
    var error: Option<string>
    var closedAt: Option<string>
    var cancelRequestedAt: Option<string>
    var cancelReason: Option<string>
    var leaseOwner: Option<string>
    var leaseExpiresAt: Option<int>

    constructor (now: string)
      ensures executionState == Some(CreateQueued(now)) && stateHistory == [] && Explained()
      ensures lifecycleState == LReady && status == TPending && cancelRequestedAt.None? && leaseOwner.None?
    {
      executionState, stateHistory := Some(CreateQueued(now)), [];
      lifecycleState, status, progress, error, closedAt := LReady, TPending, 0, None, None;
      cancelRequestedAt, cancelReason, leaseOwner, leaseExpiresAt := None, None, None, None;
    }

    /** The stored history explains the stored state. */
    ghost predicate Explained()
      reads this`executionState, this`stateHistory
    {
      if executionState.Some? then Explains(stateHistory, executionState.value) else stateHistory == []
    }

    predicate IsTerminal()
      reads this
    {
      lifecycleState in {LCompleted, LFailed} || status in {TCompleted, TFailed}
    }

    predicate IsActivelyLeased(clock: int)
      reads this
    {
      leaseOwner.Some? && leaseOwner.value != "" && leaseExpiresAt.Some? && leaseExpiresAt.value > clock
    }

    /** Policy early exits: always from a queued baseline, legacy fields projected from the result. */
    method EmitPolicyShadowState(events: seq<ExecutionEvent>, now: string) returns (emitted: bool)
      modifies this`executionState, this`stateHistory, this`lifecycleState, this`status
      ensures emitted <==> events != []
      ensures events == [] ==> executionState == old(executionState) && stateHistory == old(stateHistory)
                               && lifecycleState == old(lifecycleState) && status == old(status)
      ensures events != [] ==>
        var base := PolicyBaseline(old(executionState), now);
        && executionState == Some(After(base, events))
        && stateHistory == LastOf(old(stateHistory) + Log(base, events), HISTORY_LIMIT)
        && lifecycleState == LegacyLifecycle(After(base, events)) && status == LegacyStatus(After(base, events))
    {
      if events == [] {
        return false;
      }
      var end, history := FoldEvents(PolicyBaseline(executionState, now), stateHistory, events);
      executionState, stateHistory := Some(end), history;
      lifecycleState, status := LegacyLifecycle(end), LegacyStatus(end);
      emitted := true;
    }

    method ApplyCancellationEvents(events: seq<ExecutionEvent>, now: string)
      requires events != []
      modifies this`executionState, this`stateHistory, this`lifecycleState
      ensures var current := ResolveCurrent(old(executionState), now);
              && executionState == Some(After(current, events))
              && stateHistory == LastOf(old(stateHistory) + Log(current, events), HISTORY_LIMIT)
              && lifecycleState == LegacyLifecycle(After(current, events))
      ensures old(Explained()) ==> Explained()
    {
      ghost var current := ResolveCurrent(executionState, now);
      var end, history := FoldEvents(ResolveCurrent(executionState, now), stateHistory, events);
      if old(Explained()) {
        assert Explains(stateHistory, current);
        FoldKeepsExplains(stateHistory, current, events);
      }
      executionState, stateHistory, lifecycleState := Some(end), history, LegacyLifecycle(end);
    }

    /** The state machine's half of finalizing. */
    method CancelExecutionState(request: ExecutionEvent, finalize: ExecutionEvent, now: string)
      requires request.RequestCancel? && finalize.FinalizeCancel?
      modifies this`executionState, this`stateHistory, this`lifecycleState
      ensures var before := ResolveCurrent(old(executionState), now);
              && executionState.Some?
              && (executionState.value.Cancelled? <==> Cancellable(before))
              && (!Cancellable(before) || before.Cancelled? ==> executionState.value == before)
      ensures old(Explained()) ==> Explained()
    {
      var current := ResolveCurrent(executionState, now);
      var events: seq<ExecutionEvent> := [];
      if !current.Cancelling? {
        events := events + [request];
      }
      events := events + [finalize];
      assert events == CancelEvents(current, request, finalize);
      AfterCancelEvents(current, request, finalize);
      ApplyCancellationEvents(events, now);
    }

    /** The task's half. */
    method CloseCancelledTask(requestedAt: string, reason: string, now: string)
      modifies this`status, this`lifecycleState, this`error, this`progress, this`closedAt
      modifies this`cancelRequestedAt, this`cancelReason, this`leaseOwner, this`leaseExpiresAt
      ensures status == TFailed && lifecycleState == LFailed && progress == 100 && error == Some(reason)
      ensures closedAt == (if old(closedAt).Some? then old(closedAt) else Some(now))
      ensures cancelRequestedAt == (if old(cancelRequestedAt).Some? then old(cancelRequestedAt) else Some(requestedAt))
      ensures cancelReason == Some(reason) && leaseOwner.None? && leaseExpiresAt.None?
    {
      status, lifecycleState, error, progress := TFailed, LFailed, Some(reason), 100;
      if closedAt.None? {
        closedAt := Some(now);
      }
      if cancelRequestedAt.None? {
        cancelRequestedAt := Some(requestedAt);
      }
      cancelReason := Some(reason);
      leaseOwner, leaseExpiresAt := None, None;
    }

    /**
     Finalizing always leaves the task failed, closed and unleased; the state machine ends
     cancelled exactly from the cancellable states and is left as it was from any other.
     */
    method FinalizeTaskCancellation(request: ExecutionEvent, reason: string, now: string)
      requires request.RequestCancel? && request.reason == reason
      modifies this
      ensures status == TFailed && lifecycleState == LFailed && progress == 100 && error == Some(reason)
      ensures closedAt == (if old(closedAt).Some? then old(closedAt) else Some(now))
      ensures cancelRequestedAt == (if old(cancelRequestedAt).Some? then old(cancelRequestedAt) else Some(request.requestedAt))
      ensures cancelReason == Some(reason) && leaseOwner.None? && leaseExpiresAt.None?
      ensures var before := ResolveCurrent(old(executionState), now);
              && executionState.Some?
              && (executionState.value.Cancelled? <==> Cancellable(before))
              && (!Cancellable(before) || before.Cancelled? ==> executionState.value == before)
      ensures old(Explained()) ==> Explained()
    {
      CancelExecutionState(request, FinalizeCancel(reason, now), now);
      CloseCancelledTask(request.requestedAt, reason, now);
    }

    /** A leased task only moves to cancelling, when it is one legal step away; its runner finalizes. */
    method RequestCancellation(request: ExecutionEvent, now: string)
      requires request.RequestCancel?
      modifies this`executionState, this`stateHistory, this`lifecycleState
      ensures executionState == AfterRequest(old(executionState), request, now)
      ensures old(Explained()) ==> Explained()
    {
      var current := ResolveCurrent(executionState, now);
      if !current.Cancelling? {
        AfterTwo(current, request, request);
        ApplyCancellationEvents([request], now);
      }
    }

    /** A terminal task is left alone; a leased one only gets the flag and the request; any other is finalized. */
    method ProcessTaskCancellation(request: ExecutionEvent, reason: string, now: string, clock: int)
      returns (outcome: CancelOutcome)
      requires request.RequestCancel? && request.reason == reason
      modifies this
      ensures outcome.Noop? <==>
        old(lifecycleState == LCompleted || lifecycleState == LFailed || status == TCompleted || status == TFailed)
      ensures outcome.Deferred? <==>
        !outcome.Noop? && old(leaseOwner.Some? && leaseOwner.value != "" && leaseExpiresAt.Some? && leaseExpiresAt.value > clock)
      ensures outcome.Noop? ==> unchanged(this)
      ensures outcome.Deferred? ==> unchanged(this`leaseOwner, this`leaseExpiresAt, this`status, this`progress, this`error, this`closedAt)
      ensures !outcome.Noop? ==>
        cancelRequestedAt == (if old(cancelRequestedAt).Some? then old(cancelRequestedAt) else Some(request.requestedAt))
      ensures outcome.Deferred? ==> cancelReason == if old(cancelRequestedAt).Some? then old(cancelReason) else Some(reason)
      // a lease that its worker still counts on is never taken away
      ensures forall l, w: string, h ::
        TaskLease.OwnsSince(l, w, h) && w != "" && clock < h.since + h.leaseMs
        && l.owner == old(leaseOwner) && l.expiresAt == old(leaseExpiresAt)
        ==> !outcome.Finalized? && leaseOwner == Some(w) && leaseExpiresAt == l.expiresAt
      ensures outcome.Deferred? ==> executionState == AfterRequest(old(executionState), request, now)
      ensures outcome.Finalized? ==> status == TFailed && lifecycleState == LFailed && leaseOwner.None?
      ensures outcome.Finalized? ==>
        (executionState.Some? && executionState.value.Cancelled? <==> Cancellable(ResolveCurrent(old(executionState), now)))
      ensures old(Explained()) ==> Explained()
    {
      if IsTerminal() {
        return Noop;
      }
      if cancelRequestedAt.None? {
        cancelRequestedAt, cancelReason := Some(request.requestedAt), Some(reason);
      }
      if IsActivelyLeased(clock) {
        RequestCancellation(request, now);
        return Deferred;
      }
      FinalizeTaskCancellation(request, reason, now);
      outcome := Finalized;
    }
  }
}
