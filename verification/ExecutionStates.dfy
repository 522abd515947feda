/** Execution states and events, and the reducer that is the only way from one state to the next. */
module ExecutionStates {
  import opened Wrappers

  datatype Kind =
    | KQueued | KPolicyEvaluating | KPolicyBlocked | KAwaitingApproval | KPlanning | KReadyToExecute
    | KReasoning | KToolExecuting | KObserving | KVerifying | KStepComplete | KBlocked | KPaused
    | KRetryScheduled | KCancelling | KCancelled | KSucceeded | KFailed

  datatype Actor = User | Agent | System

  /** The fields of a state owned by a run. */
  datatype RunRef = RunRef(runId: string, workerId: string, leaseExpiresAt: string)

  datatype ExecutionState =
    | Queued(queuedAt: string)
    | PolicyEvaluating(queuedAt: string)
    | PolicyBlocked(reason: string, decidedAt: string)
    | AwaitingApproval(actionType: string, requestedAt: string, expiresAt: Option<string>)
    | Planning(run: RunRef)
    | ReadyToExecute(run: RunRef)
    | Reasoning(run: RunRef, iteration: int)
    | ToolExecuting(run: RunRef, iteration: int, stepId: string, toolName: string, attempt: int, idempotencyKey: string)
    | Observing(run: RunRef, iteration: int, stepId: string, toolName: string)
    | Verifying(run: RunRef, iteration: int, stepId: string, toolName: string)
    | StepComplete(run: RunRef, iteration: int, stepId: string)
    | Blocked(reason: string, runId: Option<string>)
    | Paused(reason: string, question: string, pendingResolution: Option<string>, runId: Option<string>)
    | RetryScheduled(retryCount: int, maxRetries: int, nextRetryAt: string, lastError: string, category: string)
    | Cancelling(initiatedBy: Actor, reason: string, requestedAt: string, runId: Option<string>)
    | Cancelled(reason: string, cancelledAt: string)
    | Succeeded(finishedAt: string, finalRunId: string, result: string)
    | Failed(finishedAt: string, reason: string, lastError: string, runId: Option<string>)

  datatype ExecutionEvent =
    | EvaluatePolicy
    | BlockByPolicy(reason: string, decidedAt: string)
    | RequireApproval(actionType: string, requestedAt: string, expiresAt: Option<string>)
    | GrantApproval(run: RunRef)
    | RejectApproval(reason: string, finishedAt: string)
    | AcquireLease(run: RunRef)
    | PlanReady
    | StartIteration(iteration: int)
    | StartTool(stepId: string, toolName: string, attempt: int, idempotencyKey: string)
    | ObserveTool
    | VerifyTool
    | CompleteStep
    | AchieveGoal(finishedAt: string, runId: string, result: string)
    | RequireClarification(reason: string, question: string, pendingResolution: Option<string>)
    | ResolveClarification(run: RunRef, iteration: int)
    | Block(reason: string)
    | Fail(reason: string, retryable: bool, category: string, retryCount: int, maxRetries: int,
           nextRetryAt: Option<string>, finishedAt: string)
    | RetryDue(queuedAt: string)
    | ExhaustRetries(lastError: string, finishedAt: string)
    | RequestCancel(initiatedBy: Actor, reason: string, requestedAt: string)
    | FinalizeCancel(reason: string, cancelledAt: string)

  datatype Reduced = Accepted(to: ExecutionState) | Rejected

  function KindOf(s: ExecutionState): Kind {
    match s
    case Queued(_) => KQueued
    case PolicyEvaluating(_) => KPolicyEvaluating
    case PolicyBlocked(_, _) => KPolicyBlocked
    case AwaitingApproval(_, _, _) => KAwaitingApproval
    case Planning(_) => KPlanning
    case ReadyToExecute(_) => KReadyToExecute
    case Reasoning(_, _) => KReasoning
    case ToolExecuting(_, _, _, _, _, _) => KToolExecuting
    case Observing(_, _, _, _) => KObserving
    case Verifying(_, _, _, _) => KVerifying
    case StepComplete(_, _, _) => KStepComplete
    case Blocked(_, _) => KBlocked
    case Paused(_, _, _, _) => KPaused
    case RetryScheduled(_, _, _, _, _) => KRetryScheduled
    case Cancelling(_, _, _, _) => KCancelling
    case Cancelled(_, _) => KCancelled
    case Succeeded(_, _, _) => KSucceeded
    case Failed(_, _, _, _) => KFailed
  }

  /** The transition table, grouped by the state left. */
  predicate IsLegal(from: Kind, to: Kind) {
    match from
    case KQueued => to.KPolicyEvaluating? || to.KCancelling?
    case KPolicyEvaluating => to.KPolicyBlocked? || to.KAwaitingApproval? || to.KPlanning? || to.KCancelling?
    case KAwaitingApproval => to.KPlanning? || to.KFailed? || to.KBlocked? || to.KCancelling?
    case KPolicyBlocked => to.KQueued? || to.KCancelled?
    case KPlanning => to.KReadyToExecute? || to.KBlocked? || to.KFailed? || to.KCancelling?
    case KReadyToExecute => to.KReasoning? || to.KBlocked? || to.KCancelling?
    case KReasoning => to.KToolExecuting? || to.KPaused? || to.KRetryScheduled? || to.KSucceeded? || to.KFailed? || to.KCancelling?
    case KToolExecuting => to.KObserving? || to.KPaused? || to.KRetryScheduled? || to.KFailed? || to.KCancelling?
    case KObserving => to.KVerifying? || to.KRetryScheduled? || to.KFailed? || to.KCancelling?
    case KVerifying => to.KStepComplete? || to.KReasoning? || to.KRetryScheduled? || to.KFailed? || to.KCancelling?
    case KStepComplete => to.KReasoning? || to.KSucceeded? || to.KCancelling?
    case KBlocked => to.KQueued? || to.KFailed? || to.KCancelled?
    case KPaused => to.KReasoning? || to.KFailed? || to.KCancelling?
    case KRetryScheduled => to.KQueued? || to.KFailed? || to.KCancelling?
    case KCancelling => to.KCancelled? || to.KFailed?
    case _ => false
  }

  predicate CanTransition(from: Kind, to: Kind) {
    from != to && IsLegal(from, to)
  }

  /** An empty string is dropped like a missing one. */
  function Truthy(s: Option<string>): Option<string> {
    if s == Some("") then None else s
  }

  function RunIdOf(s: ExecutionState): Option<string> {
    match s
    case Planning(run) => Some(run.runId)
    case ReadyToExecute(run) => Some(run.runId)
    case Reasoning(run, _) => Some(run.runId)
    case ToolExecuting(run, _, _, _, _, _) => Some(run.runId)
    case Observing(run, _, _, _) => Some(run.runId)
    case Verifying(run, _, _, _) => Some(run.runId)
    case StepComplete(run, _, _) => Some(run.runId)
    case Blocked(_, runId) => runId
    case Paused(_, _, _, runId) => runId
    case Cancelling(_, _, _, runId) => runId
    case Succeeded(_, runId, _) => Some(runId)
    case Failed(_, _, _, runId) => runId
    case _ => None
  }

  function Transition(from: ExecutionState, to: ExecutionState): Reduced {
    if CanTransition(KindOf(from), KindOf(to)) then Accepted(to) else Rejected
  }

  /** The events that only the table guards: they may leave any state that has an edge to their target. */
  predicate Departs(e: ExecutionEvent) {
    e.RequireClarification? || e.Block? || e.Fail? || e.RequestCancel?
  }

  function DepartureKind(e: ExecutionEvent): Kind
    requires Departs(e)
  {
    match e
    case RequireClarification(_, _, _) => KPaused
    case Block(_) => KBlocked
    case Fail(_, retryable, _, retryCount, maxRetries, nextRetryAt, _) =>
      if retryable && retryCount <= maxRetries && Truthy(nextRetryAt).Some? then KRetryScheduled else KFailed
    case RequestCancel(_, _, _) => KCancelling
  }

  function Departure(e: ExecutionEvent, runId: Option<string>): (to: ExecutionState)
    requires Departs(e)
    ensures KindOf(to) == DepartureKind(e)
  {
    match e
    case RequireClarification(reason, question, pending) => Paused(reason, question, pending, runId)
    case Block(reason) => Blocked(reason, runId)
    case Fail(reason, retryable, category, retryCount, maxRetries, nextRetryAt, finishedAt) =>
      if retryable && retryCount <= maxRetries && Truthy(nextRetryAt).Some? then
        RetryScheduled(retryCount, maxRetries, nextRetryAt.value, reason, category)
      else
        Failed(finishedAt, if retryable then "Retry budget exhausted." else "Execution failed.", reason, runId)
    case RequestCancel(initiatedBy, reason, requestedAt) => Cancelling(initiatedBy, reason, requestedAt, runId)
  }

  /** The events that name the states they may leave. */
  function Advance(s: ExecutionState, e: ExecutionEvent): Option<ExecutionState>
    requires !Departs(e)
  {
    match e
    case EvaluatePolicy =>
      if s.Queued? then Some(PolicyEvaluating(s.queuedAt)) else None
    case BlockByPolicy(reason, decidedAt) =>
      if s.PolicyEvaluating? then Some(PolicyBlocked(reason, decidedAt)) else None
    case RequireApproval(actionType, requestedAt, expiresAt) =>
      if s.PolicyEvaluating? then Some(AwaitingApproval(actionType, requestedAt, Truthy(expiresAt))) else None
    case AcquireLease(run) =>
      if s.PolicyEvaluating? || s.AwaitingApproval? then Some(Planning(run)) else None
    case GrantApproval(run) =>
      if s.AwaitingApproval? then Some(Planning(run)) else None
    case RejectApproval(reason, finishedAt) =>
      if s.AwaitingApproval? then Some(Failed(finishedAt, reason, reason, None)) else None
    case PlanReady =>
      if s.Planning? then Some(ReadyToExecute(s.run)) else None
    case StartIteration(iteration) =>
      if s.ReadyToExecute? || s.StepComplete? || s.Verifying? then Some(Reasoning(s.run, iteration)) else None
    case StartTool(stepId, toolName, attempt, key) =>
      if s.Reasoning? then Some(ToolExecuting(s.run, s.iteration, stepId, toolName, attempt, key)) else None
    case ObserveTool =>
      if s.ToolExecuting? then Some(Observing(s.run, s.iteration, s.stepId, s.toolName)) else None
    case VerifyTool =>
      if s.Observing? then Some(Verifying(s.run, s.iteration, s.stepId, s.toolName)) else None
    case CompleteStep =>
      if s.Verifying? then Some(StepComplete(s.run, s.iteration, s.stepId)) else None
    case AchieveGoal(finishedAt, runId, result) =>
      if s.Reasoning? || s.StepComplete? then Some(Succeeded(finishedAt, runId, result)) else None
    case ResolveClarification(run, iteration) =>
      if s.Paused? && Truthy(s.runId).Some? then Some(Reasoning(run, iteration)) else None
    case RetryDue(queuedAt) =>
      if s.RetryScheduled? then Some(Queued(queuedAt)) else None
    case ExhaustRetries(lastError, finishedAt) =>
      if s.RetryScheduled? then Some(Failed(finishedAt, "Retry budget exhausted.", lastError, None)) else None
    case FinalizeCancel(reason, cancelledAt) =>
      if s.Cancelling? then Some(Cancelled(reason, cancelledAt)) else None
  }

  function Reduce(s: ExecutionState, e: ExecutionEvent): Reduced {
    if Departs(e) then Transition(s, Departure(e, Truthy(RunIdOf(s))))
    else
      match Advance(s, e)
      case Some(to) => Transition(s, to)
      case None => Rejected
  }

  // ----- Which events a state accepts, and what the next state carries -----

  /** The failure schedules another try. */
  predicate Retries(e: ExecutionEvent) {
    e.Fail? && e.retryable && e.retryCount <= e.maxRetries && e.nextRetryAt.Some? && e.nextRetryAt.value != ""
  }

  /** The event leaves states of this kind. */
  predicate Leaves(k: Kind, e: ExecutionEvent) {
    match e
    case EvaluatePolicy => k.KQueued?
    case BlockByPolicy(_, _) => k.KPolicyEvaluating?
    case RequireApproval(_, _, _) => k.KPolicyEvaluating?
    case AcquireLease(_) => k.KPolicyEvaluating? || k.KAwaitingApproval?
    case GrantApproval(_) => k.KAwaitingApproval?
    case RejectApproval(_, _) => k.KAwaitingApproval?
    case PlanReady => k.KPlanning?
    case StartIteration(_) => k.KReadyToExecute? || k.KVerifying? || k.KStepComplete?
    case StartTool(_, _, _, _) => k.KReasoning?
    case ObserveTool => k.KToolExecuting?
    case VerifyTool => k.KObserving?
    case CompleteStep => k.KVerifying?
    case AchieveGoal(_, _, _) => k.KReasoning? || k.KStepComplete?
    case RequireClarification(_, _, _) => k.KReasoning? || k.KToolExecuting?
    case ResolveClarification(_, _) => k.KPaused?
    case Block(_) => k.KAwaitingApproval? || k.KPlanning? || k.KReadyToExecute?
    case Fail(_, _, _, _, _, _, _) =>
      if Retries(e) then k.KReasoning? || k.KToolExecuting? || k.KObserving? || k.KVerifying?
      else k.KAwaitingApproval? || k.KPlanning? || k.KReasoning? || k.KToolExecuting? || k.KObserving? || k.KVerifying? || k.KBlocked? || k.KPaused? || k.KRetryScheduled? || k.KCancelling?
    case RetryDue(_) => k.KRetryScheduled?
    case ExhaustRetries(_, _) => k.KRetryScheduled?
    case RequestCancel(_, _, _) =>
      k.KQueued? || k.KPolicyEvaluating? || k.KAwaitingApproval? || k.KPlanning? || k.KReadyToExecute? || k.KReasoning? || k.KToolExecuting? || k.KObserving? || k.KVerifying?
      || k.KStepComplete? || k.KPaused? || k.KRetryScheduled?
    case FinalizeCancel(_, _) => k.KCancelling?
  }

  /** The kind of state that an event leads to. */
  function TargetOf(e: ExecutionEvent): Kind {
    match e
    case EvaluatePolicy => KPolicyEvaluating
    case BlockByPolicy(_, _) => KPolicyBlocked
    case RequireApproval(_, _, _) => KAwaitingApproval
    case AcquireLease(_) => KPlanning
    case GrantApproval(_) => KPlanning
    case RejectApproval(_, _) => KFailed
    case PlanReady => KReadyToExecute
    case StartIteration(_) => KReasoning
    case StartTool(_, _, _, _) => KToolExecuting
    case ObserveTool => KObserving
    case VerifyTool => KVerifying
    case CompleteStep => KStepComplete
    case AchieveGoal(_, _, _) => KSucceeded
    case RequireClarification(_, _, _) => KPaused
    case ResolveClarification(_, _) => KReasoning
    case Block(_) => KBlocked
    case Fail(_, _, _, _, _, _, _) => if Retries(e) then KRetryScheduled else KFailed
    case RetryDue(_) => KQueued
    case ExhaustRetries(_, _) => KFailed
    case RequestCancel(_, _, _) => KCancelling
    case FinalizeCancel(_, _) => KCancelled
  }

  /** An event is accepted exactly in the states it leaves, a clarification only where a run waits for it, and leads to its target. */
  lemma AcceptedExactlyFrom(s: ExecutionState, e: ExecutionEvent)
    ensures Reduce(s, e).Accepted? <==>
      Leaves(KindOf(s), e) && (e.ResolveClarification? ==> RunIdOf(s).Some? && RunIdOf(s).value != "")
    ensures Reduce(s, e).Accepted? ==> KindOf(Reduce(s, e).to) == TargetOf(e)
  {
    if Departs(e) {
      DepartsExactlyFrom(s, e);
    } else if IsToolStep(e) {
      AdvancesTools(s, e);
    } else if IsRunStep(e) {
      AdvancesInRun(s, e);
    } else if IsRunEntry(e) {
      AdvancesIntoRun(s, e);
    } else {
      AdvancesOutsideRun(s, e);
    }
  }

  /** The events of a run besides those of its tools. */
  predicate IsRunStep(e: ExecutionEvent) {
    e.PlanReady? || e.StartIteration? || e.AchieveGoal?
  }

  predicate IsToolStep(e: ExecutionEvent) {
    e.StartTool? || e.ObserveTool? || e.VerifyTool? || e.CompleteStep?
  }

  lemma AdvancesInRun(s: ExecutionState, e: ExecutionEvent)
    requires IsRunStep(e)
    ensures Reduce(s, e).Accepted? <==> Leaves(KindOf(s), e)
    ensures Reduce(s, e).Accepted? ==> KindOf(Reduce(s, e).to) == TargetOf(e)
  {
    assert Advance(s, e).Some? ==> KindOf(Advance(s, e).value) == TargetOf(e);
  }

  lemma AdvancesTools(s: ExecutionState, e: ExecutionEvent)
    requires IsToolStep(e)
    ensures Reduce(s, e).Accepted? <==> Leaves(KindOf(s), e)
    ensures Reduce(s, e).Accepted? ==> KindOf(Reduce(s, e).to) == TargetOf(e)
  {
    assert Advance(s, e).Some? ==> KindOf(Advance(s, e).value) == TargetOf(e);
  }

  /** The events on the way to a run: policy, approval and lease. */
  predicate IsRunEntry(e: ExecutionEvent) {
    e.EvaluatePolicy? || e.BlockByPolicy? || e.RequireApproval? || e.AcquireLease? || e.GrantApproval? || e.RejectApproval?
  }

  lemma AdvancesIntoRun(s: ExecutionState, e: ExecutionEvent)
    requires IsRunEntry(e)
    ensures Reduce(s, e).Accepted? <==> Leaves(KindOf(s), e)
    ensures Reduce(s, e).Accepted? ==> KindOf(Reduce(s, e).to) == TargetOf(e)
  {
    assert Advance(s, e).Some? ==> KindOf(Advance(s, e).value) == TargetOf(e);
  }

  lemma AdvancesOutsideRun(s: ExecutionState, e: ExecutionEvent)
    requires !Departs(e) && !IsRunStep(e) && !IsToolStep(e) && !IsRunEntry(e)
    ensures Reduce(s, e).Accepted? <==>
      Leaves(KindOf(s), e) && (e.ResolveClarification? ==> RunIdOf(s).Some? && RunIdOf(s).value != "")
    ensures Reduce(s, e).Accepted? ==> KindOf(Reduce(s, e).to) == TargetOf(e)
  {
    assert Advance(s, e).Some? ==> KindOf(Advance(s, e).value) == TargetOf(e);
  }

  lemma DepartsExactlyFrom(s: ExecutionState, e: ExecutionEvent)
    requires Departs(e)
    ensures Reduce(s, e).Accepted? <==> Leaves(KindOf(s), e)
    ensures Reduce(s, e).Accepted? ==> KindOf(Reduce(s, e).to) == TargetOf(e)
  {
    assert KindOf(Departure(e, Truthy(RunIdOf(s)))) == TargetOf(e);
    TableGuards(KindOf(s), e);
  }

  lemma TableGuards(k: Kind, e: ExecutionEvent)
    requires Departs(e)
    ensures CanTransition(k, TargetOf(e)) <==> Leaves(k, e)
  {
  }

  /** The run a state belongs to is handed on when it is left from outside, and an empty one is dropped. */
  predicate KeepsRunId(s: ExecutionState, runId: Option<string>) {
    runId == if RunIdOf(s) == Some("") then None else RunIdOf(s)
  }

  /** What a state says, told by state: each field is the event's, or is kept from the state left. */
  predicate Carries(s: ExecutionState, e: ExecutionEvent, to: ExecutionState) {
    match to
    case Queued(at) => e.RetryDue? && at == e.queuedAt
    case PolicyEvaluating(at) => s.Queued? && at == s.queuedAt
    case PolicyBlocked(reason, at) => e.BlockByPolicy? && reason == e.reason && at == e.decidedAt
    case AwaitingApproval(actionType, at, expiresAt) =>
      e.RequireApproval? && actionType == e.actionType && at == e.requestedAt && expiresAt == if e.expiresAt == Some("") then None else e.expiresAt
    case Planning(run) => (e.AcquireLease? || e.GrantApproval?) && run == e.run
    case ReadyToExecute(run) => s.Planning? && run == s.run
    case Reasoning(run, iteration) =>
      && (e.StartIteration? || e.ResolveClarification?) && iteration == e.iteration
      && (if e.ResolveClarification? then run == e.run else (s.ReadyToExecute? || s.Verifying? || s.StepComplete?) && run == s.run)
    case ToolExecuting(run, iteration, stepId, toolName, attempt, key) =>
      && s.Reasoning? && run == s.run && iteration == s.iteration
      && e.StartTool? && stepId == e.stepId && toolName == e.toolName && attempt == e.attempt && key == e.idempotencyKey
    case Observing(run, iteration, stepId, toolName) =>
      s.ToolExecuting? && run == s.run && iteration == s.iteration && stepId == s.stepId && toolName == s.toolName
    case Verifying(run, iteration, stepId, toolName) =>
      s.Observing? && run == s.run && iteration == s.iteration && stepId == s.stepId && toolName == s.toolName
    case StepComplete(run, iteration, stepId) => s.Verifying? && run == s.run && iteration == s.iteration && stepId == s.stepId
    case Blocked(reason, runId) => e.Block? && reason == e.reason && KeepsRunId(s, runId)
    case Paused(reason, question, pending, runId) =>
      e.RequireClarification? && reason == e.reason && question == e.question && pending == e.pendingResolution && KeepsRunId(s, runId)
    case RetryScheduled(retryCount, maxRetries, at, lastError, category) =>
      && e.Fail? && retryCount == e.retryCount && maxRetries == e.maxRetries && e.nextRetryAt == Some(at)
      && lastError == e.reason && category == e.category
    case Cancelling(initiator, reason, at, runId) =>
      e.RequestCancel? && initiator == e.initiatedBy && reason == e.reason && at == e.requestedAt && KeepsRunId(s, runId)
    case Cancelled(reason, at) => e.FinalizeCancel? && reason == e.reason && at == e.cancelledAt
    case Succeeded(at, runId, result) => e.AchieveGoal? && at == e.finishedAt && runId == e.runId && result == e.result
    case Failed(at, reason, lastError, runId) =>
      && (e.Fail? || e.RejectApproval? || e.ExhaustRetries?) && at == e.finishedAt
      && lastError == (if e.ExhaustRetries? then e.lastError else e.reason)
      && (if e.RejectApproval? then reason == e.reason
          else if e.ExhaustRetries? || e.retryable then reason == "Retry budget exhausted." else reason == "Execution failed.")
      && (if e.Fail? then KeepsRunId(s, runId) else runId.None?)
  }

  lemma AcceptedCarries(s: ExecutionState, e: ExecutionEvent)
    requires Reduce(s, e).Accepted?
    ensures Carries(s, e, Reduce(s, e).to)
  {
    if !Departs(e) {
      AdvanceCarries(s, e);
    }
  }

  lemma AdvanceCarries(s: ExecutionState, e: ExecutionEvent)
    requires !Departs(e) && Advance(s, e).Some?
    ensures Carries(s, e, Advance(s, e).value)
  {
  }

  /** In particular a granted approval ends in planning, owned by the run it names. */
  lemma ApprovalLeadsToPlanning(s: ExecutionState, run: RunRef)
    ensures Reduce(s, GrantApproval(run)) == if s.AwaitingApproval? then Accepted(Planning(run)) else Rejected
  {
    AcceptedExactlyFrom(s, GrantApproval(run));
    if s.AwaitingApproval? {
      AcceptedCarries(s, GrantApproval(run));
    }
  }

  // ----- Which edges of the table some event takes -----

  /** Legal edges that no event of the reducer takes. */
  predicate HasNoEvent(from: Kind, to: Kind) {
    (from.KPolicyBlocked? || from.KBlocked?) && (to.KQueued? || to.KCancelled?)
  }

  lemma AcceptedStepsAreLegal(s: ExecutionState, e: ExecutionEvent)
    requires Reduce(s, e).Accepted?
    ensures CanTransition(KindOf(s), KindOf(Reduce(s, e).to)) && !HasNoEvent(KindOf(s), KindOf(Reduce(s, e).to))
  {
  }

  /** Run ids are never empty, as the lease service makes them. */
  predicate Named(s: ExecutionState) {
    match s
    case Paused(_, _, _, runId) => Truthy(runId).Some?
    case _ => KindOf(s) in RunOwned ==> Truthy(RunIdOf(s)).Some?
  }

  const RunOwned := {KPlanning, KReadyToExecute, KReasoning, KToolExecuting, KObserving, KVerifying, KStepComplete}

  function SampleState(k: Kind): (s: ExecutionState)
    ensures KindOf(s) == k && Named(s)
  {
    var run := RunRef("r", "w", "t");
    match k
    case KQueued => Queued("t")
    case KPolicyEvaluating => PolicyEvaluating("t")
    case KPolicyBlocked => PolicyBlocked("", "t")
    case KAwaitingApproval => AwaitingApproval("none", "t", None)
    case KPlanning => Planning(run)
    case KReadyToExecute => ReadyToExecute(run)
    case KReasoning => Reasoning(run, 1)
    case KToolExecuting => ToolExecuting(run, 1, "s", "tool", 1, "k")
    case KObserving => Observing(run, 1, "s", "tool")
    case KVerifying => Verifying(run, 1, "s", "tool")
    case KStepComplete => StepComplete(run, 1, "s")
    case KBlocked => Blocked("", None)
    case KPaused => Paused("", "", None, Some("r"))
    case KRetryScheduled => RetryScheduled(1, 2, "t", "", "network")
    case KCancelling => Cancelling(User, "", "t", None)
    case KCancelled => Cancelled("", "t")
    case KSucceeded => Succeeded("t", "r", "")
    case KFailed => Failed("t", "", "", None)
  }

  function EventTo(from: Kind, to: Kind): ExecutionEvent {
    var run := RunRef("r", "w", "t");
    match to
    case KQueued => RetryDue("t")
    case KPolicyEvaluating => EvaluatePolicy
    case KPolicyBlocked => BlockByPolicy("", "t")
    case KAwaitingApproval => RequireApproval("none", "t", None)
    case KPlanning => AcquireLease(run)
    case KReadyToExecute => PlanReady
    case KReasoning => if from.KPaused? then ResolveClarification(run, 1) else StartIteration(1)
    case KToolExecuting => StartTool("s", "tool", 1, "k")
    case KObserving => ObserveTool
    case KVerifying => VerifyTool
    case KStepComplete => CompleteStep
    case KBlocked => Block("")
    case KPaused => RequireClarification("", "", None)
    case KRetryScheduled => Fail("", true, "network", 1, 2, Some("t"), "t")
    case KCancelling => RequestCancel(User, "", "t")
    case KCancelled => FinalizeCancel("", "t")
    case KSucceeded => AchieveGoal("t", "r", "")
    case KFailed => Fail("", false, "network", 0, 0, None, "t")
  }

  ghost predicate Taken(from: Kind, to: Kind) {
    exists s, e :: KindOf(s) == from && Reduce(s, e).Accepted? && KindOf(Reduce(s, e).to) == to
  }

  lemma DepartureTakesEdge(s: ExecutionState, to: Kind)
    requires CanTransition(KindOf(s), to) && Departs(EventTo(KindOf(s), to)) && Named(s)
    ensures var r := Reduce(s, EventTo(KindOf(s), to)); r.Accepted? && KindOf(r.to) == to && Named(r.to)
  {
    assert DepartureKind(EventTo(KindOf(s), to)) == to;
  }

  lemma AdvanceTakesEdge(s: ExecutionState, to: Kind)
    requires CanTransition(KindOf(s), to) && !Departs(EventTo(KindOf(s), to)) && !HasNoEvent(KindOf(s), to) && Named(s)
    ensures var r := Reduce(s, EventTo(KindOf(s), to)); r.Accepted? && KindOf(r.to) == to && Named(r.to)
  {
    var e := EventTo(KindOf(s), to);
    assert Advance(s, e).Some? && KindOf(Advance(s, e).value) == to;
  }

  /** From every state of a kind, the event of `EventTo` takes the edge. */
  lemma EventTakesEdge(s: ExecutionState, to: Kind)
    requires CanTransition(KindOf(s), to) && !HasNoEvent(KindOf(s), to) && Named(s)
    ensures var r := Reduce(s, EventTo(KindOf(s), to)); r.Accepted? && KindOf(r.to) == to && Named(r.to)
  {
    if Departs(EventTo(KindOf(s), to)) {
      DepartureTakesEdge(s, to);
    } else {
      AdvanceTakesEdge(s, to);
    }
  }

  /** The reducer takes exactly the legal edges but four: nothing leaves a blocked state except to fail. */
  lemma EdgesTaken(from: Kind, to: Kind)
    ensures Taken(from, to) <==> CanTransition(from, to) && !HasNoEvent(from, to)
  {
    if CanTransition(from, to) && !HasNoEvent(from, to) {
      var s := SampleState(from);
      EventTakesEdge(s, to);
    } else if Taken(from, to) {
      var s, e :| KindOf(s) == from && Reduce(s, e).Accepted? && KindOf(Reduce(s, e).to) == to;
      AcceptedStepsAreLegal(s, e);
    }
  }
}
