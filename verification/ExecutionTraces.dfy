/** What the history of a state says about how it was reached. */
module ExecutionTraces {
  import opened Wrappers
  import opened ExecutionStates
  import opened ExecutionRuns

  predicate Evaluates(x: Entry) {
    !x.rejected && x.event.EvaluatePolicy?
  }

  /** A worker was given the task, by lease or by approval. */
  predicate Grants(x: Entry) {
    !x.rejected && (x.event.AcquireLease? || x.event.GrantApproval?)
  }

  predicate StartsTool(x: Entry) {
    !x.rejected && x.event.StartTool?
  }

  ghost predicate NeverQueued(log: seq<Entry>, from: nat, to: nat)
    requires to <= |log|
  {
    forall m :: from <= m < to ==> !log[m].to.Queued?
  }

  ghost predicate EvaluatedAt(log: seq<Entry>, i: nat) {
    i < |log| && Evaluates(log[i]) && NeverQueued(log, i, |log|)
  }

  ghost predicate GrantedAt(log: seq<Entry>, i: nat, j: nat) {
    EvaluatedAt(log, i) && i < j < |log| && Grants(log[j])
  }

  /** Since the last queued state, policy was evaluated. */
  ghost predicate WasEvaluated(log: seq<Entry>) {
    exists i: nat :: EvaluatedAt(log, i)
  }

  /** Since the last queued state, policy was evaluated and then the task was granted to a worker. */
  ghost predicate WasGranted(log: seq<Entry>) {
    exists i: nat, j: nat :: GrantedAt(log, i, j)
  }

  predicate AwaitsGrant(s: ExecutionState) {
    s.PolicyEvaluating? || s.AwaitingApproval?
  }

  /** The run that owns a state. */
  function RunOf(s: ExecutionState): Option<RunRef> {
    if s.Planning? || s.ReadyToExecute? || s.Reasoning? || s.ToolExecuting? || s.Observing? || s.Verifying? || s.StepComplete?
    then Some(s.run) else None
  }

  function StepOf(s: ExecutionState): Option<string> {
    if s.ToolExecuting? || s.Observing? || s.Verifying? || s.StepComplete? then Some(s.stepId) else None
  }

  /** The step and the tool of a state that carries both. */
  function ToolOf(s: ExecutionState): Option<(string, string)> {
    if s.ToolExecuting? || s.Observing? || s.Verifying? then Some((s.stepId, s.toolName)) else None
  }

  function IterationOf(s: ExecutionState): Option<int> {
    if s.Reasoning? || s.ToolExecuting? || s.Observing? || s.Verifying? || s.StepComplete? then Some(s.iteration) else None
  }

  predicate HoldsGrant(s: ExecutionState) {
    RunOf(s).Some? || s.Paused?
  }

  /** The run an event names. */
  function NamedRun(e: ExecutionEvent): Option<RunRef> {
    if e.AcquireLease? || e.GrantApproval? || e.ResolveClarification? then Some(e.run) else None
  }

  /** The run named by the latest accepted event that names one. */
  function LatestRun(log: seq<Entry>): Option<RunRef> {
    if log == [] then None
    else
      var x := log[|log| - 1];
      if !x.rejected && NamedRun(x.event).Some? then NamedRun(x.event) else LatestRun(log[..|log| - 1])
  }

  /** The step and the tool of the latest accepted tool start. */
  function LatestTool(log: seq<Entry>): Option<(string, string)> {
    if log == [] then None
    else if StartsTool(log[|log| - 1]) then Some((log[|log| - 1].event.stepId, log[|log| - 1].event.toolName))
    else LatestTool(log[..|log| - 1])
  }

  /** The iteration an event names. */
  function NamedIteration(e: ExecutionEvent): Option<int> {
    if e.StartIteration? || e.ResolveClarification? then Some(e.iteration) else None
  }

  /** The iteration named by the latest accepted event that names one. */
  function LatestIteration(log: seq<Entry>): Option<int> {
    if log == [] then None
    else
      var x := log[|log| - 1];
      if !x.rejected && NamedIteration(x.event).Some? then NamedIteration(x.event) else LatestIteration(log[..|log| - 1])
  }

  ghost predicate TraceInv(s: ExecutionState, log: seq<Entry>) {
    && (AwaitsGrant(s) ==> WasEvaluated(log))
    && (HoldsGrant(s) ==> WasGranted(log))
    && (RunOf(s).Some? ==> LatestRun(log) == RunOf(s))
    && DataIsLatest(s, log)
  }

  predicate DataIsLatest(s: ExecutionState, log: seq<Entry>) {
    && (StepOf(s).Some? ==> LatestTool(log).Some? && LatestTool(log).value.0 == StepOf(s).value)
    && (ToolOf(s).Some? ==> LatestTool(log) == ToolOf(s))
    && (IterationOf(s).Some? ==> LatestIteration(log) == IterationOf(s))
  }

  lemma EvaluatedGrows(log: seq<Entry>, x: Entry)
    requires WasEvaluated(log) && !x.to.Queued?
    ensures WasEvaluated(log + [x])
    ensures Grants(x) ==> WasGranted(log + [x])
  {
    var i: nat :| EvaluatedAt(log, i);
    assert EvaluatedAt(log + [x], i);
    if Grants(x) {
      assert GrantedAt(log + [x], i, |log|);
    }
  }

  lemma GrantedGrows(log: seq<Entry>, x: Entry)
    requires WasGranted(log) && !x.to.Queued?
    ensures WasGranted(log + [x])
  {
    var i: nat, j: nat :| GrantedAt(log, i, j);
    assert GrantedAt(log + [x], i, j);
  }

  lemma DeparturesHoldNothing(s: ExecutionState, e: ExecutionEvent)
    requires Departs(e) && Reduce(s, e).Accepted?
    ensures var to := Reduce(s, e).to;
            RunOf(to).None? && StepOf(to).None? && ToolOf(to).None? && IterationOf(to).None? && !AwaitsGrant(to) && !to.Queued? && (to.Paused? ==> HoldsGrant(s))
  {
    assert KindOf(Reduce(s, e).to) == DepartureKind(e);
  }

  /** Where a granted or evaluating state can come from, and where its data comes from. */
  predicate StepFacts(x: Entry) {
    if x.rejected then x.to == x.from
    else
      && (AwaitsGrant(x.to) ==> Evaluates(x) || AwaitsGrant(x.from))
      && (HoldsGrant(x.to) ==> (Grants(x) && AwaitsGrant(x.from)) || HoldsGrant(x.from))
      && (RunOf(x.to).Some? ==> RunOf(x.to) == if NamedRun(x.event).Some? then NamedRun(x.event) else RunOf(x.from))
      && (StepOf(x.to).Some? ==> StepOf(x.to) == if StartsTool(x) then Some(x.event.stepId) else StepOf(x.from))
      && (ToolOf(x.to).Some? ==> ToolOf(x.to) == if StartsTool(x) then Some((x.event.stepId, x.event.toolName)) else ToolOf(x.from))
      && (IterationOf(x.to).Some? ==>
            IterationOf(x.to) == if NamedIteration(x.event).Some? then NamedIteration(x.event) else IterationOf(x.from))
  }

  lemma AdvancesMeetFacts(s: ExecutionState, e: ExecutionEvent)
    requires !Departs(e) && Advance(s, e).Some?
    ensures StepFacts(Entry(s, e, Advance(s, e).value, false))
  {
  }

  lemma ApplyMeetsFacts(s: ExecutionState, e: ExecutionEvent)
    ensures StepFacts(Apply(s, e))
  {
    if Reduce(s, e).Accepted? {
      if Departs(e) {
        DeparturesHoldNothing(s, e);
      } else {
        AdvancesMeetFacts(s, e);
      }
    }
  }

  lemma LatestGrow(log: seq<Entry>, x: Entry)
    ensures LatestRun(log + [x]) == if !x.rejected && NamedRun(x.event).Some? then NamedRun(x.event) else LatestRun(log)
    ensures LatestTool(log + [x]) == if StartsTool(x) then Some((x.event.stepId, x.event.toolName)) else LatestTool(log)
    ensures LatestIteration(log + [x])
         == if !x.rejected && NamedIteration(x.event).Some? then NamedIteration(x.event) else LatestIteration(log)
  {
    assert (log + [x])[..|log|] == log;
  }

  lemma TraceStep(log: seq<Entry>, x: Entry)
    requires TraceInv(x.from, log) && StepFacts(x)
    ensures TraceInv(x.to, log + [x])
  {
    LatestGrow(log, x);
    if AwaitsGrant(x.to) {
      if AwaitsGrant(x.from) {
        EvaluatedGrows(log, x);
      } else {
        assert EvaluatedAt(log + [x], |log|);
      }
    }
    if HoldsGrant(x.to) {
      if HoldsGrant(x.from) {
        GrantedGrows(log, x);
      } else {
        EvaluatedGrows(log, x);
      }
    }
  }

  lemma {:induction false} TraceHolds(s: ExecutionState, events: seq<ExecutionEvent>)
    requires s.Queued?
    ensures TraceInv(After(s, events), Log(s, events))
  {
    if events != [] {
      var init := events[..|events| - 1];
      TraceHolds(s, init);
      ApplyMeetsFacts(After(s, init), events[|events| - 1]);
      TraceStep(Log(s, init), Apply(After(s, init), events[|events| - 1]));
    }
  }

  lemma {:induction false} LogPrefix(s: ExecutionState, events: seq<ExecutionEvent>, n: nat)
    requires n <= |events|
    ensures Log(s, events)[..n] == Log(s, events[..n])
    ensures n < |events| ==> Log(s, events)[n] == Apply(After(s, events[..n]), events[n])
  {
    if n < |events| {
      assert events == events[..n] + events[n..];
      AppendRun(s, events[..n], events[n..]);
      assert events[n..][..1] == [events[n]];
      FirstEntry(After(s, events[..n]), events[n..]);
    } else {
      assert events[..n] == events;
    }
  }

  lemma {:induction false} FirstEntry(s: ExecutionState, events: seq<ExecutionEvent>)
    requires events != []
    ensures Log(s, events)[0] == Apply(s, events[0])
  {
    if |events| > 1 {
      FirstEntry(s, events[..|events| - 1]);
    }
  }

  lemma ToolsStartFromReasoning(s: ExecutionState, e: ExecutionEvent)
    requires StartsTool(Apply(s, e))
    ensures s.Reasoning? && HoldsGrant(s)
  {
    assert !Departs(e) && Advance(s, e).Some?;
  }

  /**
   On every event sequence from queued, a tool that starts was preceded, since the last
   queued state, by a policy evaluation and after it a lease or an approval.
   */
  lemma {:induction false} ToolsStartGranted(s: ExecutionState, events: seq<ExecutionEvent>, k: nat)
    requires s.Queued? && k < |events| && StartsTool(Log(s, events)[k])
    ensures exists i: nat, j: nat :: GrantedAt(Log(s, events)[..k], i, j)
  {
    LogPrefix(s, events, k);
    TraceHolds(s, events[..k]);
    ToolsStartFromReasoning(After(s, events[..k]), events[k]);
  }

  /** The data carried by a state is that of the latest event that could have set it. */
  lemma {:induction false} StateDataIsLatest(s: ExecutionState, events: seq<ExecutionEvent>)
    requires s.Queued?
    ensures var end, log := After(s, events), Log(s, events);
            && (RunOf(end).Some? ==> LatestRun(log) == RunOf(end))
            && (StepOf(end).Some? ==> LatestTool(log).Some? && LatestTool(log).value.0 == StepOf(end).value)
            && (ToolOf(end).Some? ==> LatestTool(log) == ToolOf(end))
            && (IterationOf(end).Some? ==> LatestIteration(log) == IterationOf(end))
  {
    TraceHolds(s, events);
  }

  // ----- Cancellation -----

  predicate IsCancelled(s: ExecutionState) {
    s.Cancelling? || s.Cancelled? || s.Failed?
  }

  lemma CancelledStays(s: ExecutionState, e: ExecutionEvent)
    requires IsCancelled(s)
    ensures IsCancelled(Apply(s, e).to) && !StartsTool(Apply(s, e))
  {
    if Departs(e) {
      assert Reduce(s, e).Accepted? ==> KindOf(Reduce(s, e).to) == DepartureKind(e);
    }
  }

  /** Once cancelling, whatever arrives: no tool starts, nothing succeeds, nothing is queued again. */
  lemma {:induction false} CancellationIsFinal(s: ExecutionState, request: ExecutionEvent, events: seq<ExecutionEvent>)
    requires request.RequestCancel? && Reduce(s, request).Accepted?
    ensures var c := Reduce(s, request).to;
            && IsCancelled(After(c, events))
            && forall k :: 0 <= k < |events| ==> !StartsTool(Log(c, events)[k]) && !Log(c, events)[k].to.Succeeded?
  {
    var c := Reduce(s, request).to;
    if events != [] {
      var init := events[..|events| - 1];
      CancellationIsFinal(s, request, init);
      CancelledStays(After(c, init), events[|events| - 1]);
    }
  }
}
