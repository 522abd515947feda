/**
 Event sequences applied to an execution state.  A rejected event leaves the state as it
 is, so every statement here is about arbitrary event lists, not only accepted ones.
 */
module ExecutionRuns {
  import opened ExecutionStates

  datatype Entry = Entry(from: ExecutionState, event: ExecutionEvent, to: ExecutionState, rejected: bool)

  function Apply(s: ExecutionState, e: ExecutionEvent): Entry {
    match Reduce(s, e)
    case Accepted(to) => Entry(s, e, to, false)
    case Rejected => Entry(s, e, s, true)
  }

  function After(s: ExecutionState, events: seq<ExecutionEvent>): ExecutionState {
    if events == [] then s
    else Apply(After(s, events[..|events| - 1]), events[|events| - 1]).to
  }

  function Log(s: ExecutionState, events: seq<ExecutionEvent>): (log: seq<Entry>)
    ensures |log| == |events|
  {
    if events == [] then []
    else
      var init := events[..|events| - 1];
      Log(s, init) + [Apply(After(s, init), events[|events| - 1])]
  }

  // ----- How long a run can be -----

  /** Longest way from a state kind to the end without a back step. */
  function Rank(k: Kind): (r: nat)
    ensures r <= 11
  {
    match k
    case KQueued => 11
    case KPolicyEvaluating => 10
    case KAwaitingApproval => 9
    case KPlanning => 8
    case KReadyToExecute => 7
    case KReasoning => 6
    case KToolExecuting => 5
    case KObserving => 4
    case KVerifying => 3
    case KStepComplete => 2
    case KRetryScheduled => 2
    case KPaused => 2
    case KBlocked => 1
    case KCancelling => 1
    case _ => 0
  }

  predicate IsBack(x: Entry) {
    !x.rejected
    && (x.event.RetryDue? || x.event.ResolveClarification?
        || (x.event.StartIteration? && (x.from.Verifying? || x.from.StepComplete?)))
  }

  /** One step, and the rank a back step wins again. */
  function BackCost(x: Entry): nat {
    if !IsBack(x) then 0
    else if x.event.RetryDue? then 10
    else if x.from.Verifying? then 4
    else 5
  }

  function AcceptedSteps(log: seq<Entry>): nat {
    if log == [] then 0
    else AcceptedSteps(log[..|log| - 1]) + if log[|log| - 1].rejected then 0 else 1
  }

  function BackSteps(log: seq<Entry>): nat {
    if log == [] then 0
    else BackSteps(log[..|log| - 1]) + if IsBack(log[|log| - 1]) then 1 else 0
  }

  function BackCosts(log: seq<Entry>): nat {
    if log == [] then 0
    else BackCosts(log[..|log| - 1]) + BackCost(log[|log| - 1])
  }

  lemma StepLowersRank(s: ExecutionState, e: ExecutionEvent)
    requires Reduce(s, e).Accepted?
    ensures 1 + Rank(KindOf(Reduce(s, e).to)) <= Rank(KindOf(s)) + BackCost(Apply(s, e))
  {
    AcceptedStepsAreLegal(s, e);
  }

  lemma {:induction false} RunLength(s: ExecutionState, events: seq<ExecutionEvent>)
    ensures AcceptedSteps(Log(s, events)) + Rank(KindOf(After(s, events))) <= Rank(KindOf(s)) + BackCosts(Log(s, events))
    ensures BackCosts(Log(s, events)) <= 10 * BackSteps(Log(s, events))
  {
    if events != [] {
      var init, e := events[..|events| - 1], events[|events| - 1];
      RunLength(s, init);
      var log := Log(s, events);
      assert log[..|log| - 1] == Log(s, init);
      if Reduce(After(s, init), e).Accepted? {
        StepLowersRank(After(s, init), e);
      }
    }
  }

  /** From any state, b back steps allow at most 10 b + 11 accepted steps. */
  lemma {:induction false} RunLengthBound(s: ExecutionState, events: seq<ExecutionEvent>)
    ensures AcceptedSteps(Log(s, events)) <= 10 * BackSteps(Log(s, events)) + 11
  {
    RunLength(s, events);
  }

  lemma {:induction false} AppendRun(s: ExecutionState, a: seq<ExecutionEvent>, b: seq<ExecutionEvent>)
    ensures After(s, a + b) == After(After(s, a), b)
    ensures Log(s, a + b) == Log(s, a) + Log(After(s, a), b)
  {
    if b == [] {
      assert a + b == a;
    } else {
      var init := b[..|b| - 1];
      AppendRun(s, a, init);
      assert (a + b)[..|a + b| - 1] == a + init;
    }
  }

  // ----- Every path of the table is a run, so the bound is attained -----

  ghost predicate IsPath(kinds: seq<Kind>) {
    |kinds| > 0 && forall i :: 0 < i < |kinds| ==> CanTransition(kinds[i - 1], kinds[i]) && !HasNoEvent(kinds[i - 1], kinds[i])
  }

  function EventsAlong(kinds: seq<Kind>): seq<ExecutionEvent> {
    if |kinds| < 2 then [] else EventsAlong(kinds[..|kinds| - 1]) + [EventTo(kinds[|kinds| - 2], kinds[|kinds| - 1])]
  }

  lemma {:induction false} Snoc(s: ExecutionState, events: seq<ExecutionEvent>, e: ExecutionEvent)
    ensures var x := Apply(After(s, events), e);
            && After(s, events + [e]) == x.to
            && AcceptedSteps(Log(s, events + [e])) == AcceptedSteps(Log(s, events)) + (if x.rejected then 0 else 1)
            && BackSteps(Log(s, events + [e])) == BackSteps(Log(s, events)) + (if IsBack(x) then 1 else 0)
  {
    var longer := events + [e];
    assert longer[..|longer| - 1] == events;
    var log := Log(s, longer);
    assert log[..|log| - 1] == Log(s, events);
  }

  lemma {:induction false} PathInit(kinds: seq<Kind>)
    requires |kinds| > 1 && IsPath(kinds)
    ensures var n := |kinds| - 1;
            && IsPath(kinds[..n]) && kinds[..n][n - 1] == kinds[n - 1]
            && CanTransition(kinds[n - 1], kinds[n]) && !HasNoEvent(kinds[n - 1], kinds[n])
            && EventsAlong(kinds) == EventsAlong(kinds[..n]) + [EventTo(kinds[n - 1], kinds[n])]
  {
  }

  /** Every path through the table, but for the four edges without an event, is a run of accepted events. */
  lemma {:induction false} PathIsARun(s: ExecutionState, kinds: seq<Kind>)
    requires IsPath(kinds) && KindOf(s) == kinds[0] && Named(s)
    ensures var end := After(s, EventsAlong(kinds)); KindOf(end) == kinds[|kinds| - 1] && Named(end)
    ensures AcceptedSteps(Log(s, EventsAlong(kinds))) == |kinds| - 1
  {
    if |kinds| > 1 {
      var n := |kinds| - 1;
      PathInit(kinds);
      PathIsARun(s, kinds[..n]);
      EventTakesEdge(After(s, EventsAlong(kinds[..n])), kinds[n]);
      Snoc(s, EventsAlong(kinds[..n]), EventTo(kinds[n - 1], kinds[n]));
    }
  }

  /** Each step lowers the rank by one, or is a retry that becomes due. */
  ghost predicate IsSlowest(kinds: seq<Kind>) {
    forall i :: 0 < i < |kinds| ==>
      Rank(kinds[i - 1]) == Rank(kinds[i]) + 1 || (kinds[i - 1].KRetryScheduled? && kinds[i].KQueued?)
  }

  /** One step of the slowest run is accepted, and goes back exactly when a retry becomes due. */
  lemma SlowestEdge(s: ExecutionState, to: Kind)
    requires Named(s) && CanTransition(KindOf(s), to) && !HasNoEvent(KindOf(s), to)
    requires Rank(KindOf(s)) == Rank(to) + 1 || (KindOf(s).KRetryScheduled? && to.KQueued?)
    ensures var x := Apply(s, EventTo(KindOf(s), to));
            !x.rejected && KindOf(x.to) == to && Named(x.to) && (IsBack(x) <==> KindOf(s).KRetryScheduled? && to.KQueued?)
  {
    EventTakesEdge(s, to);
  }

  lemma {:induction false} SlowestStep(s: ExecutionState, events: seq<ExecutionEvent>, to: Kind)
    requires var from := KindOf(After(s, events));
             && Named(After(s, events)) && CanTransition(from, to) && !HasNoEvent(from, to)
             && (Rank(from) == Rank(to) + 1 || (from.KRetryScheduled? && to.KQueued?))
    ensures var from := KindOf(After(s, events));
            1 + Rank(to) + 10 * BackSteps(Log(s, events)) == Rank(from) + 10 * BackSteps(Log(s, events + [EventTo(from, to)]))
  {
    SlowestEdge(After(s, events), to);
    Snoc(s, events, EventTo(KindOf(After(s, events)), to));
  }

  lemma {:induction false} SlowestSnoc(s: ExecutionState, kinds: seq<Kind>)
    requires |kinds| > 1 && IsPath(kinds) && IsSlowest(kinds) && KindOf(s) == kinds[0] && Named(s)
    ensures var n, before, after := |kinds| - 1, Log(s, EventsAlong(kinds[..|kinds| - 1])), Log(s, EventsAlong(kinds));
            1 + Rank(kinds[n]) + 10 * BackSteps(before) == Rank(kinds[n - 1]) + 10 * BackSteps(after)
  {
    var n := |kinds| - 1;
    PathInit(kinds);
    SlowestInit(kinds);
    PathIsARun(s, kinds[..n]);
    SlowestStep(s, EventsAlong(kinds[..n]), kinds[n]);
  }

  lemma {:induction false} SlowestRun(s: ExecutionState, kinds: seq<Kind>)
    requires IsPath(kinds) && IsSlowest(kinds) && KindOf(s) == kinds[0] && Named(s)
    ensures |kinds| - 1 + Rank(kinds[|kinds| - 1]) == Rank(kinds[0]) + 10 * BackSteps(Log(s, EventsAlong(kinds)))
  {
    if |kinds| > 1 {
      PathInit(kinds);
      SlowestInit(kinds);
      SlowestRun(s, kinds[..|kinds| - 1]);
      SlowestSnoc(s, kinds);
    }
  }

  lemma {:induction false} SlowestInit(kinds: seq<Kind>)
    requires |kinds| > 1 && IsSlowest(kinds)
    ensures var n := |kinds| - 1;
            && IsSlowest(kinds[..n])
            && (Rank(kinds[n - 1]) == Rank(kinds[n]) + 1 || (kinds[n - 1].KRetryScheduled? && kinds[n].KQueued?))
  {
  }

  function LineKind(j: nat): Kind {
    if j == 0 then KQueued else if j == 1 then KPolicyEvaluating else if j == 2 then KAwaitingApproval
    else if j == 3 then KPlanning else if j == 4 then KReadyToExecute else if j == 5 then KReasoning
    else if j == 6 then KToolExecuting else if j == 7 then KObserving else if j == 8 then KVerifying
    else if j == 9 then KStepComplete else if j == 10 then KCancelling else KCancelled
  }

  /** b rounds that end in a retry at the last moment, then the whole line. */
  function SlowestKind(b: nat, i: nat): Kind {
    if i >= 10 * b then LineKind(i - 10 * b) else if i % 10 == 9 then KRetryScheduled else LineKind(i % 10)
  }

  function SlowestPath(b: nat): (kinds: seq<Kind>)
    ensures |kinds| == 10 * b + 12 && forall i :: 0 <= i < |kinds| ==> kinds[i] == SlowestKind(b, i)
  {
    seq(10 * b + 12, i requires 0 <= i => SlowestKind(b, i))
  }

  lemma SlowestKindsStep(b: nat, i: nat)
    requires 0 < i < 10 * b + 12
    ensures var from, to := SlowestKind(b, i - 1), SlowestKind(b, i);
            && CanTransition(from, to) && !HasNoEvent(from, to)
            && (Rank(from) == Rank(to) + 1 || (from.KRetryScheduled? && to.KQueued?))
  {
    if i <= 10 * b {
      assert (i - 1) % 10 == if i % 10 == 0 then 9 else i % 10 - 1;
    }
  }

  /** The bound is attained for every number of back steps. */
  lemma {:induction false} RunLengthBoundIsTight(b: nat)
    ensures var log := Log(SampleState(KQueued), EventsAlong(SlowestPath(b)));
            BackSteps(log) == b && AcceptedSteps(log) == 10 * b + 11
  {
    var kinds := SlowestPath(b);
    forall i | 0 < i < |kinds| {
      SlowestKindsStep(b, i);
    }
    PathIsARun(SampleState(KQueued), kinds);
    SlowestRun(SampleState(KQueued), kinds);
  }
}
