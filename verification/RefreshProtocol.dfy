/**
 The single-flight refresh of one conversation with its trailing fetch.  Code between two
 awaits runs at once; callers resume in any order once the fetch they await has settled.
 */
module RefreshProtocol {
  import opened Wrappers

  /** Fetches are numbered from 1 as they start.  `Waits` awaits somebody else's fetch, `Owns` its own. */
  datatype Pc = Waits(fetch: nat) | Owns(fetch: nat) | Returned

  /** `seen` is the number of fetches started before the call. */
  datatype Caller = Caller(pc: Pc, seen: nat)

  /**
   `inFlight` is the entry of the in-flight map, `pending` membership in the trailing set;
   `started` and `settled` count fetches.
   */
  datatype State = State(inFlight: Option<nat>, pending: bool, started: nat, settled: nat, callers: seq<Caller>)

  datatype Action = Call | Settle | Resume(caller: nat)

  const Idle := State(None, false, 0, 0, [])

  /** The loop from its top to the next await or return, for a caller that is not in the list yet or leaves its old place. */
  function Loop(s: State): (State, Pc) {
    if s.inFlight.Some? then (s, Waits(s.inFlight.value))
    else if !s.pending then (s, Returned)
    else (s.(pending := false, inFlight := Some(s.started + 1), started := s.started + 1), Owns(s.started + 1))
  }

  /** What a caller does when the fetch it awaits has settled. */
  function Wake(s: State, pc: Pc): (State, Pc) {
    match pc
    case Waits(_) => if !s.pending && s.inFlight.None? then (s, Returned) else Loop(s)
    case Owns(_) => Loop(s.(inFlight := None))
    case Returned => (s, Returned)
  }

  predicate Awake(s: State, pc: Pc) {
    !pc.Returned? && pc.fetch <= s.settled
  }

  function Step(s: State, a: Action): State {
    match a
    case Call =>
      var r := Loop(s.(pending := true));
      r.0.(callers := s.callers + [Caller(r.1, s.started)])
    case Settle => if s.settled < s.started then s.(settled := s.settled + 1) else s
    case Resume(i) =>
      if i < |s.callers| && Awake(s, s.callers[i].pc) then
        var r := Wake(s, s.callers[i].pc);
        r.0.(callers := s.callers[i := s.callers[i].(pc := r.1)])
      else s
  }

  function Run(s: State, actions: seq<Action>): State {
    if actions == [] then s
    else Step(Run(s, actions[..|actions| - 1]), actions[|actions| - 1])
  }

  // ----- The invariant -----

  /** At most the last fetch started is unfinished, and the map holds it until its owner resumes. */
  predicate FlightInv(s: State) {
    && s.settled <= s.started <= s.settled + 1
    && (s.inFlight.Some? ==> s.inFlight.value == s.started > 0)
    && (s.inFlight.None? ==> s.settled == s.started)
  }

  predicate CallerInv(s: State, c: Caller) {
    && c.seen <= s.started
    && (c.seen == s.started && !c.pc.Returned? ==> s.pending)
    && (c.pc.Waits? ==> c.pc.fetch <= s.started)
    && (c.pc.Owns? ==> s.inFlight == Some(c.pc.fetch))
    && (c.pc.Returned? ==> c.seen < s.settled)
  }

  ghost predicate CallersInv(s: State) {
    forall i :: 0 <= i < |s.callers| ==> CallerInv(s, s.callers[i])
  }

  ghost predicate OneOwner(s: State) {
    && (forall i, j | 0 <= i < |s.callers| && 0 <= j < |s.callers| ::
          s.callers[i].pc.Owns? && s.callers[j].pc.Owns? ==> i == j)
    && (s.inFlight.Some? ==> exists i :: 0 <= i < |s.callers| && s.callers[i].pc.Owns?)
  }

  /** A pending refresh has somebody to do it. */
  ghost predicate PendingIsAwaited(s: State) {
    s.pending ==> s.inFlight.Some? || exists i :: 0 <= i < |s.callers| && s.callers[i].pc.Waits?
  }

  ghost predicate Inv(s: State) {
    && FlightInv(s) && CallersInv(s) && OneOwner(s) && PendingIsAwaited(s)
    && s.started + (if s.pending then 1 else 0) <= |s.callers|
  }

  lemma CallPreserves(s: State)
    requires Inv(s)
    ensures Inv(Step(s, Call))
  {
    var s' := Step(s, Call);
    forall i | 0 <= i < |s'.callers| ensures CallerInv(s', s'.callers[i]) {
      assert i < |s.callers| ==> CallerInv(s, s.callers[i]);
    }
    if s.inFlight.None? {
      forall i | 0 <= i < |s.callers| ensures !s'.callers[i].pc.Owns? {
        assert CallerInv(s, s.callers[i]);
      }
      assert s'.callers[|s.callers|].pc.Owns?;
    } else {
      var i :| 0 <= i < |s.callers| && s.callers[i].pc.Owns?;
      assert s'.callers[i].pc.Owns?;
    }
  }

  lemma SettlePreserves(s: State)
    requires Inv(s)
    ensures Inv(Step(s, Settle))
  {
    var s' := Step(s, Settle);
    forall i | 0 <= i < |s'.callers| ensures CallerInv(s', s'.callers[i]) {
      assert CallerInv(s, s.callers[i]);
    }
  }

  lemma ResumeKeepsCallers(s: State, i: nat)
    requires Inv(s) && i < |s.callers| && Awake(s, s.callers[i].pc)
    ensures FlightInv(Step(s, Resume(i))) && CallersInv(Step(s, Resume(i)))
  {
    var s' := Step(s, Resume(i));
    assert CallerInv(s, s.callers[i]);
    forall j | 0 <= j < |s'.callers| ensures CallerInv(s', s'.callers[j]) {
      assert CallerInv(s, s.callers[j]);
      if j != i && s.callers[j].pc.Owns? {
        assert !s.callers[i].pc.Owns?;
      }
    }
  }

  lemma ResumeKeepsOwner(s: State, i: nat)
    requires Inv(s) && i < |s.callers| && Awake(s, s.callers[i].pc)
    ensures OneOwner(Step(s, Resume(i)))
  {
    var s' := Step(s, Resume(i));
    assert CallerInv(s, s.callers[i]);
    if s.inFlight.Some? {
      var o :| 0 <= o < |s.callers| && s.callers[o].pc.Owns?;
      assert s'.callers[o] == if o == i then s'.callers[i] else s.callers[o];
    } else {
      forall j | 0 <= j < |s.callers| ensures !s.callers[j].pc.Owns? {
        assert CallerInv(s, s.callers[j]);
      }
      assert s'.inFlight.Some? ==> s'.callers[i].pc.Owns?;
    }
  }

  lemma ResumePreserves(s: State, i: nat)
    requires Inv(s) && i < |s.callers| && Awake(s, s.callers[i].pc)
    ensures Inv(Step(s, Resume(i)))
  {
    ResumeKeepsCallers(s, i);
    ResumeKeepsOwner(s, i);
  }

  lemma StepPreserves(s: State, a: Action)
    requires Inv(s)
    ensures Inv(Step(s, a))
  {
    if a.Call? {
      CallPreserves(s);
    } else if a.Settle? {
      SettlePreserves(s);
    } else if a.caller < |s.callers| && Awake(s, s.callers[a.caller].pc) {
      ResumePreserves(s, a.caller);
    }
  }

  lemma {:induction false} RunKeepsInv(actions: seq<Action>)
    ensures Inv(Run(Idle, actions))
  {
    if actions != [] {
      RunKeepsInv(actions[..|actions| - 1]);
      StepPreserves(Run(Idle, actions[..|actions| - 1]), actions[|actions| - 1]);
    }
  }

  /**
   In every run at most one fetch is unfinished, there are at most as many fetches as calls,
   and a caller returns only after a fetch that started after its call has settled.
   */
  lemma RefreshIsFresh(actions: seq<Action>)
    ensures var r := Run(Idle, actions);
            && r.started - r.settled <= 1 && r.started <= |r.callers|
            && (forall i :: 0 <= i < |r.callers| && r.callers[i].pc.Returned? ==> r.callers[i].seen + 1 <= r.settled)
  {
    RunKeepsInv(actions);
    var r := Run(Idle, actions);
    forall i | 0 <= i < |r.callers| && r.callers[i].pc.Returned? ensures r.callers[i].seen + 1 <= r.settled {
      assert CallerInv(r, r.callers[i]);
    }
  }

  // ----- Calls during a flight share one trailing fetch -----

  /** Fetches started, and one more while a trailing one is due. */
  function Due(s: State): nat {
    s.started + if s.pending then 1 else 0
  }

  /** Only a call brings another fetch, and at most one, however many calls share it. */
  lemma StepKeepsDue(s: State, a: Action)
    requires Inv(s)
    ensures Due(s) <= Due(Step(s, a)) <= Due(s) + 1
    ensures !a.Call? ==> Due(Step(s, a)) == Due(s)
    ensures a.Call? ==> Due(Step(s, a)) == s.started + 1
  {
  }

  /** However many calls come in while a fetch is in flight, one trailing fetch serves them all, and it does start. */
  lemma {:induction false} CallsShareOneFetch(before: seq<Action>, calls: seq<Action>)
    requires Run(Idle, before).inFlight.Some? && calls != [] && forall k :: 0 <= k < |calls| ==> calls[k].Call?
    ensures var r, r' := Run(Idle, before), Run(Idle, before + calls);
            && r'.started == r.started && r'.inFlight == r.inFlight && Due(r') == r.started + 1
            && |r'.callers| == |r.callers| + |calls|
  {
    var shorter, a := calls[..|calls| - 1], calls[|calls| - 1];
    assert (before + calls)[..|before + calls| - 1] == before + shorter;
    RunKeepsInv(before + shorter);
    if shorter == [] {
      assert before + shorter == before;
    } else {
      CallsShareOneFetch(before, shorter);
    }
    StepKeepsDue(Run(Idle, before + shorter), a);
  }

  /** Once calls stop, exactly the fetches due are made in all. */
  lemma {:induction false} DueIsMade(calls: seq<Action>, actions: seq<Action>)
    requires AllMove(Run(Idle, calls), actions)
    ensures var r := Run(Run(Idle, calls), actions);
            Due(r) == Due(Run(Idle, calls)) && (Stopped(r) ==> r.started == r.settled == Due(Run(Idle, calls)))
  {
    RunKeepsInv(calls);
    MovesAreFew(Run(Idle, calls), actions);
    var r := Run(Run(Idle, calls), actions);
    if actions != [] {
      DueIsMade(calls, actions[..|actions| - 1]);
      MovesAreFew(Run(Idle, calls), actions[..|actions| - 1]);
      StepKeepsDue(Run(Run(Idle, calls), actions[..|actions| - 1]), actions[|actions| - 1]);
    }
    if Stopped(r) {
      NothingIsPending(r);
    }
  }

  /** At rest nothing is due. */
  lemma NothingIsPending(s: State)
    requires Inv(s) && Stopped(s)
    ensures !s.pending && s.started == s.settled
  {
    assert !Moves(s, Settle);
    if s.pending {
      if s.inFlight.Some? {
        var o :| 0 <= o < |s.callers| && s.callers[o].pc.Owns?;
        var a := SomebodyMoves(s, o);
      } else {
        var i :| 0 <= i < |s.callers| && s.callers[i].pc.Waits?;
        var a := SomebodyMoves(s, i);
      }
    }
  }

  // ----- Nobody waits forever -----

  /** Callers that have not returned. */
  function Live(cs: seq<Caller>): nat {
    if cs == [] then 0 else Live(cs[..|cs| - 1]) + if cs[|cs| - 1].pc.Returned? then 0 else 1
  }

  predicate Lags(pc: Pc, started: nat) {
    pc.Waits? && pc.fetch < started
  }

  /** Callers that wait for a fetch other than the last. */
  function Lag(cs: seq<Caller>, started: nat): (n: nat)
    ensures n <= |cs|
  {
    if cs == [] then 0 else Lag(cs[..|cs| - 1], started) + if Lags(cs[|cs| - 1].pc, started) then 1 else 0
  }

  lemma {:induction false} UpdateCounts(cs: seq<Caller>, i: nat, c: Caller, started: nat)
    requires i < |cs|
    ensures Live(cs[i := c]) == Live(cs) - (if cs[i].pc.Returned? then 0 else 1) + if c.pc.Returned? then 0 else 1
    ensures Lag(cs[i := c], started)
         == Lag(cs, started) - (if Lags(cs[i].pc, started) then 1 else 0) + if Lags(c.pc, started) then 1 else 0
  {
    var n := |cs| - 1;
    if i == n {
      assert cs[i := c][..n] == cs[..n];
    } else {
      UpdateCounts(cs[..n], i, c, started);
      assert cs[i := c][..n] == cs[..n][i := c];
    }
  }

  /** What is left to do when no more calls come. */
  function Remaining(s: State): int {
    (if s.pending then |s.callers| + 2 else 0) + (s.started - s.settled) + Lag(s.callers, s.started) + Live(s.callers)
  }

  /** Every step that changes anything, other than a call, leaves less to do. */
  lemma StepLowersRemaining(s: State, a: Action)
    requires Inv(s) && !a.Call? && Step(s, a) != s
    ensures Remaining(Step(s, a)) < Remaining(s)
  {
    if a.Resume? {
      var s' := Step(s, a);
      var i := a.caller;
      assert CallerInv(s, s.callers[i]);
      UpdateCounts(s.callers, i, s'.callers[i], s.started);
    }
  }

  lemma RemainingIsBounded(s: State)
    requires Inv(s)
    ensures 0 <= Remaining(s) <= 3 * |s.callers| + 3
  {
    LiveAtMostAll(s.callers);
  }

  lemma {:induction false} LiveAtMostAll(cs: seq<Caller>)
    ensures Live(cs) <= |cs|
  {
    if cs != [] {
      LiveAtMostAll(cs[..|cs| - 1]);
    }
  }

  ghost predicate Moves(s: State, a: Action) {
    !a.Call? && Step(s, a) != s
  }

  /** While a caller has not returned, the network or some caller can move. */
  lemma SomebodyMoves(s: State, i: nat) returns (a: Action)
    requires Inv(s) && i < |s.callers| && !s.callers[i].pc.Returned?
    ensures Moves(s, a)
  {
    if s.settled < s.started {
      return Settle;
    }
    if s.inFlight.Some? {
      var o :| 0 <= o < |s.callers| && s.callers[o].pc.Owns?;
      assert CallerInv(s, s.callers[o]);
      assert Step(s, Resume(o)).callers[o] != s.callers[o];
      return Resume(o);
    }
    assert CallerInv(s, s.callers[i]);
    assert Step(s, Resume(i)).callers[i] != s.callers[i];
    a := Resume(i);
  }

  /** A run of moves only, from a reached state. */
  ghost predicate AllMove(s: State, actions: seq<Action>) {
    actions != [] ==> AllMove(s, actions[..|actions| - 1]) && Moves(Run(s, actions[..|actions| - 1]), actions[|actions| - 1])
  }

  lemma {:induction false} MovesAreFew(s: State, actions: seq<Action>)
    requires Inv(s) && AllMove(s, actions)
    ensures Inv(Run(s, actions)) && Remaining(Run(s, actions)) <= Remaining(s) - |actions|
  {
    if actions != [] {
      var shorter, a := actions[..|actions| - 1], actions[|actions| - 1];
      MovesAreFew(s, shorter);
      StepPreserves(Run(s, shorter), a);
      StepLowersRemaining(Run(s, shorter), a);
    }
  }

  ghost predicate Stopped(s: State) {
    forall a :: !Moves(s, a)
  }

  /** Once calls stop coming, every way of going on stops within three moves a caller and three more, with every caller returned. */
  lemma EverybodyReturns(calls: seq<Action>, actions: seq<Action>)
    requires AllMove(Run(Idle, calls), actions)
    ensures var s := Run(Idle, calls);
            && |actions| <= 3 * |s.callers| + 3
            && (Stopped(Run(s, actions)) ==>
                  forall i :: 0 <= i < |Run(s, actions).callers| ==> Run(s, actions).callers[i].pc.Returned?)
  {
    RunKeepsInv(calls);
    var s := Run(Idle, calls);
    MovesAreFew(s, actions);
    RemainingIsBounded(s);
    var end := Run(s, actions);
    RemainingIsBounded(end);
    forall i | 0 <= i < |end.callers| && Stopped(end) ensures end.callers[i].pc.Returned? {
      if !end.callers[i].pc.Returned? {
        var a := SomebodyMoves(end, i);
      }
    }
  }
}
