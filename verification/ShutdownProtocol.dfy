/**
 A stopping worker: signals, the grace timer, the run loop with a claim that may be pending,
 and the release of what is left, in any order their callbacks come.
 */
module ShutdownProtocol {
  import opened Wrappers

  type EventId = string

  /** Where `releaseAndExit` stands. */
  datatype Finishing = NotStarted | AwaitsClaim | Releases | Exited

  /** The fields of the shutdown.  `released` lists the ids passed to release; `exits` counts calls of exit. */
  datatype Shutdown = Shutdown(
    unfinished: set<EventId>,
    requested: bool,
    timer: bool,
    pendingClaim: bool,
    finishing: Finishing,
    released: set<EventId>,
    exits: nat)

  const Started := Shutdown({}, false, false, false, NotStarted, {}, 0)

  function ReleaseAll(s: Shutdown): Shutdown {
    s.(finishing := Releases, released := s.unfinished)
  }

  function Finish(s: Shutdown): Shutdown {
    if !s.finishing.NotStarted? then s
    else if s.pendingClaim then s.(timer := false, finishing := AwaitsClaim)
    else ReleaseAll(s.(timer := false))
  }

  function Request(s: Shutdown): Shutdown {
    if s.requested then Finish(s) else s.(requested := true, timer := true)
  }

  function IdSet(ids: seq<EventId>): set<EventId> {
    set id | id in ids
  }

  lemma IdSetSnoc(ids: seq<EventId>, id: EventId)
    ensures IdSet(ids + [id]) == IdSet(ids) + {id}
  {
    forall x | x in IdSet(ids) + {id} ensures x in IdSet(ids + [id]) {
      assert x in ids + [id];
    }
  }

  // ----- The shutdown with the run loop around it -----

  /** `Batch` is between two events of a batch, `Handles` inside one, `Over` past the loop. */
  datatype Loop = Top | Claims | Settled | Batch | Handles | Over

  /**
   `returned` lists, in order, every event id any claim has returned; the loop has finished
   the first `done` of them and holds the rest.
   */
  datatype State = State(shutdown: Shutdown, loop: Loop, returned: seq<EventId>, done: nat)

  datatype Action =
    | Signal
    | TimerFires
    | LoopTop
    | ClaimSettles(ids: seq<EventId>)
    | ClaimReturns
    | NextEvent
    | EventEnds
    | ClaimAwaited
    | ReleasesSettle

  /** A claim returns each event once. */
  predicate Enabled(s: State, a: Action) {
    match a
    case Signal => true
    case TimerFires => s.shutdown.timer
    case LoopTop => s.loop.Top?
    case ClaimSettles(ids) => s.loop.Claims? && Distinct(ids)
    case ClaimReturns => s.loop.Settled?
    case NextEvent => s.loop.Batch?
    case EventEnds => s.loop.Handles? && s.done < |s.returned|
    case ClaimAwaited => s.shutdown.finishing.AwaitsClaim? && !s.loop.Claims?
    case ReleasesSettle => s.shutdown.finishing.Releases?
  }

  function Take(s: State, a: Action): State
    requires Enabled(s, a)
  {
    match a
    case Signal => s.(shutdown := Request(s.shutdown))
    case TimerFires => s.(shutdown := Finish(s.shutdown.(timer := false)))
    case LoopTop =>
      if s.shutdown.requested then s.(loop := Over, shutdown := Finish(s.shutdown))
      else s.(loop := Claims, shutdown := s.shutdown.(pendingClaim := true))
    case ClaimSettles(ids) =>
      s.(loop := Settled, returned := s.returned + ids,
         shutdown := s.shutdown.(unfinished := s.shutdown.unfinished + IdSet(ids)))
    case ClaimReturns => s.(loop := Batch, shutdown := s.shutdown.(pendingClaim := false))
    case NextEvent =>
      if s.done == |s.returned| then s.(loop := Top)
      else if s.shutdown.requested then s.(loop := Over, shutdown := Finish(s.shutdown))
      else s.(loop := Handles)
    case EventEnds =>
      s.(loop := Batch, done := s.done + 1,
         shutdown := s.shutdown.(unfinished := s.shutdown.unfinished - {s.returned[s.done]}))
    case ClaimAwaited => s.(shutdown := ReleaseAll(s.shutdown))
    case ReleasesSettle => s.(shutdown := s.shutdown.(finishing := Exited, exits := s.shutdown.exits + 1))
  }

  function Step(s: State, a: Action): State {
    if Enabled(s, a) then Take(s, a) else s
  }

  const Fresh := State(Started, Top, [], 0)

  function Run(actions: seq<Action>): State {
    if actions == [] then Fresh
    else Step(Run(actions[..|actions| - 1]), actions[|actions| - 1])
  }

  predicate Snapshotted(s: State) {
    s.shutdown.finishing.Releases? || s.shutdown.finishing.Exited?
  }

  ghost predicate Inv(s: State) {
    && s.done <= |s.returned|
    && Distinct(s.returned[s.done..])
    && (s.shutdown.unfinished == IdSet(s.returned[s.done..]))
    && (s.loop.Handles? ==> s.done < |s.returned|)
    && (s.loop.Top? || s.loop.Claims? ==> s.done == |s.returned|)
    && (s.loop.Claims? ==> s.shutdown.pendingClaim)
    && (s.shutdown.pendingClaim ==> s.loop.Claims? || s.loop.Settled?)
    && (!s.shutdown.finishing.NotStarted? || s.loop.Over? ==> s.shutdown.requested)
    && (s.loop.Over? ==> !s.shutdown.finishing.NotStarted?)
    && (s.shutdown.requested && s.shutdown.finishing.NotStarted? <==> s.shutdown.timer)
    && (Snapshotted(s) ==> !s.loop.Claims? && forall i :: s.done <= i < |s.returned| ==> s.returned[i] in s.shutdown.released)
    && (!Snapshotted(s) ==> s.shutdown.released == {})
    && (s.shutdown.released <= IdSet(s.returned))
    && s.shutdown.exits == (if s.shutdown.finishing.Exited? then 1 else 0)
  }

  lemma ClaimSettlesPreserves(s: State, ids: seq<EventId>)
    requires Inv(s) && Enabled(s, ClaimSettles(ids))
    ensures Inv(Step(s, ClaimSettles(ids)))
  {
    var s' := Step(s, ClaimSettles(ids));
    assert s'.returned[s'.done..] == ids;
    assert s.returned[s.done..] == [];
  }

  lemma EventEndsPreserves(s: State)
    requires Inv(s) && Enabled(s, EventEnds)
    ensures Inv(Step(s, EventEnds))
  {
    var s' := Step(s, EventEnds);
    var rest := s.returned[s.done..];
    assert s'.returned[s'.done..] == rest[1..];
    assert rest == [rest[0]] + rest[1..];
    assert rest[0] !in rest[1..];
    assert IdSet(rest[1..]) == IdSet(rest) - {rest[0]};
  }

  lemma OtherStepsPreserve(s: State, a: Action)
    requires Inv(s) && Enabled(s, a) && !a.ClaimSettles? && !a.EventEnds?
    ensures Inv(Step(s, a))
  {
    var s' := Step(s, a);
    assert s'.returned == s.returned && s'.done == s.done && s'.shutdown.unfinished == s.shutdown.unfinished;
    forall i | s.done <= i < |s.returned| ensures s.returned[i] in s.shutdown.unfinished {
      assert s.returned[i] == s.returned[s.done..][i - s.done];
    }
    assert s.shutdown.unfinished <= IdSet(s.returned);
  }

  lemma StepPreserves(s: State, a: Action)
    requires Inv(s)
    ensures Inv(Step(s, a))
  {
    if Enabled(s, a) {
      if a.ClaimSettles? {
        ClaimSettlesPreserves(s, a.ids);
      } else if a.EventEnds? {
        EventEndsPreserves(s);
      } else {
        OtherStepsPreserve(s, a);
      }
    }
  }

  lemma {:induction false} RunKeepsInv(actions: seq<Action>)
    ensures Inv(Run(actions))
  {
    if actions != [] {
      RunKeepsInv(actions[..|actions| - 1]);
      StepPreserves(Run(actions[..|actions| - 1]), actions[|actions| - 1]);
    }
  }

  /**
   However signals, timer, claim, handler and releases race: exit is called at most once, and
   once the releases have gone out no claim is pending, and every event a claim ever returned
   has been finished by the loop or passed to release.
   */
  lemma NothingStaysClaimed(actions: seq<Action>)
    ensures var r := Run(actions);
            && r.shutdown.exits <= 1
            && (r.shutdown.exits == 1 ==>
                  !r.loop.Claims? && forall i :: 0 <= i < |r.returned| ==> i < r.done || r.returned[i] in r.shutdown.released)
            && (r.shutdown.released != {} ==> Snapshotted(r))
            && r.shutdown.released <= IdSet(r.returned)
  {
    RunKeepsInv(actions);
  }

  /** The ids passed to release are fixed by one snapshot, so none is passed twice. */
  lemma ReleasedOnce(actions: seq<Action>, a: Action)
    ensures var s, s' := Run(actions), Run(actions + [a]);
            Snapshotted(s) ==> Snapshotted(s') && s'.shutdown.released == s.shutdown.released
  {
    RunKeepsInv(actions);
    assert (actions + [a])[..|actions|] == actions;
  }

  /** The snapshot is what the loop has not finished: nothing finished is handed back. */
  lemma SnapshotIsExact(actions: seq<Action>, a: Action)
    ensures var s, s' := Run(actions), Run(actions + [a]);
            && s.done <= |s.returned|
            && (!Snapshotted(s) && Snapshotted(s') ==> s'.done == s.done && s'.shutdown.released == IdSet(s.returned[s.done..]))
  {
    RunKeepsInv(actions);
    assert (actions + [a])[..|actions|] == actions;
  }

  /**
   The first signal only sets the grace timer.  What ends the wait is the timer, a second
   signal, or the run loop itself between two events; a handler that runs is never cut off
   by the first signal.
   */
  lemma GraceIsKept(actions: seq<Action>, a: Action)
    ensures var s, s' := Run(actions), Run(actions + [a]);
            && (s'.shutdown.requested <==> s.shutdown.requested || a.Signal?)
            && (s.shutdown.finishing.NotStarted? && !s'.shutdown.finishing.NotStarted? ==>
                  && s.shutdown.requested
                  && ((a.TimerFires? && s.shutdown.timer) || a.Signal? || (a.LoopTop? && s.loop.Top?) || (a.NextEvent? && s.loop.Batch?)))
            && (a.Signal? && !s.shutdown.requested ==> s' == s.(shutdown := s.shutdown.(requested := true, timer := true)))
  {
    RunKeepsInv(actions);
    assert (actions + [a])[..|actions|] == actions;
  }

  /** The timer and a second signal do end the wait: they release at once, or as soon as the pending claim has settled. */
  lemma ImpatienceReleases(actions: seq<Action>, a: Action)
    requires Run(actions).shutdown.requested && (a.Signal? || (a.TimerFires? && Run(actions).shutdown.timer))
    ensures var s, s' := Run(actions), Run(actions + [a]);
            if s.shutdown.finishing.NotStarted? then
              if s.shutdown.pendingClaim then s'.shutdown.finishing.AwaitsClaim? else s'.shutdown.finishing.Releases? && !s'.loop.Claims?
            else s'.shutdown.finishing == s.shutdown.finishing
  {
    RunKeepsInv(actions);
    assert (actions + [a])[..|actions|] == actions;
  }

  /** Nothing is claimed and no event is begun after the request. */
  lemma NothingBeginsAfterRequest(actions: seq<Action>, a: Action)
    ensures var s, s' := Run(actions), Run(actions + [a]);
            s.shutdown.requested ==> (s'.loop.Claims? ==> s.loop.Claims?) && (s'.loop.Handles? ==> s.loop.Handles?)
  {
    assert (actions + [a])[..|actions|] == actions;
  }

  // ----- A shutdown ends -----

  function LoopRank(l: Loop): nat {
    match l
    case Claims => 5
    case Settled => 4
    case Handles => 3
    case Batch => 2
    case Top => 1
    case Over => 0
  }

  function FinishRank(f: Finishing): nat {
    match f
    case NotStarted => 3
    case AwaitsClaim => 2
    case Releases => 1
    case Exited => 0
  }

  function Rank(s: State): nat {
    LoopRank(s.loop) + FinishRank(s.shutdown.finishing)
  }

  ghost predicate Moves(s: State, a: Action) {
    Step(s, a) != s
  }

  /** After the request every step that changes anything leaves fewer to come. */
  lemma StepLowersRank(s: State, a: Action)
    requires Inv(s) && s.shutdown.requested && Moves(s, a)
    ensures Step(s, a).shutdown.requested && Rank(Step(s, a)) < Rank(s)
  {
  }

  ghost predicate AllMove(before: seq<Action>, after: seq<Action>) {
    after != [] ==>
      AllMove(before, after[..|after| - 1]) && Moves(Run(before + after[..|after| - 1]), after[|after| - 1])
  }

  /** At most eight steps that change anything follow the request, however many events the batch holds. */
  lemma {:induction false} ShutdownIsShort(before: seq<Action>, after: seq<Action>)
    requires Run(before).shutdown.requested && AllMove(before, after)
    ensures Run(before + after).shutdown.requested
    ensures |after| + Rank(Run(before + after)) <= Rank(Run(before)) <= 8
  {
    if after == [] {
      assert before + after == before;
    } else {
      var shorter, a := after[..|after| - 1], after[|after| - 1];
      ShutdownIsShort(before, shorter);
      RunKeepsInv(before + shorter);
      assert (before + after)[..|before + after| - 1] == before + shorter;
      StepLowersRank(Run(before + shorter), a);
    }
  }

  /** Nothing blocks the exit but a pending claim: a hung handler does not, since the grace timer is still set. */
  lemma ExitIsNotBlocked(actions: seq<Action>) returns (a: Action)
    requires Run(actions).shutdown.requested && !Run(actions).shutdown.finishing.Exited?
    ensures Moves(Run(actions), a) && !a.Signal? && !a.EventEnds? && !a.NextEvent?
    ensures a.ClaimSettles? ==> Run(actions).loop.Claims? && Run(actions).shutdown.finishing.AwaitsClaim?
  {
    RunKeepsInv(actions);
    var s := Run(actions);
    match s.shutdown.finishing
    case NotStarted => a := TimerFires;
    case Releases => a := ReleasesSettle;
    case AwaitsClaim => a := if s.loop.Claims? then ClaimSettles([]) else ClaimAwaited;
  }
}
