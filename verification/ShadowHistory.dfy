/**
 The bounded history kept with an execution state.  Entries omit their timestamp and
 worker; the limit is the one the callers use.
 */
module ShadowHistory {
  import opened Wrappers
  import opened ExecutionStates
  import opened ExecutionRuns

  const HISTORY_LIMIT: nat := 100

  function LastOf<T>(s: seq<T>, n: nat): seq<T> {
    if |s| <= n then s else s[|s| - n..]
  }

  function AppendHistory(history: seq<Entry>, x: Entry, limit: nat): seq<Entry> {
    LastOf(history + [x], limit)
  }

  function CreateQueued(now: string): ExecutionState {
    Queued(now)
  }

  /** None is a stored value that is no execution state. */
  function ResolveCurrent(stored: Option<ExecutionState>, now: string): ExecutionState {
    if stored.Some? then stored.value else CreateQueued(now)
  }

  /** Policy evaluation only starts from queued, so any other state is replaced by a fresh one. */
  function PolicyBaseline(stored: Option<ExecutionState>, now: string): ExecutionState {
    var current := ResolveCurrent(stored, now);
    if current.Queued? then current else CreateQueued(now)
  }

  lemma LastOfAppend<T>(s: seq<T>, x: T, n: nat)
    ensures LastOf(LastOf(s, n) + [x], n) == LastOf(s + [x], n)
  {
  }

  /** The loop shared by every caller: reduce, keep the state, append the entry. */
  method FoldEvents(current: ExecutionState, history: seq<Entry>, events: seq<ExecutionEvent>)
    returns (end: ExecutionState, newHistory: seq<Entry>)
    ensures end == After(current, events)
    ensures events == [] ==> newHistory == history
    ensures events != [] ==> newHistory == LastOf(history + Log(current, events), HISTORY_LIMIT)
  {
    end, newHistory := current, history;
    for i := 0 to |events|
      invariant end == After(current, events[..i])
      invariant newHistory == if i == 0 then history else LastOf(history + Log(current, events[..i]), HISTORY_LIMIT)
    {
      assert events[..i + 1][..i] == events[..i];
      var x := Apply(end, events[i]);
      assert history + Log(current, events[..i + 1]) == (history + Log(current, events[..i])) + [x];
      LastOfAppend(history + Log(current, events[..i]), x, HISTORY_LIMIT);
      end, newHistory := x.to, AppendHistory(newHistory, x, HISTORY_LIMIT);
    }
    assert events[..|events|] == events;
  }

  // ----- What a history is good for -----

  /** The entry is what the reducer does. */
  predicate IsStep(x: Entry) {
    x == Apply(x.from, x.event)
  }

  ghost predicate AllSteps(history: seq<Entry>) {
    forall x :: x in history ==> IsStep(x)
  }

  /** Each entry starts where the one before ended. */
  ghost predicate IsChain(history: seq<Entry>) {
    forall k :: 0 < k < |history| ==> history[k - 1].to == history[k].from
  }

  ghost predicate Replayable(history: seq<Entry>) {
    AllSteps(history) && IsChain(history)
  }

  ghost predicate EndsIn(history: seq<Entry>, s: ExecutionState) {
    history != [] ==> history[|history| - 1].to == s
  }

  /** The history of a stored state: bounded, replayable, and ending in that state. */
  ghost predicate Explains(history: seq<Entry>, s: ExecutionState) {
    |history| <= HISTORY_LIMIT && Replayable(history) && EndsIn(history, s)
  }

  function EventsOf(history: seq<Entry>): (events: seq<ExecutionEvent>)
    ensures |events| == |history|
  {
    seq(|history|, i requires 0 <= i < |history| => history[i].event)
  }

  /** Replaying the retained events from the first retained state gives the stored state. */
  lemma {:induction false} ReplayGivesState(history: seq<Entry>, s: ExecutionState)
    requires Explains(history, s) && history != []
    ensures After(history[0].from, EventsOf(history)) == s
    ensures Log(history[0].from, EventsOf(history)) == history
  {
    var init, last := history[..|history| - 1], history[|history| - 1];
    assert EventsOf(history)[..|init|] == EventsOf(init);
    assert history == init + [last] && IsStep(last);
    if init == [] {
      assert EventsOf(init) == [];
    } else {
      ReplayGivesState(init, init[|init| - 1].to);
    }
  }

  /** A log explains the state it ends in, and starts in the state it was made from. */
  lemma {:induction false} LogIsReplayable(s: ExecutionState, events: seq<ExecutionEvent>)
    ensures Replayable(Log(s, events)) && EndsIn(Log(s, events), After(s, events))
    ensures events != [] ==> Log(s, events)[0].from == s
    ensures events == [] ==> After(s, events) == s
  {
    if events != [] {
      LogIsReplayable(s, events[..|events| - 1]);
    }
  }

  lemma JoinChains(history: seq<Entry>, log: seq<Entry>, n: nat)
    requires IsChain(history) && IsChain(log)
    requires history != [] && log != [] ==> history[|history| - 1].to == log[0].from
    ensures IsChain(LastOf(history + log, n))
  {
    var joint := history + log;
    forall k | 0 < k < |joint| ensures joint[k - 1].to == joint[k].from {
      if k > |history| {
        assert joint[k - 1] == log[k - 1 - |history|] && joint[k] == log[k - |history|];
      }
    }
  }

  lemma JoinSteps(history: seq<Entry>, log: seq<Entry>, n: nat)
    requires AllSteps(history) && AllSteps(log)
    ensures AllSteps(LastOf(history + log, n))
  {
    forall x | x in LastOf(history + log, n) ensures IsStep(x) {
      assert x in history || x in log;
    }
  }

  /** Folding from the stored state keeps the history explaining the stored state. */
  lemma {:induction false} FoldKeepsExplains(history: seq<Entry>, s: ExecutionState, events: seq<ExecutionEvent>)
    requires Explains(history, s)
    ensures Explains(LastOf(history + Log(s, events), HISTORY_LIMIT), After(s, events))
  {
    LogIsReplayable(s, events);
    JoinSteps(history, Log(s, events), HISTORY_LIMIT);
    JoinChains(history, Log(s, events), HISTORY_LIMIT);
  }

  lemma BrokenLink(history: seq<Entry>, log: seq<Entry>)
    requires history != [] && 0 < |log| < HISTORY_LIMIT && history[|history| - 1].to != log[0].from
    ensures !IsChain(LastOf(history + log, HISTORY_LIMIT))
  {
    // the last old entry and the first new one are both retained and do not meet
    var joint := LastOf(history + log, HISTORY_LIMIT);
    var k := |joint| - |log|;
    assert joint[k] == log[0] && joint[k - 1] == history[|history| - 1];
  }

  /**
   A policy batch keeps the history replayable exactly when the state it starts from was
   queued, or no older entry is left to break the link.
   */
  lemma {:induction false} PolicyBatchKeepsReplay(history: seq<Entry>, s: ExecutionState, now: string, events: seq<ExecutionEvent>)
    requires Explains(history, s) && events != []
    ensures var base := PolicyBaseline(Some(s), now);
            Explains(LastOf(history + Log(base, events), HISTORY_LIMIT), After(base, events))
            <==> s.Queued? || history == [] || |events| >= HISTORY_LIMIT
  {
    var base := PolicyBaseline(Some(s), now);
    var log := Log(base, events);
    LogIsReplayable(base, events);
    if s.Queued? {
      FoldKeepsExplains(history, s, events);
    } else if history == [] || |events| >= HISTORY_LIMIT {
      assert LastOf(history + log, HISTORY_LIMIT) == LastOf([] + log, HISTORY_LIMIT);
      JoinSteps([], log, HISTORY_LIMIT);
      JoinChains([], log, HISTORY_LIMIT);
    } else {
      BrokenLink(history, log);
    }
  }
}
