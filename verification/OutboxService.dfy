/** The outbox collection as claiming, archiving and one pass of the run loop change it. */
module OutboxService {
  import opened Wrappers
  import opened OutboxDocuments
  import opened OutboxProtocol
  import opened OutboxTheorems

  // An event is named by its unique dedupe key, which also names its processed marker.
  type EventId = string

  const DAY_MS := 24 * 60 * 60 * 1000

  /** The claim filter, its times read once before the loop. */
  datatype Filter = Filter(now: int, cutoff: int, partition: Partition)

  predicate Matches(d: Doc, f: Filter) {
    Claimable(d, f.now, f.cutoff) && InPartition(d.hash, f.partition)
  }

  ghost predicate IsOldest(events: map<EventId, Doc>, id: EventId, f: Filter) {
    && id in events && Matches(events[id], f)
    && forall x :: x in events && Matches(events[x], f) ==> events[id].createdAt <= events[x].createdAt
  }

  /** The event matched the filter and now carries the worker's lock, set after the filter was made. */
  predicate ClaimedFrom(d: Doc, d': Doc, worker: WorkerId, f: Filter, clock: int) {
    && Matches(d, f) && d'.lockedAt.Some? && f.cutoff + STALE_MS <= d'.lockedAt.value <= clock
    && d'.status.Processing? && d'.lockedBy == Some(worker) && d'.attempts == d.attempts + 1
    && d' == d.(status := d'.status, lockedBy := d'.lockedBy, lockedAt := d'.lockedAt, attempts := d'.attempts, updatedAt := d'.lockedAt.value)
  }

  /** An event as the call leaves it: completed, or failed and due after the delay, or dead-lettered; in any case unlocked. */
  predicate ResolvedAs(d: Doc, d': Doc, done: bool, busy: bool, spent: bool, now: int, delay: int) {
    && d'.lockedBy.None? && d'.lockedAt.None? && d'.updatedAt == now
    && (d'.status.Completed? <==> done)
    && (d'.status.Failed? <==> !done && (busy || !spent))
    && (d'.status.DeadLetter? <==> !done && !busy && spent)
    && d'.processedAt == (if done then Some(now) else d.processedAt)
    && d'.availableAt == (if d'.status.Failed? then now + delay else d.availableAt)
    && d'.deadLetteredAt == (if d'.status.DeadLetter? then Some(now) else None)
    && d'.attempts == d.attempts - (if !done && busy then 1 else 0)
    && d'.createdAt == d.createdAt && d'.hash == d.hash
  }

  /** The claimed events are distinct and oldest first, and older than every match left. */
  ghost predicate OldestFirst(before: map<EventId, Doc>, claimed: seq<EventId>, f: Filter) {
    && (forall i :: 0 <= i < |claimed| ==> claimed[i] in before)
    && Distinct(claimed)
    && (forall i, j :: 0 <= i < j < |claimed| ==> before[claimed[i]].createdAt <= before[claimed[j]].createdAt)
    && (forall id, i | id in before && id !in claimed && 0 <= i < |claimed| ::
          Matches(before[id], f) ==> before[claimed[i]].createdAt <= before[id].createdAt)
  }

  /** From `before` to `after`, the claimed events and only they were claimed, oldest first. */
  ghost predicate ClaimsOldest(before: map<EventId, Doc>, after: map<EventId, Doc>, claimed: seq<EventId>,
                               worker: WorkerId, f: Filter, clock: int) {
    && after.Keys == before.Keys && OldestFirst(before, claimed, f)
    && (forall i :: 0 <= i < |claimed| ==> ClaimedFrom(before[claimed[i]], after[claimed[i]], worker, f, clock))
    && (forall id :: id in before && id !in claimed ==> after[id] == before[id])
  }

  lemma {:induction false} ExtendOldestFirst(before: map<EventId, Doc>, claimed: seq<EventId>, f: Filter, id: EventId)
    requires OldestFirst(before, claimed, f) && id in before && id !in claimed && Matches(before[id], f)
    requires forall x :: x in before && x !in claimed && Matches(before[x], f) ==> before[id].createdAt <= before[x].createdAt
    ensures OldestFirst(before, claimed + [id], f)
  {
    var longer := claimed + [id];
    assert forall x :: x in longer <==> x in claimed || x == id;
    forall x, i | x in before && x !in longer && 0 <= i < |longer| && Matches(before[x], f)
      ensures before[longer[i]].createdAt <= before[x].createdAt
    {
      if i < |claimed| {
        assert longer[i] == claimed[i];
      }
    }
  }

  lemma ExtendClaims(before: map<EventId, Doc>, after: map<EventId, Doc>, claimed: seq<EventId>,
                     worker: WorkerId, f: Filter, id: EventId, lockedAt: int)
    requires ClaimsOldest(before, after, claimed, worker, f, lockedAt) && IsOldest(after, id, f)
    requires f.cutoff + STALE_MS <= lockedAt
    ensures ClaimsOldest(before, after[id := Claim(after[id], worker, lockedAt)], claimed + [id], worker, f, lockedAt)
  {
    // a claimed event is locked too recently to match again
    forall i | 0 <= i < |claimed| ensures !Matches(after[claimed[i]], f) {
      assert ClaimedFrom(before[claimed[i]], after[claimed[i]], worker, f, lockedAt);
    }
    assert id !in claimed && after[id] == before[id];
    forall x | x in before && x !in claimed && Matches(before[x], f) ensures before[id].createdAt <= before[x].createdAt {
      assert after[x] == before[x];
    }
    ExtendOldestFirst(before, claimed, f, id);
    assert forall x :: x in claimed + [id] <==> x in claimed || x == id;
  }

  datatype HandlerOutcome = Returns | ThrowsError(busy: bool)

  /** The protocol's actions of a call that nothing interrupts. */
  function CallActions(marked: bool, outcome: HandlerOutcome, written: bool, now: int, delay: int): seq<Action> {
    if marked then [GetMarker(0), WriteCompleted(0, now), Acknowledged(0)]
    else if outcome.Returns? then
      [GetMarker(0), HandlerReturns(0), PutMarker(0, written), WriteCompleted(0, now), Acknowledged(0)]
    else [GetMarker(0), Throws(0, outcome.busy), ResolveThrow(0, now, delay)]
  }

  /** Where those actions lead. */
  function AfterCall(s: State, outcome: HandlerOutcome, written: bool, now: int, delay: int, maxAttempts: int): State
    requires |s.claims| == 1 && s.claims[0].resolution.Unresolved?
  {
    var c := s.claims[0].(pc := Over);
    if s.marker || outcome.Returns? then
      State(if s.doc.Some? then Some(Complete(s.doc.value, now)) else None, [c],
            s.marker || written, s.handled || !s.marker, s.clock)
    else
      var r := if s.doc.None? then Unresolved else Catch(c.(pc := Caught(outcome.busy)), maxAttempts);
      State(if s.doc.Some? then Some(CatchWrite(s.doc.value, r, now, delay)) else None, [c.(resolution := r)], s.marker, s.handled, s.clock)
  }

  lemma {:induction false} MarkedCall(s: State, now: int, maxAttempts: int) returns (a: seq<Action>)
    requires |s.claims| == 1 && s.claims[0].pc.CheckMarker? && s.claims[0].resolution.Unresolved? && s.marker && now <= s.clock
    ensures a == [GetMarker(0), WriteCompleted(0, now), Acknowledged(0)]
    ensures Run(s, a, maxAttempts) == AfterCall(s, Returns, false, now, 0, maxAttempts)
  {
    var marked := s.(claims := [s.claims[0].(pc := Completing)]);
    a := Extend(s, [], GetMarker(0), maxAttempts, marked);
    a := CompletedCall(s, a, marked, now, maxAttempts);
  }

  /** The completion and its acknowledgement. */
  lemma {:induction false} CompletedCall(s: State, actions: seq<Action>, mid: State, now: int, maxAttempts: int) returns (a: seq<Action>)
    requires Run(s, actions, maxAttempts) == mid && |mid.claims| == 1 && mid.claims[0].pc.Completing? && now <= mid.clock
    ensures a == actions + [WriteCompleted(0, now)] + [Acknowledged(0)]
    ensures Run(s, a, maxAttempts)
         == mid.(doc := if mid.doc.Some? then Some(Complete(mid.doc.value, now)) else None, claims := [mid.claims[0].(pc := Over)])
  {
    var written := mid.(doc := if mid.doc.Some? then Some(Complete(mid.doc.value, now)) else None,
                        claims := [mid.claims[0].(pc := Returning)]);
    a := Extend(s, actions, WriteCompleted(0, now), maxAttempts, written);
    a := Extend(s, a, Acknowledged(0), maxAttempts, written.(claims := [mid.claims[0].(pc := Over)]));
  }

  lemma {:induction false} HandlerDone(s: State, written: bool, maxAttempts: int) returns (a: seq<Action>)
    requires |s.claims| == 1 && s.claims[0].pc.CheckMarker? && !s.marker
    ensures a == [GetMarker(0)] + [HandlerReturns(0)] + [PutMarker(0, written)]
    ensures Run(s, a, maxAttempts) == s.(claims := [s.claims[0].(pc := Completing)], handled := true, marker := written)
  {
    var c := s.claims[0];
    a := Extend(s, [], GetMarker(0), maxAttempts, s.(claims := [c.(pc := Handling)]));
    a := Extend(s, a, HandlerReturns(0), maxAttempts, s.(claims := [c.(pc := SetMarker)], handled := true));
    a := Extend(s, a, PutMarker(0, written), maxAttempts,
      s.(claims := [c.(pc := Completing)], handled := true, marker := written));
  }

  lemma {:induction false} ReturningCall(s: State, written: bool, now: int, maxAttempts: int) returns (a: seq<Action>)
    requires |s.claims| == 1 && s.claims[0].pc.CheckMarker? && s.claims[0].resolution.Unresolved? && !s.marker && now <= s.clock
    ensures a == CallActions(false, Returns, written, now, 0)
    ensures Run(s, a, maxAttempts) == AfterCall(s, Returns, written, now, 0, maxAttempts)
  {
    a := HandlerDone(s, written, maxAttempts);
    a := CompletedCall(s, a, Run(s, a, maxAttempts), now, maxAttempts);
  }

  lemma {:induction false} ThrowingCall(s: State, busy: bool, now: int, delay: int, maxAttempts: int) returns (a: seq<Action>)
    requires |s.claims| == 1 && s.claims[0].pc.CheckMarker? && s.claims[0].resolution.Unresolved? && !s.marker && now <= s.clock
    requires delay >= MIN_RETRY_DELAY_MS
    ensures a == CallActions(false, ThrowsError(busy), false, now, delay)
    ensures Run(s, a, maxAttempts) == AfterCall(s, ThrowsError(busy), false, now, delay, maxAttempts)
  {
    var c := s.claims[0];
    a := Extend(s, [], GetMarker(0), maxAttempts, s.(claims := [c.(pc := Handling)]));
    a := Extend(s, a, Throws(0, busy), maxAttempts, s.(claims := [c.(pc := Caught(busy))]));
    a := Extend(s, a, ResolveThrow(0, now, delay), maxAttempts,
      AfterCall(s, ThrowsError(busy), false, now, delay, maxAttempts));
  }

  class OutboxCollection {
    var events: map<EventId, Doc>
    var markers: set<EventId>
    var clock: int
    ghost var handled: set<EventId>  // keys a handler has returned normally for

    method Now() returns (t: int)
      modifies this`clock
      ensures t == clock >= old(clock)
    {
      var later :| later >= clock;
      clock := later;
      t := clock;
    }

    method FindOldest(f: Filter) returns (found: Option<EventId>)
      ensures found.None? ==> forall id :: id in events ==> !Matches(events[id], f)
      ensures found.Some? ==> IsOldest(events, found.value, f)
    {
      found := None;
      var left := events.Keys;
      while left != {}
        invariant left <= events.Keys
        invariant found.None? ==> forall id :: id in events && Matches(events[id], f) ==> id in left
        invariant found.Some? ==> found.value in events && Matches(events[found.value], f)
        invariant found.Some? ==> forall id :: id in events && Matches(events[id], f) && id !in left ==>
                                    events[found.value].createdAt <= events[id].createdAt
        decreases left
      {
        var id :| id in left;
        left := left - {id};
        if Matches(events[id], f) && (found.None? || events[id].createdAt < events[found.value].createdAt) {
          found := Some(id);
        }
      }
    }

    /**
     Claims the oldest claimable events of the partition, in order, each exactly once: fewer
     than the limit only when none is left.
     */
    method ClaimOutboxEvents(worker: WorkerId, limit: nat, p: Partition)
      returns (claimed: seq<EventId>, ghost filter: Filter)
      modifies this`events, this`clock
      ensures old(clock) <= filter.now <= filter.cutoff + STALE_MS <= clock && filter.partition == p
      ensures ClaimsOldest(old(events), events, claimed, worker, filter, clock)
      ensures |claimed| <= limit
      ensures |claimed| < limit ==> forall id :: id in events && id !in claimed ==> !Matches(events[id], filter)
    {
      var now := Now();
      var staleNow := Now();
      var f := Filter(now, staleNow - STALE_MS, p);
      filter := f;
      claimed := [];
      while |claimed| < limit
        invariant old(clock) <= now <= f.cutoff + STALE_MS <= clock && filter == f && f.partition == p && f.now == now
        invariant ClaimsOldest(old(events), events, claimed, worker, f, clock)
        invariant |claimed| <= limit
      {
        var found := FindOldest(f);
        if found.None? {
          break;
        }
        var lockedAt := Now();
        ExtendClaims(old(events), events, claimed, worker, f, found.value, lockedAt);
        events := events[found.value := Claim(events[found.value], worker, lockedAt)];
        claimed := claimed + [found.value];
      }
    }

    /** Deletes exactly the archivable events. */
    method ArchiveTerminalOutboxEvents(retentionDays: Num) returns (deleted: nat, ghost cutoff: int)
      modifies this`events, this`clock
      ensures cutoff + (if retentionDays.Finite? && retentionDays.value > 0.0 then retentionDays.value.Floor else 14) * DAY_MS == clock
      ensures events == map id | id in old(events) && !Archivable(old(events)[id], cutoff) :: old(events)[id]
      ensures deleted == |old(events)| - |events|
    {
      var days := if retentionDays.Finite? && retentionDays.value > 0.0 then retentionDays.value.Floor else 14;
      var now := Now();
      var before := events;
      cutoff := now - days * DAY_MS;
      var limit := now - days * DAY_MS;
      events := map id | id in events && !Archivable(events[id], limit) :: events[id];
      SmallerMap(before, events);
      deleted := |before| - |events|;
    }

    method UpdateOne(id: EventId, d: Doc)
      requires id in events
      modifies this`events
      ensures events == old(events)[id := d]
    {
      events := events[id := d];
    }

    /** The protocol's view of one event, with one claim just made. */
    ghost function View(id: EventId, worker: WorkerId, recorded: int): State
      reads this
    {
      State(if id in events then Some(events[id]) else None,
            [Claimed(worker, recorded, CheckMarker, false, Unresolved)], id in markers, id in handled, clock)
    }

    /** Everything but one event, its marker and its handled flag is as before. */
    twostate predicate OnlyTouches(id: EventId)
      reads this
    {
      && events - {id} == old(events) - {id} && (id in events <==> id in old(events))
      && markers - {id} == old(markers) - {id} && handled - {id} == old(handled) - {id}
    }

    /**
     One event of the run loop, from the marker check to the catch, when nothing else runs
     meanwhile.  It is done exactly when it was marked or the handler returned; the handler
     does not run for a marked one.  The protocol starts at the time of the write.
     */
    method ProcessOneEvent(id: EventId, recorded: int, maxAttempts: int, outcome: HandlerOutcome, markerWritten: bool, delay: int,
                           ghost worker: WorkerId)
      returns (now: int)
      requires delay >= MIN_RETRY_DELAY_MS
      modifies this
      ensures View(id, worker, recorded).(claims := []) ==
        Run(old(View(id, worker, recorded)).(clock := now), CallActions(old(id in markers), outcome, markerWritten, now, delay), maxAttempts).(claims := [])
      ensures var done := id in old(markers) || outcome.Returns?;
              id in old(events) ==>
                && id in events
                && ResolvedAs(old(events)[id], events[id], done, !done && outcome.busy, recorded >= maxAttempts, now, delay)
      ensures id in markers <==> id in old(markers) || (outcome.Returns? && markerWritten)
      ensures id in handled <==> id in old(handled) || (id !in old(markers) && outcome.Returns?)
      ensures OnlyTouches(id)
      ensures old(clock) <= now == clock
    {
      ghost var start := View(id, worker, recorded);
      if id in markers {
        now := Now();
        if id in events {
          UpdateOne(id, Complete(events[id], now));
        }
        ghost var a := MarkedCall(start.(clock := now), now, maxAttempts);
        return;
      }
      if outcome.Returns? {
        handled := handled + {id};
        if markerWritten {
          markers := markers + {id};
        }
        now := Now();
        if id in events {
          UpdateOne(id, Complete(events[id], now));
        }
        ghost var a := ReturningCall(start.(clock := now), markerWritten, now, maxAttempts);
        return;
      }
      now := Now();
      if id in events {
        if outcome.busy {
          UpdateOne(id, Defer(events[id], now, delay));
        } else if recorded >= maxAttempts {
          UpdateOne(id, Bury(events[id], now));
        } else {
          UpdateOne(id, Fail(events[id], now, delay));
        }
      }
      ghost var a := ThrowingCall(start.(clock := now), outcome.busy, now, delay, maxAttempts);
    }

    /** A shutdown hands an event back only while this worker holds it. */
    method ReleaseClaimedOutboxEvent(id: EventId, worker: WorkerId) returns (modified: bool)
      modifies this`events, this`clock
      ensures modified <==> id in old(events) && old(events)[id].status.Processing? && old(events)[id].lockedBy == Some(worker)
      ensures modified ==>
        id in events && ResolvedAs(old(events)[id], events[id], false, true, false, clock, 0) && events == old(events)[id := events[id]]
      ensures events == if modified then old(events)[id := Release(old(events)[id], worker, clock)] else old(events)
    {
      var now := Now();
      modified := id in events && Holds(events[id], worker);
      if modified {
        UpdateOne(id, Release(events[id], worker, now));
      }
    }
  }

  lemma SmallerMap(before: map<EventId, Doc>, after: map<EventId, Doc>)
    requires after.Keys <= before.Keys
    ensures |after| <= |before|
  {
    SmallerSet(after.Keys, before.Keys);
    assert |after| == |after.Keys| && |before| == |before.Keys|;
  }

  lemma {:induction false} SmallerSet<T>(a: set<T>, b: set<T>)
    requires a <= b
    ensures |a| <= |b|
  {
    assert |b| == |a| + |b - a|;
  }
}
