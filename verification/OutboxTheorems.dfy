/** What the outbox never loses, what its terminal statuses mean, and how tight the attempt budget is. */
module OutboxTheorems {
  import opened Wrappers
  import opened OutboxDocuments
  import opened OutboxProtocol

  lemma {:induction false} RunSnoc(s: State, actions: seq<Action>, a: Action, maxAttempts: int)
    ensures Run(s, actions + [a], maxAttempts) == Step(Run(s, actions, maxAttempts), a, maxAttempts)
  {
    assert (actions + [a])[..|actions|] == actions;
  }

  lemma {:induction false} Extend(s: State, actions: seq<Action>, a: Action, maxAttempts: int, next: State)
    returns (longer: seq<Action>)
    requires Step(Run(s, actions, maxAttempts), a, maxAttempts) == next
    ensures longer == actions + [a] && Run(s, longer, maxAttempts) == next
  {
    longer := actions + [a];
    RunSnoc(s, actions, a, maxAttempts);
  }

  // ----- Completion means handled; nothing is lost -----

  predicate HandlerIsBehind(pc: Pc) {
    pc.SetMarker? || pc.Completing? || pc.Returning?
  }

  ghost predicate Exhausted(c: Claimed, maxAttempts: int) {
    c.resolution.WroteDeadLetter? && c.recorded >= maxAttempts
  }

  ghost predicate SomeExhausted(s: State, maxAttempts: int) {
    exists i :: 0 <= i < |s.claims| && Exhausted(s.claims[i], maxAttempts)
  }

  ghost predicate Accounted(s: State, maxAttempts: int) {
    && (s.marker ==> s.handled)
    && (forall i :: 0 <= i < |s.claims| && HandlerIsBehind(s.claims[i].pc) ==> s.handled)
    && (forall i :: 0 <= i < |s.claims| && !s.claims[i].resolution.Unresolved? ==> s.claims[i].pc.Over?)
    && (s.doc.Some? ==> LockMatchesStatus(s.doc.value))
    && (s.doc.Some? && s.doc.value.status.Completed? ==> s.handled)
    && (s.doc.Some? && s.doc.value.status.DeadLetter? ==> SomeExhausted(s, maxAttempts))
    && (s.doc.None? ==> s.handled || SomeExhausted(s, maxAttempts))
  }

  lemma ExhaustedLasts(s: State, a: Action, maxAttempts: int)
    requires Accounted(s, maxAttempts) && SomeExhausted(s, maxAttempts)
    ensures SomeExhausted(Step(s, a, maxAttempts), maxAttempts)
  {
    var i :| 0 <= i < |s.claims| && Exhausted(s.claims[i], maxAttempts);
    assert Exhausted(Step(s, a, maxAttempts).claims[i], maxAttempts);
  }

  lemma StepKeepsDoc(s: State, a: Action, maxAttempts: int)
    requires Accounted(s, maxAttempts) && Enabled(s, a)
    ensures var s' := Step(s, a, maxAttempts);
            && (s'.doc.Some? ==> LockMatchesStatus(s'.doc.value))
            && (s'.doc.Some? && s'.doc.value.status.Completed? ==> s'.handled)
            && (s'.doc.Some? && s'.doc.value.status.DeadLetter? ==> SomeExhausted(s', maxAttempts))
            && (s'.doc.None? ==> s'.handled || SomeExhausted(s', maxAttempts))
  {
    var s' := Step(s, a, maxAttempts);
    if a.ResolveThrow? && s.doc.Some? && s'.doc.value.status.DeadLetter? {
      assert Exhausted(s'.claims[a.claim], maxAttempts);
    } else if SomeExhausted(s, maxAttempts) {
      ExhaustedLasts(s, a, maxAttempts);
    }
  }

  lemma StepKeepsAccounted(s: State, a: Action, maxAttempts: int)
    requires Accounted(s, maxAttempts)
    ensures Accounted(Step(s, a, maxAttempts), maxAttempts)
  {
    if Enabled(s, a) {
      StepKeepsDoc(s, a, maxAttempts);
    }
  }

  lemma {:induction false} RunIsAccounted(s: State, actions: seq<Action>, maxAttempts: int)
    requires Init(s)
    ensures Accounted(Run(s, actions, maxAttempts), maxAttempts)
  {
    if actions != [] {
      RunIsAccounted(s, actions[..|actions| - 1], maxAttempts);
      StepKeepsAccounted(Run(s, actions[..|actions| - 1], maxAttempts), actions[|actions| - 1], maxAttempts);
    }
  }

  /** Some of n workers, one for each partition, would claim the event with a filter made now. */
  ghost predicate ClaimableBySome(d: Doc, now: int, n: int) {
    exists i :: 0 <= i < n && Claimable(d, now, now - STALE_MS) && InPartition(d.hash, Partition(n, i))
  }

  lemma SomePartitionClaims(d: Doc, now: int, n: int)
    requires LockMatchesStatus(d) && n >= 1
    ensures ClaimableBySome(d, now, n) <==>
      !Terminal(d) && now >= ClaimableFrom(d) && (n == 1 || d.hash >= 0 || d.hash % n == 0)
  {
    UnfinishedIsClaimable(d, now);
    if n == 1 {
      assert InPartition(d.hash, Partition(1, 0));
    } else {
      CoveredUnlessNegative(d.hash, n);
    }
  }

  /**
   In every run an event is completed only after a handler for its key returned normally,
   dead-lettered only by a claim that spent the budget, deleted only after one of the two,
   and otherwise claimed by one of n partitioned workers from a known time on, exactly when
   its hash falls in one of the partitions.
   */
  lemma NothingIsLost(s: State, actions: seq<Action>, maxAttempts: int, now: int, n: int)
    requires Init(s) && n >= 1
    ensures var r := Run(s, actions, maxAttempts);
            && (r.doc.None? ==> r.handled || SomeExhausted(r, maxAttempts))
            && (r.doc.Some? && r.doc.value.status.Completed? ==> r.handled)
            && (r.doc.Some? && r.doc.value.status.DeadLetter? ==> SomeExhausted(r, maxAttempts))
            && (r.doc.Some? && !Terminal(r.doc.value) ==>
                  (ClaimableBySome(r.doc.value, now, n) <==>
                   now >= ClaimableFrom(r.doc.value) && (n == 1 || r.doc.value.hash >= 0 || r.doc.value.hash % n == 0)))
  {
    RunIsAccounted(s, actions, maxAttempts);
    var r := Run(s, actions, maxAttempts);
    if r.doc.Some? {
      SomePartitionClaims(r.doc.value, now, n);
    }
  }

  // ----- When a terminal status is final -----

  const MARKER_MS := 7 * 24 * 60 * 60 * 1000

  /** The claim can still fail or defer the event. */
  predicate MayReopen(c: Claimed, maxAttempts: int) {
    match c.pc
    case CheckMarker => true
    case Handling => true
    case Over => false
    case Caught(busy) => busy || c.recorded < maxAttempts
    case _ => c.recorded < maxAttempts
  }

  ghost predicate SomeMayReopen(s: State, maxAttempts: int) {
    exists i :: 0 <= i < |s.claims| && MayReopen(s.claims[i], maxAttempts)
  }

  predicate Ended(s: State) {
    s.doc.None? || Terminal(s.doc.value)
  }

  ghost predicate Reopens(s: State, actions: seq<Action>, maxAttempts: int) {
    !Ended(Run(s, actions, maxAttempts))
  }

  lemma EndedStep(s: State, a: Action, maxAttempts: int)
    requires Ended(s) && !SomeMayReopen(s, maxAttempts)
    ensures Ended(Step(s, a, maxAttempts)) && !SomeMayReopen(Step(s, a, maxAttempts), maxAttempts)
  {
    var s' := Step(s, a, maxAttempts);
    forall i | 0 <= i < |s'.claims| ensures !MayReopen(s'.claims[i], maxAttempts) {
      assert |s'.claims| == |s.claims| && !MayReopen(s.claims[i], maxAttempts);
    }
  }

  lemma {:induction false} EndedStays(s: State, actions: seq<Action>, maxAttempts: int)
    requires Ended(s) && !SomeMayReopen(s, maxAttempts)
    ensures Ended(Run(s, actions, maxAttempts)) && !SomeMayReopen(Run(s, actions, maxAttempts), maxAttempts)
  {
    if actions != [] {
      var shorter, a := actions[..|actions| - 1], actions[|actions| - 1];
      EndedStays(s, shorter, maxAttempts);
      EndedStep(Run(s, shorter, maxAttempts), a, maxAttempts);
    }
  }

  /** From a caught error the catch writes the event open again. */
  lemma {:induction false} CaughtReopens(s: State, actions: seq<Action>, maxAttempts: int, i: nat) returns (longer: seq<Action>)
    requires s.doc.Some?
    requires var r := Run(s, actions, maxAttempts);
             r.doc == s.doc && i < |r.claims| && r.claims[i].pc.Caught? && MayReopen(r.claims[i], maxAttempts)
    ensures Reopens(s, longer, maxAttempts)
  {
    var a := ResolveThrow(i, Run(s, actions, maxAttempts).clock, MIN_RETRY_DELAY_MS);
    longer := actions + [a];
    RunSnoc(s, actions, a, maxAttempts);
  }

  lemma {:induction false} ThrowReopens(s: State, actions: seq<Action>, maxAttempts: int, i: nat) returns (longer: seq<Action>)
    requires s.doc.Some?
    requires var r := Run(s, actions, maxAttempts);
             && r.doc == s.doc && i < |r.claims| && MayReopen(r.claims[i], maxAttempts)
             && (r.claims[i].pc.Handling? || r.claims[i].pc.Completing? || r.claims[i].pc.Returning?)
    ensures Reopens(s, longer, maxAttempts)
  {
    var a := Throws(i, Run(s, actions, maxAttempts).claims[i].pc.Handling?);
    RunSnoc(s, actions, a, maxAttempts);
    longer := CaughtReopens(s, actions + [a], maxAttempts, i);
  }

  /** Seven days later no marker is left, and the claim handles the event again. */
  lemma {:induction false} MarkerExpires(s: State, maxAttempts: int, i: nat) returns (actions: seq<Action>)
    requires i < |s.claims| && s.claims[i].pc.CheckMarker?
    ensures Run(s, actions, maxAttempts) == SetPc(s, i, Handling).(marker := false, clock := s.clock + MARKER_MS)
  {
    actions := Extend(s, [], Tick(MARKER_MS), maxAttempts, s.(clock := s.clock + MARKER_MS));
    actions := Extend(s, actions, ExpireMarker, maxAttempts, s.(clock := s.clock + MARKER_MS, marker := false));
    actions := Extend(s, actions, GetMarker(i), maxAttempts, SetPc(s, i, Handling).(marker := false, clock := s.clock + MARKER_MS));
  }

  lemma {:induction false} MayReopenReopens(s: State, maxAttempts: int, i: nat) returns (actions: seq<Action>)
    requires s.doc.Some? && i < |s.claims| && MayReopen(s.claims[i], maxAttempts)
    ensures Reopens(s, actions, maxAttempts)
  {
    if s.claims[i].pc.Caught? {
      actions := CaughtReopens(s, [], maxAttempts, i);
    } else if s.claims[i].pc.SetMarker? {
      RunSnoc(s, [], PutMarker(i, false), maxAttempts);
      actions := ThrowReopens(s, [] + [PutMarker(i, false)], maxAttempts, i);
    } else if s.claims[i].pc.CheckMarker? {
      actions := MarkerExpires(s, maxAttempts, i);
      actions := ThrowReopens(s, actions, maxAttempts, i);
    } else {
      actions := ThrowReopens(s, [], maxAttempts, i);
    }
  }

  lemma FinalFrom(s: State, maxAttempts: int)
    requires s.doc.Some? && Terminal(s.doc.value)
    ensures (exists actions :: Reopens(s, actions, maxAttempts)) <==> SomeMayReopen(s, maxAttempts)
  {
    if SomeMayReopen(s, maxAttempts) {
      var i :| 0 <= i < |s.claims| && MayReopen(s.claims[i], maxAttempts);
      var actions := MayReopenReopens(s, maxAttempts, i);
    } else {
      forall actions ensures !Reopens(s, actions, maxAttempts) {
        EndedStays(s, actions, maxAttempts);
      }
    }
  }

  lemma {:induction false} RunAppend(s: State, before: seq<Action>, after: seq<Action>, maxAttempts: int)
    ensures Run(s, before + after, maxAttempts) == Run(Run(s, before, maxAttempts), after, maxAttempts)
  {
    if after == [] {
      assert before + after == before;
    } else {
      RunAppend(s, before, after[..|after| - 1], maxAttempts);
      assert (before + after)[..|before + after| - 1] == before + after[..|after| - 1];
    }
  }

  /**
   The writes do not check the lock, so an event that a run has completed or dead-lettered
   is reopened in some continuation exactly when a claim is left that can still fail or
   defer it.
   */
  lemma {:induction false} TerminalIsFinalExactlyWhen(s: State, before: seq<Action>, maxAttempts: int)
    requires Init(s)
    requires Run(s, before, maxAttempts).doc.Some? && Terminal(Run(s, before, maxAttempts).doc.value)
    ensures (exists after :: Reopens(s, before + after, maxAttempts)) <==> SomeMayReopen(Run(s, before, maxAttempts), maxAttempts)
  {
    var r := Run(s, before, maxAttempts);
    FinalFrom(r, maxAttempts);
    forall after ensures Reopens(s, before + after, maxAttempts) <==> Reopens(r, after, maxAttempts) {
      RunAppend(s, before, after, maxAttempts);
    }
  }

  const Fresh := State(Some(NewDoc(0, 0)), [], false, false, 0)

  /** A worker hangs in its handler until its lock is stale, and another one handles and completes the event. */
  lemma StaleClaimIsCompleted(maxAttempts: int) returns (actions: seq<Action>, d: Doc, done: Doc)
    ensures done == Complete(Claim(d, "w", STALE_MS), STALE_MS) && d == Claim(NewDoc(0, 0), "v", 0)
    ensures Run(Fresh, actions, maxAttempts)
         == State(Some(done), [Claimed("v", 1, Handling, false, Unresolved), Claimed("w", 2, Returning, false, Unresolved)], true, true, STALE_MS)
  {
    d := Claim(NewDoc(0, 0), "v", 0);
    var d' := Claim(d, "w", STALE_MS);
    done := Complete(d', STALE_MS);
    var v, w := Claimed("v", 1, Handling, false, Unresolved), Claimed("w", 2, CheckMarker, false, Unresolved);
    actions := HungClaim(maxAttempts);
    actions := Extend(Fresh, actions, ClaimEvent("w", STALE_MS, 0, STALE_MS), maxAttempts, State(Some(d'), [v, w], false, false, STALE_MS));
    actions := Extend(Fresh, actions, GetMarker(1), maxAttempts, State(Some(d'), [v, w.(pc := Handling)], false, false, STALE_MS));
    actions := Extend(Fresh, actions, HandlerReturns(1), maxAttempts, State(Some(d'), [v, w.(pc := SetMarker)], false, true, STALE_MS));
    actions := Extend(Fresh, actions, PutMarker(1, true), maxAttempts, State(Some(d'), [v, w.(pc := Completing)], true, true, STALE_MS));
    actions := Extend(Fresh, actions, WriteCompleted(1, STALE_MS), maxAttempts, State(Some(done), [v, w.(pc := Returning)], true, true, STALE_MS));
  }

  lemma HungClaim(maxAttempts: int) returns (actions: seq<Action>)
    ensures Run(Fresh, actions, maxAttempts)
         == State(Some(Claim(NewDoc(0, 0), "v", 0)), [Claimed("v", 1, Handling, false, Unresolved)], false, false, STALE_MS)
  {
    var d, v := Claim(NewDoc(0, 0), "v", 0), Claimed("v", 1, CheckMarker, false, Unresolved);
    actions := Extend(Fresh, [], ClaimEvent("v", 0, -STALE_MS, 0), maxAttempts, State(Some(d), [v], false, false, 0));
    actions := Extend(Fresh, actions, GetMarker(0), maxAttempts, State(Some(d), [v.(pc := Handling)], false, false, 0));
    actions := Extend(Fresh, actions, Tick(STALE_MS), maxAttempts, State(Some(d), [v.(pc := Handling)], false, false, STALE_MS));
  }

  /** The reopening is reachable for every budget above one attempt: the hung worker throws after the completion. */
  lemma CompletedIsReopened(maxAttempts: int, delay: int) returns (before: seq<Action>, after: seq<Action>)
    requires maxAttempts > 1 && delay >= MIN_RETRY_DELAY_MS
    ensures Init(Fresh)
    ensures var r := Run(Fresh, before, maxAttempts); r.doc.Some? && r.doc.value.status.Completed? && r.handled
    ensures var r := Run(Fresh, before + after, maxAttempts); r.doc.Some? && r.doc.value.status.Failed?
  {
    var d, done;
    before, d, done := StaleClaimIsCompleted(maxAttempts);
    var v, w := Claimed("v", 1, Handling, false, Unresolved), Claimed("w", 2, Returning, false, Unresolved);
    var longer := Extend(Fresh, before, Throws(0, false), maxAttempts, State(Some(done), [v.(pc := Caught(false)), w], true, true, STALE_MS));
    var reopened := Fail(done, STALE_MS, delay);
    var end := State(Some(reopened), [v.(pc := Over, resolution := WroteFailed), w], true, true, STALE_MS);
    longer := Extend(Fresh, longer, ResolveThrow(0, STALE_MS, delay), maxAttempts, end);
    after := [Throws(0, false)] + [ResolveThrow(0, STALE_MS, delay)];
    assert longer == before + after;
  }

  // ----- The budget is tight, and each double resolution exceeds it by one -----

  /** The k-th worker: no two have the same name. */
  function Worker(k: nat): WorkerId {
    seq(k + 1, _ => 'w')
  }

  /** The event waits, due now. */
  predicate IsDue(s: State) {
    && s.doc.Some? && (s.doc.value.status.Pending? || s.doc.value.status.Failed?)
    && s.doc.value.availableAt <= s.clock && !s.marker
  }

  predicate AllDelays(delays: seq<int>) {
    forall i :: 0 <= i < |delays| ==> delays[i] >= MIN_RETRY_DELAY_MS
  }

  function ClaimNow(worker: WorkerId, clock: int): Action {
    ClaimEvent(worker, clock, clock - STALE_MS, clock)
  }

  /** The claim made last moves. */
  lemma {:induction false} LastMoves(s: State, actions: seq<Action>, a: Action, maxAttempts: int, r: State, c: Claimed, pc: Pc)
    returns (longer: seq<Action>)
    requires |r.claims| > 0 && Run(s, actions, maxAttempts) == r && r.claims[|r.claims| - 1] == c
    requires Step(r, a, maxAttempts) == SetPc(r, |r.claims| - 1, pc)
    ensures longer == actions + [a]
    ensures Run(s, longer, maxAttempts) == r.(claims := r.claims[..|r.claims| - 1] + [c.(pc := pc)])
  {
    var next := r.(claims := r.claims[..|r.claims| - 1] + [c.(pc := pc)]);
    assert SetPc(r, |r.claims| - 1, pc).claims == next.claims;
    longer := Extend(s, actions, a, maxAttempts, next);
  }

  /** A due event is claimed, and the marker is not there. */
  lemma {:induction false} HandledClaim(s: State, actions: seq<Action>, maxAttempts: int, w: WorkerId) returns (longer: seq<Action>)
    requires IsDue(Run(s, actions, maxAttempts))
    ensures var r, r' := Run(s, actions, maxAttempts), Run(s, longer, maxAttempts);
            var d := Claim(r.doc.value, w, r.clock);
            r' == r.(doc := Some(d), claims := r.claims + [Claimed(w, d.attempts, Handling, false, Unresolved)])
  {
    var r := Run(s, actions, maxAttempts);
    var d := Claim(r.doc.value, w, r.clock);
    var c := Claimed(w, d.attempts, CheckMarker, false, Unresolved);
    var claimed := r.(doc := Some(d), claims := r.claims + [c]);
    longer := Extend(s, actions, ClaimNow(w, r.clock), maxAttempts, claimed);
    longer := LastMoves(s, longer, GetMarker(|r.claims|), maxAttempts, claimed, c, Handling);
  }

  /** A claim whose handler throws. */
  lemma {:induction false} ThrownClaim(s: State, actions: seq<Action>, maxAttempts: int, w: WorkerId) returns (longer: seq<Action>)
    requires IsDue(Run(s, actions, maxAttempts))
    ensures var r, r' := Run(s, actions, maxAttempts), Run(s, longer, maxAttempts);
            var d := Claim(r.doc.value, w, r.clock);
            r' == r.(doc := Some(d), claims := r.claims + [Claimed(w, d.attempts, Caught(false), false, Unresolved)])
  {
    longer := HandledClaim(s, actions, maxAttempts, w);
    var r, mid := Run(s, actions, maxAttempts), Run(s, longer, maxAttempts);
    var c := Claimed(w, mid.doc.value.attempts, Handling, false, Unresolved);
    longer := LastMoves(s, longer, Throws(|r.claims|, false), maxAttempts, mid, c, Caught(false));
  }

  /** A claim that fails and is waited for: the attempt is spent. */
  lemma {:induction false} FailingRound(s: State, actions: seq<Action>, maxAttempts: int, w: WorkerId, delay: int)
    returns (longer: seq<Action>)
    requires var r := Run(s, actions, maxAttempts); IsDue(r) && r.doc.value.attempts + 1 < maxAttempts
    requires delay >= MIN_RETRY_DELAY_MS
    ensures var r, r' := Run(s, actions, maxAttempts), Run(s, longer, maxAttempts);
            && IsDue(r') && r'.doc.value.attempts == r.doc.value.attempts + 1
            && r'.claims == r.claims + [Claimed(w, r.doc.value.attempts + 1, Over, false, WroteFailed)]
  {
    longer := ThrownClaim(s, actions, maxAttempts, w);
    var r, mid := Run(s, actions, maxAttempts), Run(s, longer, maxAttempts);
    var i, t := |r.claims|, r.clock;
    var c := Claimed(w, r.doc.value.attempts + 1, Over, false, WroteFailed);
    var failed := mid.(doc := Some(Fail(mid.doc.value, t, delay)), claims := r.claims + [c]);
    longer := Extend(s, longer, ResolveThrow(i, t, delay), maxAttempts, failed);
    longer := Extend(s, longer, Tick(delay), maxAttempts, failed.(clock := t + delay));
  }

  lemma {:induction false} CountOneMore(cs: seq<Claimed>, c: Claimed)
    ensures Failures(cs + [c]) == Failures(cs) + if c.resolution.WroteFailed? then 1 else 0
    ensures Doubles(cs + [c]) == Doubles(cs) + if ResolvedTwice(c) then 1 else 0
  {
    assert (cs + [c])[..|cs|] == cs;
  }

  /** While its handler runs, a stopping worker releases the claim; then the handler finds the lease busy, and the catch defers. */
  lemma {:induction false} RefundedClaim(s: State, actions: seq<Action>, maxAttempts: int, w: WorkerId)
    returns (longer: seq<Action>)
    requires IsDue(Run(s, actions, maxAttempts))
    ensures var r, r' := Run(s, actions, maxAttempts), Run(s, longer, maxAttempts);
            var d := Claim(r.doc.value, w, r.clock);
            r' == r.(doc := Some(Release(d, w, r.clock)), claims := r.claims + [Claimed(w, d.attempts, Caught(true), true, Unresolved)])
  {
    longer := HandledClaim(s, actions, maxAttempts, w);
    var r, mid := Run(s, actions, maxAttempts), Run(s, longer, maxAttempts);
    var i, t := |r.claims|, r.clock;
    var c := Claimed(w, mid.doc.value.attempts, Handling, true, Unresolved);
    var released := mid.(doc := Some(Release(mid.doc.value, w, t)), claims := r.claims + [c]);
    longer := Extend(s, longer, ReleaseClaim(i, t), maxAttempts, released);
    longer := LastMoves(s, longer, Throws(i, true), maxAttempts, released, c, Caught(true));
  }

  lemma {:induction false} DoubleRound(s: State, actions: seq<Action>, maxAttempts: int, w: WorkerId, delay: int)
    returns (longer: seq<Action>)
    requires IsDue(Run(s, actions, maxAttempts)) && delay >= MIN_RETRY_DELAY_MS
    ensures var r, r' := Run(s, actions, maxAttempts), Run(s, longer, maxAttempts);
            && IsDue(r') && r'.doc.value.attempts == r.doc.value.attempts - 1
            && r'.claims == r.claims + [Claimed(w, r.doc.value.attempts + 1, Over, true, WroteDeferred)]
  {
    longer := RefundedClaim(s, actions, maxAttempts, w);
    var r, mid := Run(s, actions, maxAttempts), Run(s, longer, maxAttempts);
    var i, t := |r.claims|, r.clock;
    var c := Claimed(w, r.doc.value.attempts + 1, Over, true, WroteDeferred);
    var deferred := mid.(doc := Some(Defer(mid.doc.value, t, delay)), claims := r.claims + [c]);
    longer := Extend(s, longer, ResolveThrow(i, t, delay), maxAttempts, deferred);
    longer := Extend(s, longer, Tick(delay), maxAttempts, deferred.(clock := t + delay));
  }

  /** The k-th claim is the k-th worker's, so no worker claims again after its shutdown. */
  ghost predicate OneClaimEach(cs: seq<Claimed>) {
    forall k :: 0 <= k < |cs| ==> cs[k].worker == Worker(k)
  }

  lemma {:induction false} DoublesReached(d: nat, maxAttempts: int, delays: seq<int>) returns (actions: seq<Action>)
    requires |delays| == d && AllDelays(delays)
    ensures var r := Run(Fresh, actions, maxAttempts);
            && IsDue(r) && r.doc.value.attempts == 0 - d && |r.claims| == d && OneClaimEach(r.claims)
            && Failures(r.claims) == 0 && Doubles(r.claims) == d
  {
    if d == 0 {
      actions := [];
    } else {
      var fewer := DoublesReached(d - 1, maxAttempts, delays[..d - 1]);
      actions := DoubleRound(Fresh, fewer, maxAttempts, Worker(d - 1), delays[d - 1]);
      CountOneMore(Run(Fresh, fewer, maxAttempts).claims, Claimed(Worker(d - 1), 2 - d, Over, true, WroteDeferred));
    }
  }

  lemma {:induction false} FailuresReached(n: nat, d: nat, maxAttempts: int, delays: seq<int>) returns (actions: seq<Action>)
    requires n < maxAttempts + d && |delays| == d + n && AllDelays(delays)
    ensures var r := Run(Fresh, actions, maxAttempts);
            && IsDue(r) && r.doc.value.attempts == n - d && |r.claims| == d + n && OneClaimEach(r.claims)
            && Failures(r.claims) == n && Doubles(r.claims) == d
  {
    if n == 0 {
      actions := DoublesReached(d, maxAttempts, delays);
    } else {
      var k := d + n - 1;
      var fewer := FailuresReached(n - 1, d, maxAttempts, delays[..k]);
      actions := FailingRound(Fresh, fewer, maxAttempts, Worker(k), delays[k]);
      CountOneMore(Run(Fresh, fewer, maxAttempts).claims, Claimed(Worker(k), n - d, Over, false, WroteFailed));
    }
  }

  /**
   The bound is attained for every budget and every number of double resolutions, with any
   delays and no worker claiming twice: d claims released by a shutdown and then deferred
   let d failed marks too many through.
   */
  lemma BoundIsAttained(maxAttempts: int, d: nat, delays: seq<int>) returns (actions: seq<Action>)
    requires maxAttempts >= 1 && |delays| == maxAttempts - 1 + 2 * d && AllDelays(delays)
    ensures Init(Fresh)
    ensures var cs := Run(Fresh, actions, maxAttempts).claims;
            Failures(cs) == maxAttempts - 1 + d && Doubles(cs) == d && OneClaimEach(cs)
  {
    actions := FailuresReached(maxAttempts - 1 + d, d, maxAttempts, delays);
  }

  /** Crashes alone never spend the budget: an event whose workers all crash is reclaimed without end, each time its lock is stale. */
  lemma {:induction false} CrashesAreNeverBuried(n: nat, maxAttempts: int) returns (actions: seq<Action>)
    requires n >= 1
    ensures var r := Run(Fresh, actions, maxAttempts);
            && |r.claims| == n && r.doc.Some? && r.doc.value.status.Processing? && r.doc.value.attempts == n
            && r.doc.value.lockedAt == Some(r.clock) && r.clock == (n - 1) * STALE_MS && OneClaimEach(r.claims)
  {
    if n == 1 {
      actions := [] + [ClaimNow(Worker(0), 0)];
      RunSnoc(Fresh, [], ClaimNow(Worker(0), 0), maxAttempts);
    } else {
      var fewer := CrashesAreNeverBuried(n - 1, maxAttempts);
      var late := fewer + [Tick(STALE_MS)];
      RunSnoc(Fresh, fewer, Tick(STALE_MS), maxAttempts);
      var a := ClaimNow(Worker(n - 1), Run(Fresh, late, maxAttempts).clock);
      actions := late + [a];
      RunSnoc(Fresh, late, a, maxAttempts);
    }
  }
}
