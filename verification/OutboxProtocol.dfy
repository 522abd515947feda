/**
 One outbox event and every claim ever made on it, by any number of workers: claims of an
 expired lock, late writes by stale workers, lost acknowledgements, shutdown releases,
 archiving.  A crash is a claim that never moves again.
 */
module OutboxProtocol {
  import opened Wrappers
  import opened OutboxDocuments

  datatype Pc =
    | CheckMarker
    | Handling
    | SetMarker
    | Completing
    | Returning         // the completion is written, its acknowledgement is not in yet
    | Caught(busy: bool)  // in the run loop's catch; busy is the lease-busy error
    | Over

  datatype Resolution = Unresolved | WroteFailed | WroteDeferred | WroteDeadLetter

  /** `recorded` is the attempt count the claim returned to its worker. */
  datatype Claimed = Claimed(worker: WorkerId, recorded: int, pc: Pc, released: bool, resolution: Resolution)

  /**
   `doc` is None once archived; `marker` is the processed marker of the dedupe key, which
   the store drops when its seven days are over and may lose earlier;
   `handled` says that a handler for that key has returned normally.  All workers share
   the clock; an operation carries times taken not after its write.
   */
  datatype State = State(doc: Option<Doc>, claims: seq<Claimed>, marker: bool, handled: bool, clock: int)

  /** No retry delay of the run loop is shorter. */
  const MIN_RETRY_DELAY_MS := 250

  datatype Action =
    | Tick(elapsed: nat)
    | ClaimEvent(worker: WorkerId, now: int, cutoff: int, lockedAt: int)
    | GetMarker(claim: nat)
    | HandlerReturns(claim: nat)
    | Throws(claim: nat, busy: bool)
    | PutMarker(claim: nat, written: bool)
    | WriteCompleted(claim: nat, now: int)
    | Acknowledged(claim: nat)
    | ResolveThrow(claim: nat, now: int, delay: int)
    | ReleaseClaim(claim: nat, now: int)
    | ExpireMarker
    | Archive(cutoff: int)

  function Catch(c: Claimed, maxAttempts: int): Resolution
    requires c.pc.Caught?
  {
    if c.pc.busy then WroteDeferred else if c.recorded >= maxAttempts then WroteDeadLetter else WroteFailed
  }

  function CatchWrite(d: Doc, r: Resolution, now: int, delay: int): Doc {
    match r
    case Unresolved => d
    case WroteFailed => Fail(d, now, delay)
    case WroteDeferred => Defer(d, now, delay)
    case WroteDeadLetter => Bury(d, now)
  }

  function SetPc(s: State, i: nat, pc: Pc): State
    requires i < |s.claims|
  {
    s.(claims := s.claims[i := s.claims[i].(pc := pc)])
  }

  predicate Enabled(s: State, a: Action) {
    match a
    case Tick(_) => true
    case ClaimEvent(_, now, cutoff, lockedAt) =>
      now <= cutoff + STALE_MS <= lockedAt <= s.clock && s.doc.Some? && Claimable(s.doc.value, now, cutoff)
    case GetMarker(i) => i < |s.claims| && s.claims[i].pc.CheckMarker?
    case HandlerReturns(i) => i < |s.claims| && s.claims[i].pc.Handling?
    case Throws(i, busy) =>
      i < |s.claims| && (s.claims[i].pc.Handling?
                         || (!busy && (s.claims[i].pc.CheckMarker? || s.claims[i].pc.Completing? || s.claims[i].pc.Returning?)))
    case PutMarker(i, _) => i < |s.claims| && s.claims[i].pc.SetMarker?
    case WriteCompleted(i, now) => now <= s.clock && i < |s.claims| && s.claims[i].pc.Completing?
    case Acknowledged(i) => i < |s.claims| && s.claims[i].pc.Returning?
    case ResolveThrow(i, now, delay) =>
      now <= s.clock && delay >= MIN_RETRY_DELAY_MS && i < |s.claims| && s.claims[i].pc.Caught?
    case ReleaseClaim(i, now) =>
      now <= s.clock && i < |s.claims| && !s.claims[i].released && s.doc.Some? && Holds(s.doc.value, s.claims[i].worker)
    case ExpireMarker => true
    case Archive(cutoff) => cutoff <= s.clock && s.doc.Some? && Archivable(s.doc.value, cutoff)
  }

  function Take(s: State, a: Action, maxAttempts: int): State
    requires Enabled(s, a)
  {
    match a
    case Tick(elapsed) => s.(clock := s.clock + elapsed)
    case ClaimEvent(worker, _, _, lockedAt) =>
      var d := Claim(s.doc.value, worker, lockedAt);
      s.(doc := Some(d), claims := s.claims + [Claimed(worker, d.attempts, CheckMarker, false, Unresolved)])
    case GetMarker(i) => SetPc(s, i, if s.marker then Completing else Handling)
    case HandlerReturns(i) => SetPc(s, i, SetMarker).(handled := true)
    case Throws(i, busy) => SetPc(s, i, Caught(busy))
    case PutMarker(i, written) => SetPc(s, i, Completing).(marker := s.marker || written)
    case WriteCompleted(i, now) =>
      SetPc(s, i, Returning).(doc := if s.doc.Some? then Some(Complete(s.doc.value, now)) else None)
    case Acknowledged(i) => SetPc(s, i, Over)
    case ResolveThrow(i, now, delay) =>
      var r := if s.doc.Some? then Catch(s.claims[i], maxAttempts) else Unresolved;
      s.(doc := if s.doc.Some? then Some(CatchWrite(s.doc.value, r, now, delay)) else None,
         claims := s.claims[i := s.claims[i].(pc := Over, resolution := r)])
    case ReleaseClaim(i, now) =>
      s.(doc := Some(Release(s.doc.value, s.claims[i].worker, now)), claims := s.claims[i := s.claims[i].(released := true)])
    case ExpireMarker => s.(marker := false)
    case Archive(_) => s.(doc := None)
  }

  function Step(s: State, a: Action, maxAttempts: int): State {
    if Enabled(s, a) then Take(s, a, maxAttempts) else s
  }

  function Run(s: State, actions: seq<Action>, maxAttempts: int): State {
    if actions == [] then s
    else Step(Run(s, actions[..|actions| - 1], maxAttempts), actions[|actions| - 1], maxAttempts)
  }

  /** A freshly enqueued event; a marker left from an earlier event of the same key is fine. */
  predicate Init(s: State) {
    && s.doc.Some? && s.doc.value.status.Pending? && s.doc.value.attempts == 0
    && LockMatchesStatus(s.doc.value) && s.claims == [] && (s.marker ==> s.handled)
  }

  // ----- Attempts -----

  function Refunds(c: Claimed): nat {
    (if c.released then 1 else 0) + (if c.resolution.WroteDeferred? then 1 else 0)
  }

  function TotalRefunds(cs: seq<Claimed>): nat {
    if cs == [] then 0 else TotalRefunds(cs[..|cs| - 1]) + Refunds(cs[|cs| - 1])
  }

  lemma {:induction false} UpdatedRefunds(cs: seq<Claimed>, i: nat, c: Claimed)
    requires i < |cs|
    ensures TotalRefunds(cs[i := c]) == TotalRefunds(cs) - Refunds(cs[i]) + Refunds(c)
  {
    var n := |cs| - 1;
    if i == n {
      assert cs[i := c][..n] == cs[..n];
    } else {
      UpdatedRefunds(cs[..n], i, c);
      assert cs[i := c][..n] == cs[..n][i := c];
    }
  }

  /** The key invariant: a claim recorded at least one attempt for each claim up to it that was not refunded. */
  ghost predicate Recorded(cs: seq<Claimed>) {
    forall j :: 0 <= j < |cs| ==> cs[j].recorded >= j + 1 - TotalRefunds(cs[..j])
  }

  ghost predicate ResolvedByCount(cs: seq<Claimed>, maxAttempts: int) {
    forall c :: c in cs ==>
      && (c.resolution.WroteFailed? ==> c.recorded < maxAttempts)
      && (c.resolution.WroteDeadLetter? ==> c.recorded >= maxAttempts)
      && (!c.resolution.Unresolved? ==> c.pc.Over?)
  }

  ghost predicate Inv(s: State, maxAttempts: int) {
    && (s.doc.Some? ==> s.doc.value.attempts == |s.claims| - TotalRefunds(s.claims))
    && Recorded(s.claims)
    && ResolvedByCount(s.claims, maxAttempts)
  }

  /** Changing one claim without taking refunds back keeps what every claim recorded. */
  lemma {:induction false} RecordedSurvives(cs: seq<Claimed>, i: nat, c: Claimed)
    requires i < |cs| && Recorded(cs) && c.recorded == cs[i].recorded && Refunds(c) >= Refunds(cs[i])
    ensures Recorded(cs[i := c])
  {
    var changed := cs[i := c];
    forall j | 0 <= j < |changed| ensures changed[j].recorded >= j + 1 - TotalRefunds(changed[..j]) {
      if i < j {
        UpdatedRefunds(cs[..j], i, c);
        assert changed[..j] == cs[..j][i := c];
      } else {
        assert changed[..j] == cs[..j];
      }
    }
  }

  lemma {:induction false} ClaimKeepsInv(s: State, a: Action, maxAttempts: int)
    requires Inv(s, maxAttempts) && a.ClaimEvent? && Enabled(s, a)
    ensures Inv(Step(s, a, maxAttempts), maxAttempts)
  {
    var s' := Step(s, a, maxAttempts);
    assert s'.claims[..|s.claims|] == s.claims;
    forall j | 0 <= j < |s'.claims| ensures s'.claims[j].recorded >= j + 1 - TotalRefunds(s'.claims[..j]) {
      assert j < |s.claims| ==> s'.claims[..j] == s.claims[..j];
    }
  }

  predicate MovesClaim(a: Action) {
    a.GetMarker? || a.HandlerReturns? || a.Throws? || a.PutMarker? || a.WriteCompleted? || a.Acknowledged?
    || a.ResolveThrow? || a.ReleaseClaim?
  }

  /** A move of one claim takes no refund back, and the document counts the refunds it adds. */
  lemma MoveRefunds(s: State, a: Action, maxAttempts: int)
    requires MovesClaim(a) && Enabled(s, a) && (forall c :: c in s.claims && !c.resolution.Unresolved? ==> c.pc.Over?)
    ensures a.claim < |s.claims|
    ensures var s' := Step(s, a, maxAttempts);
            var c, c' := s.claims[a.claim], s'.claims[a.claim];
            && s'.claims == s.claims[a.claim := c'] && c'.recorded == c.recorded && Refunds(c') >= Refunds(c)
            && (s'.doc.Some? ==> s.doc.Some? && s'.doc.value.attempts == s.doc.value.attempts - (Refunds(c') - Refunds(c)))
  {
    assert s.claims[a.claim] in s.claims;
  }

  lemma MoveResolves(s: State, a: Action, maxAttempts: int)
    requires MovesClaim(a) && Enabled(s, a) && ResolvedByCount(s.claims, maxAttempts)
    ensures ResolvedByCount(Step(s, a, maxAttempts).claims, maxAttempts)
  {
    var i, s' := a.claim, Step(s, a, maxAttempts);
    assert s.claims[i] in s.claims;
    forall x | x in s'.claims ensures x == s'.claims[i] || x in s.claims {
    }
  }

  lemma {:induction false} UpdateKeepsInv(s: State, a: Action, maxAttempts: int)
    requires Inv(s, maxAttempts) && Enabled(s, a) && MovesClaim(a)
    ensures Inv(Step(s, a, maxAttempts), maxAttempts)
  {
    MoveRefunds(s, a, maxAttempts);
    MoveResolves(s, a, maxAttempts);
    var c := Step(s, a, maxAttempts).claims[a.claim];
    UpdatedRefunds(s.claims, a.claim, c);
    RecordedSurvives(s.claims, a.claim, c);
  }

  lemma StepKeepsInv(s: State, a: Action, maxAttempts: int)
    requires Inv(s, maxAttempts)
    ensures Inv(Step(s, a, maxAttempts), maxAttempts)
  {
    if Enabled(s, a) {
      if a.ClaimEvent? {
        ClaimKeepsInv(s, a, maxAttempts);
      } else if !a.Tick? && !a.ExpireMarker? && !a.Archive? {
        UpdateKeepsInv(s, a, maxAttempts);
      }
    }
  }

  lemma {:induction false} RunKeepsInv(s: State, actions: seq<Action>, maxAttempts: int)
    requires Init(s)
    ensures Inv(Run(s, actions, maxAttempts), maxAttempts)
  {
    if actions != [] {
      RunKeepsInv(s, actions[..|actions| - 1], maxAttempts);
      StepKeepsInv(Run(s, actions[..|actions| - 1], maxAttempts), actions[|actions| - 1], maxAttempts);
    }
  }

  function Failures(cs: seq<Claimed>): nat {
    if cs == [] then 0
    else Failures(cs[..|cs| - 1]) + if cs[|cs| - 1].resolution.WroteFailed? then 1 else 0
  }

  /** Released by a shutdown and still resolved afterwards by the run loop's catch. */
  predicate ResolvedTwice(c: Claimed) {
    c.released && (c.resolution.WroteFailed? || c.resolution.WroteDeferred?)
  }

  function Doubles(cs: seq<Claimed>): nat {
    if cs == [] then 0
    else Doubles(cs[..|cs| - 1]) + if ResolvedTwice(cs[|cs| - 1]) then 1 else 0
  }

  lemma {:induction false} ClaimAccounting(cs: seq<Claimed>)
    ensures Failures(cs) + TotalRefunds(cs) <= |cs| + Doubles(cs)
  {
    if cs != [] {
      ClaimAccounting(cs[..|cs| - 1]);
    }
  }

  lemma {:induction false} FailureBound(cs: seq<Claimed>, maxAttempts: int)
    requires maxAttempts >= 1 && Recorded(cs) && ResolvedByCount(cs, maxAttempts)
    ensures Failures(cs) <= maxAttempts - 1 + Doubles(cs)
  {
    if cs != [] {
      var init, last := cs[..|cs| - 1], cs[|cs| - 1];
      if last.resolution.WroteFailed? && !last.released {
        ClaimAccounting(init);
        assert last.recorded >= |init| + 1 - TotalRefunds(init);
      } else {
        assert forall j :: 0 <= j < |init| ==> init[..j] == cs[..j];
        FailureBound(init, maxAttempts);
      }
    }
  }

  /**
   An event is marked failed at most `maxAttempts - 1` times, plus once for each claim that a
   shutdown released and the run loop then resolved as well.  Deferrals and releases cost nothing.
   */
  lemma FailuresAreBounded(s: State, actions: seq<Action>, maxAttempts: int)
    requires Init(s) && maxAttempts >= 1
    ensures var cs := Run(s, actions, maxAttempts).claims;
            Failures(cs) <= maxAttempts - 1 + Doubles(cs)
  {
    RunKeepsInv(s, actions, maxAttempts);
    FailureBound(Run(s, actions, maxAttempts).claims, maxAttempts);
  }
}
