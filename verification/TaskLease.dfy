/**
 The execution lease of one task: acquiring, renewing, releasing, and the stuck-task
 detector that clears it from outside.  Every operation is one write, made at some time not
 earlier than the timestamp it carries; all workers share one clock.
 */
module TaskLease {
  import opened Wrappers

  type WorkerId = string

  datatype Lease = Lease(
    owner: Option<WorkerId>,
    expiresAt: Option<int>,
    heartbeatAt: Option<int>,
    executing: bool,
    cancelRequested: bool)

  datatype Mode = LogOnly | FailTask | RetryTask

  function RenewalInterval(leaseMs: int): int {
    if leaseMs / 3 > 1000 then leaseMs / 3 else 1000
  }

  /** The detector's default cutoff, from the configured lease length. */
  function DefaultCutoff(leaseMs: int): int {
    2 * RenewalInterval(leaseMs)
  }

  // ----- The writes -----

  predicate CanAcquire(l: Lease, worker: WorkerId, now: int) {
    || l.owner.None?
    || l.expiresAt.None?
    || l.expiresAt.value < now
    || l.owner == Some(worker)
  }

  function Acquire(l: Lease, worker: WorkerId, now: int, leaseMs: int): Lease {
    if CanAcquire(l, worker, now) then
      l.(owner := Some(worker), expiresAt := Some(now + leaseMs), heartbeatAt := Some(now))
    else l
  }

  predicate CanHeartbeat(l: Lease, worker: WorkerId, now: int) {
    l.owner == Some(worker) && l.expiresAt.Some? && l.expiresAt.value > now
  }

  function Heartbeat(l: Lease, worker: WorkerId, now: int, leaseMs: int): Lease {
    if CanHeartbeat(l, worker, now) then l.(expiresAt := Some(now + leaseMs), heartbeatAt := Some(now)) else l
  }

  function Release(l: Lease, worker: WorkerId): Lease {
    if l.owner == Some(worker) then l.(owner := None, expiresAt := None) else l
  }

  predicate IsStuck(l: Lease, cutoff: int) {
    l.executing && !l.cancelRequested && l.heartbeatAt.Some? && l.heartbeatAt.value < cutoff
  }

  function Remediate(l: Lease, mode: Mode, cutoff: int): Lease {
    if mode.LogOnly? || !IsStuck(l, cutoff) then l
    else l.(owner := None, expiresAt := None, executing := l.executing && mode.RetryTask?)
  }

  // ----- Any number of workers and detectors -----

  /** The timestamp and length of a worker's last successful acquire or renewal. */
  datatype Hold = Hold(since: int, leaseMs: int)

  /** `held` is what each worker knows: it forgets on release, whoever releases in its name. */
  datatype State = State(lease: Lease, clock: int, held: map<WorkerId, Hold>)

  datatype Action =
    | Tick(elapsed: nat)
    | TryAcquire(worker: WorkerId, now: int, leaseMs: int)
    | TryHeartbeat(worker: WorkerId, now: int, leaseMs: int)
    | DoRelease(worker: WorkerId)
    | Detect(detectedAt: int)
    | Edit(executing: bool, cancelRequested: bool)  // the rest of the application

  /** The detector's mode and cutoff. */
  datatype Config = Config(mode: Mode, cutoffMs: int)

  function Step(s: State, a: Action, cfg: Config): State {
    match a
    case Tick(elapsed) => s.(clock := s.clock + elapsed)
    case TryAcquire(w, now, leaseMs) =>
      if now <= s.clock && CanAcquire(s.lease, w, now) then
        State(Acquire(s.lease, w, now, leaseMs), s.clock, s.held[w := Hold(now, leaseMs)])
      else s
    case TryHeartbeat(w, now, leaseMs) =>
      if now <= s.clock && CanHeartbeat(s.lease, w, now) then
        State(Heartbeat(s.lease, w, now, leaseMs), s.clock, s.held[w := Hold(now, leaseMs)])
      else s
    case DoRelease(w) => State(Release(s.lease, w), s.clock, s.held - {w})
    case Detect(at) => if at <= s.clock then s.(lease := Remediate(s.lease, cfg.mode, at - cfg.cutoffMs)) else s
    case Edit(executing, cancel) => s.(lease := s.lease.(executing := executing, cancelRequested := cancel))
  }

  function Run(s: State, actions: seq<Action>, cfg: Config): State {
    if actions == [] then s
    else Step(Run(s, actions[..|actions| - 1], cfg), actions[|actions| - 1], cfg)
  }

  /** How long an acquire or renewal of this length is safe. */
  function Window(leaseMs: int, cfg: Config): int {
    if !cfg.mode.LogOnly? && cfg.cutoffMs < leaseMs then cfg.cutoffMs else leaseMs
  }

  predicate InWindow(s: State, w: WorkerId, cfg: Config) {
    w in s.held && s.clock <= s.held[w].since + Window(s.held[w].leaseMs, cfg)
  }

  ghost predicate OwnsSince(l: Lease, w: WorkerId, h: Hold) {
    l.owner == Some(w) && l.expiresAt == Some(h.since + h.leaseMs) && l.heartbeatAt == Some(h.since)
  }

  ghost predicate Inv(s: State, cfg: Config) {
    forall w :: InWindow(s, w, cfg) ==> OwnsSince(s.lease, w, s.held[w])
  }

  lemma StepPreserves(s: State, a: Action, cfg: Config)
    requires Inv(s, cfg)
    ensures Inv(Step(s, a, cfg), cfg)
  {
    var s' := Step(s, a, cfg);
    forall w | InWindow(s', w, cfg) ensures OwnsSince(s'.lease, w, s'.held[w]) {
      if w in s.held && s'.held[w] == s.held[w] {
        assert InWindow(s, w, cfg);
      }
    }
  }

  lemma {:induction false} RunPreserves(s: State, actions: seq<Action>, cfg: Config)
    requires Inv(s, cfg)
    ensures Inv(Run(s, actions, cfg), cfg)
  {
    if actions != [] {
      RunPreserves(s, actions[..|actions| - 1], cfg);
      StepPreserves(Run(s, actions[..|actions| - 1], cfg), actions[|actions| - 1], cfg);
    }
  }

  /**
   In every run a worker that last acquired or renewed at t, and has not released, is the
   stored owner until t plus its window; so two workers are never both inside theirs, and a
   renewal timestamped before the window ends is never refused.
   */
  lemma LeaseIsExclusive(s: State, actions: seq<Action>, cfg: Config)
    requires s.held == map[]
    ensures var r := Run(s, actions, cfg);
            && (forall w :: InWindow(r, w, cfg) ==> r.lease.owner == Some(w))
            && (forall v, w :: InWindow(r, v, cfg) && InWindow(r, w, cfg) ==> v == w)
            && (forall w, now :: InWindow(r, w, cfg) && now < r.held[w].since + Window(r.held[w].leaseMs, cfg) ==>
                  CanHeartbeat(r.lease, w, now))
  {
    RunPreserves(s, actions, cfg);
  }

  // ----- What the renewal interval and the default cutoff give -----

  /** A worker that renews every interval is in time exactly when the lease is longer than a second; it may miss one beat exactly above two. */
  lemma RenewalIsInTime(leaseMs: int, mode: Mode)
    requires leaseMs >= 1000
    ensures var w := Window(leaseMs, Config(mode, DefaultCutoff(leaseMs)));
            && (RenewalInterval(leaseMs) < w <==> leaseMs > 1000)
            && (2 * RenewalInterval(leaseMs) < leaseMs <==> leaseMs > 2000)
            && (w < leaseMs <==> !mode.LogOnly? && leaseMs > 2000)
  {
  }

  /** A renewal sent exactly one interval after the last one, with nothing in between, succeeds unless the lease is one second long. */
  lemma NextBeatSucceeds(l: Lease, w: WorkerId, since: int, leaseMs: int)
    requires leaseMs >= 1000 && OwnsSince(l, w, Hold(since, leaseMs))
    ensures CanHeartbeat(l, w, since + RenewalInterval(leaseMs)) <==> leaseMs > 1000
  {
  }

  /** The worker's own record says that its lease has not expired. */
  predicate Believes(s: State, w: WorkerId) {
    w in s.held && s.clock <= s.held[w].since + s.held[w].leaseMs
  }

  predicate OfLength(a: Action, leaseMs: int) {
    (a.TryAcquire? || a.TryHeartbeat?) ==> a.leaseMs == leaseMs
  }

  ghost predicate AllOfLength(actions: seq<Action>, leaseMs: int) {
    forall a :: a in actions ==> OfLength(a, leaseMs)
  }

  ghost predicate Conflict(actions: seq<Action>, leaseMs: int, cfg: Config) {
    AllOfLength(actions, leaseMs)
    && exists v, w :: v != w && Believes(Run(Free, actions, cfg), v) && Believes(Run(Free, actions, cfg), w)
  }

  const Free := State(Lease(None, None, None, true, false), 0, map[])

  lemma {:induction false} HoldsOfLength(actions: seq<Action>, leaseMs: int, cfg: Config)
    requires AllOfLength(actions, leaseMs)
    ensures forall w :: w in Run(Free, actions, cfg).held ==> Run(Free, actions, cfg).held[w].leaseMs == leaseMs
  {
    if actions != [] {
      HoldsOfLength(actions[..|actions| - 1], leaseMs, cfg);
      assert OfLength(actions[|actions| - 1], leaseMs);
    }
  }

  lemma {:induction false} Extend(actions: seq<Action>, a: Action, cfg: Config, next: State) returns (longer: seq<Action>)
    requires Step(Run(Free, actions, cfg), a, cfg) == next
    ensures longer == actions + [a] && Run(Free, longer, cfg) == next
  {
    longer := actions + [a];
    assert longer[..|actions|] == actions;
  }

  /** The detector takes the lease from a live but silent owner, and another worker acquires it. */
  lemma DetectorOvertakes(leaseMs: int, cfg: Config) returns (actions: seq<Action>)
    requires !cfg.mode.LogOnly? && 0 <= cfg.cutoffMs < leaseMs
    ensures Conflict(actions, leaseMs, cfg)
  {
    var at := cfg.cutoffMs + 1;
    var l := Lease(Some("a"), Some(leaseMs), Some(0), true, false);
    var h := map["a" := Hold(0, leaseMs)];
    actions := Extend([], TryAcquire("a", 0, leaseMs), cfg, State(l, 0, h));
    actions := Extend(actions, Tick(at), cfg, State(l, at, h));
    var cleared := Remediate(l, cfg.mode, 1);
    actions := Extend(actions, Detect(at), cfg, State(cleared, at, h));
    var end := State(Acquire(cleared, "b", at, leaseMs), at, h["b" := Hold(at, leaseMs)]);
    actions := Extend(actions, TryAcquire("b", at, leaseMs), cfg, end);
    assert Believes(end, "a") && Believes(end, "b") && "a" != "b";
    assert AllOfLength(actions, leaseMs);
  }

  /**
   The whole lease is exclusive in every run exactly when the detector only logs or the
   lease is at most two seconds: any longer lease can be cleared while its owner still counts on it.
   */
  lemma WholeLeaseIsExclusiveExactlyWhen(leaseMs: int, mode: Mode)
    requires leaseMs >= 1000
    ensures var cfg := Config(mode, DefaultCutoff(leaseMs));
            (forall actions :: !Conflict(actions, leaseMs, cfg)) <==> mode.LogOnly? || leaseMs <= 2000
  {
    var cfg := Config(mode, DefaultCutoff(leaseMs));
    RenewalIsInTime(leaseMs, mode);
    if mode.LogOnly? || leaseMs <= 2000 {
      forall actions ensures !Conflict(actions, leaseMs, cfg) {
        if AllOfLength(actions, leaseMs) {
          WholeLease(actions, leaseMs, cfg);
        }
      }
    } else {
      var actions := DetectorOvertakes(leaseMs, cfg);
    }
  }

  lemma WholeLease(actions: seq<Action>, leaseMs: int, cfg: Config)
    requires AllOfLength(actions, leaseMs) && Window(leaseMs, cfg) == leaseMs
    ensures forall v, w :: Believes(Run(Free, actions, cfg), v) && Believes(Run(Free, actions, cfg), w) ==> v == w
  {
    HoldsOfLength(actions, leaseMs, cfg);
    LeaseIsExclusive(Free, actions, cfg);
    var r := Run(Free, actions, cfg);
    forall v | Believes(r, v) ensures InWindow(r, v, cfg) {
    }
  }

  // ----- After a remediation -----

  /** The detector finds the task stuck now. */
  predicate FindsStuck(s: State, at: int, cfg: Config) {
    at <= s.clock && IsStuck(s.lease, at - cfg.cutoffMs)
  }

  ghost predicate NoEdit(actions: seq<Action>) {
    forall k :: 0 <= k < |actions| ==> !actions[k].Edit?
  }

  /** Once failed by the detector, a task is never again found stuck until the rest of the application writes it; its cleared lease can be acquired. */
  lemma {:induction false} FailedIsNotDetectedAgain(s: State, at: int, actions: seq<Action>, cfg: Config, later: int)
    requires cfg.mode.FailTask? && FindsStuck(s, at, cfg) && NoEdit(actions)
    ensures var cleared, r := Step(s, Detect(at), cfg), Run(Step(s, Detect(at), cfg), actions, cfg);
            && cleared.lease.owner.None? && !r.lease.executing
            && !FindsStuck(r, later, cfg) && Step(r, Detect(later), cfg).lease == r.lease
  {
    if actions != [] {
      FailedIsNotDetectedAgain(s, at, actions[..|actions| - 1], cfg, later);
    }
  }

  /** Under retry it stays stuck until somebody acquires it or the application writes it: whoever crashes before scheduling the retry leaves it to the next scan. */
  lemma {:induction false} RetriedIsDetectedAgain(s: State, at: int, actions: seq<Action>, cfg: Config)
    requires cfg.mode.RetryTask? && FindsStuck(s, at, cfg) && NoEdit(actions)
    requires forall k :: 0 <= k < |actions| ==> !actions[k].TryAcquire?
    ensures var r := Run(Step(s, Detect(at), cfg), actions, cfg);
            && r.lease == s.lease.(owner := None, expiresAt := None) && FindsStuck(r, at, cfg)
  {
    if actions != [] {
      RetriedIsDetectedAgain(s, at, actions[..|actions| - 1], cfg);
    }
  }

  // ----- A run whose renewals were all granted -----

  /** A worker runs one task at a time: meanwhile it may renew, but acquires and releases nothing, and nobody releases in its name. */
  predicate OnlyRenews(a: Action, w: WorkerId) {
    !(a.TryAcquire? && a.worker == w) && !(a.DoRelease? && a.worker == w)
  }

  ghost predicate AllRenew(actions: seq<Action>, w: WorkerId) {
    forall a :: a in actions ==> OnlyRenews(a, w)
  }

  ghost predicate OtherOwns(s: State, w: WorkerId) {
    s.lease.owner.Some? && s.lease.owner != Some(w)
  }

  /** Another worker owned the lease at some point of the run. */
  ghost predicate WasInterrupted(s: State, actions: seq<Action>, w: WorkerId, cfg: Config) {
    exists k :: 0 <= k <= |actions| && OtherOwns(Run(s, actions[..k], cfg), w)
  }

  /** A lost lease is not won back by renewing, so its owner at the end owned it throughout. */
  lemma {:induction false} OwnerAtTheEnd(s: State, actions: seq<Action>, w: WorkerId, cfg: Config, k: nat)
    requires AllRenew(actions, w) && k <= |actions| && Run(s, actions, cfg).lease.owner == Some(w)
    ensures Run(s, actions[..k], cfg).lease.owner == Some(w)
  {
    if k < |actions| {
      var init, a := actions[..|actions| - 1], actions[|actions| - 1];
      assert OnlyRenews(a, w);
      assert init[..k] == actions[..k];
      OwnerAtTheEnd(s, init, w, cfg, k);
    } else {
      assert actions[..k] == actions;
    }
  }

  /** A granted renewal proves that the worker owned the lease ever since it acquired it. */
  lemma {:induction false} GrantProvesOwnership(s: State, actions: seq<Action>, w: WorkerId, now: int, leaseMs: int, cfg: Config)
    requires AllRenew(actions, w) && CanHeartbeat(Run(s, actions, cfg).lease, w, now)
    ensures !WasInterrupted(s, actions, w, cfg)
  {
    forall k | 0 <= k <= |actions| ensures !OtherOwns(Run(s, actions[..k], cfg), w) {
      OwnerAtTheEnd(s, actions, w, cfg, k);
    }
  }

  /** The run ends at this time, with this hold as the worker's last acquire or renewal. */
  ghost predicate EndsWith(s: State, actions: seq<Action>, w: WorkerId, h: Hold, clock: int, cfg: Config) {
    && AllRenew(actions, w) && Run(s, actions, cfg).clock == clock
    && w in Run(s, actions, cfg).held && Run(s, actions, cfg).held[w] == h
  }

  lemma {:induction false} HeldOnAtFinish(s: State, actions: seq<Action>, w: WorkerId, h: Hold, clock: int, cfg: Config)
    requires Inv(s, cfg) && EndsWith(s, actions, w, h, clock, cfg) && clock <= h.since + Window(h.leaseMs, cfg)
    ensures !WasInterrupted(s, actions, w, cfg)
  {
    RunPreserves(s, actions, cfg);
    assert InWindow(Run(s, actions, cfg), w, cfg);
    forall k | 0 <= k <= |actions| ensures !OtherOwns(Run(s, actions[..k], cfg), w) {
      OwnerAtTheEnd(s, actions, w, cfg, k);
    }
  }

  lemma {:induction false} Append(s: State, actions: seq<Action>, a: Action, cfg: Config)
    ensures Run(s, actions + [a], cfg) == Step(Run(s, actions, cfg), a, cfg)
  {
    assert (actions + [a])[..|actions|] == actions;
  }

  /** Once the window is over another worker takes the lease, by expiry or after the detector has cleared it. */
  lemma {:induction false} TakenAfterTheWindow(s: State, w: WorkerId, v: WorkerId, clock: int, cfg: Config) returns (actions: seq<Action>)
    requires w in s.held && OwnsSince(s.lease, w, s.held[w]) && v != w && s.clock <= clock
    requires clock > s.held[w].since + Window(s.held[w].leaseMs, cfg)
    ensures EndsWith(s, actions, w, s.held[w], clock, cfg) && WasInterrupted(s, actions, w, cfg)
  {
    var first := [] + [Tick(clock - s.clock)];
    Append(s, [], Tick(clock - s.clock), cfg);
    var second := first + [Edit(true, false)];
    Append(s, first, Edit(true, false), cfg);
    var third := second + [Detect(clock)];
    Append(s, second, Detect(clock), cfg);
    actions := third + [TryAcquire(v, clock, s.held[w].leaseMs)];
    Append(s, third, TryAcquire(v, clock, s.held[w].leaseMs), cfg);
    assert actions[..|actions|] == actions && OtherOwns(Run(s, actions[..|actions|], cfg), w);
  }

  lemma {:induction false} RunAppend(s: State, first: seq<Action>, rest: seq<Action>, cfg: Config)
    ensures Run(s, first + rest, cfg) == Run(Run(s, first, cfg), rest, cfg)
  {
    if rest == [] {
      assert first + rest == first;
    } else {
      RunAppend(s, first, rest[..|rest| - 1], cfg);
      assert (first + rest)[..|first + rest| - 1] == first + rest[..|rest| - 1];
    }
  }

  lemma {:induction false} InterruptedLater(s: State, first: seq<Action>, rest: seq<Action>, w: WorkerId, cfg: Config)
    requires WasInterrupted(Run(s, first, cfg), rest, w, cfg)
    ensures WasInterrupted(s, first + rest, w, cfg)
  {
    var k :| 0 <= k <= |rest| && OtherOwns(Run(Run(s, first, cfg), rest[..k], cfg), w);
    RunAppend(s, first, rest[..k], cfg);
    assert (first + rest)[..|first| + k] == first + rest[..k];
  }

  /**
   What a returned value says.  The run lost no renewal; `granted` is everything from its
   acquire to its last granted one.  However the rest went, no other worker owned the
   lease at any time since the acquire, exactly when the run returns within the window of
   that last grant.  The code does not compare the times.
   */
  lemma {:induction false} ReturnedValueIsExclusiveExactlyWhen(s: State, granted: seq<Action>, w: WorkerId, clock: int, cfg: Config)
    requires Inv(s, cfg) && AllRenew(granted, w)
    requires var r := Run(s, granted, cfg); w in r.held && OwnsSince(r.lease, w, r.held[w]) && r.clock <= clock
    ensures var h := Run(s, granted, cfg).held[w];
            (forall rest :: EndsWith(s, granted + rest, w, h, clock, cfg) ==> !WasInterrupted(s, granted + rest, w, cfg))
            <==> clock <= h.since + Window(h.leaseMs, cfg)
  {
    var r := Run(s, granted, cfg);
    var h := r.held[w];
    if clock <= h.since + Window(h.leaseMs, cfg) {
      forall rest | EndsWith(s, granted + rest, w, h, clock, cfg) ensures !WasInterrupted(s, granted + rest, w, cfg) {
        HeldOnAtFinish(s, granted + rest, w, h, clock, cfg);
      }
    } else {
      var rest := TakenAfterTheWindow(r, w, w + "'", clock, cfg);
      RunAppend(s, granted, rest, cfg);
      InterruptedLater(s, granted, rest, w, cfg);
      assert EndsWith(s, granted + rest, w, h, clock, cfg);
    }
  }
}
