/** One outbox event as stored, the filters that select it and the single writes that change it. */
module OutboxDocuments {
  import opened Wrappers

  type WorkerId = string

  datatype Status = Pending | Processing | Completed | Failed | DeadLetter

  /** Times are in milliseconds; `hash` is the database's hashed index key of the id, a signed integer. */
  datatype Doc = Doc(
    status: Status,
    attempts: int,
    availableAt: int,
    lockedBy: Option<WorkerId>,
    lockedAt: Option<int>,
    processedAt: Option<int>,
    deadLetteredAt: Option<int>,
    createdAt: int,
    updatedAt: int,
    hash: int)

  const STALE_MS := 5 * 60 * 1000

  // ----- Partitions -----

  datatype Partition = Partition(count: int, id: int)

  /** Remainder that takes the sign of the dividend, as in JavaScript and in the database. */
  function TruncMod(a: int, b: int): int
    requires b > 0
  {
    if a >= 0 then a % b else -((-a) % b)
  }

  function PartitionConfig(rawCount: Num, rawId: Num): (p: Partition)
    ensures p.count >= 1 && 0 <= p.id < p.count
  {
    var count := if rawCount.Finite? && rawCount.value > 1.0 then rawCount.value.Floor else 1;
    var unclamped := if rawId.Finite? then rawId.value.Floor else 0;
    Partition(count, TruncMod(TruncMod(unclamped, count) + count, count))
  }

  predicate InPartition(hash: int, p: Partition) {
    p.count <= 1 || TruncMod(hash, p.count) == p.id
  }

  /** Any finite number names the partition it is congruent to, so n consecutive ids cover all n partitions. */
  lemma PartitionIdIsCongruent(count: real, id: real)
    requires count > 1.0
    ensures PartitionConfig(Finite(count), Finite(id)) == Partition(count.Floor, id.Floor % count.Floor)
  {
    WrappedMod(id.Floor, count.Floor);
  }

  lemma WrappedMod(a: int, n: int)
    requires n > 0
    ensures TruncMod(TruncMod(a, n) + n, n) == a % n
  {
    if a < 0 {
      NegativeMod(a, n);
    } else {
      ModIs(a % n + n, n, 1, a % n);
    }
  }

  lemma NegativeMod(a: int, n: int)
    requires n > 0 && a < 0
    ensures (TruncMod(a, n) + n) % n == a % n
  {
    var q, r := (-a) / n, (-a) % n;
    assert -a == q * n + r;
    if r == 0 {
      ModIs(n, n, 1, 0);
      ModIs(a, n, -q, 0);
    } else {
      ModIs(a, n, -q - 1, n - r);
    }
  }

  lemma SmallMultiple(k: int, n: int)
    requires -n < k * n < n
    ensures k == 0
  {
  }

  lemma ModIs(a: int, n: int, q: int, r: int)
    requires 0 <= r < n && a == q * n + r
    ensures a % n == r
  {
    var k := a / n - q;
    assert k * n == (a / n) * n - q * n;
    SmallMultiple(k, n);
  }

  /** No two partitions share an event. */
  lemma PartitionsAreDisjoint(hash: int, n: int, i: int, j: int)
    requires n > 1 && InPartition(hash, Partition(n, i)) && InPartition(hash, Partition(n, j))
    ensures i == j
  {
  }

  lemma HashIsMultiple(hash: int, n: int)
    requires n > 1 && hash < 0
    ensures hash % n == 0 <==> TruncMod(hash, n) == 0
  {
    NegativeMod(hash, n);
    if TruncMod(hash, n) == 0 {
      ModIs(n, n, 1, 0);
    }
  }

  ghost predicate Covered(hash: int, n: int) {
    exists i :: 0 <= i < n && InPartition(hash, Partition(n, i))
  }

  /** An event has a partition exactly when its hash is non-negative or a multiple of the count. */
  lemma CoveredUnlessNegative(hash: int, n: int)
    requires n > 1
    ensures Covered(hash, n) <==> hash >= 0 || hash % n == 0
  {
    if hash >= 0 {
      assert InPartition(hash, Partition(n, hash % n));
    } else {
      HashIsMultiple(hash, n);
      if hash % n == 0 {
        assert InPartition(hash, Partition(n, 0));
      }
    }
  }

  // ----- Filters -----

  predicate Claimable(d: Doc, now: int, cutoff: int) {
    || ((d.status.Pending? || d.status.Failed?) && d.availableAt <= now)
    || (d.status.Processing? && d.lockedAt.Some? && d.lockedAt.value <= cutoff)
  }

  predicate Terminal(d: Doc) {
    d.status.Completed? || d.status.DeadLetter?
  }

  predicate Archivable(d: Doc, cutoff: int) {
    && Terminal(d)
    && (|| (d.processedAt.Some? && d.processedAt.value <= cutoff)
        || (d.deadLetteredAt.Some? && d.deadLetteredAt.value <= cutoff)
        || (d.processedAt.None? && d.deadLetteredAt.None? && d.updatedAt <= cutoff))
  }

  // ----- Writes -----

  /** Enqueued events start here. */
  function NewDoc(now: int, hash: int): Doc {
    Doc(Pending, 0, now, None, None, None, None, now, now, hash)
  }

  function Claim(d: Doc, worker: WorkerId, now: int): Doc {
    d.(status := Processing, lockedBy := Some(worker), lockedAt := Some(now), attempts := d.attempts + 1, updatedAt := now)
  }

  function Complete(d: Doc, now: int): Doc {
    d.(status := Completed, processedAt := Some(now), deadLetteredAt := None, lockedBy := None, lockedAt := None, updatedAt := now)
  }

  function Fail(d: Doc, now: int, delay: int): Doc {
    d.(status := Failed, availableAt := now + delay, deadLetteredAt := None, lockedBy := None, lockedAt := None, updatedAt := now)
  }

  function Defer(d: Doc, now: int, delay: int): Doc {
    Fail(d, now, delay).(attempts := d.attempts - 1)
  }

  predicate Holds(d: Doc, worker: WorkerId) {
    d.status.Processing? && d.lockedBy == Some(worker)
  }

  function Release(d: Doc, worker: WorkerId, now: int): Doc {
    if Holds(d, worker) then Fail(d, now, 0).(attempts := d.attempts - 1) else d
  }

  function Bury(d: Doc, now: int): Doc {
    d.(status := DeadLetter, deadLetteredAt := Some(now), lockedBy := None, lockedAt := None, updatedAt := now)
  }

  // ----- What the filters and the writes are together -----

  /** Locks are set exactly while processing. */
  predicate LockMatchesStatus(d: Doc) {
    (d.status.Processing? <==> d.lockedAt.Some?) && (d.status.Processing? <==> d.lockedBy.Some?)
  }

  function ClaimableFrom(d: Doc): int {
    if d.status.Processing? && d.lockedAt.Some? then d.lockedAt.value + STALE_MS else d.availableAt
  }

  /** An event that is neither completed nor dead-lettered can be claimed from a known time on, and not before. */
  lemma UnfinishedIsClaimable(d: Doc, now: int)
    requires LockMatchesStatus(d)
    ensures Claimable(d, now, now - STALE_MS) <==> !Terminal(d) && now >= ClaimableFrom(d)
  {
  }

  /** A failed or deferred event waits for its delay, a released one is free at once, a claimed one until its lock is stale, and an ended one is never claimed. */
  lemma WritesSetTheNextClaim(d: Doc, worker: WorkerId, now: int, delay: int, t: int, cutoff: int)
    ensures Claimable(Fail(d, now, delay), t, cutoff) <==> t >= now + delay
    ensures Claimable(Defer(d, now, delay), t, cutoff) <==> t >= now + delay
    ensures Holds(d, worker) ==> (Claimable(Release(d, worker, now), t, cutoff) <==> t >= now)
    ensures Claimable(Claim(d, worker, now), t, cutoff) <==> cutoff >= now
    ensures !Claimable(Complete(d, now), t, cutoff) && !Claimable(Bury(d, now), t, cutoff)
  {
  }

  /** A completed event is archived from the end of its retention time on, and not before. */
  lemma CompletedIsKept(d: Doc, now: int, cutoff: int)
    ensures Archivable(Complete(d, now), cutoff) <==> now <= cutoff
  {
  }

  /** A dead-lettered one too, or earlier exactly when an old completion time was left on it. */
  lemma BuriedIsKeptUnlessCompletedBefore(d: Doc, now: int, cutoff: int)
    ensures Archivable(Bury(d, now), cutoff) <==> now <= cutoff || (d.processedAt.Some? && d.processedAt.value <= cutoff)
  {
  }

  /** An ended event without either time goes by its last update. */
  lemma UntimedGoesByUpdate(d: Doc, cutoff: int)
    requires Terminal(d) && d.processedAt.None? && d.deadLetteredAt.None?
    ensures Archivable(d, cutoff) <==> d.updatedAt <= cutoff
  {
  }

  /** Nothing else is ever archived, however old. */
  lemma UnfinishedIsNotArchived(d: Doc, worker: WorkerId, now: int, delay: int, cutoff: int)
    ensures !Archivable(NewDoc(now, d.hash), cutoff) && !Archivable(Claim(d, worker, now), cutoff)
    ensures !Archivable(Fail(d, now, delay), cutoff) && !Archivable(Defer(d, now, delay), cutoff)
    ensures Archivable(d, cutoff) ==> d.status.Completed? || d.status.DeadLetter?
  {
  }

  /** Without a count above one there is one partition, and it takes every event. */
  lemma SinglePartition(count: Num, id: Num, hash: int)
    requires !count.Finite? || count.value <= 1.0
    ensures PartitionConfig(count, id) == Partition(1, 0) && InPartition(hash, PartitionConfig(count, id))
  {
  }
}
