/** One run under a lease: the stored lease, the handle the run holds, and its heartbeat timer. */
module LeaseService {
  import opened Wrappers
  import opened TaskLease

  /** The stored lease; `clock` is the shared clock. */
  class LeaseDocument {
    var lease: Lease
    var clock: int

    method Now() returns (t: int)
      modifies this`clock
      ensures t == clock && clock >= old(clock)
    {
      var later :| later >= clock;
      clock := later;
      t := clock;
    }

    method AcquireTaskLease(worker: WorkerId, leaseMs: int) returns (acquired: bool, now: int)
      modifies this
      ensures old(clock) <= now == clock
      ensures acquired <==>
        old(lease.owner.None? || lease.owner == Some(worker) || lease.expiresAt.None?) || old(lease).expiresAt.value < now
      ensures lease == Acquire(old(lease), worker, now, leaseMs)
      ensures acquired ==> OwnsSince(lease, worker, Hold(now, leaseMs))
      ensures !acquired ==> lease == old(lease)
      ensures lease.executing == old(lease).executing && lease.cancelRequested == old(lease).cancelRequested
    {
      now := Now();
      acquired := lease.owner.None? || lease.expiresAt.None? || lease.expiresAt.value < now || lease.owner == Some(worker);
      if acquired {
        lease := lease.(owner := Some(worker), expiresAt := Some(now + leaseMs), heartbeatAt := Some(now));
      }
    }

    method HeartbeatTaskLease(worker: WorkerId, leaseMs: int) returns (renewed: bool, now: int)
      modifies this
      ensures old(clock) <= now == clock
      ensures renewed <==> old(lease.owner == Some(worker) && lease.expiresAt.Some?) && old(lease).expiresAt.value > now
      ensures lease == Heartbeat(old(lease), worker, now, leaseMs)
      ensures renewed ==> OwnsSince(lease, worker, Hold(now, leaseMs))
      ensures !renewed ==> lease == old(lease)
      ensures lease.executing == old(lease).executing && lease.cancelRequested == old(lease).cancelRequested
    {
      now := Now();
      renewed := lease.owner == Some(worker) && lease.expiresAt.Some? && lease.expiresAt.value > now;
      if renewed {
        lease := lease.(expiresAt := Some(now + leaseMs), heartbeatAt := Some(now));
      }
    }

    method ReleaseTaskLease(worker: WorkerId)
      modifies this`lease
      ensures lease == Release(old(lease), worker)
      ensures lease.owner != Some(worker)
      ensures old(lease).owner == Some(worker) ==> lease == old(lease).(owner := None, expiresAt := None)
      ensures old(lease).owner != Some(worker) ==> lease == old(lease)
    {
      if lease.owner == Some(worker) {
        lease := lease.(owner := None, expiresAt := None);
      }
    }

    /** One document of the detector's scan; the cutoff is fixed when the scan starts. */
    method RemediateStuckTask(mode: Mode, cutoff: int) returns (cleared: bool)
      modifies this`lease
      ensures lease == Remediate(old(lease), mode, cutoff)
      ensures cleared <==>
        !mode.LogOnly? && old(lease.executing && !lease.cancelRequested && lease.heartbeatAt.Some? && lease.heartbeatAt.value < cutoff)
      ensures cleared ==> lease.owner.None? && lease.expiresAt.None? && (lease.executing <==> mode.RetryTask?)
      ensures cleared ==> lease.heartbeatAt == old(lease).heartbeatAt && !lease.cancelRequested
      ensures !cleared ==> lease == old(lease)
    {
      cleared := !mode.LogOnly? && lease.executing && !lease.cancelRequested
                 && lease.heartbeatAt.Some? && lease.heartbeatAt.value < cutoff;
      if cleared {
        lease := lease.(owner := None, expiresAt := None, executing := mode.RetryTask?);
      }
    }
  }

  datatype RunEnd = Value | LeaseLost | RunThrew

  /** The expiry of the last renewal that was granted, or of the acquire. */
  ghost function LastGranted(acquired: int, answers: seq<Option<int>>): int {
    if answers == [] then acquired
    else if answers[|answers| - 1].Some? then answers[|answers| - 1].value
    else LastGranted(acquired, answers[..|answers| - 1])
  }

  /**
   A run under the lease, between its acquire and its release.  Renewals are answered later
   than they are sent, and a slow one may overlap the next.
   */
  class ExecutionLease {
    const document: LeaseDocument
    const worker: WorkerId
    const acquiredUntil: int
    var expiresAt: int
    var heartbeatLost: bool
    var aborted: bool
    ghost var answers: seq<Option<int>>  // in the order they came; None is a refusal or an error

    ghost predicate Valid()
      reads this
    {
      && (heartbeatLost <==> None in answers) && (aborted <==> None in answers)
      && expiresAt == LastGranted(acquiredUntil, answers)
    }

    constructor (document: LeaseDocument, worker: WorkerId, leaseMs: int, now: int)
      requires OwnsSince(document.lease, worker, Hold(now, leaseMs))
      ensures Valid() && answers == [] && this.document == document && this.worker == worker
      ensures document.lease.expiresAt == Some(expiresAt)
    {
      this.document, this.worker, acquiredUntil := document, worker, now + leaseMs;
      expiresAt, heartbeatLost, aborted, answers := now + leaseMs, false, false, [];
    }

    /** A tick of the timer sends a renewal unless one was refused before. */
    method SendRenewal(leaseMs: int) returns (answer: Option<Option<int>>)
      requires Valid()
      modifies document
      ensures Valid() && (answer.Some? <==> None !in answers)
      ensures answer.None? ==> document.lease == old(document.lease)
      ensures answer.Some? && answer.value.Some? ==> document.lease.expiresAt == answer.value && document.lease.owner == Some(worker)
      ensures answer.Some? && answer.value.None? ==>
        document.lease == old(document.lease) && !CanHeartbeat(document.lease, worker, document.clock)
    {
      if aborted {
        return None;
      }
      var renewed, now := document.HeartbeatTaskLease(worker, leaseMs);
      answer := Some(if renewed then Some(now + leaseMs) else None);
    }

    method RenewalAnswered(answer: Option<int>)
      requires Valid()
      modifies this`expiresAt, this`heartbeatLost, this`aborted, this`answers
      ensures Valid() && answers == old(answers) + [answer]
    {
      if answer.Some? {
        expiresAt := answer.value;
      } else {
        heartbeatLost, aborted := true, true;
      }
      answers := answers + [answer];
    }

    /** The run's value is passed on exactly when it returned and every answer so far was a grant; the lease is released either way. */
    method Finish(threw: bool) returns (end: RunEnd)
      requires Valid()
      modifies document`lease
      ensures end == if threw then RunThrew else if None in answers then LeaseLost else Value
      ensures document.lease == Release(old(document.lease), worker)
    {
      if threw {
        end := RunThrew;
      } else if heartbeatLost {
        end := LeaseLost;
      } else {
        end := Value;
      }
      document.ReleaseTaskLease(worker);
    }
  }
}
