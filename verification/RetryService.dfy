/**
 Scheduling a retry, and one pass of the scanner over all tasks, without transactions, when
 nothing else writes meanwhile.
 */
module RetryService {
  import opened Wrappers
  import opened RetryProtocol

  type TaskId = string

  datatype Task = Task(
    lifecycle: Lifecycle,
    retryCount: nat,
    maxRetries: int,
    nextRetryAt: Option<int>,
    leaseOwner: Option<string>,
    leaseExpiresAt: Option<int>)

  datatype RetryOutcome = Scheduled | Exhausted | NotRetryable

  predicate IsCandidate(t: Task, now: int) {
    && t.lifecycle.RetryScheduled? && t.nextRetryAt.Some? && t.nextRetryAt.value <= now
    && (t.leaseOwner.None? || (t.leaseExpiresAt.Some? && t.leaseExpiresAt.value < now))
  }

  /** An event of the unique dedupe key `task:retry:count`. */
  datatype RetryEvent = RetryEvent(task: TaskId, retryCount: nat)

  /** A candidate waits for its retry, is due, and no worker counts on its lease: it is the task of nobody. */
  lemma CandidatesAreFree(t: Task, now: int)
    ensures IsCandidate(t, now) <==>
      && t.lifecycle == RetryScheduled
      && (exists at :: t.nextRetryAt == Some(at) && at <= now)
      && (t.leaseOwner.Some? ==> exists until :: t.leaseExpiresAt == Some(until) && until < now)
  {
  }

  ghost predicate IsOldestCandidate(tasks: map<TaskId, Task>, id: TaskId, now: int) {
    && id in tasks && IsCandidate(tasks[id], now)
    && forall x :: x in tasks && IsCandidate(tasks[x], now) ==> tasks[id].nextRetryAt.value <= tasks[x].nextRetryAt.value
  }

  /** The tasks made ready, and the events their promotion wrote. */
  function MadeReady(tasks: map<TaskId, Task>, promoted: seq<TaskId>): map<TaskId, Task> {
    map id | id in tasks :: if id in promoted then tasks[id].(lifecycle := Ready) else tasks[id]
  }

  ghost predicate IsEventOf(tasks: map<TaskId, Task>, promoted: seq<TaskId>, e: RetryEvent) {
    e.task in promoted && e.task in tasks && tasks[e.task].retryCount == e.retryCount
  }

  /** The promoted tasks were due, had no event for their count, and are the oldest ones, in order. */
  ghost predicate AreOldestDue(before: map<TaskId, Task>, events: set<RetryEvent>, promoted: seq<TaskId>, now: int) {
    && Distinct(promoted)
    && (forall i :: 0 <= i < |promoted| ==>
          && promoted[i] in before && IsCandidate(before[promoted[i]], now)
          && RetryEvent(promoted[i], before[promoted[i]].retryCount) !in events)
    && (forall i, j :: 0 <= i < j < |promoted| ==>
          before[promoted[i]].nextRetryAt.value <= before[promoted[j]].nextRetryAt.value)
    && (forall id, i | id in before && id !in promoted && 0 <= i < |promoted| ::
          IsCandidate(before[id], now) ==> before[promoted[i]].nextRetryAt.value <= before[id].nextRetryAt.value)
  }

  /** Exactly the promoted tasks became ready, and exactly their events were written. */
  ghost predicate PromotesOldest(before: map<TaskId, Task>, events: set<RetryEvent>, after: map<TaskId, Task>,
                                 events': set<RetryEvent>, promoted: seq<TaskId>, now: int) {
    && AreOldestDue(before, events, promoted, now)
    && after == MadeReady(before, promoted)
    && (forall e :: e in events' <==> e in events || IsEventOf(before, promoted, e))
  }

  lemma ExtendPromotes(before: map<TaskId, Task>, events: set<RetryEvent>, after: map<TaskId, Task>,
                       events': set<RetryEvent>, promoted: seq<TaskId>, now: int, id: TaskId)
    requires PromotesOldest(before, events, after, events', promoted, now) && IsOldestCandidate(after, id, now)
    requires RetryEvent(id, after[id].retryCount) !in events'
    ensures PromotesOldest(before, events, after[id := after[id].(lifecycle := Ready)],
                           events' + {RetryEvent(id, after[id].retryCount)}, promoted + [id], now)
  {
    var longer := promoted + [id];
    assert id !in promoted && after[id] == before[id];
    assert forall x :: x in longer <==> x in promoted || x == id;
    forall x, i | x in before && x !in longer && 0 <= i < |longer| && IsCandidate(before[x], now)
      ensures before[longer[i]].nextRetryAt.value <= before[x].nextRetryAt.value
    {
      assert after[x] == before[x];
    }
    forall i | 0 <= i < |promoted| ensures before[promoted[i]].nextRetryAt.value <= before[id].nextRetryAt.value {
      assert IsCandidate(before[id], now);
    }
    assert after[id := after[id].(lifecycle := Ready)] == MadeReady(before, longer);
  }

  /** The protocol's view of a task with no scanner on it. */
  function ViewOf(t: Task): State {
    State(t.lifecycle, t.retryCount, t.maxRetries, false, t.lifecycle.RetryScheduled?, {}, multiset{}, multiset{}, None, [])
  }

  class RetryScheduler {
    var tasks: map<TaskId, Task>
    var events: set<RetryEvent>

    method ScheduleTaskRetry(id: TaskId, retryable: bool, nextRetryAt: int) returns (outcome: RetryOutcome)
      requires id in tasks
      modifies this`tasks
      ensures id in tasks && tasks == old(tasks)[id := tasks[id]]
      ensures var s := ScheduleRetry(ViewOf(old(tasks)[id]), retryable);
              tasks[id].lifecycle == s.lifecycle && tasks[id].retryCount == s.retryCount
      ensures tasks[id].retryCount == old(tasks)[id].retryCount + 1
      ensures tasks[id].lifecycle == if outcome.Scheduled? then RetryScheduled else Failed
      ensures outcome.Scheduled? <==> retryable && old(tasks)[id].retryCount < old(tasks)[id].maxRetries
      ensures outcome.NotRetryable? <==> !retryable
      ensures tasks[id] == old(tasks)[id].(lifecycle := tasks[id].lifecycle, retryCount := tasks[id].retryCount,
                             nextRetryAt := if outcome.Scheduled? then Some(nextRetryAt) else old(tasks)[id].nextRetryAt)
    {
      var task := tasks[id];
      var next := task.retryCount + 1;
      if !retryable || next > task.maxRetries {
        tasks := tasks[id := task.(lifecycle := Failed, retryCount := next)];
        outcome := if retryable then Exhausted else NotRetryable;
      } else {
        tasks := tasks[id := task.(lifecycle := RetryScheduled, retryCount := next, nextRetryAt := Some(nextRetryAt))];
        outcome := Scheduled;
      }
    }

    method FindCandidate(now: int) returns (found: Option<TaskId>)
      ensures found.None? ==> forall id :: id in tasks ==> !IsCandidate(tasks[id], now)
      ensures found.Some? ==> IsOldestCandidate(tasks, found.value, now)
    {
      found := None;
      var left := tasks.Keys;
      while left != {}
        invariant left <= tasks.Keys
        invariant found.None? ==> forall id :: id in tasks && IsCandidate(tasks[id], now) ==> id in left
        invariant found.Some? ==> found.value in tasks && IsCandidate(tasks[found.value], now)
        invariant found.Some? ==> forall id :: id in tasks && IsCandidate(tasks[id], now) && id !in left ==>
                                    tasks[found.value].nextRetryAt.value <= tasks[id].nextRetryAt.value
        decreases left
      {
        var id :| id in left;
        left := left - {id};
        if IsCandidate(tasks[id], now)
           && (found.None? || tasks[id].nextRetryAt.value < tasks[found.value].nextRetryAt.value) {
          found := Some(id);
        }
      }
    }

    /** Claim, enqueue, and on the duplicate key put the claim back. */
    method PromoteAndEnqueueRetry(now: int) returns (promoted: Option<TaskId>, threw: bool)
      modifies this
      ensures promoted.Some? ==> !threw && IsOldestCandidate(old(tasks), promoted.value, now)
      ensures promoted.Some? ==>
        var t := old(tasks)[promoted.value];
        && t.lifecycle.RetryScheduled? && t.nextRetryAt.Some? && t.nextRetryAt.value <= now
        && (t.leaseOwner.None? || (t.leaseExpiresAt.Some? && t.leaseExpiresAt.value < now))
      ensures promoted.Some? ==>
        var event := RetryEvent(promoted.value, old(tasks)[promoted.value].retryCount);
        && event !in old(events) && events == old(events) + {event}
        && tasks == old(tasks)[promoted.value := old(tasks)[promoted.value].(lifecycle := Ready)]
      ensures promoted.None? ==> tasks == old(tasks) && events == old(events)
      ensures threw ==> exists id :: IsOldestCandidate(tasks, id, now) && RetryEvent(id, tasks[id].retryCount) in events
      ensures promoted.None? && !threw ==>
        forall id :: id in tasks && tasks[id].lifecycle.RetryScheduled? && tasks[id].nextRetryAt.Some? && tasks[id].nextRetryAt.value <= now ==>
          tasks[id].leaseOwner.Some? && (tasks[id].leaseExpiresAt.None? || tasks[id].leaseExpiresAt.value >= now)
      ensures promoted.None? && !threw ==> forall id :: id in tasks ==> !IsCandidate(tasks[id], now)
    {
      promoted, threw := None, false;
      var found := FindCandidate(now);
      if found.None? {
        return;
      }
      var id := found.value;
      var was := tasks[id];
      tasks := tasks[id := was.(lifecycle := Ready)];
      if RetryEvent(id, was.retryCount) in events {
        tasks := tasks[id := tasks[id].(lifecycle := RetryScheduled)];
        assert tasks == old(tasks);
        return None, true;
      }
      events := events + {RetryEvent(id, was.retryCount)};
      promoted := Some(id);
    }

    /**
     Promotes the oldest due tasks, in order and each once, until the batch is full or none
     is left; it stops at the first one whose event exists already, with everything younger
     left waiting.  The total is the number of tasks promoted.
     */
    method RunRetryScannerOnce(batchSize: nat, now: int) returns (total: nat, threw: bool, ghost promoted: seq<TaskId>)
      modifies this
      ensures PromotesOldest(old(tasks), old(events), tasks, events, promoted, now)
      ensures total == |promoted| <= batchSize
      ensures threw ==> total < batchSize && exists id :: IsOldestCandidate(tasks, id, now) && RetryEvent(id, tasks[id].retryCount) in events
      ensures !threw && total < batchSize ==> forall id :: id in tasks ==> !IsCandidate(tasks[id], now)
    {
      total, threw, promoted := 0, false, [];
      assert tasks == MadeReady(tasks, []);
      while total < batchSize
        invariant PromotesOldest(old(tasks), old(events), tasks, events, promoted, now)
        invariant total == |promoted| <= batchSize && !threw
      {
        ghost var before, eventsBefore := tasks, events;
        var next, failed := PromoteAndEnqueueRetry(now);
        if failed {
          threw := true;
          return;
        }
        if next.None? {
          return;
        }
        ExtendPromotes(old(tasks), old(events), before, eventsBefore, promoted, now, next.value);
        total, promoted := total + 1, promoted + [next.value];
      }
    }
  }
}
