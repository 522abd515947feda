/**
 Accept and dismiss as the service runs them, one database operation after another, with
 any other calls and the archiving job running between two operations.  `Interference`
 stands for those others: it keeps what `GuaranteeIsRespected` and `CallInvIgnoresEvents`
 prove that every one of them keeps.
 */
module SuggestionService {
  import opened Wrappers
  import opened SuggestionStore
  import opened SuggestionProtocol

  /** One operation of the running call: the documents before it, where the call stood, the documents after it. */
  datatype Op = Op(before: Db, pc: Pc, after: Db)

  /** The operations follow the step function from `start` to `pc`. */
  ghost predicate Path(id: SuggestionId, start: Pc, log: seq<Op>, pc: Pc) {
    if log == [] then pc == start
    else
      var last := log[|log| - 1];
      && Path(id, start, log[..|log| - 1], last.pc)
      && (last.after, Call(id, pc, false)) == OperateOne(last.before, Call(id, last.pc, false))
  }

  lemma FindsTheOnlyTask(db: Db, key: DedupeKey, found: Option<TaskId>)
    requires UniqueKeys(db)
    requires if found.Some? then found.value in db.tasks && db.tasks[found.value] == key
             else forall t :: t in db.tasks ==> db.tasks[t] != key
    ensures FindByKey(db, key) == found
  {
  }

  class WorkSuggestionService {
    var suggestions: map<SuggestionId, Suggestion>
    var tasks: map<TaskId, DedupeKey>
    var events: set<EventKey>
    var nextId: TaskId

    // The operations of the running call, and where it stands.
    ghost var log: seq<Op>
    ghost var pc: Pc

    ghost function Docs(): Db
      reads this
    {
      Db(suggestions, tasks, events, nextId)
    }

    ghost predicate Running(id: SuggestionId, start: Pc)
      reads this
    {
      DbInv(Docs()) && CallInv(Docs(), Call(id, pc, false)) && Path(id, start, log, pc)
    }

    method Interference(ghost id: SuggestionId, ghost start: Pc)
      requires Running(id, start)
      modifies this`suggestions, this`tasks, this`events, this`nextId
      ensures Running(id, start)
    {
      // The operations of the other calls, and of the archiving job.
    }

    ghost method Record(id: SuggestionId, start: Pc, before: Db)
      requires DbInv(before) && CallInv(before, Call(id, pc, false)) && Path(id, start, log, pc)
      requires Docs() == OperateOne(before, Call(id, pc, false)).0
      modifies this`log, this`pc
      ensures Running(id, start)
      ensures pc == OperateOne(before, Call(id, old(pc), false)).1.pc
    {
      OperationIsSound(before, Call(id, pc, false));
      var longer := log + [Op(before, pc, Docs())];
      assert longer[..|longer| - 1] == log;
      log, pc := longer, OperateOne(before, Call(id, pc, false)).1.pc;
    }

    // ----- The database operations: others run, then the operation takes effect at once -----

    method FindSuggestionById(id: SuggestionId, ghost start: Pc) returns (found: Option<Suggestion>)
      requires Running(id, start) && (pc.Load? || pc.Reload? || pc.OrphanRead? || pc.DismissLoad? || pc.DismissReload?)
      modifies this
      ensures Running(id, start)
      ensures old(pc).Load? ==>
        pc == match found
              case None => Returned(NotFound)
              case Some(Suggestion(Converted, Some(t))) => FindConverted(t)
              case Some(s) => if s.status.Proposed? then FindExisting else Returned(Conflict)
      ensures old(pc).Reload? ==> var t := old(pc).task;
        pc == match found
              case None => Returned(NotFound)
              case Some(s) => if s == Suggestion(Converted, Some(t)) then EnqueueAgain(t)
                              else if old(pc).created then OrphanRead(t) else Returned(Conflict)
      ensures old(pc).OrphanRead? ==>
        found != Some(Suggestion(Converted, Some(old(pc).task))) && pc == OrphanDelete(old(pc).task)
      ensures old(pc).DismissLoad? || old(pc).DismissReload? ==>
        pc == match found
              case None => Returned(NotFound)
              case Some(s) => if s.status.Dismissed? then DismissEnqueue
                              else if s.status.Proposed? && old(pc).DismissLoad? then DismissSwap else Returned(Conflict)
      ensures found == if id in suggestions then Some(suggestions[id]) else None
    {
      Interference(id, start);
      found := if id in suggestions then Some(suggestions[id]) else None;
      Record(id, start, Docs());
    }

    method FindTaskById(t: TaskId, ghost id: SuggestionId) returns (found: bool)
      requires Running(id, Load) && pc == FindConverted(t)
      modifies this
      ensures Running(id, Load) && found && pc == EnqueueAgain(t)
    {
      Interference(id, Load);
      found := t in tasks;
      Record(id, Load, Docs());
    }

    method FindTaskByDedupeKey(id: SuggestionId) returns (found: Option<TaskId>)
      requires Running(id, Load) && (pc.FindExisting? || pc.Refind?)
      modifies this
      ensures Running(id, Load)
      ensures pc == if found.Some? then Swap(found.value, false)
                    else if old(pc).FindExisting? then Insert else Returned(Rethrown)
    {
      Interference(id, Load);
      if t :| t in tasks && tasks[t] == AcceptKey(id) {
        found := Some(t);
      } else {
        found := None;
      }
      FindsTheOnlyTask(Docs(), AcceptKey(id), found);
      Record(id, Load, Docs());
    }

    /** None is the duplicate key error of the unique index. */
    method CreateTask(id: SuggestionId) returns (task: Option<TaskId>)
      requires Running(id, Load) && pc.Insert?
      modifies this
      ensures Running(id, Load)
      ensures pc == if task.Some? then Swap(task.value, true) else Refind
    {
      Interference(id, Load);
      ghost var before := Docs();
      if t :| t in tasks && tasks[t] == AcceptKey(id) {
        task := None;
      } else {
        task := Some(nextId);
        tasks, nextId := tasks[nextId := AcceptKey(id)], nextId + 1;
      }
      Record(id, Load, before);
    }

    method ConvertIfProposed(id: SuggestionId, t: TaskId) returns (won: bool)
      requires Running(id, Load) && pc.Swap? && pc.task == t
      modifies this
      ensures Running(id, Load)
      ensures pc == if won then EnqueueAccepted(t, old(pc).created) else Reload(t, old(pc).created)
    {
      Interference(id, Load);
      ghost var before := Docs();
      won := id in suggestions && suggestions[id].status.Proposed?;
      if won {
        suggestions := suggestions[id := Suggestion(Converted, Some(t))];
      }
      Record(id, Load, before);
    }

    method DismissIfProposed(id: SuggestionId) returns (won: bool)
      requires Running(id, DismissLoad) && pc.DismissSwap?
      modifies this
      ensures Running(id, DismissLoad)
      ensures won ==> IsDismissed(Docs(), id)
      ensures pc == if won then DismissEnqueue else DismissReload
    {
      Interference(id, DismissLoad);
      ghost var before := Docs();
      won := id in suggestions && suggestions[id].status.Proposed?;
      if won {
        suggestions := suggestions[id := suggestions[id].(status := Dismissed)];
      }
      Record(id, DismissLoad, before);
    }

    method DeleteTask(t: TaskId, id: SuggestionId)
      requires Running(id, Load) && pc == OrphanDelete(t)
      modifies this
      ensures Running(id, Load) && pc == Returned(Conflict)
      ensures t !in tasks
    {
      Interference(id, Load);
      ghost var before := Docs();
      assert Owns(Call(id, pc, false), t) && HasTask(Docs(), t, id);
      if t in tasks && tasks[t] == AcceptKey(id) {
        tasks := tasks - {t};
      }
      Record(id, Load, before);
    }

    /** False is the duplicate key error of the outbox. */
    method EnqueueEvent(key: EventKey, ghost id: SuggestionId, ghost start: Pc) returns (inserted: bool)
      requires Running(id, start) && Enqueues(pc)
      requires key == if pc.DismissEnqueue? then DismissedEvent(id)
                      else if pc.EnqueueCreated? then TaskCreatedEvent(pc.task) else AcceptedEvent(id)
      modifies this
      ensures Running(id, start) && key in events
      ensures old(pc).DismissEnqueue? ==> IsDismissed(Docs(), id)
      ensures !inserted ==> pc == Returned(DuplicateEvent)
      ensures inserted ==>
        pc == if old(pc).DismissEnqueue? then Returned(DismissDone)
              else if old(pc).EnqueueAccepted? && old(pc).created then EnqueueCreated(old(pc).task)
              else Returned(Done(old(pc).task))
    {
      Interference(id, start);
      ghost var before := Docs();
      inserted := key !in events;
      events := events + {key};
      Record(id, start, before);
    }

    // ----- The service functions -----

    /** None is the error rethrown when neither the insert nor the second lookup gives a task. */
    method CreateOrReuseAcceptTask(id: SuggestionId) returns (task: Option<(TaskId, bool)>)
      requires Running(id, Load) && pc.FindExisting?
      modifies this
      ensures Running(id, Load)
      ensures pc == match task case Some((t, created)) => Swap(t, created) case None => Returned(Rethrown)
    {
      var existing := FindTaskByDedupeKey(id);
      if existing.Some? {
        return Some((existing.value, false));
      }
      var inserted := CreateTask(id);
      if inserted.Some? {
        return Some((inserted.value, true));
      }
      var raced := FindTaskByDedupeKey(id);
      task := if raced.Some? then Some((raced.value, false)) else None;
    }

    method DiscardOrphanAcceptTask(t: TaskId, id: SuggestionId)
      requires Running(id, Load) && pc == OrphanRead(t)
      modifies this
      ensures Running(id, Load) && pc == Returned(Conflict)
      ensures t !in tasks
    {
      var linked := FindSuggestionById(id, Load);
      // The early return for a linked task is unreachable: see `OrphanIsNeverLinked`.
      assert linked != Some(Suggestion(Converted, Some(t)));
      DeleteTask(t, id);
    }

    /**
     Every accept follows the step function from `Load` to its outcome, whatever runs between
     its operations; it returns normally only when the suggestion is linked to a live task,
     and "missing its task" is not among its outcomes.
     */
    method AcceptWorkSuggestion(id: SuggestionId) returns (outcome: Outcome)
      requires DbInv(Docs())
      modifies this
      ensures DbInv(Docs()) && Path(id, Load, log, Returned(outcome))
      ensures outcome.Done? ==> Linked(Docs(), id, outcome.task) && HasTask(Docs(), outcome.task, id)
      ensures outcome.NotFound? <==> id !in suggestions
      ensures outcome.Conflict? ==> !IsProposed(Docs(), id)
      ensures !outcome.MissingTask? && !outcome.DismissDone?
    {
      log, pc := [], Load;
      outcome := AcceptLoaded(id);
      assert CallInv(Docs(), Call(id, pc, false));
    }

    method AcceptLoaded(id: SuggestionId) returns (outcome: Outcome)
      requires Running(id, Load) && pc.Load?
      modifies this
      ensures Running(id, Load) && pc == Returned(outcome)
      ensures !outcome.DismissDone?
    {
      var suggestion := FindSuggestionById(id, Load);
      if suggestion.None? {
        outcome := NotFound;
      } else if suggestion.value.status.Converted? && suggestion.value.convertedTaskId.Some? {
        outcome := AcceptAgain(id, suggestion.value.convertedTaskId.value);
      } else if suggestion.value.status.Proposed? {
        outcome := AcceptProposed(id);
      } else {
        outcome := Conflict;
      }
    }

    method AcceptAgain(id: SuggestionId, t: TaskId) returns (outcome: Outcome)
      requires Running(id, Load) && pc == FindConverted(t)
      modifies this
      ensures Running(id, Load) && pc == Returned(outcome)
      ensures !outcome.DismissDone?
    {
      var taskFound := FindTaskById(t, id);
      assert taskFound;  // so the missing-task error of the source is unreachable
      var inserted := EnqueueEvent(AcceptedEvent(id), id, Load);
      outcome := if inserted then Done(t) else DuplicateEvent;
    }

    method AcceptProposed(id: SuggestionId) returns (outcome: Outcome)
      requires Running(id, Load) && pc.FindExisting?
      modifies this
      ensures Running(id, Load) && pc == Returned(outcome)
      ensures !outcome.DismissDone?
    {
      var task := CreateOrReuseAcceptTask(id);
      if task.None? {
        return Rethrown;
      }
      var (t, created) := task.value;
      var won := ConvertIfProposed(id, t);
      if won {
        var inserted := EnqueueEvent(AcceptedEvent(id), id, Load);
        if inserted && created {
          inserted := EnqueueEvent(TaskCreatedEvent(t), id, Load);
        }
        return if inserted then Done(t) else DuplicateEvent;
      }
      outcome := AfterLostSwap(id, t, created);
    }

    method AfterLostSwap(id: SuggestionId, t: TaskId, created: bool) returns (outcome: Outcome)
      requires Running(id, Load) && pc == Reload(t, created)
      modifies this
      ensures Running(id, Load) && pc == Returned(outcome)
      ensures !outcome.DismissDone?
    {
      var raced := FindSuggestionById(id, Load);
      if raced.None? {
        return NotFound;
      }
      if raced.value == Suggestion(Converted, Some(t)) {
        var inserted := EnqueueEvent(AcceptedEvent(id), id, Load);
        return if inserted then Done(t) else DuplicateEvent;
      }
      if created {
        DiscardOrphanAcceptTask(t, id);
      }
      outcome := Conflict;
    }

    /**
     Every dismiss follows the step function from `DismissLoad` to its outcome, and the
     outcome says what the suggestion is: dismissed, with its event written, or else missing
     or taken by something other than a dismiss.
     */
    method DismissWorkSuggestion(id: SuggestionId) returns (outcome: Outcome)
      requires DbInv(Docs())
      modifies this
      ensures DbInv(Docs()) && Path(id, DismissLoad, log, Returned(outcome))
      ensures outcome.DismissDone? || outcome.DuplicateEvent? ==> IsDismissed(Docs(), id) && DismissedEvent(id) in events
      ensures outcome.NotFound? <==> id !in suggestions
      ensures outcome.Conflict? ==> !IsProposed(Docs(), id) && !IsDismissed(Docs(), id)
      ensures outcome.DismissDone? || outcome.DuplicateEvent? || outcome.NotFound? || outcome.Conflict?
    {
      log, pc := [], DismissLoad;
      outcome := DismissLoaded(id);
      assert CallInv(Docs(), Call(id, pc, false));
    }

    method DismissLoaded(id: SuggestionId) returns (outcome: Outcome)
      requires Running(id, DismissLoad) && pc.DismissLoad?
      modifies this
      ensures Running(id, DismissLoad) && pc == Returned(outcome)
      ensures outcome.DuplicateEvent? || outcome.DismissDone? ==> IsDismissed(Docs(), id) && DismissedEvent(id) in events
      ensures outcome.Conflict? ==> !IsDismissed(Docs(), id)
      ensures outcome.DismissDone? || outcome.DuplicateEvent? || outcome.NotFound? || outcome.Conflict?
    {
      var suggestion := FindSuggestionById(id, DismissLoad);
      if suggestion.None? {
        return NotFound;
      }
      if suggestion.value.status.Proposed? {
        var won := DismissIfProposed(id);
        if !won {
          suggestion := FindSuggestionById(id, DismissLoad);
          if suggestion.None? {
            return NotFound;
          }
          if !suggestion.value.status.Dismissed? {
            return Conflict;
          }
        }
      } else if !suggestion.value.status.Dismissed? {
        return Conflict;
      }
      var inserted := EnqueueEvent(DismissedEvent(id), id, DismissLoad);
      outcome := if inserted then DismissDone else DuplicateEvent;
    }
  }
}
