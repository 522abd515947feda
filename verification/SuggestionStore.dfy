/**
 The documents behind accepting and dismissing work suggestions, and what each single
 database operation does to them.  `AcceptStep` and `DismissStep` are the two service
 functions cut at every database operation: a `Pc` says which operation comes next and
 what the caller remembers.
 */
module SuggestionStore {
  import opened Wrappers

  type SuggestionId = string
  type TaskId = nat
  type DedupeKey = string

  datatype Status = Proposed | Accepted | Dismissed | Converted

  datatype Suggestion = Suggestion(status: Status, convertedTaskId: Option<TaskId>)

  datatype EventKey =
    | AcceptedEvent(suggestion: SuggestionId)
    | DismissedEvent(suggestion: SuggestionId)
    | TaskCreatedEvent(task: TaskId)

  /** Three collections.  `nextId` stands for the generator of never repeating object ids. */
  datatype Db = Db(
    suggestions: map<SuggestionId, Suggestion>,
    tasks: map<TaskId, DedupeKey>,
    events: set<EventKey>,
    nextId: TaskId)

  datatype Outcome =
    | Done(task: TaskId)      // accept returned normally
    | DismissDone             // dismiss returned normally
    | Conflict                // ConflictError
    | NotFound                // AuthorizationError NOT_FOUND
    | MissingTask             // "Converted suggestion is missing its task"
    | DuplicateEvent          // error 11000 from the outbox insert
    | Rethrown                // error 11000 from the task insert, nothing found afterwards

  datatype Pc =
    | Load
    | FindConverted(task: TaskId)
    | FindExisting
    | Insert
    | Refind
    | Swap(task: TaskId, created: bool)
    | EnqueueAccepted(task: TaskId, created: bool)
    | EnqueueCreated(task: TaskId)
    | Reload(task: TaskId, created: bool)
    | EnqueueAgain(task: TaskId)
    | OrphanRead(task: TaskId)
    | OrphanDelete(task: TaskId)
    | DismissLoad
    | DismissSwap
    | DismissReload
    | DismissEnqueue
    | Returned(outcome: Outcome)

  function AcceptKey(id: SuggestionId): DedupeKey {
    "suggestion.accept::" + id
  }

  lemma AcceptKeyIsInjective(a: SuggestionId, b: SuggestionId)
    ensures AcceptKey(a) == AcceptKey(b) ==> a == b
  {
    var n := |"suggestion.accept::"|;
    assert AcceptKey(a)[n..] == a && AcceptKey(b)[n..] == b;
  }

  ghost predicate HasTask(db: Db, t: TaskId, id: SuggestionId) {
    t in db.tasks && db.tasks[t] == AcceptKey(id)
  }

  ghost function FindByKey(db: Db, key: DedupeKey): Option<TaskId> {
    if t: TaskId :| t in db.tasks && db.tasks[t] == key then Some(t) else None
  }

  ghost predicate Linked(db: Db, id: SuggestionId, t: TaskId) {
    id in db.suggestions && db.suggestions[id] == Suggestion(Converted, Some(t))
  }

  predicate IsProposed(db: Db, id: SuggestionId) {
    id in db.suggestions && db.suggestions[id].status.Proposed?
  }

  predicate IsDismissed(db: Db, id: SuggestionId) {
    id in db.suggestions && db.suggestions[id].status.Dismissed?
  }

  function Link(db: Db, id: SuggestionId, s: Suggestion): Db {
    db.(suggestions := db.suggestions[id := s])
  }

  ghost function InsertEvent(db: Db, key: EventKey, next: Pc): (Db, Pc) {
    if key in db.events then (db, Returned(DuplicateEvent))
    else (db.(events := db.events + {key}), next)
  }

  ghost function AcceptStep(db: Db, id: SuggestionId, pc: Pc): (Db, Pc) {
    match pc
    case Load =>
      if id !in db.suggestions then (db, Returned(NotFound))
      else
        var s := db.suggestions[id];
        if s.status.Converted? && s.convertedTaskId.Some? then (db, FindConverted(s.convertedTaskId.value))
        else if !s.status.Proposed? then (db, Returned(Conflict))
        else (db, FindExisting)
    case FindConverted(t) =>
      if t in db.tasks then (db, EnqueueAgain(t)) else (db, Returned(MissingTask))
    case FindExisting =>
      (match FindByKey(db, AcceptKey(id))
       case Some(t) => (db, Swap(t, false))
       case None => (db, Insert))
    case Insert =>
      if FindByKey(db, AcceptKey(id)).Some? then (db, Refind)  // the unique index refuses
      else (db.(tasks := db.tasks[db.nextId := AcceptKey(id)], nextId := db.nextId + 1), Swap(db.nextId, true))
    case Refind =>
      (match FindByKey(db, AcceptKey(id))
       case Some(t) => (db, Swap(t, false))
       case None => (db, Returned(Rethrown)))
    case Swap(t, created) =>
      if IsProposed(db, id) then (Link(db, id, Suggestion(Converted, Some(t))), EnqueueAccepted(t, created))
      else (db, Reload(t, created))
    case EnqueueAccepted(t, created) =>
      InsertEvent(db, AcceptedEvent(id), if created then EnqueueCreated(t) else Returned(Done(t)))
    case EnqueueCreated(t) =>
      InsertEvent(db, TaskCreatedEvent(t), Returned(Done(t)))
    case Reload(t, created) =>
      if id !in db.suggestions then (db, Returned(NotFound))
      else if Linked(db, id, t) then (db, EnqueueAgain(t))
      else if created then (db, OrphanRead(t))
      else (db, Returned(Conflict))
    case EnqueueAgain(t) =>
      InsertEvent(db, AcceptedEvent(id), Returned(Done(t)))
    case OrphanRead(t) =>
      if Linked(db, id, t) then (db, Returned(Conflict)) else (db, OrphanDelete(t))
    case OrphanDelete(t) =>
      if HasTask(db, t, id) then (db.(tasks := db.tasks - {t}), Returned(Conflict))
      else (db, Returned(Conflict))
    case _ => (db, pc)
  }

  ghost function DismissStep(db: Db, id: SuggestionId, pc: Pc): (Db, Pc) {
    match pc
    case DismissLoad =>
      if id !in db.suggestions then (db, Returned(NotFound))
      else if db.suggestions[id].status.Dismissed? then (db, DismissEnqueue)
      else if !db.suggestions[id].status.Proposed? then (db, Returned(Conflict))
      else (db, DismissSwap)
    case DismissSwap =>
      if IsProposed(db, id) then
        (Link(db, id, db.suggestions[id].(status := Dismissed)), DismissEnqueue)
      else (db, DismissReload)
    case DismissReload =>
      if id !in db.suggestions then (db, Returned(NotFound))
      else if db.suggestions[id].status.Dismissed? then (db, DismissEnqueue)
      else (db, Returned(Conflict))
    case DismissEnqueue => InsertEvent(db, DismissedEvent(id), Returned(DismissDone))
    case _ => (db, pc)
  }
}
