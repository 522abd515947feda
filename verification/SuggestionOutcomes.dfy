/** What a call does to the documents when nothing runs meanwhile, told without its steps. */
module SuggestionOutcomes {
  import opened Wrappers
  import opened SuggestionStore
  import opened SuggestionProtocol
  import opened SuggestionTheorems

  /** n operations of one call, and of nothing else. */
  ghost function Alone(db: Db, c: Call, n: nat): (Db, Call)
    decreases n
  {
    if n == 0 then (db, c) else var (db', c') := OperateOne(db, c); Alone(db', c', n - 1)
  }

  function Repeat(a: Action, n: nat): seq<Action> {
    if n == 0 then [] else [a] + Repeat(a, n - 1)
  }

  lemma Regroup(before: seq<Action>, a: Action, rest: seq<Action>)
    ensures before + ([a] + rest) == before + [a] + rest
  {
  }

  /** The state with one call, and the documents, somewhere else. */
  ghost function With(r: State, i: nat, to: (Db, Call)): State
    requires i < |r.calls|
  {
    r.(db := to.0, calls := r.calls[i := to.1])
  }

  lemma WithTwice(r: State, i: nat, to: (Db, Call), again: (Db, Call))
    requires i < |r.calls|
    ensures With(With(r, i, to), i, again) == With(r, i, again) && With(r, i, (r.db, r.calls[i])) == r
  {
    assert r.calls[i := to.1][i := again.1] == r.calls[i := again.1];
  }

  lemma {:induction false} RunAlone(s: State, before: seq<Action>, i: nat, n: nat)
    requires i < |Run(s, before).calls|
    ensures var r := Run(s, before);
            Run(s, before + Repeat(Operate(i), n)) == With(r, i, Alone(r.db, r.calls[i], n))
    decreases n
  {
    var r := Run(s, before);
    if n == 0 {
      assert before + Repeat(Operate(i), 0) == before;
      WithTwice(r, i, (r.db, r.calls[i]), (r.db, r.calls[i]));
    } else {
      var to := OperateOne(r.db, r.calls[i]);
      RunSnoc(s, before, Operate(i));
      assert Run(s, before + [Operate(i)]) == With(r, i, to);
      RunAlone(s, before + [Operate(i)], i, n - 1);
      Regroup(before, Operate(i), Repeat(Operate(i), n - 1));
      WithTwice(r, i, to, Alone(to.0, to.1, n - 1));
    }
  }

  lemma AloneNext(db: Db, c: Call, n: nat, db': Db, c': Call)
    requires n > 0 && OperateOne(db, c) == (db', c')
    ensures Alone(db, c, n) == Alone(db', c', n - 1)
  {
  }

  lemma {:induction false} AloneEnds(db: Db, c: Call, n: nat)
    requires c.pc.Returned?
    ensures Alone(db, c, n) == (db, c)
  {
    if n > 0 {
      AloneEnds(db, c, n - 1);
    }
  }

  /** The next operation ends the call. */
  lemma LastNext(db: Db, id: SuggestionId, pc: Pc, n: nat, db': Db, outcome: Outcome)
    requires n > 0 && OperateOne(db, Call(id, pc, false)) == (db', Call(id, Returned(outcome), false))
    ensures Alone(db, Call(id, pc, false), n) == (db', Call(id, Returned(outcome), false))
  {
    AloneNext(db, Call(id, pc, false), n, db', Call(id, Returned(outcome), false));
    AloneEnds(db', Call(id, Returned(outcome), false), n - 1);
  }

  lemma Next(db: Db, id: SuggestionId, pc: Pc, n: nat, db': Db, pc': Pc)
    requires n > 0 && OperateOne(db, Call(id, pc, false)) == (db', Call(id, pc', false))
    ensures Alone(db, Call(id, pc, false), n) == Alone(db', Call(id, pc', false), n - 1)
  {
    AloneNext(db, Call(id, pc, false), n, db', Call(id, pc', false));
  }

  // ----- Dismiss -----

  /** The event, unless it is there already. */
  function WithEvent(db: Db, key: EventKey): Db {
    db.(events := db.events + {key})
  }

  /** Writing an event ends a call, one way or the other. */
  lemma EventEnds(db: Db, id: SuggestionId, pc: Pc, n: nat, key: EventKey, done: Outcome)
    requires n > 0 && OperateOne(db, Call(id, pc, false)).0 == InsertEvent(db, key, Returned(done)).0
    requires OperateOne(db, Call(id, pc, false)).1 == Call(id, InsertEvent(db, key, Returned(done)).1, false)
    ensures Alone(db, Call(id, pc, false), n)
         == (WithEvent(db, key), Call(id, Returned(if key in db.events then DuplicateEvent else done), false))
  {
    if key in db.events {
      assert db.events + {key} == db.events;
    }
    LastNext(db, id, pc, n, WithEvent(db, key), if key in db.events then DuplicateEvent else done);
  }

  /** What a dismiss does: it changes a proposed suggestion only, and writes the event of a dismissed one. */
  ghost predicate Dismisses(db: Db, id: SuggestionId, db': Db, outcome: Outcome) {
    if id !in db.suggestions then outcome == NotFound && db' == db
    else if IsProposed(db, id) || IsDismissed(db, id) then
      var dismissed := if IsProposed(db, id) then Link(db, id, Suggestion(Dismissed, None)) else db;
      && (outcome == DismissDone <==> DismissedEvent(id) !in db.events)
      && (outcome == DuplicateEvent <==> DismissedEvent(id) in db.events)
      && db' == WithEvent(dismissed, DismissedEvent(id))
    else outcome == Conflict && db' == db
  }

  lemma DismissAlone(db: Db, id: SuggestionId, n: nat)
    requires n >= 3 && DbInv(db)
    ensures var (db', c') := Alone(db, Call(id, DismissLoad, false), n);
            c'.pc.Returned? && Dismisses(db, id, db', c'.pc.outcome)
  {
    if id !in db.suggestions {
      LastNext(db, id, DismissLoad, n, db, NotFound);
    } else if IsDismissed(db, id) {
      Next(db, id, DismissLoad, n, db, DismissEnqueue);
      EventEnds(db, id, DismissEnqueue, n - 1, DismissedEvent(id), DismissDone);
    } else if IsProposed(db, id) {
      var dismissed := Link(db, id, Suggestion(Dismissed, None));
      Next(db, id, DismissLoad, n, db, DismissSwap);
      Next(db, id, DismissSwap, n - 1, dismissed, DismissEnqueue);
      EventEnds(dismissed, id, DismissEnqueue, n - 2, DismissedEvent(id), DismissDone);
    } else {
      LastNext(db, id, DismissLoad, n, db, Conflict);
    }
  }

  /** In every run a dismiss that nothing interrupts does just that. */
  lemma UndisturbedDismiss(s: State, before: seq<Action>, id: SuggestionId, n: nat)
    requires Init(s) && n >= 3
    ensures var r, i := Run(s, before), |Run(s, before).calls|;
            var r' := Run(s, before + [StartDismiss(id)] + Repeat(Operate(i), n));
            && |r'.calls| == i + 1 && r'.calls[..i] == r.calls && r'.archived == r.archived
            && r'.calls[i].pc.Returned? && Dismisses(r.db, id, r'.db, r'.calls[i].pc.outcome)
  {
    RunKeepsInv(s, before);
    RunSnoc(s, before, StartDismiss(id));
    RunAlone(s, before + [StartDismiss(id)], |Run(s, before).calls|, n);
    DismissAlone(Run(s, before).db, id, n);
  }

  // ----- Accept -----

  /** The accept task of the suggestion, or the one that is about to be made. */
  ghost function TaskFor(db: Db, id: SuggestionId): TaskId {
    if FindByKey(db, AcceptKey(id)).Some? then FindByKey(db, AcceptKey(id)).value else db.nextId
  }

  /** The documents with the suggestion converted to its task, made if there was none. */
  ghost function ConvertedTo(db: Db, id: SuggestionId): Db {
    var t := TaskFor(db, id);
    var made := if t in db.tasks then db else db.(tasks := db.tasks[t := AcceptKey(id)], nextId := t + 1);
    Link(made, id, Suggestion(Converted, Some(t)))
  }

  /**
   What an accept does: it converts a proposed suggestion to its task and announces a task
   it made; an accepted event that is there already ends it after the conversion.
   */
  ghost predicate Accepts(db: Db, id: SuggestionId, db': Db, outcome: Outcome) {
    var t, known := TaskFor(db, id), AcceptedEvent(id) in db.events;
    if id !in db.suggestions then outcome == NotFound && db' == db
    else if IsProposed(db, id) then
      var converted := WithEvent(ConvertedTo(db, id), AcceptedEvent(id));
      && outcome == (if known then DuplicateEvent else Done(t))
      && db' == if known || t in db.tasks then converted else WithEvent(converted, TaskCreatedEvent(t))
    else if db.suggestions[id].convertedTaskId.Some? then
      && outcome == (if known then DuplicateEvent else Done(db.suggestions[id].convertedTaskId.value))
      && db' == WithEvent(db, AcceptedEvent(id))
    else outcome == Conflict && db' == db
  }

  lemma AcceptTaken(db: Db, id: SuggestionId, n: nat)
    requires n >= 6 && DbInv(db) && id in db.suggestions && !IsProposed(db, id)
    ensures var (db', c') := Alone(db, Call(id, Load, false), n);
            c'.pc.Returned? && Accepts(db, id, db', c'.pc.outcome)
  {
    if db.suggestions[id].convertedTaskId.Some? {
      var t := db.suggestions[id].convertedTaskId.value;
      assert Linked(db, id, t);
      Next(db, id, Load, n, db, FindConverted(t));
      Next(db, id, FindConverted(t), n - 1, db, EnqueueAgain(t));
      EventEnds(db, id, EnqueueAgain(t), n - 2, AcceptedEvent(id), Done(t));
    } else {
      LastNext(db, id, Load, n, db, Conflict);
    }
  }

  /** From the swap on, for a task found and for one just made. */
  lemma SwapAlone(db: Db, id: SuggestionId, t: TaskId, created: bool, n: nat)
    requires n >= 3 && IsProposed(db, id) && TaskCreatedEvent(t) !in db.events
    ensures var known, converted := AcceptedEvent(id) in db.events, WithEvent(Link(db, id, Suggestion(Converted, Some(t))), AcceptedEvent(id));
            var (db', c') := Alone(db, Call(id, Swap(t, created), false), n);
            && c' == Call(id, Returned(if known then DuplicateEvent else Done(t)), false)
            && db' == if known || !created then converted else WithEvent(converted, TaskCreatedEvent(t))
  {
    var linked := Link(db, id, Suggestion(Converted, Some(t)));
    Next(db, id, Swap(t, created), n, linked, EnqueueAccepted(t, created));
    if created && AcceptedEvent(id) !in db.events {
      Next(linked, id, EnqueueAccepted(t, true), n - 1, WithEvent(linked, AcceptedEvent(id)), EnqueueCreated(t));
      EventEnds(WithEvent(linked, AcceptedEvent(id)), id, EnqueueCreated(t), n - 2, TaskCreatedEvent(t), Done(t));
    } else {
      EventEnds(linked, id, EnqueueAccepted(t, created), n - 1, AcceptedEvent(id), Done(t));
    }
  }

  lemma AcceptProposed(db: Db, id: SuggestionId, n: nat)
    requires n >= 6 && DbInv(db) && IsProposed(db, id) && TaskCreatedEvent(TaskFor(db, id)) !in db.events
    ensures var (db', c') := Alone(db, Call(id, Load, false), n);
            c'.pc.Returned? && Accepts(db, id, db', c'.pc.outcome)
  {
    Next(db, id, Load, n, db, FindExisting);
    if FindByKey(db, AcceptKey(id)).Some? {
      AcceptFound(db, id, n - 1);
    } else {
      AcceptMade(db, id, n - 1);
    }
  }

  lemma AcceptFound(db: Db, id: SuggestionId, n: nat)
    requires n >= 5 && IsProposed(db, id) && TaskCreatedEvent(TaskFor(db, id)) !in db.events && FindByKey(db, AcceptKey(id)).Some?
    ensures var (db', c') := Alone(db, Call(id, FindExisting, false), n);
            c'.pc.Returned? && Accepts(db, id, db', c'.pc.outcome)
  {
    var t := TaskFor(db, id);
    assert t in db.tasks;
    Next(db, id, FindExisting, n, db, Swap(t, false));
    SwapAlone(db, id, t, false, n - 1);
  }

  lemma AcceptMade(db: Db, id: SuggestionId, n: nat)
    requires n >= 5 && DbInv(db) && IsProposed(db, id) && TaskCreatedEvent(TaskFor(db, id)) !in db.events && FindByKey(db, AcceptKey(id)).None?
    ensures var (db', c') := Alone(db, Call(id, FindExisting, false), n);
            c'.pc.Returned? && Accepts(db, id, db', c'.pc.outcome)
  {
    var t := db.nextId;
    assert t !in db.tasks;
    var made := db.(tasks := db.tasks[t := AcceptKey(id)], nextId := t + 1);
    Next(db, id, FindExisting, n, db, Insert);
    Next(db, id, Insert, n - 1, made, Swap(t, true));
    SwapAlone(made, id, t, true, n - 2);
  }

  lemma AcceptAlone(db: Db, id: SuggestionId, n: nat)
    requires n >= 6 && DbInv(db) && (IsProposed(db, id) ==> TaskCreatedEvent(TaskFor(db, id)) !in db.events)
    ensures var (db', c') := Alone(db, Call(id, Load, false), n);
            c'.pc.Returned? && Accepts(db, id, db', c'.pc.outcome)
  {
    if IsProposed(db, id) {
      AcceptProposed(db, id, n);
    } else if id in db.suggestions {
      AcceptTaken(db, id, n);
    } else {
      LastNext(db, id, Load, n, db, NotFound);
    }
  }

  lemma TaskIsUnannounced(r: State, id: SuggestionId)
    requires AnnounceInv(r) && IsProposed(r.db, id)
    ensures TaskCreatedEvent(TaskFor(r.db, id)) !in r.db.events
  {
    var t := TaskFor(r.db, id);
    assert HasTask(r.db, t, id) || t == r.db.nextId;
    assert !Ever(r, TaskCreatedEvent(t));
  }

  /** In every run an accept that nothing interrupts does just that. */
  lemma UndisturbedAccept(s: State, before: seq<Action>, id: SuggestionId, n: nat)
    requires Init(s) && n >= 6
    ensures var r, i := Run(s, before), |Run(s, before).calls|;
            var r' := Run(s, before + [StartAccept(id)] + Repeat(Operate(i), n));
            && |r'.calls| == i + 1 && r'.calls[..i] == r.calls && r'.archived == r.archived
            && r'.calls[i].pc.Returned? && Accepts(r.db, id, r'.db, r'.calls[i].pc.outcome)
  {
    RunKeepsInv(s, before);
    RunKeepsAnnounceInv(s, before);
    RunSnoc(s, before, StartAccept(id));
    RunAlone(s, before + [StartAccept(id)], |Run(s, before).calls|, n);
    if IsProposed(Run(s, before).db, id) {
      TaskIsUnannounced(Run(s, before), id);
    }
    AcceptAlone(Run(s, before).db, id, n);
  }

  // ----- The losers of a race, from where they lost -----

  /** Whoever loses the insert goes on with the winner's task, or rethrows when that is gone again. */
  lemma LostInsert(db: Db, id: SuggestionId)
    requires DbInv(db) && FindByKey(db, AcceptKey(id)).Some?
    ensures Alone(db, Call(id, Insert, false), 2) == (db, Call(id, Swap(TaskFor(db, id), false), false))
    ensures forall gone: Db, n: nat :: n >= 1 && FindByKey(gone, AcceptKey(id)).None? ==>
              Alone(gone, Call(id, Refind, false), n) == (gone, Call(id, Returned(Rethrown), false))
  {
    Next(db, id, Insert, 2, db, Refind);
    Next(db, id, Refind, 1, db, Swap(TaskFor(db, id), false));
    forall gone: Db, n: nat | n >= 1 && FindByKey(gone, AcceptKey(id)).None?
      ensures Alone(gone, Call(id, Refind, false), n) == (gone, Call(id, Returned(Rethrown), false))
    {
      LastNext(gone, id, Refind, n, gone, Rethrown);
    }
  }

  /** Whoever loses the swap writes the accepted event of its own linked task; otherwise it is a conflict, and a task of its own is deleted. */
  lemma LostAcceptSwap(db: Db, id: SuggestionId, t: TaskId, created: bool, n: nat)
    requires n >= 4 && CallInv(db, Call(id, Swap(t, created), false)) && !IsProposed(db, id)
    ensures var (db', c') := Alone(db, Call(id, Swap(t, created), false), n);
            && db' == (if Linked(db, id, t) then WithEvent(db, AcceptedEvent(id))
                       else if created then db.(tasks := db.tasks - {t}) else db)
            && c'.pc == Returned(if !Linked(db, id, t) then Conflict
                                 else if AcceptedEvent(id) in db.events then DuplicateEvent else Done(t))
  {
    Next(db, id, Swap(t, created), n, db, Reload(t, created));
    if Linked(db, id, t) {
      Next(db, id, Reload(t, created), n - 1, db, EnqueueAgain(t));
      EventEnds(db, id, EnqueueAgain(t), n - 2, AcceptedEvent(id), Done(t));
    } else if created {
      assert Owns(Call(id, Swap(t, created), false), t);
      Next(db, id, Reload(t, true), n - 1, db, OrphanRead(t));
      Next(db, id, OrphanRead(t), n - 2, db, OrphanDelete(t));
      LastNext(db, id, OrphanDelete(t), n - 3, db.(tasks := db.tasks - {t}), Conflict);
    } else {
      LastNext(db, id, Reload(t, false), n - 1, db, Conflict);
    }
  }

  /** A dismiss that loses to another dismiss writes the event like it; to anything else it is a conflict. */
  lemma LostDismissSwap(db: Db, id: SuggestionId, n: nat)
    requires n >= 3 && id in db.suggestions && !IsProposed(db, id)
    ensures var (db', c') := Alone(db, Call(id, DismissSwap, false), n);
            && db' == (if IsDismissed(db, id) then WithEvent(db, DismissedEvent(id)) else db)
            && c'.pc == Returned(if !IsDismissed(db, id) then Conflict
                                 else if DismissedEvent(id) in db.events then DuplicateEvent else DismissDone)
  {
    Next(db, id, DismissSwap, n, db, DismissReload);
    if IsDismissed(db, id) {
      Next(db, id, DismissReload, n - 1, db, DismissEnqueue);
      EventEnds(db, id, DismissEnqueue, n - 2, DismissedEvent(id), DismissDone);
    } else {
      LastNext(db, id, DismissReload, n - 1, db, Conflict);
    }
  }
}
