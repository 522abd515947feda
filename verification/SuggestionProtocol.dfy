/**
 Any number of accept and dismiss calls, on any number of suggestions, interleaved at every
 database operation, each free to crash at any of them, while the archiving job may delete
 any event that has been written.
 */
module SuggestionProtocol {
  import opened Wrappers
  import opened SuggestionStore

  /** A call in flight, returned, or stopped for good at `pc` (a crash or a thrown I/O error). */
  datatype Call = Call(id: SuggestionId, pc: Pc, crashed: bool)

  /** `archived` counts the deletions of each event key; a deletion frees the unique key. */
  datatype State = State(db: Db, calls: seq<Call>, archived: multiset<EventKey>)

  datatype Action =
    | StartAccept(id: SuggestionId)
    | StartDismiss(id: SuggestionId)
    | Operate(call: nat)
    | Crash(call: nat)
    | Archive(key: EventKey)

  predicate IsDismiss(pc: Pc) {
    pc.DismissLoad? || pc.DismissSwap? || pc.DismissReload? || pc.DismissEnqueue?
  }

  ghost function OperateOne(db: Db, c: Call): (Db, Call) {
    if c.crashed then (db, c)
    else
      var r := if IsDismiss(c.pc) then DismissStep(db, c.id, c.pc) else AcceptStep(db, c.id, c.pc);
      (r.0, c.(pc := r.1))
  }

  ghost function Step(s: State, a: Action): State {
    match a
    case StartAccept(id) => s.(calls := s.calls + [Call(id, Load, false)])
    case StartDismiss(id) => s.(calls := s.calls + [Call(id, DismissLoad, false)])
    case Operate(i) =>
      if i < |s.calls| then
        var r := OperateOne(s.db, s.calls[i]);
        s.(db := r.0, calls := s.calls[i := r.1])
      else s
    case Crash(i) =>
      if i < |s.calls| && !s.calls[i].pc.Returned? then s.(calls := s.calls[i := s.calls[i].(crashed := true)])
      else s
    case Archive(key) =>
      if key in s.db.events then
        s.(db := s.db.(events := s.db.events - {key}), archived := s.archived + multiset{key})
      else s
  }

  ghost function Run(s: State, actions: seq<Action>): State {
    if actions == [] then s
    else Step(Run(s, actions[..|actions| - 1]), actions[|actions| - 1])
  }

  /** The call inserted `t` itself and has neither linked nor deleted it. */
  predicate Owns(c: Call, t: TaskId) {
    (c.pc.Swap? && c.pc.created && c.pc.task == t)
    || (c.pc.Reload? && c.pc.created && c.pc.task == t)
    || (c.pc.OrphanRead? && c.pc.task == t)
    || (c.pc.OrphanDelete? && c.pc.task == t)
  }

  /** The call has written the accepted event of its suggestion. */
  predicate WroteAccepted(c: Call) {
    c.pc.EnqueueCreated? || (c.pc.Returned? && c.pc.outcome.Done?)
  }

  function Writers(calls: seq<Call>, id: SuggestionId): nat {
    if calls == [] then 0
    else
      var last := calls[|calls| - 1];
      Writers(calls[..|calls| - 1], id) + if last.id == id && WroteAccepted(last) then 1 else 0
  }

  /** How often the event was inserted: each insert but the one that is still there has been undone by an archiving. */
  function Inserts(s: State, key: EventKey): nat {
    s.archived[key] + if key in s.db.events then 1 else 0
  }

  // ----- The invariant -----

  ghost predicate UniqueKeys(db: Db) {
    forall t, u :: t in db.tasks && u in db.tasks && db.tasks[t] == db.tasks[u] ==> t == u
  }

  ghost predicate FreshIds(db: Db) {
    forall t :: t in db.tasks ==> t < db.nextId
  }

  ghost predicate LinksAreLive(db: Db) {
    forall id :: id in db.suggestions && db.suggestions[id].convertedTaskId.Some? ==>
      db.suggestions[id].status.Converted? && HasTask(db, db.suggestions[id].convertedTaskId.value, id)
  }

  ghost predicate DbInv(db: Db) {
    UniqueKeys(db) && FreshIds(db) && LinksAreLive(db)
  }

  ghost predicate CallInv(db: Db, c: Call) {
    && (forall t :: Owns(c, t) ==> HasTask(db, t, c.id))
    && (!c.pc.Load? && !c.pc.DismissLoad? && !c.pc.Returned? ==> c.id in db.suggestions)
    && match c.pc
       case FindConverted(t) => Linked(db, c.id, t)
       case Swap(t, _) => IsProposed(db, c.id) ==> HasTask(db, t, c.id)
       case EnqueueAccepted(t, _) => Linked(db, c.id, t)
       case EnqueueCreated(t) => Linked(db, c.id, t)
       case EnqueueAgain(t) => Linked(db, c.id, t)
       case Reload(_, _) => !IsProposed(db, c.id)
       case OrphanRead(t) => !IsProposed(db, c.id) && !Linked(db, c.id, t)
       case OrphanDelete(t) => !IsProposed(db, c.id) && !Linked(db, c.id, t)
       case DismissReload => !IsProposed(db, c.id)
       case DismissEnqueue => IsDismissed(db, c.id)
       case Returned(Done(t)) => Linked(db, c.id, t)
       case Returned(DismissDone) => IsDismissed(db, c.id)
       case Returned(Conflict) => c.id in db.suggestions && !IsProposed(db, c.id)
       case Returned(NotFound) => c.id !in db.suggestions
       case Returned(outcome) => !outcome.MissingTask? && c.id in db.suggestions
       case _ => true
  }

  ghost predicate CallsInv(s: State) {
    forall i :: 0 <= i < |s.calls| ==> CallInv(s.db, s.calls[i])
  }

  ghost predicate OneOwner(s: State) {
    forall i, j, t :: 0 <= i < |s.calls| && 0 <= j < |s.calls| && Owns(s.calls[i], t) && Owns(s.calls[j], t) ==> i == j
  }

  /** Every accept task is the linked one or belongs to the call that inserted it. */
  ghost predicate NoStrays(s: State) {
    forall t, id :: HasTask(s.db, t, id) && id in s.db.suggestions && !Linked(s.db, id, t) ==>
      exists i :: 0 <= i < |s.calls| && s.calls[i].id == id && Owns(s.calls[i], t)
  }

  /** Every call that wrote the accepted event of its suggestion has an insert of its own. */
  ghost predicate WritersInserted(s: State) {
    forall id :: Writers(s.calls, id) <= Inserts(s, AcceptedEvent(id))
  }

  ghost predicate Inv(s: State) {
    DbInv(s.db) && CallsInv(s) && OneOwner(s) && NoStrays(s) && WritersInserted(s)
  }

  /** No call yet; accept tasks exist only where a suggestion already links to them. */
  ghost predicate Init(s: State) {
    && s.calls == [] && s.archived == multiset{} && DbInv(s.db)
    && (forall t, id :: HasTask(s.db, t, id) && id in s.db.suggestions ==> Linked(s.db, id, t))
    && (forall t: TaskId :: TaskCreatedEvent(t) in s.db.events ==> t < s.db.nextId)
  }

  // ----- What one operation may do to the documents, as the other calls see it -----

  ghost predicate Guarantee(db: Db, db': Db, c: Call, c': Call) {
    && c'.id == c.id
    && db'.suggestions.Keys == db.suggestions.Keys
    && (forall id :: id in db.suggestions && db'.suggestions[id] != db.suggestions[id] ==>
          && id == c.id && IsProposed(db, id)
          && if IsDismiss(c.pc) then db'.suggestions[id] == Suggestion(Dismissed, None)
             else c.pc.Swap? && Linked(db', id, c.pc.task))
    && (forall t :: t in db.tasks ==>
          (t in db'.tasks && db'.tasks[t] == db.tasks[t]) || (c.pc.OrphanDelete? && Owns(c, t)))
    && (forall t :: t in db'.tasks ==>
          (t in db.tasks && db'.tasks[t] == db.tasks[t]) || (t == db.nextId && Owns(c', t)))
    && (forall t :: Owns(c, t) ==> Owns(c', t) || Linked(db', c.id, t) || t !in db'.tasks)
    && (forall t :: Owns(c', t) ==> Owns(c, t) || t == db.nextId)
    && db.events <= db'.events
    && (WroteAccepted(c') && !WroteAccepted(c) ==>
          AcceptedEvent(c.id) !in db.events && AcceptedEvent(c.id) in db'.events)
    && (WroteAccepted(c) ==> WroteAccepted(c') || c'.pc == Returned(DuplicateEvent))
  }

  ghost predicate Sound(db: Db, c: Call) {
    var (db', c') := OperateOne(db, c);
    DbInv(db') && CallInv(db', c') && Guarantee(db, db', c, c')
  }

  lemma InsertIsSound(db: Db, c: Call)
    requires DbInv(db) && CallInv(db, c) && c.pc.Insert?
    ensures Sound(db, c)
  {
    var (db', c') := OperateOne(db, c);
    if FindByKey(db, AcceptKey(c.id)).None? && !c.crashed {
      assert forall t :: t in db.tasks ==> db.tasks[t] != AcceptKey(c.id);
      assert LinksAreLive(db');
    }
  }

  lemma SwapIsSound(db: Db, c: Call)
    requires DbInv(db) && CallInv(db, c) && c.pc.Swap?
    ensures Sound(db, c)
  {
    var (db', c') := OperateOne(db, c);
    assert UniqueKeys(db') && FreshIds(db');
    assert LinksAreLive(db');
  }

  lemma DismissSwapIsSound(db: Db, c: Call)
    requires DbInv(db) && CallInv(db, c) && c.pc.DismissSwap?
    ensures Sound(db, c)
  {
    var (db', c') := OperateOne(db, c);
    assert UniqueKeys(db') && FreshIds(db');
    assert LinksAreLive(db');
  }

  lemma OrphanDeleteIsSound(db: Db, c: Call)
    requires DbInv(db) && CallInv(db, c) && c.pc.OrphanDelete?
    ensures Sound(db, c)
  {
    var (db', c') := OperateOne(db, c);
    if !c.crashed {
      forall id | id in db'.suggestions && db'.suggestions[id].convertedTaskId.Some?
        ensures HasTask(db', db'.suggestions[id].convertedTaskId.value, id)
      {
        AcceptKeyIsInjective(id, c.id);
      }
    }
  }

  predicate Enqueues(pc: Pc) {
    pc.EnqueueAccepted? || pc.EnqueueCreated? || pc.EnqueueAgain? || pc.DismissEnqueue?
  }

  lemma EnqueueIsSound(db: Db, c: Call)
    requires DbInv(db) && CallInv(db, c) && Enqueues(c.pc) && !IsDismiss(c.pc)
    ensures Sound(db, c)
  {
    var (db', c') := OperateOne(db, c);
    assert db'.suggestions == db.suggestions && db'.tasks == db.tasks;
    assert forall t: TaskId :: !Owns(c', t);
  }

  lemma DismissEnqueueIsSound(db: Db, c: Call)
    requires DbInv(db) && CallInv(db, c) && c.pc.DismissEnqueue?
    ensures Sound(db, c)
  {
    var (db', c') := OperateOne(db, c);
    assert db'.suggestions == db.suggestions && db'.tasks == db.tasks;
    assert forall t: TaskId :: !Owns(c', t);
  }

  lemma DismissReadIsSound(db: Db, c: Call)
    requires DbInv(db) && CallInv(db, c) && (c.pc.DismissLoad? || c.pc.DismissReload?)
    ensures Sound(db, c)
  {
    var (db', c') := OperateOne(db, c);
    assert db' == db;
    assert CallInv(db, c');
  }

  lemma ReadIsSound(db: Db, c: Call)
    requires DbInv(db) && CallInv(db, c) && !IsDismiss(c.pc) && !Enqueues(c.pc)
    requires !c.pc.Insert? && !c.pc.Swap? && !c.pc.OrphanDelete?
    ensures Sound(db, c)
  {
    var (db', c') := OperateOne(db, c);
    assert db' == db;
    assert CallInv(db, c');
  }

  lemma OperationIsSound(db: Db, c: Call)
    requires DbInv(db) && CallInv(db, c)
    ensures Sound(db, c)
  {
    if c.pc.DismissEnqueue? {
      DismissEnqueueIsSound(db, c);
    } else if Enqueues(c.pc) {
      EnqueueIsSound(db, c);
    } else if c.pc.Insert? {
      InsertIsSound(db, c);
    } else if c.pc.Swap? {
      SwapIsSound(db, c);
    } else if c.pc.DismissSwap? {
      DismissSwapIsSound(db, c);
    } else if c.pc.OrphanDelete? {
      OrphanDeleteIsSound(db, c);
    } else if IsDismiss(c.pc) {
      DismissReadIsSound(db, c);
    } else {
      ReadIsSound(db, c);
    }
  }

  lemma GuaranteeIsRespected(db: Db, db': Db, c: Call, c': Call, d: Call)
    requires DbInv(db) && DbInv(db') && CallInv(db, c) && CallInv(db, d) && Guarantee(db, db', c, c')
    requires forall t :: !(Owns(c, t) && Owns(d, t))
    ensures CallInv(db', d)
  {
    forall a, b { AcceptKeyIsInjective(a, b); }
  }

  lemma {:induction false} WritersUpdate(calls: seq<Call>, i: nat, c: Call, id: SuggestionId)
    requires i < |calls|
    ensures Writers(calls[i := c], id) + (if calls[i].id == id && WroteAccepted(calls[i]) then 1 else 0)
         == Writers(calls, id) + if c.id == id && WroteAccepted(c) then 1 else 0
  {
    var n := |calls| - 1;
    if i < n {
      WritersUpdate(calls[..n], i, c, id);
      assert calls[i := c][..n] == calls[..n][i := c];
    } else {
      assert calls[i := c][..n] == calls[..n];
    }
  }

  lemma OperateKeepsWriters(s: State, i: nat)
    requires Inv(s) && i < |s.calls|
    ensures WritersInserted(Step(s, Operate(i)))
  {
    var s' := Step(s, Operate(i));
    OperationIsSound(s.db, s.calls[i]);
    forall id ensures Writers(s'.calls, id) <= Inserts(s', AcceptedEvent(id)) {
      WritersUpdate(s.calls, i, s'.calls[i], id);
    }
  }

  lemma OperatePreserves(s: State, i: nat)
    requires Inv(s) && i < |s.calls|
    ensures Inv(Step(s, Operate(i)))
  {
    OperateKeepsWriters(s, i);
    var s' := Step(s, Operate(i));
    var c, c' := s.calls[i], s'.calls[i];
    OperationIsSound(s.db, c);
    forall j | 0 <= j < |s.calls| && j != i ensures CallInv(s'.db, s'.calls[j]) {
      GuaranteeIsRespected(s.db, s'.db, c, c', s.calls[j]);
    }
    assert OneOwner(s') by {
      forall j, t: TaskId | 0 <= j < |s.calls| && j != i && Owns(s.calls[j], t) ensures t < s.db.nextId && !Owns(c', t) {
        assert CallInv(s.db, s.calls[j]);
      }
    }
    forall t, id | HasTask(s'.db, t, id) && id in s'.db.suggestions && !Linked(s'.db, id, t)
      ensures exists j :: 0 <= j < |s'.calls| && s'.calls[j].id == id && Owns(s'.calls[j], t)
    {
      AcceptKeyIsInjective(id, c.id);
      if t in s.db.tasks {
        assert HasTask(s.db, t, id) && !Linked(s.db, id, t);
        var j :| 0 <= j < |s.calls| && s.calls[j].id == id && Owns(s.calls[j], t);
        assert s'.calls[j].id == id && Owns(s'.calls[j], t);
      } else {
        assert Owns(c', t) && CallInv(s'.db, c');
        assert s'.calls[i].id == id;
      }
    }
  }

  lemma CallInvIgnoresEvents(db: Db, c: Call, db': Db, c': Call)
    requires CallInv(db, c) && db' == db.(events := db'.events) && c'.id == c.id && c'.pc == c.pc
    ensures CallInv(db', c')
  {
    forall t | Owns(c', t) ensures HasTask(db', t, c.id) {
      assert Owns(c, t);
    }
  }

  /** Starting a call, losing one or archiving an event touches no other document and creates no owner. */
  lemma CallListPreserves(s: State, s': State)
    requires Inv(s) && s'.db == s.db.(events := s'.db.events) && |s.calls| <= |s'.calls|
    requires forall i :: 0 <= i < |s.calls| ==> s'.calls[i].id == s.calls[i].id && s'.calls[i].pc == s.calls[i].pc
    requires forall i :: |s.calls| <= i < |s'.calls| ==> s'.calls[i].pc.Load? || s'.calls[i].pc.DismissLoad?
    requires WritersInserted(s')
    ensures Inv(s')
  {
    forall i | 0 <= i < |s'.calls| ensures CallInv(s'.db, s'.calls[i]) {
      if i < |s.calls| {
        CallInvIgnoresEvents(s.db, s.calls[i], s'.db, s'.calls[i]);
      }
    }
    forall t, id | HasTask(s'.db, t, id) && id in s'.db.suggestions && !Linked(s'.db, id, t)
      ensures exists j :: 0 <= j < |s'.calls| && s'.calls[j].id == id && Owns(s'.calls[j], t)
    {
      assert HasTask(s.db, t, id) && !Linked(s.db, id, t);
      var j :| 0 <= j < |s.calls| && s.calls[j].id == id && Owns(s.calls[j], t);
      assert s'.calls[j].id == id && Owns(s'.calls[j], t);
    }
  }

  lemma OtherStepKeepsWriters(s: State, a: Action)
    requires Inv(s) && !a.Operate?
    ensures WritersInserted(Step(s, a))
  {
    var s' := Step(s, a);
    forall id ensures Writers(s'.calls, id) <= Inserts(s', AcceptedEvent(id)) {
      assert Writers(s.calls, id) <= Inserts(s, AcceptedEvent(id));
      if a.Crash? && a.call < |s.calls| {
        WritersUpdate(s.calls, a.call, s.calls[a.call].(crashed := true), id);
      } else if a.StartAccept? || a.StartDismiss? {
        assert s'.calls[..|s'.calls| - 1] == s.calls;
      }
    }
  }

  lemma StepPreserves(s: State, a: Action)
    requires Inv(s)
    ensures Inv(Step(s, a))
  {
    if a.Operate? {
      if a.call < |s.calls| {
        OperatePreserves(s, a.call);
      }
    } else {
      OtherStepKeepsWriters(s, a);
      CallListPreserves(s, Step(s, a));
    }
  }
}
