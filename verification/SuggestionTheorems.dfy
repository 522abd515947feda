/** What holds in every run of accepts, dismisses and archivings. */
module SuggestionTheorems {
  import opened Wrappers
  import opened SuggestionStore
  import opened SuggestionProtocol

  lemma {:induction false} RunKeepsInv(s: State, actions: seq<Action>)
    requires Init(s)
    ensures Inv(Run(s, actions))
  {
    if actions != [] {
      RunKeepsInv(s, actions[..|actions| - 1]);
      StepPreserves(Run(s, actions[..|actions| - 1]), actions[|actions| - 1]);
    }
  }

  lemma RunSnoc(s: State, actions: seq<Action>, a: Action)
    ensures Run(s, actions + [a]) == Step(Run(s, actions), a)
  {
    assert (actions + [a])[..|actions|] == actions;
  }

  /** A suggestion leaves "proposed" at most once: once out, neither status nor link changes again. */
  lemma {:induction false} StatusIsFinal(s: State, before: seq<Action>, after: seq<Action>, id: SuggestionId)
    requires Init(s) && id in s.db.suggestions
    requires !IsProposed(Run(s, before).db, id)
    ensures id in Run(s, before).db.suggestions && id in Run(s, before + after).db.suggestions
    ensures Run(s, before + after).db.suggestions[id] == Run(s, before).db.suggestions[id]
  {
    SuggestionsStay(s, before);
    if after == [] {
      assert before + after == before;
    } else {
      var shorter, a := after[..|after| - 1], after[|after| - 1];
      StatusIsFinal(s, before, shorter, id);
      assert before + after == (before + shorter) + [a];
      RunSnoc(s, before + shorter, a);
      RunKeepsInv(s, before + shorter);
      var mid := Run(s, before + shorter);
      if a.Operate? && a.call < |mid.calls| {
        OperationIsSound(mid.db, mid.calls[a.call]);
      }
    }
  }

  /** A suggestion that was proposed is still so, or linked by an accept, or dismissed without a link. */
  lemma {:induction false} ProposedIsConvertedOrDismissed(s: State, actions: seq<Action>, id: SuggestionId)
    requires Init(s) && IsProposed(s.db, id)
    ensures var r := Run(s, actions).db;
            && id in r.suggestions
            && (r.suggestions[id] == s.db.suggestions[id] || r.suggestions[id] == Suggestion(Dismissed, None)
                || (r.suggestions[id].convertedTaskId.Some? && Linked(r, id, r.suggestions[id].convertedTaskId.value)))
  {
    SuggestionsStay(s, actions);
    if actions != [] {
      var shorter, a := actions[..|actions| - 1], actions[|actions| - 1];
      ProposedIsConvertedOrDismissed(s, shorter, id);
      RunKeepsInv(s, shorter);
      var mid := Run(s, shorter);
      if a.Operate? && a.call < |mid.calls| {
        OperationIsSound(mid.db, mid.calls[a.call]);
      }
    }
  }

  /** What an outcome says about the suggestion, in every run and for good. */
  lemma OutcomesTellTheStatus(s: State, actions: seq<Action>, i: nat)
    requires Init(s) && i < |Run(s, actions).calls| && Run(s, actions).calls[i].pc.Returned?
    ensures var r := Run(s, actions);
            var id, outcome := r.calls[i].id, r.calls[i].pc.outcome;
            && (outcome.DismissDone? ==> IsDismissed(r.db, id))
            && (outcome.Done? ==> Linked(r.db, id, outcome.task))
            && (outcome.Conflict? ==> id in r.db.suggestions && !IsProposed(r.db, id))
            && (outcome.NotFound? ==> id !in r.db.suggestions)
  {
    RunKeepsInv(s, actions);
    assert CallInv(Run(s, actions).db, Run(s, actions).calls[i]);
  }

  /** Of the accepts and dismisses of one suggestion only one kind returns normally, and any two accepts return the same task. */
  lemma OneKindReturns(s: State, actions: seq<Action>, i: nat, j: nat)
    requires Init(s) && i < |Run(s, actions).calls| && j < |Run(s, actions).calls|
    requires var r := Run(s, actions); r.calls[i].id == r.calls[j].id && ReturnedNormally(r.calls[i])
    ensures var r := Run(s, actions);
            && r.calls[j].pc != Returned(DismissDone)
            && (ReturnedNormally(r.calls[j]) ==> r.calls[j].pc == r.calls[i].pc)
  {
    OutcomesTellTheStatus(s, actions, i);
    if Run(s, actions).calls[j].pc.Returned? {
      OutcomesTellTheStatus(s, actions, j);
    }
  }

  lemma {:induction false} SuggestionsStay(s: State, actions: seq<Action>)
    requires Init(s)
    ensures Run(s, actions).db.suggestions.Keys == s.db.suggestions.Keys
  {
    if actions != [] {
      var shorter, a := actions[..|actions| - 1], actions[|actions| - 1];
      SuggestionsStay(s, shorter);
      RunKeepsInv(s, shorter);
      var mid := Run(s, shorter);
      if a.Operate? && a.call < |mid.calls| {
        OperationIsSound(mid.db, mid.calls[a.call]);
      }
    }
  }

  /** A link never dangles, an accept key never has two tasks, and no accept ever misses its task. */
  lemma LinksNeverDangle(s: State, actions: seq<Action>)
    requires Init(s)
    ensures var r := Run(s, actions);
            && (forall id, t :: Linked(r.db, id, t) ==> HasTask(r.db, t, id))
            && (forall id, t, u :: HasTask(r.db, t, id) && HasTask(r.db, u, id) ==> t == u)
            && (forall i :: 0 <= i < |r.calls| ==> r.calls[i].pc != Returned(MissingTask))
  {
    RunKeepsInv(s, actions);
    var r := Run(s, actions);
    forall i | 0 <= i < |r.calls| ensures r.calls[i].pc != Returned(MissingTask) {
      assert CallInv(r.db, r.calls[i]);
    }
  }

  ghost predicate CrashedHolding(s: State, id: SuggestionId, t: TaskId) {
    exists i :: 0 <= i < |s.calls| && s.calls[i].id == id && s.calls[i].crashed && Owns(s.calls[i], t)
  }

  /** No call on the suggestion can still move. */
  ghost predicate Settled(s: State, id: SuggestionId) {
    forall i :: 0 <= i < |s.calls| && s.calls[i].id == id ==> s.calls[i].crashed || s.calls[i].pc.Returned?
  }

  /**
   Exactly when an accept leaves a task behind: some accept crashed between inserting the
   task and linking or deleting it.  So, without crashes, a settled dismissed suggestion has
   no accept task, and a settled converted one has its linked task and no other.
   */
  lemma StraysAreCrashes(s: State, actions: seq<Action>, id: SuggestionId, t: TaskId)
    requires Init(s) && id in s.db.suggestions && Settled(Run(s, actions), id)
    ensures var r := Run(s, actions);
            HasTask(r.db, t, id) && !Linked(r.db, id, t) <==> CrashedHolding(r, id, t) && !Linked(r.db, id, t)
  {
    RunKeepsInv(s, actions);
    SuggestionsStay(s, actions);
    var r := Run(s, actions);
    if HasTask(r.db, t, id) && !Linked(r.db, id, t) {
      var i :| 0 <= i < |r.calls| && r.calls[i].id == id && Owns(r.calls[i], t);
      assert r.calls[i].crashed;
    }
    if CrashedHolding(r, id, t) {
      var i :| 0 <= i < |r.calls| && r.calls[i].id == id && r.calls[i].crashed && Owns(r.calls[i], t);
      assert CallInv(r.db, r.calls[i]);
    }
  }

  /** Whichever accept inserted the task and whichever won the swap: the counts at rest. */
  lemma SettledCounts(s: State, actions: seq<Action>, id: SuggestionId)
    requires Init(s) && id in s.db.suggestions && Settled(Run(s, actions), id)
    requires forall t :: !CrashedHolding(Run(s, actions), id, t)
    ensures var r := Run(s, actions);
            var tasks := set t | t in r.db.tasks && r.db.tasks[t] == AcceptKey(id);
            id in r.db.suggestions &&
            match r.db.suggestions[id]
            case Suggestion(Converted, Some(t)) => tasks == {t}
            case _ => tasks == {}
  {
    RunKeepsInv(s, actions);
    SuggestionsStay(s, actions);
    var r := Run(s, actions);
    forall t: TaskId { StraysAreCrashes(s, actions, id, t); }
    forall t | t in r.db.tasks && r.db.tasks[t] == AcceptKey(id)
      ensures Linked(r.db, id, t)
    {
      assert HasTask(r.db, t, id);
    }
  }

  /** The guard of the orphan deletion never fires: the deleting accept already knows it lost for good. */
  lemma OrphanIsNeverLinked(s: State, actions: seq<Action>, i: nat)
    requires Init(s) && i < |Run(s, actions).calls| && Run(s, actions).calls[i].pc.OrphanRead?
    ensures var r := Run(s, actions);
            var (_, c') := AcceptStep(r.db, r.calls[i].id, r.calls[i].pc);
            c' == OrphanDelete(r.calls[i].pc.task)
  {
    RunKeepsInv(s, actions);
    assert CallInv(Run(s, actions).db, Run(s, actions).calls[i]);
  }

  // ----- Accepts that return normally -----

  predicate ReturnedNormally(c: Call) {
    c.pc.Returned? && c.pc.outcome.Done?
  }

  function NormalReturns(calls: seq<Call>, id: SuggestionId): nat {
    if calls == [] then 0
    else
      var last := calls[|calls| - 1];
      NormalReturns(calls[..|calls| - 1], id) + if last.id == id && ReturnedNormally(last) then 1 else 0
  }

  lemma {:induction false} ReturnedHaveWritten(calls: seq<Call>, id: SuggestionId)
    ensures NormalReturns(calls, id) <= Writers(calls, id)
  {
    if calls != [] {
      ReturnedHaveWritten(calls[..|calls| - 1], id);
    }
  }

  /**
   The accepted event has a unique key, and only archiving the event frees it again: of the
   accepts of a suggestion at most one more returns normally than its event was archived.
   */
  lemma AcceptsReturnAtMost(s: State, actions: seq<Action>, id: SuggestionId)
    requires Init(s)
    ensures var r := Run(s, actions);
            NormalReturns(r.calls, id) <= r.archived[AcceptedEvent(id)] + if AcceptedEvent(id) in r.db.events then 1 else 0
  {
    RunKeepsInv(s, actions);
    var r := Run(s, actions);
    ReturnedHaveWritten(r.calls, id);
    assert Writers(r.calls, id) <= Inserts(r, AcceptedEvent(id));
  }

  /** The call's next operation writes the accepted event. */
  ghost predicate WritesAccepted(s: State, i: nat) {
    && i < |s.calls| && !WroteAccepted(s.calls[i])
    && i < |Step(s, Operate(i)).calls| && WroteAccepted(Step(s, Operate(i)).calls[i])
  }

  lemma EventLeavesByArchive(s: State, a: Action, key: EventKey)
    requires Inv(s)
    ensures var s' := Step(s, a);
            && s.archived[key] <= s'.archived[key]
            && (key in s.db.events && key !in s'.db.events ==> s.archived[key] < s'.archived[key])
  {
    if a.Operate? && a.call < |s.calls| {
      OperationIsSound(s.db, s.calls[a.call]);
    }
  }

  /** The event is still the one that was there, or it has been archived since. */
  lemma {:induction false} EventStaysUntilArchived(s: State, before: seq<Action>, after: seq<Action>, key: EventKey)
    requires Init(s) && key in Run(s, before).db.events
    ensures key in Run(s, before + after).db.events || Run(s, before).archived[key] < Run(s, before + after).archived[key]
    ensures Run(s, before).archived[key] <= Run(s, before + after).archived[key]
  {
    if after == [] {
      assert before + after == before;
    } else {
      var shorter, a := after[..|after| - 1], after[|after| - 1];
      EventStaysUntilArchived(s, before, shorter, key);
      assert before + after == (before + shorter) + [a];
      RunSnoc(s, before + shorter, a);
      RunKeepsInv(s, before + shorter);
      EventLeavesByArchive(Run(s, before + shorter), a, key);
    }
  }

  /** Between two writes of the accepted event of one suggestion it was archived. */
  lemma {:induction false} ArchivedBetweenWrites(s: State, before: seq<Action>, i: nat, between: seq<Action>, j: nat)
    requires Init(s) && WritesAccepted(Run(s, before), i)
    requires WritesAccepted(Run(s, before + [Operate(i)] + between), j)
    requires Run(s, before + [Operate(i)] + between).calls[j].id == Run(s, before).calls[i].id
    ensures var key := AcceptedEvent(Run(s, before).calls[i].id);
            Run(s, before + [Operate(i)]).archived[key] < Run(s, before + [Operate(i)] + between).archived[key]
  {
    var first, last := Run(s, before), Run(s, before + [Operate(i)] + between);
    RunKeepsInv(s, before);
    RunKeepsInv(s, before + [Operate(i)] + between);
    OperationIsSound(first.db, first.calls[i]);
    OperationIsSound(last.db, last.calls[j]);
    RunSnoc(s, before, Operate(i));
    EventStaysUntilArchived(s, before + [Operate(i)], between, AcceptedEvent(first.calls[i].id));
  }

  // ----- The task.created event of a converted suggestion -----

  /** The call won the swap for `t` and has not returned. */
  predicate Won(pc: Pc, t: TaskId) {
    (pc.EnqueueAccepted? && pc.task == t) || (pc.EnqueueCreated? && pc.task == t)
  }

  /** Written at some time, whether archived since or not. */
  predicate Ever(s: State, key: EventKey) {
    key in s.db.events || key in s.archived
  }

  /**
   The call will write the task.created event of `t` if nothing but what `freed` allows
   disturbs it: that an accepted event in its way is archived first.
   */
  ghost predicate WillAnnounce(db: Db, c: Call, t: TaskId, freed: bool) {
    && !c.crashed
    && ((c.pc.EnqueueAccepted? && c.pc.task == t && c.pc.created && (freed || AcceptedEvent(c.id) !in db.events))
        || (c.pc.EnqueueCreated? && c.pc.task == t))
  }

  /** Only winners announce, each its own task, and no task is announced before its suggestion is converted. */
  ghost predicate AnnounceInv(s: State) {
    && (forall t: TaskId :: Ever(s, TaskCreatedEvent(t)) ==> t < s.db.nextId)
    && (forall t, id :: HasTask(s.db, t, id) && IsProposed(s.db, id) ==> !Ever(s, TaskCreatedEvent(t)))
    && (forall i, t: TaskId :: 0 <= i < |s.calls| && Won(s.calls[i].pc, t) ==> !Ever(s, TaskCreatedEvent(t)))
    && (forall i, j, t: TaskId | 0 <= i < |s.calls| && 0 <= j < |s.calls| ::
          Won(s.calls[i].pc, t) && Won(s.calls[j].pc, t) ==> i == j)
  }

  /** The task is linked, unannounced, and nobody is left to announce it. */
  ghost predicate NeverAnnounced(s: State, id: SuggestionId, t: TaskId, freed: bool) {
    && Linked(s.db, id, t) && !Ever(s, TaskCreatedEvent(t))
    && forall i :: 0 <= i < |s.calls| ==> !WillAnnounce(s.db, s.calls[i], t, freed)
  }

  /** What one operation does to winners and announcements. */
  ghost predicate Announces(db: Db, db': Db, c: Call, c': Call) {
    && (forall t: TaskId :: Won(c'.pc, t) ==> Won(c.pc, t) || (IsProposed(db, c.id) && HasTask(db, t, c.id) && Linked(db', c.id, t)))
    && (forall t: TaskId :: TaskCreatedEvent(t) in db'.events ==>
          TaskCreatedEvent(t) in db.events || (c.pc == EnqueueCreated(t) && !c.crashed && !Won(c'.pc, t)))
    && (forall t: TaskId, freed :: Won(c.pc, t) && WillAnnounce(db', c', t, freed) ==> WillAnnounce(db, c, t, freed))
    && db.nextId <= db'.nextId
  }

  lemma OperationAnnounces(db: Db, c: Call)
    requires DbInv(db) && CallInv(db, c)
    ensures var (db', c') := OperateOne(db, c); Announces(db, db', c, c')
  {
  }

  lemma WinnersStay(s: State, k: nat, s': State)
    requires Inv(s) && AnnounceInv(s) && k < |s.calls| && s' == Step(s, Operate(k)) && DbInv(s'.db)
    requires Announces(s.db, s'.db, s.calls[k], s'.calls[k]) && Guarantee(s.db, s'.db, s.calls[k], s'.calls[k])
    ensures forall i, t: TaskId :: 0 <= i < |s'.calls| && Won(s'.calls[i].pc, t) ==> !Ever(s', TaskCreatedEvent(t))
    ensures forall i, j, t: TaskId | 0 <= i < |s'.calls| && 0 <= j < |s'.calls| ::
              Won(s'.calls[i].pc, t) && Won(s'.calls[j].pc, t) ==> i == j
  {
    var c, c' := s.calls[k], s'.calls[k];
    forall i, t: TaskId | 0 <= i < |s.calls| && i != k && Won(s.calls[i].pc, t) ensures !Won(c'.pc, t) {
      assert CallInv(s.db, s.calls[i]) && Linked(s.db, s.calls[i].id, t);
      AcceptKeyIsInjective(s.calls[i].id, c.id);
    }
  }

  lemma ProposedStayUnannounced(s: State, k: nat, s': State)
    requires Inv(s) && AnnounceInv(s) && k < |s.calls| && s' == Step(s, Operate(k))
    requires Announces(s.db, s'.db, s.calls[k], s'.calls[k]) && Guarantee(s.db, s'.db, s.calls[k], s'.calls[k])
    ensures forall t, id :: HasTask(s'.db, t, id) && IsProposed(s'.db, id) ==> !Ever(s', TaskCreatedEvent(t))
  {
    var c := s.calls[k];
    forall t: TaskId, id | HasTask(s'.db, t, id) && IsProposed(s'.db, id) ensures !Ever(s', TaskCreatedEvent(t)) {
      assert CallInv(s.db, c);
      assert IsProposed(s.db, id);
      if c.pc == EnqueueCreated(t) {
        assert Linked(s.db, c.id, t) && HasTask(s.db, t, c.id) && s'.db.tasks[t] == s.db.tasks[t];
        AcceptKeyIsInjective(id, c.id);
      } else if t in s.db.tasks && s'.db.tasks[t] == s.db.tasks[t] {
        assert HasTask(s.db, t, id);
      }
    }
  }

  lemma OperateKeepsAnnounceInv(s: State, k: nat)
    requires Inv(s) && AnnounceInv(s) && k < |s.calls|
    ensures AnnounceInv(Step(s, Operate(k)))
  {
    var s' := Step(s, Operate(k));
    OperationIsSound(s.db, s.calls[k]);
    OperationAnnounces(s.db, s.calls[k]);
    WinnersStay(s, k, s');
    ProposedStayUnannounced(s, k, s');
    assert CallInv(s.db, s.calls[k]);
    forall t: TaskId | Ever(s', TaskCreatedEvent(t)) ensures t < s'.db.nextId {
      assert Ever(s, TaskCreatedEvent(t)) || s.calls[k].pc == EnqueueCreated(t);
    }
  }

  /** Archiving an announcement leaves it announced. */
  lemma ArchiveKeepsEver(s: State, key: EventKey, other: EventKey)
    ensures Ever(Step(s, Archive(key)), other) <==> Ever(s, other)
  {
  }

  lemma ArchiveKeepsAnnounceInv(s: State, key: EventKey)
    requires AnnounceInv(s)
    ensures AnnounceInv(Step(s, Archive(key)))
  {
    forall t: TaskId {
      ArchiveKeepsEver(s, key, TaskCreatedEvent(t));
    }
    var s' := Step(s, Archive(key));
    forall t, id | HasTask(s'.db, t, id) && IsProposed(s'.db, id) ensures !Ever(s', TaskCreatedEvent(t)) {
      assert HasTask(s.db, t, id) && IsProposed(s.db, id);
    }
  }

  lemma StepKeepsAnnounceInv(s: State, a: Action)
    requires Inv(s) && AnnounceInv(s)
    ensures AnnounceInv(Step(s, a))
  {
    if a.Operate? && a.call < |s.calls| {
      OperateKeepsAnnounceInv(s, a.call);
    } else if a.Archive? {
      ArchiveKeepsAnnounceInv(s, a.key);
    }
  }

  lemma {:induction false} RunKeepsAnnounceInv(s: State, actions: seq<Action>)
    requires Init(s)
    ensures AnnounceInv(Run(s, actions))
  {
    if actions != [] {
      RunKeepsAnnounceInv(s, actions[..|actions| - 1]);
      RunKeepsInv(s, actions[..|actions| - 1]);
      StepKeepsAnnounceInv(Run(s, actions[..|actions| - 1]), actions[|actions| - 1]);
    }
  }

  /** A linked task has all its winners already, and none of them takes up announcing. */
  lemma OperateStaysSilent(s: State, k: nat, id: SuggestionId, t: TaskId, freed: bool)
    requires Inv(s) && k < |s.calls| && NeverAnnounced(s, id, t, freed)
    ensures NeverAnnounced(Step(s, Operate(k)), id, t, freed)
  {
    var c := s.calls[k];
    var (db', c') := OperateOne(s.db, c);
    OperationIsSound(s.db, c);
    OperationAnnounces(s.db, c);
    assert !WillAnnounce(s.db, c, t, freed);
    assert HasTask(s.db, t, id);
    if Won(c'.pc, t) && !Won(c.pc, t) {
      AcceptKeyIsInjective(id, c.id);
    }
    forall i | 0 <= i < |s.calls| && i != k ensures !WillAnnounce(db', s.calls[i], t, freed) {
      assert !WillAnnounce(s.db, s.calls[i], t, freed);
    }
  }

  /** The winners of a task belong to the suggestion that links to it. */
  lemma ArchiveStaysSilent(s: State, key: EventKey, id: SuggestionId, t: TaskId, freed: bool)
    requires Inv(s) && NeverAnnounced(s, id, t, freed) && (freed || key != AcceptedEvent(id))
    ensures NeverAnnounced(Step(s, Archive(key)), id, t, freed)
  {
    ArchiveKeepsEver(s, key, TaskCreatedEvent(t));
    var s' := Step(s, Archive(key));
    forall i | 0 <= i < |s.calls| ensures !WillAnnounce(s'.db, s.calls[i], t, freed) {
      assert !WillAnnounce(s.db, s.calls[i], t, freed) && CallInv(s.db, s.calls[i]);
      if Won(s.calls[i].pc, t) {
        AcceptKeyIsInjective(id, s.calls[i].id);
      }
    }
  }

  lemma StepStaysSilent(s: State, a: Action, id: SuggestionId, t: TaskId, freed: bool)
    requires Inv(s) && NeverAnnounced(s, id, t, freed) && (freed || a != Archive(AcceptedEvent(id)))
    ensures NeverAnnounced(Step(s, a), id, t, freed)
  {
    if a.Operate? && a.call < |s.calls| {
      OperateStaysSilent(s, a.call, id, t, freed);
    } else if a.Archive? {
      ArchiveStaysSilent(s, a.key, id, t, freed);
    } else {
      var s' := Step(s, a);
      forall i | 0 <= i < |s'.calls| ensures !WillAnnounce(s'.db, s'.calls[i], t, freed) {
        assert i < |s.calls| ==> !WillAnnounce(s.db, s.calls[i], t, freed);
      }
    }
  }

  lemma {:induction false} SilenceLasts(s: State, before: seq<Action>, after: seq<Action>, id: SuggestionId, t: TaskId, freed: bool)
    requires Init(s) && NeverAnnounced(Run(s, before), id, t, freed)
    requires freed || Archive(AcceptedEvent(id)) !in after
    ensures NeverAnnounced(Run(s, before + after), id, t, freed)
  {
    if after == [] {
      assert before + after == before;
    } else {
      var shorter, a := after[..|after| - 1], after[|after| - 1];
      SilenceLasts(s, before, shorter, id, t, freed);
      assert before + after == (before + shorter) + [a];
      RunSnoc(s, before + shorter, a);
      RunKeepsInv(s, before + shorter);
      StepStaysSilent(Run(s, before + shorter), a, id, t, freed);
    }
  }

  ghost predicate Announced(s: State, actions: seq<Action>, t: TaskId) {
    Ever(Run(s, actions), TaskCreatedEvent(t))
  }

  lemma WinnerSteps(r: State, i: nat)
    requires i < |r.calls| && r.calls[i].pc.EnqueueAccepted? && !Ever(r, TaskCreatedEvent(r.calls[i].pc.task))
    requires WillAnnounce(r.db, r.calls[i], r.calls[i].pc.task, false)
    ensures var t, next := r.calls[i].pc.task, Step(r, Operate(i));
            next.calls[i].pc == EnqueueCreated(t) && Ever(Step(next, Operate(i)), TaskCreatedEvent(t))
  {
  }

  lemma WinnerAnnounces(s: State, before: seq<Action>, i: nat)
    requires i < |Run(s, before).calls| && Run(s, before).calls[i].pc.EnqueueAccepted?
    requires var r := Run(s, before);
             !Ever(r, TaskCreatedEvent(r.calls[i].pc.task)) && WillAnnounce(r.db, r.calls[i], r.calls[i].pc.task, false)
    ensures var t := Run(s, before).calls[i].pc.task;
            && Run(s, before + [Operate(i)]).calls[i].pc == EnqueueCreated(t)
            && Announced(s, before + [Operate(i)] + [Operate(i)], t)
            && exists after :: Archive(AcceptedEvent(Run(s, before).calls[i].id)) !in after && Announced(s, before + after, t)
  {
    WinnerSteps(Run(s, before), i);
    RunSnoc(s, before, Operate(i));
    RunSnoc(s, before + [Operate(i)], Operate(i));
    var after := [Operate(i)] + [Operate(i)];
    assert before + after == before + [Operate(i)] + [Operate(i)];
    assert Archive(AcceptedEvent(Run(s, before).calls[i].id)) !in after;
  }

  lemma NobodyElseAnnounces(r: State, i: nat, freed: bool)
    requires Inv(r) && AnnounceInv(r) && i < |r.calls| && r.calls[i].pc.EnqueueAccepted?
    requires !WillAnnounce(r.db, r.calls[i], r.calls[i].pc.task, freed)
    ensures NeverAnnounced(r, r.calls[i].id, r.calls[i].pc.task, freed)
  {
    var c, t := r.calls[i], r.calls[i].pc.task;
    assert CallInv(r.db, c) && Won(c.pc, t);
    forall j | 0 <= j < |r.calls| ensures !WillAnnounce(r.db, r.calls[j], t, freed) {
      assert Won(r.calls[j].pc, t) ==> j == i;
    }
  }

  /**
   The task.created event of a converted suggestion.  At the call that won the swap it is
   not written yet.  As long as the accepted event is not archived, some continuation writes
   it exactly when that call inserted the task itself, finds the accepted event unwritten,
   and has not crashed; it is then the call's next write but one.  A winner that reused
   another call's task never writes it, and neither does that other call.
   */
  lemma {:induction false} AnnouncedExactlyWhen(s: State, before: seq<Action>, i: nat)
    requires Init(s) && i < |Run(s, before).calls| && Run(s, before).calls[i].pc.EnqueueAccepted?
    ensures var r := Run(s, before);
            var c := r.calls[i];
            var t := c.pc.task;
            var first := c.pc.created && AcceptedEvent(c.id) !in r.db.events && !c.crashed;
            && Linked(r.db, c.id, t) && !Announced(s, before, t)
            && ((exists after :: Archive(AcceptedEvent(c.id)) !in after && Announced(s, before + after, t)) <==> first)
            && (first ==> Run(s, before + [Operate(i)]).calls[i].pc == EnqueueCreated(t))
            && (first ==> Announced(s, before + [Operate(i)] + [Operate(i)], t))
  {
    var r := Run(s, before);
    var c := r.calls[i];
    var t := c.pc.task;
    RunKeepsInv(s, before);
    RunKeepsAnnounceInv(s, before);
    assert CallInv(r.db, c) && Won(c.pc, t);
    if WillAnnounce(r.db, c, t, false) {
      WinnerAnnounces(s, before, i);
    } else {
      NobodyElseAnnounces(r, i, false);
      forall after | Archive(AcceptedEvent(c.id)) !in after ensures !Announced(s, before + after, t) {
        SilenceLasts(s, before, after, c.id, t, false);
      }
    }
  }

  /** Archiving an accepted event that another call wrote lets the winner go on. */
  lemma WinnerStepsAfterArchive(s: State, before: seq<Action>, i: nat) returns (after: seq<Action>)
    requires i < |Run(s, before).calls| && Run(s, before).calls[i].pc.EnqueueAccepted?
    requires var r := Run(s, before);
             !Ever(r, TaskCreatedEvent(r.calls[i].pc.task)) && WillAnnounce(r.db, r.calls[i], r.calls[i].pc.task, true)
    ensures Announced(s, before + after, Run(s, before).calls[i].pc.task)
  {
    var r := Run(s, before);
    var t, key := r.calls[i].pc.task, AcceptedEvent(r.calls[i].id);
    var mid := Step(r, Archive(key));
    ArchiveKeepsEver(r, key, TaskCreatedEvent(t));
    WinnerSteps(mid, i);
    RunSnoc(s, before, Archive(key));
    RunSnoc(s, before + [Archive(key)], Operate(i));
    RunSnoc(s, before + [Archive(key)] + [Operate(i)], Operate(i));
    after := [Archive(key)] + [Operate(i)] + [Operate(i)];
    assert before + after == before + [Archive(key)] + [Operate(i)] + [Operate(i)];
  }

  /** Whatever is archived: task.created can still be written exactly when a winner that inserted the task has not crashed. */
  lemma {:induction false} AnnouncedAtAllExactlyWhen(s: State, before: seq<Action>, i: nat)
    requires Init(s) && i < |Run(s, before).calls| && Run(s, before).calls[i].pc.EnqueueAccepted?
    ensures var c := Run(s, before).calls[i];
            (exists after :: Announced(s, before + after, c.pc.task)) <==> c.pc.created && !c.crashed
  {
    var r := Run(s, before);
    var c := r.calls[i];
    RunKeepsInv(s, before);
    RunKeepsAnnounceInv(s, before);
    assert Won(c.pc, c.pc.task);
    if WillAnnounce(r.db, c, c.pc.task, true) {
      var after := WinnerStepsAfterArchive(s, before, i);
    } else {
      NobodyElseAnnounces(r, i, true);
      forall after ensures !Announced(s, before + after, c.pc.task) {
        SilenceLasts(s, before, after, c.id, c.pc.task, true);
      }
    }
  }

  /** The retry of an accept, and the loser that finds its own task linked: each returns normally exactly when the accepted event is not written yet. */
  lemma {:induction false} AcceptedAgainReturnsExactlyWhen(s: State, before: seq<Action>, i: nat)
    requires Init(s) && i < |Run(s, before).calls| && Run(s, before).calls[i].pc.EnqueueAgain?
    requires !Run(s, before).calls[i].crashed
    ensures var r := Run(s, before);
            var t, id := r.calls[i].pc.task, r.calls[i].id;
            var next := Run(s, before + [Operate(i)]).calls[i].pc;
            && Linked(r.db, id, t)
            && (next == Returned(Done(t)) <==> AcceptedEvent(id) !in r.db.events)
            && (next == Returned(DuplicateEvent) <==> AcceptedEvent(id) in r.db.events)
  {
    RunKeepsInv(s, before);
    RunSnoc(s, before, Operate(i));
    assert CallInv(Run(s, before).db, Run(s, before).calls[i]);
  }

  // ----- Runs of calls on one suggestion -----

  lemma Extend(s: State, actions: seq<Action>, a: Action, next: State) returns (longer: seq<Action>)
    requires Step(Run(s, actions), a) == next
    ensures longer == actions + [a] && Run(s, longer) == next
  {
    longer := actions + [a];
    RunSnoc(s, actions, a);
  }

  /** Nothing has been archived yet. */
  function At(db: Db, calls: seq<Call>): State {
    State(db, calls, multiset{})
  }

  function OnS1(pc: Pc): Call {
    Call("s1", pc, false)
  }

  const Fresh := At(Db(map["s1" := Suggestion(Proposed, None)], map[], {}, 0), [])
  const Inserted1 := Db(map["s1" := Suggestion(Proposed, None)], map[0 := AcceptKey("s1")], {}, 1)
  const Converted1 := Link(Inserted1, "s1", Suggestion(Converted, Some(0)))
  const Accepted1 := Converted1.(events := Converted1.events + {AcceptedEvent("s1")})
  const Announced1 := Accepted1.(events := Accepted1.events + {TaskCreatedEvent(0)})
  const Freed1 := Announced1.(events := Announced1.events - {AcceptedEvent("s1")})
  const Inserter := OnS1(Swap(0, true))
  const Winner := OnS1(EnqueueAccepted(0, true))
  const Reuser := OnS1(Returned(Done(0)))

  lemma Starts(actions: seq<Action>, r: State) returns (longer: seq<Action>)
    requires Run(Fresh, actions) == r
    ensures Run(Fresh, longer) == r.(calls := r.calls + [OnS1(Load)])
  {
    longer := Extend(Fresh, actions, StartAccept("s1"), r.(calls := r.calls + [OnS1(Load)]));
  }

  /** The call started last moves. */
  lemma LastMoves(actions: seq<Action>, r: State, calls: seq<Call>, pc: Pc, db': Db, pc': Pc) returns (longer: seq<Action>)
    requires Run(Fresh, actions) == r && r.calls == calls + [OnS1(pc)] && !IsDismiss(pc)
    requires AcceptStep(r.db, "s1", pc) == (db', pc')
    ensures Run(Fresh, longer) == r.(db := db', calls := calls + [OnS1(pc')])
  {
    longer := Extend(Fresh, actions, Operate(|calls|), r.(db := db', calls := calls + [OnS1(pc')]));
  }

  /** The call started first moves. */
  lemma FirstMoves(actions: seq<Action>, r: State, pc: Pc, calls: seq<Call>, db': Db, pc': Pc) returns (longer: seq<Action>)
    requires Run(Fresh, actions) == r && r.calls == [OnS1(pc)] + calls && !IsDismiss(pc)
    requires AcceptStep(r.db, "s1", pc) == (db', pc')
    ensures Run(Fresh, longer) == r.(db := db', calls := [OnS1(pc')] + calls)
  {
    longer := Extend(Fresh, actions, Operate(0), r.(db := db', calls := [OnS1(pc')] + calls));
  }

  lemma FirstAcceptReachesInsert() returns (actions: seq<Action>)
    ensures Run(Fresh, actions) == At(Fresh.db, [OnS1(Insert)])
  {
    actions := Starts([], Fresh);
    actions := LastMoves(actions, At(Fresh.db, [] + [OnS1(Load)]), [], Load, Fresh.db, FindExisting);
    actions := LastMoves(actions, At(Fresh.db, [] + [OnS1(FindExisting)]), [], FindExisting, Fresh.db, Insert);
  }

  lemma FirstAcceptInserts() returns (actions: seq<Action>)
    ensures Run(Fresh, actions) == At(Inserted1, [Inserter])
  {
    actions := FirstAcceptReachesInsert();
    actions := LastMoves(actions, At(Fresh.db, [] + [OnS1(Insert)]), [], Insert, Inserted1, Swap(0, true));
  }

  lemma FirstAcceptSwaps() returns (actions: seq<Action>)
    ensures Run(Fresh, actions) == At(Converted1, [Winner])
  {
    actions := FirstAcceptInserts();
    actions := LastMoves(actions, At(Inserted1, [] + [Inserter]), [], Swap(0, true), Converted1, EnqueueAccepted(0, true));
  }

  /** A second accept of the converted suggestion, up to its only write. */
  lemma SecondAcceptFinds(actions: seq<Action>, r: State) returns (longer: seq<Action>)
    requires Run(Fresh, actions) == r && r.db.suggestions == Converted1.suggestions && r.db.tasks == Converted1.tasks
    ensures Run(Fresh, longer) == r.(calls := r.calls + [OnS1(EnqueueAgain(0))])
  {
    longer := Starts(actions, r);
    longer := LastMoves(longer, r.(calls := r.calls + [OnS1(Load)]), r.calls, Load, r.db, FindConverted(0));
    longer := LastMoves(longer, r.(calls := r.calls + [OnS1(FindConverted(0))]), r.calls, FindConverted(0), r.db, EnqueueAgain(0));
  }

  /** The overtaking is reachable: a second accept runs between the first one's swap and its event. */
  lemma WinnerCanBeOvertaken() returns (actions: seq<Action>)
    ensures Init(Fresh)
    ensures Run(Fresh, actions).calls == [OnS1(Returned(DuplicateEvent)), OnS1(Returned(Done(0)))]
    ensures Linked(Run(Fresh, actions).db, "s1", 0) && !Announced(Fresh, actions, 0)
  {
    actions := FirstAcceptSwaps();
    actions := SecondAcceptFinds(actions, At(Converted1, [Winner]));
    actions := LastMoves(actions, At(Converted1, [Winner] + [OnS1(EnqueueAgain(0))]), [Winner], EnqueueAgain(0), Accepted1, Returned(Done(0)));
    actions := FirstMoves(actions, At(Accepted1, [Winner] + [Reuser]), EnqueueAccepted(0, true), [Reuser], Accepted1, Returned(DuplicateEvent));
  }

  /** A second accept finds the first one's task and wins the swap with it. */
  lemma ReuserSwaps() returns (actions: seq<Action>)
    ensures Run(Fresh, actions) == At(Converted1, [Inserter] + [OnS1(EnqueueAccepted(0, false))])
  {
    actions := FirstAcceptInserts();
    actions := Starts(actions, At(Inserted1, [Inserter]));
    actions := LastMoves(actions, At(Inserted1, [Inserter] + [OnS1(Load)]), [Inserter], Load, Inserted1, FindExisting);
    OnlyTaskIsFound();
    actions := LastMoves(actions, At(Inserted1, [Inserter] + [OnS1(FindExisting)]), [Inserter], FindExisting, Inserted1, Swap(0, false));
    actions := LastMoves(actions, At(Inserted1, [Inserter] + [OnS1(Swap(0, false))]), [Inserter], Swap(0, false),
                         Converted1, EnqueueAccepted(0, false));
  }

  lemma OnlyTaskIsFound()
    ensures FindByKey(Inserted1, AcceptKey("s1")) == Some(0)
  {
    assert 0 in Inserted1.tasks && Inserted1.tasks[0] == AcceptKey("s1");
  }

  /** The accept that inserted the task loses and finds its task linked. */
  lemma InserterLoses(actions: seq<Action>) returns (longer: seq<Action>)
    requires Run(Fresh, actions) == At(Accepted1, [Inserter] + [Reuser])
    ensures Run(Fresh, longer) == At(Accepted1, [OnS1(EnqueueAgain(0))] + [Reuser])
  {
    longer := FirstMoves(actions, At(Accepted1, [Inserter] + [Reuser]), Swap(0, true), [Reuser], Accepted1, Reload(0, true));
    longer := FirstMoves(longer, At(Accepted1, [OnS1(Reload(0, true))] + [Reuser]), Reload(0, true), [Reuser], Accepted1, EnqueueAgain(0));
  }

  /**
   Nobody need crash or overtake: the accept that inserted the task loses the swap to one
   that reused it, both are done, the suggestion is linked, and task.created is not written.
   */
  lemma ReuserNeverAnnounces() returns (actions: seq<Action>)
    ensures Init(Fresh) && Settled(Run(Fresh, actions), "s1")
    ensures Run(Fresh, actions).calls == [OnS1(Returned(DuplicateEvent)), Reuser]
    ensures Linked(Run(Fresh, actions).db, "s1", 0) && !Announced(Fresh, actions, 0)
  {
    actions := ReuserSwaps();
    actions := LastMoves(actions, At(Converted1, [Inserter] + [OnS1(EnqueueAccepted(0, false))]), [Inserter], EnqueueAccepted(0, false),
                         Accepted1, Returned(Done(0)));
    actions := InserterLoses(actions);
    actions := FirstMoves(actions, At(Accepted1, [OnS1(EnqueueAgain(0))] + [Reuser]), EnqueueAgain(0), [Reuser],
                          Accepted1, Returned(DuplicateEvent));
  }

  // ----- Every number of accepts can return -----

  lemma FirstAcceptReturns() returns (actions: seq<Action>)
    ensures Run(Fresh, actions) == At(Announced1, [Reuser])
  {
    actions := FirstAcceptSwaps();
    actions := LastMoves(actions, At(Converted1, [] + [Winner]), [], EnqueueAccepted(0, true), Accepted1, EnqueueCreated(0));
    actions := LastMoves(actions, At(Accepted1, [] + [OnS1(EnqueueCreated(0))]), [], EnqueueCreated(0), Announced1, Returned(Done(0)));
  }

  function Reusers(n: nat): (calls: seq<Call>)
    ensures |calls| == n
  {
    if n == 0 then [] else Reusers(n - 1) + [Reuser]
  }

  lemma NormalReturnsSnoc(calls: seq<Call>, c: Call, id: SuggestionId)
    ensures NormalReturns(calls + [c], id) == NormalReturns(calls, id) + if c.id == id && ReturnedNormally(c) then 1 else 0
  {
    assert (calls + [c])[..|calls|] == calls;
  }

  lemma {:induction false} AllReturned(n: nat)
    ensures NormalReturns(Reusers(n), "s1") == n
  {
    if n > 0 {
      AllReturned(n - 1);
      NormalReturnsSnoc(Reusers(n - 1), Reuser, "s1");
    }
  }

  lemma FreedIsAcceptedAgain()
    ensures AcceptStep(Freed1, "s1", EnqueueAgain(0)) == (Announced1, Returned(Done(0)))
  {
    assert Freed1.events + {AcceptedEvent("s1")} == Announced1.events;
  }

  /** Archiving the accepted event lets one more accept of the converted suggestion return. */
  lemma OneMoreReturns(actions: seq<Action>, r: State) returns (longer: seq<Action>)
    requires Run(Fresh, actions) == r && r.db == Announced1
    ensures Run(Fresh, longer)
         == State(Announced1, r.calls + [Reuser], r.archived + multiset{AcceptedEvent("s1")})
  {
    var freed := State(Freed1, r.calls, r.archived + multiset{AcceptedEvent("s1")});
    longer := Extend(Fresh, actions, Archive(AcceptedEvent("s1")), freed);
    longer := SecondAcceptFinds(longer, freed);
    FreedIsAcceptedAgain();
    longer := LastMoves(longer, freed.(calls := r.calls + [OnS1(EnqueueAgain(0))]), r.calls, EnqueueAgain(0), Announced1, Returned(Done(0)));
  }

  lemma {:induction false} ReusersReached(n: nat) returns (actions: seq<Action>)
    ensures var r := Run(Fresh, actions);
            r.db == Announced1 && r.calls == Reusers(n + 1) && r.archived[AcceptedEvent("s1")] == n
  {
    if n == 0 {
      actions := FirstAcceptReturns();
      assert Reusers(1) == Reusers(0) + [Reuser] == [Reuser];
    } else {
      actions := ReusersReached(n - 1);
      actions := OneMoreReturns(actions, Run(Fresh, actions));
      assert Reusers(n + 1) == Reusers(n) + [Reuser];
    }
  }

  /** The bound is attained for every number: n archivings let n + 1 accepts return normally. */
  lemma {:induction false} EveryNumberReturns(n: nat) returns (actions: seq<Action>)
    ensures Init(Fresh)
    ensures var r := Run(Fresh, actions);
            r.archived[AcceptedEvent("s1")] == n && NormalReturns(r.calls, "s1") == n + 1
  {
    AllReturned(n + 1);
    actions := ReusersReached(n);
  }
}
