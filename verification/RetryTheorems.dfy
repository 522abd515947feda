/** What holds in every run of retries and scanners, which steps lose a retry, and runs that do. */
module RetryTheorems {
  import opened Wrappers
  import opened RetryProtocol

  /** The task is ready, its retry's event was never written, and nobody is left to write it or to put the task back. */
  ghost predicate Lost(s: State) {
    s.lifecycle.Ready? && Due(s) && !Answered(s)
  }

  /** A scanner crashed or failed to revert. */
  ghost predicate SomeScannerStopped(s: State) {
    exists i :: 0 <= i < |s.scanners| && s.scanners[i].crashed
  }

  /** A scanner's shadow write took this retry away. */
  ghost predicate SomeSaveOverwrote(s: State, count: nat) {
    exists i :: 0 <= i < |s.scanners| && s.scanners[i].saved && s.scanners[i].overwrote == Some(count)
  }

  lemma RunSnoc(s: State, actions: seq<Action>, a: Action)
    ensures Run(s, actions + [a]) == Step(Run(s, actions), a)
  {
    assert (actions + [a])[..|actions|] == actions;
  }

  /**
   However scanners interleave, with and without transactions: each retry count is enqueued
   at most once more than its event was archived, no retry is lost unless a scanner crashed,
   failed to revert or overwrote it by its shadow write, and a transaction whose shadow write
   took effect has not committed.
   */
  lemma NoRetryIsLost(s: State, actions: seq<Action>)
    requires Init(s)
    ensures var r := Run(s, actions);
            && (forall c :: r.archived[c] <= r.enqueued[c] <= r.archived[c] + 1)
            && (Lost(r) ==> SomeScannerStopped(r) || SomeSaveOverwrote(r, r.retryCount))
            && (forall i :: 0 <= i < |r.scanners| && r.scanners[i].saved ==> !r.scanners[i].pc.TxCommitted?)
  {
    RunKeepsInv(s, actions);
    if Lost(Run(s, actions)) {
      LostIsAccounted(Run(s, actions));
    }
  }

  lemma LostIsAccounted(r: State)
    requires ReadyAccounted(r) && SavedAreOver(r) && Lost(r)
    ensures SomeScannerStopped(r) || SomeSaveOverwrote(r, r.retryCount)
  {
    var i :| 0 <= i < |r.scanners| && Accounts(r.scanners[i], r.retryCount);
    assert r.scanners[i].crashed || r.scanners[i].overwrote == Some(r.retryCount);
  }

  // ----- The steps that lose a retry -----

  /** The scanner's next operation is a shadow write that takes effect and writes the lifecycle. */
  predicate SavesReady(s: State, i: nat, fails: bool) {
    && i < |s.scanners| && !s.scanners[i].crashed && !fails && s.holder.None?
    && (s.scanners[i].pc.SaveShadow? || s.scanners[i].pc.TxSave?) && !s.scanners[i].pc.loadedReady
  }

  ghost predicate OthersAnswer(s: State, i: nat) {
    exists j :: 0 <= j < |s.scanners| && j != i && Answers(s.scanners[j], s.retryCount)
  }

  /** The action stops the only scanner that answers for the current retry. */
  ghost predicate StopsTheOnlyAnswer(s: State, a: Action) {
    && (a.Crash? || (a.Write? && a.fails))
    && a.scanner < |s.scanners| && Answers(s.scanners[a.scanner], s.retryCount)
    && (a.Write? ==> s.scanners[a.scanner].pc.Revert?)
    && !OthersAnswer(s, a.scanner)
  }

  ghost predicate LosesRetry(s: State, a: Action) {
    && Due(s)
    && ((a.Write? && SavesReady(s, a.scanner, a.fails) && s.lifecycle.RetryScheduled? && !Answered(s))
        || (s.lifecycle.Ready? && StopsTheOnlyAnswer(s, a)))
  }

  lemma AnswerSurvives(s: State, s': State, j: nat)
    requires j < |s.scanners| && j < |s'.scanners| && Answers(s.scanners[j], s.retryCount)
    requires s'.scanners[j] == s.scanners[j] && s'.retryCount == s.retryCount
    ensures Answered(s')
  {
  }

  /** Where one scanner moved, the retry is answered by that scanner or by the others as before. */
  lemma AnsweredAfterMove(s: State, s': State, i: nat)
    requires i < |s.scanners| == |s'.scanners| && s'.retryCount == s.retryCount
    requires forall j :: 0 <= j < |s.scanners| && j != i ==> s'.scanners[j] == s.scanners[j]
    ensures Answered(s') <==> Answers(s'.scanners[i], s.retryCount) || OthersAnswer(s, i)
    ensures Answered(s) <==> Answers(s.scanners[i], s.retryCount) || OthersAnswer(s, i)
  {
    if OthersAnswer(s, i) {
      var j :| 0 <= j < |s.scanners| && j != i && Answers(s.scanners[j], s.retryCount);
      AnswerSurvives(s, s', j);
    }
  }

  lemma SaveLosesExactlyWhen(s: State, i: nat)
    requires Inv(s) && !Lost(s) && i < |s.scanners| && !s.scanners[i].crashed
    requires s.scanners[i].pc.SaveShadow? || s.scanners[i].pc.TxSave?
    ensures Lost(Step(s, Write(i, false))) <==> LosesRetry(s, Write(i, false))
  {
    AnsweredAfterMove(s, Step(s, Write(i, false)), i);
  }

  lemma RevertLosesExactlyWhen(s: State, i: nat, fails: bool)
    requires Inv(s) && !Lost(s) && i < |s.scanners| && !s.scanners[i].crashed && s.scanners[i].pc.Revert?
    ensures Lost(Step(s, Write(i, fails))) <==> LosesRetry(s, Write(i, fails))
  {
    AnsweredAfterMove(s, Step(s, Write(i, fails)), i);
  }

  lemma EnqueueLosesNothing(s: State, i: nat, fails: bool)
    requires Inv(s) && !Lost(s) && i < |s.scanners| && !s.scanners[i].crashed && s.scanners[i].pc.Enqueue?
    ensures !Lost(Step(s, Write(i, fails)))
  {
    var s' := Step(s, Write(i, fails));
    AnsweredAfterMove(s, s', i);
    if !fails && s.scanners[i].pc.count !in s.events && s.scanners[i].pc.count == s.retryCount {
      assert s'.enqueued[s.retryCount] > 0;
    }
  }

  lemma MoveLosesNothing(s: State, i: nat, fails: bool)
    requires Inv(s) && !Lost(s) && i < |s.scanners| && !s.scanners[i].crashed
    requires !s.scanners[i].pc.Revert? && !s.scanners[i].pc.Enqueue? && !s.scanners[i].pc.TxCommit?
    requires fails || !(s.scanners[i].pc.SaveShadow? || s.scanners[i].pc.TxSave?)
    ensures !Lost(Step(s, Write(i, fails)))
  {
    AnsweredAfterMove(s, Step(s, Write(i, fails)), i);
  }

  lemma CommitLosesNothing(s: State, i: nat, fails: bool)
    requires Inv(s) && !Lost(s) && i < |s.scanners| && !s.scanners[i].crashed && s.scanners[i].pc.TxCommit?
    ensures !Lost(Step(s, Write(i, fails)))
  {
    var s' := Step(s, Write(i, fails));
    AnsweredAfterMove(s, s', i);
    if s.holder == Some(i) && !fails && s.scanners[i].pc.count !in s.events {
      assert s'.enqueued[s.retryCount] > 0;
    }
  }

  lemma WriteLosesExactlyWhen(s: State, i: nat, fails: bool)
    requires Inv(s) && !Lost(s) && i < |s.scanners| && !s.scanners[i].crashed
    ensures Lost(Step(s, Write(i, fails))) <==> LosesRetry(s, Write(i, fails))
  {
    var pc := s.scanners[i].pc;
    if !fails && (pc.SaveShadow? || pc.TxSave?) {
      SaveLosesExactlyWhen(s, i);
    } else if pc.Revert? {
      RevertLosesExactlyWhen(s, i, fails);
    } else if pc.Enqueue? {
      EnqueueLosesNothing(s, i, fails);
    } else if pc.TxCommit? {
      CommitLosesNothing(s, i, fails);
    } else {
      MoveLosesNothing(s, i, fails);
    }
  }

  lemma CrashLosesExactlyWhen(s: State, i: nat)
    requires Inv(s) && !Lost(s)
    ensures Lost(Step(s, Crash(i))) <==> LosesRetry(s, Crash(i))
  {
    if i < |s.scanners| && !IsDone(s.scanners[i].pc) {
      AnsweredAfterMove(s, Step(s, Crash(i)), i);
    }
  }

  lemma OtherStepLosesNothing(s: State, a: Action)
    requires Inv(s) && !Lost(s) && !a.Write? && !a.Crash?
    ensures !Lost(Step(s, a))
  {
    var s' := Step(s, a);
    if a.Claim? && s.lifecycle.RetryScheduled? && s.holder.None? {
      assert Answers(s'.scanners[|s.scanners|], s.retryCount);
    } else if s.lifecycle.Ready? && Due(s) && s'.retryCount == s.retryCount {
      var j :| 0 <= j < |s.scanners| && Answers(s.scanners[j], s.retryCount);
      AnswerSurvives(s, s', j);
    }
  }

  /**
   The steps that lose a retry, in every run: a shadow write that makes a waiting task ready
   while no scanner answers for it, and the crash or the failed revert of the only scanner
   that does.  No other step does.
   */
  lemma LostExactlyWhen(s: State, before: seq<Action>, a: Action)
    requires Init(s) && !Lost(Run(s, before))
    ensures Lost(Run(s, before + [a])) <==> LosesRetry(Run(s, before), a)
  {
    var r := Run(s, before);
    RunKeepsInv(s, before);
    RunSnoc(s, before, a);
    if a.Crash? {
      CrashLosesExactlyWhen(r, a.scanner);
    } else if !a.Write? {
      OtherStepLosesNothing(r, a);
    } else if a.scanner < |r.scanners| && !r.scanners[a.scanner].crashed {
      WriteLosesExactlyWhen(r, a.scanner, a.fails);
    }
  }

  ghost predicate ScannersDone(s: State) {
    s.holder.None? && forall i :: 0 <= i < |s.scanners| ==> s.scanners[i].crashed || IsDone(s.scanners[i].pc)
  }

  /** No later scanner pass ever finds a lost retry: only a new execution or a new failure changes the task. */
  lemma {:induction false} LostForGood(r: State, after: seq<Action>)
    requires Lost(r) && ScannersDone(r)
    requires forall k :: 0 <= k < |after| ==> !after[k].Schedule? && !after[k].Execute?
    ensures var end := Run(r, after);
            Lost(end) && end.retryCount == r.retryCount && end.scanners == r.scanners && ScannersDone(end)
  {
    if after != [] {
      LostForGood(r, after[..|after| - 1]);
    }
  }

  // ----- One transactional pass -----

  ghost predicate Waiting(s: State) {
    s.lifecycle.RetryScheduled? && Due(s) && s.holder.None? && s.retryCount !in s.events && !Answered(s)
  }

  /** Only the scanner that begins moves, and the server may abort it. */
  ghost predicate OnlyMoves(moves: seq<Action>, i: nat) {
    forall k :: 0 <= k < |moves| ==> moves[k] == Abort(i) || moves[k] == Write(i, false) || moves[k] == Write(i, true)
  }

  /** Where the pass stands: nothing written, the shadow write only, or claim and event together. */
  ghost predicate InPass(s: State, r: State) {
    var i := |s.scanners|;
    && |r.scanners| == i + 1 && r.scanners[..i] == s.scanners && !r.scanners[i].crashed
    && (r.holder.None? || r.holder == Some(i))
    && var sc := r.scanners[i];
       if sc.saved then
         sc.pc.TxOver? && s.fsmScheduled
         && r == s.(lifecycle := Ready, fsmScheduled := false, holder := None, scanners := r.scanners)
       else if sc.pc.TxCommitted? then
         r == InsertEvent(s, s.retryCount).(lifecycle := Ready, holder := None, scanners := r.scanners)
       else
         && r == s.(holder := r.holder, scanners := r.scanners)
         && (sc.pc == TxLoad(s.retryCount) || sc.pc == TxCommit(s.retryCount) || sc.pc.Threw? || sc.pc.TxOver?
             || (sc.pc == TxSave(s.retryCount, false) && s.fsmScheduled))
  }

  /** The pass after some moves of its own. */
  function Pass(s: State, moves: seq<Action>): State {
    Run(Step(s, Begin), moves)
  }

  lemma InSnoc(moves: seq<Action>, a: Action)
    requires moves != []
    ensures a in moves <==> a in moves[..|moves| - 1] || a == moves[|moves| - 1]
  {
    assert moves == moves[..|moves| - 1] + [moves[|moves| - 1]];
  }

  lemma BeginIsInPass(s: State)
    requires Waiting(s)
    ensures InPass(s, Step(s, Begin))
  {
  }

  lemma MoveStaysInPass(s: State, r: State, a: Action)
    requires Waiting(s) && InPass(s, r) && OnlyMoves([a], |s.scanners|)
    ensures InPass(s, Step(r, a))
  {
    assert [a][0] == a;
  }

  predicate Committing(pc: Pc) {
    pc.TxCommit? || pc.TxCommitted?
  }

  /** What one move of the pass needs. */
  lemma MoveInPass(s: State, r: State, a: Action)
    requires Waiting(s) && InPass(s, r) && OnlyMoves([a], |s.scanners|)
    ensures var i, r' := |s.scanners|, Step(r, a);
            && |r'.scanners| == i + 1
            && (r'.scanners[i].saved ==> r.scanners[i].saved || (r.holder.None? && !IsDone(r.scanners[i].pc)))
            && (r.holder == Some(i) && a != Abort(i) ==> r'.holder == Some(i) || IsDone(r'.scanners[i].pc))
            && (IsDone(r.scanners[i].pc) ==> r'.scanners[i] == r.scanners[i])
            && (s.fsmScheduled && Committing(r'.scanners[i].pc) ==> Committing(r.scanners[i].pc) || a == Write(i, true))
  {
    assert [a][0] == a;
  }

  lemma {:induction false} PassStaysInPass(s: State, moves: seq<Action>)
    requires Waiting(s) && OnlyMoves(moves, |s.scanners|)
    ensures InPass(s, Pass(s, moves))
  {
    if moves == [] {
      BeginIsInPass(s);
    } else {
      var shorter, a := moves[..|moves| - 1], moves[|moves| - 1];
      PassStaysInPass(s, shorter);
      MoveStaysInPass(s, Pass(s, shorter), a);
    }
  }

  lemma NobodyAnswersInPass(s: State, r: State)
    requires Waiting(s) && InPass(s, r)
    ensures !Answered(r)
  {
    forall j | 0 <= j < |r.scanners| ensures !Answers(r.scanners[j], r.retryCount) {
      if j < |s.scanners| {
        assert r.scanners[j] == r.scanners[..|s.scanners|][j];
      }
    }
  }

  /**
   A transactional pass over a waiting task that nobody else disturbs, with any failures and
   aborts: it loses the retry exactly when its shadow write takes effect, which takes an
   execution state of retry_scheduled; it writes the event exactly when it commits; and
   otherwise it leaves the task as it was.
   */
  lemma TransactionalPass(s: State, moves: seq<Action>)
    requires Waiting(s) && OnlyMoves(moves, |s.scanners|)
    ensures var r := Pass(s, moves);
            && |r.scanners| == |s.scanners| + 1
            && var sc := r.scanners[|s.scanners|];
               && (Lost(r) <==> sc.saved)
               && (sc.saved ==> s.fsmScheduled && !sc.pc.TxCommitted?)
               && (sc.pc.TxCommitted? <==> !Due(r))
               && (sc.pc.TxCommitted? ==> r.lifecycle.Ready? && r.retryCount in r.events)
               && (!sc.saved && !sc.pc.TxCommitted? ==> r == s.(holder := r.holder, scanners := r.scanners))
  {
    var r := Pass(s, moves);
    PassStaysInPass(s, moves);
    NobodyAnswersInPass(s, r);
    assert r.scanners[|s.scanners|].pc.TxCommitted? ==> r.enqueued[s.retryCount] > 0;
  }

  /**
   The save of the pass waits for the transaction that itself waits for the save.  So, with
   the execution state at retry_scheduled, the pass commits only after its save has failed,
   and saves only after its transaction was aborted; undisturbed it does neither.
   */
  lemma {:induction false} SaveWaitsForItsTransaction(s: State, moves: seq<Action>)
    requires Waiting(s) && OnlyMoves(moves, |s.scanners|)
    ensures var i, r := |s.scanners|, Pass(s, moves);
            && |r.scanners| == i + 1
            && (r.scanners[i].saved ==> Abort(i) in moves)
            && (Abort(i) !in moves && !IsDone(r.scanners[i].pc) ==> r.holder == Some(i))
            && (s.fsmScheduled && Committing(r.scanners[i].pc) ==> Write(i, true) in moves)
  {
    if moves != [] {
      var i, shorter, a := |s.scanners|, moves[..|moves| - 1], moves[|moves| - 1];
      SaveWaitsForItsTransaction(s, shorter);
      PassStaysInPass(s, shorter);
      InSnoc(moves, Abort(i));
      InSnoc(moves, Write(i, true));
      MoveInPass(s, Pass(s, shorter), a);
    }
  }

  lemma UndisturbedMove(s: State, r: State)
    requires Waiting(s) && InPass(s, r)
    ensures var i, count, pc, next := |s.scanners|, s.retryCount, r.scanners[|s.scanners|].pc, Step(r, Write(|s.scanners|, false));
            && |next.scanners| == i + 1
            && (pc.TxLoad? && r.holder == Some(i) ==>
                  next.holder == Some(i) && next.scanners[i].pc == if s.fsmScheduled then TxSave(count, false) else TxCommit(count))
            && ((pc.TxSave? && r.holder == Some(i)) || pc.TxCommitted? ==> next == r)
            && (pc.TxCommit? && r.holder == Some(i) ==> next.scanners[i].pc.TxCommitted?)
  {
  }

  /** Without failures and aborts a pass promotes the task exactly when the execution state is not at retry_scheduled. */
  lemma {:induction false} UndisturbedPass(s: State, moves: seq<Action>)
    requires Waiting(s) && forall k :: 0 <= k < |moves| ==> moves[k] == Write(|s.scanners|, false)
    ensures var i, r := |s.scanners|, Pass(s, moves);
            && |r.scanners| == i + 1
            && (r.scanners[i].pc.TxCommitted? <==> |moves| >= 2 && !s.fsmScheduled)
            && (r.scanners[i].pc.TxSave? <==> |moves| >= 1 && s.fsmScheduled)
            && (r.scanners[i].pc.TxLoad? <==> |moves| == 0)
            && (!r.scanners[i].pc.TxCommitted? ==> r.holder == Some(i) && !IsDone(r.scanners[i].pc))
  {
    if moves != [] {
      var shorter := moves[..|moves| - 1];
      UndisturbedPass(s, shorter);
      PassStaysInPass(s, shorter);
      UndisturbedMove(s, Pass(s, shorter));
      assert Pass(s, moves) == Step(Pass(s, shorter), Write(|s.scanners|, false));
    }
  }

  // ----- Scheduling -----

  /** Successive calls, and how many of them scheduled a retry. */
  function Schedules(s: State, calls: seq<bool>): (State, nat) {
    if calls == [] then (s, 0)
    else
      var (before, n) := Schedules(s, calls[..|calls| - 1]);
      var after := ScheduleRetry(before, calls[|calls| - 1]);
      (after, n + if after.lifecycle.RetryScheduled? then 1 else 0)
  }

  function Retryable(calls: seq<bool>): nat {
    if calls == [] then 0 else Retryable(calls[..|calls| - 1]) + if calls[|calls| - 1] then 1 else 0
  }

  function Budget(s: State): nat {
    if s.maxRetries > s.retryCount then s.maxRetries - s.retryCount else 0
  }

  /** Every call raises the count by one; those that schedule are the retryable ones among as many calls as the budget leaves. */
  lemma {:induction false} RetriesAreBounded(s: State, calls: seq<bool>)
    ensures Schedules(s, calls).0.retryCount == s.retryCount + |calls|
    ensures Schedules(s, calls).0.maxRetries == s.maxRetries
    ensures Schedules(s, calls).1 == Retryable(if |calls| <= Budget(s) then calls else calls[..Budget(s)])
    ensures Schedules(s, calls).1 <= Budget(s)
  {
    if calls != [] {
      var init := calls[..|calls| - 1];
      RetriesAreBounded(s, init);
      if |calls| > Budget(s) {
        assert init[..Budget(s)] == calls[..Budget(s)];
      }
    }
    RetryableAtMostAll(if |calls| <= Budget(s) then calls else calls[..Budget(s)]);
  }

  lemma {:induction false} RetryableAtMostAll(calls: seq<bool>)
    ensures Retryable(calls) <= |calls|
  {
    if calls != [] {
      RetryableAtMostAll(calls[..|calls| - 1]);
    }
  }

  // ----- One pass without a transaction -----

  ghost predicate OnlyWrites(moves: seq<Action>, i: nat) {
    forall k :: 0 <= k < |moves| ==> moves[k] == Write(i, false) || moves[k] == Write(i, true)
  }

  /** The pass has inserted its event. */
  predicate HasInserted(pc: Pc) {
    pc.CreateAction? || pc.EmitShadow? || pc.SaveShadow? || pc.Promoted?
  }

  /** Where the pass stands: the task is ready while it goes on and once promoted; whoever throws has put it back, or failed to. */
  ghost predicate InClaimedPass(s: State, r: State) {
    var i, count := |s.scanners|, s.retryCount;
    && |r.scanners| == i + 1 && r.retryCount == count && r.holder.None?
    && var sc := r.scanners[i];
       && (sc.pc.Enqueue? || sc.pc.Revert? || sc.pc.Threw? || HasInserted(sc.pc))
       && (sc.pc.SaveShadow? ==> sc.pc.loadedReady)
       && ((sc.pc.Enqueue? || sc.pc.CreateAction? || sc.pc.EmitShadow? || sc.pc.SaveShadow? || sc.pc.Revert?) ==> sc.pc.count == count)
       && (sc.crashed ==> sc.pc.Threw?)
       && r.lifecycle == (if sc.pc.Threw? && !sc.crashed then RetryScheduled else Ready)
       && (HasInserted(sc.pc) ==> count !in s.events && r.events == s.events + {count})
       && (sc.pc.Enqueue? ==> r.events == s.events)
       && (count in s.events ==> r.events == s.events)
  }

  lemma ClaimEnqueues(s: State, r: State, fails: bool)
    requires InClaimedPass(s, r) && r.scanners[|s.scanners|].pc.Enqueue?
    ensures InClaimedPass(s, Step(r, Write(|s.scanners|, fails)))
  {
  }

  lemma ClaimMoves(s: State, r: State, fails: bool)
    requires InClaimedPass(s, r) && !r.scanners[|s.scanners|].pc.Enqueue?
    ensures InClaimedPass(s, Step(r, Write(|s.scanners|, fails)))
  {
  }

  lemma ClaimStaysInPass(s: State, r: State, a: Action)
    requires InClaimedPass(s, r) && OnlyWrites([a], |s.scanners|)
    ensures InClaimedPass(s, Step(r, a))
  {
    assert [a][0] == a;
    if r.scanners[|s.scanners|].pc.Enqueue? {
      ClaimEnqueues(s, r, a.fails);
    } else {
      ClaimMoves(s, r, a.fails);
    }
  }

  /**
   A pass without a transaction that nobody disturbs, with any failures: it promotes the
   task, ready and with its event, or throws with the task back in retry_scheduled, unless
   that write failed too.  It never promotes where the event exists.
   */
  lemma {:induction false} ClaimedPass(s: State, moves: seq<Action>)
    requires s.lifecycle.RetryScheduled? && s.holder.None? && OnlyWrites(moves, |s.scanners|)
    ensures var r := Run(Step(s, Claim), moves);
            && InClaimedPass(s, r)
            && var sc := r.scanners[|s.scanners|];
               && (sc.pc.Promoted? ==> r.lifecycle.Ready? && s.retryCount in r.events && s.retryCount !in s.events)
               && (sc.pc.Threw? ==> (r.lifecycle.RetryScheduled? <==> !sc.crashed))
  {
    if moves != [] {
      var shorter, a := moves[..|moves| - 1], moves[|moves| - 1];
      ClaimedPass(s, shorter);
      ClaimStaysInPass(s, Run(Step(s, Claim), shorter), a);
    }
  }

  /** The outcome of a pass is that of its operations: it throws exactly when one before the save fails, the insert into an existing event included. */
  lemma ClaimedPassFails(r: State, i: nat, fails: bool)
    requires i < |r.scanners| && !r.scanners[i].crashed && r.holder.None?
    requires r.scanners[i].pc.Enqueue? || r.scanners[i].pc.CreateAction? || r.scanners[i].pc.EmitShadow? || r.scanners[i].pc.SaveShadow?
    ensures var pc, next := r.scanners[i].pc, Step(r, Write(i, fails)).scanners[i].pc;
            && (next.Revert? <==> !pc.SaveShadow? && (fails || (pc.Enqueue? && pc.count in r.events)))
            && (next.Promoted? <==> pc.SaveShadow? || (pc.EmitShadow? && !fails && !r.fsmScheduled))
  {
  }

  // ----- Runs that lose a retry -----

  lemma Extend(s: State, actions: seq<Action>, a: Action, next: State) returns (longer: seq<Action>)
    requires Step(Run(s, actions), a) == next
    ensures longer == actions + [a] && Run(s, longer) == next
  {
    longer := actions + [a];
    RunSnoc(s, actions, a);
  }

  /** A task whose retry is waiting, before any scanner. */
  function Scheduled(count: nat, maxRetries: int, fsmScheduled: bool): State {
    State(RetryScheduled, count, maxRetries, fsmScheduled, true, {}, multiset{}, multiset{}, None, [])
  }

  lemma PassLoads(s: State) returns (actions: seq<Action>)
    requires Waiting(s) && s.fsmScheduled && s.scanners == []
    ensures Run(s, actions) == s.(holder := Some(0), scanners := [Started(TxSave(s.retryCount, false))])
  {
    actions := Extend(s, [], Begin, s.(holder := Some(0), scanners := [Started(TxLoad(s.retryCount))]));
    actions := Extend(s, actions, Write(0, false), s.(holder := Some(0), scanners := [Started(TxSave(s.retryCount, false))]));
  }

  /** The pass loads the task, its transaction is aborted, and its save takes effect. */
  lemma AbortedPassSaves(s: State) returns (actions: seq<Action>)
    requires Waiting(s) && s.fsmScheduled && s.scanners == []
    ensures Run(s, actions)
         == s.(lifecycle := Ready, fsmScheduled := false, scanners := [Scanner(TxOver, false, true, Some(s.retryCount))])
  {
    actions := PassLoads(s);
    actions := Extend(s, actions, Abort(0), s.(scanners := [Started(TxSave(s.retryCount, false))]));
    actions := Extend(s, actions, Write(0, false),
      s.(lifecycle := Ready, fsmScheduled := false, scanners := [Scanner(TxOver, false, true, Some(s.retryCount))]));
  }

  /** With a transaction: nobody crashes and nothing fails but the transaction, and the retry is gone. */
  lemma AbortLosesRetry(count: nat, maxRetries: int) returns (actions: seq<Action>)
    ensures var s, r := Scheduled(count, maxRetries, true), Run(Scheduled(count, maxRetries, true), actions);
            Init(s) && Lost(r) && ScannersDone(r) && !SomeScannerStopped(r)
  {
    actions := AbortedPassSaves(Scheduled(count, maxRetries, true));
  }

  /** A scanner that has written its event is overtaken by the run and the next failure of the task. */
  lemma LateScannerLoads(count: nat, maxRetries: int) returns (actions: seq<Action>)
    requires count < maxRetries
    ensures var s := Scheduled(count, maxRetries, false);
            Run(s, actions) == InsertEvent(Scheduled(count + 1, maxRetries, true), count)
                               .(scanners := [Started(SaveShadow(count, false))])
  {
    var s := Scheduled(count, maxRetries, false);
    actions := Extend(s, [], Claim, s.(lifecycle := Ready, scanners := [Started(Enqueue(count))]));
    var written := InsertEvent(s, count).(lifecycle := Ready, scanners := [Started(CreateAction(count))]);
    actions := Extend(s, actions, Write(0, false), written);
    var acted := written.(scanners := [Started(EmitShadow(count))]);
    actions := Extend(s, actions, Write(0, false), acted);
    actions := Extend(s, actions, Execute, acted.(lifecycle := Running, awaited := false));
    var again := acted.(lifecycle := RetryScheduled, retryCount := count + 1, awaited := true);
    actions := Extend(s, actions, Schedule(true), again);
    actions := Extend(s, actions, MoveFsm(true), again.(fsmScheduled := true));
    actions := Extend(s, actions, Write(0, false), again.(fsmScheduled := true, scanners := [Started(SaveShadow(count, false))]));
  }

  /** And without a transaction: the late shadow write of one retry makes the next one's task ready. */
  lemma LateSaveLosesRetry(count: nat, maxRetries: int) returns (actions: seq<Action>)
    requires count < maxRetries
    ensures var s, r := Scheduled(count, maxRetries, false), Run(Scheduled(count, maxRetries, false), actions);
            Init(s) && Lost(r) && r.retryCount == count + 1 && ScannersDone(r) && !SomeScannerStopped(r)
  {
    var s := Scheduled(count, maxRetries, false);
    actions := LateScannerLoads(count, maxRetries);
    var r := Run(s, actions);
    var saver := Scanner(Promoted, false, true, Some(count + 1));
    actions := Extend(s, actions, Write(0, false), r.(lifecycle := Ready, fsmScheduled := false, scanners := [saver]));
  }

  // ----- A retry that was reverted after its event was written -----

  predicate EnqueuedButScheduled(s: State) {
    s.lifecycle.RetryScheduled? && s.retryCount in s.events && s.holder.None?
  }

  /** A scanner's pass that fails after its event is written reverts the claim all the same. */
  lemma RevertLeavesEvent(s: State, actions: seq<Action>, r: State) returns (longer: seq<Action>)
    requires Run(s, actions) == r
    requires r.lifecycle.RetryScheduled? && r.holder.None? && r.retryCount !in r.events
    ensures Run(s, longer) == InsertEvent(r, r.retryCount).(scanners := r.scanners + [Started(Threw)])
    ensures EnqueuedButScheduled(Run(s, longer))
  {
    var i, count := |r.scanners|, r.retryCount;
    longer := Extend(s, actions, Claim, r.(lifecycle := Ready, scanners := r.scanners + [Started(Enqueue(count))]));
    var written := InsertEvent(r, count).(lifecycle := Ready);
    longer := Extend(s, longer, Write(i, false), written.(scanners := r.scanners + [Started(CreateAction(count))]));
    longer := Extend(s, longer, Write(i, true), written.(scanners := r.scanners + [Started(Revert(count))]));
    longer := Extend(s, longer, Write(i, false), InsertEvent(r, count).(scanners := r.scanners + [Started(Threw)]));
  }

  lemma ClaimIsRefused(s: State) returns (pass: seq<Action>)
    requires EnqueuedButScheduled(s)
    ensures pass == [Claim] + [Write(|s.scanners|, false)]
    ensures Run(s, pass) == s.(lifecycle := Ready, scanners := s.scanners + [Started(Revert(s.retryCount))])
  {
    var claimed := s.(lifecycle := Ready, scanners := s.scanners + [Started(Enqueue(s.retryCount))]);
    pass := Extend(s, [], Claim, claimed);
    pass := Extend(s, pass, Write(|s.scanners|, false), s.(lifecycle := Ready, scanners := s.scanners + [Started(Revert(s.retryCount))]));
  }

  /** While the event exists, a scanner that nothing interrupts throws and leaves the task as it was, with a transaction or without. */
  lemma ScannerCannotGetPast(s: State) returns (pass: seq<Action>)
    requires EnqueuedButScheduled(s)
    ensures Step(s, Begin) == s
    ensures pass == [Claim] + [Write(|s.scanners|, false)] + [Write(|s.scanners|, false)]
    ensures Run(s, pass) == s.(scanners := s.scanners + [Started(Threw)])
  {
    pass := ClaimIsRefused(s);
    pass := Extend(s, pass, Write(|s.scanners|, false), s.(scanners := s.scanners + [Started(Threw)]));
  }

  /** The bound on enqueues is attained: n archivings let one retry count be enqueued n + 1 times. */
  lemma {:induction false} EveryNumberIsEnqueued(n: nat, count: nat, maxRetries: int) returns (actions: seq<Action>)
    ensures var s, r := Scheduled(count, maxRetries, false), Run(Scheduled(count, maxRetries, false), actions);
            && Init(s) && r.archived[count] == n && r.enqueued[count] == n + 1
            && r.retryCount == count && EnqueuedButScheduled(r) && !SomeScannerStopped(r)
  {
    var s := Scheduled(count, maxRetries, false);
    if n == 0 {
      actions := RevertLeavesEvent(s, [], s);
    } else {
      actions := EveryNumberIsEnqueued(n - 1, count, maxRetries);
      var r := Run(s, actions);
      var freed := r.(events := r.events - {count}, archived := r.archived + multiset{count});
      actions := Extend(s, actions, Archive(count), freed);
      actions := RevertLeavesEvent(s, actions, freed);
      OneMoreThrew(r, Run(s, actions));
    }
  }

  lemma OneMoreThrew(r: State, r': State)
    requires !SomeScannerStopped(r) && r'.scanners == r.scanners + [Started(Threw)]
    ensures !SomeScannerStopped(r')
  {
    forall i | 0 <= i < |r'.scanners| ensures !r'.scanners[i].crashed {
      if i < |r.scanners| {
        assert r'.scanners[i] == r.scanners[i];
      }
    }
  }
}
