/**
 The retries of one task: calls that schedule one, and any number of scanners that promote
 it, with or without a transaction, interleaved at every write and free to crash.

 A scanner's shadow write goes past its transaction: it loads the committed task and saves
 it outside the session.  While a transaction has claimed the task, every write to the task
 from outside waits for the transaction's end.
 */
module RetryProtocol {
  import opened Wrappers

  datatype Lifecycle = Ready | RetryScheduled | Failed | Running

  /**
   Where a scanner stands, with the retry count it read when it claimed, and whether the
   task it loaded was ready: the save writes the lifecycle only when that changes it.
   */
  datatype Pc =
    // without a transaction
    | Enqueue(count: nat)
    | CreateAction(count: nat)
    | EmitShadow(count: nat)
    | SaveShadow(count: nat, loadedReady: bool)
    | Revert(count: nat)
    | Promoted
    | Threw
    // in a transaction that has claimed the task and buffered the event
    | TxLoad(count: nat)
    | TxSave(count: nat, loadedReady: bool)
    | TxCommit(count: nat)
    | TxCommitted
    | TxOver

  /** `saved`: its shadow write took effect; `overwrote`: it made this count ready while the retry was waiting. */
  datatype Scanner = Scanner(pc: Pc, crashed: bool, saved: bool, overwrote: Option<nat>)

  /**
   `fsmScheduled`: the execution state is retry_scheduled, so RETRY_DUE is accepted.
   `awaited`: the retry of the current count has been scheduled, and nothing has run since.
   `events` are the counts whose event exists; inserts and deletions of each are counted.
   `holder` is the scanner whose open transaction has claimed the task.
   */
  datatype State = State(
    lifecycle: Lifecycle,
    retryCount: nat,
    maxRetries: int,
    fsmScheduled: bool,
    awaited: bool,
    events: set<nat>,
    enqueued: multiset<nat>,
    archived: multiset<nat>,
    holder: Option<nat>,
    scanners: seq<Scanner>)

  datatype Action =
    | Claim                             // the due candidate, without a transaction
    | Begin                             // a transaction claims the candidate and buffers the event
    | Write(scanner: nat, fails: bool)  // the scanner's next operation, which may fail
    | Abort(scanner: nat)               // the server aborts the scanner's transaction
    | Crash(scanner: nat)
    | Schedule(retryable: bool)         // an execution of the task failed
    | Execute                           // the worker starts, or the task is finished otherwise
    | MoveFsm(scheduled: bool)          // any other write of the execution state
    | Archive(count: nat)               // the archiving job deletes the event

  /** The current retry is scheduled and its event has never been written. */
  predicate Due(s: State) {
    s.awaited && s.enqueued[s.retryCount] == 0
  }

  function ScheduleRetry(s: State, retryable: bool): State {
    var next := s.retryCount + 1;
    var scheduled := retryable && next <= s.maxRetries;
    s.(lifecycle := if scheduled then RetryScheduled else Failed, retryCount := next, awaited := scheduled)
  }

  function SetPc(s: State, i: nat, pc: Pc): State
    requires i < |s.scanners|
  {
    s.(scanners := s.scanners[i := s.scanners[i].(pc := pc)])
  }

  /** The transaction ends, whichever way. */
  function Release(s: State, i: nat): State {
    if s.holder == Some(i) then s.(holder := None) else s
  }

  function InsertEvent(s: State, count: nat): State {
    s.(events := s.events + {count}, enqueued := s.enqueued + multiset{count})
  }

  /** The shadow write takes effect: queued, and ready unless the loaded task was. */
  function Save(s: State, i: nat, loadedReady: bool, next: Pc): State
    requires i < |s.scanners|
  {
    var lost := !loadedReady && s.lifecycle.RetryScheduled? && Due(s);
    s.(fsmScheduled := false,
       lifecycle := if loadedReady then s.lifecycle else Ready,
       scanners := s.scanners[i := s.scanners[i].(pc := next, saved := true, overwrote := if lost then Some(s.retryCount) else None)])
  }

  function WriteStep(s: State, i: nat, fails: bool): State
    requires i < |s.scanners|
  {
    match s.scanners[i].pc
    case Enqueue(count) =>
      if fails || count in s.events then SetPc(s, i, Revert(count))
      else SetPc(InsertEvent(s, count), i, CreateAction(count))
    case CreateAction(count) => SetPc(s, i, if fails then Revert(count) else EmitShadow(count))
    case EmitShadow(count) =>
      SetPc(s, i, if fails then Revert(count) else if s.fsmScheduled then SaveShadow(count, s.lifecycle.Ready?) else Promoted)
    case SaveShadow(_, loadedReady) =>
      if fails then SetPc(s, i, Promoted)
      else if s.holder.Some? then s
      else Save(s, i, loadedReady, Promoted)
    case Revert(_) =>
      if fails then s.(scanners := s.scanners[i := s.scanners[i].(pc := Threw, crashed := true)])
      else if s.holder.Some? then s
      else if s.lifecycle.Ready? then SetPc(s, i, Threw).(lifecycle := RetryScheduled)
      else SetPc(s, i, Threw)
    case TxLoad(count) =>
      if fails then SetPc(Release(s, i), i, Threw)
      else SetPc(s, i, if s.fsmScheduled then TxSave(count, s.lifecycle.Ready?) else TxCommit(count))
    case TxSave(count, loadedReady) =>
      if fails then SetPc(s, i, TxCommit(count))
      else if s.holder.Some? then s
      else Save(s, i, loadedReady, TxOver)
    case TxCommit(count) =>
      if s.holder == Some(i) && !fails && count !in s.events then
        SetPc(InsertEvent(Release(s, i), count), i, TxCommitted).(lifecycle := Ready)
      else SetPc(Release(s, i), i, TxOver)
    case _ => s
  }

  predicate IsDone(pc: Pc) {
    pc.Promoted? || pc.Threw? || pc.TxCommitted? || pc.TxOver?
  }

  function Started(pc: Pc): Scanner {
    Scanner(pc, false, false, None)
  }

  function Step(s: State, a: Action): State {
    match a
    case Claim =>
      if s.lifecycle.RetryScheduled? && s.holder.None? then
        s.(lifecycle := Ready, scanners := s.scanners + [Started(Enqueue(s.retryCount))])
      else s
    case Begin =>
      if s.lifecycle.RetryScheduled? && s.holder.None? && s.retryCount !in s.events then
        s.(holder := Some(|s.scanners|), scanners := s.scanners + [Started(TxLoad(s.retryCount))])
      else s
    case Write(i, fails) => if i < |s.scanners| && !s.scanners[i].crashed then WriteStep(s, i, fails) else s
    case Abort(i) => Release(s, i)
    case Crash(i) =>
      if i < |s.scanners| && !IsDone(s.scanners[i].pc) then s.(scanners := s.scanners[i := s.scanners[i].(crashed := true)])
      else s
    case Schedule(retryable) => if s.holder.None? then ScheduleRetry(s, retryable) else s
    case Execute => if s.holder.None? then s.(lifecycle := Running, awaited := false) else s
    case MoveFsm(scheduled) => if s.holder.None? then s.(fsmScheduled := scheduled) else s
    case Archive(count) =>
      if count in s.events then s.(events := s.events - {count}, archived := s.archived + multiset{count}) else s
  }

  function Run(s: State, actions: seq<Action>): State {
    if actions == [] then s
    else Step(Run(s, actions[..|actions| - 1]), actions[|actions| - 1])
  }

  predicate Init(s: State) {
    && s.events == {} && s.enqueued == multiset{} && s.archived == multiset{}
    && s.holder.None? && s.scanners == [] && (s.awaited <==> s.lifecycle.RetryScheduled?)
  }

  // ----- The invariant -----

  /** The scanner will still insert this count's event or put its claim back. */
  predicate Answers(sc: Scanner, count: nat) {
    (sc.pc.Enqueue? || sc.pc.Revert?) && sc.pc.count == count && !sc.crashed
  }

  ghost predicate Answered(s: State) {
    exists i :: 0 <= i < |s.scanners| && Answers(s.scanners[i], s.retryCount)
  }

  /** A scanner that answers, or one that accounts for nobody answering. */
  predicate Accounts(sc: Scanner, count: nat) {
    Answers(sc, count) || sc.crashed || sc.overwrote == Some(count)
  }

  predicate Inserts(pc: Pc) {
    pc.Enqueue? || pc.TxLoad? || pc.TxSave? || pc.TxCommit?
  }

  ghost predicate EventsCounted(s: State) {
    && (forall c :: s.enqueued[c] == s.archived[c] + if c in s.events then 1 else 0)
    && (forall c :: c in s.enqueued ==> c <= s.retryCount)
    && (forall i :: 0 <= i < |s.scanners| && Inserts(s.scanners[i].pc) ==> s.scanners[i].pc.count <= s.retryCount)
  }

  ghost predicate HolderClaimed(s: State) {
    s.holder.Some? ==>
      && s.holder.value < |s.scanners|
      && var pc := s.scanners[s.holder.value].pc;
         s.lifecycle.RetryScheduled? && (pc.TxLoad? || pc.TxSave? || pc.TxCommit?) && pc.count == s.retryCount
  }

  /** A task made ready whose event was never written is accounted for. */
  ghost predicate ReadyAccounted(s: State) {
    && (s.awaited ==> s.lifecycle.RetryScheduled? || s.lifecycle.Ready?)
    && (s.lifecycle.Ready? && Due(s) ==>
          exists i :: 0 <= i < |s.scanners| && Accounts(s.scanners[i], s.retryCount))
  }

  ghost predicate SavedAreOver(s: State) {
    forall i :: 0 <= i < |s.scanners| ==>
      && (s.scanners[i].overwrote.Some? ==> s.scanners[i].saved)
      && (s.scanners[i].saved ==> s.scanners[i].pc.Promoted? || s.scanners[i].pc.TxOver?)
  }

  ghost predicate Inv(s: State) {
    EventsCounted(s) && HolderClaimed(s) && ReadyAccounted(s) && SavedAreOver(s)
  }

  /** One scanner moved, and it accounts for whatever it accounted for. */
  lemma StaysAccounted(s: State, s': State, i: nat)
    requires ReadyAccounted(s) && i < |s.scanners| == |s'.scanners| && s'.retryCount == s.retryCount
    requires forall j :: 0 <= j < |s.scanners| && j != i ==> s'.scanners[j] == s.scanners[j]
    requires s'.awaited ==> s'.lifecycle.RetryScheduled? || s'.lifecycle.Ready?
    requires s'.lifecycle.Ready? && Due(s') ==>
      Accounts(s'.scanners[i], s.retryCount)
      || (s.lifecycle.Ready? && Due(s) && !Accounts(s.scanners[i], s.retryCount))
    ensures ReadyAccounted(s')
  {
    if s'.lifecycle.Ready? && Due(s') {
      if Accounts(s'.scanners[i], s.retryCount) {
      } else {
        var j :| 0 <= j < |s.scanners| && Accounts(s.scanners[j], s.retryCount);
        assert Accounts(s'.scanners[j], s.retryCount);
      }
    }
  }

  lemma InsertKeepsCounts(s: State, count: nat)
    requires EventsCounted(s) && count !in s.events && count <= s.retryCount
    ensures EventsCounted(InsertEvent(s, count))
  {
  }

  /** Changing one scanner keeps the counts unless it takes up another insert. */
  lemma PcKeepsCounts(s: State, i: nat, pc: Pc)
    requires EventsCounted(s) && i < |s.scanners| && (Inserts(pc) ==> Inserts(s.scanners[i].pc) && pc.count == s.scanners[i].pc.count)
    ensures EventsCounted(SetPc(s, i, pc))
  {
  }

  lemma EnqueueKeepsInv(s: State, i: nat, fails: bool)
    requires Inv(s) && i < |s.scanners| && !s.scanners[i].crashed && s.scanners[i].pc.Enqueue?
    ensures Inv(WriteStep(s, i, fails))
  {
    var count, s' := s.scanners[i].pc.count, WriteStep(s, i, fails);
    if fails || count in s.events {
      PcKeepsCounts(s, i, Revert(count));
    } else {
      InsertKeepsCounts(s, count);
      PcKeepsCounts(InsertEvent(s, count), i, CreateAction(count));
    }
    StaysAccounted(s, s', i);
  }

  lemma MoveKeepsInv(s: State, i: nat, fails: bool)
    requires Inv(s) && i < |s.scanners| && !s.scanners[i].crashed && (s.scanners[i].pc.CreateAction? || s.scanners[i].pc.EmitShadow?)
    ensures Inv(WriteStep(s, i, fails))
  {
    StaysAccounted(s, WriteStep(s, i, fails), i);
  }

  lemma SaveKeepsInv(s: State, i: nat, loadedReady: bool, next: Pc)
    requires Inv(s) && i < |s.scanners| && s.holder.None? && (next.Promoted? || next.TxOver?)
    requires !s.scanners[i].crashed && (s.scanners[i].pc.SaveShadow? || s.scanners[i].pc.TxSave?) && !s.scanners[i].saved
    requires s.scanners[i].overwrote.None?
    ensures Inv(Save(s, i, loadedReady, next))
  {
    StaysAccounted(s, Save(s, i, loadedReady, next), i);
  }

  lemma ShadowKeepsInv(s: State, i: nat, fails: bool)
    requires Inv(s) && i < |s.scanners| && !s.scanners[i].crashed && (s.scanners[i].pc.SaveShadow? || s.scanners[i].pc.TxSave?)
    ensures Inv(WriteStep(s, i, fails))
  {
    if fails {
      StaysAccounted(s, WriteStep(s, i, fails), i);
    } else if s.holder.None? {
      SaveKeepsInv(s, i, s.scanners[i].pc.loadedReady, if s.scanners[i].pc.TxSave? then TxOver else Promoted);
    }
  }

  lemma RevertKeepsInv(s: State, i: nat, fails: bool)
    requires Inv(s) && i < |s.scanners| && !s.scanners[i].crashed && s.scanners[i].pc.Revert?
    ensures Inv(WriteStep(s, i, fails))
  {
    StaysAccounted(s, WriteStep(s, i, fails), i);
  }

  /** A transaction that ends without committing leaves nothing behind. */
  lemma OverKeepsInv(s: State, i: nat, pc: Pc)
    requires Inv(s) && i < |s.scanners| && !s.scanners[i].crashed && (pc.Threw? || pc.TxOver?)
    requires s.scanners[i].pc.TxLoad? || s.scanners[i].pc.TxCommit?
    ensures Inv(SetPc(Release(s, i), i, pc))
  {
    PcKeepsCounts(Release(s, i), i, pc);
    StaysAccounted(s, SetPc(Release(s, i), i, pc), i);
  }

  lemma TxLoadKeepsInv(s: State, i: nat, fails: bool)
    requires Inv(s) && i < |s.scanners| && !s.scanners[i].crashed && s.scanners[i].pc.TxLoad?
    ensures Inv(WriteStep(s, i, fails))
  {
    if fails {
      OverKeepsInv(s, i, Threw);
    } else {
      PcKeepsCounts(s, i, WriteStep(s, i, fails).scanners[i].pc);
      StaysAccounted(s, WriteStep(s, i, fails), i);
    }
  }

  lemma CommitKeepsInv(s: State, i: nat)
    requires Inv(s) && i < |s.scanners| && !s.scanners[i].crashed && s.scanners[i].pc.TxCommit?
    requires s.holder == Some(i) && s.scanners[i].pc.count !in s.events
    ensures Inv(WriteStep(s, i, false))
  {
    var count := s.scanners[i].pc.count;
    var released := Release(s, i);
    InsertKeepsCounts(released, count);
    PcKeepsCounts(InsertEvent(released, count), i, TxCommitted);
    var mid := SetPc(InsertEvent(released, count), i, TxCommitted);
    assert mid.enqueued[count] > 0 && count == s.retryCount;
    assert mid.holder.None? && SavedAreOver(mid) && !Due(mid);
    assert WriteStep(s, i, false) == mid.(lifecycle := Ready);
  }

  lemma TxCommitKeepsInv(s: State, i: nat, fails: bool)
    requires Inv(s) && i < |s.scanners| && !s.scanners[i].crashed && s.scanners[i].pc.TxCommit?
    ensures Inv(WriteStep(s, i, fails))
  {
    if s.holder == Some(i) && !fails && s.scanners[i].pc.count !in s.events {
      CommitKeepsInv(s, i);
    } else {
      OverKeepsInv(s, i, TxOver);
    }
  }

  lemma WriteKeepsInv(s: State, i: nat, fails: bool)
    requires Inv(s) && i < |s.scanners| && !s.scanners[i].crashed
    ensures Inv(WriteStep(s, i, fails))
  {
    match s.scanners[i].pc
    case Enqueue(_) => EnqueueKeepsInv(s, i, fails);
    case CreateAction(_) => MoveKeepsInv(s, i, fails);
    case EmitShadow(_) => MoveKeepsInv(s, i, fails);
    case SaveShadow(_, _) => ShadowKeepsInv(s, i, fails);
    case TxSave(_, _) => ShadowKeepsInv(s, i, fails);
    case Revert(_) => RevertKeepsInv(s, i, fails);
    case TxLoad(_) => TxLoadKeepsInv(s, i, fails);
    case TxCommit(_) => TxCommitKeepsInv(s, i, fails);
    case _ =>
  }

  /** A new scanner claims the task, outside a transaction or in one. */
  lemma ClaimKeepsInv(s: State, a: Action)
    requires Inv(s) && (a.Claim? || a.Begin?)
    ensures Inv(Step(s, a))
  {
    var s' := Step(s, a);
    if a.Claim? && s' != s {
      assert Accounts(s'.scanners[|s.scanners|], s.retryCount);
    }
  }

  /** The writes of everybody else, and the ends of scanners. */
  lemma OtherStepKeepsInv(s: State, a: Action)
    requires Inv(s) && !a.Write? && !a.Claim? && !a.Begin?
    ensures Inv(Step(s, a))
  {
    var s' := Step(s, a);
    if s'.lifecycle.Ready? && Due(s') {
      var j :| 0 <= j < |s.scanners| && Accounts(s.scanners[j], s.retryCount);
      assert Accounts(s'.scanners[j], s.retryCount);
    }
  }

  lemma StepPreserves(s: State, a: Action)
    requires Inv(s)
    ensures Inv(Step(s, a))
  {
    if a.Claim? || a.Begin? {
      ClaimKeepsInv(s, a);
    } else if !a.Write? {
      OtherStepKeepsInv(s, a);
    } else if a.scanner < |s.scanners| && !s.scanners[a.scanner].crashed {
      WriteKeepsInv(s, a.scanner, a.fails);
    }
  }

  lemma {:induction false} RunKeepsInv(s: State, actions: seq<Action>)
    requires Init(s)
    ensures Inv(Run(s, actions))
  {
    if actions != [] {
      RunKeepsInv(s, actions[..|actions| - 1]);
      StepPreserves(Run(s, actions[..|actions| - 1]), actions[|actions| - 1]);
    }
  }
}
