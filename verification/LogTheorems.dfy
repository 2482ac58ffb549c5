/** What holds over whole runs of the log: crash atomicity, admission, pins. */
module LogTheorems {
  import opened LogDisk
  import opened LogMachine
  import opened LogInvariant

  /** Power-on with any disk whose log can be followed. */
  ghost predicate Init(s: State) {
    && LogOk(s.disk, s.start) && |s.stable| == |s.disk|
    && (forall b :: 0 <= b < |s.disk| && Home(s.start, b) ==> s.stable[b] == AfterRecovery(s.disk, s.start, b))
    && s == AfterCrash(s, s.who)
  }

  /** A run: states with the actions between them, from power-on. */
  ghost predicate Run(run: seq<State>, acts: seq<Action>) {
    && |run| == |acts| + 1
    && forall k {:trigger StepAt(run, acts, k)} :: 0 <= k < |run| ==> StepAt(run, acts, k)
  }

  /** State k is justified: it is an initial state, or the action before it leads there. */
  ghost predicate StepAt(run: seq<State>, acts: seq<Action>, k: nat)
    requires k < |run| == |acts| + 1
  {
    if k == 0 then Init(run[0])
    else Enabled(run[k - 1], acts[k - 1]) && run[k] == Apply(run[k - 1], acts[k - 1])
  }

  lemma InitInv(s: State)
    requires Init(s)
    ensures Inv(s)
  {
    ReservedBounds(s.ops);
  }

  /** The actions of operations, and of whoever uses the cache. */
  predicate ByClient(a: Action) {
    || a.Bget? || a.Lock? || a.ReadIn? || a.Modify? || a.Unlock? || a.Abandon? || a.Drop?
    || a.BeginOp? || a.Absorb? || a.Append? || a.EndOp?
  }

  lemma ClientKeeps(s: State, a: Action)
    requires Inv(s) && Enabled(s, a) && ByClient(a)
    ensures Inv(Apply(s, a))
  {
    match a
    case Bget(t, i, b) => BgetKeeps(s, t, i, b);
    case Lock(t, i) => LockKeeps(s, t, i);
    case ReadIn(t, i) => ReadInKeeps(s, t, i);
    case Modify(t, i, data) => ModifyKeeps(s, t, i, data);
    case Unlock(t, i) => UnlockKeeps(s, t, i);
    case Abandon(t, i) => AbandonKeeps(s, t, i);
    case Drop(t, i) => DropKeeps(s, t, i);
    case BeginOp(t) => BeginOpKeeps(s, t);
    case Absorb(t, i) => AbsorbKeeps(s, t, i);
    case Append(t, i) => AppendKeeps(s, t, i);
    case EndOp(t) => EndOpKeeps(s, t);
  }

  /** Each lock-level action, disk write and crash keeps the invariant. */
  lemma StepKeeps(s: State, a: Action)
    requires Inv(s) && Enabled(s, a)
    ensures Inv(Apply(s, a))
  {
    if ByClient(a) {
      ClientKeeps(s, a);
    } else {
      CommitterKeeps(s, a);
    }
  }

  /** The actions of commit and recovery, and crashes. */
  lemma CommitterKeeps(s: State, a: Action)
    requires Inv(s) && Enabled(s, a) && !ByClient(a)
    ensures Inv(Apply(s, a))
  {
    match a
    case CopyToSlot(i, j) => CopyToSlotKeeps(s, i, j);
    case WriteSlot(i) => WriteSlotKeeps(s, i);
    case FillHead(i) => FillHeadKeeps(s, i);
    case CommitHead(i) => CommitHeadKeeps(s, i);
    case CopyHome(i, j) => CopyHomeKeeps(s, i, j);
    case WriteHome(i) => WriteHomeKeeps(s, i);
    case Unpin(i) => UnpinKeeps(s, i);
    case Forget => ForgetKeeps(s);
    case ClearHead(i) => ClearHeadKeeps(s, i);
    case Finish => FinishKeeps(s);
    case Crash(boot) => CrashKeeps(s, boot);
    case ReadHead(i) => ReadHeadKeeps(s, i);
  }

  /** Every reachable state satisfies the invariant. */
  lemma {:induction false} RunInv(run: seq<State>, acts: seq<Action>, k: nat)
    requires Run(run, acts) && k < |run|
    ensures Inv(run[k])
  {
    assert StepAt(run, acts, k);
    if k == 0 {
      InitInv(run[0]);
    } else {
      RunInv(run, acts, k - 1);
      StepKeeps(run[k - 1], acts[k - 1]);
    }
  }

  // ----- crash atomicity

  /** The logical contents when the last header write committed; at first, what the
      initial disk means. */
  function LastCommit(run: seq<State>, acts: seq<Action>, k: nat): Image
    requires k < |run| && |run| == |acts| + 1
  {
    if k == 0 then run[0].stable
    else if acts[k - 1].CommitHead? then run[k - 1].logical
    else LastCommit(run, acts, k - 1)
  }

  lemma {:induction false} StableIsLastCommit(run: seq<State>, acts: seq<Action>, k: nat)
    requires Run(run, acts) && k < |run|
    ensures run[k].stable == LastCommit(run, acts, k)
  {
    if k > 0 {
      StableIsLastCommit(run, acts, k - 1);
      assert StepAt(run, acts, k);
      StableStep(run[k - 1], acts[k - 1]);
    }
  }

  lemma StableStep(s: State, a: Action)
    requires Enabled(s, a)
    ensures Apply(s, a).stable == if a.CommitHead? then s.logical else s.stable
    ensures Recovering(s.pc) ==> !a.CommitHead?
  {
  }

  /** Recovery from this disk, whenever it completes, leaves img on the home blocks. */
  ghost predicate Means(s: State, img: Image) {
    && |img| == |s.disk| && LogOk(s.disk, s.start)
    && forall b :: 0 <= b < |s.disk| && Home(s.start, b) ==> AfterRecovery(s.disk, s.start, b) == img[b]
  }

  ghost predicate HomeIs(s: State, img: Image) {
    && |img| == |s.disk|
    && forall b :: 0 <= b < |s.disk| && Home(s.start, b) ==> s.disk[b] == img[b]
  }

  /** Stop the machine in any state of any run.  However often recovery is itself cut
      short, the disk always means the last committed contents, and once recovery is
      over every home block holds them. */
  lemma CrashAtomicity(run: seq<State>, acts: seq<Action>, crash: nat, end: nat)
    requires Run(run, acts) && crash < end < |run| && acts[crash].Crash?
    requires forall k :: crash < k < end ==> Recovering(run[k].pc)
    ensures forall k :: crash <= k <= end ==> Means(run[k], LastCommit(run, acts, crash))
    ensures run[end].pc.Quiet? ==> HomeIs(run[end], LastCommit(run, acts, crash))
  {
    forall k | crash <= k <= end
      ensures Inv(run[k]) && run[k].stable == LastCommit(run, acts, crash)
    {
      RunInv(run, acts, k);
      StableThroughRecovery(run, acts, crash, k);
    }
  }

  lemma {:induction false} StableThroughRecovery(run: seq<State>, acts: seq<Action>, crash: nat, k: nat)
    requires Run(run, acts) && crash <= k < |run| && crash < |acts| && acts[crash].Crash?
    requires forall j :: crash < j < k ==> Recovering(run[j].pc)
    ensures run[k].stable == LastCommit(run, acts, crash)
  {
    if k == crash {
      StableIsLastCommit(run, acts, crash);
    } else {
      StableThroughRecovery(run, acts, crash, k - 1);
      assert StepAt(run, acts, k);
      StableStep(run[k - 1], acts[k - 1]);
    }
  }

  ghost predicate Committing(pc: Pc) {
    !pc.Quiet? && !Recovering(pc)
  }

  /** The header write of the commit that is under way in state `at` has happened by state k. */
  ghost predicate HeaderWritten(acts: seq<Action>, at: nat, k: nat)
    requires k <= |acts|
  {
    exists j :: at <= j < k && acts[j].CommitHead?
  }

  /** One commit, all or nothing: in each of its states the disk means the contents from
      before the transaction until the header write, and all of the transaction after it. */
  lemma CommitIsAtomic(run: seq<State>, acts: seq<Action>, at: nat, k: nat)
    requires Run(run, acts) && at <= k < |run| && run[at].pc == Copy(0)
    requires forall j :: at <= j <= k ==> Committing(run[j].pc)
    ensures Means(run[k], if HeaderWritten(acts, at, k) then run[at].logical else run[at].stable)
  {
    RunInv(run, acts, k);
    DuringCommit(run, acts, at, k);
  }

  lemma {:induction false} DuringCommit(run: seq<State>, acts: seq<Action>, at: nat, k: nat)
    requires Run(run, acts) && at <= k < |run| && run[at].pc == Copy(0)
    requires forall j :: at <= j <= k ==> Committing(run[j].pc)
    ensures run[k].logical == run[at].logical
    ensures run[k].stable == if HeaderWritten(acts, at, k) then run[at].logical else run[at].stable
  {
    if at < k {
      DuringCommit(run, acts, at, k - 1);
      CommitStep(run, acts, k - 1);
      HeaderWrittenStep(acts, at, k - 1);
    }
  }

  lemma HeaderWrittenStep(acts: seq<Action>, at: nat, k: nat)
    requires at <= k < |acts|
    ensures HeaderWritten(acts, at, k + 1) <==> HeaderWritten(acts, at, k) || acts[k].CommitHead?
  {
  }

  lemma CommitStep(run: seq<State>, acts: seq<Action>, k: nat)
    requires Run(run, acts) && k < |acts| && Committing(run[k].pc) && Committing(run[k + 1].pc)
    ensures run[k + 1].logical == run[k].logical
    ensures run[k + 1].stable == if acts[k].CommitHead? then run[k].logical else run[k].stable
  {
    RunInv(run, acts, k);
    assert StepAt(run, acts, k + 1);
    StableStep(run[k], acts[k]);
    LogicalInCommit(run[k], acts[k]);
  }

  lemma WriteHomeNeutral(s: State, i: nat)
    requires Inv(s) && CanWriteHome(s, i) && !s.pc.rec
    ensures DoWriteHome(s, i).logical == s.logical
  {
    var u := s.bufs[i];
    assert DirtyOk(u, s.start, s.disk, s.lh, s.logical, s.pc);
    assert s.logical[u.blockno := u.data] == s.logical;
  }

  /** While a commit runs, no operation does, and nothing changes the logical contents. */
  lemma LogicalInCommit(s: State, a: Action)
    requires Inv(s) && Enabled(s, a) && Committing(s.pc) && !a.Crash?
    ensures forall t :: 0 <= t < |s.ops| ==> s.ops[t].Out?
    ensures Apply(s, a).logical == s.logical
  {
    if a.WriteHome? {
      WriteHomeNeutral(s, a.i);
    } else {
      LogicalStays(s, a);
    }
  }

  /** Only operations and installation change the logical contents. */
  lemma LogicalStays(s: State, a: Action)
    requires Enabled(s, a) && !a.Crash? && !a.WriteHome?
    requires forall t :: 0 <= t < |s.ops| ==> s.ops[t].Out?
    ensures Apply(s, a).logical == s.logical
  {
  }

  // ----- end_op

  lemma StaysCommitting(s: State, a: Action)
    requires Enabled(s, a) && Committing(s.pc) && !a.Crash? && !a.Finish?
    ensures Committing(Apply(s, a).pc)
  {
  }

  /** Since the last operation ended, its commit has been under way, or is just over. */
  lemma {:induction false} SinceEndOp(run: seq<State>, acts: seq<Action>, j: nat, k: nat)
    requires Run(run, acts) && j < k < |run| && acts[j].EndOp? && run[j].outstanding == 1
    requires forall i :: j < i < k ==> !run[i].pc.Quiet? && !acts[i].Crash?
    ensures run[k].logical == run[j].logical && (Committing(run[k].pc) || (run[k].pc.Quiet? && run[k].lh == []))
  {
    assert StepAt(run, acts, k);
    RunInv(run, acts, k);
    if k > j + 1 {
      SinceEndOp(run, acts, j, k - 1);
      RunInv(run, acts, k - 1);
      LogicalInCommit(run[k - 1], acts[k - 1]);
      if acts[k - 1].Finish? {
        assert run[k - 1].lh == [];
      } else {
        StaysCommitting(run[k - 1], acts[k - 1]);
      }
    }
  }

  /** When the last operation's end_op is over, everything that was logged is on its home block,
      and the log is empty. */
  lemma EndOpCommits(run: seq<State>, acts: seq<Action>, j: nat, k: nat)
    requires Run(run, acts) && j < k < |run| && acts[j].EndOp? && run[j].outstanding == 1
    requires (forall i :: j < i < k ==> !run[i].pc.Quiet? && !acts[i].Crash?) && run[k].pc.Quiet?
    ensures run[k].lh == [] && !run[k].committing
    ensures HomeIs(run[k], run[j].logical) && Means(run[k], run[j].logical)
  {
    SinceEndOp(run, acts, j, k);
    RunInv(run, acts, k);
  }

  // ----- what the log holds of a block

  /** The action is a log_write of block b. */
  predicate Logs(s: State, a: Action, b: nat) {
    (a.Append? || a.Absorb?) && a.i < |s.bufs| && s.bufs[a.i].blockno == b
  }

  /** The action releases a change to block b that was not logged. */
  predicate Abandons(s: State, a: Action, b: nat) {
    a.Abandon? && a.i < |s.bufs| && s.bufs[a.i].blockno == b
  }

  /** The bytes that the last log_write of b found in its buffer; before any, those that
      state `from` remembers. */
  function LastLogged(run: seq<State>, acts: seq<Action>, from: nat, k: nat, b: nat): Block
    requires from <= k < |run| && |run| == |acts| + 1
    requires b < |run[from].logged|
    decreases k
  {
    if k == from then run[from].logged[b]
    else if Logs(run[k - 1], acts[k - 1], b) then run[k - 1].bufs[acts[k - 1].i].data
    else LastLogged(run, acts, from, k - 1, b)
  }

  /** The last change to b that was abandoned after the last log_write of b, if any was. */
  function Abandoned(run: seq<State>, acts: seq<Action>, from: nat, k: nat, b: nat): Option<Block>
    requires from <= k < |run| && |run| == |acts| + 1
    decreases k
  {
    if k == from then if b in run[from].abandoned then Some(run[from].abandoned[b]) else None
    else if Logs(run[k - 1], acts[k - 1], b) then None
    else if Abandons(run[k - 1], acts[k - 1], b) then Some(run[k - 1].bufs[acts[k - 1].i].data)
    else Abandoned(run, acts, from, k - 1, b)
  }

  /** Since recovery, the remembered bytes of a block are those of its last log_write, and
      the remembered abandoned change is the last one since then. */
  lemma {:induction false} LoggedContents(run: seq<State>, acts: seq<Action>, from: nat, k: nat, b: nat)
    requires Run(run, acts) && from <= k < |run| && b < |run[from].logged|
    requires forall j :: from < j <= k ==> !Recovering(run[j].pc)
    ensures b < |run[k].logged| && run[k].logged[b] == LastLogged(run, acts, from, k, b)
    ensures Abandoned(run, acts, from, k, b) ==
      if b in run[k].abandoned then Some(run[k].abandoned[b]) else None
    decreases k
  {
    if from < k {
      LoggedContents(run, acts, from, k - 1, b);
      assert StepAt(run, acts, k);
      LoggedEffect(run[k - 1], acts[k - 1], b);
    }
  }

  lemma LoggedEffect(s: State, a: Action, b: nat)
    requires Enabled(s, a) && !Recovering(Apply(s, a).pc) && b < |s.logged|
    ensures |Apply(s, a).logged| == |s.logged|
    ensures Apply(s, a).logged[b] == if Logs(s, a, b) then s.bufs[a.i].data else s.logged[b]
    ensures b in Apply(s, a).abandoned <==> !Logs(s, a, b) && (Abandons(s, a, b) || b in s.abandoned)
    ensures b in Apply(s, a).abandoned ==>
      Apply(s, a).abandoned[b] == if Abandons(s, a, b) then s.bufs[a.i].data else s.abandoned[b]
  {
  }

  /** What a commit makes of a block the log lists is what its last log_write found there,
      if and only if no change to it was abandoned since then, or one that left the same bytes. */
  lemma LoggedUnlessAbandoned(run: seq<State>, acts: seq<Action>, from: nat, k: nat, b: nat)
    requires Run(run, acts) && from <= k < |run| && b in run[k].lh && b < |run[from].logged|
    requires forall j :: from < j <= k ==> !Recovering(run[j].pc)
    ensures b < |run[k].logical|
    ensures run[k].logical[b] == LastLogged(run, acts, from, k, b) <==>
      var last := Abandoned(run, acts, from, k, b);
      last == None || last == Some(LastLogged(run, acts, from, k, b))
  {
    RunInv(run, acts, k);
    LoggedContents(run, acts, from, k, b);
    var e :| 0 <= e < |run[k].lh| && run[k].lh[e] == b;
    assert run[k].logical[run[k].lh[e]] == Kept(run[k].logged, run[k].abandoned, run[k].lh[e]);
  }

  /** The action decides what a commit would make of block b: it logs the block, or
      abandons a change to it while the log lists it. */
  predicate Puts(s: State, a: Action, b: nat) {
    Logs(s, a, b) || (Abandons(s, a, b) && b in s.lh)
  }

  /** The bytes in the buffer at the last such action since state `from`, else the contents then. */
  function LastPut(run: seq<State>, acts: seq<Action>, from: nat, k: nat, b: nat): Block
    requires from <= k < |run| && |run| == |acts| + 1
    requires b < |run[from].logical|
    decreases k
  {
    if k == from then run[from].logical[b]
    else if Puts(run[k - 1], acts[k - 1], b) then run[k - 1].bufs[acts[k - 1].i].data
    else LastPut(run, acts, from, k - 1, b)
  }

  /** Between crashes nothing else changes what a commit would make of a block. */
  lemma {:induction false} LogicalContents(run: seq<State>, acts: seq<Action>, from: nat, k: nat, b: nat)
    requires Run(run, acts) && from <= k < |run| && b < |run[from].logical|
    requires forall j :: from <= j <= k ==> !Recovering(run[j].pc)
    ensures b < |run[k].logical| && run[k].logical[b] == LastPut(run, acts, from, k, b)
    decreases k
  {
    if from < k {
      LogicalContents(run, acts, from, k - 1, b);
      LogicalStep(run, acts, k - 1, b);
    }
  }

  lemma LogicalEffect(s: State, a: Action, b: nat)
    requires Enabled(s, a) && !a.Crash? && !a.WriteHome? && b < |s.logical|
    ensures |Apply(s, a).logical| == |s.logical|
    ensures Apply(s, a).logical[b] == if Puts(s, a, b) then s.bufs[a.i].data else s.logical[b]
  {
  }

  lemma LogicalStep(run: seq<State>, acts: seq<Action>, k: nat, b: nat)
    requires Run(run, acts) && k < |acts| && b < |run[k].logical|
    requires !Recovering(run[k].pc) && !Recovering(run[k + 1].pc)
    ensures |run[k + 1].logical| == |run[k].logical|
    ensures run[k + 1].logical[b] ==
      if Puts(run[k], acts[k], b) then run[k].bufs[acts[k].i].data else run[k].logical[b]
  {
    assert StepAt(run, acts, k + 1);
    if acts[k].WriteHome? {
      RunInv(run, acts, k);
      LogicalInCommit(run[k], acts[k]);
    } else {
      LogicalEffect(run[k], acts[k], b);
    }
  }

  // ----- admission

  lemma {:induction false} NobodyIn(ops: seq<Op>)
    requires forall t :: 0 <= t < |ops| ==> ops[t].Out?
    ensures Count(ops) == 0
  {
    if ops != [] {
      NobodyIn(ops[1..]);
    }
  }

  /** In every reachable state what is logged and what running operations may still log fit
      the log, and a commit runs only when no operation does. */
  lemma ReservationsFit(run: seq<State>, acts: seq<Action>, k: nat)
    requires Run(run, acts) && k < |run|
    ensures var s := run[k];
      && |s.lh| + Reserved(s.ops) <= LOGBLOCKS && s.outstanding == Count(s.ops)
      && (s.committing ==> s.outstanding == 0)
      && forall t :: 0 <= t < |s.ops| && s.ops[t].In? ==> s.ops[t].spent <= MAXOPBLOCKS
  {
    RunInv(run, acts, k);
    if run[k].committing {
      NobodyIn(run[k].ops);
    }
  }

  /** In every reachable state a block is in one buffer at most. */
  lemma OneBufferPerBlock(run: seq<State>, acts: seq<Action>, k: nat, i: nat, j: nat, b: nat)
    requires Run(run, acts) && k < |run| && i < |run[k].bufs| && j < |run[k].bufs|
    requires Holds(run[k].bufs[i], b) && Holds(run[k].bufs[j], b)
    ensures i == j
  {
    RunInv(run, acts, k);
  }

  /** A running operation with unspent budget never trips log_write's panics, and its
      new block gets a slot. */
  lemma NoPanicWithinBudget(run: seq<State>, acts: seq<Action>, k: nat, t: nat)
    requires Run(run, acts) && k < |run| && t < |run[k].ops|
    requires run[k].ops[t].In? && run[k].ops[t].spent < MAXOPBLOCKS
    ensures !LogWritePanics(run[k])
  {
    RunInv(run, acts, k);
    ReservedBounds(run[k].ops);
  }

  /** In an operation, log_write panics exactly when the log is full, and then every
      running operation has spent its whole budget. */
  lemma PanicsIffFull(run: seq<State>, acts: seq<Action>, k: nat, t: nat)
    requires Run(run, acts) && k < |run| && t < |run[k].ops| && run[k].ops[t].In?
    ensures LogWritePanics(run[k]) <==> |run[k].lh| == LOGBLOCKS
    ensures LogWritePanics(run[k]) ==>
      forall o :: 0 <= o < |run[k].ops| && run[k].ops[o].In? ==> run[k].ops[o].spent == MAXOPBLOCKS
  {
    RunInv(run, acts, k);
    var s := run[k];
    ReservedBounds(s.ops);
    forall o | 0 <= o < |s.ops| && s.ops[o].In?
      ensures |s.lh| == LOGBLOCKS ==> s.ops[o].spent == MAXOPBLOCKS
    {
      assert Room(s.ops[o]) <= Reserved(s.ops);
    }
  }

  /** end_op never finds a commit under way. */
  lemma EndOpNeverPanics(run: seq<State>, acts: seq<Action>, k: nat, t: nat)
    requires Run(run, acts) && k < |run| && t < |run[k].ops| && run[k].ops[t].In?
    ensures !run[k].committing && run[k].outstanding > 0 && run[k].pc.Quiet?
  {
    RunInv(run, acts, k);
    ReservedBounds(run[k].ops);
  }

  /** The actions at which end_op calls wakeup: an operation ends while others run, or a
      commit is over. */
  predicate Wakes(s: State, a: Action) {
    (a.EndOp? && s.outstanding > 1) || a.Finish?
  }

  /** No wakeup is lost: whenever a thread that had to sleep in begin_op could go on, the
      step that made room for it wakes the sleepers. */
  lemma NoLostWakeup(run: seq<State>, acts: seq<Action>, k: nat, t: nat)
    requires Run(run, acts) && k < |acts| && !Recovering(run[k].pc) && !acts[k].Crash?
    requires t < |run[k].ops| && run[k].ops[t].Out? && !CanBeginOp(run[k], t) && CanBeginOp(run[k + 1], t)
    ensures Wakes(run[k], acts[k])
  {
    RunInv(run, acts, k);
    assert StepAt(run, acts, k + 1);
    if !Wakes(run[k], acts[k]) {
      SpaceStep(run[k], acts[k]);
    }
  }

  lemma SpaceStep(s: State, a: Action)
    requires Inv(s) && Enabled(s, a) && !a.Crash? && !Wakes(s, a) && !Recovering(s.pc)
    ensures var s' := Apply(s, a);
      s'.committing || (!s.committing && s'.outstanding >= s.outstanding && |s'.lh| >= |s.lh|)
  {
  }

  // ----- pins

  /** Entry e keeps its pin: its buffer still holds the block, valid and referenced. */
  ghost predicate KeepsPin(s: State, e: nat, b: nat, i: nat) {
    && PinFrom(s) <= e < |s.lh| == |s.pins| && s.lh[e] == b && s.pins[e] == i
    && i < |s.bufs| && Holds(s.bufs[i], b) && s.bufs[i].valid && s.bufs[i].refcnt > 0
  }

  lemma PinKept(s: State, e: nat)
    requires Inv(s) && PinFrom(s) <= e < |s.lh|
    ensures KeepsPin(s, e, s.lh[e], s.pins[e])
  {
    assert Listed(s.lh, PinFrom(s), s.lh[e]);
    assert BufOk(s.bufs[s.pins[e]], |s.disk|, s.lh, PinFrom(s));
  }

  /** The actions that end a pin: a crash, and install_trans' unpin of that entry. */
  predicate EndsPin(s: State, a: Action, e: nat) {
    a.Crash? || (a.Unpin? && s.pc.Install? && s.pc.tail == e)
  }

  lemma PinFromStep(s: State, a: Action, e: nat)
    requires Enabled(s, a) && !EndsPin(s, a, e) && PinFrom(s) <= e < |s.lh| == |s.pins| && PcOk(s.pc, s.lh)
    ensures var s' := Apply(s, a);
      PinFrom(s') <= e < |s'.lh| && e < |s'.pins| && s'.lh[e] == s.lh[e] && s'.pins[e] == s.pins[e]
  {
  }

  lemma PinStep(s: State, a: Action, e: nat, b: nat, i: nat)
    requires Inv(s) && Enabled(s, a) && !EndsPin(s, a, e) && KeepsPin(s, e, b, i)
    ensures KeepsPin(Apply(s, a), e, b, i)
  {
    StepKeeps(s, a);
    PinFromStep(s, a, e);
    PinKept(Apply(s, a), e);
  }

  lemma {:induction false} PinHolds(run: seq<State>, acts: seq<Action>, at: nat, k: nat, e: nat, b: nat, i: nat)
    requires Run(run, acts) && at <= k < |run| && KeepsPin(run[at], e, b, i)
    requires forall j :: at <= j < k ==> !EndsPin(run[j], acts[j], e)
    ensures KeepsPin(run[k], e, b, i)
  {
    if at < k {
      PinHolds(run, acts, at, k - 1, e, b, i);
      RunInv(run, acts, k - 1);
      assert StepAt(run, acts, k);
      PinStep(run[k - 1], acts[k - 1], e, b, i);
    }
  }

  /** The new entry is the last one, and pinned. */
  lemma AppendPinned(s: State, t: nat, i: nat)
    requires Inv(s) && CanAppend(s, t, i)
    ensures KeepsPin(DoAppend(s, t, i), |s.lh|, s.bufs[i].blockno, i)
  {
    AppendKeeps(s, t, i);
    PinKept(DoAppend(s, t, i), |s.lh|);
  }

  /** From the log_write that lists a block until install_trans has written it home, the
      block keeps its buffer, valid and referenced, whatever happens short of a crash. */
  lemma PinnedStays(run: seq<State>, acts: seq<Action>, at: nat, k: nat)
    requires Run(run, acts) && at < k < |run| && acts[at].Append?
    requires forall j :: at < j < k ==> !EndsPin(run[j], acts[j], |run[at].lh|)
    ensures acts[at].i < |run[at].bufs|
    ensures KeepsPin(run[k], |run[at].lh|, run[at].bufs[acts[at].i].blockno, acts[at].i)
  {
    RunInv(run, acts, at);
    assert StepAt(run, acts, at + 1);
    AppendPinned(run[at], acts[at].t, acts[at].i);
    PinHolds(run, acts, at + 1, k, |run[at].lh|, run[at].bufs[acts[at].i].blockno, acts[at].i);
  }

  /** write_log puts into the slot what its block's last log_write found, if and only if no
      change to that block was abandoned since, or one that left the same bytes; and up to
      the commit no home block on disk has changed. */
  lemma SlotGetsLoggedBytes(run: seq<State>, acts: seq<Action>, from: nat, k: nat, i: nat)
    requires Run(run, acts) && from <= k < |run| && CanWriteSlot(run[k], i)
    requires forall j :: from < j <= k ==> !Recovering(run[j].pc)
    requires run[k].lh[run[k].pc.tail] < |run[from].logged|
    ensures var b := run[k].lh[run[k].pc.tail];
      var logged, last := LastLogged(run, acts, from, k, b), Abandoned(run, acts, from, k, b);
      run[k].bufs[i].data == logged <==> last == None || last == Some(logged)
    ensures HomeIs(run[k], run[k].stable) && HomeIs(DoWriteSlot(run[k], i), run[k].stable)
  {
    RunInv(run, acts, k);
    SlotIsLogical(run[k], i);
    LoggedUnlessAbandoned(run, acts, from, k, run[k].lh[run[k].pc.tail]);
  }

  lemma SlotIsLogical(s: State, i: nat)
    requires Inv(s) && CanWriteSlot(s, i)
    ensures s.bufs[i].data == s.logical[s.lh[s.pc.tail]]
    ensures HomeIs(s, s.stable) && HomeIs(DoWriteSlot(s, i), s.stable)
  {
    assert !InOp(s.bufs[i], s.ops);
  }

  /** After a commit every pin is gone: reference counts are just the users. */
  lemma PinsDropped(run: seq<State>, acts: seq<Action>, k: nat, i: nat)
    requires Run(run, acts) && k < |run| && run[k].pc.Done? && i < |run[k].bufs|
    ensures run[k].bufs[i].refcnt == |run[k].bufs[i].users|
  {
    RunInv(run, acts, k);
    assert BufOk(run[k].bufs[i], |run[k].disk|, run[k].lh, PinFrom(run[k]));
  }
}
