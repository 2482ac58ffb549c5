/** The log over the buffer cache as a state machine.  Every action is one section
    that the source runs under a spin lock, one change to a buffer whose sleep lock
    is held, or one single-block disk write.  Any thread may act at any time, and a
    crash may come between any two actions, also while recovering. */
module LogMachine {
  import opened LogDisk

  const ROOTDEV: nat := 1

  datatype Option<T> = None | Some(value: T)

  /** A cache buffer.  users are the threads holding a reference; dirty says that its
      holder changed the data and has not yet logged or written it, stray that a change
      to a block outside the log was released unlogged. */
  datatype Buf = Buf(dev: nat, blockno: nat, valid: bool, refcnt: nat, data: Block,
                     holder: Option<nat>, users: multiset<nat>, dirty: bool, stray: bool)

  /** A thread outside any operation, or inside one that added spent new blocks. */
  datatype Op = Out | In(spent: nat)

  /** Where the thread running commit or recovery stands. */
  datatype Pc =
    | Quiet
    | Copy(tail: nat)
    | Install(tail: nat, wrote: bool, rec: bool)
    | Clear(rec: bool)
    | Done
    | Boot

  /** The rest is history: stable holds the last committed contents, logical what a commit
      would make of each block now, logged the bytes that the last log_write of a block
      found, and abandoned the last change to a block released unlogged since then. */
  datatype State = State(
    start: nat, disk: Image, bufs: seq<Buf>,
    lh: seq<nat>, pins: seq<nat>, outstanding: nat, committing: bool,
    ops: seq<Op>, who: nat, pc: Pc,
    stable: Image, logical: Image, logged: Image, abandoned: map<nat, Block>)

  datatype Action =
    | Bget(t: nat, i: nat, b: nat)
    | Lock(t: nat, i: nat)
    | ReadIn(t: nat, i: nat)
    | Modify(t: nat, i: nat, data: Block)
    | Unlock(t: nat, i: nat)
    | Abandon(t: nat, i: nat)
    | Drop(t: nat, i: nat)
    | BeginOp(t: nat)
    | Absorb(t: nat, i: nat)
    | Append(t: nat, i: nat)
    | EndOp(t: nat)
    | CopyToSlot(i: nat, j: nat)
    | WriteSlot(i: nat)
    | FillHead(i: nat)
    | CommitHead(i: nat)
    | CopyHome(i: nat, j: nat)
    | WriteHome(i: nat)
    | Unpin(i: nat)
    | Forget
    | ClearHead(i: nat)
    | Finish
    | Crash(boot: nat)
    | ReadHead(i: nat)

  // ----- vocabulary

  predicate Holds(u: Buf, b: nat) {
    u.dev == ROOTDEV && u.blockno == b
  }

  /** Thread t has buffer i locked, with the contents read in. */
  predicate Has(s: State, t: nat, i: nat) {
    i < |s.bufs| && s.bufs[i].dev == ROOTDEV && s.bufs[i].holder == Some(t) && s.bufs[i].valid
  }

  predicate HasBlock(s: State, t: nat, i: nat, b: nat) {
    Has(s, t, i) && s.bufs[i].blockno == b
  }

  predicate Recovering(pc: Pc) {
    pc.Boot? || (pc.Install? && pc.rec) || (pc.Clear? && pc.rec)
  }

  function Count(ops: seq<Op>): nat {
    if ops == [] then 0 else (if ops[0].In? then 1 else 0) + Count(ops[1..])
  }

  /** Log slots still promised to running operations. */
  function Reserved(ops: seq<Op>): int {
    if ops == [] then 0 else (if ops[0].In? then MAXOPBLOCKS - ops[0].spent else 0) + Reserved(ops[1..])
  }

  /** Entries from this index on still hold their pin. */
  function PinFrom(s: State): nat {
    match s.pc
    case Quiet => 0
    case Copy(_) => 0
    case Install(tail, _, rec) => if rec then |s.lh| else tail
    case _ => |s.lh|
  }

  /** Entries from this index on are not yet on their home block. */
  function PendFrom(s: State): nat {
    match s.pc
    case Install(tail, true, false) => tail + 1
    case _ => PinFrom(s)
  }

  predicate Listed(blocks: seq<nat>, from: nat, b: nat) {
    exists k :: from <= k < |blocks| && blocks[k] == b
  }

  // ----- transitions: what an action needs, and what it does

  function SetBuf(s: State, i: nat, u: Buf): State
    requires i < |s.bufs|
  {
    s.(bufs := s.bufs[i := u])
  }

  /** bget finds the block's buffer, or recycles one that nobody references. */
  predicate CanBget(s: State, t: nat, i: nat, b: nat) {
    && i < |s.bufs| && b < |s.disk|
    && (Holds(s.bufs[i], b)
        || (s.bufs[i].refcnt == 0 && forall j :: 0 <= j < |s.bufs| ==> !Holds(s.bufs[j], b)))
  }

  function DoBget(s: State, t: nat, i: nat, b: nat): State
    requires CanBget(s, t, i, b)
  {
    var u := s.bufs[i];
    SetBuf(s, i, if Holds(u, b) then u.(refcnt := u.refcnt + 1, users := u.users + multiset{t})
                 else u.(dev := ROOTDEV, blockno := b, valid := false, refcnt := 1, users := multiset{t},
                         stray := false))
  }

  predicate CanLock(s: State, t: nat, i: nat) {
    i < |s.bufs| && s.bufs[i].holder.None? && t in s.bufs[i].users
  }

  function DoLock(s: State, t: nat, i: nat): State
    requires CanLock(s, t, i)
  {
    SetBuf(s, i, s.bufs[i].(holder := Some(t)))
  }

  /** bread fills a buffer that bget recycled. */
  predicate CanReadIn(s: State, t: nat, i: nat) {
    i < |s.bufs| && s.bufs[i].holder == Some(t) && !s.bufs[i].valid && s.bufs[i].blockno < |s.disk|
  }

  function DoReadIn(s: State, t: nat, i: nat): State
    requires CanReadIn(s, t, i)
  {
    SetBuf(s, i, s.bufs[i].(data := s.disk[s.bufs[i].blockno], valid := true))
  }

  /** Inside an operation, a thread may change any home block it has locked. */
  predicate CanModify(s: State, t: nat, i: nat) {
    Has(s, t, i) && t < |s.ops| && s.ops[t].In? && Home(s.start, s.bufs[i].blockno)
  }

  function DoModify(s: State, t: nat, i: nat, data: Block): State
    requires CanModify(s, t, i)
  {
    SetBuf(s, i, s.bufs[i].(data := data, dirty := true))
  }

  /** brelse, first half, of a buffer whose changes are logged or written. */
  predicate CanUnlock(s: State, t: nat, i: nat) {
    i < |s.bufs| && s.bufs[i].holder == Some(t) && !s.bufs[i].dirty
  }

  function DoUnlock(s: State, t: nat, i: nat): State
    requires CanUnlock(s, t, i)
  {
    SetBuf(s, i, s.bufs[i].(holder := None))
  }

  /** brelse, first half, of a buffer with a change that was not logged, as when writei's
      copy from the user fails half way.  If the log lists the block, the change will be
      committed with it all the same; if not, it stays in the cache. */
  predicate CanAbandon(s: State, t: nat, i: nat) {
    CanModify(s, t, i) && s.bufs[i].dirty && s.bufs[i].blockno < |s.logical|
  }

  function DoAbandon(s: State, t: nat, i: nat): State
    requires CanAbandon(s, t, i)
  {
    var u := s.bufs[i];
    SetBuf(s, i, u.(holder := None, dirty := false, stray := u.blockno !in s.lh))
    .(logical := if u.blockno in s.lh then s.logical[u.blockno := u.data] else s.logical,
      abandoned := s.abandoned[u.blockno := u.data])
  }

  /** brelse, second half. */
  predicate CanDrop(s: State, t: nat, i: nat) {
    i < |s.bufs| && s.bufs[i].holder != Some(t) && t in s.bufs[i].users && s.bufs[i].refcnt > 0
  }

  function DoDrop(s: State, t: nat, i: nat): State
    requires CanDrop(s, t, i)
  {
    SetBuf(s, i, s.bufs[i].(refcnt := s.bufs[i].refcnt - 1, users := s.bufs[i].users - multiset{t}))
  }

  /** begin_op passes both tests.  No operation starts before recovery is over. */
  predicate CanBeginOp(s: State, t: nat) {
    && !Recovering(s.pc) && t < |s.ops| && s.ops[t].Out?
    && !s.committing && |s.lh| + (s.outstanding + 1) * MAXOPBLOCKS <= LOGBLOCKS
  }

  function DoBeginOp(s: State, t: nat): State
    requires CanBeginOp(s, t)
  {
    s.(ops := s.ops[t := In(0)], outstanding := s.outstanding + 1)
  }

  /** log_write stops the kernel: the size test comes before the search for an
      entry that absorbs the write. */
  predicate LogWritePanics(s: State) {
    |s.lh| >= LOGBLOCKS || s.outstanding < 1
  }

  /** log_write of a block the log lists already. */
  predicate CanAbsorb(s: State, t: nat, i: nat) {
    && CanModify(s, t, i) && !LogWritePanics(s) && s.bufs[i].blockno in s.lh
    && s.bufs[i].blockno < |s.logical| && s.bufs[i].blockno < |s.logged|
  }

  function DoAbsorb(s: State, t: nat, i: nat): State
    requires CanAbsorb(s, t, i)
  {
    var u := s.bufs[i];
    SetBuf(s, i, u.(dirty := false, stray := false))
    .(logical := s.logical[u.blockno := u.data], logged := s.logged[u.blockno := u.data],
      abandoned := s.abandoned - {u.blockno})
  }

  /** log_write of a block new to the log, within the operation's MAXOPBLOCKS. */
  predicate CanAppend(s: State, t: nat, i: nat) {
    && CanModify(s, t, i) && !LogWritePanics(s) && s.bufs[i].blockno !in s.lh && s.ops[t].spent < MAXOPBLOCKS
    && s.bufs[i].blockno < |s.logical| && s.bufs[i].blockno < |s.logged|
  }

  function DoAppend(s: State, t: nat, i: nat): State
    requires CanAppend(s, t, i)
  {
    var u := s.bufs[i];
    SetBuf(s, i, u.(dirty := false, stray := false, refcnt := u.refcnt + 1))
    .(logical := s.logical[u.blockno := u.data], logged := s.logged[u.blockno := u.data],
      abandoned := s.abandoned - {u.blockno}, lh := s.lh + [u.blockno], pins := s.pins + [i],
      ops := s.ops[t := In(s.ops[t].spent + 1)])
  }

  /** end_op, by a thread that has released the buffers it changed. */
  predicate CanEndOp(s: State, t: nat) {
    && t < |s.ops| && s.ops[t].In? && s.outstanding > 0 && !s.committing
    && forall i :: 0 <= i < |s.bufs| && s.bufs[i].dirty ==> s.bufs[i].holder != Some(t)
  }

  function DoEndOp(s: State, t: nat): State
    requires CanEndOp(s, t)
  {
    var s1 := s.(ops := s.ops[t := Out], outstanding := s.outstanding - 1);
    if s1.outstanding > 0 then s1
    else s1.(committing := true, who := t, pc := if |s.lh| > 0 then Copy(0) else Done)
  }

  /** write_log copies a cached block into its slot's buffer ... */
  predicate CanCopyToSlot(s: State, i: nat, j: nat) {
    && s.pc.Copy? && s.pc.tail < |s.lh|
    && HasBlock(s, s.who, i, SlotBlock(s.start, s.pc.tail)) && HasBlock(s, s.who, j, s.lh[s.pc.tail])
  }

  function DoCopy(s: State, i: nat, j: nat): State
    requires i < |s.bufs| && j < |s.bufs|
  {
    SetBuf(s, i, s.bufs[i].(data := s.bufs[j].data, dirty := true))
  }

  /** ... and writes the slot. */
  predicate CanWriteSlot(s: State, i: nat) {
    && s.pc.Copy? && s.pc.tail < |s.lh| && HasBlock(s, s.who, i, SlotBlock(s.start, s.pc.tail))
    && s.bufs[i].dirty && SlotBlock(s.start, s.pc.tail) < |s.disk|
  }

  function DoWriteSlot(s: State, i: nat): State
    requires CanWriteSlot(s, i)
  {
    SetBuf(s, i, s.bufs[i].(dirty := false))
    .(disk := s.disk[s.bufs[i].blockno := s.bufs[i].data], pc := Copy(s.pc.tail + 1))
  }

  /** write_head fills the header's buffer from the log header in memory. */
  predicate CanFillHead(s: State, i: nat) {
    && ((s.pc.Copy? && s.pc.tail == |s.lh|) || s.pc.Clear?)
    && HasBlock(s, s.who, i, s.start) && |s.lh| <= LOGBLOCKS
  }

  function DoFillHead(s: State, i: nat): State
    requires CanFillHead(s, i)
  {
    SetBuf(s, i, s.bufs[i].(data := WithHeader(s.bufs[i].data, s.lh), dirty := true))
  }

  /** The header write that commits. */
  predicate CanCommitHead(s: State, i: nat) {
    && s.pc.Copy? && s.pc.tail == |s.lh| && HasBlock(s, s.who, i, s.start)
    && s.bufs[i].dirty && s.start < |s.disk|
  }

  function DoCommitHead(s: State, i: nat): State
    requires CanCommitHead(s, i)
  {
    SetBuf(s, i, s.bufs[i].(dirty := false))
    .(disk := s.disk[s.start := s.bufs[i].data], pc := Install(0, false, false), stable := s.logical)
  }

  /** install_trans copies a slot into its home block's buffer ... */
  predicate CanCopyHome(s: State, i: nat, j: nat) {
    && s.pc.Install? && s.pc.tail < |s.lh| && !s.pc.wrote
    && HasBlock(s, s.who, i, s.lh[s.pc.tail]) && HasBlock(s, s.who, j, SlotBlock(s.start, s.pc.tail))
  }

  /** ... writes the home block ... */
  predicate CanWriteHome(s: State, i: nat) {
    && s.pc.Install? && s.pc.tail < |s.lh| && !s.pc.wrote && HasBlock(s, s.who, i, s.lh[s.pc.tail])
    && s.bufs[i].dirty && s.lh[s.pc.tail] < |s.disk| && s.lh[s.pc.tail] < |s.logical|
    && s.lh[s.pc.tail] < |s.logged|
  }

  function DoWriteHome(s: State, i: nat): State
    requires CanWriteHome(s, i)
  {
    var u := s.bufs[i];
    SetBuf(s, i, u.(dirty := false))
    .(disk := s.disk[u.blockno := u.data], logical := s.logical[u.blockno := u.data],
      logged := if s.pc.rec then s.logged[u.blockno := u.data] else s.logged,
      pc := if s.pc.rec then Install(s.pc.tail + 1, false, true) else Install(s.pc.tail, true, false))
  }

  /** ... and drops the pin, unless it is recovering. */
  predicate CanUnpin(s: State, i: nat) {
    && s.pc.Install? && s.pc.tail < |s.lh| && s.pc.wrote && HasBlock(s, s.who, i, s.lh[s.pc.tail])
    && s.bufs[i].refcnt > 0
  }

  function DoUnpin(s: State, i: nat): State
    requires CanUnpin(s, i)
  {
    SetBuf(s, i, s.bufs[i].(refcnt := s.bufs[i].refcnt - 1)).(pc := Install(s.pc.tail + 1, false, false))
  }

  /** log.lh.n = 0, after the last installation. */
  predicate CanForget(s: State) {
    s.pc.Install? && s.pc.tail == |s.lh| && !s.pc.wrote
  }

  function DoForget(s: State): State
    requires CanForget(s)
  {
    s.(lh := [], pins := [], pc := Clear(s.pc.rec))
  }

  /** The header write that erases the transaction. */
  predicate CanClearHead(s: State, i: nat) {
    s.pc.Clear? && HasBlock(s, s.who, i, s.start) && s.bufs[i].dirty && s.start < |s.disk|
  }

  function DoClearHead(s: State, i: nat): State
    requires CanClearHead(s, i)
  {
    SetBuf(s, i, s.bufs[i].(dirty := false))
    .(disk := s.disk[s.start := s.bufs[i].data], pc := if s.pc.rec then Quiet else Done)
  }

  /** end_op after commit. */
  function DoFinish(s: State): State {
    s.(pc := Quiet, committing := false)
  }

  predicate CanReadHead(s: State, i: nat) {
    s.pc.Boot? && HasBlock(s, s.who, i, s.start) && HeaderFits(s.bufs[i].data)
  }

  function DoReadHead(s: State, i: nat): State
    requires CanReadHead(s, i)
  {
    s.(lh := Header(s.bufs[i].data), pc := Install(0, false, true))
  }

  /** A buffer that holds nothing, as in zeroed memory; its bytes do not matter. */
  function Blank(data: Block): Buf {
    Buf(0, 0, false, 0, data, None, multiset{}, false, false)
  }

  function Blanked(bufs: seq<Buf>): (r: seq<Buf>)
    ensures |r| == |bufs| && forall i :: 0 <= i < |bufs| ==> r[i] == Blank(bufs[i].data)
  {
    if bufs == [] then [] else [Blank(bufs[0].data)] + Blanked(bufs[1..])
  }

  function Idle(ops: seq<Op>): (r: seq<Op>)
    ensures |r| == |ops| && forall t :: 0 <= t < |ops| ==> r[t] == Out
  {
    if ops == [] then [] else [Out] + Idle(ops[1..])
  }

  /** Memory is lost, the disk stays. */
  function AfterCrash(s: State, boot: nat): State {
    State(s.start, s.disk, Blanked(s.bufs), [], [], 0, false, Idle(s.ops), boot, Boot, s.stable, s.disk, s.disk, map[])
  }

  predicate Enabled(s: State, a: Action) {
    match a
    case Bget(t, i, b) => CanBget(s, t, i, b)
    case Lock(t, i) => CanLock(s, t, i)
    case ReadIn(t, i) => CanReadIn(s, t, i)
    case Modify(t, i, data) => CanModify(s, t, i)
    case Unlock(t, i) => CanUnlock(s, t, i)
    case Abandon(t, i) => CanAbandon(s, t, i)
    case Drop(t, i) => CanDrop(s, t, i)
    case BeginOp(t) => CanBeginOp(s, t)
    case Absorb(t, i) => CanAbsorb(s, t, i)
    case Append(t, i) => CanAppend(s, t, i)
    case EndOp(t) => CanEndOp(s, t)
    case CopyToSlot(i, j) => CanCopyToSlot(s, i, j)
    case WriteSlot(i) => CanWriteSlot(s, i)
    case FillHead(i) => CanFillHead(s, i)
    case CommitHead(i) => CanCommitHead(s, i)
    case CopyHome(i, j) => CanCopyHome(s, i, j)
    case WriteHome(i) => CanWriteHome(s, i)
    case Unpin(i) => CanUnpin(s, i)
    case Forget => CanForget(s)
    case ClearHead(i) => CanClearHead(s, i)
    case Finish => s.pc.Done?
    case Crash(boot) => true
    case ReadHead(i) => CanReadHead(s, i)
  }

  function Apply(s: State, a: Action): State
    requires Enabled(s, a)
  {
    match a
    case Bget(t, i, b) => DoBget(s, t, i, b)
    case Lock(t, i) => DoLock(s, t, i)
    case ReadIn(t, i) => DoReadIn(s, t, i)
    case Modify(t, i, data) => DoModify(s, t, i, data)
    case Unlock(t, i) => DoUnlock(s, t, i)
    case Abandon(t, i) => DoAbandon(s, t, i)
    case Drop(t, i) => DoDrop(s, t, i)
    case BeginOp(t) => DoBeginOp(s, t)
    case Absorb(t, i) => DoAbsorb(s, t, i)
    case Append(t, i) => DoAppend(s, t, i)
    case EndOp(t) => DoEndOp(s, t)
    case CopyToSlot(i, j) => DoCopy(s, i, j)
    case WriteSlot(i) => DoWriteSlot(s, i)
    case FillHead(i) => DoFillHead(s, i)
    case CommitHead(i) => DoCommitHead(s, i)
    case CopyHome(i, j) => DoCopy(s, i, j)
    case WriteHome(i) => DoWriteHome(s, i)
    case Unpin(i) => DoUnpin(s, i)
    case Forget => DoForget(s)
    case ClearHead(i) => DoClearHead(s, i)
    case Finish => DoFinish(s)
    case Crash(boot) => AfterCrash(s, boot)
    case ReadHead(i) => DoReadHead(s, i)
  }

  // ----- the invariant, one predicate per group of fields

  ghost predicate PcOk(pc: Pc, lh: seq<nat>) {
    match pc
    case Copy(tail) => tail <= |lh| && 0 < |lh|
    case Install(tail, wrote, rec) => tail <= |lh| && (wrote ==> tail < |lh| && !rec)
    case Quiet => true
    case _ => lh == []
  }

  ghost predicate Shape(start: nat, disk: Image, lh: seq<nat>, pc: Pc, stable: Image, logical: Image) {
    && |stable| == |disk| == |logical|
    && LogOk(disk, start)
    && EntriesOk(lh, start, |disk|)
    && PcOk(pc, lh)
  }

  /** begin_op's arithmetic: what is logged and what is promised fit the log. */
  ghost predicate Admission(ops: seq<Op>, outstanding: nat, committing: bool, pc: Pc, n: nat) {
    && outstanding == Count(ops)
    && (forall t :: 0 <= t < |ops| && ops[t].In? ==> ops[t].spent <= MAXOPBLOCKS)
    && n + Reserved(ops) <= LOGBLOCKS
    && (!pc.Quiet? ==> forall t :: 0 <= t < |ops| ==> ops[t].Out?)
    && (committing <==> !pc.Quiet? && !Recovering(pc))
  }

  /** At most one buffer holds any block. */
  ghost predicate Unique(bufs: seq<Buf>) {
    forall i, j :: 0 <= i < j < |bufs| && bufs[i].dev == ROOTDEV && bufs[j].dev == ROOTDEV ==>
      bufs[i].blockno != bufs[j].blockno
  }

  /** Every pinned entry has its buffer, valid. */
  ghost predicate PinsOk(bufs: seq<Buf>, lh: seq<nat>, pins: seq<nat>, pinFrom: nat) {
    && (|pins| == |lh| || (pins == [] && |lh| <= pinFrom))
    && forall k :: pinFrom <= k < |lh| ==>
         pins[k] < |bufs| && Holds(bufs[pins[k]], lh[k]) && bufs[pins[k]].valid
  }

  ghost predicate BufOk(u: Buf, size: nat, lh: seq<nat>, pinFrom: nat) {
    && (u.dev == ROOTDEV || u.dev == 0)
    && (u.dev == ROOTDEV ==> u.blockno < size)
    && u.refcnt == |u.users| + (if u.dev == ROOTDEV && Listed(lh, pinFrom, u.blockno) then 1 else 0)
    && (u.holder.Some? ==> u.holder.value in u.users)
    && (u.dev == 0 ==> u.users == multiset{} && !u.valid)
    && (u.dirty ==> u.valid && u.holder.Some?)
  }

  /** Reference counts are users plus pin. */
  ghost predicate Counted(bufs: seq<Buf>, size: nat, lh: seq<nat>, pinFrom: nat) {
    forall i :: 0 <= i < |bufs| ==> BufOk(bufs[i], size, lh, pinFrom)
  }

  /** A clean buffer shows the logical contents of a home block, the disk contents of a log block. */
  ghost predicate Shows(u: Buf, start: nat, disk: Image, logical: Image)
    requires |logical| == |disk|
  {
    u.dev == ROOTDEV && u.valid && !u.dirty && !u.stray && u.blockno < |disk| ==>
      u.data == if Home(start, u.blockno) then logical[u.blockno] else disk[u.blockno]
  }

  ghost predicate Coherent(bufs: seq<Buf>, start: nat, disk: Image, logical: Image)
    requires |logical| == |disk|
  {
    forall i :: 0 <= i < |bufs| ==> Shows(bufs[i], start, disk, logical)
  }

  /** Only home blocks outside the log stray, and none before recovery is over. */
  ghost predicate StrayOk(u: Buf, start: nat, lh: seq<nat>, pc: Pc) {
    u.stray ==> u.dev == ROOTDEV && Home(start, u.blockno) && u.blockno !in lh && !Recovering(pc)
  }

  ghost predicate Strays(bufs: seq<Buf>, start: nat, lh: seq<nat>, pc: Pc) {
    forall i :: 0 <= i < |bufs| ==> StrayOk(bufs[i], start, lh, pc)
  }

  ghost predicate InOp(u: Buf, ops: seq<Op>) {
    u.holder.Some? && u.holder.value < |ops| && ops[u.holder.value].In?
  }

  /** What a buffer may hold between its change and the write that publishes it:
      an operation's update of a home block, or exactly the next block that commit
      or recovery is about to write. */
  ghost predicate DirtyOk(u: Buf, start: nat, disk: Image, lh: seq<nat>, logical: Image, pc: Pc)
    requires |logical| == |disk| && LogOk(disk, start) && EntriesOk(lh, start, |disk|)
  {
    if Home(start, u.blockno) then
      && pc.Install? && pc.tail < |lh| && !pc.wrote && u.blockno == lh[pc.tail]
      && u.data == disk[SlotBlock(start, pc.tail)]
    else if u.blockno == start then
      ((pc.Copy? && pc.tail == |lh|) || pc.Clear?) && HeaderFits(u.data) && Header(u.data) == lh
    else
      && pc.Copy? && pc.tail < |lh| && u.blockno == SlotBlock(start, pc.tail)
      && u.data == logical[lh[pc.tail]]
  }

  ghost predicate MayBeDirty(
    u: Buf, ops: seq<Op>, start: nat, disk: Image, lh: seq<nat>, logical: Image, pc: Pc)
    requires |logical| == |disk| && LogOk(disk, start) && EntriesOk(lh, start, |disk|)
  {
    (InOp(u, ops) && Home(start, u.blockno)) || DirtyOk(u, start, disk, lh, logical, pc)
  }

  ghost predicate Dirt(bufs: seq<Buf>, ops: seq<Op>, start: nat, disk: Image, lh: seq<nat>, logical: Image, pc: Pc)
    requires |logical| == |disk| && LogOk(disk, start) && EntriesOk(lh, start, |disk|)
  {
    forall i :: 0 <= i < |bufs| && bufs[i].dirty ==> MayBeDirty(bufs[i], ops, start, disk, lh, logical, pc)
  }

  /** The bytes of a block that the log lists: those last logged, unless a later change was
      abandoned. */
  function Kept(logged: Image, abandoned: map<nat, Block>, b: nat): Block
    requires b < |logged|
  {
    if b in abandoned then abandoned[b] else logged[b]
  }

  ghost predicate Told(lh: seq<nat>, pc: Pc, logical: Image, logged: Image, abandoned: map<nat, Block>) {
    && |logged| == |logical|
    && (Recovering(pc) ==> logged == logical && abandoned == map[])
    && forall k :: 0 <= k < |lh| && lh[k] < |logical| ==> logical[lh[k]] == Kept(logged, abandoned, lh[k])
  }

  /** A home block's disk copy is the logical one unless an installation is pending. */
  ghost predicate HomeSynced(start: nat, disk: Image, logical: Image, lh: seq<nat>, pendFrom: nat)
    requires |logical| == |disk|
  {
    forall b :: 0 <= b < |disk| && Home(start, b) && !Listed(lh, pendFrom, b) ==> logical[b] == disk[b]
  }

  /** Where the log area stands, by phase. */
  ghost predicate Phase(start: nat, disk: Image, lh: seq<nat>, logical: Image, pc: Pc)
    requires |logical| == |disk| && LogOk(disk, start) && EntriesOk(lh, start, |disk|) && PcOk(pc, lh)
  {
    var h := Header(disk[start]);
    match pc
    case Quiet => h == []
    case Done => h == []
    case Copy(tail) =>
      h == [] && forall k :: 0 <= k < tail ==> disk[SlotBlock(start, k)] == logical[lh[k]]
    case Install(tail, wrote, rec) =>
      && h == lh
      && (!rec ==> forall k :: 0 <= k < |lh| ==> disk[SlotBlock(start, k)] == logical[lh[k]])
      && (forall k :: 0 <= k < tail ==> disk[SlotBlock(start, k)] == disk[lh[k]])
    case Clear(_) => forall k :: 0 <= k < |h| ==> disk[SlotBlock(start, k)] == disk[h[k]]
    case Boot => true
  }

  /** The heart of it: whatever happened so far, recovering from this disk yields stable. */
  ghost predicate Durable(start: nat, disk: Image, stable: Image)
    requires |stable| == |disk| && LogOk(disk, start)
  {
    forall b :: 0 <= b < |disk| && Home(start, b) ==> AfterRecovery(disk, start, b) == stable[b]
  }

  ghost predicate BufInv(s: State)
    requires |s.logical| == |s.disk| && LogOk(s.disk, s.start) && EntriesOk(s.lh, s.start, |s.disk|)
  {
    && Unique(s.bufs)
    && PinsOk(s.bufs, s.lh, s.pins, PinFrom(s))
    && Counted(s.bufs, |s.disk|, s.lh, PinFrom(s))
    && Coherent(s.bufs, s.start, s.disk, s.logical)
    && Strays(s.bufs, s.start, s.lh, s.pc)
    && Dirt(s.bufs, s.ops, s.start, s.disk, s.lh, s.logical, s.pc)
  }

  ghost predicate DiskInv(s: State)
    requires Shape(s.start, s.disk, s.lh, s.pc, s.stable, s.logical)
  {
    && HomeSynced(s.start, s.disk, s.logical, s.lh, PendFrom(s))
    && Phase(s.start, s.disk, s.lh, s.logical, s.pc)
    && Durable(s.start, s.disk, s.stable)
    && Told(s.lh, s.pc, s.logical, s.logged, s.abandoned)
  }

  ghost predicate Inv(s: State) {
    && Shape(s.start, s.disk, s.lh, s.pc, s.stable, s.logical)
    && Admission(s.ops, s.outstanding, s.committing, s.pc, |s.lh|)
    && BufInv(s)
    && DiskInv(s)
  }
}
