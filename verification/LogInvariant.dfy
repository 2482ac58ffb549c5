/** Every action of the log machine keeps its invariant. */
module LogInvariant {
  import opened LogDisk
  import opened LogMachine

  // ----- reservations

  function One(o: Op): nat {
    if o.In? then 1 else 0
  }

  function Room(o: Op): int {
    if o.In? then MAXOPBLOCKS - o.spent else 0
  }

  lemma {:induction false} OpsUpdate(ops: seq<Op>, t: nat, o: Op)
    requires t < |ops|
    ensures Count(ops[t := o]) == Count(ops) - One(ops[t]) + One(o)
    ensures Reserved(ops[t := o]) == Reserved(ops) - Room(ops[t]) + Room(o)
  {
    if t == 0 {
      assert ops[t := o][1..] == ops[1..];
    } else {
      OpsUpdate(ops[1..], t - 1, o);
      assert ops[t := o][1..] == ops[1..][t - 1 := o];
    }
  }

  lemma {:induction false} ReservedBounds(ops: seq<Op>)
    requires forall t :: 0 <= t < |ops| && ops[t].In? ==> ops[t].spent <= MAXOPBLOCKS
    ensures 0 <= Reserved(ops) <= Count(ops) * MAXOPBLOCKS
    ensures Count(ops) == 0 ==> forall t :: 0 <= t < |ops| ==> ops[t].Out?
    ensures (forall t :: 0 <= t < |ops| ==> ops[t].Out?) ==> Count(ops) == 0
    ensures forall t :: 0 <= t < |ops| ==> Room(ops[t]) <= Reserved(ops)
  {
    if ops != [] {
      ReservedBounds(ops[1..]);
      assert forall t :: 1 <= t < |ops| ==> ops[t] == ops[1..][t - 1];
    }
  }

  // ----- actions that change one buffer

  /** u stays the buffer of the same block, or takes over an unused buffer for a
      block that no buffer holds. */
  ghost predicate Replaces(bufs: seq<Buf>, i: nat, u: Buf)
    requires i < |bufs|
  {
    || (u.dev == bufs[i].dev && u.blockno == bufs[i].blockno && (bufs[i].valid ==> u.valid))
    || (bufs[i].refcnt == 0 && forall j :: 0 <= j < |bufs| && bufs[j].dev == ROOTDEV ==> bufs[j].blockno != u.blockno)
  }

  lemma PinsStay(bufs: seq<Buf>, i: nat, u: Buf, size: nat, lh: seq<nat>, pins: seq<nat>, pinFrom: nat)
    requires i < |bufs| && Replaces(bufs, i, u)
    requires PinsOk(bufs, lh, pins, pinFrom) && Counted(bufs, size, lh, pinFrom)
    ensures PinsOk(bufs[i := u], lh, pins, pinFrom)
  {
    forall k | pinFrom <= k < |lh|
      ensures Holds(bufs[i := u][pins[k]], lh[k]) && bufs[i := u][pins[k]].valid
    {
      assert Listed(lh, pinFrom, lh[k]);
      assert BufOk(bufs[pins[k]], size, lh, pinFrom);
    }
  }

  lemma RestStays(bufs: seq<Buf>, i: nat, u: Buf, size: nat, lh: seq<nat>, pinFrom: nat)
    requires i < |bufs| && Replaces(bufs, i, u) && Unique(bufs)
    requires Counted(bufs, size, lh, pinFrom) && BufOk(u, size, lh, pinFrom)
    ensures Unique(bufs[i := u]) && Counted(bufs[i := u], size, lh, pinFrom)
  {
  }

  lemma OneBufferInv(s: State, i: nat, u: Buf)
    requires |s.logical| == |s.disk| && LogOk(s.disk, s.start) && EntriesOk(s.lh, s.start, |s.disk|)
    requires BufInv(s) && i < |s.bufs| && Replaces(s.bufs, i, u)
    requires BufOk(u, |s.disk|, s.lh, PinFrom(s))
    requires Shows(u, s.start, s.disk, s.logical) && StrayOk(u, s.start, s.lh, s.pc)
    requires u.dirty ==> MayBeDirty(u, s.ops, s.start, s.disk, s.lh, s.logical, s.pc)
    ensures BufInv(SetBuf(s, i, u))
  {
    PinsStay(s.bufs, i, u, |s.disk|, s.lh, s.pins, PinFrom(s));
    RestStays(s.bufs, i, u, |s.disk|, s.lh, PinFrom(s));
  }

  lemma OneBuffer(s: State, i: nat, u: Buf)
    requires Inv(s) && i < |s.bufs| && Replaces(s.bufs, i, u)
    requires BufOk(u, |s.disk|, s.lh, PinFrom(s))
    requires Shows(u, s.start, s.disk, s.logical) && StrayOk(u, s.start, s.lh, s.pc)
    requires u.dirty ==> MayBeDirty(u, s.ops, s.start, s.disk, s.lh, s.logical, s.pc)
    ensures Inv(SetBuf(s, i, u))
  {
    OneBufferInv(s, i, u);
  }

  /** A buffer is recycled only if the log does not pin it. */
  lemma BgetKeeps(s: State, t: nat, i: nat, b: nat)
    requires Inv(s) && CanBget(s, t, i, b)
    ensures Inv(DoBget(s, t, i, b))
    ensures !Holds(s.bufs[i], b) ==> forall k :: PinFrom(s) <= k < |s.lh| ==> s.pins[k] != i
  {
    var u := s.bufs[i];
    assert BufOk(u, |s.disk|, s.lh, PinFrom(s));
    assert StrayOk(u, s.start, s.lh, s.pc);
    if Holds(u, b) {
      OneBuffer(s, i, u.(refcnt := u.refcnt + 1, users := u.users + multiset{t}));
    } else {
      assert |u.users| == 0;
      assert !(u.dev == ROOTDEV && Listed(s.lh, PinFrom(s), u.blockno));
      OneBuffer(s, i, u.(dev := ROOTDEV, blockno := b, valid := false, refcnt := 1, users := multiset{t},
                         stray := false));
    }
  }

  lemma LockKeeps(s: State, t: nat, i: nat)
    requires Inv(s) && CanLock(s, t, i)
    ensures Inv(DoLock(s, t, i))
  {
    OneBuffer(s, i, s.bufs[i].(holder := Some(t)));
  }

  /** A block that still waits for installation is in a valid buffer. */
  lemma PendingIsCached(s: State, i: nat)
    requires Inv(s) && i < |s.bufs| && s.bufs[i].dev == ROOTDEV && !s.bufs[i].valid
    ensures !Listed(s.lh, PendFrom(s), s.bufs[i].blockno)
  {
    forall k | PendFrom(s) <= k < |s.lh| ensures s.lh[k] != s.bufs[i].blockno {
      assert s.bufs[s.pins[k]].valid;
    }
  }

  lemma ReadInKeeps(s: State, t: nat, i: nat)
    requires Inv(s) && CanReadIn(s, t, i)
    ensures Inv(DoReadIn(s, t, i))
  {
    var u := s.bufs[i];
    assert BufOk(u, |s.disk|, s.lh, PinFrom(s));
    PendingIsCached(s, i);
    OneBuffer(s, i, u.(data := s.disk[u.blockno], valid := true));
  }

  lemma ModifyKeeps(s: State, t: nat, i: nat, data: Block)
    requires Inv(s) && CanModify(s, t, i)
    ensures Inv(DoModify(s, t, i, data))
  {
    OneBuffer(s, i, s.bufs[i].(data := data, dirty := true));
  }

  lemma UnlockKeeps(s: State, t: nat, i: nat)
    requires Inv(s) && CanUnlock(s, t, i)
    ensures Inv(DoUnlock(s, t, i))
  {
    OneBuffer(s, i, s.bufs[i].(holder := None));
  }

  /** Releasing a change unlogged: a listed block's logical contents take it over, another
      block's buffer strays. */
  lemma AbandonKeeps(s: State, t: nat, i: nat)
    requires Inv(s) && CanAbandon(s, t, i)
    ensures Inv(DoAbandon(s, t, i))
  {
    var u := s.bufs[i];
    if u.blockno in s.lh {
      AbandonListed(s, t, i);
    } else {
      OneBufferInv(s, i, DoAbandon(s, t, i).bufs[i]);
    }
  }

  lemma AbandonListed(s: State, t: nat, i: nat)
    requires Inv(s) && CanAbandon(s, t, i) && s.bufs[i].blockno in s.lh
    ensures Inv(DoAbandon(s, t, i))
  {
    RelistBufs(s, i, DoAbandon(s, t, i).bufs[i]);
    RelistDisk(s, i);
  }

  /** A listed block's logical contents become those in its buffer, which is clean now. */
  lemma RelistBufs(s: State, i: nat, u: Buf)
    requires Inv(s) && s.pc.Quiet? && i < |s.bufs| && s.bufs[i].valid && Holds(s.bufs[i], u.blockno)
    requires u.blockno in s.lh
    requires u.dev == ROOTDEV && u.data == s.bufs[i].data && !u.dirty && !u.stray
    requires BufOk(u, |s.disk|, s.lh, 0) && Replaces(s.bufs, i, u)
    ensures u.blockno < |s.disk| && BufInv(SetBuf(s, i, u).(logical := s.logical[u.blockno := u.data]))
  {
    PinsStay(s.bufs, i, u, |s.disk|, s.lh, s.pins, PinFrom(s));
    RestStays(s.bufs, i, u, |s.disk|, s.lh, PinFrom(s));
    RelistShows(s.bufs, i, u, s.start, s.disk, s.logical);
  }

  lemma RelistShows(bufs: seq<Buf>, i: nat, u: Buf, start: nat, disk: Image, logical: Image)
    requires i < |bufs| && Holds(bufs[i], u.blockno) && u.dev == ROOTDEV && u.blockno < |logical| == |disk|
    requires Home(start, u.blockno) && Unique(bufs) && Coherent(bufs, start, disk, logical)
    ensures Coherent(bufs[i := u], start, disk, logical[u.blockno := u.data])
  {
  }

  /** That concerns no block whose home copy must be the logical one. */
  lemma RelistDisk(s: State, i: nat)
    requires Inv(s) && s.pc.Quiet? && i < |s.bufs| && s.bufs[i].blockno in s.lh && s.bufs[i].blockno < |s.logical|
    ensures var b, d := s.bufs[i].blockno, s.bufs[i].data;
      && HomeSynced(s.start, s.disk, s.logical[b := d], s.lh, 0)
      && Phase(s.start, s.disk, s.lh, s.logical[b := d], s.pc)
  {
    assert Listed(s.lh, 0, s.bufs[i].blockno);
  }

  function Dropped(u: Buf, t: nat): Buf
    requires u.refcnt > 0
  {
    u.(refcnt := u.refcnt - 1, users := u.users - multiset{t})
  }

  lemma DropBufOk(u: Buf, t: nat, size: nat, lh: seq<nat>, pinFrom: nat)
    requires BufOk(u, size, lh, pinFrom) && u.holder != Some(t) && t in u.users && u.refcnt > 0
    ensures BufOk(Dropped(u, t), size, lh, pinFrom)
  {
    assert |u.users - multiset{t}| == |u.users| - 1;
    assert u.users != multiset{};
  }

  lemma DropKeeps(s: State, t: nat, i: nat)
    requires Inv(s) && CanDrop(s, t, i)
    ensures Inv(DoDrop(s, t, i))
  {
    var u := s.bufs[i];
    assert BufOk(u, |s.disk|, s.lh, PinFrom(s));
    DropBufOk(u, t, |s.disk|, s.lh, PinFrom(s));
    OneBuffer(s, i, Dropped(u, t));
    assert DoDrop(s, t, i) == SetBuf(s, i, Dropped(u, t));
  }

  lemma CopyToSlotKeeps(s: State, i: nat, j: nat)
    requires Inv(s) && CanCopyToSlot(s, i, j)
    ensures Inv(DoCopy(s, i, j))
  {
    assert !s.bufs[j].dirty;
    OneBuffer(s, i, s.bufs[i].(data := s.bufs[j].data, dirty := true));
  }

  lemma FillHeadKeeps(s: State, i: nat)
    requires Inv(s) && CanFillHead(s, i)
    ensures Inv(DoFillHead(s, i))
  {
    OneBuffer(s, i, s.bufs[i].(data := WithHeader(s.bufs[i].data, s.lh), dirty := true));
  }

  lemma CopyHomeKeeps(s: State, i: nat, j: nat)
    requires Inv(s) && CanCopyHome(s, i, j)
    ensures Inv(DoCopy(s, i, j))
  {
    assert !s.bufs[j].dirty;
    OneBuffer(s, i, s.bufs[i].(data := s.bufs[j].data, dirty := true));
  }

  // ----- operations

  lemma BeginOpKeeps(s: State, t: nat)
    requires Inv(s) && CanBeginOp(s, t)
    ensures Inv(DoBeginOp(s, t))
  {
    OpsUpdate(s.ops, t, In(0));
    ReservedBounds(s.ops);
  }

  /** log_write of a block the log already lists. */
  lemma AbsorbKeeps(s: State, t: nat, i: nat)
    requires Inv(s) && CanAbsorb(s, t, i)
    ensures Inv(DoAbsorb(s, t, i))
  {
    RelistBufs(s, i, DoAbsorb(s, t, i).bufs[i]);
    RelistDisk(s, i);
  }

  lemma ListedAppend(lh: seq<nat>, b: nat, c: nat)
    ensures Listed(lh + [b], 0, c) <==> Listed(lh, 0, c) || c == b
  {
    assert (lh + [b])[|lh|] == b;
    if Listed(lh, 0, c) {
      var k :| 0 <= k < |lh| && lh[k] == c;
      assert (lh + [b])[k] == c;
    }
  }

  lemma AppendEntries(lh: seq<nat>, b: nat, start: nat, size: nat)
    requires EntriesOk(lh, start, size) && |lh| < LOGBLOCKS && b !in lh && Home(start, b) && b < size
    ensures EntriesOk(lh + [b], start, size)
  {
  }

  /** A buffer after the log_write that lists its block. */
  function Logged(u: Buf): Buf {
    u.(dirty := false, stray := false, refcnt := u.refcnt + 1)
  }

  lemma AppendCounted(bufs: seq<Buf>, i: nat, size: nat, lh: seq<nat>)
    requires i < |bufs| && bufs[i].dev == ROOTDEV && bufs[i].blockno !in lh && bufs[i].valid
    requires Unique(bufs) && Counted(bufs, size, lh, 0)
    ensures Counted(bufs[i := Logged(bufs[i])], size, lh + [bufs[i].blockno], 0)
  {
    var b := bufs[i].blockno;
    var bufs' := bufs[i := Logged(bufs[i])];
    forall j | 0 <= j < |bufs'|
      ensures BufOk(bufs'[j], size, lh + [b], 0)
    {
      assert BufOk(bufs[j], size, lh, 0);
      ListedAppend(lh, b, bufs[j].blockno);
    }
  }

  lemma AppendPins(bufs: seq<Buf>, i: nat, lh: seq<nat>, pins: seq<nat>)
    requires i < |bufs| && bufs[i].dev == ROOTDEV && bufs[i].valid
    requires Unique(bufs) && PinsOk(bufs, lh, pins, 0)
    ensures Unique(bufs[i := Logged(bufs[i])])
    ensures PinsOk(bufs[i := Logged(bufs[i])], lh + [bufs[i].blockno], pins + [i], 0)
  {
  }

  /** The other buffers hold other blocks, so what is logged does not concern them. */
  lemma AppendShows(bufs: seq<Buf>, i: nat, start: nat, disk: Image, logical: Image)
    requires i < |bufs| && bufs[i].dev == ROOTDEV && bufs[i].blockno < |logical| == |disk|
    requires Home(start, bufs[i].blockno)
    requires Unique(bufs) && Coherent(bufs, start, disk, logical)
    ensures Coherent(bufs[i := Logged(bufs[i])], start, disk, logical[bufs[i].blockno := bufs[i].data])
  {
  }

  lemma AppendDirt(s: State, t: nat, i: nat)
    requires Inv(s) && CanAppend(s, t, i) && EntriesOk(s.lh + [s.bufs[i].blockno], s.start, |s.disk|)
    ensures var s' := DoAppend(s, t, i);
      Strays(s'.bufs, s.start, s'.lh, s.pc) && Dirt(s'.bufs, s'.ops, s.start, s.disk, s'.lh, s'.logical, s.pc)
  {
    var s' := DoAppend(s, t, i);
    forall j | 0 <= j < |s'.bufs|
      ensures StrayOk(s'.bufs[j], s.start, s'.lh, s.pc)
      ensures s'.bufs[j].dirty ==> MayBeDirty(s'.bufs[j], s'.ops, s.start, s.disk, s'.lh, s'.logical, s.pc)
    {
      assert StrayOk(s.bufs[j], s.start, s.lh, s.pc);
      assert BufOk(s.bufs[j], |s.disk|, s.lh, PinFrom(s));
    }
  }

  lemma AppendBufs(s: State, t: nat, i: nat)
    requires Inv(s) && CanAppend(s, t, i)
    ensures var s' := DoAppend(s, t, i);
      EntriesOk(s'.lh, s.start, |s.disk|) && BufInv(s')
  {
    AppendEntries(s.lh, s.bufs[i].blockno, s.start, |s.disk|);
    AppendPins(s.bufs, i, s.lh, s.pins);
    AppendCounted(s.bufs, i, |s.disk|, s.lh);
    AppendShows(s.bufs, i, s.start, s.disk, s.logical);
    AppendDirt(s, t, i);
  }

  /** log_write of a block the log does not list yet: it takes a slot and a pin. */
  lemma AppendKeeps(s: State, t: nat, i: nat)
    requires Inv(s) && CanAppend(s, t, i)
    ensures Inv(DoAppend(s, t, i))
  {
    var s' := DoAppend(s, t, i);
    OpsUpdate(s.ops, t, s'.ops[t]);
    AppendBufs(s, t, i);
    forall c ensures Listed(s'.lh, 0, c) <==> Listed(s.lh, 0, c) || c == s.bufs[i].blockno {
      ListedAppend(s.lh, s.bufs[i].blockno, c);
    }
  }

  lemma EndOpKeeps(s: State, t: nat)
    requires Inv(s) && CanEndOp(s, t)
    ensures Inv(DoEndOp(s, t))
  {
    OpsUpdate(s.ops, t, Out);
    var s' := DoEndOp(s, t);
    ReservedBounds(s'.ops);
  }

  // ----- commit, installation, recovery

  lemma WriteSlotBufs(s: State, i: nat)
    requires Inv(s) && CanWriteSlot(s, i)
    ensures var s' := DoWriteSlot(s, i); LogOk(s'.disk, s.start) && BufInv(s')
  {
    var s' := DoWriteSlot(s, i);
    assert BufOk(s.bufs[i], |s.disk|, s.lh, PinFrom(s));
    PinsStay(s.bufs, i, s'.bufs[i], |s.disk|, s.lh, s.pins, PinFrom(s));
    RestStays(s.bufs, i, s'.bufs[i], |s.disk|, s.lh, PinFrom(s));
    LogBlockShows(s.bufs, i, s.start, s.disk, s.logical);
  }

  /** A block of the log area, written from its buffer, is what the buffer shows. */
  lemma LogBlockShows(bufs: seq<Buf>, i: nat, start: nat, disk: Image, logical: Image)
    requires i < |bufs| && bufs[i].dev == ROOTDEV && !Home(start, bufs[i].blockno)
    requires bufs[i].blockno < |disk| == |logical|
    requires Unique(bufs) && Coherent(bufs, start, disk, logical)
    ensures Coherent(bufs[i := bufs[i].(dirty := false)], start, disk[bufs[i].blockno := bufs[i].data], logical)
  {
  }

  lemma WriteSlotKeeps(s: State, i: nat)
    requires Inv(s) && CanWriteSlot(s, i)
    ensures Inv(DoWriteSlot(s, i))
  {
    WriteSlotBufs(s, i);
  }

  lemma CommitHeadKeeps(s: State, i: nat)
    requires Inv(s) && CanCommitHead(s, i)
    ensures Inv(DoCommitHead(s, i))
  {
    CommitHeadBufs(s, i);
    CommittedDurable(s.start, s.disk, s.bufs[i].data, s.lh, s.logical);
  }

  lemma CommitHeadBufs(s: State, i: nat)
    requires Inv(s) && CanCommitHead(s, i)
    ensures var s' := DoCommitHead(s, i);
      HeaderFits(s.bufs[i].data) && Header(s.bufs[i].data) == s.lh && LogOk(s'.disk, s.start) && BufInv(s')
  {
    var s' := DoCommitHead(s, i);
    assert !InOp(s.bufs[i], s.ops);
    assert DirtyOk(s.bufs[i], s.start, s.disk, s.lh, s.logical, s.pc);
    PinsStay(s.bufs, i, s'.bufs[i], |s.disk|, s.lh, s.pins, PinFrom(s));
  }

  /** A header that lists what the slots hold means the logical contents. */
  lemma CommittedDurable(start: nat, disk: Image, data: Block, lh: seq<nat>, logical: Image)
    requires LogOk(disk, start) && |logical| == |disk| && HeaderFits(data) && Header(data) == lh
    requires EntriesOk(lh, start, |disk|) && HomeSynced(start, disk, logical, lh, 0)
    requires forall k :: 0 <= k < |lh| ==> disk[SlotBlock(start, k)] == logical[lh[k]]
    ensures LogOk(disk[start := data], start) && Durable(start, disk[start := data], logical)
  {
    var d' := disk[start := data];
    forall b | 0 <= b < |disk| && Home(start, b) ensures AfterRecovery(d', start, b) == logical[b] {
      var k := Find(lh, b);
      assert k == |lh| ==> !Listed(lh, 0, b);
    }
  }

  lemma ListedDrop(lh: seq<nat>, k: nat, c: nat)
    requires Distinct(lh) && k < |lh|
    ensures Listed(lh, k + 1, c) <==> Listed(lh, k, c) && c != lh[k]
  {
  }

  /** Writing to a home block leaves the log area as it was. */
  lemma HomeWriteKeepsLog(start: nat, disk: Image, b: nat, data: Block)
    requires LogOk(disk, start) && Home(start, b) && b < |disk|
    ensures LogOk(disk[b := data], start)
    ensures Header(disk[b := data][start]) == Header(disk[start])
    ensures forall k :: 0 <= k < LOGBLOCKS ==> disk[b := data][SlotBlock(start, k)] == disk[SlotBlock(start, k)]
  {
  }

  lemma CleanAfterWrite(bufs: seq<Buf>, i: nat, start: nat, disk: Image, logical: Image)
    requires i < |bufs| && bufs[i].dev == ROOTDEV && Home(start, bufs[i].blockno) && bufs[i].blockno < |disk|
    requires |logical| == |disk| && Unique(bufs) && Coherent(bufs, start, disk, logical)
    ensures var b, d := bufs[i].blockno, bufs[i].data;
      Coherent(bufs[i := bufs[i].(dirty := false)], start, disk[b := d], logical[b := d])
  {
  }

  lemma InstalledDurable(start: nat, disk: Image, stable: Image, lh: seq<nat>, tail: nat)
    requires LogOk(disk, start) && |stable| == |disk| && tail < |lh| && lh == Header(disk[start])
    requires Durable(start, disk, stable)
    ensures var d' := disk[lh[tail] := disk[SlotBlock(start, tail)]];
      LogOk(d', start) && Durable(start, d', stable)
  {
    var d' := disk[lh[tail] := disk[SlotBlock(start, tail)]];
    HomeWriteKeepsLog(start, disk, lh[tail], disk[SlotBlock(start, tail)]);
    FindUnique(lh, tail);
    forall b | 0 <= b < |disk| && Home(start, b)
      ensures AfterRecovery(d', start, b) == stable[b]
    {
      assert AfterRecovery(disk, start, b) == stable[b];
    }
  }

  lemma InstalledPhase(start: nat, disk: Image, lh: seq<nat>, logical: Image, tail: nat, rec: bool)
    requires |logical| == |disk| && LogOk(disk, start) && EntriesOk(lh, start, |disk|) && tail < |lh|
    requires Phase(start, disk, lh, logical, Install(tail, false, rec))
    ensures var d := disk[SlotBlock(start, tail)];
      var disk', logical' := disk[lh[tail] := d], logical[lh[tail] := d];
      && LogOk(disk', start)
      && (rec ==> Phase(start, disk', lh, logical', Install(tail + 1, false, true)))
      && (!rec ==> Phase(start, disk', lh, logical', Install(tail, true, false)))
  {
    HomeWriteKeepsLog(start, disk, lh[tail], disk[SlotBlock(start, tail)]);
  }

  lemma InstalledSynced(start: nat, disk: Image, lh: seq<nat>, logical: Image, tail: nat, rec: bool)
    requires |logical| == |disk| && LogOk(disk, start) && EntriesOk(lh, start, |disk|) && tail < |lh|
    requires HomeSynced(start, disk, logical, lh, if rec then |lh| else tail)
    ensures var d := disk[SlotBlock(start, tail)];
      HomeSynced(start, disk[lh[tail] := d], logical[lh[tail] := d], lh, if rec then |lh| else tail + 1)
  {
    forall b ensures Listed(lh, tail + 1, b) <==> Listed(lh, tail, b) && b != lh[tail] {
      ListedDrop(lh, tail, b);
    }
  }

  lemma WriteHomeBufs(s: State, i: nat)
    requires Inv(s) && CanWriteHome(s, i)
    ensures var s' := DoWriteHome(s, i);
      s.bufs[i].data == s.disk[SlotBlock(s.start, s.pc.tail)] && LogOk(s'.disk, s.start) && BufInv(s')
  {
    var s' := DoWriteHome(s, i);
    PinsStay(s.bufs, i, s'.bufs[i], |s.disk|, s.lh, s.pins, PinFrom(s));
    CleanAfterWrite(s.bufs, i, s.start, s.disk, s.logical);
  }

  lemma InstalledTold(s: State, i: nat)
    requires Inv(s) && CanWriteHome(s, i) && s.bufs[i].data == s.disk[SlotBlock(s.start, s.pc.tail)]
    ensures var s' := DoWriteHome(s, i); Told(s'.lh, s'.pc, s'.logical, s'.logged, s'.abandoned)
  {
    var u, s' := s.bufs[i], DoWriteHome(s, i);
    assert !s.pc.rec ==> s'.logical == s.logical;
  }

  lemma WriteHomeKeeps(s: State, i: nat)
    requires Inv(s) && CanWriteHome(s, i)
    ensures Inv(DoWriteHome(s, i))
  {
    WriteHomeBufs(s, i);
    InstalledTold(s, i);
    InstalledDurable(s.start, s.disk, s.stable, s.lh, s.pc.tail);
    InstalledPhase(s.start, s.disk, s.lh, s.logical, s.pc.tail, s.pc.rec);
    InstalledSynced(s.start, s.disk, s.lh, s.logical, s.pc.tail, s.pc.rec);
  }

  lemma UnpinCounted(bufs: seq<Buf>, i: nat, size: nat, lh: seq<nat>, k: nat)
    requires Distinct(lh) && k < |lh| && i < |bufs| && Holds(bufs[i], lh[k]) && bufs[i].refcnt > 0
    requires Unique(bufs) && Counted(bufs, size, lh, k)
    ensures Counted(bufs[i := bufs[i].(refcnt := bufs[i].refcnt - 1)], size, lh, k + 1)
  {
    var bufs' := bufs[i := bufs[i].(refcnt := bufs[i].refcnt - 1)];
    assert Listed(lh, k, lh[k]);
    forall j | 0 <= j < |bufs'|
      ensures BufOk(bufs'[j], size, lh, k + 1)
    {
      assert BufOk(bufs[j], size, lh, k);
      ListedDrop(lh, k, bufs[j].blockno);
    }
  }

  lemma UnpinBufs(s: State, i: nat)
    requires |s.logical| == |s.disk| && LogOk(s.disk, s.start) && EntriesOk(s.lh, s.start, |s.disk|)
    requires BufInv(s) && CanUnpin(s, i) && PcOk(s.pc, s.lh)
    ensures BufInv(DoUnpin(s, i))
  {
    var s' := DoUnpin(s, i);
    UnpinCounted(s.bufs, i, |s.disk|, s.lh, s.pc.tail);
    PinsStay(s.bufs, i, s'.bufs[i], |s.disk|, s.lh, s.pins, PinFrom(s));
    UnpinRest(s, i);
  }

  /** Between the write home and the unpin, no buffer of commit's is dirty. */
  lemma UnpinRest(s: State, i: nat)
    requires |s.logical| == |s.disk| && LogOk(s.disk, s.start) && EntriesOk(s.lh, s.start, |s.disk|)
    requires BufInv(s) && CanUnpin(s, i) && PcOk(s.pc, s.lh)
    ensures var s' := DoUnpin(s, i);
      && Unique(s'.bufs) && Coherent(s'.bufs, s.start, s.disk, s.logical) && Strays(s'.bufs, s.start, s.lh, s'.pc)
      && Dirt(s'.bufs, s.ops, s.start, s.disk, s.lh, s.logical, s'.pc)
  {
    var s' := DoUnpin(s, i);
    forall j | 0 <= j < |s'.bufs|
      ensures StrayOk(s'.bufs[j], s.start, s.lh, s'.pc) && Shows(s'.bufs[j], s.start, s.disk, s.logical)
      ensures s'.bufs[j].dirty ==> MayBeDirty(s'.bufs[j], s.ops, s.start, s.disk, s.lh, s.logical, s'.pc)
    {
      assert StrayOk(s.bufs[j], s.start, s.lh, s.pc) && Shows(s.bufs[j], s.start, s.disk, s.logical);
      assert s.bufs[j].dirty ==> MayBeDirty(s.bufs[j], s.ops, s.start, s.disk, s.lh, s.logical, s.pc);
    }
  }

  /** The block that was just written home shows its slot's contents there. */
  lemma UnpinPhase(start: nat, disk: Image, lh: seq<nat>, logical: Image, tail: nat)
    requires |logical| == |disk| && LogOk(disk, start) && EntriesOk(lh, start, |disk|) && tail < |lh|
    requires Phase(start, disk, lh, logical, Install(tail, true, false))
    requires HomeSynced(start, disk, logical, lh, tail + 1)
    ensures Phase(start, disk, lh, logical, Install(tail + 1, false, false))
  {
    ListedDrop(lh, tail, lh[tail]);
  }

  lemma UnpinKeeps(s: State, i: nat)
    requires Inv(s) && CanUnpin(s, i)
    ensures Inv(DoUnpin(s, i))
  {
    UnpinBufs(s, i);
    UnpinPhase(s.start, s.disk, s.lh, s.logical, s.pc.tail);
  }

  lemma ForgetKeeps(s: State)
    requires Inv(s) && CanForget(s)
    ensures Inv(DoForget(s))
  {
  }

  /** With everything installed, an empty header means the same contents. */
  lemma ClearedDurable(start: nat, disk: Image, data: Block, stable: Image)
    requires LogOk(disk, start) && |stable| == |disk| && HeaderFits(data) && Header(data) == []
    requires var h := Header(disk[start]); forall k :: 0 <= k < |h| ==> disk[SlotBlock(start, k)] == disk[h[k]]
    requires Durable(start, disk, stable)
    ensures LogOk(disk[start := data], start) && Durable(start, disk[start := data], stable)
  {
    forall b | 0 <= b < |disk| && Home(start, b) ensures AfterRecovery(disk[start := data], start, b) == stable[b] {
      assert AfterRecovery(disk, start, b) == stable[b];
    }
  }

  lemma ClearHeadBufs(s: State, i: nat)
    requires Inv(s) && CanClearHead(s, i)
    ensures var s' := DoClearHead(s, i);
      HeaderFits(s.bufs[i].data) && Header(s.bufs[i].data) == [] && LogOk(s'.disk, s.start) && BufInv(s')
  {
    assert !InOp(s.bufs[i], s.ops);
    assert DirtyOk(s.bufs[i], s.start, s.disk, s.lh, s.logical, s.pc);
  }

  lemma ClearHeadKeeps(s: State, i: nat)
    requires Inv(s) && CanClearHead(s, i)
    ensures Inv(DoClearHead(s, i))
  {
    ClearHeadBufs(s, i);
    ClearedDurable(s.start, s.disk, s.bufs[i].data, s.stable);
  }

  lemma FinishKeeps(s: State)
    requires Inv(s) && s.pc.Done?
    ensures Inv(DoFinish(s))
  {
  }

  lemma CrashKeeps(s: State, boot: nat)
    requires Inv(s)
    ensures Inv(AfterCrash(s, boot))
  {
    ReservedBounds(AfterCrash(s, boot).ops);
  }

  lemma ReadHeadKeeps(s: State, i: nat)
    requires Inv(s) && CanReadHead(s, i)
    ensures Inv(DoReadHead(s, i))
  {
    ReservedBounds(s.ops);
  }
}
