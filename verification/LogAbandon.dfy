/** A run in which the log holds bytes that no log_write saw: an operation logs a block,
    changes it again, and releases it without logging the change. */
module LogAbandon {
  import opened LogDisk
  import opened LogMachine
  import opened LogFull

  /** Block 0 in buffer 0, logged by thread 0 and still locked by it, after another change. */
  function Changed(x: Block): Buf {
    Buf(ROOTDEV, 0, true, 2, x, Some(0), multiset{0}, true, false)
  }

  /** Thread 0's operation has logged block 0 and is about to abandon the change to x. */
  function Relogged(d: Image, m: nat, x: Block): State
    requires Setup(d, m)
  {
    Booted(d, m).(bufs := BufsAfter(d, 0, m)[0 := Changed(x)], ops := [In(1), Out, Out], outstanding := 1,
                  lh := [0], pins := [0])
  }

  lemma ReloggedReachable(d: Image, m: nat, x: Block)
    requires Setup(d, m)
    ensures Reachable(Relogged(d, m, x))
  {
    BootReachable(d, m);
    var s := Booted(d, m);
    ReachStep(s, BeginOp(0));
    var s1 := DoBeginOp(s, 0);
    assert s1.ops == [In(0), Out, Out];
    ReadFresh(s1, 0, 0, 0);
    var s2 := SetBuf(s1, 0, Buf(ROOTDEV, 0, true, 1, d[0], Some(0), multiset{0}, false, false));
    ReachStep(s2, Append(0, 0));
    var s3 := DoAppend(s2, 0, 0);
    assert s3.ops == [In(1), Out, Out] && s3.logical == s3.logged == d && s3.abandoned == map[];
    assert s3.lh == [0] && s3.pins == [0];
    ReachStep(s3, Modify(0, 0, x));
    assert DoModify(s3, 0, 0, x).bufs == BufsAfter(d, 0, m)[0 := Changed(x)];
  }

  /** The commit of that operation, before it copies anything. */
  function Ended(d: Image, m: nat, x: Block): State
    requires Setup(d, m)
  {
    Relogged(d, m, x).(
      bufs := BufsAfter(d, 0, m)[0 := Changed(x).(holder := None, dirty := false, refcnt := 1, users := multiset{})],
      ops := [Out, Out, Out], outstanding := 0, committing := true, who := 0, pc := Copy(0),
      logical := d[0 := x], abandoned := map[0 := x])
  }

  lemma EndedReachable(d: Image, m: nat, x: Block)
    requires Setup(d, m)
    ensures Reachable(Ended(d, m, x))
  {
    ReloggedReachable(d, m, x);
    var s := Relogged(d, m, x);
    ReachStep(s, Abandon(0, 0));
    var s1 := DoAbandon(s, 0, 0);
    ReachStep(s1, Drop(0, 0));
    var s2 := DoDrop(s1, 0, 0);
    assert s2.bufs == Ended(d, m, x).bufs;
    ReachStep(s2, EndOp(0));
    assert DoEndOp(s2, 0).ops == Ended(d, m, x).ops;
    assert DoEndOp(s2, 0).abandoned == map[0 := x];
  }

  /** write_log holds the slot's buffer and the block's, and is about to copy. */
  function Copying(d: Image, m: nat, x: Block): State
    requires Setup(d, m)
  {
    var s := Ended(d, m, x);
    s.(bufs := s.bufs[1 := Buf(ROOTDEV, START + 1, true, 1, d[START + 1], Some(0), multiset{0}, false, false)]
                     [0 := Changed(x).(dirty := false)])
  }

  lemma CopyingReachable(d: Image, m: nat, x: Block)
    requires Setup(d, m)
    ensures Reachable(Copying(d, m, x))
  {
    EndedReachable(d, m, x);
    var s := Ended(d, m, x);
    ReadFresh(s, 0, 1, START + 1);
    var s1 := SetBuf(s, 1, Buf(ROOTDEV, START + 1, true, 1, d[START + 1], Some(0), multiset{0}, false, false));
    ReachStep(s1, Bget(0, 0, 0));
    var s2 := DoBget(s1, 0, 0, 0);
    ReachStep(s2, Lock(0, 0));
    assert s1.bufs[0].users + multiset{0} == multiset{0};
    assert DoLock(s2, 0, 0).bufs == Copying(d, m, x).bufs;
  }

  /** A reachable state in which write_log is about to write a slot with bytes that are not
      those of the block's last log_write. */
  lemma SlotCanHoldAbandonedBytes(d: Image, m: nat, x: Block) returns (s: State)
    requires Setup(d, m) && x != d[0]
    ensures Reachable(s) && CanWriteSlot(s, 1) && s.lh[s.pc.tail] == 0 < |s.logged|
    ensures s.bufs[1].data == x != s.logged[0] == d[0]
  {
    CopyingReachable(d, m, x);
    var c := Copying(d, m, x);
    ReachStep(c, CopyToSlot(1, 0));
    s := DoCopy(c, 1, 0);
  }
}
