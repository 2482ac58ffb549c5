/** A run that shows where log_write's size test bites: three operations fill the log
    within their budgets, and logging one of their own blocks again stops the kernel,
    although that write needs no slot. */
module LogFull {
  import opened LogDisk
  import opened LogMachine
  import opened LogTheorems

  ghost predicate RunTo(run: seq<State>, acts: seq<Action>, s: State) {
    Run(run, acts) && run[|run| - 1] == s
  }

  ghost predicate Reachable(s: State) {
    exists run, acts :: RunTo(run, acts, s)
  }

  lemma ReachStep(s: State, a: Action)
    requires Reachable(s) && Enabled(s, a)
    ensures Reachable(Apply(s, a))
  {
    var run, acts :| RunTo(run, acts, s);
    var run', acts' := run + [Apply(s, a)], acts + [a];
    forall k | 0 <= k < |run'| ensures StepAt(run', acts', k) {
      if k < |run| {
        assert StepAt(run, acts, k);
      }
    }
    assert RunTo(run', acts', Apply(s, a));
  }

  const START: nat := 40

  /** A disk with an empty log, and a cache of NBUF buffers. */
  ghost predicate Setup(d: Image, m: nat) {
    m == 30 && START + LOGBLOCKS < |d| && d[START][0] == 0
  }

  function UpTo(k: nat): (r: seq<nat>)
    ensures |r| == k && forall i :: 0 <= i < k ==> r[i] == i
  {
    if k == 0 then [] else UpTo(k - 1) + [k - 1]
  }

  /** Buffer i once the log lists blocks 0..k, block i in buffer i. */
  function BufAfter(d: Image, k: nat, i: nat): Buf
    requires k <= |d| && START < |d|
  {
    if i < k then Buf(ROOTDEV, i, true, 1, d[i], None, multiset{}, false, false)
    else if i == 29 then Buf(ROOTDEV, START, true, 0, d[START], None, multiset{}, false, false)
    else Blank(d[0])
  }

  function BufsAfter(d: Image, k: nat, m: nat): (r: seq<Buf>)
    requires k <= |d| && START < |d|
    ensures |r| == m && forall i :: 0 <= i < m ==> r[i] == BufAfter(d, k, i)
  {
    if m == 0 then [] else BufsAfter(d, k, m - 1) + [BufAfter(d, k, m - 1)]
  }

  function Spent(k: nat, t: nat): nat {
    if k <= 10 * t then 0 else if k <= 10 * t + 10 then k - 10 * t else 10
  }

  /** Three operations running, blocks 0..k logged. */
  function Filled(d: Image, m: nat, k: nat): State
    requires k <= |d| && START < |d|
  {
    State(START, d, BufsAfter(d, k, m), UpTo(k), UpTo(k), 3, false,
          [In(Spent(k, 0)), In(Spent(k, 1)), In(Spent(k, 2))], 0, Quiet, d, d, d, map[])
  }

  /** Boot with an empty log, up to the end of recovery, with the first three threads idle. */
  function Booted(d: Image, m: nat): State
    requires START < |d|
  {
    State(START, d, BufsAfter(d, 0, m), [], [], 0, false, [Out, Out, Out], 0, Quiet, d, d, d, map[])
  }

  lemma PowerOnReachable(s: State)
    requires Setup(s.disk, |s.bufs|) && s.start == START && s == AfterCrash(s, 0) && s.stable == s.disk
    ensures Reachable(s)
  {
    assert Header(s.disk[START]) == [];
    assert Init(s);
    var run, acts: seq<Action> := [s], [];
    assert StepAt(run, acts, 0);
    assert RunTo(run, acts, s);
  }

  /** bread of an uncached block into an unused buffer. */
  lemma ReadFresh(s: State, t: nat, i: nat, b: nat)
    requires Reachable(s) && i < |s.bufs| && b < |s.disk|
    requires s.bufs[i].refcnt == 0 && s.bufs[i].holder.None? && !s.bufs[i].dirty
    requires forall j :: 0 <= j < |s.bufs| ==> !Holds(s.bufs[j], b)
    ensures Reachable(SetBuf(s, i, Buf(ROOTDEV, b, true, 1, s.disk[b], Some(t), multiset{t}, false, false)))
  {
    ReachStep(s, Bget(t, i, b));
    var s1 := DoBget(s, t, i, b);
    ReachStep(s1, Lock(t, i));
    var s2 := DoLock(s1, t, i);
    ReachStep(s2, ReadIn(t, i));
    assert DoReadIn(s2, t, i).bufs
        == s.bufs[i := Buf(ROOTDEV, b, true, 1, s.disk[b], Some(t), multiset{t}, false, false)];
  }

  /** brelse of a clean buffer with a single user. */
  lemma Release(s: State, t: nat, i: nat)
    requires Reachable(s) && i < |s.bufs| && s.bufs[i].holder == Some(t) && !s.bufs[i].dirty
    requires s.bufs[i].users == multiset{t} && s.bufs[i].refcnt > 0
    ensures Reachable(SetBuf(s, i, s.bufs[i].(holder := None, refcnt := s.bufs[i].refcnt - 1, users := multiset{})))
  {
    ReachStep(s, Unlock(t, i));
    var s1 := DoUnlock(s, t, i);
    ReachStep(s1, Drop(t, i));
    assert DoDrop(s1, t, i).bufs
        == s.bufs[i := s.bufs[i].(holder := None, refcnt := s.bufs[i].refcnt - 1, users := multiset{})];
  }

  /** The header's buffer, held by thread 0. */
  function Head(d: Image): Buf
    requires START < |d|
  {
    Buf(ROOTDEV, START, true, 1, d[START], Some(0), multiset{0}, false, false)
  }

  /** Recovery with an empty header: up to the header write that erases nothing. */
  lemma EmptyRecovery(s: State)
    requires Reachable(s) && Setup(s.disk, |s.bufs|) && s.pc == Boot && s.who == 0 && s.start == START
    requires s.bufs[29] == Head(s.disk) && s.lh == s.pins == []
    ensures Reachable(s.(pc := Quiet))
  {
    assert Header(s.disk[START]) == [];
    ReachStep(s, ReadHead(29));
    var s1 := s.(lh := [], pc := Install(0, false, true));
    ReachStep(s1, Forget);
    EmptyClear(s.(pc := Clear(true)));
  }

  lemma EmptyClear(s: State)
    requires Reachable(s) && Setup(s.disk, |s.bufs|) && s.pc == Clear(true) && s.who == 0 && s.start == START
    requires s.bufs[29] == Head(s.disk) && s.lh == []
    ensures Reachable(s.(pc := Quiet))
  {
    var h := s.disk[START];
    assert WithHeader(h, []) == h;
    ReachStep(s, FillHead(29));
    var s1 := s.(bufs := s.bufs[29 := Head(s.disk).(dirty := true)]);
    ReachStep(s1, ClearHead(29));
    assert DoClearHead(s1, 29).bufs == s.bufs && DoClearHead(s1, 29).disk == s.disk;
  }

  lemma BootReachable(d: Image, m: nat)
    requires Setup(d, m)
    ensures Reachable(Booted(d, m))
  {
    var s := AfterCrash(Booted(d, m).(bufs := BufsAfter(d, 0, m)[29 := Blank(d[0])]), 0);
    assert s.bufs == Blanked(s.bufs) && s.ops == [Out, Out, Out] == Idle(s.ops);
    PowerOnReachable(s);
    ReadFresh(s, 0, 29, START);
    var s1 := SetBuf(s, 29, Head(d));
    EmptyRecovery(s1);
    Release(s1.(pc := Quiet), 0, 29);
    assert SetBuf(s1, 29, Head(d).(holder := None, refcnt := 0, users := multiset{})).bufs == Booted(d, m).bufs;
  }

  lemma OpsBegun(d: Image, m: nat)
    requires Setup(d, m)
    ensures Reachable(Filled(d, m, 0))
  {
    BootReachable(d, m);
    var s := Booted(d, m);
    ReachStep(s, BeginOp(0));
    var s1 := s.(ops := [In(0), Out, Out], outstanding := 1);
    assert DoBeginOp(s, 0).ops == s1.ops;
    ReachStep(s1, BeginOp(1));
    var s2 := s.(ops := [In(0), In(0), Out], outstanding := 2);
    assert DoBeginOp(s1, 1).ops == s2.ops;
    ReachStep(s2, BeginOp(2));
    assert DoBeginOp(s2, 2).ops == Filled(d, m, 0).ops;
  }

  /** What is left once the buffer of block k, read and logged, is released. */
  lemma FilledGrows(d: Image, m: nat, k: nat, t: nat)
    requires Setup(d, m) && k < m && t == k / 10
    ensures BufsAfter(d, k, m)[k := Buf(ROOTDEV, k, true, 1, d[k], None, multiset{}, false, false)] ==
      BufsAfter(d, k + 1, m)
    ensures UpTo(k) + [k] == UpTo(k + 1) && d[k := d[k]] == d
    ensures Filled(d, m, k).ops[t := In(Spent(k, t) + 1)] == Filled(d, m, k + 1).ops
    ensures Filled(d, m, k).ops[t] == In(Spent(k, t)) && Spent(k, t) < MAXOPBLOCKS
  {
  }

  /** The thread whose turn it is logs block k. */
  lemma LogNext(d: Image, m: nat, k: nat)
    requires Setup(d, m) && k < m && Reachable(Filled(d, m, k))
    ensures Reachable(Filled(d, m, k + 1))
  {
    var s, t := Filled(d, m, k), k / 10;
    var u := Buf(ROOTDEV, k, true, 1, d[k], Some(t), multiset{t}, false, false);
    FilledGrows(d, m, k, t);
    ReadFresh(s, t, k, k);
    var s1 := SetBuf(s, k, u);
    ReachStep(s1, Append(t, k));
    var s2 := DoAppend(s1, t, k);
    Release(s2, t, k);
    var s3 := SetBuf(s2, k, u.(holder := None, refcnt := 1, users := multiset{}));
    assert s3.bufs == s.bufs[k := u.(holder := None, users := multiset{})];
  }

  lemma {:induction false} FilledReachable(d: Image, m: nat, k: nat)
    requires Setup(d, m) && k <= m
    ensures Reachable(Filled(d, m, k))
  {
    if k == 0 {
      OpsBegun(d, m);
    } else {
      FilledReachable(d, m, k - 1);
      LogNext(d, m, k - 1);
    }
  }

  /** A reachable state in which an operation, having kept to its budget, holds a block
      that the log already lists, and log_write of it panics. */
  lemma AbsorbingWriteCanPanic(d: Image, m: nat) returns (s: State)
    requires Setup(d, m)
    ensures Reachable(s) && CanModify(s, 2, 0) && s.bufs[0].blockno in s.lh && LogWritePanics(s)
  {
    FilledReachable(d, m, m);
    var f := Filled(d, m, m);
    assert f.lh[0] == 0 && f.bufs[0].blockno == 0;
    ReachStep(f, Bget(2, 0, 0));
    var s1 := DoBget(f, 2, 0, 0);
    ReachStep(s1, Lock(2, 0));
    s := DoLock(s1, 2, 0);
  }
}
