/** Histories there are: a file system that changes one block in an operation, commits it and
    crashes has that change after recovery. */
module FsDurableRun {
  import L = LogDisk
  import M = LogMachine
  import T = LogTheorems
  import F = LogFull
  import R = LogCommitted
  import S = FsTrunc
  import opened FsFormat
  import opened FsModel
  import opened FsInode
  import opened FsCode
  import opened FsDurable

  /** The two file systems are in order and differ in block b at most. */
  ghost predicate OneChange(l: Layout, was: Moment, now: Moment, b: nat) {
    && InOrder(l, was) && InOrder(l, now) && l.inodestart <= b < l.size
    && now.blocks == was.blocks[b := now.blocks[b]]
  }

  /** Disk d holds the first of them, and an empty log. */
  ghost predicate Mounted(d: L.Image, m: nat, l: Layout, was: Moment) {
    F.Setup(d, m) && Holds(d, F.START, l, was.blocks)
  }

  lemma IsOperation(g: R.Goal, run: seq<M.State>, acts: seq<M.Action>, mk: R.Marks, l: Layout, was: Moment, now: Moment)
    requires R.Apt(g) && T.Run(run, acts) && mk.second < |acts| && R.Committing(g, run, acts, mk, mk.second)
    requires OneChange(l, was, now, g.b) && g.x == WordsOf(now.blocks[g.b])
    requires was.at == mk.first && now.at == mk.second
    ensures Operation(run, acts, l, was, now)
  {
    assert !PutAt(run, acts, mk.second - 1, g.b);
    assert PutAt(run, acts, mk.put, g.b);
    forall b, k | l.inodestart <= b < l.size && was.at <= k < now.at && LastPutAt(run, acts, k, now.at, b)
      ensures run[k].bufs[acts[k].i].data == WordsOf(now.blocks[b])
    {
      assert T.Puts(run[k], acts[k], b);
    }
  }

  /** A run in which the first turns into the second by an operation, which is committed before a
      crash; what is asked of a history holds of it. */
  lemma DurableRun(d: L.Image, m: nat, l: Layout, was: Moment, now: Moment, b: nat)
    returns (run: seq<M.State>, acts: seq<M.Action>, crash: nat, ms: seq<Moment>)
    requires OneChange(l, was, now, b) && Mounted(d, m, l, was)
    ensures T.Run(run, acts) && 0 < crash < |acts| && acts[crash].Crash? && run[|acts|].pc.Quiet?
    ensures forall k :: crash < k < |acts| ==> M.Recovering(run[k].pc)
    ensures |ms| == 2 && ms[0].(at := was.at) == was && ms[1].(at := now.at) == now
    ensures ms[0].at < crash && ms[1].at < crash && History(run, acts, F.START, l, ms)
    ensures run[ms[0].at].pc.Quiet? && run[ms[0].at].lh == [] && run[ms[0].at].start == F.START
    ensures CommitsAtMoments(run, acts, ms, crash) && acts[crash - 1].CommitHead?
  {
    var g := R.Goal(d, m, b, WordsOf(now.blocks[b]));
    var mk;
    run, acts, mk := R.CommittedRun(g);
    crash := mk.crash;
    ms := [was.(at := mk.first), now.(at := mk.second)];
    IsOperation(g, run, acts, mk, l, ms[0], ms[1]);
    assert OperationAt(run, acts, l, ms, 1);
    assert run[mk.first] == F.Booted(d, m);
    assert ms[1].at == mk.second;
  }

  /** After recovery the disk holds the second. */
  lemma ChangeSurvives(d: L.Image, m: nat, l: Layout, was: Moment, now: Moment, b: nat)
    returns (run: seq<M.State>, acts: seq<M.Action>, crash: nat)
    requires OneChange(l, was, now, b) && Mounted(d, m, l, was)
    ensures T.Run(run, acts) && crash < |acts| && acts[crash].Crash? && run[|acts|].pc.Quiet?
    ensures Holds(run[|acts|].disk, F.START, l, now.blocks)
  {
    var ms;
    run, acts, crash, ms := DurableRun(d, m, l, was, now, b);
    var j := FilesAfterCrash(run, acts, crash, |acts|, F.START, l, ms);
    assert !run[ms[0].at].pc.Copy?;
    assert !NoCommit(acts, ms[0].at, crash);
  }

  // ----- such file systems there are

  /** One block of inodes, one of the free map, and a few more, behind the log. */
  function Small(): Layout {
    Layout(80, 71, 72, 73)
  }

  /** Just the metadata is marked; what is in the other blocks does not matter. */
  function SmallBlocks(used: nat): (r: seq<Block>)
    requires used <= BPB
    ensures |r| == Small().size && forall b :: 0 <= b < |r| ==> r[b] == S.FirstBits(used)
  {
    var bits: Block := S.FirstBits(used);
    seq(Small().size, b => bits)
  }

  lemma SmallUsed(used: nat)
    requires used <= BPB
    ensures LayoutOk(Small())
    ensures forall b :: 0 <= b < Small().size ==> (Used(Small(), SmallBlocks(used), b) <==> b < used)
  {
    forall b | 0 <= b < Small().size ensures Used(Small(), SmallBlocks(used), b) <==> b < used {
      assert BBlock(Small(), b) == 72 && b % BPB == b;
    }
  }

  /** An image with an empty log that holds B behind it. */
  function ImageOf(B: seq<Block>): (d: L.Image)
    ensures |d| == |B| && forall b :: 0 <= b < |B| && F.START + L.LOGBLOCKS < b ==> d[b] == WordsOf(B[b])
    ensures F.START < |B| ==> d[F.START][0] == 0
  {
    var zero: L.Block := seq(256, i => 0);
    seq(|B|, b requires 0 <= b < |B| => if b <= F.START + L.LOGBLOCKS then zero else WordsOf(B[b]))
  }

  /** A file system whose one file is empty is in order once its inode is written. */
  lemma EmptyInOrder(l: Layout, m: Moment)
    requires Owned(l, m.blocks, m.inodes, m.owner) && InodeArea(l, 1) && |m.inodes| == 1 && m.inodes[0].size == 0
    requires l.bmapstart < |m.blocks| && OnDisk(l, m.blocks, m.inodes, 0)
    ensures InOrder(l, m)
  {
  }

  lemma Retyped(l: Layout, B: seq<Block>, I: seq<Inode>, O: map<nat, Slot>, kind: nat)
    requires Owned(l, B, I, O) && |I| == 1 && kind <= UINT_MAX
    ensures Owned(l, B, [I[0].(typeMajor := kind)], O)
  {
    var I' := [I[0].(typeMajor := kind)];
    assert InodeOk(l, I[0]);
    forall n | 0 <= n <= MAXFILE ensures Addr(B, I'[0], n) == Addr(B, I[0], n) {
    }
    forall b | 0 <= b < l.size ensures BlockOk(l, B, I', O, b) {
      assert BlockOk(l, B, I, O, b);
    }
    forall i, n | 0 <= i < 1 && 0 <= n <= MAXFILE ensures SlotOk(B, I'[i], O, i, n) {
      assert SlotOk(B, I[i], O, i, n);
    }
  }

  /** A formatted file system with one inode, which is written, and again with another type. */
  method Retype(kind: nat) returns (fs: FileSys, ghost was: Moment, ghost now: Moment)
    requires kind <= UINT_MAX
    ensures fs.l == Small() && OneChange(Small(), was, now, 71)
    ensures |now.inodes| == |was.inodes| == 1 && now.inodes[0] == was.inodes[0].(typeMajor := kind)
  {
    SmallUsed(Small().datastart);
    fs := new FileSys(Small(), SmallBlocks(Small().datastart), 1);
    fs.Iupdate(0);
    was := Moment(0, fs.blocks, fs.inodes, fs.owner);
    EmptyInOrder(fs.l, was);
    Retyped(fs.l, fs.blocks, fs.inodes, fs.owner, kind);
    fs.inodes := [fs.inodes[0].(typeMajor := kind)];
    fs.Iupdate(0);
    now := Moment(0, fs.blocks, fs.inodes, fs.owner);
    EmptyInOrder(fs.l, now);
  }

  /** The new type is read back after a crash. */
  method TypeSurvives(kind: nat)
    returns (ghost run: seq<M.State>, ghost acts: seq<M.Action>, ghost crash: nat, ghost now: Moment)
    requires kind <= UINT_MAX
    ensures T.Run(run, acts) && crash < |acts| && acts[crash].Crash? && run[|acts|].pc.Quiet?
    ensures Holds(run[|acts|].disk, F.START, Small(), now.blocks) && InOrder(Small(), now)
    ensures |now.inodes| == 1 && Dinode(Small(), now.blocks, 0) == now.inodes[0] && now.inodes[0].typeMajor == kind
  {
    ghost var was;
    var fs;
    fs, was, now := Retype(kind);
    assert OnDisk(Small(), now.blocks, now.inodes, 0);
    run, acts, crash := ChangeSurvives(ImageOf(was.blocks), 30, Small(), was, now, 71);
  }
}
