/** What a crash leaves of the files: the log's runs and the file system's states joined. */
module FsDurable {
  import L = LogDisk
  import M = LogMachine
  import T = LogTheorems
  import opened FsFormat
  import opened FsModel
  import opened FsInode
  import opened FsContent
  import opened FsLogged

  /** A block as the log sees it. */
  function WordsOf(b: Block): L.Block {
    Words(b, 0, NINDIRECT)
  }

  lemma Digit(x: int, hi: int, y: int, hi': int)
    requires 0 <= x < 256 && 0 <= y < 256 && x + 256 * hi == y + 256 * hi'
    ensures x == y && hi == hi'
  {
  }

  lemma WordOfBytes(a: Block, b: Block, j: nat)
    requires j < NINDIRECT && Word(a, j) == Word(b, j)
    ensures a[4 * j] == b[4 * j] && a[4 * j + 1] == b[4 * j + 1]
    ensures a[4 * j + 2] == b[4 * j + 2] && a[4 * j + 3] == b[4 * j + 3]
  {
    var x0: int, x1: int, x2: int, x3: int := a[4 * j], a[4 * j + 1], a[4 * j + 2], a[4 * j + 3];
    var y0: int, y1: int, y2: int, y3: int := b[4 * j], b[4 * j + 1], b[4 * j + 2], b[4 * j + 3];
    Digit(x0, x1 + 256 * (x2 + 256 * x3), y0, y1 + 256 * (y2 + 256 * y3));
    Digit(x1, x2 + 256 * x3, y1, y2 + 256 * y3);
    Digit(x2, x3, y2, y3);
  }

  /** Nothing is lost in between. */
  lemma SameBytes(a: Block, b: Block)
    requires WordsOf(a) == WordsOf(b)
    ensures a == b
  {
    forall k | 0 <= k < BSIZE ensures a[k] == b[k] {
      assert WordsOf(a)[k / 4] == Word(a, k / 4) && WordsOf(b)[k / 4] == Word(b, k / 4);
      WordOfBytes(a, b, k / 4);
    }
  }

  /** The log area lies before the inodes, and image d holds the file system's blocks B. */
  ghost predicate Holds(d: L.Image, start: nat, l: Layout, B: seq<Block>) {
    && start + L.LOGBLOCKS < l.inodestart && |B| == l.size <= |d|
    && forall b :: l.inodestart <= b < l.size ==> d[b] == WordsOf(B[b])
  }

  /** Whatever is read from an image that holds B has the same inodes and file contents. */
  lemma FilesRead(d: L.Image, start: nat, l: Layout, B: seq<Block>, I: seq<Inode>, O: map<nat, Slot>, R: seq<Block>,
                  i: nat)
    requires Holds(d, start, l, B) && Holds(d, start, l, R)
    requires Owned(l, B, I, O) && InodeArea(l, |I|) && Synced(l, B, I) && i < |I| && NoHoles(B, I[i])
    ensures IBlock(l, i) < |R| && Dinode(l, R, i) == I[i] && Content(R, I[i]) == Content(B, I[i])
  {
    forall b | l.inodestart <= b < l.size ensures R[b] == B[b] {
      SameBytes(R[b], B[b]);
    }
    InInodeArea(l, |I|, i);
    assert OnDisk(l, B, I, i);
    MetadataContent(l, B, I, O, R, i);
  }

  // ----- a transaction as the log sees it

  /** A moment between two operations, and the file system at that moment. */
  datatype Moment = Moment(at: nat, blocks: seq<Block>, inodes: seq<Inode>, owner: map<nat, Slot>)

  /** The file system is in order, every inode written to its place, every file with its blocks. */
  ghost predicate InOrder(l: Layout, m: Moment) {
    && Owned(l, m.blocks, m.inodes, m.owner) && InodeArea(l, |m.inodes|) && Synced(l, m.blocks, m.inodes)
    && AllFilled(l, m.blocks, m.inodes)
  }

  /** Step k decides what a commit would make of block b. */
  ghost predicate PutAt(run: seq<M.State>, acts: seq<M.Action>, k: nat, b: nat)
    requires k < |acts| < |run|
  {
    T.Puts(run[k], acts[k], b)
  }

  ghost predicate LastPutAt(run: seq<M.State>, acts: seq<M.Action>, k: nat, to: nat, b: nat)
    requires k < to <= |acts| < |run|
  {
    PutAt(run, acts, k, b) && forall m :: k < m < to ==> !PutAt(run, acts, m, b)
  }

  /** An operation takes the file system from one moment to the next: what it logs ends up
      as in the new blocks, and what it does not log has not changed. */
  ghost predicate Operation(run: seq<M.State>, acts: seq<M.Action>, l: Layout, was: Moment, now: Moment)
    requires |run| == |acts| + 1
  {
    && was.at < now.at < |run| && |was.blocks| == |now.blocks| == l.size
    && (forall k :: was.at <= k <= now.at ==> !M.Recovering(run[k].pc))
    && (forall b, k :: l.inodestart <= b < l.size && was.at <= k < now.at && LastPutAt(run, acts, k, now.at, b) ==>
          run[k].bufs[acts[k].i].data == WordsOf(now.blocks[b]))
    && (forall b :: l.inodestart <= b < l.size && (forall k :: was.at <= k < now.at ==> !PutAt(run, acts, k, b)) ==>
          now.blocks[b] == was.blocks[b])
  }

  /** The operations of the file system are such: they log every block they change, so it is
      enough that the log is given the blocks they log, each at last as they left it. */
  lemma LoggedIsOperation(run: seq<M.State>, acts: seq<M.Action>, l: Layout, was: Moment, now: Moment, logged: set<nat>)
    requires |run| == |acts| + 1 && was.at < now.at < |run| && |was.blocks| == |now.blocks| == l.size
    requires forall k :: was.at <= k <= now.at ==> !M.Recovering(run[k].pc)
    requires ChangesLogged(was.blocks, now.blocks, logged, l.size)
    requires forall b :: l.inodestart <= b < l.size ==>
      (b in logged <==> exists k :: was.at <= k < now.at && PutAt(run, acts, k, b))
    requires forall b, k :: b in logged && was.at <= k < now.at && b < l.size && LastPutAt(run, acts, k, now.at, b) ==>
      run[k].bufs[acts[k].i].data == WordsOf(now.blocks[b])
    ensures Operation(run, acts, l, was, now)
  {
    forall b, k | l.inodestart <= b < l.size && was.at <= k < now.at && LastPutAt(run, acts, k, now.at, b)
      ensures run[k].bufs[acts[k].i].data == WordsOf(now.blocks[b])
    {
      assert PutAt(run, acts, k, b) && b in logged;
    }
  }

  /** What the last of a stretch of steps put. */
  lemma {:induction false} LastPutIs(run: seq<M.State>, acts: seq<M.Action>, from: nat, k: nat, to: nat, b: nat,
                                     x: L.Block, y: L.Block)
    requires from <= k <= to < |run| && |run| == |acts| + 1 && b < |run[from].logical| && run[from].logical[b] == x
    requires forall m :: k <= m < to ==> !PutAt(run, acts, m, b)
    requires forall m :: from <= m < to && LastPutAt(run, acts, m, to, b) ==> run[m].bufs[acts[m].i].data == y
    requires (forall m :: from <= m < to ==> !PutAt(run, acts, m, b)) ==> x == y
    ensures T.LastPut(run, acts, from, k, b) == y
    decreases k
  {
    if k > from {
      if PutAt(run, acts, k - 1, b) {
        assert LastPutAt(run, acts, k - 1, to, b);
      } else {
        LastPutIs(run, acts, from, k - 1, to, b, x, y);
      }
    }
  }

  /** So the logical contents follow the file system's. */
  lemma OperationHolds(run: seq<M.State>, acts: seq<M.Action>, start: nat, l: Layout, was: Moment, now: Moment)
    requires T.Run(run, acts) && Operation(run, acts, l, was, now)
    requires Holds(run[was.at].logical, start, l, was.blocks)
    ensures Holds(run[now.at].logical, start, l, now.blocks)
  {
    SameLength(run, acts, was.at, now.at);
    forall b | l.inodestart <= b < l.size ensures run[now.at].logical[b] == WordsOf(now.blocks[b]) {
      T.LogicalContents(run, acts, was.at, now.at, b);
      LastPutIs(run, acts, was.at, now.at, now.at, b, WordsOf(was.blocks[b]), WordsOf(now.blocks[b]));
    }
  }

  lemma {:induction false} SameLength(run: seq<M.State>, acts: seq<M.Action>, from: nat, k: nat)
    requires T.Run(run, acts) && from <= k < |run|
    ensures |run[k].logical| == |run[from].logical| && run[k].start == run[from].start
    decreases k
  {
    if from < k {
      SameLength(run, acts, from, k - 1);
      assert T.StepAt(run, acts, k);
      T.RunInv(run, acts, k - 1);
      SizeStep(run[k - 1], acts[k - 1]);
    }
  }

  lemma SizeStep(s: M.State, a: M.Action)
    requires M.Inv(s) && M.Enabled(s, a)
    ensures |M.Apply(s, a).logical| == |s.logical| && M.Apply(s, a).start == s.start
  {
  }

  // ----- histories

  /** The file system's moments since it came up, one operation apart. */
  ghost predicate History(run: seq<M.State>, acts: seq<M.Action>, start: nat, l: Layout, ms: seq<Moment>)
    requires |run| == |acts| + 1
  {
    && ms != [] && ms[0].at < |run| && Holds(run[ms[0].at].logical, start, l, ms[0].blocks)
    && forall j {:trigger OperationAt(run, acts, l, ms, j)} :: 0 < j < |ms| ==> OperationAt(run, acts, l, ms, j)
  }

  ghost predicate OperationAt(run: seq<M.State>, acts: seq<M.Action>, l: Layout, ms: seq<Moment>, j: nat)
    requires |run| == |acts| + 1 && 0 < j < |ms|
  {
    Operation(run, acts, l, ms[j - 1], ms[j])
  }

  lemma {:induction false} HistoryHolds(run: seq<M.State>, acts: seq<M.Action>, start: nat, l: Layout, ms: seq<Moment>,
                                        j: nat)
    requires T.Run(run, acts) && History(run, acts, start, l, ms) && j < |ms|
    ensures ms[0].at <= ms[j].at < |run| && Holds(run[ms[j].at].logical, start, l, ms[j].blocks)
  {
    if j > 0 {
      HistoryHolds(run, acts, start, l, ms, j - 1);
      assert OperationAt(run, acts, l, ms, j);
      OperationHolds(run, acts, start, l, ms[j - 1], ms[j]);
    }
  }

  /** A commit that is copying blocks began with the end of some operation. */
  lemma {:induction false} CommitBegan(run: seq<M.State>, acts: seq<M.Action>, k: nat) returns (e: nat)
    requires T.Run(run, acts) && k < |run| && run[k].pc.Copy?
    ensures 0 < e <= k && acts[e - 1].EndOp? && run[e].pc == M.Copy(0)
    ensures forall m :: e <= m <= k ==> run[m].pc.Copy?
  {
    assert T.StepAt(run, acts, k);
    if run[k - 1].pc.Copy? && !acts[k - 1].EndOp? {
      e := CommitBegan(run, acts, k - 1);
    } else {
      T.RunInv(run, acts, k - 1);
      CopyBegins(run[k - 1], acts[k - 1]);
      e := k;
    }
  }

  lemma CopyBegins(s: M.State, a: M.Action)
    requires M.Inv(s) && M.Enabled(s, a) && M.Apply(s, a).pc.Copy? && (a.EndOp? || !s.pc.Copy?)
    ensures a.EndOp? && M.Apply(s, a).pc == M.Copy(0)
  {
  }

  ghost predicate NoCommit(acts: seq<M.Action>, from: nat, to: nat)
    requires to <= |acts|
  {
    forall c :: from <= c < to ==> !acts[c].CommitHead?
  }

  /** Of the commits before step k, that of moment j was the last to write its header; or
      there was none, and j is the first moment. */
  ghost predicate LastCommitted(run: seq<M.State>, acts: seq<M.Action>, ms: seq<Moment>, j: nat, k: nat)
    requires k <= |acts| < |run| && j < |ms|
  {
    || (j == 0 && NoCommit(acts, ms[0].at, k))
    || exists c :: ms[j].at <= c < k && acts[c].CommitHead? && NoCommit(acts, c + 1, k)
                   && forall m :: ms[j].at <= m <= c ==> run[m].pc.Copy?
  }

  /** A commit begins only where an operation of the history ends. */
  ghost predicate CommitsAtMoments(run: seq<M.State>, acts: seq<M.Action>, ms: seq<Moment>, to: nat)
    requires to < |run| == |acts| + 1 && ms != []
  {
    forall e :: ms[0].at < e <= to && run[e].pc == M.Copy(0) && acts[e - 1].EndOp? ==>
      exists j :: 0 <= j < |ms| && ms[j].at == e
  }

  /** With nothing in the log, the committed contents are the logical ones. */
  lemma QuietStable(s: M.State, l: Layout, B: seq<Block>)
    requires M.Inv(s) && s.pc.Quiet? && s.lh == [] && Holds(s.logical, s.start, l, B)
    ensures Holds(s.stable, s.start, l, B)
  {
    forall b | l.inodestart <= b < l.size ensures s.stable[b] == s.logical[b] {
      assert L.AfterRecovery(s.disk, s.start, b) == s.disk[b];
      assert !M.Listed(s.lh, M.PendFrom(s), b);
    }
  }

  /** The header write at step c committed the moment at which the commit began. */
  lemma CommitOfMoment(run: seq<M.State>, acts: seq<M.Action>, start: nat, l: Layout, ms: seq<Moment>, c: nat)
    returns (j: nat)
    requires T.Run(run, acts) && History(run, acts, start, l, ms) && ms[0].at <= c < |acts| && acts[c].CommitHead?
    requires run[ms[0].at].pc.Quiet? && CommitsAtMoments(run, acts, ms, c)
    ensures j < |ms| && ms[j].at <= c && Holds(run[c].logical, start, l, ms[j].blocks)
    ensures forall m :: ms[j].at <= m <= c ==> run[m].pc.Copy?
  {
    assert T.StepAt(run, acts, c + 1);
    var e := CommitBegan(run, acts, c);
    assert ms[0].at < e;
    j :| 0 <= j < |ms| && ms[j].at == e;
    HistoryHolds(run, acts, start, l, ms, j);
    T.DuringCommit(run, acts, e, c);
  }

  lemma FirstMoment(run: seq<M.State>, acts: seq<M.Action>, k: nat, l: Layout, B: seq<Block>)
    requires T.Run(run, acts) && k < |run| && run[k].pc.Quiet? && run[k].lh == []
    requires Holds(run[k].logical, run[k].start, l, B)
    ensures Holds(T.LastCommit(run, acts, k), run[k].start, l, B)
  {
    T.RunInv(run, acts, k);
    QuietStable(run[k], l, B);
    T.StableIsLastCommit(run, acts, k);
  }

  lemma {:induction false} CommittedMoment(run: seq<M.State>, acts: seq<M.Action>, start: nat, l: Layout,
                                           ms: seq<Moment>, k: nat)
    returns (j: nat)
    requires T.Run(run, acts) && History(run, acts, start, l, ms) && ms[0].at <= k < |run|
    requires run[ms[0].at].pc.Quiet? && run[ms[0].at].lh == [] && run[ms[0].at].start == start
    requires CommitsAtMoments(run, acts, ms, k)
    ensures j < |ms| && Holds(T.LastCommit(run, acts, k), start, l, ms[j].blocks) && LastCommitted(run, acts, ms, j, k)
    decreases k
  {
    if k == ms[0].at {
      FirstMoment(run, acts, k, l, ms[0].blocks);
      j := 0;
    } else if acts[k - 1].CommitHead? {
      j := CommitOfMoment(run, acts, start, l, ms, k - 1);
      assert NoCommit(acts, k, k);
    } else {
      j := CommittedMoment(run, acts, start, l, ms, k - 1);
    }
  }

  /** Crash the machine at any step.  Once recovery is over, the disk holds the file system
      as of the moment that was committed last: no operation is there in part, none that was
      committed is missing. */
  lemma FilesAfterCrash(run: seq<M.State>, acts: seq<M.Action>, crash: nat, end: nat, start: nat, l: Layout,
                        ms: seq<Moment>)
    returns (j: nat)
    requires T.Run(run, acts) && crash < end < |run| && acts[crash].Crash? && run[end].pc.Quiet?
    requires forall k :: crash < k < end ==> M.Recovering(run[k].pc)
    requires History(run, acts, start, l, ms) && ms[0].at <= crash
    requires run[ms[0].at].pc.Quiet? && run[ms[0].at].lh == [] && run[ms[0].at].start == start
    requires CommitsAtMoments(run, acts, ms, crash)
    ensures j < |ms| && Holds(run[end].disk, start, l, ms[j].blocks) && LastCommitted(run, acts, ms, j, crash)
  {
    j := CommittedMoment(run, acts, start, l, ms, crash);
    T.CrashAtomicity(run, acts, crash, end);
    SameLength(run, acts, ms[0].at, end);
    T.RunInv(run, acts, end);
  }

  /** The file of inode ip can be read from blocks B. */
  predicate Readable(B: seq<Block>, ip: Inode) {
    |ip.addrs| == NDIRECT + 1 && ip.addrs[NDIRECT] < |B| && ip.size <= MAXFILE * BSIZE
  }

  /** Read from blocks R through its inode there, file i is as it was at moment m. */
  ghost predicate SameFile(l: Layout, R: seq<Block>, m: Moment, i: nat)
    requires i < |m.inodes|
  {
    && IBlock(l, i) < |R| && Dinode(l, R, i) == m.inodes[i]
    && Readable(R, m.inodes[i]) && Readable(m.blocks, m.inodes[i])
    && Content(R, Dinode(l, R, i)) == Content(m.blocks, m.inodes[i])
  }

  /** So every file that is read from the disk after recovery has the bytes it had at that moment. */
  lemma FileAfterCrash(run: seq<M.State>, acts: seq<M.Action>, crash: nat, end: nat, start: nat, l: Layout,
                       ms: seq<Moment>, R: seq<Block>)
    returns (j: nat)
    requires T.Run(run, acts) && crash < end < |run| && acts[crash].Crash? && run[end].pc.Quiet?
    requires forall k :: crash < k < end ==> M.Recovering(run[k].pc)
    requires History(run, acts, start, l, ms) && ms[0].at <= crash
    requires run[ms[0].at].pc.Quiet? && run[ms[0].at].lh == [] && run[ms[0].at].start == start
    requires CommitsAtMoments(run, acts, ms, crash)
    requires Holds(run[end].disk, start, l, R) && forall j :: 0 <= j < |ms| ==> InOrder(l, ms[j])
    ensures j < |ms| && LastCommitted(run, acts, ms, j, crash)
    ensures forall i :: 0 <= i < |ms[j].inodes| ==> SameFile(l, R, ms[j], i)
  {
    j := FilesAfterCrash(run, acts, crash, end, start, l, ms);
    forall i | 0 <= i < |ms[j].inodes| ensures SameFile(l, R, ms[j], i) {
      assert InOrder(l, ms[j]);
      FilesRead(run[end].disk, start, l, ms[j].blocks, ms[j].inodes, ms[j].owner, R, i);
    }
  }
}
