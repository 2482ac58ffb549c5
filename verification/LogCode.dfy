/** kernel/log.c and kernel/bio.c as imperative code.  Each method performs steps of
    the log machine and records them, so that what is proved of all runs of the
    machine holds of every state the code passes through. */
module LogCode {
  import opened LogDisk
  import opened LogMachine
  import opened LogTheorems

  lemma ExtendRun(run: seq<State>, acts: seq<Action>, a: Action)
    requires Run(run, acts) && Enabled(run[|run| - 1], a)
    ensures Run(run + [Apply(run[|run| - 1], a)], acts + [a])
  {
    var run', acts' := run + [Apply(run[|run| - 1], a)], acts + [a];
    forall k | 0 <= k < |run'| ensures StepAt(run', acts', k) {
      if k < |run| {
        assert StepAt(run, acts, k);
      }
    }
  }

  /** The recency list holds each buffer once, ordered by when it was last released. */
  ghost predicate Recency(lru: seq<nat>, released: seq<nat>, count: nat, clock: nat) {
    && |lru| == count == |released|
    && (forall p :: 0 <= p < |lru| ==> lru[p] < count && released[lru[p]] < clock)
    && (forall i :: 0 <= i < count ==> i in lru)
    && (forall p, q :: 0 <= p < q < |lru| ==> released[lru[p]] > released[lru[q]])
  }

  /** i is an unused buffer, and of all unused ones the least recently released. */
  ghost predicate LeastRecent(bufs: seq<Buf>, released: seq<nat>, i: nat)
    requires |bufs| == |released|
  {
    && i < |bufs| && bufs[i].refcnt == 0
    && forall j :: 0 <= j < |bufs| && bufs[j].refcnt == 0 ==> released[i] <= released[j]
  }

  ghost predicate Available(bufs: seq<Buf>, b: nat) {
    exists j :: 0 <= j < |bufs| && (Holds(bufs[j], b) || bufs[j].refcnt == 0)
  }

  /** The list with entry p taken to the front. */
  function Fronted(lru: seq<nat>, p: nat): (r: seq<nat>)
    requires p < |lru|
    ensures |r| == |lru| && r[0] == lru[p] && forall q :: 0 < q < |r| ==> r[q] == lru[if q <= p then q - 1 else q]
  {
    [lru[p]] + lru[..p] + lru[p + 1..]
  }

  lemma FrontedHolds(lru: seq<nat>, p: nat, j: nat)
    requires p < |lru| && j in lru
    ensures j in Fronted(lru, p)
  {
    var q :| 0 <= q < |lru| && lru[q] == j;
    assert Fronted(lru, p)[if q < p then q + 1 else if q == p then 0 else q] == j;
  }

  /** Taking entry p to the front keeps the list in order of release. */
  lemma MoveKeepsRecency(lru: seq<nat>, released: seq<nat>, count: nat, clock: nat, p: nat)
    requires Recency(lru, released, count, clock) && p < |lru|
    ensures Recency(Fronted(lru, p), released[lru[p] := clock], count, clock + 1)
  {
    forall j | 0 <= j < count ensures j in Fronted(lru, p) {
      FrontedHolds(lru, p, j);
    }
  }

  /** A buffer without references has no users. */
  lemma UnusedHasNoUsers(run: seq<State>, acts: seq<Action>, i: nat)
    requires Run(run, acts)
    requires var s := run[|run| - 1]; i < |s.bufs| && s.bufs[i].refcnt == 0
    ensures run[|run| - 1].bufs[i].users == multiset{}
  {
    RunInv(run, acts, |run| - 1);
    var s := run[|run| - 1];
    assert BufOk(s.bufs[i], |s.disk|, s.lh, PinFrom(s));
    assert |s.bufs[i].users| == 0;
  }

  /** The log area and every listed block are on the disk. */
  lemma LayoutFits(run: seq<State>, acts: seq<Action>)
    requires Run(run, acts)
    ensures var s := run[|run| - 1];
      && s.start + LOGBLOCKS < |s.disk| == |s.logical| == |s.logged| && |s.lh| <= LOGBLOCKS
      && forall k :: 0 <= k < |s.lh| ==> s.lh[k] < |s.disk| && Home(s.start, s.lh[k])
  {
    RunInv(run, acts, |run| - 1);
  }

  /** No thread holds a sleep lock, and two buffers are free for commit to use. */
  ghost predicate Calm(bufs: seq<Buf>) {
    && (forall j :: 0 <= j < |bufs| ==> bufs[j].holder.None?)
    && exists i, j :: 0 <= i < j < |bufs| && bufs[i].refcnt == 0 && bufs[j].refcnt == 0
  }

  /** Since before, thread t took hold of buffer i. */
  ghost predicate Took(u: Buf, before: Buf, t: nat) {
    && u.holder == Some(t) && t in u.users
    && 0 < u.refcnt <= before.refcnt + 1
  }

  /** Since before, thread t took hold of buffers i and j, and of nothing else. */
  ghost predicate TookTwo(bufs: seq<Buf>, before: seq<Buf>, t: nat, i: nat, j: nat) {
    && |bufs| == |before| && i < |bufs| && j < |bufs| && i != j
    && Took(bufs[i], before[i], t) && Took(bufs[j], before[j], t)
    && forall k :: 0 <= k < |bufs| && k != i && k != j ==> bufs[k] == before[k]
  }

  lemma CalmAgain(bufs: seq<Buf>, before: seq<Buf>)
    requires Calm(before) && |bufs| == |before|
    requires forall k :: 0 <= k < |bufs| ==> bufs[k].holder.None? && bufs[k].refcnt <= before[k].refcnt
    ensures Calm(bufs)
  {
    var i, j :| 0 <= i < j < |before| && before[i].refcnt == 0 && before[j].refcnt == 0;
    assert bufs[i].refcnt == 0 && bufs[j].refcnt == 0;
  }

  /** While a commit copies blocks, the cached home blocks are clean. */
  lemma CleanWhenDone(run: seq<State>, acts: seq<Action>)
    requires Run(run, acts)
    requires var s := run[|run| - 1]; s.pc.Copy? && s.pc.tail < |s.lh|
    ensures var s := run[|run| - 1];
      forall j :: 0 <= j < |s.bufs| && Home(s.start, s.bufs[j].blockno) ==> !s.bufs[j].dirty
  {
    RunInv(run, acts, |run| - 1);
  }

  /** While blocks are installed, the cached slots are clean. */
  lemma SlotsClean(run: seq<State>, acts: seq<Action>)
    requires Run(run, acts) && run[|run| - 1].pc.Install?
    ensures var s := run[|run| - 1];
      forall j :: 0 <= j < |s.bufs| && !Home(s.start, s.bufs[j].blockno) ==> !s.bufs[j].dirty
  {
    RunInv(run, acts, |run| - 1);
  }

  /** The buffer that commit is about to unpin is referenced by its user and by its pin. */
  lemma PinCounts(run: seq<State>, acts: seq<Action>, i: nat)
    requires Run(run, acts)
    requires var s := run[|run| - 1];
      s.pc.Install? && !s.pc.rec && s.pc.tail < |s.lh| && HasBlock(s, s.who, i, s.lh[s.pc.tail])
    ensures run[|run| - 1].bufs[i].refcnt > 1
  {
    RunInv(run, acts, |run| - 1);
    var s := run[|run| - 1];
    assert BufOk(s.bufs[i], |s.disk|, s.lh, PinFrom(s));
    assert Listed(s.lh, PinFrom(s), s.lh[s.pc.tail]);
    assert s.bufs[i].users != multiset{};
  }

  /** Since position base, where it was in state mark, the machine neither crashed nor
      finished a commit. */
  ghost predicate Unbroken(run: seq<State>, acts: seq<Action>, base: nat, mark: State) {
    && base <= |acts| < |run| && run[base] == mark
    && forall j :: base <= j < |acts| ==> !acts[j].Crash? && !acts[j].Finish?
  }

  lemma {:induction false} CommittingSince(run: seq<State>, acts: seq<Action>, base: nat, k: nat)
    requires Run(run, acts) && base <= k < |run| && Unbroken(run, acts, base, run[base]) && Committing(run[base].pc)
    ensures Committing(run[k].pc)
  {
    if base < k {
      CommittingSince(run, acts, base, k - 1);
      assert StepAt(run, acts, k);
      StaysCommitting(run[k - 1], acts[k - 1]);
    }
  }

  /** Every image the disk went through since base is all or nothing. */
  ghost predicate AllOrNothing(run: seq<State>, base: nat) {
    forall k :: base <= k < |run| ==> Means(run[k], run[base].stable) || Means(run[k], run[base].logical)
  }

  lemma CommitLeavesNoGap(run: seq<State>, acts: seq<Action>, base: nat)
    requires Run(run, acts) && base < |run| && Unbroken(run, acts, base, run[base]) && run[base].pc == Copy(0)
    ensures AllOrNothing(run, base)
    ensures run[|run| - 1].logical == run[base].logical
  {
    forall k | base <= k < |run| ensures Committing(run[k].pc) {
      CommittingSince(run, acts, base, k);
    }
    forall k | base <= k < |run|
      ensures Means(run[k], run[base].stable) || Means(run[k], run[base].logical)
    {
      CommitIsAtomic(run, acts, base, k);
    }
    DuringCommit(run, acts, base, |run| - 1);
  }

  /** When a commit is done, its contents are home and its pins are gone. */
  lemma CommitDone(run: seq<State>, acts: seq<Action>)
    requires Run(run, acts) && run[|run| - 1].pc.Done?
    ensures var s := run[|run| - 1];
      && HomeIs(s, s.logical)
      && forall i :: 0 <= i < |s.bufs| ==> s.bufs[i].refcnt == |s.bufs[i].users|
  {
    RunInv(run, acts, |run| - 1);
    var s := run[|run| - 1];
    forall i | 0 <= i < |s.bufs| ensures s.bufs[i].refcnt == |s.bufs[i].users| {
      PinsDropped(run, acts, |run| - 1, i);
    }
  }

  /** While an operation runs, no commit does. */
  lemma QuietInOp(run: seq<State>, acts: seq<Action>, t: nat)
    requires Run(run, acts)
    requires var s := run[|run| - 1]; t < |s.ops| && s.ops[t].In?
    ensures run[|run| - 1].pc.Quiet? && !run[|run| - 1].committing
  {
    EndOpNeverPanics(run, acts, |run| - 1, t);
  }

  /** When recovery is done, the home blocks are what the disk meant before it. */
  lemma RecoveryDone(run: seq<State>, acts: seq<Action>, at: nat)
    requires Run(run, acts) && at < |run|
    requires var s := run[|run| - 1];
      s.pc.Quiet? && s.lh == [] && s.stable == run[at].stable && s.start == run[at].start
    ensures var s := run[|run| - 1];
      && |s.disk| == |run[at].disk| && LogOk(run[at].disk, s.start)
      && forall b :: 0 <= b < |s.disk| && Home(s.start, b) ==> s.disk[b] == AfterRecovery(run[at].disk, s.start, b)
  {
    RunInv(run, acts, |run| - 1);
    RunInv(run, acts, at);
  }

  lemma HeaderIsCached(run: seq<State>, acts: seq<Action>, i: nat)
    requires Run(run, acts)
    requires var s := run[|run| - 1]; s.pc.Boot? && HasBlock(s, s.who, i, s.start)
    ensures var s := run[|run| - 1];
      s.start < |s.disk| && s.bufs[i].data == s.disk[s.start] && HeaderFits(s.disk[s.start]) && !s.bufs[i].dirty
  {
    RunInv(run, acts, |run| - 1);
  }

  /** brelse is allowed: the changes are logged or written, or an operation abandons its own. */
  predicate CanRelease(s: State, t: nat, i: nat) {
    CanUnlock(s, t, i) || CanAbandon(s, t, i)
  }

  function AfterRelease(s: State, t: nat, i: nat): State
    requires CanRelease(s, t, i)
  {
    if s.bufs[i].dirty then DoAbandon(s, t, i) else DoUnlock(s, t, i)
  }

  /** Action a writes buffer i to its disk block, and leaves the log lists alone. */
  ghost predicate WritesOut(s: State, i: nat, a: Action) {
    && Enabled(s, a) && !a.Crash? && !a.Finish? && i < |s.bufs| && s.bufs[i].blockno < |s.disk|
    && var s' := Apply(s, a);
    && s'.disk == s.disk[s.bufs[i].blockno := s.bufs[i].data] && s'.bufs == s.bufs[i := s.bufs[i].(dirty := false)]
    && s'.start == s.start && s'.lh == s.lh && s'.outstanding == s.outstanding && s'.committing == s.committing
  }

  /** The four disk writes of commit and recovery do. */
  lemma BwriteEffect(s: State, i: nat, a: Action)
    requires Enabled(s, a)
    requires a == WriteSlot(i) || a == CommitHead(i) || a == WriteHome(i) || a == ClearHead(i)
    ensures WritesOut(s, i, a)
  {
  }

  const NBUF: nat := MAXOPBLOCKS * 3

  ghost function PowerOn(start: nat, disk: Image, threads: nat, boot: nat): (s: State)
    requires LogOk(disk, start)
    ensures Init(s)
  {
    State(start, disk, seq(NBUF, i => Blank(disk[0])), [], [], 0, false, seq(threads, i => Out), boot, Boot,
          seq(|disk|, b requires 0 <= b < |disk| => AfterRecovery(disk, start, b)), disk, disk, map[])
  }

  class LogCache {
    const start: nat
    var disk: Image
    var bufs: seq<Buf>
    var lru: seq<nat>
    var n: nat
    var block: array<nat>
    var outstanding: nat
    var committing: bool

    // the machine state this object is in, and the run that led to it
    ghost var s: State
    ghost var run: seq<State>
    ghost var acts: seq<Action>
    ghost var base: nat
    ghost var mark: State
    ghost var released: seq<nat>
    ghost var clock: nat

    /** Power-on with binit done: an empty cache over a disk whose log can be followed. */
    constructor (start: nat, disk: Image, threads: nat, boot: nat)
      requires LogOk(disk, start)
      ensures Valid() && Calm(bufs) && s.pc == Boot && s.who == boot
      ensures this.start == start && this.disk == disk && |bufs| == NBUF && n == 0
      ensures fresh(block)
    {
      this.start := start;
      this.disk := disk;
      bufs := seq(NBUF, i => Blank(disk[0]));
      lru := [];
      n := 0;
      block := new nat[LOGBLOCKS];
      outstanding := 0;
      committing := false;
      released := seq(NBUF, i => i);
      clock := NBUF;
      new;
      Binit();
      s := PowerOn(start, disk, threads, boot);
      run, acts, base, mark := [s], [], 0, s;
      assert StepAt(run, acts, 0);
      assert bufs[0].refcnt == 0 && bufs[1].refcnt == 0;
    }

    /** binit: each buffer is inserted at the head of the list. */
    method Binit()
      requires lru == []
      modifies this`lru
      ensures Recency(lru, seq(NBUF, i => i), NBUF, NBUF)
    {
      for b := 0 to NBUF
        invariant |lru| == b && forall p :: 0 <= p < b ==> lru[p] == b - 1 - p
      {
        lru := [b] + lru;
      }
      forall i | 0 <= i < NBUF ensures i in lru {
        assert lru[NBUF - 1 - i] == i;
      }
    }

    ghost predicate Valid()
      reads this, block
    {
      && block.Length == LOGBLOCKS && n <= LOGBLOCKS
      && s.start == start && s.disk == disk && s.bufs == bufs && s.lh == block[..n]
      && s.outstanding == outstanding && s.committing == committing
      && Recency(lru, released, |bufs|, clock)
      && Run(run, acts) && run[|run| - 1] == s && Unbroken(run, acts, base, mark)
    }

    /** Takes one machine step and appends it to the recorded run. */
    ghost method Record(a: Action)
      requires Run(run, acts) && run[|run| - 1] == s && Enabled(s, a)
      modifies this`s, this`run, this`acts
      ensures s == Apply(old(s), a)
      ensures Run(run, acts) && run == old(run) + [s] && acts == old(acts) + [a]
    {
      ExtendRun(run, acts, a);
      s := Apply(s, a);
      run := run + [s];
      acts := acts + [a];
    }

    /** A step within the stretch that began at base. */
    ghost method Step(a: Action)
      requires Run(run, acts) && run[|run| - 1] == s && Enabled(s, a)
      requires Unbroken(run, acts, base, mark) && !a.Crash? && !a.Finish?
      modifies this`s, this`run, this`acts
      ensures s == Apply(old(s), a)
      ensures Run(run, acts) && run[|run| - 1] == s && Unbroken(run, acts, base, mark)
      ensures run == old(run) + [s] && acts == old(acts) + [a]
    {
      Record(a);
    }

    // ----- kernel/bio.c

    /** bget's first scan, most recently used first. */
    method Lookup(b: nat) returns (i: nat)
      requires Recency(lru, released, |bufs|, clock)
      ensures i <= |bufs|
      ensures i < |bufs| ==> Holds(bufs[i], b)
      ensures i == |bufs| ==> forall j :: 0 <= j < |bufs| ==> !Holds(bufs[j], b)
    {
      for p := 0 to |lru|
        invariant forall q :: 0 <= q < p ==> !Holds(bufs[lru[q]], b)
      {
        if Holds(bufs[lru[p]], b) {
          return lru[p];
        }
      }
      forall j | 0 <= j < |bufs| ensures !Holds(bufs[j], b) {
        assert j in lru;
      }
      return |bufs|;
    }

    /** bget's second scan, least recently used first. */
    method Victim() returns (i: nat)
      requires Recency(lru, released, |bufs|, clock)
      requires exists j :: 0 <= j < |bufs| && bufs[j].refcnt == 0
      ensures LeastRecent(bufs, released, i)
    {
      ghost var j :| 0 <= j < |bufs| && bufs[j].refcnt == 0;
      assert j in lru;
      ghost var q :| 0 <= q < |lru| && lru[q] == j;
      var p := |lru| - 1;
      while bufs[lru[p]].refcnt != 0
        invariant q <= p < |lru|
        invariant forall r :: p < r < |lru| ==> bufs[lru[r]].refcnt != 0
        decreases p
      {
        p := p - 1;
      }
      i := lru[p];
      forall k | 0 <= k < |bufs| && bufs[k].refcnt == 0 ensures released[i] <= released[k] {
        assert k in lru;
      }
    }

    /** bget's section under bcache.lock. */
    method Reference(t: nat, b: nat) returns (i: nat)
      requires Valid() && b < |disk| && Available(bufs, b)
      modifies this`bufs, this`s, this`run, this`acts
      ensures Valid()
      ensures CanBget(old(s), t, i, b) && s == DoBget(old(s), t, i, b)
      ensures Holds(old(bufs)[i], b) || LeastRecent(old(bufs), released, i)
    {
      i := Lookup(b);
      if i < |bufs| {
        bufs := bufs[i := bufs[i].(refcnt := bufs[i].refcnt + 1, users := bufs[i].users + multiset{t})];
      } else {
        i := Victim();
        bufs := bufs[i := bufs[i].(dev := ROOTDEV, blockno := b, valid := false, refcnt := 1, users := multiset{t},
                                       stray := false)];
      }
      Step(Action.Bget(t, i, b));
    }

    method AcquireSleep(t: nat, i: nat)
      requires Valid() && CanLock(s, t, i)
      modifies this`bufs, this`s, this`run, this`acts
      ensures Valid() && s == DoLock(old(s), t, i)
    {
      bufs := bufs[i := bufs[i].(holder := Some(t))];
      Step(Action.Lock(t, i));
    }

    method ReadIn(t: nat, i: nat)
      requires Valid() && CanReadIn(s, t, i)
      modifies this`bufs, this`s, this`run, this`acts
      ensures Valid() && s == DoReadIn(old(s), t, i)
    {
      bufs := bufs[i := bufs[i].(data := disk[bufs[i].blockno], valid := true)];
      Step(Action.ReadIn(t, i));
    }

    /** No sleep lock stands in the way of reading block b. */
    ghost predicate Unlocked(b: nat)
      reads this
    {
      forall j :: 0 <= j < |bufs| && (Holds(bufs[j], b) || bufs[j].refcnt == 0) ==> bufs[j].holder.None?
    }

    method Bget(t: nat, b: nat) returns (i: nat)
      requires Valid() && b < |disk| && Available(bufs, b) && Unlocked(b)
      modifies this`bufs, this`s, this`run, this`acts
      ensures Valid() && s == old(s).(bufs := bufs) && i < |bufs| == |old(bufs)|
      ensures Holds(bufs[i], b) && bufs[i].holder == Some(t) && bufs == old(bufs)[i := bufs[i]]
      ensures bufs[i].refcnt == old(bufs)[i].refcnt + 1 && bufs[i].users == old(bufs)[i].users + multiset{t}
      ensures bufs[i].valid ==> bufs[i].dirty == old(bufs)[i].dirty && Holds(old(bufs)[i], b)
      ensures Holds(old(bufs)[i], b) || LeastRecent(old(bufs), released, i)
    {
      ghost var run0, acts0 := run, acts;
      i := Reference(t, b);
      if bufs[i].refcnt == 1 {
        UnusedHasNoUsers(run0, acts0, i);
      }
      AcquireSleep(t, i);
    }

    method Bread(t: nat, b: nat) returns (i: nat)
      requires Valid() && b < |disk| && Available(bufs, b) && Unlocked(b)
      modifies this`bufs, this`s, this`run, this`acts
      ensures Valid() && s == old(s).(bufs := bufs)
      ensures HasBlock(s, t, i, b) && bufs == old(bufs)[i := bufs[i]]
      ensures bufs[i].refcnt == old(bufs)[i].refcnt + 1 && bufs[i].users == old(bufs)[i].users + multiset{t}
      ensures Holds(old(bufs)[i], b) || LeastRecent(old(bufs), released, i)
    {
      i := Bget(t, b);
      if !bufs[i].valid {
        ReadIn(t, i);
      }
    }

    /** The code clears the lock; a change that was not logged goes on record as abandoned. */
    method ReleaseSleep(t: nat, i: nat)
      requires Valid() && CanRelease(s, t, i)
      modifies this`bufs, this`s, this`run, this`acts
      ensures Valid() && s == AfterRelease(old(s), t, i)
    {
      if bufs[i].dirty {
        bufs := bufs[i := bufs[i].(holder := None, dirty := false, stray := bufs[i].blockno !in block[..n])];
        Step(Action.Abandon(t, i));
      } else {
        bufs := bufs[i := bufs[i].(holder := None)];
        Step(Action.Unlock(t, i));
      }
    }

    method Brelse(t: nat, i: nat)
      requires Valid() && CanRelease(s, t, i) && CanDrop(AfterRelease(s, t, i), t, i)
      modifies this`bufs, this`lru, this`released, this`clock, this`s, this`run, this`acts
      ensures Valid() && s == DoDrop(AfterRelease(old(s), t, i), t, i)
      ensures bufs[i].refcnt == 0 ==>
        lru[0] == i && released == old(released)[i := old(clock)] && clock == old(clock) + 1
      ensures bufs[i].refcnt != 0 ==> lru == old(lru) && released == old(released) && clock == old(clock)
    {
      ReleaseSleep(t, i);
      Unreference(t, i);
      if bufs[i].refcnt == 0 {
        MoveToFront(i);
      }
    }

    method Unreference(t: nat, i: nat)
      requires Valid() && CanDrop(s, t, i)
      modifies this`bufs, this`s, this`run, this`acts
      ensures Valid() && s == DoDrop(old(s), t, i)
    {
      bufs := bufs[i := bufs[i].(refcnt := bufs[i].refcnt - 1, users := bufs[i].users - multiset{t})];
      Step(Action.Drop(t, i));
    }

    /** The list surgery of brelse: i becomes the most recently used. */
    method MoveToFront(i: nat)
      requires Recency(lru, released, |bufs|, clock) && i < |bufs|
      modifies this`lru, this`released, this`clock
      ensures Recency(lru, released, |bufs|, clock) && lru[0] == i
      ensures released == old(released)[i := old(clock)] && clock == old(clock) + 1
    {
      assert i in lru;
      var p := 0;
      while lru[p] != i
        invariant p < |lru| && i in lru[p..]
        decreases |lru| - p
      {
        p := p + 1;
      }
      MoveKeepsRecency(lru, released, |bufs|, clock, p);
      lru := Fronted(lru, p);
      released := released[i := clock];
      clock := clock + 1;
    }

    // ----- kernel/log.c: operations

    /** One pass through begin_op's loop; false means the caller sleeps and tries again. */
    method TryBeginOp(t: nat) returns (ok: bool)
      requires Valid() && t < |s.ops| && s.ops[t].Out? && !Recovering(s.pc)
      modifies this`outstanding, this`s, this`run, this`acts
      ensures Valid() && ok == CanBeginOp(old(s), t)
      ensures ok <==> !old(committing) && old(n) + (old(outstanding) + 1) * 10 <= 30
      ensures s == if ok then DoBeginOp(old(s), t) else old(s)
    {
      if committing {
        return false;
      } else if n + (outstanding + 1) * MAXOPBLOCKS > LOGBLOCKS {
        return false;
      } else {
        outstanding := outstanding + 1;
        Step(Action.BeginOp(t));
        return true;
      }
    }

    /** log_write's search for an entry that absorbs the write. */
    method Absorber(b: nat) returns (k: nat)
      requires n <= block.Length
      ensures k <= n && (k < n ==> block[k] == b)
      ensures k == n <==> b !in block[..n]
    {
      k := 0;
      while k < n
        invariant k <= n && b !in block[..k]
      {
        if block[k] == b {
          return;
        }
        k := k + 1;
      }
    }

    method LogWrite(t: nat, i: nat)
      requires Valid() && CanModify(s, t, i) && !LogWritePanics(s) && bufs[i].blockno < |s.logical| == |s.logged|
      requires bufs[i].blockno in block[..n] || s.ops[t].spent < MAXOPBLOCKS
      modifies this`n, this`bufs, this`s, this`run, this`acts, block
      ensures Valid()
      ensures CanAbsorb(old(s), t, i) ==> s == DoAbsorb(old(s), t, i)
      ensures CanAppend(old(s), t, i) ==> s == DoAppend(old(s), t, i)
    {
      var k := Absorber(bufs[i].blockno);
      if k < n {
        block[k] := bufs[i].blockno;
        bufs := bufs[i := bufs[i].(dirty := false, stray := false)];
        Step(Action.Absorb(t, i));
      } else {
        AddEntry(t, i);
      }
    }

    /** log_write when no entry absorbs: take the next slot and pin the buffer. */
    method AddEntry(t: nat, i: nat)
      requires Valid() && CanAppend(s, t, i)
      modifies this`n, this`bufs, this`s, this`run, this`acts, block
      ensures Valid() && s == DoAppend(old(s), t, i)
    {
      block[n] := bufs[i].blockno;
      n := n + 1;
      bufs := bufs[i := bufs[i].(dirty := false, stray := false, refcnt := bufs[i].refcnt + 1)];
      Step(Action.Append(t, i));
    }

    /** end_op up to the release of log.lock: either the caller commits, or it wakes the
        threads that wait in begin_op. */
    method EndOp(t: nat) returns (doCommit: bool, wake: bool)
      requires Valid() && CanEndOp(s, t)
      modifies this`outstanding, this`committing, this`s, this`run, this`acts
      ensures Valid() && s == DoEndOp(old(s), t)
      ensures doCommit == (outstanding == 0) && wake == Wakes(old(s), Action.EndOp(t))
    {
      outstanding := outstanding - 1;
      doCommit, wake := false, false;
      if outstanding == 0 {
        doCommit := true;
        committing := true;
      } else {
        wake := true;
      }
      Step(Action.EndOp(t));
    }

    /** end_op after its commit, under log.lock again. */
    method EndCommit() returns (wake: bool)
      requires Valid() && s.pc.Done?
      modifies this`committing, this`s, this`run, this`acts, this`base, this`mark
      ensures Valid() && s == DoFinish(old(s)) && wake == Wakes(old(s), Action.Finish)
    {
      committing := false;
      wake := true;
      Record(Action.Finish);
      base, mark := |acts|, s;
    }

    // ----- kernel/log.c: commit

    method BreadTwo(t: nat, b: nat, c: nat) returns (i: nat, j: nat)
      requires Valid() && Calm(bufs) && b < |disk| && c < |disk| && b != c
      modifies this`bufs, this`s, this`run, this`acts
      ensures Valid() && s == old(s).(bufs := bufs)
      ensures HasBlock(s, t, i, b) && HasBlock(s, t, j, c) && TookTwo(bufs, old(bufs), t, i, j)
    {
      i := Bread(t, b);
      ghost var before := old(bufs);
      assert Available(bufs, c) by {
        var p, q :| 0 <= p < q < |before| && before[p].refcnt == 0 && before[q].refcnt == 0;
        assert bufs[if p == i then q else p].refcnt == 0;
      }
      j := Bread(t, c);
    }

    /** brelse of a clean buffer, as a change of that buffer alone. */
    method BrelseClean(t: nat, i: nat)
      requires Valid() && i < |bufs| && !bufs[i].dirty
      requires bufs[i].holder == Some(t) && t in bufs[i].users && bufs[i].refcnt > 0
      modifies this`bufs, this`lru, this`released, this`clock, this`s, this`run, this`acts
      ensures Valid() && s == old(s).(bufs := bufs) && |bufs| == |old(bufs)|
      ensures bufs[i].holder.None? && bufs[i].refcnt == old(bufs)[i].refcnt - 1
      ensures forall k :: 0 <= k < |bufs| && k != i ==> bufs[k] == old(bufs)[k]
    {
      Brelse(t, i);
    }

    method BrelseOne(t: nat, i: nat, ghost before: seq<Buf>)
      requires Valid() && Calm(before) && |bufs| == |before| && i < |bufs| && !bufs[i].dirty
      requires Took(bufs[i], before[i], t) && forall k :: 0 <= k < |bufs| && k != i ==> bufs[k] == before[k]
      modifies this`bufs, this`lru, this`released, this`clock, this`s, this`run, this`acts
      ensures Valid() && s == old(s).(bufs := bufs) && Calm(bufs)
    {
      BrelseClean(t, i);
      CalmAgain(bufs, before);
    }

    method BrelseTwo(t: nat, i: nat, j: nat, ghost before: seq<Buf>)
      requires Valid() && Calm(before) && TookTwo(bufs, before, t, i, j) && !bufs[i].dirty && !bufs[j].dirty
      modifies this`bufs, this`lru, this`released, this`clock, this`s, this`run, this`acts
      ensures Valid() && s == old(s).(bufs := bufs) && Calm(bufs)
    {
      BrelseClean(t, i);
      BrelseClean(t, j);
      CalmAgain(bufs, before);
    }

    /** memmove between two locked buffers. */
    method Memmove(to: nat, from: nat, ghost a: Action)
      requires Valid() && Enabled(s, a) && (a == CopyToSlot(to, from) || a == CopyHome(to, from))
      modifies this`bufs, this`s, this`run, this`acts
      ensures Valid() && s == DoCopy(old(s), to, from)
    {
      bufs := bufs[to := bufs[to].(data := bufs[from].data, dirty := true)];
      Step(a);
    }

    method Bwrite(i: nat, ghost a: Action)
      requires Valid() && WritesOut(s, i, a)
      modifies this`disk, this`bufs, this`s, this`run, this`acts
      ensures Valid() && s == Apply(old(s), a)
    {
      disk := disk[bufs[i].blockno := bufs[i].data];
      bufs := bufs[i := bufs[i].(dirty := false)];
      Step(a);
    }

    /** Fill the slot's buffer and write it. */
    method CopyToLog(to: nat, from: nat)
      requires Valid() && CanCopyToSlot(s, to, from) && SlotBlock(start, s.pc.tail) < |disk|
      modifies this`disk, this`bufs, this`s, this`run, this`acts
      ensures Valid() && s == old(s).(bufs := bufs, disk := disk, pc := Copy(old(s).pc.tail + 1))
      ensures bufs == old(bufs)[to := old(bufs)[to].(data := old(bufs)[from].data, dirty := false)]
    {
      Memmove(to, from, CopyToSlot(to, from));
      BwriteSlot(to);
    }

    method BwriteSlot(i: nat)
      requires Valid() && CanWriteSlot(s, i)
      modifies this`disk, this`bufs, this`s, this`run, this`acts
      ensures Valid() && s == DoWriteSlot(old(s), i)
    {
      BwriteEffect(s, i, Action.WriteSlot(i));
      Bwrite(i, Action.WriteSlot(i));
    }

    /** The body of write_log's loop. */
    method WriteLogBlock(t: nat, tail: nat)
      requires Valid() && Calm(bufs) && s.pc == Copy(tail) && tail < n && s.who == t
      modifies this`disk, this`bufs, this`lru, this`released, this`clock, this`s, this`run, this`acts
      ensures Valid() && Calm(bufs)
      ensures s == old(s).(bufs := bufs, disk := disk, pc := Copy(tail + 1))
    {
      var to, from := BreadToLog(t, tail);
      CopyToLog(to, from);
      BrelseTwo(t, from, to, old(bufs));
    }

    /** The buffers of a slot and of the block that goes there. */
    method BreadToLog(t: nat, tail: nat) returns (to: nat, from: nat)
      requires Valid() && Calm(bufs) && s.pc == Copy(tail) && tail < n && s.who == t
      modifies this`bufs, this`s, this`run, this`acts
      ensures Valid() && s == old(s).(bufs := bufs)
      ensures CanCopyToSlot(s, to, from) && SlotBlock(start, tail) < |disk| && TookTwo(bufs, old(bufs), t, to, from)
      ensures !bufs[from].dirty
    {
      LayoutFits(run, acts);
      to, from := BreadTwo(t, start + tail + 1, block[tail]);
      CleanWhenDone(run, acts);
    }

    /** write_log. */
    method WriteLog(t: nat)
      requires Valid() && Calm(bufs) && s.pc == Copy(0) && s.who == t
      modifies this`disk, this`bufs, this`lru, this`released, this`clock, this`s, this`run, this`acts
      ensures Valid() && Calm(bufs)
      ensures s == old(s).(bufs := bufs, disk := disk, pc := Copy(n))
    {
      var tail := 0;
      while tail < n
        invariant tail <= n && Valid() && Calm(bufs)
        invariant s == old(s).(bufs := bufs, disk := disk, pc := Copy(tail))
      {
        WriteLogBlock(t, tail);
        tail := tail + 1;
      }
    }

    /** The copying loop of write_head. */
    method FillHeader(d: Block) returns (h: Block)
      requires n <= block.Length && n <= LOGBLOCKS
      ensures h == WithHeader(d, block[..n])
    {
      h := d[0 := n];
      for i := 0 to n
        invariant |h| == 256 && h[0] == n && h[1..1 + i] == block[..i] && h[1 + i..] == d[1 + i..]
      {
        h := h[1 + i := block[i]];
      }
    }

    /** Fill the header's buffer and write it. */
    method PutHeader(i: nat, ghost commit: bool)
      requires Valid() && HasBlock(s, s.who, i, start) && start < |disk|
      requires if commit then s.pc == Copy(n) else s.pc.Clear?
      modifies this`disk, this`bufs, this`s, this`run, this`acts
      ensures Valid() && bufs == old(bufs)[i := bufs[i]] && disk == old(disk)[start := bufs[i].data]
      ensures bufs[i] == old(bufs)[i].(data := WithHeader(old(bufs)[i].data, block[..n]), dirty := false)
      ensures commit ==> s == old(s).(bufs := bufs, disk := disk, pc := Install(0, false, false), stable := s.logical)
      ensures !commit ==> s == old(s).(bufs := bufs, disk := disk, pc := if old(s).pc.rec then Quiet else Done)
    {
      SetHeader(i);
      ghost var a := if commit then Action.CommitHead(i) else Action.ClearHead(i);
      BwriteEffect(s, i, a);
      Bwrite(i, a);
    }

    method SetHeader(i: nat)
      requires Valid() && CanFillHead(s, i)
      modifies this`bufs, this`s, this`run, this`acts
      ensures Valid() && s == DoFillHead(old(s), i)
    {
      var h := FillHeader(bufs[i].data);
      bufs := bufs[i := bufs[i].(data := h, dirty := true)];
      Step(Action.FillHead(i));
    }

    /** write_head, either to commit the transaction or to erase it. */
    method WriteHead(t: nat, ghost commit: bool)
      requires Valid() && Calm(bufs) && s.who == t
      requires if commit then s.pc == Copy(n) else s.pc.Clear?
      modifies this`disk, this`bufs, this`lru, this`released, this`clock, this`s, this`run, this`acts
      ensures Valid() && Calm(bufs)
      ensures commit ==> s == old(s).(bufs := bufs, disk := disk, pc := Install(0, false, false), stable := s.logical)
      ensures !commit ==> s == old(s).(bufs := bufs, disk := disk, pc := if old(s).pc.rec then Quiet else Done)
    {
      LayoutFits(run, acts);
      var i := Bread(t, start);
      PutHeader(i, commit);
      BrelseOne(t, i, old(bufs));
    }

    /** Fill the home block's buffer and write it. */
    method CopyHomeBlock(dbuf: nat, lbuf: nat)
      requires Valid() && CanCopyHome(s, dbuf, lbuf)
      requires block[s.pc.tail] < |disk| == |s.logical| == |s.logged|
      modifies this`disk, this`bufs, this`s, this`run, this`acts
      ensures Valid()
      ensures s == old(s).(bufs := bufs, disk := disk, logical := s.logical, logged := s.logged, pc := s.pc)
      ensures var tail := old(s).pc.tail;
        s.pc == if old(s).pc.rec then Install(tail + 1, false, true) else Install(tail, true, false)
      ensures bufs == old(bufs)[dbuf := old(bufs)[dbuf].(data := old(bufs)[lbuf].data, dirty := false)]
    {
      Memmove(dbuf, lbuf, CopyHome(dbuf, lbuf));
      BwriteHome(dbuf);
    }

    method BwriteHome(i: nat)
      requires Valid() && CanWriteHome(s, i)
      modifies this`disk, this`bufs, this`s, this`run, this`acts
      ensures Valid() && s == DoWriteHome(old(s), i)
    {
      BwriteEffect(s, i, Action.WriteHome(i));
      Bwrite(i, Action.WriteHome(i));
    }

    method Bunpin(i: nat)
      requires Valid() && CanUnpin(s, i)
      modifies this`bufs, this`s, this`run, this`acts
      ensures Valid() && s == DoUnpin(old(s), i)
    {
      bufs := bufs[i := bufs[i].(refcnt := bufs[i].refcnt - 1)];
      Step(Action.Unpin(i));
    }

    /** Install one block from its slot's buffer, dropping the pin unless recovering. */
    method InstallFrom(t: nat, dbuf: nat, lbuf: nat, recovering: bool, ghost before: seq<Buf>)
      requires Valid() && CanCopyHome(s, dbuf, lbuf) && s.pc.rec == recovering && s.who == t
      requires block[s.pc.tail] < |disk| == |s.logical| == |s.logged| && TookTwo(bufs, before, t, lbuf, dbuf)
      modifies this`disk, this`bufs, this`s, this`run, this`acts
      ensures Valid() && TookTwo(bufs, before, t, lbuf, dbuf)
      ensures !bufs[dbuf].dirty && bufs[lbuf].dirty == old(bufs)[lbuf].dirty
      ensures s == old(s).(bufs := bufs, disk := disk, logical := s.logical, logged := s.logged,
                           pc := Install(old(s).pc.tail + 1, false, recovering))
    {
      CopyHomeBlock(dbuf, lbuf);
      if !recovering {
        PinCounts(run, acts, dbuf);
        Bunpin(dbuf);
      }
    }

    /** The body of install_trans's loop. */
    method InstallBlock(t: nat, tail: nat, recovering: bool)
      requires Valid() && Calm(bufs) && s.pc == Install(tail, false, recovering) && tail < n && s.who == t
      modifies this`disk, this`bufs, this`lru, this`released, this`clock, this`s, this`run, this`acts
      ensures Valid() && Calm(bufs)
      ensures s == old(s).(bufs := bufs, disk := disk, logical := s.logical, logged := s.logged,
                           pc := Install(tail + 1, false, recovering))
    {
      var lbuf, dbuf := InstallRead(t, tail, recovering);
      BrelseTwo(t, lbuf, dbuf, old(bufs));
    }

    /** Read both buffers, and install. */
    method InstallRead(t: nat, tail: nat, recovering: bool) returns (lbuf: nat, dbuf: nat)
      requires Valid() && Calm(bufs) && s.pc == Install(tail, false, recovering) && tail < n && s.who == t
      modifies this`disk, this`bufs, this`s, this`run, this`acts
      ensures Valid() && TookTwo(bufs, old(bufs), t, lbuf, dbuf) && !bufs[lbuf].dirty && !bufs[dbuf].dirty
      ensures s == old(s).(bufs := bufs, disk := disk, logical := s.logical, logged := s.logged,
                           pc := Install(tail + 1, false, recovering))
    {
      lbuf, dbuf := BreadFromLog(t, tail);
      InstallFrom(t, dbuf, lbuf, recovering, old(bufs));
    }

    /** The buffers of a slot and of the home block that it is for. */
    method BreadFromLog(t: nat, tail: nat) returns (lbuf: nat, dbuf: nat)
      requires Valid() && Calm(bufs) && s.pc.Install? && s.pc.tail == tail && !s.pc.wrote && tail < n && s.who == t
      modifies this`bufs, this`s, this`run, this`acts
      ensures Valid() && s == old(s).(bufs := bufs)
      ensures CanCopyHome(s, dbuf, lbuf) && block[tail] < |disk| == |s.logical| == |s.logged|
      ensures TookTwo(bufs, old(bufs), t, lbuf, dbuf) && !bufs[lbuf].dirty
    {
      LayoutFits(run, acts);
      lbuf, dbuf := BreadTwo(t, start + tail + 1, block[tail]);
      SlotsClean(run, acts);
    }

    /** install_trans. */
    method InstallTrans(t: nat, recovering: bool)
      requires Valid() && Calm(bufs) && s.pc == Install(0, false, recovering) && s.who == t
      modifies this`disk, this`bufs, this`lru, this`released, this`clock, this`s, this`run, this`acts
      ensures Valid() && Calm(bufs)
      ensures s == old(s).(bufs := bufs, disk := disk, logical := s.logical, logged := s.logged,
                           pc := Install(n, false, recovering))
    {
      var tail := 0;
      while tail < n
        invariant tail <= n && Valid() && Calm(bufs)
        invariant s == old(s).(bufs := bufs, disk := disk, logical := s.logical, logged := s.logged,
                               pc := Install(tail, false, recovering))
      {
        InstallBlock(t, tail, recovering);
        tail := tail + 1;
      }
    }

    /** Clear log.lh.n. */
    method Forget()
      requires Valid() && CanForget(s)
      modifies this`n, this`s, this`run, this`acts
      ensures Valid() && n == 0 && s == DoForget(old(s))
    {
      n := 0;
      Step(Action.Forget);
    }

    /** commit, when the log lists something. */
    method CommitBlocks(t: nat)
      requires Valid() && Calm(bufs) && s.who == t && n > 0 && s.pc == Copy(0)
      modifies this`disk, this`bufs, this`n, this`lru, this`released, this`clock, this`s, this`run, this`acts
      ensures Valid() && Calm(bufs) && s.pc.Done? && n == 0
    {
      WriteLog(t);
      WriteHead(t, true);
      InstallTrans(t, false);
      Forget();
      WriteHead(t, false);
    }

    /** commit: afterwards the logged contents are home and no pin is left, and every
        disk image on the way meant either the old contents or the new. */
    method Commit(t: nat)
      requires Valid() && Calm(bufs) && s.who == t && s.pc == if n > 0 then Copy(0) else Done
      modifies this`disk, this`bufs, this`n, this`lru, this`released, this`clock,
               this`s, this`run, this`acts, this`base, this`mark
      ensures Valid() && Calm(bufs) && s.pc.Done? && n == 0
      ensures HomeIs(s, old(s).logical)
      ensures forall i :: 0 <= i < |bufs| ==> bufs[i].refcnt == |bufs[i].users|
      ensures old(n) > 0 ==> run[base] == old(s) && AllOrNothing(run, base)
    {
      if n > 0 {
        base, mark := |acts|, s;
        CommitBlocks(t);
        CommitLeavesNoGap(run, acts, base);
      }
      CommitDone(run, acts);
    }

    /** end_op, all of it.  The last operation out commits: afterwards everything logged is home,
        the log is empty and operations are let in; any other one just counts down. */
    method EndOperation(t: nat) returns (wake: bool)
      requires Valid() && Calm(bufs) && CanEndOp(s, t)
      modifies this`disk, this`bufs, this`n, this`lru, this`released, this`clock, this`outstanding, this`committing,
               this`s, this`run, this`acts, this`base, this`mark
      ensures Valid() && Calm(bufs) && wake && outstanding == old(outstanding) - 1 && !committing && s.pc.Quiet?
      ensures outstanding == 0 ==> n == 0 && HomeIs(s, old(s).logical)
      ensures outstanding > 0 ==> n == old(n) && disk == old(disk) && s.lh == old(s).lh
    {
      QuietInOp(run, acts, t);
      var doCommit;
      doCommit, wake := EndOp(t);
      if doCommit {
        Commit(t);
        wake := EndCommit();
      }
    }

    /** The copying loop of read_head. */
    method LoadHeader(d: Block)
      requires HeaderFits(d) && block.Length == LOGBLOCKS
      modifies this`n, block
      ensures n == d[0] && block[..n] == Header(d)
    {
      n := d[0];
      for i := 0 to n
        modifies block
        invariant block[..i] == d[1..1 + i]
      {
        block[i] := d[1 + i];
      }
    }

    /** Load the header from its locked buffer. */
    method TakeHeader(buf: nat)
      requires Valid() && CanReadHead(s, buf)
      modifies this`n, this`s, this`run, this`acts, block
      ensures Valid() && s == DoReadHead(old(s), buf)
    {
      LoadHeader(bufs[buf].data);
      Step(Action.ReadHead(buf));
    }

    method BreadHeader(t: nat) returns (i: nat)
      requires Valid() && Calm(bufs) && s.pc == Boot && s.who == t
      modifies this`bufs, this`s, this`run, this`acts
      ensures Valid() && s == old(s).(bufs := bufs) && start < |disk|
      ensures CanReadHead(s, i) && bufs[i].data == disk[start] && !bufs[i].dirty
      ensures bufs == old(bufs)[i := bufs[i]] && Took(bufs[i], old(bufs)[i], t)
    {
      LayoutFits(run, acts);
      i := Bread(t, start);
      HeaderIsCached(run, acts, i);
    }

    /** read_head. */
    method ReadHead(t: nat)
      requires Valid() && Calm(bufs) && s.pc == Boot && s.who == t
      modifies this`bufs, this`n, this`lru, this`released, this`clock, this`s, this`run, this`acts, block
      ensures Valid() && Calm(bufs) && start < |disk| && HeaderFits(disk[start])
      ensures s == old(s).(bufs := bufs, lh := Header(disk[start]), pc := Install(0, false, true))
    {
      var buf := BreadHeader(t);
      TakeHeader(buf);
      BrelseOne(t, buf, old(bufs));
    }

    /** recover_from_log. */
    method RecoverFromLog(t: nat)
      requires Valid() && Calm(bufs) && s.pc == Boot && s.who == t
      modifies this`disk, this`bufs, this`n, this`lru, this`released, this`clock,
               this`s, this`run, this`acts, this`base, this`mark, block
      ensures Valid() && Calm(bufs) && s.pc.Quiet? && n == 0
      ensures |disk| == |old(disk)| && LogOk(old(disk), start)
      ensures forall b :: 0 <= b < |disk| && Home(start, b) ==> disk[b] == AfterRecovery(old(disk), start, b)
    {
      base, mark := |acts|, s;
      ReplayLog(t);
      RecoveryDone(run, acts, base);
    }

    /** What recover_from_log does. */
    method ReplayLog(t: nat)
      requires Valid() && Calm(bufs) && s.pc == Boot && s.who == t
      modifies this`disk, this`bufs, this`n, this`lru, this`released, this`clock, this`s, this`run, this`acts, block
      ensures Valid() && Calm(bufs) && s.pc.Quiet? && n == 0 && s.stable == old(s).stable
    {
      ReadHead(t);
      InstallTrans(t, true);
      Forget();
      WriteHead(t, false);
    }
  }
}
