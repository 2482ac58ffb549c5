/** A run from power-on through one operation, its commit, a crash right after the header
    write, and recovery: the operation changes and logs one block. */
module LogCommitted {
  import opened LogDisk
  import opened LogMachine
  import opened LogTheorems
  import opened LogFull

  /** The disk d, a cache of m buffers, and the block b that becomes x. */
  datatype Goal = Goal(d: Image, m: nat, b: nat, x: Block)

  ghost predicate Apt(g: Goal) {
    Setup(g.d, g.m) && START + LOGBLOCKS < g.b < |g.d|
  }

  /** Where in a run the operation begins, logs, ends, and the machine crashes. */
  datatype Marks = Marks(first: nat, put: nat, second: nat, crash: nat)

  datatype Stage = Work(logged: bool) | Commit | Recover

  /** Every block put into the log from state `from` to state `to` was b, with contents x. */
  ghost predicate PutsOnly(g: Goal, run: seq<State>, acts: seq<Action>, from: nat, to: nat)
    requires to <= |acts| < |run|
  {
    forall k, c {:trigger Puts(run[k], acts[k], c)} :: from <= k < to && Puts(run[k], acts[k], c) ==>
      c == g.b && run[k].bufs[acts[k].i].data == g.x
  }

  /** Up to here the operation that began at mk.first has not ended. */
  ghost predicate Working(g: Goal, run: seq<State>, acts: seq<Action>, mk: Marks, to: nat)
    requires Apt(g) && to <= |acts| < |run|
  {
    && mk.first <= to && run[mk.first] == Booted(g.d, g.m) && PutsOnly(g, run, acts, mk.first, to)
    && (forall k :: mk.first <= k <= to ==> run[k].pc == Quiet)
    && forall k :: mk.first <= k < to ==> !acts[k].EndOp?
  }

  /** It put b, ended, and the commit has gone on since then. */
  ghost predicate Committing(g: Goal, run: seq<State>, acts: seq<Action>, mk: Marks, to: nat)
    requires Apt(g) && to <= |acts| < |run|
  {
    && mk.first <= mk.put < mk.second <= to && Working(g, run, acts, mk, mk.second - 1)
    && Puts(run[mk.put], acts[mk.put], g.b) && acts[mk.second - 1].EndOp? && run[mk.second].pc == Copy(0)
    && (forall k :: mk.second <= k <= to ==> run[k].pc.Copy?)
    && forall k :: mk.second <= k < to ==> !acts[k].EndOp?
  }

  ghost predicate History(g: Goal, st: Stage, run: seq<State>, acts: seq<Action>, mk: Marks, s: State)
    requires Apt(g)
  {
    && RunTo(run, acts, s)
    && match st
       case Work(logged) =>
         && Working(g, run, acts, mk, |acts|)
         && (logged ==> mk.first <= mk.put < |acts| && Puts(run[mk.put], acts[mk.put], g.b))
       case Commit => Committing(g, run, acts, mk, |acts|)
       case Recover =>
         && mk.second < mk.crash < |acts| && Committing(g, run, acts, mk, mk.crash - 1)
         && acts[mk.crash - 1].CommitHead? && acts[mk.crash].Crash? && !run[mk.crash].pc.Copy?
         && forall k :: mk.crash < k < |run| ==> Recovering(run[k].pc)
  }

  ghost predicate At(g: Goal, st: Stage, s: State)
    requires Apt(g)
  {
    exists run, acts, mk :: History(g, st, run, acts, mk, s)
  }

  /** An action that leaves the stage as it is. */
  predicate Calm(st: Stage, a: Action, pc': Pc) {
    && !a.Append? && !a.Absorb? && !a.Abandon? && !a.EndOp?
    && match st
       case Work(_) => pc' == Quiet
       case Commit => pc'.Copy?
       case Recover => Recovering(pc')
  }

  lemma Grown(run: seq<State>, acts: seq<Action>, s: State, a: Action) returns (run': seq<State>, acts': seq<Action>)
    requires RunTo(run, acts, s) && Enabled(s, a)
    ensures run' == run + [Apply(s, a)] && acts' == acts + [a] && RunTo(run', acts', Apply(s, a))
  {
    run', acts' := run + [Apply(s, a)], acts + [a];
    forall k | 0 <= k < |run'| ensures StepAt(run', acts', k) {
      if k < |run| {
        assert StepAt(run, acts, k);
      }
    }
  }

  lemma WorkingLonger(g: Goal, run: seq<State>, acts: seq<Action>, mk: Marks, to: nat,
                      run': seq<State>, acts': seq<Action>)
    requires Apt(g) && to <= |acts| < |run| && Working(g, run, acts, mk, to) && |acts'| < |run'|
    requires run <= run' && acts <= acts'
    ensures Working(g, run', acts', mk, to)
  {
    assert forall k :: 0 <= k < |run| ==> run'[k] == run[k];
    assert forall k :: 0 <= k < |acts| ==> acts'[k] == acts[k];
  }

  lemma CommittingLonger(g: Goal, run: seq<State>, acts: seq<Action>, mk: Marks, to: nat,
                         run': seq<State>, acts': seq<Action>)
    requires Apt(g) && to <= |acts| < |run| && Committing(g, run, acts, mk, to) && |acts'| < |run'|
    requires run <= run' && acts <= acts'
    ensures Committing(g, run', acts', mk, to)
  {
    WorkingLonger(g, run, acts, mk, mk.second - 1, run', acts');
    assert forall k :: 0 <= k < |run| ==> run'[k] == run[k];
    assert forall k :: 0 <= k < |acts| ==> acts'[k] == acts[k];
  }

  lemma CalmStep(g: Goal, st: Stage, s: State, a: Action)
    requires Apt(g) && At(g, st, s) && Enabled(s, a) && Calm(st, a, Apply(s, a).pc)
    ensures At(g, st, Apply(s, a))
  {
    var run, acts, mk :| History(g, st, run, acts, mk, s);
    var run', acts' := Grown(run, acts, s, a);
    HistoryGrows(g, st, run, acts, mk, s, a, run', acts', Apply(s, a));
  }

  lemma HistoryGrows(g: Goal, st: Stage, run: seq<State>, acts: seq<Action>, mk: Marks, s: State, a: Action,
                     run': seq<State>, acts': seq<Action>, s': State)
    requires Apt(g) && History(g, st, run, acts, mk, s) && Calm(st, a, s'.pc)
    requires RunTo(run', acts', s') && run' == run + [s'] && acts' == acts + [a]
    ensures History(g, st, run', acts', mk, s')
  {
    match st {
      case Work(_) => WorkGoesOn(g, run, acts, mk, s, a, run', acts');
      case Commit => CommitGoesOn(g, run, acts, mk, a, run', acts');
      case Recover => CommittingLonger(g, run, acts, mk, mk.crash - 1, run', acts');
    }
  }

  lemma WorkGoesOn(g: Goal, run: seq<State>, acts: seq<Action>, mk: Marks, s: State, a: Action,
                   run': seq<State>, acts': seq<Action>)
    requires Apt(g) && |run| == |acts| + 1 && Working(g, run, acts, mk, |acts|) && run[|acts|] == s
    requires |run'| == |acts'| + 1 && |acts'| == |acts| + 1 && run <= run' && acts <= acts' && acts'[|acts|] == a
    requires run'[|acts'|].pc == Quiet && !a.EndOp?
    requires forall c {:trigger Puts(s, a, c)} :: Puts(s, a, c) ==> c == g.b && s.bufs[a.i].data == g.x
    ensures Working(g, run', acts', mk, |acts'|)
  {
    WorkingLonger(g, run, acts, mk, |acts|, run', acts');
  }

  lemma CommitGoesOn(g: Goal, run: seq<State>, acts: seq<Action>, mk: Marks, a: Action,
                     run': seq<State>, acts': seq<Action>)
    requires Apt(g) && |run| == |acts| + 1 && Committing(g, run, acts, mk, |acts|)
    requires |run'| == |acts'| + 1 && |acts'| == |acts| + 1 && run <= run' && acts <= acts' && acts'[|acts|] == a
    requires run'[|acts'|].pc.Copy? && !a.EndOp?
    ensures Committing(g, run', acts', mk, |acts'|)
  {
    CommittingLonger(g, run, acts, mk, |acts|, run', acts');
  }

  /** Steps of a buffer on its own do not move commit or recovery. */
  lemma BufStep(g: Goal, st: Stage, s: State, a: Action)
    requires Apt(g) && At(g, st, s) && Enabled(s, a) && Calm(st, Forget, s.pc)
    requires a.Bget? || a.Lock? || a.ReadIn?
    ensures At(g, st, Apply(s, a))
  {
    assert Apply(s, a).pc == s.pc;
    CalmStep(g, st, s, a);
  }

  lemma PutStep(g: Goal, s: State, i: nat)
    requires Apt(g) && At(g, Work(false), s) && CanAppend(s, 0, i) && s.bufs[i].blockno == g.b && s.bufs[i].data == g.x
    requires s.pc == Quiet
    ensures At(g, Work(true), DoAppend(s, 0, i))
  {
    var run, acts, mk :| History(g, Work(false), run, acts, mk, s);
    var run', acts' := Grown(run, acts, s, Append(0, i));
    WorkGoesOn(g, run, acts, mk, s, Append(0, i), run', acts');
    assert Puts(run'[|acts|], acts'[|acts|], g.b);
    assert History(g, Work(true), run', acts', mk.(put := |acts|), DoAppend(s, 0, i));
  }

  lemma EndStep(g: Goal, s: State)
    requires Apt(g) && At(g, Work(true), s) && CanEndOp(s, 0) && s.outstanding == 1 && s.lh != []
    ensures At(g, Commit, DoEndOp(s, 0))
  {
    var run, acts, mk :| History(g, Work(true), run, acts, mk, s);
    var run', acts' := Grown(run, acts, s, EndOp(0));
    WorkingLonger(g, run, acts, mk, |acts|, run', acts');
    assert History(g, Commit, run', acts', mk.(second := |acts| + 1), DoEndOp(s, 0));
  }

  lemma CrashStep(g: Goal, s: State, i: nat)
    requires Apt(g) && At(g, Commit, s) && CanCommitHead(s, i)
    ensures At(g, Recover, AfterCrash(DoCommitHead(s, i), 0))
  {
    var run, acts, mk :| History(g, Commit, run, acts, mk, s);
    var s1 := DoCommitHead(s, i);
    var run1, acts1 := Grown(run, acts, s, CommitHead(i));
    var run2, acts2 := Grown(run1, acts1, s1, Crash(0));
    CrashHistory(g, run, acts, mk, s1, AfterCrash(s1, 0), i, run2, acts2);
  }

  lemma CrashHistory(g: Goal, run: seq<State>, acts: seq<Action>, mk: Marks, s1: State, s2: State, i: nat,
                     run2: seq<State>, acts2: seq<Action>)
    requires Apt(g) && |run| == |acts| + 1 && Committing(g, run, acts, mk, |acts|) && RunTo(run2, acts2, s2)
    requires run2 == run + [s1] + [s2] && acts2 == acts + [CommitHead(i)] + [Crash(0)]
    requires !s1.pc.Copy? && s2.pc == Boot
    ensures History(g, Recover, run2, acts2, mk.(crash := |acts| + 1), s2)
  {
    var mk2 := mk.(crash := |acts| + 1);
    CommittingLonger(g, run, acts, mk, |acts|, run2, acts2);
    assert Committing(g, run2, acts2, mk2, |acts|);
  }

  // ----- the run

  /** bread of an uncached block into an unused buffer. */
  lemma Read(g: Goal, st: Stage, s: State, i: nat, b: nat)
    requires Apt(g) && At(g, st, s) && i < |s.bufs| && b < |s.disk| && Calm(st, Forget, s.pc)
    requires s.bufs[i].refcnt == 0 && s.bufs[i].holder.None? && !s.bufs[i].dirty
    requires forall j :: 0 <= j < |s.bufs| ==> !Holds(s.bufs[j], b)
    ensures At(g, st, SetBuf(s, i, Buf(ROOTDEV, b, true, 1, s.disk[b], Some(0), multiset{0}, false, false)))
  {
    var s1, s2 := ReadStates(s, i, b);
    BufStep(g, st, s, Bget(0, i, b));
    BufStep(g, st, s1, Lock(0, i));
    BufStep(g, st, s2, ReadIn(0, i));
  }

  lemma ReadStates(s: State, i: nat, b: nat) returns (s1: State, s2: State)
    requires i < |s.bufs| && b < |s.disk| && s.bufs[i].refcnt == 0 && s.bufs[i].holder.None? && !s.bufs[i].dirty
    requires forall j :: 0 <= j < |s.bufs| ==> !Holds(s.bufs[j], b)
    ensures CanBget(s, 0, i, b) && s1 == DoBget(s, 0, i, b) && s1.pc == s.pc
    ensures CanLock(s1, 0, i) && s2 == DoLock(s1, 0, i) && s2.pc == s.pc && CanReadIn(s2, 0, i)
    ensures DoReadIn(s2, 0, i)
         == SetBuf(s, i, Buf(ROOTDEV, b, true, 1, s.disk[b], Some(0), multiset{0}, false, false))
  {
    s1 := DoBget(s, 0, i, b);
    s2 := DoLock(s1, 0, i);
  }

  /** bread of a cached block that nobody uses. */
  lemma Again(g: Goal, st: Stage, s: State, i: nat)
    requires Apt(g) && At(g, st, s) && i < |s.bufs| && s.bufs[i].blockno < |s.disk| && Calm(st, Forget, s.pc)
    requires s.bufs[i].dev == ROOTDEV && s.bufs[i].holder.None? && s.bufs[i].users == multiset{}
    ensures At(g, st, SetBuf(s, i, s.bufs[i].(refcnt := s.bufs[i].refcnt + 1, holder := Some(0), users := multiset{0})))
  {
    var s1 := AgainStates(s, i);
    BufStep(g, st, s, Bget(0, i, s.bufs[i].blockno));
    BufStep(g, st, s1, Lock(0, i));
  }

  lemma AgainStates(s: State, i: nat) returns (s1: State)
    requires i < |s.bufs| && s.bufs[i].blockno < |s.disk| && s.bufs[i].dev == ROOTDEV
    requires s.bufs[i].holder.None? && s.bufs[i].users == multiset{}
    ensures CanBget(s, 0, i, s.bufs[i].blockno) && s1 == DoBget(s, 0, i, s.bufs[i].blockno) && s1.pc == s.pc
    ensures CanLock(s1, 0, i)
    ensures DoLock(s1, 0, i)
         == SetBuf(s, i, s.bufs[i].(refcnt := s.bufs[i].refcnt + 1, holder := Some(0), users := multiset{0}))
  {
    var u := s.bufs[i];
    s1 := DoBget(s, 0, i, u.blockno);
    assert u.users + multiset{0} == multiset{0};
  }

  lemma BootedAt(g: Goal)
    requires Apt(g)
    ensures At(g, Work(false), Booted(g.d, g.m))
  {
    BootReachable(g.d, g.m);
    var run, acts :| RunTo(run, acts, Booted(g.d, g.m));
    assert History(g, Work(false), run, acts, Marks(|acts|, 0, 0, 0), Booted(g.d, g.m));
  }

  /** Block b in buffer 0, changed and logged, pinned and unused. */
  function Logged(g: Goal): Buf {
    Buf(ROOTDEV, g.b, true, 1, g.x, None, multiset{}, false, false)
  }

  /** The same in thread 0's hands. */
  function Held(g: Goal): Buf {
    Logged(g).(refcnt := 2, holder := Some(0), users := multiset{0})
  }

  /** The first slot's buffer in its hands. */
  function SlotBuf(data: Block): Buf {
    Buf(ROOTDEV, START + 1, true, 1, data, Some(0), multiset{0}, false, false)
  }

  /** end_op has begun the commit. */
  function Ended(g: Goal): State
    requires Apt(g)
  {
    Booted(g.d, g.m).(bufs := BufsAfter(g.d, 0, g.m)[0 := Logged(g)], lh := [g.b], pins := [0], committing := true,
                      pc := Copy(0), logical := g.d[g.b := g.x], logged := g.d[g.b := g.x])
  }

  /** The operation has logged its change, and holds the buffer. */
  function Put(g: Goal): State
    requires Apt(g)
  {
    Ended(g).(bufs := BufsAfter(g.d, 0, g.m)[0 := Held(g)],
              committing := false, pc := Quiet, ops := [In(1), Out, Out], outstanding := 1)
  }

  /** The operation has changed the block. */
  lemma Changed(g: Goal) returns (s: State)
    requires Apt(g)
    ensures At(g, Work(false), s)
    ensures s == Booted(g.d, g.m).(bufs := BufsAfter(g.d, 0, g.m)[0 := Held(g).(refcnt := 1, dirty := true)],
                                   ops := [In(0), Out, Out], outstanding := 1)
  {
    BootedAt(g);
    var s0 := Booted(g.d, g.m);
    CalmStep(g, Work(false), s0, BeginOp(0));
    var s1 := DoBeginOp(s0, 0);
    assert s1.ops == [In(0), Out, Out];
    Read(g, Work(false), s1, 0, g.b);
    var s2 := SetBuf(s1, 0, Buf(ROOTDEV, g.b, true, 1, g.d[g.b], Some(0), multiset{0}, false, false));
    CalmStep(g, Work(false), s2, Modify(0, 0, g.x));
    s := DoModify(s2, 0, 0, g.x);
    assert s.bufs == BufsAfter(g.d, 0, g.m)[0 := Held(g).(refcnt := 1, dirty := true)];
  }

  lemma PutAt(g: Goal)
    requires Apt(g)
    ensures At(g, Work(true), Put(g))
  {
    var s := Changed(g);
    PutStep(g, s, 0);
    var s4 := DoAppend(s, 0, 0);
    assert s4.bufs == Put(g).bufs && s4.ops == Put(g).ops && s4.abandoned == map[];
    assert s4.lh == [g.b] && s4.pins == [0];
  }

  lemma EndedAt(g: Goal)
    requires Apt(g)
    ensures At(g, Commit, Ended(g))
  {
    PutAt(g);
    var s := Put(g);
    CalmStep(g, Work(true), s, Unlock(0, 0));
    var s1 := DoUnlock(s, 0, 0);
    CalmStep(g, Work(true), s1, Drop(0, 0));
    var s2 := DoDrop(s1, 0, 0);
    assert s2.bufs == Ended(g).bufs;
    EndStep(g, s2);
    assert DoEndOp(s2, 0).ops == Ended(g).ops;
  }

  /** The header's buffer, filled for the commit. */
  function HeadBuf(g: Goal): Buf
    requires Apt(g)
  {
    Buf(ROOTDEV, START, true, 1, WithHeader(g.d[START], [g.b]), Some(0), multiset{0}, true, false)
  }

  /** The slot is written, and the header's buffer filled. */
  function Filled(g: Goal): State
    requires Apt(g)
  {
    Ended(g).(
      bufs := BufsAfter(g.d, 0, g.m)
              [0 := Held(g)]
              [1 := SlotBuf(g.x)]
              [29 := HeadBuf(g)],
      disk := g.d[START + 1 := g.x], pc := Copy(1))
  }

  /** write_log holds the slot's buffer and the block's. */
  lemma SlotRead(g: Goal) returns (s: State)
    requires Apt(g)
    ensures At(g, Commit, s)
    ensures s == Ended(g).(bufs := BufsAfter(g.d, 0, g.m)[1 := SlotBuf(g.d[START + 1])][0 := Held(g)])
  {
    EndedAt(g);
    var s0 := Ended(g);
    Read(g, Commit, s0, 1, START + 1);
    var s1 := SetBuf(s0, 1, SlotBuf(g.d[START + 1]));
    Again(g, Commit, s1, 0);
    s := SetBuf(s1, 0, Held(g));
    assert s.bufs == BufsAfter(g.d, 0, g.m)[1 := SlotBuf(g.d[START + 1])][0 := Held(g)];
  }

  lemma SlotFilled(g: Goal) returns (s: State)
    requires Apt(g)
    ensures At(g, Commit, s)
    ensures s == Ended(g).(bufs := BufsAfter(g.d, 0, g.m)[1 := SlotBuf(g.x).(dirty := true)][0 := Held(g)])
  {
    var s0 := SlotRead(g);
    CalmStep(g, Commit, s0, CopyToSlot(1, 0));
    s := DoCopy(s0, 1, 0);
    assert s.bufs == BufsAfter(g.d, 0, g.m)[1 := SlotBuf(g.x).(dirty := true)][0 := Held(g)];
  }

  lemma SlotWritten(g: Goal) returns (s: State)
    requires Apt(g)
    ensures At(g, Commit, s) && s == Filled(g).(bufs := Filled(g).bufs[29 := BufAfter(g.d, 0, 29)])
  {
    var s0 := SlotFilled(g);
    CalmStep(g, Commit, s0, WriteSlot(1));
    s := DoWriteSlot(s0, 1);
    assert s.bufs == Filled(g).bufs[29 := BufAfter(g.d, 0, 29)];
  }

  lemma FilledAt(g: Goal)
    requires Apt(g)
    ensures At(g, Commit, Filled(g))
  {
    var s := SlotWritten(g);
    Again(g, Commit, s, 29);
    var s1 := SetBuf(s, 29, BufAfter(g.d, 0, 29).(refcnt := 1, holder := Some(0), users := multiset{0}));
    CalmStep(g, Commit, s1, FillHead(29));
    assert DoFillHead(s1, 29).bufs == Filled(g).bufs;
  }

  /** The disk at the crash: header and slot are there, the home block is not. */
  function Crashed(g: Goal): State
    requires Apt(g)
  {
    AfterCrash(DoCommitHead(Filled(g), 29), 0)
  }

  lemma CrashedAt(g: Goal)
    requires Apt(g)
    ensures At(g, Recover, Crashed(g))
  {
    FilledAt(g);
    CrashStep(g, Filled(g), 29);
  }

  /** Recovery has read the header, which lists b. */
  lemma HeaderRead(g: Goal) returns (s: State)
    requires Apt(g)
    ensures At(g, Recover, s) && |s.bufs| == g.m && s.lh == [g.b] && s.pc == Install(0, false, true) && s.who == 0
    ensures s.start == START && |s.disk| == |s.logical| == |s.logged| == |g.d|
    ensures s.bufs == Blanked(s.bufs)[29 := s.bufs[29]] && HasBlock(s, 0, 29, START)
  {
    CrashedAt(g);
    var c := Crashed(g);
    Read(g, Recover, c, 29, START);
    var s1 := SetBuf(c, 29, Buf(ROOTDEV, START, true, 1, c.disk[START], Some(0), multiset{0}, false, false));
    assert c.disk[START] == WithHeader(g.d[START], [g.b]);
    CalmStep(g, Recover, s1, ReadHead(29));
    s := DoReadHead(s1, 29);
    assert s.bufs == Blanked(s.bufs)[29 := s.bufs[29]];
  }

  /** And the slot and the home block. */
  lemma BlocksRead(g: Goal) returns (s: State)
    requires Apt(g)
    ensures At(g, Recover, s) && s.lh == [g.b] && s.pc == Install(0, false, true) && s.who == 0
    ensures s.start == START && |s.disk| == |s.logical| == |s.logged| == |g.d|
    ensures HasBlock(s, 0, 29, START) && HasBlock(s, 0, 0, g.b) && HasBlock(s, 0, 1, START + 1)
  {
    var s0 := HeaderRead(g);
    Read(g, Recover, s0, 0, g.b);
    var s1 := SetBuf(s0, 0, Buf(ROOTDEV, g.b, true, 1, s0.disk[g.b], Some(0), multiset{0}, false, false));
    Read(g, Recover, s1, 1, START + 1);
    s := SetBuf(s1, 1, SlotBuf(s0.disk[START + 1]));
  }

  /** Thread 0 recovers, with the header's buffer. */
  ghost predicate Reading(g: Goal, s: State, pc: Pc)
    requires Apt(g)
  {
    && At(g, Recover, s) && s.pc == pc && s.who == 0 && s.start == START
    && |s.disk| == |s.logical| == |s.logged| == |g.d| && HasBlock(s, 0, 29, START)
  }

  lemma HomeFilled(g: Goal) returns (s: State)
    requires Apt(g)
    ensures Reading(g, s, Install(0, false, true)) && s.lh == [g.b] && HasBlock(s, 0, 0, g.b) && s.bufs[0].dirty
  {
    var s0 := BlocksRead(g);
    CalmStep(g, Recover, s0, CopyHome(0, 1));
    s := DoCopy(s0, 0, 1);
  }

  lemma HomeWritten(g: Goal) returns (s: State)
    requires Apt(g)
    ensures Reading(g, s, Install(1, false, true)) && s.lh == [g.b]
  {
    var s0 := HomeFilled(g);
    CalmStep(g, Recover, s0, WriteHome(0));
    s := DoWriteHome(s0, 0);
  }

  /** It has copied the slot home and emptied the log in memory. */
  lemma Installed(g: Goal) returns (s: State)
    requires Apt(g)
    ensures Reading(g, s, Clear(true)) && s.lh == []
  {
    var s0 := HomeWritten(g);
    CalmStep(g, Recover, s0, Forget);
    s := DoForget(s0);
  }

  lemma HeadFilled(g: Goal) returns (s: State)
    requires Apt(g)
    ensures Reading(g, s, Clear(true)) && s.bufs[29].dirty
  {
    var s0 := Installed(g);
    CalmStep(g, Recover, s0, FillHead(29));
    s := DoFillHead(s0, 29);
  }

  /** The whole run: the operation, its commit up to the header write, the crash, and recovery up to
      its end, which is the last state. */
  lemma CommittedRun(g: Goal) returns (run: seq<State>, acts: seq<Action>, mk: Marks)
    requires Apt(g)
    ensures Run(run, acts) && mk.second < mk.crash < |acts| && Committing(g, run, acts, mk, mk.crash - 1)
    ensures acts[mk.crash - 1].CommitHead? && acts[mk.crash].Crash? && !run[mk.crash].pc.Copy?
    ensures (forall k :: mk.crash < k < |acts| ==> Recovering(run[k].pc)) && run[|acts|].pc == Quiet
  {
    var s1 := HeadFilled(g);
    var run1, acts1, mk1 :| History(g, Recover, run1, acts1, mk1, s1);
    run, acts := Grown(run1, acts1, s1, ClearHead(29));
    mk := mk1;
    CommittingLonger(g, run1, acts1, mk, mk.crash - 1, run, acts);
  }
}
