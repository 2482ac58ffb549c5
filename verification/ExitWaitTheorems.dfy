/** What holds over every run of fork, exit and wait. */
module ExitWaitTheorems {
  import opened ExitWait
  import opened ExitWaitProofs
  import opened ExitWaitKin

  lemma ForkPartKeeps(s: State, p: nat, choice: int)
    requires Inv(s) && CanAdvance(s, p) && Forking(s.procs[p].pc)
    ensures Inv(Step(s, p, choice))
  {
    match s.procs[p].pc
    case ForkHave(np) => if choice == 0 { ForkFailKeeps(s, p); } else { ForkKeepKeeps(s, p, choice); }
    case ForkWant(np) => ForkLockKeeps(s, p, choice);
    case ForkSet(np) => ForkSetKeeps(s, p);
    case ForkRun(np) => ForkRunKeeps(s, p);
  }

  lemma ExitPartKeeps(s: State, p: nat, choice: int)
    requires Inv(s) && CanAdvance(s, p) && Exiting(s.procs[p].pc)
    ensures Inv(Step(s, p, choice))
  {
    var n := |s.procs|;
    match s.procs[p].pc
    case ExitWant => ExitLockKeeps(s, p, choice);
    case Reparent(i) =>
      if n <= i { ReparentEndKeeps(s, p, choice); }
      else if s.procs[i].parent == Some(p) { AdoptKeeps(s, p); }
      else { ReparentMissKeeps(s, p, choice); }
    case InitScan(i, j) =>
      if n <= j { InitScanEndKeeps(s, p, choice); }
      else if j == p { InitScanSkipKeeps(s, p, choice); }
      else { InitScanTakeKeeps(s, p, choice); }
    case InitLook(i, j) => InitLookKeeps(s, p, choice);
    case ParScan(j) =>
      if n <= j { ParScanEndKeeps(s, p, choice); }
      else if j == p { ParScanSkipKeeps(s, p, choice); }
      else { ParScanTakeKeeps(s, p, choice); }
    case ParLook(j) => ParLookKeeps(s, p, choice);
    case ExitMark => ExitMarkKeeps(s, p, choice);
    case ExitDrop => ExitDropKeeps(s, p, choice);
    case ExitSwitch => ExitSwitchKeeps(s, p, choice);
  }

  lemma WaitPartKeeps(s: State, p: nat, choice: int)
    requires Inv(s) && CanAdvance(s, p) && !Exiting(s.procs[p].pc) && !Forking(s.procs[p].pc)
    ensures Inv(Step(s, p, choice))
  {
    match s.procs[p].pc
    case WaitWant => WaitLockKeeps(s, p, choice);
    case WaitScan(i, kids) =>
      if |s.procs| <= i {
        if !kids || s.procs[p].killed { WaitScanBackKeeps(s, p, choice); } else { WaitScanSleepKeeps(s, p, choice); }
      } else if s.procs[i].parent == Some(p) { WaitScanTakeKeeps(s, p, choice); }
      else { WaitScanMissKeeps(s, p, choice); }
    case WaitLook(i, kids) =>
      if s.procs[i].state != ZOMBIE { WaitLookAliveKeeps(s, p, choice); }
      else if choice == 0 { WaitLookFailKeeps(s, p, choice); }
      else { ReapKeeps(s, p, choice); }
    case SleepA => SleepAKeeps(s, p, choice);
    case SleepB => SleepBKeeps(s, p, choice);
    case SleepC => SleepCKeeps(s, p, choice);
    case SleepD => SleepDKeeps(s, p, choice);
    case Resume => ResumeKeeps(s, p, choice);
  }

  lemma ApplyKeeps(s: State, a: Action)
    requires Inv(s) && Enabled(s, a)
    ensures Inv(Apply(s, a))
  {
    match a
    case Fork(p, np) => ForkKeeps(s, p, np);
    case Exit(p, status) => ExitKeeps(s, p, status);
    case Wait(p) => WaitKeeps(s, p);
    case Advance(p, choice) =>
      if Forking(s.procs[p].pc) { ForkPartKeeps(s, p, choice); }
      else if Exiting(s.procs[p].pc) { ExitPartKeeps(s, p, choice); }
      else { WaitPartKeeps(s, p, choice); }
    case SchedRelease(p) => SchedReleaseKeeps(s, p);
    case Dispatch(p) => DispatchKeeps(s, p);
    case Preempt(p) => PreemptKeeps(s, p);
    case Kill(p) => KillKeeps(s, p);
    case SleepElsewhere(p, chan) => SleepElsewhereKeeps(s, p, chan);
    case WakeElsewhere(p) => WakeElsewhereKeeps(s, p);
  }

  // ----- runs

  /** userinit has made init runnable; the rest of the table is unused. */
  ghost predicate Init(s: State) {
    && INIT < |s.procs| && s.waitLock.None? && s.exits == map[] && s.reaped == map[]
    && s.procs[INIT] == Proc(RUNNABLE, None, false, 0, s.procs[INIT].pid, None, User, Free, 0)
    && s.procs[INIT].pid < s.nextpid
    && forall p :: 0 <= p < |s.procs| && p != INIT ==> s.procs[p] == Freed()
  }

  /** State k is initial, or some action leads to it from its predecessor. */
  ghost predicate StepAt(run: seq<State>, acts: seq<Action>, k: nat)
    requires k < |run| == |acts| + 1
  {
    if k == 0 then Init(run[0])
    else Enabled(run[k - 1], acts[k - 1]) && run[k] == Apply(run[k - 1], acts[k - 1])
  }

  ghost predicate Run(run: seq<State>, acts: seq<Action>) {
    && |run| == |acts| + 1
    && forall k {:trigger StepAt(run, acts, k)} :: 0 <= k < |run| ==> StepAt(run, acts, k)
  }

  lemma InitInv(s: State)
    requires Init(s)
    ensures Inv(s)
  {
  }

  lemma {:induction false} RunInv(run: seq<State>, acts: seq<Action>, k: nat)
    requires Run(run, acts) && k < |run|
    ensures Inv(run[k])
  {
    assert StepAt(run, acts, k);
    if k == 0 {
      InitInv(run[0]);
    } else {
      RunInv(run, acts, k - 1);
      ApplyKeeps(run[k - 1], acts[k - 1]);
    }
  }

  /** In every reachable state, whoever is somebody's parent is alive. */
  lemma ParentsAlive(run: seq<State>, acts: seq<Action>, k: nat, c: nat)
    requires Run(run, acts) && k < |run| && c < |run[k].procs| && run[k].procs[c].parent.Some?
    ensures var q := run[k].procs[c].parent.value;
      q < |run[k].procs| && q != c && run[k].procs[q].state !in {UNUSED, USED, ZOMBIE}
  {
    RunInv(run, acts, k);
    assert KinOk(run[k], c);
  }

  /** The action is a wait that reaps child c. */
  predicate Reaps(s: State, a: Action, c: nat) {
    && a.Advance? && a.choice != 0 && a.p < |s.procs| && s.procs[a.p].pc.WaitLook? && s.procs[a.p].pc.i == c
    && c < |s.procs| && s.procs[c].state == ZOMBIE
  }

  /** A reaped process has left exit and its kernel stack for good, is reaped for the first
      time, and is reported with its own pid and the status it exited with. */
  lemma ReapedOnce(run: seq<State>, acts: seq<Action>, k: nat, c: nat)
    requires Run(run, acts) && k < |acts| && Reaps(run[k], acts[k], c)
    ensures run[k].procs[c].pc.Dead? && run[k].procs[c].lock == By(acts[k].p)
    ensures var pid := run[k].procs[c].pid;
      && pid !in run[k].reaped && pid in run[k].exits
      && run[k].exits[pid] == run[k].procs[c].xstate
      && run[k + 1].reaped == run[k].reaped[pid := run[k].exits[pid]]
      && |run[k + 1].procs| == |run[k].procs| && run[k + 1].procs[c] == Freed()
  {
    RunInv(run, acts, k);
    assert StepAt(run, acts, k + 1);
    var s := run[k];
    assert LocksOk(s, acts[k].p) && LocksOk(s, c) && PlaceOk(s.procs[c], c, |s.procs|);
    assert PidOk(s.procs[c], s.nextpid, s.exits, s.reaped);
  }

  /** Nothing else touches the record of reaped processes, so no pid is reaped twice. */
  lemma ReapedStep(run: seq<State>, acts: seq<Action>, k: nat)
    requires Run(run, acts) && k < |acts|
    ensures forall i :: i in run[k].reaped ==> i in run[k + 1].reaped && run[k + 1].reaped[i] == run[k].reaped[i]
    ensures (forall c :: !Reaps(run[k], acts[k], c)) ==> run[k + 1].reaped == run[k].reaped
  {
    assert StepAt(run, acts, k + 1);
    RunInv(run, acts, k);
    var s, a := run[k], acts[k];
    ReapedRecord(s, a);
    if !(a.Advance? && s.procs[a.p].pc.WaitLook? && Reaps(s, a, s.procs[a.p].pc.i)) {
      OthersReapNone(s, a);
    }
  }

  /** The record of reaped processes only grows. */
  lemma ReapedRecord(s: State, a: Action)
    requires Inv(s) && Enabled(s, a)
    ensures forall i :: i in s.reaped ==> i in Apply(s, a).reaped && Apply(s, a).reaped[i] == s.reaped[i]
  {
    if a.Advance? && s.procs[a.p].pc.WaitLook? && Reaps(s, a, s.procs[a.p].pc.i) {
      assert PidOk(s.procs[s.procs[a.p].pc.i], s.nextpid, s.exits, s.reaped);
    } else {
      OthersReapNone(s, a);
    }
  }

  lemma OthersReapNone(s: State, a: Action)
    requires Enabled(s, a) && !(a.Advance? && s.procs[a.p].pc.WaitLook? && Reaps(s, a, s.procs[a.p].pc.i))
    ensures Apply(s, a).reaped == s.reaped
  {
    if a.Advance? {
      StepReapsNone(s, a.p, a.choice);
    }
  }

  lemma StepReapsNone(s: State, p: nat, choice: int)
    requires CanAdvance(s, p) && (s.procs[p].pc.WaitLook? ==> !Reaps(s, Advance(p, choice), s.procs[p].pc.i))
    ensures Step(s, p, choice).reaped == s.reaped
  {
  }

  /** Exit statuses are recorded once: what is written at exit stays what wait reports. */
  lemma {:induction false} ReapedForever(run: seq<State>, acts: seq<Action>, j: nat, k: nat, pid: nat)
    requires Run(run, acts) && j <= k < |run| && pid in run[j].reaped
    ensures pid in run[k].reaped && run[k].reaped[pid] == run[j].reaped[pid]
  {
    if j < k {
      ReapedForever(run, acts, j, k - 1, pid);
      ReapedStep(run, acts, k - 1);
    }
  }

  /** Two reaps in a run never report the same pid. */
  lemma NeverReapedTwice(run: seq<State>, acts: seq<Action>, j: nat, k: nat, c: nat, d: nat)
    requires Run(run, acts) && j < k < |acts| && Reaps(run[j], acts[j], c) && Reaps(run[k], acts[k], d)
    ensures run[j].procs[c].pid != run[k].procs[d].pid
  {
    ReapedOnce(run, acts, j, c);
    ReapedForever(run, acts, j + 1, k, run[j].procs[c].pid);
    ReapedOnce(run, acts, k, d);
  }

  /** While wait_lock is free, no process sleeps in wait although a child has exited. */
  lemma NoMissedExit(run: seq<State>, acts: seq<Action>, k: nat, p: nat, c: nat)
    requires Run(run, acts) && k < |run| && p < |run[k].procs| && c < |run[k].procs|
    requires run[k].waitLock.None? && run[k].procs[c].parent == Some(p) && run[k].procs[c].state == ZOMBIE
    ensures !(run[k].procs[p].state == SLEEPING && run[k].procs[p].chan == Some(p))
  {
    RunInv(run, acts, k);
    assert ExitSeen(run[k], p, c);
  }
}
