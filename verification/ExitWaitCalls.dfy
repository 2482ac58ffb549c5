/** What fork, exit and wait do for their callers, over whole calls. */
module ExitWaitCalls {
  import opened ExitWait
  import opened ExitWaitTheorems

  /** What others may do to a process that is not theirs to make or reap: hand it over to init,
      wake it, lock it. */
  predicate LeftAlone(u: Proc, u': Proc) {
    && u'.pc == u.pc && u'.pid == u.pid && u'.status == u.status && u'.killed == u.killed && u'.xstate == u.xstate
    && (u'.parent == u.parent || u'.parent == Some(INIT))
    && (u'.state == u.state || (u.state == SLEEPING && u'.state == RUNNABLE))
  }

  /** q is in use, and neither what p is making in kfork nor a zombie that p has found. */
  predicate Spared(s: State, p: nat, q: nat) {
    && p < |s.procs| && q < |s.procs| && q != p && s.procs[q].state != UNUSED
    && (Forking(s.procs[p].pc) ==> s.procs[p].pc.np != q)
    && (s.procs[p].pc.WaitLook? && s.procs[p].pc.i == q ==> s.procs[q].state != ZOMBIE)
  }

  lemma ForkLeaves(s: State, p: nat, choice: int, q: nat)
    requires CanAdvance(s, p) && Spared(s, p, q) && Forking(s.procs[p].pc)
    ensures |Step(s, p, choice).procs| == |s.procs| && LeftAlone(s.procs[q], Step(s, p, choice).procs[q])
  {
  }

  lemma ExitLeaves(s: State, p: nat, choice: int, q: nat)
    requires CanAdvance(s, p) && q < |s.procs| && q != p && Exiting(s.procs[p].pc)
    ensures |Step(s, p, choice).procs| == |s.procs| && LeftAlone(s.procs[q], Step(s, p, choice).procs[q])
  {
  }

  lemma SleepLeaves(s: State, p: nat, choice: int, q: nat)
    requires CanAdvance(s, p) && q < |s.procs| && q != p
    requires !Forking(s.procs[p].pc) && !Exiting(s.procs[p].pc) && !InScan(s.procs[p].pc)
    ensures |Step(s, p, choice).procs| == |s.procs| && Step(s, p, choice).procs[q] == s.procs[q]
  {
  }

  lemma ScanLeaves(s: State, p: nat, choice: int, q: nat)
    requires CanAdvance(s, p) && Spared(s, p, q) && InScan(s.procs[p].pc)
    ensures |Step(s, p, choice).procs| == |s.procs| && LeftAlone(s.procs[q], Step(s, p, choice).procs[q])
  {
    match s.procs[p].pc
    case WaitScan(i, kids) =>
    case WaitLook(i, kids) =>
      assert i < |s.procs| && s.procs[i].state == ZOMBIE ==> q != i;
  }

  lemma StepLeaves(s: State, p: nat, choice: int, q: nat)
    requires CanAdvance(s, p) && Spared(s, p, q)
    ensures |Step(s, p, choice).procs| == |s.procs| && LeftAlone(s.procs[q], Step(s, p, choice).procs[q])
  {
    if Forking(s.procs[p].pc) {
      ForkLeaves(s, p, choice, q);
    } else if Exiting(s.procs[p].pc) {
      ExitLeaves(s, p, choice, q);
    } else if InScan(s.procs[p].pc) {
      ScanLeaves(s, p, choice, q);
    } else {
      SleepLeaves(s, p, choice, q);
    }
  }

  lemma OthersLeave(s: State, a: Action, q: nat)
    requires Enabled(s, a) && Spared(s, a.p, q)
    ensures |Apply(s, a).procs| == |s.procs| && LeftAlone(s.procs[q], Apply(s, a).procs[q])
  {
    if a.Advance? {
      StepLeaves(s, a.p, a.choice, q);
    }
  }

  /** p is outside kfork, kexit and kwait. */
  predicate UserAt(s: State, p: nat) {
    p < |s.procs| && s.procs[p].pc.User?
  }

  /** From step j on p has been in a call, up to state k. */
  ghost predicate InCall(run: seq<State>, p: nat, j: nat, k: nat) {
    j < k < |run| && forall i :: j < i < k ==> !UserAt(run[i], p)
  }

  // ----- kwait

  predicate Awaiting(pc: Pc) {
    || pc.WaitWant? || pc.WaitScan? || pc.WaitLook? || pc.SleepA? || pc.SleepB? || pc.SleepC? || pc.SleepD? || pc.Off?
    || pc.Resume?
  }

  ghost predicate NoChild(s: State, p: nat) {
    forall c :: 0 <= c < |s.procs| ==> s.procs[c].parent != Some(p)
  }

  /** wait's scan is over, and a child that has exited is found. */
  predicate ScanOver(s: State, p: nat) {
    p < |s.procs| && s.procs[p].pc.WaitScan? && |s.procs| <= s.procs[p].pc.i
  }

  predicate Found(s: State, p: nat) {
    && p < |s.procs| && s.procs[p].pc.WaitLook? && s.procs[p].pc.i < |s.procs|
    && s.procs[s.procs[p].pc.i].state == ZOMBIE
  }

  lemma ScanOverIs(s: State, p: nat)
    requires Inv(s) && ScanOver(s, p)
    ensures !s.procs[p].pc.kids <==> NoChild(s, p)
  {
    assert KidsOk(s, p, s.procs[p].pc);
  }

  /** What one step of p in wait's scan answers. */
  lemma ScanAnswers(s: State, p: nat, choice: int)
    requires Inv(s) && CanAdvance(s, p) && InScan(s.procs[p].pc)
    ensures |Step(s, p, choice).procs| == |s.procs|
    ensures var u, s' := s.procs[p], Step(s, p, choice);
      && (s'.procs[p].pc.User? && s'.reaped == s.reaped <==>
            (ScanOver(s, p) && (u.killed || NoChild(s, p))) || (Found(s, p) && choice == 0))
      && (s'.procs[p].pc.User? && s'.reaped != s.reaped <==> Found(s, p) && choice != 0)
      && (s'.procs[p].pc.SleepA? <==> ScanOver(s, p) && !u.killed && !NoChild(s, p))
      && (!s'.procs[p].pc.User? && !s'.procs[p].pc.SleepA? ==> InScan(s'.procs[p].pc))
  {
    assert KidsOk(s, p, s.procs[p].pc) && LocksOk(s, p);
    if ScanOver(s, p) {
      ScanOverIs(s, p);
    } else if Found(s, p) {
      assert PidOk(s.procs[s.procs[p].pc.i], s.nextpid, s.exits, s.reaped);
    }
  }

  /** p answers its call of wait by action a: with a child that it reaps, or with -1. */
  ghost predicate Answers(s: State, a: Action, p: nat) {
    && a.Advance? && a.p == p < |s.procs|
    && (|| (ScanOver(s, p) && (s.procs[p].killed || NoChild(s, p)))
        || (Found(s, p) && s.procs[s.procs[p].pc.i].parent == Some(p)))
  }

  lemma WaitStep(s: State, a: Action, p: nat)
    requires Inv(s) && Enabled(s, a) && p < |s.procs| && Awaiting(s.procs[p].pc)
    ensures |Apply(s, a).procs| == |s.procs|
    ensures Awaiting(Apply(s, a).procs[p].pc) || (Apply(s, a).procs[p].pc.User? && Answers(s, a, p))
  {
    assert PlaceOk(s.procs[p], p, |s.procs|) && KidsOk(s, p, s.procs[p].pc);
    if a.p != p {
      assert ForkOk(s, a.p);
      OthersLeave(s, a, p);
    } else if a.Advance? && InScan(s.procs[p].pc) {
      ScanAnswers(s, p, a.choice);
    }
  }

  lemma {:induction false} WaitSince(run: seq<State>, acts: seq<Action>, j: nat, k: nat, p: nat)
    requires Run(run, acts) && InCall(run, p, j, k) && acts[j] == Wait(p)
    ensures p < |run[j].procs| == |run[k - 1].procs| == |run[k].procs|
    ensures Awaiting(run[k].procs[p].pc) || (run[k].procs[p].pc.User? && Answers(run[k - 1], acts[k - 1], p))
  {
    assert StepAt(run, acts, k);
    if k > j + 1 {
      WaitSince(run, acts, j, k - 1, p);
      RunInv(run, acts, k - 1);
      WaitStep(run[k - 1], acts[k - 1], p);
    }
  }

  /** When p comes back from wait, it has reaped a child of its own; or it was killed, or has
      no child; or a child of its own has exited and its status could not be copied out. */
  lemma WaitReturns(run: seq<State>, acts: seq<Action>, j: nat, k: nat, p: nat)
    requires Run(run, acts) && InCall(run, p, j, k) && acts[j] == Wait(p) && UserAt(run[k], p)
    ensures p < |run[k - 1].procs| && acts[k - 1].Advance? && acts[k - 1].p == p
    ensures var s, a := run[k - 1], acts[k - 1];
      if run[k].reaped == s.reaped then
        || s.procs[p].killed || NoChild(s, p)
        || (Found(s, p) && s.procs[s.procs[p].pc.i].parent == Some(p) && a.choice == 0)
      else Found(s, p) && Reaps(s, a, s.procs[p].pc.i) && s.procs[s.procs[p].pc.i].parent == Some(p)
  {
    WaitSince(run, acts, j, k, p);
    assert StepAt(run, acts, k);
    RunInv(run, acts, k - 1);
    ScanAnswers(run[k - 1], p, acts[k - 1].choice);
  }

  // ----- kfork

  /** p is in kfork with the new process np, to which it gave this pid. */
  ghost predicate Making(s: State, p: nat, np: nat, pid: nat) {
    && p < |s.procs| && np < |s.procs| && Forking(s.procs[p].pc) && s.procs[p].pc.np == np
    && s.procs[np].pid == pid && s.procs[np].pc.User?
  }

  /** kfork comes back: without a child, or with one that can run. */
  predicate Made(s: State, p: nat, np: nat, pid: nat) {
    && p < |s.procs| && np < |s.procs| && s.procs[p].pc.User?
    && (|| s.procs[np] == Freed()
        || (&& s.procs[np].state == RUNNABLE && s.procs[np].parent == Some(p) && s.procs[np].pid == pid
            && s.procs[np].pc.User?))
  }

  lemma MakeOwn(s: State, p: nat, choice: int, np: nat, pid: nat)
    requires CanAdvance(s, p) && Making(s, p, np, pid) && ForkOk(s, p)
    ensures Making(Step(s, p, choice), p, np, pid) || Made(Step(s, p, choice), p, np, pid)
    ensures !Making(Step(s, p, choice), p, np, pid) ==>
      (Step(s, p, choice).procs[np] == Freed() <==> s.procs[p].pc.ForkHave? && choice == 0)
  {
  }

  lemma MakeOthers(s: State, a: Action, p: nat, np: nat, pid: nat)
    requires Inv(s) && Enabled(s, a) && Making(s, p, np, pid) && a.p != p
    ensures Making(Apply(s, a), p, np, pid)
  {
    assert ForkOk(s, p) && PlaceOk(s.procs[p], p, |s.procs|) && PlaceOk(s.procs[np], np, |s.procs|);
    assert ForkOk(s, a.p) && ForksApart(s, p, a.p);
    OthersLeave(s, a, p);
    if a.p != np {
      OthersLeave(s, a, np);
    }
  }

  lemma MakeStep(s: State, a: Action, p: nat, np: nat, pid: nat)
    requires Inv(s) && Enabled(s, a) && Making(s, p, np, pid)
    ensures Making(Apply(s, a), p, np, pid) || Made(Apply(s, a), p, np, pid)
    ensures !Making(Apply(s, a), p, np, pid) ==>
      a.Advance? && a.p == p && (Apply(s, a).procs[np] == Freed() <==> s.procs[p].pc.ForkHave? && a.choice == 0)
  {
    assert ForkOk(s, p);
    if a.p != p {
      MakeOthers(s, a, p, np, pid);
    } else if a.Advance? {
      MakeOwn(s, p, a.choice, np, pid);
    }
  }

  lemma {:induction false} ForkSince(run: seq<State>, acts: seq<Action>, j: nat, k: nat, p: nat, np: nat)
    requires Run(run, acts) && InCall(run, p, j, k) && acts[j] == Fork(p, np)
    ensures Making(run[k], p, np, run[j].nextpid) || Made(run[k], p, np, run[j].nextpid)
    ensures !Making(run[k], p, np, run[j].nextpid) ==>
      && k > j + 1 && acts[k - 1].Advance? && acts[k - 1].p == p < |run[k - 1].procs|
      && (run[k].procs[np] == Freed() <==> run[k - 1].procs[p].pc.ForkHave? && acts[k - 1].choice == 0)
  {
    assert StepAt(run, acts, k);
    if k > j + 1 {
      ForkSince(run, acts, j, k - 1, p, np);
      RunInv(run, acts, k - 1);
      MakeStep(run[k - 1], acts[k - 1], p, np, run[j].nextpid);
    } else {
      RunInv(run, acts, j);
      assert PlaceOk(run[j].procs[np], np, |run[j].procs|);
    }
  }

  /** When p comes back from fork, its new process can run, is its child and has the next pid;
      or memory ran out and the entry is free again. */
  lemma ForkReturns(run: seq<State>, acts: seq<Action>, j: nat, k: nat, p: nat, np: nat)
    requires Run(run, acts) && InCall(run, p, j, k) && acts[j] == Fork(p, np) && UserAt(run[k], p)
    ensures np < |run[k].procs| && acts[k - 1].Advance? && acts[k - 1].p == p < |run[k - 1].procs|
    ensures if run[k - 1].procs[p].pc.ForkHave? && acts[k - 1].choice == 0 then run[k].procs[np] == Freed()
      else
        && run[k].procs[np].state == RUNNABLE && run[k].procs[np].parent == Some(p)
        && run[k].procs[np].pid == run[j].nextpid
  {
    ForkSince(run, acts, j, k, p, np);
  }

  // ----- kexit

  /** In kexit, called with this status, and not yet a zombie. */
  predicate OnWay(u: Proc, pid: nat, status: int) {
    Exiting(u.pc) && u.state != ZOMBIE && u.pid == pid && u.status == status
  }

  predicate IsZombie(u: Proc, pid: nat, status: int) {
    u.state == ZOMBIE && u.pid == pid && u.xstate == status
  }

  /** p is on its way out, or a zombie, or was reaped: always with this status. */
  predicate Leaving(s: State, p: nat, pid: nat, status: int) {
    || (p < |s.procs| && (OnWay(s.procs[p], pid, status) || IsZombie(s.procs[p], pid, status)))
    || (pid in s.reaped && s.reaped[pid] == status)
  }

  lemma OnWayStep(s: State, a: Action, p: nat, pid: nat, status: int)
    requires Inv(s) && Enabled(s, a) && p < |s.procs| && OnWay(s.procs[p], pid, status)
    ensures |Apply(s, a).procs| == |s.procs|
    ensures OnWay(Apply(s, a).procs[p], pid, status) || IsZombie(Apply(s, a).procs[p], pid, status)
  {
    assert PlaceOk(s.procs[p], p, |s.procs|);
    if a.p != p {
      assert ForkOk(s, a.p);
      OthersLeave(s, a, p);
    } else if a.Advance? {
      OwnExit(s, p, a.choice, pid, status);
    }
  }

  lemma OwnExit(s: State, p: nat, choice: int, pid: nat, status: int)
    requires CanAdvance(s, p) && OnWay(s.procs[p], pid, status)
    ensures |Step(s, p, choice).procs| == |s.procs|
    ensures OnWay(Step(s, p, choice).procs[p], pid, status) || IsZombie(Step(s, p, choice).procs[p], pid, status)
  {
  }

  lemma ZombieStep(s: State, a: Action, p: nat, pid: nat, status: int)
    requires Inv(s) && Enabled(s, a) && p < |s.procs| && IsZombie(s.procs[p], pid, status)
    ensures |Apply(s, a).procs| == |s.procs|
    ensures
      || IsZombie(Apply(s, a).procs[p], pid, status)
      || (pid in Apply(s, a).reaped && Apply(s, a).reaped[pid] == status)
  {
    assert PlaceOk(s.procs[p], p, |s.procs|) && ForkOk(s, a.p);
    if a.p == p {
      OwnZombie(s, a, p);
    } else if a.Advance? && s.procs[a.p].pc.WaitLook? && s.procs[a.p].pc.i == p {
      ZombieFound(s, a.p, a.choice, p);
    } else if a.Advance? {
      OthersLeave(s, a, p);
    }
  }

  lemma OwnZombie(s: State, a: Action, p: nat)
    requires Enabled(s, a) && a.p == p && s.procs[p].state == ZOMBIE && PlaceOk(s.procs[p], p, |s.procs|)
    ensures |Apply(s, a).procs| == |s.procs|
    ensures var u, u' := s.procs[p], Apply(s, a).procs[p];
      u'.state == ZOMBIE && u'.pid == u.pid && u'.xstate == u.xstate
  {
  }

  lemma ZombieFound(s: State, p: nat, choice: int, z: nat)
    requires CanAdvance(s, p) && s.procs[p].pc.WaitLook? && s.procs[p].pc.i == z != p && s.procs[z].state == ZOMBIE
    ensures var s', u := Step(s, p, choice), s.procs[z];
      && |s'.procs| == |s.procs|
      && if choice == 0 then s'.procs[z] == u.(lock := Free) else s'.reaped == s.reaped[u.pid := u.xstate]
  {
  }

  lemma ExitBegins(s: State, p: nat, status: int)
    requires Inv(s) && Enabled(s, Exit(p, status))
    ensures Leaving(Apply(s, Exit(p, status)), p, s.procs[p].pid, status)
  {
    assert PlaceOk(s.procs[p], p, |s.procs|);
  }

  lemma LeaveStep(s: State, a: Action, p: nat, pid: nat, status: int)
    requires Inv(s) && Enabled(s, a) && Leaving(s, p, pid, status)
    ensures Leaving(Apply(s, a), p, pid, status)
  {
    if pid in s.reaped && s.reaped[pid] == status {
      ReapedRecord(s, a);
    } else if s.procs[p].state == ZOMBIE {
      ZombieStep(s, a, p, pid, status);
    } else {
      OnWayStep(s, a, p, pid, status);
    }
  }

  /** Once it has called exit, a process does not come back from it; and what wait reports of it,
      if it ever does, is the status that exit was called with. */
  lemma {:induction false} ExitReported(run: seq<State>, acts: seq<Action>, j: nat, k: nat, p: nat, status: int)
    requires Run(run, acts) && j < k < |run| && acts[j] == Exit(p, status)
    ensures p < |run[j].procs| && Leaving(run[k], p, run[j].procs[p].pid, status)
  {
    assert StepAt(run, acts, k);
    RunInv(run, acts, k - 1);
    if k > j + 1 {
      ExitReported(run, acts, j, k - 1, p, status);
      LeaveStep(run[k - 1], acts[k - 1], p, run[j].procs[p].pid, status);
    } else {
      ExitBegins(run[j], p, status);
    }
  }

  // ----- who is whose parent

  lemma ForkParents(s: State, p: nat, choice: int, c: nat)
    requires CanAdvance(s, p) && c < |s.procs| && s.procs[c].parent.Some? && Forking(s.procs[p].pc) && ForkOk(s, p)
    ensures |Step(s, p, choice).procs| == |s.procs| && Step(s, p, choice).procs[c].parent == s.procs[c].parent
  {
  }

  lemma ExitParents(s: State, p: nat, choice: int, c: nat)
    requires CanAdvance(s, p) && c < |s.procs| && Exiting(s.procs[p].pc)
    ensures |Step(s, p, choice).procs| == |s.procs|
    ensures Step(s, p, choice).procs[c].parent ==
      if s.procs[p].pc == Reparent(c) && s.procs[c].parent == Some(p) then Some(INIT) else s.procs[c].parent
  {
  }

  lemma SleepParents(s: State, p: nat, choice: int, c: nat)
    requires CanAdvance(s, p) && c < |s.procs|
    requires !Forking(s.procs[p].pc) && !Exiting(s.procs[p].pc) && !InScan(s.procs[p].pc)
    ensures |Step(s, p, choice).procs| == |s.procs| && Step(s, p, choice).procs[c].parent == s.procs[c].parent
  {
    if c != p {
      SleepLeaves(s, p, choice, c);
    }
  }

  lemma ScanParents(s: State, p: nat, choice: int, c: nat)
    requires CanAdvance(s, p) && c < |s.procs| && InScan(s.procs[p].pc)
    ensures |Step(s, p, choice).procs| == |s.procs|
    ensures
      || Step(s, p, choice).procs[c].parent == s.procs[c].parent
      || (Found(s, p) && s.procs[p].pc.i == c && choice != 0 && (c != p ==> Step(s, p, choice).procs[c] == Freed()))
  {
  }

  lemma StepParents(s: State, p: nat, choice: int, c: nat)
    requires Inv(s) && CanAdvance(s, p) && c < |s.procs| && s.procs[c].parent.Some?
    ensures |Step(s, p, choice).procs| == |s.procs|
    ensures var s', q := Step(s, p, choice), s.procs[c].parent.value;
      || s'.procs[c].parent == Some(q)
      || (p == q && s.procs[p].pc == Reparent(c) && s'.procs[c].parent == Some(INIT))
      || (p == q && Reaps(s, Advance(p, choice), c) && s'.procs[c] == Freed())
  {
    assert KidsOk(s, p, s.procs[p].pc) && ForkOk(s, p) && KinOk(s, c);
    if Forking(s.procs[p].pc) {
      ForkParents(s, p, choice, c);
    } else if Exiting(s.procs[p].pc) {
      ExitParents(s, p, choice, c);
    } else if InScan(s.procs[p].pc) {
      ScanParents(s, p, choice, c);
    } else {
      SleepParents(s, p, choice, c);
    }
  }

  /** A child stays its parent's until the parent exits and hands it over to init, or reaps it. */
  lemma ChildKept(run: seq<State>, acts: seq<Action>, k: nat, c: nat, q: nat)
    requires Run(run, acts) && k < |acts| && c < |run[k].procs| && run[k].procs[c].parent == Some(q)
    ensures |run[k + 1].procs| == |run[k].procs|
    ensures
      || run[k + 1].procs[c].parent == Some(q)
      || (q < |run[k].procs| && run[k].procs[q].pc == Reparent(c) && run[k + 1].procs[c].parent == Some(INIT))
      || (Reaps(run[k], acts[k], c) && acts[k].p == q && run[k + 1].procs[c] == Freed())
  {
    RunInv(run, acts, k);
    assert StepAt(run, acts, k + 1);
    if acts[k].Advance? {
      StepParents(run[k], acts[k].p, acts[k].choice, c);
    }
  }

  // ----- sleepers

  lemma StepWakes(s: State, p: nat, choice: int, q: nat)
    requires CanAdvance(s, p) && Spared(s, p, q) && s.procs[q].state == SLEEPING && Exiting(s.procs[p].pc)
    ensures |Step(s, p, choice).procs| == |s.procs|
    ensures Step(s, p, choice).procs[q].state == RUNNABLE <==>
      || (s.procs[p].pc.InitLook? && s.procs[p].pc.j == q && s.procs[q].chan == Some(INIT))
      || (s.procs[p].pc.ParLook? && s.procs[p].pc.j == q && s.procs[q].chan == s.procs[p].parent)
  {
  }

  /** A sleeper is woken by what it sleeps for, which in wait is the exit of a child or the
      adoption of one by init; or it is killed. */
  lemma WokenByExit(run: seq<State>, acts: seq<Action>, k: nat, q: nat)
    requires Run(run, acts) && k < |acts| && q < |run[k].procs| && run[k].procs[q].pc.Off?
    requires run[k].procs[q].state == SLEEPING
    ensures |run[k + 1].procs| == |run[k].procs|
    ensures run[k + 1].procs[q].state == SLEEPING || run[k + 1].procs[q].state == RUNNABLE
    ensures run[k + 1].procs[q].state == RUNNABLE <==>
      || acts[k] == Kill(q)
      || (&& acts[k].Advance? && acts[k].p < |run[k].procs|
          && var u := run[k].procs[acts[k].p];
          (u.pc.InitLook? && u.pc.j == q == INIT) || (u.pc.ParLook? && u.pc.j == q && u.parent == Some(q)))
  {
    RunInv(run, acts, k);
    assert StepAt(run, acts, k + 1);
    var s, a := run[k], acts[k];
    assert PlaceOk(s.procs[q], q, |s.procs|) && ForkOk(s, a.p);
    if a.p != q {
      OthersLeave(s, a, q);
      if a.Advance? && Exiting(s.procs[a.p].pc) {
        StepWakes(s, a.p, a.choice, q);
      } else if a.Advance? {
        CalmLeaves(s, a.p, a.choice, q);
      }
    }
  }

  lemma ForkKilled(s: State, p: nat, choice: int)
    requires CanAdvance(s, p) && ForkOk(s, p) && Forking(s.procs[p].pc)
    ensures |Step(s, p, choice).procs| == |s.procs| && Step(s, p, choice).procs[p].killed == s.procs[p].killed
  {
  }

  lemma ExitKilled(s: State, p: nat, choice: int)
    requires CanAdvance(s, p) && Exiting(s.procs[p].pc)
    ensures |Step(s, p, choice).procs| == |s.procs| && Step(s, p, choice).procs[p].killed == s.procs[p].killed
  {
  }

  lemma WaitKilled(s: State, p: nat, choice: int)
    requires CanAdvance(s, p) && !Forking(s.procs[p].pc) && !Exiting(s.procs[p].pc)
    requires s.procs[p].pc.WaitLook? ==> s.procs[p].pc.i != p
    ensures |Step(s, p, choice).procs| == |s.procs| && Step(s, p, choice).procs[p].killed == s.procs[p].killed
  {
  }

  /** A process that exists is killed by kill, and by nothing else, and stays so. */
  lemma KilledByKill(run: seq<State>, acts: seq<Action>, k: nat, p: nat)
    requires Run(run, acts) && k < |acts| && p < |run[k].procs| && (acts[k].p == p || Spared(run[k], acts[k].p, p))
    ensures |run[k + 1].procs| == |run[k].procs|
    ensures run[k + 1].procs[p].killed <==> run[k].procs[p].killed || acts[k] == Kill(p)
  {
    RunInv(run, acts, k);
    assert StepAt(run, acts, k + 1);
    if acts[k].p != p {
      OthersLeave(run[k], acts[k], p);
    } else if acts[k].Advance? {
      assert ForkOk(run[k], p) && LocksOk(run[k], p);
      if Forking(run[k].procs[p].pc) {
        ForkKilled(run[k], p, acts[k].choice);
      } else if Exiting(run[k].procs[p].pc) {
        ExitKilled(run[k], p, acts[k].choice);
      } else {
        WaitKilled(run[k], p, acts[k].choice);
      }
    }
  }

  /** fork and wait wake nobody. */
  lemma CalmLeaves(s: State, p: nat, choice: int, q: nat)
    requires CanAdvance(s, p) && Spared(s, p, q) && !Exiting(s.procs[p].pc)
    ensures |Step(s, p, choice).procs| == |s.procs| && Step(s, p, choice).procs[q].state == s.procs[q].state
  {
    if InScan(s.procs[p].pc) {
      ScanLeaves(s, p, choice, q);
    } else if !Forking(s.procs[p].pc) {
      SleepLeaves(s, p, choice, q);
    }
  }
}
