/** fork, exit and wait come to their ends when nobody holds them up. */
module ExitWaitProgress {
  import opened ExitWait
  import opened ExitWaitTheorems

  /** Steps of p alone, with no failure, lead from s to t in n steps. */
  ghost predicate Leads(s: State, t: State, p: nat, n: nat)
    decreases n
  {
    if n == 0 then t == s else CanAdvance(s, p) && Leads(Step(s, p, 1), t, p, n - 1)
  }

  ghost predicate Reaches(s: State, t: State, p: nat) {
    exists n: nat :: Leads(s, t, p, n)
  }

  lemma {:induction false} LeadsOn(s: State, t: State, u: State, p: nat, n: nat, m: nat)
    requires Leads(s, t, p, n) && Leads(t, u, p, m)
    ensures Leads(s, u, p, n + m)
    decreases n
  {
    if n > 0 {
      LeadsOn(Step(s, p, 1), t, u, p, n - 1, m);
    }
  }

  lemma ReachesOn(s: State, t: State, u: State, p: nat)
    requires Reaches(s, t, p) && Reaches(t, u, p)
    ensures Reaches(s, u, p)
  {
    var n: nat :| Leads(s, t, p, n);
    var m: nat :| Leads(t, u, p, m);
    LeadsOn(s, t, u, p, n, m);
  }

  lemma ReachesOne(s: State, p: nat)
    requires CanAdvance(s, p)
    ensures Reaches(s, Step(s, p, 1), p)
  {
    assert Leads(Step(s, p, 1), Step(s, p, 1), p, 0);
    assert Leads(s, Step(s, p, 1), p, 1);
  }

  /** p runs, and nobody holds the lock of any process. */
  ghost predicate Undisturbed(s: State, p: nat) {
    p < |s.procs| && s.procs[p].state == RUNNING && forall q :: 0 <= q < |s.procs| ==> s.procs[q].lock.Free?
  }

  /** One step, or two, of p. */
  lemma OneStep(s: State, p: nat) returns (t: State)
    requires Inv(s) && CanAdvance(s, p)
    ensures Inv(t) && Reaches(s, t, p) && t == Step(s, p, 1)
  {
    t := Step(s, p, 1);
    ApplyKeeps(s, Advance(p, 1));
    ReachesOne(s, p);
  }

  lemma TwoSteps(s: State, p: nat) returns (t: State)
    requires Inv(s) && CanAdvance(s, p) && CanAdvance(Step(s, p, 1), p)
    ensures Inv(t) && Reaches(s, t, p) && t == Step(Step(s, p, 1), p, 1)
  {
    var s1 := OneStep(s, p);
    t := OneStep(s1, p);
    ReachesOn(s, s1, t, p);
  }

  // ----- wait finds what there is

  /** wait's scan is at entry i. */
  predicate ScanAt(s: State, p: nat, i: nat) {
    p < |s.procs| && s.procs[p].pc.WaitScan? && s.procs[p].pc.i == i
  }

  predicate ExitedChild(s: State, p: nat, c: nat) {
    c < |s.procs| && c != p && s.procs[c].parent == Some(p) && s.procs[c].state == ZOMBIE
  }

  /** p's scan has come to i, and child c, further on, has exited. */
  ghost predicate Finding(s: State, p: nat, i: nat, c: nat) {
    Undisturbed(s, p) && ScanAt(s, p, i) && i <= c && ExitedChild(s, p, c)
  }

  /** The scan's visit to another's child, to a child that has not exited, and to one that has. */
  lemma VisitMiss(s: State, p: nat, i: nat, c: nat)
    requires Finding(s, p, i, c) && s.procs[i].parent != Some(p)
    ensures CanAdvance(s, p) && Finding(Step(s, p, 1), p, i + 1, c) && Step(s, p, 1).reaped == s.reaped
  {
  }

  lemma VisitAlive(s: State, p: nat, i: nat, c: nat)
    requires Finding(s, p, i, c) && i != p && s.procs[i].parent == Some(p) && s.procs[i].state != ZOMBIE
    ensures CanAdvance(s, p) && CanAdvance(Step(s, p, 1), p)
    ensures var t := Step(Step(s, p, 1), p, 1); Finding(t, p, i + 1, c) && t.reaped == s.reaped
  {
    assert Step(s, p, 1).procs[i] == s.procs[i].(lock := By(p));
  }

  lemma VisitReaps(s: State, p: nat, i: nat)
    requires Finding(s, p, i, i) && s.procs[i].pid !in s.reaped
    ensures CanAdvance(s, p) && CanAdvance(Step(s, p, 1), p)
    ensures var t := Step(Step(s, p, 1), p, 1); p < |t.procs| && t.procs[p].pc.User? && t.reaped != s.reaped
  {
    assert Step(s, p, 1).procs[i] == s.procs[i].(lock := By(p));
  }

  /** A wait that is not held up finds a child that has exited, if there is one, and reaps it. */
  lemma {:induction false} WaitFinds(s: State, p: nat, i: nat, c: nat) returns (t: State)
    requires Inv(s) && Finding(s, p, i, c)
    ensures Reaches(s, t, p) && p < |t.procs| && t.procs[p].pc.User? && t.reaped != s.reaped
    decreases c - i
  {
    assert KinOk(s, i);
    var s1;
    if ExitedChild(s, p, i) {
      assert PidOk(s.procs[i], s.nextpid, s.exits, s.reaped);
      VisitReaps(s, p, i);
      t := TwoSteps(s, p);
      return;
    } else if s.procs[i].parent == Some(p) {
      VisitAlive(s, p, i, c);
      s1 := TwoSteps(s, p);
    } else {
      VisitMiss(s, p, i, c);
      s1 := OneStep(s, p);
    }
    t := WaitFinds(s1, p, i + 1, c);
    ReachesOn(s, s1, t, p);
  }

  // ----- exit comes to its end

  /** p is in exit, at this place. */
  ghost predicate ExitAt(s: State, p: nat, pc: Pc) {
    Undisturbed(s, p) && s.procs[p].pc == pc && s.procs[p].parent.Some?
  }

  lemma InitVisit(s: State, p: nat, i: nat, j: nat)
    requires ExitAt(s, p, InitScan(i, j)) && j < |s.procs| && j != p
    ensures CanAdvance(s, p) && CanAdvance(Step(s, p, 1), p)
    ensures var t := Step(Step(s, p, 1), p, 1); ExitAt(t, p, InitScan(i, j + 1)) && |t.procs| == |s.procs|
  {
    assert Step(s, p, 1).procs[j] == s.procs[j].(lock := By(p));
  }

  lemma ParVisit(s: State, p: nat, j: nat)
    requires ExitAt(s, p, ParScan(j)) && j < |s.procs| && j != p
    ensures CanAdvance(s, p) && CanAdvance(Step(s, p, 1), p)
    ensures var t := Step(Step(s, p, 1), p, 1); ExitAt(t, p, ParScan(j + 1)) && |t.procs| == |s.procs|
  {
    assert Step(s, p, 1).procs[j] == s.procs[j].(lock := By(p));
  }

  lemma ScanPast(s: State, p: nat)
    requires Undisturbed(s, p) && s.procs[p].parent.Some?
    requires var pc := s.procs[p].pc;
      (pc.InitScan? || pc.ParScan?) && (pc.j == p || (pc.InitScan? && |s.procs| <= pc.j))
    ensures CanAdvance(s, p)
    ensures var pc, t := s.procs[p].pc, Step(s, p, 1);
      && |t.procs| == |s.procs|
      && ExitAt(t, p, if pc.ParScan? then ParScan(p + 1)
                      else if pc.j == p then InitScan(pc.i, p + 1) else Reparent(pc.i + 1))
  {
  }

  lemma {:induction false} InitScanEnds(s: State, p: nat, i: nat, j: nat) returns (t: State)
    requires Inv(s) && ExitAt(s, p, InitScan(i, j)) && j <= |s.procs|
    ensures Inv(t) && Reaches(s, t, p) && ExitAt(t, p, Reparent(i + 1)) && |t.procs| == |s.procs|
    decreases |s.procs| - j
  {
    if j == |s.procs| {
      ScanPast(s, p);
      t := OneStep(s, p);
      return;
    }
    var s1;
    if j == p {
      ScanPast(s, p);
      s1 := OneStep(s, p);
    } else {
      InitVisit(s, p, i, j);
      s1 := TwoSteps(s, p);
    }
    t := InitScanEnds(s1, p, i, j + 1);
    ReachesOn(s, s1, t, p);
  }

  lemma {:induction false} ParScanEnds(s: State, p: nat, j: nat) returns (t: State)
    requires Inv(s) && ExitAt(s, p, ParScan(j)) && j <= |s.procs|
    ensures Inv(t) && Reaches(s, t, p) && ExitAt(t, p, ParScan(|t.procs|)) && |t.procs| == |s.procs|
    decreases |s.procs| - j
  {
    if j == |s.procs| {
      assert Leads(s, s, p, 0);
      return s;
    }
    var s1;
    if j == p {
      ScanPast(s, p);
      s1 := OneStep(s, p);
    } else {
      ParVisit(s, p, j);
      s1 := TwoSteps(s, p);
    }
    t := ParScanEnds(s1, p, j + 1);
    ReachesOn(s, s1, t, p);
  }

  lemma ReparentVisit(s: State, p: nat, i: nat)
    requires ExitAt(s, p, Reparent(i)) && s.procs[p].parent != Some(p)
    ensures CanAdvance(s, p)
    ensures var t := Step(s, p, 1);
      && |t.procs| == |s.procs|
      && ExitAt(t, p, if |s.procs| <= i then ParScan(0)
                      else if s.procs[i].parent == Some(p) then InitScan(i, 0) else Reparent(i + 1))
  {
  }

  lemma {:induction false} ReparentEnds(s: State, p: nat, i: nat) returns (t: State)
    requires Inv(s) && ExitAt(s, p, Reparent(i)) && i <= |s.procs|
    ensures Inv(t) && Reaches(s, t, p) && ExitAt(t, p, ParScan(0)) && |t.procs| == |s.procs|
    decreases |s.procs| - i
  {
    assert KinOk(s, p);
    ReparentVisit(s, p, i);
    var s1 := OneStep(s, p);
    if i == |s.procs| {
      return s1;
    }
    var s2 := s1;
    if s1.procs[p].pc.InitScan? {
      s2 := InitScanEnds(s1, p, i, 0);
      ReachesOn(s, s1, s2, p);
    }
    t := ReparentEnds(s2, p, i + 1);
    ReachesOn(s, s2, t, p);
  }

  lemma Marks(s: State, p: nat)
    requires ExitAt(s, p, ParScan(|s.procs|))
    ensures CanAdvance(s, p) && CanAdvance(Step(s, p, 1), p)
    ensures var t := Step(Step(s, p, 1), p, 1);
      |t.procs| == |s.procs| && t.procs[p].pc.ExitDrop? && t.procs[p].state == ZOMBIE
  {
  }

  /** The last steps: p takes its own lock, is marked, drops wait_lock and switches away. */
  lemma Dies(s: State, p: nat) returns (t: State)
    requires Inv(s) && ExitAt(s, p, ParScan(|s.procs|))
    ensures Reaches(s, t, p) && p < |t.procs| && t.procs[p].pc.Dead? && t.procs[p].state == ZOMBIE && t.waitLock.None?
  {
    Marks(s, p);
    var s1 := TwoSteps(s, p);
    t := TwoSteps(s1, p);
    ReachesOn(s, s1, t, p);
  }

  /** An exit that is not held up makes the process a zombie, whose stack nobody uses any more. */
  lemma ExitEnds(s: State, p: nat) returns (t: State)
    requires Inv(s) && Undisturbed(s, p) && s.procs[p].pc.ExitWant? && s.waitLock.None?
    ensures Reaches(s, t, p) && p < |t.procs| && t.procs[p].pc.Dead? && t.procs[p].state == ZOMBIE && t.waitLock.None?
  {
    assert KinOk(s, p);
    var s1 := OneStep(s, p);
    var s2 := ReparentEnds(s1, p, 0);
    ReachesOn(s, s1, s2, p);
    var s3 := ParScanEnds(s2, p, 0);
    ReachesOn(s, s2, s3, p);
    t := Dies(s3, p);
    ReachesOn(s, s3, t, p);
  }

  // ----- fork comes back

  /** kfork up to its hold of wait_lock, and from there on. */
  lemma ForkLocks(s: State, p: nat, np: nat)
    requires p < |s.procs| && np < |s.procs| && np != p && s.procs[p].pc == ForkHave(np) && s.procs[p].state == RUNNING
    requires s.waitLock.None?
    ensures CanAdvance(s, p) && CanAdvance(Step(s, p, 1), p)
    ensures var t := Step(Step(s, p, 1), p, 1);
      && |t.procs| == |s.procs| && t.procs[p].pc == ForkSet(np) && t.procs[p].state == RUNNING && t.procs[np].lock.Free?
  {
  }

  lemma ForkSets(s: State, p: nat, np: nat)
    requires p < |s.procs| && np < |s.procs| && np != p && s.procs[p].pc == ForkSet(np) && s.procs[p].state == RUNNING
    requires s.procs[np].lock.Free?
    ensures CanAdvance(s, p) && CanAdvance(Step(s, p, 1), p)
    ensures var t := Step(Step(s, p, 1), p, 1);
      && |t.procs| == |s.procs| && t.procs[p].pc.User? && t.waitLock.None?
      && t.procs[np].state == RUNNABLE && t.procs[np].parent == Some(p)
  {
  }

  /** A fork that has its memory and is not held up comes back with a child that can run. */
  lemma ForkEnds(s: State, p: nat, np: nat) returns (t: State)
    requires Inv(s) && p < |s.procs| && s.procs[p].pc == ForkHave(np) && s.procs[p].state == RUNNING && s.waitLock.None?
    ensures Reaches(s, t, p) && p < |t.procs| && np < |t.procs| && t.procs[p].pc.User?
    ensures t.procs[np].state == RUNNABLE && t.procs[np].parent == Some(p) && t.waitLock.None?
  {
    assert ForkOk(s, p);
    ForkLocks(s, p, np);
    var s1 := TwoSteps(s, p);
    ForkSets(s1, p, np);
    t := TwoSteps(s1, p);
    ReachesOn(s, s1, t, p);
  }
}
