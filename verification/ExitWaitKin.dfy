/** The steps that change kinship: birth, adoption, exit and reaping.  Each moves p and
    changes the entry of one j; what it has to answer for is said once, concern by concern. */
module ExitWaitKin {
  import opened ExitWait
  import opened ExitWaitProofs

  /** Every entry but those of p and j is as it was. */
  ghost predicate Touches(s: State, s': State, p: nat, j: nat) {
    && p < |s.procs| && j < |s.procs| && |s'.procs| == |s.procs| && INIT < |s.procs|
    && forall c :: 0 <= c < |s.procs| && c != p && c != j ==> s'.procs[c] == s.procs[c]
  }

  // ----- forks

  /** No half-made child of another process is touched. */
  ghost predicate ForkChange(s: State, s': State, p: nat, j: nat)
    requires Touches(s, s', p, j)
  {
    var a, a', b, b' := s.procs[p], s'.procs[p], s.procs[j], s'.procs[j];
    var mine := b.state != USED || (Forking(a.pc) && a.pc.np == j);
    && ForkOk(s', p) && ForkOk(s', j) && a.state != USED && (mine || b.parent == Some(p))
    && (Forking(a'.pc) ==> a'.pc.np == j && mine)
    && (Forking(b'.pc) ==> p != j && b'.pc == b.pc)
  }

  lemma ChangeForks(s: State, s': State, p: nat, j: nat)
    requires Forks(s) && Touches(s, s', p, j) && ForkChange(s, s', p, j)
    ensures Forks(s')
  {
    forall q | 0 <= q < |s.procs| ensures ForkOk(s', q) {
      assert ForkOk(s, q) && ForksApart(s, p, q);
    }
    forall q, r | 0 <= q < |s.procs| && 0 <= r < |s.procs| ensures ForksApart(s', q, r) {
      assert ForksApart(s, q, r) && ForkOk(s, q) && ForkOk(s, r);
    }
  }

  // ----- family

  ghost predicate NoChild(s: State, p: nat) {
    forall c :: 0 <= c < |s.procs| ==> s.procs[c].parent != Some(p)
  }

  /** p and j keep their kin, init is intact, and whoever dies has no child. */
  ghost predicate FamilyChange(s: State, s': State, p: nat, j: nat)
    requires Touches(s, s', p, j)
  {
    && KinOk(s', p) && KinOk(s', j)
    && Live(s'.procs[INIT].state) && !Exiting(s'.procs[INIT].pc) && s'.procs[INIT].parent.None?
    && (Live(s.procs[p].state) ==> Live(s'.procs[p].state) || NoChild(s, p))
    && (Live(s.procs[j].state) ==> Live(s'.procs[j].state) || NoChild(s, j))
  }

  lemma ChangeFamily(s: State, s': State, p: nat, j: nat)
    requires Family(s) && Touches(s, s', p, j) && FamilyChange(s, s', p, j)
    ensures Family(s')
  {
    forall c | 0 <= c < |s.procs| ensures KinOk(s', c) {
      assert KinOk(s, c);
    }
  }

  // ----- scans and waits

  /** j gets a parent, or becomes the zombie of its parent. */
  predicate Handed(b: Proc, b': Proc) {
    b'.parent.Some? && (b'.parent != b.parent || (b'.state == ZOMBIE && b.state != ZOMBIE))
  }

  /** p's kin change only where p is j. */
  predicate Steady(a: Proc, a': Proc) {
    a'.parent == a.parent && (a'.state == ZOMBIE ==> a.state == ZOMBIE)
  }

  /** Whoever gets a child or a zombie is in no scan, as scans hold wait_lock; p's own scans go on to j only. */
  ghost predicate ScanChange(s: State, s': State, p: nat, j: nat)
    requires Touches(s, s', p, j)
  {
    var a, a', b, b', n := s.procs[p], s'.procs[p], s.procs[j], s'.procs[j], |s.procs|;
    && (p != j ==> Steady(a, a')) && Scanned(a'.pc, n) == 0
    && Orphaned(b'.pc, n) <= Orphaned(b.pc, n) && Scanned(b'.pc, n) <= Scanned(b.pc, n)
    && (|| Orphaned(a'.pc, n) <= Orphaned(a.pc, n)
        || (Orphaned(a'.pc, n) == j + 1 == Orphaned(a.pc, n) + 1 && b'.parent != Some(p)))
    && (Handed(b, b') ==> b'.parent.value < n && !HasWaitLock(s'.procs[b'.parent.value].pc))
  }

  lemma ChangeScans(s: State, s': State, p: nat, j: nat)
    requires Reparented(s) && Scans(s) && Touches(s, s', p, j) && ScanChange(s, s', p, j)
    ensures Reparented(s') && Scans(s')
  {
    forall q, c | 0 <= q < |s.procs| && 0 <= c < |s.procs| ensures OrphanOk(s', q, c) && ScanOk(s', q, c) {
      assert OrphanOk(s, q, c) && ScanOk(s, q, c);
    }
  }

  /** Only p loses a child, and neither p nor whoever gets one is in wait's scan. */
  ghost predicate KidChange(s: State, s': State, p: nat, j: nat)
    requires Touches(s, s', p, j)
  {
    var a, a', b, b' := s.procs[p], s'.procs[p], s.procs[j], s'.procs[j];
    && (p != j ==> a'.parent == a.parent) && !InScan(a'.pc) && (InScan(b'.pc) ==> p != j && b'.pc == b.pc)
    && (b'.parent != b.parent ==>
          && (b.parent.Some? ==> b.parent == Some(p))
          && (b'.parent.Some? ==> b'.parent.value < |s.procs| && !InScan(s'.procs[b'.parent.value].pc)))
  }

  lemma ChangeKids(s: State, s': State, p: nat, j: nat)
    requires Kids(s) && Touches(s, s', p, j) && KidChange(s, s', p, j)
    ensures Kids(s')
  {
    forall q | 0 <= q < |s.procs| ensures KidsOk(s', q, s'.procs[q].pc) {
      assert KidsOk(s, q, s.procs[q].pc);
      if InScan(s'.procs[q].pc) {
        assert HasChild(s', q, s'.procs[q].pc.i) <==> HasChild(s, q, s.procs[q].pc.i) by {
          assert forall c :: 0 <= c < |s.procs| ==> (s'.procs[c].parent == Some(q) <==> s.procs[c].parent == Some(q));
        }
      }
    }
  }

  /** Has not passed its parent in waking it. */
  predicate Unpassed(pc: Pc) {
    !pc.ExitMark? && !pc.ParScan? && !pc.ParLook?
  }

  /** Nobody starts to wait, and whoever gets a zombie does not wait, or is init about to be woken. */
  ghost predicate WaitChange(s: State, s': State, p: nat, j: nat)
    requires Touches(s, s', p, j)
  {
    var a, a', b, b' := s.procs[p], s'.procs[p], s.procs[j], s'.procs[j];
    && (p != j ==> Steady(a, a')) && (InitWakerComing(s) ==> InitWakerComing(s'))
    && (Waiting(a', p) ==> Waiting(a, p)) && (Waiting(b', j) ==> Waiting(b, j))
    && Unpassed(a'.pc) && Unpassed(b'.pc)
    && (Handed(b, b') && b'.state == ZOMBIE ==>
          var r := b'.parent.value;
          r < |s.procs| && (Waiting(s'.procs[r], r) ==> r == INIT && InitWakerComing(s')))
  }

  lemma ChangeWaits(s: State, s': State, p: nat, j: nat)
    requires NoLostExit(s) && ParentsWoken(s) && Touches(s, s', p, j) && WaitChange(s, s', p, j)
    ensures NoLostExit(s') && ParentsWoken(s')
  {
    forall q, c | 0 <= q < |s.procs| && 0 <= c < |s.procs| ensures ExitSeen(s', q, c) && WokenOk(s', q, c) {
      assert ExitSeen(s, q, c) && WokenOk(s, q, c);
    }
  }

  // ----- process ids

  /** p keeps its id; j keeps its own, gives it up or gets the next; one status is recorded or collected. */
  ghost predicate PidChange(s: State, s': State, p: nat, j: nat)
    requires Touches(s, s', p, j)
  {
    var a, a', b, b' := s.procs[p], s'.procs[p], s.procs[j], s'.procs[j];
    && PidOk(a', s'.nextpid, s'.exits, s'.reaped) && PidOk(b', s'.nextpid, s'.exits, s'.reaped)
    && a.state != UNUSED && a'.pid == a.pid && s.nextpid <= s'.nextpid
    && (b'.state == UNUSED || (b.state != UNUSED && b'.pid == b.pid) || b'.pid == s.nextpid)
    && (s'.exits == s.exits || s'.exits == s.exits[a.pid := a'.xstate])
    && (|| s'.reaped == s.reaped
        || (b.state == ZOMBIE && b'.state == UNUSED && s'.reaped == s.reaped[b.pid := b.xstate] && s'.exits == s.exits))
  }

  lemma ChangePids(s: State, s': State, p: nat, j: nat)
    requires Pids(s) && Touches(s, s', p, j) && PidChange(s, s', p, j)
    ensures Pids(s')
  {
    assert PidOk(s.procs[p], s.nextpid, s.exits, s.reaped) && PidOk(s.procs[j], s.nextpid, s.exits, s.reaped);
    forall q | 0 <= q < |s.procs| ensures PidOk(s'.procs[q], s'.nextpid, s'.exits, s'.reaped) {
      assert PidOk(s.procs[q], s.nextpid, s.exits, s.reaped) && PidsApart(s, j, q) && PidsApart(s, p, q);
    }
    forall q, r | 0 <= q < |s.procs| && 0 <= r < |s.procs| ensures PidsApart(s', q, r) {
      assert PidsApart(s, q, r);
      assert PidOk(s.procs[q], s.nextpid, s.exits, s.reaped) && PidOk(s.procs[r], s.nextpid, s.exits, s.reaped);
    }
  }

  // ----- together

  ghost predicate Change(s: State, s': State, p: nat, j: nat) {
    && Touches(s, s', p, j) && ForkChange(s, s', p, j) && FamilyChange(s, s', p, j)
    && ScanChange(s, s', p, j) && KidChange(s, s', p, j) && WaitChange(s, s', p, j) && PidChange(s, s', p, j)
  }

  lemma ChangeKeeps(s: State, s': State, p: nat, j: nat)
    requires Inv(s) && Locks(s') && Places(s') && Change(s, s', p, j)
    ensures Inv(s')
  {
    ChangeForks(s, s', p, j);
    ChangeFamily(s, s', p, j);
    ChangeScans(s, s', p, j);
    ChangeKids(s, s', p, j);
    ChangeWaits(s, s', p, j);
    ChangePids(s, s', p, j);
  }

  /** What the invariant says of one process, and of init. */
  ghost predicate Sound(s: State, p: nat) {
    && p < |s.procs| && Family(s)
    && LocksOk(s, p) && PlaceOk(s.procs[p], p, |s.procs|) && ForkOk(s, p) && KinOk(s, p)
    && PidOk(s.procs[p], s.nextpid, s.exits, s.reaped)
  }

  lemma HistoryLocks(s: State, s': State)
    requires Locks(s) && Places(s) && s'.procs == s.procs && s'.waitLock == s.waitLock
    ensures Locks(s') && Places(s')
  {
    forall q | 0 <= q < |s.procs| ensures LocksOk(s', q) {
      assert LocksOk(s, q);
    }
  }

  lemma ForkFailChange(s: State, p: nat, j: nat)
    requires Locks(s) && Sound(s, p) && Sound(s, j) && CanAdvance(s, p) && s.procs[p].pc == ForkHave(j)
    ensures Change(s, Two(s, p, s.procs[p].(pc := User), j, Freed(), s.waitLock), p, j)
  {
    var s' := Two(s, p, s.procs[p].(pc := User), j, Freed(), s.waitLock);
    assert LocksOk(s, INIT);
    ForkFailScans(s, s', p, j);
  }

  lemma ForkFailScans(s: State, s': State, p: nat, j: nat)
    requires Locks(s) && Sound(s, p) && Sound(s, j) && CanAdvance(s, p) && s.procs[p].pc == ForkHave(j)
    requires s' == Two(s, p, s.procs[p].(pc := User), j, Freed(), s.waitLock) && Touches(s, s', p, j)
    ensures ScanChange(s, s', p, j) && WaitChange(s, s', p, j)
  {
  }

  lemma ForkFailKeeps(s: State, p: nat)
    requires Inv(s) && CanAdvance(s, p) && s.procs[p].pc.ForkHave?
    ensures Inv(Step(s, p, 0))
  {
    var u, j := s.procs[p], s.procs[p].pc.np;
    assert Sound(s, p) && Sound(s, j);
    LeaveLocks(s, p, u.(pc := User), j, Freed(), s.waitLock);
    ForkFailChange(s, p, j);
    ChangeKeeps(s, Two(s, p, u.(pc := User), j, Freed(), s.waitLock), p, j);
    assert Step(s, p, 0) == Two(s, p, u.(pc := User), j, Freed(), s.waitLock);
  }

  lemma ForkSetChange(s: State, p: nat, j: nat)
    requires Locks(s) && Sound(s, p) && Sound(s, j) && CanAdvance(s, p) && s.procs[p].pc == ForkSet(j)
    ensures Change(s, Two(s, p, s.procs[p].(pc := ForkRun(j)), j, s.procs[j].(parent := Some(p)), None), p, j)
  {
  }

  lemma ForkSetKeeps(s: State, p: nat)
    requires Inv(s) && CanAdvance(s, p) && s.procs[p].pc.ForkSet?
    ensures Inv(Step(s, p, 0))
  {
    var u, j := s.procs[p], s.procs[p].pc.np;
    assert Sound(s, p) && Sound(s, j);
    var s' := Two(s, p, u.(pc := ForkRun(j)), j, s.procs[j].(parent := Some(p)), None);
    ApartLocks(s, p, u.(pc := ForkRun(j)), j, s.procs[j].(parent := Some(p)), None);
    ForkSetChange(s, p, j);
    ChangeKeeps(s, s', p, j);
    assert Step(s, p, 0) == s';
  }

  lemma ForkRunChange(s: State, p: nat, j: nat)
    requires Locks(s) && Sound(s, p) && Sound(s, j) && CanAdvance(s, p) && s.procs[p].pc == ForkRun(j)
    ensures Change(s, Two(s, p, s.procs[p].(pc := User), j, s.procs[j].(state := RUNNABLE), s.waitLock), p, j)
  {
  }

  lemma ForkRunKeeps(s: State, p: nat)
    requires Inv(s) && CanAdvance(s, p) && s.procs[p].pc.ForkRun?
    ensures Inv(Step(s, p, 0))
  {
    var u, j := s.procs[p], s.procs[p].pc.np;
    assert Sound(s, p) && Sound(s, j);
    var s' := Two(s, p, u.(pc := User), j, s.procs[j].(state := RUNNABLE), s.waitLock);
    ApartLocks(s, p, u.(pc := User), j, s.procs[j].(state := RUNNABLE), s.waitLock);
    ForkRunChange(s, p, j);
    ChangeKeeps(s, s', p, j);
    assert Step(s, p, 0) == s';
  }

  lemma AdoptChange(s: State, p: nat, j: nat)
    requires Locks(s) && Sound(s, p) && Sound(s, j) && CanAdvance(s, p)
    requires s.procs[p].pc == Reparent(j) && s.procs[j].parent == Some(p)
    ensures var u, v := s.procs[p].(pc := InitScan(j, 0)), s.procs[j].(parent := Some(INIT));
      Change(s, Two(s, p, u, j, v, s.waitLock), p, j)
  {
    assert LocksOk(s, INIT);
  }

  lemma AdoptLocks(s: State, p: nat, j: nat)
    requires Locks(s) && Places(s) && Sound(s, p) && Sound(s, j) && CanAdvance(s, p)
    requires s.procs[p].pc == Reparent(j) && s.procs[j].parent == Some(p)
    ensures var u, v := s.procs[p].(pc := InitScan(j, 0)), s.procs[j].(parent := Some(INIT));
      Locks(Two(s, p, u, j, v, s.waitLock)) && Places(Two(s, p, u, j, v, s.waitLock))
  {
    ApartLocks(s, p, s.procs[p].(pc := InitScan(j, 0)), j, s.procs[j].(parent := Some(INIT)), s.waitLock);
  }

  lemma AdoptKeeps(s: State, p: nat)
    requires Inv(s) && CanAdvance(s, p) && s.procs[p].pc.Reparent? && s.procs[p].pc.i < |s.procs|
    requires s.procs[s.procs[p].pc.i].parent == Some(p)
    ensures Inv(Step(s, p, 0))
  {
    var u, j := s.procs[p], s.procs[p].pc.i;
    assert Sound(s, p) && Sound(s, j);
    var s' := Two(s, p, u.(pc := InitScan(j, 0)), j, s.procs[j].(parent := Some(INIT)), s.waitLock);
    AdoptLocks(s, p, j);
    AdoptChange(s, p, j);
    ChangeKeeps(s, s', p, j);
    assert Step(s, p, 0) == s';
  }

  lemma ExitMarkChange(s: State, p: nat, choice: int)
    requires Locks(s) && Sound(s, p) && CanAdvance(s, p) && s.procs[p].pc.ExitMark? && NoChild(s, p)
    requires var r := s.procs[p].parent; r.Some? ==> r.value < |s.procs| && WokenOk(s, p, r.value)
    ensures Change(s, Step(s, p, choice), p, p)
  {
    if s.procs[p].parent.Some? {
      assert LocksOk(s, s.procs[p].parent.value);
    }
  }

  lemma ExitMarkKeeps(s: State, p: nat, choice: int)
    requires Inv(s) && CanAdvance(s, p) && s.procs[p].pc.ExitMark?
    ensures Inv(Step(s, p, choice))
  {
    var u := s.procs[p];
    assert Sound(s, p);
    var u' := u.(xstate := u.status, state := ZOMBIE, pc := ExitDrop);
    OneLocks(s, p, u', s.waitLock);
    HistoryLocks(One(s, p, u', s.waitLock), Step(s, p, choice));
    forall c | 0 <= c < |s.procs| ensures s.procs[c].parent != Some(p) {
      assert OrphanOk(s, p, c);
    }
    ExitMarkChange(s, p, choice);
    ChangeKeeps(s, Step(s, p, choice), p, p);
  }

  lemma ReapChange(s: State, p: nat, choice: int, j: nat)
    requires Locks(s) && Sound(s, p) && Sound(s, j) && PidsApart(s, p, j) && CanAdvance(s, p)
    requires s.procs[p].pc.WaitLook? && s.procs[p].pc.i == j && s.procs[j].state == ZOMBIE && choice != 0
    requires KidsOk(s, p, s.procs[p].pc)
    ensures Change(s, Step(s, p, choice), p, j)
  {
  }

  lemma ReapKeeps(s: State, p: nat, choice: int)
    requires Inv(s) && CanAdvance(s, p) && s.procs[p].pc.WaitLook? && choice != 0
    requires s.procs[s.procs[p].pc.i].state == ZOMBIE
    ensures Inv(Step(s, p, choice))
  {
    var u, j := s.procs[p], s.procs[p].pc.i;
    assert Sound(s, p) && Sound(s, j) && PidsApart(s, p, j) && KidsOk(s, p, u.pc);
    LeaveLocks(s, p, u.(pc := User), j, Freed(), None);
    HistoryLocks(Two(s, p, u.(pc := User), j, Freed(), None), Step(s, p, choice));
    ReapChange(s, p, choice, j);
    ChangeKeeps(s, Step(s, p, choice), p, j);
  }

  lemma ForkChanges(s: State, p: nat, np: nat)
    requires Locks(s) && Sound(s, p) && Sound(s, np) && Enabled(s, Fork(p, np))
    requires forall i :: i in s.exits ==> i < s.nextpid
    requires forall i :: i in s.reaped ==> i in s.exits
    ensures Change(s, Apply(s, Fork(p, np)), p, np)
  {
  }

  lemma ForkKeeps(s: State, p: nat, np: nat)
    requires Inv(s) && Enabled(s, Fork(p, np))
    ensures Inv(Apply(s, Fork(p, np)))
  {
    var u, s' := s.procs[p], Apply(s, Fork(p, np));
    var v := s.procs[np].(pid := s.nextpid, state := USED, lock := By(p));
    assert Sound(s, p) && Sound(s, np);
    TakeLocks(s, p, u.(pc := ForkHave(np)), np, v, s.waitLock);
    HistoryLocks(Two(s, p, u.(pc := ForkHave(np)), np, v, s.waitLock), s');
    ForkChanges(s, p, np);
    ChangeKeeps(s, s', p, np);
  }
}
