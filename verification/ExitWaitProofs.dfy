/** Every step of the exit/wait machine keeps its invariant. */
module ExitWaitProofs {
  import opened ExitWait

  // ----- steps that leave kinship alone

  /** Same parent, same process, same stage of life. */
  predicate SameKin(u: Proc, v: Proc) {
    && u.parent == v.parent && u.pid == v.pid && u.xstate == v.xstate
    && (u.state == UNUSED <==> v.state == UNUSED) && (u.state == USED <==> v.state == USED)
    && (u.state == ZOMBIE <==> v.state == ZOMBIE)
  }

  /** Only p moves, and nobody is born, dies, or changes parent. */
  ghost predicate Moves(s: State, s': State, p: nat) {
    && |s'.procs| == |s.procs| && p < |s.procs|
    && s'.nextpid == s.nextpid && s'.exits == s.exits && s'.reaped == s.reaped
    && (forall c :: 0 <= c < |s.procs| ==> SameKin(s.procs[c], s'.procs[c]))
    && (forall c :: 0 <= c < |s.procs| && c != p ==> s'.procs[c].pc == s.procs[c].pc)
  }

  lemma MovesFamily(s: State, s': State, p: nat)
    requires Family(s) && Moves(s, s', p) && (p == INIT ==> !Exiting(s'.procs[p].pc))
    ensures Family(s')
  {
    assert SameKin(s.procs[INIT], s'.procs[INIT]);
    forall c | 0 <= c < |s.procs| ensures KinOk(s', c) {
      assert KinOk(s, c) && SameKin(s.procs[c], s'.procs[c]);
      if s.procs[c].parent.Some? {
        assert SameKin(s.procs[s.procs[c].parent.value], s'.procs[s.procs[c].parent.value]);
      }
    }
  }

  lemma MovesPids(s: State, s': State, p: nat)
    requires Pids(s) && Moves(s, s', p)
    ensures Pids(s')
  {
    forall c | 0 <= c < |s.procs| ensures PidOk(s'.procs[c], s.nextpid, s.exits, s.reaped) {
      assert SameKin(s.procs[c], s'.procs[c]) && PidOk(s.procs[c], s.nextpid, s.exits, s.reaped);
    }
    forall c, d | 0 <= c < |s.procs| && 0 <= d < |s.procs| ensures PidsApart(s', c, d) {
      assert PidsApart(s, c, d) && SameKin(s.procs[c], s'.procs[c]) && SameKin(s.procs[d], s'.procs[d]);
    }
  }

  /** p keeps, or leaves, the fork it is in. */
  predicate SameFork(pc: Pc, pc': Pc) {
    Forking(pc') ==> Forking(pc) && pc'.np == pc.np && (pc'.ForkRun? <==> pc.ForkRun?)
  }

  lemma MovesForks(s: State, s': State, p: nat)
    requires Forks(s) && Moves(s, s', p) && SameFork(s.procs[p].pc, s'.procs[p].pc)
    ensures Forks(s')
  {
    forall q | 0 <= q < |s.procs| ensures SameFork(s.procs[q].pc, s'.procs[q].pc) && ForkOk(s', q) {
      assert ForkOk(s, q);
      if Forking(s.procs[q].pc) {
        assert SameKin(s.procs[s.procs[q].pc.np], s'.procs[s.procs[q].pc.np]);
      }
    }
    forall q, r | 0 <= q < |s.procs| && 0 <= r < |s.procs| ensures ForksApart(s', q, r) {
      assert ForksApart(s, q, r) && SameFork(s.procs[q].pc, s'.procs[q].pc) && SameFork(s.procs[r].pc, s'.procs[r].pc);
    }
  }

  /** Entries that p's reparent loop passes in this move are not its children. */
  ghost predicate OrphansOk(s: State, p: nat, pc': Pc)
    requires p < |s.procs|
  {
    forall c :: Orphaned(s.procs[p].pc, |s.procs|) <= c < Orphaned(pc', |s.procs|) && c < |s.procs| ==>
      s.procs[c].parent != Some(p)
  }

  lemma MovesReparented(s: State, s': State, p: nat)
    requires Reparented(s) && Moves(s, s', p) && OrphansOk(s, p, s'.procs[p].pc)
    ensures Reparented(s')
  {
    forall q, c | 0 <= q < |s.procs| && 0 <= c < |s.procs| ensures OrphanOk(s', q, c) {
      assert OrphanOk(s, q, c) && SameKin(s.procs[c], s'.procs[c]);
    }
  }

  /** Entries that p's wait loop passes in this move are not exited children. */
  ghost predicate ChildrenOk(s: State, p: nat, pc': Pc)
    requires p < |s.procs|
  {
    forall c :: Scanned(s.procs[p].pc, |s.procs|) <= c < Scanned(pc', |s.procs|) && c < |s.procs| ==>
      s.procs[c].parent != Some(p) || s.procs[c].state != ZOMBIE
  }

  lemma MovesScans(s: State, s': State, p: nat)
    requires Scans(s) && Moves(s, s', p) && ChildrenOk(s, p, s'.procs[p].pc)
    ensures Scans(s')
  {
    forall q, c | 0 <= q < |s.procs| && 0 <= c < |s.procs| ensures ScanOk(s', q, c) {
      assert ScanOk(s, q, c) && SameKin(s.procs[c], s'.procs[c]);
    }
  }

  lemma MovesKids(s: State, s': State, p: nat)
    requires Kids(s) && Moves(s, s', p) && KidsOk(s, p, s'.procs[p].pc)
    ensures Kids(s')
  {
    forall q | 0 <= q < |s.procs| ensures KidsOk(s', q, s'.procs[q].pc) {
      assert KidsOk(s, q, s.procs[q].pc);
      SameChildren(s, s', p, q, s'.procs[q].pc);
    }
  }

  lemma SameChildren(s: State, s': State, p: nat, q: nat, pc: Pc)
    requires Moves(s, s', p) && KidsOk(s, q, pc)
    ensures KidsOk(s', q, pc)
  {
    assert forall c :: 0 <= c < |s.procs| ==> SameKin(s.procs[c], s'.procs[c]);
    if InScan(pc) {
      assert HasChild(s, q, pc.i) <==> HasChild(s', q, pc.i);
    }
  }

  /** p has no exited child. */
  ghost predicate Childless(s: State, p: nat) {
    forall c :: 0 <= c < |s.procs| && s.procs[c].parent == Some(p) ==> s.procs[c].state != ZOMBIE
  }

  /** Whoever starts to wait has no exited child, and whoever was waking init still is, or init woke. */
  ghost predicate WaitsOk(s: State, s': State) {
    && |s'.procs| == |s.procs| && INIT < |s.procs|
    && (forall c :: 0 <= c < |s.procs| && Waiting(s'.procs[c], c) ==> Waiting(s.procs[c], c) || Childless(s, c))
    && (InitWakerComing(s) ==> InitWakerComing(s') || !Waiting(s'.procs[INIT], INIT))
  }

  lemma MovesNoLost(s: State, s': State, p: nat)
    requires NoLostExit(s) && Moves(s, s', p) && WaitsOk(s, s')
    ensures NoLostExit(s')
  {
    forall q, c | 0 <= q < |s.procs| && 0 <= c < |s.procs| ensures ExitSeen(s', q, c) {
      assert ExitSeen(s, q, c) && SameKin(s.procs[c], s'.procs[c]);
    }
  }

  /** Whoever starts to wait is not passed by an exiting child, and whoever passes its parent woke it. */
  ghost predicate PassOk(s: State, s': State, q: nat, r: nat)
    requires q < |s.procs| == |s'.procs| && r < |s.procs|
  {
    s.procs[q].parent == Some(r) && PastParent(s'.procs[q].pc, r) && Waiting(s'.procs[r], r) ==>
      PastParent(s.procs[q].pc, r) && Waiting(s.procs[r], r)
  }

  lemma MovesWoken(s: State, s': State, p: nat)
    requires ParentsWoken(s) && Moves(s, s', p)
    requires forall q, r :: 0 <= q < |s.procs| && 0 <= r < |s.procs| ==> PassOk(s, s', q, r)
    ensures ParentsWoken(s')
  {
    forall q, r | 0 <= q < |s.procs| && 0 <= r < |s.procs| ensures WokenOk(s', q, r) {
      assert WokenOk(s, q, r) && PassOk(s, s', q, r) && SameKin(s.procs[q], s'.procs[q]);
    }
  }

  /** The frame lemmas together. */
  lemma MovesKeep(s: State, s': State, p: nat)
    requires Inv(s) && Moves(s, s', p) && Locks(s') && Places(s')
    requires (p == INIT ==> !Exiting(s'.procs[p].pc)) && SameFork(s.procs[p].pc, s'.procs[p].pc)
    requires OrphansOk(s, p, s'.procs[p].pc) && ChildrenOk(s, p, s'.procs[p].pc) && WaitsOk(s, s')
    requires KidsOk(s, p, s'.procs[p].pc)
    requires forall q, r :: 0 <= q < |s.procs| && 0 <= r < |s.procs| ==> PassOk(s, s', q, r)
    ensures Inv(s')
  {
    MovesFamily(s, s', p);
    MovesPids(s, s', p);
    MovesForks(s, s', p);
    MovesReparented(s, s', p);
    MovesScans(s, s', p);
    MovesKids(s, s', p);
    MovesNoLost(s, s', p);
    MovesWoken(s, s', p);
  }

  // ----- moves of one process, and of one process at another

  /** wait_lock is kept, taken when free, or given up, as the positions say. */
  predicate WaitLockOk(w: Option<nat>, w': Option<nat>, p: nat, pc: Pc, pc': Pc) {
    || (w' == w && (HasWaitLock(pc) <==> HasWaitLock(pc')))
    || (w.None? && w' == Some(p) && HasWaitLock(pc'))
    || (HasWaitLock(pc) && !HasWaitLock(pc') && w'.None?)
  }

  /** p's own lock after the move, as its position says. */
  predicate OwnLockOk(u: Proc, u': Proc, p: nat) {
    && (u'.lock == By(p) <==> HasOwnLock(u'.pc))
    && (u'.lock.Sched? ==> u'.pc.Off? || u'.pc.Dead?)
    && (u'.lock.By? && u'.lock.q != p ==> u'.lock == u.lock)
    && (u.lock.By? && u.lock.q != p ==> u'.lock == u.lock)
  }

  function One(s: State, p: nat, u: Proc, w: Option<nat>): State
    requires p < |s.procs|
  {
    SetProc(s, p, u).(waitLock := w)
  }

  lemma OneLocks(s: State, p: nat, u: Proc, w: Option<nat>)
    requires Locks(s) && Places(s) && p < |s.procs| && PlaceOk(u, p, |s.procs|)
    requires Target(s.procs[p].pc) == Target(u.pc) && OwnLockOk(s.procs[p], u, p)
    requires WaitLockOk(s.waitLock, w, p, s.procs[p].pc, u.pc)
    ensures Locks(One(s, p, u, w)) && Places(One(s, p, u, w))
  {
    var s' := One(s, p, u, w);
    assert LocksOk(s, p);
    forall q | 0 <= q < |s.procs| ensures LocksOk(s', q) && PlaceOk(s'.procs[q], q, |s.procs|) {
      assert LocksOk(s, q) && PlaceOk(s.procs[q], q, |s.procs|);
    }
  }

  /** What p may newly wait for, wake or pass by moving to u. */
  ghost predicate WatchOk(s: State, p: nat, u: Proc)
    requires p < |s.procs| && INIT < |s.procs|
  {
    var pc := s.procs[p].pc;
    && (Waiting(u, p) ==> Waiting(s.procs[p], p) || (Childless(s, p) && s.waitLock == Some(p)))
    && (forall r :: 0 <= r < |s.procs| && s.procs[p].parent == Some(r) && PastParent(u.pc, r) ==>
          PastParent(pc, r) || !Waiting(s.procs[r], r))
    && ((pc.InitScan? || pc.InitLook?) && pc.j <= INIT ==>
          ((u.pc.InitScan? || u.pc.InitLook?) && u.pc.j <= INIT) || !Waiting(s.procs[INIT], INIT))
  }

  lemma OneWatch(s: State, p: nat, u: Proc, w: Option<nat>)
    requires Inv(s) && p < |s.procs| && WatchOk(s, p, u)
    requires WaitLockOk(s.waitLock, w, p, s.procs[p].pc, u.pc)
    ensures WaitsOk(s, One(s, p, u, w))
    ensures forall q, r :: 0 <= q < |s.procs| && 0 <= r < |s.procs| ==> PassOk(s, One(s, p, u, w), q, r)
  {
    var s' := One(s, p, u, w);
    assert LocksOk(s, p);
    forall q, r | 0 <= q < |s.procs| && 0 <= r < |s.procs| ensures PassOk(s, s', q, r) {
      assert LocksOk(s, q) && KinOk(s, q) && WokenOk(s, q, r);
    }
  }

  /** p may move to u, wait_lock to w. */
  ghost predicate OneOk(s: State, p: nat, u: Proc, w: Option<nat>) {
    && p < |s.procs| && INIT < |s.procs| && PlaceOk(u, p, |s.procs|) && SameKin(s.procs[p], u)
    && Target(s.procs[p].pc) == Target(u.pc) && OwnLockOk(s.procs[p], u, p)
    && WaitLockOk(s.waitLock, w, p, s.procs[p].pc, u.pc)
    && (p == INIT ==> !Exiting(u.pc)) && SameFork(s.procs[p].pc, u.pc)
    && OrphansOk(s, p, u.pc) && ChildrenOk(s, p, u.pc) && KidsOk(s, p, u.pc) && WatchOk(s, p, u)
  }

  lemma OneKeeps(s: State, p: nat, u: Proc, w: Option<nat>)
    requires Inv(s) && OneOk(s, p, u, w)
    ensures Inv(One(s, p, u, w))
  {
    OneLocks(s, p, u, w);
    OneWatch(s, p, u, w);
    MovesKeep(s, One(s, p, u, w), p);
  }

  function Two(s: State, p: nat, u: Proc, j: nat, v: Proc, w: Option<nat>): State
    requires p < |s.procs| && j < |s.procs|
  {
    SetProc(SetProc(s, j, v), p, u).(waitLock := w)
  }

  /** p takes the lock of j. */
  predicate Takes(s: State, p: nat, pc': Pc, j: nat, v: Proc)
    requires p < |s.procs| && j < |s.procs|
  {
    s.procs[j].lock.Free? && v.lock == By(p) && Target(s.procs[p].pc).None? && Target(pc') == Some(j)
  }

  /** p lets go of the lock of j. */
  predicate Leaves(s: State, p: nat, pc': Pc, j: nat, v: Proc)
    requires p < |s.procs| && j < |s.procs|
  {
    Target(s.procs[p].pc) == Some(j) && v.lock.Free? && Target(pc').None?
  }

  /** Positions that hold the same locks. */
  predicate SameLocks(pc: Pc, pc': Pc) {
    Target(pc) == Target(pc') && (HasWaitLock(pc) <==> HasWaitLock(pc')) && (HasOwnLock(pc) <==> HasOwnLock(pc'))
  }

  lemma EntryLocks(s: State, j: nat, v: Proc)
    requires Locks(s) && Places(s) && j < |s.procs| && PlaceOk(v, j, |s.procs|)
    requires v.pc == s.procs[j].pc && v.lock == s.procs[j].lock
    ensures Locks(SetProc(s, j, v)) && Places(SetProc(s, j, v))
  {
    var s' := SetProc(s, j, v);
    forall q | 0 <= q < |s.procs| ensures LocksOk(s', q) && PlaceOk(s'.procs[q], q, |s.procs|) {
      assert LocksOk(s, q) && PlaceOk(s.procs[q], q, |s.procs|);
    }
  }

  /** p moves and j's entry changes, but not the locks on either. */
  lemma ApartLocks(s: State, p: nat, u: Proc, j: nat, v: Proc, w: Option<nat>)
    requires Locks(s) && Places(s) && p < |s.procs| && j < |s.procs| && j != p
    requires PlaceOk(u, p, |s.procs|) && PlaceOk(v, j, |s.procs|) && v.pc == s.procs[j].pc && v.lock == s.procs[j].lock
    requires Target(s.procs[p].pc) == Target(u.pc) && OwnLockOk(s.procs[p], u, p)
    requires WaitLockOk(s.waitLock, w, p, s.procs[p].pc, u.pc)
    ensures Locks(Two(s, p, u, j, v, w)) && Places(Two(s, p, u, j, v, w))
  {
    EntryLocks(s, j, v);
    OneLocks(SetProc(s, j, v), p, u, w);
  }

  lemma TakeOthers(s: State, p: nat, u: Proc, j: nat, v: Proc, w: Option<nat>, q: nat)
    requires Locks(s) && p < |s.procs| && j < |s.procs| && j != p && q < |s.procs| && q != p && q != j
    requires v.pc == s.procs[j].pc && u.lock == s.procs[p].lock
    requires WaitLockOk(s.waitLock, w, p, s.procs[p].pc, u.pc) && Takes(s, p, u.pc, j, v)
    ensures LocksOk(Two(s, p, u, j, v, w), q)
  {
    assert LocksOk(s, q) && LocksOk(s, p) && LocksOk(s, j);
  }

  lemma TakeLocks(s: State, p: nat, u: Proc, j: nat, v: Proc, w: Option<nat>)
    requires Locks(s) && Places(s) && p < |s.procs| && j < |s.procs| && j != p
    requires PlaceOk(u, p, |s.procs|) && PlaceOk(v, j, |s.procs|) && v.pc == s.procs[j].pc
    requires u.lock == s.procs[p].lock && !HasOwnLock(u.pc) && u.lock != By(p) && !u.lock.Sched?
    requires WaitLockOk(s.waitLock, w, p, s.procs[p].pc, u.pc) && Takes(s, p, u.pc, j, v)
    ensures Locks(Two(s, p, u, j, v, w)) && Places(Two(s, p, u, j, v, w))
  {
    var s' := Two(s, p, u, j, v, w);
    assert LocksOk(s', p) && LocksOk(s', j) by {
      assert LocksOk(s, p) && LocksOk(s, j);
    }
    forall q | 0 <= q < |s.procs| && q != p && q != j ensures LocksOk(s', q) {
      TakeOthers(s, p, u, j, v, w, q);
    }
  }

  lemma LeaveLocks(s: State, p: nat, u: Proc, j: nat, v: Proc, w: Option<nat>)
    requires Locks(s) && Places(s) && p < |s.procs| && j < |s.procs| && j != p
    requires PlaceOk(u, p, |s.procs|) && PlaceOk(v, j, |s.procs|) && SameLocks(s.procs[j].pc, v.pc)
    requires u.lock == s.procs[p].lock && !HasOwnLock(u.pc) && u.lock != By(p) && !u.lock.Sched?
    requires WaitLockOk(s.waitLock, w, p, s.procs[p].pc, u.pc) && Leaves(s, p, u.pc, j, v)
    ensures Locks(Two(s, p, u, j, v, w)) && Places(Two(s, p, u, j, v, w))
  {
    var s' := Two(s, p, u, j, v, w);
    assert LocksOk(s', p) && LocksOk(s', j) by {
      assert LocksOk(s, p) && LocksOk(s, j);
    }
    forall q | 0 <= q < |s.procs| && q != p && q != j ensures LocksOk(s', q) {
      LeaveOthers(s, p, u, j, v, w, q);
    }
  }

  lemma LeaveOthers(s: State, p: nat, u: Proc, j: nat, v: Proc, w: Option<nat>, q: nat)
    requires Locks(s) && p < |s.procs| && j < |s.procs| && j != p && q < |s.procs| && q != p && q != j
    requires SameLocks(s.procs[j].pc, v.pc) && u.lock == s.procs[p].lock
    requires WaitLockOk(s.waitLock, w, p, s.procs[p].pc, u.pc) && Leaves(s, p, u.pc, j, v)
    ensures LocksOk(Two(s, p, u, j, v, w), q)
  {
    assert LocksOk(s, q) && LocksOk(s, p) && LocksOk(s, j);
  }

  lemma TwoPasses(s: State, p: nat, u: Proc, j: nat, v: Proc, w: Option<nat>, q: nat, r: nat)
    requires p < |s.procs| && j < |s.procs| && j != p && v.pc == s.procs[j].pc && INIT < |s.procs|
    requires q < |s.procs| && r < |s.procs| && KinOk(s, q) && v.parent == s.procs[j].parent
    requires (Waiting(v, j) ==> Waiting(s.procs[j], j)) && (Waiting(u, p) ==> Waiting(s.procs[p], p))
    requires WatchOk(SetProc(s, j, v), p, u)
    ensures PassOk(s, Two(s, p, u, j, v, w), q, r)
  {
  }

  lemma TwoWaits(s: State, p: nat, u: Proc, j: nat, v: Proc, w: Option<nat>)
    requires Locks(s) && INIT < |s.procs| && p < |s.procs| && j < |s.procs| && j != p && v.pc == s.procs[j].pc
    requires (Waiting(v, j) ==> Waiting(s.procs[j], j)) && (Waiting(u, p) ==> Waiting(s.procs[p], p))
    requires WatchOk(SetProc(s, j, v), p, u) && WaitLockOk(s.waitLock, w, p, s.procs[p].pc, u.pc)
    ensures WaitsOk(s, Two(s, p, u, j, v, w))
  {
    assert LocksOk(s, p);
  }

  lemma TwoWatch(s: State, p: nat, u: Proc, j: nat, v: Proc, w: Option<nat>)
    requires Inv(s) && p < |s.procs| && j < |s.procs| && j != p && v.pc == s.procs[j].pc && SameKin(s.procs[j], v)
    requires (Waiting(v, j) ==> Waiting(s.procs[j], j)) && WatchOk(SetProc(s, j, v), p, u)
    requires WaitLockOk(s.waitLock, w, p, s.procs[p].pc, u.pc) && (Waiting(u, p) ==> Waiting(s.procs[p], p))
    ensures WaitsOk(s, Two(s, p, u, j, v, w))
    ensures forall q, r :: 0 <= q < |s.procs| && 0 <= r < |s.procs| ==> PassOk(s, Two(s, p, u, j, v, w), q, r)
  {
    TwoWaits(s, p, u, j, v, w);
    forall q, r | 0 <= q < |s.procs| && 0 <= r < |s.procs| ensures PassOk(s, Two(s, p, u, j, v, w), q, r) {
      assert KinOk(s, q);
      TwoPasses(s, p, u, j, v, w, q, r);
    }
  }

  /** p may move to u, changing j's entry to v on the way. */
  ghost predicate TwoOk(s: State, p: nat, u: Proc, j: nat, v: Proc, w: Option<nat>) {
    && p < |s.procs| && j < |s.procs| && INIT < |s.procs| && j != p && v.pc == s.procs[j].pc
    && PlaceOk(u, p, |s.procs|) && PlaceOk(v, j, |s.procs|)
    && SameKin(s.procs[p], u) && SameKin(s.procs[j], v)
    && u.lock == s.procs[p].lock && !HasOwnLock(u.pc) && !u.lock.Sched? && u.lock != By(p)
    && WaitLockOk(s.waitLock, w, p, s.procs[p].pc, u.pc)
    && (Takes(s, p, u.pc, j, v) || Leaves(s, p, u.pc, j, v))
    && (p == INIT ==> !Exiting(u.pc)) && SameFork(s.procs[p].pc, u.pc)
    && OrphansOk(s, p, u.pc) && ChildrenOk(s, p, u.pc) && KidsOk(s, p, u.pc)
    && (Waiting(v, j) ==> Waiting(s.procs[j], j)) && WatchOk(SetProc(s, j, v), p, u)
    && (Waiting(u, p) ==> Waiting(s.procs[p], p))
  }

  lemma TwoKeeps(s: State, p: nat, u: Proc, j: nat, v: Proc, w: Option<nat>)
    requires Inv(s) && TwoOk(s, p, u, j, v, w)
    ensures Inv(Two(s, p, u, j, v, w))
  {
    TwoLocks(s, p, u, j, v, w);
    TwoWatch(s, p, u, j, v, w);
    TwoMoves(s, p, u, j, v, w);
    MovesKeep(s, Two(s, p, u, j, v, w), p);
  }

  lemma TwoLocks(s: State, p: nat, u: Proc, j: nat, v: Proc, w: Option<nat>)
    requires Locks(s) && Places(s) && TwoOk(s, p, u, j, v, w)
    ensures Locks(Two(s, p, u, j, v, w)) && Places(Two(s, p, u, j, v, w))
  {
    if Takes(s, p, u.pc, j, v) {
      TakeLocks(s, p, u, j, v, w);
    } else {
      LeaveLocks(s, p, u, j, v, w);
    }
  }

  lemma TwoMoves(s: State, p: nat, u: Proc, j: nat, v: Proc, w: Option<nat>)
    requires p < |s.procs| && j < |s.procs| && j != p && v.pc == s.procs[j].pc
    requires SameKin(s.procs[p], u) && SameKin(s.procs[j], v)
    ensures Moves(s, Two(s, p, u, j, v, w), p) && Two(s, p, u, j, v, w).procs[p] == u
  {
  }

  /** wakeup's visit keeps kin and place, wakes no one else, and leaves no sleeper on its channel. */
  lemma VisitOk(s: State, p: nat, j: nat, chan: nat)
    requires Locks(s) && Places(s) && p < |s.procs| && j < |s.procs| && j != p && s.procs[j].lock == By(p)
    ensures var v := Visited(s.procs[j], chan);
      && SameKin(s.procs[j], v) && PlaceOk(v, j, |s.procs|) && v.pc == s.procs[j].pc && v.lock.Free?
      && (Waiting(v, j) ==> Waiting(s.procs[j], j)) && (chan == j ==> !Waiting(v, j))
  {
    assert LocksOk(s, j) && PlaceOk(s.procs[j], j, |s.procs|);
  }

  // ----- the calm steps

  lemma ForkLockKeeps(s: State, p: nat, choice: int)
    requires Inv(s) && CanAdvance(s, p) && s.procs[p].pc.ForkWant?
    ensures Inv(Step(s, p, choice))
  {
    var u := s.procs[p];
    assert LocksOk(s, p) && PlaceOk(u, p, |s.procs|);
    OneKeeps(s, p, u.(pc := ForkSet(u.pc.np)), Some(p));
    assert Step(s, p, choice) == One(s, p, u.(pc := ForkSet(u.pc.np)), Some(p));
  }

  lemma ForkKeepOk(s: State, p: nat, j: nat)
    requires Family(s) && Locks(s) && p < |s.procs| && j < |s.procs| && s.procs[p].pc == ForkHave(j)
    requires PlaceOk(s.procs[p], p, |s.procs|) && PlaceOk(s.procs[j], j, |s.procs|) && s.procs[p].state == RUNNING
    ensures TwoOk(s, p, s.procs[p].(pc := ForkWant(j)), j, s.procs[j].(lock := Free), s.waitLock)
  {
    assert LocksOk(s, p) && LocksOk(s, j);
  }

  lemma ForkKeepKeeps(s: State, p: nat, choice: int)
    requires Inv(s) && CanAdvance(s, p) && s.procs[p].pc.ForkHave? && choice != 0
    ensures Inv(Step(s, p, choice))
  {
    var u, j := s.procs[p], s.procs[p].pc.np;
    assert LocksOk(s, p) && LocksOk(s, j) && PlaceOk(u, p, |s.procs|) && PlaceOk(s.procs[j], j, |s.procs|);
    ForkKeepOk(s, p, j);
    TwoKeeps(s, p, u.(pc := ForkWant(j)), j, s.procs[j].(lock := Free), s.waitLock);
    assert Step(s, p, choice) == Two(s, p, u.(pc := ForkWant(j)), j, s.procs[j].(lock := Free), s.waitLock);
  }

  lemma ExitLockKeeps(s: State, p: nat, choice: int)
    requires Inv(s) && CanAdvance(s, p) && s.procs[p].pc.ExitWant?
    ensures Inv(Step(s, p, choice))
  {
    var u := s.procs[p];
    assert LocksOk(s, p) && PlaceOk(u, p, |s.procs|);
    OneKeeps(s, p, u.(pc := Reparent(0)), Some(p));
    assert Step(s, p, choice) == One(s, p, u.(pc := Reparent(0)), Some(p));
  }

  lemma ReparentEndKeeps(s: State, p: nat, choice: int)
    requires Inv(s) && CanAdvance(s, p) && s.procs[p].pc.Reparent? && |s.procs| <= s.procs[p].pc.i
    ensures Inv(Step(s, p, choice))
  {
    var u := s.procs[p];
    assert LocksOk(s, p) && PlaceOk(u, p, |s.procs|);
    OneKeeps(s, p, u.(pc := ParScan(0)), s.waitLock);
    assert Step(s, p, choice) == One(s, p, u.(pc := ParScan(0)), s.waitLock);
  }

  lemma ReparentMissOk(s: State, p: nat, i: nat)
    requires Locks(s) && Places(s) && Family(s) && CanAdvance(s, p) && s.procs[p].pc == Reparent(i)
    requires i < |s.procs| && s.procs[i].parent != Some(p)
    ensures OneOk(s, p, s.procs[p].(pc := Reparent(i + 1)), s.waitLock)
  {
    assert LocksOk(s, p) && PlaceOk(s.procs[p], p, |s.procs|);
  }

  lemma ReparentMissKeeps(s: State, p: nat, choice: int)
    requires Inv(s) && CanAdvance(s, p) && s.procs[p].pc.Reparent? && s.procs[p].pc.i < |s.procs|
    requires s.procs[s.procs[p].pc.i].parent != Some(p)
    ensures Inv(Step(s, p, choice))
  {
    var u := s.procs[p];
    ReparentMissOk(s, p, u.pc.i);
    OneKeeps(s, p, u.(pc := Reparent(u.pc.i + 1)), s.waitLock);
    assert Step(s, p, choice) == One(s, p, u.(pc := Reparent(u.pc.i + 1)), s.waitLock);
  }

  lemma InitScanEndKeeps(s: State, p: nat, choice: int)
    requires Inv(s) && CanAdvance(s, p) && s.procs[p].pc.InitScan? && |s.procs| <= s.procs[p].pc.j
    ensures Inv(Step(s, p, choice))
  {
    var u := s.procs[p];
    assert LocksOk(s, p) && PlaceOk(u, p, |s.procs|);
    OneKeeps(s, p, u.(pc := Reparent(u.pc.i + 1)), s.waitLock);
    assert Step(s, p, choice) == One(s, p, u.(pc := Reparent(u.pc.i + 1)), s.waitLock);
  }

  lemma InitScanSkipOk(s: State, p: nat, choice: int)
    requires Family(s) && Locks(s) && Places(s) && CanAdvance(s, p) && s.procs[p].pc.InitScan? && s.procs[p].pc.j == p
    ensures var u' := s.procs[p].(pc := InitScan(s.procs[p].pc.i, p + 1));
      OneOk(s, p, u', s.waitLock) && Step(s, p, choice) == One(s, p, u', s.waitLock)
  {
    assert LocksOk(s, p) && PlaceOk(s.procs[p], p, |s.procs|);
  }

  lemma InitScanSkipKeeps(s: State, p: nat, choice: int)
    requires Inv(s) && CanAdvance(s, p) && s.procs[p].pc.InitScan? && s.procs[p].pc.j == p
    ensures Inv(Step(s, p, choice))
  {
    InitScanSkipOk(s, p, choice);
    OneKeeps(s, p, s.procs[p].(pc := InitScan(s.procs[p].pc.i, p + 1)), s.waitLock);
  }

  /** The scans of wakeup and wait take the lock of the entry they have come to, and stay there. */
  predicate Reaches(pc: Pc, pc': Pc, j: nat) {
    || (pc.InitScan? && pc.j == j && pc' == InitLook(pc.i, j))
    || (pc.ParScan? && pc.j == j && pc' == ParLook(j))
    || (pc.WaitScan? && pc.i == j && pc' == WaitLook(j, pc.kids))
  }

  lemma ReachOk(s: State, p: nat, pc': Pc, j: nat)
    requires Family(s) && Locks(s) && Places(s) && p < |s.procs| && j < |s.procs| && j != p
    requires s.procs[p].state == RUNNING && s.procs[j].lock.Free? && Reaches(s.procs[p].pc, pc', j)
    requires KidsOk(s, p, s.procs[p].pc) && (pc'.WaitLook? ==> s.procs[j].parent == Some(p))
    ensures TwoOk(s, p, s.procs[p].(pc := pc'), j, s.procs[j].(lock := By(p)), s.waitLock)
  {
    assert LocksOk(s, p) && LocksOk(s, j) && PlaceOk(s.procs[p], p, |s.procs|) && PlaceOk(s.procs[j], j, |s.procs|);
    ReachWatch(s, p, pc', j);
    ReachTakes(s, p, pc', j);
  }

  lemma ReachWatch(s: State, p: nat, pc': Pc, j: nat)
    requires INIT < |s.procs| && p < |s.procs| && j < |s.procs| && j != p
    requires s.procs[p].state == RUNNING && Reaches(s.procs[p].pc, pc', j)
    ensures OrphansOk(s, p, pc') && ChildrenOk(s, p, pc')
    ensures WatchOk(SetProc(s, j, s.procs[j].(lock := By(p))), p, s.procs[p].(pc := pc'))
  {
  }

  lemma ReachTakes(s: State, p: nat, pc': Pc, j: nat)
    requires p < |s.procs| && j < |s.procs| && j != p && LocksOk(s, p) && s.procs[j].lock.Free?
    requires s.procs[p].state == RUNNING && PlaceOk(s.procs[p], p, |s.procs|) && Reaches(s.procs[p].pc, pc', j)
    requires PlaceOk(s.procs[j], j, |s.procs|)
    ensures PlaceOk(s.procs[p].(pc := pc'), p, |s.procs|) && PlaceOk(s.procs[j].(lock := By(p)), j, |s.procs|)
    ensures Takes(s, p, pc', j, s.procs[j].(lock := By(p)))
  {
  }

  lemma InitScanTakeKeeps(s: State, p: nat, choice: int)
    requires Inv(s) && CanAdvance(s, p) && s.procs[p].pc.InitScan? && s.procs[p].pc.j < |s.procs|
    requires s.procs[p].pc.j != p
    ensures Inv(Step(s, p, choice))
  {
    var u, j := s.procs[p], s.procs[p].pc.j;
    assert KidsOk(s, p, u.pc);
    ReachOk(s, p, InitLook(u.pc.i, j), j);
    TwoKeeps(s, p, u.(pc := InitLook(u.pc.i, j)), j, s.procs[j].(lock := By(p)), s.waitLock);
    assert Step(s, p, choice) == Two(s, p, u.(pc := InitLook(u.pc.i, j)), j, s.procs[j].(lock := By(p)), s.waitLock);
  }

  lemma InitLookOk(s: State, p: nat)
    requires Family(s) && Locks(s) && Places(s) && CanAdvance(s, p) && s.procs[p].pc.InitLook?
    ensures var u, j := s.procs[p], s.procs[p].pc.j;
      j < |s.procs| && TwoOk(s, p, u.(pc := InitScan(u.pc.i, j + 1)), j, Visited(s.procs[j], INIT), s.waitLock)
  {
    var u, j := s.procs[p], s.procs[p].pc.j;
    assert LocksOk(s, p) && PlaceOk(u, p, |s.procs|);
    VisitOk(s, p, j, INIT);
  }

  lemma InitLookKeeps(s: State, p: nat, choice: int)
    requires Inv(s) && CanAdvance(s, p) && s.procs[p].pc.InitLook?
    ensures Inv(Step(s, p, choice))
  {
    InitLookOk(s, p);
    var u, j := s.procs[p], s.procs[p].pc.j;
    TwoKeeps(s, p, u.(pc := InitScan(u.pc.i, j + 1)), j, Visited(s.procs[j], INIT), s.waitLock);
    assert Step(s, p, choice) == Two(s, p, u.(pc := InitScan(u.pc.i, j + 1)), j, Visited(s.procs[j], INIT), s.waitLock);
  }

  lemma ParScanEndKeeps(s: State, p: nat, choice: int)
    requires Inv(s) && CanAdvance(s, p) && s.procs[p].pc.ParScan? && |s.procs| <= s.procs[p].pc.j
    ensures Inv(Step(s, p, choice))
  {
    var u := s.procs[p];
    assert LocksOk(s, p) && PlaceOk(u, p, |s.procs|);
    OneKeeps(s, p, u.(lock := By(p), pc := ExitMark), s.waitLock);
    assert Step(s, p, choice) == One(s, p, u.(lock := By(p), pc := ExitMark), s.waitLock);
  }

  lemma ParScanSkipOk(s: State, p: nat)
    requires Locks(s) && Places(s) && Family(s) && CanAdvance(s, p) && s.procs[p].pc == ParScan(p)
    ensures OneOk(s, p, s.procs[p].(pc := ParScan(p + 1)), s.waitLock)
  {
    assert LocksOk(s, p) && PlaceOk(s.procs[p], p, |s.procs|) && KinOk(s, p);
  }

  lemma ParScanSkipKeeps(s: State, p: nat, choice: int)
    requires Inv(s) && CanAdvance(s, p) && s.procs[p].pc.ParScan? && s.procs[p].pc.j == p
    ensures Inv(Step(s, p, choice))
  {
    var u := s.procs[p];
    ParScanSkipOk(s, p);
    OneKeeps(s, p, u.(pc := ParScan(u.pc.j + 1)), s.waitLock);
    assert Step(s, p, choice) == One(s, p, u.(pc := ParScan(u.pc.j + 1)), s.waitLock);
  }

  lemma ParScanTakeKeeps(s: State, p: nat, choice: int)
    requires Inv(s) && CanAdvance(s, p) && s.procs[p].pc.ParScan? && s.procs[p].pc.j < |s.procs| && s.procs[p].pc.j != p
    ensures Inv(Step(s, p, choice))
  {
    var u, j := s.procs[p], s.procs[p].pc.j;
    assert KidsOk(s, p, u.pc);
    ReachOk(s, p, ParLook(j), j);
    TwoKeeps(s, p, u.(pc := ParLook(j)), j, s.procs[j].(lock := By(p)), s.waitLock);
    assert Step(s, p, choice) == Two(s, p, u.(pc := ParLook(j)), j, s.procs[j].(lock := By(p)), s.waitLock);
  }

  lemma ParLookOk(s: State, p: nat)
    requires Family(s) && Locks(s) && Places(s) && CanAdvance(s, p) && s.procs[p].pc.ParLook?
    ensures var u, j := s.procs[p], s.procs[p].pc.j;
      && j < |s.procs| && u.parent.Some?
      && TwoOk(s, p, u.(pc := ParScan(j + 1)), j, Visited(s.procs[j], u.parent.value), s.waitLock)
  {
    var u, j := s.procs[p], s.procs[p].pc.j;
    assert LocksOk(s, p) && PlaceOk(u, p, |s.procs|);
    VisitOk(s, p, j, u.parent.value);
  }

  lemma ParLookKeeps(s: State, p: nat, choice: int)
    requires Inv(s) && CanAdvance(s, p) && s.procs[p].pc.ParLook?
    ensures Inv(Step(s, p, choice))
  {
    ParLookOk(s, p);
    var u, j := s.procs[p], s.procs[p].pc.j;
    TwoKeeps(s, p, u.(pc := ParScan(j + 1)), j, Visited(s.procs[j], u.parent.value), s.waitLock);
    assert Step(s, p, choice) ==
      Two(s, p, u.(pc := ParScan(j + 1)), j, Visited(s.procs[j], u.parent.value), s.waitLock);
  }

  lemma ExitDropKeeps(s: State, p: nat, choice: int)
    requires Inv(s) && CanAdvance(s, p) && s.procs[p].pc.ExitDrop?
    ensures Inv(Step(s, p, choice))
  {
    var u := s.procs[p];
    assert LocksOk(s, p) && PlaceOk(u, p, |s.procs|);
    OneKeeps(s, p, u.(pc := ExitSwitch), None);
    assert Step(s, p, choice) == One(s, p, u.(pc := ExitSwitch), None);
  }

  lemma ExitSwitchKeeps(s: State, p: nat, choice: int)
    requires Inv(s) && CanAdvance(s, p) && s.procs[p].pc.ExitSwitch?
    ensures Inv(Step(s, p, choice))
  {
    var u := s.procs[p];
    assert LocksOk(s, p) && PlaceOk(u, p, |s.procs|);
    OneKeeps(s, p, u.(lock := Sched, pc := Dead), s.waitLock);
    assert Step(s, p, choice) == One(s, p, u.(lock := Sched, pc := Dead), s.waitLock);
  }

  lemma WaitLockKeeps(s: State, p: nat, choice: int)
    requires Inv(s) && CanAdvance(s, p) && s.procs[p].pc.WaitWant?
    ensures Inv(Step(s, p, choice))
  {
    var u := s.procs[p];
    assert LocksOk(s, p) && PlaceOk(u, p, |s.procs|);
    OneKeeps(s, p, u.(pc := WaitScan(0, false)), Some(p));
    assert Step(s, p, choice) == One(s, p, u.(pc := WaitScan(0, false)), Some(p));
  }

  lemma WaitScanBackKeeps(s: State, p: nat, choice: int)
    requires Inv(s) && CanAdvance(s, p) && s.procs[p].pc.WaitScan? && |s.procs| <= s.procs[p].pc.i
    requires !s.procs[p].pc.kids || s.procs[p].killed
    ensures Inv(Step(s, p, choice))
  {
    var u := s.procs[p];
    assert LocksOk(s, p) && PlaceOk(u, p, |s.procs|);
    OneKeeps(s, p, u.(pc := User), None);
    assert Step(s, p, choice) == One(s, p, u.(pc := User), None);
  }

  lemma WaitScanSleepKeeps(s: State, p: nat, choice: int)
    requires Inv(s) && CanAdvance(s, p) && s.procs[p].pc.WaitScan? && |s.procs| <= s.procs[p].pc.i && s.procs[p].pc.kids
    requires !s.procs[p].killed
    ensures Inv(Step(s, p, choice))
  {
    var u := s.procs[p];
    assert LocksOk(s, p) && PlaceOk(u, p, |s.procs|);
    OneKeeps(s, p, u.(pc := SleepA), s.waitLock);
    assert Step(s, p, choice) == One(s, p, u.(pc := SleepA), s.waitLock);
  }

  lemma WaitScanMissOk(s: State, p: nat, i: nat, kids: bool)
    requires Locks(s) && Places(s) && Family(s) && CanAdvance(s, p) && s.procs[p].pc == WaitScan(i, kids)
    requires i < |s.procs| && s.procs[i].parent != Some(p) && KidsOk(s, p, s.procs[p].pc)
    ensures OneOk(s, p, s.procs[p].(pc := WaitScan(i + 1, kids)), s.waitLock)
  {
    assert LocksOk(s, p) && PlaceOk(s.procs[p], p, |s.procs|);
    assert HasChild(s, p, i + 1) <==> HasChild(s, p, i);
  }

  lemma WaitScanMissKeeps(s: State, p: nat, choice: int)
    requires Inv(s) && CanAdvance(s, p) && s.procs[p].pc.WaitScan? && s.procs[p].pc.i < |s.procs|
    requires s.procs[s.procs[p].pc.i].parent != Some(p)
    ensures Inv(Step(s, p, choice))
  {
    var u := s.procs[p];
    assert KidsOk(s, p, u.pc);
    WaitScanMissOk(s, p, u.pc.i, u.pc.kids);
    OneKeeps(s, p, u.(pc := WaitScan(u.pc.i + 1, u.pc.kids)), s.waitLock);
    assert Step(s, p, choice) == One(s, p, u.(pc := WaitScan(u.pc.i + 1, u.pc.kids)), s.waitLock);
  }

  lemma WaitScanTakeKeeps(s: State, p: nat, choice: int)
    requires Inv(s) && CanAdvance(s, p) && s.procs[p].pc.WaitScan? && s.procs[p].pc.i < |s.procs|
    requires s.procs[s.procs[p].pc.i].parent == Some(p)
    ensures Inv(Step(s, p, choice))
  {
    var u, j := s.procs[p], s.procs[p].pc.i;
    assert KinOk(s, j) && KidsOk(s, p, u.pc);
    ReachOk(s, p, WaitLook(j, u.pc.kids), j);
    TwoKeeps(s, p, u.(pc := WaitLook(j, u.pc.kids)), j, s.procs[j].(lock := By(p)), s.waitLock);
    assert Step(s, p, choice) == Two(s, p, u.(pc := WaitLook(j, u.pc.kids)), j, s.procs[j].(lock := By(p)), s.waitLock);
  }

  lemma WaitLookAliveOk(s: State, p: nat)
    requires Locks(s) && Places(s) && INIT < |s.procs| && CanAdvance(s, p) && s.procs[p].pc.WaitLook?
    requires s.procs[s.procs[p].pc.i].state != ZOMBIE && KidsOk(s, p, s.procs[p].pc)
    ensures var u, j := s.procs[p], s.procs[p].pc.i;
      TwoOk(s, p, u.(pc := WaitScan(j + 1, true)), j, s.procs[j].(lock := Free), s.waitLock)
  {
    var u, j := s.procs[p], s.procs[p].pc.i;
    assert LocksOk(s, p) && LocksOk(s, j) && PlaceOk(u, p, |s.procs|) && PlaceOk(s.procs[j], j, |s.procs|);
    assert HasChild(s, p, j + 1);
  }

  lemma WaitLookAliveKeeps(s: State, p: nat, choice: int)
    requires Inv(s) && CanAdvance(s, p) && s.procs[p].pc.WaitLook? && s.procs[s.procs[p].pc.i].state != ZOMBIE
    ensures Inv(Step(s, p, choice))
  {
    assert KidsOk(s, p, s.procs[p].pc);
    WaitLookAliveOk(s, p);
    var u, j := s.procs[p], s.procs[p].pc.i;
    TwoKeeps(s, p, u.(pc := WaitScan(j + 1, true)), j, s.procs[j].(lock := Free), s.waitLock);
    WaitLookAliveStep(s, p, choice);
  }

  lemma WaitLookAliveStep(s: State, p: nat, choice: int)
    requires CanAdvance(s, p) && s.procs[p].pc.WaitLook? && s.procs[p].pc.i != p
    requires s.procs[s.procs[p].pc.i].state != ZOMBIE
    ensures var u, j := s.procs[p], s.procs[p].pc.i;
      Step(s, p, choice) == Two(s, p, u.(pc := WaitScan(j + 1, true)), j, s.procs[j].(lock := Free), s.waitLock)
  {
  }

  lemma WaitLookFailOk(s: State, p: nat)
    requires Locks(s) && Places(s) && INIT < |s.procs| && CanAdvance(s, p) && s.procs[p].pc.WaitLook?
    ensures var u, j := s.procs[p], s.procs[p].pc.i;
      j < |s.procs| && TwoOk(s, p, u.(pc := User), j, s.procs[j].(lock := Free), None)
  {
    var u, j := s.procs[p], s.procs[p].pc.i;
    assert LocksOk(s, p) && LocksOk(s, j) && PlaceOk(u, p, |s.procs|) && PlaceOk(s.procs[j], j, |s.procs|);
  }

  lemma WaitLookFailKeeps(s: State, p: nat, choice: int)
    requires Inv(s) && CanAdvance(s, p) && s.procs[p].pc.WaitLook? && s.procs[s.procs[p].pc.i].state == ZOMBIE
    requires choice == 0
    ensures Inv(Step(s, p, choice))
  {
    var u, j := s.procs[p], s.procs[p].pc.i;
    WaitLookFailOk(s, p);
    TwoKeeps(s, p, u.(pc := User), j, s.procs[j].(lock := Free), None);
    assert Step(s, p, choice) == Two(s, p, u.(pc := User), j, s.procs[j].(lock := Free), None);
  }

  lemma SleepAKeeps(s: State, p: nat, choice: int)
    requires Inv(s) && CanAdvance(s, p) && s.procs[p].pc.SleepA?
    ensures Inv(Step(s, p, choice))
  {
    var u := s.procs[p];
    assert LocksOk(s, p) && PlaceOk(u, p, |s.procs|);
    OneKeeps(s, p, u.(lock := By(p), pc := SleepB), s.waitLock);
    assert Step(s, p, choice) == One(s, p, u.(lock := By(p), pc := SleepB), s.waitLock);
  }

  lemma SleepBKeeps(s: State, p: nat, choice: int)
    requires Inv(s) && CanAdvance(s, p) && s.procs[p].pc.SleepB?
    ensures Inv(Step(s, p, choice))
  {
    var u := s.procs[p];
    assert LocksOk(s, p) && PlaceOk(u, p, |s.procs|);
    forall c | 0 <= c < |s.procs| && s.procs[c].parent == Some(p) ensures s.procs[c].state != ZOMBIE {
      assert ScanOk(s, p, c);
    }
    OneKeeps(s, p, u.(pc := SleepC), None);
    assert Step(s, p, choice) == One(s, p, u.(pc := SleepC), None);
  }

  lemma SleepCKeeps(s: State, p: nat, choice: int)
    requires Inv(s) && CanAdvance(s, p) && s.procs[p].pc.SleepC?
    ensures Inv(Step(s, p, choice))
  {
    var u := s.procs[p];
    assert LocksOk(s, p) && PlaceOk(u, p, |s.procs|);
    OneKeeps(s, p, u.(chan := Some(p), state := SLEEPING, pc := SleepD), s.waitLock);
    assert Step(s, p, choice) == One(s, p, u.(chan := Some(p), state := SLEEPING, pc := SleepD), s.waitLock);
  }

  lemma SleepDKeeps(s: State, p: nat, choice: int)
    requires Inv(s) && CanAdvance(s, p) && s.procs[p].pc.SleepD?
    ensures Inv(Step(s, p, choice))
  {
    var u := s.procs[p];
    assert LocksOk(s, p) && PlaceOk(u, p, |s.procs|);
    OneKeeps(s, p, u.(lock := Sched, pc := Off), s.waitLock);
    assert Step(s, p, choice) == One(s, p, u.(lock := Sched, pc := Off), s.waitLock);
  }

  lemma ResumeKeeps(s: State, p: nat, choice: int)
    requires Inv(s) && CanAdvance(s, p) && s.procs[p].pc.Resume?
    ensures Inv(Step(s, p, choice))
  {
    var u := s.procs[p];
    assert LocksOk(s, p) && PlaceOk(u, p, |s.procs|);
    OneKeeps(s, p, u.(chan := None, lock := Free, pc := WaitWant), s.waitLock);
    assert Step(s, p, choice) == One(s, p, u.(chan := None, lock := Free, pc := WaitWant), s.waitLock);
  }

  lemma ExitKeeps(s: State, p: nat, status: int)
    requires Inv(s) && Enabled(s, Action.Exit(p, status))
    ensures Inv(Apply(s, Action.Exit(p, status)))
  {
    var u := s.procs[p];
    assert LocksOk(s, p) && PlaceOk(u, p, |s.procs|);
    OneKeeps(s, p, u.(status := status, pc := ExitWant), s.waitLock);
    assert Apply(s, Action.Exit(p, status)) == One(s, p, u.(status := status, pc := ExitWant), s.waitLock);
  }

  lemma WaitKeeps(s: State, p: nat)
    requires Inv(s) && Enabled(s, Action.Wait(p))
    ensures Inv(Apply(s, Action.Wait(p)))
  {
    var u := s.procs[p];
    assert LocksOk(s, p) && PlaceOk(u, p, |s.procs|);
    OneKeeps(s, p, u.(pc := WaitWant), s.waitLock);
    assert Apply(s, Action.Wait(p)) == One(s, p, u.(pc := WaitWant), s.waitLock);
  }

  lemma SchedReleaseKeeps(s: State, p: nat)
    requires Inv(s) && Enabled(s, Action.SchedRelease(p))
    ensures Inv(Apply(s, Action.SchedRelease(p)))
  {
    var u := s.procs[p];
    assert LocksOk(s, p) && PlaceOk(u, p, |s.procs|);
    OneKeeps(s, p, u.(lock := Free), s.waitLock);
    assert Apply(s, Action.SchedRelease(p)) == One(s, p, u.(lock := Free), s.waitLock);
  }

  lemma DispatchKeeps(s: State, p: nat)
    requires Inv(s) && Enabled(s, Action.Dispatch(p))
    ensures Inv(Apply(s, Action.Dispatch(p)))
  {
    var u := s.procs[p];
    assert LocksOk(s, p) && PlaceOk(u, p, |s.procs|);
    var u' := if u.pc.Off? then u.(state := RUNNING, lock := By(p), pc := Resume)
              else u.(state := RUNNING, chan := None);
    OneKeeps(s, p, u', s.waitLock);
    assert Apply(s, Action.Dispatch(p)) == One(s, p, u', s.waitLock);
  }

  lemma PreemptKeeps(s: State, p: nat)
    requires Inv(s) && Enabled(s, Action.Preempt(p))
    ensures Inv(Apply(s, Action.Preempt(p)))
  {
    var u := s.procs[p];
    assert LocksOk(s, p) && PlaceOk(u, p, |s.procs|);
    OneKeeps(s, p, u.(state := RUNNABLE), s.waitLock);
    assert Apply(s, Action.Preempt(p)) == One(s, p, u.(state := RUNNABLE), s.waitLock);
  }

  lemma KillKeeps(s: State, p: nat)
    requires Inv(s) && Enabled(s, Action.Kill(p))
    ensures Inv(Apply(s, Action.Kill(p)))
  {
    var u := s.procs[p];
    assert LocksOk(s, p) && PlaceOk(u, p, |s.procs|);
    var u' := u.(killed := true, state := if u.state == SLEEPING then RUNNABLE else u.state);
    OneKeeps(s, p, u', s.waitLock);
    assert Apply(s, Action.Kill(p)) == One(s, p, u', s.waitLock);
  }

  lemma SleepElsewhereKeeps(s: State, p: nat, chan: nat)
    requires Inv(s) && Enabled(s, Action.SleepElsewhere(p, chan))
    ensures Inv(Apply(s, Action.SleepElsewhere(p, chan)))
  {
    var u := s.procs[p];
    assert LocksOk(s, p) && PlaceOk(u, p, |s.procs|);
    OneKeeps(s, p, u.(state := SLEEPING, chan := Some(chan)), s.waitLock);
    assert Apply(s, Action.SleepElsewhere(p, chan)) == One(s, p, u.(state := SLEEPING, chan := Some(chan)), s.waitLock);
  }

  lemma WakeElsewhereKeeps(s: State, p: nat)
    requires Inv(s) && Enabled(s, Action.WakeElsewhere(p))
    ensures Inv(Apply(s, Action.WakeElsewhere(p)))
  {
    var u := s.procs[p];
    assert LocksOk(s, p) && PlaceOk(u, p, |s.procs|);
    OneKeeps(s, p, u.(state := RUNNABLE), s.waitLock);
    assert Apply(s, Action.WakeElsewhere(p)) == One(s, p, u.(state := RUNNABLE), s.waitLock);
  }
}
