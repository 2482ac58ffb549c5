/** Every step of the sleep-lock machine keeps its invariant, and what that means. */
module SleepLockProofs {
  import opened SleepLock

  // ----- what a step has to answer for

  /** p moves, the entry of j changes (or j is p), and sleep lock l, if there is one. */
  ghost predicate Touches(s: State, s': State, p: nat, j: nat, l: nat) {
    && p < |s.procs| && j < |s.procs| && |s'.procs| == |s.procs| && |s'.locks| == |s.locks|
    && (forall q :: 0 <= q < |s.procs| && q != p && q != j ==> s'.procs[q] == s.procs[q])
    && forall m :: 0 <= m < |s.locks| && m != l ==> s'.locks[m] == s.locks[m]
  }

  /** Nobody else's p->lock changes hands: p lets go of j's only, and j stays where it is. */
  predicate Guarded(u: Proc, u': Proc, p: nat) {
    u.lock.By? && u.lock.q != p ==> u'.lock == u.lock
  }

  ghost predicate ProcChange(s: State, s': State, p: nat, j: nat, l: nat)
    requires Touches(s, s', p, j, l)
  {
    var a, a', b, b' := s.procs[p], s'.procs[p], s.procs[j], s'.procs[j];
    && ProcOk(s', p) && ProcOk(s', j) && (j != p ==> b'.pc == b.pc && b'.held == b.held)
    && Guarded(a, a', p) && Guarded(b, b', p) && (a.pc.Look? ==> a'.pc == a.pc || a.pc.i == j)
  }

  /** l belongs to p, or to no one, in whatever changes of it. */
  ghost predicate LockChange(s: State, s': State, p: nat, j: nat, l: nat)
    requires Touches(s, s', p, j, l)
  {
    var a, a' := s.procs[p], s'.procs[p];
    && (InInner(a.pc) ==> a.pc.l == l || a'.pc == a.pc)
    && (forall m :: m in a.held && m != l ==> m in a'.held)
    && (l < |s.locks| ==>
          var k, k' := s.locks[l], s'.locks[l];
          && LockOk(s', l) && (k' == k || k.lk.None? || k.lk == Some(p))
          && (k'.owner == k.owner || k.owner.None? || k.owner == Some(p)))
  }

  lemma ChangeProcs(s: State, s': State, p: nat, j: nat, l: nat)
    requires Inv(s) && Touches(s, s', p, j, l) && ProcChange(s, s', p, j, l) && LockChange(s, s', p, j, l)
    ensures forall q :: 0 <= q < |s'.procs| ==> ProcOk(s', q)
  {
    forall q | 0 <= q < |s'.procs| ensures ProcOk(s', q) {
      assert ProcOk(s, q);
    }
  }

  lemma ChangeLocks(s: State, s': State, p: nat, j: nat, l: nat)
    requires Inv(s) && Touches(s, s', p, j, l) && ProcChange(s, s', p, j, l) && LockChange(s, s', p, j, l)
    ensures forall m :: 0 <= m < |s'.locks| ==> LockOk(s', m)
  {
    forall m | 0 <= m < |s'.locks| ensures LockOk(s', m) {
      assert LockOk(s, m);
    }
  }

  predicate Waking(pc: Pc, l: nat) {
    (pc.Scan? || pc.Look?) && pc.l == l
  }

  /** p's scan of l goes on, and passes only itself or the j it has looked at; to free l is to start one. */
  ghost predicate ScanChange(s: State, s': State, p: nat, j: nat, l: nat)
    requires Touches(s, s', p, j, l) && l < |s.locks|
  {
    var a, a', k, k' := s.procs[p], s'.procs[p], s.locks[l], s'.locks[l];
    && (k.locked ==> k'.locked || (k'.lk == Some(p) && Waking(a'.pc, l) && a'.pc.i == 0))
    && (k.lk == Some(p) && Waking(a.pc, l) && a.pc.i < |s.procs| ==>
          && k'.lk == Some(p) && Waking(a'.pc, l)
          && (|| a'.pc.i == a.pc.i
              || (a'.pc.i == a.pc.i + 1 && (if a.pc.Scan? then a.pc.i == p else a.pc.i == j))))
  }

  /** Whoever starts to wait finds its lock taken, and p's visit to j has woken it. */
  ghost predicate WaitChange(s: State, s': State, p: nat, j: nat, l: nat)
    requires Touches(s, s', p, j, l)
  {
    var a, a', b, b' := s.procs[p], s'.procs[p], s.procs[j], s'.procs[j];
    && (forall m :: 0 <= m < |s.locks| && Waiting(a', m) ==> s'.locks[m].locked || (Waiting(a, m) && !InInner(a.pc)))
    && (j != p ==> forall m :: 0 <= m < |s.locks| && Waiting(b', m) ==> Waiting(b, m) && (a.pc.Look? ==> m != l))
  }

  lemma ChangeWakes(s: State, s': State, p: nat, j: nat, l: nat)
    requires Inv(s) && Touches(s, s', p, j, l) && ProcChange(s, s', p, j, l) && LockChange(s, s', p, j, l)
    requires (l < |s.locks| ==> ScanChange(s, s', p, j, l)) && WaitChange(s, s', p, j, l)
    ensures NoLostWakeup(s')
  {
    forall q, m | 0 <= q < |s.procs| && 0 <= m < |s.locks| && Waiting(s'.procs[q], m)
      ensures s'.locks[m].locked || WakerComing(s', m, q)
    {
      assert LockOk(s, m);
    }
  }

  ghost predicate Change(s: State, s': State, p: nat, j: nat, l: nat) {
    && Touches(s, s', p, j, l) && ProcChange(s, s', p, j, l) && LockChange(s, s', p, j, l)
    && (l < |s.locks| ==> ScanChange(s, s', p, j, l)) && WaitChange(s, s', p, j, l)
  }

  lemma ChangeKeeps(s: State, s': State, p: nat, j: nat, l: nat)
    requires Inv(s) && Change(s, s', p, j, l)
    ensures Inv(s')
  {
    ChangeProcs(s, s', p, j, l);
    ChangeLocks(s, s', p, j, l);
    ChangeWakes(s, s', p, j, l);
  }

  // ----- the steps

  /** acquiresleep up to its test, which takes the lock or goes to sleep. */
  lemma AcquireKeeps(s: State, p: nat)
    requires Inv(s) && Enabled(s, Advance(p)) && (s.procs[p].pc.Acq? || s.procs[p].pc.Test?)
    ensures Inv(Step(s, p))
  {
    assert ProcOk(s, p) && LockOk(s, s.procs[p].pc.l);
    ChangeKeeps(s, Step(s, p), p, p, s.procs[p].pc.l);
  }

  /** sleep, up to the release of the inner lock: p->lock is taken first. */
  lemma HandOverKeeps(s: State, p: nat)
    requires Inv(s) && Enabled(s, Advance(p)) && (s.procs[p].pc.SleepA? || s.procs[p].pc.SleepB?)
    ensures Inv(Step(s, p))
  {
    assert ProcOk(s, p) && LockOk(s, s.procs[p].pc.l);
    ChangeKeeps(s, Step(s, p), p, p, s.procs[p].pc.l);
  }

  /** sleep, after the inner lock is released: p->lock is held by then. */
  lemma SleepKeeps(s: State, p: nat)
    requires Inv(s) && Enabled(s, Advance(p))
    requires s.procs[p].pc.SleepC? || s.procs[p].pc.SleepD? || s.procs[p].pc.Resume?
    ensures Inv(Step(s, p))
  {
    assert ProcOk(s, p) && LockOk(s, s.procs[p].pc.l);
    ChangeKeeps(s, Step(s, p), p, p, s.procs[p].pc.l);
  }

  /** releasesleep, and the ends of wakeup's scan. */
  lemma ReleaseKeeps(s: State, p: nat)
    requires Inv(s) && Enabled(s, Advance(p))
    requires var pc := s.procs[p].pc; pc.Rel? || pc.RelSet? || (pc.Scan? && (pc.i == p || |s.procs| <= pc.i))
    ensures Inv(Step(s, p))
  {
    assert ProcOk(s, p) && LockOk(s, s.procs[p].pc.l);
    ChangeKeeps(s, Step(s, p), p, p, s.procs[p].pc.l);
  }

  lemma ScanTakesKeeps(s: State, p: nat)
    requires Inv(s) && Enabled(s, Advance(p)) && s.procs[p].pc.Scan? && s.procs[p].pc.i < |s.procs|
    requires s.procs[p].pc.i != p
    ensures Inv(Step(s, p))
  {
    assert ProcOk(s, p) && ProcOk(s, s.procs[p].pc.i) && LockOk(s, s.procs[p].pc.l);
    ChangeKeeps(s, Step(s, p), p, s.procs[p].pc.i, s.procs[p].pc.l);
  }

  lemma LookKeeps(s: State, p: nat)
    requires Inv(s) && Enabled(s, Advance(p)) && s.procs[p].pc.Look?
    ensures Inv(Step(s, p))
  {
    assert ProcOk(s, p) && ProcOk(s, s.procs[p].pc.i) && LockOk(s, s.procs[p].pc.l);
    ChangeKeeps(s, Step(s, p), p, s.procs[p].pc.i, s.procs[p].pc.l);
  }

  lemma StepKeeps(s: State, p: nat)
    requires Inv(s) && Enabled(s, Advance(p))
    ensures Inv(Step(s, p))
  {
    var pc := s.procs[p].pc;
    if pc.Acq? || pc.Test? {
      AcquireKeeps(s, p);
    } else if pc.SleepA? || pc.SleepB? {
      HandOverKeeps(s, p);
    } else if pc.SleepC? || pc.SleepD? || pc.Resume? {
      SleepKeeps(s, p);
    } else if pc.Look? {
      LookKeeps(s, p);
    } else if pc.Scan? && pc.i < |s.procs| && pc.i != p {
      ScanTakesKeeps(s, p);
    } else {
      ReleaseKeeps(s, p);
    }
  }

  /** Every other action moves p alone and changes no sleep lock. */
  lemma CallKeeps(s: State, a: Action)
    requires Inv(s) && Enabled(s, a) && !a.Advance?
    ensures Inv(Apply(s, a))
  {
    assert ProcOk(s, a.p);
    ChangeKeeps(s, Apply(s, a), a.p, a.p, |s.locks|);
  }

  lemma ApplyKeeps(s: State, a: Action)
    requires Inv(s) && Enabled(s, a)
    ensures Inv(Apply(s, a))
  {
    if a.Advance? {
      StepKeeps(s, a.p);
    } else {
      CallKeeps(s, a);
    }
  }

  // ----- runs

  /** No process is in acquiresleep or releasesleep, and every sleep lock is free. */
  ghost predicate Init(s: State) {
    && (forall p :: 0 <= p < |s.procs| ==>
          s.procs[p] == Proc(s.procs[p].state, None, Idle, Free, {}) && s.procs[p].state != SLEEPING)
    && forall l :: 0 <= l < |s.locks| ==> s.locks[l] == Lock(None, false, None)
  }

  /** State k is initial, or some action leads to it from its predecessor. */
  ghost predicate StepAt(run: seq<State>, acts: seq<Action>, k: nat)
    requires k < |run| == |acts| + 1
  {
    if k == 0 then Init(run[0])
    else Enabled(run[k - 1], acts[k - 1]) && run[k] == Apply(run[k - 1], acts[k - 1])
  }

  ghost predicate Run(run: seq<State>, acts: seq<Action>) {
    && |run| == |acts| + 1
    && forall k {:trigger StepAt(run, acts, k)} :: 0 <= k < |run| ==> StepAt(run, acts, k)
  }

  lemma {:induction false} RunInv(run: seq<State>, acts: seq<Action>, k: nat)
    requires Run(run, acts) && k < |run|
    ensures Inv(run[k])
  {
    assert StepAt(run, acts, k);
    if k > 0 {
      RunInv(run, acts, k - 1);
      ApplyKeeps(run[k - 1], acts[k - 1]);
    }
  }

  /** In every reachable state a sleep lock is held by at most one process, and exactly
      when locked is set. */
  lemma MutualExclusion(run: seq<State>, acts: seq<Action>, k: nat, l: nat)
    requires Run(run, acts) && k < |run| && l < |run[k].locks|
    ensures forall p, q :: 0 <= p < q < |run[k].procs| ==>
              !(l in run[k].procs[p].held && l in run[k].procs[q].held)
    ensures run[k].locks[l].locked <==> exists p :: 0 <= p < |run[k].procs| && l in run[k].procs[p].held
  {
    RunInv(run, acts, k);
    assert LockOk(run[k], l);
    forall p | 0 <= p < |run[k].procs| && l in run[k].procs[p].held
      ensures run[k].locks[l].owner == Some(p)
    {
      assert ProcOk(run[k], p);
    }
  }

  /** No wakeup is lost: while a process sleeps on a free sleep lock, some process is in the
      middle of a wakeup of that lock and has not passed the sleeper. */
  lemma SleeperHasWaker(run: seq<State>, acts: seq<Action>, k: nat, l: nat, p: nat) returns (q: nat)
    requires Run(run, acts) && k < |run| && l < |run[k].locks| && p < |run[k].procs|
    requires run[k].procs[p].state == SLEEPING && run[k].procs[p].chan == Some(l) && !run[k].locks[l].locked
    ensures q < |run[k].procs| && run[k].locks[l].lk == Some(q)
    ensures var pc := run[k].procs[q].pc; (pc.Scan? || pc.Look?) && pc.l == l && pc.i <= p
  {
    RunInv(run, acts, k);
    assert Waiting(run[k].procs[p], l);
    q := run[k].locks[l].lk.value;
  }

  /** Hence a free sleep lock whose inner lock is free has no sleepers. */
  lemma FreeLockHasNoSleepers(run: seq<State>, acts: seq<Action>, k: nat, l: nat, p: nat)
    requires Run(run, acts) && k < |run| && l < |run[k].locks| && p < |run[k].procs|
    requires !run[k].locks[l].locked && run[k].locks[l].lk.None?
    ensures !(run[k].procs[p].state == SLEEPING && run[k].procs[p].chan == Some(l))
  {
    RunInv(run, acts, k);
    if Waiting(run[k].procs[p], l) {
      assert false;
    }
  }
}
