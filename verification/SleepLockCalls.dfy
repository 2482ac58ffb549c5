/** What acquiresleep, releasesleep and wakeup do for their callers, over whole calls. */
module SleepLockCalls {
  import opened SleepLock
  import opened SleepLockProofs

  /** The entry of p changes its position and the locks it holds by its own steps alone. */
  lemma OthersLeave(s: State, a: Action, p: nat)
    requires Enabled(s, a) && p < |s.procs| && a.p != p
    ensures |Apply(s, a).procs| == |s.procs| && |Apply(s, a).locks| == |s.locks|
    ensures Apply(s, a).procs[p].pc == s.procs[p].pc && Apply(s, a).procs[p].held == s.procs[p].held
  {
  }

  /** p is outside acquiresleep and releasesleep. */
  predicate IdleAt(s: State, p: nat) {
    p < |s.procs| && s.procs[p].pc.Idle?
  }

  /** From step j on p has been in a call, up to state k. */
  ghost predicate InCall(run: seq<State>, p: nat, j: nat, k: nat) {
    j < k < |run| && forall i :: j < i < k ==> !IdleAt(run[i], p)
  }

  // ----- releasesleep

  /** p is in releasesleep of l, having entered it with the locks in held. */
  predicate Releasing(u: Proc, l: nat, held: set<nat>) {
    || ((u.pc == Rel(l) || u.pc == RelSet(l)) && u.held == held)
    || (Waking(u.pc, l) && u.held == held - {l})
  }

  lemma ReleaseStep(s: State, a: Action, p: nat, l: nat, held: set<nat>)
    requires Enabled(s, a) && p < |s.procs| && Releasing(s.procs[p], l, held)
    ensures |Apply(s, a).procs| == |s.procs| && |Apply(s, a).locks| == |s.locks|
    ensures var u, u' := s.procs[p], Apply(s, a).procs[p];
      && (Releasing(u', l, held) || (Waking(u.pc, l) && u'.pc.Idle? && u'.held == held - {l}))
      && (!Waking(u.pc, l) && Waking(u'.pc, l) ==>
            l < |s.locks| && !Apply(s, a).locks[l].locked && Apply(s, a).locks[l].owner.None?)
  {
    if a.p != p {
      OthersLeave(s, a, p);
    }
  }

  /** p has been in the call since Release(p, l) at j; m is where the lock was free. */
  lemma {:induction false} ReleaseSince(run: seq<State>, acts: seq<Action>, j: nat, k: nat, p: nat, l: nat)
    returns (m: nat)
    requires Run(run, acts) && InCall(run, p, j, k) && j < |acts| && acts[j] == Release(p, l)
    ensures p < |run[j].procs| == |run[k].procs| && l < |run[j].locks| == |run[k].locks|
    ensures var u := run[k].procs[p]; var held := run[j].procs[p].held;
      && (Releasing(u, l, held) || (u.pc.Idle? && u.held == held - {l}))
      && (Waking(u.pc, l) || u.pc.Idle? ==>
            j < m <= k && |run[m].locks| == |run[j].locks| && !run[m].locks[l].locked && run[m].locks[l].owner.None?)
  {
    assert StepAt(run, acts, k);
    m := k;
    if k > j + 1 {
      var m0 := ReleaseSince(run, acts, j, k - 1, p, l);
      ReleaseStep(run[k - 1], acts[k - 1], p, l, run[j].procs[p].held);
      if Waking(run[k - 1].procs[p].pc, l) {
        m := m0;
      }
    }
  }

  /** When p returns from releasesleep it has given up l and no other lock, and l has been free. */
  lemma Released(run: seq<State>, acts: seq<Action>, j: nat, k: nat, p: nat, l: nat) returns (m: nat)
    requires Run(run, acts) && InCall(run, p, j, k) && acts[j] == Release(p, l) && IdleAt(run[k], p)
    ensures p < |run[j].procs| && l in run[j].procs[p].held && run[k].procs[p].held == run[j].procs[p].held - {l}
    ensures j < m <= k && l < |run[m].locks| && !run[m].locks[l].locked && run[m].locks[l].owner.None?
  {
    assert StepAt(run, acts, j + 1);
    m := ReleaseSince(run, acts, j, k, p, l);
  }

  // ----- acquiresleep

  /** p is in acquiresleep of l, having entered it with the locks in held. */
  predicate Acquiring(u: Proc, l: nat, held: set<nat>) {
    && !u.pc.Idle? && !u.pc.Rel? && !u.pc.RelSet? && !u.pc.Scan? && !u.pc.Look?
    && u.pc.l == l && u.held == held
  }

  lemma AcquireStep(s: State, a: Action, p: nat, l: nat, held: set<nat>)
    requires Enabled(s, a) && p < |s.procs| && l < |s.locks| && Acquiring(s.procs[p], l, held)
    ensures |Apply(s, a).procs| == |s.procs| && |Apply(s, a).locks| == |s.locks|
    ensures var u' := Apply(s, a).procs[p];
      || Acquiring(u', l, held)
      || (&& u'.pc.Idle? && u'.held == held + {l} && !s.locks[l].locked
          && Apply(s, a).locks[l] == Lock(None, true, Some(p)))
  {
    if a.p != p {
      OthersLeave(s, a, p);
    }
  }

  lemma {:induction false} AcquireSince(run: seq<State>, acts: seq<Action>, j: nat, k: nat, p: nat, l: nat)
    requires Run(run, acts) && InCall(run, p, j, k) && acts[j] == Acquire(p, l)
    ensures p < |run[j].procs| == |run[k].procs| && l < |run[j].locks| == |run[k].locks| == |run[k - 1].locks|
    ensures var u := run[k].procs[p]; var held := run[j].procs[p].held;
      || Acquiring(u, l, held)
      || (&& u.pc.Idle? && u.held == held + {l} && !run[k - 1].locks[l].locked
          && run[k].locks[l] == Lock(None, true, Some(p)))
  {
    assert StepAt(run, acts, k);
    if k > j + 1 {
      AcquireSince(run, acts, j, k - 1, p, l);
      AcquireStep(run[k - 1], acts[k - 1], p, l, run[j].procs[p].held);
    }
  }

  /** When p returns from acquiresleep it has l besides what it held, and took it when it was free. */
  lemma Acquired(run: seq<State>, acts: seq<Action>, j: nat, k: nat, p: nat, l: nat)
    requires Run(run, acts) && InCall(run, p, j, k) && acts[j] == Acquire(p, l) && IdleAt(run[k], p)
    ensures p < |run[j].procs| && run[k].procs[p].held == run[j].procs[p].held + {l}
    ensures l < |run[k].locks| == |run[k - 1].locks| && !run[k - 1].locks[l].locked
    ensures run[k].locks[l] == Lock(None, true, Some(p))
  {
    AcquireSince(run, acts, j, k, p, l);
  }

  // ----- wakeup

  /** A sleeper is woken by a wakeup of its own channel, or killed; one that sleeps on a sleep lock,
      by a wakeup of that lock. */
  lemma WokenByChannel(run: seq<State>, acts: seq<Action>, k: nat, q: nat)
    requires Run(run, acts) && k < |acts| && q < |run[k].procs| && run[k].procs[q].state == SLEEPING
    ensures |run[k + 1].procs| == |run[k].procs|
    ensures run[k + 1].procs[q].state == SLEEPING || run[k + 1].procs[q].state == RUNNABLE
    ensures acts[k] == WakeElsewhere(q) ==> run[k].procs[q].chan.Some? && run[k].procs[q].chan.value >= |run[k].locks|
    ensures run[k + 1].procs[q].state == RUNNABLE <==>
      || acts[k] == Kill(q) || acts[k] == WakeElsewhere(q)
      || (&& acts[k].Advance? && acts[k].p != q && acts[k].p < |run[k].procs| && run[k].procs[acts[k].p].pc.Look?
          && run[k].procs[acts[k].p].pc.i == q && run[k].procs[q].chan == Some(run[k].procs[acts[k].p].pc.l))
  {
    assert StepAt(run, acts, k + 1);
    RunInv(run, acts, k);
    assert ProcOk(run[k], q);
  }

  // ----- calls return

  /** Steps of p alone lead from s to t in n steps. */
  ghost predicate Leads(s: State, t: State, p: nat, n: nat)
    decreases n
  {
    if n == 0 then t == s else Enabled(s, Advance(p)) && Leads(Step(s, p), t, p, n - 1)
  }

  /** A free sleep lock is taken in two steps. */
  lemma AcquireReturns(s: State, p: nat, l: nat)
    requires p < |s.procs| && s.procs[p].pc == Acq(l) && s.procs[p].state == RUNNING
    requires l < |s.locks| && s.locks[l].lk.None? && !s.locks[l].locked
    ensures Enabled(s, Advance(p)) && Enabled(Step(s, p), Advance(p))
    ensures var t := Step(Step(s, p), p); t.procs[p].pc.Idle? && t.procs[p].held == s.procs[p].held + {l}
  {
  }

  /** A woken process, once it is scheduled, goes back and takes the sleep lock if that is free. */
  lemma WokenAcquires(s: State, p: nat, l: nat)
    requires p < |s.procs| && s.procs[p].pc == Off(l) && s.procs[p].state == RUNNABLE && s.procs[p].lock.Free?
    requires l < |s.locks| && s.locks[l].lk.None? && !s.locks[l].locked
    ensures Enabled(s, Dispatch(p)) && Enabled(Apply(s, Dispatch(p)), Advance(p))
    ensures var t := Step(Apply(s, Dispatch(p)), p);
      && Enabled(t, Advance(p)) && Enabled(Step(t, p), Advance(p))
      && Step(Step(t, p), p).procs[p].pc.Idle? && Step(Step(t, p), p).procs[p].held == s.procs[p].held + {l}
  {
    var t := Step(Apply(s, Dispatch(p)), p);
    assert t.procs[p].pc == Acq(l) && t.procs[p].state == RUNNING && t.locks == s.locks;
    AcquireReturns(t, p, l);
  }

  /** Nobody else holds the lock of any process. */
  ghost predicate Undisturbed(s: State, p: nat) {
    p < |s.procs| && s.procs[p].state == RUNNING && forall q :: 0 <= q < |s.procs| && q != p ==> s.procs[q].lock.Free?
  }

  /** wakeup's visit to one process, in two steps, or in one where it is p itself. */
  lemma ScanVisits(s: State, p: nat, l: nat, i: nat) returns (t: State, n: nat)
    requires Inv(s) && Undisturbed(s, p) && s.procs[p].pc == Scan(l, i) && i < |s.procs|
    ensures Enabled(s, Advance(p)) && (n == 1 || n == 2)
    ensures if n == 1 then t == Step(s, p) else Enabled(Step(s, p), Advance(p)) && t == Step(Step(s, p), p)
    ensures Inv(t) && Undisturbed(t, p) && t.locks == s.locks && |t.procs| == |s.procs|
    ensures t.procs[p] == s.procs[p].(pc := Scan(l, i + 1))
  {
    assert ProcOk(s, p);
    t, n := Step(s, p), 1;
    StepKeeps(s, p);
    if i != p {
      StepKeeps(t, p);
      t, n := Step(t, p), 2;
    }
  }

  /** wakeup's scan comes to its end. */
  lemma {:induction false} ScanReturns(s: State, p: nat, l: nat, i: nat) returns (t: State, n: nat)
    requires Inv(s) && Undisturbed(s, p) && s.procs[p].pc == Scan(l, i) && i <= |s.procs|
    ensures Leads(s, t, p, n) && Inv(t) && |t.procs| == |s.procs| && |t.locks| == |s.locks|
    ensures t.procs[p].pc.Idle? && t.procs[p].held == s.procs[p].held && l < |t.locks| && t.locks[l].lk.None?
    ensures t.locks[l].locked == s.locks[l].locked
    decreases |s.procs| - i
  {
    if i == |s.procs| {
      assert ProcOk(s, p);
      StepKeeps(s, p);
      return Step(s, p), 1;
    }
    var s1, k := ScanVisits(s, p, l, i);
    var m;
    t, m := ScanReturns(s1, p, l, i + 1);
    n := m + k;
  }

  /** releasesleep comes back, with the lock free and nobody left asleep on it, when it is not
      held up by other holders of spin locks. */
  lemma ReleaseReturns(s: State, p: nat, l: nat) returns (t: State, n: nat)
    requires Inv(s) && Undisturbed(s, p) && s.procs[p].pc == Rel(l) && l < |s.locks| && s.locks[l].lk.None?
    ensures Leads(s, t, p, n) && |t.procs| == |s.procs| && l < |t.locks|
    ensures t.procs[p].pc.Idle? && t.procs[p].held == s.procs[p].held - {l} && !t.locks[l].locked
    ensures forall q :: 0 <= q < |t.procs| ==> !(t.procs[q].state == SLEEPING && t.procs[q].chan == Some(l))
  {
    assert ProcOk(s, p);
    StepKeeps(s, p);
    var s1 := Step(s, p);
    StepKeeps(s1, p);
    var m;
    t, m := ScanReturns(Step(s1, p), p, l, 0);
    n := m + 2;
    forall q | 0 <= q < |t.procs| ensures !(t.procs[q].state == SLEEPING && t.procs[q].chan == Some(l)) {
      assert !Waiting(t.procs[q], l);
    }
  }
}
