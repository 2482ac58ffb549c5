/** sleep, wakeup and the scheduler (kernel/proc.c) under the sleep locks of
    kernel/sleeplock.c, as a machine over every interleaving.  One step is one
    acquisition or release of a spin lock, or one change made while holding it. */
module SleepLock {
  datatype Option<T> = None | Some(value: T)

  datatype ProcState = RUNNABLE | RUNNING | SLEEPING

  /** Who holds a process's p->lock: a process, or the scheduler that it switched to. */
  datatype Holder = Free | By(q: nat) | Sched

  /** Where a process stands.  The number names a sleep lock, which is also the
      channel its waiters sleep on; i is the position of wakeup's scan. */
  datatype Pc =
    | Idle               // outside acquiresleep and releasesleep
    | Acq(l: nat)        // wants the inner lock, to acquire
    | Test(l: nat)       // holds the inner lock, about to test locked
    | SleepA(l: nat)     // in sleep, wants its own p->lock
    | SleepB(l: nat)     // has both, about to release the inner lock
    | SleepC(l: nat)     // has p->lock, about to set chan and state
    | SleepD(l: nat)     // SLEEPING, about to switch to the scheduler
    | Off(l: nat)        // switched out
    | Resume(l: nat)     // switched in again, holds p->lock
    | Rel(l: nat)        // wants the inner lock, to release
    | RelSet(l: nat)     // holds the inner lock, about to clear locked
    | Scan(l: nat, i: nat)  // wakeup, about to take procs[i]'s lock
    | Look(l: nat, i: nat)  // wakeup, holding procs[i]'s lock

  datatype Proc = Proc(state: ProcState, chan: Option<nat>, pc: Pc, lock: Holder, held: set<nat>)

  /** struct sleeplock: its inner spin lock's holder, locked, and pid. */
  datatype Lock = Lock(lk: Option<nat>, locked: bool, owner: Option<nat>)

  datatype State = State(procs: seq<Proc>, locks: seq<Lock>)

  datatype Action =
    | Acquire(p: nat, l: nat)
    | Release(p: nat, l: nat)
    | Advance(p: nat)
    | SchedRelease(p: nat)
    | Dispatch(p: nat)
    | Preempt(p: nat)
    | Kill(p: nat)
    | SleepElsewhere(p: nat, chan: nat)
    | WakeElsewhere(p: nat)

  function SetProc(s: State, p: nat, u: Proc): State
    requires p < |s.procs|
  {
    s.(procs := s.procs[p := u])
  }

  function SetLock(s: State, l: nat, k: Lock): State
    requires l < |s.locks|
  {
    s.(locks := s.locks[l := k])
  }

  function Go(s: State, p: nat, pc: Pc): State
    requires p < |s.procs|
  {
    SetProc(s, p, s.procs[p].(pc := pc))
  }

  /** On a CPU: a process that has set SLEEPING runs on until it switches. */
  predicate OnCpu(u: Proc) {
    u.state == RUNNING || u.pc.SleepD?
  }

  /** The inner lock is held by whoever stands here. */
  predicate InInner(pc: Pc) {
    pc.Test? || pc.SleepA? || pc.SleepB? || pc.RelSet? || pc.Scan? || pc.Look?
  }

  /** Its own p->lock is held by a process that stands here. */
  predicate InOwn(pc: Pc) {
    pc.SleepB? || pc.SleepC? || pc.SleepD? || pc.Resume?
  }

  predicate Enabled(s: State, a: Action) {
    && a.p < |s.procs|
    && var u := s.procs[a.p];
    match a
    case Acquire(p, l) => OnCpu(u) && u.pc.Idle? && l < |s.locks| && l !in u.held
    case Release(p, l) => OnCpu(u) && u.pc.Idle? && l < |s.locks| && l in u.held
    case Advance(p) =>
      && OnCpu(u) && !u.pc.Idle? && !u.pc.Off? && u.pc.l < |s.locks|
      && (u.pc.Acq? || u.pc.Rel? ==> s.locks[u.pc.l].lk.None?)
      && (u.pc.SleepA? ==> u.lock.Free?)
      && (u.pc.Scan? && u.pc.i < |s.procs| && u.pc.i != p ==> s.procs[u.pc.i].lock.Free?)
      && (u.pc.Look? ==> u.pc.i < |s.procs|)
    case SchedRelease(p) => u.lock.Sched?
    case Dispatch(p) => u.lock.Free? && u.state == RUNNABLE
    case Preempt(p) => u.lock.Free? && u.state == RUNNING && (u.pc.Idle? || u.pc.Acq? || u.pc.Rel?)
    case Kill(p) => u.lock.Free?
    case SleepElsewhere(p, chan) => u.lock.Free? && u.state == RUNNING && u.pc.Idle? && |s.locks| <= chan
    case WakeElsewhere(p) => u.lock.Free? && u.state == SLEEPING && u.chan.Some? && |s.locks| <= u.chan.value
  }

  /** One step of process p. */
  function Step(s: State, p: nat): State
    requires Enabled(s, Advance(p))
  {
    var u := s.procs[p];
    var k := s.locks[u.pc.l];
    match u.pc
    case Acq(l) => Go(SetLock(s, l, k.(lk := Some(p))), p, Test(l))
    case Test(l) =>
      if k.locked then Go(s, p, SleepA(l))
      else SetProc(SetLock(s, l, Lock(None, true, Some(p))), p, u.(pc := Idle, held := u.held + {l}))
    case SleepA(l) => SetProc(s, p, u.(lock := By(p), pc := SleepB(l)))
    case SleepB(l) => Go(SetLock(s, l, k.(lk := None)), p, SleepC(l))
    case SleepC(l) => SetProc(s, p, u.(chan := Some(l), state := SLEEPING, pc := SleepD(l)))
    case SleepD(l) => SetProc(s, p, u.(lock := Sched, pc := Off(l)))
    case Resume(l) => SetProc(s, p, u.(chan := None, lock := Free, pc := Acq(l)))
    case Rel(l) => Go(SetLock(s, l, k.(lk := Some(p))), p, RelSet(l))
    case RelSet(l) =>
      SetProc(SetLock(s, l, k.(locked := false, owner := None)), p, u.(held := u.held - {l}, pc := Scan(l, 0)))
    case Scan(l, i) =>
      if |s.procs| <= i then Go(SetLock(s, l, k.(lk := None)), p, Idle)
      else if i == p then Go(s, p, Scan(l, i + 1))
      else Go(SetProc(s, i, s.procs[i].(lock := By(p))), p, Look(l, i))
    case Look(l, i) =>
      var v := s.procs[i];
      var woken := if v.state == SLEEPING && v.chan == Some(l) then RUNNABLE else v.state;
      Go(SetProc(s, i, v.(state := woken, lock := Free)), p, Scan(l, i + 1))
  }

  function Apply(s: State, a: Action): State
    requires Enabled(s, a)
  {
    var u := s.procs[a.p];
    match a
    case Acquire(p, l) => Go(s, p, Acq(l))
    case Release(p, l) => Go(s, p, Rel(l))
    case Advance(p) => Step(s, p)
    case SchedRelease(p) => SetProc(s, p, u.(lock := Free))
    case Dispatch(p) =>
      if u.pc.Off? then SetProc(s, p, u.(state := RUNNING, lock := By(p), pc := Resume(u.pc.l)))
      else SetProc(s, p, u.(state := RUNNING, chan := None))
    case Preempt(p) => SetProc(s, p, u.(state := RUNNABLE))
    case Kill(p) => SetProc(s, p, u.(state := if u.state == SLEEPING then RUNNABLE else u.state))
    case SleepElsewhere(p, chan) => SetProc(s, p, u.(state := SLEEPING, chan := Some(chan)))
    case WakeElsewhere(p) => SetProc(s, p, u.(state := RUNNABLE))
  }

  // ----- invariant

  /** p's own fields fit together. */
  ghost predicate ProcOk(s: State, p: nat)
    requires p < |s.procs|
  {
    var u := s.procs[p];
    && (forall l :: l in u.held ==> l < |s.locks| && s.locks[l].owner == Some(p))
    && (!u.pc.Idle? ==> u.pc.l < |s.locks|)
    && (u.pc.Rel? || u.pc.RelSet? ==> u.pc.l in u.held)
    && (InInner(u.pc) ==> s.locks[u.pc.l].lk == Some(p))
    && (u.pc.SleepA? || u.pc.SleepB? ==> s.locks[u.pc.l].locked)
    && (InOwn(u.pc) ==> u.lock == By(p))
    && (u.lock == By(p) ==> InOwn(u.pc))
    && (u.lock.Sched? ==> u.pc.Off?)
    && (u.lock.By? && u.lock.q != p ==>
          u.lock.q < |s.procs| && s.procs[u.lock.q].pc.Look? && s.procs[u.lock.q].pc.i == p)
    && (u.pc.Look? ==> u.pc.i < |s.procs| && u.pc.i != p && s.procs[u.pc.i].lock == By(p))
    && (InInner(u.pc) || InOwn(u.pc) ==> (u.state == RUNNING || u.pc.SleepD?))
    && (u.state == SLEEPING ==> u.pc.SleepD? || u.pc.Off? || (u.pc.Idle? && u.chan.Some? && u.chan.value >= |s.locks|))
    && (u.pc.SleepD? ==> u.state == SLEEPING)
    && (u.pc.SleepD? || u.pc.Off? ==> u.chan == Some(u.pc.l) && u.state != RUNNING)
  }

  ghost predicate LockOk(s: State, l: nat)
    requires l < |s.locks|
  {
    var k := s.locks[l];
    && (k.locked <==> k.owner.Some?)
    && (k.owner.Some? ==> k.owner.value < |s.procs| && l in s.procs[k.owner.value].held)
    && (k.lk.Some? ==> k.lk.value < |s.procs| && InInner(s.procs[k.lk.value].pc) && s.procs[k.lk.value].pc.l == l)
  }

  /** p waits for l and would miss a wakeup that has already passed it. */
  predicate Waiting(u: Proc, l: nat) {
    (u.pc == SleepC(l)) || (u.state == SLEEPING && u.chan == Some(l))
  }

  /** Some waker of l holds the inner lock and its scan has not passed p. */
  predicate WakerComing(s: State, l: nat, p: nat)
    requires l < |s.locks|
  {
    && s.locks[l].lk.Some? && s.locks[l].lk.value < |s.procs|
    && var pc := s.procs[s.locks[l].lk.value].pc;
    (pc.Scan? || pc.Look?) && pc.l == l && pc.i <= p
  }

  ghost predicate NoLostWakeup(s: State) {
    forall p, l :: 0 <= p < |s.procs| && 0 <= l < |s.locks| && Waiting(s.procs[p], l) ==>
      s.locks[l].locked || WakerComing(s, l, p)
  }

  ghost predicate Inv(s: State) {
    && (forall p :: 0 <= p < |s.procs| ==> ProcOk(s, p))
    && (forall l :: 0 <= l < |s.locks| ==> LockOk(s, l))
    && NoLostWakeup(s)
  }
}
