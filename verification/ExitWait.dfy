/** fork, exit and wait (kernel/proc.c) as a machine over every interleaving.  One step
    is one acquisition or release of a spin lock, or one change made while holding it. */
module ExitWait {
  datatype Option<T> = None | Some(value: T)

  datatype ProcState = UNUSED | USED | SLEEPING | RUNNABLE | RUNNING | ZOMBIE

  /** Who holds a process's p->lock: a process, or the scheduler that it switched to. */
  datatype Holder = Free | By(q: nat) | Sched

  /** initproc is the first entry of the process table. */
  const INIT: nat := 0

  /** Where a process stands in the kernel. */
  datatype Pc =
    | User
    // kfork
    | ForkHave(np: nat)          // allocproc returned np, np->lock held
    | ForkWant(np: nat)          // np->lock released, wants wait_lock
    | ForkSet(np: nat)           // holds wait_lock, about to set np->parent
    | ForkRun(np: nat)           // about to make np runnable
    // kexit
    | ExitWant                   // wants wait_lock
    | Reparent(i: nat)           // at entry i of the reparent loop
    | InitScan(i: nat, j: nat)   // wakeup(initproc) for entry i, about to take procs[j]'s lock
    | InitLook(i: nat, j: nat)   // holding procs[j]'s lock
    | ParScan(j: nat)            // wakeup(p->parent)
    | ParLook(j: nat)
    | ExitMark                   // holds wait_lock and its own lock
    | ExitDrop                   // ZOMBIE, about to release wait_lock
    | ExitSwitch                 // about to switch away for good
    | Dead
    // kwait
    | WaitWant                   // wants wait_lock
    | WaitScan(i: nat, kids: bool)
    | WaitLook(i: nat, kids: bool)  // holding procs[i]'s lock
    | SleepA                     // in sleep(p, &wait_lock): wants its own lock
    | SleepB                     // has both locks, about to release wait_lock
    | SleepC                     // about to set chan and state
    | SleepD                     // about to switch to the scheduler
    | Off                        // switched out
    | Resume                     // switched in again, holds its own lock

  /** chan names a process when below the table size, else some other channel.  status is the
      argument of the call of kexit that the process is in. */
  datatype Proc = Proc(state: ProcState, chan: Option<nat>, killed: bool, xstate: int, pid: nat,
                       parent: Option<nat>, pc: Pc, lock: Holder, status: int)

  /** exits and reaped are history: pid to exit status. */
  datatype State = State(procs: seq<Proc>, waitLock: Option<nat>, nextpid: nat,
                         exits: map<nat, int>, reaped: map<nat, int>)

  /** choice stands for what the step depends on besides the state: whether memory ran out
      (kfork) or copyout failed (kwait). */
  datatype Action =
    | Fork(p: nat, np: nat)
    | Exit(p: nat, status: int)
    | Wait(p: nat)
    | Advance(p: nat, choice: int)
    | SchedRelease(p: nat)
    | Dispatch(p: nat)
    | Preempt(p: nat)
    | Kill(p: nat)
    | SleepElsewhere(p: nat, chan: nat)
    | WakeElsewhere(p: nat)

  // ----- vocabulary

  /** On a CPU: a process that set SLEEPING or ZOMBIE runs on until it switches. */
  predicate OnCpu(u: Proc) {
    u.state == RUNNING || u.pc.SleepD? || u.pc.ExitDrop? || u.pc.ExitSwitch?
  }

  predicate HasWaitLock(pc: Pc) {
    || pc.ForkSet? || pc.Reparent? || pc.InitScan? || pc.InitLook? || pc.ParScan? || pc.ParLook?
    || pc.ExitMark? || pc.ExitDrop? || pc.WaitScan? || pc.WaitLook? || pc.SleepA? || pc.SleepB?
  }

  /** Holds its own p->lock. */
  predicate HasOwnLock(pc: Pc) {
    pc.ExitMark? || pc.ExitDrop? || pc.ExitSwitch? || pc.SleepB? || pc.SleepC? || pc.SleepD? || pc.Resume?
  }

  /** The other process whose lock it holds. */
  function Target(pc: Pc): Option<nat> {
    if pc.ForkHave? then Some(pc.np)
    else if pc.InitLook? || pc.ParLook? then Some(pc.j)
    else if pc.WaitLook? then Some(pc.i)
    else None
  }

  /** Holds no spin lock, so a timer interrupt may preempt it. */
  predicate Interruptible(pc: Pc) {
    pc.User? || pc.ForkWant? || pc.ForkRun? || pc.ExitWant? || pc.WaitWant?
  }

  function SetProc(s: State, p: nat, u: Proc): State
    requires p < |s.procs|
  {
    s.(procs := s.procs[p := u])
  }

  function Go(s: State, p: nat, pc: Pc): State
    requires p < |s.procs|
  {
    SetProc(s, p, s.procs[p].(pc := pc))
  }

  /** freeproc, with the lock released. */
  function Freed(): Proc {
    Proc(UNUSED, None, false, 0, 0, None, User, Free, 0)
  }

  /** wakeup's visit to one process, ending with the release of its lock. */
  function Visited(u: Proc, chan: nat): Proc {
    u.(lock := Free, state := if u.state == SLEEPING && u.chan == Some(chan) then RUNNABLE else u.state)
  }

  // ----- transitions

  predicate CanAdvance(s: State, p: nat) {
    && p < |s.procs| && OnCpu(s.procs[p])
    && var u, n := s.procs[p], |s.procs|;
    match u.pc
    case User => false
    case Dead => false
    case Off => false
    case ForkHave(np) => np < n
    case ForkWant(np) => np < n && s.waitLock.None?
    case ForkSet(np) => np < n
    case ForkRun(np) => np < n && s.procs[np].lock.Free?
    case ExitWant => s.waitLock.None?
    case Reparent(i) => true
    case InitScan(i, j) => j < n && j != p ==> s.procs[j].lock.Free?
    case InitLook(i, j) => j < n
    case ParScan(j) => u.parent.Some? && if j < n then j != p ==> s.procs[j].lock.Free? else u.lock.Free?
    case ParLook(j) => u.parent.Some? && j < n
    case WaitWant => s.waitLock.None?
    case WaitScan(i, kids) =>
      if i < n then s.procs[i].parent == Some(p) ==> s.procs[i].lock.Free? else u.lock.Free?
    case WaitLook(i, kids) => i < n
    case SleepA => u.lock.Free?
    case _ => true
  }

  /** One step of process p. */
  function Step(s: State, p: nat, choice: int): State
    requires CanAdvance(s, p)
  {
    var u, n := s.procs[p], |s.procs|;
    match u.pc
    case ForkHave(np) =>
      if choice == 0 then Go(SetProc(s, np, Freed()), p, User)
      else Go(SetProc(s, np, s.procs[np].(lock := Free)), p, ForkWant(np))
    case ForkWant(np) => Go(s, p, ForkSet(np)).(waitLock := Some(p))
    case ForkSet(np) => Go(SetProc(s, np, s.procs[np].(parent := Some(p))), p, ForkRun(np)).(waitLock := None)
    case ForkRun(np) => Go(SetProc(s, np, s.procs[np].(state := RUNNABLE)), p, User)
    case ExitWant => Go(s, p, Reparent(0)).(waitLock := Some(p))
    case Reparent(i) =>
      if n <= i then Go(s, p, ParScan(0))
      else if s.procs[i].parent == Some(p) then
        Go(SetProc(s, i, s.procs[i].(parent := Some(INIT))), p, InitScan(i, 0))
      else Go(s, p, Reparent(i + 1))
    case InitScan(i, j) =>
      if n <= j then Go(s, p, Reparent(i + 1))
      else if j == p then Go(s, p, InitScan(i, j + 1))
      else Go(SetProc(s, j, s.procs[j].(lock := By(p))), p, InitLook(i, j))
    case InitLook(i, j) => Go(SetProc(s, j, Visited(s.procs[j], INIT)), p, InitScan(i, j + 1))
    case ParScan(j) =>
      if n <= j then SetProc(s, p, u.(lock := By(p), pc := ExitMark))
      else if j == p then Go(s, p, ParScan(j + 1))
      else Go(SetProc(s, j, s.procs[j].(lock := By(p))), p, ParLook(j))
    case ParLook(j) => Go(SetProc(s, j, Visited(s.procs[j], u.parent.value)), p, ParScan(j + 1))
    case ExitMark =>
      SetProc(s, p, u.(xstate := u.status, state := ZOMBIE, pc := ExitDrop)).(exits := s.exits[u.pid := u.status])
    case ExitDrop => Go(s, p, ExitSwitch).(waitLock := None)
    case ExitSwitch => SetProc(s, p, u.(lock := Sched, pc := Dead))
    case WaitWant => Go(s, p, WaitScan(0, false)).(waitLock := Some(p))
    case WaitScan(i, kids) =>
      if n <= i then
        if !kids || u.killed then Go(s, p, User).(waitLock := None) else Go(s, p, SleepA)
      else if s.procs[i].parent == Some(p) then
        Go(SetProc(s, i, s.procs[i].(lock := By(p))), p, WaitLook(i, kids))
      else Go(s, p, WaitScan(i + 1, kids))
    case WaitLook(i, kids) =>
      var c := s.procs[i];
      if c.state == ZOMBIE then
        if choice == 0 then Go(SetProc(s, i, c.(lock := Free)), p, User).(waitLock := None)
        else Go(SetProc(s, i, Freed()), p, User).(waitLock := None, reaped := s.reaped[c.pid := c.xstate])
      else Go(SetProc(s, i, c.(lock := Free)), p, WaitScan(i + 1, true))
    case SleepA => SetProc(s, p, u.(lock := By(p), pc := SleepB))
    case SleepB => Go(s, p, SleepC).(waitLock := None)
    case SleepC => SetProc(s, p, u.(chan := Some(p), state := SLEEPING, pc := SleepD))
    case SleepD => SetProc(s, p, u.(lock := Sched, pc := Off))
    case Resume => SetProc(s, p, u.(chan := None, lock := Free, pc := WaitWant))
  }

  predicate Enabled(s: State, a: Action) {
    && a.p < |s.procs|
    && var u := s.procs[a.p];
    match a
    case Fork(p, np) =>
      && OnCpu(u) && u.pc.User? && np < |s.procs| && np != p
      && s.procs[np].state == UNUSED && s.procs[np].lock.Free?
    case Exit(p, status) => OnCpu(u) && u.pc.User? && p != INIT
    case Wait(p) => OnCpu(u) && u.pc.User?
    case Advance(p, choice) => CanAdvance(s, p)
    case SchedRelease(p) => u.lock.Sched?
    case Dispatch(p) => u.lock.Free? && u.state == RUNNABLE
    case Preempt(p) => u.lock.Free? && u.state == RUNNING && Interruptible(u.pc)
    case Kill(p) => u.lock.Free?
    case SleepElsewhere(p, chan) => u.lock.Free? && u.state == RUNNING && u.pc.User? && |s.procs| <= chan
    case WakeElsewhere(p) => u.lock.Free? && u.state == SLEEPING && u.chan.Some? && |s.procs| <= u.chan.value
  }

  function Apply(s: State, a: Action): State
    requires Enabled(s, a)
  {
    var u := s.procs[a.p];
    match a
    case Fork(p, np) =>
      var born := s.procs[np].(pid := s.nextpid, state := USED, lock := By(p));
      Go(SetProc(s, np, born), p, ForkHave(np)).(nextpid := s.nextpid + 1)
    case Exit(p, status) => SetProc(s, p, u.(status := status, pc := ExitWant))
    case Wait(p) => Go(s, p, WaitWant)
    case Advance(p, choice) => Step(s, p, choice)
    case SchedRelease(p) => SetProc(s, p, u.(lock := Free))
    case Dispatch(p) =>
      if u.pc.Off? then SetProc(s, p, u.(state := RUNNING, lock := By(p), pc := Resume))
      else SetProc(s, p, u.(state := RUNNING, chan := None))
    case Preempt(p) => SetProc(s, p, u.(state := RUNNABLE))
    case Kill(p) => SetProc(s, p, u.(killed := true, state := if u.state == SLEEPING then RUNNABLE else u.state))
    case SleepElsewhere(p, chan) => SetProc(s, p, u.(state := SLEEPING, chan := Some(chan)))
    case WakeElsewhere(p) => SetProc(s, p, u.(state := RUNNABLE))
  }

  // ----- invariant, by concern

  /** Spin locks are held by whoever stands where the code holds them. */
  ghost predicate LocksOk(s: State, p: nat)
    requires p < |s.procs|
  {
    var u := s.procs[p];
    && (HasWaitLock(u.pc) ==> s.waitLock == Some(p))
    && (u.lock == By(p) <==> HasOwnLock(u.pc))
    && (u.lock.Sched? ==> u.pc.Off? || u.pc.Dead?)
    && (u.lock.By? && u.lock.q != p ==> u.lock.q < |s.procs| && Target(s.procs[u.lock.q].pc) == Some(p))
    && (Target(u.pc).Some? ==>
          var t := Target(u.pc).value; t < |s.procs| && t != p && s.procs[t].lock == By(p))
  }

  ghost predicate Locks(s: State) {
    && (forall p :: 0 <= p < |s.procs| ==> LocksOk(s, p))
    && (s.waitLock.Some? ==> s.waitLock.value < |s.procs| && HasWaitLock(s.procs[s.waitLock.value].pc))
  }

  /** A process's state, channel and position agree. */
  ghost predicate PlaceOk(u: Proc, p: nat, n: nat) {
    && (u.state == ZOMBIE <==> u.pc.ExitDrop? || u.pc.ExitSwitch? || u.pc.Dead?)
    && (u.state == UNUSED || u.state == USED ==> u.pc.User? && u.chan.None?)
    && (u.state == SLEEPING ==> u.pc.SleepD? || u.pc.Off? || (u.pc.User? && u.chan.Some? && u.chan.value >= n))
    && (u.state == RUNNABLE ==> Interruptible(u.pc) || u.pc.Off?)
    && (u.pc.SleepD? ==> u.state == SLEEPING)
    && (u.pc.Off? ==> u.state == SLEEPING || u.state == RUNNABLE)
    && (u.pc.SleepD? || u.pc.Off? ==> u.chan == Some(p))
  }

  ghost predicate Places(s: State) {
    forall p :: 0 <= p < |s.procs| ==> PlaceOk(s.procs[p], p, |s.procs|)
  }

  predicate Live(state: ProcState) {
    state == SLEEPING || state == RUNNABLE || state == RUNNING
  }

  predicate Forking(pc: Pc) {
    pc.ForkHave? || pc.ForkWant? || pc.ForkSet? || pc.ForkRun?
  }

  /** The half-made child of a fork belongs to its maker alone. */
  ghost predicate ForkOk(s: State, p: nat)
    requires p < |s.procs|
  {
    Forking(s.procs[p].pc) ==>
      var np := s.procs[p].pc.np;
      && np < |s.procs| && np != p && s.procs[np].state == USED
      && s.procs[np].parent == if s.procs[p].pc.ForkRun? then Some(p) else None
  }

  ghost predicate ForksApart(s: State, p: nat, q: nat)
    requires p < |s.procs| && q < |s.procs|
  {
    p != q && Forking(s.procs[p].pc) && Forking(s.procs[q].pc) ==> s.procs[p].pc.np != s.procs[q].pc.np
  }

  ghost predicate Forks(s: State) {
    && (forall p :: 0 <= p < |s.procs| ==> ForkOk(s, p))
    && (forall p, q :: 0 <= p < |s.procs| && 0 <= q < |s.procs| ==> ForksApart(s, p, q))
  }

  predicate Exiting(pc: Pc) {
    || pc.ExitWant? || pc.Reparent? || pc.InitScan? || pc.InitLook? || pc.ParScan? || pc.ParLook?
    || pc.ExitMark? || pc.ExitDrop? || pc.ExitSwitch? || pc.Dead?
  }

  /** Parents are live; everyone who ran, but init, has one. */
  ghost predicate KinOk(s: State, c: nat)
    requires c < |s.procs|
  {
    var u := s.procs[c];
    && (u.parent.Some? ==>
          u.parent.value < |s.procs| && u.parent.value != c && Live(s.procs[u.parent.value].state) && u.state != UNUSED)
    && (c != INIT && (Live(u.state) || u.state == ZOMBIE) ==> u.parent.Some?)
  }

  /** And init has no parent and never exits. */
  ghost predicate Family(s: State) {
    && INIT < |s.procs| && Live(s.procs[INIT].state) && !Exiting(s.procs[INIT].pc) && s.procs[INIT].parent.None?
    && forall c :: 0 <= c < |s.procs| ==> KinOk(s, c)
  }

  /** How far reparent has come: entries below this are no children of the exiting process. */
  function Orphaned(pc: Pc, n: nat): nat {
    if pc.Reparent? then pc.i
    else if pc.InitScan? || pc.InitLook? then pc.i + 1
    else if pc.ParScan? || pc.ParLook? || pc.ExitMark? then n
    else 0
  }

  ghost predicate OrphanOk(s: State, p: nat, c: nat)
    requires p < |s.procs| && c < |s.procs|
  {
    c < Orphaned(s.procs[p].pc, |s.procs|) ==> s.procs[c].parent != Some(p)
  }

  ghost predicate Reparented(s: State) {
    forall p, c :: 0 <= p < |s.procs| && 0 <= c < |s.procs| ==> OrphanOk(s, p, c)
  }

  /** How far wait's scan has come: no child below this is a zombie. */
  function Scanned(pc: Pc, n: nat): nat {
    if pc.WaitScan? || pc.WaitLook? then pc.i else if pc.SleepA? || pc.SleepB? then n else 0
  }

  ghost predicate ScanOk(s: State, p: nat, c: nat)
    requires p < |s.procs| && c < |s.procs|
  {
    s.procs[c].parent == Some(p) && c < Scanned(s.procs[p].pc, |s.procs|) ==> s.procs[c].state != ZOMBIE
  }

  ghost predicate Scans(s: State) {
    forall p, c :: 0 <= p < |s.procs| && 0 <= c < |s.procs| ==> ScanOk(s, p, c)
  }

  /** Some entry below i is a child of p. */
  ghost predicate HasChild(s: State, p: nat, i: nat) {
    exists c :: 0 <= c < |s.procs| && c < i && s.procs[c].parent == Some(p)
  }

  predicate InScan(pc: Pc) {
    pc.WaitScan? || pc.WaitLook?
  }

  /** wait's scan knows whether it has met a child, and looks at children only. */
  ghost predicate KidsOk(s: State, p: nat, pc: Pc) {
    && (InScan(pc) ==> (pc.kids <==> HasChild(s, p, pc.i)))
    && (pc.WaitLook? ==> pc.i < |s.procs| && s.procs[pc.i].parent == Some(p))
  }

  ghost predicate Kids(s: State) {
    forall p :: 0 <= p < |s.procs| ==> KidsOk(s, p, s.procs[p].pc)
  }

  /** p waits for a child, and would miss a wakeup that has already passed it. */
  predicate Waiting(u: Proc, p: nat) {
    u.pc.SleepC? || (u.state == SLEEPING && u.chan == Some(p))
  }

  /** Whoever holds wait_lock is waking init and has not passed it. */
  predicate InitWakerComing(s: State) {
    && s.waitLock.Some? && s.waitLock.value < |s.procs|
    && var pc := s.procs[s.waitLock.value].pc;
    (pc.InitScan? || pc.InitLook?) && pc.j <= INIT
  }

  /** A parent asleep in wait has no zombie child, but for one just handed to init. */
  ghost predicate ExitSeen(s: State, p: nat, c: nat)
    requires p < |s.procs| && c < |s.procs|
  {
    s.procs[c].parent == Some(p) && Waiting(s.procs[p], p) && s.procs[c].state == ZOMBIE ==>
      p == INIT && InitWakerComing(s)
  }

  ghost predicate NoLostExit(s: State) {
    forall p, c :: 0 <= p < |s.procs| && 0 <= c < |s.procs| ==> ExitSeen(s, p, c)
  }

  /** An exiting process past this point has woken its parent. */
  predicate PastParent(pc: Pc, parent: nat) {
    pc.ExitMark? || ((pc.ParScan? || pc.ParLook?) && parent < pc.j)
  }

  ghost predicate WokenOk(s: State, q: nat, r: nat)
    requires q < |s.procs| && r < |s.procs|
  {
    s.procs[q].parent == Some(r) && PastParent(s.procs[q].pc, r) ==> !Waiting(s.procs[r], r)
  }

  ghost predicate ParentsWoken(s: State) {
    forall q, r :: 0 <= q < |s.procs| && 0 <= r < |s.procs| ==> WokenOk(s, q, r)
  }

  /** Process ids are unique; a zombie carries its own, recorded status; nobody is reaped twice. */
  ghost predicate PidOk(u: Proc, nextpid: nat, exits: map<nat, int>, reaped: map<nat, int>) {
    && (u.state != UNUSED ==> u.pid < nextpid && u.pid !in reaped)
    && (u.state == USED || Live(u.state) ==> u.pid !in exits)
    && (u.state == ZOMBIE ==> u.pid in exits && exits[u.pid] == u.xstate)
  }

  ghost predicate PidsApart(s: State, p: nat, q: nat)
    requires p < |s.procs| && q < |s.procs|
  {
    p != q && s.procs[p].state != UNUSED && s.procs[q].state != UNUSED ==> s.procs[p].pid != s.procs[q].pid
  }

  ghost predicate Pids(s: State) {
    && (forall p :: 0 <= p < |s.procs| ==> PidOk(s.procs[p], s.nextpid, s.exits, s.reaped))
    && (forall p, q :: 0 <= p < |s.procs| && 0 <= q < |s.procs| ==> PidsApart(s, p, q))
    && (forall i :: i in s.exits ==> i < s.nextpid)
    && (forall i :: i in s.reaped ==> i in s.exits && s.exits[i] == s.reaped[i])
  }

  ghost predicate Inv(s: State) {
    && Locks(s) && Places(s) && Forks(s) && Family(s) && Reparented(s) && Scans(s) && Kids(s)
    && NoLostExit(s) && ParentsWoken(s) && Pids(s)
  }
}
