/** Scheduling, sleeping, waiting and exiting (kernel/proc.c) as the steps of
    CPUs between lock operations. A program counter says where a process is, and
    with it which locks its CPU holds. */
module Proc {
  import opened Options

  const INIT: nat := 0

  datatype State = UNUSED | USED | SLEEPING | RUNNABLE | RUNNING | ZOMBIE
  /** `wait` sleeps on the process itself, everything else on something else. */
  datatype Chan = NoChan | ProcChan(p: nat) | Other(k: nat)

  datatype Pc =
    | NoThread                             // an unused slot
    | Run                                  // any code outside this model; holds none of these locks
    | Fresh                                // about to run for the first time, in forkret; holds p->lock
    | Resume(back: Pc)                     // back from sched() in yield or sleep; holds p->lock
    | Yield(back: Pc)                      // in yield, called or interrupted there; holds p->lock
    | Sleep(k: nat)                        // in sleep; holds p->lock
    | Kill(q: nat)                         // in kill; holds q->lock
    | Wake(i: nat, k: nat)                 // in wakeup, before slot i
    | WakeAt(i: nat, k: nat)               // ... holding the lock of slot i
    | WaitScan(i: nat, kids: bool)         // in wait, before slot i; holds wait_lock
    | WaitAt(i: nat, kids: bool)           // ... holding also the lock of slot i
    | WaitTest                             // in killed, called by wait; holds wait_lock and p->lock
    | WaitTested                           // ... was not killed; holds wait_lock
    | WaitSleep                            // in sleep, called by wait; holds wait_lock and p->lock
    | WaitDoze                             // ... wait_lock is released; holds p->lock
    | WaitResume                           // back from sched(); holds p->lock
    | WaitAgain                            // about to take wait_lock again
    | Exit(i: nat)                         // in reparent, before slot i; holds wait_lock
    | ExitInit(i: nat, j: nat)             // in wakeup(initproc) for slot i, before slot j
    | ExitInitAt(i: nat, j: nat)           // ... holding the lock of slot j
    | ExitWake(j: nat)                     // in wakeup(p->parent), before slot j
    | ExitWakeAt(j: nat)                   // ... holding the lock of slot j
    | ExitLock                             // about to take p->lock; holds wait_lock
    | ExitLocked                           // holds wait_lock and p->lock
    | ExitZombie                           // ZOMBIE; holds wait_lock and p->lock
    | ExitSched                            // ZOMBIE; holds p->lock
    | Dead                                 // off the CPU for good
    | Fork(i: nat)                         // in allocproc, before slot i
    | ForkAt(i: nat)                       // ... holding the lock of slot i
    | ForkUsed(i: nat)                     // slot i is USED; holds its lock
    | ForkMade(i: nat)                     // slot i is USED; its lock is released
    | ForkWait(i: nat)                     // holds wait_lock, about to set the parent
    | ForkChild(i: nat)                    // the parent is set
    | ForkLast(i: nat)                     // holds the lock of slot i, about to make it RUNNABLE

  /** What a CPU does: look for work, hold the lock of the process it looks at,
      run a process, or be back in the scheduler from it. In the last two
      `c->proc` is that process. */
  datatype Cpu = Idle | Holding(p: nat) | Running(p: nat) | Back(p: nat)

  /** `on` is the CPU whose `c->proc` is the process, `maker` the process that
      forks a slot. */
  datatype St = St(state: seq<State>, chan: seq<Chan>, parent: seq<Option<nat>>, killed: seq<bool>, pc: seq<Pc>,
                   cpu: seq<Cpu>, plock: seq<Option<nat>>, wlock: Option<nat>,
                   on: seq<Option<nat>>, maker: seq<Option<nat>>)

  // ---------------------------------------------------------------- locks

  /** A CPU running `p` at `pc` holds the lock of `q`. */
  predicate HoldsAt(pc: Pc, p: nat, q: nat) {
    match pc
    case Fresh => q == p
    case Resume(_) => q == p
    case Yield(_) => q == p
    case Sleep(_) => q == p
    case Kill(i) => q == i
    case WakeAt(i, _) => q == i
    case WaitAt(i, _) => q == i
    case WaitTest => q == p
    case WaitSleep => q == p
    case WaitDoze => q == p
    case WaitResume => q == p
    case ExitInitAt(_, j) => q == j
    case ExitWakeAt(j) => q == j
    case ExitLocked => q == p
    case ExitZombie => q == p
    case ExitSched => q == p
    case ForkAt(i) => q == i
    case ForkUsed(i) => q == i
    case ForkLast(i) => q == i
    case _ => false
  }

  /** ... and wait_lock. */
  predicate WaitsAt(pc: Pc) {
    || pc.WaitScan? || pc.WaitAt? || pc.WaitTest? || pc.WaitTested? || pc.WaitSleep? || pc.Exit? || pc.ExitInit? || pc.ExitInitAt?
    || pc.ExitWake? || pc.ExitWakeAt? || pc.ExitLock? || pc.ExitLocked? || pc.ExitZombie? || pc.ForkWait?
  }

  predicate Shapes(s: St) {
    && |s.state| == |s.chan| == |s.parent| == |s.killed| == |s.pc| == |s.plock| == |s.on| == |s.maker|
    && INIT < |s.state|
  }

  predicate Holds(s: St, c: nat, q: nat)
    requires Shapes(s) && c < |s.cpu|
  {
    match s.cpu[c]
    case Idle => false
    case Holding(p) => q == p
    case Back(p) => q == p
    case Running(p) => p < |s.pc| && HoldsAt(s.pc[p], p, q)
  }

  predicate HoldsWait(s: St, c: nat)
    requires Shapes(s) && c < |s.cpu|
  {
    s.cpu[c].Running? && s.cpu[c].p < |s.pc| && WaitsAt(s.pc[s.cpu[c].p])
  }

  /** The locks of CPU `c` follow it from `s` to `t`: those it no longer holds
      become free, and it takes only free ones. */
  predicate Relocked(s: St, t: St, c: nat)
    requires Shapes(s) && Shapes(t) && c < |s.cpu| == |t.cpu| && |t.state| == |s.state|
  {
    && (forall q | 0 <= q < |s.state| ::
          t.plock[q] == if Holds(t, c, q) then Some(c) else if Holds(s, c, q) then None else s.plock[q])
    && (forall q | 0 <= q < |s.state| && Holds(t, c, q) && !Holds(s, c, q) :: s.plock[q] == None)
    && t.wlock == (if HoldsWait(t, c) then Some(c) else if HoldsWait(s, c) then None else s.wlock)
    && (HoldsWait(t, c) && !HoldsWait(s, c) ==> s.wlock == None)
  }

  /** Each lock is held by the one CPU that should hold it. */
  predicate Locks(s: St)
    requires Shapes(s)
  {
    && (forall q, c | 0 <= q < |s.state| && 0 <= c < |s.cpu| :: s.plock[q] == Some(c) <==> Holds(s, c, q))
    && (forall q | 0 <= q < |s.state| && s.plock[q].Some? :: s.plock[q].value < |s.cpu|)
    && (forall c | 0 <= c < |s.cpu| :: s.wlock == Some(c) <==> HoldsWait(s, c))
    && (s.wlock.Some? ==> s.wlock.value < |s.cpu|)
  }

  lemma LocksKept(s: St, t: St, c: nat)
    requires Shapes(s) && Shapes(t) && c < |s.cpu| == |t.cpu| && |t.state| == |s.state|
    requires Locks(s) && Relocked(s, t, c)
    requires forall d, q | 0 <= d < |s.cpu| && d != c && 0 <= q < |s.state| :: Holds(t, d, q) == Holds(s, d, q)
    requires forall d | 0 <= d < |s.cpu| && d != c :: HoldsWait(t, d) == HoldsWait(s, d)
    ensures Locks(t)
  {
    hide Holds, HoldsWait;
    forall q, d | 0 <= q < |t.state| && 0 <= d < |t.cpu| ensures t.plock[q] == Some(d) <==> Holds(t, d, q) {
      assert s.plock[q] == Some(d) <==> Holds(s, d, q);
      assert s.plock[q] == Some(c) <==> Holds(s, c, q);
    }
    forall d | 0 <= d < |t.cpu| ensures t.wlock == Some(d) <==> HoldsWait(t, d) {
      assert s.wlock == Some(d) <==> HoldsWait(s, d);
      assert s.wlock == Some(c) <==> HoldsWait(s, c);
    }
  }

  // ---------------------------------------------------------------- invariant

  predicate Here(s: St, p: nat)
    requires Shapes(s) && p < |s.state|
  {
    s.on[p].Some? && s.on[p].value < |s.cpu| && s.cpu[s.on[p].value] == Running(p)
  }

  predicate Away(s: St, p: nat)
    requires Shapes(s) && p < |s.state|
  {
    s.on[p].Some? ==> s.on[p].value < |s.cpu| && s.cpu[s.on[p].value] == Back(p)
  }

  predicate CpuOk(s: St, c: nat)
    requires Shapes(s) && c < |s.cpu|
  {
    match s.cpu[c]
    case Idle => true
    case Holding(p) => p < |s.state|
    case Running(p) => p < |s.state| && s.on[p] == Some(c)
    case Back(p) => p < |s.state| && s.on[p] == Some(c)
  }

  /** A process that `scheduler` may pick up again. */
  predicate Parked(pc: Pc) { pc.Fresh? || pc.Resume? || pc.WaitResume? }

  /** No spinlock is held here, so a timer interrupt makes the process yield. */
  predicate LockFree(pc: Pc) {
    pc.Run? || pc.Wake? || pc.WaitAgain? || pc.Fork? || pc.ForkMade? || pc.ForkChild?
  }

  /** Where a process is, or will be once its `yield` returns. */
  function Core(pc: Pc): Pc {
    if pc.Yield? || pc.Resume? then pc.back else pc
  }

  predicate Fits(pc: Pc, n: nat) {
    Within(Core(pc), n) && (pc.Yield? || pc.Resume? ==> LockFree(pc.back))
  }

  predicate Within(pc: Pc, n: nat) {
    match pc
    case NoThread => false
    case Dead => false
    case ExitZombie => false
    case ExitSched => false
    case Kill(q) => q < n
    case Wake(i, _) => i <= n
    case WakeAt(i, _) => i < n
    case WaitScan(i, _) => i <= n
    case WaitAt(i, _) => i < n
    case Exit(i) => i <= n
    case ExitInit(i, j) => i < n && j <= n
    case ExitInitAt(i, j) => i < n && j < n
    case ExitWake(j) => j <= n
    case ExitWakeAt(j) => j < n
    case Fork(i) => i <= n
    case ForkAt(i) => i < n
    case ForkUsed(i) => i < n
    case ForkMade(i) => i < n
    case ForkWait(i) => i < n
    case ForkChild(i) => i < n
    case ForkLast(i) => i < n
    case _ => true
  }

  predicate Exiting(pc: Pc) {
    pc.Exit? || pc.ExitInit? || pc.ExitInitAt? || pc.ExitWake? || pc.ExitWakeAt? || pc.ExitLock? || pc.ExitLocked?
  }

  predicate ProcOk(s: St, p: nat)
    requires Shapes(s) && p < |s.state|
  {
    && (s.parent[p].Some? ==> s.parent[p].value < |s.state|)
    && (p == INIT ==> !Exiting(s.pc[p]))
    && match s.state[p]
       case UNUSED => s.on[p] == None && s.pc[p] == NoThread
       case USED => s.on[p] == None && s.pc[p] == Fresh
       case RUNNABLE => Parked(s.pc[p]) && Fits(s.pc[p], |s.state|) && Away(s, p)
       case SLEEPING =>
         && Away(s, p)
         && ((s.pc[p] == Resume(Run) && s.chan[p].Other?) || (s.pc[p] == WaitResume && s.chan[p] == ProcChan(p)))
       case RUNNING => Here(s, p) && Fits(s.pc[p], |s.state|)
       case ZOMBIE => if s.pc[p] == Dead then Away(s, p) else Here(s, p) && (s.pc[p] == ExitZombie || s.pc[p] == ExitSched)
  }

  function Making(pc: Pc): Option<nat> {
    match pc
    case ForkUsed(i) => Some(i)
    case ForkMade(i) => Some(i)
    case ForkWait(i) => Some(i)
    case ForkChild(i) => Some(i)
    case ForkLast(i) => Some(i)
    case _ => None
  }

  /** A slot that is being forked is USED, and by one process only, on a CPU or
      not. */
  predicate MakerOk(s: St, p: nat)
    requires Shapes(s) && p < |s.state|
  {
    Making(Core(s.pc[p])).Some? ==>
      var i := Making(Core(s.pc[p])).value;
      i < |s.state| && s.state[i] == USED && s.maker[i] == Some(p)
  }

  /** Asleep in `wait`, or on the way there with no further check. */
  predicate Blocked(s: St, p: nat)
    requires Shapes(s) && p < |s.state|
  {
    || (s.state[p] == SLEEPING && s.chan[p] == ProcChan(p))
    || (s.state[p] == RUNNING && (s.pc[p] == WaitSleep || s.pc[p] == WaitDoze))
  }

  predicate ZombieChild(s: St, q: nat, p: nat)
    requires Shapes(s) && q < |s.state|
  {
    s.state[q] == ZOMBIE && s.parent[q] == Some(p)
  }

  /** `wait` has looked at the slots below `i`, or at all of them. */
  predicate ScanOk(s: St, p: nat)
    requires Shapes(s) && p < |s.state|
  {
    && (s.state[p] == RUNNING && s.pc[p].WaitScan? ==> forall q | 0 <= q < s.pc[p].i && q < |s.state| :: !ZombieChild(s, q, p))
    && (s.state[p] == RUNNING && s.pc[p].WaitAt? ==> forall q | 0 <= q < s.pc[p].i && q < |s.state| :: !ZombieChild(s, q, p))
    && (s.state[p] == RUNNING && (s.pc[p].WaitTest? || s.pc[p].WaitTested?) ==> forall q | 0 <= q < |s.state| :: !ZombieChild(s, q, p))
  }

  /** `exit` has called `wakeup` on the parent `p`. */
  predicate Woke(pc: Pc, p: nat) {
    || (pc.ExitWake? && pc.j > p) || (pc.ExitWakeAt? && pc.j > p) || pc.ExitLock? || pc.ExitLocked?
  }

  predicate WokenOk(s: St, e: nat)
    requires Shapes(s) && e < |s.state|
  {
    (s.state[e] == RUNNING && s.parent[e].Some? && s.parent[e].value < |s.state| && Woke(s.pc[e], s.parent[e].value)) ==>
      !Blocked(s, s.parent[e].value)
  }

  /** The holder of wait_lock is in `reparent` and has yet to wake `initproc`. */
  predicate Rescue(s: St, p: nat)
    requires Shapes(s)
  {
    && p == INIT && s.wlock.Some? && s.wlock.value < |s.cpu| && s.cpu[s.wlock.value].Running?
    && s.cpu[s.wlock.value].p < |s.state| && WillWake(s.pc[s.cpu[s.wlock.value].p])
  }

  predicate WillWake(pc: Pc) {
    (pc.ExitInit? && pc.j <= INIT) || (pc.ExitInitAt? && pc.j <= INIT)
  }

  predicate ZombieOk(s: St, q: nat)
    requires Shapes(s) && q < |s.state|
  {
    (s.state[q] == ZOMBIE && s.parent[q].Some? && s.parent[q].value < |s.state| && Blocked(s, s.parent[q].value)) ==>
      Rescue(s, s.parent[q].value)
  }

  predicate Procs(s: St)
    requires Shapes(s)
  {
    forall p | 0 <= p < |s.state| :: ProcOk(s, p)
  }

  predicate Cpus(s: St)
    requires Shapes(s)
  {
    forall c | 0 <= c < |s.cpu| :: CpuOk(s, c)
  }

  predicate Forks(s: St)
    requires Shapes(s)
  {
    forall p | 0 <= p < |s.state| :: MakerOk(s, p)
  }

  predicate Waits(s: St)
    requires Shapes(s)
  {
    && (forall p | 0 <= p < |s.state| :: ScanOk(s, p))
    && (forall p | 0 <= p < |s.state| :: WokenOk(s, p))
    && (forall p | 0 <= p < |s.state| :: ZombieOk(s, p))
  }

  predicate Inv(s: St) {
    Shapes(s) && Locks(s) && Procs(s) && Cpus(s) && Forks(s) && Waits(s)
  }

  // ---------------------------------------------------------------- steps

  datatype Action =
    | Pick(c: nat, p: nat)        // scheduler: acquire(&p->lock)
    | Skip(c: nat)                // not RUNNABLE: release
    | Dispatch(c: nat)            // RUNNABLE: run it
    | Return(c: nat)              // c->proc = 0, release
    | Intr(c: nat, i: nat, k: nat) // an interrupt on a CPU without locks: wakeup, at slot i
    | Go(c: nat, to: Pc)          // the process on c moves on and changes nothing but locks
    | Begin(c: nat)               // the process is back from the scheduler
    | Switch(c: nat)              // sched()
    | Rouse(c: nat)               // a body of wakeup, or of kill
    | Reap(c: nat)                // wait: freeproc
    | Adopt(c: nat)               // reparent: pp->parent = initproc
    | Die(c: nat)                 // exit: p->state = ZOMBIE
    | Take(c: nat)                // allocproc: p->state = USED
    | Undo(c: nat)                // fork: freeproc after a failure
    | SetParent(c: nat)           // fork: np->parent = p
    | Launch(c: nat)              // fork: np->state = RUNNABLE

  /** Where the process `p` may go without changing anything but locks. */
  predicate Moves(s: St, p: nat, to: Pc)
    requires Shapes(s) && p < |s.state|
  {
    (LockFree(s.pc[p]) && to == Yield(s.pc[p])) || Proceeds(s, p, to)
  }

  predicate Proceeds(s: St, p: nat, to: Pc)
    requires Shapes(s) && p < |s.state|
  {
    var n := |s.state|;
    match s.pc[p]
    case Run =>
      || to.Sleep? || (to.Kill? && to.q < n) || (to.Wake? && to.i == 0) || to == WaitScan(0, false)
      || (to == Exit(0) && p != INIT) || to == Fork(0)
    case Wake(i, k) => to == if i == n then Run else if i == p then Wake(i + 1, k) else WakeAt(i, k)
    case WaitAgain => to == WaitScan(0, false)
    case WaitScan(i, kids) =>
      if i < n then to == if s.parent[i] == Some(p) then WaitAt(i, kids) else WaitScan(i + 1, kids)
      else to == if kids then WaitTest else Run
    case WaitAt(i, kids) => i < n && to == if s.state[i] == ZOMBIE then Run else WaitScan(i + 1, true)
    case WaitTest => to == if s.killed[p] then Run else WaitTested
    case WaitTested => to == WaitSleep
    case WaitSleep => to == WaitDoze
    case Exit(i) => if i < n then s.parent[i] != Some(p) && to == Exit(i + 1) else to == ExitWake(0)
    case ExitInit(i, j) => to == if j == n then Exit(i + 1) else if j == p then ExitInit(i, j + 1) else ExitInitAt(i, j)
    case ExitWake(j) => to == if j == n then ExitLock else if j == p then ExitWake(j + 1) else ExitWakeAt(j)
    case ExitLock => to == ExitLocked
    case ExitZombie => to == ExitSched
    case Fork(i) => to == if i == n then Run else ForkAt(i)
    case ForkAt(i) => i < n && s.state[i] != UNUSED && to == Fork(i + 1)
    case ForkUsed(i) => to == ForkMade(i)
    case ForkMade(i) => to == ForkWait(i)
    case ForkChild(i) => to == ForkLast(i)
    case _ => false
  }

  /** What `wakeup` looks for at a program counter, `kill` taking anything. */
  predicate Rouses(s: St, p: nat, i: nat)
    requires Shapes(s) && p < |s.state| && i < |s.state|
  {
    && s.state[i] == SLEEPING
    && match s.pc[p]
       case Kill(_) => true
       case WakeAt(_, k) => s.chan[i] == Other(k)
       case ExitInitAt(_, _) => s.chan[i] == ProcChan(INIT)
       case ExitWakeAt(_) => s.parent[p].Some? && s.chan[i] == ProcChan(s.parent[p].value)
       case _ => false
  }

  function Roused(pc: Pc): Option<(nat, Pc)> {
    match pc
    case Kill(q) => Some((q, Run))
    case WakeAt(i, k) => Some((i, Wake(i + 1, k)))
    case ExitInitAt(i, j) => Some((j, ExitInit(i, j + 1)))
    case ExitWakeAt(j) => Some((j, ExitWake(j + 1)))
    case _ => None
  }

  /** The process on CPU `c`. */
  predicate OnCpu(s: St, c: nat, p: nat) {
    c < |s.cpu| && s.cpu[c] == Running(p) && p < |s.state|
  }

  function At(s: St, p: nat, pc: Pc): St
    requires p < |s.pc|
  {
    s.(pc := s.pc[p := pc])
  }

  /** `freeproc`. */
  function Freed(s: St, i: nat): St
    requires Shapes(s) && i < |s.state|
  {
    s.(state := s.state[i := UNUSED], chan := s.chan[i := NoChan], parent := s.parent[i := None],
       killed := s.killed[i := false], pc := s.pc[i := NoThread])
  }

  /** A CPU that holds no lock has interrupts on. */
  predicate Interruptible(s: St, c: nat)
    requires c < |s.cpu|
  {
    s.cpu[c] == Idle || (s.cpu[c].Running? && s.cpu[c].p < |s.pc| && LockFree(s.pc[s.cpu[c].p]))
  }

  /** Where a process goes on when it is back on a CPU. */
  function Continue(pc: Pc): Pc
    requires Parked(pc)
  {
    match pc
    case Resume(back) => back
    case WaitResume => WaitAgain
    case _ => Run
  }

  /** A step without its effect on locks. */
  predicate Effect(s: St, a: Action, t: St)
    requires Shapes(s)
  {
    match a
    case Pick(c, p) => c < |s.cpu| && s.cpu[c] == Idle && p < |s.state| && t == s.(cpu := s.cpu[c := Holding(p)])
    case Skip(c) =>
      && c < |s.cpu| && s.cpu[c].Holding? && s.cpu[c].p < |s.state| && s.state[s.cpu[c].p] != RUNNABLE
      && t == s.(cpu := s.cpu[c := Idle])
    case Dispatch(c) =>
      && c < |s.cpu| && s.cpu[c].Holding? && s.cpu[c].p < |s.state| && s.state[s.cpu[c].p] == RUNNABLE
      && var p := s.cpu[c].p;
         t == s.(cpu := s.cpu[c := Running(p)], state := s.state[p := RUNNING], on := s.on[p := Some(c)])
    case Return(c) =>
      && c < |s.cpu| && s.cpu[c].Back? && s.cpu[c].p < |s.state|
      && t == s.(cpu := s.cpu[c := Idle], on := s.on[s.cpu[c].p := None])
    case Intr(c, i, k) =>
      && c < |s.cpu| && Interruptible(s, c) && i < |s.state| && s.plock[i] == None
      && t == if s.state[i] == SLEEPING && s.chan[i] == Other(k) then s.(state := s.state[i := RUNNABLE]) else s
    case _ => a.c < |s.cpu| && s.cpu[a.c].Running? && s.cpu[a.c].p < |s.state| && ProcEffect(s, a, s.cpu[a.c].p, t)
  }

  predicate ProcEffect(s: St, a: Action, p: nat, t: St)
    requires Shapes(s) && a.c < |s.cpu| && p < |s.state|
  {
    match a
    case Go(c, to) => Moves(s, p, to) && t == At(s, p, to)
    case Begin(c) =>
      && Parked(s.pc[p])
      && t == At(s, p, Continue(s.pc[p])).(chan := s.chan[p := NoChan])
    case Switch(c) =>
      && (s.pc[p].Yield? || s.pc[p].Sleep? || s.pc[p].WaitDoze? || s.pc[p].ExitSched?)
      && t == (match s.pc[p]
               case Yield(back) => At(s, p, Resume(back)).(state := s.state[p := RUNNABLE])
               case Sleep(k) => At(s, p, Resume(Run)).(state := s.state[p := SLEEPING], chan := s.chan[p := Other(k)])
               case WaitDoze => At(s, p, WaitResume).(state := s.state[p := SLEEPING], chan := s.chan[p := ProcChan(p)])
               case _ => At(s, p, Dead)).(cpu := s.cpu[c := Back(p)])
    case Rouse(c) =>
      && Roused(s.pc[p]).Some? && Roused(s.pc[p]).value.0 < |s.state|
      && var (i, to) := Roused(s.pc[p]).value;
         t == At(s, p, to).(state := if Rouses(s, p, i) then s.state[i := RUNNABLE] else s.state,
                            killed := if s.pc[p].Kill? then s.killed[i := true] else s.killed)
    case Reap(c) =>
      && s.pc[p].WaitAt? && s.pc[p].i < |s.state| && s.state[s.pc[p].i] == ZOMBIE
      && t == At(Freed(s, s.pc[p].i), p, Run)
    case Adopt(c) =>
      && s.pc[p].Exit? && s.pc[p].i < |s.state| && s.parent[s.pc[p].i] == Some(p)
      && t == At(s, p, ExitInit(s.pc[p].i, 0)).(parent := s.parent[s.pc[p].i := Some(INIT)])
    case Die(c) => s.pc[p] == ExitLocked && t == At(s, p, ExitZombie).(state := s.state[p := ZOMBIE])
    case Take(c) =>
      && s.pc[p].ForkAt? && s.pc[p].i < |s.state| && s.state[s.pc[p].i] == UNUSED
      && t == At(At(s, s.pc[p].i, Fresh), p, ForkUsed(s.pc[p].i)).(
                state := s.state[s.pc[p].i := USED], maker := s.maker[s.pc[p].i := Some(p)])
    case Undo(c) =>
      && s.pc[p].ForkUsed? && s.pc[p].i < |s.state|
      && t == At(Freed(s, s.pc[p].i), p, Run)
    case SetParent(c) =>
      && s.pc[p].ForkWait? && s.pc[p].i < |s.state|
      && t == At(s, p, ForkChild(s.pc[p].i)).(parent := s.parent[s.pc[p].i := Some(p)])
    case Launch(c) =>
      && s.pc[p].ForkLast? && s.pc[p].i < |s.state|
      && t == At(s, p, Run).(state := s.state[s.pc[p].i := RUNNABLE])
    case _ => false
  }

  predicate Next(s: St, a: Action, t: St) {
    && Shapes(s) && Shapes(t) && a.c < |s.cpu| == |t.cpu| && |t.state| == |s.state|
    && Effect(s, a, t.(plock := s.plock, wlock := s.wlock)) && Relocked(s, t, a.c)
  }

  // ---------------------------------------------------------------- locks exclude

  /** Two CPUs do not hold the same lock. */
  lemma OneHolder(s: St, c: nat, d: nat, q: nat)
    requires Shapes(s) && Locks(s) && c < |s.cpu| && d < |s.cpu| && q < |s.state|
    ensures Holds(s, c, q) && Holds(s, d, q) ==> c == d
    ensures HoldsWait(s, c) && HoldsWait(s, d) ==> c == d
  {
    hide Holds, HoldsWait;
    assert s.plock[q] == Some(c) <==> Holds(s, c, q);
    assert s.plock[q] == Some(d) <==> Holds(s, d, q);
  }

  /** A process whose lock another party holds, and that is not running, is on no CPU. */
  lemma LockedAway(s: St, c: nat, q: nat)
    requires Shapes(s) && Locks(s) && Procs(s) && c < |s.cpu| && q < |s.state| && Holds(s, c, q)
    requires s.cpu[c] != Back(q) && s.cpu[c] != Running(q)
    ensures s.state[q] == SLEEPING || s.state[q] == RUNNABLE || s.state[q] == ZOMBIE ==> s.on[q] == None
    ensures s.state[q] == ZOMBIE ==> s.pc[q] == Dead
    ensures s.state[q] == RUNNING ==> s.pc[q] != WaitSleep && s.pc[q] != WaitDoze
  {
    assert ProcOk(s, q);
    if s.on[q].Some? && s.on[q].value < |s.cpu| {
      OneHolder(s, c, s.on[q].value, q);
    }
  }

  /** Only one process has a program counter that holds wait_lock. */
  lemma OneWaits(s: St, p: nat, x: nat)
    requires Shapes(s) && Locks(s) && Procs(s) && p < |s.state| && x < |s.state|
    requires s.state[p] == RUNNING && WaitsAt(s.pc[p]) && s.state[x] == RUNNING && WaitsAt(s.pc[x])
    ensures p == x
  {
    assert ProcOk(s, p) && ProcOk(s, x);
    OneHolder(s, s.on[p].value, s.on[x].value, p);
  }

  /** No other process holds wait_lock. */
  lemma AloneWaits(s: St, p: nat)
    requires Shapes(s) && Locks(s) && Procs(s) && p < |s.state| && s.state[p] == RUNNING && WaitsAt(s.pc[p])
    ensures forall x | 0 <= x < |s.state| && x != p && s.state[x] == RUNNING :: !WaitsAt(s.pc[x])
  {
    hide WaitsAt;
    forall x | 0 <= x < |s.state| && x != p && s.state[x] == RUNNING ensures !WaitsAt(s.pc[x]) {
      if WaitsAt(s.pc[x]) {
        OneWaits(s, p, x);
      }
    }
  }

  // ---------------------------------------------------------------- parts of the invariant

  lemma StepLocks(s: St, t: St, c: nat)
    requires Shapes(s) && Shapes(t) && c < |s.cpu| == |t.cpu| && |t.state| == |s.state|
    requires Locks(s) && Cpus(s) && Relocked(s, t, c)
    requires forall d | 0 <= d < |s.cpu| && d != c :: t.cpu[d] == s.cpu[d]
    requires forall x | 0 <= x < |s.state| :: t.pc[x] == s.pc[x] || s.on[x] == None || s.on[x] == Some(c)
    ensures Locks(t)
  {
    forall d | 0 <= d < |s.cpu| && d != c
      ensures HoldsWait(t, d) == HoldsWait(s, d) && forall q | 0 <= q < |s.state| :: Holds(t, d, q) == Holds(s, d, q)
    {
      assert CpuOk(s, d);
    }
    LocksKept(s, t, c);
  }

  /** Nothing that `ProcOk` looks at changed for `x`. */
  lemma ProcSame(s: St, t: St, x: nat)
    requires Shapes(s) && Shapes(t) && |s.cpu| == |t.cpu| && |t.state| == |s.state| && x < |s.state| && ProcOk(s, x)
    requires t.state[x] == s.state[x] && t.pc[x] == s.pc[x] && t.chan[x] == s.chan[x] && t.on[x] == s.on[x]
    requires t.parent[x].Some? ==> t.parent[x].value < |s.state|
    requires s.on[x].Some? && s.on[x].value < |s.cpu| ==> t.cpu[s.on[x].value] == s.cpu[s.on[x].value]
    ensures ProcOk(t, x)
  {
  }

  /** The waiting part of the invariant for a step of `p` that creates no zombie
      and no sleeper. */
  lemma WaitsKept(s: St, t: St, p: nat)
    requires Shapes(s) && Shapes(t) && |t.state| == |s.state| && Waits(s)
    requires forall x | 0 <= x < |s.state| :: Blocked(t, x) ==> Blocked(s, x)
    requires forall q | 0 <= q < |s.state| && t.state[q] == ZOMBIE :: s.state[q] == ZOMBIE && t.parent[q] == s.parent[q]
    requires Rescue(s, INIT) && Blocked(t, INIT) ==> Rescue(t, INIT)
    requires forall x | 0 <= x < |s.state| && x != p && t.state[x] == RUNNING ::
               s.state[x] == RUNNING && t.pc[x] == s.pc[x] && (t.parent[x] == s.parent[x] || !WaitsAt(s.pc[x]))
    requires p < |s.state| ==> ScanOk(t, p) && WokenOk(t, p)
    ensures Waits(t)
  {
    hide Blocked, Rescue;
    forall x | 0 <= x < |t.state| ensures ScanOk(t, x) {
      assert ScanOk(s, x);
      forall q | 0 <= q < |s.state| && ZombieChild(t, q, x) ensures ZombieChild(s, q, x) {
        assert t.state[q] == ZOMBIE;
      }
    }
    forall x | 0 <= x < |t.state| ensures WokenOk(t, x) {
      assert WokenOk(s, x);
    }
    forall x | 0 <= x < |t.state| ensures ZombieOk(t, x) {
      ZombieKept(s, t, x);
    }
  }

  lemma ZombieKept(s: St, t: St, q: nat)
    requires Shapes(s) && Shapes(t) && |t.state| == |s.state| && q < |s.state| && ZombieOk(s, q)
    requires forall x | 0 <= x < |s.state| :: Blocked(t, x) ==> Blocked(s, x)
    requires t.state[q] == ZOMBIE ==> s.state[q] == ZOMBIE && t.parent[q] == s.parent[q]
    requires Rescue(s, INIT) && Blocked(t, INIT) ==> Rescue(t, INIT)
    ensures ZombieOk(t, q)
  {
  }

  /** `Rescue` depends on the holder of wait_lock only. */
  lemma RescueSame(s: St, t: St, c: nat)
    requires Shapes(s) && Shapes(t) && c < |s.cpu| == |t.cpu| && |t.state| == |s.state|
    requires Locks(s) && Cpus(s) && Relocked(s, t, c)
    requires forall d | 0 <= d < |s.cpu| && d != c :: t.cpu[d] == s.cpu[d]
    requires forall x | 0 <= x < |s.state| :: t.pc[x] == s.pc[x] || s.on[x] == None || s.on[x] == Some(c)
    requires s.cpu[c].Running? && s.cpu[c].p < |s.state| && WillWake(s.pc[s.cpu[c].p]) ==>
               t.cpu[c] == s.cpu[c] && WillWake(t.pc[s.cpu[c].p])
    ensures Rescue(s, INIT) ==> Rescue(t, INIT)
  {
    if Rescue(s, INIT) {
      var d := s.wlock.value;
      assert s.wlock == Some(d) <==> HoldsWait(s, d);
      assert s.wlock == Some(c) <==> HoldsWait(s, c);
      assert CpuOk(s, d);
    }
  }

  // ---------------------------------------------------------------- the scheduler

  lemma PickKeeps(s: St, a: Action, t: St)
    requires Inv(s) && Next(s, a, t) && (a.Pick? || a.Skip?)
    ensures Inv(t)
  {
    hide Relocked, Holds, HoldsWait;
    StepLocks(s, t, a.c);
    RescueSame(s, t, a.c);
    hide Locks;
    forall x | 0 <= x < |t.state| ensures ProcOk(t, x) && MakerOk(t, x) {
      assert ProcOk(s, x) && MakerOk(s, x);
      ProcSame(s, t, x);
    }
    forall d | 0 <= d < |t.cpu| ensures CpuOk(t, d) {
      assert CpuOk(s, d);
    }
    WaitsKept(s, t, |s.state|);
  }

  lemma DispatchKeeps(s: St, a: Action, t: St)
    requires Inv(s) && Next(s, a, t) && a.Dispatch?
    ensures Inv(t)
  {
    var c, p := a.c, s.cpu[a.c].p;
    LockedAway(s, c, p);
    DispatchWaits(s, a, t);
    hide Relocked, Holds, HoldsWait, Waits;
    StepLocks(s, t, c);
    hide Locks;
    forall x | 0 <= x < |t.state| ensures ProcOk(t, x) && MakerOk(t, x) {
      assert ProcOk(s, x) && MakerOk(s, x);
      if x != p {
        ProcSame(s, t, x);
      }
    }
    forall d | 0 <= d < |t.cpu| ensures CpuOk(t, d) {
      assert CpuOk(s, d);
    }
  }

  lemma DispatchWaits(s: St, a: Action, t: St)
    requires Inv(s) && Next(s, a, t) && a.Dispatch?
    ensures Waits(t)
  {
    var p := s.cpu[a.c].p;
    hide Relocked, Holds, HoldsWait, Forks;
    assert Parked(s.pc[p]) by {
      assert ProcOk(s, p);
    }
    RescueSame(s, t, a.c);
    hide Locks, Procs, Cpus;
    WaitsKept(s, t, p);
  }

  lemma ReturnKeeps(s: St, a: Action, t: St)
    requires Inv(s) && Next(s, a, t) && a.Return?
    ensures Inv(t)
  {
    var c, p := a.c, s.cpu[a.c].p;
    assert CpuOk(s, c);
    hide Relocked, Holds, HoldsWait;
    StepLocks(s, t, c);
    RescueSame(s, t, c);
    hide Locks;
    forall x | 0 <= x < |t.state| ensures ProcOk(t, x) && MakerOk(t, x) {
      assert ProcOk(s, x) && MakerOk(s, x);
      if x != p {
        ProcSame(s, t, x);
      }
    }
    forall d | 0 <= d < |t.cpu| ensures CpuOk(t, d) {
      assert CpuOk(s, d);
    }
    WaitsKept(s, t, |s.state|);
  }

  lemma IntrKeeps(s: St, a: Action, t: St)
    requires Inv(s) && Next(s, a, t) && a.Intr?
    ensures Inv(t)
  {
    hide Relocked, Holds, HoldsWait;
    StepLocks(s, t, a.c);
    RescueSame(s, t, a.c);
    hide Locks;
    RousedKept(s, t, |s.state|);
    hide Procs, Forks, Cpus;
    WaitsKept(s, t, |s.state|);
  }

  // ---------------------------------------------------------------- a running process

  /** What is known of the process on a CPU. */
  lemma Runner(s: St, c: nat)
    requires Shapes(s) && Procs(s) && Cpus(s) && c < |s.cpu| && s.cpu[c].Running?
    ensures var p := s.cpu[c].p;
            && p < |s.state| && s.on[p] == Some(c)
            && (s.state[p] == RUNNING || (s.state[p] == ZOMBIE && (s.pc[p] == ExitZombie || s.pc[p] == ExitSched)))
  {
    assert CpuOk(s, c);
    assert ProcOk(s, s.cpu[c].p);
  }

  lemma Parents(s: St)
    requires Shapes(s) && Procs(s)
    ensures forall x | 0 <= x < |s.state| && s.parent[x].Some? :: s.parent[x].value < |s.state|
  {
    forall x | 0 <= x < |s.state| && s.parent[x].Some? ensures s.parent[x].value < |s.state| {
      assert ProcOk(s, x);
    }
  }

  /** A step of `p` on CPU `c` leaves the other processes and CPUs as they were. */
  lemma ProcsKept(s: St, t: St, c: nat, p: nat)
    requires Shapes(s) && Shapes(t) && c < |s.cpu| == |t.cpu| && |t.state| == |s.state| && OnCpu(s, c, p)
    requires Procs(s) && Forks(s) && Cpus(s) && t.on == s.on
    requires forall d | 0 <= d < |s.cpu| && d != c :: t.cpu[d] == s.cpu[d]
    requires forall x | 0 <= x < |s.state| && x != p :: t.state[x] == s.state[x] && t.pc[x] == s.pc[x] && t.chan[x] == s.chan[x]
    requires forall x | 0 <= x < |s.state| && t.parent[x].Some? :: t.parent[x].value < |s.state|
    requires t.maker == s.maker && s.state[p] != USED
    requires ProcOk(t, p) && MakerOk(t, p) && CpuOk(t, c)
    ensures Procs(t) && Forks(t) && Cpus(t)
  {
    forall x | 0 <= x < |t.state| ensures ProcOk(t, x) {
      assert ProcOk(s, x);
      if x != p {
        ProcSame(s, t, x);
      }
    }
    forall x | 0 <= x < |t.state| ensures MakerOk(t, x) {
      assert MakerOk(s, x);
    }
    forall d | 0 <= d < |t.cpu| ensures CpuOk(t, d) {
      assert CpuOk(s, d);
    }
  }

  /** The same for a step that also changes the idle slot `i`. */
  lemma SlotKept(s: St, t: St, c: nat, p: nat, i: nat)
    requires Shapes(s) && Shapes(t) && c < |s.cpu| && |t.state| == |s.state| && OnCpu(s, c, p) && i < |s.state| && i != p
    requires Procs(s) && Forks(s) && Cpus(s) && t.on == s.on && t.cpu == s.cpu
    requires forall x | 0 <= x < |s.state| && x != p && x != i ::
               t.state[x] == s.state[x] && t.pc[x] == s.pc[x] && t.chan[x] == s.chan[x] && t.maker[x] == s.maker[x]
    requires forall x | 0 <= x < |s.state| && t.parent[x].Some? :: t.parent[x].value < |s.state|
    requires s.state[p] != USED && (s.state[i] == USED ==> s.maker[i] == Some(p)) && (t.pc[i].NoThread? || t.pc[i].Fresh?)
    requires ProcOk(t, p) && MakerOk(t, p) && ProcOk(t, i)
    ensures Procs(t) && Forks(t) && Cpus(t)
  {
    forall x | 0 <= x < |t.state| ensures ProcOk(t, x) {
      assert ProcOk(s, x);
      if x != p && x != i {
        ProcSame(s, t, x);
      }
    }
    forall x | 0 <= x < |t.state| ensures MakerOk(t, x) {
      assert MakerOk(s, x);
    }
    forall d | 0 <= d < |t.cpu| ensures CpuOk(t, d) {
      assert CpuOk(s, d);
    }
  }

  lemma GoKeeps(s: St, a: Action, t: St)
    requires Inv(s) && Next(s, a, t) && a.Go?
    ensures Inv(t)
  {
    var c, p := a.c, s.cpu[a.c].p;
    Runner(s, c);
    GoWaits(s, a, t);
    GoProc(s, a, t);
    hide Relocked, Holds, HoldsWait, Waits, Moves;
    StepLocks(s, t, c);
    hide Locks;
    Parents(s);
    ProcsKept(s, t, c, p);
  }

  lemma GoProc(s: St, a: Action, t: St)
    requires Inv(s) && Next(s, a, t) && a.Go?
    ensures OnCpu(s, a.c, s.cpu[a.c].p) && s.state[s.cpu[a.c].p] != USED
    ensures ProcOk(t, s.cpu[a.c].p) && MakerOk(t, s.cpu[a.c].p) && CpuOk(t, a.c)
  {
    hide Relocked, Locks, Waits, Moves, Fits, Exiting, Making;
    var p := s.cpu[a.c].p;
    Runner(s, a.c);
    assert ProcOk(s, p) && MakerOk(s, p);
    hide Procs, Cpus, Forks;
    GoShape(s, a, t);
    hide Next;
    MovesMake(s, p, a.to);
    MovesLeave(s, p, a.to);
    if s.state[p] == RUNNING {
      MovesFit(s, p, a.to);
    }
  }

  lemma GoShape(s: St, a: Action, t: St)
    requires Shapes(s) && Next(s, a, t) && a.Go?
    ensures OnCpu(s, a.c, s.cpu[a.c].p) && Shapes(t) && Moves(s, s.cpu[a.c].p, a.to)
    ensures t == At(s, s.cpu[a.c].p, a.to).(plock := t.plock, wlock := t.wlock)
  {
    hide Relocked, Moves;
  }

  /** A move stays within the table, and makes, or starts to exit, nothing new. */
  lemma MovesFit(s: St, p: nat, to: Pc)
    requires Shapes(s) && p < |s.state| && Moves(s, p, to) && Fits(s.pc[p], |s.state|)
    ensures Fits(to, |s.state|)
  {
    hide Proceeds, Within;
    if Proceeds(s, p, to) {
      ProceedsFits(s, p, to);
    }
  }

  lemma ProceedsFits(s: St, p: nat, to: Pc)
    requires Shapes(s) && p < |s.state| && Proceeds(s, p, to) && Fits(s.pc[p], |s.state|)
    ensures Fits(to, |s.state|) && !to.Yield? && !to.Resume?
  {
    hide LockFree;
  }

  lemma MovesMake(s: St, p: nat, to: Pc)
    requires Shapes(s) && p < |s.state| && Moves(s, p, to)
    ensures Making(Core(to)) == Making(Core(s.pc[p]))
  {
  }

  lemma MovesLeave(s: St, p: nat, to: Pc)
    requires Shapes(s) && p < |s.state| && Moves(s, p, to)
    ensures p == INIT && Exiting(to) ==> Exiting(s.pc[p])
    ensures s.pc[p] == ExitZombie ==> to == ExitSched
    ensures s.pc[p] != ExitSched
  {
  }

  lemma GoWaits(s: St, a: Action, t: St)
    requires Inv(s) && Next(s, a, t) && a.Go?
    ensures Waits(t)
  {
    var c, p := a.c, s.cpu[a.c].p;
    Runner(s, c);
    if a.to == WaitSleep {
      DozeWaits(s, a, t);
    } else {
      GoScan(s, a, t);
      GoWoken(s, a, t);
      GoRescue(s, a, t);
      hide Relocked, Locks, Procs, Cpus, Forks;
      assert Blocked(t, p) ==> Blocked(s, p);
      hide Moves;
      WaitsKept(s, t, p);
    }
  }

  lemma GoRescue(s: St, a: Action, t: St)
    requires Inv(s) && Next(s, a, t) && a.Go?
    ensures Rescue(s, INIT) ==> Rescue(t, INIT)
  {
    var p := s.cpu[a.c].p;
    hide Relocked, Holds, HoldsWait, Waits, Forks;
    Runner(s, a.c);
    assert ProcOk(s, p);
    hide Procs;
    RescueSame(s, t, a.c);
  }

  lemma GoWoken(s: St, a: Action, t: St)
    requires Inv(s) && Next(s, a, t) && a.Go?
    ensures s.cpu[a.c].p < |t.state| && WokenOk(t, s.cpu[a.c].p)
  {
    hide Relocked, Locks, Forks;
    var p := s.cpu[a.c].p;
    Runner(s, a.c);
    assert ProcOk(s, p) && WokenOk(s, p);
    hide Procs, Cpus, Waits;
  }

  lemma GoScan(s: St, a: Action, t: St)
    requires Inv(s) && Next(s, a, t) && a.Go?
    ensures s.cpu[a.c].p < |t.state| && ScanOk(t, s.cpu[a.c].p)
  {
    hide Relocked, Locks, Procs, Cpus, Forks;
    var p := s.cpu[a.c].p;
    assert ScanOk(s, p);
    forall q | 0 <= q < |s.state| ensures ZombieChild(t, q, p) == ZombieChild(s, q, p) {
    }
  }

  lemma HasWaitLock(s: St, c: nat)
    requires Shapes(s) && Locks(s) && c < |s.cpu| && HoldsWait(s, c)
    ensures s.wlock == Some(c)
  {
  }

  /** Going to sleep in `wait` with wait_lock held and every slot looked at. */
  lemma DozeWaits(s: St, a: Action, t: St)
    requires Inv(s) && Next(s, a, t) && a.Go? && a.to == WaitSleep
    ensures Waits(t)
  {
    hide Relocked, Locks, Procs, Cpus, Forks;
    var c, p := a.c, s.cpu[a.c].p;
    Runner(s, c);
    HasWaitLock(s, c);
    AloneWaits(s, p);
    assert ScanOk(s, p);
    forall x | 0 <= x < |t.state| ensures ScanOk(t, x) && WokenOk(t, x) {
      assert ScanOk(s, x) && WokenOk(s, x);
    }
    forall q | 0 <= q < |t.state| ensures ZombieOk(t, q) {
      assert ZombieOk(s, q) && !ZombieChild(s, q, p);
    }
  }

  lemma BeginProc(s: St, a: Action, t: St)
    requires Inv(s) && Next(s, a, t) && a.Begin?
    ensures OnCpu(s, a.c, s.cpu[a.c].p) && s.state[s.cpu[a.c].p] == RUNNING && s.on[s.cpu[a.c].p] == Some(a.c)
    ensures ProcOk(t, s.cpu[a.c].p) && MakerOk(t, s.cpu[a.c].p) && CpuOk(t, a.c) && LockFree(t.pc[s.cpu[a.c].p])
  {
    hide Relocked, Locks, Waits;
    Runner(s, a.c);
    assert ProcOk(s, s.cpu[a.c].p) && MakerOk(s, s.cpu[a.c].p);
    hide Procs, Cpus, Forks;
  }

  lemma BeginShape(s: St, a: Action, t: St)
    requires Shapes(s) && Next(s, a, t) && a.Begin? && LockFree(t.pc[s.cpu[a.c].p]) && s.state[s.cpu[a.c].p] == RUNNING
    ensures Shapes(t) && |t.state| == |s.state| && a.c < |s.cpu| == |t.cpu| && Relocked(s, t, a.c)
    ensures t.on == s.on && t.maker == s.maker && t.parent == s.parent && t.cpu == s.cpu && t.state == s.state
    ensures forall x | 0 <= x < |s.state| && x != s.cpu[a.c].p :: t.pc[x] == s.pc[x] && t.chan[x] == s.chan[x]
    ensures forall x | 0 <= x < |s.state| :: Blocked(t, x) ==> Blocked(s, x)
    ensures s.cpu[a.c].p < |t.state| && ScanOk(t, s.cpu[a.c].p) && WokenOk(t, s.cpu[a.c].p)
    ensures !WillWake(s.pc[s.cpu[a.c].p])
  {
    hide Relocked;
  }

  lemma BeginKeeps(s: St, a: Action, t: St)
    requires Inv(s) && Next(s, a, t) && a.Begin?
    ensures Inv(t)
  {
    var c, p := a.c, s.cpu[a.c].p;
    hide Relocked, Holds, HoldsWait, Locks, Procs, Cpus, Forks, Waits;
    BeginProc(s, a, t);
    BeginShape(s, a, t);
    hide Next;
    StepLocks(s, t, c);
    RescueSame(s, t, c);
    Parents(s);
    ProcsKept(s, t, c, p);
    WaitsKept(s, t, p);
  }

  lemma SwitchProc(s: St, a: Action, t: St)
    requires Inv(s) && Next(s, a, t) && a.Switch?
    ensures OnCpu(s, a.c, s.cpu[a.c].p) && s.state[s.cpu[a.c].p] != USED
    ensures ProcOk(t, s.cpu[a.c].p) && CpuOk(t, a.c)
  {
    hide Relocked, Locks, Waits, Forks, Making;
    Runner(s, a.c);
    assert ProcOk(s, s.cpu[a.c].p);
    hide Procs, Cpus;
  }

  lemma SwitchMaker(s: St, a: Action, t: St)
    requires Inv(s) && Next(s, a, t) && a.Switch?
    ensures MakerOk(t, s.cpu[a.c].p)
  {
    hide Relocked, Locks, Waits, Cpus;
    var p := s.cpu[a.c].p;
    assert ProcOk(s, p) && MakerOk(s, p);
    hide Procs, Forks;
  }

  lemma SwitchShape(s: St, a: Action, t: St)
    requires Shapes(s) && Next(s, a, t) && a.Switch?
    ensures Shapes(t) && |t.state| == |s.state| && a.c < |s.cpu| == |t.cpu| && Relocked(s, t, a.c)
    ensures t.on == s.on && t.maker == s.maker && t.parent == s.parent
    ensures forall d | 0 <= d < |s.cpu| && d != a.c :: t.cpu[d] == s.cpu[d]
    ensures forall x | 0 <= x < |s.state| && x != s.cpu[a.c].p :: t.state[x] == s.state[x] && t.pc[x] == s.pc[x] && t.chan[x] == s.chan[x]
  {
    hide Relocked;
  }

  lemma SwitchKeeps(s: St, a: Action, t: St)
    requires Inv(s) && Next(s, a, t) && a.Switch?
    ensures Inv(t)
  {
    var c, p := a.c, s.cpu[a.c].p;
    hide Relocked, Holds, HoldsWait, Locks, Procs, Cpus, Forks, Waits;
    Runner(s, c);
    SwitchWaits(s, a, t);
    SwitchProc(s, a, t);
    SwitchMaker(s, a, t);
    SwitchShape(s, a, t);
    hide Next;
    StepLocks(s, t, c);
    Parents(s);
    ProcsKept(s, t, c, p);
  }

  lemma SwitchWaits(s: St, a: Action, t: St)
    requires Inv(s) && Next(s, a, t) && a.Switch?
    ensures Waits(t)
  {
    var c, p := a.c, s.cpu[a.c].p;
    hide Relocked, Holds, HoldsWait, Forks, Waits, Locks;
    Runner(s, c);
    assert ProcOk(s, p);
    hide Procs, Cpus;
    SwitchOne(s, a, t);
    SwitchShape(s, a, t);
    hide Next;
    RescueSame(s, t, c);
    WaitsKept(s, t, p);
  }

  lemma SwitchOne(s: St, a: Action, t: St)
    requires Shapes(s) && Next(s, a, t) && a.Switch? && (s.pc[s.cpu[a.c].p].ExitSched? ==> s.state[s.cpu[a.c].p] == ZOMBIE)
    requires s.state[s.cpu[a.c].p] == RUNNING || s.state[s.cpu[a.c].p] == ZOMBIE
    requires s.state[s.cpu[a.c].p] == ZOMBIE ==> s.pc[s.cpu[a.c].p].ExitSched?
    ensures forall x | 0 <= x < |s.state| :: Blocked(t, x) ==> Blocked(s, x)
    ensures s.cpu[a.c].p < |t.state| && ScanOk(t, s.cpu[a.c].p) && WokenOk(t, s.cpu[a.c].p) && t.state[s.cpu[a.c].p] != RUNNING
    ensures !WillWake(s.pc[s.cpu[a.c].p]) && (t.state[s.cpu[a.c].p] == ZOMBIE ==> s.state[s.cpu[a.c].p] == ZOMBIE)
  {
    hide Relocked;
  }

  // ---------------------------------------------------------------- wakeup and kill

  lemma RouseKeeps(s: St, a: Action, t: St)
    requires Inv(s) && Next(s, a, t) && a.Rouse?
    ensures Inv(t)
  {
    var c, p := a.c, s.cpu[a.c].p;
    Runner(s, c);
    RouseWaits(s, a, t);
    RouseProc(s, a, t);
    hide Relocked, Holds, HoldsWait, Waits, Rouses;
    StepLocks(s, t, c);
    hide Locks;
    RousedKept(s, t, p);
  }

  /** Sleeping processes other than `p` may have become RUNNABLE. */
  lemma RousedKept(s: St, t: St, p: nat)
    requires Shapes(s) && Shapes(t) && |t.state| == |s.state| && Procs(s) && Forks(s) && Cpus(s)
    requires t.cpu == s.cpu && t.on == s.on && t.chan == s.chan && t.parent == s.parent && t.maker == s.maker
    requires forall x | 0 <= x < |s.state| && x != p :: t.pc[x] == s.pc[x]
    requires forall x | 0 <= x < |s.state| :: t.state[x] == s.state[x] || (s.state[x] == SLEEPING && t.state[x] == RUNNABLE)
    requires p < |s.state| ==> ProcOk(t, p) && MakerOk(t, p)
    ensures Procs(t) && Forks(t) && Cpus(t)
  {
    forall x | 0 <= x < |t.state| ensures ProcOk(t, x) {
      assert ProcOk(s, x);
      if x != p && t.state[x] == s.state[x] {
        ProcSame(s, t, x);
      }
    }
    forall x | 0 <= x < |t.state| ensures MakerOk(t, x) {
      assert MakerOk(s, x);
    }
    forall d | 0 <= d < |t.cpu| ensures CpuOk(t, d) {
      assert CpuOk(s, d);
    }
  }

  /** Only a sleeping process changes its state, to RUNNABLE. */
  lemma RouseProc(s: St, a: Action, t: St)
    requires Inv(s) && Next(s, a, t) && a.Rouse?
    ensures s.cpu[a.c].p < |t.state| && ProcOk(t, s.cpu[a.c].p) && MakerOk(t, s.cpu[a.c].p)
    ensures forall x | 0 <= x < |t.state| :: t.state[x] == s.state[x] || (s.state[x] == SLEEPING && t.state[x] == RUNNABLE)
  {
    hide Relocked, Locks, Waits;
    Runner(s, a.c);
    assert ProcOk(s, s.cpu[a.c].p) && MakerOk(s, s.cpu[a.c].p);
    hide Procs, Cpus, Forks;
  }

  lemma RouseWaits(s: St, a: Action, t: St)
    requires Inv(s) && Next(s, a, t) && a.Rouse?
    ensures Waits(t)
  {
    hide Relocked, Locks, Procs, Cpus, Forks, Rouses;
    var c, p := a.c, s.cpu[a.c].p;
    Runner(s, c);
    RouseProc(s, a, t);
    RouseWoken(s, a, t);
    RouseRescue(s, a, t);
    WaitsKept(s, t, p);
  }

  /** Whoever slept in `wait` at the slot that was just woken no longer does. */
  lemma RousedOne(s: St, a: Action, t: St, par: nat)
    requires Inv(s) && Next(s, a, t) && a.Rouse? && par < |s.state|
    requires var p := s.cpu[a.c].p;
             (s.pc[p].ExitInitAt? && s.pc[p].j == par == INIT) || (s.pc[p].ExitWakeAt? && s.pc[p].j == par && s.parent[p] == Some(par))
    ensures !Blocked(t, par)
  {
    var c, p := a.c, s.cpu[a.c].p;
    Runner(s, c);
    if par != p {
      LockedAway(s, c, par);
    }
    hide Relocked, Locks, Waits, Forks, Cpus, Procs;
  }

  lemma RouseWoken(s: St, a: Action, t: St)
    requires Inv(s) && Next(s, a, t) && a.Rouse?
    ensures s.cpu[a.c].p < |t.state| && ScanOk(t, s.cpu[a.c].p) && WokenOk(t, s.cpu[a.c].p)
  {
    var c, p := a.c, s.cpu[a.c].p;
    Runner(s, c);
    RouseProc(s, a, t);
    assert ProcOk(s, p) && WokenOk(s, p);
    hide Relocked, Locks, Procs, Cpus, Forks, Waits, Rouses;
    if s.pc[p].ExitWakeAt? && s.parent[p] == Some(s.pc[p].j) {
      RousedOne(s, a, t, s.pc[p].j);
    }
  }

  lemma RouseRescue(s: St, a: Action, t: St)
    requires Inv(s) && Next(s, a, t) && a.Rouse?
    ensures Rescue(s, INIT) && Blocked(t, INIT) ==> Rescue(t, INIT)
  {
    var c, p := a.c, s.cpu[a.c].p;
    Runner(s, c);
    if s.pc[p].ExitInitAt? && s.pc[p].j <= INIT {
      RousedOne(s, a, t, INIT);
    } else {
      hide Relocked, Holds, HoldsWait, Waits, Forks, Procs, Rouses;
      RescueSame(s, t, c);
    }
  }

  // ---------------------------------------------------------------- wait, exit, fork

  /** `wait` frees a child that is on no CPU. */
  lemma ReapSafe(s: St, a: Action, t: St)
    requires Inv(s) && Next(s, a, t) && a.Reap?
    ensures var i := s.pc[s.cpu[a.c].p].i; i != s.cpu[a.c].p && s.on[i] == None && s.pc[i] == Dead
  {
    var c, p := a.c, s.cpu[a.c].p;
    Runner(s, c);
    LockedAway(s, c, s.pc[p].i);
  }

  lemma ReapShape(s: St, a: Action, t: St)
    requires Shapes(s) && Next(s, a, t) && a.Reap? && s.on[s.cpu[a.c].p] == Some(a.c) && ProcOk(s, s.cpu[a.c].p)
    requires var p := s.cpu[a.c].p; var i := s.pc[p].i;
             s.state[p] == RUNNING && i != p && ProcOk(s, i) && s.on[i] == None
    ensures var p := s.cpu[a.c].p; var i := s.pc[p].i;
            SlotStep(s, t, a.c, p, i) && Relocked(s, t, a.c) && ProcOk(t, p) && MakerOk(t, p) && ProcOk(t, i)
  {
    hide Relocked;
  }

  lemma ReapKeeps(s: St, a: Action, t: St)
    requires Inv(s) && Next(s, a, t) && a.Reap?
    ensures Inv(t)
  {
    hide Relocked, Locks, Waits;
    var c, p := a.c, s.cpu[a.c].p;
    Runner(s, c);
    ReapSafe(s, a, t);
    assert ProcOk(s, p) && ProcOk(s, s.pc[p].i);
    hide Procs, Cpus, Forks;
    ReapShape(s, a, t);
    hide Next;
    SlotStepKeeps(s, t, c, p, s.pc[p].i);
  }

  lemma AdoptProc(s: St, a: Action, t: St)
    requires Inv(s) && Next(s, a, t) && a.Adopt?
    ensures OnCpu(s, a.c, s.cpu[a.c].p) && s.state[s.cpu[a.c].p] != USED
    ensures ProcOk(t, s.cpu[a.c].p) && MakerOk(t, s.cpu[a.c].p) && CpuOk(t, a.c)
  {
    hide Relocked, Locks, Waits;
    Runner(s, a.c);
    assert ProcOk(s, s.cpu[a.c].p) && MakerOk(s, s.cpu[a.c].p);
    hide Procs, Cpus, Forks;
  }

  lemma AdoptKeeps(s: St, a: Action, t: St)
    requires Inv(s) && Next(s, a, t) && a.Adopt?
    ensures Inv(t)
  {
    var c, p := a.c, s.cpu[a.c].p;
    Runner(s, c);
    AdoptWaits(s, a, t);
    AdoptProc(s, a, t);
    hide Relocked, Holds, HoldsWait, Waits;
    StepLocks(s, t, c);
    hide Locks;
    Parents(s);
    ProcsKept(s, t, c, p);
  }

  lemma AdoptWaits(s: St, a: Action, t: St)
    requires Inv(s) && Next(s, a, t) && a.Adopt?
    ensures Waits(t)
  {
    var c, p := a.c, s.cpu[a.c].p;
    Runner(s, c);
    AloneWaits(s, p);
    assert Rescue(t, INIT);
    hide Relocked, Locks, Procs, Cpus, Forks, Rescue;
    forall x | 0 <= x < |t.state| ensures ScanOk(t, x) && WokenOk(t, x) {
      assert ScanOk(s, x) && WokenOk(s, x);
    }
    forall q | 0 <= q < |t.state| ensures ZombieOk(t, q) {
      assert ZombieOk(s, q);
      if s.state[q] == ZOMBIE {
        OnlyInit(s, q);
      }
    }
  }

  lemma OnlyInit(s: St, q: nat)
    requires Shapes(s) && q < |s.state| && ZombieOk(s, q) && s.state[q] == ZOMBIE
    ensures s.parent[q].Some? && s.parent[q].value < |s.state| && s.parent[q].value != INIT ==> !Blocked(s, s.parent[q].value)
  {
  }

  lemma DieProc(s: St, a: Action, t: St)
    requires Inv(s) && Next(s, a, t) && a.Die?
    ensures OnCpu(s, a.c, s.cpu[a.c].p) && s.state[s.cpu[a.c].p] != USED
    ensures ProcOk(t, s.cpu[a.c].p) && MakerOk(t, s.cpu[a.c].p) && CpuOk(t, a.c)
  {
    hide Relocked, Locks, Waits;
    Runner(s, a.c);
    assert ProcOk(s, s.cpu[a.c].p) && MakerOk(s, s.cpu[a.c].p);
    hide Procs, Cpus, Forks;
  }

  lemma DieKeeps(s: St, a: Action, t: St)
    requires Inv(s) && Next(s, a, t) && a.Die?
    ensures Inv(t)
  {
    var c, p := a.c, s.cpu[a.c].p;
    Runner(s, c);
    DieWaits(s, a, t);
    DieProc(s, a, t);
    hide Relocked, Holds, HoldsWait, Waits;
    StepLocks(s, t, c);
    hide Locks;
    Parents(s);
    ProcsKept(s, t, c, p);
  }

  /** The new zombie's parent has been woken and cannot have gone back to sleep. */
  lemma DieWaits(s: St, a: Action, t: St)
    requires Inv(s) && Next(s, a, t) && a.Die?
    ensures Waits(t)
  {
    var c, p := a.c, s.cpu[a.c].p;
    Runner(s, c);
    AloneWaits(s, p);
    assert WokenOk(s, p);
    hide Holds, HoldsWait;
    RescueSame(s, t, c);
    hide Relocked, Locks, Procs, Cpus, Forks, Rescue;
    forall x | 0 <= x < |t.state| ensures ScanOk(t, x) && WokenOk(t, x) {
      assert ScanOk(s, x) && WokenOk(s, x);
    }
    forall q | 0 <= q < |t.state| ensures ZombieOk(t, q) {
      assert ZombieOk(s, q);
    }
  }

  /** The slot that `fork` fills is its own. */
  lemma MadeBy(s: St, c: nat)
    requires Inv(s) && c < |s.cpu| && s.cpu[c].Running? && s.cpu[c].p < |s.state| && Making(Core(s.pc[s.cpu[c].p])).Some?
    ensures var p := s.cpu[c].p;
            var i := Making(Core(s.pc[p])).value;
            && i < |s.state| && i != p && s.state[p] == RUNNING
            && s.state[i] == USED && s.maker[i] == Some(p) && s.on[i] == None && s.pc[i] == Fresh
  {
    hide Locks, Waits;
    var p := s.cpu[c].p;
    Runner(s, c);
    assert MakerOk(s, p) && ProcOk(s, Making(Core(s.pc[p])).value);
  }

  /** A step of `p` on CPU `c` that touches only `p` and the idle slot `i`, which
      it may own, and neither sleeps, exits nor waits. */
  predicate SlotStep(s: St, t: St, c: nat, p: nat, i: nat)
    requires Shapes(s)
  {
    && Shapes(t) && |t.state| == |s.state| && OnCpu(s, c, p) && i < |s.state| && i != p
    && t.cpu == s.cpu && t.on == s.on && s.on[i] == None && s.on[p] == Some(c)
    && (forall x | 0 <= x < |s.state| && x != p && x != i ::
          && t.state[x] == s.state[x] && t.pc[x] == s.pc[x] && t.chan[x] == s.chan[x]
          && t.maker[x] == s.maker[x] && t.parent[x] == s.parent[x])
    && t.state[p] == s.state[p] == RUNNING && t.parent[p] == s.parent[p] && t.chan[p] == s.chan[p]
    && (t.pc[i].NoThread? || t.pc[i].Fresh?)
    && !t.pc[p].WaitSleep? && !t.pc[p].WaitDoze? && !t.pc[p].WaitScan? && !t.pc[p].WaitAt? && !t.pc[p].WaitTest? && !t.pc[p].WaitTested? && !Exiting(t.pc[p]) && !Exiting(s.pc[p])
    && (t.state[i] == UNUSED || t.state[i] == USED || t.state[i] == RUNNABLE) && (t.parent[i].Some? ==> t.parent[i].value < |s.state|)
  }

  lemma SlotStepKeeps(s: St, t: St, c: nat, p: nat, i: nat)
    requires Inv(s) && SlotStep(s, t, c, p, i) && Relocked(s, t, c)
    requires (s.state[i] == USED ==> s.maker[i] == Some(p)) && ProcOk(t, p) && MakerOk(t, p) && ProcOk(t, i)
    ensures Inv(t)
  {
    hide Relocked, Holds, HoldsWait, Locks, Procs, Cpus, Forks, Waits;
    StepLocks(s, t, c);
    Parents(s);
    SlotKept(s, t, c, p, i);
    RescueSame(s, t, c);
    WaitsKept(s, t, p);
  }

  lemma TakeShape(s: St, a: Action, t: St)
    requires Shapes(s) && Next(s, a, t) && a.Take? && s.on[s.cpu[a.c].p] == Some(a.c) && ProcOk(s, s.cpu[a.c].p)
    requires var p := s.cpu[a.c].p; var i := s.pc[p].i;
             s.state[p] == RUNNING && i != p && ProcOk(s, i) && s.on[i] == None
    ensures var p := s.cpu[a.c].p; var i := s.pc[p].i;
            SlotStep(s, t, a.c, p, i) && Relocked(s, t, a.c) && ProcOk(t, p) && MakerOk(t, p) && ProcOk(t, i)
  {
    hide Relocked;
  }

  lemma TakeKeeps(s: St, a: Action, t: St)
    requires Inv(s) && Next(s, a, t) && a.Take?
    ensures Inv(t)
  {
    hide Relocked, Locks, Waits;
    var c, p := a.c, s.cpu[a.c].p;
    Runner(s, c);
    assert ProcOk(s, p) && ProcOk(s, s.pc[p].i);
    hide Procs, Cpus, Forks;
    TakeShape(s, a, t);
    hide Next;
    SlotStepKeeps(s, t, c, p, s.pc[p].i);
  }

  lemma UndoShape(s: St, a: Action, t: St)
    requires Shapes(s) && Next(s, a, t) && a.Undo? && s.on[s.cpu[a.c].p] == Some(a.c) && ProcOk(s, s.cpu[a.c].p)
    requires var p := s.cpu[a.c].p; var i := s.pc[p].i;
             s.state[p] == RUNNING && i != p && ProcOk(s, i) && s.on[i] == None
    ensures var p := s.cpu[a.c].p; var i := s.pc[p].i;
            SlotStep(s, t, a.c, p, i) && Relocked(s, t, a.c) && ProcOk(t, p) && MakerOk(t, p) && ProcOk(t, i)
  {
    hide Relocked;
  }

  lemma UndoKeeps(s: St, a: Action, t: St)
    requires Inv(s) && Next(s, a, t) && a.Undo?
    ensures Inv(t)
  {
    hide Relocked, Locks, Waits;
    var c, p := a.c, s.cpu[a.c].p;
    Runner(s, c);
    MadeBy(s, c);
    assert ProcOk(s, p) && ProcOk(s, s.pc[p].i);
    hide Procs, Cpus, Forks;
    UndoShape(s, a, t);
    hide Next;
    SlotStepKeeps(s, t, c, p, s.pc[p].i);
  }

  lemma LaunchShape(s: St, a: Action, t: St)
    requires Shapes(s) && Next(s, a, t) && a.Launch? && s.on[s.cpu[a.c].p] == Some(a.c) && ProcOk(s, s.cpu[a.c].p)
    requires var p := s.cpu[a.c].p; var i := s.pc[p].i;
             s.state[p] == RUNNING && i != p && ProcOk(s, i) && s.on[i] == None && s.state[i] == USED
    ensures var p := s.cpu[a.c].p; var i := s.pc[p].i;
            SlotStep(s, t, a.c, p, i) && Relocked(s, t, a.c) && ProcOk(t, p) && MakerOk(t, p) && ProcOk(t, i)
  {
    hide Relocked;
  }

  lemma LaunchKeeps(s: St, a: Action, t: St)
    requires Inv(s) && Next(s, a, t) && a.Launch?
    ensures Inv(t)
  {
    hide Relocked, Locks, Waits;
    var c, p := a.c, s.cpu[a.c].p;
    Runner(s, c);
    MadeBy(s, c);
    assert ProcOk(s, p) && ProcOk(s, s.pc[p].i);
    hide Procs, Cpus, Forks;
    LaunchShape(s, a, t);
    hide Next;
    SlotStepKeeps(s, t, c, p, s.pc[p].i);
  }

  lemma SetParentShape(s: St, a: Action, t: St)
    requires Shapes(s) && Next(s, a, t) && a.SetParent? && s.on[s.cpu[a.c].p] == Some(a.c) && ProcOk(s, s.cpu[a.c].p)
    requires var p := s.cpu[a.c].p; var i := s.pc[p].i;
             s.state[p] == RUNNING && i != p && ProcOk(s, i) && s.on[i] == None && s.state[i] == USED && s.maker[i] == Some(p)
    ensures var p := s.cpu[a.c].p; var i := s.pc[p].i;
            SlotStep(s, t, a.c, p, i) && Relocked(s, t, a.c) && ProcOk(t, p) && MakerOk(t, p) && ProcOk(t, i)
  {
    hide Relocked;
  }

  lemma SetParentKeeps(s: St, a: Action, t: St)
    requires Inv(s) && Next(s, a, t) && a.SetParent?
    ensures Inv(t)
  {
    hide Relocked, Locks, Waits;
    var c, p := a.c, s.cpu[a.c].p;
    Runner(s, c);
    MadeBy(s, c);
    assert ProcOk(s, p) && ProcOk(s, s.pc[p].i);
    hide Procs, Cpus, Forks;
    SetParentShape(s, a, t);
    hide Next;
    SlotStepKeeps(s, t, c, p, s.pc[p].i);
  }

  // ---------------------------------------------------------------- runs

  lemma StepKeepsInv(s: St, a: Action, t: St)
    requires Inv(s) && Next(s, a, t)
    ensures Inv(t)
  {
    hide Inv, Next;
    match a
    case Pick(_, _) => PickKeeps(s, a, t);
    case Skip(_) => PickKeeps(s, a, t);
    case Dispatch(_) => DispatchKeeps(s, a, t);
    case Return(_) => ReturnKeeps(s, a, t);
    case Intr(_, _, _) => IntrKeeps(s, a, t);
    case Go(_, _) => GoKeeps(s, a, t);
    case Begin(_) => BeginKeeps(s, a, t);
    case Switch(_) => SwitchKeeps(s, a, t);
    case Rouse(_) => RouseKeeps(s, a, t);
    case Reap(_) => ReapKeeps(s, a, t);
    case Adopt(_) => AdoptKeeps(s, a, t);
    case Die(_) => DieKeeps(s, a, t);
    case Take(_) => TakeKeeps(s, a, t);
    case Undo(_) => UndoKeeps(s, a, t);
    case SetParent(_) => SetParentKeeps(s, a, t);
    case Launch(_) => LaunchKeeps(s, a, t);
  }

  datatype Run = Start(last: St) | Then(before: Run, a: Action, last: St)

  /** After `userinit`: one process, ready to run, and idle CPUs. */
  predicate Init(s: St) {
    && Shapes(s) && s.wlock == None
    && (forall c | 0 <= c < |s.cpu| :: s.cpu[c] == Idle)
    && (forall p | 0 <= p < |s.state| ::
          && s.plock[p] == None && s.on[p] == None && s.parent[p] == None
          && if p == INIT then s.state[p] == RUNNABLE && s.pc[p] == Fresh else s.state[p] == UNUSED && s.pc[p] == NoThread)
  }

  predicate IsRun(r: Run) {
    match r
    case Start(s) => Init(s)
    case Then(q, a, s) => IsRun(q) && Next(q.last, a, s)
  }

  lemma InitInv(s: St)
    requires Init(s)
    ensures Inv(s)
  {
    assert Locks(s);
    assert Procs(s);
    assert Waits(s);
  }

  lemma {:induction false} RunInv(r: Run)
    requires IsRun(r)
    ensures Inv(r.last)
  {
    hide Inv, Next, Init;
    match r
    case Start(s) => InitInv(s);
    case Then(q, a, s) =>
      RunInv(q);
      StepKeepsInv(q.last, a, s);
  }

  // ---------------------------------------------------------------- what every run keeps

  /** `c->proc` of a CPU. */
  function CpuProc(s: St, c: nat): Option<nat>
    requires c < |s.cpu|
  {
    match s.cpu[c]
    case Running(p) => Some(p)
    case Back(p) => Some(p)
    case _ => None
  }

  /** No two CPUs ever have the same process. */
  lemma OneCpu(r: Run, c: nat, d: nat)
    requires IsRun(r) && c < |r.last.cpu| && d < |r.last.cpu| && CpuProc(r.last, c).Some? && CpuProc(r.last, c) == CpuProc(r.last, d)
    ensures c == d
  {
    RunInv(r);
    assert CpuOk(r.last, c) && CpuOk(r.last, d);
  }

  /** Whenever a process's lock is free, it is RUNNING just when some CPU has it. */
  lemma RunningIff(r: Run, p: nat)
    requires IsRun(r) && p < |r.last.state| && Shapes(r.last) && r.last.plock[p] == None
    ensures r.last.state[p] == RUNNING <==> exists c :: 0 <= c < |r.last.cpu| && CpuProc(r.last, c) == Some(p)
  {
    RunInv(r);
    var s := r.last;
    hide IsRun, Inv;
    if s.state[p] == RUNNING {
      RunningOn(s, p);
    }
    if c :| 0 <= c < |s.cpu| && CpuProc(s, c) == Some(p) {
      FreeOnCpu(s, c, p);
    }
  }

  lemma RunningOn(s: St, p: nat)
    requires Inv(s) && p < |s.state| && s.state[p] == RUNNING
    ensures exists c :: 0 <= c < |s.cpu| && CpuProc(s, c) == Some(p)
  {
    hide Locks, Waits, Forks;
    assert ProcOk(s, p);
    assert CpuProc(s, s.on[p].value) == Some(p);
  }

  lemma FreeOnCpu(s: St, c: nat, p: nat)
    requires Inv(s) && c < |s.cpu| && p < |s.state| && s.plock[p] == None && CpuProc(s, c) == Some(p)
    ensures s.state[p] == RUNNING
  {
    hide Waits, Forks;
    assert CpuOk(s, c);
    assert s.plock[p] == Some(c) <==> Holds(s, c, p);
    hide Locks;
    assert ProcOk(s, p);
  }

  /** The slot a process is forking, on a CPU or preempted on the way, is USED, on
      no CPU, and no other process's. */
  lemma ForkOwns(r: Run, p: nat, q: nat)
    requires IsRun(r) && Shapes(r.last) && p < |r.last.state| && q < |r.last.state|
    requires Making(Core(r.last.pc[p])).Some?
    ensures var i := Making(Core(r.last.pc[p])).value;
            i < |r.last.state| && r.last.state[i] == USED && r.last.on[i] == None && r.last.pc[i] == Fresh
    ensures Making(Core(r.last.pc[p])) == Making(Core(r.last.pc[q])) ==> p == q
  {
    hide IsRun, Making, Locks, Waits, Cpus;
    RunInv(r);
    assert MakerOk(r.last, p) && MakerOk(r.last, q);
    assert ProcOk(r.last, Making(Core(r.last.pc[p])).value);
  }

  /** `wait` never frees a process that is still on a CPU. */
  lemma FreedOffCpu(r: Run, a: Action, s: St, c: nat)
    requires IsRun(Then(r, a, s)) && a.Reap? && c < |r.last.cpu|
    ensures OnCpu(r.last, a.c, r.last.cpu[a.c].p) && r.last.pc[r.last.cpu[a.c].p].WaitAt?
    ensures CpuProc(r.last, c) != Some(r.last.pc[r.last.cpu[a.c].p].i)
  {
    hide Locks, Waits, Forks, Procs, Relocked;
    RunInv(r);
    ReapSafe(r.last, a, s);
    assert CpuOk(r.last, c);
  }

  /** Whenever wait_lock is free, no process sleeps in `wait` that has a zombie child. */
  lemma NoLostExit(r: Run, p: nat, q: nat)
    requires IsRun(r) && Shapes(r.last) && r.last.wlock == None && p < |r.last.state| && q < |r.last.state|
    requires r.last.state[q] == ZOMBIE && r.last.parent[q] == Some(p)
    ensures !(r.last.state[p] == SLEEPING && r.last.chan[p] == ProcChan(p))
  {
    RunInv(r);
    assert ZombieOk(r.last, q);
  }
}
