/** thread_mutex and thread_cond of kernel/arch/i386/thread_lock.c over sched_thread_wait and
    sched_thread_notify_one, at the grain of single lock operations: any number of threads, one
    mutex with its spinlock and internal condition, any number of user conditions, and the global
    scheduler lock, which is handed from a blocking thread to the scheduler loop and back. */
module ThreadMutex {
  import opened Base

  type Tid = nat

  /** The mutex's own `wait_cond`, or a condition a caller passes to thread_cond_wait. */
  datatype Cond = Internal | User(id: nat)

  /** What follows the notify of a releasing thread: return from thread_mutex_release, or the wait
      of thread_cond_wait. */
  datatype Then = ThenReturn | ThenWait(cond: Cond)

  datatype Pc =
    | Idle                           // in no call, not holding the mutex
    | AcquireSpin                    // thread_mutex_acquire: taking mutex->spinlock
    | Test(woken: Option<Cond>)      // at `while (mutex->locked)`, after which wait if any
    | AcquireDone                    // locked and tid are set, dropping the spinlock
    | Critical                       // holding the mutex, in no call
    | ReleaseSpin(next: Then)        // thread_mutex_release or thread_cond_wait: taking the spinlock
    | Clear(next: Then)              // unsafe_mutex_release
    | NotifyLock(next: Then)         // sched_thread_notify_one(wait_cond): taking the global lock
    | NotifyScan(next: Then)
    | NotifyUnlock(next: Then)
    | ReleaseDone                    // dropping the spinlock
    | WaitLock(cond: Cond)           // sched_thread_wait: taking the global lock
    | WaitDrop(cond: Cond)           // dropping the spinlock under the global lock
    | WaitBlock(cond: Cond)          // setting THREAD_BLOCKED and switching to the scheduler
    | Blocked(cond: Cond)
    | Woken(cond: Cond)              // READY, not yet run
    | Resume(cond: Cond)             // switched to, with the global lock
    | Respin(cond: Cond)             // global lock dropped, taking the spinlock again
    | CallerNotifyLock(id: nat, holding: bool)    // thread_cond_notify
    | CallerNotifyScan(id: nat, holding: bool)
    | CallerNotifyUnlock(id: nat, holding: bool)

  /** Who has the global scheduler lock. */
  datatype Global = Free | Thread(t: Tid) | Loop

  datatype State = State(
    pc: map<Tid, Pc>,
    spin: Option<Tid>,        // holder of mutex->spinlock
    global: Global,
    locked: bool,             // mutex->locked
    owner: Option<Tid>,       // mutex->tid, None for TID_INVALID
    taken: nat,               // how often the mutex has been taken so far
    gaveUp: map<Tid, nat>)    // `taken` when a thread last gave the mutex up in thread_cond_wait

  datatype Step =
    | CallAcquire(t: Tid)
    | CallRelease(t: Tid)
    | CallCondWait(t: Tid, id: nat)
    | CallNotify(t: Tid, id: nat)
    | Run(t: Tid)                         // the next lock operation of `t`
    | Scan(t: Tid, found: Option<Tid>)    // the scan of a notify, and the thread it finds
    | LoopAcquire
    | LoopSwitch(t: Tid)
    | LoopRelease

  ghost predicate Initial(s: State) {
    && (forall t :: t in s.pc ==> s.pc[t] == Idle)
    && s.spin == None && s.global == Free && !s.locked && s.owner == None && s.taken == 0 && s.gaveUp == map[]
  }

  /** The condition `pc` is about to scan for. */
  function Scanned(pc: Pc): Option<Cond> {
    match pc
    case NotifyScan(_) => Some(Internal)
    case CallerNotifyScan(id, _) => Some(User(id))
    case _ => None
  }

  predicate SomeBlocked(s: State, cond: Cond) {
    exists w :: w in s.pc && s.pc[w] == Blocked(cond)
  }

  /** A thread that is taking a lock waits until it is free; every other step is always open. */
  predicate Enabled(s: State, step: Step) {
    match step
    case CallAcquire(t) => t in s.pc && s.pc[t] == Idle
    case CallRelease(t) => t in s.pc && s.pc[t] == Critical
    case CallCondWait(t, _) => t in s.pc && s.pc[t] == Critical
    case CallNotify(t, _) => t in s.pc && (s.pc[t] == Idle || s.pc[t] == Critical)
    case Run(t) =>
      && t in s.pc
      && (match s.pc[t]
          case AcquireSpin => s.spin == None
          case ReleaseSpin(_) => s.spin == None
          case Respin(_) => s.spin == None
          case NotifyLock(_) => s.global == Free
          case CallerNotifyLock(_, _) => s.global == Free
          case WaitLock(_) => s.global == Free
          case Idle => false
          case Critical => false
          case Blocked(_) => false
          case Woken(_) => false
          case NotifyScan(_) => false
          case CallerNotifyScan(_, _) => false
          case _ => true)
    case Scan(t, found) =>
      && t in s.pc && Scanned(s.pc[t]).Some?
      && (match found
          case Some(w) => w in s.pc && s.pc[w] == Blocked(Scanned(s.pc[t]).value)
          case None => !SomeBlocked(s, Scanned(s.pc[t]).value))
    case LoopAcquire => s.global == Free
    case LoopSwitch(t) => s.global == Loop && t in s.pc && s.pc[t].Woken?
    case LoopRelease => s.global == Loop
  }

  function Goto(s: State, t: Tid, pc: Pc): State {
    s.(pc := s.pc[t := pc])
  }

  function RunThread(s: State, t: Tid): State
    requires t in s.pc
  {
    match s.pc[t]
    case AcquireSpin => Goto(s, t, Test(None)).(spin := Some(t))
    case Test(_) =>
      if s.locked then Goto(s, t, WaitLock(Internal))
      else Goto(s, t, AcquireDone).(locked := true, owner := Some(t), taken := s.taken + 1)
    case AcquireDone => Goto(s, t, Critical).(spin := None)
    case ReleaseSpin(next) => Goto(s, t, Clear(next)).(spin := Some(t))
    case Clear(next) =>
      Goto(s, t, NotifyLock(next)).(
        owner := None, locked := false,
        gaveUp := if next.ThenWait? then s.gaveUp[t := s.taken] else s.gaveUp)
    case NotifyLock(next) => Goto(s, t, NotifyScan(next)).(global := Thread(t))
    case NotifyUnlock(next) =>
      Goto(s, t, if next.ThenWait? then WaitLock(next.cond) else ReleaseDone).(global := Free)
    case ReleaseDone => Goto(s, t, Idle).(spin := None)
    case WaitLock(cond) => Goto(s, t, WaitDrop(cond)).(global := Thread(t))
    case WaitDrop(cond) => Goto(s, t, WaitBlock(cond)).(spin := None)
    case WaitBlock(cond) => Goto(s, t, Blocked(cond)).(global := Loop)
    case Resume(cond) => Goto(s, t, Respin(cond)).(global := Free)
    case Respin(cond) => Goto(s, t, Test(Some(cond))).(spin := Some(t))
    case CallerNotifyLock(id, holding) => Goto(s, t, CallerNotifyScan(id, holding)).(global := Thread(t))
    case CallerNotifyUnlock(_, holding) => Goto(s, t, if holding then Critical else Idle).(global := Free)
    case _ => s
  }

  function Apply(s: State, step: Step): State
    requires Enabled(s, step)
  {
    match step
    case CallAcquire(t) => Goto(s, t, AcquireSpin)
    case CallRelease(t) => Goto(s, t, ReleaseSpin(ThenReturn))
    case CallCondWait(t, id) => Goto(s, t, ReleaseSpin(ThenWait(User(id))))
    case CallNotify(t, id) => Goto(s, t, CallerNotifyLock(id, s.pc[t] == Critical))
    case Run(t) => RunThread(s, t)
    case Scan(t, found) =>
      var s1 := if found.Some? then Goto(s, found.value, Woken(Scanned(s.pc[t]).value)) else s;
      match s.pc[t] {
        case NotifyScan(next) => Goto(s1, t, NotifyUnlock(next))
        case CallerNotifyScan(id, holding) => Goto(s1, t, CallerNotifyUnlock(id, holding))
      }
    case LoopAcquire => s.(global := Loop)
    case LoopSwitch(t) => Goto(s, t, Resume(s.pc[t].cond)).(global := Thread(t))
    case LoopRelease => s.(global := Free)
  }

  // What each point of the code means.

  predicate HoldsSpin(pc: Pc) {
    pc.Test? || pc.AcquireDone? || pc.Clear? || pc.NotifyLock? || pc.NotifyScan? || pc.NotifyUnlock?
    || pc.ReleaseDone? || pc.WaitLock? || pc.WaitDrop?
  }

  predicate HoldsGlobal(pc: Pc) {
    pc.NotifyScan? || pc.NotifyUnlock? || pc.WaitDrop? || pc.WaitBlock? || pc.Resume?
    || pc.CallerNotifyScan? || pc.CallerNotifyUnlock?
  }

  /** Between the return of thread_mutex_acquire and the release, and in the calls that do them. */
  predicate Owns(pc: Pc) {
    match pc
    case AcquireDone => true
    case Critical => true
    case ReleaseSpin(_) => true
    case Clear(_) => true
    case CallerNotifyLock(_, holding) => holding
    case CallerNotifyScan(_, holding) => holding
    case CallerNotifyUnlock(_, holding) => holding
    case _ => false
  }

  /** A releaser that has opened the mutex and not yet scanned for a waiter. */
  predicate NotifyPending(pc: Pc) {
    pc.NotifyLock? || pc.NotifyScan?
  }

  /** A waiter woken from `wait_cond` that has not yet tested the mutex again. */
  predicate RetestPending(pc: Pc) {
    pc == Woken(Internal) || pc == Resume(Internal) || pc == Respin(Internal) || pc == Test(Some(Internal))
  }

  ghost predicate HelpComing(s: State) {
    s.locked || exists u :: u in s.pc && (NotifyPending(s.pc[u]) || RetestPending(s.pc[u]))
  }

  /** In thread_cond_wait, the mutex given up, not yet blocked, and still holding the spinlock. */
  predicate GivingUp(pc: Pc) {
    match pc
    case NotifyLock(next) => next.ThenWait?
    case NotifyScan(next) => next.ThenWait?
    case NotifyUnlock(next) => next.ThenWait?
    case WaitLock(cond) => cond.User?
    case WaitDrop(cond) => cond.User?
    case _ => false
  }

  ghost predicate LocksHeld(s: State) {
    && (s.spin.Some? ==> s.spin.value in s.pc && HoldsSpin(s.pc[s.spin.value]))
    && (forall t :: t in s.pc && HoldsSpin(s.pc[t]) ==> s.spin == Some(t))
    && (s.global.Thread? ==> s.global.t in s.pc && HoldsGlobal(s.pc[s.global.t]))
    && (forall t :: t in s.pc && HoldsGlobal(s.pc[t]) ==> s.global == Thread(t))
  }

  ghost predicate MutexHeld(s: State) {
    && (s.locked <==> s.owner.Some?)
    && (s.owner.Some? ==> s.owner.value in s.pc && Owns(s.pc[s.owner.value]))
    && (forall t :: t in s.pc && Owns(s.pc[t]) ==> s.owner == Some(t))
  }

  ghost predicate NoWakeupLost(s: State) {
    && (forall t :: t in s.pc && (s.pc[t] == WaitLock(Internal) || s.pc[t] == WaitDrop(Internal)) ==> s.locked)
    && (forall t :: t in s.pc && (s.pc[t] == WaitBlock(Internal) || s.pc[t] == Blocked(Internal)) ==> HelpComing(s))
  }

  /** A releaser goes on to wait only on a condition its caller named. */
  predicate WaitsOnUser(pc: Pc) {
    (pc.ReleaseSpin? || pc.Clear? || pc.NotifyLock? || pc.NotifyScan? || pc.NotifyUnlock?) ==> pc.next != ThenWait(Internal)
  }

  /** A thread on its way to block on a user condition gave the mutex up after it was last taken. */
  ghost predicate GivenUp(s: State) {
    && (forall t :: t in s.pc ==> WaitsOnUser(s.pc[t]))
    && (forall t :: t in s.pc && GivingUp(s.pc[t]) ==> t in s.gaveUp && s.gaveUp[t] == s.taken)
    && (forall t :: t in s.gaveUp ==> s.gaveUp[t] <= s.taken)
  }

  ghost predicate Inv(s: State) {
    LocksHeld(s) && MutexHeld(s) && NoWakeupLost(s) && GivenUp(s)
  }

  lemma InitialInv(s: State)
    requires Initial(s)
    ensures Inv(s)
  {
  }

  // One thread moves: what that asks of the two points of the code and of the shared fields.

  ghost predicate Moves(s: State, t: Tid, s': State) {
    t in s.pc && t in s'.pc && s'.pc == s.pc[t := s'.pc[t]]
  }

  predicate LockMove(s: State, t: Tid, s': State)
    requires t in s.pc && t in s'.pc
  {
    SpinMove(t, s.pc[t], s.spin, s'.pc[t], s'.spin) && GlobalMove(t, s.pc[t], s.global, s'.pc[t], s'.global)
  }

  predicate SpinMove(t: Tid, pc: Pc, spin: Option<Tid>, pc': Pc, spin': Option<Tid>) {
    || (spin' == spin && (HoldsSpin(pc) <==> HoldsSpin(pc')))
    || (spin == None && spin' == Some(t) && HoldsSpin(pc'))
    || (spin == Some(t) && spin' == None && !HoldsSpin(pc'))
  }

  predicate GlobalMove(t: Tid, pc: Pc, global: Global, pc': Pc, global': Global) {
    || (global' == global && (HoldsGlobal(pc) <==> HoldsGlobal(pc')))
    || (!global.Thread? && global' == Thread(t) && HoldsGlobal(pc'))
    || (global == Thread(t) && !global'.Thread? && !HoldsGlobal(pc'))
  }

  predicate MutexMove(s: State, t: Tid, s': State)
    requires t in s.pc && t in s'.pc
  {
    var a, b := s.pc[t], s'.pc[t];
    || (s'.locked == s.locked && s'.owner == s.owner && (Owns(a) <==> Owns(b)))
    || (!s.locked && s'.locked && s'.owner == Some(t) && Owns(b))
    || (s.owner == Some(t) && !s'.locked && s'.owner == None && !Owns(b))
  }

  predicate WakeMove(s: State, t: Tid, s': State)
    requires t in s.pc && t in s'.pc
  {
    var a, b := s.pc[t], s'.pc[t];
    && (s.locked ==> s'.locked || (NotifyPending(b) && HoldsSpin(a)))
    && (NotifyPending(a) || RetestPending(a) ==> s'.locked || NotifyPending(b) || RetestPending(b))
    && (b == WaitLock(Internal) ==> s'.locked)
    && (b == WaitDrop(Internal) ==> a == WaitLock(Internal))
    && (b == WaitBlock(Internal) ==> a == WaitDrop(Internal))
    && (b == Blocked(Internal) ==> a == WaitBlock(Internal))
  }

  predicate GiveMove(s: State, t: Tid, s': State)
    requires t in s.pc && t in s'.pc
  {
    var a, b := s.pc[t], s'.pc[t];
    && (WaitsOnUser(a) ==> WaitsOnUser(b))
    && (s'.gaveUp == s.gaveUp || s'.gaveUp == s.gaveUp[t := s.taken])
    && (s'.taken == s.taken || (s'.taken == s.taken + 1 && HoldsSpin(a) && !GivingUp(b)))
    && (WaitsOnUser(a) && GivingUp(b) ==> GivingUp(a) || s'.gaveUp == s.gaveUp[t := s.taken])
  }

  lemma LocksKept(s: State, t: Tid, s': State)
    requires LocksHeld(s) && Moves(s, t, s') && LockMove(s, t, s')
    ensures LocksHeld(s')
  {
    assert HoldsSpin(s.pc[t]) ==> s.spin == Some(t);
    assert HoldsGlobal(s.pc[t]) ==> s.global == Thread(t);
    hide HoldsSpin, HoldsGlobal;
  }

  lemma MutexKept(s: State, t: Tid, s': State)
    requires MutexHeld(s) && Moves(s, t, s') && MutexMove(s, t, s')
    ensures MutexHeld(s')
  {
    assert Owns(s.pc[t]) ==> s.owner == Some(t);
    hide Owns;
  }

  lemma HelpKept(s: State, t: Tid, s': State)
    requires HelpComing(s) && Moves(s, t, s') && WakeMove(s, t, s')
    ensures HelpComing(s')
  {
    if !s.locked {
      var u :| u in s.pc && (NotifyPending(s.pc[u]) || RetestPending(s.pc[u]));
      assert u != t ==> s'.pc[u] == s.pc[u];
    } else if !s'.locked {
      assert NotifyPending(s'.pc[t]);
    }
  }

  lemma WakeupKept(s: State, t: Tid, s': State)
    requires LocksHeld(s) && NoWakeupLost(s) && Moves(s, t, s') && WakeMove(s, t, s')
    ensures NoWakeupLost(s')
  {
    forall u | u in s'.pc && (s'.pc[u] == WaitLock(Internal) || s'.pc[u] == WaitDrop(Internal)) ensures s'.locked {
      assert HoldsSpin(s'.pc[u]);
      assert u != t ==> s.pc[u] == s'.pc[u] && s.spin == Some(u);
      assert HoldsSpin(s.pc[t]) ==> s.spin == Some(t);
    }
    forall u | u in s'.pc && (s'.pc[u] == WaitBlock(Internal) || s'.pc[u] == Blocked(Internal)) ensures HelpComing(s') {
      HelpKept(s, t, s');
    }
  }

  lemma GivenUpKept(s: State, t: Tid, s': State)
    requires LocksHeld(s) && GivenUp(s) && Moves(s, t, s') && GiveMove(s, t, s')
    ensures GivenUp(s')
  {
    forall u | u in s'.pc && GivingUp(s'.pc[u]) ensures u in s'.gaveUp && s'.gaveUp[u] == s'.taken {
      if u != t {
        assert GivingUp(s.pc[u]) && HoldsSpin(s.pc[u]) && s.spin == Some(u);
      }
    }
    assert WaitsOnUser(s.pc[t]);
    hide WaitsOnUser, GivingUp;
  }

  lemma MoveKeeps(s: State, t: Tid, s': State)
    requires Inv(s) && Moves(s, t, s')
    requires LockMove(s, t, s') && MutexMove(s, t, s') && WakeMove(s, t, s') && GiveMove(s, t, s')
    ensures Inv(s')
  {
    hide LocksHeld, MutexHeld, NoWakeupLost, GivenUp;
    hide LockMove, MutexMove, WakeMove, GiveMove, Moves;
    LocksKept(s, t, s');
    MutexKept(s, t, s');
    WakeupKept(s, t, s');
    GivenUpKept(s, t, s');
  }

  /** A move between two points that mean the same, with the shared fields as they were. */
  lemma PlainKeeps(s: State, t: Tid, b: Pc)
    requires Inv(s) && t in s.pc
    requires var a := s.pc[t];
             && (HoldsSpin(a) <==> HoldsSpin(b)) && (HoldsGlobal(a) <==> HoldsGlobal(b)) && (Owns(a) <==> Owns(b))
             && (NotifyPending(a) || RetestPending(a) ==> NotifyPending(b) || RetestPending(b))
    requires WaitsOnUser(b) && !GivingUp(b) && !b.WaitLock? && !b.WaitDrop? && !b.WaitBlock? && !b.Blocked?
    ensures Inv(Goto(s, t, b))
  {
    hide Inv, HoldsSpin, HoldsGlobal, Owns, NotifyPending, RetestPending, WaitsOnUser, GivingUp;
    MoveKeeps(s, t, Goto(s, t, b));
  }

  lemma HoldsAt(s: State, t: Tid)
    requires Inv(s) && t in s.pc
    ensures HoldsSpin(s.pc[t]) ==> s.spin == Some(t)
    ensures HoldsGlobal(s.pc[t]) ==> s.global == Thread(t)
    ensures Owns(s.pc[t]) ==> s.owner == Some(t) && s.locked
    ensures s.pc[t] == WaitDrop(Internal) ==> s.locked
    ensures WaitsOnUser(s.pc[t])
  {
  }

  lemma RunKeeps(s: State, t: Tid)
    requires Inv(s) && Enabled(s, Run(t))
    ensures Inv(RunThread(s, t))
  {
    hide Inv;
    HoldsAt(s, t);
    hide LockMove, MutexMove, WakeMove, GiveMove, Moves, RunThread;
    hide HoldsSpin, HoldsGlobal, Owns, WaitsOnUser;
    RunLocks(s, t);
    RunMutex(s, t);
    RunWakes(s, t);
    RunGives(s, t);
    MoveKeeps(s, t, RunThread(s, t));
  }

  lemma RunLocks(s: State, t: Tid)
    requires t in s.pc && Enabled(s, Run(t))
    requires HoldsSpin(s.pc[t]) ==> s.spin == Some(t)
    requires HoldsGlobal(s.pc[t]) ==> s.global == Thread(t)
    ensures Moves(s, t, RunThread(s, t)) && LockMove(s, t, RunThread(s, t))
  {
    hide Enabled, RunThread, HoldsSpin, HoldsGlobal;
    RunMoves(s, t);
    RunSpin(s, t);
    RunGlobal(s, t);
  }

  lemma RunSpin(s: State, t: Tid)
    requires t in s.pc && Enabled(s, Run(t)) && (HoldsSpin(s.pc[t]) ==> s.spin == Some(t))
    ensures var s' := RunThread(s, t); t in s'.pc && SpinMove(t, s.pc[t], s.spin, s'.pc[t], s'.spin)
  {
  }

  lemma RunGlobal(s: State, t: Tid)
    requires t in s.pc && Enabled(s, Run(t)) && (HoldsGlobal(s.pc[t]) ==> s.global == Thread(t))
    ensures var s' := RunThread(s, t); t in s'.pc && GlobalMove(t, s.pc[t], s.global, s'.pc[t], s'.global)
  {
  }

  lemma RunMoves(s: State, t: Tid)
    requires t in s.pc
    ensures Moves(s, t, RunThread(s, t))
  {
  }

  lemma RunMutex(s: State, t: Tid)
    requires t in s.pc && Enabled(s, Run(t)) && (Owns(s.pc[t]) ==> s.owner == Some(t))
    ensures t in RunThread(s, t).pc && MutexMove(s, t, RunThread(s, t))
  {
    match s.pc[t]
    case AcquireSpin =>
    case Test(_) =>
    case AcquireDone =>
    case ReleaseSpin(_) =>
    case Clear(_) =>
    case NotifyLock(_) =>
    case NotifyUnlock(_) =>
    case ReleaseDone =>
    case WaitLock(_) =>
    case WaitDrop(_) =>
    case WaitBlock(_) =>
    case Resume(_) =>
    case Respin(_) =>
    case _ =>
  }

  lemma RunWakes(s: State, t: Tid)
    requires t in s.pc && Enabled(s, Run(t)) && WaitsOnUser(s.pc[t])
    ensures t in RunThread(s, t).pc && WakeMove(s, t, RunThread(s, t))
  {
    match s.pc[t]
    case AcquireSpin =>
    case Test(_) =>
    case AcquireDone =>
    case ReleaseSpin(_) =>
    case Clear(_) =>
    case NotifyLock(_) =>
    case NotifyUnlock(_) =>
    case ReleaseDone =>
    case WaitLock(_) =>
    case WaitDrop(_) =>
    case WaitBlock(_) =>
    case Resume(_) =>
    case Respin(_) =>
    case _ =>
  }

  lemma RunGives(s: State, t: Tid)
    requires t in s.pc && Enabled(s, Run(t))
    ensures t in RunThread(s, t).pc && GiveMove(s, t, RunThread(s, t))
  {
    match s.pc[t]
    case AcquireSpin =>
    case Test(_) =>
    case AcquireDone =>
    case ReleaseSpin(_) =>
    case Clear(_) =>
    case NotifyLock(_) =>
    case NotifyUnlock(_) =>
    case ReleaseDone =>
    case WaitLock(_) =>
    case WaitDrop(_) =>
    case _ =>
  }

  lemma ScanKeeps(s: State, t: Tid, found: Option<Tid>)
    requires Inv(s) && Enabled(s, Scan(t, found))
    ensures Inv(Apply(s, Scan(t, found)))
  {
    hide Inv;
    HoldsAt(s, t);
    var s' := Apply(s, Scan(t, found));
    match found
    case Some(w) =>
      var cond := Scanned(s.pc[t]).value;
      var s1 := Goto(s, w, Woken(cond));
      PlainKeeps(s, w, Woken(cond));
      if cond == Internal {
        ScanAfterWake(s1, t, w, s');
      } else {
        PlainKeeps(s1, t, CallerNotifyUnlock(s.pc[t].id, s.pc[t].holding));
      }
    case None =>
      if s.pc[t].NotifyScan? {
        ScanNobody(s, t, s');
      } else {
        PlainKeeps(s, t, CallerNotifyUnlock(s.pc[t].id, s.pc[t].holding));
      }
  }

  /** The scan that woke `w` may stop counting as help: `w` does. */
  lemma ScanAfterWake(s: State, t: Tid, w: Tid, s': State)
    requires Inv(s) && Moves(s, t, s') && w in s.pc && w != t && s.pc[w] == Woken(Internal)
    requires s.pc[t].NotifyScan? && s' == Goto(s, t, NotifyUnlock(s.pc[t].next))
    ensures Inv(s')
  {
    hide LocksHeld, MutexHeld, GivenUp;
    LocksKept(s, t, s') by { HoldsAt(s, t); }
    MutexKept(s, t, s');
    GivenUpKept(s, t, s');
    assert s'.pc[w] == Woken(Internal);
    assert HelpComing(s');
  }

  /** A scan that finds nobody leaves nobody blocked: a thread about to block has the global lock. */
  lemma ScanNobody(s: State, t: Tid, s': State)
    requires Inv(s) && Moves(s, t, s') && !SomeBlocked(s, Internal)
    requires s.pc[t].NotifyScan? && s' == Goto(s, t, NotifyUnlock(s.pc[t].next))
    ensures Inv(s')
  {
    hide MutexHeld, GivenUp;
    LocksKept(s, t, s') by { HoldsAt(s, t); }
    MutexKept(s, t, s');
    GivenUpKept(s, t, s');
    forall u | u in s'.pc ensures s'.pc[u] != WaitBlock(Internal) && s'.pc[u] != Blocked(Internal) {
      assert HoldsGlobal(s.pc[t]) && (u != t && HoldsGlobal(s.pc[u]) ==> s.global == Thread(u));
    }
  }

  lemma LoopKeeps(s: State, global: Global)
    requires Inv(s) && !s.global.Thread? && !global.Thread?
    ensures Inv(s.(global := global))
  {
    assert HelpComing(s) ==> HelpComing(s.(global := global));
  }

  lemma SwitchKeeps(s: State, t: Tid)
    requires Inv(s) && Enabled(s, LoopSwitch(t))
    ensures Inv(Apply(s, LoopSwitch(t)))
  {
    hide Inv;
    MoveKeeps(s, t, Apply(s, LoopSwitch(t)));
  }

  lemma ApplyKeeps(s: State, step: Step)
    requires Inv(s) && Enabled(s, step)
    ensures Inv(Apply(s, step))
  {
    hide Inv;
    match step
    case Run(t) => RunKeeps(s, t);
    case Scan(t, found) => ScanKeeps(s, t, found);
    case LoopAcquire => LoopKeeps(s, Loop);
    case LoopRelease => LoopKeeps(s, Free);
    case LoopSwitch(t) => SwitchKeeps(s, t);
    case CallAcquire(t) => PlainKeeps(s, t, AcquireSpin);
    case CallRelease(t) => PlainKeeps(s, t, ReleaseSpin(ThenReturn));
    case CallCondWait(t, id) => PlainKeeps(s, t, ReleaseSpin(ThenWait(User(id))));
    case CallNotify(t, id) => PlainKeeps(s, t, CallerNotifyLock(id, s.pc[t] == Critical));
  }

  // Every run: any steps of any threads in any order.

  ghost predicate IsRun(states: seq<State>, steps: seq<Step>) {
    && |states| == |steps| + 1
    && Initial(states[0])
    && forall i :: 0 <= i < |steps| ==> Enabled(states[i], steps[i]) && states[i + 1] == Apply(states[i], steps[i])
  }

  lemma {:induction false} RunInv(states: seq<State>, steps: seq<Step>, i: nat)
    requires IsRun(states, steps) && i < |states|
    ensures Inv(states[i])
  {
    if i == 0 {
      InitialInv(states[0]);
    } else {
      RunInv(states, steps, i - 1);
      assert Enabled(states[i - 1], steps[i - 1]);
      hide Inv, Enabled, Apply;
      ApplyKeeps(states[i - 1], steps[i - 1]);
    }
  }

  /** At most one thread is between its return from thread_mutex_acquire and its release, and
      thread_mutex_held answers true to exactly that thread. */
  lemma MutualExclusion(states: seq<State>, steps: seq<Step>, i: nat, t: Tid, u: Tid)
    requires IsRun(states, steps) && i < |states| && t in states[i].pc && u in states[i].pc
    ensures Owns(states[i].pc[t]) && Owns(states[i].pc[u]) ==> t == u
    ensures states[i].locked && states[i].owner == Some(t) <==> Owns(states[i].pc[t])
  {
    RunInv(states, steps, i);
    hide IsRun, Owns, LocksHeld, NoWakeupLost, GivenUp;
  }

  /** The panics of unsafe_mutex_release are out of reach: a thread about to clear the mutex is its
      holder. */
  lemma ReleaserHolds(states: seq<State>, steps: seq<Step>, i: nat, t: Tid)
    requires IsRun(states, steps) && i < |states| && t in states[i].pc && states[i].pc[t].Clear?
    ensures states[i].locked && states[i].owner == Some(t)
  {
    MutualExclusion(states, steps, i, t, t);
  }

  /** No wakeup is lost: while a thread is blocked on the mutex, the mutex is locked, or a releaser
      has yet to notify, or a woken waiter has yet to test it again. */
  lemma NoLostWakeup(states: seq<State>, steps: seq<Step>, i: nat, t: Tid)
    requires IsRun(states, steps) && i < |states| && t in states[i].pc && states[i].pc[t] == Blocked(Internal)
    ensures || states[i].locked
            || (exists u :: u in states[i].pc && NotifyPending(states[i].pc[u]))
            || (exists u :: u in states[i].pc && RetestPending(states[i].pc[u]))
  {
    RunInv(states, steps, i);
    hide IsRun, LocksHeld, MutexHeld, GivenUp, NotifyPending, RetestPending;
    assert HelpComing(states[i]);
  }

  /** A caller of thread_cond_wait that has given the mutex up but is not yet blocked. */
  predicate NotYetBlocked(pc: Pc, id: nat) {
    match pc
    case NotifyLock(next) => next == ThenWait(User(id))
    case NotifyScan(next) => next == ThenWait(User(id))
    case NotifyUnlock(next) => next == ThenWait(User(id))
    case WaitLock(cond) => cond == User(id)
    case WaitDrop(cond) => cond == User(id)
    case WaitBlock(cond) => cond == User(id)
    case _ => false
  }

  /** If the mutex has been taken since `t` gave it up in thread_cond_wait, then no scan of a notify
      comes before `t` is blocked; and while `t` is blocked the scan wakes a waiter. */
  lemma NotifyFindsWaiter(states: seq<State>, steps: seq<Step>, i: nat, t: Tid, id: nat, u: Tid, found: Option<Tid>)
    requires IsRun(states, steps) && i < |steps| && steps[i] == Scan(u, found)
    requires u in states[i].pc && Scanned(states[i].pc[u]) == Some(User(id))
    requires t in states[i].pc && t in states[i].gaveUp && states[i].gaveUp[t] < states[i].taken
    ensures !NotYetBlocked(states[i].pc[t], id)
    ensures states[i].pc[t] == Blocked(User(id)) ==>
              && found.Some? && found.value in states[i].pc && found.value in states[i + 1].pc
              && states[i].pc[found.value] == Blocked(User(id)) && states[i + 1].pc[found.value] == Woken(User(id))
  {
    RunInv(states, steps, i);
    assert Enabled(states[i], steps[i]) && states[i + 1] == Apply(states[i], steps[i]);
    hide IsRun, MutexHeld, NoWakeupLost;
    assert HoldsGlobal(states[i].pc[u]) && states[i].global == Thread(u);
  }

  /** The two locks cannot deadlock: when either is held, a holder has an open step. */
  lemma LockHolderCanStep(states: seq<State>, steps: seq<Step>, i: nat)
    requires IsRun(states, steps) && i < |states|
    requires states[i].spin.Some? || states[i].global != Free
    ensures exists step :: Enabled(states[i], step) &&
              match step
              case Run(t) => states[i].spin == Some(t) || states[i].global == Thread(t)
              case Scan(t, _) => states[i].global == Thread(t)
              case LoopRelease => true
              case _ => false
  {
    hide IsRun, Inv, Enabled;
    RunInv(states, steps, i);
    HolderStep(states[i]);
  }

  lemma HolderStep(s: State)
    requires Inv(s) && (s.spin.Some? || s.global != Free)
    ensures exists step :: Enabled(s, step) &&
              match step
              case Run(t) => s.spin == Some(t) || s.global == Thread(t)
              case Scan(t, _) => s.global == Thread(t)
              case LoopRelease => true
              case _ => false
  {
    hide MutexHeld, NoWakeupLost, GivenUp;
    if s.global == Loop {
      assert Enabled(s, LoopRelease);
    } else if s.global.Thread? {
      var t := s.global.t;
      if Scanned(s.pc[t]).Some? {
        var cond := Scanned(s.pc[t]).value;
        if SomeBlocked(s, cond) {
          var w :| w in s.pc && s.pc[w] == Blocked(cond);
          assert Enabled(s, Scan(t, Some(w)));
        } else {
          assert Enabled(s, Scan(t, None));
        }
      } else {
        assert Enabled(s, Run(t));
      }
    } else {
      var t := s.spin.value;
      assert HoldsSpin(s.pc[t]) && !HoldsGlobal(s.pc[t]);
      assert Enabled(s, Run(t));
    }
  }
}
