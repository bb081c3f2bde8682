/** The re-entrant xchg spinlock of kernel/arch/i386/cpu/spinlock.c over the preemption and
    interrupt counters of kernel/arch/i386/cpu/cpu.c, one memory access at a time: any number of
    CPUs and locks, interrupts wherever they are enabled, and context switches under the global
    scheduler lock. push_no_interrupts, pop_no_interrupts, preempt_disable and preempt_enable touch
    one CPU with its interrupts off and are one step each. */
module Spinlock {
  import opened Base

  type Cpu = nat
  type LockId = nat
  type ContextId = nat

  const GLOBAL: LockId := 0  // global_scheduler_lock

  /** `interruptible`: interrupts were enabled when cpu_spinlock_acquire was called. `read`: the
      value of `locked` that cpu_spinlock_held has read. */
  datatype Pc =
    | Idle
    | AcqDisable(l: LockId, interruptible: bool)   // preempt_disable
    | AcqPush(l: LockId, interruptible: bool)      // push_no_interrupts
    | AcqRead(l: LockId, interruptible: bool)      // cpu_spinlock_held: push, read locked
    | AcqReadCpu(l: LockId, interruptible: bool, read: bool)
    | AcqNest(l: LockId)                           // num++
    | AcqSpin(l: LockId, interruptible: bool)      // cli if interruptible, xchg
    | AcqMissed(l: LockId)                         // sti
    | AcqNum(l: LockId)                            // num = 1
    | AcqCpu(l: LockId)                            // cpu = this CPU
    | AcqPop(l: LockId)
    | RelPush(l: LockId)
    | RelCheck(l: LockId)                          // cpu == CPU_SPINLOCK_INVALID_CPU?
    | RelRead(l: LockId)                           // cpu_spinlock_held: push, read locked
    | RelReadCpu(l: LockId, read: bool)
    | RelDec(l: LockId)                            // --num
    | RelClear(l: LockId)                          // cpu = CPU_SPINLOCK_INVALID_CPU
    | RelOpen(l: LockId)                           // locked = 0
    | RelPop(l: LockId)
    | RelEnable(l: LockId)                         // preempt_enable
    | HeldRead(l: LockId)                          // cpu_spinlock_held, called directly
    | HeldReadCpu(l: LockId, read: bool)
    | Panic

  /** One activation of code: what it has acquired and not released, its outstanding explicit
      preempt_disable and push_no_interrupts calls, whether it has called the latter since it was
      entered, and the last answer of cpu_spinlock_held. */
  datatype Frame = Frame(pc: Pc, held: multiset<LockId>, disables: nat, pushes: nat, pushed: bool, answer: bool)

  /** A thread or a scheduler loop: its code, the code an interrupt handler on top of it has
      stopped, and the interrupt state that store_interrupts and restore_interrupts move. */
  datatype Context = Context(top: Frame, below: Option<Frame>, intEnabled: bool, cliStack: int)

  datatype CpuState = CpuState(ctx: Context, interrupts: bool, preemptDisabled: int)

  /** `holder` records who won the last xchg that found the lock open; no code reads it. */
  datatype Lock = Lock(locked: bool, num: int, cpu: Option<Cpu>, holder: Option<Cpu>)

  datatype State = State(cpus: map<Cpu, CpuState>, locks: map<LockId, Lock>, saved: map<ContextId, Context>)

  datatype Step =
    | CallAcquire(c: Cpu, l: LockId)
    | CallRelease(c: Cpu, l: LockId)
    | CallHeld(c: Cpu, l: LockId)
    | CallPush(c: Cpu)
    | CallPop(c: Cpu)
    | CallDisable(c: Cpu)
    | CallEnable(c: Cpu)
    | Run(c: Cpu)
    | Interrupt(c: Cpu)
    | ReturnFromInterrupt(c: Cpu)
    | NewContext(id: ContextId)
    | Switch(c: Cpu, id: ContextId, into: ContextId)

  function EmptyFrame(): Frame {
    Frame(Idle, multiset{}, 0, 0, false, false)
  }

  /** A new thread: it starts where it owns the global lock its scheduler took for it. */
  function StartContext(): Context {
    Context(EmptyFrame().(held := multiset{GLOBAL}), None, true, 0)
  }

  ghost predicate Initial(s: State) {
    && (forall c :: c in s.cpus ==>
          s.cpus[c] == CpuState(Context(EmptyFrame(), None, false, 0), s.cpus[c].interrupts, 0))
    && (forall l :: l in s.locks ==> s.locks[l] == Lock(false, 0, None, None))
    && GLOBAL in s.locks
    && s.saved == map[]
  }

  // cpu.c

  function Push(cs: CpuState): CpuState {
    cs.(interrupts := false,
        ctx := cs.ctx.(cliStack := cs.ctx.cliStack + 1,
                       intEnabled := if cs.ctx.cliStack == 0 then cs.interrupts else cs.ctx.intEnabled,
                       top := cs.ctx.top.(pushed := true)))
  }

  /** The two panics of pop_no_interrupts. */
  predicate PopPanics(cs: CpuState) {
    cs.interrupts || cs.ctx.cliStack <= 0
  }

  function Pop(cs: CpuState): CpuState {
    cs.(interrupts := cs.ctx.cliStack == 1 && cs.ctx.intEnabled,
        ctx := cs.ctx.(cliStack := cs.ctx.cliStack - 1))
  }

  /** What a step does to its CPU besides moving on. */
  datatype Effect = Nothing | Cli | Sti | PushInterrupts | PopInterrupts | DisablePreemption | EnablePreemption

  predicate Panics(cs: CpuState, e: Effect) {
    match e
    case PopInterrupts => PopPanics(cs)
    case DisablePreemption => PopPanics(Push(cs))
    case EnablePreemption => cs.preemptDisabled <= 0 || PopPanics(Push(cs))
    case _ => false
  }

  function Do(cs: CpuState, e: Effect): CpuState {
    match e
    case Nothing => cs
    case Cli => cs.(interrupts := false)
    case Sti => cs.(interrupts := true)
    case PushInterrupts => Push(cs)
    case PopInterrupts => Pop(cs)
    case DisablePreemption => Pop(Push(cs)).(preemptDisabled := cs.preemptDisabled + 1)
    case EnablePreemption => Pop(Push(cs)).(preemptDisabled := cs.preemptDisabled - 1)
  }

  /** The effect, and then the frame `f`; or a panic. */
  function DoThen(cs: CpuState, e: Effect, f: Frame): CpuState {
    if Panics(cs, e) then SetTop(cs, cs.ctx.top.(pc := Panic))
    else SetTop(Do(cs, e), f.(pushed := Do(cs, e).ctx.top.pushed))
  }

  function SetTop(cs: CpuState, f: Frame): CpuState {
    cs.(ctx := cs.ctx.(top := f))
  }

  // spinlock.c: one access of the code at `pc`, run by CPU `c`, to the lock it is about

  datatype Move = Move(effect: Effect, next: Pc, lock: Lock)

  function Access(pc: Pc, c: Cpu, lock: Lock): Move {
    match pc
    case AcqDisable(l, i) => Move(DisablePreemption, AcqPush(l, i), lock)
    case AcqPush(l, i) => Move(PushInterrupts, AcqRead(l, i), lock)
    case AcqRead(l, i) => Move(PushInterrupts, AcqReadCpu(l, i, lock.locked), lock)
    case AcqReadCpu(l, i, read) =>
      Move(PopInterrupts, if read && lock.cpu == Some(c) then AcqNest(l) else AcqSpin(l, i), lock)
    case AcqNest(l) => Move(Nothing, AcqPop(l), lock.(num := lock.num + 1))
    case AcqSpin(l, i) =>
      if !lock.locked then Move(if i then Cli else Nothing, AcqNum(l), lock.(locked := true, holder := Some(c)))
      else if i then Move(Cli, AcqMissed(l), lock)
      else Move(Nothing, pc, lock)
    case AcqMissed(l) => Move(Sti, AcqSpin(l, true), lock)
    case AcqNum(l) => Move(Nothing, AcqCpu(l), lock.(num := 1))
    case AcqCpu(l) => Move(Nothing, AcqPop(l), lock.(cpu := Some(c)))
    case AcqPop(l) => Move(PopInterrupts, Idle, lock)
    case RelPush(l) => Move(PushInterrupts, RelCheck(l), lock)
    case RelCheck(l) => Move(Nothing, if lock.cpu == None then Panic else RelRead(l), lock)
    case RelRead(l) => Move(PushInterrupts, RelReadCpu(l, lock.locked), lock)
    case RelReadCpu(l, read) => Move(PopInterrupts, if read && lock.cpu == Some(c) then RelDec(l) else Panic, lock)
    case RelDec(l) => Move(Nothing, if lock.num - 1 > 0 then RelPop(l) else RelClear(l), lock.(num := lock.num - 1))
    case RelClear(l) => Move(Nothing, RelOpen(l), lock.(cpu := None))
    case RelOpen(l) => Move(Nothing, RelPop(l), lock.(locked := false, holder := None))
    case RelPop(l) => Move(PopInterrupts, RelEnable(l), lock)
    case RelEnable(l) => Move(EnablePreemption, Idle, lock)
    case HeldRead(l) => Move(PushInterrupts, HeldReadCpu(l, lock.locked), lock)
    case HeldReadCpu(l, _) => Move(PopInterrupts, Idle, lock)
    case _ => Move(Nothing, pc, lock)
  }

  /** The frame after the access: an acquire that returns owns its lock, a release that has counted
      down no longer does, cpu_spinlock_held returns its answer. */
  function After(f: Frame, c: Cpu, lock: Lock): Frame {
    f.(pc := Access(f.pc, c, lock).next,
       held := match f.pc
               case AcqPop(l) => f.held + multiset{l}
               case RelDec(l) => f.held - multiset{l}
               case _ => f.held,
       answer := if f.pc.HeldReadCpu? then f.pc.read && lock.cpu == Some(c) else f.answer)
  }

  function RunCpu(cs: CpuState, c: Cpu, lock: Lock): CpuState {
    DoThen(cs, Access(cs.ctx.top.pc, c, lock).effect, After(cs.ctx.top, c, lock))
  }

  predicate IdleCpu(s: State, c: Cpu) {
    c in s.cpus && s.cpus[c].ctx.top.pc == Idle
  }

  /** Callers release what they acquired, and undo no more than they did. An interrupt comes only
      where interrupts are enabled, and its handler returns with nothing outstanding. A switch is
      asked for by code that took the global lock; reschedule panics unless it is the only one. */
  predicate Enabled(s: State, step: Step) {
    match step
    case CallAcquire(c, l) => IdleCpu(s, c) && l in s.locks
    case CallRelease(c, l) => IdleCpu(s, c) && l in s.locks && l in s.cpus[c].ctx.top.held
    case CallHeld(c, l) => IdleCpu(s, c) && l in s.locks
    case CallPush(c) => IdleCpu(s, c)
    case CallPop(c) => IdleCpu(s, c) && s.cpus[c].ctx.top.pushes > 0
    case CallDisable(c) => IdleCpu(s, c)
    case CallEnable(c) => IdleCpu(s, c) && s.cpus[c].ctx.top.disables > 0
    case Run(c) =>
      c in s.cpus && (match s.cpus[c].ctx.top.pc case Idle => false case Panic => false case pc => pc.l in s.locks)
    case Interrupt(c) => c in s.cpus && s.cpus[c].interrupts && s.cpus[c].ctx.top.pc != Panic
    case ReturnFromInterrupt(c) =>
      && IdleCpu(s, c) && s.cpus[c].ctx.below.Some?
      && s.cpus[c].ctx.top.held == multiset{} && s.cpus[c].ctx.top.disables == 0 && s.cpus[c].ctx.top.pushes == 0
    case NewContext(id) => id !in s.saved
    case Switch(c, id, into) =>
      && IdleCpu(s, c) && GLOBAL in s.cpus[c].ctx.top.held && s.cpus[c].preemptDisabled <= 1
      && id !in s.saved && into in s.saved
  }

  function Apply(s: State, step: Step): State
    requires Enabled(s, step)
  {
    match step
    case NewContext(id) => s.(saved := s.saved[id := StartContext()])
    case Switch(c, id, into) =>
      var ctx := s.saved[into];
      s.(cpus := s.cpus[c := s.cpus[c].(ctx := ctx, interrupts := ctx.intEnabled && ctx.cliStack == 0)],
         saved := (s.saved - {into})[id := s.cpus[c].ctx])
    case Run(c) =>
      var l := s.cpus[c].ctx.top.pc.l;
      s.(cpus := s.cpus[c := RunCpu(s.cpus[c], c, s.locks[l])],
         locks := s.locks[l := Access(s.cpus[c].ctx.top.pc, c, s.locks[l]).lock])
    case _ => s.(cpus := s.cpus[step.c := Begin(s.cpus[step.c], step)])
  }

  /** The steps that concern one CPU and no lock. */
  function Begin(cs: CpuState, step: Step): CpuState {
    var f := cs.ctx.top;
    match step
    case CallAcquire(_, l) => SetTop(cs, f.(pc := AcqDisable(l, cs.interrupts)))
    case CallRelease(_, l) => SetTop(cs, f.(pc := RelPush(l)))
    case CallHeld(_, l) => SetTop(cs, f.(pc := HeldRead(l)))
    case CallPush(_) => DoThen(cs, PushInterrupts, f.(pushes := f.pushes + 1))
    case CallPop(_) => DoThen(cs, PopInterrupts, if f.pushes == 0 then f.(pc := Panic) else f.(pushes := f.pushes - 1))
    case CallDisable(_) => DoThen(cs, DisablePreemption, f.(disables := f.disables + 1))
    case CallEnable(_) =>
      DoThen(cs, EnablePreemption, if f.disables == 0 then f.(pc := Panic) else f.(disables := f.disables - 1))
    case Interrupt(_) =>
      if cs.ctx.below.Some? then SetTop(cs, f.(pc := Panic))  // handlers run with interrupts off
      else cs.(interrupts := false, ctx := cs.ctx.(top := EmptyFrame(), below := Some(f)))
    case ReturnFromInterrupt(_) =>
      if cs.ctx.below.None? then cs
      else cs.(interrupts := true, ctx := cs.ctx.(top := cs.ctx.below.value, below := None))
    case _ => cs
  }

  // What each point of the code means.

  /** Outstanding push_no_interrupts calls of the lock code itself. */
  function PcPushes(pc: Pc): nat {
    match pc
    case AcqRead(_, _) => 1
    case AcqReadCpu(_, _, _) => 2
    case AcqNest(_) => 1
    case AcqSpin(_, _) => 1
    case AcqMissed(_) => 1
    case AcqNum(_) => 1
    case AcqCpu(_) => 1
    case AcqPop(_) => 1
    case RelCheck(_) => 1
    case RelRead(_) => 1
    case RelReadCpu(_, _) => 2
    case RelDec(_) => 1
    case RelClear(_) => 1
    case RelOpen(_) => 1
    case RelPop(_) => 1
    case HeldReadCpu(_, _) => 1
    case _ => 0
  }

  /** Acquires in progress that have disabled preemption, and releases that have yet to enable it. */
  function PcDisables(pc: Pc): nat {
    match pc
    case AcqPush(_, _) => 1
    case AcqRead(_, _) => 1
    case AcqReadCpu(_, _, _) => 1
    case AcqNest(_) => 1
    case AcqSpin(_, _) => 1
    case AcqMissed(_) => 1
    case AcqNum(_) => 1
    case AcqCpu(_) => 1
    case AcqPop(_) => 1
    case RelClear(_) => 1
    case RelOpen(_) => 1
    case RelPop(_) => 1
    case RelEnable(_) => 1
    case _ => 0
  }

  /** The lock an acquire has counted in `num` and not yet handed to its caller. */
  function Counted(pc: Pc): multiset<LockId> {
    if pc.AcqPop? then multiset{pc.l} else multiset{}
  }

  /** Points at which an interrupt may have stopped the code. */
  predicate Stoppable(pc: Pc) {
    PcPushes(pc) == 0 || (pc.AcqSpin? && pc.interruptible)
  }

  /** Points of a release that still owns what it releases. */
  predicate Releasing(pc: Pc) {
    pc.RelPush? || pc.RelCheck? || pc.RelRead? || pc.RelReadCpu? || pc.RelDec?
  }

  /** Won but not labelled, or unlabelled but not open. */
  predicate Between(pc: Pc, l: LockId) {
    pc == AcqNum(l) || pc == AcqCpu(l) || pc == RelClear(l) || pc == RelOpen(l)
  }

  function Held(ctx: Context): multiset<LockId> {
    ctx.top.held + Counted(ctx.top.pc) + if ctx.below.Some? then ctx.below.value.held else multiset{}
  }

  function FramePushes(f: Frame): nat {
    f.pushes + PcPushes(f.pc)
  }

  function FrameDisables(f: Frame): nat {
    |f.held| + f.disables + PcDisables(f.pc)
  }

  /** The acquire was called with interrupts on. */
  predicate Interruptible(pc: Pc) {
    match pc
    case AcqDisable(_, i) => i
    case AcqPush(_, i) => i
    case AcqRead(_, i) => i
    case AcqReadCpu(_, i, _) => i
    case AcqSpin(_, i) => i
    case AcqMissed(_) => true
    case _ => false
  }

  /** `f` is at a point its code can be at: a release owns its lock, and an acquire that saw
      interrupts on is not in a handler (`bottom`) nor under an explicit push. */
  ghost predicate Fits(pc: Pc, held: multiset<LockId>, pushes: nat, bottom: bool) {
    && pc != Panic
    && (Releasing(pc) ==> pc.l in held)
    && (Interruptible(pc) ==> bottom && pushes == 0)
  }

  /** What holds of a context on a CPU or off it. */
  ghost predicate ContextOk(ctx: Context) {
    && Fits(ctx.top.pc, ctx.top.held, ctx.top.pushes, ctx.below.None?)
    && ctx.cliStack == FramePushes(ctx.top) + (if ctx.below.Some? then FramePushes(ctx.below.value) else 0)
    && (FramePushes(ctx.top) > 0 ==> ctx.top.pushed)
    && (ctx.top.held != multiset{} && ctx.below.Some? ==> ctx.top.pushed)
    && (ctx.below.Some? ==>
          && Stoppable(ctx.below.value.pc) && ctx.below.value.pc != Panic
          && ctx.below.value.pushes == 0
          && (Releasing(ctx.below.value.pc) ==> ctx.below.value.pc.l in ctx.below.value.held)
          && (ctx.top.pushed && FramePushes(ctx.below.value) == 0 ==> !ctx.intEnabled)
          && (FramePushes(ctx.below.value) > 0 ==> ctx.below.value.pushed))
  }

  /** preempt_disabled counts the CPU's held nesting, its acquires in progress and its explicit
      disables; interrupts are on only where the code allows it and never in a handler. */
  ghost predicate CpuOk(cs: CpuState) {
    && ContextOk(cs.ctx)
    && cs.preemptDisabled == FrameDisables(cs.ctx.top) + (if cs.ctx.below.Some? then FrameDisables(cs.ctx.below.value) else 0)
    && (cs.interrupts ==> cs.ctx.below.None? && cs.ctx.top.pushes == 0 && Stoppable(cs.ctx.top.pc))
  }

  /** A context off its CPU holds the global lock once, and nothing else. */
  ghost predicate SavedOk(ctx: Context) {
    && ContextOk(ctx) && ctx.top.pc == Idle
    && ctx.top.held == multiset{GLOBAL}
    && FrameDisables(ctx.top) + (if ctx.below.Some? then FrameDisables(ctx.below.value) else 0) == 1
  }

  /** A CPU at `pc` with nesting `n` on `l` has nothing to do with `l`. */
  ghost predicate Apart(pc: Pc, n: nat, l: LockId) {
    n == 0 && !Between(pc, l) && pc != AcqNest(l)
  }

  /** The value of `locked` that cpu_spinlock_held has read, if `pc` is inside it. */
  function ReadValue(pc: Pc): bool {
    match pc
    case AcqReadCpu(_, _, read) => read
    case RelReadCpu(_, read) => read
    case HeldReadCpu(_, read) => read
    case _ => true
  }

  /** The fields of a held lock against the point `pc` its holder `c` has reached. */
  ghost predicate Labelled(pc: Pc, n: nat, c: Cpu, l: LockId, lock: Lock) {
    && lock.locked
    && (pc != Idle && pc != Panic && pc.l == l ==> ReadValue(pc))
    && (if pc == AcqNum(l) then n == 0 && lock.cpu == None
        else if pc == AcqCpu(l) then n == 0 && lock.cpu == None && lock.num == 1
        else if pc == RelClear(l) then n == 0 && lock.cpu == Some(c) && lock.num == 0
        else if pc == RelOpen(l) then n == 0 && lock.cpu == None && lock.num == 0
        else n > 0 && lock.cpu == Some(c) && lock.num == n)
  }

  /** The lock as CPU `c` may find it: it holds the lock, another CPU does, or nobody. */
  ghost predicate Seen(pc: Pc, n: nat, c: Cpu, l: LockId, lock: Lock) {
    && (lock.holder == None ==> !lock.locked && lock.cpu == None)
    && (lock.holder == Some(c) ==> Labelled(pc, n, c, l, lock))
    && (lock.holder != Some(c) ==> lock.cpu != Some(c) && Apart(pc, n, l))
    && (lock.holder.Some? ==> lock.locked)
  }

  ghost predicate LockOk(cpus: map<Cpu, CpuState>, l: LockId, lock: Lock) {
    && (lock.holder.Some? ==> lock.holder.value in cpus)
    && (lock.holder == None ==> !lock.locked && lock.cpu == None)
    && (forall c :: c in cpus ==> Seen(cpus[c].ctx.top.pc, Held(cpus[c].ctx)[l], c, l, lock))
  }

  ghost predicate Inv(s: State) {
    && GLOBAL in s.locks
    && (forall c :: c in s.cpus ==> CpuOk(s.cpus[c]))
    && (forall id :: id in s.saved ==> SavedOk(s.saved[id]))
    && (forall l :: l in s.locks ==> LockOk(s.cpus, l, s.locks[l]))
  }

  lemma InitialInv(s: State)
    requires Initial(s)
    ensures Inv(s)
  {
  }

  // One CPU's counters.

  function PushDelta(e: Effect): int {
    if e == PushInterrupts then 1 else if e == PopInterrupts then -1 else 0
  }

  function DisableDelta(e: Effect): int {
    if e == DisablePreemption then 1 else if e == EnablePreemption then -1 else 0
  }

  /** An effect followed by a move to `f` keeps the counters exact, if the move accounts for it. */
  ghost predicate Accounts(cs: CpuState, e: Effect, f: Frame) {
    && Fits(f.pc, f.held, f.pushes, cs.ctx.below.None?)
    && FramePushes(f) == FramePushes(cs.ctx.top) + PushDelta(e)
    && FrameDisables(f) == FrameDisables(cs.ctx.top) + DisableDelta(e)
    && (e == Nothing && cs.interrupts ==> Stoppable(f.pc) && f.pushes == 0)
    && (e == Sti ==> Stoppable(f.pc) && f.pushes == 0 && cs.ctx.below.None?)
    && (e == PopInterrupts || e == EnablePreemption || e == DisablePreemption ==> FramePushes(f) == 0 ==>
          Stoppable(f.pc))
    && (f.held != multiset{} ==> cs.ctx.top.held != multiset{} || cs.ctx.top.pushed)
  }

  lemma SimpleEffectOk(cs: CpuState, e: Effect, f: Frame)
    requires CpuOk(cs) && Accounts(cs, e, f) && (e == Nothing || e == Cli || e == Sti || e == PushInterrupts)
    ensures !Panics(cs, e) && CpuOk(DoThen(cs, e, f))
  {
    hide Fits, PcPushes, PcDisables, Releasing;
  }

  lemma PopEffectOk(cs: CpuState, f: Frame)
    requires CpuOk(cs) && Accounts(cs, PopInterrupts, f)
    requires !cs.interrupts && FramePushes(cs.ctx.top) > 0
    ensures !Panics(cs, PopInterrupts) && CpuOk(DoThen(cs, PopInterrupts, f))
  {
    hide Fits, PcPushes, PcDisables, Releasing;
  }

  lemma PreemptEffectOk(cs: CpuState, e: Effect, f: Frame)
    requires CpuOk(cs) && Accounts(cs, e, f) && (e == DisablePreemption || e == EnablePreemption)
    requires FramePushes(cs.ctx.top) > 0 ==> !cs.interrupts
    ensures !Panics(cs, e) && CpuOk(DoThen(cs, e, f))
  {
    hide Fits, PcPushes, PcDisables, Releasing;
  }

  /** The lock does not make the code at `pc` panic. */
  predicate Safe(pc: Pc, c: Cpu, lock: Lock) {
    match pc
    case RelCheck(_) => lock.cpu.Some?
    case RelReadCpu(_, read) => read && lock.cpu == Some(c)
    case _ => true
  }

  lemma AccessAccounts(pc: Pc, held: multiset<LockId>, pushes: nat, bottom: bool, c: Cpu, lock: Lock)
    requires Fits(pc, held, pushes, bottom) && pc != Idle && Safe(pc, c, lock)
    ensures var m := Access(pc, c, lock);
            && (Releasing(m.next) ==> Releasing(pc) && m.next.l == pc.l && !pc.RelDec?)
            && (Interruptible(m.next) ==> Interruptible(pc))
            && m.next != Panic
            && PcPushes(m.next) == PcPushes(pc) + PushDelta(m.effect)
            && PcDisables(m.next) == PcDisables(pc) + DisableDelta(m.effect) + (if pc.RelDec? then 1 else if pc.AcqPop? then -1 else 0)
            && (m.effect == Nothing && Stoppable(pc) ==> Stoppable(m.next))
            && (m.effect == Sti ==> Stoppable(m.next) && Interruptible(pc))
            && (m.effect != Nothing && m.effect != Cli && m.effect != PushInterrupts && PcPushes(m.next) == 0 ==>
                  Stoppable(m.next))
            && (m.effect == PopInterrupts ==> PcPushes(pc) > 0 && !Stoppable(pc))
            && (m.effect == DisablePreemption || m.effect == EnablePreemption ==> PcPushes(pc) == 0)
            && (pc.AcqPop? ==> PcPushes(pc) > 0)
  {
  }

  lemma RunAccounts(cs: CpuState, c: Cpu, lock: Lock)
    requires CpuOk(cs) && cs.ctx.top.pc != Idle && Safe(cs.ctx.top.pc, c, lock)
    ensures var e := Access(cs.ctx.top.pc, c, lock).effect;
            && Accounts(cs, e, After(cs.ctx.top, c, lock))
            && (e == PopInterrupts ==> !cs.interrupts && FramePushes(cs.ctx.top) > 0)
            && (e == DisablePreemption || e == EnablePreemption ==> FramePushes(cs.ctx.top) > 0 ==> !cs.interrupts)
  {
    hide Access, Interruptible, PcPushes, PcDisables, Stoppable, Safe;
    var f := cs.ctx.top;
    AccessAccounts(f.pc, f.held, f.pushes, cs.ctx.below.None?, c, lock);
    HeldSize(f, c, lock);
  }

  lemma RunCpuOk(cs: CpuState, c: Cpu, lock: Lock)
    requires CpuOk(cs) && cs.ctx.top.pc != Idle && Safe(cs.ctx.top.pc, c, lock)
    ensures CpuOk(RunCpu(cs, c, lock)) && !Panics(cs, Access(cs.ctx.top.pc, c, lock).effect)
  {
    var f, f' := cs.ctx.top, After(cs.ctx.top, c, lock);
    var e := Access(f.pc, c, lock).effect;
    hide Access, After, Safe, CpuOk, Accounts, DoThen, Panics;
    RunAccounts(cs, c, lock);
    match e
    case PopInterrupts => PopEffectOk(cs, f');
    case DisablePreemption => PreemptEffectOk(cs, e, f');
    case EnablePreemption => PreemptEffectOk(cs, e, f');
    case _ => SimpleEffectOk(cs, e, f');
  }

  lemma HeldSize(f: Frame, c: Cpu, lock: Lock)
    requires Releasing(f.pc) ==> f.pc.l in f.held
    ensures |After(f, c, lock).held| == |f.held| + (if f.pc.RelDec? then -1 else if f.pc.AcqPop? then 1 else 0)
  {
    if f.pc.RelDec? {
      assert f.held == f.held - multiset{f.pc.l} + multiset{f.pc.l};
    }
  }

  // The lock a step is about, and the others.

  /** How an access changes the nesting of the CPU on its lock. */
  function NestDelta(pc: Pc): int {
    if pc.AcqNest? || pc.AcqCpu? then 1 else if pc.RelDec? then -1 else 0
  }

  predicate FreeOr(x: Option<Cpu>, c: Cpu) {
    x == None || x == Some(c)
  }

  /** All a step of `c` may do to a lock, as the other CPUs see it: they do not hold it before or after. */
  ghost predicate Others(c: Cpu, lock: Lock, lock': Lock) {
    || lock' == lock
    || (FreeOr(lock.holder, c) && FreeOr(lock'.holder, c) && FreeOr(lock'.cpu, c))
  }

  lemma AccessSeen(pc: Pc, n: nat, c: Cpu, l: LockId, lock: Lock)
    requires Seen(pc, n, c, l, lock) && pc != Idle && pc != Panic && pc.l == l
    requires Releasing(pc) ==> n > 0
    ensures Safe(pc, c, lock)
    ensures var m := Access(pc, c, lock);
            n + NestDelta(pc) >= 0 && Seen(m.next, n + NestDelta(pc), c, l, m.lock) && Others(c, lock, m.lock)
  {
  }

  /** Which accesses enter and leave the point where the nesting is counted but not yet handed over. */
  lemma RunFits(cs: CpuState, c: Cpu, lock: Lock)
    requires CpuOk(cs) && cs.ctx.top.pc != Idle
    ensures var pc, next := cs.ctx.top.pc, Access(cs.ctx.top.pc, c, lock).next;
            pc != Panic && (next.AcqPop? <==> pc.AcqNest? || pc.AcqCpu?) && (next.AcqPop? ==> next.l == pc.l)
                && (pc.RelDec? ==> pc.l in cs.ctx.top.held)
  {
    hide PcPushes, PcDisables, Stoppable;
  }

  lemma RunHeld(cs: CpuState, c: Cpu, lock: Lock, k: LockId)
    requires CpuOk(cs) && cs.ctx.top.pc != Idle && Safe(cs.ctx.top.pc, c, lock)
    ensures RunCpu(cs, c, lock).ctx.top.pc == Access(cs.ctx.top.pc, c, lock).next
    ensures Held(RunCpu(cs, c, lock).ctx)[k] == Held(cs.ctx)[k] + if cs.ctx.top.pc.l ==
            k then NestDelta(cs.ctx.top.pc) else 0
  {
    hide Access, CpuOk, Panics, Safe, After, Do, Counted;
    RunCpuOk(cs, c, lock);
    RunFits(cs, c, lock);
    AfterHeld(cs.ctx.top, c, lock, k);
    DoKeepsBelow(cs, Access(cs.ctx.top.pc, c, lock).effect);
  }

  lemma DoKeepsBelow(cs: CpuState, e: Effect)
    ensures Do(cs, e).ctx.below == cs.ctx.below
  {
  }

  lemma AfterHeld(f: Frame, c: Cpu, lock: Lock, k: LockId)
    requires f.pc != Idle && f.pc != Panic
    requires var next := Access(f.pc, c, lock).next;
             (next.AcqPop? <==> f.pc.AcqNest? || f.pc.AcqCpu?) && (next.AcqPop? ==> next.l == f.pc.l) && (f.pc.RelDec? ==> f.pc.l in f.held)
    ensures After(f, c, lock).pc == Access(f.pc, c, lock).next
    ensures (After(f, c, lock).held + Counted(After(f, c, lock).pc))[k] == (f.held + Counted(f.pc))[k] + if f.pc.l ==
            k then NestDelta(f.pc) else 0
  {
    hide Access;
  }

  lemma OthersSeen(pc: Pc, n: nat, c: Cpu, d: Cpu, l: LockId, lock: Lock, lock': Lock)
    requires Seen(pc, n, d, l, lock) && d != c && Others(c, lock, lock')
    requires (lock'.holder == None ==> !lock'.locked && lock'.cpu == None) && (lock'.holder.Some? ==> lock'.locked)
    ensures Seen(pc, n, d, l, lock')
  {
  }

  /** Moving between points that have nothing to do with `k`. */
  lemma ElsewhereSeen(pc: Pc, pc': Pc, n: nat, c: Cpu, k: LockId, lock: Lock)
    requires Seen(pc, n, c, k, lock)
    requires !Between(pc, k) && pc != AcqNest(k) && !Between(pc', k) && pc' != AcqNest(k)
    requires pc' != Idle && pc' != Panic && pc'.l == k ==> ReadValue(pc')
    ensures Seen(pc', n, c, k, lock)
  {
  }

  lemma NextAccess(pc: Pc, c: Cpu, lock: Lock)
    requires pc != Idle && pc != Panic
    ensures var next := Access(pc, c, lock).next; next != Idle && next != Panic ==> next.l == pc.l
  {
  }

  lemma ReleasingHeld(cs: CpuState)
    requires CpuOk(cs)
    ensures var pc := cs.ctx.top.pc; Releasing(pc) ==> Held(cs.ctx)[pc.l] > 0
  {
    hide PcPushes, PcDisables;
  }

  /** The lock the access is about. */
  lemma RunThisLock(cpus: map<Cpu, CpuState>, c: Cpu, pc: Pc, lock: Lock)
    requires c in cpus && cpus[c].ctx.top.pc == pc && pc != Idle && pc != Panic
    requires CpuOk(cpus[c]) && LockOk(cpus, pc.l, lock)
    ensures Safe(pc, c, lock) && LockOk(cpus[c := RunCpu(cpus[c], c, lock)], pc.l, Access(pc, c, lock).lock)
  {
    hide CpuOk, Seen, Access, RunCpu, Releasing, Held, Safe, Others;
    var l, m, cs' := pc.l, Access(pc, c, lock), RunCpu(cpus[c], c, lock);
    ReleasingHeld(cpus[c]);
    AccessSeen(pc, Held(cpus[c].ctx)[l], c, l, lock);
    RunHeld(cpus[c], c, lock, l);
    SeenLock(m.next, Held(cs'.ctx)[l], c, l, m.lock);
    OthersHolder(c, lock, m.lock);
    forall d | d in cpus && d != c ensures Seen(cpus[d].ctx.top.pc, Held(cpus[d].ctx)[l], d, l, m.lock) {
      OthersSeen(cpus[d].ctx.top.pc, Held(cpus[d].ctx)[l], c, d, l, lock, m.lock);
    }
  }

  /** Every other lock. */
  lemma RunOtherLock(cpus: map<Cpu, CpuState>, c: Cpu, pc: Pc, lock: Lock, k: LockId, other: Lock)
    requires c in cpus && cpus[c].ctx.top.pc == pc && pc != Idle && pc != Panic && pc.l != k
    requires CpuOk(cpus[c]) && Safe(pc, c, lock) && LockOk(cpus, k, other)
    ensures LockOk(cpus[c := RunCpu(cpus[c], c, lock)], k, other)
  {
    hide CpuOk, Seen, Access, RunCpu, Releasing, Between, Held, Safe;
    var next := Access(pc, c, lock).next;
    NextAccess(pc, c, lock);
    RunHeld(cpus[c], c, lock, k);
    ElsewherePoints(pc, next, k);
    ElsewhereSeen(pc, next, Held(cpus[c].ctx)[k], c, k, other);
  }

  lemma SeenLock(pc: Pc, n: nat, c: Cpu, l: LockId, lock: Lock)
    requires Seen(pc, n, c, l, lock)
    ensures (lock.holder == None ==> !lock.locked && lock.cpu == None) && (lock.holder.Some? ==> lock.locked)
  {
  }

  lemma OthersHolder(c: Cpu, lock: Lock, lock': Lock)
    requires Others(c, lock, lock')
    ensures lock'.holder == lock.holder || FreeOr(lock'.holder, c)
  {
  }

  lemma ElsewherePoints(pc: Pc, next: Pc, k: LockId)
    requires pc != Idle && pc != Panic && pc.l != k
    requires next != Idle && next != Panic ==> next.l != k
    ensures !Between(pc, k) && !Between(next, k) && pc != AcqNest(k) && next != AcqNest(k)
  {
  }

  lemma RunKeeps(s: State, c: Cpu)
    requires Inv(s) && Enabled(s, Run(c))
    ensures Inv(Apply(s, Run(c)))
  {
    hide CpuOk, SavedOk, LockOk, Access, RunCpu, Safe;
    var s', pc := Apply(s, Run(c)), s.cpus[c].ctx.top.pc;
    RunThisLock(s.cpus, c, pc, s.locks[pc.l]);
    forall k | k in s'.locks && k != pc.l ensures LockOk(s'.cpus, k, s'.locks[k]) {
      RunOtherLock(s.cpus, c, pc, s.locks[pc.l], k, s.locks[k]);
    }
    RunCpuOk(s.cpus[c], c, s.locks[pc.l]);
  }

  // Calls, interrupts and switches.

  predicate Begins(step: Step) {
    !step.Run? && !step.NewContext? && !step.Switch?
  }

  /** What `Enabled` says of the CPU of a step that concerns no lock. */
  predicate Ready(cs: CpuState, step: Step) {
    var f := cs.ctx.top;
    && (if step.Interrupt? then cs.interrupts else f.pc == Idle)
    && (step.ReturnFromInterrupt? ==> cs.ctx.below.Some? && f.held == multiset{} && f.disables == 0 && f.pushes == 0)
    && (step.CallRelease? ==> step.l in f.held)
    && (step.CallPop? ==> f.pushes > 0)
    && (step.CallEnable? ==> f.disables > 0)
  }

  /** The steps of calls that do not touch the interrupt state. */
  predicate Enters(step: Step) {
    step.CallAcquire? || step.CallRelease? || step.CallHeld?
  }

  lemma EnterCpuOk(cs: CpuState, step: Step)
    requires CpuOk(cs) && Ready(cs, step) && Enters(step)
    ensures CpuOk(Begin(cs, step))
  {
    hide DoThen;
    assert FramePushes(Begin(cs, step).ctx.top) == FramePushes(cs.ctx.top);
    assert FrameDisables(Begin(cs, step).ctx.top) == FrameDisables(cs.ctx.top);
    hide FramePushes, FrameDisables;
  }

  lemma InterruptCpuOk(cs: CpuState, step: Step)
    requires CpuOk(cs) && Ready(cs, step) && (step.Interrupt? || step.ReturnFromInterrupt?)
    ensures CpuOk(Begin(cs, step))
  {
    hide DoThen;
    if step.ReturnFromInterrupt? {
      assert FramePushes(cs.ctx.top) == 0 && FrameDisables(cs.ctx.top) == 0;
    }
  }

  lemma IdleCounts(f: Frame)
    ensures f.pc == Idle ==> FramePushes(f) == f.pushes && FrameDisables(f) == |f.held| + f.disables
  {
  }

  lemma EffectCpuOk(cs: CpuState, step: Step)
    requires CpuOk(cs) && Ready(cs, step)
    requires step.CallPush? || step.CallPop? || step.CallDisable? || step.CallEnable?
    ensures CpuOk(Begin(cs, step)) && Begin(cs, step).ctx.top.pc == Idle
    ensures Held(Begin(cs, step).ctx) == Held(cs.ctx)
  {
    hide PcPushes, PcDisables, Panics, DoThen, Held;
    var f := cs.ctx.top;
    IdleCounts(f);
    match step
    case CallPush(_) =>
      SimpleEffectOk(cs, PushInterrupts, f.(pushes := f.pushes + 1));
      EffectHeld(cs, PushInterrupts, f.(pushes := f.pushes + 1));
    case CallPop(_) =>
      PopEffectOk(cs, f.(pushes := f.pushes - 1));
      EffectHeld(cs, PopInterrupts, f.(pushes := f.pushes - 1));
    case CallDisable(_) =>
      PreemptEffectOk(cs, DisablePreemption, f.(disables := f.disables + 1));
      EffectHeld(cs, DisablePreemption, f.(disables := f.disables + 1));
    case CallEnable(_) =>
      PreemptEffectOk(cs, EnablePreemption, f.(disables := f.disables - 1));
      EffectHeld(cs, EnablePreemption, f.(disables := f.disables - 1));
  }

  lemma EffectHeld(cs: CpuState, e: Effect, f: Frame)
    requires !Panics(cs, e) && f.held == cs.ctx.top.held && f.pc == cs.ctx.top.pc
    ensures DoThen(cs, e, f).ctx.top.pc == f.pc && Held(DoThen(cs, e, f).ctx) == Held(cs.ctx)
  {
    hide Panics;
  }

  lemma BeginCpuOk(cs: CpuState, step: Step)
    requires CpuOk(cs) && Ready(cs, step) && Begins(step)
    ensures CpuOk(Begin(cs, step))
  {
    hide CpuOk, Begin, Ready;
    if Enters(step) {
      EnterCpuOk(cs, step);
    } else if step.Interrupt? || step.ReturnFromInterrupt? {
      InterruptCpuOk(cs, step);
    } else {
      EffectCpuOk(cs, step);
    }
  }

  /** A point that neither changes a lock nor has read one. */
  predicate Quiet(pc: Pc) {
    !pc.AcqNum? && !pc.AcqCpu? && !pc.RelClear? && !pc.RelOpen? && !pc.AcqNest? && ReadValue(pc)
  }

  lemma StoppableQuiet(pc: Pc)
    requires Stoppable(pc)
    ensures Quiet(pc) && Counted(pc) == multiset{}
  {
  }

  /** The code an interrupt stops, or has stopped, is at a point it may be stopped at. */
  lemma StoppedAt(cs: CpuState)
    requires CpuOk(cs)
    ensures cs.interrupts ==> Stoppable(cs.ctx.top.pc)
    ensures cs.ctx.below.Some? ==> Stoppable(cs.ctx.below.value.pc)
    ensures cs.interrupts ==> cs.ctx.below.None?
  {
    hide PcDisables, PcPushes, Fits, FramePushes, FrameDisables, Stoppable, Releasing;
  }

  lemma InterruptHeld(cs: CpuState, step: Step)
    requires CpuOk(cs) && Ready(cs, step) && (step.Interrupt? || step.ReturnFromInterrupt?)
    ensures Held(Begin(cs, step).ctx) == Held(cs.ctx) && Quiet(cs.ctx.top.pc) && Quiet(Begin(cs, step).ctx.top.pc)
  {
    hide CpuOk, DoThen, Quiet, Stoppable, Counted;
    StoppedAt(cs);
    IdleQuiet();
    if step.Interrupt? {
      StoppableQuiet(cs.ctx.top.pc);
    } else {
      StoppableQuiet(cs.ctx.below.value.pc);
    }
  }

  lemma IdleQuiet()
    ensures Quiet(Idle) && Counted(Idle) == multiset{}
  {
  }

  lemma BeginHeld(cs: CpuState, step: Step)
    requires CpuOk(cs) && Ready(cs, step) && Begins(step)
    ensures Held(Begin(cs, step).ctx) == Held(cs.ctx) && Quiet(cs.ctx.top.pc) && Quiet(Begin(cs, step).ctx.top.pc)
  {
    hide CpuOk, DoThen;
    if step.Interrupt? || step.ReturnFromInterrupt? {
      InterruptHeld(cs, step);
    } else if !Enters(step) {
      EffectCpuOk(cs, step);
    }
  }

  lemma BeginReady(s: State, step: Step)
    requires Enabled(s, step) && Begins(step)
    ensures step.c in s.cpus && Ready(s.cpus[step.c], step)
  {
  }

  lemma BeginKeeps(s: State, step: Step)
    requires Inv(s) && Enabled(s, step) && Begins(step)
    ensures Inv(Apply(s, step))
  {
    hide CpuOk, SavedOk, Begin, Held, Quiet, Seen, Between, Ready, Enabled;
    var s', c := Apply(s, step), step.c;
    BeginReady(s, step);
    BeginCpuOk(s.cpus[c], step);
    BeginHeld(s.cpus[c], step);
    forall k | k in s'.locks ensures LockOk(s'.cpus, k, s'.locks[k]) {
      assert LockOk(s.cpus, k, s.locks[k]);
      QuietSeen(s.cpus[c].ctx.top.pc, s'.cpus[c].ctx.top.pc, Held(s.cpus[c].ctx)[k], c, k, s.locks[k]);
    }
  }

  lemma QuietPoint(pc: Pc, k: LockId)
    requires Quiet(pc)
    ensures !Between(pc, k) && pc != AcqNest(k) && ReadValue(pc)
  {
  }

  lemma QuietSeen(pc: Pc, pc': Pc, n: nat, c: Cpu, k: LockId, lock: Lock)
    requires Seen(pc, n, c, k, lock) && Quiet(pc) && Quiet(pc')
    ensures Seen(pc', n, c, k, lock)
  {
    hide Seen, Quiet, Between, ReadValue;
    QuietPoint(pc, k);
    QuietPoint(pc', k);
    ElsewhereSeen(pc, pc', n, c, k, lock);
  }

  /** Code that may switch holds the global lock once, and no other. */
  lemma SwitchHolds(cs: CpuState)
    requires CpuOk(cs) && cs.ctx.top.pc == Idle && GLOBAL in cs.ctx.top.held && cs.preemptDisabled <= 1
    ensures SavedOk(cs.ctx) && cs.preemptDisabled == 1 && Held(cs.ctx) == multiset{GLOBAL}
  {
    var held := cs.ctx.top.held;
    assert held == held - multiset{GLOBAL} + multiset{GLOBAL};
    assert |held| == 1 && held - multiset{GLOBAL} == multiset{};
    if cs.ctx.below.Some? {
      assert |cs.ctx.below.value.held| == 0;
    }
  }

  lemma SavedHolds(ctx: Context)
    requires SavedOk(ctx)
    ensures ctx.top.pc == Idle && Held(ctx) == multiset{GLOBAL}
    ensures CpuOk(CpuState(ctx, ctx.intEnabled && ctx.cliStack == 0, 1))
  {
    if ctx.below.Some? {
      assert |ctx.below.value.held| == 0;
    }
  }

  lemma SwitchKeeps(s: State, c: Cpu, id: ContextId, into: ContextId)
    requires Inv(s) && Enabled(s, Switch(c, id, into))
    ensures Inv(Apply(s, Switch(c, id, into)))
  {
    hide CpuOk, SavedOk, Held, Seen;
    SwitchHolds(s.cpus[c]);
    SavedHolds(s.saved[into]);
    var s' := Apply(s, Switch(c, id, into));
    assert s'.cpus[c] == CpuState(s.saved[into], s.saved[into].intEnabled && s.saved[into].cliStack == 0, 1);
    forall k | k in s'.locks ensures LockOk(s'.cpus, k, s'.locks[k]) {
      assert LockOk(s.cpus, k, s.locks[k]);
    }
  }

  lemma NewContextKeeps(s: State, id: ContextId)
    requires Inv(s) && Enabled(s, NewContext(id))
    ensures Inv(Apply(s, NewContext(id)))
  {
    hide CpuOk, SavedOk, LockOk, StartContext;
    StartOk();
  }

  lemma StartOk()
    ensures SavedOk(StartContext())
  {
    var f := StartContext().top;
    IdleCounts(f);
    assert |f.held| == 1;
    hide FramePushes, FrameDisables, PcPushes, PcDisables;
  }

  lemma ApplyKeeps(s: State, step: Step)
    requires Inv(s) && Enabled(s, step)
    ensures Inv(Apply(s, step))
  {
    hide Inv, Enabled, Apply;
    match step
    case Run(c) => RunKeeps(s, c);
    case NewContext(id) => NewContextKeeps(s, id);
    case Switch(c, id, into) => SwitchKeeps(s, c, id, into);
    case _ => BeginKeeps(s, step);
  }

  // Whole runs.

  ghost predicate IsRun(states: seq<State>, steps: seq<Step>) {
    && |states| == |steps| + 1 && Initial(states[0])
    && (forall i :: 0 <= i < |steps| ==> Enabled(states[i], steps[i]) && states[i + 1] == Apply(states[i], steps[i]))
  }

  lemma StepOf(states: seq<State>, steps: seq<Step>, i: nat)
    requires IsRun(states, steps) && i < |steps|
    ensures |states| == |steps| + 1 && Enabled(states[i], steps[i]) && states[i + 1] == Apply(states[i], steps[i])
  {
  }

  lemma {:induction false} RunInv(states: seq<State>, steps: seq<Step>, i: nat)
    requires IsRun(states, steps) && i < |states|
    ensures Inv(states[i])
  {
    hide Inv, Enabled, Apply, Initial;
    if i == 0 {
      InitialInv(states[0]);
    } else {
      RunInv(states, steps, i - 1);
      ApplyKeeps(states[i - 1], steps[i - 1]);
    }
  }

  /** Two CPUs never own the same lock, and the fields of an owned lock name its owner and depth. */
  lemma MutualExclusion(states: seq<State>, steps: seq<Step>, i: nat, c: Cpu, d: Cpu, l: LockId)
    requires IsRun(states, steps) && i < |states|
    requires c in states[i].cpus && d in states[i].cpus && l in states[i].locks
    requires Held(states[i].cpus[c].ctx)[l] > 0 && Held(states[i].cpus[d].ctx)[l] > 0
    ensures c == d
    ensures states[i].locks[l].locked && states[i].locks[l].cpu == Some(c)
    ensures states[i].locks[l].num == Held(states[i].cpus[c].ctx)[l]
  {
    hide IsRun, CpuOk, SavedOk, Held;
    RunInv(states, steps, i);
    assert LockOk(states[i].cpus, l, states[i].locks[l]);
    assert Seen(states[i].cpus[c].ctx.top.pc, Held(states[i].cpus[c].ctx)[l], c, l, states[i].locks[l]);
  }

  lemma RunAnswer(cs: CpuState, c: Cpu, lock: Lock)
    requires CpuOk(cs) && cs.ctx.top.pc.HeldReadCpu?
    ensures RunCpu(cs, c, lock).ctx.top.answer <==> cs.ctx.top.pc.read && lock.cpu == Some(c)
  {
    hide CpuOk, Panics;
    RunCpuOk(cs, c, lock);
  }

  /** When cpu_spinlock_held returns, its answer is whether the CPU owns the lock. */
  lemma HeldIsExact(states: seq<State>, steps: seq<Step>, i: nat, c: Cpu, l: LockId, read: bool)
    requires IsRun(states, steps) && i < |steps| && steps[i] == Run(c)
    requires c in states[i].cpus && states[i].cpus[c].ctx.top.pc == HeldReadCpu(l, read)
    ensures c in states[i + 1].cpus
    ensures states[i + 1].cpus[c].ctx.top.answer <==> Held(states[i + 1].cpus[c].ctx)[l] > 0
  {
    hide IsRun, SavedOk, Held, CpuOk, RunCpu;
    StepOf(states, steps, i);
    RunInv(states, steps, i);
    var cs, lock := states[i].cpus[c], states[i].locks[l];
    assert LockOk(states[i].cpus, l, lock);
    assert Seen(cs.ctx.top.pc, Held(cs.ctx)[l], c, l, lock);
    RunHeld(cs, c, lock, l);
    RunAnswer(cs, c, lock);
  }

  /** A lock opens only by its owner's outermost release: the owner's nesting is down to zero. */
  lemma OnlyOutermostOpens(states: seq<State>, steps: seq<Step>, i: nat, l: LockId)
    requires IsRun(states, steps) && i < |steps|
    requires l in states[i].locks && l in states[i + 1].locks
    requires states[i].locks[l].locked && !states[i + 1].locks[l].locked
    ensures exists c :: steps[i] == Run(c) && c in states[i].cpus && states[i].cpus[c].ctx.top.pc == RelOpen(l)
                        && Held(states[i].cpus[c].ctx)[l] == 0 && states[i].locks[l].holder == Some(c)
  {
    hide IsRun, SavedOk, Held, CpuOk, RunCpu;
    StepOf(states, steps, i);
    RunInv(states, steps, i);
    assert LockOk(states[i].cpus, l, states[i].locks[l]);
    var c := steps[i].c;
    assert Seen(states[i].cpus[c].ctx.top.pc, Held(states[i].cpus[c].ctx)[l], c, l, states[i].locks[l]);
  }

  /** preempt_disabled is the nesting held, the acquires and releases in progress and the explicit
      disables; the code's panics are never reached. */
  lemma CountersExact(states: seq<State>, steps: seq<Step>, i: nat, c: Cpu)
    requires IsRun(states, steps) && i < |states| && c in states[i].cpus
    ensures var cs := states[i].cpus[c];
            var stopped := cs.ctx.below;
            && cs.ctx.top.pc != Panic
            && cs.preemptDisabled == |cs.ctx.top.held| + cs.ctx.top.disables + PcDisables(cs.ctx.top.pc)
                 + (if stopped.None? then 0 else |stopped.value.held| + stopped.value.disables + PcDisables(stopped.value.pc))
            && cs.ctx.cliStack == cs.ctx.top.pushes + PcPushes(cs.ctx.top.pc) + (if stopped.None? then 0 else PcPushes(stopped.value.pc))
            && (cs.interrupts ==> stopped.None? && cs.ctx.top.pushes == 0)
  {
    hide IsRun, SavedOk, LockOk, PcDisables, PcPushes, Stoppable, Releasing, Interruptible;
    RunInv(states, steps, i);
  }

  /** At every switch preemption is disabled once, by the one hold on the global lock. */
  lemma SwitchHoldsGlobalOnce(states: seq<State>, steps: seq<Step>, i: nat, c: Cpu, id: ContextId, into: ContextId)
    requires IsRun(states, steps) && i < |steps| && steps[i] == Switch(c, id, into)
    ensures forall j | j == i || j == i + 1 ::
              && c in states[j].cpus && GLOBAL in states[j].locks
              && states[j].cpus[c].preemptDisabled == 1 && Held(states[j].cpus[c].ctx) == multiset{GLOBAL}
              && states[j].locks[GLOBAL].num == 1 && states[j].locks[GLOBAL].cpu == Some(c)
  {
    hide IsRun, SavedOk, CpuOk, LockOk, Held;
    StepOf(states, steps, i);
    RunInv(states, steps, i);
    var s, s' := states[i], states[i + 1];
    SwitchHolds(s.cpus[c]);
    SavedHolds(s.saved[into]);
    MutualExclusion(states, steps, i, c, c, GLOBAL);
  }
}
