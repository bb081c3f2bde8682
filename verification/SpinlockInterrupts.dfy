/** The interrupt flag that push_no_interrupts and pop_no_interrupts save and give back
    (kernel/arch/i386/cpu/cpu.c), over every run of Spinlock. */
module SpinlockInterrupts {
  import opened Base
  import opened Spinlock

  /** The interrupt flag the code outside of handlers finds once all its pushes are undone. A handler
      came while interrupts were on. */
  predicate Home(cs: CpuState) {
    cs.ctx.below.Some? || if cs.ctx.cliStack == 0 then cs.interrupts else cs.ctx.intEnabled
  }

  /** Code stopped under its own push, in a spin that turned interrupts on, had found them on. */
  predicate Settled(ctx: Context) {
    ctx.below.Some? && FramePushes(ctx.below.value) > 0 ==> ctx.intEnabled
  }

  /** An acquire that spins with interrupts on was called with them on. */
  predicate FlagOk(cs: CpuState) {
    Settled(cs.ctx) && (cs.ctx.below.None? && Interruptible(cs.ctx.top.pc) ==> Home(cs))
  }

  ghost predicate FlagsOk(s: State) {
    && (forall c :: c in s.cpus ==> FlagOk(s.cpus[c]))
    && (forall id :: id in s.saved ==> Settled(s.saved[id]))
  }

  /** An effect keeps the flag the pushes will give back, if it does not pop what was not pushed. */
  lemma EffectHome(cs: CpuState, e: Effect, f: Frame)
    requires CpuOk(cs) && Settled(cs.ctx) && !Panics(cs, e)
    requires e == Cli || e == Sti ==> cs.ctx.cliStack > 0
    ensures Home(DoThen(cs, e, f)) == Home(cs) && Settled(DoThen(cs, e, f).ctx)
    ensures DoThen(cs, e, f).ctx.below == cs.ctx.below
  {
    hide PcPushes, PcDisables, Stoppable, Releasing, Interruptible, FrameDisables;
  }

  lemma SpinUnderPush(cs: CpuState, c: Cpu, lock: Lock)
    requires CpuOk(cs) && cs.ctx.top.pc != Idle
    ensures var e := Access(cs.ctx.top.pc, c, lock).effect; e == Cli || e == Sti ==> cs.ctx.cliStack > 0
  {
    hide PcDisables, Stoppable, Releasing, FrameDisables;
  }

  lemma RunHome(cs: CpuState, c: Cpu, lock: Lock)
    requires CpuOk(cs) && FlagOk(cs) && cs.ctx.top.pc != Idle && Safe(cs.ctx.top.pc, c, lock)
    ensures Home(RunCpu(cs, c, lock)) == Home(cs) && FlagOk(RunCpu(cs, c, lock))
  {
    var f := cs.ctx.top;
    RunCpuOk(cs, c, lock);
    SpinUnderPush(cs, c, lock);
    EffectHome(cs, Access(f.pc, c, lock).effect, After(f, c, lock));
    assert Fits(f.pc, f.held, f.pushes, cs.ctx.below.None?) by { TopFits(cs); }
    AccessAccounts(f.pc, f.held, f.pushes, cs.ctx.below.None?, c, lock);
    hide CpuOk, Access, Panics, Settled, Home, Interruptible, Do, Safe;
  }

  lemma TopFits(cs: CpuState)
    requires CpuOk(cs)
    ensures Fits(cs.ctx.top.pc, cs.ctx.top.held, cs.ctx.top.pushes, cs.ctx.below.None?)
  {
  }

  lemma EnterHome(cs: CpuState, step: Step)
    requires CpuOk(cs) && FlagOk(cs) && Ready(cs, step) && Enters(step)
    ensures Home(Begin(cs, step)) == Home(cs) && FlagOk(Begin(cs, step))
  {
    OffUnderPush(cs);
    hide CpuOk, FramePushes, DoThen;
  }

  /** Outside of a spin interrupts are on only with no push outstanding. */
  lemma OffUnderPush(cs: CpuState)
    requires CpuOk(cs)
    ensures cs.interrupts ==>
              cs.ctx.below.None? && cs.ctx.cliStack == FramePushes(cs.ctx.top) == PcPushes(cs.ctx.top.pc)
    ensures cs.interrupts && cs.ctx.cliStack > 0 ==> Interruptible(cs.ctx.top.pc)
    ensures cs.ctx.below.Some? ==> cs.ctx.cliStack == FramePushes(cs.ctx.top) + FramePushes(cs.ctx.below.value)
    ensures cs.ctx.top.pc == Idle ==> FramePushes(cs.ctx.top) == cs.ctx.top.pushes
  {
    hide PcDisables, FrameDisables, Releasing;
  }

  lemma InterruptHome(cs: CpuState, step: Step)
    requires CpuOk(cs) && FlagOk(cs) && Ready(cs, step) && (step.Interrupt? || step.ReturnFromInterrupt?)
    ensures Home(Begin(cs, step)) == Home(cs) && FlagOk(Begin(cs, step))
  {
    OffUnderPush(cs);
    hide CpuOk, PcPushes, DoThen, Interruptible;
  }

  lemma CallHome(cs: CpuState, step: Step)
    requires CpuOk(cs) && FlagOk(cs) && Ready(cs, step)
    requires step.CallPush? || step.CallPop? || step.CallDisable? || step.CallEnable?
    ensures Home(Begin(cs, step)) == Home(cs) && FlagOk(Begin(cs, step))
  {
    EffectCpuOk(cs, step);
    assert !PopPanics(Push(cs)) && (step.CallPop? ==> !PopPanics(cs)) && (step.CallEnable? ==> cs.preemptDisabled > 0) by {
      IdlePops(cs);
    }
    match step
    case CallPush(_) => EffectHome(cs, PushInterrupts, cs.ctx.top.(pushes := cs.ctx.top.pushes + 1));
    case CallPop(_) => EffectHome(cs, PopInterrupts, cs.ctx.top.(pushes := cs.ctx.top.pushes - 1));
    case CallDisable(_) => EffectHome(cs, DisablePreemption, cs.ctx.top.(disables := cs.ctx.top.disables + 1));
    case CallEnable(_) => EffectHome(cs, EnablePreemption, cs.ctx.top.(disables := cs.ctx.top.disables - 1));
    hide CpuOk, Settled, Home, Do, PopPanics;
  }

  lemma IdlePops(cs: CpuState)
    requires CpuOk(cs) && cs.ctx.top.pc == Idle
    ensures !PopPanics(Push(cs)) && (cs.ctx.top.pushes > 0 ==> !PopPanics(cs))
    ensures cs.ctx.top.disables > 0 ==> cs.preemptDisabled > 0
  {
  }

  lemma BeginHome(cs: CpuState, step: Step)
    requires CpuOk(cs) && FlagOk(cs) && Ready(cs, step) && Begins(step)
    ensures Home(Begin(cs, step)) == Home(cs) && FlagOk(Begin(cs, step))
  {
    hide CpuOk, FlagOk, Begin, Ready, Home;
    if Enters(step) {
      EnterHome(cs, step);
    } else if step.Interrupt? || step.ReturnFromInterrupt? {
      InterruptHome(cs, step);
    } else {
      CallHome(cs, step);
    }
  }

  /** What a step keeps of the flags: those of every CPU, but for the CPU that switches. */
  ghost predicate KeepsHome(s: State, step: Step, s': State) {
    && FlagsOk(s')
    && (forall c :: c in s.cpus && !(step.Switch? && step.c == c) ==>
          c in s'.cpus && Home(s'.cpus[c]) == Home(s.cpus[c]))
  }

  lemma OneCpuHome(s: State, step: Step, s': State, c: Cpu)
    requires FlagsOk(s) && c in s.cpus && s'.cpus.Keys == s.cpus.Keys
    requires s'.cpus == s.cpus[c := s'.cpus[c]] && s'.saved == s.saved
    requires FlagOk(s'.cpus[c]) && Home(s'.cpus[c]) == Home(s.cpus[c])
    ensures KeepsHome(s, step, s')
  {
    hide FlagOk, Home, Settled;
  }

  lemma RunStepHome(s: State, c: Cpu)
    requires Inv(s) && FlagsOk(s) && Enabled(s, Run(c))
    ensures KeepsHome(s, Run(c), Apply(s, Run(c)))
  {
    hide CpuOk, LockOk, SavedOk, RunCpu, Home, Access, FlagOk, KeepsHome, Settled;
    var pc := s.cpus[c].ctx.top.pc;
    RunThisLock(s.cpus, c, pc, s.locks[pc.l]);
    hide Safe;
    RunHome(s.cpus[c], c, s.locks[pc.l]);
    OneCpuHome(s, Run(c), Apply(s, Run(c)), c);
  }

  lemma BeginStepHome(s: State, step: Step)
    requires Inv(s) && FlagsOk(s) && Enabled(s, step) && Begins(step)
    ensures KeepsHome(s, step, Apply(s, step))
  {
    hide CpuOk, LockOk, SavedOk, Begin, Home, FlagOk, KeepsHome, Settled;
    BeginHome(s.cpus[step.c], step);
    OneCpuHome(s, step, Apply(s, step), step.c);
  }

  lemma SwitchStepHome(s: State, c: Cpu, id: ContextId, into: ContextId)
    requires Inv(s) && FlagsOk(s) && Enabled(s, Switch(c, id, into))
    ensures KeepsHome(s, Switch(c, id, into), Apply(s, Switch(c, id, into)))
  {
    hide CpuOk, LockOk, SavedOk, Home;
    SavedIdle(s.saved[into]);
  }

  lemma StepHome(s: State, step: Step)
    requires Inv(s) && FlagsOk(s) && Enabled(s, step)
    ensures KeepsHome(s, step, Apply(s, step))
  {
    hide Inv, FlagsOk, Enabled, Apply, KeepsHome;
    match step
    case Run(c) => RunStepHome(s, c);
    case NewContext(id) => NewStepHome(s, id);
    case Switch(c, id, into) => SwitchStepHome(s, c, id, into);
    case _ => BeginStepHome(s, step);
  }

  lemma NewStepHome(s: State, id: ContextId)
    requires FlagsOk(s) && Enabled(s, NewContext(id))
    ensures KeepsHome(s, NewContext(id), Apply(s, NewContext(id)))
  {
    hide FlagOk, Home;
  }

  lemma SavedIdle(ctx: Context)
    requires SavedOk(ctx)
    ensures ctx.top.pc == Idle
  {
  }

  // Whole runs.

  lemma {:induction false} RunFlags(states: seq<State>, steps: seq<Step>, i: nat)
    requires IsRun(states, steps) && i < |states|
    ensures FlagsOk(states[i])
  {
    hide Inv, Enabled, Apply, FlagsOk;
    if i == 0 {
      InitialFlags(states[0]);
    } else {
      RunFlags(states, steps, i - 1);
      RunInv(states, steps, i - 1);
      StepHome(states[i - 1], steps[i - 1]);
    }
  }

  lemma InitialFlags(s: State)
    requires Initial(s)
    ensures FlagsOk(s)
  {
  }

  ghost predicate NoSwitch(steps: seq<Step>, j: nat, i: nat, c: Cpu) {
    forall k :: j <= k < i && k < |steps| ==> !(steps[k].Switch? && steps[k].c == c)
  }

  lemma {:induction false} HomeKept(states: seq<State>, steps: seq<Step>, j: nat, i: nat, c: Cpu)
    requires IsRun(states, steps) && j <= i < |states| && c in states[j].cpus && NoSwitch(steps, j, i, c)
    ensures c in states[i].cpus && Home(states[i].cpus[c]) == Home(states[j].cpus[c])
    decreases i
  {
    hide Inv, Enabled, Apply, FlagsOk, Home;
    if j < i {
      HomeKept(states, steps, j, i - 1, c);
      RunInv(states, steps, i - 1);
      RunFlags(states, steps, i - 1);
      StepHome(states[i - 1], steps[i - 1]);
    }
  }

  /** Whenever cli_stack is 0 outside of handlers, the interrupt flag is what it was at any other such
      moment with no switch of the CPU in between: every pop that undoes the last push gives back what
      the push found, whatever locks were taken and whatever interrupts came. */
  lemma InterruptsComeBack(states: seq<State>, steps: seq<Step>, j: nat, i: nat, c: Cpu)
    requires IsRun(states, steps) && j <= i < |states| && c in states[j].cpus && NoSwitch(steps, j, i, c)
    requires states[j].cpus[c].ctx.cliStack == 0 && states[j].cpus[c].ctx.below.None?
    ensures c in states[i].cpus
    ensures states[i].cpus[c].ctx.below.None? ==>
              states[j].cpus[c].interrupts == if states[i].cpus[c].ctx.cliStack == 0 then states[i].cpus[c].interrupts
                                              else states[i].cpus[c].ctx.intEnabled
    ensures states[i].cpus[c].ctx.below.Some? ==> states[j].cpus[c].interrupts
  {
    hide IsRun;
    HomeKept(states, steps, j, i, c);
  }

  /** A caller outside of handlers and with no explicit push, which is in no lock function, has the
      interrupt flag it had before, and so after every acquire and every release. */
  lemma CallsKeepInterrupts(states: seq<State>, steps: seq<Step>, j: nat, i: nat, c: Cpu)
    requires IsRun(states, steps) && j <= i < |states| && c in states[j].cpus && NoSwitch(steps, j, i, c)
    requires forall k | k == j || k == i ::
               c in states[k].cpus && states[k].cpus[c].ctx.below.None?
               && states[k].cpus[c].ctx.top.pc == Idle && states[k].cpus[c].ctx.top.pushes == 0
    ensures states[i].cpus[c].interrupts == states[j].cpus[c].interrupts
  {
    CountersExact(states, steps, j, c);
    CountersExact(states, steps, i, c);
    InterruptsComeBack(states, steps, j, i, c);
  }

  // Contexts off their CPU.

  ghost predicate Parked(steps: seq<Step>, j: nat, i: nat, id: ContextId) {
    forall k :: j < k < i && k < |steps| ==> !(steps[k].Switch? && steps[k].into == id)
  }

  lemma SavedStep(s: State, step: Step, id: ContextId)
    requires Enabled(s, step) && id in s.saved && !(step.Switch? && step.into == id)
    ensures id in Apply(s, step).saved && Apply(s, step).saved[id] == s.saved[id]
  {
  }

  lemma {:induction false} SavedKept(states: seq<State>, steps: seq<Step>, j: nat, i: nat, id: ContextId)
    requires IsRun(states, steps) && j < i < |states| && id in states[j + 1].saved && Parked(steps, j, i, id)
    ensures id in states[i].saved && states[i].saved[id] == states[j + 1].saved[id]
    decreases i
  {
    hide Enabled, Apply;
    if j + 1 < i {
      SavedKept(states, steps, j, i - 1, id);
      SavedStep(states[i - 1], steps[i - 1], id);
    }
  }

  /** A context comes back, on whatever CPU, with the locks, counters and handler it left with. Its
      interrupt flag is then the one int_enabled recorded: outside of handlers and pushes it is the one
      it left with if and only if int_enabled agreed with it at the switch. */
  lemma ContextComesBack(states: seq<State>, steps: seq<Step>, j: nat, i: nat, c: Cpu, d: Cpu, id: ContextId,
                         x: ContextId, y: ContextId)
    requires IsRun(states, steps) && j < i < |steps| && Parked(steps, j, i, id)
    requires steps[j] == Switch(c, id, x) && steps[i] == Switch(d, y, id)
    ensures c in states[j].cpus && d in states[i + 1].cpus
    ensures states[i + 1].cpus[d].ctx == states[j].cpus[c].ctx
    ensures states[i + 1].cpus[d].preemptDisabled == states[j].cpus[c].preemptDisabled
    ensures states[j].cpus[c].ctx.cliStack == 0 ==>
              (states[i + 1].cpus[d].interrupts == states[j].cpus[c].interrupts <==>
               states[j].cpus[c].ctx.intEnabled == states[j].cpus[c].interrupts)
  {
    StepOf(states, steps, j);
    StepOf(states, steps, i);
    SavedKept(states, steps, j, i, id);
    SwitchHoldsGlobalOnce(states, steps, j, c, id, x);
    SwitchHoldsGlobalOnce(states, steps, i, d, y, id);
  }

  /** A new context first runs with interrupts on, no push outstanding, and the global lock held once. */
  lemma ContextStarts(states: seq<State>, steps: seq<Step>, j: nat, i: nat, d: Cpu, id: ContextId, y: ContextId)
    requires IsRun(states, steps) && j < i < |steps| && Parked(steps, j, i, id)
    requires steps[j] == NewContext(id) && steps[i] == Switch(d, y, id)
    ensures d in states[i + 1].cpus
    ensures var cs := states[i + 1].cpus[d];
            cs.interrupts && cs.ctx.cliStack == 0 && cs.ctx.below.None? && Held(cs.ctx) == multiset{GLOBAL} && cs.preemptDisabled == 1
  {
    StepOf(states, steps, j);
    StepOf(states, steps, i);
    SavedKept(states, steps, j, i, id);
    SwitchHoldsGlobalOnce(states, steps, i, d, y, id);
  }
}
