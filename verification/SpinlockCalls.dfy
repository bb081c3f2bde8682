/** What a call of cpu_spinlock_acquire, cpu_spinlock_release and cpu_spinlock_held
    (kernel/arch/i386/cpu/spinlock.c) leaves its caller with, over every run of Spinlock, whatever
    interrupts come in between. */
module SpinlockCalls {
  import opened Base
  import opened Spinlock
  import opened SpinlockInterrupts

  datatype Call = Acquire(l: LockId) | Release(l: LockId) | Ask(l: LockId)

  function CallBy(step: Step, c: Cpu): Option<Call> {
    match step
    case CallAcquire(d, l) => if d == c then Some(Acquire(l)) else None
    case CallRelease(d, l) => if d == c then Some(Release(l)) else None
    case CallHeld(d, l) => if d == c then Some(Ask(l)) else None
    case _ => None
  }

  predicate At(call: Call, pc: Pc) {
    match call
    case Acquire(l) =>
      && (pc.AcqDisable? || pc.AcqPush? || pc.AcqRead? || pc.AcqReadCpu? || pc.AcqNest? || pc.AcqSpin? || pc.AcqMissed?
          || pc.AcqNum? || pc.AcqCpu? || pc.AcqPop?)
      && pc.l == l
    case Release(l) => (Releasing(pc) || pc.RelClear? || pc.RelOpen? || pc.RelPop? || pc.RelEnable?) && pc.l == l
    case Ask(l) => (pc.HeldRead? || pc.HeldReadCpu?) && pc.l == l
  }

  /** The frame of the code that made the call, a handler or the code a handler may have stopped since. */
  function Caller(cs: CpuState, inHandler: bool): Frame {
    if !inHandler && cs.ctx.below.Some? then cs.ctx.below.value else cs.ctx.top
  }

  /** What the caller holds while it is in the call, having held `held` before. */
  function HeldIn(call: Call, pc: Pc, held: multiset<LockId>): multiset<LockId> {
    if call.Release? && !Releasing(pc) then held - multiset{call.l} else held
  }

  function HeldAfter(call: Call, held: multiset<LockId>): multiset<LockId> {
    match call
    case Acquire(l) => held + multiset{l}
    case Release(l) => held - multiset{l}
    case Ask(_) => held
  }

  /** The caller is in the call it made from `f`, or has come out of it. */
  ghost predicate Within(call: Call, f: Frame, f': Frame) {
    && f'.disables == f.disables && f'.pushes == f.pushes
    && if f'.pc == Idle then f'.held == HeldAfter(call, f.held)
       else At(call, f'.pc) && f'.held == HeldIn(call, f'.pc, f.held)
  }

  lemma AccessWithin(call: Call, f: Frame, f': Frame, f'': Frame, c: Cpu, lock: Lock)
    requires Within(call, f, f') && f'.pc != Idle && Safe(f'.pc, c, lock)
    requires f'' == After(f', c, lock).(pushed := f''.pushed)
    ensures Within(call, f, f'')
  {
    AccessAt(call, f'.pc, c, lock);
    hide Access, At, Releasing;
  }

  /** The next point of the call, and the points where the caller gets the lock or loses it. */
  lemma AccessAt(call: Call, pc: Pc, c: Cpu, lock: Lock)
    requires At(call, pc) && Safe(pc, c, lock)
    ensures var next := Access(pc, c, lock).next;
            && (next == Idle || At(call, next))
            && (next == Idle && call.Acquire? <==> pc.AcqPop?)
            && (pc.AcqPop? || pc.RelDec? ==> pc.l == call.l)
            && (pc.RelDec? ==> call.Release? && Releasing(pc) && !Releasing(next))
            && (call.Release? && !pc.RelDec? ==>
                  (Releasing(pc) <==> Releasing(next)) && (Releasing(pc) ==> next != Idle))
  {
    match call
    case Acquire(l) =>
    case Release(l) =>
    case Ask(l) =>
  }

  lemma BeginWithin(cs: CpuState, step: Step, c: Cpu, call: Call, inHandler: bool)
    requires CallBy(step, c) == Some(call) && inHandler == cs.ctx.below.Some? && cs.ctx.top.pc == Idle
    ensures Within(call, Caller(cs, inHandler), Caller(Begin(cs, step), inHandler))
    ensures Begin(cs, step).ctx.below == cs.ctx.below && Caller(Begin(cs, step), inHandler).pc != Idle
  {
  }

  /** A handler on top leaves the caller alone; an interrupt puts it below, and the return puts it back. */
  lemma BeginCaller(cs: CpuState, step: Step, inHandler: bool)
    requires CpuOk(cs) && Ready(cs, step) && Begins(step) && Caller(cs, inHandler).pc != Idle
    requires inHandler ==> cs.ctx.below.Some?
    ensures Caller(Begin(cs, step), inHandler) == Caller(cs, inHandler)
    ensures inHandler ==> Begin(cs, step).ctx.below.Some?
  {
    hide ContextOk, FrameDisables;
  }

  /** The caller stays as it is, or makes the next access of its call. */
  ghost predicate Accesses(f: Frame, f': Frame, c: Cpu, locks: map<LockId, Lock>) {
    || f' == f
    || (f.pc != Panic && f.pc != Idle && f.pc.l in locks && Safe(f.pc, c, locks[f.pc.l])
        && f' == After(f, c, locks[f.pc.l]).(pushed := f'.pushed))
  }

  lemma RunCaller(cs: CpuState, c: Cpu, locks: map<LockId, Lock>, inHandler: bool)
    requires CpuOk(cs) && cs.ctx.top.pc != Idle && cs.ctx.top.pc != Panic && cs.ctx.top.pc.l in locks
    requires Safe(cs.ctx.top.pc, c, locks[cs.ctx.top.pc.l]) && (inHandler ==> cs.ctx.below.Some?)
    ensures var cs' := RunCpu(cs, c, locks[cs.ctx.top.pc.l]);
            Accesses(Caller(cs, inHandler), Caller(cs', inHandler), c, locks) && (inHandler ==> cs'.ctx.below.Some?)
  {
    hide CpuOk, Access, After, Do, Panics, Safe;
    var lock := locks[cs.ctx.top.pc.l];
    RunCpuOk(cs, c, lock);
    DoKeepsBelow(cs, Access(cs.ctx.top.pc, c, lock).effect);
  }

  lemma StepCaller(s: State, step: Step, c: Cpu, inHandler: bool)
    requires Inv(s) && Enabled(s, step) && c in s.cpus && !(step.Switch? && step.c == c)
    requires Caller(s.cpus[c], inHandler).pc != Idle && (inHandler ==> s.cpus[c].ctx.below.Some?)
    ensures c in Apply(s, step).cpus && (inHandler ==> Apply(s, step).cpus[c].ctx.below.Some?)
    ensures Accesses(Caller(s.cpus[c], inHandler), Caller(Apply(s, step).cpus[c], inHandler), c, s.locks)
  {
    hide CpuOk, LockOk, SavedOk, Begin, RunCpu, Access, Caller, After, Safe;
    match step
    case Run(d) =>
      if d == c {
        var pc := s.cpus[c].ctx.top.pc;
        RunThisLock(s.cpus, c, pc, s.locks[pc.l]);
        hide Accesses;
        RunCaller(s.cpus[c], c, s.locks, inHandler);
      }
    case NewContext(_) =>
    case Switch(_, _, _) =>
    case _ =>
      if step.c == c {
        BeginCaller(s.cpus[c], step, inHandler);
      }
  }

  lemma AccessesWithin(call: Call, f: Frame, f': Frame, f'': Frame, c: Cpu, locks: map<LockId, Lock>)
    requires Within(call, f, f') && f'.pc != Idle && Accesses(f', f'', c, locks)
    ensures Within(call, f, f'')
  {
    hide Within, After, Safe;
    if f'' != f' {
      AccessWithin(call, f, f', f'', c, locks[f'.pc.l]);
    }
  }

  /** The code that called at step `j` has not come out of the call, nor its CPU switched, up to state `i`. */
  ghost predicate Calling(states: seq<State>, steps: seq<Step>, j: nat, i: nat, c: Cpu, inHandler: bool, call: Call) {
    && j < i < |states| && i <= |steps| && CallBy(steps[j], c) == Some(call) && NoSwitch(steps, j, i, c)
    && c in states[j].cpus && inHandler == states[j].cpus[c].ctx.below.Some?
    && forall k :: j < k < i ==> c in states[k].cpus && Caller(states[k].cpus[c], inHandler).pc != Idle
  }

  /** When a call comes out, cpu_spinlock_acquire has left its caller with the lock once more,
      cpu_spinlock_release with the lock once less, and cpu_spinlock_held with what it had; its outstanding
      preempt_disable and push_no_interrupts calls are what they were. */
  lemma {:induction false} CallReturns(states: seq<State>, steps: seq<Step>, j: nat, i: nat, c: Cpu, inHandler: bool,
                                       call: Call)
    requires IsRun(states, steps) && Calling(states, steps, j, i, c, inHandler, call)
    ensures c in states[i].cpus
    ensures Within(call, Caller(states[j].cpus[c], inHandler), Caller(states[i].cpus[c], inHandler))
    ensures inHandler ==> states[i].cpus[c].ctx.below.Some?
    decreases i
  {
    hide Inv, Enabled, Apply, Within, CallBy, Accesses, Caller;
    StepOf(states, steps, i - 1);
    if i == j + 1 {
      CallStep(states[j], steps[j], c, call);
    } else {
      CallReturns(states, steps, j, i - 1, c, inHandler, call);
      RunInv(states, steps, i - 1);
      StepCaller(states[i - 1], steps[i - 1], c, inHandler);
      AccessesWithin(call, Caller(states[j].cpus[c], inHandler), Caller(states[i - 1].cpus[c], inHandler),
                     Caller(states[i].cpus[c], inHandler), c, states[i - 1].locks);
    }
  }

  lemma CallStep(s: State, step: Step, c: Cpu, call: Call)
    requires Enabled(s, step) && CallBy(step, c) == Some(call) && c in s.cpus
    ensures c in Apply(s, step).cpus
    ensures var cs' := Apply(s, step).cpus[c];
            var inHandler := s.cpus[c].ctx.below.Some?;
            && Within(call, Caller(s.cpus[c], inHandler), Caller(cs', inHandler))
            && (inHandler ==> cs'.ctx.below.Some?)
  {
    hide Within, Begin;
    BeginWithin(s.cpus[c], step, c, call, s.cpus[c].ctx.below.Some?);
  }

  // Spinning as the caller was.

  /** An acquire remembers whether it was called with interrupts on, as long as it may have to spin. */
  predicate SpinsAs(pc: Pc, interrupts: bool) {
    && (pc.AcqDisable? || pc.AcqPush? || pc.AcqRead? || pc.AcqReadCpu? || pc.AcqSpin? ==>
          pc.interruptible == interrupts)
    && (pc.AcqMissed? ==> interrupts)
  }

  lemma AccessSpins(pc: Pc, c: Cpu, lock: Lock, interrupts: bool)
    requires SpinsAs(pc, interrupts)
    ensures SpinsAs(Access(pc, c, lock).next, interrupts)
  {
  }

  lemma AccessesSpins(f: Frame, f': Frame, c: Cpu, locks: map<LockId, Lock>, interrupts: bool)
    requires SpinsAs(f.pc, interrupts) && Accesses(f, f', c, locks)
    ensures SpinsAs(f'.pc, interrupts)
  {
    hide SpinsAs, Access, Safe;
    if f' != f {
      AccessSpins(f.pc, c, locks[f.pc.l], interrupts);
    }
  }

  lemma {:induction false} AcquireSpins(states: seq<State>, steps: seq<Step>, j: nat, i: nat, c: Cpu, inHandler: bool,
                                        l: LockId)
    requires IsRun(states, steps) && Calling(states, steps, j, i, c, inHandler, Acquire(l))
    ensures c in states[i].cpus && SpinsAs(Caller(states[i].cpus[c], inHandler).pc, states[j].cpus[c].interrupts)
    decreases i
  {
    hide Inv, Enabled, Apply, SpinsAs, CallBy, Accesses, Caller, Within;
    StepOf(states, steps, i - 1);
    if i == j + 1 {
      AcquireStep(states[j], steps[j], c, l);
    } else {
      AcquireSpins(states, steps, j, i - 1, c, inHandler, l);
      CallReturns(states, steps, j, i - 1, c, inHandler, Acquire(l));
      RunInv(states, steps, i - 1);
      StepCaller(states[i - 1], steps[i - 1], c, inHandler);
      AccessesSpins(Caller(states[i - 1].cpus[c], inHandler), Caller(states[i].cpus[c], inHandler), c,
                    states[i - 1].locks, states[j].cpus[c].interrupts);
    }
  }

  lemma AcquireStep(s: State, step: Step, c: Cpu, l: LockId)
    requires Enabled(s, step) && CallBy(step, c) == Some(Acquire(l)) && c in s.cpus
    ensures c in Apply(s, step).cpus
    ensures SpinsAs(Caller(Apply(s, step).cpus[c], s.cpus[c].ctx.below.Some?).pc, s.cpus[c].interrupts)
  {
  }

  /** An acquire that finds the lock taken turns interrupts on before it tries again, if and only if it was
      called with interrupts on: the access that misses is followed by the one that opens them, or by the
      next try. */
  lemma SpinsInterruptibly(states: seq<State>, steps: seq<Step>, j: nat, i: nat, c: Cpu, l: LockId)
    requires IsRun(states, steps) && Calling(states, steps, j, i, c, false, Acquire(l))
    requires i < |steps| && steps[i] == Run(c)
    requires c in states[i].cpus && states[i].cpus[c].ctx.below.None?
    ensures c in states[i + 1].cpus
    ensures states[i].cpus[c].ctx.top.pc.AcqSpin? && l in states[i].locks && states[i].locks[l].locked ==>
              (states[i + 1].cpus[c].ctx.top.pc == AcqMissed(l) <==> states[j].cpus[c].interrupts)
              && !states[i + 1].cpus[c].ctx.top.pc.AcqNum?
    ensures states[i].cpus[c].ctx.top.pc.AcqMissed? ==> states[j].cpus[c].interrupts && states[i + 1].cpus[c].interrupts
  {
    AcquireSpins(states, steps, j, i, c, false, l);
    CallReturns(states, steps, j, i, c, false, Acquire(l));
    StepOf(states, steps, i);
    hide IsRun;
  }

  predicate Counts(step: Step) {
    step.CallPush? || step.CallPop? || step.CallDisable? || step.CallEnable?
  }

  /** push_no_interrupts and pop_no_interrupts count, and between them interrupts are off; preempt_disable
      and preempt_enable count. */
  predicate CountsRight(step: Step, cs: CpuState, cs': CpuState) {
    && cs'.ctx.cliStack - cs.ctx.cliStack == (if step.CallPush? then 1 else if step.CallPop? then -1 else 0)
    && cs'.preemptDisabled - cs.preemptDisabled == (if step.CallDisable? then 1 else if step.CallEnable? then -1 else 0)
    && (cs'.ctx.cliStack > 0 ==> !cs'.interrupts)
  }

  lemma CountersMove(states: seq<State>, steps: seq<Step>, i: nat)
    requires IsRun(states, steps) && i < |steps| && Counts(steps[i])
    ensures var c := steps[i].c;
            c in states[i].cpus && c in states[i + 1].cpus && CountsRight(steps[i], states[i].cpus[c], states[i + 1].cpus[c])
  {
    hide Inv, Enabled, Apply, CountsRight;
    StepOf(states, steps, i);
    RunInv(states, steps, i);
    CountStep(states[i], steps[i]);
  }

  lemma CountStep(s: State, step: Step)
    requires Inv(s) && Enabled(s, step) && Counts(step)
    ensures step.c in s.cpus && step.c in Apply(s, step).cpus
    ensures CountsRight(step, s.cpus[step.c], Apply(s, step).cpus[step.c])
  {
    hide CpuOk, LockOk, SavedOk, Begin, CountsRight;
    EffectMoves(s.cpus[step.c], step);
  }

  lemma EffectMoves(cs: CpuState, step: Step)
    requires CpuOk(cs) && Ready(cs, step) && Counts(step)
    ensures CountsRight(step, cs, Begin(cs, step))
  {
    IdlePops(cs);
    IdleCounted(cs);
    hide CpuOk;
  }

  lemma IdleCounted(cs: CpuState)
    requires CpuOk(cs) && cs.ctx.top.pc == Idle
    ensures cs.ctx.cliStack >= 0 && (cs.ctx.cliStack > 0 ==> !cs.interrupts)
  {
  }
}
