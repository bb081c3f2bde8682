/** What each call of kernel/arch/i386/scheduler.c does for its caller, over every run: the thread from
    the step that makes the call to the pass that runs it again, the exit status from proc_exit to
    proc_wait, and the order of the run queue. */
module SchedulerCalls {
  import opened Base
  import opened SchedulerSpec
  import opened SchedulerProofs
  import opened SchedulerRuns

  lemma StepOf(states: seq<State>, steps: seq<Step>, i: nat)
    requires IsRun(states, steps) && i < |steps|
    ensures Inv(states[i]) && Closed(states[i]) && Enabled(states[i], steps[i])
    ensures |states| == |steps| + 1 && states[i + 1] == Apply(states[i], steps[i])
  {
    RunInv(states, steps, i);
    assert Next(states[i], steps[i], states[i + 1]);
    hide Inv, Closed, Apply, Enabled;
  }

  // Exit statuses.

  /** The step is proc_exit by a thread of process `p`. */
  predicate ExitsProcess(s: State, step: Step, p: Pid) {
    && step.ProcExit? && step.c in s.current && s.current[step.c] in s.threads
    && s.threads[s.current[step.c]].proc == p
  }

  lemma DestroyStatus(s: State, t: Tid, p: Pid)
    requires t in s.threads && s.threads[t].proc in s.procs && p in s.procs
    ensures p in DestroyThread(s, t).procs && DestroyThread(s, t).procs[p].exitStatus == s.procs[p].exitStatus
    ensures DestroyThread(s, t).procs.Keys == s.procs.Keys
  {
  }

  lemma PassStatus(s: State, c: Cpu, now: nat, p: Pid)
    requires Inv(s) && Closed(s) && p in s.procs
    ensures p in Pass(s, c, now).procs && Pass(s, c, now).procs[p].exitStatus == s.procs[p].exitStatus
    ensures Pass(s, c, now).procs.Keys == s.procs.Keys
  {
    hide Inv, DestroyThread;
    if s.queue != [] && s.threads[s.queue[0]].state == Exited {
      DestroyStatus(s.(queue := s.queue[1..]), s.queue[0], p);
    }
  }

  lemma StepStatus(s: State, step: Step, p: Pid)
    requires Inv(s) && Closed(s) && Enabled(s, step) && p != PID_KERNEL
    ensures p in s.procs ==>
              && p in Apply(s, step).procs
              && Apply(s, step).procs[p].exitStatus ==
                 if ExitsProcess(s, step, p) then step.status else s.procs[p].exitStatus
    ensures p !in s.procs ==>
              && !ExitsProcess(s, step, p)
              && (p in Apply(s, step).procs ==> Apply(s, step).procs[p].exitStatus == -ENOSTATUS)
  {
    hide Inv, Pass, FindDefunctChild, FindBlocked;
    if step.SchedulerPass? {
      PassStatus(s, step.c, step.now, PID_KERNEL);
      if p in s.procs {
        PassStatus(s, step.c, step.now, p);
      }
    }
  }

  /** What proc_exit was last given by a thread of `p` before state `n`, -ENOSTATUS if it was not called. */
  ghost function LastStatus(states: seq<State>, steps: seq<Step>, n: nat, p: Pid): int
    requires n < |states| == |steps| + 1
  {
    if n == 0 then -ENOSTATUS
    else if ExitsProcess(states[n - 1], steps[n - 1], p) then steps[n - 1].status
    else LastStatus(states, steps, n - 1, p)
  }

  lemma {:induction false} StatusIsLast(states: seq<State>, steps: seq<Step>, n: nat, p: Pid)
    requires IsRun(states, steps) && n < |states| && p != PID_KERNEL
    ensures if p in states[n].procs then states[n].procs[p].exitStatus == LastStatus(states, steps, n, p)
            else LastStatus(states, steps, n, p) == -ENOSTATUS
  {
    hide Inv, Closed, Apply, Enabled, ExitsProcess;
    if n > 0 {
      StatusIsLast(states, steps, n - 1, p);
      StepOf(states, steps, n - 1);
      StepStatus(states[n - 1], steps[n - 1], p);
    }
  }

  lemma {:induction false} LastStatusIs(states: seq<State>, steps: seq<Step>, n: nat, p: Pid, j: nat)
    requires j <= n < |states| == |steps| + 1
    requires forall m :: j <= m < n ==> !ExitsProcess(states[m], steps[m], p)
    ensures LastStatus(states, steps, n, p) == LastStatus(states, steps, j, p)
    decreases n
  {
    hide ExitsProcess;
    if j < n {
      LastStatusIs(states, steps, n - 1, p, j);
    }
  }

  /** Step `j` is the last proc_exit of process `p` before state `i`. */
  ghost predicate LastExit(states: seq<State>, steps: seq<Step>, j: nat, i: nat, p: Pid)
    requires i < |states| == |steps| + 1
  {
    && j < i && ExitsProcess(states[j], steps[j], p)
    && forall m :: j < m < i ==> !ExitsProcess(states[m], steps[m], p)
  }

  ghost predicate NeverExits(states: seq<State>, steps: seq<Step>, i: nat, p: Pid)
    requires i < |states| == |steps| + 1
  {
    forall m :: 0 <= m < i ==> !ExitsProcess(states[m], steps[m], p)
  }

  /** What proc_wait returns is what the child's threads told proc_exit: the status of the last such call,
      or -ENOSTATUS if they all went by thread_exit. */
  lemma WaitReturnsExitStatus(states: seq<State>, steps: seq<Step>, i: nat, k: nat)
    requires IsRun(states, steps) && i < |states| && k < |states[i].returned|
    ensures var r := states[i].returned[k];
            && (forall j: nat :: LastExit(states, steps, j, i, r.pid) ==>
                  steps[j].ProcExit? && r.status == steps[j].status)
            && (NeverExits(states, steps, i, r.pid) ==> r.status == -ENOSTATUS)
  {
    var r := states[i].returned[k];
    WaitReturnsCollectedChild(states, steps, i, k);
    StatusIsLast(states, steps, i, r.pid);
    assert r.status == LastStatus(states, steps, i, r.pid);
    hide IsRun;
    forall j: nat | LastExit(states, steps, j, i, r.pid) ensures steps[j].ProcExit? && r.status == steps[j].status {
      LastStatusIs(states, steps, i, r.pid, j + 1);
    }
    if NeverExits(states, steps, i, r.pid) {
      LastStatusIs(states, steps, i, r.pid, 0);
    }
  }

  /** A process is the child of the parent it was scheduled with, the kernel if none was given. */
  lemma {:induction false} ParentIsGiven(states: seq<State>, steps: seq<Step>, j: nat, i: nat, parent: Option<Pid>,
                                         pid: Pid, t: Tid)
    requires IsRun(states, steps) && j < i < |states| && steps[j] == ScheduleProc(parent, pid, t)
    ensures pid in states[i].procs
    ensures states[i].procs[pid].parent == if parent.Some? then parent.value else PID_KERNEL
    decreases i
  {
    hide Inv, Closed;
    if i == j + 1 {
      StepOf(states, steps, j);
    } else {
      ParentIsGiven(states, steps, j, i - 1, parent, pid, t);
      StepStable(states, steps, i - 1);
    }
  }

  /** A new thread belongs to the process it was scheduled for, and starts READY behind all others. */
  lemma NewThread(s: State, step: Step)
    requires Closed(s) && Enabled(s, step) && (step.ScheduleProc? || step.ScheduleKernelThread?)
    ensures var s', t := Apply(s, step), step.t;
            var p := if step.ScheduleProc? then step.pid else PID_KERNEL;
            && t in s'.threads && s'.threads[t].proc == p
            && s'.threads[t].state == Ready && s'.threads[t].resume == Plain
            && s'.queue == s.queue + [t] && p in s'.procs && t in s'.procs[p].threads
            && (step.ScheduleProc? ==> s'.processes == [p] + s.processes && s'.procs[p].threads == [t])
  {
  }

  // A thread off its CPU.

  /** The step is a call by thread `t`. */
  predicate CallBy(s: State, step: Step, t: Tid) {
    match step
    case ThreadYield(c) => c in s.current && s.current[c] == t
    case ThreadExit(c) => c in s.current && s.current[c] == t
    case ThreadSleep(c, _, _) => c in s.current && s.current[c] == t
    case CondWait(c, _) => c in s.current && s.current[c] == t
    case ProcExit(c, _) => c in s.current && s.current[c] == t
    case ProcWait(c) => c in s.current && s.current[c] == t
    case _ => false
  }

  /** Since its call at step `j` the thread has neither been freed nor run, up to state `i`. */
  ghost predicate Off(states: seq<State>, t: Tid, j: nat, i: nat) {
    j < i < |states| && forall m :: j < m <= i ==> t in states[m].threads && !IsCurrent(states[m].current, t)
  }

  /** `p` is a child of `parent` and is collected by the step. */
  predicate CollectedAt(s: State, s': State, parent: Pid, p: Pid) {
    && p in s.procs && s.procs[p].parent == parent && s.procs[p].state != Truncate
    && p in s'.procs && s'.procs[p].state == Truncate
  }

  /** What a step may do to a thread that is off its CPU before and after: nothing, or make it READY, for a
      notify of its condition or for a child that is collected. */
  ghost predicate OffMove(s: State, step: Step, s': State, th: Thread, th': Thread) {
    || th' == th
    || (step.Notify? && th.state == Blocked && th.cond == Some(step.cond) && th' == th.(state := Ready))
    || (step.SchedulerPass? && th.state == Waiting
        && CollectedAt(s, s', th.proc, th'.collectedPid)
        && th' == th.(state := Ready, collectedPid := th'.collectedPid, collectedStatus := s.procs[th'.collectedPid].exitStatus))
  }

  lemma DestroyMove(s: State, u: Tid, t: Tid)
    requires u in s.threads && s.threads[u].proc in s.procs && s.procs[s.threads[u].proc].state != Truncate
    requires t in s.threads && t != u
    requires forall p, x :: p in s.procs && x in s.procs[p].threads && x in s.threads ==> s.threads[x].proc == p
    ensures var s', th := DestroyThread(s, u), s.threads[t];
            && t in s'.threads && s'.current == s.current
            && (s'.threads[t] == th
                || (th.state == Waiting && CollectedAt(s, s', th.proc, s'.threads[t].collectedPid)
                    && s'.threads[t] == th.(state := Ready, collectedPid := s'.threads[t].collectedPid,
                                            collectedStatus := s.procs[s'.threads[t].collectedPid].exitStatus)))
  {
    var p := s.threads[u].proc;
    var rest := Without(s.procs[p].threads, u);
    var s1 := s.(procs := s.procs[p := s.procs[p].(threads := rest)], threads := s.threads - {u});
    var parent := s.procs[p].parent;
    if rest == [] && parent != PID_KERNEL && parent in s1.procs {
      var ws := Waiters(s1.threads, s1.procs[parent].threads);
      assert forall x :: x in s1.procs[parent].threads ==> x in s.procs[parent].threads;
      hide Waiters, Without;
    }
  }

  lemma ListedProcs(s: State)
    requires Inv(s)
    ensures forall p, x :: p in s.procs && x in s.procs[p].threads && x in s.threads ==> s.threads[x].proc == p
  {
    hide Placed, Families, Loops, Waits;
    forall p, x | p in s.procs && x in s.procs[p].threads && x in s.threads ensures s.threads[x].proc == p {
      assert ProcListed(s.threads, s.procs[p].threads, p);
    }
  }

  lemma PassMove(s: State, c: Cpu, now: nat, t: Tid)
    requires Inv(s) && Closed(s) && c in s.loops && c !in s.current && t in s.threads
    ensures var s' := Pass(s, c, now);
            t in s'.threads && !IsCurrent(s'.current, t) ==>
              OffMove(s, SchedulerPass(c, now), s', s.threads[t], s'.threads[t])
  {
    hide Inv, DestroyThread, IsCurrent;
    if s.queue != [] && t != s.queue[0] && s.threads[s.queue[0]].state == Exited {
      var u := s.queue[0];
      ListedProcs(s);
      ListedThread(s, u);
      KeptProcess(s, s.threads[u].proc);
      DestroyMove(s.(queue := s.queue[1..]), u, t);
    } else if s.queue != [] && t == s.queue[0] {
      PassHead(s, c, now);
    }
  }

  /** A pass frees an EXITED thread at the head of the queue, runs a READY one, and one that has slept
      long enough, and puts one that has not at the tail. */
  lemma PassHead(s: State, c: Cpu, now: nat)
    requires Closed(s) && c !in s.current && s.queue != []
    ensures var s', t := Pass(s, c, now), s.queue[0];
            var th := s.threads[t];
            && (th.state == Exited ==> t !in s'.threads && s'.current == s.current)
            && (th.state == Ready || (th.state == Sleeping && th.sleepUntil < now) ==>
                  && s'.current == s.current[c := t] && IsCurrent(s'.current, t) && s'.queue == s.queue[1..]
                  && t in s'.threads && s'.threads[t].state == Running)
            && (th.state == Sleeping && th.sleepUntil >= now ==>
                  s' == s.(queue := s.queue[1..] + [t]))
  {
    var s', t := Pass(s, c, now), s.queue[0];
    if s.threads[t].state == Exited {
      DestroyFrees(s.(queue := s.queue[1..]), t);
    } else if c in s'.current {
      assert s'.current[c] == t;
    }
  }

  lemma DestroyFrees(s: State, t: Tid)
    requires t in s.threads && s.threads[t].proc in s.procs
    ensures t !in DestroyThread(s, t).threads && DestroyThread(s, t).current == s.current
  {
  }

  lemma StepMove(s: State, step: Step, t: Tid)
    requires Inv(s) && Closed(s) && Enabled(s, step) && t in s.threads && !IsCurrent(s.current, t)
    ensures var s' := Apply(s, step);
            t in s'.threads && !IsCurrent(s'.current, t) ==> OffMove(s, step, s', s.threads[t], s'.threads[t])
  {
    hide Inv, Pass, OffMove, NotifyOne, WaitForChild, IsCurrent, ExitProcess, Reschedule, InsertThread;
    match step
    case SchedulerPass(c, now) => PassMove(s, c, now, t);
    case Notify(cond) => NotifyMove(s, cond, t);
    case ProcWait(c) =>
      OtherCurrent(s, c, t);
      WaitOthers(s, c, t);
    case EnterScheduler(_, _) => InsertMove(s, step, t);
    case ScheduleProc(_, _, _) => InsertMove(s, step, t);
    case ScheduleKernelThread(_) => InsertMove(s, step, t);
    case _ =>
      OtherCurrent(s, step.c, t);
      LeaveMove(s, step, t);
  }

  lemma InsertMove(s: State, step: Step, t: Tid)
    requires Closed(s) && Enabled(s, step) && t in s.threads
    requires step.EnterScheduler? || step.ScheduleProc? || step.ScheduleKernelThread?
    ensures var s' := Apply(s, step); t in s'.threads && OffMove(s, step, s', s.threads[t], s'.threads[t])
  {
  }

  lemma LeaveMove(s: State, step: Step, t: Tid)
    requires Closed(s) && Enabled(s, step) && t in s.threads
    requires step.ThreadYield? || step.ThreadExit? || step.ThreadSleep? || step.CondWait? || step.ProcExit?
    requires s.current[step.c] != t
    ensures var s' := Apply(s, step); t in s'.threads && OffMove(s, step, s', s.threads[t], s'.threads[t])
  {
  }

  lemma NotifyMove(s: State, cond: Cond, t: Tid)
    requires Inv(s) && t in s.threads
    ensures var s' := NotifyOne(s, cond); t in s'.threads && OffMove(s, Notify(cond), s', s.threads[t], s'.threads[t])
  {
    hide Inv, FindBlocked;
    NotifyFound(s, cond);
  }

  lemma NotifyFound(s: State, cond: Cond)
    requires Inv(s)
    ensures FindBlocked(s, s.processes, cond).Some? ==>
              var t := FindBlocked(s, s.processes, cond).value;
              t in s.threads && s.threads[t].cond == Some(cond) && s.threads[t].state == Blocked
  {
    hide Placed, Families, Loops, Waits, Listed, FindBlocked;
    FindBlockedFinds(s, s.processes, cond);
  }

  lemma OtherCurrent(s: State, c: Cpu, t: Tid)
    requires c in s.current && !IsCurrent(s.current, t)
    ensures s.current[c] != t
  {
  }

  lemma WaitOthers(s: State, c: Cpu, t: Tid)
    requires c in s.current && s.current[c] in s.threads && t in s.threads && t != s.current[c]
    ensures t in WaitForChild(s, c).threads && WaitForChild(s, c).threads[t] == s.threads[t]
    ensures OffMove(s, ProcWait(c), WaitForChild(s, c), s.threads[t], WaitForChild(s, c).threads[t])
  {
    hide FindDefunctChild;
  }

  /** When a thread comes back: only a pass that finds it at the head of the queue runs a thread. */
  lemma StepRuns(s: State, step: Step, t: Tid)
    requires Inv(s) && Closed(s) && Enabled(s, step) && t in s.threads && !IsCurrent(s.current, t)
    requires IsCurrent(Apply(s, step).current, t)
    ensures step.SchedulerPass? && s.queue != [] && s.queue[0] == t
    ensures s.threads[t].state == Ready || (s.threads[t].state == Sleeping && s.threads[t].sleepUntil < step.now)
  {
    hide Inv, FindDefunctChild, FindBlocked, DestroyThread;
    var s' := Apply(s, step);
    var d :| d in s'.current && s'.current[d] == t;
    assert !(d in s.current && s.current[d] == t);
    if step.SchedulerPass? && s.queue != [] && s.threads[s.queue[0]].state == Exited {
      DestroyFrees(s.(queue := s.queue[1..]), s.queue[0]);
    }
  }

  // What each call promises.

  /** The step is a notify of the condition, and wakes `t`. */
  predicate NotifiedAt(s: State, step: Step, s': State, cond: Cond, t: Tid) {
    && step == Notify(cond) && t in s.threads && s.threads[t].state == Blocked
    && t in s'.threads && s'.threads[t].state == Ready
  }

  ghost predicate NotifiedSince(states: seq<State>, steps: seq<Step>, j: nat, i: nat, cond: Cond, t: Tid) {
    exists m: nat ::
      j < m < i && m < |steps| && m + 1 < |states| && NotifiedAt(states[m], steps[m], states[m + 1], cond, t)
  }

  /** Some pass since step `j` collected the process `p`, a child of `parent`. */
  ghost predicate CollectedSince(states: seq<State>, j: nat, i: nat, parent: Pid, p: Pid) {
    exists m: nat :: j < m < i && m + 1 < |states| && CollectedAt(states[m], states[m + 1], parent, p)
  }

  /** A thread that has not run since it made the call, `woken` for whether its condition has been notified
      or a child collected since. */
  predicate Promised(call: Step, th: Thread, woken: bool) {
    match call
    case ThreadExit(_) => th.state == Exited
    case ProcExit(_, _) => th.state == Exited
    case ThreadYield(_) => th.state == Ready && th.resume == Plain
    case ThreadSleep(_, milliseconds, now) =>
      && th.state == Sleeping && th.resume == Plain
      && th.sleepUntil == now + milliseconds * TICKS_PER_MILLISECOND % WORDS
    case CondWait(_, cond) =>
      th.resume == FromCondWait && th.cond == Some(cond) && (th.state == Blocked || (th.state == Ready && woken))
    case ProcWait(_) => th.resume == FromProcWait && (th.state == Waiting || (th.state == Ready && woken))
    case _ => false
  }

  lemma CallLeaves(s: State, step: Step, t: Tid)
    requires Inv(s) && Closed(s) && Enabled(s, step) && CallBy(s, step, t)
    requires t in Apply(s, step).threads && !IsCurrent(Apply(s, step).current, t)
    ensures t in s.threads && Apply(s, step).threads[t].proc == s.threads[t].proc
    ensures Promised(step, Apply(s, step).threads[t], false)
  {
    hide Inv, WaitForChild, FindDefunctChild, Closed, IsCurrent, Enabled, Promised;
    CurrentPlain(s, step.c);
    if step.ProcWait? {
      WaitLeaves(s, step.c);
      WaitPromised(s.threads[t].(state := Waiting, resume := FromProcWait), step);
    } else {
      CallSets(s, step, t);
    }
  }

  lemma WaitPromised(th: Thread, step: Step)
    requires step.ProcWait? && th.state == Waiting && th.resume == FromProcWait
    ensures Promised(step, th, false)
  {
  }

  lemma CallSets(s: State, step: Step, t: Tid)
    requires Closed(s) && Enabled(s, step) && CallBy(s, step, t) && !step.ProcWait?
    requires t in s.threads && s.threads[t].resume == Plain
    ensures t in Apply(s, step).threads && Apply(s, step).threads[t].proc == s.threads[t].proc
    ensures Promised(step, Apply(s, step).threads[t], false)
  {
  }

  lemma CurrentPlain(s: State, c: Cpu)
    requires Inv(s) && c in s.current
    ensures s.current[c] in s.threads && s.threads[s.current[c]].resume == Plain
  {
    CurrentRuns(s, c);
    hide Inv;
  }

  /** proc_wait keeps its caller running and answers at once, or leaves it WAITING. */
  lemma WaitLeaves(s: State, c: Cpu)
    requires Closed(s) && c in s.current && s.current[c] in s.threads
    ensures var s', t := WaitForChild(s, c), s.current[c];
            || (s'.current == s.current && IsCurrent(s'.current, t))
            || (t in s'.threads && s'.threads[t] == s.threads[t].(state := Waiting, resume := FromProcWait))
  {
    hide FindDefunctChild;
    assert IsCurrent(s.current, s.current[c]);
  }

  ghost predicate Woken(states: seq<State>, steps: seq<Step>, j: nat, i: nat, t: Tid, th: Thread)
    requires j < |steps|
  {
    match steps[j]
    case CondWait(_, cond) => NotifiedSince(states, steps, j, i, cond, t)
    case ProcWait(_) => CollectedSince(states, j, i, th.proc, th.collectedPid)
    case _ => false
  }

  lemma PromiseKept(s: State, step: Step, s': State, call: Step, th: Thread, th': Thread, woken: bool)
    requires Promised(call, th, woken) && OffMove(s, step, s', th, th')
    ensures th'.proc == th.proc
    ensures Promised(call, th', woken) || (th.state != Ready && th'.state == Ready && Promised(call, th', true))
    ensures th'.state == Ready && th.state != Ready && call.CondWait? ==>
              step == Notify(call.cond) && th.state == Blocked
    ensures th'.state == Ready && th.state != Ready && call.ProcWait? ==> CollectedAt(s, s', th.proc, th'.collectedPid)
    ensures th'.collectedPid ==
            th.collectedPid || (call.ProcWait? && th'.state == Ready && th.state != Ready) || call.CondWait?
  {
  }

  /** A thread that made a call and has not run since: after thread_exit and proc_exit it is EXITED for
      good; a sleeper has the time it asked for; a waiter on a condition is READY only after a notify of
      that condition, and one in proc_wait only after a child of its process was collected. */
  lemma {:induction false} OffThread(states: seq<State>, steps: seq<Step>, j: nat, i: nat, t: Tid)
    requires IsRun(states, steps) && j < |steps| && CallBy(states[j], steps[j], t) && Off(states, t, j, i)
    ensures t in states[j].threads && states[i].threads[t].proc == states[j].threads[t].proc
    ensures Promised(steps[j], states[i].threads[t], Woken(states, steps, j, i, t, states[i].threads[t]))
    decreases i
  {
    hide Inv, Closed, Enabled, Apply, OffMove, IsCurrent;
    if i == j + 1 {
      StepOf(states, steps, j);
      CallLeaves(states[j], steps[j], t);
      PromiseMore(steps[j], states[i].threads[t]);
    } else {
      OffThread(states, steps, j, i - 1, t);
      StepOf(states, steps, i - 1);
      StepMove(states[i - 1], steps[i - 1], t);
      StillPromised(states, steps, j, i, t);
    }
  }

  lemma PromiseMore(call: Step, th: Thread)
    requires Promised(call, th, false)
    ensures forall woken :: Promised(call, th, woken)
  {
  }

  lemma StillPromised(states: seq<State>, steps: seq<Step>, j: nat, i: nat, t: Tid)
    requires j + 1 < i < |states| == |steps| + 1 && t in states[i - 1].threads && t in states[i].threads
    requires Promised(steps[j], states[i - 1].threads[t], Woken(states, steps, j, i - 1, t, states[i - 1].threads[t]))
    requires OffMove(states[i - 1], steps[i - 1], states[i], states[i - 1].threads[t], states[i].threads[t])
    ensures states[i].threads[t].proc == states[i - 1].threads[t].proc
    ensures Promised(steps[j], states[i].threads[t], Woken(states, steps, j, i, t, states[i].threads[t]))
  {
    var th, th' := states[i - 1].threads[t], states[i].threads[t];
    PromiseKept(states[i - 1], steps[i - 1], states[i], steps[j], th, th', Woken(states, steps, j, i - 1, t, th));
    hide OffMove, CollectedAt;
    if steps[j].CondWait? {
      var cond := steps[j].cond;
      assert NotifiedSince(states, steps, j, i - 1, cond, t) ==> NotifiedSince(states, steps, j, i, cond, t);
      if th'.state == Ready && th.state != Ready {
        assert NotifiedAt(states[i - 1], steps[i - 1], states[i - 1 + 1], cond, t);
      }
    } else if steps[j].ProcWait? {
      assert CollectedSince(states, j, i - 1, th.proc, th'.collectedPid) ==>
               CollectedSince(states, j, i, th'.proc, th'.collectedPid);
    }
  }

  /** When it does run again, a pass found it at the head of the queue; it was not one that exited; a sleeper
      slept until after the time it asked for; a waiter's condition had been notified; and proc_wait comes
      back with a child of its process that was collected while it waited. */
  lemma ThreadRunsAgain(states: seq<State>, steps: seq<Step>, j: nat, i: nat, t: Tid)
    requires IsRun(states, steps) && j < |steps| && CallBy(states[j], steps[j], t)
    requires Off(states, t, j, i) && i < |steps|
    requires IsCurrent(states[i + 1].current, t)
    ensures steps[i].SchedulerPass? && states[i].queue != [] && states[i].queue[0] == t
    ensures !steps[j].ThreadExit? && !steps[j].ProcExit? && t in states[j].threads
    ensures steps[j].ThreadSleep? ==>
              steps[i].now > steps[j].now + steps[j].milliseconds * TICKS_PER_MILLISECOND % WORDS
    ensures steps[j].CondWait? ==> NotifiedSince(states, steps, j, i, steps[j].cond, t)
    ensures steps[j].ProcWait? ==>
              exists r: Collected :: states[i + 1].returned == states[i].returned + [r]
                && r.caller == states[j].threads[t].proc && CollectedSince(states, j, i, r.caller, r.pid)
  {
    OffThread(states, steps, j, i, t);
    StepOf(states, steps, i);
    hide IsRun, Inv, Apply, Enabled, Closed;
    StepRuns(states[i], steps[i], t);
    if steps[j].ProcWait? {
      PassReturns(states[i], steps[i].c, steps[i].now);
    }
  }

  /** What the pass that runs a thread lets its proc_wait return. */
  lemma PassReturns(s: State, c: Cpu, now: nat)
    requires Closed(s) && Enabled(s, SchedulerPass(c, now)) && s.queue != [] && s.threads[s.queue[0]].state == Ready
    ensures var th := s.threads[s.queue[0]];
            Apply(s, SchedulerPass(c, now)).returned ==
              if th.resume == FromProcWait then s.returned + [Collected(th.proc, th.collectedPid, th.collectedStatus)]
              else s.returned
  {
  }

  // Returns of proc_wait.

  /** proc_wait answers at once exactly when the caller has a DEFUNCT child, with such a child, which it
      collects; otherwise it leaves the caller WAITING. */
  lemma WaitAnswers(s: State, c: Cpu)
    requires Inv(s) && Closed(s) && Enabled(s, ProcWait(c))
    ensures var s', t := Apply(s, ProcWait(c)), s.current[c];
            if HasDefunctChild(s.procs, s.threads[t].proc) then
              && s'.current == s.current && s'.threads == s.threads && s'.returned != []
              && var r := s'.returned[|s'.returned| - 1];
                 && s'.returned == s.returned + [r] && r.caller == s.threads[t].proc
                 && r.pid in s.procs && s.procs[r.pid].state == Defunct && CollectedAt(s, s', r.caller, r.pid)
            else s'.returned == s.returned && s'.current == s.current - {c} && t in s'.threads && s'.threads[t].state == Waiting
  {
    hide Inv, FindDefunctChild;
    CurrentRuns(s, c);
    WaitFinds(s, s.threads[s.current[c]].proc);
    hide HasDefunctChild, Carried, ThreadListed, Closed;
  }

  lemma WaitFinds(s: State, parent: Pid)
    requires forall p :: p in s.processes <==> p in s.procs
    ensures HasDefunctChild(s.procs, parent) <==> FindDefunctChild(s.procs, s.processes, parent).Some?
    ensures HasDefunctChild(s.procs, parent) ==>
              var p := FindDefunctChild(s.procs, s.processes, parent).value;
              p in s.procs && s.procs[p].parent == parent && s.procs[p].state == Defunct
  {
    FindDefunctChildFinds(s.procs, s.processes, parent);
    hide FindDefunctChild;
  }

  /** Nothing else returns from proc_wait: only the call itself, and the pass that runs a waiter again. */
  lemma OnlyWaitersReturn(s: State, step: Step)
    requires Closed(s) && Enabled(s, step) && Apply(s, step).returned != s.returned
    ensures step.ProcWait? || step.SchedulerPass?
    ensures step.SchedulerPass? ==> s.queue != [] && s.threads[s.queue[0]].resume == FromProcWait
  {
    hide FindDefunctChild, FindBlocked;
    if step.SchedulerPass? && s.queue != [] && s.threads[s.queue[0]].state == Exited {
      hide MakeProcessDefunct;
      DefunctReturns(s.(queue := s.queue[1..]), s.queue[0]);
    }
  }

  lemma DefunctReturns(s: State, t: Tid)
    requires t in s.threads && s.threads[t].proc in s.procs
    ensures DestroyThread(s, t).returned == s.returned
  {
  }

  /** The pass in which a process loses its last thread leaves no thread of its parent WAITING: they are
      all READY, with that process as the child they have collected. */
  lemma LastThreadWakesParent(s: State, c: Cpu, now: nat, p: Pid, t: Tid)
    requires Inv(s) && Closed(s) && Enabled(s, SchedulerPass(c, now)) && p in s.procs && s.procs[p].threads != []
    requires p in Pass(s, c, now).procs && Pass(s, c, now).procs[p].threads == [] && s.procs[p].parent != PID_KERNEL
    requires t in s.threads && s.threads[t].proc == s.procs[p].parent && s.threads[t].state == Waiting
    ensures var s' := Pass(s, c, now);
            && t in s'.threads && s'.threads[t].state == Ready && s'.threads[t].collectedPid == p
            && s'.procs[p].state == Truncate
  {
    hide Inv, Pass, DestroyThread;
    ListedThread(s, t);
    EmptyingPass(s, c, now, p);
    DestroyWakes(s.(queue := s.queue[1..]), s.queue[0], p, t);
  }

  lemma EmptyingPass(s: State, c: Cpu, now: nat, p: Pid)
    requires Closed(s) && p in s.procs && p in Pass(s, c, now).procs
    requires Pass(s, c, now).procs[p].threads != s.procs[p].threads
    ensures s.queue != [] && s.threads[s.queue[0]].state == Exited
    ensures Pass(s, c, now) == DestroyThread(s.(queue := s.queue[1..]), s.queue[0])
  {
    hide DestroyThread;
  }

  lemma DestroyWakes(s: State, u: Tid, p: Pid, t: Tid)
    requires u in s.threads && s.threads[u].proc in s.procs && p in s.procs && s.procs[p].threads != []
    requires p in DestroyThread(s, u).procs && DestroyThread(s, u).procs[p].threads == []
    requires s.procs[p].parent != PID_KERNEL
    requires t in s.threads && t != u && s.threads[t].proc == s.procs[p].parent && s.threads[t].state == Waiting
    requires s.procs[p].parent in s.procs && t in s.procs[s.procs[p].parent].threads
    ensures var s' := DestroyThread(s, u);
            && t in s'.threads && s'.threads[t].state == Ready && s'.threads[t].collectedPid == p
            && s'.procs[p].state == Truncate
  {
    assert p == s.threads[u].proc;
    hide Without;
    assert t in Without(s.procs[s.procs[p].parent].threads, u);
  }

  // The order of the run queue.

  predicate Pops(s: State, step: Step) {
    step.SchedulerPass? && s.queue != []
  }

  /** A thread is blocked on the condition of the notify. */
  ghost predicate Wakes(s: State, step: Step) {
    step.Notify? && exists t :: t in s.threads && s.threads[t].cond == Some(step.cond) && s.threads[t].state == Blocked
  }

  /** A step takes the head off the queue, or puts one woken thread before it, or neither; everything else
      it queues goes behind all that were there. */
  ghost predicate QueueMove(queue: seq<Tid>, pops: bool, wakes: bool, queue': seq<Tid>) {
    && !(pops && wakes) && (pops ==> queue != [])
    && if wakes then queue' != [] && queue'[1..] == queue
       else (if pops then queue[1..] else queue) <= queue'
  }

  lemma StepQueue(s: State, step: Step)
    requires Inv(s) && Closed(s) && Enabled(s, step)
    ensures QueueMove(s.queue, Pops(s, step), Wakes(s, step), Apply(s, step).queue)
  {
    hide Inv, NotifyOne, WaitForChild, Pass;
    match step
    case Notify(cond) => NotifyQueue(s, cond);
    case SchedulerPass(c, now) => PassQueue(s, c, now);
    case ProcWait(c) => WaitQueue(s, c);
    case _ =>
  }

  lemma NotifyQueue(s: State, cond: Cond)
    requires Inv(s)
    ensures QueueMove(s.queue, false, Wakes(s, Notify(cond)), NotifyOne(s, cond).queue)
  {
    hide Inv, NotifyOne;
    NotifyKeeps(s, cond);
  }

  lemma WaitQueue(s: State, c: Cpu)
    requires c in s.current && s.current[c] in s.threads
    ensures QueueMove(s.queue, false, false, WaitForChild(s, c).queue)
  {
    hide FindDefunctChild;
  }

  lemma PassQueue(s: State, c: Cpu, now: nat)
    requires Closed(s)
    ensures QueueMove(s.queue, s.queue != [], false, Pass(s, c, now).queue)
  {
    hide DestroyThread;
    if s.queue != [] && s.threads[s.queue[0]].state == Exited {
      DestroyQueue(s.(queue := s.queue[1..]), s.queue[0]);
    }
  }

  lemma DestroyQueue(s: State, t: Tid)
    requires t in s.threads && s.threads[t].proc in s.procs
    ensures s.queue <= DestroyThread(s, t).queue
  {
  }

  /** The threads popped, and the threads put in front by a notify, in the steps from `j` to `i`. */
  ghost function Popped(states: seq<State>, steps: seq<Step>, j: nat, i: nat): nat
    requires j <= i <= |steps| && i < |states|
  {
    if i == j then 0 else Popped(states, steps, j, i - 1) + if Pops(states[i - 1], steps[i - 1]) then 1 else 0
  }

  ghost function Overtaken(states: seq<State>, steps: seq<Step>, j: nat, i: nat): nat
    requires j <= i <= |steps| && i < |states|
  {
    if i == j then 0 else Overtaken(states, steps, j, i - 1) + if Wakes(states[i - 1], steps[i - 1]) then 1 else 0
  }

  lemma PlaceMoves(queue: seq<Tid>, pops: bool, wakes: bool, queue': seq<Tid>, k: nat)
    requires QueueMove(queue, pops, wakes, queue') && k < |queue| && (pops ==> k > 0)
    ensures var k' := k + (if wakes then 1 else 0) - if pops then 1 else 0;
            0 <= k' < |queue'| && queue'[k'] == queue[k]
  {
  }

  /** In the steps from `j` to `i` no pass pops what was at place `k`. */
  ghost predicate NotPopped(states: seq<State>, steps: seq<Step>, j: nat, i: nat, k: nat)
    requires j <= i <= |steps| && i < |states|
  {
    forall m :: j <= m < i && Pops(states[m], steps[m]) ==>
      Popped(states, steps, j, m) < k + Overtaken(states, steps, j, m)
  }

  /** No thread is overtaken but by one a notify wakes. A thread at place `k` of the queue is, until its turn,
      exactly as many places further as there were passes, less one for each thread woken. */
  lemma {:induction false} QueueIsFair(states: seq<State>, steps: seq<Step>, j: nat, i: nat, k: nat)
    requires IsRun(states, steps) && j <= i < |states| && k < |states[j].queue| && NotPopped(states, steps, j, i, k)
    ensures var place := k + Overtaken(states, steps, j, i) - Popped(states, steps, j, i);
            0 <= place < |states[i].queue| && states[i].queue[place] == states[j].queue[k]
    decreases i
  {
    hide Inv, Closed, Enabled, Apply, Pops, Wakes, QueueMove;
    if j < i {
      QueueIsFair(states, steps, j, i - 1, k);
      StepOf(states, steps, i - 1);
      var s, step := states[i - 1], steps[i - 1];
      StepQueue(s, step);
      PlaceMoves(s.queue, Pops(s, step), Wakes(s, step), states[i].queue,
                 k + Overtaken(states, steps, j, i - 1) - Popped(states, steps, j, i - 1));
    }
  }

  /** So a READY thread runs on the CPU that makes the next pass after as many as there were threads before
      it and threads woken since. */
  lemma TurnComes(states: seq<State>, steps: seq<Step>, j: nat, i: nat, k: nat)
    requires IsRun(states, steps) && j <= i < |steps| && k < |states[j].queue| && NotPopped(states, steps, j, i, k)
    requires steps[i].SchedulerPass? && Popped(states, steps, j, i) == k + Overtaken(states, steps, j, i)
    requires states[j].queue[k] in states[i].threads && states[i].threads[states[j].queue[k]].state == Ready
    ensures steps[i].c in states[i + 1].current && states[i + 1].current[steps[i].c] == states[j].queue[k]
  {
    hide Inv, NotPopped, Popped, Overtaken;
    QueueIsFair(states, steps, j, i, k);
    StepOf(states, steps, i);
    hide IsRun, Apply, Closed;
    PassStep(states[i], steps[i].c, steps[i].now);
    PassHead(states[i], steps[i].c, steps[i].now);
  }

  lemma PassStep(s: State, c: Cpu, now: nat)
    requires Closed(s) && Enabled(s, SchedulerPass(c, now))
    ensures Apply(s, SchedulerPass(c, now)) == Pass(s, c, now)
  {
  }
}
