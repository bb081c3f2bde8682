/** The scheduler's safety over whole runs, from init_global_scheduler on. */
module SchedulerRuns {
  import opened Base
  import opened SchedulerSpec
  import opened SchedulerProofs

  ghost predicate Next(s: State, step: Step, s': State) {
    Enabled(s, step) && (Closed(s) ==> s' == Apply(s, step))
  }

  /** `states` is a run: any steps by any CPUs in any order. */
  ghost predicate IsRun(states: seq<State>, steps: seq<Step>) {
    && |states| == |steps| + 1
    && states[0] == Initial()
    && forall i :: 0 <= i < |steps| ==> Next(states[i], steps[i], states[i + 1])
  }

  lemma {:induction false} RunInv(states: seq<State>, steps: seq<Step>, i: nat)
    requires IsRun(states, steps) && i < |states|
    ensures Inv(states[i]) && Closed(states[i])
  {
    hide Inv, Closed;
    if i == 0 {
      InitialInv();
    } else {
      RunInv(states, steps, i - 1);
      assert Next(states[i - 1], steps[i - 1], states[i]);
      ApplyKeeps(states[i - 1], steps[i - 1]);
    }
    InvClosed(states[i]);
  }

  /** `t` is where its state says, and nowhere else. */
  ghost predicate InOnePlace(s: State, t: Tid)
    requires t in s.threads
  {
    match Home(s.threads[t].state)
    case InQueue => multiset(s.queue)[t] == 1 && !IsCurrent(s.current, t)
    case OnCpu =>
      && multiset(s.queue)[t] == 0
      && IsCurrent(s.current, t)
      && (forall c, d :: c in s.current && d in s.current && s.current[c] == t && s.current[d] == t ==> c == d)
    case Parked => multiset(s.queue)[t] == 0 && !IsCurrent(s.current, t)
    case LoopThread => multiset(s.queue)[t] <= 1 && !IsCurrent(s.current, t)
  }

  lemma {:induction false} NoDupCount(s: seq<Tid>, t: Tid)
    requires NoDup(s)
    ensures multiset(s)[t] == if t in s then 1 else 0
  {
    if s != [] {
      assert s == [s[0]] + s[1..];
      NoDupCount(s[1..], t);
    }
  }

  lemma PlacedOnce(s: State, t: Tid)
    requires Placed(s.queue, s.threads, s.current) && t in s.threads
    ensures InOnePlace(s, t)
  {
    NoDupCount(s.queue, t);
  }

  /** In every run each live thread is in exactly one place; the queue and the CPUs name live
      threads only, so no thread runs on two CPUs and none is freed while queued or current. */
  lemma EachThreadInOnePlace(states: seq<State>, steps: seq<Step>, i: nat)
    requires IsRun(states, steps) && i < |states|
    ensures forall t :: t in states[i].threads ==> InOnePlace(states[i], t)
    ensures forall t :: t in states[i].queue ==> t in states[i].threads
    ensures forall c :: c in states[i].current ==> states[i].current[c] in states[i].threads
  {
    RunInv(states, steps, i);
    hide IsRun;
    QueueAndCpusLive(states[i]);
    hide Placed, Listed, Families, Loops, Waits, InOnePlace;
    forall t | t in states[i].threads ensures InOnePlace(states[i], t) {
      PlacedOnce(states[i], t);
    }
  }

  lemma QueueAndCpusLive(s: State)
    requires Inv(s)
    ensures forall t :: t in s.queue ==> t in s.threads
    ensures forall c :: c in s.current ==> s.current[c] in s.threads
  {
    hide Listed, Families, Loops, Waits;
  }

  /** A process keeps its parent, and a collected one never changes again. */
  ghost predicate ProcsStable(procs: Procs, procs': Procs) {
    && (forall p :: p in procs ==> p in procs' && procs'[p].parent == procs[p].parent)
    && (forall p :: p in procs && procs[p].state == Truncate ==> p in procs' && procs'[p] == procs[p])
  }

  /** The only thread a step frees is the EXITED one at the head of the queue. */
  ghost predicate ThreadsStable(s: State, threads': Threads) {
    forall t :: t in s.threads && t !in threads' ==> s.queue != [] && t == s.queue[0] && s.threads[t].state == Exited
  }

  lemma MarkStable(procs: Procs, p: Pid, proc: Proc)
    requires p in procs ==> procs[p].state != Truncate && proc.parent == procs[p].parent
    ensures ProcsStable(procs, procs[p := proc])
  {
  }

  lemma DestroyStable(s: State, t: Tid)
    requires t in s.threads && s.threads[t].proc in s.procs && s.procs[s.threads[t].proc].state != Truncate
    ensures ProcsStable(s.procs, DestroyThread(s, t).procs)
    ensures DestroyThread(s, t).threads.Keys == s.threads.Keys - {t}
  {
    hide ProcsStable;
    var s' := DestroyThread(s, t);
    var p := s.threads[t].proc;
    assert s'.procs == s.procs[p := s'.procs[p]];
    MarkStable(s.procs, p, s'.procs[p]);
  }

  lemma PassStable(s: State, c: Cpu, now: nat)
    requires Inv(s) && Closed(s)
    ensures ProcsStable(s.procs, Pass(s, c, now).procs) && ThreadsStable(s, Pass(s, c, now).threads)
  {
    hide Inv, DestroyThread;
    if s.queue != [] && s.threads[s.queue[0]].state == Exited {
      var t := s.queue[0];
      KeptProcess(s, s.threads[t].proc);
      ListedThread(s, t);
      DestroyStable(s.(queue := s.queue[1..]), t);
    }
  }

  lemma InsertStable(s: State, step: Step)
    requires Inv(s) && Closed(s) && Enabled(s, step)
    requires step.EnterScheduler? || step.ScheduleProc? || step.ScheduleKernelThread?
    ensures ProcsStable(s.procs, Apply(s, step).procs) && ThreadsStable(s, Apply(s, step).threads)
  {
    hide Inv, ProcsStable;
    var p := if step.ScheduleProc? then step.pid else PID_KERNEL;
    var procs' := Apply(s, step).procs;
    if p in s.procs { KeptProcess(s, p); }
    assert procs' == s.procs[p := procs'[p]];
    MarkStable(s.procs, p, procs'[p]);
  }

  lemma ExitStable(s: State, c: Cpu, status: int)
    requires Inv(s) && Closed(s) && c in s.current
    ensures ProcsStable(s.procs, ExitProcess(s, c, status).procs) && ThreadsStable(s, ExitProcess(s, c, status).threads)
  {
    hide Inv, ProcsStable;
    var p := s.threads[s.current[c]].proc;
    CurrentRuns(s, c);
    KeptProcess(s, p);
    MarkStable(s.procs, p, ExitProcess(s, c, status).procs[p]);
  }

  lemma ApplyStable(s: State, step: Step)
    requires Inv(s) && Closed(s) && Enabled(s, step)
    ensures ProcsStable(s.procs, Apply(s, step).procs) && ThreadsStable(s, Apply(s, step).threads)
  {
    hide Inv, Pass, ProcsStable, ExitProcess, WaitForChild;
    match step
    case SchedulerPass(c, now) => PassStable(s, c, now);
    case ProcExit(c, status) => ExitStable(s, c, status);
    case ProcWait(c) =>
      CurrentRuns(s, c);
      WaitStable(s, c);
    case EnterScheduler(_, _) => InsertStable(s, step);
    case ScheduleKernelThread(_) => InsertStable(s, step);
    case ScheduleProc(_, _, _) => InsertStable(s, step);
    case _ => SameStable(s.procs);
  }

  lemma SameStable(procs: Procs)
    ensures ProcsStable(procs, procs)
  {
  }

  lemma WaitStable(s: State, c: Cpu)
    requires c in s.current && s.current[c] in s.threads
    requires forall p :: p in s.processes <==> p in s.procs
    ensures ProcsStable(s.procs, WaitForChild(s, c).procs)
    ensures WaitForChild(s, c).threads.Keys == s.threads.Keys
  {
    FindDefunctChildFinds(s.procs, s.processes, s.threads[s.current[c]].proc);
  }

  /** Only EXITED threads at the head of the queue are ever freed, and the step that frees one
      leaves it neither queued nor current. */
  lemma FreedThreadIsNowhere(states: seq<State>, steps: seq<Step>, i: nat, t: Tid)
    requires IsRun(states, steps) && i < |steps|
    requires t in states[i].threads && t !in states[i + 1].threads
    ensures states[i].threads[t].state == Exited && states[i].queue != [] && states[i].queue[0] == t
    ensures t !in states[i + 1].queue && !IsCurrent(states[i + 1].current, t)
  {
    StepStable(states, steps, i);
    RunInv(states, steps, i + 1);
    hide IsRun, Inv, Closed;
    QueueAndCpusLive(states[i + 1]);
  }

  lemma StepStable(states: seq<State>, steps: seq<Step>, i: nat)
    requires IsRun(states, steps) && i < |steps|
    ensures ProcsStable(states[i].procs, states[i + 1].procs) && ThreadsStable(states[i], states[i + 1].threads)
  {
    RunInv(states, steps, i);
    assert Next(states[i], steps[i], states[i + 1]);
    hide IsRun, Inv, Apply, Closed;
    ApplyStable(states[i], steps[i]);
  }

  /** A child becomes TRUNCATE at most once: from then on its process object stays as it is. */
  lemma {:induction false} ChildCollectedOnce(states: seq<State>, steps: seq<Step>, i: nat, j: nat, p: Pid)
    requires IsRun(states, steps) && i <= j < |states|
    requires p in states[i].procs && states[i].procs[p].state == Truncate
    ensures p in states[j].procs && states[j].procs[p] == states[i].procs[p]
    decreases j
  {
    if i < j {
      ChildCollectedOnce(states, steps, i, j - 1, p);
      StepStable(states, steps, j - 1);
    }
  }

  /** Every return of proc_wait gave the caller one of its own children, collected, with the exit
      status that child still has. */
  lemma WaitReturnsCollectedChild(states: seq<State>, steps: seq<Step>, i: nat, k: nat)
    requires IsRun(states, steps) && i < |states| && k < |states[i].returned|
    ensures Reaped(states[i].procs, states[i].returned[k])
  {
    RunInv(states, steps, i);
    hide IsRun, Placed, Listed, Families, Loops, Carried;
  }

  /** Between critical sections no thread waits while its process has a DEFUNCT child. */
  lemma NoChildIsMissed(states: seq<State>, steps: seq<Step>, i: nat, t: Tid, child: Pid)
    requires IsRun(states, steps) && i < |states|
    requires t in states[i].threads && states[i].threads[t].state == Waiting
    requires child in states[i].procs && states[i].procs[child].parent == states[i].threads[t].proc
    ensures states[i].procs[child].state != Defunct
  {
    RunInv(states, steps, i);
    hide IsRun, Placed, Listed, Waits, Loops, Kept;
  }

  /** The assertion of destroy_thread never fires: the pass that frees a thread never empties the
      kernel process. */
  lemma KernelProcessKept(states: seq<State>, steps: seq<Step>, i: nat)
    requires IsRun(states, steps) && i < |steps| && steps[i].SchedulerPass?
    requires states[i].queue != [] && states[i].queue[0] in states[i].threads
    requires states[i].threads[states[i].queue[0]].state == Exited
    ensures PID_KERNEL in states[i].procs
    ensures Without(states[i].procs[PID_KERNEL].threads, states[i].queue[0]) != []
  {
    RunInv(states, steps, i);
    assert Next(states[i], steps[i], states[i + 1]);
    hide IsRun, Inv, Apply, Closed;
    KernelNeverEmpty(states[i], steps[i].c, states[i].queue[0]);
  }
}
