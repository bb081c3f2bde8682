/** The scheduler of kernel/arch/i386/scheduler.c as a state machine. One step is one critical
    section of `global_scheduler_lock`: from the acquire to the release, which for a thread that
    gives up its CPU is the release done by the scheduler loop it switches to. */
module SchedulerSpec {
  import opened Base

  type Tid = nat   // identity of a thread object
  type Pid = nat
  type Cpu = nat
  type Cond = nat  // identity of a thread_cond object

  const PID_KERNEL: Pid := 0
  const ENOSTATUS := 10
  const TICKS_PER_MILLISECOND := 10

  datatype ThreadState = SchedulerLoop | Ready | Running | Waiting | Blocked | Sleeping | Exited

  /** Which call the thread will come out of when it is next switched to. */
  datatype Resume = Plain | FromCondWait | FromProcWait

  datatype Thread = Thread(proc: Pid, state: ThreadState, resume: Resume, cond: Option<Cond>,
                           sleepUntil: nat, collectedPid: Pid, collectedStatus: int)

  datatype ProcState = New | Runnable | Exiting | Defunct | Truncate

  datatype Proc = Proc(parent: Pid, state: ProcState, exitStatus: int, threads: seq<Tid>)

  /** A return of proc_wait: the process that called it, and the pid and status it was given. */
  datatype Collected = Collected(caller: Pid, pid: Pid, status: int)

  datatype State = State(
    processes: seq<Pid>,        // the process list, head first
    procs: map<Pid, Proc>,
    threads: map<Tid, Thread>,  // the thread objects not yet freed
    queue: seq<Tid>,            // the run queue, head first
    current: map<Cpu, Tid>,     // cpu->thread, where not NULL
    loops: map<Cpu, Tid>,       // cpu->scheduler, once the CPU has entered the loop
    returned: seq<Collected>)    // every return of proc_wait so far

  /** init_global_scheduler. */
  function Initial(): State {
    State([PID_KERNEL], map[PID_KERNEL := Proc(PID_KERNEL, New, 0, [])], map[], [], map[], map[], [])
  }

  datatype Step =
    | EnterScheduler(c: Cpu, t: Tid)
    | SchedulerPass(c: Cpu, now: nat)
    | ThreadYield(c: Cpu)
    | ThreadExit(c: Cpu)
    | ThreadSleep(c: Cpu, milliseconds: nat, now: nat)
    | CondWait(c: Cpu, cond: Cond)
    | Notify(cond: Cond)
    | ProcExit(c: Cpu, status: int)
    | ProcWait(c: Cpu)
    | ScheduleProc(parent: Option<Pid>, pid: Pid, t: Tid)
    | ScheduleKernelThread(t: Tid)

  /** A thread takes a step on the CPU it is current on; a scheduler loop steps on a CPU that has
      no current thread; a new object is one not in use. */
  predicate Enabled(s: State, step: Step) {
    match step
    case EnterScheduler(c, t) => c !in s.loops && c !in s.current && t !in s.threads
    case SchedulerPass(c, _) => c in s.loops && c !in s.current
    case Notify(_) => true
    case ScheduleProc(parent, pid, t) =>
      pid !in s.procs && t !in s.threads && (parent.Some? ==> parent.value in s.procs)
    case ScheduleKernelThread(t) => t !in s.threads
    case _ => step.c in s.current
  }

  // insert_thread
  function InsertThread(s: State, p: Pid, t: Tid): State
    requires p in s.procs
  {
    var proc := s.procs[p];
    s.(procs := s.procs[p := Proc(proc.parent, Runnable, -ENOSTATUS, [t] + proc.threads)],
       threads := s.threads[t := Thread(p, Ready, Plain, None, 0, 0, 0)],
       queue := s.queue + [t])
  }

  // collect_process
  function CollectProcess(s: State, p: Pid): State
    requires p in s.procs
  {
    s.(procs := s.procs[p := s.procs[p].(state := Truncate)])
  }

  /** The threads of `list` that are WAITING, in list order. */
  function Waiters(threads: map<Tid, Thread>, list: seq<Tid>): (ws: seq<Tid>)
    ensures forall t :: t in ws <==> t in list && t in threads && threads[t].state == Waiting
    ensures NoDup(list) ==> NoDup(ws)
  {
    if list == [] then []
    else
      assert list == [list[0]] + list[1..];
      if list[0] in threads && threads[list[0]].state == Waiting
      then [list[0]] + Waiters(threads, list[1..])
      else Waiters(threads, list[1..])
  }

  /** Every thread of `ws` made READY with the pid and status it has collected. */
  function Wake(threads: map<Tid, Thread>, ws: seq<Tid>, pid: Pid, status: int): map<Tid, Thread> {
    map t | t in threads ::
      if t in ws then threads[t].(state := Ready, collectedPid := pid, collectedStatus := status)
      else threads[t]
  }

  // make_process_defunct
  function MakeProcessDefunct(s: State, p: Pid): State
    requires p in s.procs
  {
    var proc := s.procs[p];
    var s1 := s.(procs := s.procs[p := proc.(state := Defunct)]);
    if proc.parent == PID_KERNEL then CollectProcess(s1, p)
    else if proc.parent !in s.procs then s1
    else
      var ws := Waiters(s.threads, s.procs[proc.parent].threads);
      if ws == [] then s1
      else CollectProcess(
             s1.(threads := Wake(s.threads, ws, p, proc.exitStatus), queue := s.queue + ws), p)
  }

  // destroy_thread
  function DestroyThread(s: State, t: Tid): State
    requires t in s.threads && s.threads[t].proc in s.procs
  {
    var p := s.threads[t].proc;
    var rest := Without(s.procs[p].threads, t);
    var s1 := s.(procs := s.procs[p := s.procs[p].(threads := rest)], threads := s.threads - {t});
    if rest == [] then MakeProcessDefunct(s1, p) else s1
  }

  /** The switch to `t`, up to the point where `t` drops the lock: sched_thread_wait clears the
      condition, proc_wait hands out what was collected. */
  function Dispatch(s: State, c: Cpu, t: Tid): State
    requires t in s.threads
  {
    var th := s.threads[t];
    s.(threads := s.threads[t := th.(state := Running, sleepUntil := 0, resume := Plain,
                                     cond := if th.resume == FromCondWait then None else th.cond)],
       current := s.current[c := t],
       returned := if th.resume == FromProcWait
                  then s.returned + [Collected(th.proc, th.collectedPid, th.collectedStatus)]
                  else s.returned)
  }

  // one turn of the loop of enter_scheduler
  function Pass(s: State, c: Cpu, now: nat): State
    requires s.queue != [] ==> s.queue[0] in s.threads && s.threads[s.queue[0]].proc in s.procs
  {
    if s.queue == [] then s
    else
      var t := s.queue[0];
      var s1 := s.(queue := s.queue[1..]);
      match s.threads[t].state
      case Exited => DestroyThread(s1, t)
      case Sleeping =>
        if s.threads[t].sleepUntil < now then Dispatch(s1, c, t) else s1.(queue := s1.queue + [t])
      case Ready => Dispatch(s1, c, t)
      case _ => s1
  }

  /** reschedule: the current thread of `c` leaves the CPU in the state `th` gives it. */
  function Reschedule(s: State, c: Cpu, th: Thread): State
    requires c in s.current
  {
    var t := s.current[c];
    s.(threads := s.threads[t := th],
       current := s.current - {c},
       queue := if th.state == Blocked || th.state == Waiting then s.queue else s.queue + [t])
  }

  /** The first thread of `list` that is BLOCKED on `cond`. */
  function FindInList(threads: map<Tid, Thread>, list: seq<Tid>, cond: Cond): Option<Tid> {
    if list == [] then None
    else if list[0] in threads && threads[list[0]].cond == Some(cond) && threads[list[0]].state == Blocked
    then Some(list[0])
    else FindInList(threads, list[1..], cond)
  }

  /** The first such thread over the processes of `processes`. */
  function FindBlocked(s: State, processes: seq<Pid>, cond: Cond): Option<Tid> {
    if processes == [] then None
    else if processes[0] !in s.procs then FindBlocked(s, processes[1..], cond)
    else
      var found := FindInList(s.threads, s.procs[processes[0]].threads, cond);
      if found.Some? then found else FindBlocked(s, processes[1..], cond)
  }

  // sched_thread_notify_one
  function NotifyOne(s: State, cond: Cond): State {
    match FindBlocked(s, s.processes, cond)
    case None => s
    case Some(t) =>
      if t !in s.threads then s
      else s.(threads := s.threads[t := s.threads[t].(state := Ready)], queue := [t] + s.queue)
  }

  /** The first DEFUNCT child of `parent` in `processes`. */
  function FindDefunctChild(procs: map<Pid, Proc>, processes: seq<Pid>, parent: Pid): Option<Pid> {
    if processes == [] then None
    else if processes[0] in procs && procs[processes[0]].parent == parent && procs[processes[0]].state == Defunct
    then Some(processes[0])
    else FindDefunctChild(procs, processes[1..], parent)
  }

  // proc_wait
  function WaitForChild(s: State, c: Cpu): State
    requires c in s.current && s.current[c] in s.threads
  {
    var th := s.threads[s.current[c]];
    match FindDefunctChild(s.procs, s.processes, th.proc)
    case Some(child) =>
      if child !in s.procs then s
      else CollectProcess(s, child)
           .(returned := s.returned + [Collected(th.proc, child, s.procs[child].exitStatus)])
    case None => Reschedule(s, c, th.(state := Waiting, resume := FromProcWait))
  }

  // proc_exit
  function ExitProcess(s: State, c: Cpu, status: int): State
    requires c in s.current && s.current[c] in s.threads && s.threads[s.current[c]].proc in s.procs
  {
    var th := s.threads[s.current[c]];
    Reschedule(s.(procs := s.procs[th.proc := s.procs[th.proc].(state := Exiting, exitStatus := status)]),
               c, th.(state := Exited))
  }

  /** What the functions below read: the objects the queue and the CPUs name are there. */
  predicate Closed(s: State) {
    && PID_KERNEL in s.procs
    && (forall i :: 0 <= i < |s.queue| ==> s.queue[i] in s.threads)
    && (forall c :: c in s.current ==> s.current[c] in s.threads)
    && (forall t :: t in s.threads ==> s.threads[t].proc in s.procs)
  }

  function Apply(s: State, step: Step): State
    requires Closed(s) && Enabled(s, step)
  {
    match step
    case EnterScheduler(c, t) =>
      var s1 := InsertThread(s, PID_KERNEL, t);
      s1.(threads := s1.threads[t := s1.threads[t].(state := SchedulerLoop)], loops := s.loops[c := t])
    case SchedulerPass(c, now) => Pass(s, c, now)
    case ThreadYield(c) => Reschedule(s, c, s.threads[s.current[c]].(state := Ready))
    case ThreadExit(c) => Reschedule(s, c, s.threads[s.current[c]].(state := Exited))
    case ThreadSleep(c, milliseconds, now) =>
      Reschedule(s, c, s.threads[s.current[c]].(
        state := Sleeping,
        sleepUntil := now + milliseconds * TICKS_PER_MILLISECOND % WORDS))
    case CondWait(c, cond) =>
      Reschedule(s, c, s.threads[s.current[c]].(state := Blocked, resume := FromCondWait, cond := Some(cond)))
    case Notify(cond) => NotifyOne(s, cond)
    case ProcExit(c, status) => ExitProcess(s, c, status)
    case ProcWait(c) => WaitForChild(s, c)
    case ScheduleProc(parent, pid, t) =>
      var p := Proc(if parent.Some? then parent.value else PID_KERNEL, New, 0, []);
      InsertThread(s.(processes := [pid] + s.processes, procs := s.procs[pid := p]), pid, t)
    case ScheduleKernelThread(t) => InsertThread(s, PID_KERNEL, t)
  }

  /** Apply, for contracts: a state the invariant rules out is left as it is. */
  function Do(s: State, step: Step): State {
    if Closed(s) && Enabled(s, step) then Apply(s, step) else s
  }
}
