/** What every run of the scheduler keeps. */
module SchedulerProofs {
  import opened Base
  import opened SchedulerSpec

  type Procs = map<Pid, Proc>
  type Threads = map<Tid, Thread>
  type Current = map<Cpu, Tid>

  /** Where a thread in a given state is kept. A scheduler thread is queued once, by
      enter_scheduler, and dropped when it is popped. */
  datatype Where = InQueue | OnCpu | Parked | LoopThread

  function Home(state: ThreadState): Where {
    match state
    case Ready => InQueue
    case Sleeping => InQueue
    case Exited => InQueue
    case Running => OnCpu
    case Blocked => Parked
    case Waiting => Parked
    case SchedulerLoop => LoopThread
  }

  ghost predicate IsCurrent(current: Current, t: Tid) {
    exists c :: c in current && current[c] == t
  }

  /** Each live thread is in one place: once in the run queue, current on one CPU, or parked. */
  ghost predicate Placed(queue: seq<Tid>, threads: Threads, current: Current) {
    && NoDup(queue)
    && (forall t :: t in queue ==>
          t in threads && (Home(threads[t].state) == InQueue || Home(threads[t].state) == LoopThread))
    && (forall c :: c in current ==> current[c] in threads && threads[current[c]].state == Running)
    && (forall c, d :: c in current && d in current && c != d ==> current[c] != current[d])
    && (forall t :: t in threads && Home(threads[t].state) == InQueue ==> t in queue)
    && (forall t :: t in threads && Home(threads[t].state) == OnCpu ==> IsCurrent(current, t))
  }

  ghost predicate ThreadListed(procs: Procs, th: Thread, t: Tid) {
    th.proc in procs && t in procs[th.proc].threads
  }

  ghost predicate ProcListed(threads: Threads, list: seq<Tid>, p: Pid) {
    NoDup(list) && forall t :: t in list ==> t in threads && threads[t].proc == p
  }

  /** The process list and the thread lists hold each object once, and hold nothing freed. */
  ghost predicate Listed(processes: seq<Pid>, procs: Procs, threads: Threads) {
    && NoDup(processes)
    && (forall p :: p in processes <==> p in procs)
    && (forall t :: t in threads ==> ThreadListed(procs, threads[t], t))
    && (forall p :: p in procs ==> ProcListed(threads, procs[p].threads, p))
  }

  ghost predicate Gone(state: ProcState) {
    state == Defunct || state == Truncate
  }

  /** What holds of a process between critical sections: it is DEFUNCT or collected exactly when
      its last thread is gone. `dying` is the process make_process_defunct is about to mark. */
  ghost predicate Kept(procs: Procs, p: Pid, dying: Option<Pid>)
    requires p in procs
  {
    && procs[p].parent in procs
    && (p == PID_KERNEL ==> !Gone(procs[p].state))
    && (p != PID_KERNEL && dying != Some(p) ==> (procs[p].threads == [] <==> Gone(procs[p].state)))
    && (dying == Some(p) ==> p != PID_KERNEL && procs[p].threads == [] && !Gone(procs[p].state))
    && (procs[p].state == Defunct ==> procs[p].parent != PID_KERNEL)
  }

  ghost predicate HasDefunctChild(procs: Procs, parent: Pid) {
    exists p :: p in procs && procs[p].state == Defunct && procs[p].parent == parent
  }

  /** No thread waits while its process has a DEFUNCT child. */
  ghost predicate Families(procs: Procs, threads: Threads, dying: Option<Pid>) {
    && PID_KERNEL in procs
    && (forall p {:trigger Kept(procs, p, dying)} :: p in procs ==> Kept(procs, p, dying))
    && (forall t :: t in threads && threads[t].state == Waiting ==> !HasDefunctChild(procs, threads[t].proc))
  }

  /** Every CPU in the loop has its own scheduler thread in the kernel process. */
  ghost predicate Loops(loops: map<Cpu, Tid>, threads: Threads, current: Current) {
    && (forall c :: c in current ==> c in loops)
    && (forall c :: c in loops ==>
          && loops[c] in threads
          && threads[loops[c]].state == SchedulerLoop
          && threads[loops[c]].proc == PID_KERNEL)
  }

  /** `r` names a child of its caller that has been collected, with its exit status. */
  ghost predicate Reaped(procs: Procs, r: Collected) {
    && r.pid in procs && r.pid != PID_KERNEL
    && procs[r.pid].parent == r.caller
    && procs[r.pid].state == Truncate
    && procs[r.pid].exitStatus == r.status
  }

  /** What a thread carries while it is off its CPU. */
  ghost predicate Carried(procs: Procs, th: Thread) {
    && (th.state == Waiting ==> th.resume == FromProcWait)
    && (th.state == Blocked ==> th.resume == FromCondWait)
    && (th.resume == FromCondWait <==> th.cond.Some?)
    && (th.resume == FromCondWait ==> th.state == Blocked || th.state == Ready)
    && (th.resume == FromProcWait ==> th.state == Waiting || th.state == Ready)
    && (th.resume == FromProcWait && th.state == Ready ==>
          Reaped(procs, Collected(th.proc, th.collectedPid, th.collectedStatus)))
  }

  ghost predicate Waits(procs: Procs, threads: Threads, returned: seq<Collected>) {
    && (forall t :: t in threads ==> Carried(procs, threads[t]))
    && (forall i :: 0 <= i < |returned| ==> Reaped(procs, returned[i]))
  }

  ghost predicate InvBut(s: State, dying: Option<Pid>) {
    && Placed(s.queue, s.threads, s.current)
    && Listed(s.processes, s.procs, s.threads)
    && Families(s.procs, s.threads, dying)
    && Loops(s.loops, s.threads, s.current)
    && Waits(s.procs, s.threads, s.returned)
  }

  ghost predicate Inv(s: State) {
    InvBut(s, None)
  }

  lemma InitialInv()
    ensures Inv(Initial())
  {
  }

  // One thread object changes, but not the process it belongs to.

  lemma SetListed(processes: seq<Pid>, procs: Procs, threads: Threads, t: Tid, th: Thread)
    requires Listed(processes, procs, threads) && t in threads && th.proc == threads[t].proc
    ensures Listed(processes, procs, threads[t := th])
  {
    forall p | p in procs ensures ProcListed(threads[t := th], procs[p].threads, p) {
      assert ProcListed(threads, procs[p].threads, p);
    }
    assert ThreadListed(procs, threads[t], t);
  }

  lemma SetFamilies(procs: Procs, threads: Threads, t: Tid, th: Thread)
    requires Families(procs, threads, None)
    requires th.state == Waiting ==> !HasDefunctChild(procs, th.proc)
    ensures Families(procs, threads[t := th], None)
  {
  }

  lemma SetLoops(loops: map<Cpu, Tid>, threads: Threads, current: Current, t: Tid, th: Thread)
    requires Loops(loops, threads, current) && (t in threads ==> threads[t].state != SchedulerLoop)
    ensures Loops(loops, threads[t := th], current)
    ensures forall c :: Loops(loops, threads[t := th], current - {c})
    ensures forall c :: c in loops ==> Loops(loops, threads[t := th], current[c := t])
  {
  }

  lemma SetWaits(procs: Procs, threads: Threads, returned: seq<Collected>, t: Tid, th: Thread)
    requires Waits(procs, threads, returned) && Carried(procs, th)
    ensures Waits(procs, threads[t := th], returned)
  {
  }

  // reschedule

  lemma ReschedulePlaced(s: State, c: Cpu, th: Thread)
    requires Placed(s.queue, s.threads, s.current) && c in s.current
    requires Home(th.state) == InQueue || Home(th.state) == Parked
    ensures var s' := Reschedule(s, c, th); Placed(s'.queue, s'.threads, s'.current)
  {
    var s' := Reschedule(s, c, th);
    assert s.current[c] !in s.queue;
    forall u | u in s'.threads && Home(s'.threads[u].state) == OnCpu ensures IsCurrent(s'.current, u) {
      assert IsCurrent(s.current, u);
      var d :| d in s.current && s.current[d] == u;
      assert d in s'.current;
    }
  }

  lemma RescheduleKeeps(s: State, c: Cpu, th: Thread)
    requires Inv(s) && c in s.current
    requires s.current[c] in s.threads && s.threads[s.current[c]].state == Running
    requires th.proc == s.threads[s.current[c]].proc && Carried(s.procs, th)
    requires Home(th.state) == InQueue || Home(th.state) == Parked
    requires th.state == Waiting ==> !HasDefunctChild(s.procs, th.proc)
    ensures Inv(Reschedule(s, c, th))
  {
    hide Placed, Listed, Loops, Waits, Families, HasDefunctChild, Carried;
    var t := s.current[c];
    ReschedulePlaced(s, c, th);
    SetListed(s.processes, s.procs, s.threads, t, th);
    SetFamilies(s.procs, s.threads, t, th);
    SetLoops(s.loops, s.threads, s.current, t, th);
    SetWaits(s.procs, s.threads, s.returned, t, th);
  }

  // the switch to a thread

  lemma DispatchPlaced(s: State, c: Cpu, t: Tid)
    requires Placed(s.queue, s.threads, s.current) && s.queue != [] && t == s.queue[0]
    requires t in s.threads && Home(s.threads[t].state) == InQueue && c !in s.current
    ensures var s' := Dispatch(s.(queue := s.queue[1..]), c, t); Placed(s'.queue, s'.threads, s'.current)
  {
    var s' := Dispatch(s.(queue := s.queue[1..]), c, t);
    assert s.queue == [t] + s'.queue;
    assert t !in s'.queue;
    assert s'.current[c] == t;
    forall u | u in s'.threads && Home(s'.threads[u].state) == OnCpu ensures IsCurrent(s'.current, u) {
      if u != t {
        assert IsCurrent(s.current, u);
        var d :| d in s.current && s.current[d] == u;
        assert d in s'.current && s'.current[d] == u;
      }
    }
  }

  lemma DispatchWaits(s: State, c: Cpu, t: Tid)
    requires Waits(s.procs, s.threads, s.returned) && t in s.threads && Home(s.threads[t].state) == InQueue
    ensures var s' := Dispatch(s, c, t); Waits(s'.procs, s'.threads, s'.returned)
  {
    assert Carried(s.procs, s.threads[t]);
  }

  lemma DispatchKeeps(s: State, c: Cpu, t: Tid)
    requires Inv(s) && s.queue != [] && t == s.queue[0] && t in s.threads && Home(s.threads[t].state) == InQueue
    requires c in s.loops && c !in s.current
    ensures Inv(Dispatch(s.(queue := s.queue[1..]), c, t))
  {
    hide Placed, Listed, Loops, Waits, Families, HasDefunctChild, Carried;
    var s1 := s.(queue := s.queue[1..]);
    var th := Dispatch(s1, c, t).threads[t];
    DispatchPlaced(s, c, t);
    SetListed(s.processes, s.procs, s.threads, t, th);
    SetFamilies(s.procs, s.threads, t, th);
    SetLoops(s.loops, s.threads, s.current, t, th);
    DispatchWaits(s1, c, t);
  }

  // the other outcomes of a pass that free nothing

  lemma RequeueKeeps(s: State)
    requires Inv(s) && s.queue != []
    ensures Inv(s.(queue := s.queue[1..] + [s.queue[0]]))
  {
    hide Listed, Loops, Waits, Families;
    var queue := s.queue[1..] + [s.queue[0]];
    assert s.queue == [s.queue[0]] + s.queue[1..];
    assert forall t :: t in queue <==> t in s.queue;
  }

  lemma DropLoopThreadKeeps(s: State)
    requires Inv(s) && s.queue != [] && s.queue[0] in s.threads && s.threads[s.queue[0]].state == SchedulerLoop
    ensures Inv(s.(queue := s.queue[1..]))
  {
    hide Listed, Loops, Waits, Families;
    assert s.queue == [s.queue[0]] + s.queue[1..];
  }

  // sched_thread_notify_one

  lemma FindInListFinds(threads: Threads, list: seq<Tid>, cond: Cond)
    ensures match FindInList(threads, list, cond)
            case Some(t) => t in list && t in threads && threads[t].cond == Some(cond) && threads[t].state == Blocked
            case None =>
              forall t :: t in list && t in threads && threads[t].cond == Some(cond) ==> threads[t].state != Blocked
  {
    if list != [] {
      assert list == [list[0]] + list[1..];
      FindInListFinds(threads, list[1..], cond);
    }
  }

  /** A notify finds a thread exactly when some thread is blocked on the condition. */
  lemma {:induction false} FindBlockedFinds(s: State, processes: seq<Pid>, cond: Cond)
    requires Listed(s.processes, s.procs, s.threads)
    ensures match FindBlocked(s, processes, cond)
            case Some(t) => t in s.threads && s.threads[t].cond == Some(cond) && s.threads[t].state == Blocked
            case None =>
              forall t :: t in s.threads && s.threads[t].proc in processes && s.threads[t].cond == Some(cond) ==>
                                       s.threads[t].state != Blocked
  {
    if processes != [] {
      var p := processes[0];
      assert processes == [p] + processes[1..];
      FindBlockedFinds(s, processes[1..], cond);
      if p in s.procs {
        FindInListFinds(s.threads, s.procs[p].threads, cond);
      }
      forall t | t in s.threads && s.threads[t].proc == p ensures p in s.procs && t in s.procs[p].threads {
        assert ThreadListed(s.procs, s.threads[t], t);
      }
    }
  }

  lemma WakePlaced(queue: seq<Tid>, threads: Threads, current: Current, t: Tid, th: Thread)
    requires Placed(queue, threads, current) && t in threads
    requires Home(threads[t].state) == Parked && Home(th.state) == InQueue
    ensures Placed([t] + queue, threads[t := th], current)
    ensures Placed(queue + [t], threads[t := th], current)
  {
    assert t !in queue;
    assert forall u :: u in [t] + queue <==> u == t || u in queue;
    assert forall u :: u in queue + [t] <==> u == t || u in queue;
  }

  /** A notify wakes one blocked waiter and puts it at the head of the queue, or finds that there
      is none and changes nothing. */
  lemma NotifyKeeps(s: State, cond: Cond)
    requires Inv(s)
    ensures Inv(NotifyOne(s, cond))
    ensures (exists t :: t in s.threads && s.threads[t].cond == Some(cond) && s.threads[t].state == Blocked) ==>
              var s' := NotifyOne(s, cond);
              && s'.queue != [] && s'.queue[1..] == s.queue
              && s'.queue[0] in s.threads && s.threads[s'.queue[0]].state == Blocked
              && s'.threads == s.threads[s'.queue[0] := s.threads[s'.queue[0]].(state := Ready)]
    ensures !(exists t :: t in s.threads && s.threads[t].cond == Some(cond) && s.threads[t].state == Blocked) ==>
              NotifyOne(s, cond) == s
  {
    hide Placed, Loops, Waits, Families, HasDefunctChild;
    FindBlockedFinds(s, s.processes, cond);
    assert forall t :: t in s.threads ==> s.threads[t].proc in s.processes by { AllListed(s); }
    hide Listed;
    match FindBlocked(s, s.processes, cond)
    case None =>
    case Some(t) =>
      var th := s.threads[t].(state := Ready);
      WakePlaced(s.queue, s.threads, s.current, t, th);
      SetListed(s.processes, s.procs, s.threads, t, th);
      SetFamilies(s.procs, s.threads, t, th);
      SetLoops(s.loops, s.threads, s.current, t, th);
      assert Carried(s.procs, th) by { CarriedBlocked(s, t); }
      SetWaits(s.procs, s.threads, s.returned, t, th);
  }

  lemma AllListed(s: State)
    requires Listed(s.processes, s.procs, s.threads)
    ensures forall t :: t in s.threads ==> s.threads[t].proc in s.processes
  {
    forall t | t in s.threads ensures s.threads[t].proc in s.processes {
      assert ThreadListed(s.procs, s.threads[t], t);
    }
  }

  lemma CarriedBlocked(s: State, t: Tid)
    requires Waits(s.procs, s.threads, s.returned) && t in s.threads && s.threads[t].state == Blocked
    ensures Carried(s.procs, s.threads[t].(state := Ready))
  {
    assert Carried(s.procs, s.threads[t]);
  }

  // One process object changes, but not its thread list.

  lemma ProcListedFrame(processes: seq<Pid>, procs: Procs, threads: Threads, p: Pid, proc: Proc)
    requires Listed(processes, procs, threads) && p in procs && proc.threads == procs[p].threads
    ensures Listed(processes, procs[p := proc], threads)
  {
    forall t | t in threads ensures ThreadListed(procs[p := proc], threads[t], t) {
      assert ThreadListed(procs, threads[t], t);
    }
  }

  lemma ProcWaitsFrame(procs: Procs, procs': Procs, threads: Threads, returned: seq<Collected>)
    requires Waits(procs, threads, returned)
    requires forall p :: p in procs && procs[p].state == Truncate ==> p in procs' && procs'[p] == procs[p]
    ensures Waits(procs', threads, returned)
  {
    forall t | t in threads ensures Carried(procs', threads[t]) {
      assert Carried(procs, threads[t]);
    }
  }

  /** Marking `p` as `proc` keeps the families whole. */
  lemma MarkFamilies(procs: Procs, threads: Threads, p: Pid, proc: Proc, dying: Option<Pid>)
    requires Families(procs, threads, dying) && p in procs
    requires dying == None || dying == Some(p)
    requires proc.parent == procs[p].parent && proc.threads == procs[p].threads
    requires if p == PID_KERNEL then !Gone(proc.state) else proc.threads == [] <==> Gone(proc.state)
    requires proc.state == Defunct ==>
               && proc.parent != PID_KERNEL
               && forall t :: t in threads && threads[t].proc == proc.parent ==> threads[t].state != Waiting
    ensures Families(procs[p := proc], threads, None)
  {
    var procs' := procs[p := proc];
    forall q | q in procs' ensures Kept(procs', q, None) {
      assert Kept(procs, q, dying);
    }
    forall t | t in threads && threads[t].state == Waiting ensures !HasDefunctChild(procs', threads[t].proc) {
      assert !HasDefunctChild(procs, threads[t].proc);
      forall q | q in procs' && procs'[q].state == Defunct ensures procs'[q].parent != threads[t].proc {
        assert q == p || procs'[q] == procs[q];
      }
    }
  }

  lemma MarkKeeps(s: State, p: Pid, proc: Proc, dying: Option<Pid>)
    requires InvBut(s, dying) && p in s.procs && s.procs[p].state != Truncate
    requires dying == None || dying == Some(p)
    requires proc.parent == s.procs[p].parent && proc.threads == s.procs[p].threads
    requires if p == PID_KERNEL then !Gone(proc.state) else proc.threads == [] <==> Gone(proc.state)
    requires proc.state == Defunct ==>
               && proc.parent != PID_KERNEL
               && forall t :: t in s.threads && s.threads[t].proc == proc.parent ==> s.threads[t].state != Waiting
    ensures Inv(s.(procs := s.procs[p := proc]))
  {
    hide Placed, Listed, Loops, Waits, Families;
    ProcListedFrame(s.processes, s.procs, s.threads, p, proc);
    MarkFamilies(s.procs, s.threads, p, proc, dying);
    ProcWaitsFrame(s.procs, s.procs[p := proc], s.threads, s.returned);
  }

  // proc_wait

  lemma FindDefunctChildFinds(procs: Procs, processes: seq<Pid>, parent: Pid)
    requires forall p :: p in processes ==> p in procs
    ensures match FindDefunctChild(procs, processes, parent)
            case Some(p) => p in processes && procs[p].parent == parent && procs[p].state == Defunct
            case None => forall p :: p in processes && procs[p].parent == parent ==> procs[p].state != Defunct
  {
    if processes != [] {
      assert processes == [processes[0]] + processes[1..];
      FindDefunctChildFinds(procs, processes[1..], parent);
    }
  }

  lemma ReturnKeeps(s: State, r: Collected)
    requires Inv(s) && Reaped(s.procs, r)
    ensures Inv(s.(returned := s.returned + [r]))
  {
    hide Placed, Listed, Loops, Families, Carried;
  }

  lemma CurrentRuns(s: State, c: Cpu)
    requires Inv(s) && c in s.current
    ensures s.current[c] in s.threads && s.threads[s.current[c]].state == Running
    ensures Carried(s.procs, s.threads[s.current[c]])
    ensures ThreadListed(s.procs, s.threads[s.current[c]], s.current[c])
    ensures forall p :: p in s.processes <==> p in s.procs
  {
    hide Loops, Carried, Families;
  }

  lemma WaitForChildKeeps(s: State, c: Cpu)
    requires Inv(s) && c in s.current && s.current[c] in s.threads
    ensures Inv(WaitForChild(s, c))
  {
    hide Placed, Listed, Loops, Waits, Families;
    CurrentRuns(s, c);
    var th := s.threads[s.current[c]];
    FindDefunctChildFinds(s.procs, s.processes, th.proc);
    hide FindDefunctChild, Carried, Reschedule, CollectProcess;
    match FindDefunctChild(s.procs, s.processes, th.proc)
    case Some(child) => CollectChildKeeps(s, th.proc, child);
    case None => SleepKeeps(s, c);
  }

  lemma CollectChildKeeps(s: State, caller: Pid, child: Pid)
    requires Inv(s) && child in s.procs && s.procs[child].parent == caller && s.procs[child].state == Defunct
    ensures Inv(CollectProcess(s, child).(returned := s.returned + [Collected(caller, child, s.procs[child].exitStatus)]))
  {
    hide Placed, Listed, Loops, Waits, Families;
    KeptProcess(s, child);
    MarkKeeps(s, child, s.procs[child].(state := Truncate), None);
    ReturnKeeps(CollectProcess(s, child), Collected(caller, child, s.procs[child].exitStatus));
  }

  lemma SleepKeeps(s: State, c: Cpu)
    requires Inv(s) && c in s.current && s.current[c] in s.threads
    requires !HasDefunctChild(s.procs, s.threads[s.current[c]].proc)
    ensures Inv(Reschedule(s, c, s.threads[s.current[c]].(state := Waiting, resume := FromProcWait)))
  {
    hide Placed, Listed, Loops, Waits, Families, HasDefunctChild;
    CurrentRuns(s, c);
    RescheduleKeeps(s, c, s.threads[s.current[c]].(state := Waiting, resume := FromProcWait));
  }

  // proc_exit

  lemma ExitProcessKeeps(s: State, c: Cpu, status: int)
    requires Inv(s) && c in s.current && s.current[c] in s.threads && s.threads[s.current[c]].proc in s.procs
    ensures Inv(ExitProcess(s, c, status))
  {
    hide Placed, Listed, Loops, Waits, Families;
    CurrentRuns(s, c);
    var th := s.threads[s.current[c]];
    KeptProcess(s, th.proc);
    var proc := s.procs[th.proc].(state := Exiting, exitStatus := status);
    MarkKeeps(s, th.proc, proc, None);
    RescheduleKeeps(s.(procs := s.procs[th.proc := proc]), c, th.(state := Exited));
  }

  lemma KeptProcess(s: State, p: Pid)
    requires Inv(s) && p in s.procs
    ensures Kept(s.procs, p, None)
  {
    hide Placed, Listed, Loops, Waits;
  }

  lemma ListedThread(s: State, t: Tid)
    requires Inv(s) && t in s.threads
    ensures ThreadListed(s.procs, s.threads[t], t)
  {
    hide Placed, Families, Loops, Waits;
  }

  // insert_thread: into the kernel process, or as the first thread of a new process

  lemma InsertPlaced(queue: seq<Tid>, threads: Threads, current: Current, t: Tid, th: Thread)
    requires Placed(queue, threads, current) && t !in threads
    requires Home(th.state) == InQueue || Home(th.state) == LoopThread
    ensures Placed(queue + [t], threads[t := th], current)
  {
    assert t !in queue;
    assert forall u :: u in queue + [t] <==> u == t || u in queue;
  }

  lemma InsertListed(processes: seq<Pid>, procs: Procs, threads: Threads, processes': seq<Pid>, p: Pid, proc: Proc,
                     t: Tid, th: Thread)
    requires Listed(processes, procs, threads) && t !in threads && th.proc == p
    requires p in procs ==> processes' == processes && proc.threads == [t] + procs[p].threads
    requires p !in procs ==> processes' == [p] + processes && proc.threads == [t]
    ensures Listed(processes', procs[p := proc], threads[t := th])
  {
    var procs', threads' := procs[p := proc], threads[t := th];
    forall u | u in threads' ensures ThreadListed(procs', threads'[u], u) {
      if u != t { assert ThreadListed(procs, threads[u], u); }
    }
    forall q | q in procs' ensures ProcListed(threads', procs'[q].threads, q) {
      if q in procs {
        assert ProcListed(threads, procs[q].threads, q);
        assert t !in procs[q].threads;
      }
    }
  }

  lemma InsertFamilies(procs: Procs, threads: Threads, p: Pid, proc: Proc, t: Tid, th: Thread)
    requires Families(procs, threads, None) && proc.state == Runnable && th.state != Waiting && proc.threads != []
    requires p in procs ==> p == PID_KERNEL && proc.parent == procs[p].parent
    requires p !in procs ==> proc.parent in procs
    ensures Families(procs[p := proc], threads[t := th], None)
  {
    var procs' := procs[p := proc];
    forall q | q in procs' ensures Kept(procs', q, None) {
      if q in procs { assert Kept(procs, q, None); }
    }
    forall q | !HasDefunctChild(procs, q) ensures !HasDefunctChild(procs', q) {
      forall r | r in procs' && procs'[r].state == Defunct ensures procs'[r].parent != q {
        assert procs'[r] == procs[r];
      }
    }
  }

  lemma InsertKeeps(s: State, processes: seq<Pid>, p: Pid, proc: Proc, t: Tid, th: Thread)
    requires Inv(s) && t !in s.threads && th.proc == p && Carried(s.procs[p := proc], th)
    requires th.state == Ready || th.state == SchedulerLoop
    requires p in s.procs ==>
               p == PID_KERNEL && processes == s.processes && proc.threads == [t] + s.procs[p].threads && proc.parent == s.procs[p].parent
    requires p !in s.procs ==> processes == [p] + s.processes && proc.threads == [t] && proc.parent in s.procs
    requires proc.state == Runnable
    ensures Inv(s.(processes := processes, procs := s.procs[p := proc], threads := s.threads[t := th], queue := s.queue + [t]))
  {
    hide Placed, Listed, Loops, Waits, Families, Carried;
    if p in s.procs { KeptProcess(s, p); }
    InsertPlaced(s.queue, s.threads, s.current, t, th);
    InsertListed(s.processes, s.procs, s.threads, processes, p, proc, t, th);
    InsertFamilies(s.procs, s.threads, p, proc, t, th);
    SetLoops(s.loops, s.threads, s.current, t, th);
    ProcWaitsFrame(s.procs, s.procs[p := proc], s.threads, s.returned);
    SetWaits(s.procs[p := proc], s.threads, s.returned, t, th);
  }

  lemma EnterLoopKeeps(s: State, c: Cpu, t: Tid)
    requires Inv(s) && t in s.threads && s.threads[t].state == SchedulerLoop && s.threads[t].proc == PID_KERNEL
    ensures Inv(s.(loops := s.loops[c := t]))
  {
    hide Placed, Listed, Waits, Families;
  }

  // destroy_thread

  lemma RemovePlaced(queue: seq<Tid>, threads: Threads, current: Current)
    requires Placed(queue, threads, current) && queue != []
    ensures Placed(queue[1..], threads - {queue[0]}, current)
  {
    assert queue == [queue[0]] + queue[1..];
  }

  lemma RemoveListed(processes: seq<Pid>, procs: Procs, threads: Threads, t: Tid, proc: Proc)
    requires Listed(processes, procs, threads) && t in threads && threads[t].proc in procs
    requires proc.threads == Without(procs[threads[t].proc].threads, t)
    ensures Listed(processes, procs[threads[t].proc := proc], threads - {t})
  {
    var p := threads[t].proc;
    var procs', threads' := procs[p := proc], threads - {t};
    forall u | u in threads' ensures ThreadListed(procs', threads'[u], u) {
      assert ThreadListed(procs, threads[u], u);
    }
    forall q | q in procs' ensures ProcListed(threads', procs'[q].threads, q) {
      assert ProcListed(threads, procs[q].threads, q);
    }
  }

  lemma RemoveFamilies(procs: Procs, threads: Threads, t: Tid, p: Pid, proc: Proc)
    requires Families(procs, threads, None) && t in threads && p in procs && procs[p].threads != []
    requires proc == procs[p].(threads := proc.threads)
    requires p == PID_KERNEL ==> proc.threads != []
    ensures Families(procs[p := proc], threads - {t}, if proc.threads == [] then Some(p) else None)
  {
    var procs' := procs[p := proc];
    forall q | q in procs' ensures Kept(procs', q, if proc.threads == [] then Some(p) else None) {
      assert Kept(procs, q, None);
    }
    forall q | !HasDefunctChild(procs, q) ensures !HasDefunctChild(procs', q) {
      forall r | r in procs' && procs'[r].state == Defunct ensures procs'[r].parent != q {
        assert procs'[r].state == procs[r].state && procs'[r].parent == procs[r].parent;
      }
    }
  }

  /** A CPU that runs destroy_thread has its scheduler thread in the kernel process, so taking an
      exited thread out never leaves that process empty. */
  lemma KernelNeverEmpty(s: State, c: Cpu, t: Tid)
    requires Inv(s) && c in s.loops && t in s.threads && s.threads[t].state != SchedulerLoop
    ensures PID_KERNEL in s.procs && Without(s.procs[PID_KERNEL].threads, t) != []
  {
    hide Placed, Waits, HasDefunctChild;
    assert ThreadListed(s.procs, s.threads[s.loops[c]], s.loops[c]);
    assert s.loops[c] in Without(s.procs[PID_KERNEL].threads, t);
  }

  lemma RemoveRest(s: State, t: Tid, p: Pid, proc: Proc)
    requires Loops(s.loops, s.threads, s.current) && Waits(s.procs, s.threads, s.returned)
    requires t in s.threads && s.threads[t].state == Exited && p in s.procs && s.procs[p].state != Truncate
    ensures Loops(s.loops, s.threads - {t}, s.current) && Waits(s.procs[p := proc], s.threads - {t}, s.returned)
  {
    hide Loops, Waits;
    RemoveLoops(s.loops, s.threads, s.current, t);
    ProcWaitsFrame(s.procs, s.procs[p := proc], s.threads, s.returned);
    RemoveWaits(s.procs[p := proc], s.threads, s.returned, t);
  }

  lemma RemoveKeeps(s: State, c: Cpu, t: Tid, p: Pid, proc: Proc)
    requires Inv(s) && c in s.loops && s.queue != [] && t == s.queue[0]
    requires t in s.threads && s.threads[t].state == Exited && p == s.threads[t].proc && p in s.procs
    requires proc == s.procs[p].(threads := Without(s.procs[p].threads, t))
    ensures InvBut(s.(queue := s.queue[1..], procs := s.procs[p := proc], threads := s.threads - {t}),
                   if proc.threads == [] then Some(p) else None)
  {
    hide Placed, Listed, Loops, Waits, Families, Without;
    KeptProcess(s, p);
    ListedThread(s, t);
    KernelNeverEmpty(s, c, t);
    RemovePlaced(s.queue, s.threads, s.current);
    RemoveListed(s.processes, s.procs, s.threads, t, proc);
    RemoveFamilies(s.procs, s.threads, t, p, proc);
    RemoveRest(s, t, p, proc);
  }

  lemma RemoveLoops(loops: map<Cpu, Tid>, threads: Threads, current: Current, t: Tid)
    requires Loops(loops, threads, current) && t in threads && threads[t].state != SchedulerLoop
    ensures Loops(loops, threads - {t}, current)
  {
  }

  lemma RemoveWaits(procs: Procs, threads: Threads, returned: seq<Collected>, t: Tid)
    requires Waits(procs, threads, returned)
    ensures Waits(procs, threads - {t}, returned)
  {
  }

  // make_process_defunct

  lemma WakeAllPlaced(queue: seq<Tid>, threads: Threads, current: Current, ws: seq<Tid>, pid: Pid, status: int)
    requires Placed(queue, threads, current) && NoDup(ws)
    requires forall t :: t in ws ==> t in threads && threads[t].state == Waiting
    ensures Placed(queue + ws, Wake(threads, ws, pid, status), current)
  {
    assert forall u :: u in queue + ws <==> u in queue || u in ws;
    forall i, j | 0 <= i < j < |queue + ws| ensures (queue + ws)[i] != (queue + ws)[j] {
      if i < |queue| <= j {
        assert (queue + ws)[i] in queue && (queue + ws)[j] in ws;
      }
    }
  }

  lemma WakeAllRest(s: State, ws: seq<Tid>, pid: Pid, status: int)
    requires forall t :: t in ws ==> t in s.threads && s.threads[t].state == Waiting
    requires forall t :: t in ws ==> Reaped(s.procs, Collected(s.threads[t].proc, pid, status))
    ensures Listed(s.processes, s.procs, s.threads) ==> Listed(s.processes, s.procs, Wake(s.threads, ws, pid, status))
    ensures Loops(s.loops, s.threads, s.current) ==> Loops(s.loops, Wake(s.threads, ws, pid, status), s.current)
    ensures Waits(s.procs, s.threads, s.returned) ==> Waits(s.procs, Wake(s.threads, ws, pid, status), s.returned)
    ensures Families(s.procs, s.threads, None) ==> Families(s.procs, Wake(s.threads, ws, pid, status), None)
  {
    var threads' := Wake(s.threads, ws, pid, status);
    if Listed(s.processes, s.procs, s.threads) {
      hide Loops, Waits, Families, Carried, Reaped;
      forall p | p in s.procs ensures ProcListed(threads', s.procs[p].threads, p) {
        assert ProcListed(s.threads, s.procs[p].threads, p);
      }
      forall t | t in threads' ensures ThreadListed(s.procs, threads'[t], t) {
        assert ThreadListed(s.procs, s.threads[t], t);
      }
    }
    hide Listed;
    if Waits(s.procs, s.threads, s.returned) {
      hide Loops, Families;
      forall t | t in threads' ensures Carried(s.procs, threads'[t]) {
        assert Carried(s.procs, s.threads[t]);
      }
    }
  }

  lemma MakeProcessDefunctKeeps(s: State, p: Pid)
    requires InvBut(s, Some(p)) && p in s.procs
    ensures Inv(MakeProcessDefunct(s, p))
  {
    hide Placed, Listed, Loops, Waits, Families;
    var proc := s.procs[p];
    DyingProcess(s, p);
    var s' := MakeProcessDefunct(s, p);
    var ws := Waiters(s.threads, s.procs[proc.parent].threads);
    if proc.parent != PID_KERNEL && ws == [] {
      MarkKeeps(s, p, proc.(state := Defunct), Some(p));
    } else {
      var s1 := s.(procs := s.procs[p := proc.(state := Truncate)]);
      MarkKeeps(s, p, proc.(state := Truncate), Some(p));
      if proc.parent == PID_KERNEL {
        assert s'.procs == s1.procs;
      } else {
        WakeAllPlaced(s1.queue, s1.threads, s1.current, ws, p, proc.exitStatus);
        WakeAllRest(s1, ws, p, proc.exitStatus);
        assert s'.procs == s1.procs;
      }
    }
  }

  lemma DyingProcess(s: State, p: Pid)
    requires InvBut(s, Some(p)) && p in s.procs
    ensures p != PID_KERNEL && s.procs[p].threads == [] && !Gone(s.procs[p].state) && s.procs[p].parent in s.procs
    ensures forall t :: t in s.threads && s.threads[t].proc == s.procs[p].parent ==>
              t in s.procs[s.procs[p].parent].threads
    ensures NoDup(Waiters(s.threads, s.procs[s.procs[p].parent].threads))
    ensures forall t :: t in s.procs[s.procs[p].parent].threads ==>
              t in s.threads && s.threads[t].proc == s.procs[p].parent
  {
    hide Placed, Loops, Waits, HasDefunctChild;
    assert Kept(s.procs, p, Some(p));
    var parent := s.procs[p].parent;
    assert ProcListed(s.threads, s.procs[parent].threads, parent);
    forall t | t in s.threads && s.threads[t].proc == parent ensures t in s.procs[parent].threads {
      assert ThreadListed(s.procs, s.threads[t], t);
    }
  }

  // Every step, and every run.

  lemma InvClosed(s: State)
    requires Inv(s)
    ensures Closed(s)
  {
    hide Placed, Listed, Families, Loops, Waits;
    PlacedLive(s.queue, s.threads, s.current);
    ListedLive(s.processes, s.procs, s.threads);
    KernelListed(s.procs, s.threads);
  }

  lemma PlacedLive(queue: seq<Tid>, threads: Threads, current: Current)
    requires Placed(queue, threads, current)
    ensures forall i :: 0 <= i < |queue| ==> queue[i] in threads
    ensures forall c :: c in current ==> current[c] in threads
  {
  }

  lemma ListedLive(processes: seq<Pid>, procs: Procs, threads: Threads)
    requires Listed(processes, procs, threads)
    ensures forall t :: t in threads ==> threads[t].proc in procs
  {
    forall t | t in threads ensures threads[t].proc in procs {
      assert ThreadListed(procs, threads[t], t);
    }
  }

  lemma KernelListed(procs: Procs, threads: Threads)
    requires Families(procs, threads, None)
    ensures PID_KERNEL in procs
  {
  }

  lemma QueueHead(s: State)
    requires Inv(s) && s.queue != []
    ensures s.queue[0] in s.threads
    ensures Home(s.threads[s.queue[0]].state) == InQueue || Home(s.threads[s.queue[0]].state) == LoopThread
  {
    hide Listed, Families, Loops, Waits;
  }

  lemma PassKeeps(s: State, c: Cpu, now: nat)
    requires Inv(s) && c in s.loops && c !in s.current
    requires s.queue != [] ==> s.queue[0] in s.threads && s.threads[s.queue[0]].proc in s.procs
    ensures Inv(Pass(s, c, now))
  {
    hide Placed, Listed, Loops, Waits, Families, Dispatch, MakeProcessDefunct;
    if s.queue != [] {
      QueueHead(s);
      var t := s.queue[0];
      match s.threads[t].state
      case Ready => DispatchKeeps(s, c, t);
      case Sleeping =>
        if s.threads[t].sleepUntil < now { DispatchKeeps(s, c, t); } else { RequeueKeeps(s); }
      case Exited =>
        var p := s.threads[t].proc;
        var proc := s.procs[p].(threads := Without(s.procs[p].threads, t));
        RemoveKeeps(s, c, t, p, proc);
        if proc.threads == [] {
          MakeProcessDefunctKeeps(
            s.(queue := s.queue[1..], procs := s.procs[p := proc], threads := s.threads - {t}), p);
        }
      case _ => DropLoopThreadKeeps(s);
    }
  }

  lemma InsertStepsKeep(s: State, step: Step)
    requires Inv(s) && Closed(s) && Enabled(s, step)
    requires step.EnterScheduler? || step.ScheduleProc? || step.ScheduleKernelThread?
    ensures Inv(Apply(s, step))
  {
    hide Placed, Listed, Loops, Waits, Families;
    match step
    case EnterScheduler(c, t) =>
      var kernel := s.procs[PID_KERNEL];
      var proc := Proc(kernel.parent, Runnable, -ENOSTATUS, [t] + kernel.threads);
      var th := Thread(PID_KERNEL, SchedulerLoop, Plain, None, 0, 0, 0);
      InsertKeeps(s, s.processes, PID_KERNEL, proc, t, th);
      var s1 := s.(procs := s.procs[PID_KERNEL := proc], threads := s.threads[t := th], queue := s.queue + [t]);
      EnterLoopKeeps(s1, c, t);
      assert Apply(s, step).threads == s1.threads;
    case ScheduleProc(parent, pid, t) =>
      var proc := Proc(if parent.Some? then parent.value else PID_KERNEL, Runnable, -ENOSTATUS, [t]);
      var th := Thread(pid, Ready, Plain, None, 0, 0, 0);
      InsertKeeps(s, [pid] + s.processes, pid, proc, t, th);
      assert [t] + [] == [t];
      assert Apply(s, step).procs == s.procs[pid := proc];
    case ScheduleKernelThread(t) =>
      var kernel := s.procs[PID_KERNEL];
      var proc := Proc(kernel.parent, Runnable, -ENOSTATUS, [t] + kernel.threads);
      InsertKeeps(s, s.processes, PID_KERNEL, proc, t, Thread(PID_KERNEL, Ready, Plain, None, 0, 0, 0));
  }

  /** A thread that leaves its CPU by itself: yield, exit, sleep, wait on a condition. */
  lemma LeaveKeeps(s: State, c: Cpu, th: Thread)
    requires Inv(s) && c in s.current && s.current[c] in s.threads
    requires th.proc == s.threads[s.current[c]].proc && th.state != Waiting
    requires Home(th.state) == InQueue || Home(th.state) == Parked
    requires if th.state == Blocked then th.resume == FromCondWait && th.cond.Some?
             else th.resume == s.threads[s.current[c]].resume && th.cond == s.threads[s.current[c]].cond
    ensures Inv(Reschedule(s, c, th))
  {
    hide Placed, Listed, Loops, Waits, Families, Reschedule, HasDefunctChild;
    CurrentRuns(s, c);
    RescheduleKeeps(s, c, th);
  }

  lemma ApplyKeeps(s: State, step: Step)
    requires Inv(s) && Closed(s) && Enabled(s, step)
    ensures Inv(Apply(s, step))
  {
    hide Inv, Pass, NotifyOne, ExitProcess, WaitForChild, Reschedule;
    match step
    case SchedulerPass(c, now) => PassKeeps(s, c, now);
    case Notify(cond) => NotifyKeeps(s, cond);
    case ProcExit(c, status) => ExitProcessKeeps(s, c, status);
    case ProcWait(c) => WaitForChildKeeps(s, c);
    case ThreadYield(c) => LeaveKeeps(s, c, s.threads[s.current[c]].(state := Ready));
    case ThreadExit(c) => LeaveKeeps(s, c, s.threads[s.current[c]].(state := Exited));
    case ThreadSleep(c, milliseconds, now) =>
      LeaveKeeps(s, c, s.threads[s.current[c]].(
        state := Sleeping, sleepUntil := now + milliseconds * TICKS_PER_MILLISECOND % WORDS));
    case CondWait(c, cond) =>
      LeaveKeeps(s, c, s.threads[s.current[c]].(state := Blocked, resume := FromCondWait, cond := Some(cond)));
    case _ => InsertStepsKeep(s, step);
  }
}
