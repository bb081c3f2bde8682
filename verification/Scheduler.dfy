/** The code of kernel/arch/i386/scheduler.c between an acquire and a release of
    `global_scheduler_lock`, over the intrusive run queue, and its proof against SchedulerSpec. */
module SchedulerCode {
  import opened Base
  import opened SchedulerSpec
  import opened SchedulerProofs
  import opened IntrusiveLists

  lemma {:induction false} WaitersSnoc(threads: Threads, list: seq<Tid>, t: Tid)
    ensures Waiters(threads, list + [t]) ==
            Waiters(threads, list) + if t in threads && threads[t].state == Waiting then [t] else []
  {
    if list == [] {
      assert list + [t] == [t];
    } else {
      assert (list + [t])[1..] == list[1..] + [t];
      WaitersSnoc(threads, list[1..], t);
    }
  }

  lemma WakeSnoc(threads: Threads, ws: seq<Tid>, t: Tid, pid: Pid, status: int)
    requires t in threads && t !in ws
    ensures Wake(threads, ws + [t], pid, status) ==
            Wake(threads, ws, pid, status)[t := threads[t].(state := Ready, collectedPid := pid, collectedStatus := status)]
  {
    assert forall u :: u in ws + [t] <==> u in ws || u == t;
  }

  /** One turn of the loop that wakes the waiters of `list`. */
  lemma WakeTurn(threads: Threads, list: seq<Tid>, i: nat, pid: Pid, status: int)
    requires NoDup(list) && i < |list| && list[i] in threads
    ensures var ws, t := Waiters(threads, list[..i]), list[i];
            && t !in ws
            && t in Wake(threads, ws, pid, status) && Wake(threads, ws, pid, status)[t] == threads[t]
            && (threads[t].state != Waiting ==> Waiters(threads, list[..i + 1]) == ws)
            && (threads[t].state == Waiting ==>
                  && Waiters(threads, list[..i + 1]) == ws + [t]
                  && Wake(threads, ws + [t], pid, status) ==
                     Wake(threads, ws, pid, status)[t := threads[t].(state := Ready, collectedPid := pid, collectedStatus := status)])
  {
    var t := list[i];
    assert list[..i + 1] == list[..i] + [t] && t !in list[..i];
    WaitersSnoc(threads, list[..i], t);
    if threads[t].state == Waiting {
      WakeSnoc(threads, Waiters(threads, list[..i]), t, pid, status);
    }
  }

  lemma WakeNone(threads: Threads, pid: Pid, status: int)
    ensures Wake(threads, [], pid, status) == threads && Waiters(threads, []) == []
  {
  }

  /** The process whose thread is current on `c`. */
  ghost function Caller(s: State, c: Cpu): Pid {
    if c in s.current && s.current[c] in s.threads then s.threads[s.current[c]].proc else PID_KERNEL
  }

  class Scheduler {
    var procs: map<Pid, Proc>
    var threads: map<Tid, Thread>
    var current: map<Cpu, Tid>
    var loops: map<Cpu, Tid>
    var returned: seq<Collected>
    const queue: TailQueue
    const processes: LinkedList

    ghost function Abs(): State
      reads this, queue, processes
    {
      State(processes.contents, procs, threads, queue.contents, current, loops, returned)
    }

    ghost predicate Valid()
      reads this, queue, processes
    {
      queue.Valid() && processes.Valid() && Inv(Abs())
    }

    // init_global_scheduler
    constructor ()
      ensures Valid() && fresh(queue) && fresh(processes) && Abs() == Initial()
    {
      procs := map[PID_KERNEL := Proc(PID_KERNEL, New, 0, [])];
      threads := map[];
      current := map[];
      loops := map[];
      returned := [];
      queue := new TailQueue();
      processes := new LinkedList();
      new;
      processes.InsertHead(PID_KERNEL);
      InitialInv();
    }

    method InsertThread(p: Pid, t: Tid)
      requires queue.Valid() && t !in queue.contents && p in procs
      modifies this, queue
      ensures queue.Valid() && Abs() == SchedulerSpec.InsertThread(old(Abs()), p, t)
    {
      procs := procs[p := procs[p].(threads := [t] + procs[p].threads)];
      threads := threads[t := Thread(p, Ready, Plain, None, 0, 0, 0)];
      procs := procs[p := procs[p].(state := Runnable)];
      procs := procs[p := procs[p].(exitStatus := -ENOSTATUS)];
      queue.InsertTail(t);
    }

    method CollectProcess(p: Pid)
      requires p in procs
      modifies this
      ensures Abs() == SchedulerSpec.CollectProcess(old(Abs()), p)
    {
      procs := procs[p := procs[p].(state := Truncate)];
    }

    /** The inner loop of make_process_defunct, over the threads of the parent. */
    method WakeWaiters(list: seq<Tid>, p: Pid) returns (collected: bool)
      requires queue.Valid() && p in procs && NoDup(list)
      requires forall t :: t in list ==> t in threads
      requires forall t :: t in list && threads[t].state == Waiting ==> t !in queue.contents
      modifies this`threads, queue
      ensures queue.Valid()
      ensures var ws := Waiters(old(threads), list);
              && threads == Wake(old(threads), ws, p, procs[p].exitStatus)
              && queue.contents == old(queue.contents) + ws
              && (collected <==> ws != [])
    {
      hide TailQueue.Valid, LinkedList.Valid, Wake, Waiters, NoDup;
      ghost var threads0, queue0, status := threads, queue.contents, procs[p].exitStatus;
      ghost var ws := [];
      collected := false;
      var i := 0;
      WakeNone(threads, p, status);
      assert list[..0] == [];
      while i < |list|
        invariant 0 <= i <= |list| && queue.Valid()
        invariant ws == Waiters(threads0, list[..i])
        invariant threads == Wake(threads0, ws, p, status)
        invariant queue.contents == queue0 + ws
        invariant collected <==> ws != []
      {
        var t := list[i];
        WakeTurn(threads0, list, i, p, status);
        if threads[t].state == Waiting {
          threads := threads[t := threads[t].(collectedPid := p, collectedStatus := procs[p].exitStatus, state := Ready)];
          queue.InsertTail(t);
          collected := true;
          ws := ws + [t];
        }
        i := i + 1;
      }
      assert list[..|list|] == list;
    }

    method MakeProcessDefunct(p: Pid)
      requires queue.Valid() && processes.Valid() && InvBut(Abs(), Some(p)) && p in procs
      modifies this, queue
      ensures queue.Valid() && Abs() == SchedulerSpec.MakeProcessDefunct(old(Abs()), p)
    {
      hide Placed, Listed, Families, Loops, Waits, TailQueue.Valid, LinkedList.Valid, Wake;
      ghost var s := Abs();
      DyingProcess(s, p);
      ParentWaiters(s, p);
      procs := procs[p := procs[p].(state := Defunct)];
      if procs[p].parent == PID_KERNEL {
        CollectProcess(p);
        return;
      }
      var collected := false;
      var next := processes.first;
      ghost var i := 0;
      processes.Turn(0);
      ghost var ws := Waiters(s.threads, s.procs[s.procs[p].parent].threads);
      ghost var status := s.procs[p].exitStatus;
      while next.Some?
        invariant 0 <= i <= |processes.contents| && next == processes.At(i) && queue.Valid()
        invariant unchanged(this`current, this`loops, this`returned)
        invariant procs == s.procs[p := s.procs[p].(state := Defunct)]
        invariant if procs[p].parent in processes.contents[..i]
                  then threads == Wake(s.threads, ws, p, status) && queue.contents == s.queue + ws && (collected <==> ws != [])
                  else threads == s.threads && queue.contents == s.queue && !collected
        decreases |processes.contents| - i
      {
        var parent := next.value;
        processes.Turn(i);
        assert processes.contents[..i + 1] == processes.contents[..i] + [parent];
        if parent == procs[p].parent {
          collected := WakeWaiters(procs[parent].threads, p);
        }
        next := processes.next[parent];
        i := i + 1;
      }
      assert processes.contents[..|processes.contents|] == processes.contents;
      if collected {
        CollectProcess(p);
      } else {
        WakeNone(s.threads, p, status);
        assert s.queue + [] == s.queue;
      }
    }

    method DestroyThread(t: Tid, ghost c: Cpu)
      requires queue.Valid() && processes.Valid() && c in loops && t in threads
      requires threads[t].state == Exited && t !in queue.contents
      requires Inv(Abs().(queue := [t] + queue.contents)) && threads[t].proc in procs
      modifies this, queue
      ensures queue.Valid() && Abs() == SchedulerSpec.DestroyThread(old(Abs()), t)
    {
      hide Placed, Listed, Families, Loops, Waits, TailQueue.Valid, LinkedList.Valid;
      ghost var s := Abs().(queue := [t] + queue.contents);
      var p := threads[t].proc;
      assert s.queue[1..] == queue.contents;
      RemoveKeeps(s, c, t, p, s.procs[p].(threads := Without(s.procs[p].threads, t)));
      KernelNeverEmpty(s, c, t);
      procs := procs[p := procs[p].(threads := Without(procs[p].threads, t))];  // LIST_REMOVE
      threads := threads - {t};                                                // thread_free
      if procs[p].threads == [] {
        assert p != PID_KERNEL;  // kassert(proc != &kernel_process)
        MakeProcessDefunct(p);
      }
    }

    method Dispatch(c: Cpu, t: Tid)
      requires t in threads
      modifies this
      ensures Abs() == SchedulerSpec.Dispatch(old(Abs()), c, t)
    {
      current := current[c := t];
      threads := threads[t := threads[t].(state := Running, sleepUntil := 0)];
      // x86_thread_switch: the rest runs in the thread, where it called reschedule
      match threads[t].resume {
        case Plain =>
        case FromCondWait =>
          threads := threads[t := threads[t].(cond := None)];
        case FromProcWait =>
          returned := returned + [Collected(threads[t].proc, threads[t].collectedPid, threads[t].collectedStatus)];
      }
      threads := threads[t := threads[t].(resume := Plain)];
    }

    method SchedulerPass(c: Cpu, now: nat)
      requires Valid() && Enabled(Abs(), Step.SchedulerPass(c, now))
      modifies this, queue
      ensures Valid() && Abs() == Do(old(Abs()), Step.SchedulerPass(c, now))
    {
      hide Inv, Closed, SchedulerSpec.DestroyThread, NoDup, NextLinks;
      ghost var s := Abs();
      InvClosed(s);
      QueueHeadOnce(s);
      PassKeeps(s, c, now);
      if queue.first == None {
        return;
      }
      var t := queue.RemoveHead();
      assert s.queue == [t] + queue.contents;
      hide TailQueue.Valid, LinkedList.Valid;
      if threads[t].state == Exited {
        DestroyThread(t, c);
        return;
      }
      if threads[t].state == Sleeping {
        if threads[t].sleepUntil < now {
          threads := threads[t := threads[t].(state := Ready, sleepUntil := 0)];
        } else {
            queue.InsertTail(t);
          return;
        }
      }
      if threads[t].state == Ready {
        Dispatch(c, t);
        assert Abs().threads == Pass(s, c, now).threads;
      }
    }

    /** The current thread of `c` has set its state and gives up the CPU. */
    method Reschedule(c: Cpu)
      requires queue.Valid() && c in current && current[c] in threads && current[c] !in queue.contents
      requires threads[current[c]].state != Running
      modifies this, queue
      ensures queue.Valid() && Abs() == SchedulerSpec.Reschedule(old(Abs()), c, old(threads[current[c]]))
    {
      hide TailQueue.Valid, LinkedList.Valid;
      var t := current[c];
      if threads[t].state != Blocked && threads[t].state != Waiting {
        queue.InsertTail(t);
      }
      current := current - {c};  // x86_thread_switch: the scheduler loop sets cpu->thread to NULL
      assert threads[t := threads[t]] == threads;
    }

    method ThreadYield(c: Cpu)
      requires Valid() && Enabled(Abs(), Step.ThreadYield(c))
      modifies this, queue
      ensures Valid() && Abs() == Do(old(Abs()), Step.ThreadYield(c))
    {
      hide Inv, TailQueue.Valid, LinkedList.Valid, SchedulerSpec.Reschedule;
      ghost var s := Abs();
      InvClosed(s);
      ApplyKeeps(s, Step.ThreadYield(c));
      CurrentOffQueue(s, c);
      var t := current[c];
      threads := threads[t := threads[t].(state := Ready)];
      assert threads == s.threads[t := threads[t]];
      RescheduleSet(s, c, threads[t]);
      Reschedule(c);
    }

    method ThreadExit(c: Cpu)
      requires Valid() && Enabled(Abs(), Step.ThreadExit(c))
      modifies this, queue
      ensures Valid() && Abs() == Do(old(Abs()), Step.ThreadExit(c))
    {
      hide Inv, TailQueue.Valid, LinkedList.Valid, SchedulerSpec.Reschedule;
      ghost var s := Abs();
      InvClosed(s);
      ApplyKeeps(s, Step.ThreadExit(c));
      CurrentOffQueue(s, c);
      var t := current[c];
      threads := threads[t := threads[t].(state := Exited)];
      assert threads == s.threads[t := threads[t]];
      RescheduleSet(s, c, threads[t]);
      Reschedule(c);
    }

    method ThreadSleep(c: Cpu, milliseconds: nat, now: nat)
      requires Valid() && Enabled(Abs(), Step.ThreadSleep(c, milliseconds, now))
      modifies this, queue
      ensures Valid() && Abs() == Do(old(Abs()), Step.ThreadSleep(c, milliseconds, now))
    {
      hide Inv, TailQueue.Valid, LinkedList.Valid, SchedulerSpec.Reschedule;
      ghost var s := Abs();
      InvClosed(s);
      ApplyKeeps(s, Step.ThreadSleep(c, milliseconds, now));
      CurrentOffQueue(s, c);
      var t := current[c];
      threads := threads[t := threads[t].(state := Sleeping)];
      threads := threads[t := threads[t].(
        sleepUntil := now + milliseconds * TICKS_PER_MILLISECOND % WORDS)];
      assert threads == s.threads[t := threads[t]];
      RescheduleSet(s, c, threads[t]);
      Reschedule(c);
    }

    method CondWait(c: Cpu, cond: Cond)
      requires Valid() && Enabled(Abs(), Step.CondWait(c, cond))
      modifies this, queue
      ensures Valid() && Abs() == Do(old(Abs()), Step.CondWait(c, cond))
    {
      hide Inv, TailQueue.Valid, LinkedList.Valid, SchedulerSpec.Reschedule;
      ghost var s := Abs();
      InvClosed(s);
      ApplyKeeps(s, Step.CondWait(c, cond));
      CurrentOffQueue(s, c);
      var t := current[c];
      threads := threads[t := threads[t].(state := Blocked, cond := Some(cond), resume := FromCondWait)];
      assert threads == s.threads[t := threads[t]];
      RescheduleSet(s, c, threads[t]);
      Reschedule(c);
    }

    method ProcExit(c: Cpu, status: int)
      requires Valid() && Enabled(Abs(), Step.ProcExit(c, status))
      modifies this, queue
      ensures Valid() && Abs() == Do(old(Abs()), Step.ProcExit(c, status))
    {
      hide Inv, TailQueue.Valid, LinkedList.Valid, SchedulerSpec.Reschedule;
      ghost var s := Abs();
      InvClosed(s);
      ApplyKeeps(s, Step.ProcExit(c, status));
      CurrentOffQueue(s, c);
      var t := current[c];
      var p := threads[t].proc;
      procs := procs[p := procs[p].(state := Exiting)];
      procs := procs[p := procs[p].(exitStatus := status)];
      threads := threads[t := threads[t].(state := Exited)];
      assert procs == s.procs[p := s.procs[p].(state := Exiting, exitStatus := status)];
      RescheduleSet(s.(procs := procs), c, threads[t]);
      Reschedule(c);
    }

    method Notify(cond: Cond)
      requires Valid()
      modifies this, queue
      ensures Valid() && Abs() == Do(old(Abs()), Step.Notify(cond))
    {
      hide Inv, Closed, TailQueue.Valid, LinkedList.Valid, FindBlocked, FindInList;
      ghost var s := Abs();
      InvClosed(s);
      NotifyKeeps(s, cond);
      ListsLive(s);
      var next := processes.first;
      ghost var i := 0;
      processes.Turn(0);
      while next.Some?
        invariant 0 <= i <= |s.processes| && next == processes.At(i) && Valid() && Abs() == s
        invariant FindBlocked(s, s.processes, cond) == FindBlocked(s, s.processes[i..], cond)
        decreases |s.processes| - i
      {
        var list := procs[next.value].threads;
        processes.Turn(i);
        BlockedFrom(s, s.processes, i, cond);
        var j := 0;
        while j < |list|
          invariant 0 <= j <= |list| && Valid() && Abs() == s
          invariant FindInList(s.threads, list, cond) == FindInList(s.threads, list[j..], cond)
        {
          var t := list[j];
          InListFrom(s.threads, list, j, cond);
          if threads[t].cond == Some(cond) && threads[t].state == Blocked {
            threads := threads[t := threads[t].(state := Ready)];
            queue.InsertHead(t);
            return;
          }
          j := j + 1;
        }
        InListEnd(s.threads, list, cond);
        next := processes.next[next.value];
        i := i + 1;
      }
      BlockedEnd(s, s.processes, cond);
    }

    method ProcWait(c: Cpu) returns (result: Option<Collected>)
      requires Valid() && Enabled(Abs(), Step.ProcWait(c))
      modifies this, queue
      ensures Valid() && Abs() == Do(old(Abs()), Step.ProcWait(c))
      ensures result.Some? <==> HasDefunctChild(old(procs), Caller(old(Abs()), c))
      ensures result.Some? ==> Reaped(procs, result.value) && result.value.caller == Caller(old(Abs()), c)
    {
      hide Inv, Closed, TailQueue.Valid, LinkedList.Valid, SchedulerSpec.Reschedule, FindDefunctChild;
      ghost var s := Abs();
      InvClosed(s);
      CurrentOffQueue(s, c);
      WaitForChildKeeps(s, c);
      ListsLive(s);
      var t := current[c];
      var parent := threads[t].proc;
      FindDefunctChildFinds(s.procs, s.processes, parent);
      var next := processes.first;
      ghost var i := 0;
      processes.Turn(0);
      while next.Some?
        invariant 0 <= i <= |s.processes| && next == processes.At(i) && Abs() == s && Valid()
        invariant FindDefunctChild(s.procs, s.processes, parent) == FindDefunctChild(s.procs, s.processes[i..], parent)
        decreases |s.processes| - i
      {
        var child := next.value;
        processes.Turn(i);
        ChildFrom(s.procs, s.processes, i, parent);
        if procs[child].parent == parent && procs[child].state == Defunct {
          var r := Collected(parent, child, procs[child].exitStatus);
          CollectProcess(child);
          returned := returned + [r];
          assert child != PID_KERNEL by { KernelKept(s); }
          return Some(r);
        }
        next := processes.next[child];
        i := i + 1;
      }
      ChildEnd(s.procs, s.processes, parent);
      threads := threads[t := threads[t].(state := Waiting, resume := FromProcWait)];
      assert threads == s.threads[t := threads[t]];
      RescheduleSet(s, c, threads[t]);
      Reschedule(c);
      result := None;
    }

    method ScheduleProc(parent: Option<Pid>, pid: Pid, t: Tid)
      requires Valid() && Enabled(Abs(), Step.ScheduleProc(parent, pid, t))
      modifies this, queue, processes
      ensures Valid() && Abs() == Do(old(Abs()), Step.ScheduleProc(parent, pid, t))
    {
      hide Inv, TailQueue.Valid, LinkedList.Valid;
      InvClosed(Abs());
      ApplyKeeps(Abs(), Step.ScheduleProc(parent, pid, t));
      ListsLive(Abs());
      procs := procs[pid := Proc(if parent.Some? then parent.value else PID_KERNEL, New, 0, [])];
      processes.InsertHead(pid);
      InsertThread(pid, t);
    }

    method ScheduleKernelThread(t: Tid)
      requires Valid() && Enabled(Abs(), Step.ScheduleKernelThread(t))
      modifies this, queue
      ensures Valid() && Abs() == Do(old(Abs()), Step.ScheduleKernelThread(t))
    {
      hide Inv, TailQueue.Valid, LinkedList.Valid;
      InvClosed(Abs());
      ApplyKeeps(Abs(), Step.ScheduleKernelThread(t));
      InsertThread(PID_KERNEL, t);
    }

    method EnterScheduler(c: Cpu, t: Tid)
      requires Valid() && Enabled(Abs(), Step.EnterScheduler(c, t))
      modifies this, queue
      ensures Valid() && Abs() == Do(old(Abs()), Step.EnterScheduler(c, t))
    {
      hide Inv, TailQueue.Valid, LinkedList.Valid;
      InvClosed(Abs());
      ApplyKeeps(Abs(), Step.EnterScheduler(c, t));
      loops := loops[c := t];
      InsertThread(PID_KERNEL, t);
      threads := threads[t := threads[t].(state := SchedulerLoop)];
    }
  }

  lemma KernelKept(s: State)
    requires Inv(s)
    ensures PID_KERNEL in s.procs && !Gone(s.procs[PID_KERNEL].state)
  {
    hide Placed, Listed, Loops, Waits, HasDefunctChild;
    assert Kept(s.procs, PID_KERNEL, None);
  }

  lemma CurrentOffQueue(s: State, c: Cpu)
    requires Inv(s) && c in s.current
    ensures s.current[c] in s.threads && s.threads[s.current[c]].state == Running && s.current[c] !in s.queue
    ensures s.threads[s.current[c]].proc in s.procs
  {
    hide Families, Loops, Waits;
    assert ThreadListed(s.procs, s.threads[s.current[c]], s.current[c]);
  }

  lemma RescheduleSet(s: State, c: Cpu, th: Thread)
    requires c in s.current
    ensures SchedulerSpec.Reschedule(s.(threads := s.threads[s.current[c] := th]), c, th) ==
            SchedulerSpec.Reschedule(s, c, th)
  {
  }

  lemma InListFrom(threads: map<Tid, Thread>, list: seq<Tid>, j: nat, cond: Cond)
    requires j < |list| && list[j] in threads
    ensures FindInList(threads, list[j..], cond) ==
              if threads[list[j]].cond == Some(cond) && threads[list[j]].state == Blocked then Some(list[j])
              else FindInList(threads, list[j + 1..], cond)
  {
    assert list[j..][1..] == list[j + 1..];
  }

  lemma InListEnd(threads: map<Tid, Thread>, list: seq<Tid>, cond: Cond)
    ensures FindInList(threads, list[|list|..], cond) == None
    ensures FindInList(threads, list[0..], cond) == FindInList(threads, list, cond)
  {
    assert list[0..] == list;
  }

  lemma BlockedFrom(s: State, processes: seq<Pid>, i: nat, cond: Cond)
    requires i < |processes| && processes[i] in s.procs
    ensures var found := FindInList(s.threads, s.procs[processes[i]].threads, cond);
            FindBlocked(s, processes[i..], cond) == if found.Some? then found else FindBlocked(s, processes[i + 1..], cond)
  {
    assert processes[i..][1..] == processes[i + 1..];
  }

  lemma BlockedEnd(s: State, processes: seq<Pid>, cond: Cond)
    ensures FindBlocked(s, processes[|processes|..], cond) == None
  {
  }

  lemma ChildFrom(procs: map<Pid, Proc>, processes: seq<Pid>, i: nat, parent: Pid)
    requires i < |processes| && processes[i] in procs
    ensures FindDefunctChild(procs, processes[i..], parent) ==
              if procs[processes[i]].parent == parent && procs[processes[i]].state == Defunct then Some(processes[i])
              else FindDefunctChild(procs, processes[i + 1..], parent)
    ensures processes[0..] == processes
  {
    assert processes[i..][1..] == processes[i + 1..];
  }

  lemma ChildEnd(procs: map<Pid, Proc>, processes: seq<Pid>, parent: Pid)
    ensures FindDefunctChild(procs, processes[|processes|..], parent) == None
  {
  }

  lemma ListsLive(s: State)
    requires Inv(s)
    ensures forall p :: p in s.processes <==> p in s.procs
    ensures forall p, t :: p in s.procs && t in s.procs[p].threads ==> t in s.threads
    ensures forall t :: t in s.threads && s.threads[t].state == Blocked ==> t !in s.queue
  {
    hide Families, Loops, Waits;
    forall p, t | p in s.procs && t in s.procs[p].threads ensures t in s.threads {
      assert ProcListed(s.threads, s.procs[p].threads, p);
    }
  }

  lemma QueueHeadOnce(s: State)
    requires Inv(s) && Closed(s)
    ensures s.queue != [] ==>
              s.queue[0] in s.threads && s.threads[s.queue[0]].proc in s.procs && s.queue[0] !in s.queue[1..]
  {
    hide Listed, Families, Loops, Waits;
  }

  /** The waiting threads of a dying process's parent are off the queue, and the parent is listed
      once. */
  lemma ParentWaiters(s: State, p: Pid)
    requires InvBut(s, Some(p)) && p in s.procs && s.procs[p].parent in s.procs
    ensures s.procs[p].parent in s.processes && NoDup(s.processes)
    ensures NoDup(s.procs[s.procs[p].parent].threads)
    ensures forall t :: t in s.threads && s.threads[t].state == Waiting ==> t !in s.queue
  {
    hide Families, Loops, Waits;
    assert ProcListed(s.threads, s.procs[s.procs[p].parent].threads, s.procs[p].parent);
  }
}
