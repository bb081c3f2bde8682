/** What each call of kernel/arch/i386/thread_lock.c does for its caller, over every run of
    ThreadMutex: from the step that makes the call to the one that returns from it. */
module ThreadMutexCalls {
  import opened Base
  import opened ThreadMutex

  /** Waiting for the mutex, from the test of `locked` on. */
  predicate Contends(pc: Pc) {
    || pc == Test(Some(Internal)) || pc == AcquireDone || pc == WaitLock(Internal) || pc == WaitDrop(Internal)
    || pc == WaitBlock(Internal) || pc == Blocked(Internal) || pc == Woken(Internal) || pc == Resume(Internal)
    || pc == Respin(Internal)
  }

  predicate InAcquire(pc: Pc) {
    pc == AcquireSpin || pc == Test(None) || Contends(pc)
  }

  predicate InRelease(pc: Pc) {
    || pc == ReleaseSpin(ThenReturn) || pc == Clear(ThenReturn) || pc == NotifyLock(ThenReturn)
    || pc == NotifyScan(ThenReturn) || pc == NotifyUnlock(ThenReturn) || pc == ReleaseDone
  }

  /** In thread_cond_wait on condition `id`, the mutex not yet given up. */
  predicate StillHolds(pc: Pc, id: nat) {
    pc == ReleaseSpin(ThenWait(User(id))) || pc == Clear(ThenWait(User(id)))
  }

  /** Woken from the condition, and on the way back to the mutex. */
  predicate ComesBack(pc: Pc, id: nat) {
    || pc == Woken(User(id)) || pc == Resume(User(id)) || pc == Respin(User(id)) || pc == Test(Some(User(id)))
    || Contends(pc)
  }

  predicate InWait(pc: Pc, id: nat) {
    StillHolds(pc, id) || NotYetBlocked(pc, id) || pc == Blocked(User(id)) || ComesBack(pc, id)
  }

  predicate InNotify(pc: Pc, id: nat, holding: bool) {
    pc == CallerNotifyLock(id, holding) || pc == CallerNotifyScan(id, holding) || pc == CallerNotifyUnlock(id, holding)
  }

  predicate Outside(pc: Pc) {
    pc == Idle || pc == Critical
  }

  /** A call of one of the four functions, `holding` for whether its caller has the mutex. */
  datatype Call = Acquire | Release | Wait(id: nat) | Notify(id: nat, holding: bool)

  predicate In(call: Call, pc: Pc) {
    match call
    case Acquire => InAcquire(pc)
    case Release => InRelease(pc)
    case Wait(id) => InWait(pc, id)
    case Notify(id, holding) => InNotify(pc, id, holding)
  }

  /** Where the call comes out: with the mutex or without it. */
  function Return(call: Call): Pc {
    match call
    case Acquire => Critical
    case Release => Idle
    case Wait(_) => Critical
    case Notify(_, holding) => if holding then Critical else Idle
  }

  /** The call the step makes for thread `t`. */
  function CallBy(s: State, step: Step, t: Tid): Option<Call> {
    match step
    case CallAcquire(u) => if u == t then Some(Acquire) else None
    case CallRelease(u) => if u == t then Some(Release) else None
    case CallCondWait(u, id) => if u == t then Some(Wait(id)) else None
    case CallNotify(u, id) => if u == t then Some(Notify(id, t in s.pc && s.pc[t] == Critical)) else None
    case _ => None
  }

  /** `t` makes the call at step `j`, and has not come out of it by state `i`. */
  ghost predicate Calling(states: seq<State>, steps: seq<Step>, j: nat, i: nat, t: Tid, call: Call) {
    && j < i < |states| && j < |steps| && CallBy(states[j], steps[j], t) == Some(call)
    && forall k :: j < k <= i ==> t in states[k].pc && !Outside(states[k].pc[t])
  }

  // One step.

  predicate Goes(call: Call, pc: Pc, pc': Pc) {
    In(call, pc) ==> In(call, pc') || pc' == Return(call)
  }

  /** How thread_cond_wait goes on: it gives the mutex up, blocks, is woken, and takes it again. */
  predicate WaitGoes(id: nat, pc: Pc, pc': Pc) {
    && (StillHolds(pc, id) ==> StillHolds(pc', id) || NotYetBlocked(pc', id))
    && (NotYetBlocked(pc, id) ==> NotYetBlocked(pc', id) || pc' == Blocked(User(id)))
    && (pc == Blocked(User(id)) ==> pc' == Blocked(User(id)) || pc' == Woken(User(id)))
    && (ComesBack(pc, id) ==> ComesBack(pc', id) || pc' == Critical)
  }

  lemma RunAcquires(s: State, t: Tid)
    requires t in s.pc && Enabled(s, Run(t)) && InAcquire(s.pc[t])
    ensures t in RunThread(s, t).pc && (InAcquire(RunThread(s, t).pc[t]) || RunThread(s, t).pc[t] == Critical)
  {
  }

  lemma RunReleases(s: State, t: Tid)
    requires t in s.pc && Enabled(s, Run(t)) && InRelease(s.pc[t])
    ensures t in RunThread(s, t).pc && (InRelease(RunThread(s, t).pc[t]) || RunThread(s, t).pc[t] == Idle)
  {
  }

  lemma RunNotifies(s: State, t: Tid, id: nat, holding: bool)
    requires t in s.pc && Enabled(s, Run(t)) && InNotify(s.pc[t], id, holding)
    ensures t in RunThread(s, t).pc && Goes(Notify(id, holding), s.pc[t], RunThread(s, t).pc[t])
  {
  }

  lemma RunComesBack(s: State, t: Tid, id: nat)
    requires t in s.pc && Enabled(s, Run(t)) && ComesBack(s.pc[t], id)
    ensures t in RunThread(s, t).pc && (ComesBack(RunThread(s, t).pc[t], id) || RunThread(s, t).pc[t] == Critical)
  {
  }

  lemma RunBlocks(s: State, t: Tid, id: nat)
    requires t in s.pc && Enabled(s, Run(t)) && !ComesBack(s.pc[t], id)
    ensures t in RunThread(s, t).pc && WaitGoes(id, s.pc[t], RunThread(s, t).pc[t])
  {
    hide ComesBack;
  }

  lemma RunGoes(s: State, t: Tid, call: Call)
    requires t in s.pc && Enabled(s, Run(t))
    ensures t in RunThread(s, t).pc && Goes(call, s.pc[t], RunThread(s, t).pc[t])
    ensures call.Wait? ==> WaitGoes(call.id, s.pc[t], RunThread(s, t).pc[t])
  {
    hide Enabled, RunThread, InAcquire, InRelease, InNotify, ComesBack, StillHolds, NotYetBlocked;
    RunStays(s, t);
    match call
    case Acquire => if InAcquire(s.pc[t]) { RunAcquires(s, t); }
    case Release => if InRelease(s.pc[t]) { RunReleases(s, t); }
    case Notify(id, holding) => if InNotify(s.pc[t], id, holding) { RunNotifies(s, t, id, holding); }
    case Wait(id) =>
      if ComesBack(s.pc[t], id) {
        RunComesBack(s, t, id);
        ComesBackOnly(s.pc[t], id);
      } else {
        RunBlocks(s, t, id);
        WokenComesBack(id);
      }
  }

  lemma RunStays(s: State, t: Tid)
    requires t in s.pc
    ensures t in RunThread(s, t).pc
  {
  }

  lemma ComesBackOnly(pc: Pc, id: nat)
    requires ComesBack(pc, id)
    ensures !StillHolds(pc, id) && !NotYetBlocked(pc, id) && pc != Blocked(User(id))
  {
  }

  lemma WokenComesBack(id: nat)
    ensures ComesBack(Woken(User(id)), id)
  {
  }

  /** Steps that leave a thread in a call where it is. */
  predicate Moves(step: Step, t: Tid) {
    step == Run(t) || (step.Scan? && (step.t == t || step.found == Some(t))) || step == LoopSwitch(t)
  }

  lemma OthersStay(s: State, step: Step, t: Tid)
    requires Enabled(s, step) && t in s.pc
    ensures t in Apply(s, step).pc
    ensures !Moves(step, t) && !Outside(s.pc[t]) ==> Apply(s, step).pc[t] == s.pc[t]
  {
  }

  lemma ScanFound(s: State, u: Tid, t: Tid)
    requires Enabled(s, Scan(u, Some(t))) && t in s.pc
    ensures u in s.pc && Scanned(s.pc[u]).Some?
    ensures var pc' := Apply(s, Scan(u, Some(t))).pc;
            t in pc' && s.pc[t] == Blocked(Scanned(s.pc[u]).value) && pc'[t] == Woken(Scanned(s.pc[u]).value)
  {
  }

  lemma ScanBy(s: State, u: Tid, found: Option<Tid>)
    requires Enabled(s, Scan(u, found)) && found != Some(u)
    ensures var pc' := Apply(s, Scan(u, found)).pc;
            && u in pc' && (s.pc[u].NotifyScan? || s.pc[u].CallerNotifyScan?)
            && pc'[u] == if s.pc[u].NotifyScan? then NotifyUnlock(s.pc[u].next)
                         else CallerNotifyUnlock(s.pc[u].id, s.pc[u].holding)
  {
  }

  lemma StepGoes(s: State, step: Step, t: Tid, call: Call)
    requires Enabled(s, step) && t in s.pc && !Outside(s.pc[t])
    ensures t in Apply(s, step).pc && Goes(call, s.pc[t], Apply(s, step).pc[t])
    ensures call.Wait? ==> WaitGoes(call.id, s.pc[t], Apply(s, step).pc[t])
  {
    hide Goes, WaitGoes, Apply, Enabled, RunThread;
    OthersStay(s, step, t);
    if step == Run(t) {
      RunStep(s, t);
      RunGoes(s, t, call);
    } else if step.Scan? && step.found == Some(t) {
      ScanFound(s, step.t, t);
      WokenGoes(Scanned(s.pc[step.t]).value, call);
    } else if step.Scan? && step.t == t {
      ScanBy(s, t, step.found);
      ScanGoes(s.pc[t], call);
    } else if step == LoopSwitch(t) {
      SwitchStep(s, t);
      ResumeGoes(s.pc[t].cond, call);
    } else {
      StaysGoes(s.pc[t], call);
    }
  }

  lemma RunStep(s: State, t: Tid)
    requires t in s.pc && Enabled(s, Run(t))
    ensures Apply(s, Run(t)) == RunThread(s, t)
  {
  }

  lemma SwitchStep(s: State, t: Tid)
    requires Enabled(s, LoopSwitch(t))
    ensures t in s.pc && s.pc[t].Woken?
    ensures t in Apply(s, LoopSwitch(t)).pc && Apply(s, LoopSwitch(t)).pc[t] == Resume(s.pc[t].cond)
  {
  }

  lemma WokenGoes(cond: Cond, call: Call)
    ensures Goes(call, Blocked(cond), Woken(cond)) && (call.Wait? ==> WaitGoes(call.id, Blocked(cond), Woken(cond)))
  {
  }

  lemma ResumeGoes(cond: Cond, call: Call)
    ensures Goes(call, Woken(cond), Resume(cond)) && (call.Wait? ==> WaitGoes(call.id, Woken(cond), Resume(cond)))
  {
  }

  lemma ScanGoes(pc: Pc, call: Call)
    requires pc.NotifyScan? || pc.CallerNotifyScan?
    ensures var pc' := if pc.NotifyScan? then NotifyUnlock(pc.next) else CallerNotifyUnlock(pc.id, pc.holding);
            Goes(call, pc, pc') && (call.Wait? ==> WaitGoes(call.id, pc, pc'))
  {
  }

  lemma StaysGoes(pc: Pc, call: Call)
    ensures Goes(call, pc, pc) && (call.Wait? ==> WaitGoes(call.id, pc, pc))
  {
  }

  // Whole runs.

  lemma Begins(s: State, step: Step, t: Tid, call: Call)
    requires Enabled(s, step) && CallBy(s, step, t) == Some(call)
    ensures t in s.pc && Outside(s.pc[t])
    ensures t in Apply(s, step).pc && In(call, Apply(s, step).pc[t])
    ensures call.Wait? ==> StillHolds(Apply(s, step).pc[t], call.id)
  {
  }

  /** While a thread is in a call it is at a point of that call, and it leaves to where the call says:
      thread_mutex_acquire and thread_cond_wait with the mutex, thread_mutex_release without it, and
      thread_cond_notify as it was called. */
  lemma {:induction false} CallReturns(states: seq<State>, steps: seq<Step>, j: nat, i: nat, t: Tid, call: Call)
    requires IsRun(states, steps) && Calling(states, steps, j, i, t, call)
    ensures In(call, states[i].pc[t])
    ensures i < |steps| && t in states[i + 1].pc && Outside(states[i + 1].pc[t]) ==>
              states[i + 1].pc[t] == Return(call)
    decreases i
  {
    hide Enabled, Apply, In, Goes, WaitGoes;
    if i == j + 1 {
      assert Enabled(states[j], steps[j]);
      Begins(states[j], steps[j], t, call);
    } else {
      CallReturns(states, steps, j, i - 1, t, call);
      StepGoes(states[i - 1], steps[i - 1], t, call);
      GoesOn(call, states[i - 1].pc[t], states[i].pc[t]);
    }
    if i < |steps| {
      StepGoes(states[i], steps[i], t, call);
      GoesOn(call, states[i].pc[t], states[i + 1].pc[t]);
    }
  }

  lemma GoesOn(call: Call, pc: Pc, pc': Pc)
    requires In(call, pc) && Goes(call, pc, pc')
    ensures if Outside(pc') then pc' == Return(call) else In(call, pc')
  {
  }

  /** A thread that is not outside is in a call it made. */
  lemma {:induction false} CallExists(states: seq<State>, steps: seq<Step>, i: nat, t: Tid) returns (j: nat, call: Call)
    requires IsRun(states, steps) && i < |states| && t in states[i].pc && !Outside(states[i].pc[t])
    ensures Calling(states, steps, j, i, t, call)
  {
    hide Enabled, Apply;
    var s := states[i - 1];
    assert Enabled(s, steps[i - 1]) && states[i] == Apply(s, steps[i - 1]);
    SameThreads(s, steps[i - 1], t);
    if Outside(s.pc[t]) {
      OnlyCallsEnter(s, steps[i - 1], t);
      j, call := i - 1, CallBy(s, steps[i - 1], t).value;
    } else {
      j, call := CallExists(states, steps, i - 1, t);
    }
  }

  lemma SameThreads(s: State, step: Step, t: Tid)
    requires Enabled(s, step) && t in Apply(s, step).pc
    ensures t in s.pc
  {
  }

  lemma OnlyCallsEnter(s: State, step: Step, t: Tid)
    requires Enabled(s, step) && t in s.pc && Outside(s.pc[t])
    requires t in Apply(s, step).pc && !Outside(Apply(s, step).pc[t])
    ensures CallBy(s, step, t).Some?
  {
  }

  /** Step `m` is the scan of a thread_cond_notify of `id`, and it finds `t`. */
  ghost predicate WakesAt(states: seq<State>, steps: seq<Step>, m: nat, t: Tid, id: nat) {
    exists u, k, holding :: m < |steps| && steps[m] == Scan(u, Some(t)) && Calling(states, steps, k, m, u, Notify(id, holding))
  }

  ghost predicate WokenSince(states: seq<State>, steps: seq<Step>, j: nat, i: nat, t: Tid, id: nat) {
    exists m: nat :: j < m < i && WakesAt(states, steps, m, t, id)
  }

  /** The condition a scan is about is the one its thread was called with. */
  lemma ScanOfCall(states: seq<State>, steps: seq<Step>, i: nat, u: Tid, id: nat) returns (k: nat, holding: bool)
    requires IsRun(states, steps) && i < |states| && u in states[i].pc && Scanned(states[i].pc[u]) == Some(User(id))
    ensures Calling(states, steps, k, i, u, Notify(id, holding))
  {
    hide IsRun;
    var call;
    k, call := CallExists(states, steps, i, u);
    CallReturns(states, steps, k, i, u, call);
    holding := states[i].pc[u].holding;
  }

  lemma BlockedStep(s: State, step: Step, t: Tid, id: nat)
    requires Enabled(s, step) && t in s.pc && s.pc[t] == Blocked(User(id))
    requires t in Apply(s, step).pc && Apply(s, step).pc[t] != Blocked(User(id))
    ensures step.Scan? && step.found == Some(t) && step.t in s.pc && Scanned(s.pc[step.t]) == Some(User(id))
  {
  }

  /** thread_cond_wait comes back only after a thread_cond_notify of its condition has found it. */
  lemma {:induction false} WaitNeedsNotify(states: seq<State>, steps: seq<Step>, j: nat, i: nat, t: Tid, id: nat)
    requires IsRun(states, steps) && Calling(states, steps, j, i, t, Wait(id))
    ensures ComesBack(states[i].pc[t], id) ==> WokenSince(states, steps, j, i, t, id)
    ensures i < |steps| && t in states[i + 1].pc && Outside(states[i + 1].pc[t]) ==>
              WokenSince(states, steps, j, i, t, id)
    decreases i
  {
    hide Enabled, Apply, StillHolds, NotYetBlocked, ComesBack, WakesAt;
    CallReturns(states, steps, j, i, t, Wait(id));
    if i == j + 1 {
      assert Enabled(states[j], steps[j]);
      Begins(states[j], steps[j], t, Wait(id));
      HoldsNoMore(states[i].pc[t], id);
    } else {
      var s, step := states[i - 1], steps[i - 1];
      assert Enabled(s, step) && states[i] == Apply(s, step);
      CallReturns(states, steps, j, i - 1, t, Wait(id));
      WaitNeedsNotify(states, steps, j, i - 1, t, id);
      StepGoes(s, step, t, Wait(id));
      HoldsNoMore(s.pc[t], id);
      HoldsNoMore(states[i].pc[t], id);
      if s.pc[t] == Blocked(User(id)) && states[i].pc[t] != Blocked(User(id)) {
        BlockedStep(s, step, t, id);
        var k, holding := ScanOfCall(states, steps, i - 1, step.t, id);
        ScanWakes(states, steps, i - 1, step.t, t, id, k, holding);
      }
    }
    if i < |steps| {
      StepGoes(states[i], steps[i], t, Wait(id));
      HoldsNoMore(states[i].pc[t], id);
      OutsideNoPoint(states[i + 1].pc[t], id);
    }
  }

  lemma ScanWakes(states: seq<State>, steps: seq<Step>, m: nat, u: Tid, t: Tid, id: nat, k: nat, holding: bool)
    requires m < |steps| && steps[m] == Scan(u, Some(t)) && Calling(states, steps, k, m, u, Notify(id, holding))
    ensures WakesAt(states, steps, m, t, id)
  {
  }

  /** The four stages of thread_cond_wait are apart. */
  lemma HoldsNoMore(pc: Pc, id: nat)
    ensures ComesBack(pc, id) ==> !StillHolds(pc, id) && !NotYetBlocked(pc, id) && pc != Blocked(User(id))
    ensures StillHolds(pc, id) ==> !NotYetBlocked(pc, id) && pc != Blocked(User(id))
    ensures NotYetBlocked(pc, id) ==> pc != Blocked(User(id))
  {
  }

  lemma OutsideNoPoint(pc: Pc, id: nat)
    ensures Outside(pc) ==> !StillHolds(pc, id) && !NotYetBlocked(pc, id) && !ComesBack(pc, id)
  {
  }

  // A notify after the mutex was taken again.

  lemma TakenStep(s: State, step: Step)
    requires Enabled(s, step)
    ensures s.taken <= Apply(s, step).taken
    ensures !s.locked && Apply(s, step).locked ==> s.taken < Apply(s, step).taken
  {
  }

  lemma {:induction false} TakenSince(states: seq<State>, steps: seq<Step>, a: nat, b: nat)
    requires IsRun(states, steps) && a <= b < |states|
    ensures states[a].taken <= states[b].taken
    ensures !states[a].locked && states[b].locked ==> states[a].taken < states[b].taken
    decreases b
  {
    hide Enabled, Apply;
    if a < b {
      TakenSince(states, steps, a, b - 1);
      assert Enabled(states[b - 1], steps[b - 1]) && states[b] == Apply(states[b - 1], steps[b - 1]);
      TakenStep(states[b - 1], steps[b - 1]);
    }
  }

  lemma GaveUpStep(s: State, step: Step, t: Tid)
    requires Enabled(s, step) && t in s.pc && !s.pc[t].Clear?
    ensures t in s.gaveUp ==> t in Apply(s, step).gaveUp && Apply(s, step).gaveUp[t] == s.gaveUp[t]
  {
  }

  /** Giving the mutex up opens it. */
  lemma GivesUp(s: State, t: Tid, id: nat)
    requires t in s.pc && s.pc[t] == Clear(ThenWait(User(id))) && Enabled(s, Run(t))
    ensures var s' := Apply(s, Run(t));
            && t in s'.pc && NotYetBlocked(s'.pc[t], id) && !s'.locked && s'.taken == s.taken
            && t in s'.gaveUp && s'.gaveUp[t] == s.taken
  {
  }

  /** Since `t` gave the mutex up at step `r` its record of that stays. */
  lemma {:induction false} GaveUpKept(states: seq<State>, steps: seq<Step>, j: nat, r: nat, i: nat, t: Tid, id: nat)
    requires IsRun(states, steps) && Calling(states, steps, j, i, t, Wait(id)) && j < r < i
    requires steps[r] == Run(t) && states[r].pc[t] == Clear(ThenWait(User(id)))
    ensures !StillHolds(states[i].pc[t], id) && In(Wait(id), states[i].pc[t])
    ensures t in states[i].gaveUp && states[i].gaveUp[t] == states[r + 1].taken && !states[r + 1].locked
    decreases i
  {
    hide Enabled, Apply, StillHolds, NotYetBlocked, ComesBack;
    CallReturns(states, steps, j, i, t, Wait(id));
    var s, step := states[i - 1], steps[i - 1];
    assert Enabled(s, step) && states[i] == Apply(s, step);
    HoldsNoMore(states[i].pc[t], id);
    if i == r + 1 {
      GivesUp(s, t, id);
    } else {
      GaveUpKept(states, steps, j, r, i - 1, t, id);
      StepGoes(s, step, t, Wait(id));
      HoldsNoMore(s.pc[t], id);
      WokenComesBack(id);
      ClearHolds(s.pc[t], id);
      GaveUpStep(s, step, t);
    }
  }

  lemma ClearHolds(pc: Pc, id: nat)
    requires In(Wait(id), pc) && !StillHolds(pc, id)
    ensures !pc.Clear?
  {
  }

  lemma ScanEnabled(states: seq<State>, steps: seq<Step>, i: nat, u: Tid, id: nat, holding: bool, found: Option<Tid>)
    requires IsRun(states, steps) && i < |steps| && steps[i] == Scan(u, found) && u in states[i].pc
    requires InNotify(states[i].pc[u], id, holding)
    ensures Scanned(states[i].pc[u]) == Some(User(id))
  {
    assert Enabled(states[i], steps[i]);
  }

  /** `t` called thread_cond_wait(id) at step `j` and gave the mutex up at `r`; the mutex was locked again
      at `m`; after that, at `k`, `u` called thread_cond_notify(id), and its scan comes at `i`. Then `t`
      is blocked on the condition or was woken by an earlier notify, never on its way to block; and while
      it is blocked, the scan wakes a thread that waits on the condition. */
  lemma NotifyReachesWaiter(states: seq<State>, steps: seq<Step>, j: nat, r: nat, m: nat, k: nat, i: nat,
                            t: Tid, u: Tid, id: nat, holding: bool, found: Option<Tid>)
    requires IsRun(states, steps) && j < r < m <= k < i < |steps|
    requires Calling(states, steps, j, i, t, Wait(id)) && Calling(states, steps, k, i, u, Notify(id, holding))
    requires steps[r] == Run(t) && states[r].pc[t] == Clear(ThenWait(User(id))) && states[m].locked
    requires steps[i] == Scan(u, found)
    ensures states[i].pc[t] == Blocked(User(id)) || WokenSince(states, steps, j, i, t, id)
    ensures states[i].pc[t] == Blocked(User(id)) ==>
              && found.Some? && found.value in states[i].pc && found.value in states[i + 1].pc
              && states[i].pc[found.value] == Blocked(User(id)) && states[i + 1].pc[found.value] == Woken(User(id))
  {
    hide WokenSince, StillHolds, ComesBack, Enabled, Apply;
    GaveUpKept(states, steps, j, r, i, t, id);
    TakenSince(states, steps, r + 1, m);
    TakenSince(states, steps, m, i);
    CallReturns(states, steps, k, i, u, Notify(id, holding));
    ScanEnabled(states, steps, i, u, id, holding, found);
    hide IsRun;
    NotifyFindsWaiter(states, steps, i, t, id, u, found);
    WaitNeedsNotify(states, steps, j, i, t, id);
  }
}
