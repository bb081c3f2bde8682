/** The TLB shootdown of kernel/arch/i386/paging/ipi.c: any number of CPUs write page table entries,
    fill and drop translations, switch CR3, and call paging_propagate_changes, one memory access or
    interrupt at a time. A MOV to CR3 drops the translations of the page directory it leaves, and
    INVLPG one page's (section 4.10 of Intel SDM Vol. 3A); translations of kernel pages marked global
    are not part of the model. */
module TlbShootdown {
  import opened Base

  type Cpu = nat
  type Directory = nat
  type Page = nat

  const KERNEL: Directory := 0   // phys_kernel_pd

  datatype Key = Key(pd: Directory, page: Page)

  /** Times each table entry has been written. */
  type Writes = map<Key, nat>

  function Version(writes: Writes, key: Key): nat {
    if key in writes then writes[key] else 0
  }

  /** A call of paging_propagate_changes. No code reads `since`, the writes made before the call, nor
      `lapsed`, the CPUs that have been inactive at some time since. */
  datatype Request = Request(pd: Directory, v: Page, global: bool, since: Writes, lapsed: set<Cpu>)

  /** Where a CPU is in paging_propagate_changes. */
  datatype Call =
    | NoCall
    | Locking(req: Request)                               // cpu_spinlock_acquire
    | SetPd(req: Request)
    | SetPage(req: Request)
    | SetGlobal(req: Request)
    | Next(req: Request, todo: seq<Cpu>)                  // the loop over the other CPUs
    | Clear(req: Request, target: Cpu, todo: seq<Cpu>)    // ipi_received = false
    | Send(req: Request, target: Cpu, todo: seq<Cpu>)     // lapic_ipi
    | Wait(req: Request, target: Cpu, todo: seq<Cpu>)     // while ipi_received == false
    | Returned(req: Request)

  /** Where a CPU is in ipi_flush_tlb_handler. */
  datatype Handler = Outside | ReadCr3 | Flush(cr3: Directory) | Store

  datatype CpuState = CpuState(cr3: Directory, tlb: map<Key, nat>, active: bool, pending: bool, handler: Handler,
                               call: Call)

  datatype State = State(
    cpus: map<Cpu, CpuState>,
    order: seq<Cpu>,           // the CPUs as cpu_enumerate_other_cpus visits them
    writes: Writes,
    lock: Option<Cpu>,         // ipi_spinlock
    pd: Directory,             // ipi_updated_pd
    page: Page,                // ipi_updated_page
    global: bool,              // ipi_global
    received: bool             // ipi_received
  )

  datatype Step =
    | WriteTable(key: Key)
    | Fill(c: Cpu, page: Page)
    | Drop(c: Cpu, key: Key)                    // the hardware may forget a translation
    | SetCr3(c: Cpu, pd: Directory)             // cpu_set_cr3
    | SetActive(c: Cpu, flag: bool)
    | Propagate(c: Cpu, pd: Directory, v: Page, global: bool)
    | RunCall(c: Cpu)
    | Interrupt(c: Cpu)
    | RunHandler(c: Cpu)

  ghost predicate Initial(s: State) {
    && (forall c :: c in s.cpus <==> c in s.order)
    && (forall c :: c in s.cpus ==>
          s.cpus[c].tlb == map[] && !s.cpus[c].pending && s.cpus[c].handler == Outside && s.cpus[c].call == NoCall)
    && s.lock == None
  }

  predicate InProgress(call: Call) {
    !call.NoCall? && !call.Returned?
  }

  predicate Enabled(s: State, step: Step) {
    match step
    case WriteTable(key) => true
    case Fill(c, page) => c in s.cpus
    case Drop(c, key) => c in s.cpus
    case SetCr3(c, pd) => c in s.cpus && s.cpus[c].handler == Outside
    case SetActive(c, flag) => c in s.cpus
    case Propagate(c, pd, v, global) => c in s.cpus && s.cpus[c].handler == Outside && !InProgress(s.cpus[c].call)
    case RunCall(c) =>
      c in s.cpus && s.cpus[c].handler == Outside && InProgress(s.cpus[c].call) && CanRun(s, c, s.cpus[c].call)
    case Interrupt(c) => c in s.cpus && s.cpus[c].pending && s.cpus[c].handler == Outside
    case RunHandler(c) => c in s.cpus && s.cpus[c].handler != Outside
  }

  predicate CanRun(s: State, c: Cpu, call: Call) {
    match call
    case Locking(_) => s.lock == None
    case Send(_, t, _) => t in s.cpus
    case Wait(_, _, _) => s.received
    case _ => true
  }

  function Others(order: seq<Cpu>, c: Cpu): (r: seq<Cpu>)
    ensures forall d :: d in r <==> d in order && d != c
  {
    if order == [] then []
    else if order[0] == c then Others(order[1..], c)
    else [order[0]] + Others(order[1..], c)
  }

  function Put(s: State, c: Cpu, cpu: CpuState): State {
    s.(cpus := s.cpus[c := cpu])
  }

  function SetCall(s: State, c: Cpu, call: Call): State
    requires c in s.cpus
  {
    Put(s, c, s.cpus[c].(call := call))
  }

  /** Everyone whose call is under way learns that `c` has been inactive. */
  function Lapse(call: Call, c: Cpu): Call {
    if call.NoCall? then call else call.(req := call.req.(lapsed := call.req.lapsed + {c}))
  }

  function WithoutKey(tlb: map<Key, nat>, key: Key): map<Key, nat> {
    tlb - {key}
  }

  /** What the handler does to the TLB, by the request's fields. */
  function Flushed(cpu: CpuState, cr3: Directory, pd: Directory, page: Page, global: bool): map<Key, nat> {
    if global && pd == KERNEL && cr3 != KERNEL then map[]
    else if pd == cr3 then (if page != 0 then WithoutKey(cpu.tlb, Key(cr3, page)) else map[])
    else cpu.tlb
  }

  function Apply(s: State, step: Step): State
    requires Enabled(s, step)
  {
    match step
    case WriteTable(key) => s.(writes := s.writes[key := Version(s.writes, key) + 1])
    case Fill(c, page) =>
      var cpu := s.cpus[c];
      var key := Key(cpu.cr3, page);
      Put(s, c, cpu.(tlb := cpu.tlb[key := Version(s.writes, key)]))
    case Drop(c, key) => Put(s, c, s.cpus[c].(tlb := WithoutKey(s.cpus[c].tlb, key)))
    case SetCr3(c, pd) =>
      if pd == s.cpus[c].cr3 then s else Put(s, c, s.cpus[c].(cr3 := pd, tlb := map[]))
    case SetActive(c, flag) =>
      var cpus := if flag then s.cpus else map d | d in s.cpus :: s.cpus[d].(call := Lapse(s.cpus[d].call, c));
      s.(cpus := cpus[c := cpus[c].(active := flag)])
    case Propagate(c, pd, v, global) =>
      SetCall(s, c, Locking(Request(pd, v, global, s.writes, set d | d in s.cpus && !s.cpus[d].active)))
    case RunCall(c) => RunCallOf(s, c, s.cpus[c].call)
    case Interrupt(c) => Put(s, c, s.cpus[c].(pending := false, handler := ReadCr3))
    case RunHandler(c) =>
      var cpu := s.cpus[c];
      match cpu.handler
      case ReadCr3 => Put(s, c, cpu.(handler := Flush(cpu.cr3)))
      case Flush(cr3) => Put(s, c, cpu.(handler := Store, tlb := Flushed(cpu, cr3, s.pd, s.page, s.global)))
      case _ => Put(s, c, cpu.(handler := Outside)).(received := true)
  }

  /** Where the call of the holder `c` of the lock goes next, `active` being the flag of the CPU it
      visits, and what that does to CPU `d` and to ipi_received. */
  function NextCall(call: Call, order: seq<Cpu>, c: Cpu, active: bool): Call {
    match call
    case SetPd(req) => SetPage(req)
    case SetPage(req) => SetGlobal(req)
    case SetGlobal(req) => Next(req, Others(order, c))
    case Next(req, todo) =>
      if todo == [] then Returned(req) else if active then Clear(req, todo[0], todo[1..]) else Next(req, todo[1..])
    case Clear(req, t, todo) => Send(req, t, todo)
    case Send(req, t, todo) => Wait(req, t, todo)
    case Wait(req, t, todo) => Next(req, todo)
    case _ => call
  }

  function NextCpu(call: Call, d: Cpu, cpu: CpuState): CpuState {
    if call.Send? && call.target == d then cpu.(pending := true) else cpu
  }

  function NextReceived(call: Call, received: bool): bool {
    !call.Clear? && received
  }

  predicate Visits(call: Call, cpus: map<Cpu, CpuState>) {
    call.Next? && call.todo != [] && call.todo[0] in cpus && cpus[call.todo[0]].active
  }

  function RunCallOf(s: State, c: Cpu, call: Call): State
    requires c in s.cpus && s.cpus[c].call == call && CanRun(s, c, call)
  {
    if call.Locking? then SetCall(s, c, SetPd(call.req)).(lock := Some(c))
    else
      var call' := NextCall(call, s.order, c, Visits(call, s.cpus));
      State(map d | d in s.cpus :: NextCpu(call, d, if d == c then s.cpus[c].(call := call') else s.cpus[d]),
            s.order,
            s.writes,
            if call'.Returned? then None else s.lock,
            if call.SetPd? then call.req.pd else s.pd,
            if call.SetPage? then call.req.v else s.page,
            if call.SetGlobal? then call.req.global else s.global,
            NextReceived(call, s.received))
  }

  // What every step keeps.

  predicate Older(a: Writes, b: Writes, key: Key) {
    Version(a, key) <= Version(b, key)
  }

  /** The CPU has no translation the request makes stale. */
  ghost predicate Clean(cpu: CpuState, req: Request) {
    forall key :: key in cpu.tlb && key.pd == req.pd && (req.v == 0 || key.page == req.v) ==>
      cpu.tlb[key] >= Version(req.since, key)
  }

  predicate Holds(call: Call) {
    InProgress(call) && !call.Locking?
  }

  /** The handler of the one outstanding IPI has yet to answer. */
  predicate Outstanding(cpu: CpuState) {
    cpu.pending || cpu.handler != Outside
  }

  /** The other CPUs the loop has still to visit, or is visiting. */
  predicate ToVisit(call: Call, order: seq<Cpu>, d: Cpu) {
    match call
    case Next(_, todo) => d in todo
    case Clear(_, t, todo) => d == t || d in todo
    case Send(_, t, todo) => d == t || d in todo
    case Wait(_, t, todo) => d == t || d in todo
    case _ => true
  }

  ghost predicate CpuOk(cpu: CpuState, writes: Writes) {
    && (forall key :: key in cpu.tlb ==> key.pd == cpu.cr3 && cpu.tlb[key] <= Version(writes, key))
    && (cpu.pending ==> cpu.handler == Outside)
    && (cpu.handler.Flush? ==> cpu.handler.cr3 == cpu.cr3)
    && (!cpu.call.NoCall? ==> forall key :: Older(cpu.call.req.since, writes, key))
  }

  /** The fields the handler reads, once the holder of the lock has written them. */
  predicate FieldsOk(call: Call, pd: Directory, page: Page, global: bool) {
    match call
    case SetPage(req) => pd == req.pd
    case SetGlobal(req) => pd == req.pd && page == req.v
    case Next(req, _) => pd == req.pd && page == req.v && global == req.global
    case Clear(req, _, _) => pd == req.pd && page == req.v && global == req.global
    case Send(req, _, _) => pd == req.pd && page == req.v && global == req.global
    case Wait(req, _, _) => pd == req.pd && page == req.v && global == req.global
    case _ => true
  }

  /** How far the holder `c` of the lock has got with CPU `d`. */
  ghost predicate ProgressOk(call: Call, c: Cpu, d: Cpu, cpu: CpuState, order: seq<Cpu>, received: bool) {
    && (Outstanding(cpu) ==> call.Wait? && call.target == d && !received)
    && (call.Wait? && call.target == d && received ==> Clean(cpu, call.req))
    && (cpu.handler == Store ==> call.Wait? && Clean(cpu, call.req))
    && (call.Send? ==> !received)
    && (d != c && !ToVisit(call, order, d) && d !in call.req.lapsed ==> Clean(cpu, call.req))
  }

  predicate TodoOk(call: Call, c: Cpu, others: set<Cpu>) {
    match call
    case Next(_, todo) => forall d :: d in todo ==> d in others && d != c
    case Clear(_, t, todo) => t in others && t != c && forall d :: d in todo ==> d in others && d != c
    case Send(_, t, todo) => t in others && t != c && forall d :: d in todo ==> d in others && d != c
    case Wait(_, t, todo) => t in others && t != c && forall d :: d in todo ==> d in others && d != c
    case _ => true
  }

  ghost predicate CpusOk(cpus: map<Cpu, CpuState>, order: seq<Cpu>, writes: Writes) {
    && (forall c :: c in cpus <==> c in order)
    && (forall c :: c in cpus ==> CpuOk(cpus[c], writes) && TodoOk(cpus[c].call, c, cpus.Keys))
  }

  ghost predicate LockOk(cpus: map<Cpu, CpuState>, lock: Option<Cpu>) {
    && (lock.Some? ==> lock.value in cpus)
    && (forall c :: c in cpus ==> (Holds(cpus[c].call) <==> lock == Some(c)))
  }

  ghost predicate LapsedOk(cpus: map<Cpu, CpuState>) {
    forall c, d :: c in cpus && d in cpus && !cpus[c].call.NoCall? && !cpus[d].active ==> d in cpus[c].call.req.lapsed
  }

  ghost predicate HolderOk(cpus: map<Cpu, CpuState>, order: seq<Cpu>, c: Cpu, received: bool, pd: Directory,
                           page: Page, global: bool) {
    && c in cpus && Holds(cpus[c].call) && FieldsOk(cpus[c].call, pd, page, global)
    && (forall d :: d in cpus ==> ProgressOk(cpus[c].call, c, d, cpus[d], order, received))
  }

  ghost predicate Protocol(s: State) {
    match s.lock
    case None => forall d :: d in s.cpus ==> !Outstanding(s.cpus[d])
    case Some(c) => HolderOk(s.cpus, s.order, c, s.received, s.pd, s.page, s.global)
  }

  ghost predicate Inv(s: State) {
    CpusOk(s.cpus, s.order, s.writes) && LockOk(s.cpus, s.lock) && LapsedOk(s.cpus) && Protocol(s)
  }

  lemma InitialInv(s: State)
    requires Initial(s)
    ensures Inv(s)
  {
  }

  // One CPU's translations.

  lemma FillCleans(cpu: CpuState, writes: Writes, page: Page, req: Request)
    requires CpuOk(cpu, writes) && Clean(cpu, req) && forall key :: Older(req.since, writes, key)
    ensures var key := Key(cpu.cr3, page); Clean(cpu.(tlb := cpu.tlb[key := Version(writes, key)]), req)
  {
    assert Older(req.since, writes, Key(cpu.cr3, page));
  }

  /** The handler leaves nothing stale behind: what it keeps belongs to another directory or page. */
  lemma FlushCleans(cpu: CpuState, writes: Writes, req: Request)
    requires CpuOk(cpu, writes)
    ensures Clean(cpu.(tlb := Flushed(cpu, cpu.cr3, req.pd, req.v, req.global)), req)
  {
  }

  // Steps that change one CPU and leave every call alone.

  /** What the protocol sees of a CPU that is not the holder of the lock. */
  ghost predicate NoWorse(cpu: CpuState, cpu': CpuState, writes: Writes) {
    && cpu'.call == cpu.call && cpu'.pending == cpu.pending && cpu'.handler == cpu.handler
    && (forall req :: Clean(cpu, req) && (forall key :: Older(req.since, writes, key)) ==> Clean(cpu', req))
  }

  lemma PutCpus(cpus: map<Cpu, CpuState>, order: seq<Cpu>, writes: Writes, x: Cpu, cpu': CpuState)
    requires CpusOk(cpus, order, writes) && x in cpus && CpuOk(cpu', writes) && TodoOk(cpu'.call, x, cpus.Keys)
    ensures CpusOk(cpus[x := cpu'], order, writes) && cpus[x := cpu'].Keys == cpus.Keys
  {
    hide CpuOk, TodoOk;
    assert cpus[x := cpu'].Keys == cpus.Keys;
  }

  lemma PutLapsed(cpus: map<Cpu, CpuState>, x: Cpu, cpu': CpuState)
    requires LapsedOk(cpus) && x in cpus && cpu'.active == cpus[x].active
    requires !cpu'.call.NoCall? ==> !cpus[x].call.NoCall? && cpu'.call.req.lapsed == cpus[x].call.req.lapsed
    ensures LapsedOk(cpus[x := cpu'])
  {
  }

  lemma PutLock(cpus: map<Cpu, CpuState>, lock: Option<Cpu>, x: Cpu, cpu': CpuState)
    requires LockOk(cpus, lock) && x in cpus && (Holds(cpu'.call) <==> Holds(cpus[x].call))
    ensures LockOk(cpus[x := cpu'], lock)
  {
    hide Holds;
  }

  /** A change of one CPU that is not, or not as, the holder. */
  lemma PutProtocol(s: State, x: Cpu, cpu': CpuState)
    requires Protocol(s) && LockOk(s.cpus, s.lock) && x in s.cpus
    requires s.lock == Some(x) ==> cpu'.call == s.cpus[x].call
    requires s.lock == None ==> !Outstanding(cpu')
    requires s.lock.Some? ==> ProgressOk(s.cpus[s.lock.value].call, s.lock.value, x, cpu', s.order, s.received)
    ensures Protocol(Put(s, x, cpu'))
  {
    hide ProgressOk, FieldsOk, Outstanding;
  }

  lemma NoWorseProgress(call: Call, c: Cpu, d: Cpu, cpu: CpuState, cpu': CpuState, order: seq<Cpu>, received: bool,
                        writes: Writes)
    requires Holds(call) && ProgressOk(call, c, d, cpu, order, received) && NoWorse(cpu, cpu', writes)
    requires forall key :: Older(call.req.since, writes, key)
    ensures ProgressOk(call, c, d, cpu', order, received)
  {
    hide Clean, ToVisit;
  }

  lemma NoWorseProtocol(s: State, x: Cpu, cpu': CpuState)
    requires Inv(s) && x in s.cpus && NoWorse(s.cpus[x], cpu', s.writes)
    ensures Protocol(Put(s, x, cpu'))
  {
    hide CpuOk, CpusOk, LapsedOk, ProgressOk, FieldsOk;
    if s.lock.Some? {
      var c, cpus' := s.lock.value, s.cpus[x := cpu'];
      SinceOlder(s, c);
      NoWorseProgress(s.cpus[c].call, c, x, s.cpus[x], cpu', s.order, s.received, s.writes);
    }
  }

  lemma NoWorseKeeps(s: State, x: Cpu, cpu': CpuState)
    requires Inv(s) && x in s.cpus && NoWorse(s.cpus[x], cpu', s.writes)
    requires CpuOk(cpu', s.writes) && cpu'.active == s.cpus[x].active
    ensures Inv(Put(s, x, cpu'))
  {
    hide CpuOk, Protocol, LapsedOk, TodoOk, Holds;
    NoWorseProtocol(s, x, cpu');
    PutCpus(s.cpus, s.order, s.writes, x, cpu');
    PutLapsed(s.cpus, x, cpu');
  }

  lemma SinceOlder(s: State, c: Cpu)
    requires Inv(s) && c in s.cpus && !s.cpus[c].call.NoCall?
    ensures forall key :: Older(s.cpus[c].call.req.since, s.writes, key)
  {
    assert CpuOk(s.cpus[c], s.writes);
  }

  lemma TranslationKeeps(s: State, step: Step)
    requires Inv(s) && Enabled(s, step) && (step.Fill? || step.Drop? || step.SetCr3?)
    ensures Inv(Apply(s, step))
  {
    hide Inv;
    var cpu := s.cpus[step.c];
    CpuFacts(s, step.c);
    match step
    case Fill(c, page) => FillNoWorse(cpu, s.writes, page);
                          var key := Key(cpu.cr3, page);
                          NoWorseKeeps(s, c, cpu.(tlb := cpu.tlb[key := Version(s.writes, key)]));
    case Drop(c, key) => NoWorseKeeps(s, c, cpu.(tlb := WithoutKey(cpu.tlb, key)));
    case SetCr3(c, pd) =>
      if pd != cpu.cr3 {
        NoWorseKeeps(s, c, cpu.(cr3 := pd, tlb := map[]));
      }
  }

  lemma FillNoWorse(cpu: CpuState, writes: Writes, page: Page)
    requires CpuOk(cpu, writes)
    ensures var key := Key(cpu.cr3, page);
            var cpu' := cpu.(tlb := cpu.tlb[key := Version(writes, key)]);
            NoWorse(cpu, cpu', writes) && CpuOk(cpu', writes)
  {
    var key := Key(cpu.cr3, page);
    forall req | Clean(cpu, req) && (forall key :: Older(req.since, writes, key))
        ensures Clean(cpu.(tlb := cpu.tlb[key := Version(writes, key)]), req) {
      FillCleans(cpu, writes, page, req);
    }
  }

  lemma WriteKeeps(s: State, key: Key)
    requires Inv(s)
    ensures Inv(Apply(s, WriteTable(key)))
  {
    hide Clean;
    var s' := Apply(s, WriteTable(key));
    assert forall k :: Older(s.writes, s'.writes, k);
    forall c | c in s.cpus ensures CpuOk(s'.cpus[c], s'.writes) {
      assert CpuOk(s.cpus[c], s.writes);
      if !s.cpus[c].call.NoCall? {
        forall k ensures Older(s.cpus[c].call.req.since, s'.writes, k) {
          assert Older(s.cpus[c].call.req.since, s.writes, k);
        }
      }
    }
    if s.lock.Some? {
      var c := s.lock.value;
      forall d | d in s.cpus ensures ProgressOk(s'.cpus[c].call, c, d, s'.cpus[d], s.order, s.received) {
        assert ProgressOk(s.cpus[c].call, c, d, s.cpus[d], s.order, s.received);
      }
    }
  }

  // Going inactive, and new calls.

  lemma LapseProgress(call: Call, c: Cpu, d: Cpu, cpu: CpuState, cpu': CpuState, order: seq<Cpu>, received: bool,
                      x: Cpu)
    requires Holds(call) && ProgressOk(call, c, d, cpu, order, received)
    requires cpu'.tlb == cpu.tlb && cpu'.pending == cpu.pending && cpu'.handler == cpu.handler
    ensures ProgressOk(Lapse(call, x), c, d, cpu', order, received)
  {
  }

  lemma LapseCall(call: Call, x: Cpu, c: Cpu, others: set<Cpu>, pd: Directory, page: Page, global: bool)
    ensures Holds(Lapse(call, x)) <==> Holds(call)
    ensures TodoOk(call, c, others) ==> TodoOk(Lapse(call, x), c, others)
    ensures FieldsOk(call, pd, page, global) ==> FieldsOk(Lapse(call, x), pd, page, global)
    ensures !call.NoCall? ==> Lapse(call, x).req == call.req.(lapsed := call.req.lapsed + {x})
  {
  }

  lemma InactiveCpus(cpus: map<Cpu, CpuState>, cpus': map<Cpu, CpuState>, order: seq<Cpu>, writes: Writes, x: Cpu)
    requires CpusOk(cpus, order, writes) && x in cpus && cpus'.Keys == cpus.Keys
    requires forall c :: c in cpus ==>
               cpus'[c] == cpus[c].(call := Lapse(cpus[c].call, x), active := cpus[c].active && c != x)
    ensures CpusOk(cpus', order, writes)
  {
    hide Lapse, TodoOk;
    forall c | c in cpus ensures CpuOk(cpus'[c], writes) && TodoOk(cpus'[c].call, c, cpus'.Keys) {
      assert CpuOk(cpus[c], writes);
      LapseCall(cpus[c].call, x, c, cpus.Keys, 0, 0, false);
      LapseNone(cpus[c].call, x);
    }
  }

  lemma LapseNone(call: Call, x: Cpu)
    ensures Lapse(call, x).NoCall? <==> call.NoCall?
  {
  }

  lemma InactiveKeeps(s: State, x: Cpu)
    requires Inv(s) && x in s.cpus
    ensures Inv(Apply(s, SetActive(x, false)))
  {
    hide Lapse, TodoOk, Holds, FieldsOk, ProgressOk, CpuOk, CpusOk, Protocol;
    var s' := Apply(s, SetActive(x, false));
    forall c | c in s.cpus
      ensures Holds(s'.cpus[c].call) <==> Holds(s.cpus[c].call)
      ensures !s'.cpus[c].call.NoCall? ==>
                !s.cpus[c].call.NoCall? && s'.cpus[c].call.req.lapsed == s.cpus[c].call.req.lapsed + {x}
    {
      LapseCall(s.cpus[c].call, x, c, {}, 0, 0, false);
      LapseNone(s.cpus[c].call, x);
    }
    InactiveCpus(s.cpus, s'.cpus, s.order, s.writes, x);
    InactiveProtocol(s, x);
  }

  lemma InactiveProtocol(s: State, x: Cpu)
    requires Inv(s) && x in s.cpus
    ensures Protocol(Apply(s, SetActive(x, false)))
  {
    hide Lapse, TodoOk, Holds, FieldsOk, ProgressOk, CpusOk, LapsedOk;
    var s' := Apply(s, SetActive(x, false));
    if s.lock.Some? {
      var c := s.lock.value;
      LapseCall(s.cpus[c].call, x, c, {}, s.pd, s.page, s.global);
      forall d | d in s'.cpus ensures ProgressOk(s'.cpus[c].call, c, d, s'.cpus[d], s'.order, s'.received) {
        HolderProgress(s, d);
        LapseProgress(s.cpus[c].call, c, d, s.cpus[d], s'.cpus[d], s.order, s.received, x);
      }
    }
  }

  lemma ActiveKeeps(s: State, x: Cpu)
    requires Inv(s) && x in s.cpus
    ensures Inv(Apply(s, SetActive(x, true)))
  {
    hide CpusOk, Protocol;
    assert CpuOk(s.cpus[x], s.writes) && TodoOk(s.cpus[x].call, x, s.cpus.Keys) by {
      CpuFacts(s, x);
    }
    var cpu' := s.cpus[x].(active := true);
    PutCpus(s.cpus, s.order, s.writes, x, cpu');
    NoWorseProtocol(s, x, cpu');
  }

  lemma CpuFacts(s: State, x: Cpu)
    requires Inv(s) && x in s.cpus
    ensures CpuOk(s.cpus[x], s.writes) && TodoOk(s.cpus[x].call, x, s.cpus.Keys)
  {
  }

  lemma PropagateKeeps(s: State, c: Cpu, pd: Directory, v: Page, global: bool)
    requires Inv(s) && Enabled(s, Propagate(c, pd, v, global))
    ensures Inv(Apply(s, Propagate(c, pd, v, global)))
  {
    hide CpusOk, ProgressOk, Protocol;
    var s' := Apply(s, Propagate(c, pd, v, global));
    CpuFacts(s, c);
    PutCpus(s.cpus, s.order, s.writes, c, s'.cpus[c]);
    PutLock(s.cpus, s.lock, c, s'.cpus[c]);
    assert LapsedOk(s'.cpus);
    hide LapsedOk;
    if s.lock.Some? {
      var h := s.lock.value;
      HeldLapsed(s, h);
      SameProgress(s.cpus[h].call, h, c, s.cpus[c], s'.cpus[c], s.order, s.received);
    } else {
      NoneOutstanding(s, c);
    }
    PutProtocol(s, c, s'.cpus[c]);
  }

  lemma NoneOutstanding(s: State, d: Cpu)
    requires Protocol(s) && s.lock == None && d in s.cpus
    ensures !Outstanding(s.cpus[d])
  {
  }

  lemma SameProgress(call: Call, c: Cpu, d: Cpu, cpu: CpuState, cpu': CpuState, order: seq<Cpu>, received: bool)
    requires Holds(call) && ProgressOk(call, c, d, cpu, order, received)
    requires cpu'.tlb == cpu.tlb && cpu'.pending == cpu.pending && cpu'.handler == cpu.handler
    ensures ProgressOk(call, c, d, cpu', order, received)
  {
  }

  // The handler.

  lemma InterruptKeeps(s: State, x: Cpu)
    requires Inv(s) && Enabled(s, Interrupt(x))
    ensures Inv(Apply(s, Interrupt(x)))
  {
    hide CpusOk, Protocol, LapsedOk, LockOk;
    var s' := Apply(s, Interrupt(x));
    CpuFacts(s, x);
    HandledFor(s, x);
    PutCpus(s.cpus, s.order, s.writes, x, s'.cpus[x]);
    PutLapsed(s.cpus, x, s'.cpus[x]);
    PutLock(s.cpus, s.lock, x, s'.cpus[x]);
    var c := s.lock.value;
    HolderProgress(s, x);
    assert ProgressOk(s.cpus[c].call, c, x, s'.cpus[x], s.order, s.received);
    PutProtocol(s, x, s'.cpus[x]);
  }

  lemma HolderProgress(s: State, d: Cpu)
    requires Inv(s) && s.lock.Some? && d in s.cpus
    ensures s.lock.value in s.cpus && Holds(s.cpus[s.lock.value].call)
    ensures ProgressOk(s.cpus[s.lock.value].call, s.lock.value, d, s.cpus[d], s.order, s.received)
  {
    hide CpusOk, LapsedOk, ProgressOk;
  }

  /** A handler runs for the holder of the lock, which waits for it and has set the fields. */
  lemma HandledFor(s: State, x: Cpu)
    requires Inv(s) && x in s.cpus && Outstanding(s.cpus[x])
    ensures s.lock.Some? && s.lock.value in s.cpus
    ensures var call := s.cpus[s.lock.value].call;
            && call.Wait? && call.target == x && x != s.lock.value && !s.received
            && s.pd == call.req.pd && s.page == call.req.v && s.global == call.req.global
            && (s.cpus[x].handler == Store ==> Clean(s.cpus[x], call.req))
  {
    hide CpuOk, LapsedOk;
    var c := s.lock.value;
    assert ProgressOk(s.cpus[c].call, c, x, s.cpus[x], s.order, s.received);
    CpuFacts(s, c);
  }

  lemma HandlerKeeps(s: State, x: Cpu)
    requires Inv(s) && Enabled(s, RunHandler(x))
    ensures Inv(Apply(s, RunHandler(x)))
  {
    hide CpusOk, FieldsOk, ProgressOk, LapsedOk, LockOk, Flushed, Holds;
    HandledFor(s, x);
    var s', c := Apply(s, RunHandler(x)), s.lock.value;
    var cpu := s.cpus[x];
    CpuFacts(s, x);
    FlushedOk(cpu, s.writes, s.pd, s.page, s.global);
    PutCpus(s.cpus, s.order, s.writes, x, s'.cpus[x]);
    PutLapsed(s.cpus, x, s'.cpus[x]);
    PutLock(s.cpus, s.lock, x, s'.cpus[x]);
    forall d | d in s.cpus ensures ProgressOk(s.cpus[c].call, c, d, s'.cpus[d], s.order, s'.received) {
      HandlerProgress(s, x, d);
    }
  }

  lemma FlushedOk(cpu: CpuState, writes: Writes, pd: Directory, page: Page, global: bool)
    requires CpuOk(cpu, writes) && cpu.handler != Outside
    ensures match cpu.handler
            case ReadCr3 => CpuOk(cpu.(handler := Flush(cpu.cr3)), writes)
            case Flush(cr3) => CpuOk(cpu.(handler := Store, tlb := Flushed(cpu, cr3, pd, page, global)), writes)
            case _ => CpuOk(cpu.(handler := Outside), writes)
  {
  }

  lemma HandlerProgress(s: State, x: Cpu, d: Cpu)
    requires Inv(s) && Enabled(s, RunHandler(x)) && d in s.cpus && s.lock.Some? && s.lock.value in s.cpus
    ensures var s' := Apply(s, RunHandler(x));
            ProgressOk(s.cpus[s.lock.value].call, s.lock.value, d, s'.cpus[d], s.order, s'.received)
  {
    hide CpusOk, FieldsOk, LapsedOk, LockOk;
    HandledFor(s, x);
    var c := s.lock.value;
    var cpu, call := s.cpus[x], s.cpus[c].call;
    assert ProgressOk(call, c, d, s.cpus[d], s.order, s.received);
    assert CpuOk(cpu, s.writes) by {
      CpuFacts(s, x);
    }
    FlushCleans(cpu, s.writes, call.req);
  }

  // The initiator.

  lemma NextProgress(call: Call, c: Cpu, d: Cpu, cpu: CpuState, order: seq<Cpu>, received: bool, active: bool)
    requires Holds(call) && ProgressOk(call, c, d, cpu, order, received) && d in order
    requires call.Wait? ==> received
    requires call.Next? && call.todo != [] && !active ==> call.todo[0] in call.req.lapsed
    ensures var call', cpu', received' := NextCall(call, order, c, active), NextCpu(call, d, cpu), NextReceived(call, received);
            if Holds(call') then ProgressOk(call', c, d, cpu', order, received')
            else !Outstanding(cpu') && (d != c && d !in call.req.lapsed ==> Clean(cpu', call.req))
  {
    hide Clean;
    if call.Next? && call.todo != [] {
      assert call.todo == [call.todo[0]] + call.todo[1..];
    }
    assert Clean(NextCpu(call, d, cpu), call.req) <==> Clean(cpu, call.req) by {
      SameClean(cpu, NextCpu(call, d, cpu), call.req);
    }
  }

  lemma SameClean(cpu: CpuState, cpu': CpuState, req: Request)
    requires cpu'.tlb == cpu.tlb
    ensures Clean(cpu', req) <==> Clean(cpu, req)
  {
  }

  lemma NextTodo(call: Call, order: seq<Cpu>, c: Cpu, active: bool, others: set<Cpu>, pd: Directory, page: Page,
                 global: bool)
    requires Holds(call) && TodoOk(call, c, others) && FieldsOk(call, pd, page, global)
    requires (forall d :: d in order <==> d in others)
    ensures TodoOk(NextCall(call, order, c, active), c, others) && NextCall(call, order, c, active).req == call.req
    ensures FieldsOk(NextCall(call, order, c, active), if call.SetPd? then call.req.pd else pd,
                     if call.SetPage? then call.req.v else page, if call.SetGlobal? then call.req.global else global)
  {
    NextFields(call, order, c, active, pd, page, global);
    hide FieldsOk;
    match call
    case SetGlobal(req) =>
      assert forall d :: d in Others(order, c) ==> d in others && d != c;
    case Next(req, todo) =>
      if todo != [] {
        assert forall d :: d in todo[1..] ==> d in todo;
        assert todo[0] in todo;
      }
    case _ =>
  }

  lemma NextFields(call: Call, order: seq<Cpu>, c: Cpu, active: bool, pd: Directory, page: Page, global: bool)
    requires Holds(call) && FieldsOk(call, pd, page, global)
    ensures FieldsOk(NextCall(call, order, c, active), if call.SetPd? then call.req.pd else pd,
                     if call.SetPage? then call.req.v else page, if call.SetGlobal? then call.req.global else global)
  {
    hide Others;
  }

  lemma CallCpus(cpus: map<Cpu, CpuState>, cpus': map<Cpu, CpuState>, order: seq<Cpu>, writes: Writes, c: Cpu,
                 call: Call, call': Call)
    requires CpusOk(cpus, order, writes) && c in cpus && cpus[c].call == call && Holds(call) && cpus'.Keys == cpus.Keys
    requires !call'.NoCall? && call'.req == call.req && TodoOk(call', c, cpus.Keys)
    requires forall d :: d in cpus ==> cpus'[d] == NextCpu(call, d, if d == c then cpus[c].(call := call') else cpus[d])
    requires call.Send? ==> call.target != c && (call.target in cpus ==> cpus[call.target].handler == Outside)
    ensures CpusOk(cpus', order, writes)
  {
    hide TodoOk;
    forall d | d in cpus ensures CpuOk(cpus'[d], writes) && TodoOk(cpus'[d].call, d, cpus'.Keys) {
      assert CpuOk(cpus[d], writes) && TodoOk(cpus[d].call, d, cpus.Keys);
    }
  }

  lemma LockingKeeps(s: State, c: Cpu)
    requires Inv(s) && c in s.cpus && s.cpus[c].call.Locking? && s.lock == None
    ensures Inv(RunCallOf(s, c, s.cpus[c].call))
  {
    hide CpusOk;
    var s' := RunCallOf(s, c, s.cpus[c].call);
    CpuFacts(s, c);
    PutCpus(s.cpus, s.order, s.writes, c, s'.cpus[c]);
    PutLapsed(s.cpus, c, s'.cpus[c]);
  }

  lemma HeldLapsed(s: State, c: Cpu)
    requires Inv(s) && c in s.cpus && Holds(s.cpus[c].call)
    ensures var call := s.cpus[c].call;
            && s.lock == Some(c) && TodoOk(call, c, s.cpus.Keys) && FieldsOk(call, s.pd, s.page, s.global)
            && (call.Next? && call.todo != [] && !Visits(call, s.cpus) ==> call.todo[0] in call.req.lapsed)
            && (call.Send? ==> call.target in s.cpus && s.cpus[call.target].handler == Outside)
            && (forall d :: d in s.order <==> d in s.cpus)
            && (forall d :: d in s.cpus ==> ProgressOk(call, c, d, s.cpus[d], s.order, s.received))
  {
    hide CpuOk;
    var call := s.cpus[c].call;
    if call.Send? {
      assert ProgressOk(call, c, call.target, s.cpus[call.target], s.order, s.received);
    }
  }

  lemma CallProtocol(s: State, c: Cpu)
    requires Inv(s) && c in s.cpus && Holds(s.cpus[c].call) && CanRun(s, c, s.cpus[c].call)
    ensures Protocol(RunCallOf(s, c, s.cpus[c].call))
  {
    hide Inv, ProgressOk, FieldsOk, TodoOk, NextCall, NextCpu, Outstanding, Clean;
    HeldLapsed(s, c);
    var call := s.cpus[c].call;
    var s', call' := RunCallOf(s, c, call), NextCall(call, s.order, c, Visits(call, s.cpus));
    NextTodo(call, s.order, c, Visits(call, s.cpus), s.cpus.Keys, s.pd, s.page, s.global);
    NextHolds(call, s.order, c, Visits(call, s.cpus), s.cpus[c].(call := call'));
    forall d | d in s.cpus
      ensures Holds(call') ==> ProgressOk(call', c, d, s'.cpus[d], s.order, s'.received)
      ensures !Holds(call') ==> !Outstanding(s'.cpus[d])
    {
      NextProgress(call, c, d, s.cpus[d], s.order, s.received, Visits(call, s.cpus));
      var cpu' := NextCpu(call, d, s.cpus[d]);
      NextCpuSame(call, d, s.cpus[d], call');
      if Holds(call') {
        SameProgress(call', c, d, cpu', s'.cpus[d], s.order, s'.received);
      }
    }
  }

  lemma NextHolds(call: Call, order: seq<Cpu>, c: Cpu, active: bool, cpu: CpuState)
    requires Holds(call)
    ensures var call' := NextCall(call, order, c, active); Holds(call') <==> !call'.Returned?
    ensures NextCpu(call, c, cpu).call == cpu.call && !NextCall(call, order, c, active).NoCall?
  {
  }

  lemma NextCpuSame(call: Call, d: Cpu, cpu: CpuState, call': Call)
    ensures var a, b := NextCpu(call, d, cpu), NextCpu(call, d, cpu.(call := call'));
            b.tlb == a.tlb && b.pending == a.pending && b.handler == a.handler && b.active == cpu.active
            && a.call == cpu.call && a.active == cpu.active
            && (Outstanding(a) <==> Outstanding(b))
  {
  }

  lemma CallKeeps(s: State, c: Cpu)
    requires Inv(s) && c in s.cpus && Holds(s.cpus[c].call) && CanRun(s, c, s.cpus[c].call)
    ensures Inv(RunCallOf(s, c, s.cpus[c].call))
  {
    hide Protocol, FieldsOk, TodoOk, NextCall, NextCpu, CpuOk, CpusOk, ProgressOk;
    HeldLapsed(s, c);
    CallProtocol(s, c);
    var call := s.cpus[c].call;
    var s', call' := RunCallOf(s, c, call), NextCall(call, s.order, c, Visits(call, s.cpus));
    NextTodo(call, s.order, c, Visits(call, s.cpus), s.cpus.Keys, s.pd, s.page, s.global);
    NextHolds(call, s.order, c, Visits(call, s.cpus), s.cpus[c].(call := call'));
    assert call.Send? ==> call.target != c by {
      SendOther(call, c, s.cpus.Keys);
    }
    CallCpus(s.cpus, s'.cpus, s.order, s.writes, c, call, call');
    forall d | d in s.cpus
      ensures s'.cpus[d].active == s.cpus[d].active && (d != c ==> s'.cpus[d].call == s.cpus[d].call)
    {
      NextCpuSame(call, d, s.cpus[d], call');
    }
    assert s'.cpus[c].call == call';
  }

  lemma SendOther(call: Call, c: Cpu, others: set<Cpu>)
    requires TodoOk(call, c, others)
    ensures call.Send? ==> call.target != c
  {
  }

  lemma ApplyKeeps(s: State, step: Step)
    requires Inv(s) && Enabled(s, step)
    ensures Inv(Apply(s, step))
  {
    hide Inv;
    match step
    case WriteTable(key) => WriteKeeps(s, key);
    case SetActive(c, flag) => if flag { ActiveKeeps(s, c); } else { InactiveKeeps(s, c); }
    case Propagate(c, pd, v, global) => PropagateKeeps(s, c, pd, v, global);
    case RunCall(c) => if s.cpus[c].call.Locking? { LockingKeeps(s, c); } else { CallKeeps(s, c); }
    case Interrupt(c) => InterruptKeeps(s, c);
    case RunHandler(c) => HandlerKeeps(s, c);
    case _ => TranslationKeeps(s, step);
  }

  // Whole runs.

  ghost predicate IsRun(states: seq<State>, steps: seq<Step>) {
    && |states| == |steps| + 1 && Initial(states[0])
    && (forall i :: 0 <= i < |steps| ==> Enabled(states[i], steps[i]) && states[i + 1] == Apply(states[i], steps[i]))
  }

  lemma {:induction false} RunInv(states: seq<State>, steps: seq<Step>, i: nat)
    requires IsRun(states, steps) && i < |states|
    ensures Inv(states[i])
  {
    hide Inv, Enabled, Apply, Initial;
    if i == 0 {
      InitialInv(states[0]);
    } else {
      RunInv(states, steps, i - 1);
      ApplyKeeps(states[i - 1], steps[i - 1]);
    }
  }

  /** At most one flush IPI is outstanding, and it is answered for the holder of the lock. */
  lemma OneOutstanding(states: seq<State>, steps: seq<Step>, i: nat, d: Cpu, d': Cpu)
    requires IsRun(states, steps) && i < |states| && d in states[i].cpus && d' in states[i].cpus
    requires Outstanding(states[i].cpus[d]) && Outstanding(states[i].cpus[d'])
    ensures d == d' && !(states[i].cpus[d].pending && states[i].cpus[d].handler != Outside)
    ensures states[i].lock.Some? && states[i].lock.value != d
  {
    hide IsRun, Inv;
    RunInv(states, steps, i);
    HandledFor(states[i], d);
    HandledFor(states[i], d');
    CpuFacts(states[i], d);
  }

  lemma ReturnsClean(s: State, c: Cpu, d: Cpu)
    requires Inv(s) && Enabled(s, RunCall(c)) && d in s.cpus && d != c
    requires Apply(s, RunCall(c)).cpus[c].call.Returned?
    ensures var s' := Apply(s, RunCall(c));
            d in s'.cpus && (d !in s'.cpus[c].call.req.lapsed ==> Clean(s'.cpus[d], s'.cpus[c].call.req))
  {
    hide Inv, FieldsOk, TodoOk, NextCpu, ProgressOk, Outstanding, Clean;
    var call := s.cpus[c].call;
    HeldLapsed(s, c);
    NextProgress(call, c, d, s.cpus[d], s.order, s.received, Visits(call, s.cpus));
    NextCpuSame(call, d, s.cpus[d], s.cpus[d].call);
    NextHolds(call, s.order, c, Visits(call, s.cpus),
              s.cpus[c].(call := NextCall(call, s.order, c, Visits(call, s.cpus))));
  }

  /** The call CPU `c` made at step `j` is still its last. */
  ghost predicate CallOf(states: seq<State>, steps: seq<Step>, j: nat, k: nat, c: Cpu, pd: Directory, v: Page,
                         global: bool) {
    && IsRun(states, steps) && j < k < |states| && steps[j] == Propagate(c, pd, v, global)
    && (forall n :: j < n < k ==> !(steps[n].Propagate? && steps[n].c == c))
  }

  lemma NextRequest(call: Call, order: seq<Cpu>, c: Cpu, active: bool, d: Cpu, cpu: CpuState)
    requires !call.NoCall?
    ensures !NextCall(call, order, c, active).NoCall? && NextCall(call, order, c, active).req == call.req
    ensures NextCpu(call, d, cpu).call == cpu.call
  {
  }

  lemma RequestRun(s: State, x: Cpu, c: Cpu)
    requires Enabled(s, RunCall(x)) && c in s.cpus && !s.cpus[c].call.NoCall?
    ensures var s' := Apply(s, RunCall(x));
            c in s'.cpus && !s'.cpus[c].call.NoCall? && s'.cpus[c].call.req == s.cpus[c].call.req
  {
    hide NextCall, NextCpu, Visits;
    var call := s.cpus[x].call;
    NextRequest(call, s.order, x, Visits(call, s.cpus), c, s.cpus[c]);
    NextRequest(call, s.order, x, Visits(call, s.cpus), c,
                s.cpus[x].(call := NextCall(call, s.order, x, Visits(call, s.cpus))));
  }

  lemma RequestOther(s: State, step: Step, c: Cpu)
    requires Enabled(s, step) && c in s.cpus && !s.cpus[c].call.NoCall?
    requires !(step.Propagate? && step.c == c) && !step.RunCall? && (step.SetActive? ==> step.flag)
    ensures var s' := Apply(s, step); c in s'.cpus && s'.cpus[c].call == s.cpus[c].call
  {
    hide Flushed, RunCallOf, Lapse;
    match step
    case WriteTable(key) =>
    case Fill(x, page) =>
    case Drop(x, key) =>
    case SetCr3(x, pd) =>
    case SetActive(x, flag) =>
    case Propagate(x, pd, v, global) =>
    case Interrupt(x) =>
    case RunHandler(x) =>
  }

  lemma RequestLapse(s: State, x: Cpu, c: Cpu)
    requires x in s.cpus && c in s.cpus && !s.cpus[c].call.NoCall?
    ensures var s' := Apply(s, SetActive(x, false));
            && c in s'.cpus && !s'.cpus[c].call.NoCall? && x in s'.cpus && !s'.cpus[x].active
            && s'.cpus[c].call.req == s.cpus[c].call.req.(lapsed := s.cpus[c].call.req.lapsed + {x})
  {
    hide Lapse;
    LapseCall(s.cpus[c].call, x, c, {}, 0, 0, false);
    LapseNone(s.cpus[c].call, x);
  }

  /** A step by no new call of `c` keeps its request, but for a CPU that is inactive after it. */
  lemma RequestStep(s: State, step: Step, c: Cpu)
    requires Enabled(s, step) && c in s.cpus && !(step.Propagate? && step.c == c) && !s.cpus[c].call.NoCall?
    ensures var s' := Apply(s, step);
            && c in s'.cpus && !s'.cpus[c].call.NoCall?
            && s'.cpus[c].call.req == s.cpus[c].call.req.(lapsed := s'.cpus[c].call.req.lapsed)
            && forall d :: d in s'.cpus[c].call.req.lapsed ==>
                 d in s.cpus[c].call.req.lapsed || (d in s'.cpus && !s'.cpus[d].active)
  {
    if step.RunCall? {
      RequestRun(s, step.c, c);
    } else if step.SetActive? && !step.flag {
      RequestLapse(s, step.c, c);
    } else {
      RequestOther(s, step, c);
    }
    hide Apply;
  }

  lemma RequestFirst(s: State, c: Cpu, pd: Directory, v: Page, global: bool)
    requires Enabled(s, Propagate(c, pd, v, global))
    ensures var s' := Apply(s, Propagate(c, pd, v, global));
            && c in s'.cpus && !s'.cpus[c].call.NoCall?
            && var req := s'.cpus[c].call.req;
               && req.pd == pd && req.v == v && req.global == global && req.since == s.writes
               && forall d :: d in req.lapsed ==> d in s.cpus && !s.cpus[d].active
  {
  }

  lemma {:induction false} RequestSince(states: seq<State>, steps: seq<Step>, j: nat, k: nat, c: Cpu, pd: Directory,
                                        v: Page, global: bool)
    requires CallOf(states, steps, j, k, c, pd, v, global)
    ensures c in states[k].cpus && !states[k].cpus[c].call.NoCall?
    ensures var req := states[k].cpus[c].call.req;
            req.pd == pd && req.v == v && req.global == global && req.since == states[j].writes
    ensures forall d :: d in states[k].cpus[c].call.req.lapsed ==>
              exists n :: j <= n <= k && d in states[n].cpus && !states[n].cpus[d].active
  {
    hide Apply, Enabled;
    assert Enabled(states[k - 1], steps[k - 1]) && states[k] == Apply(states[k - 1], steps[k - 1]);
    if k == j + 1 {
      RequestFirst(states[j], c, pd, v, global);
    } else {
      RequestSince(states, steps, j, k - 1, c, pd, v, global);
      RequestStep(states[k - 1], steps[k - 1], c);
    }
  }

  /** When paging_propagate_changes returns, no other CPU that was active throughout the call holds a
      translation the call covers that is older than a table write made before it. */
  lemma NothingStale(states: seq<State>, steps: seq<Step>, j: nat, i: nat, c: Cpu, pd: Directory, v: Page,
                     global: bool, d: Cpu, page: Page)
    requires CallOf(states, steps, j, i, c, pd, v, global) && i < |steps| && steps[i] == RunCall(c)
    requires c in states[i + 1].cpus && states[i + 1].cpus[c].call.Returned?
    requires d != c && forall n :: j <= n <= i + 1 ==> d in states[n].cpus && states[n].cpus[d].active
    requires v == 0 || page == v
    ensures Key(pd, page) in states[i + 1].cpus[d].tlb ==>
              states[i + 1].cpus[d].tlb[Key(pd, page)] >= Version(states[j].writes, Key(pd, page))
  {
    hide Inv, Apply, Enabled;
    RunInv(states, steps, i);
    assert Enabled(states[i], steps[i]) && states[i + 1] == Apply(states[i], steps[i]);
    RequestSince(states, steps, j, i + 1, c, pd, v, global);
    ReturnsClean(states[i], c, d);
    assert Clean(states[i + 1].cpus[d], states[i + 1].cpus[c].call.req);
  }
}
