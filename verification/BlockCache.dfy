/** The ATA block cache of kernel/kernel/drivers/ata/generic.c: lock, read and unlock by any number
    of threads over a disk that does not change. A claim is one call of lock not yet undone by the
    end of its unlock; a thread may have several. */
module BlockCache {
  import opened Base
  import opened Eviction

  const CACHE_SIZE: nat := 20           // GEN_ATA_CACHE_SIZE
  const SECTOR: nat := 512              // IDE_SECTOR_SIZE

  type ClaimId = nat
  type Bytes = seq<int>
  datatype Block = Block(drive: nat, num: nat)
  type Disk = Block -> Bytes

  /** struct block. `mutex` is the claim that holds the slot's mutex; `used` records that some claim
      has ever had the slot, and no code reads it. */
  datatype Slot = Slot(block: Block, ref: nat, hit: Uint, valid: bool, data: Bytes, mutex: Option<ClaimId>, used: bool)

  datatype Phase =
    | Waiting                  // between the spinlock's release and the mutex
    | Holding
    | Filling(fetch: Block)    // gen_ata_read_block is under way
    | Leaving                  // the mutex is released, ref is not yet

  datatype Claim = Claim(slot: nat, block: Block, phase: Phase)

  /** `returned` is what the last read of each claim returned. */
  datatype State = State(slots: seq<Slot>, claims: map<ClaimId, Claim>, returned: map<ClaimId, Bytes>)

  datatype Step =
    | Lock(id: ClaimId, block: Block)
    | Acquire(id: ClaimId)
    | BeginFill(id: ClaimId, partial: Bytes)
    | EndFill(id: ClaimId)
    | Read(id: ClaimId, off: nat, len: nat)
    | Release(id: ClaimId)
    | Unref(id: ClaimId)

  function EmptySlot(): Slot {
    Slot(Block(0, 0), 0, 0, false, seq(SECTOR, _ => 0), None, false)
  }

  function Initial(): State {
    State(seq(CACHE_SIZE, _ => EmptySlot()), map[], map[])
  }

  // The two searches of gen_ata_bd_lock.

  /** The first slot from `i` on that has the block, or the number of slots. */
  function FindHit(slots: seq<Slot>, block: Block, i: nat): (k: nat)
    requires i <= |slots|
    ensures i <= k <= |slots| && (k < |slots| ==> slots[k].block == block)
    ensures forall j :: i <= j < k ==> slots[j].block != block
    decreases |slots| - i
  {
    if i == |slots| then i else if slots[i].block == block then i else FindHit(slots, block, i + 1)
  }

  function Uses(slots: seq<Slot>): seq<Use> {
    seq(|slots|, k requires 0 <= k < |slots| => Use(slots[k].ref, slots[k].hit))
  }

  /** The slot lock takes for the block, if it does not panic. */
  function Target(slots: seq<Slot>, block: Block): (k: nat)
    ensures k <= |slots|
  {
    var k := FindHit(slots, block, 0);
    if k < |slots| then k else Victim(Uses(slots), |slots|)
  }

  /** lock panics exactly when no slot has the block and every slot is referenced or hit UINT_MAX times. */
  lemma FullCache(slots: seq<Slot>, block: Block)
    ensures Target(slots, block) == |slots| <==>
              forall j :: 0 <= j < |slots| ==> slots[j].block != block && !Evictable(Uses(slots)[j])
  {
    var k := FindHit(slots, block, 0);
    if k < |slots| {
      assert slots[k].block == block;
    } else {
      var v := Victim(Uses(slots), |slots|);
      if v < |slots| {
        assert Evictable(Uses(slots)[v]);
      }
    }
  }

  function Claimed(slot: Slot, block: Block): Slot {
    if slot.block == block then slot.(ref := slot.ref + 1, hit := (slot.hit + 1) % (UINT_MAX + 1), used := true)
    else Slot(block, 1, 1, false, seq(SECTOR, _ => 0), None, true)
  }

  /** The cache itself; each method is what the code does while it has the cache's spinlock. */
  class Cache {
    var slots: seq<Slot>

    constructor ()
      ensures slots == Initial().slots
    {
      slots := seq(CACHE_SIZE, _ => EmptySlot());
    }

    /** gen_ata_bd_lock up to the mutex: the slot, or the number of slots where the code panics. */
    method Lock(block: Block) returns (index: nat)
      modifies this
      ensures index == Target(old(slots), block)
      ensures slots ==
              if index < |old(slots)| then old(slots)[index := Claimed(old(slots)[index], block)] else old(slots)
    {
      var i := 0;
      while i < |slots|
        invariant i <= |slots| && slots == old(slots)
        invariant FindHit(slots, block, 0) == FindHit(slots, block, i)
      {
        var b := slots[i];
        if b.block == block {
          slots := slots[i := b.(ref := b.ref + 1, hit := (b.hit + 1) % (UINT_MAX + 1), used := true)];
          return i;
        }
        i := i + 1;
      }
      hide Victim;
      index := FindVictim(Uses(slots));
      if index < |slots| {
        slots := slots[index := Slot(block, 1, 1, false, seq(SECTOR, _ => 0), None, true)];
      }
    }

    /** gen_ata_bd_unlock after the mutex. */
    method Unref(index: nat)
      requires index < |slots| && slots[index].ref > 0
      modifies this
      ensures slots == old(slots)[index := old(slots)[index].(ref := old(slots)[index].ref - 1)]
    {
      slots := slots[index := slots[index].(ref := slots[index].ref - 1)];
    }
  }

  // Steps.

  predicate HasPhase(s: State, id: ClaimId, phase: Phase) {
    id in s.claims && s.claims[id].phase == phase && s.claims[id].slot < |s.slots|
  }

  predicate Enabled(s: State, step: Step) {
    match step
    case Lock(id, block) => id !in s.claims && Target(s.slots, block) < |s.slots|
    case Acquire(id) => HasPhase(s, id, Waiting) && s.slots[s.claims[id].slot].mutex == None
    case BeginFill(id, partial) => HasPhase(s, id, Holding) && !s.slots[s.claims[id].slot].valid
    case EndFill(id) => id in s.claims && s.claims[id].phase.Filling? && s.claims[id].slot < |s.slots|
    case Read(id, off, len) =>
      HasPhase(s, id, Holding) && s.slots[s.claims[id].slot].valid && off < SECTOR && off + len <= SECTOR
    case Release(id) => HasPhase(s, id, Holding)
    case Unref(id) => HasPhase(s, id, Leaving) && s.slots[s.claims[id].slot].ref > 0
  }

  function Slice(data: Bytes, off: nat, len: nat): Bytes {
    if off + len <= |data| then data[off..off + len] else []
  }

  function SetPhase(s: State, id: ClaimId, phase: Phase, slot: Slot): State
    requires id in s.claims && s.claims[id].slot < |s.slots|
  {
    s.(claims := s.claims[id := s.claims[id].(phase := phase)], slots := s.slots[s.claims[id].slot := slot])
  }

  function Apply(s: State, disk: Disk, step: Step): State
    requires Enabled(s, step)
  {
    match step
    case Lock(id, block) =>
      var k := Target(s.slots, block);
      s.(slots := s.slots[k := Claimed(s.slots[k], block)], claims := s.claims[id := Claim(k, block, Waiting)])
    case Acquire(id) =>
      SetPhase(s, id, Holding, s.slots[s.claims[id].slot].(mutex := Some(id)))
    case BeginFill(id, partial) =>
      var b := s.slots[s.claims[id].slot];
      SetPhase(s, id, Filling(b.block), b.(data := partial))
    case EndFill(id) =>
      var b := s.slots[s.claims[id].slot];
      SetPhase(s, id, Holding, b.(data := disk(s.claims[id].phase.fetch), valid := true))
    case Read(id, off, len) =>
      s.(returned := s.returned[id := Slice(s.slots[s.claims[id].slot].data, off, len)])
    case Release(id) =>
      SetPhase(s, id, Leaving, s.slots[s.claims[id].slot].(mutex := None))
    case Unref(id) =>
      var k := s.claims[id].slot;
      s.(slots := s.slots[k := s.slots[k].(ref := s.slots[k].ref - 1)], claims := s.claims - {id})
  }

  // What every step keeps.

  ghost function ClaimsOn(claims: map<ClaimId, Claim>, k: nat): set<ClaimId> {
    set id | id in claims && claims[id].slot == k
  }

  predicate InMutex(phase: Phase) {
    phase.Holding? || phase.Filling?
  }

  /** Slot `k` against the claims. */
  ghost predicate SlotOk(slot: Slot, k: nat, claims: map<ClaimId, Claim>, disk: Disk) {
    && slot.ref == |ClaimsOn(claims, k)|
    && (slot.valid ==> slot.data == disk(slot.block))
    && (slot.hit > 0 || slot.ref > 0 ==> slot.used)
    && (forall id :: id in claims && claims[id].slot == k ==>
          && claims[id].block == slot.block
          && (InMutex(claims[id].phase) <==> slot.mutex == Some(id))
          && (claims[id].phase.Filling? ==> claims[id].phase.fetch == slot.block && !slot.valid))
    && (slot.mutex.Some? ==> slot.mutex.value in claims && claims[slot.mutex.value].slot == k)
  }

  /** Of two slots with one label, the later has never been used. */
  ghost predicate LabelsOk(slots: seq<Slot>) {
    forall j, k :: 0 <= j < k < |slots| && slots[j].block == slots[k].block ==> !slots[k].used
  }

  ghost predicate Inv(s: State, disk: Disk) {
    && LabelsOk(s.slots)
    && (forall k :: 0 <= k < |s.slots| ==> SlotOk(s.slots[k], k, s.claims, disk))
    && (forall id :: id in s.claims ==> s.claims[id].slot < |s.slots|)
  }

  lemma InitialInv(disk: Disk)
    ensures Inv(Initial(), disk)
  {
    forall k: nat ensures ClaimsOn(map[], k) == {} {
    }
  }

  lemma LockLabels(slots: seq<Slot>, block: Block)
    requires LabelsOk(slots) && Target(slots, block) < |slots|
    ensures var k := Target(slots, block); LabelsOk(slots[k := Claimed(slots[k], block)])
  {
  }

  /** A slot that changes label had no claim on it. */
  lemma Relabelled(s: State, disk: Disk, block: Block)
    requires Inv(s, disk) && Target(s.slots, block) < |s.slots| && s.slots[Target(s.slots, block)].block != block
    ensures ClaimsOn(s.claims, Target(s.slots, block)) == {}
    ensures forall j :: 0 <= j < |s.slots| ==> s.slots[j].block != block
  {
    var k := Target(s.slots, block);
    assert SlotOk(s.slots[k], k, s.claims, disk);
  }

  lemma SlotClaimed(slot: Slot, k: nat, claims: map<ClaimId, Claim>, id: ClaimId, block: Block, disk: Disk)
    requires SlotOk(slot, k, claims, disk) && id !in claims && (slot.block == block || ClaimsOn(claims, k) == {})
    ensures SlotOk(Claimed(slot, block), k, claims[id := Claim(k, block, Waiting)], disk)
  {
    var claims' := claims[id := Claim(k, block, Waiting)];
    assert ClaimsOn(claims', k) == ClaimsOn(claims, k) + {id};
    if slot.block != block {
      assert forall x :: x in claims && claims[x].slot == k ==> x in ClaimsOn(claims, k);
    }
  }

  lemma SlotElsewhere(slot: Slot, k: nat, claims: map<ClaimId, Claim>, id: ClaimId, claim: Claim, disk: Disk)
    requires SlotOk(slot, k, claims, disk) && id !in claims && claim.slot != k
    ensures SlotOk(slot, k, claims[id := claim], disk)
  {
    assert ClaimsOn(claims[id := claim], k) == ClaimsOn(claims, k);
  }

  lemma LockSlot(s: State, disk: Disk, id: ClaimId, block: Block, k: nat)
    requires Inv(s, disk) && Enabled(s, Lock(id, block)) && k < |s.slots|
    ensures var s' := Apply(s, disk, Lock(id, block)); SlotOk(s'.slots[k], k, s'.claims, disk)
  {
    hide SlotOk, Claimed, LabelsOk;
    var t := Target(s.slots, block);
    if k == t {
      if s.slots[k].block != block {
        Relabelled(s, disk, block);
      }
      SlotClaimed(s.slots[k], k, s.claims, id, block, disk);
    } else {
      SlotElsewhere(s.slots[k], k, s.claims, id, Claim(t, block, Waiting), disk);
    }
  }

  lemma LockKeeps(s: State, disk: Disk, id: ClaimId, block: Block)
    requires Inv(s, disk) && Enabled(s, Lock(id, block))
    ensures Inv(Apply(s, disk, Lock(id, block)), disk)
  {
    hide SlotOk, LabelsOk, Target, Claimed;
    LockLabels(s.slots, block);
    forall k: nat | k < |s.slots|
      ensures var s' := Apply(s, disk, Lock(id, block)); SlotOk(s'.slots[k], k, s'.claims, disk)
    {
      LockSlot(s, disk, id, block, k);
    }
  }

  /** A claim moves on without changing its slot's label, count or use. */
  lemma PhaseKeeps(s: State, disk: Disk, id: ClaimId, phase: Phase, slot: Slot)
    requires Inv(s, disk) && id in s.claims && s.claims[id].slot < |s.slots|
    requires var was := s.slots[s.claims[id].slot];
             slot.block == was.block && slot.ref == was.ref && slot.hit == was.hit && slot.used == was.used
    requires SlotOk(slot, s.claims[id].slot, s.claims[id := s.claims[id].(phase := phase)], disk)
    ensures Inv(SetPhase(s, id, phase, slot), disk)
  {
    var s', t := SetPhase(s, id, phase, slot), s.claims[id].slot;
    forall k: nat | k < |s'.slots| ensures SlotOk(s'.slots[k], k, s'.claims, disk) {
      assert SlotOk(s.slots[k], k, s.claims, disk);
      assert ClaimsOn(s'.claims, k) == ClaimsOn(s.claims, k);
    }
  }

  lemma PhaseSlot(s: State, disk: Disk, step: Step)
    requires Inv(s, disk) && Enabled(s, step) && (step.Acquire? || step.BeginFill? || step.EndFill? || step.Release?)
    ensures Inv(Apply(s, disk, step), disk)
  {
    var id := step.id;
    var k := s.claims[id].slot;
    var b := s.slots[k];
    assert SlotOk(b, k, s.claims, disk);
    var s' := Apply(s, disk, step);
    assert ClaimsOn(s'.claims, k) == ClaimsOn(s.claims, k);
    PhaseKeeps(s, disk, id, s'.claims[id].phase, s'.slots[k]);
  }

  lemma UnrefKeeps(s: State, disk: Disk, id: ClaimId)
    requires Inv(s, disk) && Enabled(s, Unref(id))
    ensures Inv(Apply(s, disk, Unref(id)), disk)
  {
    hide SlotOk, LabelsOk;
    var s', t := Apply(s, disk, Unref(id)), s.claims[id].slot;
    forall k: nat | k < |s'.slots| ensures SlotOk(s'.slots[k], k, s'.claims, disk) {
      SlotLeft(s.slots[k], k, s.claims, id, disk);
    }
    assert LabelsOk(s'.slots) by {
      SameLabels(s.slots, s'.slots);
    }
  }

  lemma SlotLeft(slot: Slot, k: nat, claims: map<ClaimId, Claim>, id: ClaimId, disk: Disk)
    requires SlotOk(slot, k, claims, disk) && id in claims && claims[id].phase == Leaving
    ensures claims[id].slot != k ==> SlotOk(slot, k, claims - {id}, disk)
    ensures claims[id].slot == k && slot.ref > 0 ==> SlotOk(slot.(ref := slot.ref - 1), k, claims - {id}, disk)
  {
    if claims[id].slot == k {
      assert ClaimsOn(claims, k) == ClaimsOn(claims - {id}, k) + {id};
    } else {
      assert ClaimsOn(claims - {id}, k) == ClaimsOn(claims, k);
    }
  }

  lemma SameLabels(slots: seq<Slot>, slots': seq<Slot>)
    requires LabelsOk(slots) && |slots'| == |slots|
    requires forall k :: 0 <= k < |slots| ==> slots'[k].block == slots[k].block && slots'[k].used == slots[k].used
    ensures LabelsOk(slots')
  {
  }

  lemma ApplyKeeps(s: State, disk: Disk, step: Step)
    requires Inv(s, disk) && Enabled(s, step)
    ensures Inv(Apply(s, disk, step), disk)
  {
    hide Inv, Enabled, Apply;
    match step
    case Lock(id, block) => LockKeeps(s, disk, id, block);
    case Unref(id) => UnrefKeeps(s, disk, id);
    case Read(id, off, len) => ReadKeeps(s, disk, id, off, len);
    case _ => PhaseSlot(s, disk, step);
  }

  lemma ReadKeeps(s: State, disk: Disk, id: ClaimId, off: nat, len: nat)
    requires Inv(s, disk) && Enabled(s, Read(id, off, len))
    ensures Inv(Apply(s, disk, Read(id, off, len)), disk)
  {
    hide SlotOk, LabelsOk;
  }

  // Whole runs, from the all-zero cache.

  ghost predicate IsRun(states: seq<State>, steps: seq<Step>, disk: Disk) {
    && |states| == |steps| + 1 && states[0] == Initial()
    && (forall i :: 0 <= i < |steps| ==>
          Enabled(states[i], steps[i]) && states[i + 1] == Apply(states[i], disk, steps[i]))
  }

  lemma {:induction false} RunInv(states: seq<State>, steps: seq<Step>, disk: Disk, i: nat)
    requires IsRun(states, steps, disk) && i < |states|
    ensures Inv(states[i], disk)
  {
    hide Inv, Enabled, Apply;
    if i == 0 {
      InitialInv(disk);
    } else {
      RunInv(states, steps, disk, i - 1);
      ApplyKeeps(states[i - 1], disk, steps[i - 1]);
    }
  }

  /** A slot's ref is the number of claims between taking it and finishing unlock. */
  lemma RefCountsClaims(states: seq<State>, steps: seq<Step>, disk: Disk, i: nat, k: nat)
    requires IsRun(states, steps, disk) && i < |states| && k < |states[i].slots|
    ensures states[i].slots[k].ref == |set id | id in states[i].claims && states[i].claims[id].slot == k|
  {
    hide IsRun;
    RunInv(states, steps, disk, i);
    assert SlotOk(states[i].slots[k], k, states[i].claims, disk);
    assert ClaimsOn(states[i].claims, k) == set id | id in states[i].claims && states[i].claims[id].slot == k;
  }

  /** A slot changes its label only while no claim holds its mutex, awaits it or is leaving it. */
  lemma RelabelledWhenFree(states: seq<State>, steps: seq<Step>, disk: Disk, i: nat, k: nat)
    requires IsRun(states, steps, disk) && i < |steps| && k < |states[i].slots|
    ensures |states[i + 1].slots| == |states[i].slots|
    ensures states[i + 1].slots[k].block != states[i].slots[k].block ==>
              states[i].slots[k].mutex == None && forall id :: id in states[i].claims ==> states[i].claims[id].slot != k
  {
    hide SlotOk, LabelsOk, FindHit, Victim;
    RunInv(states, steps, disk, i);
    var s := states[i];
    assert Enabled(s, steps[i]) && states[i + 1] == Apply(s, disk, steps[i]);
    if steps[i].Lock? && k == Target(s.slots, steps[i].block) && s.slots[k].block != steps[i].block {
      Relabelled(s, disk, steps[i].block);
      NobodyInside(s, disk, k);
    }
  }

  lemma NobodyInside(s: State, disk: Disk, k: nat)
    requires Inv(s, disk) && k < |s.slots| && ClaimsOn(s.claims, k) == {}
    ensures s.slots[k].mutex == None && forall id :: id in s.claims ==> s.claims[id].slot != k
  {
    assert SlotOk(s.slots[k], k, s.claims, disk);
    forall id | id in s.claims ensures s.claims[id].slot != k {
      assert id !in ClaimsOn(s.claims, k);
    }
  }

  /** No two slots that have been hit have one block. */
  lemma OneSlotPerBlock(states: seq<State>, steps: seq<Step>, disk: Disk, i: nat, j: nat, k: nat)
    requires IsRun(states, steps, disk) && i < |states| && j < |states[i].slots| && k < |states[i].slots|
    requires states[i].slots[j].hit > 0 && states[i].slots[k].hit > 0
    requires states[i].slots[j].block == states[i].slots[k].block
    ensures j == k
  {
    hide IsRun;
    RunInv(states, steps, disk, i);
    assert SlotOk(states[i].slots[j], j, states[i].claims, disk);
    assert SlotOk(states[i].slots[k], k, states[i].claims, disk);
  }

  /** The claim `id` locked the block at step `j` and has not finished its unlock before state `i`. */
  ghost predicate LockedSince(states: seq<State>, steps: seq<Step>, j: nat, i: nat, id: ClaimId, block: Block) {
    && j < i < |states| && i <= |steps| && steps[j] == Lock(id, block)
    && forall m :: j < m < i ==> steps[m] != Unref(id)
  }

  lemma ClaimStep(s: State, disk: Disk, step: Step, id: ClaimId)
    requires Enabled(s, step) && id in s.claims && step != Unref(id)
    ensures id in Apply(s, disk, step).claims && Apply(s, disk, step).claims[id].block == s.claims[id].block
  {
    hide FindHit, Victim;
  }

  lemma {:induction false} ClaimOfLock(states: seq<State>, steps: seq<Step>, disk: Disk, j: nat, i: nat, id: ClaimId,
                                       block: Block)
    requires IsRun(states, steps, disk) && LockedSince(states, steps, j, i, id, block)
    ensures id in states[i].claims && states[i].claims[id].block == block
    decreases i
  {
    hide FindHit, Victim;
    if i > j + 1 {
      ClaimOfLock(states, steps, disk, j, i - 1, id, block);
      assert Enabled(states[i - 1], steps[i - 1]) && states[i] == Apply(states[i - 1], disk, steps[i - 1]);
      ClaimStep(states[i - 1], disk, steps[i - 1], id);
    } else {
      assert Enabled(states[j], steps[j]) && states[j + 1] == Apply(states[j], disk, steps[j]);
    }
  }

  /** A read of a block that was locked returns the bytes the disk has in that block from the offset on. */
  lemma ReadsTheDisk(states: seq<State>, steps: seq<Step>, disk: Disk, j: nat, i: nat, id: ClaimId, block: Block,
                     off: nat, len: nat)
    requires IsRun(states, steps, disk) && LockedSince(states, steps, j, i, id, block)
    requires i < |steps| && steps[i] == Read(id, off, len) && |disk(block)| == SECTOR
    ensures id in states[i + 1].returned && off + len <= SECTOR
    ensures var bytes := states[i + 1].returned[id];
            |bytes| == len && forall k :: 0 <= k < len ==> bytes[k] == disk(block)[off + k]
  {
    hide FindHit, Victim;
    RunInv(states, steps, disk, i);
    ClaimOfLock(states, steps, disk, j, i, id, block);
    assert Enabled(states[i], steps[i]);
    var k := states[i].claims[id].slot;
    assert SlotOk(states[i].slots[k], k, states[i].claims, disk);
  }

  // How often a slot has been hit.

  predicate LocksBlock(step: Step, block: Block) {
    step.Lock? && step.block == block
  }

  /** The locks of the block in the steps from `j` to `i`. */
  function LocksOf(steps: seq<Step>, j: nat, i: nat, block: Block): nat
    requires j <= i <= |steps|
  {
    if i == j then 0 else LocksOf(steps, j, i - 1, block) + if LocksBlock(steps[i - 1], block) then 1 else 0
  }

  ghost predicate HasBlock(states: seq<State>, j: nat, i: nat, k: nat, block: Block) {
    i < |states| && forall m :: j <= m <= i ==> k < |states[m].slots| && states[m].slots[k].block == block
  }

  /** A used slot is the one that a lock of its block takes. */
  lemma UsedIsTarget(slots: seq<Slot>, k: nat)
    requires LabelsOk(slots) && k < |slots| && slots[k].used
    ensures Target(slots, slots[k].block) == k
  {
    hide Victim;
  }

  lemma StepHit(s: State, disk: Disk, step: Step, k: nat)
    requires Enabled(s, step) && LabelsOk(s.slots) && k < |s.slots| && s.slots[k].used
    ensures var s' := Apply(s, disk, step);
            && |s'.slots| == |s.slots| && s'.slots[k].used
            && (s'.slots[k].block == s.slots[k].block ==>
                  s'.slots[k].hit == if LocksBlock(step, s.slots[k].block) then (s.slots[k].hit + 1) % (UINT_MAX + 1)
                                     else s.slots[k].hit)
            && (s'.slots[k].block != s.slots[k].block ==> s'.slots[k].hit == 1)
  {
    UsedIsTarget(s.slots, k);
    hide FindHit, Victim, LabelsOk;
  }

  /** While a slot keeps its block, its hit counter goes up by one for each lock of that block, by any
      claim, as far as 32 bits count. */
  lemma {:induction false} HitsCountLocks(states: seq<State>, steps: seq<Step>, disk: Disk, j: nat, i: nat, k: nat,
                                          block: Block)
    requires IsRun(states, steps, disk) && j <= i < |states| && HasBlock(states, j, i, k, block)
    requires states[j].slots[k].hit > 0
    ensures states[i].slots[k].used
    ensures states[i].slots[k].hit == (states[j].slots[k].hit + LocksOf(steps, j, i, block)) % (UINT_MAX + 1)
    decreases i
  {
    hide Enabled, Apply, LabelsOk, SlotOk, LocksBlock;
    if i == j {
      RunInv(states, steps, disk, j);
      HitIsUsed(states[j], disk, k);
    } else {
      HitsCountLocks(states, steps, disk, j, i - 1, k, block);
      RunInv(states, steps, disk, i - 1);
      StepHit(states[i - 1], disk, steps[i - 1], k);
    }
  }

  lemma HitIsUsed(s: State, disk: Disk, k: nat)
    requires Inv(s, disk) && k < |s.slots| && s.slots[k].hit > 0
    ensures s.slots[k].used
  {
    assert SlotOk(s.slots[k], k, s.claims, disk);
  }

  /** Two claims are never inside one slot's mutex. */
  lemma MutexExcludes(states: seq<State>, steps: seq<Step>, disk: Disk, i: nat, id: ClaimId, id': ClaimId)
    requires IsRun(states, steps, disk) && i < |states| && id in states[i].claims && id' in states[i].claims
    requires states[i].claims[id].slot == states[i].claims[id'].slot
    requires InMutex(states[i].claims[id].phase) && InMutex(states[i].claims[id'].phase)
    ensures id == id'
  {
    hide IsRun;
    RunInv(states, steps, disk, i);
    var k := states[i].claims[id].slot;
    assert SlotOk(states[i].slots[k], k, states[i].claims, disk);
  }
}
