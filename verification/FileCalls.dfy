/** Which file a descriptor and a call in flight stand for, over every run of OpenFiles: from the open
    that makes the file to the unbind that takes the descriptor away. */
module FileCalls {
  import opened Base
  import opened Eviction
  import opened FatNodes
  import opened OpenFiles

  lemma StepOf(states: seq<State>, steps: seq<Step>, i: nat)
    requires IsRun(states, steps) && i < |steps|
    ensures Inv(states[i]) && Enabled(states[i], steps[i]) && Safe(states[i], steps[i])
    ensures |states| == |steps| + 1 && states[i + 1] == Apply(states[i], steps[i])
  {
    hide Inv, Enabled, Apply, Safe;
    RunInv(states, steps, i);
    NeverDangling(states, steps, i);
  }

  /** The step takes the handle away: it binds or closes the call's file, or unbinds the descriptor. */
  predicate Takes(step: Step, h: Handle) {
    match step
    case Bind(call, _) => h == InFlight(call)
    case Close(call) => h == InFlight(call)
    case Unbind(_, pid, fd) => h == Fd(pid, fd)
    case _ => false
  }

  /** A handle names the same file until a step takes it away, and the file keeps its cluster and node. */
  lemma HandleStep(s: State, step: Step, h: Handle)
    requires Inv(s) && Enabled(s, step) && Safe(s, step) && h in s.handles && !Takes(step, h)
    ensures var s', f := Apply(s, step), s.handles[h];
            && h in s'.handles && s'.handles[h] == f && f in s.files && f in s'.files
            && s'.files[f].cluster == s.files[f].cluster && s'.files[f].node == s.files[f].node
  {
    HeldFile(s, h);
    if step.FreeFile? {
      ClosingFile(s, step.call);
    }
    hide Inv, Got, Truncated;
  }

  ghost predicate Untaken(steps: seq<Step>, j: nat, i: nat, h: Handle) {
    forall m :: j <= m < i && m < |steps| ==> !Takes(steps[m], h)
  }

  lemma {:induction false} HandleKeepsFile(states: seq<State>, steps: seq<Step>, j: nat, i: nat, h: Handle)
    requires IsRun(states, steps) && j <= i < |states| && h in states[j].handles && Untaken(steps, j, i, h)
    ensures states[j].handles[h] in states[j].files
    ensures h in states[i].handles && states[i].handles[h] == states[j].handles[h]
    ensures var f := states[j].handles[h];
            f in states[i].files && states[i].files[f].cluster == states[j].files[f].cluster
    decreases i
  {
    hide Inv, Enabled, Apply, Safe, Takes;
    if i == j {
      RunInv(states, steps, j);
      HeldFile(states[j], h);
    } else {
      HandleKeepsFile(states, steps, j, i - 1, h);
      StepOf(states, steps, i - 1);
      HandleStep(states[i - 1], steps[i - 1], h);
    }
  }

  // Opening.

  ghost predicate NotMade(steps: seq<Step>, a: nat, b: nat, call: CallId) {
    forall m :: a < m < b && m < |steps| ==> !(steps[m].NewFile? && steps[m].call == call)
  }

  lemma OpeningStep(s: State, step: Step, call: CallId)
    requires Enabled(s, step) && Safe(s, step) && call in s.opening && !(step.NewFile? && step.call == call)
    ensures call in Apply(s, step).opening && Apply(s, step).opening[call].cluster == s.opening[call].cluster
  {
    hide Got, Truncated;
  }

  lemma {:induction false} OpeningKept(states: seq<State>, steps: seq<Step>, a: nat, b: nat, call: CallId, cluster: nat,
                                       id: NodeId)
    requires IsRun(states, steps) && a < b < |states|
    requires steps[a] == GetNode(call, cluster, id) && NotMade(steps, a, b, call)
    ensures call in states[b].opening && states[b].opening[call].cluster == cluster
    decreases b
  {
    hide Inv, Got, Truncated;
    StepOf(states, steps, b - 1);
    if b > a + 1 {
      OpeningKept(states, steps, a, b - 1, call, cluster, id);
      hide Enabled, Apply, Safe;
      OpeningStep(states[b - 1], steps[b - 1], call);
    }
  }

  /** A call gets the node of a cluster at step `a`, makes the file at `b` and binds it at `d`. From then on,
      until it is unbound, the first descriptor that was vacant at `d` names that file, and the file is the
      one of that cluster, whose node is cached. */
  lemma OpenedFile(states: seq<State>, steps: seq<Step>, a: nat, b: nat, d: nat, i: nat, call: CallId, cluster: nat,
                   id: NodeId, f: FileId, pid: Pid)
    requires IsRun(states, steps) && a < b < d < i < |states|
    requires steps[a] == GetNode(call, cluster, id) && steps[b] == NewFile(call, f) && steps[d] == Bind(call, pid)
    requires NotMade(steps, a, b, call) && Untaken(steps, b + 1, d, InFlight(call))
    requires var fd := VacantFd(states[d].handles, pid, 0); Untaken(steps, d + 1, i, Fd(pid, fd))
    ensures var h := Fd(pid, VacantFd(states[d].handles, pid, 0));
            && h in states[i].handles && states[i].handles[h] == f && h !in states[d].handles
            && f in states[i].files && states[i].files[f].cluster == cluster
            && Has(states[i].nodes, states[i].files[f].node, cluster)
  {
    hide Inv, VacantFd;
    OpeningKept(states, steps, a, b, call, cluster, id);
    StepOf(states, steps, b);
    MadeFile(states[b], call, f);
    hide Apply, Safe;
    HandleKeepsFile(states, steps, b + 1, d, InFlight(call));
    StepOf(states, steps, d);
    BoundFile(states[d], call, pid);
    HandleKeepsFile(states, steps, d + 1, i, Fd(pid, VacantFd(states[d].handles, pid, 0)));
    ReachableFileLives(states, steps, i, Fd(pid, VacantFd(states[d].handles, pid, 0)));
  }

  lemma MadeFile(s: State, call: CallId, f: FileId)
    requires Enabled(s, NewFile(call, f))
    ensures var s' := Apply(s, NewFile(call, f));
            && InFlight(call) in s'.handles && s'.handles[InFlight(call)] == f
            && f in s'.files && s'.files[f].cluster == s.opening[call].cluster
  {
  }

  lemma BoundFile(s: State, call: CallId, pid: Pid)
    requires Enabled(s, Bind(call, pid))
    ensures var s', h := Apply(s, Bind(call, pid)), Fd(pid, VacantFd(s.handles, pid, 0));
            && h !in s.handles && h in s'.handles && s'.handles[h] == s.handles[InFlight(call)]
            && s'.files == s.files
  {
  }

  /** proc_fork gives the child's descriptor the parent's file; a call that borrows a descriptor or unbinds
      it has its file, and only the unbind takes the descriptor. */
  lemma SharedFile(s: State, step: Step)
    requires Inv(s) && Enabled(s, step) && Safe(s, step)
    ensures var s' := Apply(s, step);
            match step
            case ForkFd(parent, child, fd) =>
              && Fd(parent, fd) in s'.handles && Fd(child, fd) in s'.handles
              && s'.handles[Fd(child, fd)] == s'.handles[Fd(parent, fd)] == s.handles[Fd(parent, fd)]
            case Borrow(call, pid, fd) =>
              && Fd(pid, fd) in s'.handles && InFlight(call) in s'.handles
              && s'.handles[InFlight(call)] == s'.handles[Fd(pid, fd)] == s.handles[Fd(pid, fd)]
            case Unbind(call, pid, fd) =>
              && Fd(pid, fd) !in s'.handles && InFlight(call) in s'.handles
              && s'.handles[InFlight(call)] == s.handles[Fd(pid, fd)]
            case _ => true
  {
    hide Inv, Got, Truncated, VacantFd;
  }

  // How often a node has been got.

  ghost predicate NodeIs(nodes: seq<Node>, id: NodeId, cluster: nat, hit: Uint) {
    exists k :: 0 <= k < |nodes| && nodes[k].id == id && nodes[k].cluster == cluster && nodes[k].hit == hit
  }

  predicate GetsCluster(step: Step, cluster: nat) {
    step.GetNode? && step.cluster == cluster
  }

  function GetsOf(steps: seq<Step>, j: nat, i: nat, cluster: nat): nat
    requires j <= i <= |steps|
  {
    if i == j then 0 else GetsOf(steps, j, i - 1, cluster) + if GetsCluster(steps[i - 1], cluster) then 1 else 0
  }

  /** What an unsigned counter shows after counting to `n`. */
  function Shown(n: nat): Uint {
    n % (UINT_MAX + 1)
  }

  lemma ShownNext(n: nat)
    ensures n <= UINT_MAX ==> Shown(n) == n
    ensures Shown(Shown(n) + 1) == Shown(n + 1)
  {
  }

  lemma GotHit(nodes: seq<Node>, got: nat, made: NodeId, id: NodeId, cluster: nat, hit: Uint)
    requires Distinct(nodes) && NodeIs(nodes, id, cluster, hit)
    ensures NodeIs(Got(nodes, got, made), id, cluster, if got == cluster then Shown(hit + 1) else hit)
  {
    var nodes' := Got(nodes, got, made);
    var k :| 0 <= k < |nodes| && nodes[k].id == id && nodes[k].cluster == cluster && nodes[k].hit == hit;
    var j := Find(nodes, got, 0);
    if j == |nodes| {
      assert nodes'[k + 1] == nodes[k];
    } else {
      assert j == k <==> got == cluster;
      assert nodes'[k].id == id;
    }
  }

  lemma PutHit(nodes: seq<Node>, p: nat, id: NodeId, cluster: nat, hit: Uint, cluster': nat)
    requires Distinct(nodes) && NodeIs(nodes, id, cluster, hit) && p < |nodes| && nodes[p].ref > 0
    requires Has(Truncated(Unreferenced(nodes, p)), id, cluster')
    ensures NodeIs(Truncated(Unreferenced(nodes, p)), id, cluster, hit)
  {
    hide Victim;
    var after := Unreferenced(nodes, p);
    var nodes' := Truncated(after);
    var k :| 0 <= k < |nodes| && nodes[k].id == id && nodes[k].cluster == cluster && nodes[k].hit == hit;
    var j :| 0 <= j < |nodes'| && nodes'[j].id == id;
    assert after[k].id == id && after[k].cluster == cluster && after[k].hit == hit;
    if nodes' != after {
      var v := Victim(Uses(after), |after|);
      assert nodes'[j] == after[if j < v then j else j + 1];
      assert (if j < v then j else j + 1) == k;
    }
  }

  lemma HitStep(s: State, step: Step, id: NodeId, cluster: nat, hit: Uint, cluster': nat)
    requires Inv(s) && Enabled(s, step) && Safe(s, step) && NodeIs(s.nodes, id, cluster, hit)
    requires Has(Apply(s, step).nodes, id, cluster')
    ensures NodeIs(Apply(s, step).nodes, id, cluster,
                   if GetsCluster(step, cluster) then Shown(hit + 1) else hit)
  {
    hide FilesOk, NodeIs, Has, Got, Truncated, Pins, RefOf, VacantFd, Shown;
    match step
    case GetNode(_, got, made) => GotHit(s.nodes, got, made, id, cluster, hit);
    case PutNode(call) =>
      PutHit(s.nodes, Position(s.nodes, s.files[s.closing[call]].node, 0), id, cluster, hit, cluster');
    case _ =>
  }

  /** The node stays in the cache from state `j` to state `i`. */
  ghost predicate Cached(states: seq<State>, j: nat, i: nat, id: NodeId, cluster: nat) {
    i < |states| && forall m :: j <= m <= i ==> Has(states[m].nodes, id, cluster)
  }

  /** While a node is cached its hit counter goes up by one for each get of its cluster, by any call, as far as
      32 bits count. */
  lemma {:induction false} HitsCountGets(states: seq<State>, steps: seq<Step>, j: nat, i: nat, id: NodeId, cluster: nat,
                                         hit: Uint)
    requires IsRun(states, steps) && j <= i && Cached(states, j, i, id, cluster)
    requires NodeIs(states[j].nodes, id, cluster, hit)
    ensures NodeIs(states[i].nodes, id, cluster, Shown(hit + GetsOf(steps, j, i, cluster)))
    decreases i
  {
    hide Inv, Enabled, Apply, Safe, NodeIs, Has, GetsCluster, Shown;
    assert |states| == |steps| + 1;
    hide IsRun;
    if i == j {
      ShownNext(hit);
    } else {
      var n := hit + GetsOf(steps, j, i - 1, cluster);
      HitsCountGets(states, steps, j, i - 1, id, cluster, hit);
      StepOf(states, steps, i - 1);
      ShownNext(n);
      HitStep(states[i - 1], steps[i - 1], id, cluster, Shown(n), cluster);
    }
  }

  /** A node that a get puts in the cache has been hit once. */
  lemma NewNodeHit(nodes: seq<Node>, cluster: nat, id: NodeId)
    requires forall k :: 0 <= k < |nodes| ==> nodes[k].cluster != cluster
    ensures NodeIs(Got(nodes, cluster, id), id, cluster, 1)
  {
    assert Got(nodes, cluster, id)[0] == Node(id, cluster, 1, 1);
  }
}
