/** The FAT driver's cache of VFS nodes (kernel/kernel/fs/fat_vfs.c): each call holds the super
    node's mutex, so it is one step. */
module FatNodes {
  import opened Base
  import opened Eviction

  const THRESHOLD: nat := 30            // FAT_VFS_TRUNCATE_THRESHOLD

  type NodeId = nat
  datatype Node = Node(id: NodeId, cluster: nat, ref: nat, hit: Uint)

  /** The first node from `i` on with the cluster, or the number of nodes. */
  function Find(nodes: seq<Node>, cluster: nat, i: nat): (k: nat)
    requires i <= |nodes|
    ensures i <= k <= |nodes| && (k < |nodes| ==> nodes[k].cluster == cluster)
    ensures forall j :: i <= j < k ==> nodes[j].cluster != cluster
    decreases |nodes| - i
  {
    if i == |nodes| || nodes[i].cluster == cluster then i else Find(nodes, cluster, i + 1)
  }

  /** The position of the node in the list, or the number of nodes. */
  function Position(nodes: seq<Node>, id: NodeId, i: nat): (k: nat)
    requires i <= |nodes|
    ensures i <= k <= |nodes| && (k < |nodes| ==> nodes[k].id == id)
    ensures k == |nodes| ==> forall j :: i <= j < |nodes| ==> nodes[j].id != id
    decreases |nodes| - i
  {
    if i == |nodes| || nodes[i].id == id then i else Position(nodes, id, i + 1)
  }

  function Uses(nodes: seq<Node>): seq<Use> {
    seq(|nodes|, k requires 0 <= k < |nodes| => Use(nodes[k].ref, nodes[k].hit))
  }

  function Removed(nodes: seq<Node>, k: nat): seq<Node>
    requires k < |nodes|
  {
    nodes[..k] + nodes[k + 1..]
  }

  /** unsafe_truncate. */
  function Truncated(nodes: seq<Node>): seq<Node> {
    if |nodes| <= THRESHOLD then nodes
    else
      var k := Victim(Uses(nodes), |nodes|);
      if k < |nodes| then Removed(nodes, k) else nodes
  }

  /** safe_get_with_fat_result; a new node is called `id`. */
  function Got(nodes: seq<Node>, cluster: nat, id: NodeId): seq<Node> {
    var k := Find(nodes, cluster, 0);
    if k < |nodes| then nodes[k := nodes[k].(ref := nodes[k].ref + 1, hit := (nodes[k].hit + 1) % (UINT_MAX + 1))]
    else [Node(id, cluster, 1, 1)] + nodes
  }

  function Unreferenced(nodes: seq<Node>, k: nat): seq<Node>
    requires k < |nodes| && nodes[k].ref > 0
  {
    nodes[k := nodes[k].(ref := nodes[k].ref - 1)]
  }

  /** The list as the code keeps it, with its length. */
  class NodeCache {
    var nodes: seq<Node>
    var nofNodes: nat

    ghost predicate Valid()
      reads this
    {
      nofNodes == |nodes|
    }

    constructor ()
      ensures Valid() && nodes == []
    {
      nodes, nofNodes := [], 0;
    }

    /** safe_get_with_fat_result. */
    method Get(cluster: nat, id: NodeId) returns (r: NodeId)
      requires Valid()
      modifies this
      ensures Valid() && nodes == Got(old(nodes), cluster, id)
      ensures var k := Find(old(nodes), cluster, 0); r == if k < |old(nodes)| then old(nodes)[k].id else id
    {
      var i := 0;
      while i < |nodes|
        invariant i <= |nodes| && nodes == old(nodes) && nofNodes == old(nofNodes)
        invariant Find(nodes, cluster, 0) == Find(nodes, cluster, i)
      {
        if nodes[i].cluster == cluster {
          break;
        }
        i := i + 1;
      }
      if i == |nodes| {
        nodes := [Node(id, cluster, 0, 0)] + nodes;
        nofNodes := nofNodes + 1;
        i := 0;
      }
      r := nodes[i].id;
      nodes := nodes[i := nodes[i].(ref := nodes[i].ref + 1, hit := (nodes[i].hit + 1) % (UINT_MAX + 1))];
      assert Find(old(nodes), cluster, 0) == |old(nodes)| ==> nodes == [Node(id, cluster, 1, 1)] + old(nodes);
    }

    /** fat_vfs_put of the node at place `k`. */
    method Put(k: nat)
      requires Valid() && k < |nodes| && nodes[k].ref > 0
      modifies this
      ensures Valid() && nodes == Truncated(Unreferenced(old(nodes), k))
      ensures old(Idle(nodes) + Stuck(nodes)) <= THRESHOLD ==>
                (Idle(nodes) + Stuck(nodes) <= THRESHOLD <==> !old(Crosses(nodes, k)))
    {
      hide Truncated, Idle, Stuck;
      if Idle(nodes) + Stuck(nodes) <= THRESHOLD {
        PutKeepsBound(nodes, k);
      }
      nodes := nodes[k := nodes[k].(ref := nodes[k].ref - 1)];
      var _ := Truncate();
    }

    /** unsafe_truncate. */
    method Truncate() returns (removed: bool)
      requires Valid()
      modifies this
      ensures Valid() && nodes == Truncated(old(nodes)) && (removed <==> nodes != old(nodes))
    {
      if nofNodes <= THRESHOLD {
        return false;
      }
      hide Victim;
      var lowest := FindVictim(Uses(nodes));
      if lowest < |nodes| {
        nodes := nodes[..lowest] + nodes[lowest + 1..];
        nofNodes := nofNodes - 1;
        return true;
      }
      return false;
    }
  }

  // How many nodes may stay unreferenced.

  /** The number of nodes unsafe_truncate may take. */
  function Idle(nodes: seq<Node>): nat {
    Count(Uses(nodes), false)
  }

  /** The number of unreferenced nodes it never takes, having been hit UINT_MAX times. */
  function Stuck(nodes: seq<Node>): nat {
    Count(Uses(nodes), true)
  }

  /** The number of nodes someone references. */
  function Referenced(nodes: seq<Node>): nat {
    if nodes == [] then 0 else (if nodes[0].ref > 0 then 1 else 0) + Referenced(nodes[1..])
  }

  lemma {:induction false} NodesAre(nodes: seq<Node>)
    ensures |nodes| == Idle(nodes) + Stuck(nodes) + Referenced(nodes)
  {
    if nodes != [] {
      NodesAre(nodes[1..]);
      assert Uses(nodes)[1..] == Uses(nodes[1..]);
    }
  }

  lemma CountReplaced(nodes: seq<Node>, k: nat, node: Node, stuck: bool)
    requires k < |nodes|
    ensures Count(Uses(nodes[k := node]), stuck) + (if Unused(Uses(nodes)[k], stuck) then 1 else 0) ==
            Count(Uses(nodes), stuck) + if Unused(Use(node.ref, node.hit), stuck) then 1 else 0
  {
    hide Count, Unused;
    CountUpdate(Uses(nodes), k, Use(node.ref, node.hit), stuck);
    assert Uses(nodes[k := node]) == Uses(nodes)[k := Use(node.ref, node.hit)];
  }

  lemma CountRemoved(nodes: seq<Node>, k: nat, stuck: bool)
    requires k < |nodes|
    ensures Count(Uses(nodes), stuck) ==
            Count(Uses(Removed(nodes, k)), stuck) + (if Unused(Uses(nodes)[k], stuck) then 1 else 0)
  {
    hide Count, Unused;
    CountAt(Uses(nodes), k, stuck);
    assert Uses(Removed(nodes, k)) == Uses(nodes)[..k] + Uses(nodes)[k + 1..];
  }

  lemma GotUnused(nodes: seq<Node>, cluster: nat, id: NodeId)
    ensures Idle(Got(nodes, cluster, id)) <= Idle(nodes) && Stuck(Got(nodes, cluster, id)) <= Stuck(nodes)
  {
    forall stuck: bool ensures Count(Uses(Got(nodes, cluster, id)), stuck) <= Count(Uses(nodes), stuck) {
      var k := Find(nodes, cluster, 0);
      if k < |nodes| {
        CountReplaced(nodes, k, Got(nodes, cluster, id)[k], stuck);
      } else {
        assert Uses(Got(nodes, cluster, id))[1..] == Uses(nodes);
      }
    }
  }

  /** Truncating takes one evictable node if there are more than 30 nodes and one of them is evictable. */
  lemma TruncatedUnused(nodes: seq<Node>)
    ensures Stuck(Truncated(nodes)) == Stuck(nodes)
    ensures Idle(Truncated(nodes)) == Idle(nodes) - if |nodes| > THRESHOLD && Idle(nodes) > 0 then 1 else 0
  {
    hide Count;
    VictimExists(Uses(nodes));
    var k := Victim(Uses(nodes), |nodes|);
    if k < |nodes| {
      CountRemoved(nodes, k, false);
      CountRemoved(nodes, k, true);
    }
  }

  /** The one put after which more than 30 nodes are unreferenced: of the last reference to a node hit
      UINT_MAX times, when 30 others hit as often are unreferenced and no node is evictable. */
  predicate Crosses(nodes: seq<Node>, k: nat)
    requires k < |nodes|
  {
    nodes[k].ref == 1 && nodes[k].hit == UINT_MAX && Idle(nodes) == 0 && Stuck(nodes) == THRESHOLD
  }

  lemma PutCounts(nodes: seq<Node>, k: nat)
    requires k < |nodes| && nodes[k].ref > 0
    ensures var after, last := Unreferenced(nodes, k), nodes[k].ref == 1;
            && Idle(after) == Idle(nodes) + (if last && nodes[k].hit < UINT_MAX then 1 else 0)
            && Stuck(after) == Stuck(nodes) + (if last && nodes[k].hit == UINT_MAX then 1 else 0)
            && Idle(after) + Stuck(after) <= |after|
  {
    hide Count;
    CountReplaced(nodes, k, Unreferenced(nodes, k)[k], false);
    CountReplaced(nodes, k, Unreferenced(nodes, k)[k], true);
    CountBound(Uses(Unreferenced(nodes, k)));
  }

  /** A put never lets the evictable nodes grow past the threshold. */
  lemma PutIdle(nodes: seq<Node>, k: nat)
    requires k < |nodes| && nodes[k].ref > 0 && Idle(nodes) <= THRESHOLD
    ensures Idle(Truncated(Unreferenced(nodes, k))) <= THRESHOLD
  {
    hide Idle, Stuck, Truncated;
    PutCounts(nodes, k);
    TruncatedUnused(Unreferenced(nodes, k));
  }

  /** A put keeps the unreferenced nodes within the threshold exactly when it does not cross it. */
  lemma PutKeepsBound(nodes: seq<Node>, k: nat)
    requires k < |nodes| && nodes[k].ref > 0 && Idle(nodes) + Stuck(nodes) <= THRESHOLD
    ensures Idle(Truncated(Unreferenced(nodes, k))) + Stuck(Truncated(Unreferenced(nodes, k))) <= THRESHOLD <==>
            !Crosses(nodes, k)
  {
    hide Idle, Stuck, Truncated;
    PutCounts(nodes, k);
    TruncatedUnused(Unreferenced(nodes, k));
  }

  /** 31 nodes hit UINT_MAX times, the first of them referenced. */
  ghost predicate Worn(nodes: seq<Node>) {
    && |nodes| == THRESHOLD + 1 && nodes[0].ref == 1
    && forall k :: 0 <= k < |nodes| ==> nodes[k].hit == UINT_MAX && (k > 0 ==> nodes[k].ref == 0)
  }

  lemma WornPut(nodes: seq<Node>)
    requires Worn(nodes)
    ensures Idle(nodes) + Stuck(nodes) == THRESHOLD && Crosses(nodes, 0)
    ensures Idle(Truncated(Unreferenced(nodes, 0))) + Stuck(Truncated(Unreferenced(nodes, 0))) == THRESHOLD + 1
  {
    hide Count, Truncated;
    var after := Unreferenced(nodes, 0);
    assert forall k :: 0 <= k < |after| ==> Unused(Uses(after)[k], true);
    CountAll(Uses(after), true);
    hide Uses;
    PutCounts(nodes, 0);
    TruncatedUnused(after);
  }

  /** There are such nodes, and putting the first leaves 31 unreferenced. */
  lemma CrossingPut() returns (nodes: seq<Node>)
    ensures |nodes| == THRESHOLD + 1 && nodes[0].ref == 1
    ensures Distinct(nodes) && Idle(nodes) + Stuck(nodes) == THRESHOLD && Crosses(nodes, 0)
    ensures Idle(Truncated(Unreferenced(nodes, 0))) + Stuck(Truncated(Unreferenced(nodes, 0))) == THRESHOLD + 1
  {
    hide Idle, Stuck, Truncated;
    nodes := seq(THRESHOLD + 1, k requires 0 <= k => Node(k, k, if k == 0 then 1 else 0, UINT_MAX));
    WornPut(nodes);
  }

  // Which nodes there are.

  ghost predicate Distinct(nodes: seq<Node>) {
    forall i, j :: 0 <= i < j < |nodes| ==> nodes[i].id != nodes[j].id && nodes[i].cluster != nodes[j].cluster
  }

  ghost predicate Has(nodes: seq<Node>, id: NodeId, cluster: nat) {
    exists k :: 0 <= k < |nodes| && nodes[k].id == id && nodes[k].cluster == cluster
  }

  /** The reference count of the node, 0 if it is not cached. */
  function RefOf(nodes: seq<Node>, id: NodeId): nat {
    var k := Position(nodes, id, 0);
    if k < |nodes| then nodes[k].ref else 0
  }

  lemma RefAt(nodes: seq<Node>, k: nat)
    requires Distinct(nodes) && k < |nodes|
    ensures Position(nodes, nodes[k].id, 0) == k && RefOf(nodes, nodes[k].id) == nodes[k].ref
  {
  }

  /** Which node `Got` references. */
  function GotId(nodes: seq<Node>, cluster: nat, id: NodeId): NodeId {
    var k := Find(nodes, cluster, 0);
    if k < |nodes| then nodes[k].id else id
  }

  lemma GotNodes(nodes: seq<Node>, cluster: nat, id: NodeId)
    requires Distinct(nodes) && forall k :: 0 <= k < |nodes| ==> nodes[k].id != id
    ensures Distinct(Got(nodes, cluster, id)) && Has(Got(nodes, cluster, id), GotId(nodes, cluster, id), cluster)
    ensures forall x, c :: Has(nodes, x, c) ==> Has(Got(nodes, cluster, id), x, c)
    ensures forall x :: RefOf(Got(nodes, cluster, id), x) == RefOf(nodes, x) + if x == GotId(nodes, cluster, id) then 1 else 0
  {
    var nodes', k := Got(nodes, cluster, id), Find(nodes, cluster, 0);
    if k < |nodes| {
      assert nodes'[k].id == nodes[k].id && nodes'[k].cluster == cluster;
      forall x ensures RefOf(nodes', x) == RefOf(nodes, x) + if x == nodes[k].id then 1 else 0 {
        SamePosition(nodes, nodes', x, 0);
        RefAt(nodes, k);
      }
      forall x, c | Has(nodes, x, c) ensures Has(nodes', x, c) {
        var j :| 0 <= j < |nodes| && nodes[j].id == x && nodes[j].cluster == c;
        assert nodes'[j].id == x && nodes'[j].cluster == c;
      }
    } else {
      assert nodes'[0].id == id && nodes'[0].cluster == cluster;
      assert forall j :: 0 <= j < |nodes| ==> nodes'[j + 1] == nodes[j];
      forall x ensures RefOf(nodes', x) == RefOf(nodes, x) + if x == id then 1 else 0 {
        if x == id {
          assert Position(nodes, id, 0) == |nodes|;
        } else {
          ShiftedPosition(nodes, nodes', x, 0);
        }
      }
      forall x, c | Has(nodes, x, c) ensures Has(nodes', x, c) {
        var j :| 0 <= j < |nodes| && nodes[j].id == x && nodes[j].cluster == c;
        assert nodes'[j + 1].id == x && nodes'[j + 1].cluster == c;
      }
    }
  }

  lemma {:induction false} SamePosition(nodes: seq<Node>, nodes': seq<Node>, id: NodeId, i: nat)
    requires |nodes'| == |nodes| && i <= |nodes| && forall j :: 0 <= j < |nodes| ==> nodes'[j].id == nodes[j].id
    ensures Position(nodes', id, i) == Position(nodes, id, i)
    decreases |nodes| - i
  {
    if i < |nodes| && nodes[i].id != id {
      SamePosition(nodes, nodes', id, i + 1);
    }
  }

  lemma {:induction false} ShiftedPosition(nodes: seq<Node>, nodes': seq<Node>, id: NodeId, i: nat)
    requires |nodes'| == |nodes| + 1 && i <= |nodes| && forall j :: 0 <= j < |nodes| ==> nodes'[j + 1] == nodes[j]
    ensures Position(nodes', id, i + 1) == Position(nodes, id, i) + 1
    decreases |nodes| - i
  {
    if i < |nodes| && nodes[i].id != id {
      ShiftedPosition(nodes, nodes', id, i + 1);
    }
  }

  lemma UnreferencedNodes(nodes: seq<Node>, k: nat)
    requires Distinct(nodes) && k < |nodes| && nodes[k].ref > 0
    ensures Distinct(Unreferenced(nodes, k))
    ensures forall x, c :: Has(nodes, x, c) ==> Has(Unreferenced(nodes, k), x, c)
    ensures forall x :: RefOf(Unreferenced(nodes, k), x) == RefOf(nodes, x) - if x == nodes[k].id then 1 else 0
  {
    var nodes' := Unreferenced(nodes, k);
    forall x ensures RefOf(nodes', x) == RefOf(nodes, x) - if x == nodes[k].id then 1 else 0 {
      SamePosition(nodes, nodes', x, 0);
      RefAt(nodes, k);
    }
    forall x, c | Has(nodes, x, c) ensures Has(nodes', x, c) {
      var j :| 0 <= j < |nodes| && nodes[j].id == x && nodes[j].cluster == c;
      assert nodes'[j].id == x && nodes'[j].cluster == c;
    }
  }

  /** Truncating takes no node anyone references. */
  lemma TruncatedNodes(nodes: seq<Node>)
    requires Distinct(nodes)
    ensures Distinct(Truncated(nodes))
    ensures forall x, c :: Has(nodes, x, c) && RefOf(nodes, x) > 0 ==> Has(Truncated(nodes), x, c)
    ensures forall x :: RefOf(Truncated(nodes), x) == RefOf(nodes, x)
  {
    var v := Victim(Uses(nodes), |nodes|);
    if |nodes| > THRESHOLD && v < |nodes| {
      RemovedNodes(nodes, v);
    }
  }

  lemma RemovedNodes(nodes: seq<Node>, v: nat)
    requires Distinct(nodes) && v < |nodes| && nodes[v].ref == 0
    ensures Distinct(Removed(nodes, v))
    ensures forall x, c :: Has(nodes, x, c) && RefOf(nodes, x) > 0 ==> Has(Removed(nodes, v), x, c)
    ensures forall x :: RefOf(Removed(nodes, v), x) == RefOf(nodes, x)
  {
    var nodes' := Removed(nodes, v);
    assert forall j :: 0 <= j < |nodes'| ==> nodes'[j] == nodes[if j < v then j else j + 1];
    forall x ensures RefOf(nodes', x) == RefOf(nodes, x) {
      RemovedRef(nodes, v, x);
    }
    forall x, c | Has(nodes, x, c) && RefOf(nodes, x) > 0 ensures Has(nodes', x, c) {
      var j :| 0 <= j < |nodes| && nodes[j].id == x && nodes[j].cluster == c;
      RefAt(nodes, j);
      assert nodes'[if j < v then j else j - 1] == nodes[j];
    }
  }

  lemma RemovedRef(nodes: seq<Node>, v: nat, x: NodeId)
    requires Distinct(nodes) && v < |nodes| && nodes[v].ref == 0
    ensures RefOf(Removed(nodes, v), x) == RefOf(nodes, x)
  {
    var nodes' := Removed(nodes, v);
    assert forall j :: 0 <= j < |nodes'| ==> nodes'[j] == nodes[if j < v then j else j + 1];
    var k := Position(nodes, x, 0);
    if k < |nodes| && k != v {
      assert nodes'[if k < v then k else k - 1] == nodes[k];
      RefAt(nodes', if k < v then k else k - 1);
    } else {
      assert Position(nodes', x, 0) == |nodes'|;
    }
  }
}
