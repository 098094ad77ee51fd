/** The pools of a cluster, and which of its nodes a choice of pools reaches:
    installer/internal/workflow/stages/nodes/nodes.go. */
module PoolListing {
  import opened Wrappers
  import opened StringOrder
  import opened Placement
  import opened NodePools

  function NodesOf(nodes: seq<NodeInfo>, id: Pool): seq<NodeInfo> {
    if nodes == [] then []
    else
      var last := nodes[|nodes| - 1];
      NodesOf(nodes[..|nodes| - 1], id) + if !last.reserved && Home(last.name, last.labels) == id then [last] else []
  }

  lemma {:induction false} NodesOfMembers(nodes: seq<NodeInfo>, id: Pool, node: NodeInfo)
    ensures node in NodesOf(nodes, id) <==> node in nodes && !node.reserved && Home(node.name, node.labels) == id
  {
    if nodes != [] {
      NodesOfMembers(nodes[..|nodes| - 1], id, node);
      assert nodes == nodes[..|nodes| - 1] + [nodes[|nodes| - 1]];
    }
  }

  predicate ByName(p: NodePool, q: NodePool) {
    if p.id.name != q.id.name then Le(p.id.name, q.id.name) else Le(p.id.key, q.id.key)
  }

  /** Every node that is not reserved is in exactly one of the pools, in its own. */
  ghost predicate Partition(pools: seq<NodePool>, nodes: seq<NodeInfo>) {
    && DistinctPools(pools)
    && (forall p :: p in pools ==> p.nodes == NodesOf(nodes, p.id) != [])
    && forall node :: node in nodes && !node.reserved ==> exists p :: p in pools && p.id == Home(node.name, node.labels)
  }

  /** listPools: fails when every node is reserved. */
  method ListPools(nodes: seq<NodeInfo>) returns (pools: Option<seq<NodePool>>)
    requires forall node :: node in nodes ==> node.name != ""
    ensures pools.None? <==> forall node :: node in nodes ==> node.reserved
    ensures pools.Some? ==> Partition(pools.value, nodes) && SortedBy(pools.value, ByName)
    ensures pools.Some? ==> forall p :: p in pools.value ==> p.id.name != ""
    ensures pools.Some? ==> InNameOrder(pools.value)
  {
    var byId := GroupNodes(nodes);
    var list: seq<NodePool> := [];
    var ids := byId.Keys;
    while ids != {}
      invariant ids <= byId.Keys
      invariant forall p :: p in list <==> p.id in byId && p.id !in ids && p.nodes == byId[p.id]
      invariant DistinctPools(list)
    {
      var id :| id in ids;
      ids := ids - {id};
      list := list + [NodePool(id, byId[id])];
    }
    ByNameOrders();
    var sorted := SortSlice(list, ByName);
    SortedIsPartition(nodes, byId, list, sorted);
    SortedIsInNameOrder(sorted);
    pools := if |sorted| == 0 then None else Some(sorted);
  }

  /** By name, and by label where the names are the same. */
  ghost predicate InNameOrder(pools: seq<NodePool>) {
    forall i, j :: 0 <= i < j < |pools| ==>
      Le(pools[i].id.name, pools[j].id.name)
      && (pools[i].id.name == pools[j].id.name ==> Le(pools[i].id.key, pools[j].id.key))
  }

  lemma SortedIsInNameOrder(pools: seq<NodePool>)
    requires SortedBy(pools, ByName)
    ensures InNameOrder(pools)
  {
    forall i, j | 0 <= i < j < |pools| ensures Le(pools[i].id.name, pools[j].id.name) {
      assert ByName(pools[i], pools[j]);
      if pools[i].id.name == pools[j].id.name { LeReflexive(pools[i].id.name); }
    }
  }

  lemma ByNameOrders()
    ensures Orders(ByName)
  {
    forall p, q ensures ByName(p, q) || ByName(q, p) {
      LeTotal(p.id.name, q.id.name);
      LeTotal(p.id.key, q.id.key);
    }
    forall p, q, r | ByName(p, q) && ByName(q, r) ensures ByName(p, r) {
      if p.id.name == q.id.name == r.id.name {
        LeTransitive(p.id.key, q.id.key, r.id.key);
      } else if p.id.name != q.id.name && q.id.name != r.id.name {
        LeTransitive(p.id.name, q.id.name, r.id.name);
        if p.id.name == r.id.name { LeAntisymmetric(p.id.name, q.id.name); }
      }
    }
  }

  ghost predicate Grouped(byId: map<Pool, seq<NodeInfo>>, nodes: seq<NodeInfo>) {
    && (forall id :: id in byId ==> byId[id] == NodesOf(nodes, id) != [])
    && forall node :: node in nodes && !node.reserved ==> Home(node.name, node.labels) in byId
  }

  method GroupNodes(nodes: seq<NodeInfo>) returns (byId: map<Pool, seq<NodeInfo>>)
    ensures Grouped(byId, nodes)
  {
    byId := map[];
    for i := 0 to |nodes|
      invariant Grouped(byId, nodes[..i])
    {
      assert nodes[..i + 1] == nodes[..i] + [nodes[i]];
      if !nodes[i].reserved {
        var id := PoolOf(nodes[i].name, nodes[i].labels);
        if id !in byId { NoNodesYet(nodes[..i], id); }
        byId := byId[id := (if id in byId then byId[id] else []) + [nodes[i]]];
      }
    }
    assert nodes[..|nodes|] == nodes;
  }

  lemma {:induction false} NoNodesYet(nodes: seq<NodeInfo>, id: Pool)
    requires forall node :: node in nodes && !node.reserved ==> Home(node.name, node.labels) != id
    ensures NodesOf(nodes, id) == []
  {
    if nodes != [] {
      assert nodes[|nodes| - 1] in nodes;
      NoNodesYet(nodes[..|nodes| - 1], id);
    }
  }

  lemma SortedIsPartition(nodes: seq<NodeInfo>, byId: map<Pool, seq<NodeInfo>>, list: seq<NodePool>,
                          sorted: seq<NodePool>)
    requires Grouped(byId, nodes) && DistinctPools(list) && multiset(sorted) == multiset(list)
    requires forall p :: p in list <==> p.id in byId && p.nodes == byId[p.id]
    requires forall node :: node in nodes ==> node.name != ""
    ensures Partition(sorted, nodes)
    ensures sorted == [] <==> forall node :: node in nodes ==> node.reserved
    ensures forall p :: p in sorted ==> p.id.name != ""
  {
    forall p ensures p in sorted <==> p in list {
      assert p in sorted <==> p in multiset(sorted);
      assert p in list <==> p in multiset(list);
    }
    DistinctAfterSorting(list, sorted);
    forall node | node in nodes && !node.reserved
      ensures exists p :: p in sorted && p.id == Home(node.name, node.labels)
    {
      var id := Home(node.name, node.labels);
      assert NodePool(id, byId[id]) in list;
    }
    forall p | p in sorted ensures p.id.name != "" && exists node :: node in nodes && !node.reserved {
      var node := p.nodes[0];
      NodesOfMembers(nodes, p.id, node);
      HomeIsNamed(node.name, node.labels, 0);
    }
    if sorted != [] { assert sorted[0] in sorted; }
  }

  lemma {:induction false} HomeIsNamed(nodeName: string, labels: Labels, i: nat)
    requires nodeName != ""
    ensures HomeFrom(nodeName, labels, i).name != ""
    decreases |POOL_KEYS| - i
  {
    if i < |POOL_KEYS| { HomeIsNamed(nodeName, labels, i + 1); }
  }

  lemma DistinctAfterSorting(list: seq<NodePool>, sorted: seq<NodePool>)
    requires DistinctPools(list) && multiset(sorted) == multiset(list)
    ensures DistinctPools(sorted)
  {
    forall i, j | 0 <= i < j < |sorted| ensures sorted[i].id != sorted[j].id {
      assert sorted[i] in multiset(list) && sorted[j] in multiset(list);
      var k :| 0 <= k < |list| && list[k] == sorted[i];
      var l :| 0 <= l < |list| && list[l] == sorted[j];
      if sorted[i] == sorted[j] {
        TwiceInMultiset(sorted, i, j);
        OnceInMultiset(list, k);
      }
    }
  }

  lemma TwiceInMultiset(xs: seq<NodePool>, i: nat, j: nat)
    requires i < j < |xs| && xs[i] == xs[j]
    ensures multiset(xs)[xs[i]] >= 2
  {
    assert xs == xs[..j] + [xs[j]] + xs[j + 1..];
    assert xs[i] in xs[..j];
  }

  lemma OnceInMultiset(xs: seq<NodePool>, k: nat)
    requires k < |xs| && DistinctPools(xs)
    ensures multiset(xs)[xs[k]] == 1
  {
    assert xs == xs[..k] + [xs[k]] + xs[k + 1..];
    assert xs[k] !in xs[..k] && xs[k] !in xs[k + 1..];
    assert multiset(xs[..k])[xs[k]] == 0 && multiset(xs[k + 1..])[xs[k]] == 0;
  }

  // ----- from the pools back to the nodes -----

  /** The node carries its own pool's label, and of the listed pools' labels no other. */
  ghost predicate OnlyItsOwnLabel(pools: seq<NodePool>, node: NodeInfo) {
    && Carries(node.labels, Home(node.name, node.labels))
    && forall p :: p in pools && Carries(node.labels, p.id) ==> p.id == Home(node.name, node.labels)
  }

  ghost predicate Drawn(chosen: seq<Pool>, pools: seq<NodePool>) {
    forall id :: id in chosen ==> exists p :: p in pools && p.id == id
  }

  ghost predicate Admitted(chosen: seq<Pool>, node: NodeInfo) {
    exists id :: id in chosen && Carries(node.labels, id)
  }

  ghost predicate InChosen(chosen: seq<Pool>, pools: seq<NodePool>, node: NodeInfo) {
    exists p :: p in pools && p.id in chosen && node in p.nodes
  }

  /** Whatever pools are chosen, the node is admitted exactly when it is in one of them. */
  ghost predicate AdmittedAsListed(pools: seq<NodePool>, node: NodeInfo) {
    forall chosen :: Drawn(chosen, pools) ==> (Admitted(chosen, node) <==> InChosen(chosen, pools, node))
  }

  /** In which pool a node is listed. */
  lemma ListedAtHome(pools: seq<NodePool>, nodes: seq<NodeInfo>, node: NodeInfo)
    requires Partition(pools, nodes) && node in nodes && !node.reserved
    ensures forall p :: p in pools ==> (node in p.nodes <==> p.id == Home(node.name, node.labels))
  {
    forall p | p in pools ensures node in p.nodes <==> p.id == Home(node.name, node.labels) {
      NodesOfMembers(nodes, p.id, node);
    }
  }

  /** The affinity for chosen pools admits a node exactly when one of its pools is chosen, if the
      node carries its own pool's label and no other pool's. */
  lemma AdmittedIffInAChosenPool(pools: seq<NodePool>, nodes: seq<NodeInfo>, node: NodeInfo, chosen: seq<Pool>)
    requires Partition(pools, nodes) && node in nodes && !node.reserved
    requires OnlyItsOwnLabel(pools, node) && Drawn(chosen, pools)
    ensures Admitted(chosen, node) <==> InChosen(chosen, pools, node)
  {
    ListedAtHome(pools, nodes, node);
    if id :| id in chosen && Carries(node.labels, id) {
      var p :| p in pools && p.id == id;
    }
    if p :| p in pools && p.id in chosen && node in p.nodes {
      assert p.id in chosen && Carries(node.labels, p.id);
    }
  }

  /** And only then: a node that lacks its own pool's label is missed when that pool is chosen,
      and one that carries another pool's label is admitted through that pool. */
  lemma AdmittedAsListedIff(pools: seq<NodePool>, nodes: seq<NodeInfo>, node: NodeInfo)
    requires Partition(pools, nodes) && node in nodes && !node.reserved
    ensures AdmittedAsListed(pools, node) <==> OnlyItsOwnLabel(pools, node)
  {
    if OnlyItsOwnLabel(pools, node) {
      forall chosen | Drawn(chosen, pools) ensures Admitted(chosen, node) <==> InChosen(chosen, pools, node) {
        AdmittedIffInAChosenPool(pools, nodes, node, chosen);
      }
    }
    if AdmittedAsListed(pools, node) {
      AdmittedImpliesItsOwnLabel(pools, nodes, node);
    }
  }

  lemma AdmittedImpliesItsOwnLabel(pools: seq<NodePool>, nodes: seq<NodeInfo>, node: NodeInfo)
    requires Partition(pools, nodes) && node in nodes && !node.reserved && AdmittedAsListed(pools, node)
    ensures OnlyItsOwnLabel(pools, node)
  {
    var home := Home(node.name, node.labels);
    ListedAtHome(pools, nodes, node);
    var own :| own in pools && own.id == home;
    forall p | p in pools ensures Carries(node.labels, p.id) <==> p.id == home {
      var chosen := [p.id];
      assert p.id in chosen && Drawn(chosen, pools);
      assert Admitted(chosen, node) <==> Carries(node.labels, p.id);
      assert InChosen(chosen, pools, node) <==> p.id == home by {
        assert own.id in chosen <==> p.id == home;
      }
    }
  }

  lemma LastLabelOnly(nodeName: string, labels: Labels)
    requires labels == map[POOL_KEYS[3] := "b"]
    ensures Home(nodeName, labels) == Pool(POOL_KEYS[3], "b")
  {
    assert POOL_KEYS[3][0] == 'n' && POOL_KEYS[0][0] == 'k' && POOL_KEYS[1][0] == 'e' && POOL_KEYS[2][0] == 'c';
    assert HomeFrom(nodeName, labels, 2) == HomeFrom(nodeName, labels, 3);
    assert HomeFrom(nodeName, labels, 1) == HomeFrom(nodeName, labels, 2);
  }

  /** Without that proviso it fails: a node with two pool labels is listed under the first, and
      choosing the pool of the second still admits it. */
  lemma TwoLabelsOneHome() returns (pools: seq<NodePool>, nodes: seq<NodeInfo>, node: NodeInfo, chosen: seq<Pool>)
    ensures Partition(pools, nodes) && node in nodes && !node.reserved
    ensures Carries(node.labels, Home(node.name, node.labels))
    ensures forall id :: id in chosen ==> exists p :: p in pools && p.id == id
    ensures exists id :: id in chosen && Carries(node.labels, id)
    ensures !exists p :: p in pools && p.id in chosen && node in p.nodes
  {
    node := NodeInfo("n1", map[POOL_KEYS[0] := "a", POOL_KEYS[3] := "b"], 0, "", false, false);
    var other := NodeInfo("n2", map[POOL_KEYS[3] := "b"], 0, "", false, false);
    var first, second := Pool(POOL_KEYS[0], "a"), Pool(POOL_KEYS[3], "b");
    assert Home("n1", node.labels) == first;
    LastLabelOnly("n2", other.labels);
    pools, nodes, chosen := TwoNodes(node, other, first, second);
    assert second in chosen && Carries(node.labels, second);
  }

  lemma TwoNodes(node: NodeInfo, other: NodeInfo, first: Pool, second: Pool)
    returns (pools: seq<NodePool>, nodes: seq<NodeInfo>, chosen: seq<Pool>)
    requires !node.reserved && !other.reserved && node != other && first != second
    requires Home(node.name, node.labels) == first && Home(other.name, other.labels) == second
    ensures Partition(pools, nodes) && node in nodes && chosen == [second]
    ensures forall id :: id in chosen ==> exists p :: p in pools && p.id == id
    ensures forall p :: p in pools && p.id in chosen ==> node !in p.nodes
  {
    nodes := [node, other];
    assert nodes[..1] == [node];
    assert NodesOf([node], first) == [node] && NodesOf([node], second) == [];
    assert NodesOf(nodes, first) == [node] && NodesOf(nodes, second) == [other];
    pools := [NodePool(first, [node]), NodePool(second, [other])];
    chosen := [second];
    assert pools[0] in pools && pools[1] in pools;
  }
}
