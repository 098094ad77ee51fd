/** The whole way from the nodes of a cluster, over the operator's choice, to the nodes a model can
    run on: installer/internal/workflow/stages/nodes/nodes.go and
    pkg/iac/serving/internal/config/naming.go. */
module NodePlacement {
  import opened Wrappers
  import opened Placement
  import opened NodePools
  import opened PoolListing
  import AssignmentPrompt
  import Choice
  import ChoiceLines

  /** A node on offer that carries its own pool's label and no other listed pool's. */
  ghost predicate Reachable(nodes: seq<NodeInfo>, pools: seq<NodePool>, node: NodeInfo) {
    node in nodes && !node.reserved && OnlyItsOwnLabel(pools, node)
  }

  /** The node's own pool serves the model. */
  ghost predicate ServesFrom(a: Assignment, m: Model, node: NodeInfo) {
    m.slug in a.models && Home(node.name, node.labels) in a.models[m.slug]
  }

  /** An accepted assignment over the pools of a cluster. */
  ghost predicate Accepted(nodes: seq<NodeInfo>, pools: seq<NodePool>, models: seq<Model>, values: seq<string>,
                           a: Assignment)
  {
    && Partition(pools, nodes) && |pools| == |values|
    && Acceptable(pools, models, values) && IsAssignmentOf(a, pools, models, values)
  }

  lemma AdmittedServes(nodes: seq<NodeInfo>, pools: seq<NodePool>, models: seq<Model>, values: seq<string>,
                       a: Assignment, m: Model, node: NodeInfo)
    requires Accepted(nodes, pools, models, values, a) && m in models && Reachable(nodes, pools, node)
    ensures m.slug in a.models
    ensures (exists id :: id in a.models[m.slug] && Carries(node.labels, id)) <==> ServesFrom(a, m, node)
  {
    AcceptedAssignment(pools, models, values, a, m);
    if id :| id in a.models[m.slug] && Carries(node.labels, id) {
      var p :| p in pools && p.id == id;
      assert p.id == Home(node.name, node.labels);
    }
  }

  /** The pool a node is listed in. */
  lemma HomePool(nodes: seq<NodeInfo>, pools: seq<NodePool>, node: NodeInfo) returns (p: NodePool)
    requires Partition(pools, nodes) && node in nodes && !node.reserved
    ensures p in pools && p.id == Home(node.name, node.labels) && node in p.nodes
  {
    ListedAtHome(pools, nodes, node);
    p :| p in pools && p.id == Home(node.name, node.labels);
  }

  /** A node that serves a model has the GPUs for its pods. */
  lemma ServingNodeHasTheGPUs(nodes: seq<NodeInfo>, pools: seq<NodePool>, models: seq<Model>, values: seq<string>,
                              a: Assignment, m: Model, node: NodeInfo)
    requires Accepted(nodes, pools, models, values, a) && m in models && node in nodes && !node.reserved
    requires ServesFrom(a, m, node)
    ensures node.gpus >= m.gpusPerPod
  {
    AcceptedAssignment(pools, models, values, a, m);
    var p := HomePool(nodes, pools, node);
  }

  /** Two nodes that serve one model have the same GPU product, where they have one. */
  lemma ServingNodesShareAProduct(nodes: seq<NodeInfo>, pools: seq<NodePool>, models: seq<Model>, values: seq<string>,
                                  a: Assignment, m: Model, node: NodeInfo, other: NodeInfo)
    requires Accepted(nodes, pools, models, values, a) && m in models
    requires node in nodes && !node.reserved && other in nodes && !other.reserved
    requires ServesFrom(a, m, node) && ServesFrom(a, m, other)
    ensures Product(node) != "" && Product(other) != "" ==> Product(node) == Product(other)
    ensures Counted(node) && Counted(other) ==> SameKind(node, other)
  {
    AcceptedAssignment(pools, models, values, a, m);
    var p := HomePool(nodes, pools, node);
    var q := HomePool(nodes, pools, other);
  }

  /** A node serves at most one model, and does no CPU work then. */
  lemma ServesOneWorkload(nodes: seq<NodeInfo>, pools: seq<NodePool>, models: seq<Model>, values: seq<string>,
                          a: Assignment, m: Model, other: Model, node: NodeInfo)
    requires Accepted(nodes, pools, models, values, a) && m in models && other.slug != m.slug
    requires ServesFrom(a, m, node)
    ensures !ServesFrom(a, other, node) && Home(node.name, node.labels) !in a.cpu
  {
    AcceptedAssignment(pools, models, values, a, m);
  }

  /** List the pools, let the operator assign them, and build the affinity of a model. Of the
      nodes with a single pool label it admits exactly those of the model's pools, and each of
      them has the GPUs for a pod of the model. */
  method PlaceModel(nodes: seq<NodeInfo>, models: seq<Model>, stored: Option<Assignment>,
                    presses: seq<(Choice.Press, int, nat)>, m: Model)
    returns (assignment: Option<Assignment>, affinity: Affinity, pools: seq<NodePool>,
             ghost prompt: ChoiceLines.Prompt, ghost screens: seq<Choice.Screen>)
    requires forall node :: node in nodes ==> node.name != ""
    requires DistinctSlugs(models) && m in models && forall i :: 0 <= i < |presses| ==> presses[i].2 >= 1
    ensures assignment.Some? ==> exists values :: Accepted(nodes, pools, models, values, assignment.value)
    ensures assignment.None? ==>
              || (forall node :: node in nodes ==> node.reserved)
              || (AssignmentPrompt.IsPromptFor(prompt, pools, models, stored)
                  && Choice.Answers(prompt, presses, screens, None))
    ensures forall node | assignment.Some? && Reachable(nodes, pools, node) ::
              Admits(affinity, node.labels) <==> ServesFrom(assignment.value, m, node)
    ensures forall node | assignment.Some? && Reachable(nodes, pools, node) && Admits(affinity, node.labels) ::
              node.gpus >= m.gpusPerPod
    ensures forall node, other | assignment.Some? && Reachable(nodes, pools, node) && Reachable(nodes, pools, other)
              && Admits(affinity, node.labels) && Admits(affinity, other.labels) && Counted(node) && Counted(other) ::
              SameKind(node, other)
  {
    assignment, affinity, pools, screens := None, None, [], [];
    prompt := ChoiceLines.Prompt([], [], "", None);
    var listed := ListPools(nodes);
    if listed.None? { return; }
    pools := listed.value;
    var values;
    assignment, values, prompt, screens := AssignmentPrompt.AssignPools(pools, models, stored, presses);
    if assignment.None? { return; }
    var a := assignment.value;
    assert Accepted(nodes, pools, models, values, a);
    AcceptedAssignment(pools, models, values, a, m);
    affinity := AffinityOfPools(a.models[m.slug]);
    forall node | Reachable(nodes, pools, node)
      ensures Admits(affinity, node.labels) <==> ServesFrom(a, m, node)
      ensures ServesFrom(a, m, node) ==> node.gpus >= m.gpusPerPod
    {
      AdmittedServes(nodes, pools, models, values, a, m, node);
      if ServesFrom(a, m, node) { ServingNodeHasTheGPUs(nodes, pools, models, values, a, m, node); }
    }
    forall node, other | Reachable(nodes, pools, node) && Reachable(nodes, pools, other)
                         && ServesFrom(a, m, node) && ServesFrom(a, m, other) && Counted(node) && Counted(other)
      ensures SameKind(node, other)
    {
      ServingNodesShareAProduct(nodes, pools, models, values, a, m, node, other);
    }
  }
}
