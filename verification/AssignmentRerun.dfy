/** What a later run makes of the stored assignment: installer/internal/workflow/stages/nodes/nodes.go. */
module AssignmentRerun {
  import opened Wrappers
  import opened StringOrder
  import opened Placement
  import opened NodePools

  // ----- the preselected options -----

  ghost predicate Offered(p: NodePool, models: seq<Model>, option: string) {
    option in PoolOptions(p, models)
  }

  ghost predicate StoredUnder(stored: Assignment, slug: string, id: Pool) {
    slug in stored.models && id in stored.models[slug]
  }

  ghost predicate Labelled(node: NodeInfo, key: string) {
    key in node.labels && node.labels[key] == "true"
  }

  ghost predicate AllLabelled(p: NodePool, key: string) {
    p.nodes != [] && forall node :: node in p.nodes ==> Labelled(node, key)
  }

  /** allNodesLabelled */
  method AllNodesLabelled(p: NodePool, key: string) returns (all: bool)
    ensures all <==> AllLabelled(p, key)
  {
    for i := 0 to |p.nodes|
      invariant forall node :: node in p.nodes[..i] ==> Labelled(node, key)
    {
      assert p.nodes[..i + 1] == p.nodes[..i] + [p.nodes[i]];
      if Lookup(p.nodes[i].labels, key) != "true" {
        assert p.nodes[i] in p.nodes && !Labelled(p.nodes[i], key);
        return false;
      }
    }
    assert p.nodes[..|p.nodes|] == p.nodes;
    return |p.nodes| > 0;
  }

  /** hasGPU */
  method HasGPU(p: NodePool) returns (has: bool)
    ensures has <==> exists node :: node in p.nodes && node.gpus > 0
  {
    for i := 0 to |p.nodes|
      invariant forall node :: node in p.nodes[..i] ==> node.gpus == 0
    {
      if p.nodes[i].gpus > 0 { return true; }
    }
    assert p.nodes[..|p.nodes|] == p.nodes;
    return false;
  }

  /** allControlPlane */
  method AllControlPlane(p: NodePool) returns (all: bool)
    ensures all <==> forall node :: node in p.nodes ==> node.controlPlane
  {
    for i := 0 to |p.nodes|
      invariant forall node :: node in p.nodes[..i] ==> node.controlPlane
    {
      if !p.nodes[i].controlPlane { return false; }
    }
    assert p.nodes[..|p.nodes|] == p.nodes;
    return true;
  }

  /** The pool already serves the model, as far as this run can tell, and may go on doing so. */
  ghost predicate Keeps(p: NodePool, models: seq<Model>, stored: Option<Assignment>, model: Model) {
    && Offered(p, models, ModelOption(model))
    && match stored
       case Some(a) => StoredUnder(a, model.slug, p.id)
       case None => AllLabelled(p, "axem.dev/model-" + model.slug)
  }

  /** A pool that keeps no model is for CPU work if it was stored so; on a first run, if an earlier
      installer labelled it so, or it has no GPU and is not of control plane nodes alone. */
  ghost predicate IsForCpu(p: NodePool, stored: Option<Assignment>) {
    match stored
    case Some(a) => p.id in a.cpu
    case None => AllLabelled(p, "axem.dev/workload-cpu") || IsForThePlatform(p)
  }

  ghost predicate IsForThePlatform(p: NodePool) {
    && (forall node :: node in p.nodes ==> node.gpus == 0)
    && exists node :: node in p.nodes && !node.controlPlane
  }

  ghost predicate Preselected(p: NodePool, models: seq<Model>, stored: Option<Assignment>, option: string) {
    && (forall k: nat :: FirstKept(p, models, stored, k) ==> option == ModelOption(models[k]))
    && ((forall m :: m in models ==> !Keeps(p, models, stored, m)) ==>
          option == if IsForCpu(p, stored) then "cpu" else "unassigned")
  }

  ghost predicate FirstKept(p: NodePool, models: seq<Model>, stored: Option<Assignment>, k: nat) {
    && k < |models| && Keeps(p, models, stored, models[k])
    && forall j :: 0 <= j < k ==> !Keeps(p, models, stored, models[j])
  }

  /** initialOption: always an option the pool offers. */
  method InitialOption(p: NodePool, models: seq<Model>, stored: Option<Assignment>) returns (option: string)
    ensures Preselected(p, models, stored, option) && option in PoolOptions(p, models)
  {
    var options := PoolOptionsOf(p, models);
    for k := 0 to |models|
      invariant forall j :: 0 <= j < k ==> !Keeps(p, models, stored, models[j])
    {
      var model := models[k];
      var kept;
      match stored {
        case Some(a) => kept := model.slug in a.models && p.id in a.models[model.slug];
        case None => kept := AllNodesLabelled(p, LEGACY_MODEL_PREFIX + model.slug);
      }
      if kept && ModelOption(model) in options {
        FirstKeptDecides(p, models, stored, k);
        return ModelOption(model);
      }
    }
    assert CPU in [CPU, UNASSIGNED] && UNASSIGNED in [CPU, UNASSIGNED];
    if stored.Some? {
      return if p.id in stored.value.cpu then CPU else UNASSIGNED;
    }
    var labelled := AllNodesLabelled(p, LEGACY_CPU_LABEL);
    if labelled { return CPU; }
    var gpu := HasGPU(p);
    var controlPlane := AllControlPlane(p);
    if !gpu && !controlPlane { return CPU; }
    return UNASSIGNED;
  }

  lemma OneFirstKept(p: NodePool, models: seq<Model>, stored: Option<Assignment>, k: nat, l: nat)
    requires FirstKept(p, models, stored, k) && FirstKept(p, models, stored, l)
    ensures k == l
  {
  }

  lemma FirstKeptDecides(p: NodePool, models: seq<Model>, stored: Option<Assignment>, k: nat)
    requires FirstKept(p, models, stored, k)
    ensures Preselected(p, models, stored, ModelOption(models[k]))
  {
    assert models[k] in models;
    forall l: nat | FirstKept(p, models, stored, l) ensures l == k {
      OneFirstKept(p, models, stored, k, l);
    }
  }

  /** A rerun that changes nothing is a single confirm: reloading a stored assignment
      preselects for every pool the option it was submitted with. */
  lemma StoredThenReloaded(pools: seq<NodePool>, models: seq<Model>, values: seq<string>, a: Assignment,
                           again: seq<string>)
    requires |pools| == |values| == |again| && DistinctPools(pools) && DistinctSlugs(models)
    requires forall i :: 0 <= i < |pools| ==> values[i] in PoolOptions(pools[i], models)
    requires IsAssignmentOf(a, pools, models, values)
    requires forall i :: 0 <= i < |pools| ==> Preselected(pools[i], models, Some(a), again[i])
    ensures again == values
  {
    forall i | 0 <= i < |pools| ensures again[i] == values[i] {
      if m :| m in models && ModelOption(m) == values[i] {
        ReloadsModel(pools, models, values, a, i, m);
      } else {
        OfferedIffFits(pools[i], models, values[i]);
        ReloadsRest(pools, models, values, a, i);
      }
    }
  }

  lemma StoredWhereSubmitted(pools: seq<NodePool>, models: seq<Model>, values: seq<string>, a: Assignment, i: nat,
                             option: string)
    requires |pools| == |values| && DistinctPools(pools) && i < |pools|
    ensures pools[i].id in Ids(PoolsWith(pools, values, option)) <==> values[i] == option
  {
    assert pools[i] in pools;
    GivenByPool(pools, values, option, pools[i]);
    PoolsWithMembers(pools, values, option, pools[i]);
  }

  lemma ReloadsModel(pools: seq<NodePool>, models: seq<Model>, values: seq<string>, a: Assignment, i: nat, m: Model)
    requires |pools| == |values| && DistinctPools(pools) && DistinctSlugs(models) && i < |pools|
    requires values[i] in PoolOptions(pools[i], models) && IsAssignmentOf(a, pools, models, values)
    requires m in models && ModelOption(m) == values[i]
    ensures forall option :: Preselected(pools[i], models, Some(a), option) ==> option == values[i]
  {
    var k :| 0 <= k < |models| && models[k] == m;
    assert values[i] in values;
    StoredWhereSubmitted(pools, models, values, a, i, MODEL_PREFIX + m.slug);
    assert Keeps(pools[i], models, Some(a), models[k]);
    forall j | 0 <= j < k ensures !Keeps(pools[i], models, Some(a), models[j]) {
      ModelOptionsAreTheirOwn(models[j], m);
      StoredWhereSubmitted(pools, models, values, a, i, MODEL_PREFIX + models[j].slug);
    }
    assert FirstKept(pools[i], models, Some(a), k);
  }

  lemma ReloadsRest(pools: seq<NodePool>, models: seq<Model>, values: seq<string>, a: Assignment, i: nat)
    requires |pools| == |values| && DistinctPools(pools) && i < |pools|
    requires IsAssignmentOf(a, pools, models, values)
    requires values[i] == CPU || values[i] == UNASSIGNED
    ensures forall option :: Preselected(pools[i], models, Some(a), option) ==> option == values[i]
  {
    forall m | m in models ensures !Keeps(pools[i], models, Some(a), m) {
      ModelOptionsAreTheirOwn(m, m);
      StoredWhereSubmitted(pools, models, values, a, i, MODEL_PREFIX + m.slug);
    }
    StoredWhereSubmitted(pools, models, values, a, i, CPU);
  }

  // ----- is it the same assignment? -----

  function PoolString(p: Pool): string {
    p.key + "=" + p.name
  }

  ghost predicate PlainKeys(pools: seq<Pool>) {
    forall p :: p in pools ==> '=' !in p.key
  }

  lemma PlainStringsNameOnePool(p: Pool, q: Pool)
    requires '=' !in p.key && '=' !in q.key && PoolString(p) == PoolString(q)
    ensures p == q
  {
    var s := PoolString(p);
    assert s[|p.key|] == '=' && s[|q.key|] == '=';
    assert forall i :: 0 <= i < |p.key| ==> s[i] == p.key[i];
    assert forall i :: 0 <= i < |q.key| ==> s[i] == q.key[i];
    assert s[..|p.key|] == p.key && s[..|q.key|] == q.key;
    assert s[|p.key| + 1..] == p.name && s[|q.key| + 1..] == q.name;
  }

  predicate ByString(p: Pool, q: Pool) {
    Le(PoolString(p), PoolString(q))
  }

  method SortedPools(pools: seq<Pool>) returns (sorted: seq<Pool>)
    ensures SortedBy(sorted, ByString) && multiset(sorted) == multiset(pools)
  {
    forall p, q ensures ByString(p, q) || ByString(q, p) { LeTotal(PoolString(p), PoolString(q)); }
    forall p, q, r | ByString(p, q) && ByString(q, r) ensures ByString(p, r) {
      LeTransitive(PoolString(p), PoolString(q), PoolString(r));
    }
    sorted := SortSlice(pools, ByString);
  }

  lemma SortedPoolsAreUnique(xs: seq<Pool>, ys: seq<Pool>)
    requires SortedBy(xs, ByString) && SortedBy(ys, ByString) && multiset(xs) == multiset(ys) && PlainKeys(xs)
    ensures xs == ys
  {
    forall p, q | p in xs && q in xs && ByString(p, q) && ByString(q, p) ensures p == q {
      LeAntisymmetric(PoolString(p), PoolString(q));
      PlainStringsNameOnePool(p, q);
    }
    SortedByIsUnique(xs, ys, ByString);
  }

  /** The pools of a workload, no entry reading as none. */
  function PoolsOf(a: Assignment, slug: string): seq<Pool> {
    if slug in a.models then a.models[slug] else []
  }

  /** Agreement up to the order of pools and up to empty entries. */
  ghost predicate Agree(a: Assignment, b: Assignment) {
    && multiset(a.cpu) == multiset(b.cpu)
    && forall slug :: multiset(PoolsOf(a, slug)) == multiset(PoolsOf(b, slug))
  }

  ghost predicate IsNormal(x: Assignment, out: Assignment) {
    && SortedBy(out.cpu, ByString) && multiset(out.cpu) == multiset(x.cpu)
    && (forall slug :: slug in out.models <==> PoolsOf(x, slug) != [])
    && forall slug :: slug in out.models ==>
         SortedBy(out.models[slug], ByString) && multiset(out.models[slug]) == multiset(x.models[slug])
  }

  method Normalize(x: Assignment) returns (out: Assignment)
    ensures IsNormal(x, out)
  {
    var cpu := SortedPools(x.cpu);
    var models: map<string, seq<Pool>> := map[];
    var slugs := x.models.Keys;
    while slugs != {}
      invariant slugs <= x.models.Keys
      invariant forall slug :: slug in models <==> slug in x.models && slug !in slugs && x.models[slug] != []
      invariant forall slug :: slug in models ==>
                  SortedBy(models[slug], ByString) && multiset(models[slug]) == multiset(x.models[slug])
    {
      var slug :| slug in slugs;
      slugs := slugs - {slug};
      if x.models[slug] != [] {
        var sorted := SortedPools(x.models[slug]);
        models := models[slug := sorted];
      }
    }
    out := Assignment(models, cpu);
  }

  ghost predicate PlainAssignment(a: Assignment) {
    PlainKeys(a.cpu) && forall slug :: slug in a.models ==> PlainKeys(a.models[slug])
  }

  /** sameAssignment. Pool keys are node label keys, and a label key holds no '='. */
  method SameAssignment(a: Assignment, b: Assignment) returns (same: bool)
    ensures same ==> Agree(a, b)
    ensures PlainAssignment(a) ==> (same <==> Agree(a, b))
  {
    var x := Normalize(a);
    var y := Normalize(b);
    same := x == y;
    if same { EqualNormalFormsAgree(a, b, x); }
    if PlainAssignment(a) && Agree(a, b) { AgreeingNormalFormsAreEqual(a, b, x, y); }
  }

  lemma EqualNormalFormsAgree(a: Assignment, b: Assignment, x: Assignment)
    requires IsNormal(a, x) && IsNormal(b, x)
    ensures Agree(a, b)
  {
    forall slug ensures multiset(PoolsOf(a, slug)) == multiset(PoolsOf(b, slug)) {
      assert slug in x.models <==> PoolsOf(a, slug) != [];
      assert slug in x.models <==> PoolsOf(b, slug) != [];
    }
  }

  lemma AgreeingNormalFormsAreEqual(a: Assignment, b: Assignment, x: Assignment, y: Assignment)
    requires IsNormal(a, x) && IsNormal(b, y) && PlainAssignment(a) && Agree(a, b)
    ensures x == y
  {
    SamePlain(x.cpu, a.cpu);
    SortedPoolsAreUnique(x.cpu, y.cpu);
    SameSlugs(a, b, x, y);
    forall slug | slug in x.models ensures x.models[slug] == y.models[slug] {
      SameEntry(a, b, x, y, slug);
    }
    assert x.models == y.models;
  }

  lemma SameSlugs(a: Assignment, b: Assignment, x: Assignment, y: Assignment)
    requires IsNormal(a, x) && IsNormal(b, y) && Agree(a, b)
    ensures x.models.Keys == y.models.Keys
  {
    forall slug ensures slug in x.models <==> slug in y.models {
      SameLength(PoolsOf(a, slug), PoolsOf(b, slug));
    }
  }

  lemma SameEntry(a: Assignment, b: Assignment, x: Assignment, y: Assignment, slug: string)
    requires IsNormal(a, x) && IsNormal(b, y) && PlainAssignment(a) && Agree(a, b)
    requires slug in x.models && slug in y.models
    ensures x.models[slug] == y.models[slug]
  {
    assert slug in a.models && slug in b.models;
    assert multiset(PoolsOf(a, slug)) == multiset(PoolsOf(b, slug));
    SamePlain(x.models[slug], a.models[slug]);
    SortedPoolsAreUnique(x.models[slug], y.models[slug]);
  }

  lemma SameLength(xs: seq<Pool>, ys: seq<Pool>)
    requires multiset(xs) == multiset(ys)
    ensures |xs| == |ys|
  {
    assert |multiset(xs)| == |multiset(ys)|;
  }

  lemma SamePlain(xs: seq<Pool>, ys: seq<Pool>)
    requires multiset(xs) == multiset(ys) && PlainKeys(ys)
    ensures PlainKeys(xs)
  {
    SamePools(xs, ys);
  }
}
