/** The assignment of node pools to workloads: installer/internal/workflow/stages/nodes/nodes.go. */
module NodePools {
  import opened Wrappers
  import opened StringOrder
  import opened Placement
  import GoText

  datatype NodeInfo = NodeInfo(name: string, labels: Labels, gpus: nat, gpuProduct: string, controlPlane: bool,
                               reserved: bool)

  datatype NodePool = NodePool(id: Pool, nodes: seq<NodeInfo>)

  datatype Model = Model(name: string, slug: string, gpusPerPod: nat)

  datatype Assignment = Assignment(models: map<string, seq<Pool>>, cpu: seq<Pool>)

  const CPU := "cpu"
  const UNASSIGNED := "unassigned"
  const MODEL_PREFIX := "model:"
  const LEGACY_MODEL_PREFIX := "axem.dev/model-"
  const LEGACY_CPU_LABEL := "axem.dev/workload-cpu"

  function ModelOption(model: Model): string {
    MODEL_PREFIX + model.slug
  }

  lemma ModelOptionsAreTheirOwn(model: Model, other: Model)
    ensures ModelOption(model) != CPU && ModelOption(model) != UNASSIGNED && MODEL_PREFIX <= ModelOption(model)
    ensures ModelOption(model) == ModelOption(other) <==> model.slug == other.slug
  {
    assert ModelOption(model)[0] == 'm';
    assert ModelOption(model)[|MODEL_PREFIX|..] == model.slug;
    assert ModelOption(other)[|MODEL_PREFIX|..] == other.slug;
  }

  ghost predicate DistinctSlugs(models: seq<Model>) {
    forall i, j :: 0 <= i < j < |models| ==> models[i].slug != models[j].slug
  }

  ghost predicate DistinctPools(pools: seq<NodePool>) {
    forall i, j :: 0 <= i < j < |pools| ==> pools[i].id != pools[j].id
  }

  // ----- GPUs of a pool -----

  function Smallest(nodes: seq<NodeInfo>): int {
    if nodes == [] then -1
    else
      var smallest, last := Smallest(nodes[..|nodes| - 1]), nodes[|nodes| - 1].gpus;
      if smallest < 0 || last < smallest then last else smallest
  }

  function MinGPUs(p: NodePool): int {
    if Smallest(p.nodes) < 0 then 0 else Smallest(p.nodes)
  }

  method MinGPUsOf(p: NodePool) returns (min: int)
    ensures min == MinGPUs(p)
  {
    min := -1;
    for i := 0 to |p.nodes|
      invariant min == Smallest(p.nodes[..i])
    {
      assert p.nodes[..i + 1][..i] == p.nodes[..i];
      if min < 0 || p.nodes[i].gpus < min {
        min := p.nodes[i].gpus;
      }
    }
    assert p.nodes[..|p.nodes|] == p.nodes;
    if min < 0 { min := 0; }
  }

  predicate Fits(p: NodePool, model: Model) {
    MinGPUs(p) >= model.gpusPerPod
  }

  method FitsOn(p: NodePool, model: Model) returns (fits: bool)
    ensures fits == Fits(p, model)
  {
    var min := MinGPUsOf(p);
    return min >= model.gpusPerPod;
  }

  lemma {:induction false} SmallestIsTheMinimum(nodes: seq<NodeInfo>, n: nat)
    ensures nodes != [] ==> Smallest(nodes) >= 0
    ensures nodes != [] ==> (Smallest(nodes) >= n <==> forall node :: node in nodes ==> node.gpus >= n)
  {
    if nodes != [] {
      SmallestIsTheMinimum(nodes[..|nodes| - 1], n);
      assert nodes == nodes[..|nodes| - 1] + [nodes[|nodes| - 1]];
    }
  }

  /** A pod of the model fits on a pool when every one of its nodes has the GPUs for it. */
  lemma FitsMeansEveryNode(p: NodePool, model: Model)
    requires p.nodes != []
    ensures Fits(p, model) <==> forall node :: node in p.nodes ==> node.gpus >= model.gpusPerPod
  {
    SmallestIsTheMinimum(p.nodes, model.gpusPerPod);
  }

  function Product(node: NodeInfo): string {
    if node.gpuProduct == "" && node.gpus > 0 then "unknown GPU" else node.gpuProduct
  }

  ghost predicate HasProduct(pools: seq<NodePool>, product: string) {
    product != "" && exists p, node :: p in pools && node in p.nodes && Product(node) == product
  }

  /** At most one GPU product among the nodes of the pools. */
  ghost predicate OneProduct(pools: seq<NodePool>) {
    forall a, b :: HasProduct(pools, a) && HasProduct(pools, b) ==> a == b
  }

  /** The node has a say in which GPUs its pool has. */
  predicate Counted(node: NodeInfo) {
    node.gpus > 0 || node.gpuProduct != ""
  }

  /** The same product label, or the one read as what a missing label is called. */
  predicate SameKind(a: NodeInfo, b: NodeInfo) {
    a.gpuProduct == b.gpuProduct
    || (a.gpuProduct == "" && b.gpuProduct == "unknown GPU") || (a.gpuProduct == "unknown GPU" && b.gpuProduct == "")
  }

  /** Pools share a product exactly when the labels of their GPU nodes agree: a GPU node without a
      product label goes with no labelled one. */
  lemma OneProductMeans(pools: seq<NodePool>)
    ensures OneProduct(pools) <==>
            forall p, q, a, b | p in pools && q in pools && a in p.nodes && b in q.nodes && Counted(a) && Counted(b) ::
              SameKind(a, b)
  {
    if OneProduct(pools) {
      forall p, q, a, b | p in pools && q in pools && a in p.nodes && b in q.nodes && Counted(a) && Counted(b)
        ensures SameKind(a, b)
      {
        assert HasProduct(pools, Product(a)) && HasProduct(pools, Product(b));
      }
    } else {
      var x, y :| HasProduct(pools, x) && HasProduct(pools, y) && x != y;
      var p, a :| p in pools && a in p.nodes && Product(a) == x;
      var q, b :| q in pools && b in q.nodes && Product(b) == y;
      assert Counted(a) && Counted(b) && !SameKind(a, b);
    }
  }

  /** gpuProducts: each product once, sorted. */
  method GpuProducts(pools: seq<NodePool>) returns (products: seq<string>)
    ensures Sorted(products)
    ensures forall product :: product in products <==> HasProduct(pools, product)
    ensures forall i, j :: 0 <= i < j < |products| ==> products[i] != products[j]
    ensures |products| <= 1 <==> OneProduct(pools)
  {
    var seen: set<string> := {};
    for i := 0 to |pools|
      invariant forall product :: product in seen <==> HasProduct(pools[..i], product)
    {
      for j := 0 to |pools[i].nodes|
        invariant forall product :: product in seen <==>
                    HasProduct(pools[..i], product) || HasProduct([NodePool(pools[i].id, pools[i].nodes[..j])], product)
      {
        var product := Product(pools[i].nodes[j]);
        OneMoreNode(pools[i], j);
        if product != "" {
          seen := seen + {product};
        }
      }
      OneMorePool(pools, i);
    }
    assert pools[..|pools|] == pools;
    products := SortedElements(seen);
    if |products| > 1 {
      assert products[0] in products && products[1] in products && products[0] != products[1];
    }
    if |products| == 1 {
      assert forall product :: product in products ==> product == products[0];
    }
    if !OneProduct(pools) {
      var a, b :| HasProduct(pools, a) && HasProduct(pools, b) && a != b;
      assert a in products && b in products;
    }
  }

  lemma OneMoreNode(p: NodePool, j: nat)
    requires j < |p.nodes|
    ensures forall product ::
              HasProduct([NodePool(p.id, p.nodes[..j + 1])], product) <==>
              HasProduct([NodePool(p.id, p.nodes[..j])], product) || (product != "" && Product(p.nodes[j]) == product)
  {
    var before, after := NodePool(p.id, p.nodes[..j]), NodePool(p.id, p.nodes[..j + 1]);
    var node := p.nodes[j];
    assert after.nodes == before.nodes + [node];
    forall product ensures HasProduct([after], product) <==>
                           HasProduct([before], product) || (product != "" && Product(node) == product)
    {
      HasProductOfOne(before, product);
      HasProductOfOne(after, product);
      if product != "" && Product(node) == product { assert node in after.nodes; }
    }
  }

  lemma HasProductOfOne(p: NodePool, product: string)
    ensures HasProduct([p], product) <==> product != "" && exists node :: node in p.nodes && Product(node) == product
  {
    assert p in [p];
  }

  lemma OneMorePool(pools: seq<NodePool>, i: nat)
    requires i < |pools|
    ensures forall product ::
              HasProduct(pools[..i + 1], product) <==>
              HasProduct(pools[..i], product)
              || HasProduct([NodePool(pools[i].id, pools[i].nodes[..|pools[i].nodes|])], product)
  {
    assert pools[i].nodes[..|pools[i].nodes|] == pools[i].nodes;
    assert NodePool(pools[i].id, pools[i].nodes) == pools[i];
    OneMorePoolHas(pools[..i], pools[i]);
    assert pools[..i + 1] == pools[..i] + [pools[i]];
  }

  lemma OneMorePoolHas(before: seq<NodePool>, p: NodePool)
    ensures forall product ::
              HasProduct(before + [p], product) <==> HasProduct(before, product) || HasProduct([p], product)
  {
    var after := before + [p];
    forall product ensures HasProduct(after, product) <==> HasProduct(before, product) || HasProduct([p], product) {
      if HasProduct(after, product) {
        var q, node :| q in after && node in q.nodes && Product(node) == product;
        assert q in before || q in [p];
      }
      if HasProduct(before, product) {
        var q, node :| q in before && node in q.nodes && Product(node) == product;
        assert q in after;
      }
      if HasProduct([p], product) {
        var q, node :| q in [p] && node in q.nodes && Product(node) == product;
        assert q in after;
      }
    }
  }

  // ----- where a pool can go -----

  function PoolOptions(p: NodePool, models: seq<Model>): seq<string> {
    FittingOptions(p, models) + [CPU, UNASSIGNED]
  }

  function FittingOptions(p: NodePool, models: seq<Model>): seq<string> {
    if models == [] then []
    else FittingOptions(p, models[..|models| - 1])
         + if Fits(p, models[|models| - 1]) then [ModelOption(models[|models| - 1])] else []
  }

  method PoolOptionsOf(p: NodePool, models: seq<Model>) returns (options: seq<string>)
    ensures options == PoolOptions(p, models)
  {
    options := [];
    for i := 0 to |models|
      invariant options == FittingOptions(p, models[..i])
    {
      assert models[..i + 1][..i] == models[..i];
      var fits := FitsOn(p, models[i]);
      if fits {
        options := options + [ModelOption(models[i])];
      }
    }
    assert models[..|models|] == models;
    options := options + [CPU, UNASSIGNED];
  }

  lemma {:induction false} OfferedIffFits(p: NodePool, models: seq<Model>, option: string)
    ensures option in FittingOptions(p, models) <==>
            exists m :: m in models && Fits(p, m) && option == ModelOption(m)
  {
    if models != [] {
      var last := models[|models| - 1];
      OfferedIffFits(p, models[..|models| - 1], option);
      assert models == models[..|models| - 1] + [last];
    }
  }

  // ----- the check -----

  datatype Problem =
    | NoPools(model: nat) | MixedPool(model: nat, pool: string) | MixedProducts(model: nat)
    | TooFewGPUs(model: nat, pool: string) | NoCPU

  datatype Check = Check(groups: map<string, bool>, blocking: Option<Problem>)

  /** The pools with an option, in their order. */
  function PoolsWith(pools: seq<NodePool>, values: seq<string>, option: string): seq<NodePool>
    requires |pools| == |values|
  {
    if values == [] then []
    else
      var n := |values| - 1;
      PoolsWith(pools[..n], values[..n], option) + if values[n] == option then [pools[n]] else []
  }

  lemma {:induction false} PoolsWithMembers(pools: seq<NodePool>, values: seq<string>, option: string, p: NodePool)
    requires |pools| == |values|
    ensures p in PoolsWith(pools, values, option) <==>
              exists i :: 0 <= i < |values| && pools[i] == p && values[i] == option
  {
    if values != [] {
      var n := |values| - 1;
      PoolsWithMembers(pools[..n], values[..n], option, p);
      if i :| 0 <= i < n && pools[..n][i] == p && values[..n][i] == option {
        assert pools[i] == p && values[i] == option;
      }
      if i :| 0 <= i < |values| && pools[i] == p && values[i] == option {
        assert i < n ==> pools[..n][i] == p && values[..n][i] == option;
      }
    }
  }

  /** What a model needs of the pools it is given. */
  ghost predicate Serves(given: seq<NodePool>, model: Model) {
    given != [] && OneProduct(given) && forall p :: p in given ==> Fits(p, model)
  }

  ghost predicate ModelServed(pools: seq<NodePool>, values: seq<string>, model: Model)
    requires |pools| == |values|
  {
    Serves(PoolsWith(pools, values, ModelOption(model)), model)
  }

  /** What has to hold before an assignment is accepted. */
  ghost predicate Acceptable(pools: seq<NodePool>, models: seq<Model>, values: seq<string>)
    requires |pools| == |values|
  {
    (forall m :: m in models ==> ModelServed(pools, values, m)) && CPU in values
  }

  /** mixedPool names the first pool with more than one product. */
  method MixedPoolOf(pools: seq<NodePool>) returns (name: string)
    requires forall p :: p in pools ==> p.id.name != ""
    ensures name == "" ==> NoneMixed(pools)
    ensures name != "" ==> !OneProduct(pools) && exists i :: MixedAt(pools, i, name)
  {
    for i := 0 to |pools|
      invariant forall j :: 0 <= j < i ==> OneProduct([pools[j]])
    {
      var products := GpuProducts([pools[i]]);
      if |products| > 1 {
        MixedPart(pools, i);
        assert MixedAt(pools, i, pools[i].id.name);
        return pools[i].id.name;
      }
    }
    return "";
  }

  lemma MixedPart(pools: seq<NodePool>, i: nat)
    requires i < |pools| && !OneProduct([pools[i]])
    ensures !OneProduct(pools)
  {
    var a, b :| HasProduct([pools[i]], a) && HasProduct([pools[i]], b) && a != b;
    assert pools[i] in pools;
    assert HasProduct(pools, a) && HasProduct(pools, b);
  }

  /** The first pool with more than one product. */
  ghost predicate MixedAt(given: seq<NodePool>, i: int, name: string) {
    && 0 <= i < |given| && given[i].id.name == name && !OneProduct([given[i]])
    && forall j :: 0 <= j < i ==> OneProduct([given[j]])
  }

  /** The first pool the model does not fit on. */
  ghost predicate ShortAt(given: seq<NodePool>, model: Model, i: int, name: string) {
    && 0 <= i < |given| && given[i].id.name == name && !Fits(given[i], model)
    && forall j :: 0 <= j < i ==> Fits(given[j], model)
  }

  ghost predicate NoneMixed(given: seq<NodePool>) {
    forall j :: 0 <= j < |given| ==> OneProduct([given[j]])
  }

  /** What each problem says about the pools of the model it names. */
  ghost predicate Explains(given: seq<NodePool>, model: Model, problem: Problem) {
    match problem
    case NoPools(_) => given == []
    case MixedPool(_, name) => exists i :: MixedAt(given, i, name)
    case MixedProducts(_) => !OneProduct(given) && NoneMixed(given)
    case TooFewGPUs(_, name) => OneProduct(given) && exists i :: ShortAt(given, model, i, name)
    case NoCPU => false
  }

  function Products(pools: seq<NodePool>): set<string> {
    set p, node | p in pools && node in p.nodes && Product(node) != "" :: Product(node)
  }

  predicate Uniform(pools: seq<NodePool>) {
    forall a, b :: a in Products(pools) && b in Products(pools) ==> a == b
  }

  lemma UniformIsOneProduct(pools: seq<NodePool>)
    ensures Uniform(pools) <==> OneProduct(pools)
  {
    forall product ensures product in Products(pools) <==> HasProduct(pools, product) {}
  }

  function FirstMixed(pools: seq<NodePool>): Option<string> {
    if pools == [] then None
    else
      var n := |pools| - 1;
      var before := FirstMixed(pools[..n]);
      if before.Some? then before else if !Uniform([pools[n]]) then Some(pools[n].id.name) else None
  }

  lemma OneMoreMixed(pools: seq<NodePool>, n: nat)
    requires n == |pools| - 1
    ensures NoneMixed(pools) <==> NoneMixed(pools[..n]) && OneProduct([pools[n]])
    ensures forall i, name :: MixedAt(pools[..n], i, name) ==> MixedAt(pools, i, name)
    ensures NoneMixed(pools[..n]) && !OneProduct([pools[n]]) ==> MixedAt(pools, n, pools[n].id.name)
  {
    forall j | 0 <= j < n ensures [pools[..n][j]] == [pools[j]] {}
  }

  lemma {:induction false} FirstMixedIs(pools: seq<NodePool>)
    ensures FirstMixed(pools).None? <==> NoneMixed(pools)
    ensures FirstMixed(pools).Some? ==> exists i :: MixedAt(pools, i, FirstMixed(pools).value)
  {
    if pools != [] {
      var n := |pools| - 1;
      FirstMixedIs(pools[..n]);
      UniformIsOneProduct([pools[n]]);
      OneMoreMixed(pools, n);
    }
  }

  function FirstShort(pools: seq<NodePool>, model: Model): Option<string> {
    if pools == [] then None
    else
      var n := |pools| - 1;
      var before := FirstShort(pools[..n], model);
      if before.Some? then before else if !Fits(pools[n], model) then Some(pools[n].id.name) else None
  }

  lemma {:induction false} FirstShortIs(pools: seq<NodePool>, model: Model)
    ensures FirstShort(pools, model).None? <==> forall p :: p in pools ==> Fits(p, model)
    ensures FirstShort(pools, model).Some? ==> exists i :: ShortAt(pools, model, i, FirstShort(pools, model).value)
  {
    if pools != [] {
      var n := |pools| - 1;
      FirstShortIs(pools[..n], model);
      assert pools == pools[..n] + [pools[n]];
      if FirstShort(pools[..n], model).Some? {
        var i :| ShortAt(pools[..n], model, i, FirstShort(pools, model).value);
        assert ShortAt(pools, model, i, FirstShort(pools, model).value);
      } else if !Fits(pools[n], model) {
        forall j | 0 <= j < n ensures Fits(pools[j], model) { assert pools[j] in pools[..n]; }
        assert ShortAt(pools, model, n, FirstShort(pools, model).value);
      }
    }
  }

  function ProblemFor(given: seq<NodePool>, model: Model, index: nat): Option<Problem> {
    if given == [] then Some(NoPools(index))
    else if FirstMixed(given).Some? then Some(MixedPool(index, FirstMixed(given).value))
    else if !Uniform(given) then Some(MixedProducts(index))
    else if FirstShort(given, model).Some? then Some(TooFewGPUs(index, FirstShort(given, model).value))
    else None
  }

  lemma ProblemForExplains(given: seq<NodePool>, model: Model, index: nat)
    ensures ProblemFor(given, model, index).None? <==> Serves(given, model)
    ensures ProblemFor(given, model, index).Some? ==>
              var problem := ProblemFor(given, model, index).value;
              !problem.NoCPU? && problem.model == index && Explains(given, model, problem)
  {
    UniformIsOneProduct(given);
    FirstMixedIs(given);
    FirstShortIs(given, model);
    if FirstMixed(given).Some? {
      var i :| MixedAt(given, i, FirstMixed(given).value);
      MixedPart(given, i);
    }
  }

  lemma MixedOnce(given: seq<NodePool>, a: string, b: string)
    requires (exists i :: MixedAt(given, i, a)) && exists k :: MixedAt(given, k, b)
    ensures a == b
  {
    var i :| MixedAt(given, i, a);
    var k :| MixedAt(given, k, b);
    assert !(i < k) && !(k < i);
  }

  lemma ShortOnce(given: seq<NodePool>, model: Model, a: string, b: string)
    requires (exists i :: ShortAt(given, model, i, a)) && exists k :: ShortAt(given, model, k, b)
    ensures a == b
  {
    var i :| ShortAt(given, model, i, a);
    var k :| ShortAt(given, model, k, b);
    assert !(i < k) && !(k < i);
  }

  lemma MixedMeansTwoProducts(given: seq<NodePool>, name: string)
    requires exists i :: MixedAt(given, i, name)
    ensures !OneProduct(given) && !NoneMixed(given) && given != []
  {
    var i :| MixedAt(given, i, name);
    MixedPart(given, i);
  }

  /** There is one explanation. */
  lemma ExplainsOnce(given: seq<NodePool>, model: Model, a: Problem, b: Problem)
    requires Explains(given, model, a) && Explains(given, model, b) && a.model == b.model
    ensures a == b
  {
    if a.MixedPool? { MixedMeansTwoProducts(given, a.pool); }
    if b.MixedPool? { MixedMeansTwoProducts(given, b.pool); }
    if a.MixedPool? && b.MixedPool? { MixedOnce(given, a.pool, b.pool); }
    if a.TooFewGPUs? && b.TooFewGPUs? { ShortOnce(given, model, a.pool, b.pool); }
  }

  /** The checks for one model: None when its pools serve it. */
  method ProblemOf(given: seq<NodePool>, model: Model, index: nat) returns (problem: Option<Problem>)
    requires forall p :: p in given ==> p.id.name != ""
    ensures problem.None? <==> Serves(given, model)
    ensures problem.Some? ==>
              !problem.value.NoCPU? && problem.value.model == index && Explains(given, model, problem.value)
    ensures problem == ProblemFor(given, model, index)
  {
    problem := FindProblem(given, model, index);
    ProblemForExplains(given, model, index);
    if problem.Some? { ExplainsOnce(given, model, problem.value, ProblemFor(given, model, index).value); }
  }

  method FindProblem(given: seq<NodePool>, model: Model, index: nat) returns (problem: Option<Problem>)
    requires forall p :: p in given ==> p.id.name != ""
    ensures problem.None? <==> Serves(given, model)
    ensures problem.Some? ==>
              !problem.value.NoCPU? && problem.value.model == index && Explains(given, model, problem.value)
  {
    if |given| == 0 { return Some(NoPools(index)); }
    var mixed := MixedPoolOf(given);
    if mixed != "" { return Some(MixedPool(index, mixed)); }
    var products := GpuProducts(given);
    if |products| > 1 { return Some(MixedProducts(index)); }
    var short := "";
    for i := 0 to |given|
      invariant short == "" <==> forall j :: 0 <= j < i ==> Fits(given[j], model)
      invariant short != "" ==> exists j :: ShortAt(given, model, j, short)
    {
      assert given[i] in given;
      var fits := FitsOn(given[i], model);
      if !fits && short == "" {
        short := given[i].id.name;
        assert ShortAt(given, model, i, short);
      }
    }
    if short != "" { return Some(TooFewGPUs(index, short)); }
    return None;
  }

  /** The first of the models so far that is in trouble, and its trouble. */
  ghost predicate FirstTrouble(blocking: Option<Problem>, pools: seq<NodePool>, models: seq<Model>, values: seq<string>)
    requires |pools| == |values|
  {
    match blocking
    case None => forall m :: m in models ==> ModelServed(pools, values, m)
    case Some(NoCPU) => false
    case Some(problem) =>
      && problem.model < |models| && !ModelServed(pools, values, models[problem.model])
      && Explains(PoolsWith(pools, values, ModelOption(models[problem.model])), models[problem.model], problem)
      && forall m :: m in models[..problem.model] ==> ModelServed(pools, values, m)
  }

  /** The header of every model's group shows whether the model is served. */
  ghost predicate Headed(groups: map<string, bool>, pools: seq<NodePool>, models: seq<Model>, values: seq<string>)
    requires |pools| == |values|
  {
    forall m :: m in models ==>
      ModelOption(m) in groups && (groups[ModelOption(m)] <==> ModelServed(pools, values, m))
  }

  /** The trouble of the first model that is in trouble. */
  function FirstProblem(pools: seq<NodePool>, models: seq<Model>, values: seq<string>): Option<Problem>
    requires |pools| == |values|
  {
    if models == [] then None
    else
      var n := |models| - 1;
      var before := FirstProblem(pools, models[..n], values);
      if before.Some? then before
      else ProblemFor(PoolsWith(pools, values, ModelOption(models[n])), models[n], n)
  }

  lemma {:induction false} FirstProblemIsFirstTrouble(pools: seq<NodePool>, models: seq<Model>, values: seq<string>)
    requires |pools| == |values|
    ensures FirstTrouble(FirstProblem(pools, models, values), pools, models, values)
  {
    if models != [] {
      var n := |models| - 1;
      var given := PoolsWith(pools, values, ModelOption(models[n]));
      FirstProblemIsFirstTrouble(pools, models[..n], values);
      ProblemForExplains(given, models[n], n);
      NextTrouble(FirstProblem(pools, models[..n], values), ProblemFor(given, models[n], n), pools, models, values, n);
      assert models[..n + 1] == models;
    }
  }

  /** What blocks an assignment. */
  function BlockingOf(pools: seq<NodePool>, models: seq<Model>, values: seq<string>): Option<Problem>
    requires |pools| == |values|
  {
    var problem := FirstProblem(pools, models, values);
    if problem.Some? || CPU in values then problem else Some(NoCPU)
  }

  lemma NothingBlocksIffAcceptable(pools: seq<NodePool>, models: seq<Model>, values: seq<string>)
    requires |pools| == |values|
    ensures BlockingOf(pools, models, values).None? <==> Acceptable(pools, models, values)
  {
    FirstProblemIsFirstTrouble(pools, models, values);
    var problem := FirstProblem(pools, models, values);
    if problem.Some? { assert models[problem.value.model] in models; }
  }

  /** What the operator is told. */
  function Message(problem: Problem, models: seq<Model>): (text: string)
    ensures text != ""
  {
    var model := if !problem.NoCPU? && problem.model < |models| then models[problem.model] else Model("", "", 0);
    var name := model.name;
    match problem
    case NoPools(_) => "Assign at least one node pool to " + name + "."
    case MixedPool(_, pool) => "Node pool " + pool + " mixes GPU types; " + name + " needs one GPU type."
    case MixedProducts(_) => "The node pools of " + name + " have different GPU types; a model runs on one GPU type."
    case TooFewGPUs(_, pool) =>
      "Node pool " + pool + " has nodes with too few GPUs for " + name + ", which needs "
      + GoText.Itoa(model.gpusPerPod) + " per pod."
    case NoCPU => "Assign at least one node pool to CPU only; the platform itself runs there."
  }

  /** checkAssignment: nothing blocks exactly when the assignment is acceptable; otherwise the
      first model in trouble is named, or the missing CPU pool when no model is. */
  method CheckAssignment(pools: seq<NodePool>, models: seq<Model>, values: seq<string>) returns (check: Check)
    requires |pools| == |values|
    requires forall p :: p in pools ==> p.id.name != ""
    ensures check.blocking == BlockingOf(pools, models, values)
    ensures check.blocking.None? <==> Acceptable(pools, models, values)
    ensures check.blocking == Some(NoCPU) ==>
              CPU !in values && forall m :: m in models ==> ModelServed(pools, values, m)
    ensures check.blocking != Some(NoCPU) ==> FirstTrouble(check.blocking, pools, models, values)
    ensures DistinctSlugs(models) ==> Headed(check.groups, pools, models, values)
    ensures CPU in check.groups && (check.groups[CPU] <==> CPU in values)
  {
    var groups: map<string, bool> := map[];
    var blocking: Option<Problem> := None;
    for k := 0 to |models|
      invariant blocking == FirstProblem(pools, models[..k], values)
      invariant DistinctSlugs(models) ==> Headed(groups, pools, models[..k], values)
    {
      var given := MembersOf(pools, values, ModelOption(models[k]));
      var problem := ProblemOf(given, models[k], k);
      assert models[..k + 1][..k] == models[..k];
      if DistinctSlugs(models) { NextHeader(groups, pools, models, values, k, problem.None?); }
      groups := groups[ModelOption(models[k]) := problem.None?];
      if blocking.None? { blocking := problem; }
    }
    assert models[..|models|] == models;
    FirstProblemIsFirstTrouble(pools, models, values);
    NothingBlocksIffAcceptable(pools, models, values);
    var cpu := MembersOf(pools, values, CPU);
    SomePoolWith(pools, values, CPU);
    if DistinctSlugs(models) { CpuHeader(groups, pools, models, values, |cpu| > 0); }
    groups := groups[CPU := |cpu| > 0];
    if |cpu| == 0 && blocking.None? { blocking := Some(NoCPU); }
    check := Check(groups, blocking);
  }

  lemma NextTrouble(blocking: Option<Problem>, problem: Option<Problem>, pools: seq<NodePool>, models: seq<Model>,
                    values: seq<string>, k: nat)
    requires |pools| == |values| && k < |models| && FirstTrouble(blocking, pools, models[..k], values)
    requires problem.None? <==> ModelServed(pools, values, models[k])
    requires problem.Some? ==>
               && !problem.value.NoCPU? && problem.value.model == k
               && Explains(PoolsWith(pools, values, ModelOption(models[k])), models[k], problem.value)
    ensures FirstTrouble(if blocking.None? then problem else blocking, pools, models[..k + 1], values)
  {
    if blocking.Some? {
      TroubleStays(blocking.value, pools, models, values, k);
    } else {
      assert models[..k + 1] == models[..k] + [models[k]];
      assert models[..k + 1][..k] == models[..k];
    }
  }

  lemma TroubleStays(problem: Problem, pools: seq<NodePool>, models: seq<Model>, values: seq<string>, k: nat)
    requires |pools| == |values| && k < |models| && FirstTrouble(Some(problem), pools, models[..k], values)
    ensures FirstTrouble(Some(problem), pools, models[..k + 1], values)
  {
    var before, after := models[..k], models[..k + 1];
    assert after[..problem.model] == before[..problem.model] && after[problem.model] == before[problem.model];
  }

  lemma NextHeader(groups: map<string, bool>, pools: seq<NodePool>, models: seq<Model>, values: seq<string>, k: nat,
                   ok: bool)
    requires |pools| == |values| && k < |models| && DistinctSlugs(models) && Headed(groups, pools, models[..k], values)
    requires ok <==> ModelServed(pools, values, models[k])
    ensures Headed(groups[ModelOption(models[k]) := ok], pools, models[..k + 1], values)
  {
    assert models[..k + 1] == models[..k] + [models[k]];
    forall m | m in models[..k] ensures ModelOption(m) != ModelOption(models[k]) {
      var j :| 0 <= j < k && models[j] == m;
      ModelOptionsAreTheirOwn(models[j], models[k]);
    }
  }

  lemma CpuHeader(groups: map<string, bool>, pools: seq<NodePool>, models: seq<Model>, values: seq<string>, ok: bool)
    requires |pools| == |values| && Headed(groups, pools, models, values)
    ensures Headed(groups[CPU := ok], pools, models, values)
  {
    forall m | m in models ensures ModelOption(m) != CPU { ModelOptionsAreTheirOwn(m, m); }
  }

  /** members[option] of the map checkAssignment fills. */
  method MembersOf(pools: seq<NodePool>, values: seq<string>, option: string) returns (members: seq<NodePool>)
    requires |pools| == |values|
    ensures members == PoolsWith(pools, values, option)
    ensures forall p :: p in members ==> p in pools
  {
    members := [];
    for i := 0 to |values|
      invariant members == PoolsWith(pools[..i], values[..i], option)
      invariant forall p :: p in members ==> p in pools
    {
      assert pools[..i + 1][..i] == pools[..i] && values[..i + 1][..i] == values[..i];
      if values[i] == option {
        members := members + [pools[i]];
      }
    }
    assert pools[..|values|] == pools && values[..|values|] == values;
  }

  lemma {:induction false} SomePoolWith(pools: seq<NodePool>, values: seq<string>, option: string)
    requires |pools| == |values|
    ensures PoolsWith(pools, values, option) != [] <==> option in values
  {
    if values != [] {
      var n := |values| - 1;
      SomePoolWith(pools[..n], values[..n], option);
      assert values == values[..n] + [values[n]];
    }
  }

  // ----- the assignment -----

  function Ids(pools: seq<NodePool>): seq<Pool> {
    seq(|pools|, i requires 0 <= i < |pools| => pools[i].id)
  }

  ghost predicate IsAssignmentOf(a: Assignment, pools: seq<NodePool>, models: seq<Model>, values: seq<string>)
    requires |pools| == |values|
  {
    && a.cpu == Ids(PoolsWith(pools, values, CPU))
    && (forall slug :: slug in a.models ==>
          && a.models[slug] == Ids(PoolsWith(pools, values, MODEL_PREFIX + slug)) != []
          && exists m :: m in models && m.slug == slug)
    && (forall m :: m in models && ModelOption(m) in values ==> m.slug in a.models)
  }

  method AssignmentOf(pools: seq<NodePool>, models: seq<Model>, values: seq<string>) returns (a: Assignment)
    requires |pools| == |values|
    ensures IsAssignmentOf(a, pools, models, values)
  {
    var bySlug: map<string, Model> := map[];
    for k := 0 to |models|
      invariant forall option :: option in bySlug ==> bySlug[option] in models && ModelOption(bySlug[option]) == option
      invariant forall j :: 0 <= j < k ==> ModelOption(models[j]) in bySlug
    {
      assert models[k] in models;
      bySlug := bySlug[ModelOption(models[k]) := models[k]];
    }
    a := Assignment(map[], []);
    for i := 0 to |values|
      invariant IsAssignmentOf(a, pools[..i], models, values[..i])
    {
      a := AssignPool(a, pools, models, values, i, bySlug);
    }
    assert pools[..|values|] == pools && values[..|values|] == values;
  }

  method AssignPool(before: Assignment, pools: seq<NodePool>, models: seq<Model>, values: seq<string>, i: nat,
                    bySlug: map<string, Model>)
    returns (a: Assignment)
    requires |pools| == |values| && i < |values| && IsAssignmentOf(before, pools[..i], models, values[..i])
    requires forall option :: option in bySlug ==> bySlug[option] in models && ModelOption(bySlug[option]) == option
    requires forall m :: m in models ==> ModelOption(m) in bySlug
    ensures IsAssignmentOf(a, pools[..i + 1], models, values[..i + 1])
  {
    var value := values[i];
    a := before;
    if value == CPU {
      a := before.(cpu := before.cpu + [pools[i].id]);
      GiveToCpu(before, pools, models, values, i);
    } else if MODEL_PREFIX <= value && value in bySlug {
      var slug := bySlug[value].slug;
      var given := if slug in before.models then before.models[slug] else [];
      a := before.(models := before.models[slug := given + [pools[i].id]]);
      GiveToModel(before, pools, models, values, i, bySlug[value]);
    } else {
      forall m | m in models ensures ModelOption(m) != value { ModelOptionsAreTheirOwn(m, m); }
      LeaveOut(before, pools, models, values, i);
    }
  }

  lemma GiveToCpu(before: Assignment, pools: seq<NodePool>, models: seq<Model>, values: seq<string>, i: nat)
    requires |pools| == |values| && i < |values| && IsAssignmentOf(before, pools[..i], models, values[..i])
    requires values[i] == CPU
    ensures IsAssignmentOf(before.(cpu := before.cpu + [pools[i].id]), pools[..i + 1], models, values[..i + 1])
  {
    NextPoolWith(pools, values, i);
    forall slug ensures MODEL_PREFIX + slug != CPU { ModelOptionsAreTheirOwn(Model("", slug, 0), Model("", slug, 0)); }
    assert values[..i + 1] == values[..i] + [CPU];
  }

  lemma GiveToModel(before: Assignment, pools: seq<NodePool>, models: seq<Model>, values: seq<string>, i: nat,
                    model: Model)
    requires |pools| == |values| && i < |values| && IsAssignmentOf(before, pools[..i], models, values[..i])
    requires model in models && values[i] == ModelOption(model)
    ensures var given := if model.slug in before.models then before.models[model.slug] else [];
            IsAssignmentOf(before.(models := before.models[model.slug := given + [pools[i].id]]),
                           pools[..i + 1], models, values[..i + 1])
  {
    NextPoolWith(pools, values, i);
    ModelOptionsAreTheirOwn(model, model);
    assert values[..i + 1] == values[..i] + [values[i]];
    if model.slug !in before.models {
      SomePoolWith(pools[..i], values[..i], values[i]);
    }
    forall slug | slug != model.slug ensures MODEL_PREFIX + slug != values[i] {
      ModelOptionsAreTheirOwn(Model("", slug, 0), model);
    }
    forall m | m in models && ModelOption(m) == values[i] ensures m.slug == model.slug {
      ModelOptionsAreTheirOwn(m, model);
    }
  }

  lemma LeaveOut(before: Assignment, pools: seq<NodePool>, models: seq<Model>, values: seq<string>, i: nat)
    requires |pools| == |values| && i < |values| && IsAssignmentOf(before, pools[..i], models, values[..i])
    requires values[i] != CPU && forall m :: m in models ==> ModelOption(m) != values[i]
    ensures IsAssignmentOf(before, pools[..i + 1], models, values[..i + 1])
  {
    NextPoolWith(pools, values, i);
    assert values[..i + 1] == values[..i] + [values[i]];
    forall slug | slug in before.models ensures MODEL_PREFIX + slug != values[i] {
      var m :| m in models && m.slug == slug;
      assert ModelOption(m) != values[i];
    }
  }

  lemma NextPoolWith(pools: seq<NodePool>, values: seq<string>, i: nat)
    requires |pools| == |values| && i < |values|
    ensures forall option ::
              Ids(PoolsWith(pools[..i + 1], values[..i + 1], option))
              == Ids(PoolsWith(pools[..i], values[..i], option)) + if values[i] == option then [pools[i].id] else []
  {
    assert pools[..i + 1][..i] == pools[..i] && values[..i + 1][..i] == values[..i];
  }

  /** An accepted assignment: every model runs on at least one pool, all of its pools share one
      GPU product, each of their nodes has the GPUs for a pod, and no pool serves two workloads. */
  lemma AcceptedAssignment(pools: seq<NodePool>, models: seq<Model>, values: seq<string>, a: Assignment, m: Model)
    requires |pools| == |values| && DistinctPools(pools)
    requires forall p :: p in pools ==> p.nodes != []
    requires Acceptable(pools, models, values) && IsAssignmentOf(a, pools, models, values) && m in models
    ensures a.cpu != []
    ensures m.slug in a.models && a.models[m.slug] != []
    ensures forall id :: id in a.models[m.slug] ==> exists p :: p in pools && p.id == id
    ensures forall p, node :: p in pools && p.id in a.models[m.slug] && node in p.nodes ==> node.gpus >= m.gpusPerPod
    ensures forall p, q, x, y | p in pools && q in pools && p.id in a.models[m.slug] && q.id in a.models[m.slug] ::
              x in p.nodes && y in q.nodes && Product(x) != "" && Product(y) != "" ==> Product(x) == Product(y)
    ensures forall slug, id :: slug in a.models && slug != m.slug && id in a.models[m.slug] ==> id !in a.models[slug]
    ensures forall id :: id in a.models[m.slug] ==> id !in a.cpu
  {
    var option := ModelOption(m);
    var given := PoolsWith(pools, values, option);
    SomePoolWith(pools, values, option);
    SomePoolWith(pools, values, CPU);
    ModelOptionsAreTheirOwn(m, m);
    forall id | id in a.models[m.slug] ensures exists p :: p in pools && p.id == id {
      var i := AssignedFrom(pools, values, option, id);
      assert pools[i] in pools;
    }
    forall p | p in pools && p.id in a.models[m.slug] ensures p in given {
      GivenByPool(pools, values, option, p);
    }
    forall p | p in given && p.nodes != [] ensures forall node :: node in p.nodes ==> node.gpus >= m.gpusPerPod {
      FitsMeansEveryNode(p, m);
    }
    forall p, x | p in given && x in p.nodes && Product(x) != "" ensures HasProduct(given, Product(x)) {}
    forall slug, id | slug in a.models && slug != m.slug && id in a.models[m.slug] ensures id !in a.models[slug] {
      ModelOptionsAreTheirOwn(m, Model("", slug, 0));
      OnePoolOneWorkload(pools, values, option, MODEL_PREFIX + slug, id);
    }
    forall id | id in a.models[m.slug] ensures id !in a.cpu {
      OnePoolOneWorkload(pools, values, option, CPU, id);
    }
  }

  lemma GivenByPool(pools: seq<NodePool>, values: seq<string>, option: string, p: NodePool)
    requires |pools| == |values| && DistinctPools(pools) && p in pools
    ensures p.id in Ids(PoolsWith(pools, values, option)) <==> p in PoolsWith(pools, values, option)
  {
    if p.id in Ids(PoolsWith(pools, values, option)) {
      var i := AssignedFrom(pools, values, option, p.id);
      SamePool(pools, p, i);
    }
    if p in PoolsWith(pools, values, option) {
      var given := PoolsWith(pools, values, option);
      var k :| 0 <= k < |given| && given[k] == p;
      assert Ids(given)[k] == p.id;
    }
  }

  lemma AssignedFrom(pools: seq<NodePool>, values: seq<string>, option: string, id: Pool) returns (i: nat)
    requires |pools| == |values| && id in Ids(PoolsWith(pools, values, option))
    ensures i < |pools| && pools[i].id == id && values[i] == option && pools[i] in PoolsWith(pools, values, option)
  {
    var given := PoolsWith(pools, values, option);
    var k :| 0 <= k < |given| && Ids(given)[k] == id;
    PoolsWithMembers(pools, values, option, given[k]);
    i :| 0 <= i < |values| && pools[i] == given[k] && values[i] == option;
  }

  lemma SamePool(pools: seq<NodePool>, p: NodePool, i: nat)
    requires DistinctPools(pools) && p in pools && i < |pools| && pools[i].id == p.id
    ensures pools[i] == p
  {
    var k :| 0 <= k < |pools| && pools[k] == p;
  }

  lemma OnePoolOneWorkload(pools: seq<NodePool>, values: seq<string>, option: string, other: string, id: Pool)
    requires |pools| == |values| && DistinctPools(pools)
    requires id in Ids(PoolsWith(pools, values, option)) && option != other
    ensures id !in Ids(PoolsWith(pools, values, other))
  {
    var i := AssignedFrom(pools, values, option, id);
    if id in Ids(PoolsWith(pools, values, other)) {
      var j := AssignedFrom(pools, values, other, id);
    }
  }
}
