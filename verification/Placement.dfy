/** From an assignment of node pools to the node affinity of a workload:
    installer/internal/placement/placement.go and the placement part of
    pkg/iac/serving/internal/config/naming.go. */
module Placement {
  import opened Wrappers
  import opened StringOrder

  datatype Pool = Pool(key: string, name: string)

  type Labels = map<string, string>

  const POOL_KEYS: seq<string> :=
    ["kubernetes.azure.com/agentpool", "eks.amazonaws.com/nodegroup", "cloud.google.com/gke-nodepool", "nodegroup"]
  const HOSTNAME_KEY := "kubernetes.io/hostname"

  /** Go's map lookup: a missing key reads as the empty string. */
  function Lookup(labels: Labels, key: string): string {
    if key in labels then labels[key] else ""
  }

  // ----- which pool a node belongs to -----

  ghost predicate FirstPoolKey(labels: Labels, i: nat) {
    && i < |POOL_KEYS| && Lookup(labels, POOL_KEYS[i]) != ""
    && forall j :: 0 <= j < i ==> Lookup(labels, POOL_KEYS[j]) == ""
  }

  ghost predicate Named(labels: Labels) {
    Lookup(labels, HOSTNAME_KEY) != "" || exists i :: 0 <= i < |POOL_KEYS| && Lookup(labels, POOL_KEYS[i]) != ""
  }

  function HomeFrom(nodeName: string, labels: Labels, i: nat): Pool
    decreases |POOL_KEYS| - i
  {
    if i < |POOL_KEYS| then
      if Lookup(labels, POOL_KEYS[i]) != "" then Pool(POOL_KEYS[i], labels[POOL_KEYS[i]])
      else HomeFrom(nodeName, labels, i + 1)
    else if Lookup(labels, HOSTNAME_KEY) != "" then Pool(HOSTNAME_KEY, labels[HOSTNAME_KEY])
    else Pool(HOSTNAME_KEY, nodeName)
  }

  /** The pool a node is listed under. */
  function Home(nodeName: string, labels: Labels): Pool {
    HomeFrom(nodeName, labels, 0)
  }

  /** PoolOf: the first pool label that is set, else the node on its own. */
  method PoolOf(nodeName: string, labels: Labels) returns (pool: Pool)
    ensures pool == Home(nodeName, labels)
    ensures forall i: nat :: FirstPoolKey(labels, i) ==> pool == Pool(POOL_KEYS[i], labels[POOL_KEYS[i]])
    ensures (forall i :: 0 <= i < |POOL_KEYS| ==> Lookup(labels, POOL_KEYS[i]) == "") ==>
              pool == Pool(HOSTNAME_KEY, if Lookup(labels, HOSTNAME_KEY) != "" then labels[HOSTNAME_KEY] else nodeName)
    ensures Carries(labels, pool) || (!Named(labels) && pool == Pool(HOSTNAME_KEY, nodeName))
  {
    for i := 0 to |POOL_KEYS|
      invariant forall j :: 0 <= j < i ==> Lookup(labels, POOL_KEYS[j]) == ""
      invariant Home(nodeName, labels) == HomeFrom(nodeName, labels, i)
    {
      var name := Lookup(labels, POOL_KEYS[i]);
      if name != "" { return Pool(POOL_KEYS[i], name); }
    }
    var hostname := Lookup(labels, HOSTNAME_KEY);
    if hostname != "" { return Pool(HOSTNAME_KEY, hostname); }
    return Pool(HOSTNAME_KEY, nodeName);
  }

  /** The node carries the label that names the pool. */
  predicate Carries(labels: Labels, pool: Pool) {
    pool.key in labels && labels[pool.key] == pool.name
  }

  // ----- placement terms -----

  datatype Term = Term(key: string, values: seq<string>)

  function NamesFor(pools: seq<Pool>, key: string): seq<string> {
    if pools == [] then []
    else
      var last := pools[|pools| - 1];
      NamesFor(pools[..|pools| - 1], key) + if last.key == key then [last.name] else []
  }

  function Keys(pools: seq<Pool>): set<string> {
    set p | p in pools :: p.key
  }

  lemma {:induction false} NamesForMembers(pools: seq<Pool>, key: string, name: string)
    ensures name in NamesFor(pools, key) <==> Pool(key, name) in pools
  {
    if pools != [] {
      NamesForMembers(pools[..|pools| - 1], key, name);
      assert pools == pools[..|pools| - 1] + [pools[|pools| - 1]];
    }
  }

  /** The names collected per key while ranging over the pools. */
  ghost predicate Groups(names: map<string, seq<string>>, pools: seq<Pool>) {
    && names.Keys == Keys(pools)
    && forall key :: key in names ==> names[key] == NamesFor(pools, key)
  }

  /** One term per pool label, labels in order, each with its names in order. */
  ghost predicate TermsOf(terms: seq<Term>, pools: seq<Pool>) {
    && (forall key :: (exists i :: 0 <= i < |terms| && terms[i].key == key) <==> key in Keys(pools))
    && (forall i, j :: 0 <= i < j < |terms| ==> terms[i].key != terms[j].key && Le(terms[i].key, terms[j].key))
    && forall i :: 0 <= i < |terms| ==> terms[i] == TermFor(pools, terms[i].key)
  }

  method Terms(pools: seq<Pool>) returns (terms: seq<Term>)
    ensures TermsOf(terms, pools)
  {
    var names := GroupNames(pools);
    var keys := SortedElements(names.Keys);
    terms := TermPerKey(names, keys);
    KeysAreListed(terms, keys, names.Keys);
    forall i | 0 <= i < |terms| ensures terms[i] == TermFor(pools, terms[i].key) {
      assert keys[i] in names;
    }
  }

  method TermPerKey(names: map<string, seq<string>>, keys: seq<string>) returns (terms: seq<Term>)
    requires forall i :: 0 <= i < |keys| ==> keys[i] in names
    ensures |terms| == |keys| && forall i :: 0 <= i < |keys| ==> terms[i] == SortedTerm(keys[i], names[keys[i]])
  {
    terms := [];
    for i := 0 to |keys|
      invariant |terms| == i
      invariant forall j :: 0 <= j < i ==> terms[j] == SortedTerm(keys[j], names[keys[j]])
    {
      terms := terms + [SortedTerm(keys[i], names[keys[i]])];
    }
  }

  function SortedTerm(key: string, names: seq<string>): Term {
    Term(key, Sort(names))
  }

  function TermFor(pools: seq<Pool>, key: string): Term {
    SortedTerm(key, NamesFor(pools, key))
  }

  /** The pool names per label, collected in the order of the pools. */
  method GroupNames(pools: seq<Pool>) returns (names: map<string, seq<string>>)
    ensures Groups(names, pools)
  {
    names := map[];
    for i := 0 to |pools|
      invariant Groups(names, pools[..i])
    {
      var pool := pools[i];
      assert pools[..i + 1] == pools[..i] + [pool];
      assert Keys(pools[..i + 1]) == Keys(pools[..i]) + {pool.key};
      if pool.key !in names { NoNames(pools[..i], pool.key); }
      var before := if pool.key in names then names[pool.key] else [];
      names := names[pool.key := before + [pool.name]];
    }
    assert pools[..|pools|] == pools;
  }

  lemma KeysAreListed(terms: seq<Term>, keys: seq<string>, listed: set<string>)
    requires |terms| == |keys| && forall i :: 0 <= i < |keys| ==> terms[i].key == keys[i]
    requires forall x :: x in keys <==> x in listed
    ensures forall key :: (exists i :: 0 <= i < |terms| && terms[i].key == key) <==> key in listed
  {
    forall key ensures (exists i :: 0 <= i < |terms| && terms[i].key == key) <==> key in listed {
      if key in listed {
        var i :| 0 <= i < |keys| && keys[i] == key;
        assert terms[i].key == key;
      }
      if i :| 0 <= i < |terms| && terms[i].key == key {
        assert keys[i] in keys;
      }
    }
  }

  lemma {:induction false} NoNames(pools: seq<Pool>, key: string)
    requires key !in Keys(pools)
    ensures NamesFor(pools, key) == []
  {
    if pools != [] {
      var last := pools[|pools| - 1];
      assert last in pools && last.key in Keys(pools);
      assert Keys(pools[..|pools| - 1]) <= Keys(pools);
      NoNames(pools[..|pools| - 1], key);
    }
  }

  /** The terms do not depend on the order the pools were picked in. */
  lemma TermsAreStable(pools: seq<Pool>, others: seq<Pool>, terms: seq<Term>, otherTerms: seq<Term>)
    requires multiset(pools) == multiset(others)
    requires TermsOf(terms, pools) && TermsOf(otherTerms, others)
    ensures terms == otherTerms
  {
    SamePools(pools, others);
    TermKeysAgree(terms, otherTerms, Keys(pools));
    forall i | 0 <= i < |terms| ensures terms[i] == otherTerms[i] {
      TermForgetsOrder(pools, others, terms[i].key);
    }
  }

  lemma TermForgetsOrder(pools: seq<Pool>, others: seq<Pool>, key: string)
    requires multiset(pools) == multiset(others)
    ensures TermFor(pools, key) == TermFor(others, key)
  {
    NamesOfPermutation(pools, others, key);
    SortForgetsOrder(NamesFor(pools, key), NamesFor(others, key));
  }

  lemma SamePools(pools: seq<Pool>, others: seq<Pool>)
    requires multiset(pools) == multiset(others)
    ensures Keys(pools) == Keys(others) && forall p :: p in pools <==> p in others
  {
    forall p ensures p in pools <==> p in others {
      assert p in pools <==> p in multiset(pools);
      assert p in others <==> p in multiset(others);
    }
  }

  ghost predicate KeyedBy(terms: seq<Term>, keys: set<string>) {
    && (forall key :: (exists i :: 0 <= i < |terms| && terms[i].key == key) <==> key in keys)
    && (forall i, j :: 0 <= i < j < |terms| ==> terms[i].key != terms[j].key && Le(terms[i].key, terms[j].key))
  }

  lemma {:induction false} TermKeysAgree(a: seq<Term>, b: seq<Term>, keys: set<string>)
    requires KeyedBy(a, keys) && KeyedBy(b, keys)
    ensures |a| == |b| && forall i :: 0 <= i < |a| ==> a[i].key == b[i].key
    decreases |a|
  {
    assert b != [] ==> b[0].key in keys;
    if a != [] {
      assert a[0].key in keys;
      var j :| 0 <= j < |b| && b[j].key == a[0].key;
      assert b[0].key in keys;
      var i :| 0 <= i < |a| && a[i].key == b[0].key;
      if i > 0 && j > 0 { LeAntisymmetric(a[0].key, b[0].key); }
      RestKeyed(a, keys);
      RestKeyed(b, keys);
      TermKeysAgree(a[1..], b[1..], keys - {a[0].key});
    }
  }

  lemma RestKeyed(a: seq<Term>, keys: set<string>)
    requires a != [] && KeyedBy(a, keys)
    ensures KeyedBy(a[1..], keys - {a[0].key})
  {
    forall key ensures (exists i :: 0 <= i < |a[1..]| && a[1..][i].key == key) <==> key in keys - {a[0].key} {
      if key in keys - {a[0].key} {
        var i :| 0 <= i < |a| && a[i].key == key;
        assert a[1..][i - 1].key == key;
      }
      if i :| 0 <= i < |a[1..]| && a[1..][i].key == key {
        assert a[i + 1].key == key && key in keys;
      }
    }
  }

  /** How often a name occurs under a key is how often that pool occurs. */
  lemma {:induction false} NamesCount(pools: seq<Pool>, key: string, name: string)
    ensures multiset(NamesFor(pools, key))[name] == multiset(pools)[Pool(key, name)]
  {
    if pools != [] {
      var last := pools[|pools| - 1];
      NamesCount(pools[..|pools| - 1], key, name);
      assert pools == pools[..|pools| - 1] + [last];
    }
  }

  lemma NamesOfPermutation(pools: seq<Pool>, others: seq<Pool>, key: string)
    requires multiset(pools) == multiset(others)
    ensures multiset(NamesFor(pools, key)) == multiset(NamesFor(others, key))
  {
    forall name ensures multiset(NamesFor(pools, key))[name] == multiset(NamesFor(others, key))[name] {
      NamesCount(pools, key, name);
      NamesCount(others, key, name);
    }
  }

  // ----- node affinity -----

  /** A required node affinity: any of the terms, each the conjunction of its expressions, each
      of them key In values. None is no constraint at all. */
  datatype Requirement = Requirement(key: string, values: seq<string>)

  type Affinity = Option<seq<seq<Requirement>>>

  predicate Satisfies(labels: Labels, req: Requirement) {
    req.key in labels && labels[req.key] in req.values
  }

  ghost predicate Admits(affinity: Affinity, labels: Labels) {
    affinity.None? ||
    exists term :: term in affinity.value && forall req :: req in term ==> Satisfies(labels, req)
  }

  /** placementTerms: one alternative per placement term, or all node selector entries at once. */
  method PlacementTerms(placement: seq<Term>, nodeSelector: Labels) returns (terms: seq<seq<Requirement>>)
    ensures placement != [] ==>
              && |terms| == |placement|
              && forall i :: 0 <= i < |placement| ==>
                   terms[i] == [Requirement(placement[i].key, Sort(placement[i].values))]
    ensures placement == [] ==>
              if nodeSelector == map[] then terms == []
              else |terms| == 1 && SelectorTerm(terms[0], nodeSelector)
  {
    terms := [];
    if |placement| > 0 {
      for i := 0 to |placement|
        invariant |terms| == i
        invariant forall j :: 0 <= j < i ==> terms[j] == [Requirement(placement[j].key, Sort(placement[j].values))]
      {
        terms := terms + [[Requirement(placement[i].key, Sort(placement[i].values))]];
      }
      return;
    }
    if |nodeSelector| == 0 { return []; }
    var keys := SortedElements(nodeSelector.Keys);
    var term: seq<Requirement> := [];
    for i := 0 to |keys|
      invariant |term| == i
      invariant forall j :: 0 <= j < i ==>
                keys[j] in nodeSelector && term[j] == Requirement(keys[j], [nodeSelector[keys[j]]])
    {
      assert keys[i] in keys;
      term := term + [Requirement(keys[i], [nodeSelector[keys[i]]])];
    }
    forall key | key in nodeSelector ensures Requirement(key, [nodeSelector[key]]) in term {
      assert key in keys;
      var i :| 0 <= i < |keys| && keys[i] == key;
      assert term[i] == Requirement(key, [nodeSelector[key]]);
    }
    terms := [term];
  }

  ghost predicate SelectorTerm(term: seq<Requirement>, nodeSelector: Labels) {
    && (forall req :: req in term ==> req.key in nodeSelector && req.values == [nodeSelector[req.key]])
    && forall key :: key in nodeSelector ==> Requirement(key, [nodeSelector[key]]) in term
  }

  /** NodeAffinity: what it admits is any of the placement terms; without any, the nodes with
      every node selector label; and every node when neither is given. */
  method NodeAffinity(placement: seq<Term>, nodeSelector: Labels) returns (affinity: Affinity)
    ensures placement != [] ==> forall labels: Labels ::
              Admits(affinity, labels) <==>
              exists t :: t in placement && t.key in labels && labels[t.key] in t.values
    ensures placement == [] ==> forall labels: Labels ::
              Admits(affinity, labels) <==>
              forall key :: key in nodeSelector ==> key in labels && labels[key] == nodeSelector[key]
  {
    var terms := PlacementTerms(placement, nodeSelector);
    if |terms| == 0 { return None; }
    affinity := Some(terms);
    forall labels: Labels | placement != []
      ensures Admits(affinity, labels) <==> exists t :: t in placement && t.key in labels && labels[t.key] in t.values
    {
      AdmitsPlacement(placement, terms, labels);
    }
    forall labels: Labels | placement == []
      ensures Admits(affinity, labels) <==>
              forall key :: key in nodeSelector ==> key in labels && labels[key] == nodeSelector[key]
    {
      assert terms[0] in terms;
      if Admits(affinity, labels) {
        forall key | key in nodeSelector ensures key in labels && labels[key] == nodeSelector[key] {
          assert Satisfies(labels, Requirement(key, [nodeSelector[key]]));
        }
      }
    }
  }

  lemma AdmitsPlacement(placement: seq<Term>, terms: seq<seq<Requirement>>, labels: Labels)
    requires placement != [] && |terms| == |placement|
    requires forall i :: 0 <= i < |placement| ==> terms[i] == [Requirement(placement[i].key, Sort(placement[i].values))]
    ensures Admits(Some(terms), labels) <==>
            exists t :: t in placement && t.key in labels && labels[t.key] in t.values
  {
    if Admits(Some(terms), labels) {
      var term :| term in terms && forall req :: req in term ==> Satisfies(labels, req);
      var i :| 0 <= i < |terms| && terms[i] == term;
      SortMembers(placement[i].values);
      assert Satisfies(labels, term[0]);
      assert placement[i] in placement;
    }
    if t :| t in placement && t.key in labels && labels[t.key] in t.values {
      var i :| 0 <= i < |placement| && placement[i] == t;
      SortMembers(placement[i].values);
      assert terms[i] in terms;
    }
  }

  /** The whole pipeline: an affinity built from the terms of some pools admits a node exactly
      when the node carries the label of one of those pools. */
  method AffinityOfPools(pools: seq<Pool>) returns (affinity: Affinity)
    requires pools != []
    ensures forall labels: Labels ::
              Admits(affinity, labels) <==> exists p :: p in pools && Carries(labels, p)
  {
    var terms := Terms(pools);
    assert pools[0] in pools && pools[0].key in Keys(pools);
    affinity := NodeAffinity(terms, map[]);
    forall labels: Labels ensures Admits(affinity, labels) <==> exists p :: p in pools && Carries(labels, p) {
      TermsMeanPools(terms, pools, labels);
    }
  }

  lemma TermsMeanPools(terms: seq<Term>, pools: seq<Pool>, labels: Labels)
    requires TermsOf(terms, pools)
    ensures (exists t :: t in terms && t.key in labels && labels[t.key] in t.values) <==>
            exists p :: p in pools && Carries(labels, p)
  {
    if t :| t in terms && t.key in labels && labels[t.key] in t.values {
      SortMembers(NamesFor(pools, t.key));
      NamesForMembers(pools, t.key, labels[t.key]);
      assert Carries(labels, Pool(t.key, labels[t.key]));
    }
    if p :| p in pools && Carries(labels, p) {
      assert p.key in Keys(pools);
      var i :| 0 <= i < |terms| && terms[i].key == p.key;
      SortMembers(NamesFor(pools, p.key));
      NamesForMembers(pools, p.key, p.name);
      assert terms[i] in terms;
    }
  }
}
