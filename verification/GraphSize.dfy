/** The size of an artifact, over the graph of its descriptors: graphSize of
    installer/internal/oras/uploader/uploader.go. */
module GraphSize {
  import opened Wrappers

  datatype Descriptor = Descriptor(digest: string, size: int)

  /** The successors of every digest that can be read; the others fail. How content is read
      depends on the media type of its descriptor too: each digest is taken to come with one. */
  type Graph = map<string, seq<Descriptor>>

  ghost predicate Sized(g: Graph, root: Descriptor, sizeOf: string -> int) {
    && root.size == sizeOf(root.digest)
    && forall d, i :: d in g && 0 <= i < |g[d]| ==> g[d][i].size == sizeOf(g[d][i].digest)
  }

  ghost predicate Edge(g: Graph, a: string, b: string) {
    a in g && exists i :: 0 <= i < |g[a]| && g[a][i].digest == b
  }

  ghost predicate Path(g: Graph, p: seq<string>) {
    p != [] && forall i :: 0 <= i < |p| - 1 ==> Edge(g, p[i], p[i + 1])
  }

  ghost predicate Reaches(g: Graph, a: string, b: string) {
    exists p :: Path(g, p) && p[0] == a && p[|p| - 1] == b
  }

  lemma ReachesItself(g: Graph, a: string)
    ensures Reaches(g, a, a)
  {
    assert Path(g, [a]) && [a][0] == a;
  }

  lemma ReachesThrough(g: Graph, a: string, b: string, c: string)
    requires Edge(g, a, b) && Reaches(g, b, c)
    ensures Reaches(g, a, c)
  {
    var p :| Path(g, p) && p[0] == b && p[|p| - 1] == c;
    var q := [a] + p;
    assert Path(g, q) by {
      forall i | 0 <= i < |q| - 1 ensures Edge(g, q[i], q[i + 1]) {
        if i > 0 { assert q[i] == p[i - 1] && q[i + 1] == p[i]; }
      }
    }
    assert q[0] == a && q[|q| - 1] == c;
  }

  lemma ReachesAllThrough(g: Graph, a: string, b: string)
    requires Edge(g, a, b)
    ensures forall c :: Reaches(g, b, c) ==> Reaches(g, a, c)
  {
    forall c | Reaches(g, b, c) ensures Reaches(g, a, c) { ReachesThrough(g, a, b, c); }
  }

  /** Every digest of the set can be read, and its successors are in the set. */
  ghost predicate Closed(g: Graph, inside: set<string>, all: set<string>) {
    forall d :: d in inside ==> d in g && forall i :: 0 <= i < |g[d]| ==> g[d][i].digest in all
  }

  lemma {:induction false} ClosedHoldsPaths(g: Graph, s: set<string>, p: seq<string>)
    requires Closed(g, s, s) && Path(g, p) && p[0] in s
    ensures p[|p| - 1] in s
    decreases |p|
  {
    if |p| > 1 {
      assert Edge(g, p[0], p[1]);
      var rest := p[1..];
      forall i | 0 <= i < |rest| - 1 ensures Edge(g, rest[i], rest[i + 1]) {
        assert Edge(g, p[i + 1], p[i + 2]);
      }
      ClosedHoldsPaths(g, s, rest);
    }
  }

  lemma ClosedHoldsReachable(g: Graph, s: set<string>, root: string)
    requires Closed(g, s, s) && root in s
    ensures forall d :: Reaches(g, root, d) ==> d in s
  {
    forall d | Reaches(g, root, d) ensures d in s {
      var p :| Path(g, p) && p[0] == root && p[|p| - 1] == d;
      ClosedHoldsPaths(g, s, p);
    }
  }

  function Total(list: seq<string>, sizeOf: string -> int): int {
    if list == [] then 0 else Total(list[..|list| - 1], sizeOf) + sizeOf(list[|list| - 1])
  }

  /** The list names every digest reachable from the root once, and nothing else. */
  ghost predicate ListsReachable(list: seq<string>, g: Graph, root: string) {
    && (forall i, j :: 0 <= i < j < |list| ==> list[i] != list[j])
    && forall d :: d in list <==> Reaches(g, root, d)
  }

  /** What graphSize's closure works on. */
  class Walker {
    const g: Graph
    var seen: set<string>
    var totalBytes: int
    var totalFiles: int
    ghost const sizeOf: string -> int
    /** The digests in the order they were first seen. */
    ghost var list: seq<string>

    constructor (g: Graph, ghost sizeOf: string -> int)
      ensures this.g == g && this.sizeOf == sizeOf && Valid() && seen == {}
    {
      this.g, this.sizeOf := g, sizeOf;
      seen, totalBytes, totalFiles, list := {}, 0, 0, [];
    }

    ghost predicate Valid()
      reads this
    {
      && (forall d :: d in list <==> d in seen)
      && (forall i, j :: 0 <= i < j < |list| ==> list[i] != list[j])
      && totalFiles == |list| && totalBytes == Total(list, sizeOf)
    }

    method See(desc: Descriptor)
      requires Valid() && desc.digest !in seen && desc.size == sizeOf(desc.digest)
      modifies this
      ensures Valid() && seen == old(seen) + {desc.digest}
    {
      seen := seen + {desc.digest};
      totalBytes := totalBytes + desc.size;
      totalFiles := totalFiles + 1;
      assert (list + [desc.digest])[..|list|] == list;
      list := list + [desc.digest];
    }

    /** The closure walk: what it adds is reachable from the descriptor, and unless it fails
        what it adds can be read and leads only to what has been seen. */
    method Walk(desc: Descriptor) returns (ok: bool)
      requires Valid() && Sized(g, desc, sizeOf)
      modifies this
      ensures Valid() && old(seen) <= seen
      ensures forall d :: d in seen - old(seen) ==> Reaches(g, desc.digest, d)
      ensures ok ==> desc.digest in seen && Closed(g, seen - old(seen), seen)
      ensures !ok ==> exists d :: Reaches(g, desc.digest, d) && d !in g
      decreases g.Keys - seen
    {
      ReachesItself(g, desc.digest);
      if desc.digest in seen { return true; }
      ghost var before := seen;
      See(desc);
      if desc.digest !in g { return false; }
      var children := g[desc.digest];
      for i := 0 to |children|
        invariant Valid() && before + {desc.digest} <= seen
        invariant forall d :: d in seen - before ==> Reaches(g, desc.digest, d)
        invariant Closed(g, seen - before - {desc.digest}, seen)
        invariant forall j :: 0 <= j < i ==> children[j].digest in seen
      {
        ghost var now := seen;
        assert Edge(g, desc.digest, children[i].digest);
        assert desc.digest in g.Keys - before && desc.digest !in g.Keys - now;
        ok := Walk(children[i]);
        ReachesAllThrough(g, desc.digest, children[i].digest);
        if !ok { return false; }
      }
      return true;
    }
  }

  /** graphSize: the number and total size of the digests reachable from the root, each counted
      once, however often and in whatever cycles it occurs; an error exactly when one of them
      cannot be read. */
  method Size(g: Graph, root: Descriptor, ghost sizeOf: string -> int)
    returns (r: Result<(int, int), string>, ghost list: seq<string>)
    requires Sized(g, root, sizeOf)
    ensures r.Ok? <==> forall d :: Reaches(g, root.digest, d) ==> d in g
    ensures r.Ok? ==> ListsReachable(list, g, root.digest) && r.value == (Total(list, sizeOf), |list|)
  {
    var walker := new Walker(g, sizeOf);
    var ok := walker.Walk(root);
    list := walker.list;
    if !ok { return Err("find successors"), list; }
    assert walker.seen - {} == walker.seen;
    ClosedHoldsReachable(g, walker.seen, root.digest);
    return Ok((walker.totalBytes, walker.totalFiles)), list;
  }

  /** Any two such lists agree on what they come to. */
  lemma {:induction false} TotalsAgree(a: seq<string>, b: seq<string>, sizeOf: string -> int)
    requires forall i, j :: 0 <= i < j < |a| ==> a[i] != a[j]
    requires forall i, j :: 0 <= i < j < |b| ==> b[i] != b[j]
    requires forall d :: d in a <==> d in b
    ensures |a| == |b| && Total(a, sizeOf) == Total(b, sizeOf)
    decreases |a|
  {
    if a == [] {
      if b != [] { var d := First(b); }
    } else {
      var n := |a| - 1;
      assert a[n] in a && a[n] in b;
      var k :| 0 <= k < |b| && b[k] == a[n];
      var rest := b[..k] + b[k + 1..];
      TotalWithout(b, k, sizeOf);
      SameRest(a, a[..n], b, k, rest);
      TotalsAgree(a[..n], rest, sizeOf);
    }
  }

  lemma SameRest(a: seq<string>, front: seq<string>, b: seq<string>, k: nat, rest: seq<string>)
    requires a != [] && k < |b| && b[k] == a[|a| - 1] && front == a[..|a| - 1] && rest == b[..k] + b[k + 1..]
    requires forall i, j :: 0 <= i < j < |a| ==> a[i] != a[j]
    requires forall i, j :: 0 <= i < j < |b| ==> b[i] != b[j]
    requires forall d :: d in a <==> d in b
    ensures forall d :: d in front <==> d in rest
  {
    forall d ensures d in front <==> d in rest {
      if d in front {
        assert d in a && d in b;
        var j :| 0 <= j < |b| && b[j] == d;
        assert d == rest[if j < k then j else j - 1];
      }
      if d in rest {
        var j :| 0 <= j < |rest| && rest[j] == d;
        assert d == b[if j < k then j else j + 1] && d in b && d in a;
      }
    }
  }

  lemma First(list: seq<string>) returns (d: string)
    requires list != []
    ensures d in list
  {
    d := list[0];
  }

  lemma {:induction false} TotalWithout(list: seq<string>, k: nat, sizeOf: string -> int)
    requires k < |list|
    ensures Total(list, sizeOf) == Total(list[..k] + list[k + 1..], sizeOf) + sizeOf(list[k])
    decreases |list|
  {
    var n := |list| - 1;
    if k == n {
      assert list[..k] + list[k + 1..] == list[..n];
    } else {
      TotalWithout(list[..n], k, sizeOf);
      var rest := list[..k] + list[k + 1..];
      assert rest[..|rest| - 1] == list[..n][..k] + list[..n][k + 1..];
    }
  }
}
