/** Go's string order and what sorting by it gives. */
module StringOrder {

  predicate Le(a: string, b: string) {
    a == "" || (b != "" && (a[0] < b[0] || (a[0] == b[0] && Le(a[1..], b[1..]))))
  }

  lemma {:induction false} LeTotal(a: string, b: string)
    ensures Le(a, b) || Le(b, a)
  {
    if a != "" && b != "" && a[0] == b[0] { LeTotal(a[1..], b[1..]); }
  }

  lemma LeReflexive(a: string)
    ensures Le(a, a)
  {
    LeTotal(a, a);
  }

  lemma {:induction false} LeAntisymmetric(a: string, b: string)
    requires Le(a, b) && Le(b, a)
    ensures a == b
  {
    if a != "" && b != "" {
      LeAntisymmetric(a[1..], b[1..]);
      assert a == [a[0]] + a[1..] && b == [b[0]] + b[1..];
    }
  }

  lemma {:induction false} LeTransitive(a: string, b: string, c: string)
    requires Le(a, b) && Le(b, c)
    ensures Le(a, c)
  {
    if a != "" && a[0] == b[0] == c[0] { LeTransitive(a[1..], b[1..], c[1..]); }
  }

  predicate Sorted(xs: seq<string>) {
    forall i, j :: 0 <= i < j < |xs| ==> Le(xs[i], xs[j])
  }

  function Insert(x: string, xs: seq<string>): seq<string> {
    if xs == [] || Le(x, xs[0]) then [x] + xs else [xs[0]] + Insert(x, xs[1..])
  }

  /** sort.Strings */
  function Sort(xs: seq<string>): seq<string> {
    if xs == [] then [] else Insert(xs[0], Sort(xs[1..]))
  }

  lemma {:induction false} InsertSorts(x: string, xs: seq<string>)
    requires Sorted(xs)
    ensures Sorted(Insert(x, xs)) && multiset(Insert(x, xs)) == multiset(xs) + multiset{x}
  {
    if xs == [] {
    } else if Le(x, xs[0]) {
      forall j | 0 <= j < |xs| ensures Le(x, xs[j]) {
        if j > 0 { LeTransitive(x, xs[0], xs[j]); }
      }
    } else {
      LeTotal(x, xs[0]);
      var rest := Insert(x, xs[1..]);
      InsertSorts(x, xs[1..]);
      assert xs == [xs[0]] + xs[1..];
      forall j | 0 <= j < |rest| ensures Le(xs[0], rest[j]) {
        assert rest[j] in multiset(rest);
        assert rest[j] in multiset(xs[1..]) || rest[j] == x;
        assert rest[j] in multiset(xs[1..]) ==> rest[j] in xs[1..];
      }
    }
  }

  lemma {:induction false} SortSorts(xs: seq<string>)
    ensures Sorted(Sort(xs)) && multiset(Sort(xs)) == multiset(xs)
  {
    if xs != [] {
      SortSorts(xs[1..]);
      InsertSorts(xs[0], Sort(xs[1..]));
      assert xs == [xs[0]] + xs[1..];
    }
  }

  lemma MultisetMembers(xs: seq<string>, ys: seq<string>)
    requires multiset(xs) == multiset(ys)
    ensures |xs| == |ys| && forall x :: x in xs <==> x in ys
  {
    assert |multiset(xs)| == |multiset(ys)|;
    forall x ensures x in xs <==> x in ys {
      assert x in xs <==> x in multiset(xs);
      assert x in ys <==> x in multiset(ys);
    }
  }

  lemma SortMembers(xs: seq<string>)
    ensures |Sort(xs)| == |xs| && forall x :: x in Sort(xs) <==> x in xs
  {
    SortSorts(xs);
    MultisetMembers(Sort(xs), xs);
  }

  /** There is one sorted order: sorting forgets the order it started from. */
  lemma SortedIsUnique(xs: seq<string>, ys: seq<string>)
    requires Sorted(xs) && Sorted(ys) && multiset(xs) == multiset(ys)
    ensures xs == ys
  {
    forall x, y | Le(x, y) && Le(y, x) ensures x == y { LeAntisymmetric(x, y); }
    SortedByIsUnique(xs, ys, Le);
  }

  lemma SortForgetsOrder(xs: seq<string>, ys: seq<string>)
    requires multiset(xs) == multiset(ys)
    ensures Sort(xs) == Sort(ys)
  {
    SortSorts(xs);
    SortSorts(ys);
    SortedIsUnique(Sort(xs), Sort(ys));
  }

  /** The least string of a set, which a sorted listing puts first. */
  lemma {:induction false} LeastExists(names: set<string>) returns (least: string)
    requires names != {}
    ensures least in names && IsLeast(least, names)
  {
    var first :| first in names;
    var rest := names - {first};
    LeReflexive(first);
    least := first;
    if rest != {} {
      var other := LeastExists(rest);
      LeTotal(first, other);
      least := if Le(first, other) then first else other;
      forall e | e in rest ensures Le(least, e) {
        LeTransitive(least, other, e);
      }
    }
    forall e | e in names ensures Le(least, e) {
      assert e == first || e in rest;
    }
  }

  predicate IsLeast(least: string, names: set<string>) {
    forall e :: e in names ==> Le(least, e)
  }

  /** The strings of a set, each once, in order: ranging over a map and sorting its keys. */
  method SortedElements(names: set<string>) returns (list: seq<string>)
    ensures Sorted(list) && (forall x :: x in list <==> x in names)
    ensures forall i, j :: 0 <= i < j < |list| ==> list[i] != list[j]
  {
    list := [];
    var rest := names;
    while rest != {}
      invariant rest <= names && Sorted(list)
      invariant forall x :: x in list <==> x in names && x !in rest
      invariant forall i, j :: 0 <= i < j < |list| ==> list[i] != list[j]
      invariant forall i :: 0 <= i < |list| ==> IsLeast(list[i], rest)
    {
      ghost var least := LeastExists(rest);
      var x :| x in rest && IsLeast(x, rest);
      ghost var before := rest;
      forall i | 0 <= i < |list| ensures Le(list[i], x) && list[i] != x {
        assert IsLeast(list[i], rest) && list[i] in list;
      }
      rest := rest - {x};
      forall i | 0 <= i <= |list| ensures IsLeast((list + [x])[i], rest) {
        assert IsLeast((list + [x])[i], before);
      }
      list := list + [x];
    }
  }

  // ----- sort.Slice -----

  ghost predicate Orders<T(!new)>(le: (T, T) -> bool) {
    && (forall a, b :: le(a, b) || le(b, a))
    && forall a, b, c :: le(a, b) && le(b, c) ==> le(a, c)
  }

  ghost predicate SortedBy<T>(xs: seq<T>, le: (T, T) -> bool) {
    forall i, j :: 0 <= i < j < |xs| ==> le(xs[i], xs[j])
  }

  lemma {:induction false} SortedByIsUnique<T(!new)>(xs: seq<T>, ys: seq<T>, le: (T, T) -> bool)
    requires SortedBy(xs, le) && SortedBy(ys, le) && multiset(xs) == multiset(ys)
    requires forall x, y :: x in xs && y in xs && le(x, y) && le(y, x) ==> x == y
    ensures xs == ys
  {
    assert |multiset(xs)| == |multiset(ys)|;
    if xs != [] {
      assert xs[0] in multiset(ys) && ys[0] in multiset(xs);
      var i :| 0 <= i < |ys| && ys[i] == xs[0];
      var j :| 0 <= j < |xs| && xs[j] == ys[0];
      assert i > 0 ==> le(ys[0], ys[i]);
      assert j > 0 ==> le(xs[0], xs[j]);
      SameTails(xs, ys);
      SortedByIsUnique(xs[1..], ys[1..], le);
    }
  }

  lemma SameTails<T>(xs: seq<T>, ys: seq<T>)
    requires xs != [] && ys != [] && xs[0] == ys[0] && multiset(xs) == multiset(ys)
    ensures multiset(xs[1..]) == multiset(ys[1..])
  {
    assert xs == [xs[0]] + xs[1..] && ys == [ys[0]] + ys[1..];
    assert multiset(xs[1..]) == multiset(xs) - multiset{xs[0]};
    assert multiset(ys[1..]) == multiset(ys) - multiset{ys[0]};
  }

  /** sort.Slice: some sorted permutation, and nothing is promised about equal elements. */
  method SortSlice<T(!new)>(xs: seq<T>, le: (T, T) -> bool) returns (ys: seq<T>)
    requires Orders(le)
    ensures SortedBy(ys, le) && multiset(ys) == multiset(xs)
  {
    ys := [];
    for i := 0 to |xs|
      invariant SortedBy(ys, le) && multiset(ys) == multiset(xs[..i])
    {
      assert xs[..i + 1] == xs[..i] + [xs[i]];
      ys := InsertBefore(ys, xs[i], le);
    }
    assert xs[..|xs|] == xs;
  }

  method InsertBefore<T(!new)>(ys: seq<T>, x: T, le: (T, T) -> bool) returns (zs: seq<T>)
    requires Orders(le) && SortedBy(ys, le)
    ensures SortedBy(zs, le) && multiset(zs) == multiset(ys) + multiset{x}
  {
    var at := 0;
    while at < |ys| && le(ys[at], x)
      invariant at <= |ys| && forall j :: 0 <= j < at ==> le(ys[j], x)
    {
      at := at + 1;
    }
    zs := ys[..at] + [x] + ys[at..];
    forall j | at <= j < |ys| ensures le(x, ys[j]) {
      assert le(x, ys[at]);
      if j > at { assert le(ys[at], ys[j]); }
    }
    assert ys == ys[..at] + ys[at..];
  }
}
