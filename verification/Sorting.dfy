/** Stable sorting by a total preorder, as `list.sort(key=...)` does it, and code-point order on strings. */
module Sorting {

  ghost predicate TotalPreorder<T(!new)>(le: (T, T) -> bool) {
    && (forall x, y :: le(x, y) || le(y, x))
    && (forall x, y, z :: le(x, y) && le(y, z) ==> le(x, z))
  }

  ghost predicate Sorted<T>(le: (T, T) -> bool, xs: seq<T>) {
    forall i, j :: 0 <= i < j < |xs| ==> le(xs[i], xs[j])
  }

  function Insert<T>(le: (T, T) -> bool, x: T, xs: seq<T>): (r: seq<T>)
    ensures multiset(r) == multiset(xs) + multiset{x}
    ensures |r| == |xs| + 1
  {
    if xs == [] then [x]
    else if le(x, xs[0]) then [x] + xs
    else
      assert xs == [xs[0]] + xs[1..];
      [xs[0]] + Insert(le, x, xs[1..])
  }

  // Each element is put before the later ones it does not exceed, so equal keys keep their order.
  function Sort<T>(le: (T, T) -> bool, xs: seq<T>): (r: seq<T>)
    ensures multiset(r) == multiset(xs)
    ensures |r| == |xs|
  {
    if xs == [] then []
    else
      assert xs == [xs[0]] + xs[1..];
      Insert(le, xs[0], Sort(le, xs[1..]))
  }

  lemma {:induction false} InsertSorted<T(!new)>(le: (T, T) -> bool, x: T, xs: seq<T>)
    requires TotalPreorder(le) && Sorted(le, xs)
    ensures Sorted(le, Insert(le, x, xs))
  {
    if xs != [] && !le(x, xs[0]) {
      InsertSorted(le, x, xs[1..]);
      var rest := Insert(le, x, xs[1..]);
      forall j | 0 <= j < |rest| ensures le(xs[0], rest[j]) {
        assert rest[j] in multiset(rest);
        assert rest[j] == x || rest[j] in xs[1..];
      }
    }
  }

  lemma {:induction false} SortSorted<T(!new)>(le: (T, T) -> bool, xs: seq<T>)
    requires TotalPreorder(le)
    ensures Sorted(le, Sort(le, xs))
  {
    if xs != [] {
      SortSorted(le, xs[1..]);
      InsertSorted(le, xs[0], Sort(le, xs[1..]));
    }
  }

  lemma {:induction false} SortOfSorted<T>(le: (T, T) -> bool, xs: seq<T>)
    requires Sorted(le, xs)
    ensures Sort(le, xs) == xs
  {
    if xs != [] {
      assert Sorted(le, xs[1..]);
      SortOfSorted(le, xs[1..]);
      if |xs| > 1 { assert le(xs[0], xs[1]); }
    }
  }

  lemma MultisetMembers<T>(xs: seq<T>, ys: seq<T>)
    requires multiset(xs) == multiset(ys)
    ensures |xs| == |ys|
    ensures forall x :: x in xs <==> x in ys
  {
    assert |multiset(xs)| == |xs| && |multiset(ys)| == |ys|;
    forall x ensures x in xs <==> x in ys {
      assert x in multiset(xs) <==> x in multiset(ys);
    }
  }

  lemma MemberReordered<T>(xs: seq<T>, ys: seq<T>, i: nat)
    requires multiset(xs) == multiset(ys) && i < |ys|
    ensures ys[i] in xs
  {
    assert ys[i] in multiset(ys);
    assert ys[i] in multiset(xs);
  }

  lemma HeadIsLeast<T>(le: (T, T) -> bool, xs: seq<T>, y: T)
    requires Sorted(le, xs) && y in xs
    ensures y == xs[0] || le(xs[0], y)
  {
  }

  lemma TailMultiset<T>(xs: seq<T>)
    requires xs != []
    ensures multiset(xs[1..]) == multiset(xs) - multiset{xs[0]}
  {
    assert xs == [xs[0]] + xs[1..];
  }

  // Two sorted arrangements of the same elements agree when the order tells all of them apart.
  lemma {:induction false} SortedUnique<T>(le: (T, T) -> bool, xs: seq<T>, ys: seq<T>)
    requires Sorted(le, xs) && Sorted(le, ys) && multiset(xs) == multiset(ys)
    requires forall x, y :: x in xs && y in xs && le(x, y) && le(y, x) ==> x == y
    ensures xs == ys
  {
    MultisetMembers(xs, ys);
    if xs != [] {
      HeadIsLeast(le, xs, ys[0]);
      HeadIsLeast(le, ys, xs[0]);
      assert xs[0] == ys[0];
      TailMultiset(xs);
      TailMultiset(ys);
      SortedUnique(le, xs[1..], ys[1..]);
      assert xs == [xs[0]] + xs[1..] && ys == [ys[0]] + ys[1..];
    }
  }

  lemma SortUnique<T(!new)>(le: (T, T) -> bool, xs: seq<T>, ys: seq<T>)
    requires TotalPreorder(le) && multiset(xs) == multiset(ys)
    requires forall x, y :: x in xs && y in xs && le(x, y) && le(y, x) ==> x == y
    ensures Sort(le, xs) == Sort(le, ys)
  {
    SortSorted(le, xs);
    SortSorted(le, ys);
    MultisetMembers(Sort(le, xs), xs);
    SortedUnique(le, Sort(le, xs), Sort(le, ys));
  }

  // ---- Strings by code point ----

  predicate StringLe(a: string, b: string)
    decreases |a|
  {
    a == [] || (b != [] && (a[0] < b[0] || (a[0] == b[0] && StringLe(a[1..], b[1..]))))
  }

  lemma {:induction false} StringLeTotal(a: string, b: string)
    ensures StringLe(a, b) || StringLe(b, a)
    ensures StringLe(a, b) && StringLe(b, a) ==> a == b
    decreases |a|
  {
    if a != [] && b != [] {
      StringLeTotal(a[1..], b[1..]);
      assert a == [a[0]] + a[1..] && b == [b[0]] + b[1..];
    }
  }

  lemma {:induction false} StringLeTransitive(a: string, b: string, c: string)
    requires StringLe(a, b) && StringLe(b, c)
    ensures StringLe(a, c)
    decreases |a|
  {
    if a != [] && b != [] && c != [] && a[0] == b[0] == c[0] {
      StringLeTransitive(a[1..], b[1..], c[1..]);
    }
  }

  lemma StringOrder()
    ensures TotalPreorder(StringLe)
  {
    forall a, b ensures StringLe(a, b) || StringLe(b, a) { StringLeTotal(a, b); }
    forall a, b, c | StringLe(a, b) && StringLe(b, c) ensures StringLe(a, c) { StringLeTransitive(a, b, c); }
  }

  // Pairs compared first component first.
  predicate PairLe(a: (string, string), b: (string, string)) {
    if a.0 == b.0 then StringLe(a.1, b.1) else StringLe(a.0, b.0)
  }

  lemma PairLeTotal(a: (string, string), b: (string, string))
    ensures PairLe(a, b) || PairLe(b, a)
    ensures PairLe(a, b) && PairLe(b, a) ==> a == b
  {
    StringLeTotal(a.0, b.0);
    StringLeTotal(a.1, b.1);
  }

  lemma PairLeTransitive(a: (string, string), b: (string, string), c: (string, string))
    requires PairLe(a, b) && PairLe(b, c)
    ensures PairLe(a, c)
  {
    StringLeTotal(a.0, a.0);
    StringLeTotal(b.0, b.0);
    StringLeTotal(a.0, b.0);
    StringLeTotal(b.0, c.0);
    if a.0 == b.0 == c.0 { StringLeTransitive(a.1, b.1, c.1); } else { StringLeTransitive(a.0, b.0, c.0); }
  }

  // Keys are pairwise distinct along the sequence.
  ghost predicate DistinctKeys<T, K>(key: T -> K, xs: seq<T>) {
    forall i, j :: 0 <= i < j < |xs| ==> key(xs[i]) != key(xs[j])
  }

  lemma Find<T>(xs: seq<T>, x: T) returns (i: nat)
    requires x in xs
    ensures i < |xs| && xs[i] == x
  {
    i :| 0 <= i < |xs| && xs[i] == x;
  }

  function Without<T>(xs: seq<T>, i: nat): (r: seq<T>)
    requires i < |xs|
    ensures |r| == |xs| - 1
    ensures forall j :: 0 <= j < |r| ==> r[j] == xs[if j < i then j else j + 1]
    ensures multiset(r) == multiset(xs) - multiset{xs[i]}
  {
    assert xs == xs[..i] + [xs[i]] + xs[i + 1..];
    xs[..i] + xs[i + 1..]
  }

  // Distinctness of keys does not depend on the order.
  lemma {:induction false} DistinctKeysReordered<T, K>(key: T -> K, xs: seq<T>, ys: seq<T>)
    requires multiset(xs) == multiset(ys) && DistinctKeys(key, xs)
    ensures DistinctKeys(key, ys)
    decreases |ys|
  {
    if ys != [] {
      MultisetMembers(xs, ys);
      var i := Find(xs, ys[0]);
      var rest := Without(xs, i);
      TailMultiset(ys);
      DistinctKeysReordered(key, rest, ys[1..]);
      MultisetMembers(rest, ys[1..]);
      forall j | 1 <= j < |ys| ensures key(ys[0]) != key(ys[j]) {
        assert ys[1..][j - 1] in rest;
        var m := Find(rest, ys[j]);
      }
    }
  }

  // ---- Lookup by key ----

  datatype Option<T> = None | Some(value: T)

  // The first element with the given key.
  function FindBy<T, K(==)>(key: T -> K, xs: seq<T>, k: K): Option<T> {
    if xs == [] then None
    else if key(xs[0]) == k then Some(xs[0])
    else FindBy(key, xs[1..], k)
  }

  lemma {:induction false} FindByIs<T, K>(key: T -> K, xs: seq<T>, k: K)
    ensures FindBy(key, xs, k).Some? ==> FindBy(key, xs, k).value in xs && key(FindBy(key, xs, k).value) == k
    ensures FindBy(key, xs, k).None? ==> forall x :: x in xs ==> key(x) != k
    ensures DistinctKeys(key, xs) ==> forall x :: x in xs && key(x) == k ==> FindBy(key, xs, k) == Some(x)
  {
    if xs != [] {
      FindByIs(key, xs[1..], k);
      assert forall x :: x in xs <==> x == xs[0] || x in xs[1..];
      if DistinctKeys(key, xs) {
        assert DistinctKeys(key, xs[1..]);
        forall x | x in xs[1..] ensures key(x) != key(xs[0]) { var i := Find(xs[1..], x); }
      }
    }
  }

  lemma FindByReordered<T, K>(key: T -> K, xs: seq<T>, ys: seq<T>, k: K)
    requires multiset(xs) == multiset(ys) && DistinctKeys(key, xs)
    ensures FindBy(key, xs, k) == FindBy(key, ys, k)
  {
    FindByIs(key, xs, k);
    FindByIs(key, ys, k);
    MultisetMembers(xs, ys);
    DistinctKeysReordered(key, xs, ys);
  }

  // ---- Mapping and reordering ----

  function Map<T, U>(f: T -> U, xs: seq<T>): (r: seq<U>)
    ensures |r| == |xs|
    ensures forall i :: 0 <= i < |xs| ==> r[i] == f(xs[i])
  {
    seq(|xs|, i requires 0 <= i < |xs| => f(xs[i]))
  }

  lemma MapWithout<T, U>(f: T -> U, xs: seq<T>, i: nat)
    requires i < |xs|
    ensures Map(f, Without(xs, i)) == Without(Map(f, xs), i)
  {
  }

  lemma MapCons<T, U>(f: T -> U, xs: seq<T>)
    requires xs != []
    ensures Map(f, xs) == [f(xs[0])] + Map(f, xs[1..])
    ensures Map(f, xs)[1..] == Map(f, xs[1..])
  {
  }

  lemma {:induction false} MapReordered<T, U>(f: T -> U, xs: seq<T>, ys: seq<T>)
    requires multiset(xs) == multiset(ys)
    ensures multiset(Map(f, xs)) == multiset(Map(f, ys))
    decreases |ys|
  {
    hide Map, Without;
    MultisetMembers(xs, ys);
    if ys == [] {
      assert Map(f, xs) == Map(f, ys);
    } else {
      MemberReordered(xs, ys, 0);
      var i := Find(xs, ys[0]);
      TailMultiset(ys);
      MapReordered(f, Without(xs, i), ys[1..]);
      MapWithout(f, xs, i);
      MapCons(f, ys);
      PutBack(Map(f, xs), i);
    }
  }

  lemma PutBack<T>(xs: seq<T>, i: nat)
    requires i < |xs|
    ensures multiset(xs) == multiset(Without(xs, i)) + multiset{xs[i]}
  {
  }

  // Sequences whose images are reorderings of each other can be aligned element by element.
  lemma {:induction false} Align<T, U>(f: T -> U, xs: seq<T>, ys: seq<T>) returns (aligned: seq<T>)
    requires multiset(Map(f, xs)) == multiset(Map(f, ys))
    ensures multiset(aligned) == multiset(xs) && Map(f, aligned) == Map(f, ys)
    decreases |ys|
  {
    hide Map, Without;
    var fx, fy := Map(f, xs), Map(f, ys);
    assert |xs| == |multiset(fx)| == |multiset(fy)| == |ys|;
    if ys == [] {
      aligned := [];
    } else {
      MemberReordered(fx, fy, 0);
      var i := Find(fx, fy[0]);
      MapWithout(f, xs, i);
      TailMultiset(fy);
      MapCons(f, ys);
      var rest := Align(f, Without(xs, i), ys[1..]);
      aligned := [xs[i]] + rest;
      PutBack(xs, i);
      MapCons(f, aligned);
      assert aligned[1..] == rest;
    }
  }

  lemma {:induction false} InsertThroughMap<T, U>(le: (T, T) -> bool, le': (U, U) -> bool, f: T -> U, x: T, xs: seq<T>)
    requires forall y :: y in xs ==> le'(f(x), f(y)) == le(x, y)
    ensures Map(f, Insert(le, x, xs)) == Insert(le', f(x), Map(f, xs))
  {
    if xs != [] {
      assert xs[0] in xs && forall y :: y in xs[1..] ==> y in xs;
      MapCons(f, xs);
      if !le(x, xs[0]) {
        InsertThroughMap(le, le', f, x, xs[1..]);
        MapCons(f, [xs[0]] + Insert(le, x, xs[1..]));
        assert ([xs[0]] + Insert(le, x, xs[1..]))[1..] == Insert(le, x, xs[1..]);
      }
    }
  }

  lemma SortCons<T>(le: (T, T) -> bool, xs: seq<T>)
    requires xs != []
    ensures Sort(le, xs) == Insert(le, xs[0], Sort(le, xs[1..]))
  {
  }

  lemma SortedTailIn<T>(le: (T, T) -> bool, xs: seq<T>, y: T)
    requires xs != [] && y in Sort(le, xs[1..])
    ensures y in xs
  {
    hide Sort;
    MultisetMembers(Sort(le, xs[1..]), xs[1..]);
  }

  // Sorting commutes with a map that preserves the order.
  lemma {:induction false} SortThroughMap<T, U>(le: (T, T) -> bool, le': (U, U) -> bool, f: T -> U, xs: seq<T>)
    requires forall x, y :: x in xs && y in xs ==> le'(f(x), f(y)) == le(x, y)
    ensures Map(f, Sort(le, xs)) == Sort(le', Map(f, xs))
  {
    if xs != [] {
      hide Insert, Map, Sort;
      assert forall y :: y in xs[1..] ==> y in xs;
      SortThroughMap(le, le', f, xs[1..]);
      MapCons(f, xs);
      forall y | y in Sort(le, xs[1..]) ensures le'(f(xs[0]), f(y)) == le(xs[0], y) { SortedTailIn(le, xs, y); }
      InsertThroughMap(le, le', f, xs[0], Sort(le, xs[1..]));
      SortCons(le, xs);
      SortCons(le', Map(f, xs));
    }
  }
}
