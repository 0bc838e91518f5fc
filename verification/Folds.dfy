/** Filters and sums over lists, and why neither depends on the order of the list. */
module Folds {
  import opened Sorting

  function Filter<T(!new)>(p: T -> bool, xs: seq<T>): (r: seq<T>)
    ensures forall x :: x in r <==> x in xs && p(x)
  {
    if xs == [] then []
    else
      assert xs == [xs[0]] + xs[1..];
      (if p(xs[0]) then [xs[0]] else []) + Filter(p, xs[1..])
  }

  function SumOf<T>(f: T -> int, xs: seq<T>): int {
    if xs == [] then 0 else f(xs[0]) + SumOf(f, xs[1..])
  }

  function CountOf<T>(p: T -> bool, xs: seq<T>): nat {
    if xs == [] then 0 else (if p(xs[0]) then 1 else 0) + CountOf(p, xs[1..])
  }

  lemma {:induction false} FilterConcat<T(!new)>(p: T -> bool, xs: seq<T>, ys: seq<T>)
    ensures Filter(p, xs + ys) == Filter(p, xs) + Filter(p, ys)
  {
    if xs == [] {
      assert xs + ys == ys;
    } else {
      assert (xs + ys)[0] == xs[0] && (xs + ys)[1..] == xs[1..] + ys;
      FilterConcat(p, xs[1..], ys);
    }
  }

  lemma {:induction false} SumConcat<T>(f: T -> int, xs: seq<T>, ys: seq<T>)
    ensures SumOf(f, xs + ys) == SumOf(f, xs) + SumOf(f, ys)
  {
    if xs == [] {
      assert xs + ys == ys;
    } else {
      assert (xs + ys)[0] == xs[0] && (xs + ys)[1..] == xs[1..] + ys;
      SumConcat(f, xs[1..], ys);
    }
  }

  lemma {:induction false} CountConcat<T>(p: T -> bool, xs: seq<T>, ys: seq<T>)
    ensures CountOf(p, xs + ys) == CountOf(p, xs) + CountOf(p, ys)
  {
    if xs == [] {
      assert xs + ys == ys;
    } else {
      assert (xs + ys)[0] == xs[0] && (xs + ys)[1..] == xs[1..] + ys;
      CountConcat(p, xs[1..], ys);
    }
  }

  lemma SplitAt<T>(xs: seq<T>, i: nat)
    requires i < |xs|
    ensures xs == xs[..i] + ([xs[i]] + xs[i + 1..]) && Without(xs, i) == xs[..i] + xs[i + 1..]
  {
  }

  lemma {:induction false} FilterReordered<T(!new)>(p: T -> bool, xs: seq<T>, ys: seq<T>)
    requires multiset(xs) == multiset(ys)
    ensures multiset(Filter(p, xs)) == multiset(Filter(p, ys))
    decreases |ys|
  {
    hide Filter, Without;
    MultisetMembers(xs, ys);
    if ys == [] {
      assert xs == ys;
    } else {
      MemberReordered(xs, ys, 0);
      var i := Find(xs, ys[0]);
      TailMultiset(ys);
      FilterReordered(p, Without(xs, i), ys[1..]);
      SplitAt(xs, i);
      var head, tail := xs[..i], xs[i + 1..];
      FilterConcat(p, head, [xs[i]] + tail);
      FilterConcat(p, [xs[i]], tail);
      FilterConcat(p, head, tail);
      assert ys == [ys[0]] + ys[1..];
      FilterConcat(p, [ys[0]], ys[1..]);
    }
  }

  lemma {:induction false} SumReordered<T>(f: T -> int, xs: seq<T>, ys: seq<T>)
    requires multiset(xs) == multiset(ys)
    ensures SumOf(f, xs) == SumOf(f, ys)
    decreases |ys|
  {
    hide SumOf, Without;
    MultisetMembers(xs, ys);
    if ys == [] {
      assert xs == ys;
    } else {
      MemberReordered(xs, ys, 0);
      var i := Find(xs, ys[0]);
      TailMultiset(ys);
      SumReordered(f, Without(xs, i), ys[1..]);
      SplitAt(xs, i);
      var head, tail := xs[..i], xs[i + 1..];
      SumConcat(f, head, [xs[i]] + tail);
      SumConcat(f, [xs[i]], tail);
      SumConcat(f, head, tail);
      assert ys == [ys[0]] + ys[1..];
      SumConcat(f, [ys[0]], ys[1..]);
    }
  }

  lemma {:induction false} CountReordered<T(!new)>(p: T -> bool, xs: seq<T>, ys: seq<T>)
    requires multiset(xs) == multiset(ys)
    ensures CountOf(p, xs) == CountOf(p, ys)
  {
    CountIsLength(p, xs);
    CountIsLength(p, ys);
    FilterReordered(p, xs, ys);
    MultisetMembers(Filter(p, xs), Filter(p, ys));
  }

  lemma {:induction false} CountIsLength<T(!new)>(p: T -> bool, xs: seq<T>)
    ensures CountOf(p, xs) == |Filter(p, xs)|
  {
    if xs != [] { CountIsLength(p, xs[1..]); }
  }

  // ---- Lists without repeats ----

  ghost predicate NoRepeats<T>(xs: seq<T>) { forall i, j :: 0 <= i < j < |xs| ==> xs[i] != xs[j] }

  lemma HeadNotInTail<T>(xs: seq<T>)
    requires NoRepeats(xs) && xs != []
    ensures xs[0] !in xs[1..]
  {
  }

  lemma {:induction false} NoRepeatsCount<T>(xs: seq<T>, x: T)
    requires NoRepeats(xs)
    ensures multiset(xs)[x] == if x in xs then 1 else 0
  {
    if xs != [] {
      assert xs == [xs[0]] + xs[1..];
      NoRepeatsCount(xs[1..], x);
      if x in xs[1..] { var j := Find(xs[1..], x); assert xs[j + 1] == x; }
    }
  }

  lemma {:induction false} NoRepeatsSize<T>(xs: seq<T>)
    requires NoRepeats(xs)
    ensures |set x | x in xs| == |xs|
  {
    if xs != [] {
      NoRepeatsSize(xs[1..]);
      assert (set x | x in xs) == {xs[0]} + (set x | x in xs[1..]);
      HeadNotInTail(xs);
    }
  }

  lemma SameMembers<T>(xs: seq<T>, ys: seq<T>)
    requires NoRepeats(xs) && NoRepeats(ys) && forall x :: x in xs <==> x in ys
    ensures multiset(xs) == multiset(ys)
  {
    forall x ensures multiset(xs)[x] == multiset(ys)[x] {
      NoRepeatsCount(xs, x);
      NoRepeatsCount(ys, x);
    }
  }

  lemma DistinctMap<T, K>(key: T -> K, xs: seq<T>)
    ensures NoRepeats(Map(key, xs)) <==> DistinctKeys(key, xs)
  {
  }

  lemma RepeatsCounted<T>(xs: seq<T>)
    ensures NoRepeats(xs) <==> forall i :: 0 <= i < |xs| ==> multiset(xs)[xs[i]] <= 1
  {
    if NoRepeats(xs) {
      forall i | 0 <= i < |xs| ensures multiset(xs)[xs[i]] <= 1 { NoRepeatsCount(xs, xs[i]); }
    } else {
      var i, j :| 0 <= i < j < |xs| && xs[i] == xs[j];
      assert Without(xs, i)[j - 1] == xs[j];
      assert xs[j] in multiset(Without(xs, i));
      assert multiset(xs)[xs[i]] >= 2;
    }
  }

  lemma {:induction false} SubsetSize<T>(a: set<T>, b: set<T>)
    requires a <= b
    ensures |a| <= |b|
    ensures |a| == |b| <==> a == b
  {
    if x :| x in a { SubsetSize(a - {x}, b - {x}); }
  }
}
