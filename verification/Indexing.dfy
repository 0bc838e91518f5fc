/** What a pass over a list knows from the set or dictionary it has filled so far. */
module Indexing {
  import opened Sorting

  ghost predicate Seen<T, K(!new)>(key: T -> K, xs: seq<T>, seen: set<K>) {
    && (forall i :: 0 <= i < |xs| ==> key(xs[i]) in seen)
    && (forall k :: k in seen ==> exists i :: 0 <= i < |xs| && key(xs[i]) == k)
  }

  ghost predicate Indexes<T, K(!new)>(key: T -> K, xs: seq<T>, index: map<K, T>) {
    && DistinctKeys(key, xs)
    && (forall i :: 0 <= i < |xs| ==> key(xs[i]) in index && index[key(xs[i])] == xs[i])
    && (forall k :: k in index ==> index[k] in xs && key(index[k]) == k)
  }

  lemma SeenStep<T, K(!new)>(key: T -> K, xs: seq<T>, x: T, seen: set<K>)
    requires Seen(key, xs, seen) && DistinctKeys(key, xs)
    ensures DistinctKeys(key, xs + [x]) <==> key(x) !in seen
    ensures Seen(key, xs + [x], seen + {key(x)})
  {
    var ys := xs + [x];
    assert ys[|xs|] == x;
    forall k | k in seen + {key(x)} ensures exists i :: 0 <= i < |ys| && key(ys[i]) == k {
      if k in seen {
        var i :| 0 <= i < |xs| && key(xs[i]) == k;
        assert key(ys[i]) == k;
      }
    }
    if key(x) in seen {
      var i :| 0 <= i < |xs| && key(xs[i]) == key(x);
      assert key(ys[i]) == key(ys[|xs|]);
    }
  }

  lemma IndexStep<T, K(!new)>(key: T -> K, xs: seq<T>, x: T, index: map<K, T>)
    requires Indexes(key, xs, index)
    ensures DistinctKeys(key, xs + [x]) <==> key(x) !in index
    ensures key(x) !in index ==> Indexes(key, xs + [x], index[key(x) := x])
  {
    var ys := xs + [x];
    assert ys[|xs|] == x;
    if key(x) in index {
      var i := Find(xs, index[key(x)]);
      assert key(ys[i]) == key(ys[|xs|]);
    } else {
      forall i | 0 <= i < |ys| ensures key(ys[i]) in index[key(x) := x] && index[key(x) := x][key(ys[i])] == ys[i] {
        assert i < |xs| ==> ys[i] == xs[i];
      }
    }
  }

  // An index answers lookups.
  lemma IndexAnswers<T, K(!new)>(key: T -> K, xs: seq<T>, index: map<K, T>, k: K)
    requires Indexes(key, xs, index)
    ensures FindBy(key, xs, k) == if k in index then Some(index[k]) else None
  {
    FindByIs(key, xs, k);
  }

  lemma PrefixStep<T>(xs: seq<T>, i: nat)
    requires i < |xs|
    ensures xs[..i + 1] == xs[..i] + [xs[i]]
  {
  }

  lemma DistinctPrefix<T, K>(key: T -> K, xs: seq<T>, more: seq<T>)
    requires DistinctKeys(key, xs + more)
    ensures DistinctKeys(key, xs)
  {
    forall i, j | 0 <= i < j < |xs| ensures key(xs[i]) != key(xs[j]) {
      assert (xs + more)[i] == xs[i] && (xs + more)[j] == xs[j];
    }
  }

  lemma IndexedKeysDistinct<T, K(!new)>(key: T -> K, xs: seq<T>, index: map<K, T>)
    requires Indexes(key, xs, index)
    ensures DistinctKeys(key, xs)
  {
  }

  lemma NothingSeen<T, K(!new)>(key: T -> K, xs: seq<T>)
    ensures DistinctKeys(key, xs[..0]) && Seen(key, xs[..0], {})
  {
  }

  // A repeat anywhere spoils the whole list.
  lemma RepeatRejects<T, K>(key: T -> K, xs: seq<T>, i: nat)
    requires i < |xs| && !DistinctKeys(key, xs[..i] + [xs[i]])
    ensures !DistinctKeys(key, xs)
  {
  }
}
