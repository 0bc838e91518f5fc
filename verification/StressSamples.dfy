/** Aggregating stress samples: which samples make a complete set, how they group, and what the groups'
    statistics satisfy. Metrics are exact reals; the standard deviation is a parameter. */
module StressSamples {
  import opened Sorting
  import opened Folds
  import opened Indexing
  import opened Reports

  // What one scenario is selected by; a sample adds its repetition.
  datatype Selector = Selector(transport: string, operation: string, inFlight: int, clients: int, registers: int)
  datatype SampleKey = SampleKey(selector: Selector, repetition: int)

  datatype Sample = Sample(
    key: SampleKey, duration: int, warmup: int, throughput: real, p99: real, errorRate: real, errors: int, retries: int,
    command: string)

  predicate SelectorOk(s: Selector) {
    s.transport == "tcp" && s.operation in ["read", "mixed"] && s.inFlight >= 1 && s.clients >= 1 && s.registers >= 1
  }

  predicate SampleKeyOk(k: SampleKey) { SelectorOk(k.selector) && k.repetition >= 1 }

  // ---- The expected set ----

  function Depths(mode: string): seq<int> { if mode == "bench-smoke" then [1, 8, 16] else [1, 2, 4, 8, 16] }

  function Across(operation: string, depths: seq<int>): (r: seq<Selector>)
    ensures |r| == |depths|
    ensures forall i :: 0 <= i < |r| ==> r[i] == Selector("tcp", operation, depths[i], 1, 10)
  {
    seq(|depths|, i requires 0 <= i < |depths| => Selector("tcp", operation, depths[i], 1, 10))
  }

  function Selectors(mode: string): seq<Selector> { Across("read", Depths(mode)) + Across("mixed", Depths(mode)) }

  function Repeated(s: Selector, repetitions: int): (r: seq<SampleKey>)
    ensures |r| == |OneTo(repetitions)|
    ensures forall i :: 0 <= i < |r| ==> r[i] == SampleKey(s, i + 1)
  {
    seq(|OneTo(repetitions)|, i requires 0 <= i < |OneTo(repetitions)| => SampleKey(s, i + 1))
  }

  function Product(selectors: seq<Selector>, repetitions: int): seq<SampleKey> {
    if selectors == [] then [] else Repeated(selectors[0], repetitions) + Product(selectors[1..], repetitions)
  }

  // Every operation, depth and repetition of a mode.
  function StressScenarios(mode: string, repetitions: int): seq<SampleKey> { Product(Selectors(mode), repetitions) }

  lemma SelectorsDistinct(mode: string)
    ensures NoRepeats(Selectors(mode)) && Selectors(mode) != []
    ensures forall s :: s in Selectors(mode) ==> SelectorOk(s)
  {
  }

  // Reads and mixed traffic of one client over ten registers, at the depths of the mode.
  lemma SelectorsAre(mode: string, s: Selector)
    ensures s in Selectors(mode) <==>
              && s.transport == "tcp" && s.operation in ["read", "mixed"] && s.clients == 1 && s.registers == 10
              && s.inFlight in (if mode == "bench-smoke" then [1, 8, 16] else [1, 2, 4, 8, 16])
  {
    AcrossIs("read", Depths(mode), s);
    AcrossIs("mixed", Depths(mode), s);
    hide Across;
  }

  lemma AcrossIs(operation: string, depths: seq<int>, s: Selector)
    ensures s in Across(operation, depths)
            <==> s == Selector("tcp", operation, s.inFlight, 1, 10) && s.inFlight in depths
  {
    if s == Selector("tcp", operation, s.inFlight, 1, 10) && s.inFlight in depths {
      var i := Find(depths, s.inFlight);
      assert Across(operation, depths)[i] == s;
    }
  }

  lemma {:induction false} ProductMember(selectors: seq<Selector>, repetitions: int, k: SampleKey)
    ensures k in Product(selectors, repetitions) <==> k.selector in selectors && 1 <= k.repetition <= repetitions
  {
    if selectors != [] {
      ProductMember(selectors[1..], repetitions, k);
      assert selectors == [selectors[0]] + selectors[1..];
      var head := Repeated(selectors[0], repetitions);
      if k.selector == selectors[0] && 1 <= k.repetition <= repetitions { assert head[k.repetition - 1] == k; }
    }
  }

  lemma {:induction false} ProductDistinct(selectors: seq<Selector>, repetitions: int)
    requires NoRepeats(selectors)
    ensures NoRepeats(Product(selectors, repetitions))
  {
    if selectors != [] {
      ProductDistinct(selectors[1..], repetitions);
      HeadNotInTail(selectors);
      var head, tail := Repeated(selectors[0], repetitions), Product(selectors[1..], repetitions);
      forall i, j | 0 <= i < |head| && 0 <= j < |tail| ensures head[i] != tail[j] {
        assert tail[j] in tail;
        ProductMember(selectors[1..], repetitions, tail[j]);
      }
    }
  }

  // ---- Completeness ----

  function KeyOfSample(s: Sample): SampleKey { s.key }

  // The aggregation's completeness test: no key twice, none missing, none extra.
  ghost predicate Complete(samples: seq<Sample>, expected: seq<SampleKey>) {
    && DistinctKeys(KeyOfSample, samples)
    && forall k :: k in Map(KeyOfSample, samples) <==> k in expected
  }

  // It accepts exactly the permutations of the full product.
  lemma CompleteIsPermutation(samples: seq<Sample>, mode: string, repetitions: int)
    ensures Complete(samples, StressScenarios(mode, repetitions))
            <==> multiset(Map(KeyOfSample, samples)) == multiset(StressScenarios(mode, repetitions))
  {
    hide Product, Selectors;
    var keys, expected := Map(KeyOfSample, samples), StressScenarios(mode, repetitions);
    SelectorsDistinct(mode);
    ProductDistinct(Selectors(mode), repetitions);
    DistinctMap(KeyOfSample, samples);
    if Complete(samples, expected) {
      SameMembers(keys, expected);
    }
    if multiset(keys) == multiset(expected) {
      MultisetMembers(keys, expected);
      DistinctKeysReordered(SameKey, expected, keys);
      assert NoRepeats(keys) by {
        forall i, j | 0 <= i < j < |keys| ensures keys[i] != keys[j] { assert SameKey(keys[i]) != SameKey(keys[j]); }
      }
    }
  }

  function SameKey(k: SampleKey): SampleKey { k }

  // The largest repetition recorded.
  function MaxRepetition(samples: seq<Sample>): (r: int)
    requires samples != []
    ensures exists s :: s in samples && s.key.repetition == r
    ensures forall s :: s in samples ==> s.key.repetition <= r
  {
    if |samples| == 1 then samples[0].key.repetition
    else
      var rest := MaxRepetition(samples[1..]);
      assert samples == [samples[0]] + samples[1..];
      if samples[0].key.repetition > rest then samples[0].key.repetition else rest
  }

  // No other repetition count could have been accepted.
  lemma OnlyMaximumIsComplete(samples: seq<Sample>, mode: string, repetitions: int)
    requires samples != [] && Complete(samples, StressScenarios(mode, repetitions))
    ensures repetitions == MaxRepetition(samples)
  {
    hide Product, Selectors;
    SelectorsDistinct(mode);
    var keys := Map(KeyOfSample, samples);
    forall s | s in samples ensures s.key in keys { var i := Find(samples, s); assert keys[i] == s.key; }
    var most := MaxRepetition(samples);
    assert exists s :: s in samples && s.key.repetition == most;
    var top :| top in samples && top.key.repetition == most;
    ProductMember(Selectors(mode), repetitions, top.key);
    var last := SampleKey(Selectors(mode)[0], repetitions);
    ProductMember(Selectors(mode), repetitions, last);
    var j := Find(keys, last);
    assert samples[j] in samples;
  }

  // ---- Groups ----

  function RepetitionOf(s: Sample): int { s.key.repetition }
  function HasSelector(k: Selector): Sample -> bool { (s: Sample) => s.key.selector == k }
  function KeyHasSelector(k: Selector): SampleKey -> bool { (s: SampleKey) => s.selector == k }

  // The samples of one selector, in order.
  function Group(samples: seq<Sample>, k: Selector): seq<Sample> { Filter(HasSelector(k), samples) }

  lemma {:induction false} GroupKeys(samples: seq<Sample>, k: Selector)
    ensures Map(KeyOfSample, Group(samples, k)) == Filter(KeyHasSelector(k), Map(KeyOfSample, samples))
  {
    if samples != [] {
      GroupKeys(samples[1..], k);
      MapCons(KeyOfSample, samples);
      var keys := Map(KeyOfSample, samples);
      assert keys[0] == samples[0].key && keys[1..] == Map(KeyOfSample, samples[1..]);
      if samples[0].key.selector == k {
        assert Group(samples, k) == [samples[0]] + Group(samples[1..], k);
        MapCons(KeyOfSample, Group(samples, k));
      } else {
        assert Group(samples, k) == Group(samples[1..], k);
      }
    }
  }

  lemma {:induction false} FilterAll(k: Selector, keys: seq<SampleKey>)
    requires forall x :: x in keys ==> x.selector == k
    ensures Filter(KeyHasSelector(k), keys) == keys
  {
    if keys != [] {
      assert keys[0] in keys && forall x :: x in keys[1..] ==> x in keys;
      FilterAll(k, keys[1..]);
    }
  }

  lemma FilterNone(k: Selector, keys: seq<SampleKey>)
    requires forall x :: x in keys ==> x.selector != k
    ensures Filter(KeyHasSelector(k), keys) == []
  {
  }

  lemma {:induction false} ProductGroup(selectors: seq<Selector>, repetitions: int, k: Selector)
    requires NoRepeats(selectors) && k in selectors
    ensures Filter(KeyHasSelector(k), Product(selectors, repetitions)) == Repeated(k, repetitions)
  {
    hide Filter;
    var head, tail := Repeated(selectors[0], repetitions), Product(selectors[1..], repetitions);
    FilterConcat(KeyHasSelector(k), head, tail);
    HeadNotInTail(selectors);
    if k == selectors[0] {
      FilterAll(k, head);
      forall x | x in tail ensures x.selector != k { ProductMember(selectors[1..], repetitions, x); }
      FilterNone(k, tail);
    } else {
      FilterNone(k, head);
      assert selectors == [selectors[0]] + selectors[1..];
      ProductGroup(selectors[1..], repetitions, k);
    }
  }

  // In a complete set every group holds each repetition once.
  lemma GroupRepetitions(samples: seq<Sample>, mode: string, repetitions: int, k: Selector)
    requires Complete(samples, StressScenarios(mode, repetitions)) && k in Selectors(mode)
    ensures multiset(Map(RepetitionOf, Group(samples, k))) == multiset(OneTo(repetitions))
    ensures |Group(samples, k)| == |OneTo(repetitions)|
  {
    hide Product, Selectors, Filter;
    var keys, expected := Map(KeyOfSample, samples), StressScenarios(mode, repetitions);
    CompleteIsPermutation(samples, mode, repetitions);
    SelectorsDistinct(mode);
    FilterReordered(KeyHasSelector(k), keys, expected);
    ProductGroup(Selectors(mode), repetitions, k);
    GroupKeys(samples, k);
    var group := Group(samples, k);
    var ofKey := (x: SampleKey) => x.repetition;
    MapReordered(ofKey, Map(KeyOfSample, group), Repeated(k, repetitions));
    assert Map(ofKey, Map(KeyOfSample, group)) == Map(RepetitionOf, group);
    assert Map(ofKey, Repeated(k, repetitions)) == OneTo(repetitions);
    MultisetMembers(Map(RepetitionOf, group), OneTo(repetitions));
  }

  lemma {:induction false} ProductLength(selectors: seq<Selector>, repetitions: int)
    ensures |Product(selectors, repetitions)| == |selectors| * |OneTo(repetitions)|
  {
    if selectors != [] { ProductLength(selectors[1..], repetitions); }
  }

  // ---- Statistics ----

  predicate RealLe(a: real, b: real) { a <= b }

  function Sum(values: seq<real>): real { if values == [] then 0.0 else values[0] + Sum(values[1..]) }

  function Min(values: seq<real>): (r: real)
    requires values != []
    ensures r in values && forall x :: x in values ==> r <= x
  {
    if |values| == 1 then values[0]
    else
      assert values == [values[0]] + values[1..];
      var rest := Min(values[1..]);
      if values[0] <= rest then values[0] else rest
  }

  function Max(values: seq<real>): (r: real)
    requires values != []
    ensures r in values && forall x :: x in values ==> x <= r
  {
    if |values| == 1 then values[0]
    else
      assert values == [values[0]] + values[1..];
      var rest := Max(values[1..]);
      if values[0] >= rest then values[0] else rest
  }

  // The middle of the sorted values, or the mean of the two middle ones.
  function Median(values: seq<real>): real
    requires values != []
  {
    var sorted := Sort(RealLe, values);
    var n := |sorted|;
    if n % 2 == 1 then sorted[n / 2] else (sorted[n / 2 - 1] + sorted[n / 2]) / 2.0
  }

  function Mean(values: seq<real>): real
    requires values != []
  {
    Sum(values) / |values| as real
  }

  function SampleStatistics(values: seq<real>, deviation: seq<real> -> real): Statistics
    requires values != []
  {
    var mean := Mean(values);
    var stddev := if |values| > 1 then deviation(values) else 0.0;
    Statistics(|values|, Min(values), Median(values), mean, Max(values), stddev,
               if mean == 0.0 then None else Some(stddev / mean))
  }

  lemma {:induction false} SumBounds(values: seq<real>, low: real, high: real)
    requires forall x :: x in values ==> low <= x <= high
    ensures low * |values| as real <= Sum(values) <= high * |values| as real
  {
    if values != [] {
      assert values[0] in values && forall x :: x in values[1..] ==> x in values;
      SumBounds(values[1..], low, high);
      assert |values| as real == 1.0 + |values[1..]| as real;
      assert low * |values| as real == low + low * |values[1..]| as real;
      assert high * |values| as real == high + high * |values[1..]| as real;
    }
  }

  lemma MeanBetween(values: seq<real>)
    requires values != []
    ensures Min(values) <= Mean(values) <= Max(values)
  {
    SumBounds(values, Min(values), Max(values));
    var n := |values| as real;
    Quotient(Sum(values), Min(values), Max(values), n);
  }

  lemma Quotient(sum: real, low: real, high: real, n: real)
    requires n > 0.0 && low * n <= sum <= high * n
    ensures low <= sum / n <= high
  {
  }

  lemma MedianBetween(values: seq<real>)
    requires values != []
    ensures Min(values) <= Median(values) <= Max(values)
  {
    var sorted := Sort(RealLe, values);
    MultisetMembers(sorted, values);
    forall i | 0 <= i < |sorted| ensures Min(values) <= sorted[i] <= Max(values) { assert sorted[i] in sorted; }
  }

  // What recorded statistics say of the values they were taken of. At most half of the values lie on either
  // side of the median.
  ghost predicate Summarises(s: Statistics, values: seq<real>) {
    && s.count == |values| && s.min in values && s.max in values && (forall x :: x in values ==> s.min <= x <= s.max)
    && s.mean * |values| as real == Sum(values)
    && 2 * CountOf(Below(s.median), values) <= |values| && 2 * CountOf(Above(s.median), values) <= |values|
    && (|values| == 1 ==> s.stddev == 0.0)
    && s.coefficient == if s.mean == 0.0 then None else Some(s.stddev / s.mean)
  }

  function Below(m: real): real -> bool { (x: real) => x < m }
  function Above(m: real): real -> bool { (x: real) => x > m }

  lemma RealOrder()
    ensures TotalPreorder(RealLe)
  {
  }

  lemma {:induction false} CountAtMost<T>(p: T -> bool, xs: seq<T>)
    ensures CountOf(p, xs) <= |xs|
    ensures (forall x :: x in xs ==> !p(x)) ==> CountOf(p, xs) == 0
  {
    if xs != [] { CountAtMost(p, xs[1..]); }
  }

  // Of sorted values, those below the one at `k` come before it and those above come after it.
  lemma SplitCounts(sorted: seq<real>, low: nat, high: nat, m: real)
    requires Sorted(RealLe, sorted) && low <= high < |sorted| && sorted[low] <= m <= sorted[high]
    ensures CountOf(Below(m), sorted) <= high && CountOf(Above(m), sorted) <= |sorted| - 1 - low
  {
    assert sorted == sorted[..high] + sorted[high..];
    CountConcat(Below(m), sorted[..high], sorted[high..]);
    CountAtMost(Below(m), sorted[..high]);
    forall x | x in sorted[high..] ensures !Below(m)(x) {
      var i := Find(sorted[high..], x);
      if i > 0 { assert RealLe(sorted[high], sorted[high + i]); }
    }
    CountAtMost(Below(m), sorted[high..]);
    assert sorted == sorted[..low + 1] + sorted[low + 1..];
    CountConcat(Above(m), sorted[..low + 1], sorted[low + 1..]);
    CountAtMost(Above(m), sorted[low + 1..]);
    forall x | x in sorted[..low + 1] ensures !Above(m)(x) {
      var i := Find(sorted[..low + 1], x);
      if i < low { assert RealLe(sorted[i], sorted[low]); }
    }
    CountAtMost(Above(m), sorted[..low + 1]);
  }

  lemma MedianHalves(values: seq<real>)
    requires values != []
    ensures 2 * CountOf(Below(Median(values)), values) <= |values|
            && 2 * CountOf(Above(Median(values)), values) <= |values|
  {
    hide CountOf, Sort;
    var sorted, m := Sort(RealLe, values), Median(values);
    var n := |sorted|;
    RealOrder();
    SortSorted(RealLe, values);
    CountReordered(Below(m), sorted, values);
    CountReordered(Above(m), sorted, values);
    if n % 2 == 1 {
      SplitCounts(sorted, n / 2, n / 2, m);
    } else {
      assert RealLe(sorted[n / 2 - 1], sorted[n / 2]);
      SplitCounts(sorted, n / 2 - 1, n / 2, m);
    }
  }

  // The median does not depend on the order of the values, and turning the values round turns it round: of two
  // middle values it is the middle.
  lemma MedianIsFair(values: seq<real>, others: seq<real>, c: real)
    requires values != []
    ensures multiset(values) == multiset(others) ==> others != [] && Median(others) == Median(values)
    ensures Median(Map(Turned(c), values)) == c - Median(values)
  {
    hide Sort, Median;
    if multiset(values) == multiset(others) {
      MultisetMembers(values, others);
      MedianReordered(values, others);
    }
    MedianTurned(values, c);
  }

  lemma MedianReordered(values: seq<real>, others: seq<real>)
    requires values != [] && others != [] && multiset(values) == multiset(others)
    ensures Median(others) == Median(values)
  {
    hide Sort;
    RealOrder();
    SortUnique(RealLe, values, others);
  }

  lemma MedianTurned(values: seq<real>, c: real)
    requires values != []
    ensures Median(Map(Turned(c), values)) == c - Median(values)
  {
    hide Sort;
    TurnedSort(values, c);
    var sorted, back := Sort(RealLe, values), Sort(RealLe, Map(Turned(c), values));
    var n := |sorted|;
    assert back[n / 2] == c - sorted[n - 1 - n / 2];
    if n % 2 == 0 { assert back[n / 2 - 1] == c - sorted[n / 2]; }
  }

  function Turned(c: real): real -> real { (x: real) => c - x }

  function Backwards(values: seq<real>): (r: seq<real>)
    ensures |r| == |values| && forall i :: 0 <= i < |r| ==> r[i] == values[|values| - 1 - i]
  {
    seq(|values|, i requires 0 <= i < |values| => values[|values| - 1 - i])
  }

  lemma {:induction false} BackwardsReorders(values: seq<real>)
    ensures multiset(Backwards(values)) == multiset(values)
  {
    if values == [] {
      assert Backwards(values) == values;
    } else {
      BackwardsReorders(values[1..]);
      assert Backwards(values) == Backwards(values[1..]) + [values[0]];
      assert values == [values[0]] + values[1..];
    }
  }

  lemma TurnedSort(values: seq<real>, c: real)
    ensures Sort(RealLe, Map(Turned(c), values)) == Backwards(Map(Turned(c), Sort(RealLe, values)))
  {
    hide Sort;
    var sorted := Sort(RealLe, values);
    var turned := Map(Turned(c), sorted);
    RealOrder();
    SortSorted(RealLe, values);
    SortSorted(RealLe, Map(Turned(c), values));
    MapReordered(Turned(c), values, sorted);
    BackwardsReorders(turned);
    var back := Backwards(turned);
    forall i, j | 0 <= i < j < |back| ensures RealLe(back[i], back[j]) {
      assert RealLe(sorted[|sorted| - 1 - j], sorted[|sorted| - 1 - i]);
    }
    SortedUnique(RealLe, Sort(RealLe, Map(Turned(c), values)), back);
  }

  lemma StatisticsSummarise(values: seq<real>, deviation: seq<real> -> real)
    requires values != []
    ensures Summarises(SampleStatistics(values, deviation), values)
  {
    hide Median, CountOf, Sum;
    MedianHalves(values);
    var n := |values| as real;
    assert n > 0.0 && Sum(values) / n * n == Sum(values);
  }

  // The statistics of non-negative samples always pass the report validator.
  lemma StatisticsPass(values: seq<real>, deviation: seq<real> -> real)
    requires values != [] && (forall x :: x in values ==> x >= 0.0) && (forall xs :: deviation(xs) >= 0.0)
    ensures StatisticsOk(SampleStatistics(values, deviation), |values|)
  {
    hide Median, Mean;
    MeanBetween(values);
    MedianBetween(values);
    var s := SampleStatistics(values, deviation);
    if s.mean != 0.0 { Ratio(s.stddev, s.mean); }
  }

  lemma Ratio(a: real, b: real)
    requires a >= 0.0 && b > 0.0
    ensures a / b >= 0.0
  {
  }

  // ---- Aggregates ----

  datatype Aggregate = Aggregate(
    selector: Selector, repetitions: int, throughput: Statistics, p99: Statistics, errors: int, retries: int)

  function ThroughputOf(s: Sample): real { s.throughput }
  function P99Of(s: Sample): real { s.p99 }
  function ErrorsOf(s: Sample): int { s.errors }
  function RetriesOf(s: Sample): int { s.retries }
  function CountIn(a: Aggregate): int { a.repetitions }
  function AggregateSelector(a: Aggregate): Selector { a.selector }

  function AggregateGroup(k: Selector, group: seq<Sample>, deviation: seq<real> -> real): Aggregate
    requires group != []
  {
    Aggregate(k, |group|, SampleStatistics(Map(ThroughputOf, group), deviation),
              SampleStatistics(Map(P99Of, group), deviation),
              SumOf(ErrorsOf, group), SumOf(RetriesOf, group))
  }

  predicate SelectorLe(a: Selector, b: Selector) { KeyLe(SelectorKey(a), SelectorKey(b)) }

  function SelectorKey(s: Selector): Key {
    [Text(s.transport), Text(s.operation), Number(s.inFlight), Number(s.clients), Number(s.registers)]
  }

  // Groups by selector, as a dictionary and the order its keys were first met in.
  ghost predicate Grouped(samples: seq<Sample>, groups: map<Selector, seq<Sample>>, order: seq<Selector>) {
    && NoRepeats(order) && (forall k :: k in order <==> k in groups)
    && (forall k :: k in groups ==> groups[k] == Group(samples, k) && groups[k] != [])
    && forall s :: s in samples ==> s.key.selector in groups
  }

  method GroupSamples(samples: seq<Sample>) returns (groups: map<Selector, seq<Sample>>, order: seq<Selector>)
    ensures Grouped(samples, groups, order)
  {
    hide Filter;
    groups, order := map[], [];
    var i := 0;
    while i < |samples|
      invariant 0 <= i <= |samples|
      invariant Grouped(samples[..i], groups, order)
    {
      var s := samples[i];
      var k := s.key.selector;
      PrefixStep(samples, i);
      forall j ensures Group(samples[..i + 1], j) == Group(samples[..i], j) + if j == k then [s] else [] {
        GroupStep(samples[..i], s, j);
      }
      if k in groups {
        groups := groups[k := groups[k] + [s]];
      } else {
        assert Group(samples[..i], k) == [] by { NoSuchGroup(samples[..i], k, groups); }
        groups := groups[k := [s]];
        order := order + [k];
      }
      i := i + 1;
    }
    assert samples[..i] == samples;
  }

  lemma GroupStep(samples: seq<Sample>, s: Sample, k: Selector)
    ensures Group(samples + [s], k) == Group(samples, k) + if k == s.key.selector then [s] else []
  {
    FilterConcat(HasSelector(k), samples, [s]);
    assert Filter(HasSelector(k), [s]) == if k == s.key.selector then [s] else [];
  }

  lemma {:induction false} NoSuchGroup(samples: seq<Sample>, k: Selector, groups: map<Selector, seq<Sample>>)
    requires (forall s :: s in samples ==> s.key.selector in groups) && k !in groups
    ensures Group(samples, k) == []
  {
    if samples != [] {
      assert samples[0] in samples && forall s :: s in samples[1..] ==> s in samples;
      NoSuchGroup(samples[1..], k, groups);
    }
  }

  function AggregatesOf(samples: seq<Sample>, order: seq<Selector>, deviation: seq<real> -> real): (r: seq<Aggregate>)
    requires forall k :: k in order ==> Group(samples, k) != []
    ensures |r| == |order|
    ensures forall i :: 0 <= i < |r| ==> r[i] == AggregateGroup(order[i], Group(samples, order[i]), deviation)
  {
    seq(|order|, i requires 0 <= i < |order| => AggregateGroup(order[i], Group(samples, order[i]), deviation))
  }

  // The selectors met, in canonical order.
  ghost predicate IsOrder(samples: seq<Sample>, order: seq<Selector>) {
    && NoRepeats(order) && Sorted(SelectorLe, order)
    && (forall s :: s in samples ==> s.key.selector in order)
    && forall k :: k in order ==> Group(samples, k) != []
  }

  lemma SelectorOrder()
    ensures TotalPreorder(SelectorLe)
  {
    forall a, b ensures SelectorLe(a, b) || SelectorLe(b, a) { KeyLeTotal(SelectorKey(a), SelectorKey(b)); }
    forall a, b, c | SelectorLe(a, b) && SelectorLe(b, c) ensures SelectorLe(a, c) {
      KeyLeTransitive(SelectorKey(a), SelectorKey(b), SelectorKey(c));
    }
  }

  lemma SortedOrder(samples: seq<Sample>, groups: map<Selector, seq<Sample>>, order: seq<Selector>)
    requires Grouped(samples, groups, order)
    ensures IsOrder(samples, Sort(SelectorLe, order))
  {
    hide Sort, SelectorLe, Filter;
    SelectorOrder();
    SortSorted(SelectorLe, order);
    var sorted := Sort(SelectorLe, order);
    MultisetMembers(order, sorted);
    assert DistinctKeys(SameSelector, order);
    DistinctKeysReordered(SameSelector, order, sorted);
    assert NoRepeats(sorted) by {
      forall i, j | 0 <= i < j < |sorted| ensures sorted[i] != sorted[j] {
        assert SameSelector(sorted[i]) != SameSelector(sorted[j]);
      }
    }
  }

  function SameSelector(s: Selector): Selector { s }

  // Every key is well-formed and the samples are complete.
  ghost predicate Acceptable(samples: seq<Sample>, expected: seq<SampleKey>) {
    && (forall k :: k in expected ==> SampleKeyOk(k)) && (forall s :: s in samples ==> SampleKeyOk(s.key))
    && Complete(samples, expected)
  }

  method CheckComplete(samples: seq<Sample>, expected: seq<SampleKey>) returns (ok: bool)
    ensures ok <==> Acceptable(samples, expected)
  {
    hide SampleKeyOk, DistinctKeys, NoRepeats;
    if exists k | k in expected :: !SampleKeyOk(k) { return false; }
    if exists s | s in samples :: !SampleKeyOk(s.key) { return false; }
    var keys := Map(KeyOfSample, samples);
    var counts := multiset(keys);
    RepeatsCounted(keys);
    DistinctMap(KeyOfSample, samples);
    if exists i | 0 <= i < |keys| :: counts[keys[i]] > 1 { return false; }
    var missing := set k | k in expected && k !in keys;
    var extra := set k | k in keys && k !in expected;
    assert forall k :: k in expected && k !in keys ==> k in missing;
    assert forall k :: k in keys && k !in expected ==> k in extra;
    ok := missing == {} && extra == {};
  }

  method AggregateStressSamples(samples: seq<Sample>, expected: seq<SampleKey>, deviation: seq<real> -> real)
    returns (r: Option<seq<Aggregate>>)
    ensures r.Some? <==> Acceptable(samples, expected)
    ensures r.Some? ==> IsAggregation(samples, deviation, r.value)
  {
    hide Acceptable, Group, AggregateGroup, Sort, IsOrder;
    var complete := CheckComplete(samples, expected);
    if !complete { return None; }
    var groups, order := GroupSamples(samples);
    SortedOrder(samples, groups, order);
    var sorted := Sort(SelectorLe, order);
    OrderHasGroups(samples, sorted);
    MultisetMembers(order, sorted);
    r := Some(seq(|sorted|, i requires 0 <= i < |sorted| && sorted[i] in groups && groups[sorted[i]] != [] =>
                    AggregateGroup(sorted[i], groups[sorted[i]], deviation)));
    assert r.value == AggregatesOf(samples, sorted, deviation);
    assert IsAggregation(samples, deviation, r.value);
  }

  // One aggregate per selector met, in canonical order.
  ghost predicate IsAggregation(samples: seq<Sample>, deviation: seq<real> -> real, aggregates: seq<Aggregate>) {
    exists order :: IsOrder(samples, order) && aggregates == AggregatesOf(samples, order, deviation)
  }

  lemma OrderHasGroups(samples: seq<Sample>, order: seq<Selector>)
    requires IsOrder(samples, order)
    ensures forall k :: k in order ==> Group(samples, k) != []
  {
  }

  // ---- Aggregates of a complete set ----

  lemma GroupMember(samples: seq<Sample>, k: Selector) returns (s: Sample)
    requires Group(samples, k) != []
    ensures s in samples && s.key.selector == k
  {
    s := Group(samples, k)[0];
    assert s in Group(samples, k);
  }

  lemma OrderIsSelectors(samples: seq<Sample>, mode: string, repetitions: int, order: seq<Selector>)
    requires samples != [] && Complete(samples, StressScenarios(mode, repetitions)) && IsOrder(samples, order)
    ensures repetitions >= 1 && multiset(order) == multiset(Selectors(mode))
  {
    hide Product, Selectors, Group, SelectorLe;
    SelectorsDistinct(mode);
    var keys := Map(KeyOfSample, samples);
    forall s | s in samples ensures s.key in keys { var i := Find(samples, s); assert keys[i] == s.key; }
    assert samples[0] in samples;
    ProductMember(Selectors(mode), repetitions, samples[0].key);
    forall k ensures k in order <==> k in Selectors(mode) {
      if k in order {
        var s := GroupMember(samples, k);
        ProductMember(Selectors(mode), repetitions, s.key);
      }
      if k in Selectors(mode) {
        ProductMember(Selectors(mode), repetitions, SampleKey(k, 1));
        var j := Find(keys, SampleKey(k, 1));
        assert samples[j] in samples && samples[j].key.selector == k;
      }
    }
    SameMembers(order, Selectors(mode));
  }

  lemma {:induction false} SumConstant<T>(f: T -> int, xs: seq<T>, n: int)
    requires forall x :: x in xs ==> f(x) == n
    ensures SumOf(f, xs) == |xs| * n
  {
    if xs != [] {
      assert xs[0] in xs && forall x :: x in xs[1..] ==> x in xs;
      SumConstant(f, xs[1..], n);
      assert |xs| * n == n + |xs[1..]| * n;
    }
  }

  // Every aggregate of a complete set counts the same repetitions, one aggregate stands for each operation
  // and depth of the mode, and together they account for every sample.
  lemma AggregatesAreUniform(samples: seq<Sample>, mode: string, repetitions: int, deviation: seq<real> -> real,
                             aggregates: seq<Aggregate>)
    requires samples != [] && Complete(samples, StressScenarios(mode, repetitions))
    requires IsAggregation(samples, deviation, aggregates)
    ensures forall a :: a in aggregates ==> a.repetitions == repetitions
    ensures multiset(Map(AggregateSelector, aggregates)) == multiset(Selectors(mode))
    ensures SumOf(CountIn, aggregates) == |samples|
  {
    hide Product, Selectors, Group, SelectorLe, SampleStatistics;
    var order :| IsOrder(samples, order) && aggregates == AggregatesOf(samples, order, deviation);
    OrderIsSelectors(samples, mode, repetitions, order);
    assert Map(AggregateSelector, aggregates) == order;
    MultisetMembers(order, Selectors(mode));
    forall a | a in aggregates ensures CountIn(a) == repetitions {
      var i := Find(aggregates, a);
      assert order[i] in order;
      GroupRepetitions(samples, mode, repetitions, order[i]);
    }
    SumConstant(CountIn, aggregates, repetitions);
    CompleteIsPermutation(samples, mode, repetitions);
    MultisetMembers(Map(KeyOfSample, samples), StressScenarios(mode, repetitions));
    ProductLength(Selectors(mode), repetitions);
  }
}
