/** Comparing two reports: scenarios are paired by complete identity and each metric's observed delta is
    recorded. */
module Comparison {
  import opened Sorting
  import opened Folds
  import opened Indexing
  import opened Paths
  import opened Reports

  datatype Delta = Delta(baseline: real, candidate: real, difference: real, unit: string)
  datatype Observations = StressDeltas(p99: Delta, throughput: Delta) | CriterionDelta(mean: Delta)
  datatype Pairing = Pairing(projection: Projection, observations: Observations)
  datatype Comparison = Comparison(baseline: Operand, candidate: Operand, pairings: seq<Pairing>)

  // ---- Building ----

  function Observed(baseline: real, candidate: real, unit: string): Delta {
    Delta(baseline, candidate, candidate - baseline, unit)
  }

  // The observation of two scenarios with the same key; a Criterion pair needs one confidence level.
  function Observe(b: Scenario, c: Scenario): Option<Pairing> {
    match (b.metrics, c.metrics)
    case (StressMetrics(p, t), StressMetrics(p', t')) =>
      if b.projection.kind != STRESS || p.unit != p'.unit || p.unit != "milliseconds" || t.unit != t'.unit
         || t.unit != "operations_per_second" then None
      else Some(Pairing(b.projection,
                        StressDeltas(Observed(p.recorded.mean, p'.recorded.mean, "ms"),
                                     Observed(t.recorded.mean, t'.recorded.mean, "operations_per_second"))))
    case (CriterionMetrics(e), CriterionMetrics(e')) =>
      if b.projection.kind != CRITERION || e.unit != e'.unit || e.unit != "nanoseconds" || e.confidence != e'.confidence
      then None
      else Some(Pairing(b.projection, CriterionDelta(Observed(e.point, e'.point, "ns"))))
    case _ => None
  }

  // The index of a report's scenarios by key; a repeated key has no index.
  function Index(scenarios: seq<Scenario>): Option<map<Key, Scenario>> {
    if scenarios == [] then Some(map[])
    else
      var last := scenarios[|scenarios| - 1];
      match Index(scenarios[..|scenarios| - 1])
      case None => None
      case Some(index) => if ScenarioKey(last) in index then None else Some(index[ScenarioKey(last) := last])
  }

  ghost predicate AllObserved(keys: seq<Key>, b: map<Key, Scenario>, c: map<Key, Scenario>)
    requires forall k :: k in keys ==> k in b && k in c
  {
    forall k :: k in keys ==> Observe(b[k], c[k]).Some?
  }

  ghost function Pairings(keys: seq<Key>, b: map<Key, Scenario>, c: map<Key, Scenario>): (r: seq<Pairing>)
    requires forall k :: k in keys ==> k in b && k in c
    requires AllObserved(keys, b, c)
    ensures |r| == |keys| && forall i :: 0 <= i < |r| ==> Some(r[i]) == Observe(b[keys[i]], c[keys[i]])
  {
    if keys == [] then []
    else
      assert keys[0] in keys && forall k :: k in keys[1..] ==> k in keys;
      [Observe(b[keys[0]], c[keys[0]]).value] + Pairings(keys[1..], b, c)
  }

  function SortedKeys(scenarios: seq<Scenario>): (r: seq<Key>)
    ensures multiset(r) == multiset(Map(ScenarioKey, scenarios))
  {
    Sort(KeyLe, Map(ScenarioKey, scenarios))
  }

  ghost function Build(b: Report, c: Report, producers: seq<Producer>): Option<Comparison> {
    if !ReportOk(b, producers) || !ReportOk(c, producers) || b.operand.producers != c.operand.producers
       || b.operand.run.mode != c.operand.run.mode then None
    else
      match (Index(b.scenarios), Index(c.scenarios))
      case (Some(x), Some(y)) =>
        IndexIs(b.scenarios);
        KeysOfIndex(b.scenarios, x);
        if x.Keys != y.Keys || !AllObserved(SortedKeys(b.scenarios), x, y) then None
        else Some(Comparison(b.operand, c.operand, Pairings(SortedKeys(b.scenarios), x, y)))
      case _ => None
  }

  // ---- The index ----

  lemma {:induction false} IndexIs(scenarios: seq<Scenario>)
    ensures Index(scenarios).Some? <==> DistinctKeys(ScenarioKey, scenarios)
    ensures Index(scenarios).Some? ==> Indexes(ScenarioKey, scenarios, Index(scenarios).value)
    decreases |scenarios|
  {
    hide DistinctKeys, Indexes, ScenarioKey;
    if scenarios == [] {
      EmptyIndex();
    } else {
      var rest, last := scenarios[..|scenarios| - 1], scenarios[|scenarios| - 1];
      assert scenarios == rest + [last];
      IndexIs(rest);
      if Index(rest).Some? {
        IndexStep(ScenarioKey, rest, last, Index(rest).value);
        if DistinctKeys(ScenarioKey, scenarios) { IndexedKeysDistinct(ScenarioKey, scenarios, Index(scenarios).value); }
      } else if DistinctKeys(ScenarioKey, scenarios) {
        DistinctPrefix(ScenarioKey, rest, [last]);
      }
    }
  }

  // Fills the index in one pass; a repeated key stops it.
  method IndexScenarios(scenarios: seq<Scenario>) returns (index: Option<map<Key, Scenario>>)
    ensures index == Index(scenarios)
    ensures index.Some? <==> DistinctKeys(ScenarioKey, scenarios)
  {
    hide ScenarioKey, DistinctKeys, Indexes;
    var found: map<Key, Scenario> := map[];
    var i := 0;
    while i < |scenarios|
      invariant 0 <= i <= |scenarios| && Index(scenarios[..i]) == Some(found)
    {
      var key := ScenarioKey(scenarios[i]);
      PrefixStep(scenarios, i);
      assert scenarios[..i + 1][..i] == scenarios[..i];
      IndexIs(scenarios[..i + 1]);
      if key in found {
        IndexIs(scenarios);
        if DistinctKeys(ScenarioKey, scenarios) {
          assert scenarios[..i + 1] + scenarios[i + 1..] == scenarios;
          DistinctPrefix(ScenarioKey, scenarios[..i + 1], scenarios[i + 1..]);
        }
        return None;
      }
      found := found[key := scenarios[i]];
      i := i + 1;
    }
    assert scenarios[..i] == scenarios;
    IndexIs(scenarios);
    index := Some(found);
  }

  lemma EmptyIndex()
    ensures DistinctKeys(ScenarioKey, []) && Indexes(ScenarioKey, [], map[])
  {
  }

  lemma KeysOfIndex(scenarios: seq<Scenario>, index: map<Key, Scenario>)
    requires Indexes(ScenarioKey, scenarios, index)
    ensures forall k :: k in SortedKeys(scenarios) <==> k in index
  {
    hide Sort, ScenarioKey;
    var keys := Map(ScenarioKey, scenarios);
    MultisetMembers(SortedKeys(scenarios), keys);
    forall k | k in keys ensures k in index {
      var i := Find(keys, k);
      assert ScenarioKey(scenarios[i]) in index;
    }
    forall k | k in index ensures k in keys {
      var i := Find(scenarios, index[k]);
      assert keys[i] == k;
    }
  }

  // ---- When a comparison is built ----

  ghost predicate SameConfidence(b: Scenario, c: Scenario) {
    b.metrics.CriterionMetrics? && c.metrics.CriterionMetrics? ==>
      b.metrics.mean.confidence == c.metrics.mean.confidence
  }

  function KeySet(scenarios: seq<Scenario>): set<Key> { set s | s in scenarios :: ScenarioKey(s) }

  // Everything two reports must satisfy. Producer records and metric units are not in the list: report
  // validation already fixes them.
  ghost predicate Buildable(b: Report, c: Report, producers: seq<Producer>) {
    && ReportOk(b, producers) && ReportOk(c, producers) && b.operand.run.mode == c.operand.run.mode
    && DistinctKeys(ScenarioKey, b.scenarios) && DistinctKeys(ScenarioKey, c.scenarios)
    && KeySet(b.scenarios) == KeySet(c.scenarios)
    && forall s, t :: s in b.scenarios && t in c.scenarios && ScenarioKey(s) == ScenarioKey(t) ==> SameConfidence(s, t)
  }

  // Two validated scenarios with one key are observable exactly when their confidence levels agree.
  lemma ObserveNeedsConfidence(s: Scenario, t: Scenario)
    requires ScenarioOk(s) && ScenarioOk(t) && ScenarioKey(s) == ScenarioKey(t)
    ensures s.projection == t.projection
    ensures Observe(s, t).Some? <==> SameConfidence(s, t)
  {
    hide RelativePath, Sort, IsCommandId, KeyOf, ScenarioKey, StressIdentityOk, StatisticsOk;
    ValidScenarioHasKey(s);
    ValidScenarioHasKey(t);
    KeyIsComplete(s.projection, t.projection);
  }

  lemma IndexKeys(scenarios: seq<Scenario>, index: map<Key, Scenario>)
    requires Indexes(ScenarioKey, scenarios, index)
    ensures index.Keys == KeySet(scenarios)
  {
  }

  lemma ObservedMeansConfident(b: Report, c: Report, x: map<Key, Scenario>, y: map<Key, Scenario>,
                               producers: seq<Producer>)
    requires ReportOk(b, producers) && ReportOk(c, producers)
    requires Indexes(ScenarioKey, b.scenarios, x) && Indexes(ScenarioKey, c.scenarios, y) && x.Keys == y.Keys
    requires forall k :: k in SortedKeys(b.scenarios) <==> k in x
    ensures AllObserved(SortedKeys(b.scenarios), x, y)
            <==> forall s, t :: s in b.scenarios && t in c.scenarios && ScenarioKey(s) == ScenarioKey(t)
                   ==> SameConfidence(s, t)
  {
    hide ScenarioKey, SortedKeys, Observe, SameConfidence, ScenarioOk, OperandOk;
    if AllObserved(SortedKeys(b.scenarios), x, y) {
      forall s, t | s in b.scenarios && t in c.scenarios && ScenarioKey(s) == ScenarioKey(t)
        ensures SameConfidence(s, t)
      {
        var i := Find(b.scenarios, s);
        var j := Find(c.scenarios, t);
        assert x[ScenarioKey(b.scenarios[i])] == s && y[ScenarioKey(c.scenarios[j])] == t;
        ObserveNeedsConfidence(s, t);
      }
    } else {
      var k :| k in SortedKeys(b.scenarios) && Observe(x[k], y[k]).None?;
      assert x[k] in b.scenarios && y[k] in c.scenarios;
      ObserveNeedsConfidence(x[k], y[k]);
    }
  }

  lemma BuiltExactlyWhenBuildable(b: Report, c: Report, producers: seq<Producer>)
    ensures Build(b, c, producers).Some? <==> Buildable(b, c, producers)
  {
    hide ScenarioKey, SortedKeys, Index, AllObserved, Indexes, KeySet, SameConfidence, ReportOk, Pairings;
    IndexIs(b.scenarios);
    IndexIs(c.scenarios);
    if ReportOk(b, producers) && ReportOk(c, producers) {
      SameProducers(b, c, producers);
      if Index(b.scenarios).Some? && Index(c.scenarios).Some? {
        var x, y := Index(b.scenarios).value, Index(c.scenarios).value;
        KeysOfIndex(b.scenarios, x);
        IndexKeys(b.scenarios, x);
        IndexKeys(c.scenarios, y);
        if x.Keys == y.Keys { ObservedMeansConfident(b, c, x, y, producers); }
      }
    }
  }

  lemma SameProducers(b: Report, c: Report, producers: seq<Producer>)
    requires ReportOk(b, producers) && ReportOk(c, producers)
    ensures b.operand.producers == c.operand.producers
  {
  }

  // ---- What the comparison validator demands ----

  predicate DeltaOk(d: Delta, unit: string) {
    d.unit == unit && d.baseline >= 0.0 && d.candidate >= 0.0 && d.difference == d.candidate - d.baseline
  }

  predicate PairingOk(p: Pairing) {
    && KeyOf(p.projection).Some?
    && if p.projection.kind == STRESS
       then p.observations.StressDeltas? && DeltaOk(p.observations.p99, "ms")
            && DeltaOk(p.observations.throughput, "operations_per_second")
       else p.observations.CriterionDelta? && DeltaOk(p.observations.mean, "ns")
  }

  function PairingKey(p: Pairing): Key {
    match KeyOf(p.projection)
    case Some(key) => key
    case None => []
  }

  ghost predicate ComparisonOk(x: Comparison, producers: seq<Producer>) {
    && OperandOk(x.baseline, producers) && OperandOk(x.candidate, producers)
    && x.baseline.run.mode == x.candidate.run.mode
    && x.pairings != [] && (forall p :: p in x.pairings ==> PairingOk(p))
    && NoRepeats(Map(PairingKey, x.pairings)) && Map(PairingKey, x.pairings) == Sort(KeyLe, Map(PairingKey, x.pairings))
    && (exists p :: p in x.pairings && p.projection.kind == STRESS)
    && (exists p :: p in x.pairings && p.projection.kind == CRITERION)
  }

  // The pairing made for one key, and what it says.
  lemma ObservedPairing(s: Scenario, t: Scenario)
    requires ScenarioOk(s) && ScenarioOk(t) && ScenarioKey(s) == ScenarioKey(t) && Observe(s, t).Some?
    ensures var p := Observe(s, t).value;
            p.projection == s.projection && PairingOk(p) && PairingKey(p) == ScenarioKey(s)
  {
    hide RelativePath, Sort, IsCommandId, KeyOf, StressIdentityOk;
    ValidScenarioHasKey(s);
    ValidScenarioHasKey(t);
    KeyIsComplete(s.projection, t.projection);
  }

  // The pieces a successful build was made from.
  ghost predicate BuiltFrom(b: Report, c: Report, producers: seq<Producer>, x: map<Key, Scenario>,
                            y: map<Key, Scenario>)
  {
    && ReportOk(b, producers) && ReportOk(c, producers) && b.operand.run.mode == c.operand.run.mode
    && Indexes(ScenarioKey, b.scenarios, x) && Indexes(ScenarioKey, c.scenarios, y) && x.Keys == y.Keys
    && Index(b.scenarios) == Some(x) && Index(c.scenarios) == Some(y)
    && (forall k :: k in SortedKeys(b.scenarios) <==> k in x)
    && AllObserved(SortedKeys(b.scenarios), x, y)
    && Build(b, c, producers) == Some(Comparison(b.operand, c.operand, Pairings(SortedKeys(b.scenarios), x, y)))
  }

  lemma Pieces(b: Report, c: Report, producers: seq<Producer>) returns (x: map<Key, Scenario>, y: map<Key, Scenario>)
    requires Build(b, c, producers).Some?
    ensures BuiltFrom(b, c, producers, x, y)
  {
    hide ScenarioKey, SortedKeys, Index, AllObserved, Indexes, ReportOk, Pairings;
    IndexIs(b.scenarios);
    IndexIs(c.scenarios);
    x, y := Index(b.scenarios).value, Index(c.scenarios).value;
    KeysOfIndex(b.scenarios, x);
  }

  // The i-th pairing observes the two scenarios with the i-th key.
  lemma PairingAt(b: Report, c: Report, producers: seq<Producer>, x: map<Key, Scenario>, y: map<Key, Scenario>, i: nat)
    requires BuiltFrom(b, c, producers, x, y) && i < |SortedKeys(b.scenarios)|
    ensures var k := SortedKeys(b.scenarios)[i];
            var p := Pairings(SortedKeys(b.scenarios), x, y)[i];
            && k in x && k in y && Observe(x[k], y[k]) == Some(p) && PairingOk(p) && PairingKey(p) == k
            && x[k] in b.scenarios && y[k] in c.scenarios && ScenarioKey(x[k]) == k == ScenarioKey(y[k])
            && p.projection == x[k].projection == y[k].projection && ScenarioOk(x[k]) && ScenarioOk(y[k])
  {
    hide ScenarioKey, SortedKeys, Index, Observe, ScenarioOk, OperandOk, PairingOk, PairingKey;
    var k := SortedKeys(b.scenarios)[i];
    assert k in SortedKeys(b.scenarios);
    assert x[k] in b.scenarios && y[k] in c.scenarios;
    ObservedPairing(x[k], y[k]);
    ObserveNeedsConfidence(x[k], y[k]);
  }

  lemma SortedKeysDistinct(scenarios: seq<Scenario>)
    requires DistinctKeys(ScenarioKey, scenarios)
    ensures NoRepeats(SortedKeys(scenarios)) && Sorted(KeyLe, SortedKeys(scenarios))
  {
    hide ScenarioKey, Sort;
    var keys := Map(ScenarioKey, scenarios);
    KeyOrder();
    SortSorted(KeyLe, keys);
    DistinctMap(ScenarioKey, scenarios);
    DistinctKeysReordered(Same, keys, SortedKeys(scenarios));
    forall i, j | 0 <= i < j < |SortedKeys(scenarios)| ensures SortedKeys(scenarios)[i] != SortedKeys(scenarios)[j] {
      assert Same(SortedKeys(scenarios)[i]) != Same(SortedKeys(scenarios)[j]);
    }
  }

  function Same(k: Key): Key { k }

  lemma KindIsPaired(b: Report, c: Report, producers: seq<Producer>, x: map<Key, Scenario>, y: map<Key, Scenario>,
                     kind: string)
    requires BuiltFrom(b, c, producers, x, y) && OfKind(b.scenarios, kind) != []
    ensures exists p :: p in Pairings(SortedKeys(b.scenarios), x, y) && p.projection.kind == kind
  {
    hide ScenarioKey, SortedKeys, Index, Observe, ScenarioOk, OperandOk, PairingOk, PairingKey, ReportOk;
    var s := OfKind(b.scenarios, kind)[0];
    assert s in OfKind(b.scenarios, kind);
    var j := Find(b.scenarios, s);
    assert x[ScenarioKey(b.scenarios[j])] == s;
    var i := Find(SortedKeys(b.scenarios), ScenarioKey(s));
    PairingAt(b, c, producers, x, y, i);
    assert Pairings(SortedKeys(b.scenarios), x, y)[i] in Pairings(SortedKeys(b.scenarios), x, y);
  }

  // Whatever is built, the validator accepts.
  lemma BuiltIsAccepted(b: Report, c: Report, producers: seq<Producer>)
    requires Build(b, c, producers).Some?
    ensures ComparisonOk(Build(b, c, producers).value, producers)
  {
    hide ScenarioKey, SortedKeys, Index, Indexes, Observe, ScenarioOk, OperandOk, PairingOk, PairingKey, AllObserved,
         Pairings, OfKind, Sort;
    var x, y := Pieces(b, c, producers);
    var keys := SortedKeys(b.scenarios);
    var pairings := Pairings(keys, x, y);
    forall i | 0 <= i < |keys| ensures PairingOk(pairings[i]) && PairingKey(pairings[i]) == keys[i] {
      PairingAt(b, c, producers, x, y, i);
    }
    assert Map(PairingKey, pairings) == keys;
    IndexedKeysDistinct(ScenarioKey, b.scenarios, x);
    SortedKeysDistinct(b.scenarios);
    SortOfSorted(KeyLe, keys);
    KindIsPaired(b, c, producers, x, y, STRESS);
    KindIsPaired(b, c, producers, x, y, CRITERION);
  }

  // A delta sets two recorded numbers against each other.
  predicate Compares(d: Delta, baseline: real, candidate: real, unit: string) {
    d.baseline == baseline && d.candidate == candidate && d.difference == candidate - baseline && d.unit == unit
  }

  // The pairing compares, metric by metric, what the two scenarios recorded: the means of the repetitions, or
  // the point estimates.
  predicate PairsUp(p: Pairing, s: Scenario, t: Scenario) {
    && p.projection == s.projection == t.projection
    && match p.observations
       case StressDeltas(p99, throughput) =>
         && s.metrics.StressMetrics? && t.metrics.StressMetrics?
         && Compares(p99, s.metrics.p99.recorded.mean, t.metrics.p99.recorded.mean, "ms")
         && Compares(throughput, s.metrics.throughput.recorded.mean, t.metrics.throughput.recorded.mean,
                     "operations_per_second")
       case CriterionDelta(mean) =>
         && s.metrics.CriterionMetrics? && t.metrics.CriterionMetrics?
         && s.metrics.mean.confidence == t.metrics.mean.confidence
         && Compares(mean, s.metrics.mean.point, t.metrics.mean.point, "ns")
  }

  lemma ObservationPairsUp(s: Scenario, t: Scenario)
    requires Observe(s, t).Some? && s.projection == t.projection
    ensures PairsUp(Observe(s, t).value, s, t)
  {
  }

  // Every pairing of a built comparison sets a scenario of one report against the scenario of the other with
  // the same identity, and every scenario of either report is in a pairing.
  lemma BuiltPairsUp(b: Report, c: Report, producers: seq<Producer>)
    requires Build(b, c, producers).Some?
    ensures var x := Build(b, c, producers).value;
            && x.baseline == b.operand && x.candidate == c.operand
            && (forall p :: p in x.pairings ==> exists s, t :: s in b.scenarios && t in c.scenarios && PairsUp(p, s, t))
            && (forall s :: s in b.scenarios ==> exists p :: p in x.pairings && p.projection == s.projection)
            && (forall t :: t in c.scenarios ==> exists p :: p in x.pairings && p.projection == t.projection)
  {
    hide BuiltFrom, Build, PairsUp, Pairings;
    var x, y := Pieces(b, c, producers);
    var pairings := BuiltPairings(b, c, producers, x, y);
    forall p | p in pairings ensures exists s, t :: s in b.scenarios && t in c.scenarios && PairsUp(p, s, t) {
      var i := Find(pairings, p);
      var s, t := PairedScenarios(b, c, producers, x, y, i);
    }
    forall s | s in b.scenarios ensures exists p :: p in pairings && p.projection == s.projection {
      IndexedScenario(b, c, producers, x, y, s);
    }
    forall t | t in c.scenarios ensures exists p :: p in pairings && p.projection == t.projection {
      IndexedScenario(b, c, producers, x, y, t);
    }
  }

  lemma BuiltPairings(b: Report, c: Report, producers: seq<Producer>, x: map<Key, Scenario>, y: map<Key, Scenario>)
    returns (pairings: seq<Pairing>)
    requires BuiltFrom(b, c, producers, x, y)
    ensures Build(b, c, producers) == Some(Comparison(b.operand, c.operand, pairings))
    ensures pairings == Pairings(SortedKeys(b.scenarios), x, y) && |pairings| == |SortedKeys(b.scenarios)|
  {
    hide Build, SortedKeys, Index, Indexes, ReportOk;
    pairings := Pairings(SortedKeys(b.scenarios), x, y);
  }

  lemma PairedScenarios(b: Report, c: Report, producers: seq<Producer>, x: map<Key, Scenario>, y: map<Key, Scenario>,
                        i: nat)
    returns (s: Scenario, t: Scenario)
    requires BuiltFrom(b, c, producers, x, y) && i < |SortedKeys(b.scenarios)|
    ensures s in b.scenarios && t in c.scenarios && PairsUp(Pairings(SortedKeys(b.scenarios), x, y)[i], s, t)
  {
    hide ScenarioKey, SortedKeys, Index, Indexes, Observe, ScenarioOk, PairingOk, PairingKey, ReportOk, PairsUp, Build;
    PairingAt(b, c, producers, x, y, i);
    var k := SortedKeys(b.scenarios)[i];
    s, t := x[k], y[k];
    ObservationPairsUp(s, t);
  }

  lemma IndexedScenario(b: Report, c: Report, producers: seq<Producer>, x: map<Key, Scenario>, y: map<Key, Scenario>,
                        s: Scenario)
    requires BuiltFrom(b, c, producers, x, y) && (s in b.scenarios || s in c.scenarios)
    ensures exists p :: p in Pairings(SortedKeys(b.scenarios), x, y) && p.projection == s.projection
  {
    hide ScenarioKey, SortedKeys, Index, Observe, ScenarioOk, OperandOk, Pairings, ReportOk, AllObserved, Build;
    if s in b.scenarios {
      var j := Find(b.scenarios, s);
      assert x[ScenarioKey(b.scenarios[j])] == s;
    } else {
      var j := Find(c.scenarios, s);
      assert y[ScenarioKey(c.scenarios[j])] == s;
    }
    PairedKey(b, c, producers, x, y, ScenarioKey(s));
  }

  lemma PairedKey(b: Report, c: Report, producers: seq<Producer>, x: map<Key, Scenario>, y: map<Key, Scenario>, k: Key)
    requires BuiltFrom(b, c, producers, x, y) && k in x
    ensures exists p :: p in Pairings(SortedKeys(b.scenarios), x, y)
                        && p.projection == x[k].projection == y[k].projection
  {
    hide ScenarioKey, SortedKeys, Index, Observe, ScenarioOk, OperandOk, PairingOk, PairingKey, Pairings, ReportOk;
    var i := Find(SortedKeys(b.scenarios), k);
    PairingAt(b, c, producers, x, y, i);
    assert Pairings(SortedKeys(b.scenarios), x, y)[i] in Pairings(SortedKeys(b.scenarios), x, y);
  }

  // ---- Order of the scenarios ----

  lemma IndexReordered(xs: seq<Scenario>, ys: seq<Scenario>)
    requires multiset(xs) == multiset(ys)
    ensures Index(xs) == Index(ys)
  {
    hide ScenarioKey, Index;
    IndexIs(xs);
    IndexIs(ys);
    if DistinctKeys(ScenarioKey, xs) { DistinctKeysReordered(ScenarioKey, xs, ys); }
    if DistinctKeys(ScenarioKey, ys) { DistinctKeysReordered(ScenarioKey, ys, xs); }
    if Index(xs).Some? {
      MultisetMembers(xs, ys);
      var x, y := Index(xs).value, Index(ys).value;
      forall k | k in x ensures k in y && y[k] == x[k] { var j := Find(ys, x[k]); assert ScenarioKey(ys[j]) in y; }
      forall k | k in y ensures k in x { var j := Find(xs, y[k]); assert ScenarioKey(xs[j]) in x; }
      assert x == y;
    }
  }

  lemma SortedKeysReordered(xs: seq<Scenario>, ys: seq<Scenario>)
    requires multiset(Map(ScenarioKey, xs)) == multiset(Map(ScenarioKey, ys))
    ensures SortedKeys(xs) == SortedKeys(ys)
  {
    hide ScenarioKey;
    KeyOrder();
    SortUnique(KeyLe, Map(ScenarioKey, xs), Map(ScenarioKey, ys));
  }

  lemma ReportReordered(b: Report, b': Report, producers: seq<Producer>)
    requires b' == b.(scenarios := b'.scenarios) && multiset(b.scenarios) == multiset(b'.scenarios)
    ensures ReportOk(b, producers) ==> ReportOk(b', producers)
  {
    hide ScenarioOk, OperandOk, Filter, SumOf;
    MultisetMembers(b.scenarios, b'.scenarios);
    SumReordered(RepetitionsOf, b.scenarios, b'.scenarios);
    FilterReordered(KindIs(STRESS), b.scenarios, b'.scenarios);
    FilterReordered(KindIs(CRITERION), b.scenarios, b'.scenarios);
    MultisetMembers(OfKind(b.scenarios, STRESS), OfKind(b'.scenarios, STRESS));
    MultisetMembers(OfKind(b.scenarios, CRITERION), OfKind(b'.scenarios, CRITERION));
    if ReportOk(b, producers) {
      DistinctKeysReordered(IdentityOf, OfKind(b.scenarios, STRESS), OfKind(b'.scenarios, STRESS));
      DistinctKeysReordered(SourcesOf, OfKind(b.scenarios, CRITERION), OfKind(b'.scenarios, CRITERION));
    }
  }

  // Permuting the scenarios of either report changes nothing.
  lemma ScenarioOrderIsIrrelevant(b: Report, b': Report, c: Report, c': Report, producers: seq<Producer>)
    requires b' == b.(scenarios := b'.scenarios) && multiset(b.scenarios) == multiset(b'.scenarios)
    requires c' == c.(scenarios := c'.scenarios) && multiset(c.scenarios) == multiset(c'.scenarios)
    ensures Build(b, c, producers) == Build(b', c', producers)
  {
    hide ScenarioKey, SortedKeys, Index, Indexes, AllObserved, Pairings, ReportOk;
    ReportReordered(b, b', producers);
    ReportReordered(b', b, producers);
    ReportReordered(c, c', producers);
    ReportReordered(c', c, producers);
    IndexReordered(b.scenarios, b'.scenarios);
    IndexReordered(c.scenarios, c'.scenarios);
    MapReordered(ScenarioKey, b.scenarios, b'.scenarios);
    SortedKeysReordered(b.scenarios, b'.scenarios);
    assert b.operand == b'.operand && c.operand == c'.operand;
  }

  // ---- Swapping the operands ----

  function Reverse(d: Delta): Delta { Delta(d.candidate, d.baseline, -d.difference, d.unit) }

  function ReversePairing(p: Pairing): Pairing {
    match p.observations
    case StressDeltas(p99, throughput) => Pairing(p.projection, StressDeltas(Reverse(p99), Reverse(throughput)))
    case CriterionDelta(mean) => Pairing(p.projection, CriterionDelta(Reverse(mean)))
  }

  function ReverseComparison(x: Comparison): Comparison {
    Comparison(x.candidate, x.baseline, Map(ReversePairing, x.pairings))
  }

  lemma BuildableSwapped(b: Report, c: Report, producers: seq<Producer>)
    requires Buildable(b, c, producers)
    ensures Buildable(c, b, producers)
  {
    hide ScenarioKey, ReportOk, KeySet, DistinctKeys;
    forall t, s | t in c.scenarios && s in b.scenarios && ScenarioKey(t) == ScenarioKey(s)
      ensures SameConfidence(t, s)
    {
      assert SameConfidence(s, t);
    }
  }

  lemma SortedKeysAgree(b: Report, c: Report, producers: seq<Producer>, x: map<Key, Scenario>, y: map<Key, Scenario>)
    requires BuiltFrom(b, c, producers, x, y)
    ensures SortedKeys(b.scenarios) == SortedKeys(c.scenarios)
  {
    hide ScenarioKey, ReportOk, Index, AllObserved, Pairings, Indexes, Sort, Build;
    IndexedKeysDistinct(ScenarioKey, b.scenarios, x);
    IndexedKeysDistinct(ScenarioKey, c.scenarios, y);
    KeysOfIndex(b.scenarios, x);
    KeysOfIndex(c.scenarios, y);
    var k, l := Map(ScenarioKey, b.scenarios), Map(ScenarioKey, c.scenarios);
    MultisetMembers(SortedKeys(b.scenarios), k);
    MultisetMembers(SortedKeys(c.scenarios), l);
    DistinctMap(ScenarioKey, b.scenarios);
    DistinctMap(ScenarioKey, c.scenarios);
    forall key ensures key in k <==> key in l {
      assert key in k <==> key in x;
    }
    SameMembers(k, l);
    SortedKeysReordered(b.scenarios, c.scenarios);
  }

  lemma ObserveReversed(s: Scenario, t: Scenario)
    requires s.projection == t.projection && Observe(s, t).Some?
    ensures Observe(t, s) == Some(ReversePairing(Observe(s, t).value))
  {
  }

  // Swapping the operands succeeds exactly when the original does, and negates every delta.
  lemma SwappingNegates(b: Report, c: Report, producers: seq<Producer>)
    ensures Build(c, b, producers) ==
            match Build(b, c, producers) { case None => None case Some(x) => Some(ReverseComparison(x)) }
  {
    hide ScenarioKey, SortedKeys, Index, Indexes, AllObserved, Pairings, ReportOk, Buildable, Observe, Build,
         ScenarioOk;
    BuiltExactlyWhenBuildable(b, c, producers);
    BuiltExactlyWhenBuildable(c, b, producers);
    if Build(b, c, producers).Some? {
      BuildableSwapped(b, c, producers);
      var x, y := Pieces(b, c, producers);
      var y', x' := Pieces(c, b, producers);
      SortedKeysAgree(b, c, producers, x, y);
      var keys := SortedKeys(b.scenarios);
      var forth, back := Pairings(keys, x, y), Pairings(keys, y, x);
      forall i | 0 <= i < |keys| ensures back[i] == ReversePairing(forth[i]) {
        PairingAt(b, c, producers, x, y, i);
        PairingAt(c, b, producers, y, x, i);
        ObserveReversed(x[keys[i]], y[keys[i]]);
      }
      assert back == Map(ReversePairing, forth);
    } else if Build(c, b, producers).Some? {
      BuildableSwapped(c, b, producers);
    }
  }

  // ---- A report against itself ----

  predicate ZeroDelta(d: Delta) { d.difference == 0.0 && d.baseline == d.candidate }

  predicate NoChange(p: Pairing) {
    match p.observations
    case StressDeltas(p99, throughput) => ZeroDelta(p99) && ZeroDelta(throughput)
    case CriterionDelta(mean) => ZeroDelta(mean)
  }

  // A valid report can be compared with itself exactly when no two scenarios share a key, and then nothing
  // changed.
  lemma SelfComparison(r: Report, producers: seq<Producer>)
    requires ReportOk(r, producers)
    ensures Build(r, r, producers).Some? <==> DistinctKeys(ScenarioKey, r.scenarios)
    ensures Build(r, r, producers).Some? ==> forall p :: p in Build(r, r, producers).value.pairings ==> NoChange(p)
  {
    hide ScenarioKey, SortedKeys, Index, Indexes, AllObserved, Pairings, ReportOk, Observe, Build, ScenarioOk, KeySet;
    BuiltExactlyWhenBuildable(r, r, producers);
    forall s, t | s in r.scenarios && t in r.scenarios && ScenarioKey(s) == ScenarioKey(t)
                  && DistinctKeys(ScenarioKey, r.scenarios) ensures SameConfidence(s, t) {
      FindByIs(ScenarioKey, r.scenarios, ScenarioKey(s));
    }
    if Build(r, r, producers).Some? {
      var x, y := Pieces(r, r, producers);
      var pairings := Build(r, r, producers).value.pairings;
      forall p | p in pairings ensures NoChange(p) {
        var i := Find(pairings, p);
        PairingAt(r, r, producers, x, y, i);
        assert x == y;
        ObserveSelf(x[SortedKeys(r.scenarios)[i]]);
      }
    }
  }

  lemma ObserveSelf(s: Scenario)
    requires Observe(s, s).Some?
    ensures NoChange(Observe(s, s).value)
  {
  }

  // Validation lets such reports through: any valid stress scenario beside two valid Criterion scenarios
  // with one benchmark ID and different sources makes a valid report without a comparison.
  lemma TwinScenarios(o: Operand, s: Scenario, x: Scenario, y: Scenario, producers: seq<Producer>)
    requires OperandOk(o, producers) && ScenarioOk(s) && ScenarioOk(x) && ScenarioOk(y)
    requires s.projection.kind == STRESS && x.projection.kind == CRITERION
    requires x.projection == y.projection && x.sources != y.sources
    ensures var r := Report(o, [s, x, y], Totals(RepetitionsOf(s), 0, 0, true, true));
            ReportOk(r, producers) && Build(r, r, producers).None?
  {
    hide ScenarioOk, OperandOk, Filter, SumOf, Build, KeyOf;
    var r := Report(o, [s, x, y], Totals(RepetitionsOf(s), 0, 0, true, true));
    assert r.scenarios == [s] + [x, y] && [x, y] == [x] + [y];
    FilterConcat(KindIs(STRESS), [s], [x, y]);
    FilterConcat(KindIs(STRESS), [x], [y]);
    FilterConcat(KindIs(CRITERION), [s], [x, y]);
    FilterConcat(KindIs(CRITERION), [x], [y]);
    SingleFilter(s, STRESS);
    SingleFilter(x, STRESS);
    SingleFilter(y, STRESS);
    SingleFilter(s, CRITERION);
    SingleFilter(x, CRITERION);
    SingleFilter(y, CRITERION);
    SumConcat(RepetitionsOf, [s], [x, y]);
    SumConcat(RepetitionsOf, [x], [y]);
    SingleSum(s);
    SingleSum(x);
    SingleSum(y);
    CriterionHasNoRepetitions(x);
    CriterionHasNoRepetitions(y);
    SelfComparison(r, producers);
    assert ScenarioKey(r.scenarios[1]) == ScenarioKey(r.scenarios[2]);
  }

  lemma SingleFilter(s: Scenario, kind: string)
    ensures OfKind([s], kind) == if s.projection.kind == kind then [s] else []
  {
    var p := KindIs(kind);
    assert [s][1..] == [] && p(s) == (s.projection.kind == kind);
    assert Filter(p, [s]) == (if p([s][0]) then [[s][0]] else []) + Filter(p, [s][1..]);
  }

  lemma SingleSum(s: Scenario)
    ensures SumOf(RepetitionsOf, [s]) == RepetitionsOf(s)
  {
  }

  lemma CriterionHasNoRepetitions(s: Scenario)
    requires ScenarioOk(s) && s.projection.kind == CRITERION
    ensures RepetitionsOf(s) == 0
  {
  }
}
