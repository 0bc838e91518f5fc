/** Set and scenario identities of a report, and the link between them: a set digest fixes the index a
    budget rule is matched against. Digests are functions of the canonical value they are taken of. */
module ScenarioSets {
  import opened Sorting
  import opened Indexing
  import opened Contract
  import opened Reports

  // `producers` and `scenarios` digest a sorted set, `scenario` digests one identity; `text` is the
  // canonical text scenarios are sorted by.
  datatype Encoding = Encoding(
    producers: seq<Producer> -> string, scenarios: seq<Projection> -> string, scenario: Projection -> string,
    text: Projection -> string)

  // ---- Sets ----

  function ProducerId(p: Producer): string { p.id }
  predicate ProducerLe(a: Producer, b: Producer) { StringLe(a.id, b.id) }
  predicate ProducerOk(p: Producer) { p.adapter != "" && p.id != "" && p.producer != "" && p.version != "" }

  ghost function ProducerSet(e: Encoding, producers: seq<Producer>): Option<string> {
    if producers == [] || !DistinctKeys(ProducerId, producers) || exists p :: p in producers && !ProducerOk(p) then None
    else Some(e.producers(Sort(ProducerLe, producers)))
  }

  function ProjectionOf(s: Scenario): Projection { s.projection }
  function ProjectionKey(p: Projection): Key { match KeyOf(p) case Some(key) => key case None => [] }
  function TextLe(text: Projection -> string): (Projection, Projection) -> bool {
    (a: Projection, b: Projection) => StringLe(text(a), text(b))
  }

  ghost function ScenarioSet(e: Encoding, projections: seq<Projection>): Option<string> {
    if projections == [] || (exists p :: p in projections && KeyOf(p).None?)
       || !DistinctKeys(ProjectionKey, projections)
    then None
    else Some(e.scenarios(Sort(TextLe(e.text), projections)))
  }

  method ProducerSetIdentity(e: Encoding, producers: seq<Producer>) returns (digest: Option<string>)
    ensures digest == ProducerSet(e, producers)
  {
    hide ProducerOk, DistinctKeys;
    if producers == [] { return None; }
    var seen: set<string> := {};
    var i := 0;
    NothingSeen(ProducerId, producers);
    while i < |producers|
      invariant 0 <= i <= |producers|
      invariant DistinctKeys(ProducerId, producers[..i]) && Seen(ProducerId, producers[..i], seen)
      invariant forall k :: 0 <= k < i ==> ProducerOk(producers[k])
    {
      var p := producers[i];
      PrefixStep(producers, i);
      SeenStep(ProducerId, producers[..i], p, seen);
      if !ProducerOk(p) { assert p in producers; return None; }
      if p.id in seen {
        RepeatRejects(ProducerId, producers, i);
        return None;
      }
      seen := seen + {p.id};
      i := i + 1;
    }
    assert producers[..i] == producers;
    digest := Some(e.producers(Sort(ProducerLe, producers)));
  }

  method ScenarioSetIdentity(e: Encoding, projections: seq<Projection>) returns (digest: Option<string>)
    ensures digest == ScenarioSet(e, projections)
  {
    hide KeyOf, DistinctKeys;
    if projections == [] { return None; }
    var seen: set<Key> := {};
    var i := 0;
    NothingSeen(ProjectionKey, projections);
    while i < |projections|
      invariant 0 <= i <= |projections|
      invariant DistinctKeys(ProjectionKey, projections[..i]) && Seen(ProjectionKey, projections[..i], seen)
      invariant forall k :: 0 <= k < i ==> KeyOf(projections[k]).Some?
    {
      var p := projections[i];
      PrefixStep(projections, i);
      SeenStep(ProjectionKey, projections[..i], p, seen);
      if KeyOf(p).None? { assert p in projections; return None; }
      if KeyOf(p).value in seen {
        RepeatRejects(ProjectionKey, projections, i);
        return None;
      }
      seen := seen + {KeyOf(p).value};
      i := i + 1;
    }
    assert projections[..i] == projections;
    digest := Some(e.scenarios(Sort(TextLe(e.text), projections)));
  }

  // The digests of two sets tell the sets apart, and those of a report's scenarios tell the scenarios apart.
  ghost predicate SetsTold(e: Encoding, a: seq<Projection>, b: seq<Projection>) {
    var x, y := Sort(TextLe(e.text), a), Sort(TextLe(e.text), b);
    e.scenarios(x) == e.scenarios(y) ==> x == y
  }

  ghost predicate ScenariosTold(e: Encoding, projections: seq<Projection>) {
    forall i, j :: 0 <= i < j < |projections| && e.scenario(projections[i]) == e.scenario(projections[j]) ==>
      projections[i] == projections[j]
  }

  // Equal set digests mean equal sets.
  lemma EqualDigestsEqualSets(e: Encoding, a: seq<Projection>, b: seq<Projection>)
    requires SetsTold(e, a, b) && ScenarioSet(e, a).Some? && ScenarioSet(e, a) == ScenarioSet(e, b)
    ensures multiset(a) == multiset(b)
  {
    hide KeyOf;
    var x, y := Sort(TextLe(e.text), a), Sort(TextLe(e.text), b);
    assert x == y;
  }

  // ---- Individual scenarios ----

  datatype Descriptor = Descriptor(metric: string, unit: string, direction: string, reportUnit: string)

  // The metrics each kind of scenario reports, in document order.
  function Correspondence(kind: string): seq<Descriptor> {
    if kind == STRESS then
      [Descriptor("p99_latency", "ms", "maximum", "milliseconds"),
       Descriptor("throughput", "operations_per_second", "minimum", "operations_per_second")]
    else if kind == CRITERION then [Descriptor("mean_estimate", "ns", "maximum", "nanoseconds")]
    else []
  }

  // The unit a scenario records a metric in, if it records that metric.
  function RecordedUnit(s: Scenario, metric: string): Option<string> {
    match s.metrics
    case StressMetrics(p99, throughput) =>
      if metric == "p99_latency" then Some(p99.unit)
      else if metric == "throughput" then Some(throughput.unit)
      else None
    case CriterionMetrics(mean) => if metric == "mean_estimate" then Some(mean.unit) else None
  }

  datatype Recorded = RecordedSummary(summary: Summary) | RecordedEstimate(estimate: Estimate)

  // The record of one metric.
  function RecordOf(m: Metrics, metric: string): Option<Recorded> {
    match m
    case StressMetrics(p99, throughput) =>
      if metric == "p99_latency" then Some(RecordedSummary(p99))
      else if metric == "throughput" then Some(RecordedSummary(throughput))
      else None
    case CriterionMetrics(mean) => if metric == "mean_estimate" then Some(RecordedEstimate(mean)) else None
  }

  predicate MetricsFit(s: Scenario) {
    && (s.projection.kind == STRESS ==> s.metrics.StressMetrics?)
    && (s.projection.kind == CRITERION ==> s.metrics.CriterionMetrics?)
    && forall i :: 0 <= i < |Correspondence(s.projection.kind)| ==>
         var d := Correspondence(s.projection.kind)[i]; RecordedUnit(s, d.metric) == Some(d.reportUnit)
  }

  datatype Entry = Entry(projection: Projection, descriptors: seq<Descriptor>, recorded: Metrics)

  function EntryOf(s: Scenario): Entry { Entry(s.projection, Correspondence(s.projection.kind), s.metrics) }
  function DigestOf(e: Encoding): Scenario -> string { (s: Scenario) => e.scenario(s.projection) }

  ghost predicate Indexable(e: Encoding, scenarios: seq<Scenario>) {
    && (forall s :: s in scenarios ==> KeyOf(s.projection).Some? && MetricsFit(s))
    && DistinctKeys(DigestOf(e), scenarios)
  }

  // `index` holds exactly the scenarios, each under its digest.
  ghost predicate IsIndex(e: Encoding, scenarios: seq<Scenario>, index: map<string, Entry>) {
    && (forall i :: 0 <= i < |scenarios| ==>
          e.scenario(scenarios[i].projection) in index
          && index[e.scenario(scenarios[i].projection)] == EntryOf(scenarios[i]))
    && (forall d :: d in index ==> exists i :: 0 <= i < |scenarios| && e.scenario(scenarios[i].projection) == d)
  }

  method IndividualIndex(e: Encoding, scenarios: seq<Scenario>) returns (index: Option<map<string, Entry>>)
    ensures index.Some? <==> Indexable(e, scenarios)
    ensures index.Some? ==> IsIndex(e, scenarios, index.value)
  {
    hide KeyOf, MetricsFit, EntryOf;
    var entries: map<string, Entry> := map[];
    var i := 0;
    while i < |scenarios|
      invariant 0 <= i <= |scenarios|
      invariant IsIndex(e, scenarios[..i], entries)
      invariant DistinctKeys(DigestOf(e), scenarios[..i])
      invariant forall j :: 0 <= j < i ==> KeyOf(scenarios[j].projection).Some? && MetricsFit(scenarios[j])
    {
      var s := scenarios[i];
      var digest := e.scenario(s.projection);
      PrefixStep(scenarios, i);
      if KeyOf(s.projection).None? || digest in entries || !MetricsFit(s) {
        NotIndexable(e, scenarios, i, entries);
        return None;
      }
      EntryStep(e, scenarios[..i], s, entries);
      entries := entries[digest := EntryOf(s)];
      i := i + 1;
    }
    assert scenarios[..i] == scenarios;
    index := Some(entries);
  }

  lemma NotIndexable(e: Encoding, scenarios: seq<Scenario>, i: nat, index: map<string, Entry>)
    requires i < |scenarios| && IsIndex(e, scenarios[..i], index)
    requires var s := scenarios[i]; KeyOf(s.projection).None? || e.scenario(s.projection) in index || !MetricsFit(s)
    ensures !Indexable(e, scenarios)
  {
    hide KeyOf, MetricsFit, EntryOf;
    var s := scenarios[i];
    assert s in scenarios;
    if e.scenario(s.projection) in index {
      var j :| 0 <= j < i && e.scenario(scenarios[..i][j].projection) == e.scenario(s.projection);
      assert DigestOf(e)(scenarios[j]) == DigestOf(e)(scenarios[i]);
    }
  }

  lemma EntryStep(e: Encoding, scenarios: seq<Scenario>, s: Scenario, index: map<string, Entry>)
    requires IsIndex(e, scenarios, index) && DistinctKeys(DigestOf(e), scenarios) && e.scenario(s.projection) !in index
    ensures IsIndex(e, scenarios + [s], index[e.scenario(s.projection) := EntryOf(s)])
    ensures DistinctKeys(DigestOf(e), scenarios + [s])
  {
    hide EntryOf;
    var all := scenarios + [s];
    var index' := index[e.scenario(s.projection) := EntryOf(s)];
    assert all[|scenarios|] == s;
    forall d | d in index' ensures exists i :: 0 <= i < |all| && e.scenario(all[i].projection) == d {
      if d in index {
        var i :| 0 <= i < |scenarios| && e.scenario(scenarios[i].projection) == d;
        assert all[i] == scenarios[i];
      }
    }
  }

  // A report with a scenario-set identity and fitting metrics always has an index: the duplicate test of
  // the index repeats the one already made on the keys.
  lemma SetHasIndex(e: Encoding, scenarios: seq<Scenario>)
    requires ScenariosTold(e, Map(ProjectionOf, scenarios)) && ScenarioSet(e, Map(ProjectionOf, scenarios)).Some?
    requires forall s :: s in scenarios ==> MetricsFit(s)
    ensures Indexable(e, scenarios)
  {
    hide KeyOf, MetricsFit;
    var projections := Map(ProjectionOf, scenarios);
    forall s | s in scenarios ensures KeyOf(s.projection).Some? {
      var i := Find(scenarios, s);
      assert projections[i] in projections;
    }
    forall i, j | 0 <= i < j < |scenarios| ensures DigestOf(e)(scenarios[i]) != DigestOf(e)(scenarios[j]) {
      assert ProjectionKey(projections[i]) != ProjectionKey(projections[j]);
    }
  }

  // ---- Matching a budget rule ----

  predicate Describes(d: Descriptor, rule: Budget) {
    d.metric == rule.metric && d.unit == rule.unit && d.direction == rule.direction
  }

  predicate Matches(index: map<string, Entry>, rule: Budget) {
    && rule.identity in index
    && exists i :: 0 <= i < |index[rule.identity].descriptors| && Describes(index[rule.identity].descriptors[i], rule)
  }

  // The rules that speak of a scenario: by its kind, the metric, the unit and the direction of the limit.
  predicate Measures(rule: Budget, s: Scenario) {
    var asked := (rule.metric, rule.unit, rule.direction);
    || (s.projection.kind == "tcp_stress" && asked == ("p99_latency", "ms", "maximum"))
    || (s.projection.kind == "tcp_stress" && asked == ("throughput", "operations_per_second", "minimum"))
    || (s.projection.kind == "criterion_estimate" && asked == ("mean_estimate", "ns", "maximum"))
  }

  // `recorded` is what the metrics hold under the metric's name, in its report unit.
  predicate RecordsMetric(m: Metrics, metric: string, recorded: Option<Recorded>) {
    || (metric == "p99_latency" && m.StressMetrics? && m.p99.unit == "milliseconds"
        && recorded == Some(RecordedSummary(m.p99)))
    || (metric == "throughput" && m.StressMetrics? && m.throughput.unit == "operations_per_second"
        && recorded == Some(RecordedSummary(m.throughput)))
    || (metric == "mean_estimate" && m.CriterionMetrics? && m.mean.unit == "nanoseconds"
        && recorded == Some(RecordedEstimate(m.mean)))
  }

  // A rule matches a scenario exactly when it measures it.
  lemma MatchIsMeasure(s: Scenario, rule: Budget)
    ensures var all := Correspondence(s.projection.kind);
            (exists i :: 0 <= i < |all| && Describes(all[i], rule)) <==> Measures(rule, s)
  {
    var all := Correspondence(s.projection.kind);
    if Measures(rule, s) {
      if rule.metric == "throughput" {
        assert Describes(all[1], rule);
      } else {
        assert Describes(all[0], rule);
      }
    }
  }

  // What a matching rule names is recorded, in the unit the report uses for it.
  lemma MatchedMetricIsRecorded(s: Scenario, rule: Budget)
    requires MetricsFit(s) && Measures(rule, s)
    ensures RecordsMetric(s.metrics, rule.metric, RecordOf(s.metrics, rule.metric))
  {
    var all := Correspondence(s.projection.kind);
    if s.projection.kind == STRESS {
      assert RecordedUnit(s, all[0].metric) == Some(all[0].reportUnit);
      assert RecordedUnit(s, all[1].metric) == Some(all[1].reportUnit);
    } else {
      assert RecordedUnit(s, all[0].metric) == Some(all[0].reportUnit);
    }
  }

  // What a rule's match depends on, and nothing else.
  ghost predicate SameTargets(a: map<string, Entry>, b: map<string, Entry>) {
    && a.Keys == b.Keys
    && forall d :: d in a && d in b ==> a[d].projection == b[d].projection && a[d].descriptors == b[d].descriptors
  }

  lemma IndexCovers(e: Encoding, a: seq<Scenario>, b: seq<Scenario>, x: map<string, Entry>, y: map<string, Entry>,
                    d: string)
    requires IsIndex(e, a, x) && IsIndex(e, b, y) && d in x
    requires multiset(Map(ProjectionOf, a)) == multiset(Map(ProjectionOf, b))
    ensures d in y && x[d].projection == y[d].projection && x[d].descriptors == y[d].descriptors
  {
    var i :| 0 <= i < |a| && e.scenario(a[i].projection) == d;
    MemberReordered(Map(ProjectionOf, b), Map(ProjectionOf, a), i);
    var j := Find(Map(ProjectionOf, b), Map(ProjectionOf, a)[i]);
    assert b[j].projection == a[i].projection;
  }

  // Equal scenario-set digests give the same index keys, identities and metric descriptors, so a budget
  // rule matches both reports or neither.
  lemma SetDigestFixesTargets(e: Encoding, a: seq<Scenario>, b: seq<Scenario>, x: map<string, Entry>,
                              y: map<string, Entry>)
    requires SetsTold(e, Map(ProjectionOf, a), Map(ProjectionOf, b)) && IsIndex(e, a, x) && IsIndex(e, b, y)
    requires ScenarioSet(e, Map(ProjectionOf, a)).Some?
    requires ScenarioSet(e, Map(ProjectionOf, a)) == ScenarioSet(e, Map(ProjectionOf, b))
    ensures SameTargets(x, y)
    ensures forall rule :: Matches(x, rule) <==> Matches(y, rule)
  {
    hide ScenarioSet, IsIndex, SetsTold;
    EqualDigestsEqualSets(e, Map(ProjectionOf, a), Map(ProjectionOf, b));
    forall d | d in x ensures d in y && x[d].projection == y[d].projection && x[d].descriptors == y[d].descriptors {
      IndexCovers(e, a, b, x, y, d);
    }
    forall d | d in y ensures d in x { IndexCovers(e, b, a, y, x, d); }
  }
}
