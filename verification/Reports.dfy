/** Benchmark reports: scenarios, their comparison keys, and what the report validator demands.
    Wrong JSON types and missing or extra keys are excluded by the record types. */
module Reports {
  import opened Sorting
  import opened Folds
  import opened Contract
  import opened Paths

  const STRESS := "tcp_stress"
  const CRITERION := "criterion_estimate"
  const STRESS_PRODUCER := "rusty-modbus-stress-json-v1"
  const CRITERION_PRODUCER := "criterion-0.5.1-private-estimates-layout"

  // ---- Workload identity and its key ----

  datatype Workload =
    | StressIdentity(clients: int, duration: int, inFlight: int, operation: string, registers: int, repetitions: int,
                     transport: string, warmup: int)
    | CriterionIdentity(benchmarkId: string)

  datatype Projection = Projection(kind: string, producer: string, identity: Workload)

  // A key is a tuple of texts and numbers.
  datatype Atom = Text(text: string) | Number(number: int)
  type Key = seq<Atom>

  predicate StressIdentityOk(i: Workload) {
    && i.StressIdentity? && i.transport == "tcp" && i.operation in ["read", "mixed"]
    && i.inFlight >= 1 && i.clients >= 1 && i.registers >= 1 && i.repetitions >= 1 && i.duration >= 0 && i.warmup >= 0
  }

  function KeyOf(p: Projection): Option<Key> {
    if p.kind == STRESS && p.producer == STRESS_PRODUCER && StressIdentityOk(p.identity) then
      var i := p.identity;
      Some([Text(p.kind), Text(p.producer), Text(i.transport), Text(i.operation), Number(i.inFlight), Number(i.clients),
            Number(i.registers), Number(i.repetitions), Number(i.duration), Number(i.warmup)])
    else if p.kind == CRITERION && p.producer == CRITERION_PRODUCER && p.identity.CriterionIdentity?
            && RelativePath(p.identity.benchmarkId) then
      Some([Text(p.kind), Text(p.producer), Text(p.identity.benchmarkId)])
    else None
  }

  // A key determines its projection.
  lemma KeyIsComplete(p: Projection, q: Projection)
    requires KeyOf(p).Some? && KeyOf(p) == KeyOf(q)
    ensures p == q
  {
  }

  // ---- Key order ----

  predicate AtomLe(a: Atom, b: Atom) {
    if a.Text? && b.Text? then StringLe(a.text, b.text)
    else if a.Number? && b.Number? then a.number <= b.number
    else a.Text?
  }

  // Tuple order: the first difference decides.
  predicate KeyLe(a: Key, b: Key)
    decreases |a|
  {
    a == [] || (b != [] && if a[0] == b[0] then KeyLe(a[1..], b[1..]) else AtomLe(a[0], b[0]))
  }

  // The first difference, if any, lies between two texts or two numbers.
  predicate Comparable(a: Key, b: Key)
    decreases |a|
  {
    a == [] || b == [] || if a[0] == b[0] then Comparable(a[1..], b[1..]) else a[0].Text? == b[0].Text?
  }

  lemma {:induction false} SameShapeComparable(a: Key, b: Key)
    requires |a| == |b| && forall i :: 0 <= i < |a| ==> a[i].Text? == b[i].Text?
    ensures Comparable(a, b)
    decreases |a|
  {
    if a != [] { SameShapeComparable(a[1..], b[1..]); }
  }

  // Sorting the keys of scenarios never compares a text with a number.
  lemma KeysAreComparable(p: Projection, q: Projection)
    requires KeyOf(p).Some? && KeyOf(q).Some?
    ensures Comparable(KeyOf(p).value, KeyOf(q).value)
  {
    hide RelativePath;
    if p.kind == q.kind { SameShapeComparable(KeyOf(p).value, KeyOf(q).value); }
  }

  lemma {:induction false} KeyLeTotal(a: Key, b: Key)
    ensures KeyLe(a, b) || KeyLe(b, a)
    ensures KeyLe(a, b) && KeyLe(b, a) ==> a == b
    decreases |a|
  {
    if a != [] && b != [] {
      if a[0] == b[0] {
        KeyLeTotal(a[1..], b[1..]);
        assert a == [a[0]] + a[1..] && b == [b[0]] + b[1..];
      } else if a[0].Text? && b[0].Text? {
        StringLeTotal(a[0].text, b[0].text);
      }
    }
  }

  lemma {:induction false} KeyLeTransitive(a: Key, b: Key, c: Key)
    requires KeyLe(a, b) && KeyLe(b, c)
    ensures KeyLe(a, c)
    decreases |a|
  {
    if a != [] {
      if a[0] == b[0] == c[0] {
        KeyLeTransitive(a[1..], b[1..], c[1..]);
      } else {
        AtomLeTransitive(a[0], b[0], c[0]);
      }
    }
  }

  lemma AtomLeTransitive(a: Atom, b: Atom, c: Atom)
    requires (a == b || AtomLe(a, b)) && (b == c || AtomLe(b, c)) && !(a == b == c)
    ensures a != c && AtomLe(a, c)
  {
    if a.Text? && b.Text? && c.Text? {
      if a != b && b != c { StringLeTransitive(a.text, b.text, c.text); }
      StringLeTotal(a.text, b.text);
      StringLeTotal(b.text, c.text);
    }
  }

  lemma KeyOrder()
    ensures TotalPreorder(KeyLe)
    ensures forall a, b :: KeyLe(a, b) && KeyLe(b, a) ==> a == b
  {
    forall a, b ensures (KeyLe(a, b) || KeyLe(b, a)) && (KeyLe(a, b) && KeyLe(b, a) ==> a == b) { KeyLeTotal(a, b); }
    forall a, b, c | KeyLe(a, b) && KeyLe(b, c) ensures KeyLe(a, c) { KeyLeTransitive(a, b, c); }
  }

  // ---- Metrics, sources, reports ----

  datatype Statistics = Statistics(
    count: int, min: real, median: real, mean: real, max: real, stddev: real, coefficient: Option<real>)

  datatype Summary = Summary(unit: string, recorded: Statistics)

  datatype Estimate = Estimate(
    unit: string, confidence: real, lower: real, point: real, upper: real, standardError: real)

  datatype Metrics = StressMetrics(p99: Summary, throughput: Summary) | CriterionMetrics(mean: Estimate)

  // Files of one repetition: the command whose record and output are cited, and the parsed sample by
  // the parts of its name.
  datatype ParsedSample = ParsedSample(operation: string, inFlight: int, repetition: int)
  datatype StressSource = StressSource(command: string, stdoutOf: string, parsed: ParsedSample, repetition: int)

  datatype Sources = StressSources(runs: seq<StressSource>) | CriterionSource(bench: string, benchmarkId: string)

  datatype Correctness = Correctness(
    errorRate: real, retries: int, errors: int, zeroErrorRate: bool, zeroErrors: bool, zeroRetries: bool)

  datatype Scenario = Scenario(
    projection: Projection, metrics: Metrics, correctness: Option<Correctness>, sources: Sources)

  datatype Producer = Producer(adapter: string, id: string, producer: string, version: string)
  datatype Run = Run(mode: string, runId: string, sourceStatus: string, status: string, target: string)

  // What a comparison keeps of a report.
  datatype Operand = Operand(producers: seq<Producer>, run: Run, path: seq<string>, started: string, ended: string)

  datatype Totals = Totals(samples: int, errors: int, retries: int, zeroErrors: bool, zeroRetries: bool)

  datatype Report = Report(operand: Operand, scenarios: seq<Scenario>, totals: Totals)

  const MODES := ["bench-smoke", "bench-full"]

  // Three digits, a dash, then lower-case letters, digits and dashes.
  predicate IsCommandId(s: string) {
    && |s| >= 5 && s[3] == '-'
    && (forall i :: 0 <= i < 3 ==> '0' <= s[i] <= '9')
    && forall i :: 4 <= i < |s| ==> LowerOrDigit(s[i]) || s[i] == '-'
  }

  predicate OperandOk(o: Operand, producers: seq<Producer>) {
    && o.producers == producers && IsFullSha(o.run.target) && IsRunId(o.run.runId) && o.run.mode in MODES
    && o.run.status == "valid" && o.run.sourceStatus == "passed"
    && |o.path| >= 3 && o.path[|o.path| - 3..] == ["baseline-v1", o.run.target, o.run.runId]
    && (forall i :: 0 <= i < |o.path| ==> o.path[i] !in ["", ".", ".."])
    && o.started != "" && o.ended != ""
  }

  predicate StatisticsOk(s: Statistics, count: int) {
    && s.count == count && s.count >= 1
    && s.min >= 0.0 && s.median >= 0.0 && s.mean >= 0.0 && s.max >= 0.0 && s.stddev >= 0.0
    && (s.coefficient.Some? ==> s.coefficient.value >= 0.0)
    && s.min <= s.median <= s.max && s.min <= s.mean <= s.max
  }

  function Repetition(s: StressSource): int { s.repetition }
  predicate IntLe(a: int, b: int) { a <= b }

  function OneTo(n: int): (r: seq<int>)
    ensures |r| == if n < 0 then 0 else n
    ensures forall i :: 0 <= i < |r| ==> r[i] == i + 1
  {
    if n <= 0 then [] else OneTo(n - 1) + [n]
  }

  predicate StressSourceOk(i: Workload, s: StressSource)
    requires i.StressIdentity?
  {
    && s.repetition >= 1 && IsCommandId(s.command) && s.stdoutOf == s.command
    && s.parsed == ParsedSample(i.operation, i.inFlight, s.repetition)
  }

  predicate StressOk(s: Scenario) {
    var i := s.projection.identity;
    && s.projection.producer == STRESS_PRODUCER && StressIdentityOk(i)
    && s.metrics.StressMetrics? && s.metrics.throughput.unit == "operations_per_second"
    && s.metrics.p99.unit == "milliseconds"
    && StatisticsOk(s.metrics.throughput.recorded, i.repetitions) && StatisticsOk(s.metrics.p99.recorded, i.repetitions)
    && s.sources.StressSources? && |s.sources.runs| == i.repetitions
    && (forall k :: 0 <= k < |s.sources.runs| ==> StressSourceOk(i, s.sources.runs[k]))
    && Sort(IntLe, Map(Repetition, s.sources.runs)) == OneTo(i.repetitions)
    && s.correctness == Some(Correctness(0.0, 0, 0, true, true, true))
  }

  predicate CriterionOk(s: Scenario) {
    && s.projection.producer == CRITERION_PRODUCER && s.projection.identity.CriterionIdentity? && s.correctness.None?
    && RelativePath(s.projection.identity.benchmarkId) && s.metrics.CriterionMetrics?
    && (var e := s.metrics.mean;
        && e.unit == "nanoseconds" && 0.0 < e.confidence <= 1.0 && e.lower >= 0.0 && e.point >= 0.0 && e.upper >= 0.0
        && e.standardError >= 0.0 && e.lower <= e.point <= e.upper)
    && s.sources.CriterionSource? && s.sources.benchmarkId == s.projection.identity.benchmarkId
  }

  predicate ScenarioOk(s: Scenario) {
    if s.projection.kind == STRESS then StressOk(s) else s.projection.kind == CRITERION && CriterionOk(s)
  }

  function KindIs(kind: string): Scenario -> bool { (s: Scenario) => s.projection.kind == kind }

  // The scenarios of one kind, in report order.
  function OfKind(scenarios: seq<Scenario>, kind: string): seq<Scenario> { Filter(KindIs(kind), scenarios) }

  function IdentityOf(s: Scenario): Workload { s.projection.identity }
  function SourcesOf(s: Scenario): Sources { s.sources }

  function RepetitionsOf(s: Scenario): int {
    if s.projection.identity.StressIdentity? then s.projection.identity.repetitions else 0
  }

  function TotalRepetitions(scenarios: seq<Scenario>): int { SumOf(RepetitionsOf, scenarios) }

  ghost predicate ReportOk(r: Report, producers: seq<Producer>) {
    && OperandOk(r.operand, producers)
    && (forall s :: s in r.scenarios ==> ScenarioOk(s))
    && OfKind(r.scenarios, STRESS) != [] && OfKind(r.scenarios, CRITERION) != []
    && DistinctKeys(IdentityOf, OfKind(r.scenarios, STRESS))
    && DistinctKeys(SourcesOf, OfKind(r.scenarios, CRITERION))
    && r.totals == Totals(TotalRepetitions(r.scenarios), 0, 0, true, true)
  }

  // Recorded statistics are in order and not negative.
  predicate InOrder(s: Statistics) { 0.0 <= s.min <= s.median <= s.max && s.min <= s.mean <= s.max && s.stddev >= 0.0 }

  // Figures in order and in the units of the kind; a stress scenario has no error and a source for every
  // repetition.
  predicate ScenarioSays(s: Scenario) {
    if s.projection.kind == "tcp_stress" then
      && s.projection.identity.StressIdentity? && s.metrics.StressMetrics? && s.sources.StressSources?
      && InOrder(s.metrics.p99.recorded) && s.metrics.p99.unit == "milliseconds"
      && InOrder(s.metrics.throughput.recorded) && s.metrics.throughput.unit == "operations_per_second"
      && s.metrics.p99.recorded.count == s.metrics.throughput.recorded.count == |s.sources.runs|
      && |s.sources.runs| == s.projection.identity.repetitions
      && s.correctness.Some? && s.correctness.value.errors == 0
    else
      && s.projection.kind == "criterion_estimate" && s.metrics.CriterionMetrics?
      && var e := s.metrics.mean;
         && e.unit == "nanoseconds" && 0.0 < e.confidence <= 1.0 && e.standardError >= 0.0
         && 0.0 <= e.lower <= e.point <= e.upper
  }

  lemma ScenarioIsSound(s: Scenario)
    requires ScenarioOk(s)
    ensures ScenarioSays(s)
  {
    hide IsCommandId, RelativePath, Sort;
  }

  // A valid report has both kinds of scenarios, each with figures in order and in its units, and totals that
  // count the repetitions.
  lemma ReportsAreSound(r: Report, producers: seq<Producer>)
    requires ReportOk(r, producers)
    ensures exists s, t :: s in r.scenarios && t in r.scenarios && s.projection.kind == "tcp_stress"
                           && t.projection.kind == "criterion_estimate"
    ensures forall s :: s in r.scenarios ==> ScenarioSays(s)
    ensures r.totals == Totals(TotalRepetitions(r.scenarios), 0, 0, true, true)
  {
    hide ScenarioOk, ScenarioSays, OperandOk, SumOf;
    var s, t := OfKind(r.scenarios, STRESS)[0], OfKind(r.scenarios, CRITERION)[0];
    assert s in OfKind(r.scenarios, STRESS) && t in OfKind(r.scenarios, CRITERION);
    forall s | s in r.scenarios ensures ScenarioSays(s) { ScenarioIsSound(s); }
  }

  function ScenarioKey(s: Scenario): Key {
    match KeyOf(s.projection)
    case Some(key) => key
    case None => []
  }

  // A validated scenario always has a key.
  lemma ValidScenarioHasKey(s: Scenario)
    requires ScenarioOk(s)
    ensures KeyOf(s.projection) == Some(ScenarioKey(s))
    ensures ScenarioKey(s) != [] && ScenarioKey(s)[0] == Text(s.projection.kind)
  {
  }
}
