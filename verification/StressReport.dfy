/** Turning complete stress samples into report scenarios. The files of the run are given as what reading
    them yields. */
module StressReport {
  import opened Sorting
  import opened Folds
  import opened Reports
  import opened StressSamples

  // What a recorded sample must satisfy on its own.
  predicate SampleOk(s: Sample, commands: seq<string>) {
    && SampleKeyOk(s.key) && s.duration >= 1 && s.warmup >= 0 && s.throughput >= 0.0 && s.p99 >= 0.0
    && s.errors == 0 && s.errorRate == 0.0 && s.retries == 0 && IsCommandId(s.command) && s.command in commands
  }

  // ---- The files a sample cites ----

  // A sample as the tool printed it, before the command and the repetition were added.
  datatype RawSample = RawSample(
    selector: Selector, duration: int, warmup: int, throughput: real, p99: real, errorRate: real, errors: int,
    retries: int)

  function RawOf(s: Sample): RawSample {
    RawSample(s.key.selector, s.duration, s.warmup, s.throughput, s.p99, s.errorRate, s.errors, s.retries)
  }

  // `stdoutOf` is the command whose output file the record names.
  datatype CommandRecord = CommandRecord(version: int, id: string, status: string, stdoutOf: string)

  // Parsed samples lie under their operation, depth and repetition, records and outputs under their command.
  datatype RunFiles = RunFiles(
    parsed: ParsedSample -> Option<Sample>, record: string -> Option<CommandRecord>,
    stdout: string -> Option<RawSample>)

  function ParsedFile(s: Sample): ParsedSample {
    ParsedSample(s.key.selector.operation, s.key.selector.inFlight, s.key.repetition)
  }

  predicate FilesAgree(files: RunFiles, s: Sample) {
    && files.parsed(ParsedFile(s)) == Some(s)
    && files.record(s.command) == Some(CommandRecord(1, s.command, "passed", s.command))
    && files.stdout(s.command) == Some(RawOf(s))
  }

  function SourceOf(s: Sample): StressSource {
    StressSource(s.command, s.command, ParsedFile(s), s.key.repetition)
  }

  predicate SourceLe(a: StressSource, b: StressSource) { a.repetition <= b.repetition }

  function ScenarioFor(samples: seq<Sample>, a: Aggregate, duration: int, warmup: int): Scenario {
    var k := a.selector;
    Scenario(
      Projection(STRESS, STRESS_PRODUCER,
                 StressIdentity(k.clients, duration, k.inFlight, k.operation, k.registers, a.repetitions, k.transport,
                                warmup)),
      StressMetrics(Summary("milliseconds", a.p99), Summary("operations_per_second", a.throughput)),
      Some(Correctness(0.0, a.retries, a.errors, true, a.errors == 0, a.retries == 0)),
      StressSources(Sort(SourceLe, Map(SourceOf, Group(samples, k)))))
  }

  function ScenariosFor(samples: seq<Sample>, aggregates: seq<Aggregate>, duration: int,
                        warmup: int): (r: seq<Scenario>)
    ensures |r| == |aggregates|
    ensures forall i :: 0 <= i < |r| ==> r[i] == ScenarioFor(samples, aggregates[i], duration, warmup)
  {
    seq(|aggregates|, i requires 0 <= i < |aggregates| => ScenarioFor(samples, aggregates[i], duration, warmup))
  }

  // ---- Each scenario passes the validator ----

  lemma {:induction false} SumOfZeros(f: Sample -> int, xs: seq<Sample>)
    requires forall x :: x in xs ==> f(x) == 0
    ensures SumOf(f, xs) == 0
  {
    SumConstant(f, xs, 0);
  }

  lemma IntOrder()
    ensures TotalPreorder(IntLe)
  {
  }

  // Sources sorted by repetition list 1, 2, … exactly when the repetitions are a permutation of that.
  lemma SortedRepetitions(group: seq<Sample>, n: int)
    requires multiset(Map(RepetitionOf, group)) == multiset(OneTo(n))
    ensures Sort(IntLe, Map(Repetition, Sort(SourceLe, Map(SourceOf, group)))) == OneTo(n)
    ensures |Sort(SourceLe, Map(SourceOf, group))| == |OneTo(n)|
  {
    var sources := Map(SourceOf, group);
    var sorted := Sort(SourceLe, sources);
    MapReordered(Repetition, sources, sorted);
    assert Map(Repetition, sources) == Map(RepetitionOf, group);
    MultisetMembers(Map(RepetitionOf, group), OneTo(n));
    IntOrder();
    SortUnique(IntLe, Map(Repetition, sorted), OneTo(n));
    SortOfSorted(IntLe, OneTo(n));
  }

  lemma SourcesFit(samples: seq<Sample>, commands: seq<string>, k: Selector, identity: Workload)
    requires forall s :: s in samples ==> SampleOk(s, commands)
    requires identity.StressIdentity? && identity.operation == k.operation && identity.inFlight == k.inFlight
    ensures var sources := Sort(SourceLe, Map(SourceOf, Group(samples, k)));
            forall i :: 0 <= i < |sources| ==> StressSourceOk(identity, sources[i])
  {
    hide Sort, IsCommandId, SelectorOk;
    var unsorted := Map(SourceOf, Group(samples, k));
    var sources := Sort(SourceLe, unsorted);
    MultisetMembers(sources, unsorted);
    forall i | 0 <= i < |sources| ensures StressSourceOk(identity, sources[i]) {
      assert sources[i] in sources;
      var j := Find(unsorted, sources[i]);
      assert Group(samples, k)[j] in Group(samples, k);
      assert SampleOk(Group(samples, k)[j], commands);
    }
  }

  lemma ValuesFit(samples: seq<Sample>, commands: seq<string>, k: Selector, deviation: seq<real> -> real)
    requires (forall s :: s in samples ==> SampleOk(s, commands)) && Group(samples, k) != []
    requires forall xs :: deviation(xs) >= 0.0
    ensures var a := AggregateGroup(k, Group(samples, k), deviation);
            && StatisticsOk(a.throughput, a.repetitions) && StatisticsOk(a.p99, a.repetitions)
            && a.errors == 0 && a.retries == 0 && a.repetitions >= 1
  {
    hide SampleStatistics, StatisticsOk, IsCommandId, SelectorOk, SumOf;
    var group := Group(samples, k);
    assert forall s :: s in group ==> SampleOk(s, commands);
    forall x | x in Map(ThroughputOf, group) ensures x >= 0.0 {
      var i := Find(Map(ThroughputOf, group), x);
      assert group[i] in group;
    }
    forall x | x in Map(P99Of, group) ensures x >= 0.0 {
      var i := Find(Map(P99Of, group), x);
      assert group[i] in group;
    }
    StatisticsPass(Map(ThroughputOf, group), deviation);
    StatisticsPass(Map(P99Of, group), deviation);
    SumOfZeros(ErrorsOf, group);
    SumOfZeros(RetriesOf, group);
  }

  lemma ScenarioPasses(samples: seq<Sample>, commands: seq<string>, mode: string, repetitions: int, k: Selector,
                       deviation: seq<real> -> real, duration: int, warmup: int)
    requires Complete(samples, StressScenarios(mode, repetitions)) && k in Selectors(mode) && Group(samples, k) != []
    requires (forall s :: s in samples ==> SampleOk(s, commands)) && duration >= 1 && warmup >= 0
    requires forall xs :: deviation(xs) >= 0.0
    ensures StressOk(ScenarioFor(samples, AggregateGroup(k, Group(samples, k), deviation), duration, warmup))
  {
    hide Complete, SampleStatistics, StatisticsOk, IsCommandId, SumOf, Group, Sort, Selectors, OneTo, SampleOk;
    var a := AggregateGroup(k, Group(samples, k), deviation);
    var s := ScenarioFor(samples, a, duration, warmup);
    ValuesFit(samples, commands, k, deviation);
    SourcesFit(samples, commands, k, s.projection.identity);
    GroupRepetitions(samples, mode, repetitions, k);
    assert a.repetitions == repetitions;
    SortedRepetitions(Group(samples, k), repetitions);
    SelectorsDistinct(mode);
  }

  // ---- All of them together ----

  // What the report validator asks of its stress scenarios.
  ghost predicate StressPartOk(scenarios: seq<Scenario>, totals: Totals) {
    && scenarios != [] && (forall s :: s in scenarios ==> s.projection.kind == STRESS && ScenarioOk(s))
    && DistinctKeys(IdentityOf, scenarios) && totals == Totals(TotalRepetitions(scenarios), 0, 0, true, true)
  }

  lemma {:induction false} SumThrough(samples: seq<Sample>, aggregates: seq<Aggregate>, duration: int, warmup: int)
    ensures SumOf(RepetitionsOf, ScenariosFor(samples, aggregates, duration, warmup)) == SumOf(CountIn, aggregates)
  {
    hide Group, Sort;
    if aggregates != [] {
      SumThrough(samples, aggregates[1..], duration, warmup);
      var all := ScenariosFor(samples, aggregates, duration, warmup);
      assert all[1..] == ScenariosFor(samples, aggregates[1..], duration, warmup);
      assert RepetitionsOf(all[0]) == CountIn(aggregates[0]);
    }
  }

  lemma IdentitiesDiffer(samples: seq<Sample>, order: seq<Selector>, aggregates: seq<Aggregate>, duration: int,
                         warmup: int)
    requires NoRepeats(order) && Map(AggregateSelector, aggregates) == order
    ensures DistinctKeys(IdentityOf, ScenariosFor(samples, aggregates, duration, warmup))
  {
  }

  // Whatever complete set of sound samples is reported, the validator accepts its scenarios.
  lemma ReportedScenariosPass(samples: seq<Sample>, commands: seq<string>, mode: string, repetitions: int,
                              deviation: seq<real> -> real, aggregates: seq<Aggregate>, duration: int, warmup: int)
    requires samples != [] && Complete(samples, StressScenarios(mode, repetitions))
    requires IsAggregation(samples, deviation, aggregates) && duration >= 1 && warmup >= 0
    requires (forall s :: s in samples ==> SampleOk(s, commands)) && forall xs :: deviation(xs) >= 0.0
    ensures StressPartOk(ScenariosFor(samples, aggregates, duration, warmup), Totals(|samples|, 0, 0, true, true))
  {
    hide Complete, Group, Sort, AggregateGroup, SampleOk, StressOk, SumOf, Selectors, ScenarioFor;
    var order :| IsOrder(samples, order) && aggregates == AggregatesOf(samples, order, deviation);
    OrderIsSelectors(samples, mode, repetitions, order);
    MultisetMembers(order, Selectors(mode));
    SelectorsDistinct(mode);
    AggregatesAreUniform(samples, mode, repetitions, deviation, aggregates);
    SumThrough(samples, aggregates, duration, warmup);
    assert Map(AggregateSelector, aggregates) == order by { SelectorsOfAggregates(samples, order, deviation); }
    IdentitiesDiffer(samples, order, aggregates, duration, warmup);
    var scenarios := ScenariosFor(samples, aggregates, duration, warmup);
    forall s | s in scenarios ensures s.projection.kind == STRESS && ScenarioOk(s) {
      var i := Find(scenarios, s);
      assert order[i] in order;
      ScenarioPasses(samples, commands, mode, repetitions, order[i], deviation, duration, warmup);
      KindIsStress(samples, aggregates[i], duration, warmup);
    }
  }

  lemma SelectorsOfAggregates(samples: seq<Sample>, order: seq<Selector>, deviation: seq<real> -> real)
    requires forall k :: k in order ==> Group(samples, k) != []
    ensures Map(AggregateSelector, AggregatesOf(samples, order, deviation)) == order
  {
  }

  lemma KindIsStress(samples: seq<Sample>, a: Aggregate, duration: int, warmup: int)
    ensures ScenarioFor(samples, a, duration, warmup).projection.kind == STRESS
  {
  }

  // ---- The figures ----

  // The scenario is named after a selector and gives, as its latency and its throughput, the statistics of the
  // latencies and of the throughputs of exactly the samples with that selector.
  ghost predicate GivesFigures(samples: seq<Sample>, s: Scenario) {
    exists group, p99s, rates :: FiguresOf(samples, s, group, p99s, rates)
  }

  ghost predicate FiguresOf(samples: seq<Sample>, s: Scenario, group: seq<Sample>, p99s: seq<real>, rates: seq<real>) {
    && s.projection.identity.StressIdentity? && s.metrics.StressMetrics?
    && var i := s.projection.identity;
       && (forall x :: x in group <==>
             x in samples && x.key.selector == Selector(i.transport, i.operation, i.inFlight, i.clients, i.registers))
       && i.repetitions == |group| == |p99s| == |rates|
       && (forall n :: 0 <= n < |group| ==> p99s[n] == group[n].p99 && rates[n] == group[n].throughput)
       && Summarises(s.metrics.p99.recorded, p99s) && Summarises(s.metrics.throughput.recorded, rates)
       && s.metrics.p99.unit == "milliseconds" && s.metrics.throughput.unit == "operations_per_second"
  }

  lemma ReportedFigures(samples: seq<Sample>, deviation: seq<real> -> real, aggregates: seq<Aggregate>, duration: int,
                        warmup: int, i: nat)
    requires IsAggregation(samples, deviation, aggregates) && i < |aggregates|
    ensures GivesFigures(samples, ScenariosFor(samples, aggregates, duration, warmup)[i])
  {
    hide Sort, SampleStatistics, Summarises, SumOf, Filter, SelectorLe;
    var order :| IsOrder(samples, order) && aggregates == AggregatesOf(samples, order, deviation);
    OrderHasGroups(samples, order);
    var k := order[i];
    assert k in order;
    var group := Group(samples, k);
    var p99s, rates := Map(P99Of, group), Map(ThroughputOf, group);
    StatisticsSummarise(p99s, deviation);
    StatisticsSummarise(rates, deviation);
    assert FiguresOf(samples, ScenarioFor(samples, aggregates[i], duration, warmup), group, p99s, rates);
  }

  // ---- The producer ----

  // What the producer accepts: sound samples that agree with the files they cite, with one duration and
  // warm-up, complete for their largest repetition, and aggregates equal to the recomputed ones.
  ghost predicate Reportable(samples: seq<Sample>, recorded: seq<Aggregate>, mode: string, commands: seq<string>,
                             files: RunFiles, deviation: seq<real> -> real) {
    && samples != [] && (forall s :: s in samples ==> SampleOk(s, commands) && FilesAgree(files, s))
    && (forall s :: s in samples ==> s.duration == samples[0].duration && s.warmup == samples[0].warmup)
    && Complete(samples, StressScenarios(mode, MaxRepetition(samples)))
    && IsAggregation(samples, deviation, recorded)
  }

  // What the run's files hold of a reported sample: the sample itself, the record of a command that passed,
  // and that command's output with the sample's figures. The sample has no errors and no retries.
  ghost predicate Filed(files: RunFiles, commands: seq<string>, s: Sample) {
    && files.parsed(ParsedSample(s.key.selector.operation, s.key.selector.inFlight, s.key.repetition)) == Some(s)
    && s.command in commands && s.errors == 0 && s.retries == 0 && s.duration >= 1
    && (exists r :: files.record(s.command) == Some(r) && r.version == 1 && r.id == s.command && r.status == "passed"
                    && r.stdoutOf == s.command)
    && exists raw :: files.stdout(s.command) == Some(raw) && raw.selector == s.key.selector && raw.p99 == s.p99
                     && raw.throughput == s.throughput && raw.duration == s.duration && raw.warmup == s.warmup
                     && raw.errors == s.errors && raw.retries == s.retries
  }

  lemma AgreeingIsFiled(files: RunFiles, commands: seq<string>, s: Sample)
    requires SampleOk(s, commands) && FilesAgree(files, s)
    ensures Filed(files, commands, s)
  {
    hide IsCommandId, SelectorOk;
    assert files.record(s.command) == Some(files.record(s.command).value);
    assert files.stdout(s.command) == Some(files.stdout(s.command).value);
  }

  // The scenarios, each with a source for every repetition whose files hold what the sample says.
  method ReportStress(samples: seq<Sample>, recorded: seq<Aggregate>, mode: string, commands: seq<string>,
                      files: RunFiles, deviation: seq<real> -> real)
    returns (r: Option<(seq<Scenario>, Totals)>)
    requires forall xs :: deviation(xs) >= 0.0
    ensures r.Some? <==> Reportable(samples, recorded, mode, commands, files, deviation)
    ensures r.Some? ==> StressPartOk(r.value.0, r.value.1)
    ensures r.Some? ==> forall i :: 0 <= i < |r.value.0| ==> GivesFigures(samples, r.value.0[i])
    ensures r.Some? ==> forall s :: s in samples ==> Filed(files, commands, s)
    ensures r.Some? ==> r.value == (ScenariosFor(samples, recorded, samples[0].duration, samples[0].warmup),
                                    Totals(|samples|, 0, 0, true, true))
  {
    hide SampleOk, FilesAgree, IsAggregation, StressPartOk, GivesFigures, Filed, Acceptable, Complete, StressScenarios,
         MaxRepetition;
    if samples == [] { return None; }
    var durations: set<int>, warmups: set<int> := {}, {};
    var errors, retries, most := 0, 0, 0;
    var i := 0;
    while i < |samples|
      invariant 0 <= i <= |samples|
      invariant forall k :: 0 <= k < i ==> SampleOk(samples[k], commands) && FilesAgree(files, samples[k])
      invariant durations == (set k | 0 <= k < i :: samples[k].duration)
      invariant warmups == (set k | 0 <= k < i :: samples[k].warmup)
      invariant errors == 0 && retries == 0
      invariant forall k :: 0 <= k < i ==> samples[k].key.repetition <= most
      invariant i > 0 ==> exists k :: 0 <= k < i && samples[k].key.repetition == most
    {
      var s := samples[i];
      if !SampleOk(s, commands) { assert s in samples; return None; }
      if !FilesAgree(files, s) { assert s in samples; return None; }
      SampleFacts(s, commands);
      durations, warmups := durations + {s.duration}, warmups + {s.warmup};
      errors, retries := errors + s.errors, retries + s.retries;
      if i == 0 || s.key.repetition > most { most := s.key.repetition; }
      i := i + 1;
    }
    assert samples[0].duration in durations && samples[0].warmup in warmups;
    if durations != {samples[0].duration} || warmups != {samples[0].warmup} {
      assert exists s :: s in samples && (s.duration != samples[0].duration || s.warmup != samples[0].warmup);
      return None;
    }
    forall s | s in samples ensures s.duration == samples[0].duration && s.warmup == samples[0].warmup {
      var k := Find(samples, s);
      assert samples[k].duration in durations && samples[k].warmup in warmups;
    }
    assert most == MaxRepetition(samples) by { MaximumIs(samples, most); }
    var aggregates := AggregateStressSamples(samples, StressScenarios(mode, most), deviation);
    AcceptableIsComplete(samples, mode, most, commands);
    if aggregates.None? { return None; }
    if recorded != aggregates.value {
      if IsAggregation(samples, deviation, recorded) { OneAggregation(samples, deviation, recorded, aggregates.value); }
      return None;
    }
    SampleFacts(samples[0], commands);
    ReportedScenariosPass(samples, commands, mode, most, deviation, recorded, samples[0].duration, samples[0].warmup);
    forall k | 0 <= k < |recorded|
      ensures GivesFigures(samples, ScenariosFor(samples, recorded, samples[0].duration, samples[0].warmup)[k])
    {
      ReportedFigures(samples, deviation, recorded, samples[0].duration, samples[0].warmup, k);
    }
    forall s | s in samples ensures Filed(files, commands, s) { AgreeingIsFiled(files, commands, s); }
    r := Some((ScenariosFor(samples, recorded, samples[0].duration, samples[0].warmup),
               Totals(|samples|, errors, retries, errors == 0, retries == 0)));
  }

  lemma SampleFacts(s: Sample, commands: seq<string>)
    requires SampleOk(s, commands)
    ensures s.errors == 0 && s.retries == 0 && s.duration >= 1 && s.warmup >= 0
  {
  }

  lemma MaximumIs(samples: seq<Sample>, most: int)
    requires samples != [] && (forall k :: 0 <= k < |samples| ==> samples[k].key.repetition <= most)
    requires exists k :: 0 <= k < |samples| && samples[k].key.repetition == most
    ensures most == MaxRepetition(samples)
  {
  }

  lemma AcceptableIsComplete(samples: seq<Sample>, mode: string, repetitions: int, commands: seq<string>)
    requires forall s :: s in samples ==> SampleOk(s, commands)
    ensures Acceptable(samples, StressScenarios(mode, repetitions)) <==>
              Complete(samples, StressScenarios(mode, repetitions))
  {
    hide Complete, Selectors, Product;
    SelectorsDistinct(mode);
    forall k | k in StressScenarios(mode, repetitions) ensures SampleKeyOk(k) {
      ProductMember(Selectors(mode), repetitions, k);
    }
  }

  lemma OneAggregation(samples: seq<Sample>, deviation: seq<real> -> real, a: seq<Aggregate>, b: seq<Aggregate>)
    requires IsAggregation(samples, deviation, a) && IsAggregation(samples, deviation, b)
    ensures a == b
  {
    hide Group, AggregateGroup, SelectorLe;
    var x :| IsOrder(samples, x) && a == AggregatesOf(samples, x, deviation);
    var y :| IsOrder(samples, y) && b == AggregatesOf(samples, y, deviation);
    forall k ensures k in x <==> k in y {
      if k in x { var s := GroupMember(samples, k); }
      if k in y { var s := GroupMember(samples, k); }
    }
    SameMembers(x, y);
    forall p, q | p in x && q in x && SelectorLe(p, q) && SelectorLe(q, p) ensures p == q {
      SelectorsAntisymmetric(p, q);
    }
    SortedUnique(SelectorLe, x, y);
  }

  lemma SelectorsAntisymmetric(p: Selector, q: Selector)
    requires SelectorLe(p, q) && SelectorLe(q, p)
    ensures p == q
  {
    KeyLeTotal(SelectorKey(p), SelectorKey(q));
    var a, b := SelectorKey(p), SelectorKey(q);
    assert a[0] == b[0] && a[1] == b[1] && a[2] == b[2] && a[3] == b[3] && a[4] == b[4];
  }
}
