/** What artifact verification means in terms of the documents and the files alone: when it succeeds, and what
    each failure it reports says. */
module ArtifactMeaning {
  import opened Sorting
  import opened Contract
  import opened Reports
  import opened ScenarioSets
  import opened ArtifactBindings
  import opened BindingCounts
  import opened ArtifactVerifier

  // ---- Success ----

  // The scenario's metrics are in the report units of its kind.
  predicate InReportUnits(s: Scenario) {
    || (s.projection.kind == "tcp_stress" && s.metrics.StressMetrics? && s.metrics.p99.unit == "milliseconds"
        && s.metrics.throughput.unit == "operations_per_second")
    || (s.projection.kind == "criterion_estimate" && s.metrics.CriterionMetrics?
        && s.metrics.mean.unit == "nanoseconds")
  }

  // Every rule bound to a run's study measures the scenario it names.
  ghost predicate RulesFit(c: Contract, m: Manifest, e: Encoding, b: ArtifactBinding, a: Artifact) {
    && (forall s :: s in a.scenarios ==> KeyOf(s.projection).Some? && InReportUnits(s))
    && (forall i, j :: 0 <= i < j < |a.scenarios| ==>
          e.scenario(a.scenarios[i].projection) != e.scenario(a.scenarios[j].projection))
    && forall p, bound :: p in AllPlaced(c.studies) && p.run.artifactEvidenceId == b.evidenceId
                          && bound in m.budgets && p.studyId in bound.studyIds ==>
         RuleFits(c, e, a, bound.budgetId)
  }

  ghost predicate RuleFits(c: Contract, e: Encoding, a: Artifact, budgetId: string) {
    exists rule, s :: && rule in c.budgets && rule.id == budgetId && s in a.scenarios
                      && e.scenario(s.projection) == rule.identity && Measures(rule, s)
  }

  ghost predicate ArtifactFits(c: Contract, m: Manifest, disk: Disk, e: Encoding, b: ArtifactBinding) {
    && (exists row :: RowSays(c, disk, e, m.version, b, row))
    && (m.version == 3 ==> disk.load(b.runDir).Some? && RulesFit(c, m, e, b, disk.load(b.runDir).value))
  }

  lemma FittingMetrics(s: Scenario)
    requires KeyOf(s.projection).Some?
    ensures MetricsFit(s) <==> InReportUnits(s)
  {
    var all := Correspondence(s.projection.kind);
    if MetricsFit(s) {
      assert RecordedUnit(s, all[0].metric) == Some(all[0].reportUnit);
      if s.projection.kind == STRESS { assert RecordedUnit(s, all[1].metric) == Some(all[1].reportUnit); }
    }
  }

  lemma IndexableMeans(e: Encoding, a: Artifact)
    ensures Indexable(e, a.scenarios)
            <==> && (forall s :: s in a.scenarios ==> KeyOf(s.projection).Some? && InReportUnits(s))
                 && (forall i, j :: 0 <= i < j < |a.scenarios| ==>
                       e.scenario(a.scenarios[i].projection) != e.scenario(a.scenarios[j].projection))
  {
    hide KeyOf, MetricsFit, InReportUnits;
    forall s | s in a.scenarios && KeyOf(s.projection).Some? ensures MetricsFit(s) <==> InReportUnits(s) {
      FittingMetrics(s);
    }
    assert (forall i, j :: 0 <= i < j < |a.scenarios| ==> DigestOf(e)(a.scenarios[i]) != DigestOf(e)(a.scenarios[j]))
           <==> (forall i, j :: 0 <= i < j < |a.scenarios| ==>
                   e.scenario(a.scenarios[i].projection) != e.scenario(a.scenarios[j].projection));
  }

  lemma MatchMeans(c: Contract, e: Encoding, a: Artifact, rule: Budget)
    requires Indexable(e, a.scenarios)
    ensures RuleMatches(e, a, rule)
            <==> exists s :: s in a.scenarios && e.scenario(s.projection) == rule.identity && Measures(rule, s)
  {
    hide KeyOf, MetricsFit, Measures, Correspondence;
    var index := SomeIndex(e, a.scenarios);
    RuleMatchesIs(e, a, index, rule);
    if Matches(index, rule) {
      var i :| 0 <= i < |a.scenarios| && e.scenario(a.scenarios[i].projection) == rule.identity;
      MatchIsMeasure(a.scenarios[i], rule);
      assert a.scenarios[i] in a.scenarios;
    }
    forall s | s in a.scenarios && e.scenario(s.projection) == rule.identity && Measures(rule, s)
      ensures Matches(index, rule)
    {
      var i := Find(a.scenarios, s);
      MatchIsMeasure(s, rule);
      assert index[rule.identity] == EntryOf(a.scenarios[i]);
    }
  }

  lemma OnlyRun(c: Contract, b: ArtifactBinding, p: Placed)
    requires StudiesOk(c) && p in AllPlaced(c.studies) && p.run.artifactEvidenceId == b.evidenceId
    ensures RunFor(c, b.evidenceId) == Some(p)
  {
    hide StudyOk, AllPlaced, FindBy;
    FindByIs(ArtifactOf, AllPlaced(c.studies), b.evidenceId);
  }

  lemma OnlyRule(c: Contract, id: string)
    requires BudgetsOk(c)
    ensures forall rule :: rule in c.budgets && rule.id == id <==> RuleFor(c, id) == Some(rule)
  {
    hide BudgetOk, FindBy;
    FindByIs(BudgetId, c.budgets, id);
  }

  lemma BudgetsMean(c: Contract, m: Manifest, e: Encoding, b: ArtifactBinding, p: Placed, a: Artifact)
    requires StudiesOk(c) && BudgetsOk(c) && p in AllPlaced(c.studies) && p.run.artifactEvidenceId == b.evidenceId
    ensures BudgetsMatch(c, m, e, p, a) <==> RulesFit(c, m, e, b, a)
  {
    hide StudiesOk, BudgetsOk, AllPlaced, Indexable, RuleMatches, RuleFor, BoundTo, Measures;
    IndexableMeans(e, a);
    forall q | q in AllPlaced(c.studies) && q.run.artifactEvidenceId == b.evidenceId ensures q == p {
      OnlyRun(c, b, p);
      OnlyRun(c, b, q);
    }
    if Indexable(e, a.scenarios) {
      forall id ensures (RuleFor(c, id).Some? && RuleMatches(e, a, RuleFor(c, id).value)) <==> RuleFits(c, e, a, id) {
        OnlyRule(c, id);
        if RuleFor(c, id).Some? { MatchMeans(c, e, a, RuleFor(c, id).value); }
      }
      forall id ensures id in BoundTo(m.budgets, p.studyId)
                        <==> exists x :: x in m.budgets && x.budgetId == id && p.studyId in x.studyIds {
        BoundToIs(m.budgets, p.studyId, id);
      }
    }
  }

  lemma ItemMeans(c: Contract, m: Manifest, disk: Disk, e: Encoding, b: ArtifactBinding)
    requires Ready(c, m) && RetentionOk(c.retention) && b in m.artifacts
    ensures ItemOk(c, m, disk, e, b) <==> ArtifactFits(c, m, disk, e, b)
  {
    hide StudiesOk, BudgetsOk, ManifestOk, CoversRuns, CoversRules, BudgetsMatch, RulesFit, RowSays, RowFor, SetsOk,
         ContentOk, AllPlaced, FindBy, RetentionOk;
    CoveredRun(c, m, b);
    var p := RunFor(c, b.evidenceId).value;
    assert p.run.artifactEvidenceId == b.evidenceId by { FindByIs(ArtifactOf, AllPlaced(c.studies), b.evidenceId); }
    if ItemOk(c, m, disk, e, b) {
      VerifiedRow(c, m, disk, e, b);
      ContentIsLoaded(c, disk, b);
      BudgetsMean(c, m, e, b, p, disk.load(b.runDir).value);
    }
    if ArtifactFits(c, m, disk, e, b) {
      var row :| RowSays(c, disk, e, m.version, b, row);
      SaidIsContent(c, m, disk, e, b, row);
      BudgetsMean(c, m, e, b, p, disk.load(b.runDir).value);
    }
  }

  lemma ContentIsLoaded(c: Contract, disk: Disk, b: ArtifactBinding)
    requires ContentOk(c, disk, b)
    ensures RunFor(c, b.evidenceId).Some? && disk.load(b.runDir).Some?
  {
    hide RunFor, ContentOf;
  }

  lemma SaidIsContent(c: Contract, m: Manifest, disk: Disk, e: Encoding, b: ArtifactBinding, row: Row)
    requires StudiesOk(c) && RunFor(c, b.evidenceId).Some? && RowSays(c, disk, e, m.version, b, row)
    requires RetentionOk(c.retention)
    ensures ContentOk(c, disk, b) && disk.load(b.runDir).Some?
    ensures m.version >= 2 ==> SetsOk(c, e, RunFor(c, b.evidenceId).value, disk.load(b.runDir).value)
  {
    hide StudyOk, PlacedOk, AllPlaced, FindBy, ProducerSet, ScenarioSet, EvidenceOk;
    var p, a, kept, s :|
      && p in AllPlaced(c.studies) && disk.load(b.runDir) == Some(a) && kept in c.retention && s in c.studies
      && RowTells(p, a, kept, s, e, m.version, b, row);
    OnlyRun(c, b, p);
    FindByIs(EvidenceId, c.retention, b.evidenceId);
    FindByIs(StudyId, c.studies, p.studyId);
  }

  // Verification succeeds exactly when the manifest is pinned to the contract and covers it, its directories
  // exist and differ, every bound directory fits, and captured rows stay within their limit.
  lemma VerifiesMeans(c: Contract, m: Manifest, disk: Disk, e: Encoding, digest: string, capture: bool)
    requires StudiesOk(c) && BudgetsOk(c) && RetentionOk(c.retention) && ManifestOk(m)
    ensures Verifies(c, m, disk, e, digest, capture)
            <==> && m.pin == digest
                 && (set b | b in m.artifacts :: b.evidenceId)
                    == (set p | p in AllPlaced(c.studies) :: p.run.artifactEvidenceId)
                 && (m.version == 3 ==> (set b | b in m.budgets :: b.budgetId) == (set b | b in c.budgets :: b.id))
                 && (m.version == 3 ==> forall b, id :: b in m.budgets && id in b.studyIds ==> HasStudy(c, id))
                 && (forall i :: 0 <= i < |m.artifacts| ==> disk.inode(m.artifacts[i].runDir).Some?)
                 && (forall i, j :: 0 <= i < j < |m.artifacts| ==>
                       disk.inode(m.artifacts[i].runDir) != disk.inode(m.artifacts[j].runDir))
                 && (capture ==> m.version == 3 && SelectedRows(c, m) <= 4096)
                 && forall b :: b in m.artifacts ==> ArtifactFits(c, m, disk, e, b)
  {
    hide StudiesOk, BudgetsOk, RetentionOk, ManifestOk, ItemOk, ArtifactFits, AllPlaced, SelectedRows, FindBy,
         CoversRuns, CoversRules, HasStudy;
    CoverageAsSets(c, m);
    assert (set p | p in AllPlaced(c.studies) :: ArtifactOf(p))
           == (set p | p in AllPlaced(c.studies) :: p.run.artifactEvidenceId);
    RuleCoverageAsSets(c, m);
    StudiesKnownMeans(c, m);
    DirectoriesMean(m, disk);
    if Ready(c, m) {
      forall b | b in m.artifacts ensures ItemOk(c, m, disk, e, b) <==> ArtifactFits(c, m, disk, e, b) {
        ItemMeans(c, m, disk, e, b);
      }
    }
  }

  lemma StudiesKnownMeans(c: Contract, m: Manifest)
    ensures StudiesKnown(c, m) <==> forall b, id :: b in m.budgets && id in b.studyIds ==> HasStudy(c, id)
  {
    hide FindBy, HasStudy;
    forall id ensures FindStudy(c.studies, id).Some? <==> HasStudy(c, id) { FoundStudy(c, id); }
  }

  ghost predicate HasStudy(c: Contract, id: string) { exists s :: s in c.studies && s.id == id }

  lemma FoundStudy(c: Contract, id: string)
    ensures FindStudy(c.studies, id).Some? <==> HasStudy(c, id)
  {
    hide FindBy;
    FindByIs(StudyId, c.studies, id);
    forall s | s in c.studies && s.id == id ensures FindStudy(c.studies, id).Some? { assert StudyId(s) == id; }
  }

  lemma DirectoriesMean(m: Manifest, disk: Disk)
    ensures DirectoriesOk(m, disk)
            <==> && (forall i :: 0 <= i < |m.artifacts| ==> disk.inode(m.artifacts[i].runDir).Some?)
                 && (forall i, j :: 0 <= i < j < |m.artifacts| ==>
                       disk.inode(m.artifacts[i].runDir) != disk.inode(m.artifacts[j].runDir))
  {
    assert forall i :: 0 <= i < |m.artifacts| ==> m.artifacts[i] in m.artifacts;
    assert (forall i, j :: 0 <= i < j < |m.artifacts| ==>
              InodeOf(disk)(m.artifacts[i]) != InodeOf(disk)(m.artifacts[j]))
           <==> (forall i, j :: 0 <= i < j < |m.artifacts| ==>
                   disk.inode(m.artifacts[i].runDir) != disk.inode(m.artifacts[j].runDir));
  }

  // ---- Failures ----

  // What a reported failure says of the artifact it is reported for.
  ghost predicate Blames(c: Contract, m: Manifest, disk: Disk, e: Encoding, b: ArtifactBinding, why: Failure) {
    var p, a := RunFor(c, b.evidenceId), disk.load(b.runDir);
    match why
    case Unreadable => a.None?
    case RunMismatch =>
      a.Some? && p.Some? && !(a.value.mode == "bench-full" && a.value.target == p.value.run.target
                              && a.value.runId == p.value.run.runId)
    case RepeatedArtifact =>
      a.Some? && exists x :: x in m.artifacts && x.evidenceId != b.evidenceId
                             && ContentOf(c.retention, x.evidenceId) == a.value.sha256
    case ContentMismatch => a.Some? && ContentOf(c.retention, b.evidenceId) != a.value.sha256
    case SetMismatch => m.version >= 2 && a.Some? && p.Some? && !SetsOk(c, e, p.value, a.value)
    case BadIndex => m.version == 3 && a.Some? && !Indexable(e, a.value.scenarios)
    case NoBudgetMatch =>
      m.version == 3 && a.Some? && exists bound :: bound in m.budgets && !RuleFits(c, e, a.value, bound.budgetId)
    case _ => false
  }

  lemma ItemFailureBlames(c: Contract, m: Manifest, disk: Disk, e: Encoding, i: nat)
    requires Ready(c, m) && i < |m.artifacts|
    ensures var why := ItemFailure(c, m, disk, e, m.artifacts[..i], m.artifacts[i]);
            why.Some? ==> Blames(c, m, disk, e, m.artifacts[i], why.value)
  {
    hide StudiesOk, BudgetsOk, CoversRuns, CoversRules, ContentOf, FindBy, SetsOk, Indexable, BudgetsMatch, RuleFits;
    var b := m.artifacts[i];
    assert b in m.artifacts;
    CoveredRun(c, m, b);
    EarlierDiffer(c, m, i);
    forall x | x in m.artifacts[..i] ensures x in m.artifacts && x.evidenceId != b.evidenceId {
      var k := Find(m.artifacts[..i], x);
      assert m.artifacts[k] == x;
    }
    var why := ItemFailure(c, m, disk, e, m.artifacts[..i], b);
    if why == Some(NoBudgetMatch) {
      UnmatchedRule(c, m, e, RunFor(c, b.evidenceId).value, disk.load(b.runDir).value);
    }
  }

  lemma UnmatchedRule(c: Contract, m: Manifest, e: Encoding, p: Placed, a: Artifact)
    requires BudgetsOk(c) && Indexable(e, a.scenarios) && !BudgetsMatch(c, m, e, p, a)
    ensures exists bound :: bound in m.budgets && !RuleFits(c, e, a, bound.budgetId)
  {
    hide BudgetsOk, Indexable, RuleMatches, RuleFor, BoundTo, Measures;
    var id :| id in BoundTo(m.budgets, p.studyId) && !(RuleFor(c, id).Some? && RuleMatches(e, a, RuleFor(c, id).value));
    BoundToIs(m.budgets, p.studyId, id);
    var bound :| bound in m.budgets && bound.budgetId == id;
    OnlyRule(c, id);
    if RuleFor(c, id).Some? { MatchMeans(c, e, a, RuleFor(c, id).value); }
  }

  lemma {:induction false} FirstFailureBlames(c: Contract, m: Manifest, disk: Disk, e: Encoding, i: nat)
    requires Ready(c, m)
    ensures FirstFailure(c, m, disk, e, i).Some? ==>
              exists b :: b in m.artifacts && Blames(c, m, disk, e, b, FirstFailure(c, m, disk, e, i).value)
    decreases |m.artifacts| - i
  {
    hide ItemFailure, Blames, Ready;
    if i < |m.artifacts| {
      ItemFailureBlames(c, m, disk, e, i);
      assert m.artifacts[i] in m.artifacts;
      FirstFailureBlames(c, m, disk, e, i + 1);
    }
  }

  // A failure that concerns an artifact is true of one: it cannot be read, is another run, repeats the content
  // of another, has other content, other sets, an unusable report or a bound rule without its scenario.
  lemma FailuresAreTrue(c: Contract, m: Manifest, disk: Disk, e: Encoding, digest: string, capture: bool, r: Outcome)
    requires StudiesOk(c) && BudgetsOk(c) && ManifestOk(m) && OutcomeOk(c, m, disk, e, digest, capture, r) && r.Failed?
    ensures match r.why
            case NeedsVersion3 => capture && m.version != 3
            case PinMismatch => m.pin != digest
            case ArtifactCoverage => !CoversRuns(c, m)
            case BudgetCoverage => m.version == 3 && !CoversRules(c, m)
            case UnknownStudy => m.version == 3 && !StudiesKnown(c, m)
            case BadDirectories => !DirectoriesOk(m, disk)
            case RowLimit => capture && SelectedRows(c, m) > 4096
            case _ => exists b :: b in m.artifacts && Blames(c, m, disk, e, b, r.why)
  {
    hide StudiesOk, BudgetsOk, ManifestOk, CoversRuns, CoversRules, StudiesKnown, DirectoriesOk, SelectedRows, Blames,
         FirstFailure, ObservationsOk, ContentOk;
    if GateFailure(c, m, disk, digest).None? { FirstFailureBlames(c, m, disk, e, 0); }
    LoopBlamesArtifacts(c, m, disk, e, 0);
  }

  lemma {:induction false} LoopBlamesArtifacts(c: Contract, m: Manifest, disk: Disk, e: Encoding, i: nat)
    ensures FirstFailure(c, m, disk, e, i) !in {
              Some(NeedsVersion3), Some(PinMismatch), Some(ArtifactCoverage), Some(BudgetCoverage), Some(UnknownStudy),
              Some(BadDirectories), Some(RowLimit)}
    decreases |m.artifacts| - i
  {
    hide SetsOk, BudgetsMatch, Indexable, RunFor, ContentOf;
    if i < |m.artifacts| { LoopBlamesArtifacts(c, m, disk, e, i + 1); }
  }
}
