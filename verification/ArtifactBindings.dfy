/** Binding manifests and what it means for one to verify against a contract and the retained artifacts.
    Artifact loading and directory lookup are functions of the directory name. */
module ArtifactBindings {
  import opened Sorting
  import opened Folds
  import opened Contract
  import opened Reports
  import opened ScenarioSets

  datatype ArtifactBinding = ArtifactBinding(evidenceId: string, runDir: string)
  datatype BudgetBinding = BudgetBinding(budgetId: string, studyIds: seq<string>)
  datatype Manifest = Manifest(version: int, pin: string, artifacts: seq<ArtifactBinding>, budgets: seq<BudgetBinding>)

  datatype Artifact = Artifact(
    target: string, runId: string, mode: string, sha256: string, producers: seq<Producer>, scenarios: seq<Scenario>)

  // `load` validates and fingerprints a directory; `inode` resolves it.
  datatype Disk = Disk(load: string -> Option<Artifact>, inode: string -> Option<(int, int)>)

  const MAX_BINDINGS := 128
  const MAX_ROWS := 4096

  // ---- Manifest syntax ----

  function EvidenceIdOf(b: ArtifactBinding): string { b.evidenceId }
  function RunDirOf(b: ArtifactBinding): string { b.runDir }
  function BudgetIdOf(b: BudgetBinding): string { b.budgetId }

  ghost predicate BudgetBindingOk(b: BudgetBinding) {
    && IsId(b.budgetId) && 1 <= |b.studyIds| <= MAX_BINDINGS && NoRepeats(b.studyIds)
    && forall i :: 0 <= i < |b.studyIds| ==> IsId(b.studyIds[i])
  }

  ghost predicate ManifestOk(m: Manifest) {
    && 1 <= m.version <= 3 && IsDigest(m.pin) && 1 <= |m.artifacts| <= MAX_BINDINGS
    && DistinctKeys(EvidenceIdOf, m.artifacts) && DistinctKeys(RunDirOf, m.artifacts)
    && (forall b :: b in m.artifacts ==> IsId(b.evidenceId))
    && if m.version == 3
       then && 1 <= |m.budgets| <= MAX_BINDINGS && DistinctKeys(BudgetIdOf, m.budgets)
            && forall b :: b in m.budgets ==> BudgetBindingOk(b)
       else m.budgets == []
  }

  // The same manifest at a lower version, which carries no budget bindings.
  function CutTo(m: Manifest, version: int): Manifest
    requires 1 <= version <= 2
  {
    m.(version := version, budgets := [])
  }

  // ---- Checks before any artifact is read ----

  function RunFor(c: Contract, evidenceId: string): Option<Placed> {
    FindBy(ArtifactOf, AllPlaced(c.studies), evidenceId)
  }

  function RuleFor(c: Contract, budgetId: string): Option<Budget> { FindBy(BudgetId, c.budgets, budgetId) }

  ghost predicate CoversRuns(c: Contract, m: Manifest) {
    forall id :: id in Map(EvidenceIdOf, m.artifacts) <==> id in Map(ArtifactOf, AllPlaced(c.studies))
  }

  ghost predicate CoversRules(c: Contract, m: Manifest) {
    forall id :: id in Map(BudgetIdOf, m.budgets) <==> id in Map(BudgetId, c.budgets)
  }

  ghost predicate StudiesKnown(c: Contract, m: Manifest) {
    forall b, id :: b in m.budgets && id in b.studyIds ==> FindStudy(c.studies, id).Some?
  }

  function InodeOf(disk: Disk): ArtifactBinding -> Option<(int, int)> { (b: ArtifactBinding) => disk.inode(b.runDir) }

  ghost predicate DirectoriesOk(m: Manifest, disk: Disk) {
    && (forall b :: b in m.artifacts ==> disk.inode(b.runDir).Some?)
    && DistinctKeys(InodeOf(disk), m.artifacts)
  }

  function RunCount(c: Contract): string -> int {
    (id: string) => match FindStudy(c.studies, id) case Some(s) => |s.runs| case None => 0
  }

  // Runs selected by one binding, and by all of them.
  function Selected(c: Contract): BudgetBinding -> int { (b: BudgetBinding) => SumOf(RunCount(c), b.studyIds) }
  function SelectedRows(c: Contract, m: Manifest): int { SumOf(Selected(c), m.budgets) }

  ghost predicate GatesOk(c: Contract, m: Manifest, disk: Disk, digest: string, capture: bool) {
    && (capture ==> m.version == 3) && m.pin == digest && CoversRuns(c, m)
    && (m.version == 3 ==> CoversRules(c, m) && StudiesKnown(c, m))
    && DirectoriesOk(m, disk) && (capture ==> SelectedRows(c, m) <= MAX_ROWS)
  }

  // ---- Checks on each artifact ----

  // The budgets bound to a study, in manifest order.
  function BoundTo(budgets: seq<BudgetBinding>, studyId: string): seq<string> {
    if budgets == [] then []
    else (if studyId in budgets[0].studyIds then [budgets[0].budgetId] else []) + BoundTo(budgets[1..], studyId)
  }

  predicate ContentOk(c: Contract, disk: Disk, b: ArtifactBinding) {
    var p, a := RunFor(c, b.evidenceId), disk.load(b.runDir);
    && p.Some? && a.Some? && a.value.mode == "bench-full" && (a.value.target, a.value.runId) == Identity(p.value)
    && a.value.sha256 == ContentOf(c.retention, b.evidenceId)
  }

  ghost predicate SetsOk(c: Contract, e: Encoding, p: Placed, a: Artifact) {
    var producers, scenarios := ProducerSet(e, a.producers), ScenarioSet(e, Map(ProjectionOf, a.scenarios));
    && FindStudy(c.studies, p.studyId).Some?
    && producers == Some(p.run.producerSet) && producers == Some(FindStudy(c.studies, p.studyId).value.producerSet)
    && scenarios == Some(p.run.scenarioSet) && scenarios == Some(FindStudy(c.studies, p.studyId).value.scenarioSet)
  }

  ghost predicate RuleMatches(e: Encoding, a: Artifact, rule: Budget) {
    Indexable(e, a.scenarios) && forall index :: IsIndex(e, a.scenarios, index) ==> Matches(index, rule)
  }

  ghost predicate BudgetsMatch(c: Contract, m: Manifest, e: Encoding, p: Placed, a: Artifact) {
    && Indexable(e, a.scenarios)
    && forall id :: id in BoundTo(m.budgets, p.studyId) ==>
         RuleFor(c, id).Some? && RuleMatches(e, a, RuleFor(c, id).value)
  }

  ghost predicate ItemOk(c: Contract, m: Manifest, disk: Disk, e: Encoding, b: ArtifactBinding) {
    && ContentOk(c, disk, b)
    && var p, a := RunFor(c, b.evidenceId).value, disk.load(b.runDir).value;
       && (m.version >= 2 ==> SetsOk(c, e, p, a))
       && (m.version == 3 ==> BudgetsMatch(c, m, e, p, a))
  }

  ghost predicate Verifies(c: Contract, m: Manifest, disk: Disk, e: Encoding, digest: string, capture: bool) {
    GatesOk(c, m, disk, digest, capture) && forall b :: b in m.artifacts ==> ItemOk(c, m, disk, e, b)
  }

  // ---- Verified rows ----

  datatype Row = Row(
    evidenceId: string, studyId: string, target: string, runId: string, mode: string, content: string,
    sets: Option<(string, string)>)

  function RowFor(c: Contract, disk: Disk, version: int, b: ArtifactBinding): Row
    requires ContentOk(c, disk, b)
  {
    var p, a := RunFor(c, b.evidenceId).value, disk.load(b.runDir).value;
    Row(b.evidenceId, p.studyId, a.target, a.runId, a.mode, a.sha256,
        if version >= 2 then Some((p.run.producerSet, p.run.scenarioSet)) else None)
  }

  function RowsFor(c: Contract, disk: Disk, version: int, bindings: seq<ArtifactBinding>): (rows: seq<Row>)
    requires forall b :: b in bindings ==> ContentOk(c, disk, b)
    ensures |rows| == |bindings|
    ensures forall i :: 0 <= i < |rows| ==> rows[i] == RowFor(c, disk, version, bindings[i])
  {
    seq(|bindings|, i requires 0 <= i < |bindings| => RowFor(c, disk, version, bindings[i]))
  }

  function WithoutSets(r: Row): Row { r.(sets := None) }

  // What a verified row says, and of what: the bound directory holds a full benchmark of the declared run,
  // with the retained content, and from version 2 on with the declared sets.
  ghost predicate RowSays(c: Contract, disk: Disk, e: Encoding, version: int, b: ArtifactBinding, row: Row) {
    exists p, a, kept, s ::
      && p in AllPlaced(c.studies) && disk.load(b.runDir) == Some(a) && kept in c.retention && s in c.studies
      && RowTells(p, a, kept, s, e, version, b, row)
  }

  ghost predicate RowTells(p: Placed, a: Artifact, kept: Evidence, s: Study, e: Encoding, version: int,
                           b: ArtifactBinding, row: Row)
  {
    && p.run.artifactEvidenceId == kept.id == b.evidenceId && s.id == p.studyId
    && row.evidenceId == b.evidenceId && row.studyId == p.studyId
    && row.target == a.target == p.run.target && row.runId == a.runId == p.run.runId
    && row.mode == a.mode == "bench-full" && row.content == a.sha256 == kept.sha256
    && if version < 2 then row.sets == None
       else && row.sets == Some((p.run.producerSet, p.run.scenarioSet))
            && ProducerSet(e, a.producers) == Some(p.run.producerSet) == Some(s.producerSet)
            && ScenarioSet(e, Map(ProjectionOf, a.scenarios)) == Some(p.run.scenarioSet) == Some(s.scenarioSet)
  }

  // ---- Rules within a study ----

  // Within one study a rule matches every verified run or none of them.
  lemma RuleMatchesAllOrNone(c: Contract, m: Manifest, disk: Disk, e: Encoding, digest: string, x: ArtifactBinding,
                             y: ArtifactBinding, rule: Budget)
    requires m.version >= 2 && Verifies(c, m, disk, e, digest, false)
    requires x in m.artifacts && y in m.artifacts
    requires RunFor(c, x.evidenceId).Some? && RunFor(c, y.evidenceId).Some?
    requires RunFor(c, x.evidenceId).value.studyId == RunFor(c, y.evidenceId).value.studyId
    requires disk.load(x.runDir).Some? && disk.load(y.runDir).Some?
    requires Indexable(e, disk.load(x.runDir).value.scenarios) && Indexable(e, disk.load(y.runDir).value.scenarios)
    requires SetsTold(e, Map(ProjectionOf, disk.load(x.runDir).value.scenarios),
                      Map(ProjectionOf, disk.load(y.runDir).value.scenarios))
    ensures RuleMatches(e, disk.load(x.runDir).value, rule) <==> RuleMatches(e, disk.load(y.runDir).value, rule)
  {
    hide RunFor, GatesOk, ContentOk, BudgetsMatch, FindBy, ProducerSet, ScenarioSet, Indexable, IsIndex, Matches,
         SetsTold;
    var a, b := disk.load(x.runDir).value, disk.load(y.runDir).value;
    assert ItemOk(c, m, disk, e, x) && ItemOk(c, m, disk, e, y);
    var i := SomeIndex(e, a.scenarios);
    var j := SomeIndex(e, b.scenarios);
    if RuleMatches(e, a, rule) {
      forall index | IsIndex(e, b.scenarios, index) ensures Matches(index, rule) {
        SetDigestFixesTargets(e, a.scenarios, b.scenarios, i, index);
      }
    }
    if RuleMatches(e, b, rule) {
      forall index | IsIndex(e, a.scenarios, index) ensures Matches(index, rule) {
        ToldEitherWay(e, Map(ProjectionOf, a.scenarios), Map(ProjectionOf, b.scenarios));
        SetDigestFixesTargets(e, b.scenarios, a.scenarios, j, index);
      }
    }
  }

  lemma ToldEitherWay(e: Encoding, a: seq<Projection>, b: seq<Projection>)
    requires SetsTold(e, a, b)
    ensures SetsTold(e, b, a)
  {
    hide Sort;
  }

  lemma {:induction false} SomeIndex(e: Encoding, scenarios: seq<Scenario>) returns (index: map<string, Entry>)
    requires Indexable(e, scenarios)
    ensures IsIndex(e, scenarios, index)
    decreases |scenarios|
  {
    hide KeyOf, MetricsFit, EntryOf;
    if scenarios == [] {
      index := map[];
    } else {
      var rest, last := scenarios[..|scenarios| - 1], scenarios[|scenarios| - 1];
      assert scenarios == rest + [last];
      forall i, j | 0 <= i < j < |rest| ensures DigestOf(e)(rest[i]) != DigestOf(e)(rest[j]) {
        assert DigestOf(e)(scenarios[i]) != DigestOf(e)(scenarios[j]);
      }
      var before := SomeIndex(e, rest);
      forall i | 0 <= i < |rest| ensures e.scenario(rest[i].projection) != e.scenario(last.projection) {
        assert DigestOf(e)(scenarios[i]) != DigestOf(e)(scenarios[|rest|]);
      }
      EntryStep(e, rest, last, before);
      index := before[e.scenario(last.projection) := EntryOf(last)];
    }
  }
}
