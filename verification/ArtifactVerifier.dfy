/** The verification loop over bound artifacts: dictionaries of runs, studies and rules, seen-sets,
    per-budget match counters and captured rows. */
module ArtifactVerifier {
  import opened Sorting
  import opened Folds
  import opened Indexing
  import opened Contract
  import opened Reports
  import opened ScenarioSets
  import opened ArtifactBindings
  import opened BindingCounts

  datatype Failure =
    | NeedsVersion3 | PinMismatch | ArtifactCoverage | WrongKind | BudgetCoverage | UnknownStudy | BadDirectories
    | RowLimit
    | Unreadable | RunMismatch | RepeatedArtifact | ContentMismatch | SetMismatch | BadIndex | NoBudgetMatch
    | MatchCoverage | RowCoverage

  datatype Observation = Observation(
    budgetId: string, scenarioId: string, studyId: string, evidenceId: string, target: string, runId: string,
    content: string, identity: string, metric: string, unit: string, direction: string, recorded: Option<Recorded>)

  datatype Outcome =
    | Failed(why: Failure)
    | Verified(rows: seq<Row>, counts: map<string, nat>, observations: seq<Observation>)

  function RowKeyOf(o: Observation): RowKey { (o.budgetId, o.studyId, o.evidenceId) }

  predicate RowKeyLe(a: RowKey, b: RowKey) {
    if a.0 != b.0 then StringLe(a.0, b.0) else PairLe((a.1, a.2), (b.1, b.2))
  }

  predicate ObservationLe(a: Observation, b: Observation) { RowKeyLe(RowKeyOf(a), RowKeyOf(b)) }

  function ObservationFor(rule: Budget, p: Placed, b: ArtifactBinding, a: Artifact, recorded: Metrics): Observation {
    Observation(rule.id, rule.scenarioId, p.studyId, b.evidenceId, a.target, a.runId, a.sha256, rule.identity,
                rule.metric, rule.unit, rule.direction, RecordOf(recorded, rule.metric))
  }

  // ---- Facts about lookups ----

  lemma RuleMatchesIs(e: Encoding, a: Artifact, entries: map<string, Entry>, rule: Budget)
    requires Indexable(e, a.scenarios) && IsIndex(e, a.scenarios, entries)
    ensures RuleMatches(e, a, rule) <==> Matches(entries, rule)
  {
  }

  lemma RunsAreDistinct(c: Contract, x: string, y: string)
    requires StudiesOk(c) && RunFor(c, x).Some? && RunFor(c, y).Some? && x != y
    ensures Identity(RunFor(c, x).value) != Identity(RunFor(c, y).value)
    ensures ContentOf(c.retention, x) != ContentOf(c.retention, y)
  {
    hide StudyOk, AllPlaced, ContentOf, FindBy;
    var placed := AllPlaced(c.studies);
    FindByIs(ArtifactOf, placed, x);
    FindByIs(ArtifactOf, placed, y);
    var i := Find(placed, RunFor(c, x).value);
    var j := Find(placed, RunFor(c, y).value);
    assert Identity(placed[i]) != Identity(placed[j]);
    assert ContentKey(c.retention)(placed[i]) != ContentKey(c.retention)(placed[j]);
  }

  // Every run refers to benchmark-artifact evidence, so the kind test cannot fail.
  lemma RunsHaveArtifactKind(c: Contract, p: Placed)
    requires StudiesOk(c) && p in AllPlaced(c.studies)
    ensures Refers(c.retention, ArtifactOf(p), BenchmarkArtifact)
  {
    hide Refers, AllPlaced, PlacedOk;
    var s, r := PlacedRun(c.studies, p);
    assert StudyOk(c, s) && RunOk(c, s, r);
  }

  lemma {:induction false} PlacedRun(studies: seq<Study>, p: Placed) returns (s: Study, r: StudyRun)
    requires p in AllPlaced(studies)
    ensures s in studies && r in s.runs && p == Placed(s.id, r)
  {
    var head := PlacedIn(studies[0].id, studies[0].runs);
    if p in head {
      var i := Find(head, p);
      s, r := studies[0], studies[0].runs[i];
    } else {
      s, r := PlacedRun(studies[1..], p);
    }
  }

  lemma PlacedStudy(c: Contract, p: Placed)
    requires StudiesOk(c) && p in AllPlaced(c.studies)
    ensures FindStudy(c.studies, p.studyId).Some?
  {
    hide StudyOk, AllPlaced, PlacedOk, FindBy;
    var s, r := PlacedRun(c.studies, p);
    FindByIs(StudyId, c.studies, p.studyId);
  }

  // ---- Gates ----

  lemma CoverageAsSets(c: Contract, m: Manifest)
    ensures (set b | b in m.artifacts :: b.evidenceId) == (set p | p in AllPlaced(c.studies) :: ArtifactOf(p))
            <==> CoversRuns(c, m)
  {
    hide AllPlaced;
    MembersOfMap(EvidenceIdOf, m.artifacts);
    MembersOfMap(ArtifactOf, AllPlaced(c.studies));
    var x, y := set b | b in m.artifacts :: b.evidenceId, set p | p in AllPlaced(c.studies) :: ArtifactOf(p);
    assert forall id :: id in x <==> id in Map(EvidenceIdOf, m.artifacts);
    assert forall id :: id in y <==> id in Map(ArtifactOf, AllPlaced(c.studies));
  }

  lemma RuleCoverageAsSets(c: Contract, m: Manifest)
    ensures (set b | b in m.budgets :: b.budgetId) == (set b | b in c.budgets :: b.id) <==> CoversRules(c, m)
  {
    MembersOfMap(BudgetIdOf, m.budgets);
    MembersOfMap(BudgetId, c.budgets);
    var x, y := set b | b in m.budgets :: b.budgetId, set b | b in c.budgets :: b.id;
    assert forall id :: id in x <==> id in Map(BudgetIdOf, m.budgets);
    assert forall id :: id in y <==> id in Map(BudgetId, c.budgets);
  }

  lemma MembersOfMap<T, K>(key: T -> K, xs: seq<T>)
    ensures forall x :: x in xs ==> key(x) in Map(key, xs)
    ensures forall k :: k in Map(key, xs) ==> exists x :: x in xs && key(x) == k
  {
  }

  method CheckDirectories(m: Manifest, disk: Disk) returns (ok: bool)
    ensures ok <==> DirectoriesOk(m, disk)
  {
    hide DistinctKeys;
    var seen: set<Option<(int, int)>> := {};
    NothingSeen(InodeOf(disk), m.artifacts);
    var i := 0;
    while i < |m.artifacts|
      invariant 0 <= i <= |m.artifacts|
      invariant DistinctKeys(InodeOf(disk), m.artifacts[..i]) && Seen(InodeOf(disk), m.artifacts[..i], seen)
      invariant forall k :: 0 <= k < i ==> disk.inode(m.artifacts[k].runDir).Some?
    {
      var b := m.artifacts[i];
      PrefixStep(m.artifacts, i);
      SeenStep(InodeOf(disk), m.artifacts[..i], b, seen);
      var inode := disk.inode(b.runDir);
      if inode.None? { assert b in m.artifacts; return false; }
      if inode in seen {
        RepeatRejects(InodeOf(disk), m.artifacts, i);
        return false;
      }
      seen := seen + {inode};
      i := i + 1;
    }
    assert m.artifacts[..i] == m.artifacts;
    ok := true;
  }

  // ---- Which budgets each study carries ----

  function Get(byStudy: map<string, seq<string>>, id: string): seq<string> { if id in byStudy then byStudy[id] else [] }

  lemma {:induction false} BoundToSnoc(budgets: seq<BudgetBinding>, b: BudgetBinding, studyId: string)
    ensures BoundTo(budgets + [b], studyId)
            == BoundTo(budgets, studyId) + if studyId in b.studyIds then [b.budgetId] else []
  {
    if budgets == [] {
      assert budgets + [b] == [b];
    } else {
      assert (budgets + [b])[1..] == budgets[1..] + [b];
      BoundToSnoc(budgets[1..], b, studyId);
    }
  }

  ghost predicate Groups(byStudy: map<string, seq<string>>, budgets: seq<BudgetBinding>) {
    forall id :: Get(byStudy, id) == BoundTo(budgets, id)
  }

  predicate StudiesExist(c: Contract, b: BudgetBinding) {
    forall id | id in b.studyIds :: FindStudy(c.studies, id).Some?
  }

  method BudgetsByStudy(c: Contract, budgets: seq<BudgetBinding>)
    returns (known: bool, byStudy: map<string, seq<string>>)
    requires forall b :: b in budgets ==> NoRepeats(b.studyIds)
    ensures known <==> forall b :: b in budgets ==> StudiesExist(c, b)
    ensures known ==> Groups(byStudy, budgets)
  {
    hide StudiesExist, Groups;
    byStudy := map[];
    NoGroups(budgets);
    var i := 0;
    while i < |budgets|
      invariant 0 <= i <= |budgets|
      invariant Groups(byStudy, budgets[..i])
      invariant forall k :: 0 <= k < i ==> StudiesExist(c, budgets[k])
    {
      var b := budgets[i];
      assert b in budgets;
      PrefixStep(budgets, i);
      if !StudiesExist(c, b) { return false, byStudy; }
      byStudy := Append(byStudy, b, budgets[..i]);
      i := i + 1;
    }
    assert budgets[..i] == budgets;
    known := true;
  }

  lemma NoGroups(budgets: seq<BudgetBinding>)
    ensures Groups(map[], budgets[..0])
  {
  }

  method Append(byStudy: map<string, seq<string>>, b: BudgetBinding, ghost budgets: seq<BudgetBinding>)
    returns (after: map<string, seq<string>>)
    requires NoRepeats(b.studyIds) && Groups(byStudy, budgets)
    ensures Groups(after, budgets + [b])
  {
    hide BoundTo;
    after := byStudy;
    var j := 0;
    while j < |b.studyIds|
      invariant 0 <= j <= |b.studyIds|
      invariant forall id :: Get(after, id) == BoundTo(budgets, id) + if id in b.studyIds[..j] then [b.budgetId] else []
    {
      var id := b.studyIds[j];
      PrefixStep(b.studyIds, j);
      assert id !in b.studyIds[..j];
      after := after[id := Get(after, id) + [b.budgetId]];
      j := j + 1;
    }
    assert b.studyIds[..j] == b.studyIds;
    forall id ensures Get(after, id) == BoundTo(budgets + [b], id) { BoundToSnoc(budgets, b, id); }
  }

  // ---- One artifact ----

  // Matches the bound budgets against one run's scenarios, counting each and capturing its row.
  method MatchBudgets(c: Contract, e: Encoding, p: Placed, b: ArtifactBinding, a: Artifact, bound: seq<string>,
                      entries: map<string, Entry>, counts: map<string, nat>, capture: bool)
    returns (ok: bool, counts': map<string, nat>, rows: seq<Observation>)
    requires NoRepeats(bound) && forall id :: id in bound ==> id in counts && RuleFor(c, id).Some?
    requires Indexable(e, a.scenarios) && IsIndex(e, a.scenarios, entries)
    ensures ok <==> forall id :: id in bound ==> RuleMatches(e, a, RuleFor(c, id).value)
    ensures ok ==> Counted(counts, counts', bound)
    ensures ok ==> Map(RowKeyOf, rows) == if capture then KeysOfRun(bound, p.studyId, b.evidenceId) else []
    ensures forall o :: o in rows ==> ObservedAt(c, e, p, b, a, o)
  {
    hide Indexable, IsIndex, RuleMatches, RuleFor, Matches, ObservedAt, RecordOf;
    counts', rows := counts, [];
    var i := 0;
    assert Counted(counts, counts', bound[..0]);
    while i < |bound|
      invariant 0 <= i <= |bound|
      invariant Counted(counts, counts', bound[..i])
      invariant forall k :: 0 <= k < i ==> RuleMatches(e, a, RuleFor(c, bound[k]).value)
      invariant Map(RowKeyOf, rows) == if capture then KeysOfRun(bound[..i], p.studyId, b.evidenceId) else []
      invariant forall o :: o in rows ==> ObservedAt(c, e, p, b, a, o)
    {
      var id := bound[i];
      assert id in bound;
      var rule := RuleFor(c, id).value;
      RuleMatchesIs(e, a, entries, rule);
      if !Matches(entries, rule) { return false, counts', rows; }
      PrefixStep(bound, i);
      assert id !in bound[..i];
      counts' := counts'[id := counts'[id] + 1];
      if capture {
        MatchedEntry(entries, rule);
        var o := ObservationFor(rule, p, b, a, entries[rule.identity].recorded);
        RuleHasId(c, id);
        assert ObservedAt(c, e, p, b, a, o) by { CapturedRow(c, e, p, b, a, entries, id); }
        rows := rows + [o];
      }
      i := i + 1;
    }
    assert bound[..i] == bound;
    ok := true;
  }

  ghost predicate Counted(counts: map<string, nat>, counts': map<string, nat>, bound: seq<string>) {
    && counts'.Keys == counts.Keys
    && forall id :: id in counts ==> counts'[id] == counts[id] + if id in bound then 1 else 0
  }

  // The row says what a rule asks of a scenario, what the scenario recorded of it, and where that was found.
  predicate RowStates(o: Observation, rule: Budget, s: Scenario, p: Placed, b: ArtifactBinding, a: Artifact) {
    && o.budgetId == rule.id && o.scenarioId == rule.scenarioId && o.identity == rule.identity
    && o.metric == rule.metric && o.unit == rule.unit && o.direction == rule.direction
    && o.studyId == p.studyId && o.evidenceId == b.evidenceId
    && o.target == a.target && o.runId == a.runId && o.content == a.sha256
    && Measures(rule, s) && RecordsMetric(s.metrics, o.metric, o.recorded)
  }

  // A rule of the contract and the scenario of the artifact with the rule's identity account for the row.
  ghost predicate ObservedAt(c: Contract, e: Encoding, p: Placed, b: ArtifactBinding, a: Artifact, o: Observation) {
    exists rule, s :: && rule in c.budgets && s in a.scenarios && e.scenario(s.projection) == rule.identity
                      && RowStates(o, rule, s, p, b, a)
  }

  lemma MatchedEntry(entries: map<string, Entry>, rule: Budget)
    requires Matches(entries, rule)
    ensures rule.identity in entries
  {
  }

  lemma RuleHasId(c: Contract, id: string)
    requires RuleFor(c, id).Some?
    ensures RuleFor(c, id).value.id == id
  {
    FindByIs(BudgetId, c.budgets, id);
  }

  lemma CapturedRow(c: Contract, e: Encoding, p: Placed, b: ArtifactBinding, a: Artifact, entries: map<string, Entry>,
                    id: string)
    requires RuleFor(c, id).Some? && Indexable(e, a.scenarios) && IsIndex(e, a.scenarios, entries)
    requires Matches(entries, RuleFor(c, id).value)
    ensures var rule := RuleFor(c, id).value;
            ObservedAt(c, e, p, b, a, ObservationFor(rule, p, b, a, entries[rule.identity].recorded))
  {
    hide FindBy, MetricsFit, RecordOf, Correspondence, KeyOf, Measures, RecordsMetric;
    var rule := RuleFor(c, id).value;
    FindByIs(BudgetId, c.budgets, id);
    var i :| 0 <= i < |a.scenarios| && e.scenario(a.scenarios[i].projection) == rule.identity;
    var s := a.scenarios[i];
    assert s in a.scenarios && entries[rule.identity] == EntryOf(s);
    MatchIsMeasure(s, rule);
    MatchedMetricIsRecorded(s, rule);
    assert RowStates(ObservationFor(rule, p, b, a, s.metrics), rule, s, p, b, a);
  }

  // ---- Which check fails first ----

  // The checks on an artifact in order, after the bindings in `before` were verified. Its identity cannot
  // repeat one of theirs once it is the declared one, so only its content is compared.
  function ContentFailure(c: Contract, disk: Disk, before: seq<ArtifactBinding>, b: ArtifactBinding): Option<Failure> {
    var p, loaded := RunFor(c, b.evidenceId), disk.load(b.runDir);
    if loaded.None? then Some(Unreadable)
    else
      var a := loaded.value;
      if p.None? || a.mode != "bench-full" || (a.target, a.runId) != Identity(p.value) then Some(RunMismatch)
      else if exists x | x in before :: ContentOf(c.retention, x.evidenceId) == a.sha256 then Some(RepeatedArtifact)
      else if a.sha256 != ContentOf(c.retention, b.evidenceId) then Some(ContentMismatch)
      else None
  }

  ghost function BudgetFailure(c: Contract, m: Manifest, e: Encoding, p: Placed, a: Artifact): Option<Failure> {
    if !Indexable(e, a.scenarios) then Some(BadIndex)
    else if !BudgetsMatch(c, m, e, p, a) then Some(NoBudgetMatch)
    else None
  }

  ghost function ItemFailure(c: Contract, m: Manifest, disk: Disk, e: Encoding, before: seq<ArtifactBinding>,
                             b: ArtifactBinding): Option<Failure> {
    if ContentFailure(c, disk, before, b).Some? then ContentFailure(c, disk, before, b)
    else
      var p, a := RunFor(c, b.evidenceId).value, disk.load(b.runDir).value;
      if m.version >= 2 && !SetsOk(c, e, p, a) then Some(SetMismatch)
      else if m.version == 3 then BudgetFailure(c, m, e, p, a)
      else None
  }

  ghost function FirstFailure(c: Contract, m: Manifest, disk: Disk, e: Encoding, i: nat): Option<Failure>
    decreases |m.artifacts| - i
  {
    if i >= |m.artifacts| then None
    else if ItemFailure(c, m, disk, e, m.artifacts[..i], m.artifacts[i]).Some?
    then ItemFailure(c, m, disk, e, m.artifacts[..i], m.artifacts[i])
    else FirstFailure(c, m, disk, e, i + 1)
  }

  // The gates that do not depend on capturing.
  ghost function GateFailure(c: Contract, m: Manifest, disk: Disk, digest: string): Option<Failure> {
    if m.pin != digest then Some(PinMismatch)
    else if !CoversRuns(c, m) then Some(ArtifactCoverage)
    else if m.version == 3 && !CoversRules(c, m) then Some(BudgetCoverage)
    else if m.version == 3 && !StudiesKnown(c, m) then Some(UnknownStudy)
    else if !DirectoriesOk(m, disk) then Some(BadDirectories)
    else None
  }

  ghost function Why(c: Contract, m: Manifest, disk: Disk, e: Encoding, digest: string,
                     capture: bool): Option<Failure>
  {
    if capture && m.version != 3 then Some(NeedsVersion3)
    else if GateFailure(c, m, disk, digest).Some? then GateFailure(c, m, disk, digest)
    else if capture && SelectedRows(c, m) > MAX_ROWS then Some(RowLimit)
    else FirstFailure(c, m, disk, e, 0)
  }

  // ---- The loop over artifacts ----

  datatype Progress = Progress(
    identities: set<(string, string)>, digests: set<string>, rows: seq<Row>, counts: map<string, nat>,
    observations: seq<Observation>)

  // What holds of the contract and manifest once the gates are passed.
  ghost predicate Ready(c: Contract, m: Manifest) {
    && StudiesOk(c) && BudgetsOk(c) && ManifestOk(m) && CoversRuns(c, m) && (m.version == 3 ==> CoversRules(c, m))
  }

  function IdsOf(bindings: seq<ArtifactBinding>): seq<string> { Map(EvidenceIdOf, bindings) }

  ghost predicate SeenOk(c: Contract, bindings: seq<ArtifactBinding>, s: Progress) {
    && (forall x :: x in s.identities ==>
          exists k :: 0 <= k < |bindings| && RunFor(c, bindings[k].evidenceId).Some?
                      && Identity(RunFor(c, bindings[k].evidenceId).value) == x)
    && (forall d :: d in s.digests ==>
          exists k :: 0 <= k < |bindings| && RunFor(c, bindings[k].evidenceId).Some?
                      && ContentOf(c.retention, bindings[k].evidenceId) == d)
    && (forall k :: 0 <= k < |bindings| ==> ContentOf(c.retention, bindings[k].evidenceId) in s.digests)
  }

  ghost predicate CountsOk(c: Contract, m: Manifest, ids: seq<string>, counts: map<string, nat>) {
    && (forall b :: b in m.budgets ==>
          b.budgetId in counts && counts[b.budgetId] == CountOf(InStudies(c, b.studyIds), ids))
    && (forall id :: id in counts ==> exists b :: b in m.budgets && b.budgetId == id)
  }

  ghost predicate RowsOk(c: Contract, m: Manifest, disk: Disk, e: Encoding, capture: bool,
                         bindings: seq<ArtifactBinding>, observations: seq<Observation>) {
    && Map(RowKeyOf, observations) == (if capture then AllKeys(c, m.budgets, IdsOf(bindings)) else [])
    && forall o :: o in observations ==> ObservedIn(c, disk, e, bindings, o)
  }

  // Some binding's artifact recorded the observation.
  ghost predicate ObservedIn(c: Contract, disk: Disk, e: Encoding, bindings: seq<ArtifactBinding>, o: Observation) {
    exists b :: b in bindings && RunFor(c, b.evidenceId).Some? && disk.load(b.runDir).Some?
                && ObservedAt(c, e, RunFor(c, b.evidenceId).value, b, disk.load(b.runDir).value, o)
  }

  ghost predicate ProgressOk(c: Contract, m: Manifest, disk: Disk, e: Encoding, capture: bool,
                             bindings: seq<ArtifactBinding>, s: Progress) {
    && (forall b :: b in bindings ==> ItemOk(c, m, disk, e, b))
    && s.rows == RowsFor(c, disk, m.version, bindings) && SeenOk(c, bindings, s)
    && CountsOk(c, m, IdsOf(bindings), s.counts) && RowsOk(c, m, disk, e, capture, bindings, s.observations)
  }

  // Content and identity of one artifact, in the order the checks are made.
  method CheckContent(c: Contract, disk: Disk, b: ArtifactBinding, s: Progress, ghost before: seq<ArtifactBinding>)
    returns (why: Option<Failure>)
    requires StudiesOk(c) && RunFor(c, b.evidenceId).Some? && SeenOk(c, before, s)
    requires forall k :: 0 <= k < |before| ==> before[k].evidenceId != b.evidenceId
    ensures why == ContentFailure(c, disk, before, b)
    ensures why.None? <==> ContentOk(c, disk, b)
  {
    hide StudiesOk, RunFor, ContentOf;
    var p := RunFor(c, b.evidenceId).value;
    if disk.load(b.runDir).None? { return Some(Unreadable); }
    var a := disk.load(b.runDir).value;
    if a.mode != "bench-full" || (a.target, a.runId) != Identity(p) { return Some(RunMismatch); }
    NotRepeated(c, b, before, s);
    if (a.target, a.runId) in s.identities || a.sha256 in s.digests {
      return Some(RepeatedArtifact);
    }
    assert forall k :: 0 <= k < |before| ==> ContentOf(c.retention, before[k].evidenceId) != a.sha256;
    if a.sha256 != ContentOf(c.retention, b.evidenceId) { return Some(ContentMismatch); }
    why := None;
  }

  lemma NotRepeated(c: Contract, b: ArtifactBinding, before: seq<ArtifactBinding>, s: Progress)
    requires StudiesOk(c) && RunFor(c, b.evidenceId).Some? && SeenOk(c, before, s)
    requires forall k :: 0 <= k < |before| ==> before[k].evidenceId != b.evidenceId
    ensures Identity(RunFor(c, b.evidenceId).value) !in s.identities
    ensures ContentOf(c.retention, b.evidenceId) !in s.digests
  {
    hide StudiesOk, RunFor, ContentOf;
    forall k | 0 <= k < |before| && RunFor(c, before[k].evidenceId).Some?
      ensures Identity(RunFor(c, before[k].evidenceId).value) != Identity(RunFor(c, b.evidenceId).value)
      ensures ContentOf(c.retention, before[k].evidenceId) != ContentOf(c.retention, b.evidenceId)
    {
      RunsAreDistinct(c, before[k].evidenceId, b.evidenceId);
    }
  }

  lemma BoundRules(c: Contract, m: Manifest, studyId: string, s: Progress, ids: seq<string>)
    requires Ready(c, m) && m.version == 3 && CountsOk(c, m, ids, s.counts)
    ensures NoRepeats(BoundTo(m.budgets, studyId))
    ensures forall id :: id in BoundTo(m.budgets, studyId) ==> id in s.counts && RuleFor(c, id).Some?
  {
    hide StudiesOk, CoversRuns, BudgetOk, FindBy, BoundTo, IsId;
    BoundToDistinct(m.budgets, studyId);
    forall id | id in BoundTo(m.budgets, studyId) ensures id in s.counts && RuleFor(c, id).Some? {
      BoundToIs(m.budgets, studyId, id);
      var b :| b in m.budgets && b.budgetId == id && studyId in b.studyIds;
      var i := Find(m.budgets, b);
      assert Map(BudgetIdOf, m.budgets)[i] == id;
      var j := Find(Map(BudgetId, c.budgets), id);
      FindByIs(BudgetId, c.budgets, id);
      assert c.budgets[j] in c.budgets;
    }
  }

  // The counters after a run whose study is `studyId`.
  lemma CountsStep(c: Contract, m: Manifest, ids: seq<string>, id: string, counts: map<string, nat>,
                   counts': map<string, nat>)
    requires DistinctKeys(BudgetIdOf, m.budgets) && CountsOk(c, m, ids, counts) && RunFor(c, id).Some?
    requires Counted(counts, counts', BoundTo(m.budgets, RunFor(c, id).value.studyId))
    ensures CountsOk(c, m, ids + [id], counts')
  {
    hide RunFor, BoundTo;
    var studyId := RunFor(c, id).value.studyId;
    forall b | b in m.budgets
      ensures b.budgetId in counts' && counts'[b.budgetId] == CountOf(InStudies(c, b.studyIds), ids + [id])
    {
      CountConcat(InStudies(c, b.studyIds), ids, [id]);
      BoundToIs(m.budgets, studyId, b.budgetId);
      BindingById(m.budgets, b, studyId);
    }
  }

  lemma BindingById(budgets: seq<BudgetBinding>, b: BudgetBinding, studyId: string)
    requires DistinctKeys(BudgetIdOf, budgets) && b in budgets
    ensures (exists x :: x in budgets && x.budgetId == b.budgetId && studyId in x.studyIds) <==> studyId in b.studyIds
  {
  }

  lemma CountsUnbound(c: Contract, m: Manifest, ids: seq<string>, id: string, counts: map<string, nat>)
    requires m.budgets == [] && CountsOk(c, m, ids, counts)
    ensures CountsOk(c, m, ids + [id], counts)
  {
  }

  lemma RowsStep(c: Contract, m: Manifest, disk: Disk, e: Encoding, capture: bool, before: seq<ArtifactBinding>,
                 b: ArtifactBinding, observations: seq<Observation>, more: seq<Observation>)
    requires RowsOk(c, m, disk, e, capture, before, observations)
    requires RunFor(c, b.evidenceId).Some? && disk.load(b.runDir).Some?
    requires Map(RowKeyOf, more) == if capture then KeysAt(c, m.budgets, b.evidenceId) else []
    requires forall o :: o in more ==> ObservedAt(c, e, RunFor(c, b.evidenceId).value, b, disk.load(b.runDir).value, o)
    ensures RowsOk(c, m, disk, e, capture, before + [b], observations + more)
  {
    hide RunFor, KeysAt, ObservedAt, ObservedIn, AllKeys;
    KeysStep(c, m, capture, before, b, observations, more);
    forall o | o in observations + more ensures ObservedIn(c, disk, e, before + [b], o) {
      if o in observations {
        StaysObserved(c, disk, e, before, b, o);
      } else {
        IsObserved(c, disk, e, before, b, o);
      }
    }
  }

  lemma KeysStep(c: Contract, m: Manifest, capture: bool, before: seq<ArtifactBinding>, b: ArtifactBinding,
                 observations: seq<Observation>, more: seq<Observation>)
    requires RunFor(c, b.evidenceId).Some?
    requires Map(RowKeyOf, observations) == if capture then AllKeys(c, m.budgets, IdsOf(before)) else []
    requires Map(RowKeyOf, more) == if capture then KeysAt(c, m.budgets, b.evidenceId) else []
    ensures Map(RowKeyOf, observations + more) == if capture then AllKeys(c, m.budgets, IdsOf(before + [b])) else []
  {
    hide RunFor, KeysAt;
    assert IdsOf(before + [b]) == IdsOf(before) + [b.evidenceId];
    AllKeysConcat(c, m.budgets, IdsOf(before), [b.evidenceId]);
    assert AllKeys(c, m.budgets, [b.evidenceId]) == KeysAt(c, m.budgets, b.evidenceId);
    assert Map(RowKeyOf, observations + more) == Map(RowKeyOf, observations) + Map(RowKeyOf, more);
  }

  lemma StaysObserved(c: Contract, disk: Disk, e: Encoding, before: seq<ArtifactBinding>, b: ArtifactBinding,
                      o: Observation)
    requires ObservedIn(c, disk, e, before, o)
    ensures ObservedIn(c, disk, e, before + [b], o)
  {
    hide RunFor, ObservedAt;
    var x :| x in before && RunFor(c, x.evidenceId).Some? && disk.load(x.runDir).Some?
             && ObservedAt(c, e, RunFor(c, x.evidenceId).value, x, disk.load(x.runDir).value, o);
    assert x in before + [b];
  }

  lemma IsObserved(c: Contract, disk: Disk, e: Encoding, before: seq<ArtifactBinding>, b: ArtifactBinding,
                   o: Observation)
    requires RunFor(c, b.evidenceId).Some? && disk.load(b.runDir).Some?
    requires ObservedAt(c, e, RunFor(c, b.evidenceId).value, b, disk.load(b.runDir).value, o)
    ensures ObservedIn(c, disk, e, before + [b], o)
  {
    hide RunFor, ObservedAt;
    assert b in before + [b];
  }

  lemma SeenGrows(c: Contract, before: seq<ArtifactBinding>, b: ArtifactBinding, s: Progress, s': Progress)
    requires SeenOk(c, before, s) && RunFor(c, b.evidenceId).Some?
    requires s'.identities == s.identities + {Identity(RunFor(c, b.evidenceId).value)}
    requires s'.digests == s.digests + {ContentOf(c.retention, b.evidenceId)}
    ensures SeenOk(c, before + [b], s')
  {
    hide RunFor, ContentOf;
    var all := before + [b];
    assert all[|before|] == b && forall k :: 0 <= k < |before| ==> all[k] == before[k];
    forall x | x in s'.identities
      ensures exists k :: 0 <= k < |all| && RunFor(c, all[k].evidenceId).Some?
                          && Identity(RunFor(c, all[k].evidenceId).value) == x
    {
      if x in s.identities {
        var k :| 0 <= k < |before| && RunFor(c, before[k].evidenceId).Some?
                 && Identity(RunFor(c, before[k].evidenceId).value) == x;
        assert all[k] == before[k];
      }
    }
    forall d | d in s'.digests
      ensures exists k :: 0 <= k < |all| && RunFor(c, all[k].evidenceId).Some?
                          && ContentOf(c.retention, all[k].evidenceId) == d
    {
      if d in s.digests {
        var k :| 0 <= k < |before| && RunFor(c, before[k].evidenceId).Some?
                 && ContentOf(c.retention, before[k].evidenceId) == d;
        assert all[k] == before[k];
      }
    }
  }

  method CheckSets(c: Contract, e: Encoding, p: Placed, a: Artifact) returns (ok: bool)
    requires FindStudy(c.studies, p.studyId).Some?
    ensures ok <==> SetsOk(c, e, p, a)
  {
    hide ProducerSet, ScenarioSet, FindStudy;
    var study := FindStudy(c.studies, p.studyId).value;
    var producers := ProducerSetIdentity(e, a.producers);
    var scenarios := ScenarioSetIdentity(e, Map(ProjectionOf, a.scenarios));
    if producers.None? || scenarios.None? { return false; }
    ok := producers.value == p.run.producerSet && producers.value == study.producerSet
          && scenarios.value == p.run.scenarioSet && scenarios.value == study.scenarioSet;
  }

  // The budget part of one artifact, for manifests that have one.
  method CheckBudgets(c: Contract, m: Manifest, e: Encoding, byStudy: map<string, seq<string>>, b: ArtifactBinding,
                      p: Placed, a: Artifact, s: Progress, capture: bool, ghost ids: seq<string>)
    returns (why: Option<Failure>, counts: map<string, nat>, more: seq<Observation>)
    requires Ready(c, m) && m.version == 3 && Groups(byStudy, m.budgets) && CountsOk(c, m, ids, s.counts)
    requires RunFor(c, b.evidenceId) == Some(p)
    ensures why == BudgetFailure(c, m, e, p, a)
    ensures why.None? <==> BudgetsMatch(c, m, e, p, a)
    ensures why.None? ==> CountsOk(c, m, ids + [b.evidenceId], counts)
    ensures why.None? ==> Map(RowKeyOf, more) == if capture then KeysAt(c, m.budgets, b.evidenceId) else []
    ensures forall o :: o in more ==> ObservedAt(c, e, p, b, a, o)
  {
    hide Indexable, IsIndex, RuleMatches, RuleFor, Matches, ObservedAt, RunFor, CountsOk, BoundTo, Ready, Counted;
    counts, more := s.counts, [];
    var index := IndividualIndex(e, a.scenarios);
    if index.None? { return Some(BadIndex), counts, more; }
    BoundRules(c, m, p.studyId, s, ids);
    var bound := Get(byStudy, p.studyId);
    assert bound == BoundTo(m.budgets, p.studyId);
    var ok;
    ok, counts, more := MatchBudgets(c, e, p, b, a, bound, index.value, s.counts, capture);
    if !ok { return Some(NoBudgetMatch), counts, more; }
    assert DistinctKeys(BudgetIdOf, m.budgets) by { DistinctBudgets(c, m); }
    CountsStep(c, m, ids, b.evidenceId, s.counts, counts);
    why := None;
  }

  lemma DistinctBudgets(c: Contract, m: Manifest)
    requires Ready(c, m) && m.version == 3
    ensures DistinctKeys(BudgetIdOf, m.budgets)
  {
  }

  lemma CoveredRun(c: Contract, m: Manifest, b: ArtifactBinding)
    requires Ready(c, m) && b in m.artifacts
    ensures RunFor(c, b.evidenceId).Some? && RunFor(c, b.evidenceId).value in AllPlaced(c.studies)
    ensures FindStudy(c.studies, RunFor(c, b.evidenceId).value.studyId).Some?
  {
    hide StudyOk, AllPlaced, PlacedOk, FindBy, BudgetsOk;
    MembersOfMap(EvidenceIdOf, m.artifacts);
    assert EvidenceIdOf(b) in Map(EvidenceIdOf, m.artifacts);
    var placed := AllPlaced(c.studies);
    var j := Find(Map(ArtifactOf, placed), b.evidenceId);
    FindByIs(ArtifactOf, placed, b.evidenceId);
    assert placed[j] in placed;
    PlacedStudy(c, RunFor(c, b.evidenceId).value);
  }

  method Step(c: Contract, m: Manifest, disk: Disk, e: Encoding, byStudy: map<string, seq<string>>, capture: bool,
              i: nat, s: Progress)
    returns (why: Option<Failure>, s': Progress)
    requires Ready(c, m) && i < |m.artifacts| && (m.version == 3 ==> Groups(byStudy, m.budgets))
    requires capture ==> m.version == 3
    requires ProgressOk(c, m, disk, e, capture, m.artifacts[..i], s)
    ensures why.None? <==> ItemOk(c, m, disk, e, m.artifacts[i])
    ensures why == ItemFailure(c, m, disk, e, m.artifacts[..i], m.artifacts[i])
    ensures why.None? ==> ProgressOk(c, m, disk, e, capture, m.artifacts[..i + 1], s')
  {
    hide Ready, RunFor, ContentOf, SetsOk, BudgetsMatch, SeenOk, CountsOk, RowsOk, ObservedAt, FindStudy, RowFor,
         Groups, BudgetFailure;
    s' := s;
    var b := m.artifacts[i];
    ghost var before := m.artifacts[..i];
    PrefixStep(m.artifacts, i);
    assert b in m.artifacts;
    CoveredRun(c, m, b);
    EarlierDiffer(c, m, i);
    var content := CheckContent(c, disk, b, s, before);
    if content.Some? { return content, s; }
    var p, a := RunFor(c, b.evidenceId).value, disk.load(b.runDir).value;
    if m.version >= 2 {
      var sets := CheckSets(c, e, p, a);
      if !sets { return Some(SetMismatch), s; }
    }
    var counts, more := s.counts, [];
    if m.version == 3 {
      var budgets;
      budgets, counts, more := CheckBudgets(c, m, e, byStudy, b, p, a, s, capture, IdsOf(before));
      if budgets.Some? { return budgets, s; }
    } else {
      assert m.budgets == [] by { UnboundManifest(c, m); }
      CountsUnbound(c, m, IdsOf(before), b.evidenceId, s.counts);
    }
    s' := Progress(s.identities + {(a.target, a.runId)}, s.digests + {a.sha256},
                   s.rows + [RowFor(c, disk, m.version, b)], counts, s.observations + more);
    assert IdsOf(before + [b]) == IdsOf(before) + [b.evidenceId];
    SeenGrows(c, before, b, s, s');
    RowsStep(c, m, disk, e, capture, before, b, s.observations, more);
    assert s'.rows == RowsFor(c, disk, m.version, before + [b]);
    why := None;
  }

  lemma UnboundManifest(c: Contract, m: Manifest)
    requires Ready(c, m) && m.version != 3
    ensures m.budgets == []
  {
  }

  lemma EarlierDiffer(c: Contract, m: Manifest, i: nat)
    requires Ready(c, m) && i < |m.artifacts|
    ensures StudiesOk(c)
    ensures forall k :: 0 <= k < i ==> m.artifacts[..i][k].evidenceId != m.artifacts[i].evidenceId
  {
    forall k | 0 <= k < i ensures m.artifacts[k].evidenceId != m.artifacts[i].evidenceId {
      assert EvidenceIdOf(m.artifacts[k]) != EvidenceIdOf(m.artifacts[i]);
    }
  }

  // ---- The whole verification ----

  predicate ArtifactKind(c: Contract, id: string) {
    Lookup(c.retention, id).Some? && Lookup(c.retention, id).value.kind == BenchmarkArtifact
  }

  // The checks on the documents alone.
  function Gate(c: Contract, m: Manifest, digest: string, capture: bool): Option<Failure> {
    if capture && m.version != 3 then Some(NeedsVersion3)
    else if m.pin != digest then Some(PinMismatch)
    else if (set b | b in m.artifacts :: b.evidenceId) != (set p | p in AllPlaced(c.studies) :: ArtifactOf(p))
    then Some(ArtifactCoverage)
    else if exists p | p in AllPlaced(c.studies) :: !ArtifactKind(c, ArtifactOf(p)) then Some(WrongKind)
    else if m.version == 3 && (set b | b in m.budgets :: b.budgetId) != (set b | b in c.budgets :: b.id)
    then Some(BudgetCoverage)
    else None
  }

  lemma GateIs(c: Contract, m: Manifest, digest: string, capture: bool)
    requires StudiesOk(c)
    ensures Gate(c, m, digest, capture)
            == if capture && m.version != 3 then Some(NeedsVersion3)
               else if m.pin != digest then Some(PinMismatch)
               else if !CoversRuns(c, m) then Some(ArtifactCoverage)
               else if m.version == 3 && !CoversRules(c, m) then Some(BudgetCoverage)
               else None
    ensures Gate(c, m, digest, capture).None? <==>
              (capture ==> m.version == 3) && m.pin == digest && CoversRuns(c, m)
              && (m.version == 3 ==> CoversRules(c, m))
  {
    hide StudiesOk, AllPlaced, CoversRuns, CoversRules, FindBy;
    CoverageAsSets(c, m);
    RuleCoverageAsSets(c, m);
    forall p | p in AllPlaced(c.studies) ensures ArtifactKind(c, ArtifactOf(p)) { RunsHaveArtifactKind(c, p); }
  }

  lemma StudiesKnownIs(c: Contract, m: Manifest)
    ensures StudiesKnown(c, m) <==> forall b :: b in m.budgets ==> StudiesExist(c, b)
  {
  }

  method CheckGates(c: Contract, m: Manifest, disk: Disk, ghost e: Encoding, digest: string, capture: bool)
    returns (why: Option<Failure>, byStudy: map<string, seq<string>>)
    requires StudiesOk(c) && BudgetsOk(c) && ManifestOk(m)
    ensures why.None? <==> GatesOk(c, m, disk, digest, capture)
    ensures why.Some? ==> Why(c, m, disk, e, digest, capture) == why
    ensures why.None? ==> Why(c, m, disk, e, digest, capture) == FirstFailure(c, m, disk, e, 0)
    ensures why.None? && m.version == 3 ==> Groups(byStudy, m.budgets)
  {
    hide StudiesOk, BudgetsOk, CoversRuns, CoversRules, StudiesKnown, DirectoriesOk, SelectedRows, StudiesExist, Gate,
         IsId, Groups, DistinctKeys, FirstFailure;
    byStudy := map[];
    GateIs(c, m, digest, capture);
    why := Gate(c, m, digest, capture);
    if why.Some? { return; }
    StudiesKnownIs(c, m);
    if m.version == 3 {
      var known;
      known, byStudy := BudgetsByStudy(c, m.budgets);
      if !known { return Some(UnknownStudy), byStudy; }
    }
    var directories := CheckDirectories(m, disk);
    if !directories { return Some(BadDirectories), byStudy; }
    if capture && SelectedRows(c, m) > MAX_ROWS { return Some(RowLimit), byStudy; }
  }

  method InitialCounts(c: Contract, m: Manifest) returns (counts: map<string, nat>)
    ensures CountsOk(c, m, [], counts)
  {
    counts := map b | b in m.budgets :: b.budgetId := 0;
  }

  lemma FinalCounts(c: Contract, m: Manifest, counts: map<string, nat>)
    requires Ready(c, m) && m.version == 3 && CountsOk(c, m, IdsOf(m.artifacts), counts)
    ensures forall b :: b in m.budgets ==> b.budgetId in counts && counts[b.budgetId] == Selected(c)(b)
  {
    hide StudiesOk, CoversRuns, CoversRules, BudgetsOk, Selected, IsId, DistinctKeys;
    forall b | b in m.budgets ensures b.budgetId in counts && counts[b.budgetId] == Selected(c)(b) {
      MatchesPerBudget(c, m, b);
    }
  }

  lemma RowOrder()
    ensures TotalPreorder(ObservationLe)
  {
    forall a, b ensures ObservationLe(a, b) || ObservationLe(b, a) {
      StringLeTotal(a.budgetId, b.budgetId);
      PairLeTotal((a.studyId, a.evidenceId), (b.studyId, b.evidenceId));
    }
    forall a, b, c | ObservationLe(a, b) && ObservationLe(b, c) ensures ObservationLe(a, c) {
      RowOrderTransitive(a, b, c);
    }
  }

  lemma RowOrderTransitive(a: Observation, b: Observation, c: Observation)
    requires ObservationLe(a, b) && ObservationLe(b, c)
    ensures ObservationLe(a, c)
  {
    hide StringLe, PairLe;
    StringLeTotal(a.budgetId, b.budgetId);
    StringLeTotal(b.budgetId, c.budgetId);
    if a.budgetId == b.budgetId == c.budgetId {
      PairLeTransitive((a.studyId, a.evidenceId), (b.studyId, b.evidenceId), (c.studyId, c.evidenceId));
    } else {
      if a.budgetId != b.budgetId && b.budgetId != c.budgetId {
        StringLeTransitive(a.budgetId, b.budgetId, c.budgetId);
      }
    }
  }

  // The rows of a captured verification.
  ghost predicate ObservationsOk(c: Contract, m: Manifest, disk: Disk, e: Encoding, observations: seq<Observation>) {
    && Sorted(ObservationLe, observations) && NoRepeats(Map(RowKeyOf, observations))
    && (forall key :: key in Map(RowKeyOf, observations) <==> IsRow(c, m, key))
    && |observations| == SelectedRows(c, m)
    && forall o :: o in observations ==> ObservedIn(c, disk, e, m.artifacts, o)
  }

  lemma CapturedRows(c: Contract, m: Manifest, disk: Disk, e: Encoding, observations: seq<Observation>)
    requires Ready(c, m) && RowsOk(c, m, disk, e, true, m.artifacts, observations)
    ensures |observations| == SelectedRows(c, m)
    ensures |set k | k in Map(RowKeyOf, observations)| == SelectedRows(c, m)
    ensures ObservationsOk(c, m, disk, e, Sort(ObservationLe, observations))
  {
    hide StudiesOk, CoversRuns, CoversRules, BudgetsOk, ManifestOk, SelectedRows, IsRow, AllKeys, ObservedIn, Sort,
         ObservationLe;
    var sorted := Sort(ObservationLe, observations);
    RowsAreTheTriples(c, m);
    var keys := Map(RowKeyOf, observations);
    NoRepeatsSize(keys);
    RowOrder();
    SortSorted(ObservationLe, observations);
    MapReordered(RowKeyOf, observations, sorted);
    MultisetMembers(observations, sorted);
    MultisetMembers(keys, Map(RowKeyOf, sorted));
    DistinctMap(RowKeyOf, observations);
    DistinctKeysReordered(RowKeyOf, observations, sorted);
    DistinctMap(RowKeyOf, sorted);
  }

  // What verification reports: the first check that fails; otherwise the rows in manifest order, each bound
  // budget counted once per run of its studies, and when captured the (budget, study, run) triples, sorted,
  // each with what the run's artifact recorded.
  ghost predicate OutcomeOk(c: Contract, m: Manifest, disk: Disk, e: Encoding, digest: string, capture: bool,
                            r: Outcome)
  {
    match Why(c, m, disk, e, digest, capture)
    case Some(why) => r == Failed(why)
    case None =>
      && r.Verified? && (forall b :: b in m.artifacts ==> ContentOk(c, disk, b))
      && r.rows == RowsFor(c, disk, m.version, m.artifacts)
      && r.counts.Keys == (set b | b in m.budgets :: b.budgetId)
      && (forall b :: b in m.budgets ==> b.budgetId in r.counts && r.counts[b.budgetId] == Selected(c)(b))
      && if capture then ObservationsOk(c, m, disk, e, r.observations) else r.observations == []
  }

  // Verification succeeds exactly when everything declared holds. The kind check and both closing coverage
  // tests never fail.
  method VerifyArtifacts(c: Contract, m: Manifest, disk: Disk, e: Encoding, digest: string, capture: bool)
    returns (r: Outcome)
    requires StudiesOk(c) && BudgetsOk(c) && ManifestOk(m)
    ensures r.Verified? <==> Verifies(c, m, disk, e, digest, capture)
    ensures OutcomeOk(c, m, disk, e, digest, capture, r)
    ensures r.Verified? ==> && |r.rows| == |m.artifacts|
                            && forall i :: 0 <= i < |r.rows| ==>
                                 RowSays(c, disk, e, m.version, m.artifacts[i], r.rows[i])
    ensures r.Failed? ==> r.why !in {WrongKind, MatchCoverage, RowCoverage}
  {
    hide StudiesOk, BudgetsOk, ManifestOk, GatesOk, ItemOk, ContentOk, Groups, ObservationsOk, Selected, CountsOk,
         RowsOk, SeenOk, SelectedRows, Why, ItemFailure, FirstFailure, RowSays, RowFor;
    UnreachableFailures(c, m, disk, e, digest, capture);
    var why, byStudy := CheckGates(c, m, disk, e, digest, capture);
    if why.Some? { return Failed(why.value); }
    assert Ready(c, m) && (capture ==> m.version == 3) by { GatesReady(c, m, disk, digest, capture); }
    var counts := InitialCounts(c, m);
    var s := Progress({}, {}, [], counts, []);
    StartOk(c, m, disk, e, capture, s);
    var i := 0;
    while i < |m.artifacts|
      invariant 0 <= i <= |m.artifacts|
      invariant ProgressOk(c, m, disk, e, capture, m.artifacts[..i], s)
      invariant FirstFailure(c, m, disk, e, 0) == FirstFailure(c, m, disk, e, i)
    {
      FirstFailureStep(c, m, disk, e, i);
      why, s := Step(c, m, disk, e, byStudy, capture, i, s);
      if why.Some? {
        assert m.artifacts[i] in m.artifacts;
        return Failed(why.value);
      }
      i := i + 1;
    }
    assert m.artifacts[..i] == m.artifacts;
    assert FirstFailure(c, m, disk, e, i).None? by { NoMoreFailures(c, m, disk, e); }
    r := Finish(c, m, disk, e, capture, s);
    assert forall b :: b in m.artifacts ==> ContentOk(c, disk, b) by { ItemsHaveContent(c, m, disk, e); }
    forall k | 0 <= k < |r.rows| ensures RowSays(c, disk, e, m.version, m.artifacts[k], r.rows[k]) {
      assert m.artifacts[k] in m.artifacts;
      VerifiedRow(c, m, disk, e, m.artifacts[k]);
    }
  }

  lemma VerifiedRow(c: Contract, m: Manifest, disk: Disk, e: Encoding, b: ArtifactBinding)
    requires Ready(c, m) && b in m.artifacts && ItemOk(c, m, disk, e, b)
    ensures ContentOk(c, disk, b) && RowSays(c, disk, e, m.version, b, RowFor(c, disk, m.version, b))
  {
    hide StudiesOk, BudgetsOk, ManifestOk, CoversRuns, CoversRules, BudgetsMatch, ProducerSet, ScenarioSet, AllPlaced,
         FindBy;
    CoveredRun(c, m, b);
    var p := RunFor(c, b.evidenceId).value;
    FindByIs(ArtifactOf, AllPlaced(c.studies), b.evidenceId);
    RunsHaveArtifactKind(c, p);
    FindByIs(EvidenceId, c.retention, b.evidenceId);
    var kept := Lookup(c.retention, b.evidenceId).value;
    FindByIs(StudyId, c.studies, p.studyId);
    var s := FindStudy(c.studies, p.studyId).value;
    var a := disk.load(b.runDir).value;
    assert kept in c.retention && kept.id == b.evidenceId && s in c.studies && s.id == p.studyId;
  }

  lemma FirstFailureStep(c: Contract, m: Manifest, disk: Disk, e: Encoding, i: nat)
    requires i < |m.artifacts|
    ensures var why := ItemFailure(c, m, disk, e, m.artifacts[..i], m.artifacts[i]);
            FirstFailure(c, m, disk, e, i) == if why.Some? then why else FirstFailure(c, m, disk, e, i + 1)
  {
    hide ItemFailure;
  }

  lemma NoMoreFailures(c: Contract, m: Manifest, disk: Disk, e: Encoding)
    ensures FirstFailure(c, m, disk, e, |m.artifacts|).None?
  {
    hide ItemFailure;
  }

  lemma UnreachableFailures(c: Contract, m: Manifest, disk: Disk, e: Encoding, digest: string, capture: bool)
    ensures Why(c, m, disk, e, digest, capture) !in {Some(WrongKind), Some(MatchCoverage), Some(RowCoverage)}
  {
    hide FirstFailure, GateFailure, SelectedRows;
    LoopFailures(c, m, disk, e, 0);
    assert GateFailure(c, m, disk, digest) !in {Some(WrongKind), Some(MatchCoverage), Some(RowCoverage)} by {
      GateFailures(c, m, disk, digest);
    }
  }

  lemma GateFailures(c: Contract, m: Manifest, disk: Disk, digest: string)
    ensures GateFailure(c, m, disk, digest) !in {Some(WrongKind), Some(MatchCoverage), Some(RowCoverage)}
  {
    hide CoversRuns, CoversRules, StudiesKnown, DirectoriesOk;
  }

  lemma {:induction false} LoopFailures(c: Contract, m: Manifest, disk: Disk, e: Encoding, i: nat)
    ensures FirstFailure(c, m, disk, e, i) !in {Some(WrongKind), Some(MatchCoverage), Some(RowCoverage)}
    decreases |m.artifacts| - i
  {
    hide SetsOk, BudgetsMatch, Indexable, RunFor, ContentOf;
    if i < |m.artifacts| { LoopFailures(c, m, disk, e, i + 1); }
  }

  // Capturing observations adds the row limit, checked after the gates, and changes nothing else: within
  // the limit a verification with and without capture has the same failure, the same rows and the same counts.
  lemma CaptureOnlyAddsTheLimit(c: Contract, m: Manifest, disk: Disk, e: Encoding, digest: string, plain: Outcome,
                                captured: Outcome)
    requires m.version == 3
    requires OutcomeOk(c, m, disk, e, digest, false, plain) && OutcomeOk(c, m, disk, e, digest, true, captured)
    ensures SelectedRows(c, m) <= MAX_ROWS ==>
              if plain.Failed? then captured == plain
              else captured.Verified? && captured.rows == plain.rows && captured.counts == plain.counts
    ensures SelectedRows(c, m) > MAX_ROWS ==>
              captured == Failed(if GateFailure(c, m, disk, digest).Some? then plain.why else RowLimit)
  {
    hide FirstFailure, GateFailure, SelectedRows, ContentOk, ObservationsOk, Selected, RowsFor;
    if plain.Verified? && captured.Verified? {
      forall id | id in plain.counts ensures captured.counts[id] == plain.counts[id] {
        var b :| b in m.budgets && b.budgetId == id;
      }
    }
  }

  // ---- Manifest versions refine each other ----

  // The checks a manifest cut to a version no longer asks for.
  predicate DroppedBy(version: int, why: Failure) {
    why in {BudgetCoverage, UnknownStudy, BadIndex, NoBudgetMatch} || (version == 1 && why == SetMismatch)
  }

  lemma ItemFailureCut(c: Contract, m: Manifest, version: int, disk: Disk, e: Encoding, before: seq<ArtifactBinding>,
                       b: ArtifactBinding)
    requires 1 <= version <= 2 && version <= m.version
    ensures var why := ItemFailure(c, m, disk, e, before, b);
            why.None? || !DroppedBy(version, why.value) ==> ItemFailure(c, CutTo(m, version), disk, e, before, b) == why
  {
    hide SetsOk, BudgetsMatch, Indexable, ContentFailure;
    assert ContentFailure(c, disk, before, b).None? ==> RunFor(c, b.evidenceId).Some? && disk.load(b.runDir).Some? by {
      ContentLoads(c, disk, before, b);
    }
  }

  lemma ContentLoads(c: Contract, disk: Disk, before: seq<ArtifactBinding>, b: ArtifactBinding)
    ensures ContentFailure(c, disk, before, b).None? ==> RunFor(c, b.evidenceId).Some? && disk.load(b.runDir).Some?
  {
    hide RunFor, ContentOf;
  }

  lemma {:induction false} FirstFailureCut(c: Contract, m: Manifest, version: int, disk: Disk, e: Encoding, i: nat)
    requires 1 <= version <= 2 && version <= m.version
    ensures var why := FirstFailure(c, m, disk, e, i);
            why.None? || !DroppedBy(version, why.value) ==> FirstFailure(c, CutTo(m, version), disk, e, i) == why
    decreases |m.artifacts| - i
  {
    hide ItemFailure, DroppedBy;
    if i < |m.artifacts| {
      ItemFailureCut(c, m, version, disk, e, m.artifacts[..i], m.artifacts[i]);
      FirstFailureCut(c, m, version, disk, e, i + 1);
    }
  }

  lemma WhyCut(c: Contract, m: Manifest, version: int, disk: Disk, e: Encoding, digest: string)
    requires 1 <= version <= 2 && version <= m.version
    ensures var why := Why(c, m, disk, e, digest, false);
            why.None? || !DroppedBy(version, why.value) ==> Why(c, CutTo(m, version), disk, e, digest, false) == why
  {
    hide FirstFailure, SelectedRows;
    FirstFailureCut(c, m, version, disk, e, 0);
    assert DirectoriesOk(CutTo(m, version), disk) <==> DirectoriesOk(m, disk);
    assert CoversRuns(c, CutTo(m, version)) <==> CoversRuns(c, m);
  }

  // A manifest and the same one cut to a lower version: if the first verifies so does the second, with the
  // same rows less the columns of the stronger version; if it fails a check the second still makes, the
  // second fails the same one.
  lemma CutManifestVerifies(c: Contract, m: Manifest, version: int, disk: Disk, e: Encoding, digest: string,
                            full: Outcome, cut: Outcome)
    requires ManifestOk(m) && 1 <= version <= 2 && version <= m.version
    requires OutcomeOk(c, m, disk, e, digest, false, full)
    requires OutcomeOk(c, CutTo(m, version), disk, e, digest, false, cut)
    ensures ManifestOk(CutTo(m, version))
    ensures full.Verified? ==> && cut.Verified? && cut.counts == map[]
                               && cut.rows == if version == 2 then full.rows else Map(WithoutSets, full.rows)
    ensures full.Failed? && !DroppedBy(version, full.why) ==> cut == full
  {
    hide Why, DroppedBy, ContentOk, ObservationsOk, Selected, IsId, IsDigest;
    WhyCut(c, m, version, disk, e, digest);
    if full.Verified? && cut.Verified? { CutRows(c, m, version, disk); }
  }

  lemma CutRows(c: Contract, m: Manifest, version: int, disk: Disk)
    requires 1 <= version <= 2 && version <= m.version && forall b :: b in m.artifacts ==> ContentOk(c, disk, b)
    ensures var rows := RowsFor(c, disk, m.version, m.artifacts);
            RowsFor(c, disk, version, m.artifacts) == if version == 2 then rows else Map(WithoutSets, rows)
  {
    hide RunFor, ContentOf;
  }

  lemma ItemsHaveContent(c: Contract, m: Manifest, disk: Disk, e: Encoding)
    requires forall b :: b in m.artifacts ==> ItemOk(c, m, disk, e, b)
    ensures forall b :: b in m.artifacts ==> ContentOk(c, disk, b)
  {
  }

  lemma GatesReady(c: Contract, m: Manifest, disk: Disk, digest: string, capture: bool)
    requires StudiesOk(c) && BudgetsOk(c) && ManifestOk(m) && GatesOk(c, m, disk, digest, capture)
    ensures Ready(c, m) && (capture ==> m.version == 3)
  {
  }

  lemma StartOk(c: Contract, m: Manifest, disk: Disk, e: Encoding, capture: bool, s: Progress)
    requires s == Progress({}, {}, [], s.counts, []) && CountsOk(c, m, [], s.counts)
    ensures ProgressOk(c, m, disk, e, capture, m.artifacts[..0], s)
  {
    hide CountsOk, AllPlaced;
    assert IdsOf(m.artifacts[..0]) == [];
    assert Map(RowKeyOf, s.observations) == [];
  }

  lemma CountedKeys(c: Contract, m: Manifest, counts: map<string, nat>)
    requires CountsOk(c, m, IdsOf(m.artifacts), counts)
    ensures counts.Keys == (set b | b in m.budgets :: b.budgetId)
  {
  }

  // The closing coverage tests; neither can fail.
  method Finish(c: Contract, m: Manifest, disk: Disk, e: Encoding, capture: bool, s: Progress) returns (r: Outcome)
    requires Ready(c, m) && (capture ==> m.version == 3)
    requires ProgressOk(c, m, disk, e, capture, m.artifacts, s)
    ensures r.Verified? && r.rows == s.rows
    ensures r.counts.Keys == (set b | b in m.budgets :: b.budgetId)
    ensures forall b :: b in m.budgets ==> b.budgetId in r.counts && r.counts[b.budgetId] == Selected(c)(b)
    ensures if capture then ObservationsOk(c, m, disk, e, r.observations) else r.observations == []
  {
    hide Ready, ItemOk, SeenOk, CountsOk, ObservationsOk, SelectedRows, Sort, Selected;
    var counted, covered := true, true;
    if m.version == 3 {
      FinalCounts(c, m, s.counts);
      counted := forall b | b in m.budgets :: b.budgetId in s.counts && s.counts[b.budgetId] == Selected(c)(b);
    } else {
      assert m.budgets == [] by { UnboundManifest(c, m); }
    }
    assert s.counts.Keys == (set b | b in m.budgets :: b.budgetId) by { CountedKeys(c, m, s.counts); }
    var observations := s.observations;
    if capture {
      CapturedRows(c, m, disk, e, s.observations);
      var keys := Map(RowKeyOf, s.observations);
      covered := |keys| == SelectedRows(c, m) && |set k | k in keys| == SelectedRows(c, m);
      observations := Sort(ObservationLe, s.observations);
    }
    r := if !counted then Failed(MatchCoverage)
         else if !covered then Failed(RowCoverage)
         else Verified(s.rows, s.counts, observations);
  }
}
