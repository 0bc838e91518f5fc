/** What holds of every accepted contract: acceptance and the canonical form do not depend on the order
    of the unordered lists, an approval pins everything it covers, and the promotion records are sound. */
module ContractTheorems {
  import opened Sorting
  import opened Contract

  // ---- The sort orders ----

  lemma KeyOrders()
    ensures TotalPreorder(EvidenceLe) && TotalPreorder(StudyLe) && TotalPreorder(BaselineLe)
    ensures TotalPreorder(BudgetLe)
  {
    StringOrder();
    assert forall a: string, b :: StringLe(a, b) || StringLe(b, a);
    assert forall a: string, b, c :: StringLe(a, b) && StringLe(b, c) ==> StringLe(a, c);
  }

  lemma RunOrder()
    ensures TotalPreorder(RunLe)
  {
    forall a, b ensures RunLe(a, b) || RunLe(b, a) {
      PairLeTotal((a.target, a.runId), (b.target, b.runId));
    }
    forall a, b, c | RunLe(a, b) && RunLe(b, c) ensures RunLe(a, c) {
      PairLeTransitive((a.target, a.runId), (b.target, b.runId), (c.target, c.runId));
    }
  }

  // ---- Reordering ----

  // A study up to the order of its runs.
  datatype Shape = Shape(head: Study, runs: multiset<StudyRun>)

  function ShapeOf(s: Study): Shape { Shape(s.(runs := []), multiset(s.runs)) }

  function Bare(c: Contract): Contract {
    c.(retention := [], studies := [], baselines := [], budgets := [],
       control := Control(c.control.runner.(evidenceIds := []), c.control.profile.(evidenceIds := []),
                          c.control.binding.(evidenceIds := [])))
  }

  // The two contracts differ only in the order of studies, runs, baselines, budget rules, retained
  // evidence and control evidence IDs.
  ghost predicate Reordered(a: Contract, b: Contract) {
    && Bare(a) == Bare(b)
    && multiset(a.retention) == multiset(b.retention)
    && multiset(a.baselines) == multiset(b.baselines)
    && multiset(a.budgets) == multiset(b.budgets)
    && multiset(Map(ShapeOf, a.studies)) == multiset(Map(ShapeOf, b.studies))
    && multiset(a.control.runner.evidenceIds) == multiset(b.control.runner.evidenceIds)
    && multiset(a.control.profile.evidenceIds) == multiset(b.control.profile.evidenceIds)
    && multiset(a.control.binding.evidenceIds) == multiset(b.control.binding.evidenceIds)
  }

  // The lookups agree on both contracts.
  ghost predicate SameLookups(a: Contract, b: Contract) {
    forall id :: Lookup(a.retention, id) == Lookup(b.retention, id)
  }

  lemma LookupsAgree(a: Contract, b: Contract)
    requires Reordered(a, b) && RetentionOk(a.retention)
    ensures SameLookups(a, b)
  {
    forall id ensures Lookup(a.retention, id) == Lookup(b.retention, id) {
      FindByReordered(EvidenceId, a.retention, b.retention, id);
    }
  }

  lemma RefersAgree(a: Contract, b: Contract, id: string, kind: Kind)
    requires SameLookups(a, b)
    ensures Refers(a.retention, id, kind) == Refers(b.retention, id, kind)
  {
    assert Lookup(a.retention, id) == Lookup(b.retention, id);
  }

  lemma RetentionReordered(a: Contract, b: Contract)
    requires Reordered(a, b) && RetentionOk(a.retention)
    ensures RetentionOk(b.retention)
  {
    hide EvidenceOk;
    DistinctKeysReordered(EvidenceId, a.retention, b.retention);
    MultisetMembers(a.retention, b.retention);
  }

  lemma ReferencesReordered(a: Contract, b: Contract, ids: seq<string>, ids': seq<string>, kind: Kind)
    requires SameLookups(a, b) && multiset(ids) == multiset(ids') && ReferencesOk(a.retention, ids, kind)
    ensures ReferencesOk(b.retention, ids', kind)
  {
    hide Refers;
    DistinctKeysReordered(Self, ids, ids');
    MultisetMembers(ids, ids');
    forall id | id in ids' ensures Refers(b.retention, id, kind) { RefersAgree(a, b, id, kind); }
  }

  lemma ControlReordered(a: Contract, b: Contract)
    requires Reordered(a, b) && SameLookups(a, b) && ControlOk(a)
    ensures ControlOk(b)
  {
    hide ReferencesOk, IsId;
    ReferencesReordered(a, b, a.control.runner.evidenceIds, b.control.runner.evidenceIds, ControlledRunner);
    ReferencesReordered(a, b, a.control.profile.evidenceIds, b.control.profile.evidenceIds, ControlProfile);
    ReferencesReordered(a, b, a.control.binding.evidenceIds, b.control.binding.evidenceIds, RunnerProfileBinding);
    assert Bare(a).control == Bare(b).control;
  }

  // ---- Studies and runs ----

  lemma StudyOfShape(a: Contract, b: Contract, s: Study) returns (t: Study)
    requires Reordered(a, b) && s in b.studies
    ensures t in a.studies && ShapeOf(t) == ShapeOf(s)
  {
    var i := Find(b.studies, s);
    MemberReordered(Map(ShapeOf, a.studies), Map(ShapeOf, b.studies), i);
    var j := Find(Map(ShapeOf, a.studies), ShapeOf(s));
    t := a.studies[j];
  }

  // The head of a shape is the study without its runs.
  lemma ShapeFields(s: Study, t: Study)
    requires ShapeOf(s) == ShapeOf(t)
    ensures s == t.(runs := s.runs) && multiset(s.runs) == multiset(t.runs)
  {
    assert s.(runs := []) == t.(runs := []);
    assert s == s.(runs := []).(runs := s.runs);
  }

  lemma RunsReordered(a: Contract, b: Contract, s: Study, t: Study)
    requires SameLookups(a, b) && Bare(a) == Bare(b) && ShapeOf(s) == ShapeOf(t) && StudyOk(a, t)
    ensures StudyOk(b, s)
  {
    hide IsId, IsFullSha, IsDigest, IsRunId, Refers;
    ShapeFields(s, t);
    MultisetMembers(s.runs, t.runs);
    assert Bare(a).control == Bare(b).control && Bare(a).method_ == Bare(b).method_;
    RefersAgree(a, b, s.analysisEvidenceId, VarianceAnalysis);
    forall r | r in s.runs ensures RunOk(b, s, r) {
      assert RunOk(a, t, r);
      RefersAgree(a, b, r.artifactEvidenceId, BenchmarkArtifact);
    }
  }

  lemma PlacedReordered(studyId: string, runs: seq<StudyRun>, runs': seq<StudyRun>)
    requires multiset(runs) == multiset(runs')
    ensures multiset(PlacedIn(studyId, runs)) == multiset(PlacedIn(studyId, runs'))
  {
    var place := (r: StudyRun) => Placed(studyId, r);
    MapReordered(place, runs, runs');
    assert PlacedIn(studyId, runs) == Map(place, runs);
    assert PlacedIn(studyId, runs') == Map(place, runs');
  }

  lemma {:induction false} AllPlacedWithout(studies: seq<Study>, i: nat)
    requires i < |studies|
    ensures multiset(AllPlaced(studies))
            == multiset(PlacedIn(studies[i].id, studies[i].runs)) + multiset(AllPlaced(Without(studies, i)))
  {
    hide PlacedIn;
    var rest := Without(studies, i);
    if i == 0 {
      assert rest == studies[1..];
    } else {
      AllPlacedWithout(studies[1..], i - 1);
      assert rest[0] == studies[0] && rest[1..] == Without(studies[1..], i - 1);
    }
  }

  lemma {:induction false} AllPlacedReordered(xs: seq<Study>, ys: seq<Study>)
    requires multiset(Map(ShapeOf, xs)) == multiset(Map(ShapeOf, ys))
    ensures multiset(AllPlaced(xs)) == multiset(AllPlaced(ys))
    decreases |ys|
  {
    hide PlacedIn, Map, Without;
    var fx, fy := Map(ShapeOf, xs), Map(ShapeOf, ys);
    assert |xs| == |multiset(fx)| == |multiset(fy)| == |ys|;
    if ys != [] {
      MemberReordered(fx, fy, 0);
      var i := Find(fx, fy[0]);
      MapWithout(ShapeOf, xs, i);
      TailMultiset(fy);
      MapCons(ShapeOf, ys);
      AllPlacedReordered(Without(xs, i), ys[1..]);
      AllPlacedWithout(xs, i);
      ShapeFields(xs[i], ys[0]);
      PlacedReordered(ys[0].id, xs[i].runs, ys[0].runs);
    }
  }

  function HeadId(s: Shape): string { s.head.id }

  lemma StudyIdsReordered(xs: seq<Study>, ys: seq<Study>)
    requires multiset(Map(ShapeOf, xs)) == multiset(Map(ShapeOf, ys)) && DistinctKeys(StudyId, xs)
    ensures DistinctKeys(StudyId, ys)
  {
    var fx, fy := Map(ShapeOf, xs), Map(ShapeOf, ys);
    forall i, j | 0 <= i < j < |fx| ensures HeadId(fx[i]) != HeadId(fx[j]) {
      assert StudyId(xs[i]) != StudyId(xs[j]);
    }
    DistinctKeysReordered(HeadId, fx, fy);
    forall i, j | 0 <= i < j < |ys| ensures StudyId(ys[i]) != StudyId(ys[j]) {
      assert HeadId(fy[i]) != HeadId(fy[j]);
    }
  }

  lemma ContentKeysAgree(a: Contract, b: Contract, placed: seq<Placed>)
    requires SameLookups(a, b) && DistinctKeys(ContentKey(a.retention), placed)
    ensures DistinctKeys(ContentKey(b.retention), placed)
  {
    forall i, j | 0 <= i < j < |placed|
      ensures ContentKey(b.retention)(placed[i]) != ContentKey(b.retention)(placed[j])
    {
      assert ContentKey(a.retention)(placed[i]) != ContentKey(a.retention)(placed[j]);
    }
  }

  lemma StudiesReordered(a: Contract, b: Contract)
    requires Reordered(a, b) && SameLookups(a, b) && StudiesOk(a)
    ensures StudiesOk(b)
  {
    hide StudyOk, ContentKey;
    StudyIdsReordered(a.studies, b.studies);
    assert |a.studies| == |multiset(Map(ShapeOf, a.studies))| == |b.studies|;
    forall s | s in b.studies ensures StudyOk(b, s) {
      var t := StudyOfShape(a, b, s);
      RunsReordered(a, b, s, t);
    }
    var p, q := AllPlaced(a.studies), AllPlaced(b.studies);
    AllPlacedReordered(a.studies, b.studies);
    DistinctKeysReordered(Identity, p, q);
    DistinctKeysReordered(ArtifactOf, p, q);
    DistinctKeysReordered(ContentKey(a.retention), p, q);
    ContentKeysAgree(a, b, q);
  }

  // ---- Baselines and budgets ----

  lemma FindStudyReordered(a: Contract, b: Contract, id: string)
    requires Reordered(a, b) && StudiesOk(a)
    ensures FindStudy(a.studies, id).Some? == FindStudy(b.studies, id).Some?
    ensures FindStudy(a.studies, id).Some? ==>
              FindStudy(a.studies, id).value.analysisEvidenceId == FindStudy(b.studies, id).value.analysisEvidenceId
  {
    hide StudyOk, PlacedOk;
    FindByIs(StudyId, a.studies, id);
    FindByIs(StudyId, b.studies, id);
    if FindStudy(b.studies, id).Some? {
      var s := FindStudy(b.studies, id).value;
      var t := StudyOfShape(a, b, s);
      ShapeFields(s, t);
    } else if FindStudy(a.studies, id).Some? {
      var t := FindStudy(a.studies, id).value;
      var s := StudyOfShape(b, a, t);
      ShapeFields(s, t);
    }
  }

  lemma ChainReordered(a: Contract, b: Contract, x: Baseline)
    requires Reordered(a, b) && SameLookups(a, b) && StudiesOk(a) && ChainOk(a, x)
    ensures ChainOk(b, x)
  {
    hide IsId, Refers, StudiesOk, Reordered;
    forall i | 0 <= i < |x.chain| ensures LinkOk(b, x, i, x.chain[i]) {
      assert LinkOk(a, x, i, x.chain[i]);
      LinkReordered(a, b, x, i, x.chain[i]);
    }
  }

  lemma LinkReordered(a: Contract, b: Contract, x: Baseline, position: nat, link: Link)
    requires position < 3
    requires Reordered(a, b) && SameLookups(a, b) && StudiesOk(a) && LinkOk(a, x, position, link)
    ensures LinkOk(b, x, position, link)
  {
    hide IsId, Refers, FindBy, AllPlaced, StudyOk;
    assert Bare(a).lifecycle == Bare(b).lifecycle && Bare(a).approval == Bare(b).approval;
    match position
    case 0 =>
      RefersAgree(a, b, link.evidenceId, VarianceAnalysis);
      FindStudyReordered(a, b, link.studyId);
      AllPlacedReordered(a.studies, b.studies);
      FindByReordered(Identity, AllPlaced(a.studies), AllPlaced(b.studies), BaselineRun(x));
    case 1 =>
      RefersAgree(a, b, link.ruleEvidenceId, BaselinePromotionRule);
      RefersAgree(a, b, link.evidenceId, BaselinePromotion);
    case _ =>
      RefersAgree(a, b, link.evidenceId, ApprovalRecord);
  }

  lemma BaselineReordered(a: Contract, b: Contract, x: Baseline)
    requires Reordered(a, b) && SameLookups(a, b) && StudiesOk(a) && BaselineOk(a, x)
    ensures BaselineOk(b, x)
  {
    hide IsId, IsFullSha, IsRunId, Refers, StudiesOk, Reordered, ChainOk;
    ChainReordered(a, b, x);
    RefersAgree(a, b, x.artifactEvidenceId, BenchmarkArtifact);
    if x.supersession.Some? { RefersAgree(a, b, x.supersession.value.evidenceId, BaselineSupersession); }
  }

  lemma BaselinesReordered(a: Contract, b: Contract)
    requires Reordered(a, b) && SameLookups(a, b) && StudiesOk(a) && BaselinesOk(a)
    ensures BaselinesOk(b)
  {
    hide StudiesOk, BaselineOk;
    DistinctKeysReordered(BaselineId, a.baselines, b.baselines);
    DistinctKeysReordered(BaselineRun, a.baselines, b.baselines);
    MultisetMembers(a.baselines, b.baselines);
    assert Bare(a).approval == Bare(b).approval;
    forall x | x in b.baselines ensures BaselineOk(b, x) && SuccessorOk(b.baselines, x) {
      assert SuccessorOk(a.baselines, x);
      BaselineReordered(a, b, x);
    }
  }

  lemma BudgetsReordered(a: Contract, b: Contract)
    requires Reordered(a, b) && SameLookups(a, b) && BudgetsOk(a)
    ensures BudgetsOk(b)
  {
    hide IsId, IsDigest, SupportedPairing, Refers;
    DistinctKeysReordered(BudgetId, a.budgets, b.budgets);
    DistinctKeysReordered(BudgetKey, a.budgets, b.budgets);
    MultisetMembers(a.budgets, b.budgets);
    forall x | x in b.budgets ensures BudgetOk(b.retention, x) {
      assert BudgetOk(a.retention, x);
      RefersAgree(a, b, x.evidenceId, BudgetRule);
    }
  }

  // ---- Canonical form ----

  lemma IdsSortUnique(xs: seq<string>, ys: seq<string>)
    requires multiset(xs) == multiset(ys)
    ensures Sort(StringLe, xs) == Sort(StringLe, ys)
  {
    StringOrder();
    forall x, y | x in xs && y in xs && StringLe(x, y) && StringLe(y, x) ensures x == y { StringLeTotal(x, y); }
    SortUnique(StringLe, xs, ys);
  }

  // Distinct keys make a sort by that key independent of the starting order.
  lemma KeyedSortUnique<T(!new)>(le: (T, T) -> bool, key: T -> string, xs: seq<T>, ys: seq<T>)
    requires TotalPreorder(le) && multiset(xs) == multiset(ys) && DistinctKeys(key, xs)
    requires forall x, y :: le(x, y) == StringLe(key(x), key(y))
    ensures Sort(le, xs) == Sort(le, ys)
  {
    forall x, y | x in xs && y in xs && le(x, y) && le(y, x) ensures x == y {
      StringLeTotal(key(x), key(y));
      FindByIs(key, xs, key(x));
    }
    SortUnique(le, xs, ys);
  }

  lemma RunsSortUnique(c: Contract, s: Study, runs: seq<StudyRun>)
    requires StudiesOk(c) && s in c.studies && multiset(s.runs) == multiset(runs)
    ensures Sort(RunLe, s.runs) == Sort(RunLe, runs)
  {
    hide StudyOk;
    RunOrder();
    forall x, y | x in s.runs && y in s.runs && RunLe(x, y) && RunLe(y, x) ensures x == y {
      PairLeTotal((x.target, x.runId), (y.target, y.runId));
      var i := Find(c.studies, s);
      StudyRunsArePlaced(c.studies, i, x);
      StudyRunsArePlaced(c.studies, i, y);
      FindByIs(Identity, AllPlaced(c.studies), (x.target, x.runId));
    }
    SortUnique(RunLe, s.runs, runs);
  }

  lemma {:induction false} StudyRunsArePlaced(studies: seq<Study>, i: nat, r: StudyRun)
    requires i < |studies| && r in studies[i].runs
    ensures Placed(studies[i].id, r) in AllPlaced(studies)
  {
    if i == 0 {
      var j := Find(studies[0].runs, r);
      assert PlacedIn(studies[0].id, studies[0].runs)[j] == Placed(studies[0].id, r);
    } else {
      StudyRunsArePlaced(studies[1..], i - 1, r);
    }
  }

  lemma SortedStudiesAgree(a: Contract, b: Contract)
    requires Reordered(a, b) && StudiesOk(a)
    ensures Sort(StudyLe, SortEachRuns(a.studies)) == Sort(StudyLe, SortEachRuns(b.studies))
  {
    hide StudyOk, PlacedOk;
    KeyOrders();
    var aligned := Align(ShapeOf, a.studies, b.studies);
    MultisetMembers(aligned, a.studies);
    forall i | 0 <= i < |b.studies| ensures SortRuns(aligned[i]) == SortRuns(b.studies[i]) {
      assert Map(ShapeOf, aligned)[i] == Map(ShapeOf, b.studies)[i];
      ShapeFields(aligned[i], b.studies[i]);
      assert aligned[i] in a.studies;
      RunsSortUnique(a, aligned[i], b.studies[i].runs);
    }
    assert |Map(ShapeOf, aligned)| == |Map(ShapeOf, b.studies)|;
    assert SortEachRuns(aligned) == SortEachRuns(b.studies);
    MapReordered(SortRuns, a.studies, aligned);
    assert SortEachRuns(a.studies) == Map(SortRuns, a.studies) && SortEachRuns(aligned) == Map(SortRuns, aligned);
    assert DistinctKeys(StudyId, SortEachRuns(a.studies)) by { SortedIdsDistinct(a.studies); }
    KeyedSortUnique(StudyLe, StudyId, SortEachRuns(a.studies), SortEachRuns(b.studies));
  }

  lemma SortedIdsDistinct(studies: seq<Study>)
    requires DistinctKeys(StudyId, studies)
    ensures DistinctKeys(StudyId, SortEachRuns(studies))
  {
    var sorted := SortEachRuns(studies);
    forall i, j | 0 <= i < j < |sorted| ensures StudyId(sorted[i]) != StudyId(sorted[j]) {
      assert StudyId(studies[i]) != StudyId(studies[j]);
    }
  }

  lemma NormalizeReordered(a: Contract, b: Contract)
    requires Reordered(a, b)
    requires RetentionOk(a.retention) && StudiesOk(a) && BaselinesOk(a) && BudgetsOk(a)
    ensures Normalize(a) == Normalize(b)
  {
    hide StudyOk, PlacedOk, BaselineOk, BudgetOk, EvidenceOk, Sort;
    KeyOrders();
    SortedStudiesAgree(a, b);
    KeyedSortUnique(EvidenceLe, EvidenceId, a.retention, b.retention);
    KeyedSortUnique(BaselineLe, BaselineId, a.baselines, b.baselines);
    KeyedSortUnique(BudgetLe, BudgetId, a.budgets, b.budgets);
    IdsSortUnique(a.control.runner.evidenceIds, b.control.runner.evidenceIds);
    IdsSortUnique(a.control.profile.evidenceIds, b.control.profile.evidenceIds);
    IdsSortUnique(a.control.binding.evidenceIds, b.control.binding.evidenceIds);
    NormalizeParts(a, b);
  }

  lemma NormalizeParts(a: Contract, b: Contract)
    requires Bare(a) == Bare(b)
    requires Sort(StudyLe, SortEachRuns(a.studies)) == Sort(StudyLe, SortEachRuns(b.studies))
    requires Sort(EvidenceLe, a.retention) == Sort(EvidenceLe, b.retention)
    requires Sort(BaselineLe, a.baselines) == Sort(BaselineLe, b.baselines)
    requires Sort(BudgetLe, a.budgets) == Sort(BudgetLe, b.budgets)
    requires Sort(StringLe, a.control.runner.evidenceIds) == Sort(StringLe, b.control.runner.evidenceIds)
    requires Sort(StringLe, a.control.profile.evidenceIds) == Sort(StringLe, b.control.profile.evidenceIds)
    requires Sort(StringLe, a.control.binding.evidenceIds) == Sort(StringLe, b.control.binding.evidenceIds)
    ensures Normalize(a) == Normalize(b)
  {
    hide Sort;
    assert Bare(a).control == Bare(b).control;
    assert a == Bare(a).(retention := a.retention, studies := a.studies, baselines := a.baselines,
                         budgets := a.budgets, control := a.control);
    assert b == Bare(b).(retention := b.retention, studies := b.studies, baselines := b.baselines,
                         budgets := b.budgets, control := b.control);
    assert Normalize(a).control == Normalize(b).control;
  }

  // Reordering the unordered lists of an accepted contract keeps it accepted and changes neither its
  // canonical form nor what its approval covers.
  lemma OrderIsIrrelevant(a: Contract, b: Contract, sha: Contract -> string)
    requires Valid(a, sha) && Reordered(a, b)
    ensures Valid(b, sha) && Normalize(a) == Normalize(b) && ScopeOf(a) == ScopeOf(b)
  {
    hide Reordered, RetentionOk, ControlOk, MethodOk, StudiesOk, LifecycleOk, AuthorityOk, ApprovalOk, BaselinesOk,
         BudgetsOk, Normalize, HeaderOk;
    LookupsAgree(a, b);
    RetentionReordered(a, b);
    ControlReordered(a, b);
    StudiesReordered(a, b);
    BaselinesReordered(a, b);
    BudgetsReordered(a, b);
    ScalarPartsReordered(a, b);
    NormalizeReordered(a, b);
    NormalizeCommutesWithScope(a);
    NormalizeCommutesWithScope(b);
    assert a.approval == b.approval by { ApprovalReordered(a, b); }
  }

  lemma ApprovalReordered(a: Contract, b: Contract)
    requires Reordered(a, b)
    ensures a.approval == b.approval
  {
    assert Bare(a).approval == Bare(b).approval;
  }

  lemma NormalizeCommutesWithScope(c: Contract)
    ensures ScopeOf(c) == Normalize(c).(approval := None)
  {
  }

  lemma ScalarPartsReordered(a: Contract, b: Contract)
    requires Reordered(a, b) && SameLookups(a, b)
    requires HeaderOk(a) && MethodOk(a) && LifecycleOk(a) && AuthorityOk(a) && ApprovalOk(a)
    ensures HeaderOk(b) && MethodOk(b) && LifecycleOk(b) && AuthorityOk(b) && ApprovalOk(b)
  {
    hide IsId, Refers, IsDigest;
    var x, y := Bare(a), Bare(b);
    assert x.schemaName == y.schemaName && x.schemaVersion == y.schemaVersion && x.contractId == y.contractId;
    assert x.integrity == y.integrity && x.validation == y.validation;
    assert x.method_ == y.method_ && x.lifecycle == y.lifecycle && x.authority == y.authority
           && x.approval == y.approval;
    RefersAgree(a, b, a.method_.planEvidenceId, AnalysisPlan);
    RefersAgree(a, b, a.lifecycle.ruleEvidenceId, BaselinePromotionRule);
    RefersAgree(a, b, a.authority.evidenceId, ApprovalAuthority);
    if a.approval.Some? { ApprovalEvidenceAgrees(a, b); }
  }

  lemma ApprovalEvidenceAgrees(a: Contract, b: Contract)
    requires a.approval.Some? && a.approval == b.approval && a.authority == b.authority && SameLookups(a, b)
    ensures ApprovalOk(a) ==> ApprovalOk(b)
  {
    hide IsId, IsDigest;
    RefersAgree(a, b, a.approval.value.evidenceId, ApprovalRecord);
    assert Lookup(a.retention, a.approval.value.evidenceId) == Lookup(b.retention, a.approval.value.evidenceId);
  }
}
