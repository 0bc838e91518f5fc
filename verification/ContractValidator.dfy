/** The contract validator as it runs: one pass over each list, indexing what it has seen and stopping
    at the first fault. It accepts exactly the acceptable contracts. */
module ContractValidator {
  import opened Sorting
  import opened Indexing
  import opened Contract

  // ---- Retained evidence ----

  method CheckRetention(retention: seq<Evidence>) returns (ok: bool, byId: map<string, Evidence>)
    ensures ok <==> RetentionOk(retention)
    ensures ok ==> Indexes(EvidenceId, retention, byId)
  {
    hide EvidenceOk;
    byId := map[];
    if retention == [] { return false, byId; }
    var i := 0;
    while i < |retention|
      invariant 0 <= i <= |retention|
      invariant Indexes(EvidenceId, retention[..i], byId)
      invariant forall j :: 0 <= j < i ==> EvidenceOk(retention[j])
    {
      var e := retention[i];
      PrefixStep(retention, i);
      IndexStep(EvidenceId, retention[..i], e, byId);
      if e.id in byId { return false, byId; }
      if !EvidenceOk(e) { return false, byId; }
      byId := byId[e.id := e];
      i := i + 1;
    }
    assert retention[..i] == retention;
    ok := true;
  }

  method CheckReference(ghost retention: seq<Evidence>, byId: map<string, Evidence>, id: string, kind: Kind)
    returns (ok: bool)
    requires Indexes(EvidenceId, retention, byId)
    ensures ok <==> Refers(retention, id, kind)
  {
    hide IsId, FindBy;
    IndexAnswers(EvidenceId, retention, byId, id);
    ok := IsId(id) && id in byId && byId[id].kind == kind;
  }

  method CheckReferences(ghost retention: seq<Evidence>, byId: map<string, Evidence>, ids: seq<string>, kind: Kind)
    returns (ok: bool)
    requires Indexes(EvidenceId, retention, byId)
    ensures ok <==> ReferencesOk(retention, ids, kind)
  {
    hide Refers, Indexes;
    if ids == [] { return false; }
    var seen: set<string> := {};
    var i := 0;
    while i < |ids|
      invariant 0 <= i <= |ids|
      invariant DistinctKeys(Self, ids[..i]) && Seen(Self, ids[..i], seen)
      invariant forall j :: 0 <= j < i ==> Refers(retention, ids[j], kind)
    {
      PrefixStep(ids, i);
      SeenStep(Self, ids[..i], ids[i], seen);
      var found := CheckReference(retention, byId, ids[i], kind);
      if ids[i] in seen || !found { return false; }
      seen := seen + {ids[i]};
      i := i + 1;
    }
    assert ids[..i] == ids;
    ok := true;
  }

  method CheckControl(c: Contract, byId: map<string, Evidence>) returns (ok: bool)
    requires Indexes(EvidenceId, c.retention, byId)
    ensures ok <==> ControlOk(c)
  {
    hide ReferencesOk, IsId, Indexes;
    var k := c.control;
    var runner := CheckReferences(c.retention, byId, k.runner.evidenceIds, ControlledRunner);
    var profile := CheckReferences(c.retention, byId, k.profile.evidenceIds, ControlProfile);
    var binding := CheckReferences(c.retention, byId, k.binding.evidenceIds, RunnerProfileBinding);
    ok := IsId(k.runner.runnerId) && runner
          && IsId(k.profile.name.id) && IsId(k.profile.name.version) && profile
          && k.binding.runnerId == k.runner.runnerId && k.binding.profile == k.profile.name
          && k.binding.proofSemantics == PROOF_SEMANTICS && binding;
  }

  method CheckMethod(c: Contract, byId: map<string, Evidence>) returns (ok: bool)
    requires Indexes(EvidenceId, c.retention, byId)
    ensures ok <==> MethodOk(c)
  {
    hide Refers, IsId, Indexes;
    var m := c.method_;
    var plan := CheckReference(c.retention, byId, m.planEvidenceId, AnalysisPlan);
    ok := IsId(m.name.id) && IsId(m.name.version) && plan && m.minimumRuns >= 2
          && m.sampleUnit == SAMPLE_UNIT && m.alignment == ALIGNMENT && m.effect == REQUIRED
          && m.uncertainty == REQUIRED;
  }

  // ---- Studies ----

  // The runs met so far, across studies.
  datatype RunIndex = RunIndex(byIdentity: map<(string, string), Placed>, evidence: set<string>, contents: set<string>)

  ghost predicate Tracks(retention: seq<Evidence>, placed: seq<Placed>, index: RunIndex) {
    && PlacedOk(retention, placed) && Indexes(Identity, placed, index.byIdentity)
    && Seen(ArtifactOf, placed, index.evidence) && Seen(ContentKey(retention), placed, index.contents)
  }

  method CheckRun(c: Contract, byId: map<string, Evidence>, s: Study, r: StudyRun, index: RunIndex,
                  ghost placed: seq<Placed>)
    returns (ok: bool, index': RunIndex)
    requires Indexes(EvidenceId, c.retention, byId) && Tracks(c.retention, placed, index)
    ensures ok <==> RunOk(c, s, r) && PlacedOk(c.retention, placed + [Placed(s.id, r)])
    ensures ok ==> Tracks(c.retention, placed + [Placed(s.id, r)], index')
  {
    hide Refers, Indexes, Seen, IsFullSha, IsRunId, FindBy, DistinctKeys;
    index' := index;
    var identity := (r.target, r.runId);
    ghost var p := Placed(s.id, r);
    assert Identity(p) == identity && ArtifactOf(p) == r.artifactEvidenceId;
    IndexStep(Identity, placed, p, index.byIdentity);
    SeenStep(ArtifactOf, placed, p, index.evidence);
    SeenStep(ContentKey(c.retention), placed, p, index.contents);
    if !IsFullSha(r.target) || !IsRunId(r.runId) || identity in index.byIdentity { return false, index; }
    if r.target != s.target || r.runnerId != c.control.runner.runnerId || r.profile != s.profile
       || r.method_ != s.method_
       || r.sampleUnit != SAMPLE_UNIT || r.producerSet != s.producerSet || r.scenarioSet != s.scenarioSet {
      return false, index;
    }
    var found := CheckReference(c.retention, byId, r.artifactEvidenceId, BenchmarkArtifact);
    if !found || r.artifactEvidenceId in index.evidence { return false, index; }
    assert Lookup(c.retention, r.artifactEvidenceId) == Some(byId[r.artifactEvidenceId]) by {
      FoundEntry(c.retention, byId, r.artifactEvidenceId, BenchmarkArtifact);
    }
    var content := byId[r.artifactEvidenceId].sha256;
    assert content == ContentKey(c.retention)(p);
    if content in index.contents { return false, index; }
    index' := RunIndex(index.byIdentity[identity := Placed(s.id, r)], index.evidence + {r.artifactEvidenceId},
                       index.contents + {content});
    ok := true;
  }

  lemma FoundEntry(retention: seq<Evidence>, byId: map<string, Evidence>, id: string, kind: Kind)
    requires Indexes(EvidenceId, retention, byId) && Refers(retention, id, kind)
    ensures id in byId && Lookup(retention, id) == Some(byId[id])
  {
    IndexAnswers(EvidenceId, retention, byId, id);
  }

  lemma PlacedStep(studyId: string, runs: seq<StudyRun>, i: nat)
    requires i < |runs|
    ensures PlacedIn(studyId, runs[..i + 1]) == PlacedIn(studyId, runs[..i]) + [Placed(studyId, runs[i])]
  {
  }

  lemma {:induction false} AllPlacedStep(studies: seq<Study>, i: nat)
    requires i < |studies|
    ensures AllPlaced(studies[..i + 1]) == AllPlaced(studies[..i]) + PlacedIn(studies[i].id, studies[i].runs)
  {
    hide PlacedIn;
    if i == 0 {
      assert studies[..1] == [studies[0]] && studies[..0] == [];
      assert studies[..1][1..] == [];
    } else {
      AllPlacedStep(studies[1..], i - 1);
      assert studies[..i + 1][1..] == studies[1..][..i] && studies[..i][1..] == studies[1..][..i - 1];
    }
  }

  lemma PlacedPrefixOk(retention: seq<Evidence>, placed: seq<Placed>, more: seq<Placed>)
    requires PlacedOk(retention, placed + more)
    ensures PlacedOk(retention, placed)
  {
    hide DistinctKeys;
    DistinctPrefix(Identity, placed, more);
    DistinctPrefix(ArtifactOf, placed, more);
    DistinctPrefix(ContentKey(retention), placed, more);
  }

  // One study: its head, then its runs against everything met before.
  method CheckStudy(c: Contract, byId: map<string, Evidence>, s: Study, index: RunIndex, ghost placed: seq<Placed>)
    returns (ok: bool, index': RunIndex)
    requires Indexes(EvidenceId, c.retention, byId) && Tracks(c.retention, placed, index)
    ensures ok <==> StudyOk(c, s) && PlacedOk(c.retention, placed + PlacedIn(s.id, s.runs))
    ensures ok ==> Tracks(c.retention, placed + PlacedIn(s.id, s.runs), index')
  {
    hide Refers, Indexes, Tracks, PlacedOk, RunOk, IsId, IsFullSha, IsDigest;
    index' := index;
    var analysis := CheckReference(c.retention, byId, s.analysisEvidenceId, VarianceAnalysis);
    if !(IsId(s.id) && IsFullSha(s.target) && s.runnerId == c.control.runner.runnerId
         && s.profile == c.control.profile.name && s.method_ == c.method_.name
         && IsDigest(s.producerSet) && IsDigest(s.scenarioSet) && analysis) {
      return false, index';
    }
    if |s.runs| < c.method_.minimumRuns { return false, index'; }
    var j := 0;
    assert placed + PlacedIn(s.id, s.runs[..0]) == placed;
    while j < |s.runs|
      invariant 0 <= j <= |s.runs|
      invariant Tracks(c.retention, placed + PlacedIn(s.id, s.runs[..j]), index')
      invariant forall k :: 0 <= k < j ==> RunOk(c, s, s.runs[k])
    {
      ghost var before := placed + PlacedIn(s.id, s.runs[..j]);
      PlacedStep(s.id, s.runs, j);
      ghost var after := before + [Placed(s.id, s.runs[j])];
      assert after == placed + PlacedIn(s.id, s.runs[..j + 1]);
      var added;
      added, index' := CheckRun(c, byId, s, s.runs[j], index', before);
      if !added {
        assert s.runs[j] in s.runs;
        if PlacedOk(c.retention, placed + PlacedIn(s.id, s.runs)) { RestOfRuns(c.retention, placed, s, j); }
        return false, index';
      }
      j := j + 1;
    }
    assert s.runs[..j] == s.runs;
    TracksOk(c.retention, placed + PlacedIn(s.id, s.runs), index');
    ok := true;
  }

  lemma TracksOk(retention: seq<Evidence>, placed: seq<Placed>, index: RunIndex)
    requires Tracks(retention, placed, index)
    ensures PlacedOk(retention, placed)
  {
  }

  lemma RestOfRuns(retention: seq<Evidence>, placed: seq<Placed>, s: Study, j: nat)
    requires j < |s.runs| && PlacedOk(retention, placed + PlacedIn(s.id, s.runs))
    ensures PlacedOk(retention, placed + PlacedIn(s.id, s.runs[..j]) + [Placed(s.id, s.runs[j])])
  {
    hide PlacedOk;
    var all := placed + PlacedIn(s.id, s.runs);
    var head := placed + PlacedIn(s.id, s.runs[..j]) + [Placed(s.id, s.runs[j])];
    assert all == head + all[|head|..];
    PlacedPrefixOk(retention, head, all[|head|..]);
  }

  method CheckStudies(c: Contract, byId: map<string, Evidence>)
    returns (ok: bool, studyById: map<string, Study>, runs: map<(string, string), Placed>)
    requires Indexes(EvidenceId, c.retention, byId)
    ensures ok <==> StudiesOk(c)
    ensures ok ==> Indexes(StudyId, c.studies, studyById) && Indexes(Identity, AllPlaced(c.studies), runs)
  {
    hide Indexes, Tracks, PlacedOk, StudyOk, AllPlaced;
    studyById, runs := map[], map[];
    var index := RunIndex(map[], {}, {});
    if c.studies == [] { return false, studyById, runs; }
    EmptyIndexes(c.retention);
    var i := 0;
    while i < |c.studies|
      invariant 0 <= i <= |c.studies|
      invariant Indexes(StudyId, c.studies[..i], studyById)
      invariant Tracks(c.retention, AllPlaced(c.studies[..i]), index)
      invariant forall k :: 0 <= k < i ==> StudyOk(c, c.studies[k])
    {
      var s := c.studies[i];
      PrefixStep(c.studies, i);
      IndexStep(StudyId, c.studies[..i], s, studyById);
      if s.id in studyById { return false, studyById, runs; }
      AllPlacedStep(c.studies, i);
      var good;
      good, index := CheckStudy(c, byId, s, index, AllPlaced(c.studies[..i]));
      if !good {
        assert s in c.studies;
        if PlacedOk(c.retention, AllPlaced(c.studies)) { RestOfStudies(c.retention, c.studies, i + 1); }
        return false, studyById, runs;
      }
      studyById := studyById[s.id := s];
      i := i + 1;
    }
    assert c.studies[..i] == c.studies;
    assert PlacedOk(c.retention, AllPlaced(c.studies)) && Indexes(Identity, AllPlaced(c.studies), index.byIdentity)
           && DistinctKeys(StudyId, c.studies) by {
      TracksIndexes(c.retention, AllPlaced(c.studies), index);
      IndexedKeysDistinct(StudyId, c.studies, studyById);
    }
    ok, runs := true, index.byIdentity;
  }

  lemma EmptyIndexes(retention: seq<Evidence>)
    ensures Tracks(retention, AllPlaced([]), RunIndex(map[], {}, {}))
    ensures Indexes(StudyId, [], map[])
  {
  }

  lemma TracksIndexes(retention: seq<Evidence>, placed: seq<Placed>, index: RunIndex)
    requires Tracks(retention, placed, index)
    ensures PlacedOk(retention, placed) && Indexes(Identity, placed, index.byIdentity)
  {
  }

  lemma {:induction false} RestOfStudies(retention: seq<Evidence>, studies: seq<Study>, i: nat)
    requires i <= |studies| && PlacedOk(retention, AllPlaced(studies))
    ensures PlacedOk(retention, AllPlaced(studies[..i]))
    decreases |studies| - i
  {
    hide PlacedOk, AllPlaced;
    if i < |studies| {
      RestOfStudies(retention, studies, i + 1);
      AllPlacedStep(studies, i);
      PlacedPrefixOk(retention, AllPlaced(studies[..i]), PlacedIn(studies[i].id, studies[i].runs));
    } else {
      assert studies[..i] == studies;
    }
  }

  // ---- Promotion rule, authority and approval ----

  method CheckLifecycle(c: Contract, byId: map<string, Evidence>) returns (ok: bool)
    requires Indexes(EvidenceId, c.retention, byId)
    ensures ok <==> LifecycleOk(c)
  {
    hide Refers, Indexes, IsId;
    var l := c.lifecycle;
    var rule := CheckReference(c.retention, byId, l.ruleEvidenceId, BaselinePromotionRule);
    if |l.path| != |PROMOTION_PATH| { return false; }
    ok := IsId(l.ruleId) && rule && l.initial == Candidate && l.selection == SELECTION
          && l.path == PROMOTION_PATH && l.supersession == SUPERSESSION;
  }

  method CheckAuthority(c: Contract, byId: map<string, Evidence>) returns (ok: bool)
    requires Indexes(EvidenceId, c.retention, byId)
    ensures ok <==> AuthorityOk(c)
  {
    hide Refers, Indexes, IsId;
    var known := CheckReference(c.retention, byId, c.authority.evidenceId, ApprovalAuthority);
    ok := IsId(c.authority.name.id) && IsId(c.authority.name.version) && known
          && c.authority.semantics == APPROVAL_SEMANTICS;
  }

  method CheckApproval(c: Contract, byId: map<string, Evidence>) returns (ok: bool)
    requires Indexes(EvidenceId, c.retention, byId) && RetentionOk(c.retention)
    ensures ok <==> ApprovalOk(c)
  {
    hide Refers, IsId, IsDigest, FindBy, Indexes;
    if c.approval.None? { return true; }
    var a := c.approval.value;
    var record := CheckReference(c.retention, byId, a.evidenceId, ApprovalRecord);
    if !IsId(a.id) || a.authorityId != c.authority.name.id || !record || !a.approvedAt.Utc? { return false; }
    FoundEntry(c.retention, byId, a.evidenceId, ApprovalRecord);
    var e := byId[a.evidenceId];
    RetainedTimes(c.retention, byId, a.evidenceId);
    if !(e.recorded.microseconds <= a.approvedAt.microseconds <= e.retainedUntil.microseconds) { return false; }
    ok := IsDigest(a.scope) && c.authority.evidenceId != a.evidenceId;
  }

  lemma RetainedTimes(retention: seq<Evidence>, byId: map<string, Evidence>, id: string)
    requires Indexes(EvidenceId, retention, byId) && RetentionOk(retention) && id in byId
    ensures byId[id].recorded.Utc? && byId[id].retainedUntil.Utc?
  {
  }

  // ---- Baselines ----

  method CheckLink(c: Contract, byId: map<string, Evidence>, studyById: map<string, Study>,
                   runs: map<(string, string), Placed>, b: Baseline, position: nat, link: Link)
    returns (ok: bool)
    requires position < 3
    requires Indexes(EvidenceId, c.retention, byId) && Indexes(StudyId, c.studies, studyById)
    requires Indexes(Identity, AllPlaced(c.studies), runs)
    ensures ok <==> LinkOk(c, b, position, link)
  {
    hide Refers, IsId, FindBy, Indexes, AllPlaced;
    if link.move != PROMOTION_PATH[position] { return false; }
    match position {
      case 0 =>
        if !link.VarianceLink? { return false; }
        IndexAnswers(StudyId, c.studies, studyById, link.studyId);
        IndexAnswers(Identity, AllPlaced(c.studies), runs, BaselineRun(b));
        if !IsId(link.studyId) || link.studyId !in studyById { return false; }
        var variance := CheckReference(c.retention, byId, link.evidenceId, VarianceAnalysis);
        if !variance || link.evidenceId != studyById[link.studyId].analysisEvidenceId { return false; }
        var identity := (b.target, b.runId);
        if identity !in runs || runs[identity].studyId != link.studyId { return false; }
        ok := runs[identity].run.artifactEvidenceId == b.artifactEvidenceId;
      case 1 =>
        if !link.RuleLink? { return false; }
        if link.ruleId != c.lifecycle.ruleId || link.ruleEvidenceId != c.lifecycle.ruleEvidenceId { return false; }
        var rule := CheckReference(c.retention, byId, link.ruleEvidenceId, BaselinePromotionRule);
        var promotion := CheckReference(c.retention, byId, link.evidenceId, BaselinePromotion);
        ok := rule && promotion;
      case _ =>
        if !link.ApprovalLink? || c.approval.None? { return false; }
        if link.approvalId != c.approval.value.id || link.evidenceId != c.approval.value.evidenceId { return false; }
        ok := CheckReference(c.retention, byId, link.evidenceId, ApprovalRecord);
    }
  }

  // Also counts the references to the approval record.
  method CheckChain(c: Contract, byId: map<string, Evidence>, studyById: map<string, Study>,
                    runs: map<(string, string), Placed>, b: Baseline)
    returns (ok: bool, references: nat)
    requires Indexes(EvidenceId, c.retention, byId) && Indexes(StudyId, c.studies, studyById)
    requires Indexes(Identity, AllPlaced(c.studies), runs)
    ensures ok <==> ChainOk(c, b)
    ensures ok ==> references == if |b.chain| == 3 then 1 else 0
  {
    hide LinkOk, Indexes;
    references := 0;
    if |b.chain| != ChainLength(b.stage) { return false, references; }
    var i := 0;
    while i < |b.chain|
      invariant 0 <= i <= |b.chain| == ChainLength(b.stage)
      invariant forall k :: 0 <= k < i ==> LinkOk(c, b, k, b.chain[k])
      invariant references == if i == 3 then 1 else 0
    {
      var good := CheckLink(c, byId, studyById, runs, b, i, b.chain[i]);
      if !good { return false, references; }
      if i == 2 { references := references + 1; }
      i := i + 1;
    }
    ok := true;
  }

  method CheckSupersession(c: Contract, byId: map<string, Evidence>, b: Baseline) returns (ok: bool)
    requires Indexes(EvidenceId, c.retention, byId)
    ensures ok <==> SupersessionOk(c, b)
  {
    hide Refers, IsId, Indexes;
    if b.stage != Superseded { return b.supersession.None?; }
    if b.supersession.None? { return false; }
    var s := b.supersession.value;
    var record := CheckReference(c.retention, byId, s.evidenceId, BaselineSupersession);
    ok := s.move == SUPERSESSION && IsId(s.successorId) && record;
  }

  method CheckBaseline(c: Contract, byId: map<string, Evidence>, studyById: map<string, Study>,
                       runs: map<(string, string), Placed>, b: Baseline)
    returns (ok: bool, references: nat)
    requires Indexes(EvidenceId, c.retention, byId) && Indexes(StudyId, c.studies, studyById)
    requires Indexes(Identity, AllPlaced(c.studies), runs)
    ensures ok <==> BaselineOk(c, b)
    ensures ok ==> references == if |b.chain| == 3 then 1 else 0
  {
    hide Refers, IsId, IsFullSha, IsRunId, Indexes, ChainOk, SupersessionOk;
    var artifact := CheckReference(c.retention, byId, b.artifactEvidenceId, BenchmarkArtifact);
    var chain;
    chain, references := CheckChain(c, byId, studyById, runs, b);
    var supersession := CheckSupersession(c, byId, b);
    ok := IsId(b.id) && IsFullSha(b.target) && IsRunId(b.runId) && artifact && !b.stage.UnsupportedStage?
          && chain && supersession;
  }

  // Every baseline on its own, in one pass.
  method CollectBaselines(c: Contract, byId: map<string, Evidence>, studyById: map<string, Study>,
                          runs: map<(string, string), Placed>)
    returns (ok: bool, baselineById: map<string, Baseline>, references: nat)
    requires Indexes(EvidenceId, c.retention, byId) && Indexes(StudyId, c.studies, studyById)
    requires Indexes(Identity, AllPlaced(c.studies), runs)
    ensures ok <==> DistinctKeys(BaselineId, c.baselines) && DistinctKeys(BaselineRun, c.baselines)
                    && forall b :: b in c.baselines ==> BaselineOk(c, b)
    ensures ok ==> Indexes(BaselineId, c.baselines, baselineById)
    ensures ok ==> (references > 0 <==> exists b :: b in c.baselines && |b.chain| == 3)
  {
    hide BaselineOk, Indexes, Seen;
    baselineById, references := map[], 0;
    var identities: set<(string, string)> := {};
    EmptyBaselineIndexes();
    var i := 0;
    while i < |c.baselines|
      invariant 0 <= i <= |c.baselines|
      invariant Indexes(BaselineId, c.baselines[..i], baselineById)
      invariant DistinctKeys(BaselineRun, c.baselines[..i]) && Seen(BaselineRun, c.baselines[..i], identities)
      invariant forall k :: 0 <= k < i ==> BaselineOk(c, c.baselines[k])
      invariant references > 0 <==> exists k :: 0 <= k < i && |c.baselines[k].chain| == 3
    {
      var b := c.baselines[i];
      PrefixStep(c.baselines, i);
      IndexStep(BaselineId, c.baselines[..i], b, baselineById);
      SeenStep(BaselineRun, c.baselines[..i], b, identities);
      if b.id in baselineById || (b.target, b.runId) in identities {
        FaultStays(c.baselines, i);
        return false, baselineById, references;
      }
      var good, more := CheckBaseline(c, byId, studyById, runs, b);
      if !good {
        assert b in c.baselines;
        return false, baselineById, references;
      }
      references := references + more;
      identities := identities + {(b.target, b.runId)};
      baselineById := baselineById[b.id := b];
      i := i + 1;
    }
    assert c.baselines[..i] == c.baselines;
    IndexedKeysDistinct(BaselineId, c.baselines, baselineById);
    ok := true;
  }

  lemma EmptyBaselineIndexes()
    ensures Indexes(BaselineId, [], map[]) && Seen(BaselineRun, [], {})
  {
  }

  lemma FaultStays(baselines: seq<Baseline>, i: nat)
    requires i < |baselines|
    requires !DistinctKeys(BaselineId, baselines[..i + 1]) || !DistinctKeys(BaselineRun, baselines[..i + 1])
    ensures !DistinctKeys(BaselineId, baselines) || !DistinctKeys(BaselineRun, baselines)
  {
  }

  lemma SuccessorLookup(baselines: seq<Baseline>, byId: map<string, Baseline>, b: Baseline)
    requires Indexes(BaselineId, baselines, byId) && b.stage == Superseded && b.supersession.Some?
    ensures var id := b.supersession.value.successorId;
            SuccessorOk(baselines, b) <==> id in byId && id != b.id && byId[id].stage == Approved
  {
  }

  method CheckBaselines(c: Contract, byId: map<string, Evidence>, studyById: map<string, Study>,
                        runs: map<(string, string), Placed>)
    returns (ok: bool)
    requires Indexes(EvidenceId, c.retention, byId) && Indexes(StudyId, c.studies, studyById)
    requires Indexes(Identity, AllPlaced(c.studies), runs)
    ensures ok <==> BaselinesOk(c)
  {
    hide BaselineOk, Indexes, SuccessorOk;
    if c.baselines == [] { return false; }
    var collected, baselineById, references := CollectBaselines(c, byId, studyById, runs);
    if !collected { return false; }
    var i := 0;
    while i < |c.baselines|
      invariant 0 <= i <= |c.baselines|
      invariant forall k :: 0 <= k < i ==> SuccessorOk(c.baselines, c.baselines[k])
    {
      var b := c.baselines[i];
      assert b in c.baselines && BaselineOk(c, b);
      if b.stage == Superseded {
        SupersededHasRecord(c, b);
        SuccessorLookup(c.baselines, baselineById, b);
        var id := b.supersession.value.successorId;
        if id !in baselineById || id == b.id || baselineById[id].stage != Approved { return false; }
      } else {
        NoSuccessorNeeded(c.baselines, b);
      }
      i := i + 1;
    }
    ok := c.approval.None? || references > 0;
  }

  lemma SupersededHasRecord(c: Contract, b: Baseline)
    requires BaselineOk(c, b) && b.stage == Superseded
    ensures b.supersession.Some?
  {
  }

  lemma NoSuccessorNeeded(baselines: seq<Baseline>, b: Baseline)
    requires b.stage != Superseded
    ensures SuccessorOk(baselines, b)
  {
  }

  // ---- Budget rules ----

  method CheckBudget(ghost retention: seq<Evidence>, byId: map<string, Evidence>, b: Budget) returns (ok: bool)
    requires Indexes(EvidenceId, retention, byId)
    ensures ok <==> BudgetOk(retention, b)
  {
    hide Refers, IsId, IsDigest, SupportedPairing, Indexes;
    var rule := CheckReference(retention, byId, b.evidenceId, BudgetRule);
    ok := IsId(b.id) && IsId(b.scenarioId) && IsDigest(b.identity) && b.matching == MATCHING
          && SupportedPairing(b.metric, b.unit, b.direction) && b.limit >= 0.0 && rule;
  }

  ghost predicate TracksBudgets(budgets: seq<Budget>, ids: set<string>, keys: set<(string, string)>) {
    && DistinctKeys(BudgetId, budgets) && Seen(BudgetId, budgets, ids)
    && DistinctKeys(BudgetKey, budgets) && Seen(BudgetKey, budgets, keys)
  }

  method CheckBudgets(c: Contract, byId: map<string, Evidence>) returns (ok: bool)
    requires Indexes(EvidenceId, c.retention, byId)
    ensures ok <==> BudgetsOk(c)
  {
    hide BudgetOk, Indexes, TracksBudgets, BudgetsOk;
    var ids: set<string>, keys: set<(string, string)> := {}, {};
    assert TracksBudgets(c.budgets[..0], ids, keys) by { NoBudgets(c.budgets); }
    var i := 0;
    while i < |c.budgets|
      invariant 0 <= i <= |c.budgets|
      invariant TracksBudgets(c.budgets[..i], ids, keys)
      invariant forall k :: 0 <= k < i ==> BudgetOk(c.retention, c.budgets[k])
    {
      var b := c.budgets[i];
      BudgetStep(c, i, ids, keys);
      var good := CheckBudget(c.retention, byId, b);
      if b.id in ids || !good || (b.identity, b.metric) in keys { return false; }
      ids, keys := ids + {b.id}, keys + {(b.identity, b.metric)};
      i := i + 1;
    }
    AllBudgetsOk(c, ids, keys);
    ok := c.budgets != [];
  }

  lemma NoBudgets(budgets: seq<Budget>)
    ensures TracksBudgets(budgets[..0], {}, {})
  {
  }

  // A fault at one rule rejects the contract; otherwise the sets grow by that rule.
  lemma BudgetStep(c: Contract, i: nat, ids: set<string>, keys: set<(string, string)>)
    requires i < |c.budgets| && TracksBudgets(c.budgets[..i], ids, keys)
    ensures var b := c.budgets[i];
            if b.id in ids || !BudgetOk(c.retention, b) || (b.identity, b.metric) in keys then !BudgetsOk(c)
            else TracksBudgets(c.budgets[..i + 1], ids + {b.id}, keys + {(b.identity, b.metric)})
  {
    hide BudgetOk, DistinctKeys, Seen;
    var b, head, rest := c.budgets[i], c.budgets[..i] + [c.budgets[i]], c.budgets[i + 1..];
    assert b in c.budgets && head + rest == c.budgets && c.budgets[..i + 1] == head;
    SeenStep(BudgetId, c.budgets[..i], b, ids);
    SeenStep(BudgetKey, c.budgets[..i], b, keys);
    if BudgetsOk(c) {
      DistinctPrefix(BudgetId, head, rest);
      DistinctPrefix(BudgetKey, head, rest);
    }
  }

  lemma AllBudgetsOk(c: Contract, ids: set<string>, keys: set<(string, string)>)
    requires TracksBudgets(c.budgets[..|c.budgets|], ids, keys)
    requires forall k :: 0 <= k < |c.budgets| ==> BudgetOk(c.retention, c.budgets[k])
    ensures BudgetsOk(c) <==> c.budgets != []
  {
  }

  // ---- The whole contract ----

  method Validate(c: Contract, sha: Contract -> string) returns (accepted: bool)
    ensures accepted <==> Valid(c, sha)
  {
    hide HeaderOk, RetentionOk, ControlOk, MethodOk, StudiesOk, LifecycleOk, AuthorityOk, ApprovalOk, BaselinesOk,
         BudgetsOk, Indexes, AllPlaced, Normalize;
    if !HeaderOk(c) { return false; }
    var retained, byId := CheckRetention(c.retention);
    if !retained { return false; }
    var control := CheckControl(c, byId);
    var method_ := CheckMethod(c, byId);
    if !control || !method_ { return false; }
    var studies, studyById, runs := CheckStudies(c, byId);
    if !studies { return false; }
    var lifecycle := CheckLifecycle(c, byId);
    var authority := CheckAuthority(c, byId);
    var approval := CheckApproval(c, byId);
    if !lifecycle || !authority || !approval { return false; }
    var baselines := CheckBaselines(c, byId, studyById, runs);
    var budgets := CheckBudgets(c, byId);
    accepted := baselines && budgets && ScopeOk(c, sha);
  }
}
