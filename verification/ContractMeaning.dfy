/** What an accepted contract says, read off its records: how many runs a study has and what they share, what
    evidence stands behind each record, and how a contract may grow. */
module ContractMeaning {
  import opened Sorting
  import opened Contract

  // Some retained evidence has the ID and the kind.
  ghost predicate Kept(c: Contract, id: string, kind: Kind) {
    exists e :: e in c.retention && e.id == id && e.kind == kind
  }

  lemma ReferredIsKept(c: Contract, id: string, kind: Kind)
    ensures Refers(c.retention, id, kind) ==> Kept(c, id, kind)
    ensures DistinctKeys(EvidenceId, c.retention) && IsId(id) && Kept(c, id, kind) ==> Refers(c.retention, id, kind)
  {
    hide FindBy, IsId;
    FindByIs(EvidenceId, c.retention, id);
  }

  // ---- Where a run stands among all runs ----

  function Start(studies: seq<Study>, k: nat): nat
    requires k <= |studies|
  {
    if k == 0 then 0 else |studies[0].runs| + Start(studies[1..], k - 1)
  }

  lemma {:induction false} PlacedAt(studies: seq<Study>, k: nat, i: nat)
    requires k < |studies| && i < |studies[k].runs|
    ensures Start(studies, k) + i < |AllPlaced(studies)|
    ensures AllPlaced(studies)[Start(studies, k) + i] == Placed(studies[k].id, studies[k].runs[i])
  {
    if k > 0 { PlacedAt(studies[1..], k - 1, i); }
  }

  // ---- Studies ----

  // What the runs of a study share with it and with the contract.
  ghost predicate RunAgrees(c: Contract, s: Study, r: StudyRun) {
    && r.target == s.target && r.runnerId == s.runnerId == c.control.runner.runnerId
    && r.profile == s.profile == c.control.profile.name && r.method_ == s.method_ == c.method_.name
    && r.sampleUnit == "complete_independent_bench-full_run"
    && r.producerSet == s.producerSet && r.scenarioSet == s.scenarioSet
    && Kept(c, r.artifactEvidenceId, BenchmarkArtifact)
  }

  // Two runs have nothing in common that would make them one.
  predicate Independent(c: Contract, x: StudyRun, y: StudyRun) {
    && (x.target, x.runId) != (y.target, y.runId) && x.artifactEvidenceId != y.artifactEvidenceId
    && ContentOf(c.retention, x.artifactEvidenceId) != ContentOf(c.retention, y.artifactEvidenceId)
  }

  // Every study of an accepted contract has the declared minimum of runs, so at least two; its runs agree with
  // it, and any two of them are independent.
  lemma StudiesHaveEnoughRuns(c: Contract, sha: Contract -> string, k: nat)
    requires Valid(c, sha) && k < |c.studies|
    ensures var s := c.studies[k];
            && |s.runs| >= c.method_.minimumRuns >= 2 && Kept(c, s.analysisEvidenceId, VarianceAnalysis)
            && (forall i :: 0 <= i < |s.runs| ==> RunAgrees(c, s, s.runs[i]))
            && (forall i, j :: 0 <= i < j < |s.runs| ==> Independent(c, s.runs[i], s.runs[j]))
  {
    hide HeaderOk, RetentionOk, ControlOk, LifecycleOk, AuthorityOk, ApprovalOk, BaselinesOk, BudgetsOk, ScopeOk, IsHex,
         IsRunId, IsId, Kept, Refers, ContentOf, AllPlaced, Independent;
    var s := c.studies[k];
    assert s in c.studies && StudyOk(c, s);
    ReferredIsKept(c, s.analysisEvidenceId, VarianceAnalysis);
    forall i | 0 <= i < |s.runs| ensures RunAgrees(c, s, s.runs[i]) {
      assert s.runs[i] in s.runs;
      ReferredIsKept(c, s.runs[i].artifactEvidenceId, BenchmarkArtifact);
    }
    forall i, j | 0 <= i < j < |s.runs| ensures Independent(c, s.runs[i], s.runs[j]) {
      RunsAreIndependent(c, k, i, k, j);
    }
  }

  // The same holds across studies.
  lemma RunsAreIndependent(c: Contract, k: nat, i: nat, l: nat, j: nat)
    requires PlacedOk(c.retention, AllPlaced(c.studies)) && k < |c.studies| && l < |c.studies|
    requires i < |c.studies[k].runs| && j < |c.studies[l].runs| && (k < l || (k == l && i < j))
    ensures Independent(c, c.studies[k].runs[i], c.studies[l].runs[j])
  {
    hide AllPlaced, ContentOf;
    var placed := AllPlaced(c.studies);
    PlacedAt(c.studies, k, i);
    PlacedAt(c.studies, l, j);
    StartsGrow(c.studies, k, l);
    var x, y := Start(c.studies, k) + i, Start(c.studies, l) + j;
    assert x < y;
    assert Identity(placed[x]) != Identity(placed[y]) && ArtifactOf(placed[x]) != ArtifactOf(placed[y]);
    assert ContentKey(c.retention)(placed[x]) != ContentKey(c.retention)(placed[y]);
  }

  lemma {:induction false} StartsGrow(studies: seq<Study>, k: nat, l: nat)
    requires k <= l < |studies|
    ensures k < l ==> Start(studies, k) + |studies[k].runs| <= Start(studies, l)
  {
    if k > 0 {
      StartsGrow(studies[1..], k - 1, l - 1);
    } else if l > 0 {
      assert Start(studies, l) >= |studies[0].runs|;
    }
  }

  // A study cut below the minimum is refused.
  lemma TooFewRunsAreRefused(c: Contract, sha: Contract -> string, k: nat, n: nat)
    requires k < |c.studies| && n <= |c.studies[k].runs| && n < c.method_.minimumRuns
    ensures !Valid(c.(studies := c.studies[k := c.studies[k].(runs := c.studies[k].runs[..n])]), sha)
  {
    hide HeaderOk, RetentionOk, ControlOk, LifecycleOk, AuthorityOk, ApprovalOk, BaselinesOk, BudgetsOk, ScopeOk,
         AllPlaced, StudyHeadOk, RunOk, PlacedOk, MethodOk;
    var cut := c.(studies := c.studies[k := c.studies[k].(runs := c.studies[k].runs[..n])]);
    assert cut.studies[k] in cut.studies;
  }

  // ---- One more run ----

  function WithRun(s: Study, r: StudyRun): Study { s.(runs := s.runs + [r]) }

  function Grown(c: Contract, k: nat, r: StudyRun): Contract
    requires k < |c.studies|
  {
    c.(studies := c.studies[k := WithRun(c.studies[k], r)])
  }

  lemma {:induction false} GrownPlaced(studies: seq<Study>, k: nat, r: StudyRun)
    requires k < |studies|
    ensures multiset(AllPlaced(studies[k := WithRun(studies[k], r)]))
            == multiset(AllPlaced(studies) + [Placed(studies[k].id, r)])
  {
    var grown, p := studies[k := WithRun(studies[k], r)], Placed(studies[k].id, r);
    var head, rest := PlacedIn(studies[0].id, studies[0].runs), AllPlaced(studies[1..]);
    if k == 0 {
      assert grown[1..] == studies[1..];
      assert PlacedIn(grown[0].id, grown[0].runs) == head + [p];
      assert AllPlaced(grown) == (head + [p]) + rest;
    } else {
      assert grown[0] == studies[0] && grown[1..] == studies[1..][k - 1 := WithRun(studies[k], r)];
      GrownPlaced(studies[1..], k - 1, r);
      assert AllPlaced(grown) == head + AllPlaced(grown[1..]);
    }
  }

  // The run's identity, evidence and content are used by no other run.
  ghost predicate Fresh(c: Contract, r: StudyRun) {
    forall k, i :: 0 <= k < |c.studies| && 0 <= i < |c.studies[k].runs| ==> Independent(c, c.studies[k].runs[i], r)
  }

  lemma {:induction false} PlacedFrom(studies: seq<Study>, p: Placed) returns (k: nat, i: nat)
    requires p in AllPlaced(studies)
    ensures k < |studies| && i < |studies[k].runs| && p == Placed(studies[k].id, studies[k].runs[i])
  {
    var head := PlacedIn(studies[0].id, studies[0].runs);
    if p in head {
      i := Find(head, p);
      k := 0;
    } else {
      k, i := PlacedFrom(studies[1..], p);
      k := k + 1;
    }
  }

  lemma FreshKey<K>(key: Placed -> K, c: Contract, r: StudyRun, p: Placed)
    requires DistinctKeys(key, AllPlaced(c.studies)) && p.run == r
    requires forall q :: q in AllPlaced(c.studies) ==> key(q) != key(p)
    ensures DistinctKeys(key, AllPlaced(c.studies) + [p])
  {
    hide AllPlaced;
    var all := AllPlaced(c.studies);
    assert forall i :: 0 <= i < |all| ==> all[i] in all;
  }

  lemma GrownRunsDistinct(c: Contract, k: nat, r: StudyRun)
    requires k < |c.studies| && PlacedOk(c.retention, AllPlaced(c.studies)) && Fresh(c, r)
    ensures PlacedOk(c.retention, AllPlaced(Grown(c, k, r).studies))
  {
    hide AllPlaced, ContentOf;
    var all, p := AllPlaced(c.studies), Placed(c.studies[k].id, r);
    forall q | q in all
      ensures Identity(q) != Identity(p) && ArtifactOf(q) != ArtifactOf(p)
              && ContentKey(c.retention)(q) != ContentKey(c.retention)(p)
    {
      var l, i := PlacedFrom(c.studies, q);
      assert Independent(c, c.studies[l].runs[i], r);
    }
    FreshKey(Identity, c, r, p);
    FreshKey(ArtifactOf, c, r, p);
    FreshKey(ContentKey(c.retention), c, r, p);
    GrownPlaced(c.studies, k, r);
    var grown := AllPlaced(Grown(c, k, r).studies);
    DistinctKeysReordered(Identity, all + [p], grown);
    DistinctKeysReordered(ArtifactOf, all + [p], grown);
    DistinctKeysReordered(ContentKey(c.retention), all + [p], grown);
  }

  lemma GrownStudies(c: Contract, k: nat, r: StudyRun)
    requires StudiesOk(c) && DistinctKeys(EvidenceId, c.retention) && k < |c.studies|
    requires RunAgrees(c, c.studies[k], r) && IsRunId(r.runId) && IsId(r.artifactEvidenceId) && Fresh(c, r)
    ensures StudiesOk(Grown(c, k, r))
  {
    hide AllPlaced, PlacedOk, Refers, IsHex, IsId, IsRunId, Kept, Fresh;
    var g, s := Grown(c, k, r), c.studies[k];
    GrownRunsDistinct(c, k, r);
    ReferredIsKept(c, r.artifactEvidenceId, BenchmarkArtifact);
    forall i, j | 0 <= i < j < |g.studies| ensures StudyId(g.studies[i]) != StudyId(g.studies[j]) {
      assert StudyId(c.studies[i]) != StudyId(c.studies[j]);
    }
    assert s in c.studies && StudyOk(c, s);
    assert StudyOk(g, WithRun(s, r));
    forall t | t in g.studies ensures StudyOk(g, t) {
      var i := Find(g.studies, t);
      if i != k { assert c.studies[i] in c.studies && StudyOk(c, c.studies[i]); }
    }
  }

  lemma GrownLookups(c: Contract, k: nat, r: StudyRun, id: string, run: (string, string))
    requires k < |c.studies| && StudiesOk(c) && StudiesOk(Grown(c, k, r))
    ensures var found, grown := FindStudy(c.studies, id), FindStudy(Grown(c, k, r).studies, id);
            found.Some? ==> grown.Some? && grown.value.analysisEvidenceId == found.value.analysisEvidenceId
    ensures var found := FindPlaced(AllPlaced(c.studies), run);
            found.Some? ==> FindPlaced(AllPlaced(Grown(c, k, r).studies), run) == found
  {
    hide FindBy, StudyOk, AllPlaced;
    var g := Grown(c, k, r);
    FindByIs(StudyId, c.studies, id);
    FindByIs(StudyId, g.studies, id);
    if FindStudy(c.studies, id).Some? {
      var i := Find(c.studies, FindStudy(c.studies, id).value);
      assert g.studies[i] in g.studies && StudyId(g.studies[i]) == id;
    }
    FindByIs(Identity, AllPlaced(c.studies), run);
    FindByIs(Identity, AllPlaced(g.studies), run);
    GrownPlaced(c.studies, k, r);
    if FindPlaced(AllPlaced(c.studies), run).Some? {
      var p := FindPlaced(AllPlaced(c.studies), run).value;
      var all := AllPlaced(c.studies) + [Placed(c.studies[k].id, r)];
      assert p in all;
      MultisetMembers(all, AllPlaced(g.studies));
    }
  }

  lemma GrownBaselines(c: Contract, k: nat, r: StudyRun)
    requires k < |c.studies| && StudiesOk(c) && StudiesOk(Grown(c, k, r)) && BaselinesOk(c)
    ensures BaselinesOk(Grown(c, k, r))
  {
    hide AllPlaced, StudiesOk, Refers, IsHex, IsId, IsRunId, FindBy, SupersessionOk;
    var g := Grown(c, k, r);
    forall b | b in c.baselines ensures BaselineOk(g, b) && SuccessorOk(g.baselines, b) {
      assert BaselineOk(c, b) && SuccessorOk(c.baselines, b);
      assert SupersessionOk(g, b) by { SameSupersession(c, g, b); }
      forall i | 0 <= i < |b.chain| ensures LinkOk(g, b, i, b.chain[i]) {
        assert LinkOk(c, b, i, b.chain[i]);
        if i == 0 { GrownLookups(c, k, r, b.chain[0].studyId, BaselineRun(b)); }
      }
    }
  }

  lemma SameSupersession(c: Contract, g: Contract, b: Baseline)
    requires SupersessionOk(c, b) && g.retention == c.retention
    ensures SupersessionOk(g, b)
  {
  }

  // An accepted contract without an approval stays accepted when a study gains a run that agrees with it and
  // is independent of all others.
  lemma ExtraRunIsAccepted(c: Contract, sha: Contract -> string, k: nat, r: StudyRun)
    requires Valid(c, sha) && c.approval.None? && k < |c.studies|
    requires RunAgrees(c, c.studies[k], r) && IsRunId(r.runId) && IsId(r.artifactEvidenceId) && Fresh(c, r)
    ensures Valid(Grown(c, k, r), sha)
  {
    hide AllPlaced, StudiesOk, BaselinesOk, Refers, IsHex, IsId, IsRunId, FindBy, Fresh, RunAgrees, EvidenceOk,
         ReferencesOk, BudgetOk;
    assert DistinctKeys(EvidenceId, c.retention);
    GrownStudies(c, k, r);
    GrownBaselines(c, k, r);
  }

  // ---- What stands behind the other records ----

  // Control, method, lifecycle and authority cite kept evidence of their kinds, and the binding binds the very
  // runner and profile.
  lemma RecordsAreBacked(c: Contract, sha: Contract -> string)
    requires Valid(c, sha)
    ensures c.control.binding.runnerId == c.control.runner.runnerId
            && c.control.binding.profile == c.control.profile.name
    ensures forall id :: id in c.control.runner.evidenceIds ==> Kept(c, id, ControlledRunner)
    ensures forall id :: id in c.control.profile.evidenceIds ==> Kept(c, id, ControlProfile)
    ensures forall id :: id in c.control.binding.evidenceIds ==> Kept(c, id, RunnerProfileBinding)
    ensures Kept(c, c.method_.planEvidenceId, AnalysisPlan)
    ensures Kept(c, c.lifecycle.ruleEvidenceId, BaselinePromotionRule)
    ensures Kept(c, c.authority.evidenceId, ApprovalAuthority)
  {
    hide HeaderOk, RetentionOk, StudiesOk, ApprovalOk, BaselinesOk, BudgetsOk, ScopeOk, Kept, Refers, IsId;
    forall id, kind ensures Refers(c.retention, id, kind) ==> Kept(c, id, kind) { ReferredIsKept(c, id, kind); }
  }

  // Kept evidence is dated, and not kept for less than no time.
  lemma EvidenceIsDated(c: Contract, sha: Contract -> string, e: Evidence)
    requires Valid(c, sha) && e in c.retention
    ensures e.recorded.Utc? && e.retainedUntil.Utc? && e.recorded.microseconds <= e.retainedUntil.microseconds
    ensures forall x :: x in c.retention && x.id == e.id ==> x == e
  {
    hide HeaderOk, ControlOk, MethodOk, StudiesOk, LifecycleOk, AuthorityOk, ApprovalOk, BaselinesOk, BudgetsOk,
         ScopeOk, IsId, IsHex, IsLocator;
    assert EvidenceOk(e);
  }

  // The approval names the authority, rests on a record of its own, was given while that record was kept, and
  // covers this contract.
  ghost predicate ApprovalCovers(c: Contract, sha: Contract -> string, a: Approval) {
    && a.authorityId == c.authority.name.id && a.evidenceId != c.authority.evidenceId && a.scope == sha(ScopeOf(c))
    && exists e :: && e in c.retention && e.id == a.evidenceId && e.kind == ApprovalRecord
                   && e.recorded.Utc? && e.retainedUntil.Utc? && a.approvedAt.Utc?
                   && e.recorded.microseconds <= a.approvedAt.microseconds <= e.retainedUntil.microseconds
  }

  lemma ApprovalIsCovered(c: Contract, sha: Contract -> string)
    requires Valid(c, sha) && c.approval.Some?
    ensures ApprovalCovers(c, sha, c.approval.value)
  {
    hide HeaderOk, RetentionOk, ControlOk, MethodOk, StudiesOk, LifecycleOk, AuthorityOk, BaselinesOk, BudgetsOk,
         IsId, IsHex, FindBy, ScopeOf;
    FindByIs(EvidenceId, c.retention, c.approval.value.evidenceId);
  }

  // An approval can be moved in time exactly as far as its record is kept.
  lemma ApprovalMovesWithItsRecord(c: Contract, sha: Contract -> string, e: Evidence, t: int)
    requires Valid(c, sha) && c.approval.Some? && e in c.retention && e.id == c.approval.value.evidenceId
    ensures Valid(c.(approval := Some(c.approval.value.(approvedAt := Utc(t)))), sha)
            <==> e.recorded.microseconds <= t <= e.retainedUntil.microseconds
  {
    hide ControlOk, MethodOk, StudiesOk, BudgetsOk, IsId, IsHex, FindBy, Normalize, IsLocator, ReferencesOk, AllPlaced;
    var moved := c.(approval := Some(c.approval.value.(approvedAt := Utc(t))));
    EvidenceIsDated(c, sha, e);
    FindByIs(EvidenceId, c.retention, e.id);
    assert ScopeOf(moved) == ScopeOf(c);
    SameParts(c, moved);
    MovedBaselines(c, moved);
  }

  lemma SameParts(c: Contract, d: Contract)
    requires d == c.(approval := d.approval)
    ensures ControlOk(d) <==> ControlOk(c)
    ensures MethodOk(d) <==> MethodOk(c)
    ensures StudiesOk(d) <==> StudiesOk(c)
    ensures BudgetsOk(d) <==> BudgetsOk(c)
  {
    hide IsId, IsHex, IsRunId, Refers, ReferencesOk, AllPlaced, BudgetOk;
    assert forall s :: s in c.studies ==> (StudyOk(d, s) <==> StudyOk(c, s));
  }

  lemma MovedBaselines(c: Contract, d: Contract)
    requires c.approval.Some? && d.approval.Some? && d == c.(approval := d.approval) && BaselinesOk(c)
    requires d.approval.value.id == c.approval.value.id && d.approval.value.evidenceId == c.approval.value.evidenceId
    ensures BaselinesOk(d)
  {
    hide IsId, IsHex, IsRunId, Refers, FindBy, AllPlaced, SupersessionOk;
    forall b | b in c.baselines ensures BaselineOk(d, b) && SuccessorOk(d.baselines, b) {
      assert BaselineOk(c, b) && SuccessorOk(c.baselines, b);
      SameSupersession(c, d, b);
      forall i | 0 <= i < |b.chain| ensures LinkOk(d, b, i, b.chain[i]) { assert LinkOk(c, b, i, b.chain[i]); }
    }
  }

  // ---- Promotion ----

  // The first link: a study that contains the baseline's run, with the run's own artifact.
  ghost predicate VarianceBacked(c: Contract, b: Baseline, link: Link) {
    && link.VarianceLink? && link.move == Transition(Candidate, VarianceCollected)
    && Kept(c, link.evidenceId, VarianceAnalysis)
    && exists s, r :: && s in c.studies && s.id == link.studyId && s.analysisEvidenceId == link.evidenceId
                      && r in s.runs
                      && (r.target, r.runId) == (b.target, b.runId) && r.artifactEvidenceId == b.artifactEvidenceId
  }

  ghost predicate RuleBacked(c: Contract, link: Link) {
    && link.RuleLink? && link.move == Transition(VarianceCollected, PromotionPending)
    && link.ruleId == c.lifecycle.ruleId && link.ruleEvidenceId == c.lifecycle.ruleEvidenceId
    && Kept(c, link.evidenceId, BaselinePromotion)
  }

  ghost predicate ApprovalBacked(c: Contract, link: Link) {
    && link.ApprovalLink? && link.move == Transition(PromotionPending, Approved) && c.approval.Some?
    && link.approvalId == c.approval.value.id && link.evidenceId == c.approval.value.evidenceId
    && Kept(c, link.evidenceId, ApprovalRecord)
  }

  // A baseline has gone through exactly the stages before its own, each backed by its evidence, and records a
  // supersession exactly when it is superseded.
  lemma PromotionsAreBacked(c: Contract, sha: Contract -> string, b: Baseline)
    requires Valid(c, sha) && b in c.baselines
    ensures Kept(c, b.artifactEvidenceId, BenchmarkArtifact)
    ensures match b.stage
            case Candidate => b.chain == []
            case VarianceCollected => |b.chain| == 1
            case PromotionPending => |b.chain| == 2
            case Approved => |b.chain| == 3
            case Superseded => |b.chain| == 3
            case UnsupportedStage(_) => false
    ensures |b.chain| >= 1 ==> VarianceBacked(c, b, b.chain[0])
    ensures |b.chain| >= 2 ==> RuleBacked(c, b.chain[1])
    ensures |b.chain| >= 3 ==> ApprovalBacked(c, b.chain[2])
    ensures b.supersession.Some? <==> b.stage == Superseded
    ensures b.supersession.Some? ==> && b.supersession.value.move == Transition(Approved, Superseded)
                                     && Kept(c, b.supersession.value.evidenceId, BaselineSupersession)
  {
    hide HeaderOk, RetentionOk, ControlOk, MethodOk, LifecycleOk, AuthorityOk, ApprovalOk, BudgetsOk, ScopeOk, Kept,
         Refers, IsId, IsHex, IsRunId, FindBy, AllPlaced, StudyOk, PlacedOk, VarianceBacked;
    assert BaselineOk(c, b);
    forall id, kind ensures Refers(c.retention, id, kind) ==> Kept(c, id, kind) { ReferredIsKept(c, id, kind); }
    forall i | 0 <= i < |b.chain| ensures LinkOk(c, b, i, b.chain[i]) {}
    if |b.chain| >= 1 { VarianceIsBacked(c, b, b.chain[0]); }
    if |b.chain| >= 2 { assert LinkOk(c, b, 1, b.chain[1]); }
    if |b.chain| >= 3 { assert LinkOk(c, b, 2, b.chain[2]); }
  }

  lemma VarianceIsBacked(c: Contract, b: Baseline, link: Link)
    requires DistinctKeys(StudyId, c.studies) && LinkOk(c, b, 0, link)
    ensures VarianceBacked(c, b, link)
  {
    hide Refers, IsId, FindBy, AllPlaced;
    ReferredIsKept(c, link.evidenceId, VarianceAnalysis);
    FindByIs(StudyId, c.studies, link.studyId);
    FindByIs(Identity, AllPlaced(c.studies), BaselineRun(b));
    var s := FindStudy(c.studies, link.studyId).value;
    var p := FindPlaced(AllPlaced(c.studies), BaselineRun(b)).value;
    var k, i := PlacedFrom(c.studies, p);
    assert c.studies[k] in c.studies && StudyId(c.studies[k]) == link.studyId;
    assert c.studies[k] == s && p.run in s.runs;
  }

  // ---- Budgets ----

  // A rule sets a limit from the right side on a metric in its unit, and cites its evidence.
  lemma BudgetsAreMeasurable(c: Contract, sha: Contract -> string, b: Budget)
    requires Valid(c, sha) && b in c.budgets
    ensures (b.metric, b.unit, b.direction) in {
              ("p99_latency", "ms", "maximum"), ("throughput", "operations_per_second", "minimum"),
              ("mean_estimate", "ns", "maximum")}
    ensures b.limit >= 0.0 && b.matching == "exact_complete_identity" && Kept(c, b.evidenceId, BudgetRule)
    ensures forall x :: x in c.budgets && (x.id == b.id || (x.identity, x.metric) == (b.identity, b.metric)) ==> x == b
  {
    hide HeaderOk, RetentionOk, ControlOk, MethodOk, StudiesOk, LifecycleOk, AuthorityOk, ApprovalOk, BaselinesOk,
         ScopeOk, Kept, Refers, IsId, IsHex;
    assert BudgetOk(c.retention, b);
    ReferredIsKept(c, b.evidenceId, BudgetRule);
    var j := Find(c.budgets, b);
    forall x | x in c.budgets && (x.id == b.id || (x.identity, x.metric) == (b.identity, b.metric)) ensures x == b {
      var i := Find(c.budgets, x);
      assert BudgetId(c.budgets[i]) == BudgetId(c.budgets[j]) || BudgetKey(c.budgets[i]) == BudgetKey(c.budgets[j]);
    }
  }

  // Without an approval a limit may be any number that is not negative.
  lemma LimitsAreNotNegative(c: Contract, sha: Contract -> string, k: nat, limit: real)
    requires Valid(c, sha) && c.approval.None? && k < |c.budgets|
    ensures Valid(c.(budgets := c.budgets[k := c.budgets[k].(limit := limit)]), sha) <==> limit >= 0.0
  {
    hide IsId, IsHex, Refers, ReferencesOk, EvidenceOk, AllPlaced, IsRunId, FindBy, SupersessionOk;
    var d := c.(budgets := c.budgets[k := c.budgets[k].(limit := limit)]);
    SameButBudgets(c, d);
    assert d.budgets[k] in d.budgets;
    forall b | b in d.budgets && limit >= 0.0 ensures BudgetOk(d.retention, b) {
      var i := Find(d.budgets, b);
      assert c.budgets[i] in c.budgets && BudgetOk(c.retention, c.budgets[i]);
    }
    forall i, j | 0 <= i < j < |d.budgets|
      ensures BudgetId(d.budgets[i]) != BudgetId(d.budgets[j]) && BudgetKey(d.budgets[i]) != BudgetKey(d.budgets[j])
    {
      assert BudgetId(c.budgets[i]) != BudgetId(c.budgets[j]) && BudgetKey(c.budgets[i]) != BudgetKey(c.budgets[j]);
    }
  }

  lemma SameButBudgets(c: Contract, d: Contract)
    requires d == c.(budgets := d.budgets)
    ensures ControlOk(d) <==> ControlOk(c)
    ensures StudiesOk(d) <==> StudiesOk(c)
    ensures BaselinesOk(d) <==> BaselinesOk(c)
  {
    hide IsId, IsHex, IsRunId, Refers, ReferencesOk, AllPlaced, FindBy, SupersessionOk;
    assert forall s :: s in c.studies ==> (StudyOk(d, s) <==> StudyOk(c, s));
    forall b | b in c.baselines ensures BaselineOk(d, b) <==> BaselineOk(c, b) {
      assert SupersessionOk(d, b) <==> SupersessionOk(c, b) by { SupersessionEither(c, d, b); }
      forall i | 0 <= i < |b.chain| && i < 3 ensures LinkOk(d, b, i, b.chain[i]) <==> LinkOk(c, b, i, b.chain[i]) {}
    }
  }

  lemma SupersessionEither(c: Contract, d: Contract, b: Baseline)
    requires d.retention == c.retention
    ensures SupersessionOk(d, b) <==> SupersessionOk(c, b)
  {
  }
}
