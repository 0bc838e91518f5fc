/** The controlled-evidence contract: its records, what makes a contract acceptable, and its canonical
    form. Wrong JSON types and missing or extra keys are excluded by the record types; enumerated
    fields keep an `Unsupported` case and timestamps keep their unparseable case. */
module Contract {
  import opened Sorting

  // ---- Records ----

  datatype Kind =
    | AnalysisPlan | ApprovalAuthority | ApprovalRecord | BaselinePromotion | BaselinePromotionRule
    | BaselineSupersession | BenchmarkArtifact | BudgetRule | ControlProfile | ControlledRunner
    | RunnerProfileBinding | VarianceAnalysis
    | UnsupportedKind(name: string)

  datatype Timestamp = Utc(microseconds: int) | BadTimestamp(text: string)

  datatype Evidence = Evidence(
    id: string, kind: Kind, locator: string, recorded: Timestamp, retainedUntil: Timestamp, sha256: string)

  datatype Named = Named(id: string, version: string)
  datatype Runner = Runner(runnerId: string, evidenceIds: seq<string>)
  datatype Profile = Profile(name: Named, evidenceIds: seq<string>)
  datatype Binding = Binding(runnerId: string, profile: Named, proofSemantics: string, evidenceIds: seq<string>)
  datatype Control = Control(runner: Runner, profile: Profile, binding: Binding)

  datatype Method = Method(
    planEvidenceId: string, name: Named, minimumRuns: int, sampleUnit: string, alignment: string,
    effect: string, uncertainty: string)

  datatype StudyRun = StudyRun(
    target: string, runId: string, runnerId: string, profile: Named, method_: Named, sampleUnit: string,
    producerSet: string, scenarioSet: string, artifactEvidenceId: string)

  datatype Study = Study(
    id: string, target: string, runnerId: string, profile: Named, method_: Named, producerSet: string,
    scenarioSet: string, analysisEvidenceId: string, runs: seq<StudyRun>)

  datatype Stage =
    | Candidate | VarianceCollected | PromotionPending | Approved | Superseded | UnsupportedStage(name: string)
  datatype Transition = Transition(from: Stage, to: Stage)

  datatype Lifecycle = Lifecycle(
    initial: Stage, ruleEvidenceId: string, ruleId: string, path: seq<Transition>, selection: string,
    supersession: Transition)

  datatype Authority = Authority(name: Named, evidenceId: string, semantics: string)
  datatype Approval = Approval(id: string, approvedAt: Timestamp, authorityId: string, evidenceId: string,
                               scope: string)

  // One link of a promotion chain, by the keys it carries.
  datatype Link =
    | VarianceLink(move: Transition, evidenceId: string, studyId: string)
    | RuleLink(move: Transition, evidenceId: string, ruleId: string, ruleEvidenceId: string)
    | ApprovalLink(move: Transition, evidenceId: string, approvalId: string)

  datatype Supersession = Supersession(move: Transition, evidenceId: string, successorId: string)

  datatype Baseline = Baseline(
    id: string, target: string, runId: string, artifactEvidenceId: string, stage: Stage, chain: seq<Link>,
    supersession: Option<Supersession>)

  datatype Budget = Budget(
    id: string, metric: string, unit: string, direction: string, limit: real, evidenceId: string,
    scenarioId: string, identity: string, matching: string)

  datatype Contract = Contract(
    schemaName: string, schemaVersion: int, contractId: string, integrity: string, validation: string,
    retention: seq<Evidence>, control: Control, method_: Method, studies: seq<Study>, lifecycle: Lifecycle,
    authority: Authority, approval: Option<Approval>, baselines: seq<Baseline>, budgets: seq<Budget>)

  // ---- Constants ----

  const SCHEMA_NAME := "benchmark-controlled-evidence-contract"
  const INTEGRITY := "sha256_is_integrity_only_not_signature_attestation_approval_or_authority"
  const VALIDATION := "structure_only_not_authentication_owner_authorization_baseline_acceptance_or_policy_activation"
  const PROOF_SEMANTICS := "retained_control_evidence_required_labels_and_environment_alone_are_not_proof"
  const APPROVAL_SEMANTICS := "structural_validation_is_not_authentication_or_owner_authorization"
  const SAMPLE_UNIT := "complete_independent_bench-full_run"
  const ALIGNMENT := "exact_complete_set"
  const REQUIRED := "required"
  const SELECTION := "explicit_baseline_id_only"
  const MATCHING := "exact_complete_identity"
  const PROMOTION_PATH := [
    Transition(Candidate, VarianceCollected),
    Transition(VarianceCollected, PromotionPending),
    Transition(PromotionPending, Approved)]
  const SUPERSESSION := Transition(Approved, Superseded)

  predicate SupportedPairing(metric: string, unit: string, direction: string) {
    || (metric == "mean_estimate" && unit == "ns" && direction == "maximum")
    || (metric == "p99_latency" && unit == "ms" && direction == "maximum")
    || (metric == "throughput" && unit == "operations_per_second" && direction == "minimum")
  }

  // ---- Syntax of identifiers ----

  predicate LowerOrDigit(c: char) { 'a' <= c <= 'z' || '0' <= c <= '9' }
  predicate LowerHex(c: char) { '0' <= c <= '9' || 'a' <= c <= 'f' }

  predicate IsId(s: string) {
    && 1 <= |s| <= 128 && LowerOrDigit(s[0])
    && forall i :: 0 <= i < |s| ==> LowerOrDigit(s[i]) || s[i] in "._-"
  }

  predicate IsHex(s: string, n: nat) { |s| == n && forall i :: 0 <= i < n ==> LowerHex(s[i]) }
  predicate IsDigest(s: string) { IsHex(s, 64) }
  predicate IsFullSha(s: string) { IsHex(s, 40) }

  predicate AlphaNumeric(c: char) { 'a' <= c <= 'z' || 'A' <= c <= 'Z' || '0' <= c <= '9' }

  predicate IsRunId(s: string) {
    && 1 <= |s| <= 64 && AlphaNumeric(s[0])
    && forall i :: 0 <= i < |s| ==> AlphaNumeric(s[i]) || s[i] in "._-"
  }

  predicate IsLocator(s: string) {
    1 <= |s| <= 512 && forall i :: 0 <= i < |s| ==> s[i] > ' ' && s[i] != '\U{7F}'
  }

  // ---- Lookups ----

  function EvidenceId(e: Evidence): string { e.id }
  function StudyId(s: Study): string { s.id }
  function BaselineId(b: Baseline): string { b.id }
  function BudgetId(b: Budget): string { b.id }
  function Self(s: string): string { s }
  function BaselineRun(b: Baseline): (string, string) { (b.target, b.runId) }
  function BudgetKey(b: Budget): (string, string) { (b.identity, b.metric) }

  function Lookup(retention: seq<Evidence>, id: string): Option<Evidence> { FindBy(EvidenceId, retention, id) }

  predicate Refers(retention: seq<Evidence>, id: string, kind: Kind) {
    IsId(id) && Lookup(retention, id).Some? && Lookup(retention, id).value.kind == kind
  }

  function FindStudy(studies: seq<Study>, id: string): Option<Study> { FindBy(StudyId, studies, id) }

  // A run with the study it belongs to.
  datatype Placed = Placed(studyId: string, run: StudyRun)

  function PlacedIn(studyId: string, runs: seq<StudyRun>): (r: seq<Placed>)
    ensures |r| == |runs|
    ensures forall i :: 0 <= i < |runs| ==> r[i] == Placed(studyId, runs[i])
  {
    seq(|runs|, i requires 0 <= i < |runs| => Placed(studyId, runs[i]))
  }

  // Every run of every study, in document order.
  function AllPlaced(studies: seq<Study>): seq<Placed> {
    if studies == [] then [] else PlacedIn(studies[0].id, studies[0].runs) + AllPlaced(studies[1..])
  }

  function Identity(p: Placed): (string, string) { (p.run.target, p.run.runId) }

  function ArtifactOf(p: Placed): string { p.run.artifactEvidenceId }

  function FindPlaced(placed: seq<Placed>, identity: (string, string)): Option<Placed> {
    FindBy(Identity, placed, identity)
  }

  // The content digest an evidence ID stands for.
  function ContentOf(retention: seq<Evidence>, id: string): string {
    match Lookup(retention, id)
    case None => ""
    case Some(e) => e.sha256
  }

  // ---- Acceptance ----

  predicate HeaderOk(c: Contract) {
    && c.schemaName == SCHEMA_NAME && c.schemaVersion == 1
    && IsId(c.contractId) && c.integrity == INTEGRITY && c.validation == VALIDATION
  }

  predicate EvidenceOk(e: Evidence) {
    && IsId(e.id) && !e.kind.UnsupportedKind? && IsLocator(e.locator) && IsDigest(e.sha256)
    && e.recorded.Utc? && e.retainedUntil.Utc? && e.recorded.microseconds <= e.retainedUntil.microseconds
  }

  ghost predicate RetentionOk(retention: seq<Evidence>) {
    && retention != [] && DistinctKeys(EvidenceId, retention)
    && forall e :: e in retention ==> EvidenceOk(e)
  }

  ghost predicate ReferencesOk(retention: seq<Evidence>, ids: seq<string>, kind: Kind) {
    ids != [] && DistinctKeys(Self, ids) && forall id :: id in ids ==> Refers(retention, id, kind)
  }

  ghost predicate ControlOk(c: Contract) {
    var k := c.control;
    && IsId(k.runner.runnerId) && ReferencesOk(c.retention, k.runner.evidenceIds, ControlledRunner)
    && IsId(k.profile.name.id) && IsId(k.profile.name.version)
    && ReferencesOk(c.retention, k.profile.evidenceIds, ControlProfile)
    && k.binding.runnerId == k.runner.runnerId && k.binding.profile == k.profile.name
    && k.binding.proofSemantics == PROOF_SEMANTICS
    && ReferencesOk(c.retention, k.binding.evidenceIds, RunnerProfileBinding)
  }

  predicate MethodOk(c: Contract) {
    var m := c.method_;
    && IsId(m.name.id) && IsId(m.name.version) && Refers(c.retention, m.planEvidenceId, AnalysisPlan)
    && m.minimumRuns >= 2 && m.sampleUnit == SAMPLE_UNIT && m.alignment == ALIGNMENT
    && m.effect == REQUIRED && m.uncertainty == REQUIRED
  }

  predicate RunOk(c: Contract, s: Study, r: StudyRun) {
    && IsFullSha(r.target) && IsRunId(r.runId) && r.target == s.target
    && r.runnerId == c.control.runner.runnerId && r.profile == s.profile && r.method_ == s.method_
    && r.sampleUnit == SAMPLE_UNIT && r.producerSet == s.producerSet && r.scenarioSet == s.scenarioSet
    && Refers(c.retention, r.artifactEvidenceId, BenchmarkArtifact)
  }

  // What a study says of itself, its runs apart.
  predicate StudyHeadOk(c: Contract, s: Study) {
    && IsId(s.id) && IsFullSha(s.target) && s.runnerId == c.control.runner.runnerId
    && s.profile == c.control.profile.name && s.method_ == c.method_.name
    && IsDigest(s.producerSet) && IsDigest(s.scenarioSet)
    && Refers(c.retention, s.analysisEvidenceId, VarianceAnalysis)
  }

  ghost predicate StudyOk(c: Contract, s: Study) {
    StudyHeadOk(c, s) && |s.runs| >= c.method_.minimumRuns && forall r :: r in s.runs ==> RunOk(c, s, r)
  }

  function ContentKey(retention: seq<Evidence>): Placed -> string { (p: Placed) => ContentOf(retention, ArtifactOf(p)) }

  // No run identity, artifact evidence or artifact content is used by two runs, in any study.
  ghost predicate PlacedOk(retention: seq<Evidence>, placed: seq<Placed>) {
    && DistinctKeys(Identity, placed) && DistinctKeys(ArtifactOf, placed)
    && DistinctKeys(ContentKey(retention), placed)
  }

  ghost predicate StudiesOk(c: Contract) {
    && c.studies != [] && DistinctKeys(StudyId, c.studies)
    && (forall s :: s in c.studies ==> StudyOk(c, s))
    && PlacedOk(c.retention, AllPlaced(c.studies))
  }

  predicate LifecycleOk(c: Contract) {
    var l := c.lifecycle;
    && IsId(l.ruleId) && Refers(c.retention, l.ruleEvidenceId, BaselinePromotionRule)
    && l.path == PROMOTION_PATH && l.initial == Candidate && l.selection == SELECTION && l.supersession == SUPERSESSION
  }

  predicate AuthorityOk(c: Contract) {
    && IsId(c.authority.name.id) && IsId(c.authority.name.version)
    && Refers(c.retention, c.authority.evidenceId, ApprovalAuthority) && c.authority.semantics == APPROVAL_SEMANTICS
  }

  predicate ApprovalOk(c: Contract) {
    c.approval.Some? ==>
      var a := c.approval.value;
      && IsId(a.id) && a.authorityId == c.authority.name.id
      && Refers(c.retention, a.evidenceId, ApprovalRecord)
      && a.approvedAt.Utc? && IsDigest(a.scope) && c.authority.evidenceId != a.evidenceId
      && var e := Lookup(c.retention, a.evidenceId).value;
         && e.recorded.Utc? && e.retainedUntil.Utc?
         && e.recorded.microseconds <= a.approvedAt.microseconds <= e.retainedUntil.microseconds
  }

  function ChainLength(stage: Stage): nat {
    match stage
    case Candidate => 0
    case VarianceCollected => 1
    case PromotionPending => 2
    case _ => 3
  }

  predicate LinkOk(c: Contract, b: Baseline, position: nat, link: Link)
    requires position < 3
  {
    && link.move == PROMOTION_PATH[position]
    && match position
       case 0 =>
         && link.VarianceLink? && IsId(link.studyId) && Refers(c.retention, link.evidenceId, VarianceAnalysis)
         && (var study := FindStudy(c.studies, link.studyId);
             study.Some? && study.value.analysisEvidenceId == link.evidenceId)
         && (var placed := FindPlaced(AllPlaced(c.studies), BaselineRun(b));
             placed.Some? && placed.value.studyId == link.studyId
             && placed.value.run.artifactEvidenceId == b.artifactEvidenceId)
       case 1 =>
         && link.RuleLink? && link.ruleId == c.lifecycle.ruleId && link.ruleEvidenceId == c.lifecycle.ruleEvidenceId
         && Refers(c.retention, link.ruleEvidenceId, BaselinePromotionRule)
         && Refers(c.retention, link.evidenceId, BaselinePromotion)
       case _ =>
         && link.ApprovalLink? && c.approval.Some?
         && link.approvalId == c.approval.value.id && link.evidenceId == c.approval.value.evidenceId
         && Refers(c.retention, link.evidenceId, ApprovalRecord)
  }

  predicate ChainOk(c: Contract, b: Baseline) {
    && |b.chain| == ChainLength(b.stage)
    && forall i :: 0 <= i < |b.chain| ==> LinkOk(c, b, i, b.chain[i])
  }

  predicate SupersessionOk(c: Contract, b: Baseline) {
    if b.stage == Superseded then
      && b.supersession.Some?
      && var s := b.supersession.value;
         s.move == SUPERSESSION && IsId(s.successorId) && Refers(c.retention, s.evidenceId, BaselineSupersession)
    else b.supersession.None?
  }

  predicate BaselineOk(c: Contract, b: Baseline) {
    && IsId(b.id) && IsFullSha(b.target) && IsRunId(b.runId)
    && Refers(c.retention, b.artifactEvidenceId, BenchmarkArtifact) && !b.stage.UnsupportedStage?
    && ChainOk(c, b) && SupersessionOk(c, b)
  }

  // The named successor is another baseline of the contract and is approved.
  ghost predicate SuccessorOk(baselines: seq<Baseline>, b: Baseline) {
    b.stage == Superseded && b.supersession.Some? ==>
      exists s :: s in baselines && s.id == b.supersession.value.successorId && s.id != b.id && s.stage == Approved
  }

  ghost predicate BaselinesOk(c: Contract) {
    && c.baselines != [] && DistinctKeys(BaselineId, c.baselines) && DistinctKeys(BaselineRun, c.baselines)
    && (forall b :: b in c.baselines ==> BaselineOk(c, b) && SuccessorOk(c.baselines, b))
    && (c.approval.Some? ==> exists b :: b in c.baselines && |b.chain| == 3)
  }

  predicate BudgetOk(retention: seq<Evidence>, b: Budget) {
    && IsId(b.id) && IsId(b.scenarioId) && IsDigest(b.identity) && b.matching == MATCHING
    && SupportedPairing(b.metric, b.unit, b.direction) && b.limit >= 0.0 && Refers(retention, b.evidenceId, BudgetRule)
  }

  ghost predicate BudgetsOk(c: Contract) {
    && c.budgets != [] && DistinctKeys(BudgetId, c.budgets) && DistinctKeys(BudgetKey, c.budgets)
    && forall b :: b in c.budgets ==> BudgetOk(c.retention, b)
  }

  // ---- Canonical form ----

  predicate EvidenceLe(a: Evidence, b: Evidence) { StringLe(a.id, b.id) }
  predicate StudyLe(a: Study, b: Study) { StringLe(a.id, b.id) }
  predicate BaselineLe(a: Baseline, b: Baseline) { StringLe(a.id, b.id) }
  predicate BudgetLe(a: Budget, b: Budget) { StringLe(a.id, b.id) }
  predicate RunLe(a: StudyRun, b: StudyRun) { PairLe((a.target, a.runId), (b.target, b.runId)) }

  function SortRuns(s: Study): Study { s.(runs := Sort(RunLe, s.runs)) }

  function SortEachRuns(studies: seq<Study>): (r: seq<Study>)
    ensures |r| == |studies|
    ensures forall i :: 0 <= i < |r| ==> r[i] == SortRuns(studies[i])
  {
    seq(|studies|, i requires 0 <= i < |studies| => SortRuns(studies[i]))
  }

  function SortControl(k: Control): Control {
    Control(k.runner.(evidenceIds := Sort(StringLe, k.runner.evidenceIds)),
            k.profile.(evidenceIds := Sort(StringLe, k.profile.evidenceIds)),
            k.binding.(evidenceIds := Sort(StringLe, k.binding.evidenceIds)))
  }

  // Every list whose order carries no meaning is sorted; promotion chains are left alone.
  function Normalize(c: Contract): Contract {
    c.(control := SortControl(c.control),
       studies := Sort(StudyLe, SortEachRuns(c.studies)),
       baselines := Sort(BaselineLe, c.baselines),
       budgets := Sort(BudgetLe, c.budgets),
       retention := Sort(EvidenceLe, c.retention))
  }

  // What an approval covers: the canonical contract without the approval itself.
  function ScopeOf(c: Contract): Contract { Normalize(c.(approval := None)) }

  // `sha` digests a canonical document's text.
  predicate ScopeOk(c: Contract, sha: Contract -> string) {
    c.approval.Some? ==> c.approval.value.scope == sha(ScopeOf(c))
  }

  ghost predicate Valid(c: Contract, sha: Contract -> string) {
    && HeaderOk(c) && RetentionOk(c.retention) && ControlOk(c) && MethodOk(c) && StudiesOk(c)
    && LifecycleOk(c) && AuthorityOk(c) && ApprovalOk(c) && BaselinesOk(c) && BudgetsOk(c) && ScopeOk(c, sha)
  }
}
