/** An accepted contract with an approved and a superseded baseline and a study of one run more than it needs,
    for any target, any three different artifact digests and any digest function: what is proved of accepted
    contracts is not proved of nothing. */
module ContractExample {
  import opened Sorting
  import opened Contract
  import opened ContractTheorems
  import opened ContractApproval

  // The `n`-th example ID.
  function Id(n: nat): (s: string)
    ensures |s| == n && forall i :: 0 <= i < n ==> s[i] == 'a'
  {
    if n == 0 then "" else Id(n - 1) + "a"
  }

  lemma IdIsId(n: nat)
    requires 1 <= n <= 128
    ensures IsId(Id(n))
  {
  }

  const KINDS := [
    ControlledRunner, ControlProfile, RunnerProfileBinding, AnalysisPlan, VarianceAnalysis, BaselinePromotionRule,
    ApprovalAuthority, ApprovalRecord, BaselinePromotion, BaselineSupersession, BudgetRule, BenchmarkArtifact,
    BenchmarkArtifact, BenchmarkArtifact]

  predicate ExampleDigests(digests: (string, string, string)) {
    && IsDigest(digests.0) && IsDigest(digests.1) && IsDigest(digests.2)
    && digests.0 != digests.1 && digests.0 != digests.2 && digests.1 != digests.2
  }

  function Item(n: nat, digests: (string, string, string)): Evidence
    requires 1 <= n <= 14
  {
    Evidence(Id(n), KINDS[n - 1], "l", Utc(0), Utc(9),
             if n == 12 then digests.0 else if n == 14 then digests.2 else digests.1)
  }

  function Items(digests: (string, string, string)): (r: seq<Evidence>)
    ensures |r| == 14 && forall i :: 0 <= i < 14 ==> r[i] == Item(i + 1, digests)
  {
    seq(14, i requires 0 <= i < 14 => Item(i + 1, digests))
  }

  lemma ItemFound(digests: (string, string, string), n: nat)
    requires 1 <= n <= 14
    ensures Lookup(Items(digests), Id(n)) == Some(Item(n, digests)) && Refers(Items(digests), Id(n), KINDS[n - 1])
  {
    hide FindBy, Id;
    ItemsDistinct(digests);
    assert Items(digests)[n - 1] in Items(digests);
    FindByIs(EvidenceId, Items(digests), Id(n));
    IdIsId(n);
  }

  lemma ItemsDistinct(digests: (string, string, string))
    ensures DistinctKeys(EvidenceId, Items(digests))
  {
    var items := Items(digests);
    forall i, j | 0 <= i < j < 14 ensures EvidenceId(items[i]) != EvidenceId(items[j]) {
      assert |EvidenceId(items[i])| == i + 1 && |EvidenceId(items[j])| == j + 1;
    }
  }

  function ExampleName(): Named { Named(Id(1), Id(1)) }

  function ExampleRun(target: string, digest: string, n: nat): StudyRun {
    StudyRun(target, Id(n), Id(1), ExampleName(), ExampleName(), SAMPLE_UNIT, digest, digest, Id(n + 11))
  }

  function ExampleRuns(target: string, digest: string): seq<StudyRun> {
    [ExampleRun(target, digest, 1), ExampleRun(target, digest, 2), ExampleRun(target, digest, 3)]
  }

  function ExamplePlaced(target: string, digest: string): seq<Placed> {
    [Placed(Id(1), ExampleRun(target, digest, 1)), Placed(Id(1), ExampleRun(target, digest, 2)),
     Placed(Id(1), ExampleRun(target, digest, 3))]
  }

  function ExampleStudy(target: string, digest: string): Study {
    Study(Id(1), target, Id(1), ExampleName(), ExampleName(), digest, digest, Id(5), ExampleRuns(target, digest))
  }

  function ExampleChain(): seq<Link> {
    [VarianceLink(PROMOTION_PATH[0], Id(5), Id(1)), RuleLink(PROMOTION_PATH[1], Id(9), Id(1), Id(6)),
     ApprovalLink(PROMOTION_PATH[2], Id(8), Id(1))]
  }

  function ExampleApproval(scope: string): Approval { Approval(Id(1), Utc(1), Id(1), Id(8), scope) }

  function Example(target: string, digests: (string, string, string), approval: Option<Approval>): Contract {
    Contract(SCHEMA_NAME, 1, Id(1), INTEGRITY, VALIDATION, Items(digests),
             Control(Runner(Id(1), [Id(1)]), Profile(ExampleName(), [Id(2)]),
                     Binding(Id(1), ExampleName(), PROOF_SEMANTICS, [Id(3)])),
             Method(Id(4), ExampleName(), 2, SAMPLE_UNIT, ALIGNMENT, REQUIRED, REQUIRED),
             [ExampleStudy(target, digests.0)],
             Lifecycle(Candidate, Id(6), Id(1), PROMOTION_PATH, SELECTION, SUPERSESSION),
             Authority(ExampleName(), Id(7), APPROVAL_SEMANTICS), approval,
             [Baseline(Id(1), target, Id(1), Id(12), Approved, ExampleChain(), None),
              Baseline(Id(2), target, Id(2), Id(13), Superseded, ExampleChain(),
                       Some(Supersession(Transition(Approved, Superseded), Id(10), Id(1))))],
             [Budget(Id(1), "throughput", "operations_per_second", "minimum", 1.0, Id(11), Id(1), digests.0, MATCHING)])
  }

  // ---- Part by part ----

  lemma HeadsOk(c: Contract, target: string, digests: (string, string, string), approval: Option<Approval>)
    requires c == Example(target, digests, approval)
    ensures HeaderOk(c) && MethodOk(c) && LifecycleOk(c) && AuthorityOk(c)
  {
    hide Id, Refers, IsId;
    IdIsId(1);
    ItemFound(digests, 4);
    ItemFound(digests, 6);
    ItemFound(digests, 7);
  }

  lemma ExampleRetention(digests: (string, string, string))
    requires ExampleDigests(digests)
    ensures RetentionOk(Items(digests))
  {
    hide Id, IsHex;
    ItemsDistinct(digests);
    forall e | e in Items(digests) ensures EvidenceOk(e) {
      var i := Find(Items(digests), e);
      IdIsId(i + 1);
    }
  }

  lemma OneReference(digests: (string, string, string), n: nat)
    requires 1 <= n <= 14
    ensures ReferencesOk(Items(digests), [Id(n)], KINDS[n - 1])
  {
    hide Refers, Id;
    ItemFound(digests, n);
  }

  lemma ExampleControl(c: Contract, target: string, digests: (string, string, string), approval: Option<Approval>)
    requires c == Example(target, digests, approval)
    ensures ControlOk(c)
  {
    hide Id, IsId, ReferencesOk;
    IdIsId(1);
    OneReference(digests, 1);
    OneReference(digests, 2);
    OneReference(digests, 3);
  }

  lemma IdIsRunId(n: nat)
    requires 1 <= n <= 64
    ensures IsRunId(Id(n))
  {
  }

  lemma OneStudyPlaced(s: Study)
    requires |s.runs| == 3
    ensures AllPlaced([s]) == [Placed(s.id, s.runs[0]), Placed(s.id, s.runs[1]), Placed(s.id, s.runs[2])]
  {
    assert [s][1..] == [];
    assert AllPlaced([s]) == PlacedIn(s.id, s.runs) + AllPlaced([s][1..]);
  }

  lemma ExampleStudies(c: Contract, target: string, digests: (string, string, string), approval: Option<Approval>)
    requires c == Example(target, digests, approval) && IsFullSha(target) && ExampleDigests(digests)
    ensures StudiesOk(c)
    ensures AllPlaced(c.studies) == ExamplePlaced(target, digests.0)
  {
    hide Id, IsId, Refers, IsHex, IsRunId, AllPlaced, FindBy;
    IdIsId(1);
    IdIsRunId(1);
    IdIsRunId(2);
    IdIsRunId(3);
    ItemFound(digests, 5);
    ItemFound(digests, 12);
    ItemFound(digests, 13);
    ItemFound(digests, 14);
    var s := ExampleStudy(target, digests.0);
    OneStudyPlaced(s);
    var placed := AllPlaced(c.studies);
    assert |Id(1)| == 1 && |Id(2)| == 2 && |Id(3)| == 3 && |Id(12)| == 12 && |Id(13)| == 13 && |Id(14)| == 14;
    assert ContentKey(c.retention)(placed[0]) == digests.0 && ContentKey(c.retention)(placed[1]) == digests.1;
    assert ContentKey(c.retention)(placed[2]) == digests.2;
    assert StudyOk(c, s);
  }

  lemma ExampleApprovalOk(c: Contract, target: string, digests: (string, string, string), scope: string)
    requires c == Example(target, digests, Some(ExampleApproval(scope))) && IsDigest(scope)
    ensures ApprovalOk(c)
  {
    hide Id, IsId, Refers, IsHex, FindBy;
    IdIsId(1);
    ItemFound(digests, 7);
    ItemFound(digests, 8);
    assert |Id(7)| == 7 && |Id(8)| == 8;
  }

  lemma ExampleLinks(c: Contract, target: string, digests: (string, string, string), scope: string, b: Baseline, n: nat)
    requires c == Example(target, digests, Some(ExampleApproval(scope))) && StudiesOk(c) && 1 <= n <= 2
    requires AllPlaced(c.studies) == ExamplePlaced(target, digests.0)
    requires b.target == target && b.runId == Id(n) && b.artifactEvidenceId == Id(n + 11) && b.chain == ExampleChain()
    requires b.stage == Approved || b.stage == Superseded
    ensures ChainOk(c, b)
  {
    hide Id, IsId, Refers, IsHex, FindBy, AllPlaced, StudyOk;
    IdIsId(1);
    ItemFound(digests, 5);
    ItemFound(digests, 6);
    ItemFound(digests, 8);
    ItemFound(digests, 9);
    var placed := AllPlaced(c.studies);
    assert placed[n - 1] in placed && Identity(placed[n - 1]) == BaselineRun(b);
    FindByIs(Identity, placed, BaselineRun(b));
    assert c.studies[0] in c.studies;
    FindByIs(StudyId, c.studies, Id(1));
  }

  lemma ExampleBaselines(c: Contract, target: string, digests: (string, string, string), scope: string)
    requires c == Example(target, digests, Some(ExampleApproval(scope))) && StudiesOk(c) && IsFullSha(target)
    requires AllPlaced(c.studies) == ExamplePlaced(target, digests.0)
    ensures BaselinesOk(c)
  {
    hide Id, IsId, Refers, IsHex, IsRunId, AllPlaced, StudiesOk, ChainOk;
    IdIsId(1);
    IdIsId(2);
    IdIsRunId(1);
    IdIsRunId(2);
    ItemFound(digests, 10);
    ItemFound(digests, 12);
    ItemFound(digests, 13);
    var a, b := c.baselines[0], c.baselines[1];
    ExampleLinks(c, target, digests, scope, a, 1);
    ExampleLinks(c, target, digests, scope, b, 2);
    assert |Id(1)| == 1 && |Id(2)| == 2;
    assert a in c.baselines && |a.chain| == 3;
    assert BaselineOk(c, a) && BaselineOk(c, b) && SuccessorOk(c.baselines, b);
  }

  lemma ExampleBudgets(c: Contract, target: string, digests: (string, string, string), approval: Option<Approval>)
    requires c == Example(target, digests, approval) && IsDigest(digests.0)
    ensures BudgetsOk(c)
  {
    hide Id, IsId, Refers, IsHex;
    IdIsId(1);
    ItemFound(digests, 11);
  }

  lemma ExampleIsValid(target: string, digests: (string, string, string), sha: Contract -> string)
    requires IsFullSha(target) && ExampleDigests(digests)
    requires forall c :: IsDigest(sha(c))
    ensures Valid(Example(target, digests, Some(ExampleApproval(sha(ScopeOf(Example(target, digests, None)))))), sha)
  {
    hide HeaderOk, RetentionOk, ControlOk, MethodOk, StudiesOk, LifecycleOk, AuthorityOk, ApprovalOk, BaselinesOk,
         BudgetsOk, AllPlaced, ScopeOf, Id, IsHex;
    var draft := Example(target, digests, None);
    var scope := sha(ScopeOf(draft));
    var c := Example(target, digests, Some(ExampleApproval(scope)));
    HeadsOk(c, target, digests, c.approval);
    ExampleRetention(digests);
    ExampleControl(c, target, digests, c.approval);
    ExampleStudies(c, target, digests, c.approval);
    ExampleApprovalOk(c, target, digests, scope);
    ExampleBaselines(c, target, digests, scope);
    ExampleBudgets(c, target, digests, c.approval);
    assert c == draft.(approval := c.approval);
    ScopeIgnoresApproval(draft, c.approval, sha);
  }

  // The example before anything is promoted: one candidate and no approval.
  function Draft(target: string, digests: (string, string, string)): Contract {
    Example(target, digests, None).(baselines := [Baseline(Id(1), target, Id(1), Id(12), Candidate, [], None)])
  }

  lemma DraftIsValid(target: string, digests: (string, string, string), sha: Contract -> string)
    requires IsFullSha(target) && ExampleDigests(digests)
    ensures Valid(Draft(target, digests), sha)
  {
    hide HeaderOk, RetentionOk, ControlOk, MethodOk, StudiesOk, LifecycleOk, AuthorityOk, BudgetsOk, AllPlaced,
         ScopeOf, Id, IsHex, Refers, IsId, IsRunId;
    var c, d := Example(target, digests, None), Draft(target, digests);
    HeadsOk(c, target, digests, None);
    ExampleRetention(digests);
    ExampleControl(c, target, digests, None);
    ExampleStudies(c, target, digests, None);
    ExampleBudgets(c, target, digests, None);
    SameButBaselines(c, d);
    IdIsId(1);
    IdIsRunId(1);
    ItemFound(digests, 12);
  }

  lemma SameButBaselines(c: Contract, d: Contract)
    requires d == c.(baselines := d.baselines)
    ensures HeaderOk(c) ==> HeaderOk(d)
    ensures ControlOk(c) ==> ControlOk(d)
    ensures MethodOk(c) ==> MethodOk(d)
    ensures StudiesOk(c) ==> StudiesOk(d)
    ensures LifecycleOk(c) ==> LifecycleOk(d)
    ensures AuthorityOk(c) ==> AuthorityOk(d)
    ensures BudgetsOk(c) ==> BudgetsOk(d)
  {
    hide IsId, IsHex, IsRunId, Refers, ReferencesOk, AllPlaced, BudgetOk, PlacedOk;
    assert forall s :: s in c.studies ==> (StudyOk(d, s) <==> StudyOk(c, s));
  }

  // The example with its baselines listed the other way round.
  function Turned(c: Contract): Contract
    requires |c.baselines| == 2
  {
    c.(baselines := [c.baselines[1], c.baselines[0]])
  }

  // Two different contracts under one approval record, as ApprovalPinsContract supposes them.
  lemma ExampleIsPinned(target: string, digests: (string, string, string), sha: Contract -> string)
    requires IsFullSha(target) && ExampleDigests(digests)
    requires forall c :: IsDigest(sha(c))
    ensures var a := Example(target, digests, Some(ExampleApproval(sha(ScopeOf(Example(target, digests, None))))));
            var b := Turned(a);
            && a != b && Valid(a, sha) && Valid(b, sha) && a.approval.Some? && a.approval == b.approval
            && ScopeOf(a) == ScopeOf(b) && Normalize(a) == Normalize(b)
  {
    hide Valid, Normalize, ScopeOf, IsHex;
    var a := Example(target, digests, Some(ExampleApproval(sha(ScopeOf(Example(target, digests, None))))));
    var b := Turned(a);
    ExampleIsValid(target, digests, sha);
    assert |a.baselines[0].id| == 1 && |a.baselines[1].id| == 2;
    assert a.baselines == [a.baselines[0], a.baselines[1]];
    assert Bare(a) == Bare(b);
    OrderIsIrrelevant(a, b, sha);
    ApprovalPinsContract(a, b, sha);
  }
}
