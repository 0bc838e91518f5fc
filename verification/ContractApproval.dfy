/** Canonical form and promotion records of accepted contracts: normalising is a projection that keeps
    acceptance, an approval pins everything it covers, and promotions rest on distinct evidence. */
module ContractApproval {
  import opened Sorting
  import opened Contract
  import opened ContractTheorems

  // ---- The canonical form ----

  lemma SortAgain<T(!new)>(le: (T, T) -> bool, xs: seq<T>)
    requires TotalPreorder(le)
    ensures Sort(le, Sort(le, xs)) == Sort(le, xs)
  {
    SortSorted(le, xs);
    SortOfSorted(le, Sort(le, xs));
  }

  lemma StudiesSortAgain(studies: seq<Study>)
    ensures var once := Sort(StudyLe, SortEachRuns(studies)); Sort(StudyLe, SortEachRuns(once)) == once
  {
    hide Sort;
    var each := SortEachRuns(studies);
    var once := Sort(StudyLe, each);
    KeyOrders();
    RunOrder();
    MultisetMembers(once, each);
    forall i | 0 <= i < |once| ensures SortRuns(once[i]) == once[i] {
      assert once[i] in each;
      var j := Find(each, once[i]);
      SortAgain(RunLe, studies[j].runs);
    }
    assert SortEachRuns(once) == once;
    SortAgain(StudyLe, each);
  }

  lemma NormalizeIsIdempotent(c: Contract)
    ensures Normalize(Normalize(c)) == Normalize(c)
  {
    hide Sort, SortEachRuns;
    KeyOrders();
    StringOrder();
    StudiesSortAgain(c.studies);
    SortAgain(EvidenceLe, c.retention);
    SortAgain(BaselineLe, c.baselines);
    SortAgain(BudgetLe, c.budgets);
    SortAgain(StringLe, c.control.runner.evidenceIds);
    SortAgain(StringLe, c.control.profile.evidenceIds);
    SortAgain(StringLe, c.control.binding.evidenceIds);
    assert SortControl(SortControl(c.control)) == SortControl(c.control);
  }

  lemma NormalizeOnlyReorders(c: Contract)
    ensures Reordered(c, Normalize(c))
  {
    hide Sort;
    var each := SortEachRuns(c.studies);
    MapReordered(ShapeOf, each, Sort(StudyLe, each));
    forall i | 0 <= i < |each| ensures ShapeOf(each[i]) == ShapeOf(c.studies[i]) {}
    assert Map(ShapeOf, each) == Map(ShapeOf, c.studies);
    assert Bare(Normalize(c)) == Bare(c);
  }

  // The canonical form of an accepted contract is accepted, and is the canonical form of every accepted
  // contract it stands for.
  lemma NormalizeKeepsValid(c: Contract, sha: Contract -> string)
    requires Valid(c, sha)
    ensures Valid(Normalize(c), sha)
  {
    hide Valid, Normalize;
    NormalizeOnlyReorders(c);
    OrderIsIrrelevant(c, Normalize(c), sha);
  }

  // ---- Approval ----

  // One approval record covers one contract: unless the digests of two different scopes collide, all that
  // can differ is the order of the unordered lists.
  lemma ApprovalPinsContract(a: Contract, b: Contract, sha: Contract -> string)
    requires sha(ScopeOf(a)) == sha(ScopeOf(b)) ==> ScopeOf(a) == ScopeOf(b)
    requires Valid(a, sha) && Valid(b, sha)
    requires a.approval.Some? && a.approval == b.approval
    ensures Normalize(a) == Normalize(b)
  {
    hide Normalize, HeaderOk, RetentionOk, ControlOk, MethodOk, StudiesOk, LifecycleOk, AuthorityOk, ApprovalOk,
         BaselinesOk, BudgetsOk, ScopeOf;
    assert ScopeOf(a) == ScopeOf(b);
    NormalizeCommutesWithScope(a);
    NormalizeCommutesWithScope(b);
    NormalizeKeepsApproval(a);
    NormalizeKeepsApproval(b);
    var x, y := Normalize(a), Normalize(b);
    assert x == x.(approval := None).(approval := x.approval);
    assert y == y.(approval := None).(approval := y.approval);
  }

  lemma NormalizeKeepsApproval(c: Contract)
    ensures Normalize(c).approval == c.approval
  {
  }

  // The scope does not depend on the approval record, so an approval can carry the digest of its own
  // contract: filling it in never invalidates it.
  lemma ScopeIgnoresApproval(c: Contract, approval: Option<Approval>, sha: Contract -> string)
    requires approval.Some? && approval.value.scope == sha(ScopeOf(c))
    ensures ScopeOk(c.(approval := approval), sha)
  {
  }

  // ---- Promotion ----

  lemma SupersededReachesApproved(c: Contract, sha: Contract -> string, b: Baseline) returns (successor: Baseline)
    requires Valid(c, sha) && b in c.baselines && b.stage == Superseded
    ensures successor in c.baselines && successor != b && successor.stage == Approved
    ensures b.supersession.Some? && FindBy(BaselineId, c.baselines, b.supersession.value.successorId) == Some(successor)
  {
    hide HeaderOk, RetentionOk, ControlOk, MethodOk, StudiesOk, LifecycleOk, AuthorityOk, ApprovalOk, BudgetsOk,
         ScopeOk, ChainOk, Refers, IsId, FindBy;
    assert BaselineOk(c, b) && SuccessorOk(c.baselines, b);
    FindByIs(BaselineId, c.baselines, b.supersession.value.successorId);
    successor := FindBy(BaselineId, c.baselines, b.supersession.value.successorId).value;
  }

  // An approval is recorded exactly when some baseline is currently approved.
  lemma ApprovalMeansApproved(c: Contract, sha: Contract -> string)
    requires Valid(c, sha)
    ensures c.approval.Some? <==> exists b :: b in c.baselines && b.stage == Approved
  {
    hide HeaderOk, RetentionOk, ControlOk, MethodOk, StudiesOk, LifecycleOk, AuthorityOk, ApprovalOk, BudgetsOk,
         ScopeOk, SupersessionOk, Refers, FindBy;
    if c.approval.Some? {
      var b :| b in c.baselines && |b.chain| == 3;
      assert BaselineOk(c, b);
      if b.stage != Approved {
        var successor := SupersededReachesApproved(c, sha, b);
      }
    }
    forall b | b in c.baselines && b.stage == Approved ensures c.approval.Some? {
      assert BaselineOk(c, b);
      assert LinkOk(c, b, 2, b.chain[2]);
    }
  }

  // The variance run a promoted baseline rests on.
  lemma PromotedRun(c: Contract, sha: Contract -> string, b: Baseline) returns (p: Placed)
    requires Valid(c, sha) && b in c.baselines && b.stage != Candidate
    ensures p in AllPlaced(c.studies) && Identity(p) == BaselineRun(b) && ArtifactOf(p) == b.artifactEvidenceId
  {
    hide HeaderOk, RetentionOk, ControlOk, MethodOk, StudiesOk, LifecycleOk, AuthorityOk, ApprovalOk, BudgetsOk,
         ScopeOk, SupersessionOk, Refers, FindBy;
    assert BaselineOk(c, b);
    assert LinkOk(c, b, 0, b.chain[0]);
    FindByIs(Identity, AllPlaced(c.studies), BaselineRun(b));
    p := FindPlaced(AllPlaced(c.studies), BaselineRun(b)).value;
  }

  lemma DistinctInPlaced<K>(key: Placed -> K, placed: seq<Placed>, p: Placed, q: Placed)
    requires DistinctKeys(key, placed) && p in placed && q in placed && p != q
    ensures key(p) != key(q)
  {
  }

  // Two promoted baselines rest on different runs, different artifact evidence and different content.
  lemma PromotionsShareNothing(c: Contract, sha: Contract -> string, a: Baseline, b: Baseline)
    requires Valid(c, sha) && a in c.baselines && b in c.baselines && a != b
    requires a.stage != Candidate && b.stage != Candidate
    ensures BaselineRun(a) != BaselineRun(b) && a.artifactEvidenceId != b.artifactEvidenceId
    ensures ContentOf(c.retention, a.artifactEvidenceId) != ContentOf(c.retention, b.artifactEvidenceId)
  {
    hide HeaderOk, RetentionOk, ControlOk, MethodOk, StudyOk, LifecycleOk, AuthorityOk, ApprovalOk, BudgetsOk, ScopeOk,
         BaselineOk, AllPlaced, ContentOf;
    var p := PromotedRun(c, sha, a);
    var q := PromotedRun(c, sha, b);
    var i := Find(c.baselines, a);
    var j := Find(c.baselines, b);
    assert BaselineRun(c.baselines[i]) != BaselineRun(c.baselines[j]);
    DistinctInPlaced(ArtifactOf, AllPlaced(c.studies), p, q);
    DistinctInPlaced(ContentKey(c.retention), AllPlaced(c.studies), p, q);
  }
}
