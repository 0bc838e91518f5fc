/** Counting what a verification loop meets: each budget is matched once per run of the studies it is
    bound to, and the observation rows are exactly the (budget, study, run) triples. */
module BindingCounts {
  import opened Sorting
  import opened Folds
  import opened Contract
  import opened ArtifactBindings

  // The evidence ID belongs to a run of one of the studies.
  function InStudies(c: Contract, studyIds: seq<string>): string -> bool {
    (id: string) => RunFor(c, id).Some? && RunFor(c, id).value.studyId in studyIds
  }

  function StudyIn(studyIds: seq<string>): Placed -> bool { (p: Placed) => p.studyId in studyIds }

  // The manifest lists each run's evidence exactly once.
  lemma EvidencePermuted(c: Contract, m: Manifest)
    requires DistinctKeys(EvidenceIdOf, m.artifacts) && CoversRuns(c, m)
    requires DistinctKeys(ArtifactOf, AllPlaced(c.studies))
    ensures multiset(Map(EvidenceIdOf, m.artifacts)) == multiset(Map(ArtifactOf, AllPlaced(c.studies)))
  {
    hide AllPlaced;
    DistinctMap(EvidenceIdOf, m.artifacts);
    DistinctMap(ArtifactOf, AllPlaced(c.studies));
    SameMembers(Map(EvidenceIdOf, m.artifacts), Map(ArtifactOf, AllPlaced(c.studies)));
  }

  lemma {:induction false} CountByRun(c: Contract, studyIds: seq<string>, placed: seq<Placed>)
    requires DistinctKeys(ArtifactOf, AllPlaced(c.studies)) && forall p :: p in placed ==> p in AllPlaced(c.studies)
    ensures CountOf(InStudies(c, studyIds), Map(ArtifactOf, placed)) == CountOf(StudyIn(studyIds), placed)
  {
    hide AllPlaced, FindBy;
    if placed != [] {
      assert placed[0] in placed && forall p :: p in placed[1..] ==> p in placed;
      CountByRun(c, studyIds, placed[1..]);
      MapCons(ArtifactOf, placed);
      FindByIs(ArtifactOf, AllPlaced(c.studies), ArtifactOf(placed[0]));
      assert RunFor(c, ArtifactOf(placed[0])) == Some(placed[0]);
    }
  }

  lemma {:induction false} CountInStudy(studyId: string, runs: seq<StudyRun>, ids: seq<string>)
    ensures CountOf(StudyIn(ids), PlacedIn(studyId, runs)) == if studyId in ids then |runs| else 0
  {
    if runs != [] {
      CountInStudy(studyId, runs[1..], ids);
      assert PlacedIn(studyId, runs)[1..] == PlacedIn(studyId, runs[1..]);
    }
  }

  lemma {:induction false} CountOfStudy(studies: seq<Study>, id: string)
    requires DistinctKeys(StudyId, studies)
    ensures CountOf(StudyIn([id]), AllPlaced(studies))
            == match FindStudy(studies, id) { case Some(s) => |s.runs| case None => 0 }
  {
    hide PlacedIn;
    if studies != [] {
      var s, rest := studies[0], studies[1..];
      CountOfStudy(rest, id);
      CountInStudy(s.id, s.runs, [id]);
      CountConcat(StudyIn([id]), PlacedIn(s.id, s.runs), AllPlaced(rest));
      if s.id == id {
        FindByIs(StudyId, rest, id);
      }
    }
  }

  lemma {:induction false} CountSplits(placed: seq<Placed>, id: string, rest: seq<string>)
    requires id !in rest
    ensures CountOf(StudyIn([id] + rest), placed) == CountOf(StudyIn([id]), placed) + CountOf(StudyIn(rest), placed)
  {
    if placed != [] { CountSplits(placed[1..], id, rest); }
  }

  lemma {:induction false} CountOfNone(placed: seq<Placed>)
    ensures CountOf(StudyIn([]), placed) == 0
  {
    if placed != [] { CountOfNone(placed[1..]); }
  }

  lemma {:induction false} CountOfStudies(c: Contract, ids: seq<string>)
    requires DistinctKeys(StudyId, c.studies) && NoRepeats(ids)
    ensures CountOf(StudyIn(ids), AllPlaced(c.studies)) == SumOf(RunCount(c), ids)
  {
    hide AllPlaced, FindBy;
    if ids == [] {
      CountOfNone(AllPlaced(c.studies));
    } else {
      assert ids == [ids[0]] + ids[1..];
      HeadNotInTail(ids);
      CountOfStudies(c, ids[1..]);
      CountSplits(AllPlaced(c.studies), ids[0], ids[1..]);
      CountOfStudy(c.studies, ids[0]);
    }
  }

  // A bound budget meets as many artifacts as its studies have runs.
  lemma MatchesPerBudget(c: Contract, m: Manifest, b: BudgetBinding)
    requires StudiesOk(c) && CoversRuns(c, m) && DistinctKeys(EvidenceIdOf, m.artifacts) && NoRepeats(b.studyIds)
    ensures CountOf(InStudies(c, b.studyIds), Map(EvidenceIdOf, m.artifacts)) == Selected(c)(b)
  {
    hide AllPlaced, StudyOk, FindBy;
    var placed := AllPlaced(c.studies);
    EvidencePermuted(c, m);
    CountReordered(InStudies(c, b.studyIds), Map(EvidenceIdOf, m.artifacts), Map(ArtifactOf, placed));
    CountByRun(c, b.studyIds, placed);
    CountOfStudies(c, b.studyIds);
  }

  // ---- Observation rows ----

  // The rows one artifact contributes.
  function RowsAt(c: Contract, budgets: seq<BudgetBinding>): string -> int {
    (id: string) => match RunFor(c, id) case Some(p) => |BoundTo(budgets, p.studyId)| case None => 0
  }

  function CountFor(c: Contract, ids: seq<string>): BudgetBinding -> int {
    (b: BudgetBinding) => CountOf(InStudies(c, b.studyIds), ids)
  }

  lemma {:induction false} RowsSplit(c: Contract, budgets: seq<BudgetBinding>, ids: seq<string>)
    requires budgets != []
    ensures SumOf(RowsAt(c, budgets), ids)
            == CountOf(InStudies(c, budgets[0].studyIds), ids) + SumOf(RowsAt(c, budgets[1..]), ids)
  {
    hide RunFor;
    if ids != [] { RowsSplit(c, budgets, ids[1..]); }
  }

  lemma {:induction false} RowsOfNone(c: Contract, ids: seq<string>)
    ensures SumOf(RowsAt(c, []), ids) == 0
  {
    hide RunFor;
    if ids != [] { RowsOfNone(c, ids[1..]); }
  }

  // Counting rows artifact by artifact or budget by budget gives the same total.
  lemma {:induction false} RowsEitherWay(c: Contract, budgets: seq<BudgetBinding>, ids: seq<string>)
    ensures SumOf(RowsAt(c, budgets), ids) == SumOf(CountFor(c, ids), budgets)
  {
    hide RunFor;
    if budgets == [] {
      RowsOfNone(c, ids);
    } else {
      RowsSplit(c, budgets, ids);
      RowsEitherWay(c, budgets[1..], ids);
    }
  }

  lemma {:induction false} SumAgrees<T>(f: T -> int, g: T -> int, xs: seq<T>)
    requires forall x :: x in xs ==> f(x) == g(x)
    ensures SumOf(f, xs) == SumOf(g, xs)
  {
    if xs != [] {
      assert xs[0] in xs && forall x :: x in xs[1..] ==> x in xs;
      SumAgrees(f, g, xs[1..]);
    }
  }

  lemma TotalRows(c: Contract, m: Manifest)
    requires StudiesOk(c) && CoversRuns(c, m) && ManifestOk(m)
    ensures SumOf(RowsAt(c, m.budgets), Map(EvidenceIdOf, m.artifacts)) == SelectedRows(c, m)
  {
    hide StudiesOk, CoversRuns, IsId, Selected, DistinctKeys;
    var ids := Map(EvidenceIdOf, m.artifacts);
    RowsEitherWay(c, m.budgets, ids);
    forall b | b in m.budgets ensures CountFor(c, ids)(b) == Selected(c)(b) { MatchesPerBudget(c, m, b); }
    SumAgrees(CountFor(c, ids), Selected(c), m.budgets);
  }

  // ---- Row keys ----

  type RowKey = (string, string, string)

  function KeysOfRun(budgetIds: seq<string>, studyId: string, evidenceId: string): (r: seq<RowKey>)
    ensures |r| == |budgetIds| && forall i :: 0 <= i < |r| ==> r[i] == (budgetIds[i], studyId, evidenceId)
  {
    seq(|budgetIds|, i requires 0 <= i < |budgetIds| => (budgetIds[i], studyId, evidenceId))
  }

  function KeysAt(c: Contract, budgets: seq<BudgetBinding>, id: string): seq<RowKey> {
    match RunFor(c, id)
    case Some(p) => KeysOfRun(BoundTo(budgets, p.studyId), p.studyId, id)
    case None => []
  }

  function AllKeys(c: Contract, budgets: seq<BudgetBinding>, ids: seq<string>): seq<RowKey> {
    if ids == [] then [] else KeysAt(c, budgets, ids[0]) + AllKeys(c, budgets, ids[1..])
  }

  lemma {:induction false} AllKeysLength(c: Contract, budgets: seq<BudgetBinding>, ids: seq<string>)
    ensures |AllKeys(c, budgets, ids)| == SumOf(RowsAt(c, budgets), ids)
  {
    hide RunFor;
    if ids != [] { AllKeysLength(c, budgets, ids[1..]); }
  }

  lemma {:induction false} AllKeysConcat(c: Contract, budgets: seq<BudgetBinding>, ids: seq<string>, more: seq<string>)
    ensures AllKeys(c, budgets, ids + more) == AllKeys(c, budgets, ids) + AllKeys(c, budgets, more)
  {
    hide KeysAt;
    if ids == [] {
      assert ids + more == more;
    } else {
      assert (ids + more)[1..] == ids[1..] + more;
      AllKeysConcat(c, budgets, ids[1..], more);
    }
  }

  lemma {:induction false} BoundToIs(budgets: seq<BudgetBinding>, studyId: string, id: string)
    ensures id in BoundTo(budgets, studyId) <==> exists b :: b in budgets && b.budgetId == id && studyId in b.studyIds
  {
    if budgets != [] {
      BoundToIs(budgets[1..], studyId, id);
      assert budgets == [budgets[0]] + budgets[1..];
    }
  }

  lemma {:induction false} BoundToDistinct(budgets: seq<BudgetBinding>, studyId: string)
    requires DistinctKeys(BudgetIdOf, budgets)
    ensures NoRepeats(BoundTo(budgets, studyId))
  {
    if budgets != [] {
      BoundToDistinct(budgets[1..], studyId);
      var head := budgets[0].budgetId;
      BoundToIs(budgets[1..], studyId, head);
      var tail := BoundTo(budgets[1..], studyId);
      assert forall i :: 0 <= i < |tail| ==> tail[i] in tail;
    }
  }

  lemma {:induction false} AllKeysMember(c: Contract, budgets: seq<BudgetBinding>, ids: seq<string>, key: RowKey)
    ensures key in AllKeys(c, budgets, ids) <==> key.2 in ids && key in KeysAt(c, budgets, key.2)
  {
    hide RunFor, BoundTo;
    if ids != [] {
      AllKeysMember(c, budgets, ids[1..], key);
      assert ids == [ids[0]] + ids[1..];
    }
  }

  lemma {:induction false} AllKeysDistinct(c: Contract, budgets: seq<BudgetBinding>, ids: seq<string>)
    requires DistinctKeys(BudgetIdOf, budgets) && NoRepeats(ids)
    ensures NoRepeats(AllKeys(c, budgets, ids))
  {
    hide RunFor, BoundTo;
    if ids != [] {
      AllKeysDistinct(c, budgets, ids[1..]);
      var head, tail := KeysAt(c, budgets, ids[0]), AllKeys(c, budgets, ids[1..]);
      if RunFor(c, ids[0]).Some? { BoundToDistinct(budgets, RunFor(c, ids[0]).value.studyId); }
      forall i, j | 0 <= i < |head| && 0 <= j < |tail| ensures head[i] != tail[j] {
        assert tail[j] in tail;
        AllKeysMember(c, budgets, ids[1..], tail[j]);
        HeadNotInTail(ids);
      }
    }
  }

  // A budget is bound to the study, and the study holds the run with that evidence.
  ghost predicate IsRow(c: Contract, m: Manifest, key: RowKey) {
    && (exists b :: b in m.budgets && b.budgetId == key.0 && key.1 in b.studyIds)
    && (exists p :: p in AllPlaced(c.studies) && p.studyId == key.1 && ArtifactOf(p) == key.2)
  }

  // Rows and (budget, bound study, run) triples correspond one to one.
  lemma RowsAreTheTriples(c: Contract, m: Manifest)
    requires StudiesOk(c) && CoversRuns(c, m) && ManifestOk(m)
    ensures NoRepeats(AllKeys(c, m.budgets, Map(EvidenceIdOf, m.artifacts)))
    ensures forall key :: key in AllKeys(c, m.budgets, Map(EvidenceIdOf, m.artifacts)) <==> IsRow(c, m, key)
    ensures |AllKeys(c, m.budgets, Map(EvidenceIdOf, m.artifacts))| == SelectedRows(c, m)
  {
    hide StudyOk, AllPlaced, BoundTo, IsId, FindBy, AllKeys;
    var ids := Map(EvidenceIdOf, m.artifacts);
    DistinctMap(EvidenceIdOf, m.artifacts);
    AllKeysDistinct(c, m.budgets, ids);
    AllKeysLength(c, m.budgets, ids);
    TotalRows(c, m);
    forall key ensures key in AllKeys(c, m.budgets, ids) <==> IsRow(c, m, key) {
      AllKeysMember(c, m.budgets, ids, key);
      KeyIsRow(c, m, key);
    }
  }

  lemma KeyIsRow(c: Contract, m: Manifest, key: RowKey)
    requires StudiesOk(c) && CoversRuns(c, m)
    ensures key.2 in Map(EvidenceIdOf, m.artifacts) && key in KeysAt(c, m.budgets, key.2) <==> IsRow(c, m, key)
  {
    hide StudyOk, AllPlaced, BoundTo, FindBy;
    var placed := AllPlaced(c.studies);
    FindByIs(ArtifactOf, placed, key.2);
    if IsRow(c, m, key) {
      var p :| p in placed && p.studyId == key.1 && ArtifactOf(p) == key.2;
      var i := Find(placed, p);
      assert Map(ArtifactOf, placed)[i] == key.2;
      BoundToIs(m.budgets, key.1, key.0);
      var j := Find(BoundTo(m.budgets, key.1), key.0);
      assert KeysAt(c, m.budgets, key.2)[j] == key;
    } else if key in KeysAt(c, m.budgets, key.2) {
      var p := RunFor(c, key.2).value;
      var j := Find(KeysAt(c, m.budgets, key.2), key);
      assert BoundTo(m.budgets, p.studyId)[j] in BoundTo(m.budgets, p.studyId);
      BoundToIs(m.budgets, key.1, key.0);
    }
  }
}
