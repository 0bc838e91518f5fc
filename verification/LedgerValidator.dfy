/** The ledger validator as it runs: passes over each collection that append faults and fill the index of
    assessments. It reports no fault exactly for the acceptable ledgers. */
module LedgerValidator {
  import opened Sorting
  import opened Folds
  import opened Indexing
  import opened Ledger

  datatype Fault =
    | BadHeader | BlankId(collection: string) | RepeatedIds(collection: string) | WrongIds(collection: string)
    | BadDocument(id: string) | BadProfile(id: string) | BadArtifacts(id: string)
    | BadAssessment(id: string, profile: string)
    | BadOrigin(id: string) | BadReference(id: string) | BadTests(id: string) | BadGap(id: string)
    | BadAssessments(id: string) | BadExtension(id: string) | BadTest(id: string) | BadInventory | BadClaim(id: string)
    | BrokenRequirement(id: string, requirement: string) | WeakRequirement(id: string, requirement: string)
    | BrokenSurface(id: string, surface: string) | UnclaimedProfile(profile: string) | BadSurface(id: string)
    | MalformedMarker(id: string) | ManyBindings(id: string) | OrphanBinding(id: string) | UnboundWording(id: string)
    | UnknownClaim(id: string, claim: string) | WordingMismatch(id: string, claim: string)
    | UntrackedClaim(id: string, claim: string) | WeakClaim(id: string, claim: string)
    | BadFinding(id: string) | BadFollowUp(id: string)

  // ---- Small checks ----

  method CheckIds<T>(collection: string, key: T -> string, records: seq<T>) returns (faults: seq<Fault>)
    ensures faults == [] <==> Keyed(key, records)
  {
    hide Nonblank;
    faults := [];
    var ids := [];
    var i := 0;
    while i < |records|
      invariant 0 <= i <= |records|
      invariant faults == [] <==> forall k :: 0 <= k < i ==> Nonblank(key(records[k]))
      invariant faults == [] ==> ids == Map(key, records[..i])
    {
      var id := key(records[i]);
      if Nonblank(id) { ids := ids + [id]; } else { faults := faults + [BlankId(collection)]; }
      i := i + 1;
    }
    assert records[..i] == records;
    var counts := multiset(ids);
    RepeatsCounted(ids);
    DistinctMap(key, records);
    if exists k | 0 <= k < |ids| :: counts[ids[k]] > 1 { faults := faults + [RepeatedIds(collection)]; }
  }

  method CheckFixed(collection: string, actual: set<string>, expected: set<string>) returns (faults: seq<Fault>)
    ensures faults == [] <==> actual == expected
  {
    faults := [];
    if expected - actual != {} { faults := faults + [WrongIds(collection)]; }
    if actual - expected != {} { faults := faults + [WrongIds(collection)]; }
    if expected - actual == {} && actual - expected == {} { assert expected <= actual && actual <= expected; }
  }

  method CheckEveryId(l: Ledger) returns (faults: seq<Fault>)
    ensures faults == [] <==> IdsOk(l)
  {
    hide Keyed, IdSet, ProfileIds, RequirementIds, FindingIds, FollowUpIds;
    var a := CheckIds("documents", DocumentId, l.documents);
    var b := CheckIds("profiles", ProfileId, l.profiles);
    var c := CheckIds("requirements", RequirementId, l.requirements);
    var d := CheckIds("tests", TestId, l.tests);
    var e := CheckIds("claims", ClaimId, l.claims);
    var f := CheckIds("public_surfaces", SurfaceId, l.surfaces);
    var g := CheckIds("findings", FindingId, l.findings);
    var h := CheckIds("follow_ups", FollowUpId, l.followUps);
    var profiles := CheckFixed("profiles", IdSet(ProfileId, l.profiles), ProfileIds());
    var requirements := CheckFixed("requirements", IdSet(RequirementId, l.requirements), RequirementIds());
    var findings := CheckFixed("findings", IdSet(FindingId, l.findings), FindingIds());
    var followUps := CheckFixed("follow_ups", IdSet(FollowUpId, l.followUps), FollowUpIds());
    faults := a + b + c + d + e + f + g + h + profiles + requirements + findings + followUps;
  }

  method HasRepeats(ids: seq<string>) returns (repeats: bool)
    ensures repeats <==> !NoRepeats(ids)
  {
    if NoRepeats(ids) { NoRepeatsSize(ids); } else { RepeatsShrink(ids); }
    repeats := |ids| != |set id | id in ids|;
  }

  lemma {:induction false} RepeatsShrink(ids: seq<string>)
    ensures |set id | id in ids| <= |ids|
    ensures !NoRepeats(ids) ==> |set id | id in ids| < |ids|
  {
    if ids != [] {
      RepeatsShrink(ids[1..]);
      var all, rest := set id | id in ids, set id | id in ids[1..];
      assert all == rest + {ids[0]};
      if NoRepeats(ids[1..]) && !NoRepeats(ids) { assert ids[0] in ids[1..]; }
      if ids[0] in ids[1..] { assert all == rest; }
    }
  }

  method CheckArtifacts(id: string, artifacts: seq<EvidenceArtifact>, formal: bool) returns (faults: seq<Fault>)
    ensures faults == [] <==> ArtifactsOk(artifacts, formal)
  {
    hide ArtifactOk;
    if artifacts == [] { return [BadArtifacts(id)]; }
    faults := [];
    var i := 0;
    while i < |artifacts|
      invariant 0 <= i <= |artifacts|
      invariant faults == [] <==> forall k :: 0 <= k < i ==> ArtifactOk(artifacts[k], formal)
    {
      if !ArtifactOk(artifacts[i], formal) { faults := faults + [BadArtifacts(id)]; }
      i := i + 1;
    }
  }

  method CheckAssessment(l: Ledger, r: Requirement, a: Assessment) returns (faults: seq<Fault>)
    ensures faults == [] <==> AssessmentOk(l, r, a)
  {
    hide ArtifactsOk, Nonblank, FindBy;
    faults := [];
    var bad := BadAssessment(r.id, a.profile);
    if ProfileFor(l, a.profile).None? { faults := faults + [bad]; }
    if a.disposition.InvalidDisposition? { faults := faults + [bad]; }
    if a.evidence.InvalidLevel? { faults := faults + [bad]; }
    if (a.disposition.Unsupported? || a.disposition.Deviation?) && !Nonblank(a.reason) { faults := faults + [bad]; }
    if a.disposition.Supported? && a.evidence == NotImplemented { faults := faults + [bad]; }
    if a.disposition.Unsupported? && a.evidence != NotImplemented { faults := faults + [bad]; }
    if a.evidence in {Implemented, InternallyVerified, Interoperable, FormallyCertified} && r.implementation == [] {
      faults := faults + [bad];
    }
    if a.evidence in {Interoperable, FormallyCertified} {
      var more := CheckArtifacts(r.id, a.independent, false);
      faults := faults + more;
    }
    if a.evidence == FormallyCertified {
      var more := CheckArtifacts(r.id, a.formal, true);
      faults := faults + more;
    }
  }

  // ---- Requirements and the assessment index ----

  type AssessmentIndex = map<(string, string), Assessment>

  // The index answers for the first `n` requirements, as long as neither IDs nor profiles repeat.
  ghost predicate Answers(requirements: seq<Requirement>, index: AssessmentIndex) {
    DistinctKeys(RequirementId, requirements)
    && (forall i :: 0 <= i < |requirements| ==> DistinctKeys(ProfileOf, requirements[i].assessments)) ==>
      && (forall r, a :: r in requirements && a in r.assessments ==>
            (r.id, a.profile) in index && index[(r.id, a.profile)] == a)
      && (forall k :: k in index ==> exists r :: r in requirements && r.id == k.0 && index[k] in r.assessments
                                                 && index[k].profile == k.1)
  }

  method CheckOrigin(l: Ledger, r: Requirement) returns (faults: seq<Fault>)
    ensures faults == [] <==> OriginOk(l, r)
  {
    hide FindBy, Filled, Nonblank;
    faults := [];
    var bad, document := BadOrigin(r.id), DocumentFor(l, r.source.document);
    if !Filled(r.texts) { faults := faults + [bad]; }
    if r.classification.InvalidClassification? { faults := faults + [bad]; }
    if r.strength.InvalidStrength? { faults := faults + [bad]; }
    if (r.classification.ProjectProfile? || r.classification.Extension?) && r.strength != ProjectStrength {
      faults := faults + [bad];
    }
    if r.classification.Normative? && r.strength == ProjectStrength { faults := faults + [bad]; }
    if document.None? {
      faults := faults + [bad];
    } else if !Nonblank(r.source.revision) {
      faults := faults + [bad];
    } else if r.source.revision != document.value.revision {
      faults := faults + [bad];
    }
    if !Nonblank(r.source.locator) { faults := faults + [bad]; }
    if ProjectClass(r) && r.source.document != PROJECT_POLICY { faults := faults + [bad]; }
  }

  method CheckReferences(tree: Tree, r: Requirement) returns (faults: seq<Fault>)
    ensures faults == [] <==> forall i :: 0 <= i < |r.implementation| ==> ReferenceOk(tree, r.implementation[i])
  {
    hide FileOk, Nonblank;
    faults := [];
    var i := 0;
    while i < |r.implementation|
      invariant 0 <= i <= |r.implementation|
      invariant faults == [] <==> forall k :: 0 <= k < i ==> ReferenceOk(tree, r.implementation[k])
    {
      var reference := r.implementation[i];
      if !FileOk(tree, reference.path) { faults := faults + [BadReference(r.id)]; }
      if reference.symbol.Some? && !Nonblank(reference.symbol.value) { faults := faults + [BadReference(r.id)]; }
      i := i + 1;
    }
  }

  method CheckGap(l: Ledger, id: string, g: Gap) returns (faults: seq<Fault>)
    ensures faults == [] <==> GapOk(l, g)
  {
    hide Filled, ProfileFor;
    faults := if Filled(g.texts) then [] else [BadGap(id)];
    if g.profiles.Some? {
      var profiles := g.profiles.value;
      if profiles == [] { faults := faults + [BadGap(id)]; }
      ghost var base := faults;
      var i := 0;
      while i < |profiles|
        invariant 0 <= i <= |profiles|
        invariant faults == [] <==> base == [] && forall k :: 0 <= k < i ==> ProfileFor(l, profiles[k]).Some?
      {
        if ProfileFor(l, profiles[i]).None? { faults := faults + [BadGap(id)]; }
        i := i + 1;
      }
    }
  }

  method CheckTests(l: Ledger, r: Requirement) returns (faults: seq<Fault>)
    ensures faults == [] <==> ListsOk(l, r)
  {
    hide FindBy, GapOk;
    var repeats := HasRepeats(r.testIds);
    faults := if repeats then [BadTests(r.id)] else [];
    var i := 0;
    while i < |r.testIds|
      invariant 0 <= i <= |r.testIds|
      invariant faults == [] <==> NoRepeats(r.testIds) && forall k :: 0 <= k < i ==> TestFor(l, r.testIds[k]).Some?
    {
      if TestFor(l, r.testIds[i]).None? { faults := faults + [BadTests(r.id)]; }
      i := i + 1;
    }
    if r.testIds == [] && r.gap.None? { faults := faults + [BadTests(r.id)]; }
    if r.gap.Some? {
      var more := CheckGap(l, r.id, r.gap.value);
      faults := faults + more;
    }
  }

  method CheckAssessments(l: Ledger, r: Requirement, index: AssessmentIndex)
    returns (faults: seq<Fault>, index': AssessmentIndex)
    ensures faults == [] <==> AssessmentsOk(l, r)
    ensures Extends(r, |r.assessments|, index, index')
  {
    hide AssessmentOk, FindBy, DistinctKeys, Extends;
    faults, index' := [], index;
    ExtendsNothing(r, index);
    if r.assessments == [] { faults := faults + [BadAssessments(r.id)]; }
    ghost var base := faults;
    var i := 0;
    while i < |r.assessments|
      invariant 0 <= i <= |r.assessments|
      invariant faults == [] <==> base == [] && forall k :: 0 <= k < i ==> AssessmentOk(l, r, r.assessments[k])
      invariant Extends(r, i, index, index')
    {
      var a := r.assessments[i];
      var more := CheckAssessment(l, r, a);
      faults := faults + more;
      ExtendsStep(r, i, index, index');
      index' := index'[(r.id, a.profile) := a];
      i := i + 1;
    }
    var profiles := Map(ProfileOf, r.assessments);
    var counts := multiset(profiles);
    RepeatsCounted(profiles);
    DistinctMap(ProfileOf, r.assessments);
    if exists k | 0 <= k < |profiles| :: counts[profiles[k]] > 1 { faults := faults + [BadAssessments(r.id)]; }
  }

  method CheckRequirement(l: Ledger, tree: Tree, r: Requirement, index: AssessmentIndex)
    returns (faults: seq<Fault>, index': AssessmentIndex)
    ensures faults == [] <==> RequirementOk(l, tree, r)
    ensures Extends(r, |r.assessments|, index, index')
  {
    hide OriginOk, ReferenceOk, ListsOk, AssessmentsOk, Extends, IdSet;
    faults := CheckOrigin(l, r);
    var references := CheckReferences(tree, r);
    var lists := CheckTests(l, r);
    var assessments;
    assessments, index' := CheckAssessments(l, r, index);
    faults := faults + references + lists + assessments;
    if IsExtension(r.id) {
      if r.classification != Extension || r.strength != ProjectStrength { faults := faults + [BadExtension(r.id)]; }
      if IdSet(ProfileOf, r.assessments) != {EXTENSION_PROFILE} { faults := faults + [BadExtension(r.id)]; }
    }
  }

  // The keys of a requirement's first assessments.
  ghost function Keys(r: Requirement, n: nat): set<(string, string)>
    requires n <= |r.assessments|
  {
    set i | 0 <= i < n :: (r.id, r.assessments[i].profile)
  }

  // The index with a requirement's first assessments entered over it.
  ghost predicate Extends(r: Requirement, n: nat, index: AssessmentIndex, index': AssessmentIndex)
    requires n <= |r.assessments|
  {
    && (forall k :: k in index' ==> if k in Keys(r, n) then index'[k] in r.assessments && index'[k].profile == k.1
                                    else k in index && index'[k] == index[k])
    && (forall k :: k in index || k in Keys(r, n) ==> k in index')
  }

  lemma ExtendsNothing(r: Requirement, index: AssessmentIndex)
    ensures Extends(r, 0, index, index)
  {
  }

  lemma ExtendsStep(r: Requirement, i: nat, index: AssessmentIndex, index': AssessmentIndex)
    requires i < |r.assessments| && Extends(r, i, index, index')
    ensures Extends(r, i + 1, index, index'[(r.id, r.assessments[i].profile) := r.assessments[i]])
  {
    assert Keys(r, i + 1) == Keys(r, i) + {(r.id, r.assessments[i].profile)};
  }

  lemma AnswersStep(requirements: seq<Requirement>, r: Requirement, index: AssessmentIndex, index': AssessmentIndex)
    requires Answers(requirements, index)
    requires Extends(r, |r.assessments|, index, index')
    ensures Answers(requirements + [r], index')
  {
    var all := requirements + [r];
    if DistinctKeys(RequirementId, all)
       && (forall i :: 0 <= i < |all| ==> DistinctKeys(ProfileOf, all[i].assessments)) {
      DistinctPrefix(RequirementId, requirements, [r]);
      forall i | 0 <= i < |requirements| ensures DistinctKeys(ProfileOf, requirements[i].assessments) {
        assert all[i] == requirements[i];
      }
      assert all[|requirements|] == r;
      forall s, a | s in all && a in s.assessments
        ensures (s.id, a.profile) in index' && index'[(s.id, a.profile)] == a
      {
        OneAnswer(requirements, r, index, index', s, a);
      }
      forall k | k in index'
        ensures exists s :: s in all && s.id == k.0 && index'[k] in s.assessments && index'[k].profile == k.1 {
        if k in Keys(r, |r.assessments|) {
          assert r in all;
        } else {
          var s :| s in requirements && s.id == k.0 && index[k] in s.assessments && index[k].profile == k.1;
          assert s in all;
        }
      }
    }
  }

  lemma OneAnswer(requirements: seq<Requirement>, r: Requirement, index: AssessmentIndex, index': AssessmentIndex,
                  s: Requirement, a: Assessment)
    requires Answers(requirements, index) && DistinctKeys(RequirementId, requirements + [r])
    requires forall i :: 0 <= i < |requirements| ==> DistinctKeys(ProfileOf, requirements[i].assessments)
    requires DistinctKeys(RequirementId, requirements) && DistinctKeys(ProfileOf, r.assessments)
    requires Extends(r, |r.assessments|, index, index')
    requires s in requirements + [r] && a in s.assessments
    ensures (s.id, a.profile) in index' && index'[(s.id, a.profile)] == a
  {
    var all, k := requirements + [r], (s.id, a.profile);
    if s in requirements {
      var i := Find(requirements, s);
      assert RequirementId(all[i]) != RequirementId(all[|requirements|]);
    } else {
      var i := Find(r.assessments, a);
      assert (r.id, r.assessments[i].profile) in Keys(r, |r.assessments|);
      FindByIs(ProfileOf, r.assessments, a.profile);
    }
  }

  method CheckRequirements(l: Ledger, tree: Tree) returns (faults: seq<Fault>, index: AssessmentIndex)
    ensures faults == [] <==> forall i :: 0 <= i < |l.requirements| ==> RequirementOk(l, tree, l.requirements[i])
    ensures Answers(l.requirements, index)
  {
    hide RequirementOk, Answers, Extends;
    faults, index := [], map[];
    assert Answers(l.requirements[..0], index) by { AnswersNothing(l); }
    var i := 0;
    while i < |l.requirements|
      invariant 0 <= i <= |l.requirements|
      invariant faults == [] <==> forall k :: 0 <= k < i ==> RequirementOk(l, tree, l.requirements[k])
      invariant Answers(l.requirements[..i], index)
    {
      var more, index' := CheckRequirement(l, tree, l.requirements[i], index);
      PrefixStep(l.requirements, i);
      AnswersStep(l.requirements[..i], l.requirements[i], index, index');
      faults, index := faults + more, index';
      i := i + 1;
    }
    assert l.requirements[..i] == l.requirements;
  }

  lemma AnswersNothing(l: Ledger)
    ensures Answers(l.requirements[..0], map[])
  {
  }

  lemma AnswersLookup(l: Ledger, index: AssessmentIndex, id: string, profile: string)
    requires Answers(l.requirements, index) && DistinctKeys(RequirementId, l.requirements)
    requires forall i :: 0 <= i < |l.requirements| ==> DistinctKeys(ProfileOf, l.requirements[i].assessments)
    ensures AssessmentFor(l, id, profile) == if (id, profile) in index then Some(index[(id, profile)]) else None
  {
    hide FindBy;
    FindByIs(RequirementId, l.requirements, id);
    if (id, profile) in index {
      var r :| r in l.requirements && r.id == id && index[(id, profile)] in r.assessments
               && index[(id, profile)].profile == profile;
      FindByIs(ProfileOf, r.assessments, profile);
      var i := Find(l.requirements, r);
      assert DistinctKeys(ProfileOf, l.requirements[i].assessments);
    } else if RequirementFor(l, id).Some? {
      FindByIs(ProfileOf, RequirementFor(l, id).value.assessments, profile);
    }
  }

  // ---- Tests ----

  method CheckTest(l: Ledger, tree: Tree, t: Test) returns (faults: seq<Fault>)
    ensures faults == [] <==> TestOk(l, tree, t)
  {
    hide RequirementFor, FileOk;
    faults := if FileOk(tree, t.path) then [] else [BadTest(t.id)];
    var repeats := HasRepeats(t.requirementIds);
    if repeats { faults := faults + [BadTest(t.id)]; }
    if t.requirementIds == [] && !t.category.ProjectOnly? && !t.category.Supporting? {
      faults := faults + [BadTest(t.id)];
    }
    if t.category.InvalidCategory? { faults := faults + [BadTest(t.id)]; }
    ghost var base := faults;
    var i := 0;
    while i < |t.requirementIds|
      invariant 0 <= i <= |t.requirementIds|
      invariant faults == [] <==> base == [] && forall k :: 0 <= k < i ==>
                                    var r := RequirementFor(l, t.requirementIds[k]); r.Some? && t.id in r.value.testIds
    {
      var r := RequirementFor(l, t.requirementIds[i]);
      if r.None? || t.id !in r.value.testIds { faults := faults + [BadTest(t.id)]; }
      i := i + 1;
    }
  }

  // Every test, collecting the paths that are then compared with the live tests.
  method CheckEveryTest(l: Ledger, tree: Tree) returns (faults: seq<Fault>)
    ensures faults == [] <==> InventoryOk(l, tree) && forall i :: 0 <= i < |l.tests| ==> TestOk(l, tree, l.tests[i])
  {
    hide TestOk, Nonblank, Live;
    faults := [];
    var paths := [];
    var i := 0;
    while i < |l.tests|
      invariant 0 <= i <= |l.tests|
      invariant faults == [] <==> forall k :: 0 <= k < i ==> TestOk(l, tree, l.tests[k])
      invariant faults == [] ==> paths == Map(TestPath, l.tests[..i])
    {
      var more := CheckTest(l, tree, l.tests[i]);
      if Nonblank(l.tests[i].path) { paths := paths + [l.tests[i].path]; } else { TestHasPath(l, tree, l.tests[i]); }
      faults := faults + more;
      i := i + 1;
    }
    assert l.tests[..i] == l.tests;
    var counts := multiset(paths);
    RepeatsCounted(paths);
    DistinctMap(TestPath, l.tests);
    var known := set p | p in paths;
    ghost var base := faults;
    if base == [] { assert known == IdSet(TestPath, l.tests); }
    if exists k | 0 <= k < |paths| :: counts[paths[k]] > 1 { faults := faults + [BadInventory]; }
    var difference := CheckFixed("tests", known, Live(tree));
    faults := faults + difference;
  }

  lemma TestHasPath(l: Ledger, tree: Tree, t: Test)
    ensures TestOk(l, tree, t) ==> Nonblank(t.path)
  {
    hide Nonblank, RequirementFor, NoRepeats;
  }

  // ---- Claims ----

  ghost predicate IndexRight(l: Ledger, index: AssessmentIndex) {
    forall id, profile {:trigger AssessmentFor(l, id, profile)} ::
      AssessmentFor(l, id, profile) == if (id, profile) in index then Some(index[(id, profile)]) else None
  }

  predicate RequirementFits(l: Ledger, c: Claim, id: string) {
    var a := AssessmentFor(l, id, c.profile);
    a.Some? && RestsOn(c, a.value)
  }

  method CheckBasis(l: Ledger, c: Claim, index: AssessmentIndex) returns (faults: seq<Fault>)
    ensures IndexRight(l, index) ==>
              (faults == [] <==> forall i :: 0 <= i < |c.requirementIds| ==> RequirementFits(l, c, c.requirementIds[i]))
  {
    hide AssessmentFor, RequirementFor;
    faults := [];
    var i := 0;
    while i < |c.requirementIds|
      invariant 0 <= i <= |c.requirementIds|
      invariant IndexRight(l, index) ==>
                  (faults == [] <==> forall k :: 0 <= k < i ==> RequirementFits(l, c, c.requirementIds[k]))
    {
      var id := c.requirementIds[i];
      MissingRequirement(l, id, c.profile);
      if RequirementFor(l, id).None? || (id, c.profile) !in index {
        faults := faults + [BrokenRequirement(c.id, id)];
      } else {
        var a := index[(id, c.profile)];
        if a.disposition == Unsupported && (c.kind != Limitation || c.minimum != NotImplemented) {
          faults := faults + [WeakRequirement(c.id, id)];
        }
        if !c.minimum.InvalidLevel? && !a.evidence.InvalidLevel? && Rank(c.minimum) > Rank(a.evidence) {
          faults := faults + [WeakRequirement(c.id, id)];
        }
      }
      i := i + 1;
    }
  }

  lemma MissingRequirement(l: Ledger, id: string, profile: string)
    ensures RequirementFor(l, id).None? ==> AssessmentFor(l, id, profile).None?
  {
  }

  method CheckClaim(l: Ledger, c: Claim, index: AssessmentIndex) returns (faults: seq<Fault>)
    ensures IndexRight(l, index) ==> (faults == [] <==> ClaimOk(l, c))
  {
    hide AssessmentFor, SurfaceFor, ProfileFor, ArtifactsOk, IndexRight, RestsOn, Nonblank;
    faults := [];
    if ProfileFor(l, c.profile).None? { faults := faults + [BadClaim(c.id)]; }
    if c.kind.InvalidKind? { faults := faults + [BadClaim(c.id)]; }
    if !Nonblank(c.text) { faults := faults + [BadClaim(c.id)]; }
    if c.minimum.InvalidLevel? { faults := faults + [BadClaim(c.id)]; }
    if c.requirementIds == [] { faults := faults + [BadClaim(c.id)]; }
    var repeats := HasRepeats(c.requirementIds);
    if repeats { faults := faults + [BadClaim(c.id)]; }
    var basis := CheckBasis(l, c, index);
    faults := faults + basis;
    var surfaces := CheckSurfaceIds(l, c);
    faults := faults + surfaces;
    if c.formalWording && c.minimum != FormallyCertified { faults := faults + [BadClaim(c.id)]; }
    if c.minimum == FormallyCertified {
      var formal := CheckArtifacts(c.id, c.formal, true);
      faults := faults + formal;
    }
    assert (forall i :: 0 <= i < |c.requirementIds| ==> RequirementFits(l, c, c.requirementIds[i])) ==
           forall i :: 0 <= i < |c.requirementIds| ==>
             var a := AssessmentFor(l, c.requirementIds[i], c.profile); a.Some? && RestsOn(c, a.value);
  }

  method CheckSurfaceIds(l: Ledger, c: Claim) returns (faults: seq<Fault>)
    ensures faults == [] <==> c.surfaceIds != [] && forall i :: 0 <= i < |c.surfaceIds| ==>
                                var s := SurfaceFor(l, c.surfaceIds[i]); s.Some? && c.profile in s.value.profiles
  {
    hide SurfaceFor;
    faults := if c.surfaceIds == [] then [BadClaim(c.id)] else [];
    var i := 0;
    while i < |c.surfaceIds|
      invariant 0 <= i <= |c.surfaceIds|
      invariant faults == [] <==> c.surfaceIds != [] && forall k :: 0 <= k < i ==>
                                    var s := SurfaceFor(l, c.surfaceIds[k]); s.Some? && c.profile in s.value.profiles
    {
      var s := SurfaceFor(l, c.surfaceIds[i]);
      if s.None? || c.profile !in s.value.profiles { faults := faults + [BrokenSurface(c.id, c.surfaceIds[i])]; }
      i := i + 1;
    }
  }

  // ---- Public text ----

  method CheckBlock(l: Ledger, s: Surface, b: Block, normal: string -> string) returns (faults: seq<Fault>)
    ensures faults == [] <==> BlockOk(l, s, b, normal)
  {
    hide ClaimFor;
    if b.mentions != |b.bindings| { return [MalformedMarker(s.id)]; }
    if |b.bindings| > 1 { return [ManyBindings(s.id)]; }
    if !b.formalWording { return [OrphanBinding(s.id)]; }
    if b.bindings == [] {
      return if normal(b.text) != normal(l.notice) then [UnboundWording(s.id)] else [];
    }
    var id := b.bindings[0];
    var claim := ClaimFor(l, id);
    if claim.None? { return [UnknownClaim(s.id, id)]; }
    faults := [];
    if normal(b.unbound) != normal(claim.value.text) { faults := faults + [WordingMismatch(s.id, id)]; }
    if s.id !in claim.value.surfaceIds { faults := faults + [UntrackedClaim(s.id, id)]; }
    if claim.value.profile !in s.profiles { faults := faults + [UntrackedClaim(s.id, id)]; }
    if claim.value.kind != Capability || claim.value.minimum != FormallyCertified {
      faults := faults + [WeakClaim(s.id, id)];
    }
  }

  method CheckSurface(l: Ledger, tree: Tree, s: Surface, normal: string -> string) returns (faults: seq<Fault>)
    ensures faults == [] <==> SurfaceOk(l, tree, s, normal)
  {
    hide BlockOk, FileOk, ProfileFor;
    faults := if FileOk(tree, s.path) then [] else [BadSurface(s.id)];
    if s.profiles == [] { faults := faults + [BadSurface(s.id)]; }
    ghost var base := faults;
    var i := 0;
    while i < |s.profiles|
      invariant 0 <= i <= |s.profiles|
      invariant faults == [] <==> base == [] && forall k :: 0 <= k < i ==>
                  ProfileFor(l, s.profiles[k]).Some? && s.profiles[k] in s.links
    {
      if ProfileFor(l, s.profiles[i]).None? {
        faults := faults + [BadSurface(s.id)];
      } else if FileOk(tree, s.path) && s.profiles[i] !in s.links {
        faults := faults + [BadSurface(s.id)];
      }
      i := i + 1;
    }
    if !FileOk(tree, s.path) { return; }
    base := faults;
    i := 0;
    while i < |s.blocks|
      invariant 0 <= i <= |s.blocks|
      invariant faults == [] <==> base == [] && forall k :: 0 <= k < i ==> BlockOk(l, s, s.blocks[k], normal)
    {
      var more := CheckBlock(l, s, s.blocks[i], normal);
      faults := faults + more;
      i := i + 1;
    }
  }

  // ---- Findings and follow-ups ----

  method CheckAbout(l: Ledger, requirementIds: seq<string>, bad: Fault) returns (faults: seq<Fault>)
    ensures faults == [] <==> AboutOk(l, requirementIds)
  {
    hide RequirementFor;
    var repeats := HasRepeats(requirementIds);
    faults := if requirementIds == [] || repeats then [bad] else [];
    ghost var base := faults;
    var i := 0;
    while i < |requirementIds|
      invariant 0 <= i <= |requirementIds|
      invariant faults == [] <==> base == [] && forall k :: 0 <= k < i ==> RequirementFor(l, requirementIds[k]).Some?
    {
      if RequirementFor(l, requirementIds[i]).None? { faults := faults + [bad]; }
      i := i + 1;
    }
  }

  // A list equals its sorted copy exactly when it is sorted.
  lemma SortedIsSort(texts: seq<string>)
    ensures texts == Sort(StringLe, texts) <==> Sorted(StringLe, texts)
  {
    hide Sort, StringLe;
    if Sorted(StringLe, texts) { SortOfSorted(StringLe, texts); }
    StringOrder();
    SortSorted(StringLe, texts);
  }

  method CheckPackages(f: Finding) returns (faults: seq<Fault>)
    ensures faults == [] <==> PackagesOk(f.packages)
  {
    hide Filled, Sort, StringLe;
    if f.packages == [] || !Filled(f.packages) { return [BadFinding(f.id)]; }
    var repeats := HasRepeats(f.packages);
    faults := if repeats then [BadFinding(f.id)] else [];
    SortedIsSort(f.packages);
    if f.packages != Sort(StringLe, f.packages) { faults := faults + [BadFinding(f.id)]; }
  }

  method CheckFinding(l: Ledger, f: Finding) returns (faults: seq<Fault>)
    ensures faults == [] <==> FindingOk(l, f)
  {
    hide Filled, Nonblank, PackagesOk, AboutOk;
    faults := if Filled(f.texts) then [] else [BadFinding(f.id)];
    if f.priority !in ["P0", "P1", "P2", "P3"] { faults := faults + [BadFinding(f.id)]; }
    if f.status !in ["open", "mitigated", "closed"] {
      faults := faults + [BadFinding(f.id)];
    } else if f.status != "open" && !Nonblank(f.reason) {
      faults := faults + [BadFinding(f.id)];
    }
    var packages := CheckPackages(f);
    var about := CheckAbout(l, f.requirementIds, BadFinding(f.id));
    faults := faults + packages + about;
  }

  method CheckFollowUp(l: Ledger, f: FollowUp) returns (faults: seq<Fault>)
    ensures faults == [] <==> FollowUpOk(l, f)
  {
    hide Filled, Nonblank, AboutOk;
    faults := if Filled(f.texts) then [] else [BadFollowUp(f.id)];
    if f.status !in ["open", "closed"] {
      faults := faults + [BadFollowUp(f.id)];
    } else if f.status != "open" && !Nonblank(f.reason) {
      faults := faults + [BadFollowUp(f.id)];
    }
    var about := CheckAbout(l, f.requirementIds, BadFollowUp(f.id));
    faults := faults + about;
  }

  // ---- Collections ----

  method CheckNotes(l: Ledger) returns (faults: seq<Fault>)
    ensures faults == [] <==> && (forall i :: 0 <= i < |l.findings| ==> FindingOk(l, l.findings[i]))
                              && forall i :: 0 <= i < |l.followUps| ==> FollowUpOk(l, l.followUps[i])
  {
    hide FindingOk, FollowUpOk;
    faults := [];
    var i := 0;
    while i < |l.findings|
      invariant 0 <= i <= |l.findings|
      invariant faults == [] <==> forall k :: 0 <= k < i ==> FindingOk(l, l.findings[k])
    {
      var more := CheckFinding(l, l.findings[i]);
      faults := faults + more;
      i := i + 1;
    }
    ghost var base := faults;
    i := 0;
    while i < |l.followUps|
      invariant 0 <= i <= |l.followUps|
      invariant faults == [] <==> base == [] && forall k :: 0 <= k < i ==> FollowUpOk(l, l.followUps[k])
    {
      var more := CheckFollowUp(l, l.followUps[i]);
      faults := faults + more;
      i := i + 1;
    }
  }

  method CheckDocuments(l: Ledger, tree: Tree) returns (faults: seq<Fault>)
    ensures faults == [] <==> && (forall i :: 0 <= i < |l.documents| ==> DocumentOk(tree, l.documents[i]))
                              && forall i :: 0 <= i < |l.profiles| ==> ProfileOk(l.profiles[i])
  {
    hide DocumentOk, ProfileOk;
    faults := [];
    var i := 0;
    while i < |l.documents|
      invariant 0 <= i <= |l.documents|
      invariant faults == [] <==> forall k :: 0 <= k < i ==> DocumentOk(tree, l.documents[k])
    {
      if !DocumentOk(tree, l.documents[i]) { faults := faults + [BadDocument(l.documents[i].id)]; }
      i := i + 1;
    }
    ghost var base := faults;
    i := 0;
    while i < |l.profiles|
      invariant 0 <= i <= |l.profiles|
      invariant faults == [] <==> base == [] && forall k :: 0 <= k < i ==> ProfileOk(l.profiles[k])
    {
      if !ProfileOk(l.profiles[i]) { faults := faults + [BadProfile(l.profiles[i].id)]; }
      i := i + 1;
    }
  }

  method CheckEveryClaim(l: Ledger, index: AssessmentIndex) returns (faults: seq<Fault>)
    ensures IndexRight(l, index) ==>
              (faults == [] <==> && (forall i :: 0 <= i < |l.claims| ==> ClaimOk(l, l.claims[i]))
                                 && forall i :: 0 <= i < |PROFILE_IDS| ==> Claimed(l, PROFILE_IDS[i]))
  {
    hide ClaimOk, IndexRight, Claimed;
    faults := [];
    var i := 0;
    while i < |l.claims|
      invariant 0 <= i <= |l.claims|
      invariant IndexRight(l, index) ==> (faults == [] <==> forall k :: 0 <= k < i ==> ClaimOk(l, l.claims[k]))
    {
      var more := CheckClaim(l, l.claims[i], index);
      faults := faults + more;
      i := i + 1;
    }
    ghost var base := faults;
    i := 0;
    while i < |PROFILE_IDS|
      invariant 0 <= i <= |PROFILE_IDS|
      invariant faults == [] <==> base == [] && forall k :: 0 <= k < i ==> Claimed(l, PROFILE_IDS[k])
    {
      if !Claimed(l, PROFILE_IDS[i]) { faults := faults + [UnclaimedProfile(PROFILE_IDS[i])]; }
      i := i + 1;
    }
  }

  method CheckEverySurface(l: Ledger, tree: Tree, normal: string -> string) returns (faults: seq<Fault>)
    ensures faults == [] <==> forall i :: 0 <= i < |l.surfaces| ==> SurfaceOk(l, tree, l.surfaces[i], normal)
  {
    hide SurfaceOk;
    faults := [];
    var i := 0;
    while i < |l.surfaces|
      invariant 0 <= i <= |l.surfaces|
      invariant faults == [] <==> forall k :: 0 <= k < i ==> SurfaceOk(l, tree, l.surfaces[k], normal)
    {
      var more := CheckSurface(l, tree, l.surfaces[i], normal);
      faults := faults + more;
      i := i + 1;
    }
  }

  lemma IndexIsRight(l: Ledger, tree: Tree, index: AssessmentIndex)
    requires Answers(l.requirements, index) && DistinctKeys(RequirementId, l.requirements)
    requires forall i :: 0 <= i < |l.requirements| ==> RequirementOk(l, tree, l.requirements[i])
    ensures IndexRight(l, index)
  {
    hide Answers, AssessmentFor, AssessmentOk, OriginOk, ListsOk, ExtensionOk, ReferenceOk;
    forall i | 0 <= i < |l.requirements| ensures DistinctKeys(ProfileOf, l.requirements[i].assessments) {
      assert RequirementOk(l, tree, l.requirements[i]);
    }
    forall id, profile ensures AssessmentFor(l, id, profile)
                               == if (id, profile) in index then Some(index[(id, profile)]) else None {
      AnswersLookup(l, index, id, profile);
    }
  }

  lemma DistinctRequirements(l: Ledger)
    requires IdsOk(l)
    ensures DistinctKeys(RequirementId, l.requirements)
  {
    hide IdSet, ProfileIds, RequirementIds, FindingIds, FollowUpIds, Nonblank;
  }

  method ValidateLedger(l: Ledger, tree: Tree, normal: string -> string) returns (faults: seq<Fault>)
    ensures faults == [] <==> LedgerOk(l, tree, normal)
  {
    hide HeaderOk, IdsOk, InventoryOk, DocumentOk, ProfileOk, RequirementOk, TestOk, ClaimOk, SurfaceOk, FindingOk,
         FollowUpOk, DistinctKeys, Answers, IndexRight, Claimed;
    faults := if HeaderOk(l, tree) then [] else [BadHeader];
    var ids := CheckEveryId(l);
    var documents := CheckDocuments(l, tree);
    var requirements, index := CheckRequirements(l, tree);
    if ids == [] && requirements == [] {
      DistinctRequirements(l);
      IndexIsRight(l, tree, index);
    }
    var tests := CheckEveryTest(l, tree);
    var claims := CheckEveryClaim(l, index);
    var surfaces := CheckEverySurface(l, tree, normal);
    var notes := CheckNotes(l);
    faults := faults + ids + documents + requirements + tests + claims + surfaces + notes;
  }
}
