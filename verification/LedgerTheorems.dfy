/** What an accepted ledger guarantees: formal wording is certified, extensions stay apart, the counts are
    true, and how far requirements and tests list each other. */
module LedgerTheorems {
  import opened Sorting
  import opened Folds
  import opened Paths
  import opened Ledger

  // ---- Members of an accepted ledger ----

  lemma AcceptedClaim(l: Ledger, tree: Tree, normal: string -> string, c: Claim)
    requires LedgerOk(l, tree, normal) && c in l.claims
    ensures ClaimOk(l, c)
  {
    hide HeaderOk, IdsOk, InventoryOk, RecordsOk, ClaimOk, SurfaceOk, Claimed;
    var i := Find(l.claims, c);
  }

  lemma AcceptedRequirement(l: Ledger, tree: Tree, normal: string -> string, r: Requirement)
    requires LedgerOk(l, tree, normal) && r in l.requirements
    ensures RequirementOk(l, tree, r) && RequirementFor(l, r.id) == Some(r)
  {
    hide HeaderOk, InventoryOk, PublicOk, RequirementOk, TestOk, DocumentOk, ProfileOk, FindingOk, FollowUpOk, FindBy,
         IdSet, RequirementIds, FindingIds, FollowUpIds, ProfileIds, Nonblank;
    var i := Find(l.requirements, r);
    FindByIs(RequirementId, l.requirements, r.id);
  }

  lemma AcceptedTest(l: Ledger, tree: Tree, normal: string -> string, t: Test)
    requires LedgerOk(l, tree, normal) && t in l.tests
    ensures TestOk(l, tree, t) && TestFor(l, t.id) == Some(t)
  {
    hide HeaderOk, InventoryOk, PublicOk, RequirementOk, TestOk, DocumentOk, ProfileOk, FindingOk, FollowUpOk, FindBy,
         IdSet, RequirementIds, FindingIds, FollowUpIds, ProfileIds, Nonblank;
    var i := Find(l.tests, t);
    FindByIs(TestId, l.tests, t.id);
  }

  // The assessment a claim rests on, with the requirement that carries it.
  lemma Basis(l: Ledger, tree: Tree, normal: string -> string, c: Claim, id: string)
    returns (r: Requirement, a: Assessment)
    requires LedgerOk(l, tree, normal) && c in l.claims && id in c.requirementIds
    ensures r in l.requirements && r.id == id && RequirementOk(l, tree, r)
    ensures a in r.assessments && a.profile == c.profile && AssessmentOk(l, r, a) && RestsOn(c, a)
    ensures forall other :: other in r.assessments && other.profile == c.profile ==> other == a
  {
    hide LedgerOk, FindBy, SurfaceFor, ProfileFor, RestsOn, OriginOk, ReferenceOk, ListsOk, ExtensionOk, AssessmentOk,
         ArtifactsOk, Nonblank;
    AcceptedClaim(l, tree, normal, c);
    var i := Find(c.requirementIds, id);
    var found := AssessmentFor(l, c.requirementIds[i], c.profile);
    r, a := RequirementFor(l, id).value, found.value;
    FindByIs(RequirementId, l.requirements, id);
    AcceptedRequirement(l, tree, normal, r);
    FindByIs(ProfileOf, r.assessments, c.profile);
    var j := Find(r.assessments, a);
    assert AssessmentOk(l, r, r.assessments[j]);
  }

  // ---- Formal wording ----

  // An assessment that carries formal certification, with everything it must show.
  ghost predicate Certified(l: Ledger, requirementId: string, profile: string) {
    exists r, a ::
      && r in l.requirements && r.id == requirementId && r.implementation != []
      && a in r.assessments && a.profile == profile && a.evidence == FormallyCertified && a.disposition != Unsupported
      && ArtifactsOk(a.independent, false) && ArtifactsOk(a.formal, true)
      && forall other :: other in r.assessments && other.profile == profile ==> other == a
  }

  // Public formal wording is either exactly the notice or exactly a capability claim tracked by the
  // surface, every requirement of which is formally certified for the claim's profile.
  ghost predicate Sound(l: Ledger, s: Surface, b: Block, normal: string -> string) {
    || (b.bindings == [] && normal(b.text) == normal(l.notice))
    || exists c ::
         && c in l.claims && b.bindings == [c.id] && normal(b.unbound) == normal(c.text)
         && c.kind == Capability && s.id in c.surfaceIds && c.profile in s.profiles && ArtifactsOk(c.formal, true)
         && c.requirementIds != [] && forall id :: id in c.requirementIds ==> Certified(l, id, c.profile)
  }

  lemma RequirementCertified(l: Ledger, tree: Tree, normal: string -> string, c: Claim, id: string)
    requires LedgerOk(l, tree, normal) && c in l.claims && id in c.requirementIds
    requires c.minimum == FormallyCertified && c.kind == Capability
    ensures Certified(l, id, c.profile)
  {
    hide LedgerOk, ArtifactsOk, ProfileFor, Nonblank, RequirementOk;
    var r, a := Basis(l, tree, normal, c, id);
  }

  lemma BlockAccepted(l: Ledger, tree: Tree, normal: string -> string, s: Surface, b: Block)
    requires LedgerOk(l, tree, normal) && s in l.surfaces && b in s.blocks
    ensures BlockOk(l, s, b, normal)
  {
    hide HeaderOk, IdsOk, InventoryOk, RecordsOk, ClaimOk, Claimed, BlockOk, FileOk, ProfileFor;
    var i := Find(l.surfaces, s);
    assert SurfaceOk(l, tree, l.surfaces[i], normal);
    var j := Find(s.blocks, b);
  }

  lemma FormalWordingIsSound(l: Ledger, tree: Tree, normal: string -> string, s: Surface, b: Block)
    requires LedgerOk(l, tree, normal) && s in l.surfaces && b in s.blocks
    ensures Sound(l, s, b, normal)
  {
    hide LedgerOk, FindBy, ArtifactsOk, Nonblank, Certified, AssessmentFor, SurfaceFor, ProfileFor, RestsOn;
    BlockAccepted(l, tree, normal, s, b);
    if b.bindings != [] {
      FindByIs(ClaimId, l.claims, b.bindings[0]);
      var c := ClaimFor(l, b.bindings[0]).value;
      AcceptedClaim(l, tree, normal, c);
      forall id | id in c.requirementIds ensures Certified(l, id, c.profile) {
        RequirementCertified(l, tree, normal, c, id);
      }
      assert b.bindings == [c.id];
    }
  }

  // A capability never rests on an unsupported requirement, whatever its threshold.
  lemma CapabilitiesAreSupported(l: Ledger, tree: Tree, normal: string -> string, c: Claim, r: Requirement,
                                 a: Assessment)
    requires LedgerOk(l, tree, normal) && c in l.claims && c.kind == Capability
    requires r in l.requirements && r.id in c.requirementIds && a in r.assessments && a.profile == c.profile
    ensures a.disposition != Unsupported && Rank(c.minimum) <= Rank(a.evidence)
  {
    hide LedgerOk, ArtifactsOk, ProfileFor, Nonblank, RequirementOk, ClaimOk;
    var q, b := Basis(l, tree, normal, c, r.id);
    AcceptedRequirement(l, tree, normal, r);
    AcceptedRequirement(l, tree, normal, q);
    assert q == r && b == a;
    assert !c.minimum.InvalidLevel? by { ClaimHasLevel(l, tree, normal, c); }
  }

  lemma ClaimHasLevel(l: Ledger, tree: Tree, normal: string -> string, c: Claim)
    requires LedgerOk(l, tree, normal) && c in l.claims
    ensures !c.minimum.InvalidLevel?
  {
    hide LedgerOk, AssessmentFor, SurfaceFor, ProfileFor, Nonblank, ArtifactsOk;
    AcceptedClaim(l, tree, normal, c);
  }

  // ---- What assessments, requirements and claims say ----

  // Supported means implemented, unsupported means not implemented and says why; interoperable evidence is
  // independent, and certified evidence is authorised besides.
  lemma AssessmentsAreHonest(l: Ledger, tree: Tree, normal: string -> string, r: Requirement, a: Assessment)
    requires LedgerOk(l, tree, normal) && r in l.requirements && a in r.assessments
    ensures a.disposition in {Supported, Unsupported, Deviation}
    ensures a.disposition == Supported ==> a.evidence != NotImplemented
    ensures a.disposition == Unsupported ==> a.evidence == NotImplemented
    ensures a.disposition != Supported ==> Nonblank(a.reason)
    ensures a.evidence != NotImplemented ==> r.implementation != []
    ensures a.evidence in {Interoperable, FormallyCertified} ==> a.independent != []
    ensures a.evidence == FormallyCertified ==>
              a.formal != [] && forall i :: 0 <= i < |a.formal| ==>
                a.formal[i].authorized && Nonblank(a.formal[i].reference)
    ensures forall i :: 0 <= i < |r.implementation| ==> r.implementation[i].path in tree.files
    ensures forall b :: b in r.assessments && b.profile == a.profile ==> b == a
  {
    hide LedgerOk, ProfileFor, Nonblank, OriginOk, ListsOk, ExtensionOk, NoPartIn;
    AcceptedRequirement(l, tree, normal, r);
    var i := Find(r.assessments, a);
    assert AssessmentOk(l, r, r.assessments[i]);
    forall k | 0 <= k < |a.formal| && a.evidence == FormallyCertified
      ensures a.formal[k].authorized && Nonblank(a.formal[k].reference) { assert ArtifactOk(a.formal[k], true); }
    forall k | 0 <= k < |r.implementation| ensures r.implementation[k].path in tree.files {
      assert ReferenceOk(tree, r.implementation[k]);
    }
  }

  // A requirement cites a document at its recorded revision; project requirements have project strength and
  // cite the project policy; what is not covered by known tests is an admitted gap.
  lemma RequirementsAreSourced(l: Ledger, tree: Tree, normal: string -> string, r: Requirement)
    requires LedgerOk(l, tree, normal) && r in l.requirements
    ensures exists d :: d in l.documents && d.id == r.source.document && d.revision == r.source.revision
    ensures r.classification in {ProjectProfile, Extension} <==> r.strength == ProjectStrength
    ensures r.classification in {ProjectProfile, Extension} ==> r.source.document == "rusty-modbus-project-policy"
    ensures r.testIds != [] || r.gap.Some?
    ensures forall id :: id in r.testIds ==> exists t :: t in l.tests && t.id == id
  {
    hide LedgerOk, Nonblank, ReferenceOk, AssessmentsOk, ExtensionOk, FindBy, GapOk, Filled;
    AcceptedRequirement(l, tree, normal, r);
    FindByIs(DocumentId, l.documents, r.source.document);
    var d := DocumentFor(l, r.source.document).value;
    assert d in l.documents && d.id == r.source.document;
    forall id | id in r.testIds ensures exists t :: t in l.tests && t.id == id {
      var t := ListedTest(l, tree, normal, r, id);
    }
  }

  // A claim is about a known profile, rests on requirements assessed for it at its level or above, and stands
  // only where that profile is tracked; formal wording needs formal certification.
  lemma ClaimsAreTracked(l: Ledger, tree: Tree, normal: string -> string, c: Claim)
    requires LedgerOk(l, tree, normal) && c in l.claims
    ensures c.kind in {Capability, Limitation} && c.requirementIds != [] && c.surfaceIds != []
    ensures forall id :: id in c.requirementIds ==>
              exists r, a :: && r in l.requirements && r.id == id && a in r.assessments && a.profile == c.profile
                             && Rank(c.minimum) <= Rank(a.evidence)
                             && (a.disposition == Unsupported ==> c.kind == Limitation && c.minimum == NotImplemented)
    ensures forall id :: id in c.surfaceIds ==> exists s :: s in l.surfaces && s.id == id && c.profile in s.profiles
    ensures c.formalWording ==> c.minimum == FormallyCertified
    ensures Rank(NotImplemented) < Rank(Implemented) < Rank(InternallyVerified) < Rank(Interoperable)
            < Rank(FormallyCertified)
  {
    hide LedgerOk, Nonblank, ArtifactsOk, AssessmentFor, FindBy, ProfileFor, RequirementOk;
    AcceptedClaim(l, tree, normal, c);
    forall id | id in c.requirementIds
      ensures exists r, a :: && r in l.requirements && r.id == id && a in r.assessments && a.profile == c.profile
                             && Rank(c.minimum) <= Rank(a.evidence)
                             && (a.disposition == Unsupported ==> c.kind == Limitation && c.minimum == NotImplemented)
    {
      var r, a := Basis(l, tree, normal, c, id);
    }
    forall id | id in c.surfaceIds ensures exists s :: s in l.surfaces && s.id == id && c.profile in s.profiles {
      var i := Find(c.surfaceIds, id);
      FindByIs(SurfaceId, l.surfaces, id);
      assert SurfaceFor(l, c.surfaceIds[i]).Some?;
    }
  }

  // ---- Extensions ----

  // No claim about another profile rests on an extension requirement, and extension requirements cite the
  // project policy at its recorded revision.
  lemma ExtensionsStayApart(l: Ledger, tree: Tree, normal: string -> string, c: Claim, id: string)
    requires LedgerOk(l, tree, normal) && c in l.claims && id in c.requirementIds && IsExtension(id)
    ensures c.profile == EXTENSION_PROFILE
    ensures exists r, d :: && r in l.requirements && r.id == id && d in l.documents && d.id == PROJECT_POLICY
                           && r.source == Source(PROJECT_POLICY, d.revision, r.source.locator)
  {
    hide LedgerOk, FindBy, AssessmentOk, RestsOn, ListsOk, ReferenceOk, Nonblank, Filled, AssessmentsOk;
    var r, a := Basis(l, tree, normal, c, id);
    var i := Find(r.assessments, a);
    assert a.profile in IdSet(ProfileOf, r.assessments);
    FindByIs(DocumentId, l.documents, r.source.document);
    var d := DocumentFor(l, r.source.document).value;
    assert r.source == Source(PROJECT_POLICY, d.revision, r.source.locator);
  }

  // ---- Counts ----

  lemma IdSetSize<T>(key: T -> string, xs: seq<T>)
    requires DistinctKeys(key, xs)
    ensures |IdSet(key, xs)| == |xs|
  {
    var ids := Map(key, xs);
    DistinctMap(key, xs);
    NoRepeatsSize(ids);
    assert IdSet(key, xs) == set id | id in ids;
  }

  lemma NumberedDiffer(a: string, b: string, m: nat, n: nat)
    requires a != [] && b != [] && m < 100 && n < 100 && (a[0] != b[0] || (a == b && m != n))
    ensures Numbered(a, m) != Numbered(b, n)
  {
    var x, y := Numbered(a, m), Numbered(b, n);
    assert x[0] == a[0] && y[0] == b[0];
    if a == b {
      assert x[|a| + 2] == Digit(m / 10) && y[|a| + 2] == Digit(n / 10);
      assert x[|a| + 3] == Digit(m % 10) && y[|a| + 3] == Digit(n % 10);
      assert m == 10 * (m / 10) + m % 10 && n == 10 * (n / 10) + n % 10;
    }
  }

  lemma RequirementIdsDiffer(i: nat, j: nat)
    requires i < j < REQUIREMENTS
    ensures RequirementIdAt(i) != RequirementIdAt(j)
  {
    hide Numbered;
    var a, b := Place(i), Place(j);
    assert a.0[0] != b.0[0] || (a.0 == b.0 && a.1 != b.1);
    NumberedDiffer(a.0, b.0, a.1, b.1);
  }

  lemma RequirementIdCount()
    ensures |RequirementIds()| == REQUIREMENTS
  {
    hide RequirementIdAt;
    var ids := seq(REQUIREMENTS, i requires 0 <= i < REQUIREMENTS => RequirementIdAt(i));
    forall i, j | 0 <= i < j < |ids| ensures ids[i] != ids[j] { RequirementIdsDiffer(i, j); }
    NoRepeatsSize(ids);
    assert RequirementIds() == set id | id in ids by {
      forall id | id in RequirementIds() ensures id in ids {
        var i :| 0 <= i < REQUIREMENTS && id == RequirementIdAt(i);
        assert ids[i] == id;
      }
    }
  }

  // The recorded counts are the numbers of requirements, tests and live tests, and every live test is
  // exactly one of the tests.
  lemma CountsAreTrue(l: Ledger, tree: Tree, normal: string -> string)
    requires LedgerOk(l, tree, normal)
    ensures l.baseline.requirementCount == |l.requirements| == REQUIREMENTS
    ensures l.baseline.testCount == |l.tests| == |Live(tree)|
    ensures forall path :: path in Live(tree) <==> exists t :: t in l.tests && t.path == path
    ensures forall t, u :: t in l.tests && u in l.tests && t.path == u.path ==> t == u
  {
    hide RecordsOk, PublicOk, RequirementIds, FindingIds, FollowUpIds, ProfileIds, Nonblank, IdSet, Live;
    IdSetSize(RequirementId, l.requirements);
    RequirementIdCount();
    IdSetSize(TestPath, l.tests);
    forall path ensures path in Live(tree) <==> exists t :: t in l.tests && t.path == path {
      IdSetIs(TestPath, l.tests, path);
    }
    forall t, u | t in l.tests && u in l.tests && t.path == u.path ensures t == u {
      FindByIs(TestPath, l.tests, t.path);
    }
  }

  lemma IdSetIs<T>(key: T -> string, xs: seq<T>, k: string)
    ensures k in IdSet(key, xs) <==> exists x :: x in xs && key(x) == k
  {
    if k in IdSet(key, xs) {
      var i :| 0 <= i < |xs| && k == key(xs[i]);
      assert xs[i] in xs;
    }
  }

  // ---- Requirements and tests listing each other ----

  // Every test a requirement is mapped from is listed by that requirement.
  lemma TestsAreListed(l: Ledger, tree: Tree, normal: string -> string, t: Test, r: Requirement)
    requires LedgerOk(l, tree, normal) && t in l.tests && r in l.requirements && r.id in t.requirementIds
    ensures t.id in r.testIds
  {
    hide LedgerOk, RequirementOk, FileOk, RequirementFor;
    AcceptedTest(l, tree, normal, t);
    AcceptedRequirement(l, tree, normal, r);
    var i := Find(t.requirementIds, r.id);
    assert RequirementFor(l, t.requirementIds[i]) == Some(r);
  }

  // Every test a requirement lists maps back to it. Validation does not ask for this.
  ghost predicate Reciprocal(l: Ledger) {
    forall t, r :: t in l.tests && r in l.requirements && t.id in r.testIds ==> r.id in t.requirementIds
  }

  function Listings(r: Requirement): seq<string> { r.testIds }
  function Mappings(t: Test): seq<string> { t.requirementIds }
  function Total<T>(targets: T -> seq<string>, xs: seq<T>): nat {
    if xs == [] then 0 else |targets(xs[0])| + Total(targets, xs[1..])
  }

  ghost function Edges<T(!new)>(key: T -> string, targets: T -> seq<string>, xs: seq<T>): set<(string, string)> {
    set i, j | 0 <= i < |xs| && 0 <= j < |targets(xs[i])| :: (key(xs[i]), targets(xs[i])[j])
  }

  ghost function From(source: string, ids: seq<string>): set<(string, string)> {
    set j | 0 <= j < |ids| :: (source, ids[j])
  }

  lemma {:induction false} FromSize(source: string, ids: seq<string>)
    requires NoRepeats(ids)
    ensures |From(source, ids)| == |ids|
  {
    if ids != [] {
      FromSize(source, ids[1..]);
      HeadNotInTail(ids);
      assert From(source, ids) == {(source, ids[0])} + From(source, ids[1..]) by {
        forall p | p in From(source, ids) ensures p in {(source, ids[0])} + From(source, ids[1..]) {
          var j :| 0 <= j < |ids| && p == (source, ids[j]);
          if j > 0 { assert p == (source, ids[1..][j - 1]); }
        }
        forall p | p in From(source, ids[1..]) ensures p in From(source, ids) {
          var j :| 0 <= j < |ids[1..]| && p == (source, ids[1..][j]);
          assert p == (source, ids[j + 1]);
        }
      }
      assert (source, ids[0]) !in From(source, ids[1..]);
    }
  }

  lemma EdgesCons<T(!new)>(key: T -> string, targets: T -> seq<string>, xs: seq<T>)
    requires xs != []
    ensures Edges(key, targets, xs) == From(key(xs[0]), targets(xs[0])) + Edges(key, targets, xs[1..])
  {
    var rest := xs[1..];
    forall p | p in Edges(key, targets, xs) ensures p in From(key(xs[0]), targets(xs[0])) + Edges(key, targets, rest) {
      var i, j :| 0 <= i < |xs| && 0 <= j < |targets(xs[i])| && p == (key(xs[i]), targets(xs[i])[j]);
      if i > 0 { assert rest[i - 1] == xs[i]; }
    }
    forall p | p in Edges(key, targets, rest) ensures p in Edges(key, targets, xs) {
      var i, j :| 0 <= i < |rest| && 0 <= j < |targets(rest[i])| && p == (key(rest[i]), targets(rest[i])[j]);
      assert rest[i] == xs[i + 1];
    }
  }

  lemma {:induction false} EdgesSize<T(!new)>(key: T -> string, targets: T -> seq<string>, xs: seq<T>)
    requires DistinctKeys(key, xs) && forall x :: x in xs ==> NoRepeats(targets(x))
    ensures |Edges(key, targets, xs)| == Total(targets, xs)
  {
    if xs != [] {
      EdgesCons(key, targets, xs);
      FromSize(key(xs[0]), targets(xs[0]));
      EdgesSize(key, targets, xs[1..]);
      assert From(key(xs[0]), targets(xs[0])) !! Edges(key, targets, xs[1..]);
    }
  }

  lemma EdgesIs<T(!new)>(key: T -> string, targets: T -> seq<string>, xs: seq<T>, p: (string, string))
    ensures p in Edges(key, targets, xs) <==> exists x :: x in xs && key(x) == p.0 && p.1 in targets(x)
  {
    if p in Edges(key, targets, xs) {
      var i, j :| 0 <= i < |xs| && 0 <= j < |targets(xs[i])| && p == (key(xs[i]), targets(xs[i])[j]);
      assert xs[i] in xs;
    }
    if x :| x in xs && key(x) == p.0 && p.1 in targets(x) {
      var i := Find(xs, x);
      var j := Find(targets(x), p.1);
    }
  }

  ghost function Flip(s: set<(string, string)>): set<(string, string)> { set p | p in s :: (p.1, p.0) }

  lemma {:induction false} FlipSize(s: set<(string, string)>)
    ensures |Flip(s)| == |s|
  {
    if p :| p in s {
      FlipSize(s - {p});
      assert Flip(s) == Flip(s - {p}) + {(p.1, p.0)};
    }
  }

  // What tests map is what requirements list, turned round, or less.
  lemma MappedIsListed(l: Ledger, tree: Tree, normal: string -> string)
    requires LedgerOk(l, tree, normal)
    ensures Flip(Edges(TestId, Mappings, l.tests)) <= Edges(RequirementId, Listings, l.requirements)
  {
    hide LedgerOk, RequirementFor, FileOk, Edges;
    forall p | p in Edges(TestId, Mappings, l.tests)
      ensures (p.1, p.0) in Edges(RequirementId, Listings, l.requirements)
    {
      EdgesIs(TestId, Mappings, l.tests, p);
      var t :| t in l.tests && TestId(t) == p.0 && p.1 in Mappings(t);
      AcceptedTest(l, tree, normal, t);
      var i := Find(t.requirementIds, p.1);
      var r := RequirementFor(l, t.requirementIds[i]).value;
      LookedUp(l, p.1, r);
      EdgesIs(RequirementId, Listings, l.requirements, (p.1, p.0));
      assert r in l.requirements && RequirementId(r) == p.1 && p.0 in Listings(r);
    }
  }

  lemma LookedUp(l: Ledger, id: string, r: Requirement)
    requires RequirementFor(l, id) == Some(r)
    ensures r in l.requirements && r.id == id
  {
    FindByIs(RequirementId, l.requirements, id);
  }

  lemma ReciprocalIs(l: Ledger, tree: Tree, normal: string -> string)
    requires LedgerOk(l, tree, normal)
    ensures Reciprocal(l) <==> Edges(RequirementId, Listings, l.requirements) <= Flip(Edges(TestId, Mappings, l.tests))
  {
    hide LedgerOk, Edges, RequirementOk, TestOk;
    var listed, mapped := Edges(RequirementId, Listings, l.requirements), Edges(TestId, Mappings, l.tests);
    forall p ensures p in Flip(mapped) <==> (p.1, p.0) in mapped { FlipIs(mapped, p); }
    if Reciprocal(l) {
      forall p | p in listed ensures p in Flip(mapped) {
        EdgesIs(RequirementId, Listings, l.requirements, p);
        var r :| r in l.requirements && RequirementId(r) == p.0 && p.1 in Listings(r);
        var t := ListedTest(l, tree, normal, r, p.1);
        assert TestId(t) == (p.1, p.0).0 && (p.1, p.0).1 in Mappings(t);
        EdgesIs(TestId, Mappings, l.tests, (p.1, p.0));
      }
    }
    if listed <= Flip(mapped) {
      forall t, r | t in l.tests && r in l.requirements && t.id in r.testIds ensures r.id in t.requirementIds {
        assert RequirementId(r) == (r.id, t.id).0 && (r.id, t.id).1 in Listings(r);
        EdgesIs(RequirementId, Listings, l.requirements, (r.id, t.id));
        EdgesIs(TestId, Mappings, l.tests, (t.id, r.id));
        var u :| u in l.tests && TestId(u) == t.id && r.id in Mappings(u);
        AcceptedTest(l, tree, normal, t);
        AcceptedTest(l, tree, normal, u);
      }
    }
  }

  lemma FlipIs(s: set<(string, string)>, p: (string, string))
    ensures p in Flip(s) <==> (p.1, p.0) in s
  {
    if (p.1, p.0) in s { assert ((p.1, p.0).1, (p.1, p.0).0) == p; }
  }

  lemma ListedTest(l: Ledger, tree: Tree, normal: string -> string, r: Requirement, id: string) returns (t: Test)
    requires LedgerOk(l, tree, normal) && r in l.requirements && id in r.testIds
    ensures t in l.tests && t.id == id
  {
    hide LedgerOk, OriginOk, ReferenceOk, AssessmentsOk, ExtensionOk, GapOk, FindBy;
    AcceptedRequirement(l, tree, normal, r);
    var i := Find(r.testIds, id);
    assert TestFor(l, r.testIds[i]).Some?;
    FindByIs(TestId, l.tests, id);
    t := TestFor(l, id).value;
  }

  // The exact condition: an accepted ledger is reciprocal if and only if the lists of its requirements are
  // together as long as those of its tests, which they never fall short of.
  lemma ReciprocalByCounting(l: Ledger, tree: Tree, normal: string -> string)
    requires LedgerOk(l, tree, normal)
    ensures Total(Mappings, l.tests) <= Total(Listings, l.requirements)
    ensures Reciprocal(l) <==> Total(Mappings, l.tests) == Total(Listings, l.requirements)
  {
    hide LedgerOk, Edges, Flip, Total, Reciprocal;
    var listed, mapped := Edges(RequirementId, Listings, l.requirements), Edges(TestId, Mappings, l.tests);
    assert DistinctKeys(RequirementId, l.requirements) && DistinctKeys(TestId, l.tests) by {
      KeysDistinct(l, tree, normal);
    }
    forall r | r in l.requirements ensures NoRepeats(Listings(r)) { ListsRepeatNothing(l, tree, normal, r); }
    forall t | t in l.tests ensures NoRepeats(Mappings(t)) { MapsRepeatNothing(l, tree, normal, t); }
    EdgesSize(RequirementId, Listings, l.requirements);
    EdgesSize(TestId, Mappings, l.tests);
    FlipSize(mapped);
    MappedIsListed(l, tree, normal);
    SubsetSize(Flip(mapped), listed);
    ReciprocalIs(l, tree, normal);
  }

  lemma KeysDistinct(l: Ledger, tree: Tree, normal: string -> string)
    requires LedgerOk(l, tree, normal)
    ensures DistinctKeys(RequirementId, l.requirements) && DistinctKeys(TestId, l.tests)
  {
    hide HeaderOk, InventoryOk, RecordsOk, PublicOk, RequirementIds, FindingIds, FollowUpIds, ProfileIds, IdSet,
         Nonblank;
  }

  lemma ListsRepeatNothing(l: Ledger, tree: Tree, normal: string -> string, r: Requirement)
    requires LedgerOk(l, tree, normal) && r in l.requirements
    ensures NoRepeats(r.testIds)
  {
    hide LedgerOk, OriginOk, ReferenceOk, AssessmentsOk, ExtensionOk, GapOk, FindBy;
    AcceptedRequirement(l, tree, normal, r);
  }

  lemma MapsRepeatNothing(l: Ledger, tree: Tree, normal: string -> string, t: Test)
    requires LedgerOk(l, tree, normal) && t in l.tests
    ensures NoRepeats(t.requirementIds)
  {
    hide LedgerOk, FileOk, FindBy;
    AcceptedTest(l, tree, normal, t);
  }

  // ---- One more listing ----

  function WithListing(r: Requirement, testId: string): Requirement { r.(testIds := r.testIds + [testId]) }

  // The ledger in which the `k`-th requirement lists one more test.
  function Listing(l: Ledger, k: nat, testId: string): Ledger
    requires k < |l.requirements|
  {
    l.(requirements := l.requirements[k := WithListing(l.requirements[k], testId)])
  }

  lemma LookupInListing(l: Ledger, k: nat, testId: string, id: string)
    requires k < |l.requirements| && DistinctKeys(RequirementId, l.requirements)
    ensures RequirementFor(Listing(l, k, testId), id)
            == if id == l.requirements[k].id then Some(WithListing(l.requirements[k], testId))
               else RequirementFor(l, id)
  {
    var before, after := l.requirements, Listing(l, k, testId).requirements;
    forall i, j | 0 <= i < j < |after| ensures RequirementId(after[i]) != RequirementId(after[j]) {
      assert RequirementId(before[i]) != RequirementId(before[j]);
    }
    FindByIs(RequirementId, before, id);
    FindByIs(RequirementId, after, id);
    if id == before[k].id {
      assert after[k] in after;
    } else if RequirementFor(l, id).Some? {
      var i := Find(before, RequirementFor(l, id).value);
      assert after[i] in after;
    } else {
      forall r | r in after ensures r.id != id {
        var i := Find(after, r);
        assert before[i] in before;
      }
    }
  }

  // Validation accepts one more listing of any test in any accepted ledger, and the result is never
  // reciprocal.
  lemma ExtraListingIsAccepted(l: Ledger, tree: Tree, normal: string -> string, k: nat, t: Test)
    requires LedgerOk(l, tree, normal) && k < |l.requirements| && t in l.tests && t.id !in l.requirements[k].testIds
    ensures LedgerOk(Listing(l, k, t.id), tree, normal) && !Reciprocal(Listing(l, k, t.id))
  {
    hide HeaderOk, IdsOk, InventoryOk, RecordsOk, PublicOk, Listing;
    var r, l' := l.requirements[k], Listing(l, k, t.id);
    if r.id in t.requirementIds { TestsAreListed(l, tree, normal, t, r); }
    KeysDistinct(l, tree, normal);
    ListingKeepsHeader(l, tree, k, t.id);
    ListingKeepsIds(l, k, t.id);
    assert RequirementOk(l, tree, r) && TestFor(l, t.id) == Some(t) by {
      AcceptedRequirement(l, tree, normal, r);
      AcceptedTest(l, tree, normal, t);
    }
    ListingKeepsRecords(l, tree, k, t.id);
    ListingKeepsPublic(l, tree, normal, k, t.id);
    ListingIsUnmapped(l, k, t);
  }

  lemma ListingIsUnmapped(l: Ledger, k: nat, t: Test)
    requires k < |l.requirements| && t in l.tests && l.requirements[k].id !in t.requirementIds
    ensures !Reciprocal(Listing(l, k, t.id))
  {
    var l' := Listing(l, k, t.id);
    assert l'.requirements[k] in l'.requirements && t in l'.tests;
  }

  lemma ListingKeepsHeader(l: Ledger, tree: Tree, k: nat, testId: string)
    requires k < |l.requirements| && HeaderOk(l, tree) && InventoryOk(l, tree)
    ensures HeaderOk(Listing(l, k, testId), tree) && InventoryOk(Listing(l, k, testId), tree)
  {
  }

  lemma ListingKeepsIds(l: Ledger, k: nat, testId: string)
    requires k < |l.requirements| && IdsOk(l)
    ensures IdsOk(Listing(l, k, testId))
  {
    hide Nonblank, RequirementIds, FindingIds, FollowUpIds, ProfileIds;
    var before, after := l.requirements, Listing(l, k, testId).requirements;
    assert forall i :: 0 <= i < |before| ==> RequirementId(after[i]) == RequirementId(before[i]);
    assert IdSet(RequirementId, after) == IdSet(RequirementId, before);
  }

  lemma ListingKeepsRequirement(l: Ledger, tree: Tree, k: nat, testId: string, r: Requirement)
    requires k < |l.requirements| && RequirementOk(l, tree, r)
    ensures RequirementOk(Listing(l, k, testId), tree, r)
    ensures TestFor(l, testId).Some? && testId !in r.testIds ==>
              RequirementOk(Listing(l, k, testId), tree, WithListing(r, testId))
  {
    hide FindBy, Nonblank, ArtifactsOk, IdSet, FileOk;
    var l' := Listing(l, k, testId);
    forall q | q == r || q == WithListing(r, testId) ensures AssessmentsOk(l', q) {
      forall i | 0 <= i < |r.assessments| ensures AssessmentOk(l', q, r.assessments[i]) {
        assert AssessmentOk(l, r, r.assessments[i]);
      }
    }
  }

  lemma ListingKeepsTest(l: Ledger, tree: Tree, k: nat, testId: string, t: Test)
    requires k < |l.requirements| && DistinctKeys(RequirementId, l.requirements) && TestOk(l, tree, t)
    ensures TestOk(Listing(l, k, testId), tree, t)
  {
    hide FindBy, FileOk;
    var l' := Listing(l, k, testId);
    forall i | 0 <= i < |t.requirementIds|
      ensures var r := RequirementFor(l', t.requirementIds[i]); r.Some? && t.id in r.value.testIds
    {
      LookupInListing(l, k, testId, t.requirementIds[i]);
      LookupOwn(l, k, t.requirementIds[i]);
    }
  }

  lemma LookupOwn(l: Ledger, k: nat, id: string)
    requires k < |l.requirements| && DistinctKeys(RequirementId, l.requirements)
    ensures id == l.requirements[k].id ==> RequirementFor(l, id) == Some(l.requirements[k])
  {
    FindByIs(RequirementId, l.requirements, id);
  }

  lemma ListingKeepsAbout(l: Ledger, k: nat, testId: string, ids: seq<string>)
    requires k < |l.requirements| && DistinctKeys(RequirementId, l.requirements) && AboutOk(l, ids)
    ensures AboutOk(Listing(l, k, testId), ids)
  {
    hide FindBy;
    forall i | 0 <= i < |ids| ensures RequirementFor(Listing(l, k, testId), ids[i]).Some? {
      LookupInListing(l, k, testId, ids[i]);
    }
  }

  lemma ListingKeepsRecords(l: Ledger, tree: Tree, k: nat, testId: string)
    requires k < |l.requirements| && DistinctKeys(RequirementId, l.requirements) && RecordsOk(l, tree)
    requires TestFor(l, testId).Some? && testId !in l.requirements[k].testIds
    ensures RecordsOk(Listing(l, k, testId), tree)
  {
    hide RequirementOk, TestOk, DocumentOk, ProfileOk, AboutOk, Filled, PackagesOk, Nonblank, TestFor;
    var l' := Listing(l, k, testId);
    forall i | 0 <= i < |l'.requirements| ensures RequirementOk(l', tree, l'.requirements[i]) {
      ListingKeepsRequirement(l, tree, k, testId, l.requirements[i]);
    }
    forall i | 0 <= i < |l.tests| ensures TestOk(l', tree, l.tests[i]) {
      ListingKeepsTest(l, tree, k, testId, l.tests[i]);
    }
    forall i | 0 <= i < |l.findings| ensures FindingOk(l', l.findings[i]) {
      assert FindingOk(l, l.findings[i]);
      ListingKeepsAbout(l, k, testId, l.findings[i].requirementIds);
    }
    forall i | 0 <= i < |l.followUps| ensures FollowUpOk(l', l.followUps[i]) {
      assert FollowUpOk(l, l.followUps[i]);
      ListingKeepsAbout(l, k, testId, l.followUps[i].requirementIds);
    }
  }

  lemma ListingKeepsClaim(l: Ledger, k: nat, testId: string, c: Claim)
    requires k < |l.requirements| && DistinctKeys(RequirementId, l.requirements) && ClaimOk(l, c)
    ensures ClaimOk(Listing(l, k, testId), c)
  {
    hide FindBy, Nonblank, ArtifactsOk, RestsOn;
    var l' := Listing(l, k, testId);
    forall i | 0 <= i < |c.requirementIds|
      ensures AssessmentFor(l', c.requirementIds[i], c.profile) == AssessmentFor(l, c.requirementIds[i], c.profile)
    {
      LookupInListing(l, k, testId, c.requirementIds[i]);
      LookupOwn(l, k, c.requirementIds[i]);
    }
    forall i | 0 <= i < |c.surfaceIds| ensures SurfaceFor(l', c.surfaceIds[i]) == SurfaceFor(l, c.surfaceIds[i]) {}
  }

  lemma ListingKeepsSurface(l: Ledger, tree: Tree, normal: string -> string, k: nat, testId: string, s: Surface)
    requires k < |l.requirements| && SurfaceOk(l, tree, s, normal)
    ensures SurfaceOk(Listing(l, k, testId), tree, s, normal)
  {
    hide FindBy, FileOk;
    var l' := Listing(l, k, testId);
    forall i | 0 <= i < |s.blocks| ensures BlockOk(l', s, s.blocks[i], normal) {
      assert BlockOk(l, s, s.blocks[i], normal);
    }
  }

  lemma ListingKeepsPublic(l: Ledger, tree: Tree, normal: string -> string, k: nat, testId: string)
    requires k < |l.requirements| && DistinctKeys(RequirementId, l.requirements) && PublicOk(l, tree, normal)
    ensures PublicOk(Listing(l, k, testId), tree, normal)
  {
    hide ClaimOk, SurfaceOk;
    var l' := Listing(l, k, testId);
    forall i | 0 <= i < |l.claims| ensures ClaimOk(l', l.claims[i]) { ListingKeepsClaim(l, k, testId, l.claims[i]); }
    forall i | 0 <= i < |l.surfaces| ensures SurfaceOk(l', tree, l.surfaces[i], normal) {
      ListingKeepsSurface(l, tree, normal, k, testId, l.surfaces[i]);
    }
    forall i | 0 <= i < |PROFILE_IDS| ensures Claimed(l', PROFILE_IDS[i]) { assert Claimed(l, PROFILE_IDS[i]); }
  }
}
