/** An accepted ledger with the fixed IDs, and one that is accepted and not reciprocal. */
module LedgerExample {
  import opened Sorting
  import opened Folds
  import opened Paths
  import opened Ledger
  import opened LedgerTheorems

  const SPEC := Join("crates", Join("rusty-modbus-conformance", Join("tests", "spec_x.rs")))

  function OneFile(): Tree { Tree({SPEC}) }

  function Supports(profile: string): Assessment { Assessment(profile, Supported, Implemented, "", [], []) }

  // An extension is assessed for its own profile only, anything else for all profiles.
  function AssessmentsOf(id: string): seq<Assessment> {
    if IsExtension(id) then [Supports(EXTENSION_PROFILE)] else Map(Supports, PROFILE_IDS)
  }

  function RequirementNamed(id: string): Requirement {
    Requirement(id, ["x"], if IsExtension(id) then Extension else Normative,
                if IsExtension(id) then ProjectStrength else Must, Source(PROJECT_POLICY, "x", "x"),
                [Reference(SPEC, None)], [], Some(Gap(["x"], None)), AssessmentsOf(id))
  }

  const FIRST := "APP-001"

  function ProfileNamed(id: string): Profile { Profile(id, ["x"], "profile-" + id, "extension") }
  function ClaimAbout(id: string): Claim { Claim(id, id, Capability, "x", false, Implemented, [FIRST], ["x"], []) }
  function FindingNamed(id: string): Finding { Finding(id, ["x"], "P0", "open", "", ["x"], [FIRST]) }
  function FollowUpNamed(id: string): FollowUp { FollowUp(id, ["x"], "open", "", [FIRST]) }

  function RequirementIdList(): seq<string> {
    seq(REQUIREMENTS, i requires 0 <= i < REQUIREMENTS => RequirementIdAt(i))
  }
  function FindingIdList(): seq<string> { seq(FINDINGS, i requires 0 <= i < FINDINGS => FindingIdAt(i)) }
  function FollowUpIdList(): seq<string> { seq(FOLLOW_UPS, i requires 0 <= i < FOLLOW_UPS => FollowUpIdAt(i)) }

  function Example(): Ledger {
    Ledger(1, Baseline(["x"], REQUIREMENTS, 1), "x", [Document(PROJECT_POLICY, ["x"], "x", "project-policy", "x", "")],
           Map(ProfileNamed, PROFILE_IDS), Map(RequirementNamed, RequirementIdList()),
           [Test("x", SPEC, [], Supporting)],
           Map(ClaimAbout, PROFILE_IDS), [Surface("x", SPEC, PROFILE_IDS, ProfileIds(), [])],
           Map(FindingNamed, FindingIdList()), Map(FollowUpNamed, FollowUpIdList()))
  }

  // ---- IDs ----

  lemma StartsFilled(s: string)
    requires s != [] && !IsSpace(s[0])
    ensures Nonblank(s)
  {
  }

  lemma ProfileIdsDiffer()
    ensures NoRepeats(PROFILE_IDS)
  {
    assert PROFILE_IDS[0][4] != PROFILE_IDS[1][4] && PROFILE_IDS[3][0] != PROFILE_IDS[7][0];
    assert forall i :: 0 <= i < 8 ==> |PROFILE_IDS[i]| == [10, 10, 19, 22, 7, 15, 9, 22][i];
  }

  // A list of records named by a list of filled and distinct IDs.
  lemma NamedAreKeyed<T>(key: T -> string, named: string -> T, ids: seq<string>)
    requires NoRepeats(ids) && (forall id :: key(named(id)) == id)
    requires forall i :: 0 <= i < |ids| ==> ids[i] != [] && !IsSpace(ids[i][0])
    ensures Keyed(key, Map(named, ids)) && IdSet(key, Map(named, ids)) == set i | 0 <= i < |ids| :: ids[i]
  {
    hide Nonblank, IsSpace;
    var xs := Map(named, ids);
    forall i | 0 <= i < |xs| ensures Nonblank(key(xs[i])) { StartsFilled(ids[i]); }
  }

  lemma FixedIdsDiffer()
    ensures NoRepeats(RequirementIdList()) && NoRepeats(FindingIdList()) && NoRepeats(FollowUpIdList())
  {
    hide Numbered;
    forall i, j | 0 <= i < j < REQUIREMENTS ensures RequirementIdAt(i) != RequirementIdAt(j) {
      RequirementIdsDiffer(i, j);
    }
    forall i, j | 0 <= i < j < FINDINGS ensures FindingIdAt(i) != FindingIdAt(j) {
      NumberedDiffer("F", "F", i + 1, j + 1);
    }
    forall i, j | 0 <= i < j < FOLLOW_UPS ensures FollowUpIdAt(i) != FollowUpIdAt(j) {
      assert FollowUpIdAt(i)[7] == Digit(i) && FollowUpIdAt(j)[7] == Digit(j);
    }
  }

  lemma FixedIdsFilled()
    ensures forall i :: 0 <= i < REQUIREMENTS ==> RequirementIdAt(i) != [] && !IsSpace(RequirementIdAt(i)[0])
    ensures forall i :: 0 <= i < FINDINGS ==> FindingIdAt(i) != [] && !IsSpace(FindingIdAt(i)[0])
    ensures forall i :: 0 <= i < FOLLOW_UPS ==> FollowUpIdAt(i) != [] && !IsSpace(FollowUpIdAt(i)[0])
    ensures forall i :: 0 <= i < |PROFILE_IDS| ==> PROFILE_IDS[i] != [] && !IsSpace(PROFILE_IDS[i][0])
  {
    forall i | 0 <= i < REQUIREMENTS ensures RequirementIdAt(i) != [] && !IsSpace(RequirementIdAt(i)[0]) {
      assert RequirementIdAt(i)[0] == Place(i).0[0];
    }
  }

  lemma ExampleIds()
    ensures IdsOk(Example())
  {
    hide Numbered, RequirementIdAt, FindingIdAt, FollowUpIdAt, Nonblank, IsSpace, AssessmentsOf;
    FixedIdsDiffer();
    FixedIdsFilled();
    ProfileIdsDiffer();
    NamedAreKeyed(ProfileId, ProfileNamed, PROFILE_IDS);
    NamedAreKeyed(RequirementId, RequirementNamed, RequirementIdList());
    NamedAreKeyed(ClaimId, ClaimAbout, PROFILE_IDS);
    NamedAreKeyed(FindingId, FindingNamed, FindingIdList());
    NamedAreKeyed(FollowUpId, FollowUpNamed, FollowUpIdList());
    assert Nonblank(PROJECT_POLICY) && Nonblank("x") by { Letters(); }
    assert IdSet(RequirementId, Example().requirements) == RequirementIds() by {
      assert forall i :: 0 <= i < REQUIREMENTS ==> RequirementIdList()[i] == RequirementIdAt(i);
    }
    assert IdSet(FindingId, Example().findings) == FindingIds() by {
      assert forall i :: 0 <= i < FINDINGS ==> FindingIdList()[i] == FindingIdAt(i);
    }
    assert IdSet(FollowUpId, Example().followUps) == FollowUpIds() by {
      assert forall i :: 0 <= i < FOLLOW_UPS ==> FollowUpIdList()[i] == FollowUpIdAt(i);
    }
  }

  lemma Letters()
    ensures Nonblank(PROJECT_POLICY) && Nonblank("x") && !Nonblank("")
  {
    hide Nonblank;
    StartsFilled(PROJECT_POLICY);
    StartsFilled("x");
    assert !Nonblank("") by { NothingIsBlank(); }
  }

  lemma NothingIsBlank()
    ensures !Nonblank("")
  {
  }

  // ---- Records ----

  lemma FileIsThere()
    ensures FileOk(OneFile(), SPEC)
  {
    hide Nonblank, NoPartIn;
    StartsFilled(SPEC);
    SpecIsPlain();
  }

  lemma {:induction false} PartEndOf(before: string, part: string, rest: string)
    requires '/' !in part && (rest != "" ==> rest[0] == '/')
    ensures PartEnd(before + part + rest, |before|) == |before| + |part|
    decreases |part|
  {
    var path := before + part + rest;
    if part == "" {
      assert path == before + rest;
    } else {
      assert path == before + [part[0]] + part[1..] + rest;
      PartEndOf(before + [part[0]], part[1..], rest);
      assert path[|before|] == part[0];
    }
  }

  // A path is plain from some point on when the next part is and the path is plain after it.
  lemma PlainPart(before: string, part: string, rest: string, refused: seq<string>)
    requires '/' !in part && part !in refused
    requires NoPartIn(Join(before + part, rest), |before + part| + 1, refused)
    ensures NoPartIn(before + Join(part, rest), |before|, refused)
  {
    hide PartEnd;
    var path := before + Join(part, rest);
    assert path == before + part + ("/" + rest) && path == Join(before + part, rest);
    PartEndOf(before, part, "/" + rest);
    assert path[|before|..|before| + |part|] == part;
  }

  lemma LastPart(before: string, part: string, refused: seq<string>)
    requires '/' !in part && part !in refused
    ensures NoPartIn(before + part, |before|, refused)
  {
    hide PartEnd;
    assert before + part + "" == before + part;
    PartEndOf(before, part, "");
    assert (before + part)[|before|..] == part;
  }

  lemma SpecIsPlain()
    ensures NoPartIn(SPEC, 0, ["", ".", ".."])
  {
    hide PartEnd, NoPartIn;
    var a, b, c, d, refused := "crates", "rusty-modbus-conformance", "tests", "spec_x.rs", ["", ".", ".."];
    PlainParts(a, b, c, d, refused);
  }

  lemma PlainParts(a: string, b: string, c: string, d: string, refused: seq<string>)
    requires '/' !in a && '/' !in b && '/' !in c && '/' !in d
    requires a !in refused && b !in refused && c !in refused && d !in refused
    ensures NoPartIn(Join(a, Join(b, Join(c, d))), 0, refused)
  {
    hide PartEnd, NoPartIn;
    var x := a + "/";
    var y := x + b + "/";
    var z := y + c + "/";
    LastPart(z, d, refused);
    assert z + d == Join(y + c, d);
    PlainPart(y, c, d, refused);
    assert y + Join(c, d) == Join(x + b, Join(c, d));
    PlainPart(x, b, Join(c, d), refused);
    assert x + Join(b, Join(c, d)) == Join("" + a, Join(b, Join(c, d)));
    PlainPart("", a, Join(b, Join(c, d)), refused);
    assert "" + Join(a, Join(b, Join(c, d))) == Join(a, Join(b, Join(c, d)));
  }

  lemma Lookups()
    ensures RequirementFor(Example(), FIRST) == Some(RequirementNamed(FIRST))
    ensures forall i :: 0 <= i < |PROFILE_IDS| ==>
              ProfileFor(Example(), PROFILE_IDS[i]).Some?
              && AssessmentFor(Example(), FIRST, PROFILE_IDS[i]) == Some(Supports(PROFILE_IDS[i]))
    ensures DocumentFor(Example(), PROJECT_POLICY) == Some(Example().documents[0])
    ensures SurfaceFor(Example(), "x") == Some(Example().surfaces[0])
  {
    hide Nonblank, IsSpace, RequirementIdAt, FindBy;
    ExampleIds();
    var l := Example();
    FindByIs(RequirementId, l.requirements, FIRST);
    assert l.requirements[0].id == FIRST by { assert RequirementIdAt(0) == FIRST by { FirstId(); } }
    assert l.requirements[0] in l.requirements;
    forall i | 0 <= i < |PROFILE_IDS|
      ensures ProfileFor(l, PROFILE_IDS[i]).Some?
              && AssessmentFor(l, FIRST, PROFILE_IDS[i]) == Some(Supports(PROFILE_IDS[i]))
    {
      FindByIs(ProfileId, l.profiles, PROFILE_IDS[i]);
      assert l.profiles[i] in l.profiles;
      AssessedFor(i);
    }
    FindByIs(DocumentId, l.documents, PROJECT_POLICY);
    assert l.documents[0] in l.documents;
    FindByIs(SurfaceId, l.surfaces, "x");
    assert l.surfaces[0] in l.surfaces;
  }

  lemma FirstId()
    ensures RequirementIdAt(0) == FIRST
  {
  }

  lemma AssessedFor(i: nat)
    requires i < |PROFILE_IDS|
    ensures FindBy(ProfileOf, RequirementNamed(FIRST).assessments, PROFILE_IDS[i]) == Some(Supports(PROFILE_IDS[i]))
  {
    hide FindBy;
    var all := Map(Supports, PROFILE_IDS);
    ProfileIdsDiffer();
    assert FIRST[0] == 'A';
    assert RequirementNamed(FIRST).assessments == all;
    FindByIs(ProfileOf, all, PROFILE_IDS[i]);
    assert all[i] in all && ProfileOf(all[i]) == PROFILE_IDS[i];
  }

  lemma ExampleRequirement(id: string)
    ensures RequirementOk(Example(), OneFile(), RequirementNamed(id))
  {
    hide Nonblank, Example, FindBy, FileOk, ArtifactsOk, ExtensionOk;
    var l, r := Example(), RequirementNamed(id);
    Letters();
    FileIsThere();
    Lookups();
    PolicyRevision();
    assert AssessmentsOk(l, r) by {
      ProfileIdsDiffer();
      forall i | 0 <= i < |r.assessments| ensures AssessmentOk(l, r, r.assessments[i]) {
        assert EXTENSION_PROFILE == PROFILE_IDS[7];
      }
    }
    ExampleExtension(id);
  }

  lemma ExampleExtension(id: string)
    ensures ExtensionOk(RequirementNamed(id))
  {
    if IsExtension(id) {
      var all := RequirementNamed(id).assessments;
      assert ProfileOf(all[0]) in IdSet(ProfileOf, all);
      assert IdSet(ProfileOf, all) == {EXTENSION_PROFILE};
    }
  }

  lemma PolicyRevision()
    ensures Example().documents[0].revision == "x"
  {
  }

  lemma ExampleAbout()
    ensures AboutOk(Example(), [FIRST]) && PackagesOk(["x"])
  {
    hide Nonblank, Example, RequirementFor;
    Lookups();
    Letters();
  }

  lemma ExampleRecords()
    ensures RecordsOk(Example(), OneFile())
  {
    hide Nonblank, RequirementOk, RequirementNamed, PackagesOk, AboutOk, FileOk, RequirementIdAt, FindingIdAt,
         FollowUpIdAt;
    var l := Example();
    Letters();
    FileIsThere();
    ExampleAbout();
    forall i | 0 <= i < |l.requirements| ensures RequirementOk(l, OneFile(), l.requirements[i]) {
      ExampleRequirement(RequirementIdAt(i));
    }
  }

  lemma ExampleClaim(i: nat)
    requires i < |PROFILE_IDS|
    ensures ClaimOk(Example(), ClaimAbout(PROFILE_IDS[i]))
  {
    hide Nonblank, Example, FindBy, ArtifactsOk;
    Letters();
    Lookups();
    assert Example().surfaces[0].profiles == PROFILE_IDS by { SurfaceProfiles(); }
  }

  lemma SurfaceProfiles()
    ensures Example().surfaces == [Surface("x", SPEC, PROFILE_IDS, ProfileIds(), [])]
  {
  }

  lemma ExamplePublic(normal: string -> string)
    ensures PublicOk(Example(), OneFile(), normal)
  {
    hide Nonblank, FileOk, ClaimOk, ProfileFor, ProfileNamed, RequirementNamed, FindingNamed, FollowUpNamed;
    var l := Example();
    FileIsThere();
    Lookups();
    forall i | 0 <= i < |l.claims| ensures ClaimOk(l, l.claims[i]) { ExampleClaim(i); }
    forall i | 0 <= i < |PROFILE_IDS| ensures Claimed(l, PROFILE_IDS[i]) { assert l.claims[i] in l.claims; }
  }

  lemma SpecIsLive()
    ensures IsSpec(SPEC)
  {
    var a, b, c := "crates", "rusty-modbus-conformance", "tests";
    assert "spec_" + "x.rs" == "spec_x.rs" && "x.rs"[1..] == ".rs";
    assert Join(a, Join(b, Join(c, "spec_"))) + "x.rs" == Join(a, Join(b, Join(c, "spec_" + "x.rs")));
    assert SPEC == SPEC_PREFIX + "x.rs";
    assert SPEC[|SPEC_PREFIX|..] == "x.rs" && SPEC[|SPEC| - 3..] == "x.rs"[1..];
  }

  lemma ExampleInventory()
    ensures InventoryOk(Example(), OneFile()) && |Live(OneFile())| == 1
  {
    hide RequirementNamed, IsSpec;
    assert TestPath(Example().tests[0]) == SPEC;
    assert TestPath(Example().tests[0]) in IdSet(TestPath, Example().tests);
    SpecIsLive();
    assert Live(OneFile()) == {SPEC};
  }

  lemma ExampleIsAccepted(normal: string -> string)
    ensures LedgerOk(Example(), OneFile(), normal)
  {
    hide IdsOk, RecordsOk, PublicOk, InventoryOk, Nonblank, RequirementNamed, Live;
    ExampleIds();
    ExampleRecords();
    ExamplePublic(normal);
    Letters();
    ExampleInventory();
  }

  // A requirement may list a test that maps to no requirement.
  lemma ListingIsOneWay(normal: string -> string)
    ensures exists l :: LedgerOk(l, OneFile(), normal) && !Reciprocal(l)
  {
    hide LedgerOk, Reciprocal;
    ExampleIsAccepted(normal);
    var l := Example();
    assert l.tests[0] in l.tests && l.requirements[0].testIds == [];
    ExtraListingIsAccepted(l, OneFile(), normal, 0, l.tests[0]);
  }
}
