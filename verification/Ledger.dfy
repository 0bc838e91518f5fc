/** The conformance ledger: assessments of requirements per profile, claims about profiles, and public
    text. Public text arrives as blocks, already split and searched for formal wording and markers;
    `normal` collapses the white space of a text. The repository arrives as its files. */
module Ledger {
  import opened Sorting
  import opened Folds
  import opened Paths

  // ---- Records; `texts` holds the fields that only have to be filled in ----

  datatype Level = NotImplemented | Implemented | InternallyVerified | Interoperable | FormallyCertified | InvalidLevel
  datatype Disposition = Supported | Unsupported | Deviation | InvalidDisposition
  datatype ClaimKind = Capability | Limitation | InvalidKind
  datatype Classification = Normative | ProjectProfile | Extension | InvalidClassification
  datatype Strength = Must | Should | May | ProjectStrength | InvalidStrength
  datatype Category = NoCategory | ProjectOnly | Supporting | InvalidCategory

  datatype Baseline = Baseline(texts: seq<string>, requirementCount: int, testCount: int)

  datatype Document = Document(id: string, texts: seq<string>, revision: string, kind: string, url: string,
                               path: string)

  datatype Profile = Profile(id: string, texts: seq<string>, anchor: string, transport: string)

  datatype EvidenceArtifact = EvidenceArtifact(
    reference: string, version: string, result: string, scope: string, authorized: bool)

  datatype Assessment = Assessment(
    profile: string, disposition: Disposition, evidence: Level, reason: string, independent: seq<EvidenceArtifact>,
    formal: seq<EvidenceArtifact>)

  datatype Source = Source(document: string, revision: string, locator: string)
  datatype Reference = Reference(path: string, symbol: Option<string>)
  datatype Gap = Gap(texts: seq<string>, profiles: Option<seq<string>>)

  datatype Requirement = Requirement(
    id: string, texts: seq<string>, classification: Classification, strength: Strength, source: Source,
    implementation: seq<Reference>, testIds: seq<string>, gap: Option<Gap>, assessments: seq<Assessment>)

  datatype Test = Test(id: string, path: string, requirementIds: seq<string>, category: Category)

  // `formalWording` tells whether the claim's text uses formal wording.
  datatype Claim = Claim(
    id: string, profile: string, kind: ClaimKind, text: string, formalWording: bool, minimum: Level,
    requirementIds: seq<string>, surfaceIds: seq<string>, formal: seq<EvidenceArtifact>)

  // A block of public text with formal wording or a claim marker; `unbound` is its text without the marker.
  datatype Block = Block(text: string, unbound: string, formalWording: bool, mentions: nat, bindings: seq<string>)

  // `links` are the profiles whose anchors the file links to.
  datatype Surface = Surface(id: string, path: string, profiles: seq<string>, links: set<string>, blocks: seq<Block>)

  datatype Finding = Finding(
    id: string, texts: seq<string>, priority: string, status: string, reason: string, packages: seq<string>,
    requirementIds: seq<string>)

  datatype FollowUp = FollowUp(id: string, texts: seq<string>, status: string, reason: string,
                               requirementIds: seq<string>)

  datatype Ledger = Ledger(
    schema: int, baseline: Baseline, notice: string, documents: seq<Document>, profiles: seq<Profile>,
    requirements: seq<Requirement>, tests: seq<Test>, claims: seq<Claim>, surfaces: seq<Surface>,
    findings: seq<Finding>,
    followUps: seq<FollowUp>)

  // The regular files of the repository.
  datatype Tree = Tree(files: set<string>)

  function DocumentId(d: Document): string { d.id }
  function ProfileId(p: Profile): string { p.id }
  function RequirementId(r: Requirement): string { r.id }
  function TestId(t: Test): string { t.id }
  function TestPath(t: Test): string { t.path }
  function ClaimId(c: Claim): string { c.id }
  function SurfaceId(s: Surface): string { s.id }
  function FindingId(f: Finding): string { f.id }
  function FollowUpId(f: FollowUp): string { f.id }
  function ProfileOf(a: Assessment): string { a.profile }

  // ---- Fixed IDs ----

  const EXTENSION_PROFILE := "rtu-over-tcp-extension"
  const PROJECT_POLICY := "rusty-modbus-project-policy"

  const PROFILE_IDS: seq<string> := [
    "tcp-client", "tcp-server", "physical-rtu-client", "physical-rtu-responder", "gateway", "modbus-security",
    "simulator",
    EXTENSION_PROFILE]

  const REQUIREMENTS := 70
  const FINDINGS := 29
  const FOLLOW_UPS := 4

  function Digit(n: nat): char
    requires n < 10
  {
    ('0' as int + n) as char
  }

  // A name and a number below one hundred in three digits.
  function Numbered(name: string, n: nat): string
    requires n < 100
  {
    name + ['-', '0', Digit(n / 10), Digit(n % 10)]
  }

  // The group and number of a requirement ID.
  function Place(i: nat): (string, nat)
    requires i < REQUIREMENTS
  {
    if i < 22 then ("APP", i + 1)
    else if i < 36 then ("TCP", i - 21)
    else if i < 48 then ("RTU", i - 35)
    else if i < 52 then ("EXT", i - 47)
    else if i < 62 then ("SEC", i - 51)
    else ("CONF", i - 61)
  }

  function RequirementIdAt(i: nat): string
    requires i < REQUIREMENTS
  {
    Numbered(Place(i).0, Place(i).1)
  }

  function FindingIdAt(i: nat): string
    requires i < FINDINGS
  {
    Numbered("F", i + 1)
  }

  function FollowUpIdAt(i: nat): string
    requires i < FOLLOW_UPS
  {
    "ISSUE-9" + [Digit(i)]
  }

  function IdSet<T>(key: T -> string, xs: seq<T>): set<string> { set i | 0 <= i < |xs| :: key(xs[i]) }
  function ProfileIds(): set<string> { set i | 0 <= i < |PROFILE_IDS| :: PROFILE_IDS[i] }
  function RequirementIds(): set<string> { set i | 0 <= i < REQUIREMENTS :: RequirementIdAt(i) }
  function FindingIds(): set<string> { set i | 0 <= i < FINDINGS :: FindingIdAt(i) }
  function FollowUpIds(): set<string> { set i | 0 <= i < FOLLOW_UPS :: FollowUpIdAt(i) }

  predicate IsSpace(c: char) {
    || c == ' ' || '\t' <= c <= '\r' || '\U{1C}' <= c <= '\U{1F}' || '\U{2000}' <= c <= '\U{200A}'
    || c in ['\U{85}', '\U{A0}', '\U{1680}', '\U{2028}', '\U{2029}', '\U{202F}', '\U{205F}', '\U{3000}']
  }

  predicate Nonblank(s: string) { exists i | 0 <= i < |s| :: !IsSpace(s[i]) }

  function Rank(l: Level): nat {
    match l
    case NotImplemented => 0
    case Implemented => 1
    case InternallyVerified => 2
    case Interoperable => 3
    case FormallyCertified => 4
    case InvalidLevel => 5
  }

  predicate Filled(texts: seq<string>) { forall i | 0 <= i < |texts| :: Nonblank(texts[i]) }

  // A normal relative path of a file.
  predicate FileOk(tree: Tree, path: string) {
    Nonblank(path) && NoPartIn(path, 0, ["", ".", ".."]) && path in tree.files
  }

  const SPEC_PREFIX := Join("crates", Join("rusty-modbus-conformance", Join("tests", "spec_")))

  // What the pattern for conformance tests matches.
  predicate IsSpec(path: string) {
    && SPEC_PREFIX <= path && '/' !in path[|SPEC_PREFIX|..]
    && |path| >= |SPEC_PREFIX| + 3 && path[|path| - 3..] == ".rs"
  }

  // The live tests.
  function Live(tree: Tree): set<string> { set path | path in tree.files && IsSpec(path) }

  function DocumentFor(l: Ledger, id: string): Option<Document> { FindBy(DocumentId, l.documents, id) }
  function ProfileFor(l: Ledger, id: string): Option<Profile> { FindBy(ProfileId, l.profiles, id) }
  function TestFor(l: Ledger, id: string): Option<Test> { FindBy(TestId, l.tests, id) }
  function RequirementFor(l: Ledger, id: string): Option<Requirement> { FindBy(RequirementId, l.requirements, id) }
  function ClaimFor(l: Ledger, id: string): Option<Claim> { FindBy(ClaimId, l.claims, id) }
  function SurfaceFor(l: Ledger, id: string): Option<Surface> { FindBy(SurfaceId, l.surfaces, id) }

  // The assessment of a requirement for a profile.
  function AssessmentFor(l: Ledger, requirementId: string, profile: string): Option<Assessment> {
    match RequirementFor(l, requirementId)
    case Some(r) => FindBy(ProfileOf, r.assessments, profile)
    case None => None
  }

  // ---- What is accepted ----

  predicate HeaderOk(l: Ledger, tree: Tree) {
    && l.schema == 1 && Filled(l.baseline.texts) && l.baseline.requirementCount == REQUIREMENTS
    && l.baseline.testCount == |Live(tree)| && Nonblank(l.notice)
  }

  // IDs are filled in and distinct.
  ghost predicate Keyed<T>(key: T -> string, xs: seq<T>) {
    DistinctKeys(key, xs) && forall i :: 0 <= i < |xs| ==> Nonblank(key(xs[i]))
  }

  ghost predicate IdsOk(l: Ledger) {
    && Keyed(DocumentId, l.documents) && Keyed(ProfileId, l.profiles) && Keyed(RequirementId, l.requirements)
    && Keyed(TestId, l.tests) && Keyed(ClaimId, l.claims) && Keyed(SurfaceId, l.surfaces)
    && Keyed(FindingId, l.findings)
    && Keyed(FollowUpId, l.followUps)
    && IdSet(ProfileId, l.profiles) == ProfileIds() && IdSet(RequirementId, l.requirements) == RequirementIds()
    && IdSet(FindingId, l.findings) == FindingIds() && IdSet(FollowUpId, l.followUps) == FollowUpIds()
  }

  predicate DocumentOk(tree: Tree, d: Document) {
    && Filled(d.texts) && Nonblank(d.revision) && d.kind in ["normative", "test-specification", "project-policy"]
    && (Nonblank(d.url) || Nonblank(d.path)) && (Nonblank(d.path) ==> FileOk(tree, d.path))
  }

  predicate ProfileOk(p: Profile) {
    && Filled(p.texts) && p.anchor == "profile-" + p.id
    && p.transport in ["modbus-tcp", "physical-rtu", "gateway", "security", "simulator", "extension"]
    && (p.id == EXTENSION_PROFILE ==> p.transport == "extension")
  }

  predicate ArtifactOk(a: EvidenceArtifact, formal: bool) {
    Nonblank(a.reference) && Nonblank(a.version) && Nonblank(a.result) && Nonblank(a.scope) && (formal ==> a.authorized)
  }

  predicate ArtifactsOk(artifacts: seq<EvidenceArtifact>, formal: bool) {
    artifacts != [] && forall i | 0 <= i < |artifacts| :: ArtifactOk(artifacts[i], formal)
  }

  predicate AssessmentOk(l: Ledger, r: Requirement, a: Assessment) {
    && ProfileFor(l, a.profile).Some? && !a.disposition.InvalidDisposition? && !a.evidence.InvalidLevel?
    && (a.disposition.Unsupported? || a.disposition.Deviation? ==> Nonblank(a.reason))
    && (a.disposition.Supported? ==> a.evidence != NotImplemented)
    && (a.disposition.Unsupported? ==> a.evidence == NotImplemented)
    && (a.evidence != NotImplemented ==> r.implementation != [])
    && (a.evidence.Interoperable? || a.evidence.FormallyCertified? ==> ArtifactsOk(a.independent, false))
    && (a.evidence.FormallyCertified? ==> ArtifactsOk(a.formal, true))
  }

  predicate ProjectClass(r: Requirement) { r.classification.ProjectProfile? || r.classification.Extension? }

  // Project classifications have project strength and cite the project policy.
  predicate OriginOk(l: Ledger, r: Requirement) {
    && Filled(r.texts) && !r.classification.InvalidClassification? && !r.strength.InvalidStrength?
    && (ProjectClass(r) <==> r.strength == ProjectStrength)
    && (ProjectClass(r) ==> r.source.document == PROJECT_POLICY)
    && DocumentFor(l, r.source.document).Some? && Nonblank(r.source.revision) && Nonblank(r.source.locator)
    && r.source.revision == DocumentFor(l, r.source.document).value.revision
  }

  predicate ReferenceOk(tree: Tree, r: Reference) {
    FileOk(tree, r.path) && (r.symbol.Some? ==> Nonblank(r.symbol.value))
  }

  predicate GapOk(l: Ledger, g: Gap) {
    && Filled(g.texts)
    && (g.profiles.Some? ==> g.profiles.value != []
                             && forall i | 0 <= i < |g.profiles.value| :: ProfileFor(l, g.profiles.value[i]).Some?)
  }

  ghost predicate ListsOk(l: Ledger, r: Requirement) {
    && NoRepeats(r.testIds) && (forall i :: 0 <= i < |r.testIds| ==> TestFor(l, r.testIds[i]).Some?)
    && (r.testIds != [] || r.gap.Some?) && (r.gap.Some? ==> GapOk(l, r.gap.value))
  }

  ghost predicate AssessmentsOk(l: Ledger, r: Requirement) {
    && r.assessments != [] && DistinctKeys(ProfileOf, r.assessments)
    && forall i :: 0 <= i < |r.assessments| ==> AssessmentOk(l, r, r.assessments[i])
  }

  predicate IsExtension(id: string) { "EXT-" <= id }

  predicate ExtensionOk(r: Requirement) {
    IsExtension(r.id) ==> && r.classification == Extension && r.strength == ProjectStrength
                          && IdSet(ProfileOf, r.assessments) == {EXTENSION_PROFILE}
  }

  ghost predicate RequirementOk(l: Ledger, tree: Tree, r: Requirement) {
    && OriginOk(l, r) && (forall i :: 0 <= i < |r.implementation| ==> ReferenceOk(tree, r.implementation[i]))
    && ListsOk(l, r) && AssessmentsOk(l, r) && ExtensionOk(r)
  }

  // A test's requirements exist and name the test.
  ghost predicate TestOk(l: Ledger, tree: Tree, t: Test) {
    && FileOk(tree, t.path) && NoRepeats(t.requirementIds) && !t.category.InvalidCategory?
    && (t.requirementIds != [] || t.category != NoCategory)
    && forall i :: 0 <= i < |t.requirementIds| ==>
         var r := RequirementFor(l, t.requirementIds[i]); r.Some? && t.id in r.value.testIds
  }

  // The tests are the live tests.
  ghost predicate InventoryOk(l: Ledger, tree: Tree) {
    DistinctKeys(TestPath, l.tests) && IdSet(TestPath, l.tests) == Live(tree)
  }

  // One requirement a claim rests on.
  predicate RestsOn(c: Claim, a: Assessment) {
    && (a.disposition.Unsupported? ==> c.kind == Limitation && c.minimum == NotImplemented)
    && (!c.minimum.InvalidLevel? && !a.evidence.InvalidLevel? ==> Rank(c.minimum) <= Rank(a.evidence))
  }

  ghost predicate ClaimOk(l: Ledger, c: Claim) {
    && ProfileFor(l, c.profile).Some? && !c.kind.InvalidKind? && Nonblank(c.text) && !c.minimum.InvalidLevel?
    && c.requirementIds != [] && NoRepeats(c.requirementIds)
    && (forall i :: 0 <= i < |c.requirementIds| ==>
          var a := AssessmentFor(l, c.requirementIds[i], c.profile); a.Some? && RestsOn(c, a.value))
    && c.surfaceIds != []
    && (forall i :: 0 <= i < |c.surfaceIds| ==>
          var s := SurfaceFor(l, c.surfaceIds[i]); s.Some? && c.profile in s.value.profiles)
    && (c.formalWording ==> c.minimum == FormallyCertified)
    && (c.minimum == FormallyCertified ==> ArtifactsOk(c.formal, true))
  }

  // Formal wording is the notice, or a tracked capability claim word for word.
  predicate BlockOk(l: Ledger, s: Surface, b: Block, normal: string -> string) {
    && b.mentions == |b.bindings| && |b.bindings| <= 1 && b.formalWording
    && if b.bindings == [] then normal(b.text) == normal(l.notice)
       else
         var c := ClaimFor(l, b.bindings[0]);
         && c.Some? && normal(b.unbound) == normal(c.value.text) && s.id in c.value.surfaceIds
         && c.value.profile in s.profiles && c.value.kind == Capability && c.value.minimum == FormallyCertified
  }

  ghost predicate SurfaceOk(l: Ledger, tree: Tree, s: Surface, normal: string -> string) {
    && FileOk(tree, s.path) && s.profiles != []
    && (forall i :: 0 <= i < |s.profiles| ==> ProfileFor(l, s.profiles[i]).Some? && s.profiles[i] in s.links)
    && forall i :: 0 <= i < |s.blocks| ==> BlockOk(l, s, s.blocks[i], normal)
  }

  predicate Claimed(l: Ledger, profile: string) { exists c | c in l.claims :: c.profile == profile }

  // The requirements a finding or follow-up is about.
  ghost predicate AboutOk(l: Ledger, requirementIds: seq<string>) {
    && requirementIds != [] && NoRepeats(requirementIds)
    && forall i :: 0 <= i < |requirementIds| ==> RequirementFor(l, requirementIds[i]).Some?
  }

  ghost predicate PackagesOk(packages: seq<string>) {
    packages != [] && Filled(packages) && NoRepeats(packages) && Sorted(StringLe, packages)
  }

  ghost predicate FindingOk(l: Ledger, f: Finding) {
    && Filled(f.texts) && f.priority in ["P0", "P1", "P2", "P3"] && f.status in ["open", "mitigated", "closed"]
    && (f.status != "open" ==> Nonblank(f.reason)) && PackagesOk(f.packages) && AboutOk(l, f.requirementIds)
  }

  ghost predicate FollowUpOk(l: Ledger, f: FollowUp) {
    && Filled(f.texts) && f.status in ["open", "closed"] && (f.status != "open" ==> Nonblank(f.reason))
    && AboutOk(l, f.requirementIds)
  }

  ghost predicate RecordsOk(l: Ledger, tree: Tree) {
    && (forall i :: 0 <= i < |l.documents| ==> DocumentOk(tree, l.documents[i]))
    && (forall i :: 0 <= i < |l.profiles| ==> ProfileOk(l.profiles[i]))
    && (forall i :: 0 <= i < |l.requirements| ==> RequirementOk(l, tree, l.requirements[i]))
    && (forall i :: 0 <= i < |l.tests| ==> TestOk(l, tree, l.tests[i]))
    && (forall i :: 0 <= i < |l.findings| ==> FindingOk(l, l.findings[i]))
    && (forall i :: 0 <= i < |l.followUps| ==> FollowUpOk(l, l.followUps[i]))
  }

  ghost predicate PublicOk(l: Ledger, tree: Tree, normal: string -> string) {
    && (forall i :: 0 <= i < |l.claims| ==> ClaimOk(l, l.claims[i]))
    && (forall i :: 0 <= i < |PROFILE_IDS| ==> Claimed(l, PROFILE_IDS[i]))
    && (forall i :: 0 <= i < |l.surfaces| ==> SurfaceOk(l, tree, l.surfaces[i], normal))
  }

  ghost predicate LedgerOk(l: Ledger, tree: Tree, normal: string -> string) {
    HeaderOk(l, tree) && IdsOk(l) && InventoryOk(l, tree) && RecordsOk(l, tree) && PublicOk(l, tree, normal)
  }
}
