/** The life of an artifact run: commands and errors are recorded, then one finalisation writes the
    provenance and summary. Command execution, clocks and the report builder are parameters. */
module ArtifactRun {
  import opened Sorting
  import opened Folds
  import opened Contract
  import opened Reports

  // ---- Command IDs ----

  predicate IsDigit(c: char) { '0' <= c <= '9' }

  function DigitChar(d: nat): (c: char)
    requires d < 10
    ensures IsDigit(c) && c as int - '0' as int == d
  {
    ('0' as int + d) as char
  }

  function Decimal(n: nat): (s: string)
    ensures |s| >= 1 && forall i :: 0 <= i < |s| ==> IsDigit(s[i])
  {
    if n < 10 then [DigitChar(n)] else Decimal(n / 10) + [DigitChar(n % 10)]
  }

  function Padded(n: nat): (s: string)
    ensures |s| >= 3 && forall i :: 0 <= i < |s| ==> IsDigit(s[i])
  {
    if n < 10 then "00" + Decimal(n) else if n < 100 then (assert |Decimal(n)| >= 2; "0" + Decimal(n))
    else (assert |Decimal(n / 10)| >= 2; Decimal(n))
  }

  function DigitValue(c: char): nat { if IsDigit(c) then c as int - '0' as int else 0 }

  function ValueOf(s: string): nat {
    if s == "" then 0 else 10 * ValueOf(s[..|s| - 1]) + DigitValue(s[|s| - 1])
  }

  lemma {:induction false} ValueOfDecimal(n: nat)
    ensures ValueOf(Decimal(n)) == n
  {
    if n >= 10 {
      ValueOfDecimal(n / 10);
      assert Decimal(n)[..|Decimal(n)| - 1] == Decimal(n / 10);
    } else {
      assert Decimal(n)[..0] == "";
    }
  }

  lemma {:induction false} LeadingZero(s: string)
    ensures ValueOf("0" + s) == ValueOf(s)
  {
    if s == "" {
      assert ("0" + s)[..0] == "";
    } else {
      LeadingZero(s[..|s| - 1]);
      assert ("0" + s)[..|s|] == "0" + s[..|s| - 1];
    }
  }

  lemma ValueOfPadded(n: nat)
    ensures ValueOf(Padded(n)) == n
  {
    ValueOfDecimal(n);
    LeadingZero(Decimal(n));
    LeadingZero("0" + Decimal(n));
    assert "00" + Decimal(n) == "0" + ("0" + Decimal(n));
  }

  lemma {:induction false} DecimalLength(n: nat)
    ensures |Decimal(n)| <= 3 <==> n < 1000
  {
    if n >= 10 {
      assert |Decimal(n)| == |Decimal(n / 10)| + 1;
      if n / 10 >= 10 {
        assert |Decimal(n / 10)| == |Decimal(n / 100)| + 1 by { assert n / 10 / 10 == n / 100; }
        if n / 100 >= 10 { assert |Decimal(n / 100)| >= 2; }
      }
    }
  }

  predicate SlugChar(c: char) { LowerOrDigit(c) || c == '-' }

  // Runs of other characters become one dash.
  function Dashed(s: string): (r: string)
    ensures forall i :: 0 <= i < |r| ==> SlugChar(r[i])
  {
    if s == "" then ""
    else
      var rest := Dashed(s[1..]);
      if LowerOrDigit(s[0]) then [s[0]] + rest
      else if |s| > 1 && !LowerOrDigit(s[1]) then rest
      else "-" + rest
  }

  function StripLeft(s: string): (r: string)
    ensures (forall i :: 0 <= i < |s| ==> SlugChar(s[i])) ==> forall i :: 0 <= i < |r| ==> SlugChar(r[i])
  {
    if s == "" || s[0] != '-' then s else StripLeft(s[1..])
  }

  function StripRight(s: string): (r: string)
    ensures (forall i :: 0 <= i < |s| ==> SlugChar(s[i])) ==> forall i :: 0 <= i < |r| ==> SlugChar(r[i])
  {
    if s == "" || s[|s| - 1] != '-' then s else StripRight(s[..|s| - 1])
  }

  // `folded` is the case-folded label.
  function Slug(folded: string): (r: string)
    ensures 1 <= |r| <= 48 && forall i :: 0 <= i < |r| ==> SlugChar(r[i])
  {
    var slug := StripRight(StripLeft(Dashed(folded)));
    if slug == "" then "command" else if |slug| > 48 then slug[..48] else slug
  }

  function CommandId(count: nat, folded: string): string { Padded(count) + "-" + Slug(folded) }

  function BeforeDash(s: string): string {
    if s == "" || s[0] == '-' then "" else [s[0]] + BeforeDash(s[1..])
  }

  lemma {:induction false} BeforeDashOf(digits: string, rest: string)
    requires forall i :: 0 <= i < |digits| ==> IsDigit(digits[i])
    ensures BeforeDash(digits + "-" + rest) == digits
  {
    if digits != "" {
      BeforeDashOf(digits[1..], rest);
      assert (digits + "-" + rest)[1..] == digits[1..] + "-" + rest;
    }
  }

  // The number can be read back from the ID, so two counts never share one.
  lemma CommandIdNumber(n: nat, a: string)
    ensures ValueOf(BeforeDash(CommandId(n, a))) == n
  {
    hide Padded, Slug;
    BeforeDashOf(Padded(n), Slug(a));
    ValueOfPadded(n);
  }

  lemma DashAfterNumber(n: nat, a: string)
    ensures |CommandId(n, a)| > |Padded(n)| && CommandId(n, a)[|Padded(n)|] == '-'
    ensures forall i :: 0 <= i < |Padded(n)| ==> IsDigit(CommandId(n, a)[i])
  {
  }

  // An ID has the three-digit form that reports cite exactly up to the 999th command.
  lemma CommandIdForm(n: nat, a: string)
    ensures IsCommandId(CommandId(n, a)) <==> n < 1000
  {
    hide Slug;
    var id := CommandId(n, a);
    DashAfterNumber(n, a);
    DecimalLength(n);
    if n < 1000 {
      assert |Padded(n)| == 3;
      forall i | 4 <= i < |id| ensures SlugChar(id[i]) { assert id[i] == Slug(a)[i - 4]; }
    } else {
      assert |Padded(n)| > 3 && IsDigit(id[3]);
    }
  }

  // ---- Run state ----

  datatype Command = Command(id: string, title: string, folded: string, passed: bool)

  datatype Provenance = Provenance(
    target: string, mode: string, runId: string, ended: bool, dirty: bool, dirtyOverride: bool, eligible: bool)

  datatype RunSummary = RunSummary(
    target: string, mode: string, runId: string, status: string, valid: bool, reasons: seq<string>, commandCount: nat,
    commands: seq<string>)

  // What has been written: the two documents, and whether the inventory was.
  datatype Files = Files(provenance: Provenance, summary: Option<RunSummary>, inventory: bool)

  datatype State = State(
    target: string, mode: string, runId: string, dirty: bool, allowDirty: bool, commands: seq<Command>,
    errors: seq<string>,
    measured: bool, provenance: Provenance, files: Files, finalized: bool)

  const DIRTY := "dirty non-ignored worktree"

  function Start(target: string, mode: string, runId: string, dirty: bool, allowDirty: bool): State {
    var p := Provenance(target, mode, runId, false, dirty, allowDirty, !dirty);
    State(target, mode, runId, dirty, allowDirty, [], [], false, p, Files(p, None, false), false)
  }

  function RecordCommand(s: State, title: string, folded: string, passed: bool): State {
    s.(commands := s.commands + [Command(CommandId(|s.commands| + 1, folded), title, folded, passed)])
  }

  function AddError(s: State, message: string): State {
    if message in s.errors then s else s.(errors := s.errors + [message])
  }

  // Stress samples and Criterion results are both present.
  function Measure(s: State): State { s.(measured := true) }

  function IdOf(c: Command): string { c.id }

  function SummaryOf(s: State): RunSummary {
    RunSummary(s.target, s.mode, s.runId,
            if s.errors != [] then "failed" else if s.dirty then "invalid" else "passed",
            !s.dirty && s.errors == [], (if s.dirty then [DIRTY] else []) + s.errors, |s.commands|,
            Map(IdOf, s.commands))
  }

  predicate ReportsOnFinish(s: State) { SummaryOf(s).status == "passed" && s.mode in MODES && s.measured }

  // `report` is the failure of the report step, if it fails.
  function Finalize(s: State, report: Option<string>): State {
    if s.finalized then s
    else
      var p := s.provenance.(ended := true, eligible := !s.dirty && s.errors == []);
      var summary := SummaryOf(s);
      if ReportsOnFinish(s) && report.Some? then
        var s' := AddError(s, report.value);
        var p' := p.(eligible := false);
        s'.(provenance := p', finalized := true,
            files := Files(p', Some(summary.(status := "failed", valid := false, reasons := s'.errors)), true))
      else s.(provenance := p, finalized := true, files := Files(p, Some(summary), true))
  }

  // ---- Whole runs ----

  datatype Step = Ran(title: string, folded: string, passed: bool) | Failed(message: string) | Measured

  function Apply(s: State, step: Step): State {
    match step
    case Ran(title, folded, passed) => RecordCommand(s, title, folded, passed)
    case Failed(message) => AddError(s, message)
    case Measured => Measure(s)
  }

  function Execute(s: State, steps: seq<Step>): State
    decreases |steps|
  {
    if steps == [] then s else Execute(Apply(s, steps[0]), steps[1..])
  }

  // What every step keeps.
  ghost predicate Inv(s: State) {
    && (s.dirty ==> s.allowDirty) && NoRepeats(s.errors) && !s.finalized
    && s.provenance == Provenance(s.target, s.mode, s.runId, false, s.dirty, s.allowDirty, !s.dirty)
    && forall i :: 0 <= i < |s.commands| ==> s.commands[i].id == CommandId(i + 1, s.commands[i].folded)
  }

  ghost predicate SameRun(s: State, t: State) {
    s.dirty == t.dirty && s.mode == t.mode && s.target == t.target && s.runId == t.runId
  }

  lemma ApplyKeepsInv(s: State, step: Step)
    requires Inv(s)
    ensures Inv(Apply(s, step)) && SameRun(s, Apply(s, step))
  {
    hide CommandId;
  }

  lemma {:induction false} ExecuteKeepsInv(s: State, steps: seq<Step>)
    requires Inv(s)
    ensures Inv(Execute(s, steps)) && SameRun(s, Execute(s, steps))
    decreases |steps|
  {
    hide Inv, Apply;
    if steps != [] {
      ApplyKeepsInv(s, steps[0]);
      ExecuteKeepsInv(Apply(s, steps[0]), steps[1..]);
    }
  }

  // Commands are numbered from one in the order they ran, so their IDs differ.
  lemma IdsDiffer(s: State)
    requires Inv(s)
    ensures NoRepeats(Map(IdOf, s.commands))
  {
    hide CommandId, ValueOf, BeforeDash;
    var ids := Map(IdOf, s.commands);
    forall i, j | 0 <= i < j < |ids| ensures ids[i] != ids[j] {
      CommandIdNumber(i + 1, s.commands[i].folded);
      CommandIdNumber(j + 1, s.commands[j].folded);
    }
  }

  // ---- The validator's cross-document checks ----

  predicate Coherent(p: Provenance, s: RunSummary) {
    && p.target == s.target && p.runId == s.runId && p.mode == s.mode
    && s.status in ["passed", "failed", "invalid"]
    && (p.dirty ==> p.dirtyOverride) && p.eligible == s.valid && s.valid == (s.status == "passed")
    && (s.valid ==> s.reasons == []) && (!s.valid ==> s.reasons != [])
    && (s.status == "invalid" ==> p.dirty)
  }

  // Whatever happens before it, finalising writes coherent documents; the run counts as a baseline exactly
  // when it is clean, error-free and its report step did not fail; its commands are listed in the order
  // they ran, under distinct IDs; and finalising again changes nothing.
  lemma FinalizedRunIsCoherent(target: string, mode: string, runId: string, dirty: bool, allowDirty: bool,
                               steps: seq<Step>, report: Option<string>, again: Option<string>)
    requires dirty ==> allowDirty
    ensures var s := Execute(Start(target, mode, runId, dirty, allowDirty), steps);
            var t := Finalize(s, report);
            && t.files.inventory && t.files.summary.Some? && t.files.provenance == t.provenance && t.provenance.ended
            && Coherent(t.files.provenance, t.files.summary.value)
            && (t.files.summary.value.valid <==> !dirty && s.errors == [] && !(ReportsOnFinish(s) && report.Some?))
            && t.files.summary.value.status
               == (if t.errors != [] then "failed" else if dirty then "invalid" else "passed")
            && t.files.summary.value.reasons == (if dirty then ["dirty non-ignored worktree"] else []) + t.errors
            && t.files.summary.value.commands == Map(IdOf, s.commands)
            && t.files.summary.value.commandCount == |s.commands|
            && NoRepeats(t.files.summary.value.commands)
            && Finalize(t, again) == t
  {
    hide Execute, Inv;
    var start := Start(target, mode, runId, dirty, allowDirty);
    assert Inv(start) by { StartsWell(target, mode, runId, dirty, allowDirty); }
    ExecuteKeepsInv(start, steps);
    IdsDiffer(Execute(start, steps));
    FinalizeIsCoherent(Execute(start, steps), report);
  }

  lemma StartsWell(target: string, mode: string, runId: string, dirty: bool, allowDirty: bool)
    requires dirty ==> allowDirty
    ensures Inv(Start(target, mode, runId, dirty, allowDirty))
  {
  }

  lemma FinalizeIsCoherent(s: State, report: Option<string>)
    requires Inv(s)
    ensures var t := Finalize(s, report);
            && t.finalized && t.files.inventory && t.files.summary.Some? && t.files.provenance == t.provenance
            && t.provenance.ended && Coherent(t.files.provenance, t.files.summary.value)
            && (t.files.summary.value.valid <==> !s.dirty && s.errors == [] && !(ReportsOnFinish(s) && report.Some?))
            && t.files.summary.value.status
               == (if t.errors != [] then "failed" else if s.dirty then "invalid" else "passed")
            && t.files.summary.value.reasons == (if s.dirty then ["dirty non-ignored worktree"] else []) + t.errors
            && t.files.summary.value.commands == Map(IdOf, s.commands)
            && t.files.summary.value.commandCount == |s.commands|
  {
  }

  // The failure raised by the report step is already recorded: reporting it once more adds nothing.
  lemma ReportFailureIsRecordedOnce(s: State, message: string)
    requires Inv(s)
    ensures var t := Finalize(s, Some(message)); ReportsOnFinish(s) ==>
              t.errors == [message] && AddError(t, message) == t
  {
  }

  // ---- The object ----

  class Run {
    const target: string
    const mode: string
    const runId: string
    const dirty: bool
    const allowDirty: bool
    var commandCount: nat
    var commands: seq<Command>
    var errors: seq<string>
    var measured: bool
    var provenance: Provenance
    var files: Files
    var finalized: bool

    ghost function View(): State
      reads this
    {
      State(target, mode, runId, dirty, allowDirty, commands, errors, measured, provenance, files, finalized)
    }

    ghost predicate Valid()
      reads this
    {
      && commandCount == |commands| && (!finalized ==> Inv(View()))
      && (finalized ==> && files.inventory && files.summary.Some? && files.provenance.ended
                        && Coherent(files.provenance, files.summary.value) && NoRepeats(files.summary.value.commands))
    }

    // Creates the run directory and writes the first provenance; a dirty worktree was allowed explicitly.
    constructor (target: string, mode: string, runId: string, dirty: bool, allowDirty: bool)
      requires dirty ==> allowDirty
      ensures Valid() && View() == Start(target, mode, runId, dirty, allowDirty)
    {
      this.target, this.mode, this.runId, this.dirty, this.allowDirty := target, mode, runId, dirty, allowDirty;
      commandCount, commands, errors, measured, finalized := 0, [], [], false, false;
      var p := Provenance(target, mode, runId, false, dirty, allowDirty, !dirty);
      provenance, files := p, Files(p, None, false);
    }

    // Records a finished command; a required one that did not pass is reported back.
    method RunCommand(title: string, folded: string, exitCode: Option<int>, fault: Option<string>, required: bool)
      returns (failed: bool)
      requires Valid()
      modifies this
      ensures Valid() && files == old(files)
      ensures View() == RecordCommand(old(View()), title, folded, exitCode == Some(0) && fault.None?)
      ensures failed <==> required && !(exitCode == Some(0) && fault.None?)
    {
      hide CommandId, Coherent;
      commandCount := commandCount + 1;
      var passed := exitCode == Some(0) && fault.None?;
      commands := commands + [Command(CommandId(commandCount, folded), title, folded, passed)];
      failed := required && !passed;
    }

    method NoteError(message: string)
      modifies this
      ensures View() == AddError(old(View()), message) && commandCount == old(commandCount)
      ensures old(Valid()) ==> Valid()
    {
      hide CommandId, Coherent;
      if message !in errors { errors := errors + [message]; }
    }

    // Writes the documents once; returns the failure it raises, if the report step failed. The run counts as
    // a baseline exactly when it is clean, error-free and its report step did not fail.
    method Finish(report: Option<string>) returns (raised: Option<string>)
      requires Valid()
      modifies this
      ensures Valid() && finalized && View() == Finalize(old(View()), report)
      ensures old(finalized) ==> View() == old(View())
      ensures !old(finalized) ==> && files.summary.value.commands == Map(IdOf, old(commands))
                                  && (files.summary.value.valid <==> !dirty && old(errors) == [] && raised.None?)
      ensures raised == if !old(finalized) && ReportsOnFinish(old(View())) then report else None
    {
      hide CommandId, Coherent, Inv;
      raised := None;
      if finalized { return; }
      FinalizeIsCoherent(View(), report);
      IdsDiffer(View());
      provenance := provenance.(ended := true, eligible := !dirty && errors == []);
      var status := if errors != [] then "failed" else if dirty then "invalid" else "passed";
      var summary := RunSummary(target, mode, runId, status, !dirty && errors == [],
                             (if dirty then [DIRTY] else []) + errors, |commands|, Map(IdOf, commands));
      if status == "passed" && mode in MODES && measured && report.Some? {
        NoteError(report.value);
        provenance := provenance.(eligible := false);
        summary := summary.(status := "failed", valid := false, reasons := errors);
        raised := report;
      }
      files := Files(provenance, Some(summary), true);
      finalized := true;
    }
  }
}
