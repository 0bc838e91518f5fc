/** The timestamp-driven RTU frame assembler as a transition system over byte and deadline events,
    and the segmentation of the byte trace it computes. The in-place class is in AssemblerObject. */
module Assembler {
  import opened Bytes
  import opened Crc

  const MAX_RTU_ADU_SIZE := 256
  const MIN_RTU_ADU_SIZE := 4
  const U64_MAX := 0xFFFF_FFFF_FFFF_FFFF

  type U64 = x: int | 0 <= x <= U64_MAX

  // Validated intervals: 0 < t1.5 < t3.5, both in nanoseconds.
  datatype Timing = Timing(t15: U64, t35: U64) {
    predicate Valid() { 0 < t15 < t35 }
  }

  datatype Option<T> = None | Some(value: T)
  datatype Deadline = Deadline(dueAt: U64, sequence: U64)
  datatype Reason = InterCharacterGap | Overlength | TooShort | CrcMismatch
  datatype Recovery = ToIdle | CandidateStarted
  datatype Outcome =
    | Progress | FrameReady(adu: seq<Byte>) | Discarded(reason: Reason) | Recovered(to: Recovery) | StaleDeadline
  datatype Error = TimestampRegression | DeadlineNotDue | TimestampOverflow | SequenceOverflow
  datatype Result = Ok(outcome: Outcome) | Err(error: Error)

  datatype Diagnostics = Diagnostics(
    bytesObserved: U64, validFrames: U64, interCharacterDiscards: U64, overlengthDiscards: U64,
    tooShortDiscards: U64, crcMismatchDiscards: U64, staleDeadlines: U64, earlyDeadlines: U64,
    timestampRegressions: U64, quarantineRecoveries: U64)

  function Bump(n: U64): U64 { if n == U64_MAX then n else n + 1 }

  datatype Phase =
    | Idle
    | Collecting(candidate: seq<Byte>, lastByte: U64, collecting: Deadline)
    | Quarantined(lastNoise: U64, recovering: Deadline)

  datatype State = State(phase: Phase, lastObserved: Option<U64>, sequence: U64, diagnostics: Diagnostics)

  const INITIAL := State(Idle, None, 0, Diagnostics(0, 0, 0, 0, 0, 0, 0, 0, 0, 0))

  function ActiveDeadline(phase: Phase): Option<Deadline> {
    match phase
    case Idle => None
    case Collecting(_, _, d) => Some(d)
    case Quarantined(_, d) => Some(d)
  }

  datatype Planned = Plan(deadline: Deadline) | NoPlan(error: Error)

  function PlanDeadline(t: Timing, sequence: U64, at: U64): Planned {
    if sequence == U64_MAX then NoPlan(SequenceOverflow)
    else if at + t.t35 > U64_MAX then NoPlan(TimestampOverflow)
    else Plan(Deadline(at + t.t35, sequence + 1))
  }

  // Closing a candidate at a t3.5 boundary: length first, then the CRC of the whole candidate.
  function Finish(candidate: seq<Byte>): Outcome {
    if |candidate| < MIN_RTU_ADU_SIZE then Discarded(TooShort)
    else if !Verify(candidate) then Discarded(CrcMismatch)
    else FrameReady(candidate)
  }

  function Count(d: Diagnostics, outcome: Outcome): Diagnostics {
    match outcome
    case FrameReady(_) => d.(validFrames := Bump(d.validFrames))
    case Discarded(InterCharacterGap) => d.(interCharacterDiscards := Bump(d.interCharacterDiscards))
    case Discarded(Overlength) => d.(overlengthDiscards := Bump(d.overlengthDiscards))
    case Discarded(TooShort) => d.(tooShortDiscards := Bump(d.tooShortDiscards))
    case Discarded(CrcMismatch) => d.(crcMismatchDiscards := Bump(d.crcMismatchDiscards))
    case Recovered(_) => d.(quarantineRecoveries := Bump(d.quarantineRecoveries))
    case StaleDeadline => d.(staleDeadlines := Bump(d.staleDeadlines))
    case Progress => d
  }

  // The phase after an accepted byte, and what the byte settled.
  function NextPhase(t: Timing, phase: Phase, at: U64, byte: Byte, deadline: Deadline): (r: (Phase, Outcome)) {
    match phase
    case Idle => (Collecting([byte], at, deadline), Progress)
    case Collecting(candidate, lastByte, _) =>
      var gap := at - lastByte;
      if gap >= t.t35 then (Collecting([byte], at, deadline), Finish(candidate))
      else if gap > t.t15 then (Quarantined(at, deadline), Discarded(InterCharacterGap))
      else if |candidate| == MAX_RTU_ADU_SIZE then (Quarantined(at, deadline), Discarded(Overlength))
      else (Collecting(candidate + [byte], at, deadline), Progress)
    case Quarantined(lastNoise, _) =>
      if at - lastNoise >= t.t35 then (Collecting([byte], at, deadline), Recovered(CandidateStarted))
      else (Quarantined(at, deadline), Progress)
  }

  predicate Regresses(s: State, at: U64) { s.lastObserved.Some? && at < s.lastObserved.value }

  function ObserveByte(t: Timing, s: State, at: U64, byte: Byte): (State, Result) {
    var seen := s.diagnostics.(bytesObserved := Bump(s.diagnostics.bytesObserved));
    if Regresses(s, at) then
      (s.(diagnostics := seen.(timestampRegressions := Bump(seen.timestampRegressions))), Err(TimestampRegression))
    else
      match PlanDeadline(t, s.sequence, at)
      case NoPlan(e) => (s.(diagnostics := seen), Err(e))
      case Plan(d) =>
        var (phase, outcome) := NextPhase(t, s.phase, at, byte, d);
        (State(phase, Some(at), d.sequence, Count(seen, outcome)), Ok(outcome))
  }

  function ObserveDeadline(s: State, deadline: Deadline, at: U64): (State, Result) {
    var d := s.diagnostics;
    if ActiveDeadline(s.phase) != Some(deadline) then
      (s.(diagnostics := Count(d, StaleDeadline)), Ok(StaleDeadline))
    else if Regresses(s, at) then
      (s.(diagnostics := d.(timestampRegressions := Bump(d.timestampRegressions))), Err(TimestampRegression))
    else if at < deadline.dueAt then
      (s.(diagnostics := d.(earlyDeadlines := Bump(d.earlyDeadlines))), Err(DeadlineNotDue))
    else
      var outcome := if s.phase.Collecting? then Finish(s.phase.candidate) else Recovered(ToIdle);
      (State(Idle, Some(at), s.sequence, Count(d, outcome)), Ok(outcome))
  }

  // ---- Runs ----

  datatype Event = ByteEvent(at: U64, byte: Byte) | DeadlineEvent(deadline: Deadline, observedAt: U64)
  datatype Stamped = Stamped(at: U64, byte: Byte)

  function Observe(t: Timing, s: State, e: Event): (State, Result) {
    match e
    case ByteEvent(at, byte) => ObserveByte(t, s, at, byte)
    case DeadlineEvent(d, at) => ObserveDeadline(s, d, at)
  }

  // The state, the accepted bytes and the emitted frames after a run of events.
  datatype Trace = Trace(state: State, accepted: seq<Stamped>, frames: seq<seq<Byte>>)

  function Run(t: Timing, events: seq<Event>): Trace {
    if events == [] then Trace(INITIAL, [], [])
    else
      var before, e := Run(t, events[..|events| - 1]), events[|events| - 1];
      var (state, result) := Observe(t, before.state, e);
      Trace(state,
            before.accepted + (if e.ByteEvent? && result.Ok? then [Stamped(e.at, e.byte)] else []),
            before.frames + (if result.Ok? && result.outcome.FrameReady? then [result.outcome.adu] else []))
  }

  // ---- The segmentation a run computes ----

  // The last byte stands apart from the one before it by at least t3.5, or is the first.
  predicate StartsBurst(t: Timing, bytes: seq<Stamped>)
    requires bytes != []
  {
    var n := |bytes| - 1;
    n == 0 || bytes[n].at - bytes[n - 1].at >= t.t35
  }

  // The longest suffix with no t3.5 silence inside.
  function LastBurst(t: Timing, bytes: seq<Stamped>): seq<Stamped> {
    if bytes == [] then []
    else
      var init, last := bytes[..|bytes| - 1], bytes[|bytes| - 1];
      if StartsBurst(t, bytes) then [last] else LastBurst(t, init) + [last]
  }

  // The bursts before the last one, in order.
  function EarlierBursts(t: Timing, bytes: seq<Stamped>): seq<seq<Stamped>> {
    if |bytes| <= 1 then []
    else
      var init := bytes[..|bytes| - 1];
      EarlierBursts(t, init) + (if StartsBurst(t, bytes) then [LastBurst(t, init)] else [])
  }

  function Data(burst: seq<Stamped>): (r: seq<Byte>)
    ensures |r| == |burst|
  {
    seq(|burst|, i requires 0 <= i < |burst| => burst[i].byte)
  }

  function GapAfter(burst: seq<Stamped>, i: nat): int
    requires i + 1 < |burst|
  {
    burst[i + 1].at - burst[i].at
  }

  // No gap over t1.5 and no byte beyond the largest frame.
  ghost predicate Clean(t: Timing, burst: seq<Stamped>) {
    && |burst| <= MAX_RTU_ADU_SIZE
    && forall i :: 0 <= i < |burst| - 1 ==> GapAfter(burst, i) <= t.t15
  }

  // The frame a closed burst yields: its bytes, when it is clean, has four bytes or more and verifies.
  ghost function FrameIn(t: Timing, burst: seq<Stamped>): seq<seq<Byte>> {
    if Clean(t, burst) && |burst| >= 4 && Verify(Data(burst)) then [Data(burst)] else []
  }

  ghost function FramesOf(t: Timing, bursts: seq<seq<Stamped>>): seq<seq<Byte>> {
    if bursts == [] then [] else FramesOf(t, bursts[..|bursts| - 1]) + FrameIn(t, bursts[|bursts| - 1])
  }

  // How a reachable state mirrors the accepted bytes: every burst but an open last one is settled,
  // and an open one is being collected exactly when it is clean so far.
  ghost predicate Mirrors(t: Timing, r: Trace) {
    var bytes, s := r.accepted, r.state;
    if bytes == [] then s.phase.Idle? && r.frames == []
    else
      var settled, open, last := FramesOf(t, EarlierBursts(t, bytes)), LastBurst(t, bytes), bytes[|bytes| - 1].at;
      && s.lastObserved.Some? && s.lastObserved.value >= last
      && match s.phase
         case Idle => r.frames == settled + FrameIn(t, open) && s.lastObserved.value >= last + t.t35
         case Collecting(candidate, lastByte, d) =>
           r.frames == settled && Clean(t, open) && candidate == Data(open) && lastByte == last
           && d.dueAt == last + t.t35 && d.sequence == s.sequence
         case Quarantined(lastNoise, d) =>
           r.frames == settled && !Clean(t, open) && lastNoise == last
           && d.dueAt == last + t.t35 && d.sequence == s.sequence
  }

  lemma CleanSnoc(t: Timing, burst: seq<Stamped>, x: Stamped)
    requires burst != []
    ensures Clean(t, burst + [x]) <==>
              Clean(t, burst) && |burst| < MAX_RTU_ADU_SIZE && x.at - burst[|burst| - 1].at <= t.t15
    ensures Data(burst + [x]) == Data(burst) + [x.byte]
    ensures Clean(t, burst) ==> |burst| <= MAX_RTU_ADU_SIZE
  {
    var longer, n := burst + [x], |burst| - 1;
    assert forall i :: 0 <= i < n ==> GapAfter(longer, i) == GapAfter(burst, i);
    assert GapAfter(longer, n) == x.at - burst[n].at;
  }

  lemma {:induction false} LastBurstEnds(t: Timing, bytes: seq<Stamped>)
    requires bytes != []
    ensures LastBurst(t, bytes) != [] && LastBurst(t, bytes)[|LastBurst(t, bytes)| - 1] == bytes[|bytes| - 1]
  {
  }

  lemma SingleByteIsClean(t: Timing, x: Stamped)
    ensures Clean(t, [x]) && Data([x]) == [x.byte]
  {
  }

  // A byte after a full t3.5 silence opens a new burst and settles the one before.
  lemma NewBurst(t: Timing, bytes: seq<Stamped>, x: Stamped)
    requires bytes != [] ==> x.at - bytes[|bytes| - 1].at >= t.t35
    ensures LastBurst(t, bytes + [x]) == [x]
    ensures FramesOf(t, EarlierBursts(t, bytes + [x])) ==
              if bytes == [] then [] else FramesOf(t, EarlierBursts(t, bytes)) + FrameIn(t, LastBurst(t, bytes))
  {
  }

  // A byte inside the silence joins the open burst.
  lemma SameBurst(t: Timing, bytes: seq<Stamped>, x: Stamped)
    requires bytes != [] && x.at - bytes[|bytes| - 1].at < t.t35
    ensures LastBurst(t, bytes + [x]) == LastBurst(t, bytes) + [x]
    ensures EarlierBursts(t, bytes + [x]) == EarlierBursts(t, bytes)
  {
  }

  lemma ByteKeepsMirror(t: Timing, r: Trace, at: U64, byte: Byte, d: Deadline, diagnostics: Diagnostics)
    requires t.Valid() && Mirrors(t, r) && !Regresses(r.state, at)
    requires PlanDeadline(t, r.state.sequence, at) == Plan(d)
    ensures var (phase, outcome) := NextPhase(t, r.state.phase, at, byte, d);
            Mirrors(t, Trace(State(phase, Some(at), d.sequence, diagnostics), r.accepted + [Stamped(at, byte)],
                             r.frames + (if outcome.FrameReady? then [outcome.adu] else [])))
  {
    hide Finish, Clean, Data, LastBurst, EarlierBursts, FramesOf, Verify;
    var bytes, x := r.accepted, Stamped(at, byte);
    assert r.frames + [] == r.frames;
    SingleByteIsClean(t, x);
    if bytes == [] || at - bytes[|bytes| - 1].at >= t.t35 {
      NewBurst(t, bytes, x);
      FinishIs(Data(LastBurst(t, bytes)));
    } else {
      SameBurst(t, bytes, x);
      LastBurstEnds(t, bytes);
      CleanSnoc(t, LastBurst(t, bytes), x);
    }
  }

  lemma FinishIs(candidate: seq<Byte>)
    ensures Finish(candidate) == FrameReady(candidate) <==> |candidate| >= 4 && Verify(candidate)
    ensures Finish(candidate) == Discarded(TooShort) <==> |candidate| < 4
    ensures Finish(candidate) == Discarded(CrcMismatch) <==> |candidate| >= 4 && !Verify(candidate)
  {
    hide Verify;
  }

  lemma DeadlineKeepsMirror(t: Timing, r: Trace, deadline: Deadline, at: U64)
    requires t.Valid() && Mirrors(t, r)
    ensures var (state, result) := ObserveDeadline(r.state, deadline, at);
            Mirrors(t, Trace(state, r.accepted,
                             r.frames
                             + (if result.Ok? && result.outcome.FrameReady? then [result.outcome.adu] else [])))
  {
    hide Finish, Clean, Data, LastBurst, EarlierBursts, FramesOf, Count, Verify;
    FinishIs(Data(LastBurst(t, r.accepted)));
    assert r.frames + [] == r.frames;
  }

  lemma {:induction false} RunMirrors(t: Timing, events: seq<Event>)
    requires t.Valid()
    ensures Mirrors(t, Run(t, events))
  {
    hide Mirrors, Count, NextPhase;
    if events == [] {
      StartMirrors(t);
    } else {
      var before, e := Run(t, events[..|events| - 1]), events[|events| - 1];
      RunMirrors(t, events[..|events| - 1]);
      match e
      case ByteEvent(at, byte) => ByteStepMirrors(t, before, at, byte);
      case DeadlineEvent(d, at) =>
        assert before.accepted + [] == before.accepted;
        DeadlineKeepsMirror(t, before, d, at);
    }
  }

  lemma StartMirrors(t: Timing)
    ensures Mirrors(t, Trace(INITIAL, [], []))
  {
  }

  lemma CountersDoNotMatter(t: Timing, r: Trace, diagnostics: Diagnostics)
    requires Mirrors(t, r)
    ensures Mirrors(t, r.(state := r.state.(diagnostics := diagnostics)))
  {
  }

  lemma ByteStepMirrors(t: Timing, r: Trace, at: U64, byte: Byte)
    requires t.Valid() && Mirrors(t, r)
    ensures var (state, result) := ObserveByte(t, r.state, at, byte);
            Mirrors(t, Trace(state, r.accepted + (if result.Ok? then [Stamped(at, byte)] else []),
                             r.frames
                             + (if result.Ok? && result.outcome.FrameReady? then [result.outcome.adu] else [])))
  {
    hide Mirrors, Count, NextPhase;
    var (state, result) := ObserveByte(t, r.state, at, byte);
    if result.Ok? {
      var d := PlanDeadline(t, r.state.sequence, at).deadline;
      ByteKeepsMirror(t, r, at, byte, d, state.diagnostics);
    } else {
      CountersDoNotMatter(t, r, state.diagnostics);
      assert r.frames + [] == r.frames && r.accepted + [] == r.accepted;
    }
  }

  // Whatever bytes and deadline callbacks arrive, valid, late, stale or early, the frames emitted are
  // the CRC-valid clean bursts of the accepted byte trace, an open last burst excepted.
  lemma FramesAreTheCleanBursts(t: Timing, events: seq<Event>)
    requires t.Valid()
    ensures var r := Run(t, events);
            r.frames == FramesOf(t, EarlierBursts(t, r.accepted))
                          + (if r.state.phase.Idle? then FrameIn(t, LastBurst(t, r.accepted)) else [])
  {
    RunMirrors(t, events);
    assert Data([]) == [];
  }

  // Deadline callbacks decide when a frame is emitted, never which frames there are.
  lemma DeadlinesDoNotChangeFrames(t: Timing, a: seq<Event>, b: seq<Event>)
    requires t.Valid()
    requires Run(t, a).accepted == Run(t, b).accepted
    requires Run(t, a).state.phase.Idle? && Run(t, b).state.phase.Idle?
    ensures Run(t, a).frames == Run(t, b).frames
  {
    FramesAreTheCleanBursts(t, a);
    FramesAreTheCleanBursts(t, b);
  }

  // ---- Single-step facts ----

  // A rejected event changes nothing but the counters.
  lemma ErrorsAreTransactional(t: Timing, s: State, e: Event)
    requires Observe(t, s, e).1.Err?
    ensures Observe(t, s, e).0.(diagnostics := s.diagnostics) == s
  {
  }

  // Which events are rejected, and why. A byte is refused when time runs backwards, when the deadlines have
  // run out, and when its own would not fit; a deadline that is active, when time runs backwards and when it
  // is early.
  lemma RejectionsAre(t: Timing, s: State, e: Event)
    ensures var r, at := Observe(t, s, e).1, if e.ByteEvent? then e.at else e.observedAt;
            var backwards := s.lastObserved.Some? && at < s.lastObserved.value;
            if e.ByteEvent? then
              && (r == Err(TimestampRegression) <==> backwards)
              && (r == Err(SequenceOverflow) <==> !backwards && s.sequence == U64_MAX)
              && (r == Err(TimestampOverflow) <==> !backwards && s.sequence < U64_MAX && at + t.t35 > U64_MAX)
              && (r.Ok? <==> !backwards && s.sequence < U64_MAX && at + t.t35 <= U64_MAX)
            else
              var active := ActiveDeadline(s.phase) == Some(e.deadline);
              && (r == Ok(StaleDeadline) <==> !active)
              && (r == Err(TimestampRegression) <==> active && backwards)
              && (r == Err(DeadlineNotDue) <==> active && !backwards && at < e.deadline.dueAt)
              && (r.Ok? <==> !active || (!backwards && e.deadline.dueAt <= at))
  {
    hide Verify, Count;
  }

  // What an accepted event reports: silence closes or recovers, an over-long gap or a byte too many discards,
  // anything else is progress.
  lemma OutcomesAre(t: Timing, s: State, e: Event)
    requires Observe(t, s, e).1.Ok?
    ensures var o := Observe(t, s, e).1.outcome;
            match (s.phase, e)
            case (Idle, ByteEvent(_, _)) => o == Progress
            case (Collecting(candidate, last, _), ByteEvent(at, _)) =>
              && (at - last >= t.t35 ==> Closes(candidate, o))
              && (t.t15 < at - last < t.t35 ==> o == Discarded(InterCharacterGap))
              && (at - last <= t.t15 && at - last < t.t35 ==>
                    o == if |candidate| == 256 then Discarded(Overlength) else Progress)
            case (Quarantined(last, _), ByteEvent(at, _)) =>
              o == if at - last >= t.t35 then Recovered(CandidateStarted) else Progress
            case (_, DeadlineEvent(d, _)) =>
              if ActiveDeadline(s.phase) != Some(d) then o == StaleDeadline
              else if s.phase.Collecting? then Closes(s.phase.candidate, o)
              else o == Recovered(ToIdle)
  {
    hide Verify, Count;
  }

  // The candidate is reported as a frame exactly when it has four bytes or more and verifies.
  predicate Closes(candidate: seq<Byte>, o: Outcome) {
    o == if |candidate| < 4 then Discarded(TooShort)
         else if Verify(candidate) then FrameReady(candidate) else Discarded(CrcMismatch)
  }

  // The deadline has been replaced, or was closed and none has been handed out since.
  predicate Past(s: State, d: Deadline) {
    s.sequence > d.sequence || (s.sequence == d.sequence && s.phase.Idle?)
  }

  lemma StepKeepsPast(t: Timing, s: State, e: Event, d: Deadline)
    requires !s.phase.Idle? ==> ActiveDeadline(s.phase).value.sequence == s.sequence
    ensures Past(s, d) ==> Past(Observe(t, s, e).0, d)
    ensures ActiveDeadline(s.phase) == Some(d) ==>
              ActiveDeadline(Observe(t, s, e).0.phase) == Some(d) || Past(Observe(t, s, e).0, d)
  {
  }

  lemma {:induction false} ActiveOrPast(t: Timing, events: seq<Event>, k: nat, d: Deadline)
    requires t.Valid() && k <= |events|
    ensures var s := Run(t, events[..k]).state;
            var later := Run(t, events).state;
            && (Past(s, d) ==> Past(later, d))
            && (ActiveDeadline(s.phase) == Some(d) ==> ActiveDeadline(later.phase) == Some(d) || Past(later, d))
    decreases |events|
  {
    if k == |events| {
      assert events[..k] == events;
    } else {
      var init := events[..|events| - 1];
      assert init[..k] == events[..k];
      ActiveOrPast(t, init, k, d);
      RunMirrors(t, init);
      StepKeepsPast(t, Run(t, init).state, events[|events| - 1], d);
    }
  }

  // A deadline that was handed out and is no longer active is stale for ever after: it can never
  // close a later candidate or end a later quarantine.
  lemma RetiredDeadlineStaysStale(t: Timing, events: seq<Event>, k: nat, m: nat, d: Deadline, at: U64)
    requires t.Valid() && k <= m <= |events|
    requires ActiveDeadline(Run(t, events[..k]).state.phase) == Some(d)
    requires ActiveDeadline(Run(t, events[..m]).state.phase) != Some(d)
    ensures ObserveDeadline(Run(t, events).state, d, at).1 == Ok(StaleDeadline)
  {
    assert events[..m][..k] == events[..k];
    ActiveOrPast(t, events[..m], k, d);
    ActiveOrPast(t, events, m, d);
    RunMirrors(t, events);
  }

  // At the boundary instant the order of the byte and of the deadline callback does not matter.
  lemma BoundaryOrderIsIrrelevant(t: Timing, s: State, at: U64, byte: Byte)
    requires t.Valid() && s.phase.Collecting? && !Regresses(s, at)
    requires s.phase.collecting.dueAt == s.phase.lastByte + t.t35 <= at
    requires PlanDeadline(t, s.sequence, at).Plan?
    ensures var (byteFirst, r1) := ObserveByte(t, s, at, byte);
            var (closed, r2) := ObserveDeadline(s, s.phase.collecting, at);
            var (deadlineFirst, r3) := ObserveByte(t, closed, at, byte);
            && byteFirst == deadlineFirst
            && r1 == r2 && r3 == Ok(Progress)
            && ObserveDeadline(byteFirst, s.phase.collecting, at).1 == Ok(StaleDeadline)
  {
    hide Finish;
  }
}
