/** What the assembler's diagnostic counters count: every burst of the accepted bytes is booked once, under
    what became of it. */
module AssemblerCounters {
  import opened Bytes
  import opened Crc
  import opened Assembler

  datatype Fate = Framed | Dropped(reason: Reason)

  // What first spoiled an unclean burst: the gap before a byte is looked at before the length.
  ghost function Fault(t: Timing, burst: seq<Stamped>): Reason {
    var n := |burst| - 1;
    if n >= 1 && !Clean(t, burst[..n]) then Fault(t, burst[..n])
    else if n >= 1 && GapAfter(burst, n - 1) > t.t15 then InterCharacterGap
    else Overlength
  }

  ghost function FateOf(t: Timing, burst: seq<Stamped>): Fate {
    if !Clean(t, burst) then Dropped(Fault(t, burst))
    else if |burst| < 4 then Dropped(TooShort)
    else if Verify(Data(burst)) then Framed
    else Dropped(CrcMismatch)
  }

  ghost function CountFate(t: Timing, bursts: seq<seq<Stamped>>, fate: Fate): nat {
    if bursts == [] then 0
    else CountFate(t, bursts[..|bursts| - 1], fate) + if FateOf(t, bursts[|bursts| - 1]) == fate then 1 else 0
  }

  // The bursts of the accepted bytes, and those of them that are over.
  function Bursts(t: Timing, bytes: seq<Stamped>): seq<seq<Stamped>> {
    if bytes == [] then [] else EarlierBursts(t, bytes) + [LastBurst(t, bytes)]
  }

  function Closed(t: Timing, r: Trace): seq<seq<Stamped>> {
    if r.state.phase.Idle? then Bursts(t, r.accepted) else EarlierBursts(t, r.accepted)
  }

  // The counters after a run.
  ghost predicate Booked(t: Timing, r: Trace) {
    var d, closed, all := r.state.diagnostics, Closed(t, r), Bursts(t, r.accepted);
    && d.validFrames == |r.frames| == CountFate(t, closed, Framed)
    && d.tooShortDiscards == CountFate(t, closed, Dropped(TooShort))
    && d.crcMismatchDiscards == CountFate(t, closed, Dropped(CrcMismatch))
    && d.interCharacterDiscards == CountFate(t, all, Dropped(InterCharacterGap))
    && d.overlengthDiscards == CountFate(t, all, Dropped(Overlength))
    && d.quarantineRecoveries == CountFate(t, closed, Dropped(InterCharacterGap))
       + CountFate(t, closed, Dropped(Overlength))
  }

  // No counter exceeds the number of events, so none is near saturation.
  predicate Within(d: Diagnostics, n: nat) {
    && d.bytesObserved <= n && d.validFrames <= n && d.interCharacterDiscards <= n && d.overlengthDiscards <= n
    && d.tooShortDiscards <= n && d.crcMismatchDiscards <= n && d.staleDeadlines <= n && d.earlyDeadlines <= n
    && d.timestampRegressions <= n && d.quarantineRecoveries <= n
  }

  // ---- Bursts growing ----

  lemma FaultSnoc(t: Timing, burst: seq<Stamped>, x: Stamped)
    requires burst != [] && !Clean(t, burst + [x])
    ensures Fault(t, burst + [x]) == if !Clean(t, burst) then Fault(t, burst)
                                     else if x.at - burst[|burst| - 1].at > t.t15 then InterCharacterGap
                                     else Overlength
  {
    hide Clean;
    var longer := burst + [x];
    assert longer[..|burst|] == burst && GapAfter(longer, |burst| - 1) == x.at - burst[|burst| - 1].at;
  }

  lemma {:induction false} FaultIsUnclean(t: Timing, burst: seq<Stamped>)
    ensures Fault(t, burst) == InterCharacterGap || Fault(t, burst) == Overlength
  {
    hide Clean;
    if |burst| > 1 && !Clean(t, burst[..|burst| - 1]) { FaultIsUnclean(t, burst[..|burst| - 1]); }
  }

  lemma CountSnoc(t: Timing, bursts: seq<seq<Stamped>>, burst: seq<Stamped>, fate: Fate)
    ensures CountFate(t, bursts + [burst], fate)
            == CountFate(t, bursts, fate) + if FateOf(t, burst) == fate then 1 else 0
  {
    hide FateOf;
    assert (bursts + [burst])[..|bursts|] == bursts;
  }

  // A byte after a silence closes the last burst; any other joins it.
  lemma BurstsSnoc(t: Timing, bytes: seq<Stamped>, x: Stamped)
    ensures EarlierBursts(t, bytes + [x])
            == if bytes == [] || x.at - bytes[|bytes| - 1].at < t.t35 then EarlierBursts(t, bytes) else Bursts(t, bytes)
    ensures LastBurst(t, bytes + [x])
            == if bytes == [] || x.at - bytes[|bytes| - 1].at >= t.t35 then [x] else LastBurst(t, bytes) + [x]
  {
    assert (bytes + [x])[..|bytes|] == bytes;
  }

  lemma CleanFates(t: Timing, burst: seq<Stamped>)
    ensures Clean(t, burst) <==> FateOf(t, burst) in {Framed, Dropped(TooShort), Dropped(CrcMismatch)}
    ensures !Clean(t, burst) <==> FateOf(t, burst) in {Dropped(InterCharacterGap), Dropped(Overlength)}
    ensures Clean(t, burst) ==> Finish(Data(burst)) == match FateOf(t, burst)
                                                       case Framed => FrameReady(Data(burst))
                                                       case Dropped(reason) => Discarded(reason)
  {
    hide Clean, Data, Fault, Verify, Finish;
    FaultIsUnclean(t, burst);
    FinishIs(Data(burst));
  }

  // ---- One event ----

  lemma NewBurstBooked(t: Timing, r: Trace, x: Stamped, d: Deadline, seen: Diagnostics, n: nat)
    requires t.Valid() && Mirrors(t, r) && Booked(t, r) && Within(r.state.diagnostics, n) && n < U64_MAX
    requires !Regresses(r.state, x.at) && (r.accepted != [] ==> x.at - r.accepted[|r.accepted| - 1].at >= t.t35)
    requires seen == r.state.diagnostics.(bytesObserved := seen.bytesObserved)
    ensures var (phase, outcome) := NextPhase(t, r.state.phase, x.at, x.byte, d);
            Booked(t, Trace(State(phase, Some(x.at), d.sequence, Count(seen, outcome)), r.accepted + [x],
                            r.frames + (if outcome.FrameReady? then [outcome.adu] else [])))
  {
    hide Finish, Clean, Data, LastBurst, EarlierBursts, FramesOf, FateOf, CountFate, FrameIn;
    var bytes := r.accepted;
    var all := Bursts(t, bytes);
    BurstsSnoc(t, bytes, x);
    SingleByteIsClean(t, x);
    CleanFates(t, [x]);
    CleanFates(t, LastBurst(t, bytes));
    forall f ensures CountFate(t, all + [[x]], f) == CountFate(t, all, f) + if FateOf(t, [x]) == f then 1 else 0 {
      CountSnoc(t, all, [x], f);
    }
    NothingEarlier(t);
    if bytes != [] {
      var earlier, last := EarlierBursts(t, bytes), LastBurst(t, bytes);
      forall f ensures CountFate(t, all, f) == CountFate(t, earlier, f) + if FateOf(t, last) == f then 1 else 0 {
        CountSnoc(t, earlier, last, f);
      }
    }
  }

  lemma NothingEarlier(t: Timing)
    ensures EarlierBursts(t, []) == []
  {
  }

  lemma SameBurstBooked(t: Timing, r: Trace, x: Stamped, d: Deadline, seen: Diagnostics, n: nat)
    requires t.Valid() && Mirrors(t, r) && Booked(t, r) && Within(r.state.diagnostics, n) && n < U64_MAX
    requires !Regresses(r.state, x.at) && r.accepted != [] && x.at - r.accepted[|r.accepted| - 1].at < t.t35
    requires seen == r.state.diagnostics.(bytesObserved := seen.bytesObserved)
    ensures var (phase, outcome) := NextPhase(t, r.state.phase, x.at, x.byte, d);
            Booked(t, Trace(State(phase, Some(x.at), d.sequence, Count(seen, outcome)), r.accepted + [x],
                            r.frames + (if outcome.FrameReady? then [outcome.adu] else [])))
  {
    hide Finish, Clean, Data, LastBurst, EarlierBursts, FramesOf, FateOf, CountFate, FrameIn;
    var bytes := r.accepted;
    var earlier, last := EarlierBursts(t, bytes), LastBurst(t, bytes);
    BurstsSnoc(t, bytes, x);
    LastBurstEnds(t, bytes);
    CleanSnoc(t, last, x);
    GrownFate(t, last, x);
    CleanFates(t, last);
    CleanFates(t, last + [x]);
    forall f ensures CountFate(t, earlier + [last], f)
                     == CountFate(t, earlier, f) + if FateOf(t, last) == f then 1 else 0 {
      CountSnoc(t, earlier, last, f);
    }
    forall f ensures CountFate(t, earlier + [last + [x]], f)
                     == CountFate(t, earlier, f) + if FateOf(t, last + [x]) == f then 1 else 0 {
      CountSnoc(t, earlier, last + [x], f);
    }
  }

  lemma GrownFate(t: Timing, burst: seq<Stamped>, x: Stamped)
    requires burst != []
    ensures !Clean(t, burst) ==> FateOf(t, burst + [x]) == FateOf(t, burst)
    ensures Clean(t, burst) && !Clean(t, burst + [x]) ==>
              FateOf(t, burst + [x])
              == Dropped(if x.at - burst[|burst| - 1].at > t.t15 then InterCharacterGap else Overlength)
  {
    CleanSnoc(t, burst, x);
    hide Clean;
    if !Clean(t, burst + [x]) { FaultSnoc(t, burst, x); }
  }

  lemma ByteBooked(t: Timing, r: Trace, at: U64, byte: Byte, n: nat)
    requires t.Valid() && Mirrors(t, r) && Booked(t, r) && Within(r.state.diagnostics, n) && n < U64_MAX
    ensures var (state, result) := ObserveByte(t, r.state, at, byte);
            && Within(state.diagnostics, n + 1)
            && state.diagnostics.bytesObserved == r.state.diagnostics.bytesObserved + 1
            && Booked(t, Trace(state, r.accepted + (if result.Ok? then [Stamped(at, byte)] else []),
                               r.frames
                               + (if result.Ok? && result.outcome.FrameReady? then [result.outcome.adu] else [])))
  {
    hide Mirrors, Booked, NextPhase;
    var (state, result) := ObserveByte(t, r.state, at, byte);
    var seen := r.state.diagnostics.(bytesObserved := Bump(r.state.diagnostics.bytesObserved));
    if result.Ok? {
      var d := PlanDeadline(t, r.state.sequence, at).deadline;
      var bytes, x := r.accepted, Stamped(at, byte);
      if bytes == [] || at - bytes[|bytes| - 1].at >= t.t35 {
        NewBurstBooked(t, r, x, d, seen, n);
      } else {
        SameBurstBooked(t, r, x, d, seen, n);
      }
    } else {
      assert r.frames + [] == r.frames && r.accepted + [] == r.accepted;
      OtherCounters(t, r, state);
    }
  }

  // Booking does not look at the other counters.
  lemma OtherCounters(t: Timing, r: Trace, state: State)
    requires Booked(t, r) && state.phase == r.state.phase
    requires state.diagnostics == r.state.diagnostics.(
             bytesObserved := state.diagnostics.bytesObserved, staleDeadlines := state.diagnostics.staleDeadlines,
             earlyDeadlines := state.diagnostics.earlyDeadlines,
             timestampRegressions := state.diagnostics.timestampRegressions)
    ensures Booked(t, r.(state := state))
  {
  }

  lemma DeadlineBooked(t: Timing, r: Trace, deadline: Deadline, at: U64, n: nat)
    requires t.Valid() && Mirrors(t, r) && Booked(t, r) && Within(r.state.diagnostics, n) && n < U64_MAX
    ensures var (state, result) := ObserveDeadline(r.state, deadline, at);
            && Within(state.diagnostics, n + 1)
            && state.diagnostics.bytesObserved == r.state.diagnostics.bytesObserved
            && Booked(t, Trace(state, r.accepted,
                               r.frames
                               + (if result.Ok? && result.outcome.FrameReady? then [result.outcome.adu] else [])))
  {
    hide Finish, Clean, Data, LastBurst, EarlierBursts, FramesOf, FateOf, CountFate, FrameIn;
    var earlier, last := EarlierBursts(t, r.accepted), LastBurst(t, r.accepted);
    assert r.frames + [] == r.frames;
    CleanFates(t, last);
    forall f ensures CountFate(t, earlier + [last], f)
                     == CountFate(t, earlier, f) + if FateOf(t, last) == f then 1 else 0 {
      CountSnoc(t, earlier, last, f);
    }
  }

  // ---- Whole runs ----

  function ByteEvents(events: seq<Event>): nat {
    if events == [] then 0
    else ByteEvents(events[..|events| - 1]) + if events[|events| - 1].ByteEvent? then 1 else 0
  }

  lemma StartBooked(t: Timing)
    ensures Booked(t, Trace(INITIAL, [], []))
  {
  }

  // After every run of fewer than 2^64 events each counter is the number of bursts with its fate: frames,
  // short and corrupt bursts once they are over, spoiled ones from the byte that spoils them, recoveries
  // when a spoiled one is over.
  lemma {:induction false} CountersAreTheBursts(t: Timing, events: seq<Event>)
    requires t.Valid() && |events| <= U64_MAX
    ensures Booked(t, Run(t, events)) && Within(Run(t, events).state.diagnostics, |events|)
    ensures Run(t, events).state.diagnostics.bytesObserved == ByteEvents(events)
  {
    hide Booked, Mirrors, ObserveByte, ObserveDeadline;
    if events == [] {
      StartBooked(t);
    } else {
      var init, e := events[..|events| - 1], events[|events| - 1];
      var before := Run(t, init);
      CountersAreTheBursts(t, init);
      RunMirrors(t, init);
      match e
      case ByteEvent(at, byte) => ByteBooked(t, before, at, byte, |init|);
      case DeadlineEvent(d, at) =>
        assert before.accepted + [] == before.accepted;
        DeadlineBooked(t, before, d, at, |init|);
    }
  }

  ghost function CountClean(t: Timing, bursts: seq<seq<Stamped>>): nat {
    if bursts == [] then 0
    else CountClean(t, bursts[..|bursts| - 1]) + if Clean(t, bursts[|bursts| - 1]) then 1 else 0
  }

  lemma {:induction false} FatesAddUp(t: Timing, bursts: seq<seq<Stamped>>)
    ensures CountFate(t, bursts, Framed) + CountFate(t, bursts, Dropped(TooShort))
            + CountFate(t, bursts, Dropped(CrcMismatch))
            == CountClean(t, bursts)
    ensures CountFate(t, bursts, Dropped(InterCharacterGap)) + CountFate(t, bursts, Dropped(Overlength))
            == |bursts| - CountClean(t, bursts)
  {
    hide FateOf, Clean;
    if bursts != [] {
      FatesAddUp(t, bursts[..|bursts| - 1]);
      CleanFates(t, bursts[|bursts| - 1]);
    }
  }

  // Frames, short and corrupt candidates are the clean bursts that are over, gaps and overruns the unclean
  // ones, recoveries the unclean ones that are over: only an open clean burst is not booked yet.
  lemma EveryBurstIsBookedOnce(t: Timing, events: seq<Event>)
    requires t.Valid() && |events| <= U64_MAX
    ensures var r := Run(t, events);
            var d, closed, all := r.state.diagnostics, Closed(t, r), Bursts(t, r.accepted);
            && d.validFrames + d.tooShortDiscards + d.crcMismatchDiscards == CountClean(t, closed)
            && d.interCharacterDiscards + d.overlengthDiscards == |all| - CountClean(t, all)
            && d.quarantineRecoveries == |closed| - CountClean(t, closed)
            && d.validFrames + d.tooShortDiscards + d.crcMismatchDiscards + d.interCharacterDiscards
               + d.overlengthDiscards
               == |all| - if r.state.phase.Collecting? then 1 else 0
  {
    hide Run, Clean, CountFate, FateOf, FrameIn, LastBurst, EarlierBursts, FramesOf, Data;
    var r := Run(t, events);
    CountersAreTheBursts(t, events);
    RunMirrors(t, events);
    FatesAddUp(t, Closed(t, r));
    FatesAddUp(t, Bursts(t, r.accepted));
    CleanAddUp(t, EarlierBursts(t, r.accepted), LastBurst(t, r.accepted));
    NothingEarlier(t);
  }

  lemma CleanAddUp(t: Timing, bursts: seq<seq<Stamped>>, burst: seq<Stamped>)
    ensures CountClean(t, bursts + [burst]) == CountClean(t, bursts) + if Clean(t, burst) then 1 else 0
  {
    hide Clean;
    assert (bursts + [burst])[..|bursts|] == bursts;
  }
}
