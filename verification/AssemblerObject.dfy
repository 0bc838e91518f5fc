// The assembler as an object with one fixed candidate buffer, proved against the transition system.
module AssemblerObject {
  import opened Bytes
  import opened Crc
  import opened Assembler

  datatype Store =
    | StoreIdle
    | StoreCollecting(len: nat, lastByte: U64, collecting: Deadline)
    | StoreQuarantined(lastNoise: U64, recovering: Deadline)

  class RtuFrameAssembler {
    const timing: Timing
    const candidate: array<Byte>
    var store: Store
    var lastObserved: Option<U64>
    var sequence: U64
    var diagnostics: Diagnostics

    // The byte being timed from was accepted, so subtracting its timestamp from a later one cannot underflow.
    ghost predicate Valid()
      reads this
    {
      && timing.Valid()
      && candidate.Length == MAX_RTU_ADU_SIZE
      && (store.StoreCollecting? ==>
            1 <= store.len <= MAX_RTU_ADU_SIZE && lastObserved.Some? && store.lastByte <= lastObserved.value)
      && (store.StoreQuarantined? ==> lastObserved.Some? && store.lastNoise <= lastObserved.value)
    }

    ghost function PhaseView(): Phase
      requires Valid()
      reads this, candidate
    {
      match store
      case StoreIdle => Idle
      case StoreCollecting(len, lastByte, d) => Collecting(candidate[..len], lastByte, d)
      case StoreQuarantined(lastNoise, d) => Quarantined(lastNoise, d)
    }

    ghost function View(): State
      requires Valid()
      reads this, candidate
    {
      State(PhaseView(), lastObserved, sequence, diagnostics)
    }

    constructor (timing: Timing)
      requires timing.Valid()
      ensures Valid() && View() == INITIAL && this.timing == timing && fresh(candidate)
    {
      this.timing := timing;
      candidate := new Byte[MAX_RTU_ADU_SIZE](_ => 0);
      store, lastObserved, sequence, diagnostics := StoreIdle, None, 0, INITIAL.diagnostics;
    }

    method StartCandidate(at: U64, byte: Byte, deadline: Deadline)
      requires Valid()
      modifies this`store, this`sequence, this`lastObserved, candidate
      ensures Valid()
      ensures View() == State(Collecting([byte], at, deadline), Some(at), deadline.sequence, diagnostics)
    {
      candidate[0] := byte;
      store, sequence, lastObserved := StoreCollecting(1, at, deadline), deadline.sequence, Some(at);
      assert candidate[..1] == [byte];
    }

    method EnterQuarantine(at: U64, deadline: Deadline)
      requires Valid()
      modifies this`store, this`sequence, this`lastObserved
      ensures Valid()
      ensures View() == State(Quarantined(at, deadline), Some(at), deadline.sequence, diagnostics)
    {
      store, sequence, lastObserved := StoreQuarantined(at, deadline), deadline.sequence, Some(at);
    }

    method FinishCandidate(len: nat) returns (outcome: Outcome)
      requires Valid() && len <= MAX_RTU_ADU_SIZE
      modifies this`diagnostics
      ensures Valid() && outcome == Finish(candidate[..len])
      ensures var burst := candidate[..len];
              && (outcome == Discarded(TooShort) <==> len < 4)
              && (outcome == Discarded(CrcMismatch) <==> len >= 4 && !Verify(burst))
              && (outcome == FrameReady(burst) <==> len >= 4 && Verify(burst))
      ensures diagnostics == Count(old(diagnostics), outcome)
    {
      hide Verify;
      if len < MIN_RTU_ADU_SIZE {
        outcome := Discarded(TooShort);
      } else if !Verify(candidate[..len]) {
        outcome := Discarded(CrcMismatch);
      } else {
        outcome := FrameReady(candidate[..len]);
      }
      diagnostics := Count(diagnostics, outcome);
    }

    method ObserveByteEvent(at: U64, byte: Byte) returns (r: Result)
      requires Valid()
      modifies this, candidate
      ensures Valid()
      ensures (View(), r) == ObserveByte(timing, old(View()), at, byte)
    {
      hide Finish, Count;
      diagnostics := diagnostics.(bytesObserved := Bump(diagnostics.bytesObserved));
      if lastObserved.Some? && at < lastObserved.value {
        diagnostics := diagnostics.(timestampRegressions := Bump(diagnostics.timestampRegressions));
        return Err(TimestampRegression);
      }
      var plan := PlanDeadline(timing, sequence, at);
      if plan.NoPlan? { return Err(plan.error); }
      var deadline := plan.deadline;
      match store
      case StoreIdle =>
        StartCandidate(at, byte, deadline);
        CountOfProgress(diagnostics);
        r := Ok(Progress);
      case StoreCollecting(len, lastByte, _) =>
        var gap: U64 := at - lastByte;
        if gap >= timing.t35 {
          var outcome := FinishCandidate(len);
          StartCandidate(at, byte, deadline);
          r := Ok(outcome);
        } else if gap > timing.t15 {
          diagnostics := Count(diagnostics, Discarded(InterCharacterGap));
          EnterQuarantine(at, deadline);
          r := Ok(Discarded(InterCharacterGap));
        } else if len == MAX_RTU_ADU_SIZE {
          diagnostics := Count(diagnostics, Discarded(Overlength));
          EnterQuarantine(at, deadline);
          r := Ok(Discarded(Overlength));
        } else {
          candidate[len] := byte;
          store, sequence, lastObserved := StoreCollecting(len + 1, at, deadline), deadline.sequence, Some(at);
          assert candidate[..len + 1] == old(candidate[..len]) + [byte];
          CountOfProgress(diagnostics);
          r := Ok(Progress);
        }
      case StoreQuarantined(lastNoise, _) =>
        var gap: U64 := at - lastNoise;
        if gap >= timing.t35 {
          StartCandidate(at, byte, deadline);
          diagnostics := Count(diagnostics, Recovered(CandidateStarted));
          r := Ok(Recovered(CandidateStarted));
        } else {
          EnterQuarantine(at, deadline);
          CountOfProgress(diagnostics);
          r := Ok(Progress);
        }
    }

    method ObserveDeadlineEvent(deadline: Deadline, at: U64) returns (r: Result)
      requires Valid()
      modifies this
      ensures Valid()
      ensures (View(), r) == ObserveDeadline(old(View()), deadline, at)
    {
      hide Finish, Count;
      var active := match store
        case StoreIdle => None
        case StoreCollecting(_, _, d) => Some(d)
        case StoreQuarantined(_, d) => Some(d);
      if active != Some(deadline) {
        diagnostics := Count(diagnostics, StaleDeadline);
        return Ok(StaleDeadline);
      }
      if lastObserved.Some? && at < lastObserved.value {
        diagnostics := diagnostics.(timestampRegressions := Bump(diagnostics.timestampRegressions));
        return Err(TimestampRegression);
      }
      if at < deadline.dueAt {
        diagnostics := diagnostics.(earlyDeadlines := Bump(diagnostics.earlyDeadlines));
        return Err(DeadlineNotDue);
      }
      if store.StoreCollecting? {
        var outcome := FinishCandidate(store.len);
        r := Ok(outcome);
      } else {
        diagnostics := Count(diagnostics, Recovered(ToIdle));
        r := Ok(Recovered(ToIdle));
      }
      store, lastObserved := StoreIdle, Some(at);
    }
  }

  lemma CountOfProgress(d: Diagnostics)
    ensures Count(d, Progress) == d
  {
  }
}
