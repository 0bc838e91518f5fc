// The transaction manager as the object the client shares, proved against the transition system:
// each method is a run of atomic steps, so the guarantees of Transactions hold for every use of it.
module TransactionObject {
  import opened Bytes
  import opened Transactions
  import Folds

  // How far the counter is from its next value on slot `target`.
  function Ahead(next: Word, target: nat): (d: nat)
    requires target < MAX_SLOTS
    ensures d < MAX_SLOTS
  {
    var slot := SlotOf(next);
    if slot <= target then target - slot else target + MAX_SLOTS - slot
  }

  // Fetch-adds until a usable ID on slot `target` is drawn: the unusable ID 0 costs one more lap of the slots.
  function Wait(next: Word, target: nat): (d: nat)
    requires target < MAX_SLOTS
  {
    var d := Ahead(next, target);
    if next + d == 0 || next + d == IDS then d + MAX_SLOTS else d
  }

  // Drawing an ID that does not serve the target brings the target one step nearer.
  lemma WaitFalls(next: Word, target: nat)
    requires target < MAX_SLOTS
    requires next == 0 || SlotOf(next) != target
    ensures Wait((next + 1) % IDS, target) < Wait(next, target)
  {
  }

  function Indices(n: nat): (r: set<int>)
    ensures |r| == n
    ensures forall i :: i in r <==> 0 <= i < n
  {
    if n == 0 then {} else Indices(n - 1) + {n - 1}
  }

  lemma SeenIsAll(seen: set<int>)
    requires forall i :: i in seen ==> 0 <= i < MAX_SLOTS
    ensures |seen| <= MAX_SLOTS
    ensures |seen| == MAX_SLOTS <==> forall i :: 0 <= i < MAX_SLOTS ==> i in seen
  {
    Folds.SubsetSize(seen, Indices(MAX_SLOTS));
    if forall i :: 0 <= i < MAX_SLOTS ==> i in seen { assert seen == Indices(MAX_SLOTS); }
  }

  lemma {:induction false} RunConcat(s: State, a: seq<Step>, b: seq<Step>)
    requires |s.slots| == MAX_SLOTS
    ensures Run(s, a + b) == Run(Run(s, a), b)
  {
    hide Apply;
    if b == [] {
      assert a + b == a;
    } else {
      RunConcat(s, a, b[..|b| - 1]);
      assert (a + b)[..|a + b| - 1] == a + b[..|b| - 1];
    }
  }

  lemma RunOfNone(s: State)
    requires |s.slots| == MAX_SLOTS
    ensures Run(s, []) == s
  {
  }

  // ---- A critical section with nobody in between ----

  // Take a request and see its answer through.
  function Settle(s: State, slot: nat, flight: Flight): State
    requires slot < |s.slots| && s.slots[slot].Some?
  {
    var ticket := s.slots[slot].value.ticket;
    SendOff(Announce(Take(s, slot, flight), ticket), ticket)
  }

  predicate Locks(step: Step) { !step.FetchId? && !step.TryInsert? && !step.RetireFor? && !step.SendTo? }

  // The whole of an operation whose critical section is `step`.
  function Resolve(s: State, step: Step): State
    requires |s.slots| == MAX_SLOTS
  {
    match Decide(s, step)
    case Leave(_, reason) => s.(retired := Retire(s.retired, reason))
    case Answer(slot, sent, frameId, reason, _) => Settle(s, slot, Flight(sent, frameId, reason))
  }

  function MicroSteps(s: State, step: Step): seq<Step>
    requires |s.slots| == MAX_SLOTS
  {
    match Decide(s, step)
    case Leave(_, _) => [step]
    case Answer(slot, _, _, _, _) => [step, RetireFor(s.slots[slot].value.ticket), SendTo(s.slots[slot].value.ticket)]
  }

  // An uninterrupted operation is a run of its atomic steps.
  lemma ResolveIsRun(s: State, step: Step)
    requires |s.slots| == MAX_SLOTS && Locks(step)
    ensures Run(s, MicroSteps(s, step)) == Resolve(s, step)
  {
    hide Run, Apply, Take, Announce, SendOff, Decide;
    LockStep(s, step);
    RunOne(s, step);
    match Decide(s, step)
    case Leave(_, _) =>
    case Answer(slot, sent, frameId, reason, _) =>
      DecisionFits(s, step);
      var k := s.slots[slot].value.ticket;
      TakenFlies(s, slot, Flight(sent, frameId, reason));
      var t := Apply(s, step);
      AnswerSteps(t, k);
      RunConcat(s, [step], [RetireFor(k), SendTo(k)]);
      RunConcat(t, [RetireFor(k)], [SendTo(k)]);
      RunOne(t, RetireFor(k));
      RunOne(Announce(t, k), SendTo(k));
      assert [step] + [RetireFor(k), SendTo(k)] == [step, RetireFor(k), SendTo(k)];
      assert [RetireFor(k)] + [SendTo(k)] == [RetireFor(k), SendTo(k)];
  }

  lemma RunOne(s: State, step: Step)
    requires |s.slots| == MAX_SLOTS
    ensures Run(s, [step]) == Apply(s, step)
  {
    hide Apply;
    assert [step][..0] == [];
  }

  lemma LockStep(s: State, step: Step)
    requires |s.slots| == MAX_SLOTS && Locks(step)
    ensures Apply(s, step) == Lock(s, step)
  {
    hide Lock;
  }

  lemma TakenFlies(s: State, slot: nat, flight: Flight)
    requires slot < |s.slots| && s.slots[slot].Some?
    ensures var t := Take(s, slot, flight); s.slots[slot].value.ticket in t.flying && |t.slots| == |s.slots|
    ensures |Announce(Take(s, slot, flight), s.slots[slot].value.ticket).slots| == |s.slots|
  {
  }

  lemma RunResolve(s: State, steps: seq<Step>, step: Step)
    requires |s.slots| == MAX_SLOTS && Locks(step)
    ensures Run(s, steps + MicroSteps(Run(s, steps), step)) == Resolve(Run(s, steps), step)
  {
    hide Run, Resolve, MicroSteps;
    RunConcat(s, steps, MicroSteps(Run(s, steps), step));
    ResolveIsRun(Run(s, steps), step);
  }

  // ---- What a critical section leads to, in every reachable state ----

  // The three steps by which the request in a slot is taken and answered.
  function Answering(s: State, slot: nat, step: Step): seq<Step>
    requires slot < |s.slots| && s.slots[slot].Some?
  {
    [step, RetireFor(s.slots[slot].value.ticket), SendTo(s.slots[slot].value.ticket)]
  }

  // The request leaves its slot, and exactly its answer is sent.
  ghost predicate AnsweredAlone(s: State, t: State, slot: nat, sent: Sent, frameId: Option<Word>,
                                reason: Option<Reason>)
    requires slot < |s.slots| && s.slots[slot].Some?
  {
    && t.slots == s.slots[slot := None] && t.history == s.history && t.allocations == s.allocations
    && t.log == s.log + [Resolution(s.slots[slot].value.ticket, sent, frameId)]
    && RetiredFor(s.retired, reason, t.retired)
  }

  lemma SettledAlone(s: State, slot: nat, flight: Flight)
    requires slot < |s.slots| && s.slots[slot].Some?
    ensures AnsweredAlone(s, Settle(s, slot, flight), slot, flight.sent, flight.frameId, flight.reason)
  {
  }

  // A reply by transaction ID settles the request that waits under that ID, as it must.
  lemma RepliesAreAnswered(steps: seq<Step>, slot: nat, reply: Reply, now: nat)
    requires slot < MAX_SLOTS && Run(INITIAL, steps).slots[slot].Some?
    ensures var s := Run(INITIAL, steps);
            var p := s.slots[slot].value;
            var t := Run(INITIAL, steps + Answering(s, slot, Complete(p.txnId, reply, now)));
            exists sent, reason, outcome ::
              && RightAnswer(p, reply, now, sent, reason, outcome)
              && AnsweredAlone(s, t, slot, sent, Some(p.txnId), reason)
  {
    hide Run, Settle, AnsweredAlone;
    var s := Run(INITIAL, steps);
    var p := s.slots[slot].value;
    var step := Complete(p.txnId, reply, now);
    assert SlotOf(p.txnId) == slot by { SlotHoldsItsId(steps, slot); }
    RunResolve(INITIAL, steps, step);
    var d := Decide(s, step);
    SettledAlone(s, slot, Flight(d.sent, d.frameId, d.reason));
    assert RightAnswer(p, reply, now, d.sent, d.reason, d.outcome);
  }

  lemma SlotHoldsItsId(steps: seq<Step>, slot: nat)
    requires slot < MAX_SLOTS && Run(INITIAL, steps).slots[slot].Some?
    ensures SlotOf(Run(INITIAL, steps).slots[slot].value.txnId) == slot
  {
    hide Run;
    InitialInv();
    RunKeepsInv(INITIAL, steps);
  }

  // A reply to the slot the scan chose does the same, except that before the deadline another unit's reply
  // leaves the request waiting.
  lemma RepliesToSlotAreAnswered(steps: seq<Step>, slot: nat, reply: Reply, now: nat)
    requires slot < MAX_SLOTS && Run(INITIAL, steps).slots[slot].Some?
    ensures var s := Run(INITIAL, steps);
            var p := s.slots[slot].value;
            if now < p.deadline && reply.unit != p.unit then
              var t := Run(INITIAL, steps + [CompleteSlot(slot, reply, now)]);
              t == s.(retired := t.retired) && RetiredFor(s.retired, Some(UnexpectedResponseUnit), t.retired)
            else
              var t := Run(INITIAL, steps + Answering(s, slot, CompleteSlot(slot, reply, now)));
              exists sent, reason, outcome ::
                && RightAnswer(p, reply, now, sent, reason, outcome)
                && AnsweredAlone(s, t, slot, sent, None, reason)
  {
    hide Run, Settle, AnsweredAlone;
    var s := Run(INITIAL, steps);
    var p := s.slots[slot].value;
    var step := CompleteSlot(slot, reply, now);
    RunResolve(INITIAL, steps, step);
    var d := Decide(s, step);
    if d.Answer? {
      SettledAlone(s, slot, Flight(d.sent, d.frameId, d.reason));
      assert RightAnswer(p, reply, now, d.sent, d.reason, d.outcome);
    }
  }

  // A reply that finds nobody changes nothing but the session, which is retired for it.
  lemma StrayRepliesRetire(steps: seq<Step>, step: Step)
    requires match step
             case Complete(txnId, _, _) =>
               forall i :: 0 <= i < MAX_SLOTS && Run(INITIAL, steps).slots[i].Some? ==>
                 Run(INITIAL, steps).slots[i].value.txnId != txnId
             case CompleteSlot(slot, _, _) => slot < MAX_SLOTS && Run(INITIAL, steps).slots[slot].None?
             case _ => step == FoundNothing
    ensures var s, t := Run(INITIAL, steps), Run(INITIAL, steps + [step]);
            t == s.(retired := t.retired) && RetiredFor(s.retired, Some(UnknownOrDuplicateResponse), t.retired)
  {
    hide Run, Settle;
    RunResolve(INITIAL, steps, step);
  }

  // The ways a request ends without a reply: its deadline, a shutdown, and a failed send.
  lemma UnansweredRequestsEnd(steps: seq<Step>, slot: nat, now: nat)
    requires slot < MAX_SLOTS && Run(INITIAL, steps).slots[slot].Some?
    ensures var s := Run(INITIAL, steps);
            var p := s.slots[slot].value;
            && (if p.deadline <= now
                then AnsweredAlone(s, Run(INITIAL, steps + Answering(s, slot, ExpireSlot(slot, now))), slot, Timeout,
                                   None, Some(RequestTimedOut))
                else Run(INITIAL, steps + [ExpireSlot(slot, now)]) == s)
            && AnsweredAlone(s, Run(INITIAL, steps + Answering(s, slot, CancelSlot(slot))), slot, Cancelled, None, None)
            && AnsweredAlone(s, Run(INITIAL, steps + Answering(s, slot, Remove(p.txnId))), slot, Closed, None, None)
  {
    hide Run, Settle, AnsweredAlone;
    var s := Run(INITIAL, steps);
    assert SlotOf(s.slots[slot].value.txnId) == slot by { SlotHoldsItsId(steps, slot); }
    RunResolve(INITIAL, steps, ExpireSlot(slot, now));
    RunResolve(INITIAL, steps, CancelSlot(slot));
    RunResolve(INITIAL, steps, Remove(s.slots[slot].value.txnId));
    SettledAlone(s, slot, Flight(Timeout, None, Some(RequestTimedOut)));
    SettledAlone(s, slot, Flight(Cancelled, None, None));
    SettledAlone(s, slot, Flight(Closed, None, None));
  }

  // One fetch-add and one try of its slot by a lone caller.
  lemma Attempt(s: State, request: Request, now: nat)
    requires |s.slots| == MAX_SLOTS && s.held == map[]
    ensures var t := Apply(Apply(s, FetchId(0)), TryInsert(0, request, now));
            var id := IdOf(s.allocations);
            var p := Pending(|s.history|, s.allocations, id, now, request.deadline, request.unit, request.code);
            if id == 0 || s.slots[SlotOf(id)].Some? then t == s.(allocations := s.allocations + 1)
            else t == s.(allocations := s.allocations + 1, slots := s.slots[SlotOf(id) := Some(p)],
                         history := s.history + [p])
  {
  }

  lemma RunTry(s: State, steps: seq<Step>, request: Request, now: nat)
    requires |s.slots| == MAX_SLOTS
    ensures |Apply(Run(s, steps), FetchId(0)).slots| == MAX_SLOTS
    ensures Run(s, steps + [FetchId(0), TryInsert(0, request, now)])
            == Apply(Apply(Run(s, steps), FetchId(0)), TryInsert(0, request, now))
  {
    var all := steps + [FetchId(0), TryInsert(0, request, now)];
    assert all[..|steps| + 1] == steps + [FetchId(0)] && all[..|steps| + 1][..|steps|] == steps;
  }

  // What is sent when a scan in slot order ends every waiting request that `ends`.
  function Endings(slots: seq<Option<Pending>>, ends: Pending -> bool, sent: Sent): seq<Resolution> {
    if slots == [] then []
    else
      var last := slots[|slots| - 1];
      Endings(slots[..|slots| - 1], ends, sent)
      + if last.Some? && ends(last.value) then [Resolution(last.value.ticket, sent, None)] else []
  }

  lemma NoEndings(ends: Pending -> bool, sent: Sent)
    ensures Endings([], ends, sent) == []
  {
  }

  lemma EndingsStep(slots: seq<Option<Pending>>, i: nat, ends: Pending -> bool, sent: Sent)
    requires i < |slots|
    ensures Endings(slots[..i + 1], ends, sent)
            == Endings(slots[..i], ends, sent)
               + if slots[i].Some? && ends(slots[i].value) then [Resolution(slots[i].value.ticket, sent, None)] else []
  {
    assert slots[..i + 1][..i] == slots[..i];
  }

  function Always(): Pending -> bool { (p: Pending) => true }
  function DueAt(now: nat): Pending -> bool { (p: Pending) => p.deadline <= now }

  // The slot a scan by send time settles on: occupied, strictly older than the earlier ones, no younger than the rest.
  ghost predicate Oldest(slots: seq<Option<Pending>>, n: nat, best: nat)
    requires best < n <= |slots|
  {
    && slots[best].Some?
    && forall j :: 0 <= j < n && slots[j].Some? ==>
         slots[best].value.sentAt <= slots[j].value.sentAt
         && (j < best ==> slots[best].value.sentAt < slots[j].value.sentAt)
  }

  // The registration holds what its caller asked for, sent at `now`.
  predicate Records(p: Pending, ticket: nat, txnId: Word, request: Request, now: nat) {
    && p.ticket == ticket && p.txnId == txnId && p.sentAt == now && p.deadline == request.deadline
    && p.unit == request.unit && p.code == request.code
  }

  class TransactionManager {
    var nextId: Word
    const slots: array<Option<Pending>>
    var allocations: nat
    var history: seq<Pending>
    var log: seq<Resolution>
    var retired: Option<Reason>

    ghost predicate Valid()
      reads this
    {
      slots.Length == MAX_SLOTS && nextId == IdOf(allocations)
    }

    ghost function View(): State
      reads this, slots
    {
      State(allocations, map[], slots[..], map[], history, log, retired)
    }

    constructor ()
      ensures Valid() && View() == INITIAL && fresh(slots)
    {
      nextId, allocations, history, log, retired := 1, 0, [], [], None;
      slots := new Option<Pending>[MAX_SLOTS](_ => None);
    }

    // One turn of the registration loop: draw an ID and take its slot if both are usable.
    method TryNext(request: Request, now: nat) returns (id: Word, ok: bool)
      requires Valid()
      modifies this`nextId, this`allocations, this`history, slots
      ensures Valid() && View() == Apply(Apply(old(View()), FetchId(0)), TryInsert(0, request, now))
      ensures id == old(nextId) && nextId == (old(nextId) + 1) % IDS
      ensures ok <==> id != 0 && old(slots[SlotOf(id)]).None?
      ensures !ok ==> slots[..] == old(slots[..]) && history == old(history)
      ensures ok ==>
                && |history| == |old(history)| + 1 && history[..|old(history)|] == old(history)
                && Records(history[|old(history)|], |old(history)|, id, request, now)
                && slots[..] == old(slots[..])[SlotOf(id) := Some(history[|old(history)|])]
    {
      Attempt(View(), request, now);
      hide Apply;
      id := nextId;
      nextId, allocations := (nextId + 1) % IDS, allocations + 1;
      ok := id != 0 && slots[SlotOf(id)].None?;
      if ok {
        var p := Pending(|history|, allocations - 1, id, now, request.deadline, request.unit, request.code);
        slots[SlotOf(id)], history := Some(p), history + [p];
      }
    }

    // Draw IDs until one is usable and its slot is free, or every slot has been seen occupied.
    method Register(request: Request, now: nat) returns (r: Option<Word>, ghost steps: seq<Step>)
      requires Valid()
      modifies this`nextId, this`allocations, this`history, slots
      ensures Valid() && View() == Run(old(View()), steps)
      ensures r.Some? <==> exists i :: 0 <= i < MAX_SLOTS && old(slots[i]).None?
      ensures r.None? ==> slots[..] == old(slots[..]) && history == old(history)
      ensures r.Some? ==>
                && r.value != 0 && old(slots[SlotOf(r.value)]).None?
                && |history| == |old(history)| + 1 && history[..|old(history)|] == old(history)
                && Records(history[|old(history)|], |old(history)|, r.value, request, now)
                && slots[..] == old(slots[..])[SlotOf(r.value) := Some(history[|old(history)|])]
    {
      hide Apply, Wait;
      steps := [];
      var seen: set<int> := {};
      ghost var target := 0;
      while |seen| < MAX_SLOTS
        invariant Valid() && View() == Run(old(View()), steps)
        invariant slots[..] == old(slots[..]) && history == old(history)
        invariant forall i :: i in seen ==> 0 <= i < MAX_SLOTS && slots[i].Some?
        invariant 0 <= target < MAX_SLOTS && (|seen| < MAX_SLOTS ==> target !in seen)
        decreases MAX_SLOTS - |seen|, Wait(nextId, target)
      {
        if nextId == 0 || SlotOf(nextId) != target { WaitFalls(nextId, target); }
        RunTry(old(View()), steps, request, now);
        steps := steps + [FetchId(0), TryInsert(0, request, now)];
        var id, ok := TryNext(request, now);
        if ok { return Some(id), steps; }
        if id != 0 {
          assert SlotOf(id) in seen ==> seen + {SlotOf(id)} == seen;
          seen := seen + {SlotOf(id)};
        }
        SeenIsAll(seen);
        if |seen| < MAX_SLOTS && target in seen { target :| 0 <= target < MAX_SLOTS && target !in seen; }
      }
      SeenIsAll(seen);
      r := None;
    }

    method Send(slot: nat, sent: Sent, frameId: Option<Word>, reason: Option<Reason>)
      requires Valid() && slot < MAX_SLOTS && slots[slot].Some?
      modifies this`log, this`retired, slots
      ensures Valid() && View() == Settle(old(View()), slot, Flight(sent, frameId, reason))
      ensures AnsweredAlone(old(View()), View(), slot, sent, frameId, reason)
    {
      var ticket := slots[slot].value.ticket;
      slots[slot] := None;
      retired := Retire(retired, reason);
      log := log + [Resolution(ticket, sent, frameId)];
      assert Settle(old(View()), slot, Flight(sent, frameId, reason)).flying == map[];
    }

    method CompleteResponse(txnId: Word, reply: Reply, now: nat) returns (outcome: Outcome)
      requires Valid()
      modifies this`log, this`retired, slots
      ensures Valid() && View() == Resolve(old(View()), Complete(txnId, reply, now))
      ensures var slot := SlotOf(txnId);
              if old(slots[slot]).Some? && old(slots[slot]).value.txnId == txnId then
                exists sent, reason ::
                  && RightAnswer(old(slots[slot]).value, reply, now, sent, reason, outcome)
                  && AnsweredAlone(old(View()), View(), slot, sent, Some(txnId), reason)
              else
                && outcome == UnknownOrDuplicate && slots[..] == old(slots[..]) && log == old(log)
                && RetiredFor(old(retired), Some(UnknownOrDuplicateResponse), retired)
    {
      hide Settle, AnsweredAlone;
      var slot := SlotOf(txnId);
      if slots[slot].None? || slots[slot].value.txnId != txnId {
        retired := Retire(retired, Some(UnknownOrDuplicateResponse));
        return UnknownOrDuplicate;
      }
      var p := slots[slot].value;
      if p.deadline <= now {
        Send(slot, Timeout, Some(txnId), Some(ResponseExpired));
        outcome := Expired;
        assert RightAnswer(p, reply, now, Timeout, Some(ResponseExpired), outcome);
        return;
      }
      var (sent, o, reason) := Deliver(p, reply);
      Send(slot, sent, Some(txnId), reason);
      outcome := o;
      assert RightAnswer(p, reply, now, sent, reason, outcome);
    }

    // RTU replies carry no ID: the oldest waiting request is the one answered.
    method CompleteOldestResponse(reply: Reply, now: nat) returns (outcome: Outcome, ghost chosen: Option<nat>)
      requires Valid()
      modifies this`log, this`retired, slots
      ensures Valid()
      ensures chosen.None? ==> forall i :: 0 <= i < MAX_SLOTS ==> old(slots[i]).None?
      ensures chosen.None? ==> View() == Resolve(old(View()), FoundNothing) && outcome == UnknownOrDuplicate
      ensures chosen.Some? ==> chosen.value < MAX_SLOTS && Oldest(old(slots[..]), MAX_SLOTS, chosen.value)
      ensures chosen.None? ==>
                slots[..] == old(slots[..]) && log == old(log)
                && RetiredFor(old(retired), Some(UnknownOrDuplicateResponse), retired)
      ensures chosen.Some? ==> View() == Resolve(old(View()), CompleteSlot(chosen.value, reply, now))
      ensures chosen.Some? ==>
                var p := old(slots[..])[chosen.value].value;
                if now < p.deadline && reply.unit != p.unit then
                  && outcome == UnitMismatch(p.unit, reply.unit) && slots[..] == old(slots[..]) && log == old(log)
                  && RetiredFor(old(retired), Some(UnexpectedResponseUnit), retired)
                else
                  exists sent, reason ::
                    && RightAnswer(p, reply, now, sent, reason, outcome)
                    && AnsweredAlone(old(View()), View(), chosen.value, sent, None, reason)
    {
      hide Settle, AnsweredAlone;
      var best: Option<nat> := None;
      for i := 0 to MAX_SLOTS
        invariant best.None? ==> forall j :: 0 <= j < i ==> slots[j].None?
        invariant best.Some? ==> best.value < i && Oldest(slots[..], i, best.value)
      {
        if slots[i].Some? && (best.None? || slots[i].value.sentAt < slots[best.value].value.sentAt) {
          best := Some(i);
        }
      }
      chosen := best;
      if best.None? {
        retired := Retire(retired, Some(UnknownOrDuplicateResponse));
        return UnknownOrDuplicate, chosen;
      }
      var slot := best.value;
      var p := slots[slot].value;
      if p.deadline <= now {
        Send(slot, Timeout, None, Some(ResponseExpired));
        outcome := Expired;
        assert RightAnswer(p, reply, now, Timeout, Some(ResponseExpired), outcome);
      } else if p.unit != reply.unit {
        retired := Retire(retired, Some(UnexpectedResponseUnit));
        outcome := UnitMismatch(p.unit, reply.unit);
      } else {
        var (sent, o, reason) := Deliver(p, reply);
        Send(slot, sent, None, reason);
        outcome := o;
        assert RightAnswer(p, reply, now, sent, reason, outcome);
      }
    }

    method RemoveExact(txnId: Word) returns (removed: bool)
      requires Valid()
      modifies this`log, this`retired, slots
      ensures Valid() && View() == Resolve(old(View()), Remove(txnId))
      ensures removed <==> old(slots[SlotOf(txnId)]).Some? && old(slots[SlotOf(txnId)]).value.txnId == txnId
      ensures if removed then AnsweredAlone(old(View()), View(), SlotOf(txnId), Closed, None, None)
              else View() == old(View())
    {
      var slot := SlotOf(txnId);
      if slots[slot].None? || slots[slot].value.txnId != txnId { return false; }
      Send(slot, Closed, None, None);
      removed := true;
    }

    method Cancel(slot: nat)
      requires Valid() && slot < MAX_SLOTS
      modifies this`log, this`retired, slots
      ensures Valid() && View() == Resolve(old(View()), CancelSlot(slot))
      ensures slots[..] == old(slots[..])[slot := None]
      ensures if old(slots[slot]).Some? then AnsweredAlone(old(View()), View(), slot, Cancelled, None, None)
              else View() == old(View())
    {
      if slots[slot].Some? { Send(slot, Cancelled, None, None); }
    }

    method CancelAll() returns (ghost steps: seq<Step>)
      requires Valid()
      modifies this`log, this`retired, slots
      ensures Valid() && View() == Run(old(View()), steps)
      ensures forall i :: 0 <= i < MAX_SLOTS ==> slots[i].None?
      ensures log == old(log) + Endings(old(slots[..]), Always(), Cancelled) && retired == old(retired)
    {
      hide Run, Resolve, MicroSteps, Endings;
      steps := [];
      assert Endings([], Always(), Cancelled) == [] by { NoEndings(Always(), Cancelled); }
      assert old(slots[..])[..0] == [];
      assert Run(View(), []) == View() by { RunOfNone(View()); }
      for i := 0 to MAX_SLOTS
        invariant Valid() && View() == Run(old(View()), steps)
        invariant forall j :: 0 <= j < i ==> slots[j].None?
        invariant slots[i..] == old(slots[i..]) && retired == old(retired)
        invariant log == old(log) + Endings(old(slots[..])[..i], Always(), Cancelled)
      {
        EndingsStep(old(slots[..]), i, Always(), Cancelled);
        RunResolve(old(View()), steps, CancelSlot(i));
        steps := steps + MicroSteps(View(), CancelSlot(i));
        Cancel(i);
      }
      assert old(slots[..])[..MAX_SLOTS] == old(slots[..]);
    }

    method Expire(slot: nat, now: nat)
      requires Valid() && slot < MAX_SLOTS
      modifies this`log, this`retired, slots
      ensures Valid() && View() == Resolve(old(View()), ExpireSlot(slot, now))
      ensures slots[..] == if old(slots[slot]).Some? && old(slots[slot]).value.deadline <= now
                           then old(slots[..])[slot := None] else old(slots[..])
      ensures if old(slots[slot]).Some? && old(slots[slot]).value.deadline <= now
              then AnsweredAlone(old(View()), View(), slot, Timeout, None, Some(RequestTimedOut))
              else View() == old(View())
    {
      if slots[slot].Some? && slots[slot].value.deadline <= now { Send(slot, Timeout, None, Some(RequestTimedOut)); }
    }

    // Expire what is due and report the nearest deadline left.
    method ExpireDue(now: nat) returns (nearest: Option<nat>, ghost steps: seq<Step>)
      requires Valid()
      modifies this`log, this`retired, slots
      ensures Valid() && View() == Run(old(View()), steps)
      ensures forall i :: 0 <= i < MAX_SLOTS ==>
                slots[i] == if old(slots[i]).Some? && old(slots[i]).value.deadline <= now then None else old(slots[i])
      ensures nearest.Some? ==>
                && (exists i :: 0 <= i < MAX_SLOTS && slots[i].Some? && slots[i].value.deadline == nearest.value)
                && now < nearest.value
      ensures forall i :: 0 <= i < MAX_SLOTS && slots[i].Some? ==>
                nearest.Some? && nearest.value <= slots[i].value.deadline
      ensures log == old(log) + Endings(old(slots[..]), DueAt(now), Timeout)
      ensures RetiredFor(old(retired), if Endings(old(slots[..]), DueAt(now), Timeout) == [] then None
                                       else Some(RequestTimedOut), retired)
    {
      hide Run, MicroSteps, Resolve, Endings;
      steps, nearest := [], None;
      assert Endings([], DueAt(now), Timeout) == [] by { NoEndings(DueAt(now), Timeout); }
      assert old(slots[..])[..0] == [];
      assert Run(View(), []) == View() by { RunOfNone(View()); }
      for i := 0 to MAX_SLOTS
        invariant Valid() && View() == Run(old(View()), steps)
        invariant forall j :: 0 <= j < i ==>
                    slots[j] == if old(slots[j]).Some? && old(slots[j]).value.deadline <= now then None
                                else old(slots[j])
        invariant forall j :: i <= j < MAX_SLOTS ==> slots[j] == old(slots[j])
        invariant log == old(log) + Endings(old(slots[..])[..i], DueAt(now), Timeout)
        invariant RetiredFor(old(retired), if Endings(old(slots[..])[..i], DueAt(now), Timeout) == [] then None
                                           else Some(RequestTimedOut), retired)
        invariant nearest.Some? ==>
                    && (exists j :: 0 <= j < i && slots[j].Some? && slots[j].value.deadline == nearest.value)
                    && now < nearest.value
        invariant forall j :: 0 <= j < i && slots[j].Some? ==> nearest.Some? && nearest.value <= slots[j].value.deadline
      {
        EndingsStep(old(slots[..]), i, DueAt(now), Timeout);
        RunResolve(old(View()), steps, ExpireSlot(i, now));
        steps := steps + MicroSteps(View(), ExpireSlot(i, now));
        Expire(i, now);
        if slots[i].Some? && (nearest.None? || slots[i].value.deadline < nearest.value) {
          nearest := Some(slots[i].value.deadline);
        }
      }
      assert old(slots[..])[..MAX_SLOTS] == old(slots[..]);
    }
  }
}
