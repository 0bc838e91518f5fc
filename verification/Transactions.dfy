/** The pipelining transaction manager of the client as a transition system. Every step is one atomic
    action of the source: a fetch-add, a critical section of one slot, a retirement or a send on one
    channel. Its runs are all the interleavings of callers, reader, deadline scheduler, cancelled requests
    and shutdown. Where the source retires and sends under the slot's lock, the model lets others in too. */
module Transactions {
  import opened Bytes

  const MAX_SLOTS := 16
  const IDS := 0x1_0000

  datatype Option<T> = None | Some(value: T)

  // Retirement reasons the manager itself raises.
  datatype Reason =
    | UnknownOrDuplicateResponse | ResponseExpired | RequestTimedOut
    | UnexpectedResponseUnit | UnexpectedResponseFunction | MalformedResponse

  // The terminal value a caller's channel carries.
  datatype Sent =
    | Response(unit: Byte, code: Byte)
    | Timeout
    | WrongUnit(expected: Byte, got: Byte)
    | WrongFunction(expected: Byte, got: Byte)
    | Undecodable
    | Cancelled
    | Closed

  datatype Outcome =
    | Delivered
    | Expired
    | UnknownOrDuplicate
    | UnitMismatch(expected: Byte, got: Byte)
    | FunctionRejected(expected: Byte, got: Byte)
    | CodecRejected

  // One registration. `ticket` names its response channel, `allocation` the fetch-add its ID came from.
  datatype Pending = Pending(
    ticket: nat, allocation: nat, txnId: Word, sentAt: nat, deadline: nat, unit: Byte, code: Byte)

  datatype Resolution = Resolution(ticket: nat, sent: Sent, frameId: Option<Word>)

  // A request as its caller describes it.
  datatype Request = Request(unit: Byte, code: Byte, deadline: nat)

  // A response frame; `decoded` is its function code, or None when the PDU does not decode.
  datatype Reply = Reply(unit: Byte, decoded: Option<Byte>)

  // A request taken from its slot: what its caller will be sent, and the retirement due before that.
  datatype Flight = Flight(sent: Sent, frameId: Option<Word>, reason: Option<Reason>)

  datatype State = State(
    allocations: nat,                // fetch-adds so far
    held: map<nat, nat>,             // callers between their fetch-add and their slot, with the allocation
    slots: seq<Option<Pending>>,
    flying: map<nat, Flight>,        // requests taken but not yet answered, by ticket
    history: seq<Pending>,           // every registration, by ticket
    log: seq<Resolution>,            // every terminal value sent, in order
    retired: Option<Reason>)

  const INITIAL := State(0, map[], seq(MAX_SLOTS, _ => None), map[], [], [], None)

  // The counter starts at 1 and wraps at 16 bits.
  function IdOf(allocation: nat): Word { (1 + allocation) % IDS }

  function SlotOf(txnId: Word): nat { txnId % MAX_SLOTS }

  // First reason wins.
  function Retire(retired: Option<Reason>, reason: Option<Reason>): Option<Reason> {
    if retired.Some? then retired else reason
  }

  function WithException(code: Byte): Byte { if code < 0x80 then code + 0x80 else code }

  // `deliver_response`: unit, then decoding, then function identity.
  function Deliver(p: Pending, reply: Reply): (Sent, Outcome, Option<Reason>) {
    if p.unit != reply.unit then
      (WrongUnit(p.unit, reply.unit), UnitMismatch(p.unit, reply.unit), Some(UnexpectedResponseUnit))
    else if reply.decoded.None? then (Undecodable, CodecRejected, Some(MalformedResponse))
    else
      var got := reply.decoded.value;
      if got != p.code && got != WithException(p.code) then
        (WrongFunction(p.code, got), FunctionRejected(p.code, got), Some(UnexpectedResponseFunction))
      else (Response(reply.unit, got), Delivered, None)
  }

  // ---- Steps ----

  datatype Step =
    | FetchId(caller: nat)
    | TryInsert(caller: nat, request: Request, now: nat)
    | Complete(txnId: Word, reply: Reply, now: nat)
    | CompleteSlot(slot: nat, reply: Reply, now: nat)   // on the slot the scan by send time chose
    | FoundNothing                                      // that scan met no waiting request
    | Remove(txnId: Word)
    | ExpireSlot(slot: nat, now: nat)
    | CancelSlot(slot: nat)
    | RetireFor(ticket: nat)
    | SendTo(ticket: nat)

  // What a critical section makes of the slot it locks: leave it, perhaps retiring the session, or take it.
  datatype Decision =
    | Leave(outcome: Outcome, reason: Option<Reason>)
    | Answer(slot: nat, sent: Sent, frameId: Option<Word>, reason: Option<Reason>, outcome: Outcome)

  // `complete_response`.
  function DecideById(s: State, txnId: Word, reply: Reply, now: nat): Decision
    requires |s.slots| == MAX_SLOTS
  {
    var slot := SlotOf(txnId);
    if s.slots[slot].None? || s.slots[slot].value.txnId != txnId then
      Leave(UnknownOrDuplicate, Some(UnknownOrDuplicateResponse))
    else if s.slots[slot].value.deadline <= now then Answer(slot, Timeout, Some(txnId), Some(ResponseExpired), Expired)
    else
      var (sent, outcome, reason) := Deliver(s.slots[slot].value, reply);
      Answer(slot, sent, Some(txnId), reason, outcome)
  }

  // The second critical section of `complete_oldest_response`.
  function DecideAt(s: State, slot: nat, reply: Reply, now: nat): Decision
    requires slot < |s.slots|
  {
    if s.slots[slot].None? then Leave(UnknownOrDuplicate, Some(UnknownOrDuplicateResponse))
    else
      var p := s.slots[slot].value;
      if p.deadline <= now then Answer(slot, Timeout, None, Some(ResponseExpired), Expired)
      else if p.unit != reply.unit then Leave(UnitMismatch(p.unit, reply.unit), Some(UnexpectedResponseUnit))
      else
        var (sent, outcome, reason) := Deliver(p, reply);
        Answer(slot, sent, None, reason, outcome)
  }

  function Decide(s: State, step: Step): Decision
    requires |s.slots| == MAX_SLOTS
  {
    var nothing := Leave(UnknownOrDuplicate, None);
    match step
    case Complete(txnId, reply, now) => DecideById(s, txnId, reply, now)
    case CompleteSlot(slot, reply, now) => if slot < MAX_SLOTS then DecideAt(s, slot, reply, now) else nothing
    case FoundNothing => Leave(UnknownOrDuplicate, Some(UnknownOrDuplicateResponse))
    case Remove(txnId) =>
      var slot := SlotOf(txnId);
      if s.slots[slot].Some? && s.slots[slot].value.txnId == txnId then Answer(slot, Closed, None, None, Delivered)
      else nothing
    case ExpireSlot(slot, now) =>
      if slot < MAX_SLOTS && s.slots[slot].Some? && s.slots[slot].value.deadline <= now
      then Answer(slot, Timeout, None, Some(RequestTimedOut), Expired) else nothing
    case CancelSlot(slot) =>
      if slot < MAX_SLOTS && s.slots[slot].Some? then Answer(slot, Cancelled, None, None, Delivered) else nothing
    case _ => nothing
  }

  // Take a request out of its slot; its caller is still to be told.
  function Take(s: State, slot: nat, flight: Flight): State
    requires slot < |s.slots| && s.slots[slot].Some?
  {
    s.(slots := s.slots[slot := None], flying := s.flying[s.slots[slot].value.ticket := flight])
  }

  // Retire the session for a taken request, when its answer calls for that.
  function Announce(s: State, ticket: nat): State
    requires ticket in s.flying
  {
    var flight := s.flying[ticket];
    s.(retired := Retire(s.retired, flight.reason), flying := s.flying[ticket := flight.(reason := None)])
  }

  // Send a taken request its terminal value.
  function SendOff(s: State, ticket: nat): State
    requires ticket in s.flying
  {
    var flight := s.flying[ticket];
    s.(flying := s.flying - {ticket}, log := s.log + [Resolution(ticket, flight.sent, flight.frameId)])
  }

  // Register the caller's request under the ID it holds, when that ID is usable and its slot is free.
  function Insert(s: State, caller: nat, request: Request, now: nat): State
    requires |s.slots| == MAX_SLOTS && caller in s.held
  {
    var allocation := s.held[caller];
    var txnId := IdOf(allocation);
    var released := s.(held := s.held - {caller});
    if txnId == 0 || s.slots[SlotOf(txnId)].Some? then released
    else
      var p := Pending(|s.history|, allocation, txnId, now, request.deadline, request.unit, request.code);
      released.(slots := s.slots[SlotOf(txnId) := Some(p)], history := s.history + [p])
  }

  // One critical section of one slot.
  function Lock(s: State, step: Step): State
    requires |s.slots| == MAX_SLOTS
  {
    match Decide(s, step)
    case Leave(_, reason) => s.(retired := Retire(s.retired, reason))
    case Answer(slot, sent, frameId, reason, _) => Take(s, slot, Flight(sent, frameId, reason))
  }

  function Apply(s: State, step: Step): State
    requires |s.slots| == MAX_SLOTS
  {
    match step
    case FetchId(caller) => s.(allocations := s.allocations + 1, held := s.held[caller := s.allocations])
    case TryInsert(caller, request, now) => if caller in s.held then Insert(s, caller, request, now) else s
    case RetireFor(ticket) => if ticket in s.flying then Announce(s, ticket) else s
    case SendTo(ticket) => if ticket in s.flying && s.flying[ticket].reason.None? then SendOff(s, ticket) else s
    case _ => Lock(s, step)
  }

  function Run(s: State, steps: seq<Step>): (r: State)
    requires |s.slots| == MAX_SLOTS
    ensures |r.slots| == MAX_SLOTS
  {
    if steps == [] then s else Apply(Run(s, steps[..|steps| - 1]), steps[|steps| - 1])
  }

  // ---- The invariant ----

  ghost predicate HistoryOk(s: State) {
    && (forall k :: 0 <= k < |s.history| ==>
          && s.history[k].ticket == k && s.history[k].allocation < s.allocations
          && s.history[k].txnId == IdOf(s.history[k].allocation) != 0)
    && (forall j, k :: 0 <= j < k < |s.history| ==> s.history[j].allocation != s.history[k].allocation)
  }

  ghost predicate HeldOk(s: State) {
    && (forall c :: c in s.held ==> s.held[c] < s.allocations)
    && (forall c, k :: c in s.held && 0 <= k < |s.history| ==> s.history[k].allocation != s.held[c])
    && (forall c, d :: c in s.held && d in s.held && c != d ==> s.held[c] != s.held[d])
  }

  // An occupied slot holds the latest registration that ever used it.
  ghost predicate SlotsOk(s: State) {
    && |s.slots| == MAX_SLOTS
    && forall i :: 0 <= i < MAX_SLOTS && s.slots[i].Some? ==>
         var p := s.slots[i].value;
         && p.ticket < |s.history| && s.history[p.ticket] == p && SlotOf(p.txnId) == i
         && forall k :: 0 <= k < |s.history| && SlotOf(s.history[k].txnId) == i ==> k <= p.ticket
  }

  // The registration is waiting in its slot.
  ghost predicate Waiting(s: State, k: nat)
    requires k < |s.history| && |s.slots| == MAX_SLOTS
  {
    s.slots[SlotOf(s.history[k].txnId)] == Some(s.history[k])
  }

  ghost predicate Settled(s: State, k: nat) {
    exists a :: 0 <= a < |s.log| && s.log[a].ticket == k
  }

  // A value a correct manager may send for the registration.
  ghost predicate Fits(p: Pending, sent: Sent, frameId: Option<Word>) {
    && (frameId.Some? ==> frameId.value == p.txnId)
    && (sent.Response? ==> sent.unit == p.unit && (sent.code == p.code || sent.code == WithException(p.code)))
  }

  // Values that leave no doubt about the connection.
  predicate Benign(sent: Sent) { sent.Response? || sent.Cancelled? || sent.Closed? }

  ghost predicate SentOk(s: State, r: Resolution) {
    && r.ticket < |s.history| && Fits(s.history[r.ticket], r.sent, r.frameId)
    && (s.retired.Some? || Benign(r.sent))
  }

  ghost predicate FlightOk(s: State, ticket: nat, flight: Flight) {
    && ticket < |s.history| && Fits(s.history[ticket], flight.sent, flight.frameId)
    && (s.retired.Some? || Benign(flight.sent) || flight.reason.Some?)
  }

  // Exactly one of: waiting, taken, answered.
  ghost predicate OnePlace(s: State, k: nat)
    requires k < |s.history| && |s.slots| == MAX_SLOTS
  {
    && (Waiting(s, k) || k in s.flying || Settled(s, k))
    && !(Waiting(s, k) && k in s.flying) && !(Waiting(s, k) && Settled(s, k)) && !(k in s.flying && Settled(s, k))
  }

  ghost predicate AnswersOk(s: State)
    requires |s.slots| == MAX_SLOTS
  {
    && (forall a :: 0 <= a < |s.log| ==> SentOk(s, s.log[a]))
    && (forall t :: t in s.flying ==> FlightOk(s, t, s.flying[t]))
    && (forall a, b :: 0 <= a < b < |s.log| ==> s.log[a].ticket != s.log[b].ticket)
    && (forall k :: 0 <= k < |s.history| ==> OnePlace(s, k))
  }

  ghost predicate Inv(s: State)
    ensures Inv(s) ==> |s.slots| == MAX_SLOTS
  {
    HistoryOk(s) && HeldOk(s) && SlotsOk(s) && AnswersOk(s)
  }

  // ---- Every step keeps it ----

  lemma TakeKeepsInv(s: State, slot: nat, flight: Flight)
    requires Inv(s) && slot < MAX_SLOTS && s.slots[slot].Some?
    requires Fits(s.slots[slot].value, flight.sent, flight.frameId) && (Benign(flight.sent) || flight.reason.Some?)
    ensures Inv(Take(s, slot, flight))
  {
    var p, s' := s.slots[slot].value, Take(s, slot, flight);
    assert Waiting(s, p.ticket) && OnePlace(s, p.ticket);
    forall k | 0 <= k < |s'.history| ensures OnePlace(s', k) {
      assert OnePlace(s, k) && (Settled(s', k) <==> Settled(s, k));
      if SlotOf(s.history[k].txnId) == slot && k != p.ticket { assert s.history[k].ticket == k; }
    }
    forall t | t in s'.flying ensures FlightOk(s', t, s'.flying[t]) {
      if t != p.ticket { assert FlightOk(s, t, s.flying[t]); }
    }
    forall a | 0 <= a < |s.log| ensures SentOk(s', s'.log[a]) { assert SentOk(s, s.log[a]); }
  }

  lemma AnnounceKeepsInv(s: State, ticket: nat)
    requires Inv(s) && ticket in s.flying
    ensures Inv(Announce(s, ticket))
  {
    var s' := Announce(s, ticket);
    forall k | 0 <= k < |s'.history| ensures OnePlace(s', k) {
      assert OnePlace(s, k) && (Settled(s', k) <==> Settled(s, k)) && (Waiting(s', k) <==> Waiting(s, k));
    }
    forall t | t in s'.flying ensures FlightOk(s', t, s'.flying[t]) { assert FlightOk(s, t, s.flying[t]); }
    forall a | 0 <= a < |s.log| ensures SentOk(s', s'.log[a]) { assert SentOk(s, s.log[a]); }
  }

  lemma SendOffKeepsInv(s: State, ticket: nat)
    requires Inv(s) && ticket in s.flying && s.flying[ticket].reason.None?
    ensures Inv(SendOff(s, ticket))
  {
    var s' := SendOff(s, ticket);
    assert FlightOk(s, ticket, s.flying[ticket]) && OnePlace(s, ticket);
    forall k | 0 <= k < |s'.history| ensures OnePlace(s', k) {
      assert OnePlace(s, k) && (Waiting(s', k) <==> Waiting(s, k));
      SettledSnoc(s, s', k);
    }
    forall t | t in s'.flying ensures FlightOk(s', t, s'.flying[t]) { assert FlightOk(s, t, s.flying[t]); }
    forall a | 0 <= a < |s'.log| ensures SentOk(s', s'.log[a]) { if a < |s.log| { assert SentOk(s, s.log[a]); } }
    forall a | 0 <= a < |s.log| ensures s.log[a].ticket != ticket { assert Settled(s, s.log[a].ticket); }
  }

  lemma SettledSnoc(s: State, s': State, k: nat)
    requires s'.log != [] && s'.log[..|s'.log| - 1] == s.log
    ensures Settled(s', k) <==> Settled(s, k) || s'.log[|s'.log| - 1].ticket == k
  {
    var n := |s'.log| - 1;
    assert forall a :: 0 <= a < n ==> s'.log[a] == s.log[a];
    if Settled(s, k) {
      var a :| 0 <= a < |s.log| && s.log[a].ticket == k;
      assert s'.log[a].ticket == k;
    }
    if s'.log[n].ticket == k { assert Settled(s', k); }
  }

  lemma InsertKeepsRecords(s: State, caller: nat, request: Request, now: nat)
    requires Inv(s) && caller in s.held
    ensures var s' := Insert(s, caller, request, now);
            HistoryOk(s') && HeldOk(s') && SlotsOk(s') && s'.history[..|s.history|] == s.history
  {
    hide AnswersOk;
  }

  lemma InsertKeepsAnswers(s: State, s': State)
    requires Inv(s) && HistoryOk(s') && SlotsOk(s')
    requires s'.log == s.log && s'.retired == s.retired && s'.flying == s.flying
    requires |s'.history| == |s.history| + 1 && s'.history[..|s.history|] == s.history
    requires var p := s'.history[|s.history|];
             s.slots[SlotOf(p.txnId)].None? && s'.slots == s.slots[SlotOf(p.txnId) := Some(p)]
    ensures AnswersOk(s')
  {
    var n := |s.history|;
    assert forall j :: 0 <= j < n ==> s'.history[j] == s.history[j];
    forall a | 0 <= a < |s'.log| ensures SentOk(s', s'.log[a]) { assert SentOk(s, s.log[a]); }
    forall t | t in s'.flying ensures FlightOk(s', t, s'.flying[t]) { assert FlightOk(s, t, s.flying[t]); }
    forall k | 0 <= k <= n ensures OnePlace(s', k) {
      assert Settled(s', k) <==> Settled(s, k);
      if k < n { assert OnePlace(s, k) && (Waiting(s', k) <==> Waiting(s, k)); }
    }
  }

  // Steps that touch neither slots nor answers, except by retiring the session.
  lemma SameAnswers(s: State, s': State)
    requires Inv(s) && s' == s.(held := s'.held, allocations := s'.allocations, retired := s'.retired)
    requires s.retired.Some? ==> s'.retired.Some?
    ensures AnswersOk(s')
  {
    forall a | 0 <= a < |s.log| ensures SentOk(s', s'.log[a]) { assert SentOk(s, s.log[a]); }
    forall t | t in s'.flying ensures FlightOk(s', t, s'.flying[t]) { assert FlightOk(s, t, s.flying[t]); }
    forall k | 0 <= k < |s.history| ensures OnePlace(s', k) {
      assert OnePlace(s, k) && (Waiting(s', k) <==> Waiting(s, k)) && (Settled(s', k) <==> Settled(s, k));
    }
  }

  lemma InsertKeepsInv(s: State, caller: nat, request: Request, now: nat)
    requires Inv(s) && caller in s.held
    ensures Inv(Insert(s, caller, request, now))
  {
    hide HistoryOk, HeldOk, SlotsOk, AnswersOk;
    InsertKeepsRecords(s, caller, request, now);
    var s' := Insert(s, caller, request, now);
    if |s'.history| > |s.history| { InsertKeepsAnswers(s, s'); } else { SameAnswers(s, s'); }
  }

  lemma FetchKeepsInv(s: State, caller: nat)
    requires Inv(s)
    ensures Inv(Apply(s, FetchId(caller)))
  {
    hide AnswersOk;
    SameAnswers(s, Apply(s, FetchId(caller)));
  }

  // Whatever a critical section decides to send fits the request it takes.
  lemma DecisionFits(s: State, step: Step)
    requires |s.slots| == MAX_SLOTS && Decide(s, step).Answer?
    ensures var d := Decide(s, step);
            && d.slot < MAX_SLOTS && s.slots[d.slot].Some? && Fits(s.slots[d.slot].value, d.sent, d.frameId)
            && (Benign(d.sent) || d.reason.Some?)
  {
  }

  lemma StepKeepsInv(s: State, step: Step)
    requires Inv(s)
    ensures Inv(Apply(s, step))
  {
    hide HistoryOk, HeldOk, SlotsOk, AnswersOk, Insert, Announce, SendOff, Lock;
    match step
    case FetchId(caller) => FetchKeepsInv(s, caller);
    case TryInsert(caller, request, now) => if caller in s.held { InsertKeepsInv(s, caller, request, now); }
    case RetireFor(ticket) => if ticket in s.flying { AnnounceKeepsInv(s, ticket); }
    case SendTo(ticket) => if ticket in s.flying && s.flying[ticket].reason.None? { SendOffKeepsInv(s, ticket); }
    case _ => LockKeepsInv(s, step);
  }

  lemma LockKeepsInv(s: State, step: Step)
    requires Inv(s)
    ensures Inv(Lock(s, step))
  {
    hide HistoryOk, HeldOk, SlotsOk, AnswersOk, Take, Decide, Fits;
    match Decide(s, step)
    case Leave(_, reason) => RetireKeepsInv(s, reason);
    case Answer(slot, sent, frameId, reason, _) =>
      DecisionFits(s, step);
      TakeKeepsInv(s, slot, Flight(sent, frameId, reason));
  }

  lemma RetireKeepsInv(s: State, reason: Option<Reason>)
    requires Inv(s)
    ensures Inv(s.(retired := Retire(s.retired, reason)))
  {
    hide AnswersOk;
    SameAnswers(s, s.(retired := Retire(s.retired, reason)));
  }

  lemma {:induction false} RunKeepsInv(s: State, steps: seq<Step>)
    requires Inv(s)
    ensures Inv(Run(s, steps))
  {
    hide Inv, Apply;
    if steps != [] {
      RunKeepsInv(s, steps[..|steps| - 1]);
      StepKeepsInv(Run(s, steps[..|steps| - 1]), steps[|steps| - 1]);
    }
  }

  lemma InitialInv()
    ensures Inv(INITIAL)
  {
  }

  // ---- What a reply must lead to ----

  // The value its caller is sent, the reason to retire the session and the outcome, when a reply meets the
  // waiting request `p` at `now`.
  ghost predicate RightAnswer(p: Pending, reply: Reply, now: nat, sent: Sent, reason: Option<Reason>,
                              outcome: Outcome)
  {
    && (p.deadline <= now ==> sent == Timeout && reason == Some(ResponseExpired) && outcome == Expired)
    && (now < p.deadline && reply.unit != p.unit ==>
          && sent == WrongUnit(p.unit, reply.unit) && reason == Some(UnexpectedResponseUnit)
          && outcome == UnitMismatch(p.unit, reply.unit))
    && (now < p.deadline && reply.unit == p.unit && reply.decoded.None? ==>
          sent == Undecodable && reason == Some(MalformedResponse) && outcome == CodecRejected)
    && (now < p.deadline && reply.unit == p.unit && reply.decoded.Some? ==>
          var got := reply.decoded.value;
          if got == p.code || got == p.code + 0x80
          then sent == Response(p.unit, got) && reason == None && outcome == Delivered
          else && sent == WrongFunction(p.code, got) && reason == Some(UnexpectedResponseFunction)
               && outcome == FunctionRejected(p.code, got))
  }

  // The session is retired for `reason`, unless it was before.
  ghost predicate RetiredFor(before: Option<Reason>, reason: Option<Reason>, after: Option<Reason>) {
    after == if before.Some? then before else reason
  }

  // ---- What every interleaving guarantees ----

  // In every reachable state each registration is in exactly one place: waiting in its slot, taken by
  // whoever will answer it, or answered; and it is answered by exactly one log entry.
  lemma EveryRequestSettlesOnce(steps: seq<Step>, k: nat)
    requires k < |Run(INITIAL, steps).history|
    ensures var s := Run(INITIAL, steps);
            && OnePlace(s, k)
            && forall a, b :: 0 <= a < b < |s.log| ==> !(s.log[a].ticket == k == s.log[b].ticket)
  {
    InitialInv();
    RunKeepsInv(INITIAL, steps);
  }

  // Nothing holds back an answer: whoever took a request can retire for it and send in two more steps.
  lemma TakenRequestsCanBeAnswered(steps: seq<Step>, k: nat)
    requires k in Run(INITIAL, steps).flying
    ensures Settled(Run(INITIAL, steps + [RetireFor(k), SendTo(k)]), k)
  {
    hide Apply;
    var s := Run(INITIAL, steps);
    AnswerSteps(s, k);
    var u := SendOff(Announce(s, k), k);
    assert (steps + [RetireFor(k), SendTo(k)])[..|steps| + 1] == steps + [RetireFor(k)];
    assert (steps + [RetireFor(k)])[..|steps|] == steps;
    assert Run(INITIAL, steps + [RetireFor(k), SendTo(k)]) == u;
    assert u.log[|s.log|].ticket == k;
  }

  lemma AnswerSteps(s: State, k: nat)
    requires |s.slots| == MAX_SLOTS && k in s.flying
    ensures Apply(s, RetireFor(k)) == Announce(s, k) && k in Announce(s, k).flying
    ensures Apply(Announce(s, k), SendTo(k)) == SendOff(Announce(s, k), k)
  {
  }

  // A response handed to a caller answers that caller's request: same unit, same function or its
  // exception, and on TCP the very transaction ID of the request.
  lemma ResponsesAnswerTheirRequest(steps: seq<Step>, a: nat)
    requires a < |Run(INITIAL, steps).log| && Run(INITIAL, steps).log[a].sent.Response?
    ensures var s := Run(INITIAL, steps);
            var r := s.log[a];
            r.ticket < |s.history| &&
            var p := s.history[r.ticket];
            && r.sent.unit == p.unit
            && (r.sent.code == p.code || r.sent.code == WithException(p.code))
            && (r.frameId.Some? ==> r.frameId.value == p.txnId)
  {
    InitialInv();
    RunKeepsInv(INITIAL, steps);
    assert SentOk(Run(INITIAL, steps), Run(INITIAL, steps).log[a]);
  }

  // Two waiting requests never share a transaction ID, and an ID is never zero.
  lemma WaitingIdsAreDistinct(steps: seq<Step>, i: nat, j: nat)
    requires i < j < MAX_SLOTS
    requires Run(INITIAL, steps).slots[i].Some? && Run(INITIAL, steps).slots[j].Some?
    ensures var s := Run(INITIAL, steps);
            && s.slots[i].value.txnId != s.slots[j].value.txnId
            && s.slots[i].value.txnId != 0 && s.slots[j].value.txnId != 0
  {
    InitialInv();
    RunKeepsInv(INITIAL, steps);
  }

  lemma SameIdIsFarApart(a: nat, b: nat)
    ensures IdOf(a) == IdOf(b) <==> (a - b) % IDS == 0
    ensures a != b && IdOf(a) == IdOf(b) ==> a - b >= IDS || b - a >= IDS
  {
    var p, q := (1 + a) / IDS, (1 + b) / IDS;
    assert a - b == (p - q) * IDS + (IdOf(a) - IdOf(b));
  }

  // A reply carrying the ID of request `j` can take another request `k` only if `k` was registered later
  // and at least 65536 fetch-adds separate their IDs: within one lap of the counter a late reply reaches
  // nobody else.
  lemma LateRepliesStayWithTheirLap(steps: seq<Step>, j: nat, reply: Reply, now: nat)
    requires j < |Run(INITIAL, steps).history|
    ensures var s := Run(INITIAL, steps);
            var d := Decide(s, Complete(s.history[j].txnId, reply, now));
            d.Answer? ==>
              d.slot < MAX_SLOTS && s.slots[d.slot].Some? &&
              var k := s.slots[d.slot].value.ticket;
              k < |s.history| &&
              (k == j || (k > j && (s.history[k].allocation - s.history[j].allocation >= IDS
                                    || s.history[j].allocation - s.history[k].allocation >= IDS)))
  {
    InitialInv();
    RunKeepsInv(INITIAL, steps);
    var s := Run(INITIAL, steps);
    var slot := SlotOf(s.history[j].txnId);
    if s.slots[slot].Some? && s.slots[slot].value.txnId == s.history[j].txnId {
      var k := s.slots[slot].value.ticket;
      SameIdIsFarApart(s.history[k].allocation, s.history[j].allocation);
    }
  }

  // A session that was never retired has sent its callers matching responses and local closures only.
  lemma UnretiredMeansUnambiguous(steps: seq<Step>, a: nat)
    requires Run(INITIAL, steps).retired.None? && a < |Run(INITIAL, steps).log|
    ensures Benign(Run(INITIAL, steps).log[a].sent)
  {
    InitialInv();
    RunKeepsInv(INITIAL, steps);
    assert SentOk(Run(INITIAL, steps), Run(INITIAL, steps).log[a]);
  }

  // Retirement is permanent and the first reason wins; sent values are never taken back.
  lemma {:induction false} RunOnlyAdds(s: State, steps: seq<Step>)
    requires |s.slots| == MAX_SLOTS
    ensures s.retired.Some? ==> Run(s, steps).retired == s.retired
    ensures s.log <= Run(s, steps).log && s.history <= Run(s, steps).history
  {
    hide Apply;
    if steps != [] {
      RunOnlyAdds(s, steps[..|steps| - 1]);
      StepOnlyAdds(Run(s, steps[..|steps| - 1]), steps[|steps| - 1]);
    }
  }

  lemma StepOnlyAdds(s: State, step: Step)
    requires |s.slots| == MAX_SLOTS
    ensures s.retired.Some? ==> Apply(s, step).retired == s.retired
    ensures s.log <= Apply(s, step).log && s.history <= Apply(s, step).history
  {
    hide Decide;
  }
}
