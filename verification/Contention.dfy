/** Callers registering against each other. Which slots a registration has seen is decided by the IDs it
    draws, whatever else happens in between; so whether it ends depends on how the others' draws fall
    between its own. */
module Contention {
  import opened Transactions
  import opened TransactionObject
  import Folds

  // ---- What a registration has seen ----

  // The fetch-adds of a caller in a run, by number.
  function Draws(s: State, steps: seq<Step>, caller: nat): seq<nat>
    requires |s.slots| == MAX_SLOTS
  {
    if steps == [] then []
    else
      var init := steps[..|steps| - 1];
      Draws(s, init, caller) + if steps[|steps| - 1] == FetchId(caller) then [Run(s, init).allocations] else []
  }

  // The slots of the usable IDs among them: `seen_slots` of a registration that starts in `s`.
  function SeenIn(draws: seq<nat>): set<int> {
    set j | 0 <= j < |draws| && IdOf(draws[j]) != 0 :: SlotOf(IdOf(draws[j]))
  }

  function Seen(s: State, steps: seq<Step>, caller: nat): set<int>
    requires |s.slots| == MAX_SLOTS
  {
    SeenIn(Draws(s, steps, caller))
  }

  // The others draw `k` IDs between any two of the caller's.
  predicate Paced(draws: seq<nat>, k: nat) {
    forall j | 0 <= j < |draws| :: draws[j] == draws[0] + (k + 1) * j
  }

  // ---- Arithmetic of the ring ----

  lemma LapsDropOut(m: nat, r: nat)
    ensures (MAX_SLOTS * m + r) % MAX_SLOTS == r % MAX_SLOTS
  {
  }

  // The slots divide the IDs evenly, so the wrap of the counter does not show in them.
  lemma SlotOfId(a: nat)
    ensures SlotOf(IdOf(a)) == (1 + a) % MAX_SLOTS
  {
    var laps: nat := (1 + a) / IDS;
    assert 1 + a == MAX_SLOTS * (4096 * laps) + IdOf(a);
    LapsDropOut(4096 * laps, IdOf(a));
  }

  // Odd numbers have inverses modulo sixteen.
  function Inverse(r: nat): nat
    requires r < MAX_SLOTS && r % 2 == 1
  {
    [0, 1, 0, 11, 0, 13, 0, 7, 0, 9, 0, 3, 0, 5, 0, 15][r]
  }

  lemma InverseIs(r: nat)
    requires r < MAX_SLOTS && r % 2 == 1
    ensures r * Inverse(r) == MAX_SLOTS * (r * Inverse(r) / MAX_SLOTS) + 1
  {
  }

  lemma Scaled(r: nat, inverse: nat, c: nat, d: nat)
    requires r * inverse == MAX_SLOTS * c + 1 && d < MAX_SLOTS
    ensures (r * ((d * inverse) % MAX_SLOTS)) % MAX_SLOTS == d
  {
    var e, j := d * inverse / MAX_SLOTS, (d * inverse) % MAX_SLOTS;
    assert d * inverse == MAX_SLOTS * e + j;
    calc {
      r * j;
      r * (d * inverse - MAX_SLOTS * e);
      d * (r * inverse) - MAX_SLOTS * (r * e);
      d * (MAX_SLOTS * c + 1) - MAX_SLOTS * (r * e);
      MAX_SLOTS * (d * c - r * e) + d;
    }
    Remainder(d * c - r * e, d);
  }

  lemma Remainder(m: int, d: nat)
    requires d < MAX_SLOTS
    ensures (MAX_SLOTS * m + d) % MAX_SLOTS == d
  {
  }

  lemma SumOfRemainders(x: nat, y: nat)
    ensures (x + y) % MAX_SLOTS == (x % MAX_SLOTS + y % MAX_SLOTS) % MAX_SLOTS
  {
  }

  lemma ProductOfRemainder(x: nat, j: nat)
    ensures (x * j) % MAX_SLOTS == (x % MAX_SLOTS * j) % MAX_SLOTS
  {
    var q, r := x / MAX_SLOTS, x % MAX_SLOTS;
    assert x * j == MAX_SLOTS * (q * j) + r * j;
    LapsDropOut(q * j, r * j);
  }

  // The turn among sixteen whose draw falls on a given slot, for an odd distance between draws.
  lemma TurnFor(first: nat, stride: nat, slot: nat) returns (j: nat)
    requires stride % 2 == 1 && slot < MAX_SLOTS
    ensures j < MAX_SLOTS && (first + stride * j) % MAX_SLOTS == slot
  {
    hide Inverse;
    var r, d := stride % MAX_SLOTS, Offset(first % MAX_SLOTS, slot);
    OddRemainder(stride);
    j := (d * Inverse(r)) % MAX_SLOTS;
    InverseIs(r);
    Scaled(r, Inverse(r), r * Inverse(r) / MAX_SLOTS, d);
    ProductOfRemainder(stride, j);
    SumOfRemainders(first, stride * j);
  }

  function Offset(from: nat, slot: nat): (d: nat)
    requires from < MAX_SLOTS && slot < MAX_SLOTS
    ensures d < MAX_SLOTS && (from + d) % MAX_SLOTS == slot
  {
    if from <= slot then slot - from else slot + MAX_SLOTS - from
  }

  lemma OddRemainder(stride: nat)
    requires stride % 2 == 1
    ensures stride % MAX_SLOTS % 2 == 1
  {
  }

  // Two draws sixteen odd strides apart do not both get the unusable ID.
  lemma OneIsUsable(a: nat, stride: nat)
    requires stride % 2 == 1
    ensures IdOf(a) != 0 || IdOf(a + MAX_SLOTS * stride) != 0
  {
  }

  lemma EvenKeepsParity(first: nat, stride: nat, j: nat)
    requires stride % 2 == 0
    ensures (first + stride * j) % MAX_SLOTS % 2 == first % 2
  {
    var h := stride / 2;
    assert stride * j == 2 * (h * j);
    var x: nat := first + 2 * (h * j);
    assert x == MAX_SLOTS * (x / MAX_SLOTS) + x % MAX_SLOTS;
  }

  // ---- When a registration has seen every slot ----

  predicate AllSeen(seen: set<int>) { |seen| == MAX_SLOTS }

  lemma DrawSlot(draws: seq<nat>, k: nat, j: nat)
    requires Paced(draws, k) && j < |draws|
    ensures SlotOf(IdOf(draws[j])) == (1 + draws[0] + (k + 1) * j) % MAX_SLOTS
  {
    SlotOfId(draws[j]);
  }

  lemma SeenAreSlots(draws: seq<nat>)
    ensures forall i :: i in SeenIn(draws) ==> 0 <= i < MAX_SLOTS
  {
  }

  lemma EvenPaceSees(draws: seq<nat>, k: nat, slot: nat)
    requires Paced(draws, k) && k % 2 == 0 && |draws| >= 2 * MAX_SLOTS && slot < MAX_SLOTS
    ensures slot in SeenIn(draws)
  {
    hide Paced, IdOf;
    var j := TurnFor(1 + draws[0], k + 1, slot);
    var later := j + MAX_SLOTS;
    DrawSlot(draws, k, j);
    DrawSlot(draws, k, later);
    var q: nat := (k + 1) * j;
    assert (k + 1) * later == MAX_SLOTS * (k + 1) + q;
    LapsDropOut(k + 1, 1 + draws[0] + q);
    assert draws[later] == draws[j] + MAX_SLOTS * (k + 1) by { LaterDraw(draws, k, j); }
    OneIsUsable(draws[j], k + 1);
  }

  lemma LaterDraw(draws: seq<nat>, k: nat, j: nat)
    requires Paced(draws, k) && j + MAX_SLOTS < |draws|
    ensures draws[j + MAX_SLOTS] == draws[j] + MAX_SLOTS * (k + 1)
  {
    assert (k + 1) * (j + MAX_SLOTS) == (k + 1) * j + MAX_SLOTS * (k + 1);
  }

  function SameParity(first: nat): set<int> { set i | 0 <= i < MAX_SLOTS && i % 2 == first % 2 }

  lemma HalfTheSlots(first: nat)
    ensures |SameParity(first)| == 8
  {
    if first % 2 == 0 {
      assert SameParity(first) == {0, 2, 4, 6, 8, 10, 12, 14};
    } else {
      assert SameParity(first) == {1, 3, 5, 7, 9, 11, 13, 15};
    }
  }

  lemma OddPaceMisses(draws: seq<nat>, k: nat)
    requires Paced(draws, k) && k % 2 == 1
    ensures |SeenIn(draws)| <= 8
  {
    hide Paced, IdOf;
    var first := if draws == [] then 0 else 1 + draws[0];
    forall i | i in SeenIn(draws) ensures i in SameParity(first) {
      var j :| 0 <= j < |draws| && IdOf(draws[j]) != 0 && i == SlotOf(IdOf(draws[j]));
      DrawSlot(draws, k, j);
      EvenKeepsParity(first, k + 1, j);
    }
    HalfTheSlots(first);
    Folds.SubsetSize(SeenIn(draws), SameParity(first));
  }

  // Whatever the others do besides, and whatever the slots hold: a registration whose draws are `k` foreign
  // draws apart has seen every slot after thirty-two of them if `k` is even, and never does if `k` is odd.
  lemma SeesAllIfEven(s: State, steps: seq<Step>, caller: nat, k: nat)
    requires |s.slots| == MAX_SLOTS && Paced(Draws(s, steps, caller), k)
    ensures AllSeen(Seen(s, steps, caller)) ==> k % 2 == 0
    ensures k % 2 == 0 && |Draws(s, steps, caller)| >= 2 * MAX_SLOTS ==> AllSeen(Seen(s, steps, caller))
  {
    hide Paced, SeenIn, Draws;
    var draws := Draws(s, steps, caller);
    if k % 2 == 1 {
      OddPaceMisses(draws, k);
    } else if |draws| >= 2 * MAX_SLOTS {
      forall i | 0 <= i < MAX_SLOTS ensures i in SeenIn(draws) { EvenPaceSees(draws, k, i); }
      SeenAreSlots(draws);
      SeenIsAll(SeenIn(draws));
    }
  }

  // ---- A full ring ----

  ghost predicate Full(s: State) {
    |s.slots| == MAX_SLOTS && s.held == map[] && forall i :: 0 <= i < MAX_SLOTS ==> s.slots[i].Some?
  }

  // `n` turns of a caller's registration loop.
  function Tries(caller: nat, n: nat, request: Request, now: nat): seq<Step> {
    if n == 0 then [] else Tries(caller, n - 1, request, now) + [FetchId(caller), TryInsert(caller, request, now)]
  }

  // `n` rounds: one turn of caller 0, then `k` turns of caller 1.
  function Rounds(k: nat, n: nat, request: Request, now: nat): seq<Step> {
    if n == 0 then [] else Rounds(k, n - 1, request, now) + (Tries(0, 1, request, now) + Tries(1, k, request, now))
  }

  lemma FullTry(s: State, caller: nat, request: Request, now: nat)
    requires Full(s)
    ensures |Apply(s, FetchId(caller)).slots| == MAX_SLOTS
    ensures Apply(Apply(s, FetchId(caller)), TryInsert(caller, request, now)) == s.(allocations := s.allocations + 1)
  {
    var t := Apply(s, FetchId(caller));
    assert t.held - {caller} == map[];
  }

  lemma RunTwo(s: State, f: Step, g: Step)
    requires |s.slots| == MAX_SLOTS && |Apply(s, f).slots| == MAX_SLOTS
    ensures Run(s, [f, g]) == Apply(Apply(s, f), g)
  {
    hide Apply, Run;
    RunConcat(s, [f], [g]);
    RunOne(s, f);
    RunOne(Apply(s, f), g);
    assert [f] + [g] == [f, g];
  }

  lemma {:induction false} FullTries(s: State, caller: nat, n: nat, request: Request, now: nat)
    requires Full(s)
    ensures Run(s, Tries(caller, n, request, now)) == s.(allocations := s.allocations + n)
  {
    hide Run, Apply;
    if n == 0 {
      RunOfNone(s);
    } else {
      FullTries(s, caller, n - 1, request, now);
      var t := s.(allocations := s.allocations + n - 1);
      var f, g := FetchId(caller), TryInsert(caller, request, now);
      FullTry(t, caller, request, now);
      RunConcat(s, Tries(caller, n - 1, request, now), [f, g]);
      RunTwo(t, f, g);
    }
  }

  lemma {:induction false} DrawsConcat(s: State, a: seq<Step>, b: seq<Step>, caller: nat)
    requires |s.slots| == MAX_SLOTS
    ensures Draws(s, a + b, caller) == Draws(s, a, caller) + Draws(Run(s, a), b, caller)
  {
    hide Run;
    if b == [] {
      assert a + b == a;
      RunOfNone(s);
    } else {
      var init := b[..|b| - 1];
      assert (a + b)[..|a + b| - 1] == a + init;
      DrawsConcat(s, a, init, caller);
      RunConcat(s, a, init);
    }
  }

  lemma NoDraws(s: State, caller: nat)
    requires |s.slots| == MAX_SLOTS
    ensures Draws(s, [], caller) == []
  {
  }

  lemma DrawsOfTry(s: State, caller: nat, drawing: nat, request: Request, now: nat)
    requires |s.slots| == MAX_SLOTS
    ensures Draws(s, [FetchId(drawing), TryInsert(drawing, request, now)], caller)
            == if drawing == caller then [s.allocations] else []
  {
    hide Apply;
    var f, g := FetchId(drawing), TryInsert(drawing, request, now);
    assert [f, g][..1] == [f] && [f][..0] == [];
    assert Draws(s, [], caller) == [] && Run(s, []) == s;
    assert Draws(s, [f], caller) == if drawing == caller then [s.allocations] else [];
  }

  lemma {:induction false} OthersDrawNothing(s: State, n: nat, request: Request, now: nat)
    requires Full(s)
    ensures Draws(s, Tries(1, n, request, now), 0) == []
  {
    hide Run, Draws;
    if n == 0 {
      NoDraws(s, 0);
    } else {
      OthersDrawNothing(s, n - 1, request, now);
      FullTries(s, 1, n - 1, request, now);
      DrawsConcat(s, Tries(1, n - 1, request, now), [FetchId(1), TryInsert(1, request, now)], 0);
      DrawsOfTry(s.(allocations := s.allocations + n - 1), 0, 1, request, now);
    }
  }

  lemma OneTry(caller: nat, request: Request, now: nat)
    ensures Tries(caller, 1, request, now) == [FetchId(caller), TryInsert(caller, request, now)]
  {
    assert Tries(caller, 0, request, now) == [];
  }

  lemma RoundIs(s: State, k: nat, request: Request, now: nat)
    requires Full(s)
    ensures var round := Tries(0, 1, request, now) + Tries(1, k, request, now);
            Run(s, round) == s.(allocations := s.allocations + 1 + k) && Draws(s, round, 0) == [s.allocations]
  {
    hide Run, Draws, Tries;
    var a, b := Tries(0, 1, request, now), Tries(1, k, request, now);
    var t := s.(allocations := s.allocations + 1);
    FullTries(s, 0, 1, request, now);
    FullTries(t, 1, k, request, now);
    RunConcat(s, a, b);
    DrawsConcat(s, a, b, 0);
    OneTry(0, request, now);
    DrawsOfTry(s, 0, 0, request, now);
    OthersDrawNothing(t, k, request, now);
  }

  // Rounds against a full ring register nothing, and pace caller 0's draws.
  lemma {:induction false} RoundsPace(s: State, k: nat, n: nat, request: Request, now: nat)
    requires Full(s)
    ensures Run(s, Rounds(k, n, request, now)) == s.(allocations := s.allocations + (k + 1) * n)
    ensures var draws := Draws(s, Rounds(k, n, request, now), 0);
            |draws| == n && forall j :: 0 <= j < n ==> draws[j] == s.allocations + (k + 1) * j
  {
    hide Run, Tries, Draws;
    if n == 0 {
      RunOfNone(s);
      NoDraws(s, 0);
    } else {
      var rounds, round := Rounds(k, n - 1, request, now), Tries(0, 1, request, now) + Tries(1, k, request, now);
      RoundsPace(s, k, n - 1, request, now);
      var t := s.(allocations := s.allocations + (k + 1) * (n - 1));
      RoundIs(t, k, request, now);
      RunConcat(s, rounds, round);
      DrawsConcat(s, rounds, round, 0);
      assert (k + 1) * (n - 1) + (k + 1) == (k + 1) * n;
    }
  }

  // Against a full ring, with `k` foreign turns after each of its own, a registration gives up if and only
  // if `k` is even, and then within thirty-two turns; nothing is ever registered.
  lemma GivesUpIfEven(s: State, k: nat, n: nat, request: Request, now: nat)
    requires Full(s)
    ensures Run(s, Rounds(k, n, request, now)) == s.(allocations := s.allocations + (k + 1) * n)
    ensures AllSeen(Seen(s, Rounds(k, n, request, now), 0)) ==> k % 2 == 0
    ensures k % 2 == 0 && n >= 2 * MAX_SLOTS ==> AllSeen(Seen(s, Rounds(k, n, request, now), 0))
  {
    hide Run, Rounds, Draws, SeenIn;
    RoundsPace(s, k, n, request, now);
    SeesAllIfEven(s, Rounds(k, n, request, now), 0, k);
  }

  // With fifteen foreign turns the registration never leaves the slot it starts on.
  lemma RegistrationCanStarve(s: State, n: nat, request: Request, now: nat)
    requires Full(s)
    ensures Run(s, Rounds(15, n, request, now)) == s.(allocations := s.allocations + MAX_SLOTS * n)
    ensures Seen(s, Rounds(15, n, request, now), 0) <= {SlotOf(IdOf(s.allocations))}
  {
    hide Run, Rounds, Draws, IdOf, SlotOf;
    RoundsPace(s, 15, n, request, now);
    var draws := Draws(s, Rounds(15, n, request, now), 0);
    forall j | 0 <= j < n ensures SlotOf(IdOf(draws[j])) == SlotOf(IdOf(s.allocations)) {
      SlotOfId(draws[j]);
      SlotOfId(s.allocations);
      LapsDropOut(j, 1 + s.allocations);
    }
  }

  // ---- Filling the ring ----

  // After `n` registrations by one caller the first `n` slots from slot 1 on are taken.
  ghost predicate Filled(s: State, n: nat) {
    && |s.slots| == MAX_SLOTS && s.held == map[] && s.allocations == n
    && forall i :: 0 <= i < MAX_SLOTS ==> (s.slots[i].Some? <==> (i + MAX_SLOTS - 1) % MAX_SLOTS < n)
  }

  lemma FillOne(s: State, n: nat, request: Request, now: nat)
    requires Filled(s, n) && n < MAX_SLOTS
    ensures Filled(Apply(Apply(s, FetchId(0)), TryInsert(0, request, now)), n + 1)
    ensures |Apply(s, FetchId(0)).slots| == MAX_SLOTS
  {
    Attempt(s, request, now);
  }

  lemma {:induction false} FillsUp(n: nat, request: Request, now: nat)
    requires n <= MAX_SLOTS
    ensures Filled(Run(INITIAL, Tries(0, n, request, now)), n)
  {
    hide Run, Apply;
    if n == 0 {
      RunOfNone(INITIAL);
    } else {
      FillsUp(n - 1, request, now);
      var s := Run(INITIAL, Tries(0, n - 1, request, now));
      var f, g := FetchId(0), TryInsert(0, request, now);
      FillOne(s, n - 1, request, now);
      RunConcat(INITIAL, Tries(0, n - 1, request, now), [f, g]);
      RunTwo(s, f, g);
    }
  }

  // Sixteen registrations fill the ring.
  lemma FullIsReachable(request: Request, now: nat)
    ensures Full(Run(INITIAL, Tries(0, MAX_SLOTS, request, now)))
  {
    hide Run;
    FillsUp(MAX_SLOTS, request, now);
  }
}
