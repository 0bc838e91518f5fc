/** The one-pass nesting guard run before the JSON decoder, against the nesting of the value itself.
    Texts follow the grammar of RFC 8259: sections 2 to 7. */
module JsonDepth {
  const MAX_DEPTH := 64

  // ---- The scanner ----

  datatype Scan = Scan(depth: int, inString: bool, escaped: bool) | TooDeep

  const START := Scan(0, false, false)

  function Next(s: Scan, c: char): Scan {
    if s.TooDeep? then TooDeep
    else if s.inString then
      if s.escaped then s.(escaped := false)
      else if c == '\\' then s.(escaped := true)
      else if c == '"' then s.(inString := false)
      else s
    else if c == '"' then s.(inString := true)
    else if c == '[' || c == '{' then
      (if s.depth + 1 > MAX_DEPTH then TooDeep else s.(depth := s.depth + 1))
    else if c == ']' || c == '}' then s.(depth := s.depth - 1)
    else s
  }

  function ScanFrom(s: Scan, text: string): Scan
    decreases |text|
  {
    if text == [] then s else ScanFrom(Next(s, text[0]), text[1..])
  }

  // The loop over the characters; false when the nesting limit is exceeded.
  method CheckDepth(text: string) returns (ok: bool)
    ensures ok <==> ScanFrom(START, text) != TooDeep
  {
    var depth, inString, escaped := 0, false, false;
    var i := 0;
    while i < |text|
      invariant 0 <= i <= |text|
      invariant ScanFrom(START, text) == ScanFrom(Scan(depth, inString, escaped), text[i..])
    {
      var c := text[i];
      assert text[i..][1..] == text[i + 1..];
      if inString {
        if escaped {
          escaped := false;
        } else if c == '\\' {
          escaped := true;
        } else if c == '"' {
          inString := false;
        }
      } else if c == '"' {
        inString := true;
      } else if c == '[' || c == '{' {
        depth := depth + 1;
        if depth > MAX_DEPTH {
          TooDeepStays(text[i + 1..]);
          return false;
        }
      } else if c == ']' || c == '}' {
        depth := depth - 1;
      }
      i := i + 1;
    }
    ok := true;
  }

  lemma {:induction false} TooDeepStays(text: string)
    ensures ScanFrom(TooDeep, text) == TooDeep
    decreases |text|
  {
    if text != [] { TooDeepStays(text[1..]); }
  }

  // ---- JSON texts ----

  // One unit between the quotes: a character needing no escape, or a backslash and what it escapes.
  datatype Unit = Plain(c: char) | Escape(c: char)

  // A value with the layout of its text: white space and separators are part of it.
  datatype Json =
    | Literal(word: string)                              // true, false, null or a number
    | Str(units: seq<Unit>)
    | Array(items: seq<Item>, gap: string)               // `gap` is the white space of an empty array
    | Object(members: seq<Member>, gap: string)
  datatype Item = Item(before: string, value: Json, after: string)
  datatype Member = Member(beforeKey: string, key: seq<Unit>, afterKey: string, item: Item)

  predicate Space(s: string) { forall i :: 0 <= i < |s| ==> s[i] in {' ', '\t', '\n', '\r'} }

  // Characters of true, false, null and of numbers.
  predicate WordChar(c: char) {
    'a' <= c <= 'z' || '0' <= c <= '9' || c in {'-', '+', '.', 'E'}
  }

  predicate UnitsOk(units: seq<Unit>) {
    forall i :: 0 <= i < |units| ==> units[i].Plain? ==> units[i].c != '"' && units[i].c != '\\'
  }

  predicate WellFormed(v: Json) {
    match v
    case Literal(word) => forall i :: 0 <= i < |word| ==> WordChar(word[i])
    case Str(units) => UnitsOk(units)
    case Array(items, gap) => Space(gap) && forall i :: 0 <= i < |items| ==> ItemOk(items[i])
    case Object(members, gap) =>
      Space(gap) && forall i :: 0 <= i < |members| ==>
        Space(members[i].beforeKey) && UnitsOk(members[i].key) && Space(members[i].afterKey) && ItemOk(members[i].item)
  }

  predicate ItemOk(item: Item) { Space(item.before) && Space(item.after) && WellFormed(item.value) }

  function UnitText(u: Unit): string { if u.Plain? then [u.c] else ['\\', u.c] }

  function UnitsText(units: seq<Unit>): string {
    if units == [] then [] else UnitText(units[0]) + UnitsText(units[1..])
  }

  function StringText(units: seq<Unit>): string { "\"" + UnitsText(units) + "\"" }

  function Text(v: Json): string
    decreases v
  {
    match v
    case Literal(word) => word
    case Str(units) => StringText(units)
    case Array(items, gap) => "[" + gap + ItemsText(items) + "]"
    case Object(members, gap) => "{" + gap + MembersText(members) + "}"
  }

  function ItemText(item: Item): string
    decreases item
  {
    item.before + Text(item.value) + item.after
  }

  function ItemsText(items: seq<Item>): string
    decreases items
  {
    if items == [] then []
    else ItemText(items[0]) + (if |items| == 1 then [] else ",") + ItemsText(items[1..])
  }

  function MemberText(m: Member): string
    decreases m
  {
    m.beforeKey + StringText(m.key) + m.afterKey + ":" + ItemText(m.item)
  }

  function MembersText(members: seq<Member>): string
    decreases members
  {
    if members == [] then []
    else MemberText(members[0]) + (if |members| == 1 then [] else ",") + MembersText(members[1..])
  }

  // Containers around the innermost point of a value.
  function Nesting(v: Json): nat
    decreases v
  {
    match v
    case Literal(_) => 0
    case Str(_) => 0
    case Array(items, _) => 1 + ItemsNesting(items)
    case Object(members, _) => 1 + MembersNesting(members)
  }

  function Max(a: nat, b: nat): nat { if a < b then b else a }

  function ItemsNesting(items: seq<Item>): nat
    decreases items
  {
    if items == [] then 0 else Max(Nesting(items[0].value), ItemsNesting(items[1..]))
  }

  function MembersNesting(members: seq<Member>): nat
    decreases members
  {
    if members == [] then 0 else Max(Nesting(members[0].item.value), MembersNesting(members[1..]))
  }

  // ---- Agreement ----

  lemma {:induction false} ScanAppend(s: Scan, a: string, b: string)
    ensures ScanFrom(s, a + b) == ScanFrom(ScanFrom(s, a), b)
    decreases |a|
  {
    if a == [] {
      assert a + b == b;
    } else {
      assert (a + b)[1..] == a[1..] + b;
      ScanAppend(Next(s, a[0]), a[1..], b);
    }
  }

  // Outside strings at a given depth.
  function At(depth: int): Scan { Scan(depth, false, false) }

  // What scanning a value does: back to the depth it started from, unless its nesting breaks the limit.
  function Across(depth: int, nesting: nat): Scan {
    if nesting > 0 && depth + nesting > MAX_DEPTH then TooDeep else At(depth)
  }

  lemma {:induction false} NeutralText(depth: int, text: string)
    requires forall i :: 0 <= i < |text| ==> text[i] !in {'"', '[', ']', '{', '}'}
    ensures ScanFrom(At(depth), text) == At(depth)
    decreases |text|
  {
    if text != [] { NeutralText(depth, text[1..]); }
  }

  lemma SpaceIsNeutral(depth: int, text: string)
    requires Space(text)
    ensures ScanFrom(At(depth), text) == At(depth)
  {
  }

  lemma UnitStaysInString(depth: int, u: Unit)
    requires u.Plain? ==> u.c != '"' && u.c != '\\'
    ensures ScanFrom(Scan(depth, true, false), UnitText(u)) == Scan(depth, true, false)
  {
    var inside, text := Scan(depth, true, false), UnitText(u);
    if u.Plain? {
      assert text[1..] == [];
    } else {
      assert text[1..] == [u.c] && text[1..][1..] == [];
      assert ScanFrom(inside, text) == ScanFrom(Scan(depth, true, true), [u.c]);
    }
  }

  lemma {:induction false} UnitsStayInString(depth: int, units: seq<Unit>)
    requires UnitsOk(units)
    ensures ScanFrom(Scan(depth, true, false), UnitsText(units)) == Scan(depth, true, false)
    decreases |units|
  {
    if units != [] {
      var inside := Scan(depth, true, false);
      ScanAppend(inside, UnitText(units[0]), UnitsText(units[1..]));
      UnitStaysInString(depth, units[0]);
      UnitsStayInString(depth, units[1..]);
    }
  }

  lemma StringIsNeutral(depth: int, units: seq<Unit>)
    requires UnitsOk(units)
    ensures ScanFrom(At(depth), StringText(units)) == At(depth)
  {
    ScanAppend(At(depth), "\"" + UnitsText(units), "\"");
    ScanAppend(At(depth), "\"", UnitsText(units));
    UnitsStayInString(depth, units);
  }

  lemma {:induction false} ValueScan(v: Json, depth: int)
    requires WellFormed(v)
    ensures ScanFrom(At(depth), Text(v)) == Across(depth, Nesting(v))
    decreases v
  {
    match v
    case Literal(word) => NeutralText(depth, word);
    case Str(units) => StringIsNeutral(depth, units);
    case Array(items, gap) =>
      if depth + 1 <= MAX_DEPTH { ItemsScan(items, depth + 1); }
      ContainerScan('[', gap, ItemsText(items), ']', depth, ItemsNesting(items));
    case Object(members, gap) =>
      if depth + 1 <= MAX_DEPTH { MembersScan(members, depth + 1); }
      ContainerScan('{', gap, MembersText(members), '}', depth, MembersNesting(members));
  }

  // A container is scanned as its body one level deeper.
  lemma ContainerScan(open: char, gap: string, body: string, close: char, depth: int, nesting: nat)
    requires (open == '[' && close == ']') || (open == '{' && close == '}')
    requires Space(gap)
    requires depth + 1 <= MAX_DEPTH ==> ScanFrom(At(depth + 1), body) == Across(depth + 1, nesting)
    ensures ScanFrom(At(depth), [open] + gap + body + [close]) == Across(depth, 1 + nesting)
  {
    ScanAppend(At(depth), [open] + gap + body, [close]);
    ScanAppend(At(depth), [open] + gap, body);
    ScanAppend(At(depth), [open], gap);
    if depth + 1 > MAX_DEPTH {
      TooDeepStays(gap);
      TooDeepStays(body);
    } else {
      SpaceIsNeutral(depth + 1, gap);
    }
  }

  lemma {:induction false} ItemScan(item: Item, depth: int)
    requires ItemOk(item)
    ensures ScanFrom(At(depth), ItemText(item)) == Across(depth, Nesting(item.value))
    decreases item
  {
    ScanAppend(At(depth), item.before + Text(item.value), item.after);
    ScanAppend(At(depth), item.before, Text(item.value));
    SpaceIsNeutral(depth, item.before);
    ValueScan(item.value, depth);
    TooDeepStays(item.after);
    SpaceIsNeutral(depth, item.after);
  }

  // Scanning `head`, an optional comma and `rest` combines their nestings.
  lemma SequenceScan(depth: int, head: string, comma: string, rest: string, a: nat, b: nat)
    requires ScanFrom(At(depth), head) == Across(depth, a)
    requires comma == [] || comma == ","
    requires ScanFrom(At(depth), rest) == Across(depth, b)
    ensures ScanFrom(At(depth), head + comma + rest) == Across(depth, Max(a, b))
  {
    ScanAppend(At(depth), head + comma, rest);
    ScanAppend(At(depth), head, comma);
    if Across(depth, a) == TooDeep {
      TooDeepStays(comma);
      TooDeepStays(rest);
    } else {
      NeutralText(depth, comma);
    }
  }

  lemma {:induction false} ItemsScan(items: seq<Item>, depth: int)
    requires forall i :: 0 <= i < |items| ==> ItemOk(items[i])
    ensures ScanFrom(At(depth), ItemsText(items)) == Across(depth, ItemsNesting(items))
    decreases items
  {
    if items != [] {
      ItemScan(items[0], depth);
      ItemsScan(items[1..], depth);
      SequenceScan(depth, ItemText(items[0]), if |items| == 1 then [] else ",", ItemsText(items[1..]),
                   Nesting(items[0].value), ItemsNesting(items[1..]));
    }
  }

  lemma {:induction false} MembersScan(members: seq<Member>, depth: int)
    requires forall i :: 0 <= i < |members| ==>
               Space(members[i].beforeKey) && UnitsOk(members[i].key) && Space(members[i].afterKey)
               && ItemOk(members[i].item)
    ensures ScanFrom(At(depth), MembersText(members)) == Across(depth, MembersNesting(members))
    decreases members
  {
    if members != [] {
      var m := members[0];
      ItemScan(m.item, depth);
      MemberScan(m, depth);
      MembersScan(members[1..], depth);
      SequenceScan(depth, MemberText(m), if |members| == 1 then [] else ",", MembersText(members[1..]),
                   Nesting(m.item.value), MembersNesting(members[1..]));
    }
  }

  lemma MemberScan(m: Member, depth: int)
    requires Space(m.beforeKey) && UnitsOk(m.key) && Space(m.afterKey)
    requires ScanFrom(At(depth), ItemText(m.item)) == Across(depth, Nesting(m.item.value))
    ensures ScanFrom(At(depth), MemberText(m)) == Across(depth, Nesting(m.item.value))
  {
    var toKey := m.beforeKey + StringText(m.key);
    ScanAppend(At(depth), toKey + m.afterKey + ":", ItemText(m.item));
    ScanAppend(At(depth), toKey + m.afterKey, ":");
    ScanAppend(At(depth), toKey, m.afterKey);
    ScanAppend(At(depth), m.beforeKey, StringText(m.key));
    SpaceIsNeutral(depth, m.beforeKey);
    StringIsNeutral(depth, m.key);
    SpaceIsNeutral(depth, m.afterKey);
    NeutralText(depth, ":");
  }

  // A whole document: a value with white space around it. The guard rejects it exactly when some point
  // of it lies inside more than 64 containers; otherwise the scan ends where it began.
  lemma GuardMeasuresNesting(v: Json, before: string, after: string)
    requires WellFormed(v) && Space(before) && Space(after)
    ensures ScanFrom(START, before + Text(v) + after) == if Nesting(v) > MAX_DEPTH then TooDeep else START
  {
    ItemScan(Item(before, v, after), 0);
  }
}
