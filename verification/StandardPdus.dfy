/** The standard requests and responses by their fields, and what the function-aware decoder makes of them:
    it cuts exactly these PDUs whole, in their own direction. Field layouts follow sections 6 and 7 of the
    MODBUS Application Protocol Specification V1.1b3, as far as the decoder supports them. */
module StandardPdus {
  import opened Bytes
  import opened Framing
  import opened Streams

  datatype Object = Object(id: Byte, value: seq<Byte>)

  // `data` is whatever a byte count announces.
  datatype Message =
    | Read(code: Byte, address: Word, quantity: Word)                       // 0x01 to 0x04, request
    | WriteSingle(code: Byte, address: Word, value: Word)                   // 0x05 and 0x06, and their echo
    | Plain(code: Byte)                                                     // 0x07, 0x0B, 0x0C and 0x11, request
    | ExceptionStatus(status: Byte)                                         // 0x07, response
    | Diagnostic(sub: Word, word: Word)                                     // 0x08, and its echo
    | EventCounter(busy: Word, events: Word)                                // 0x0B, response
    | Counted(code: Byte, data: seq<Byte>)                                  // one byte count, then that many bytes
    | WriteMultiple(code: Byte, address: Word, quantity: Word, data: seq<Byte>)      // 0x0F and 0x10, request
    | Written(code: Byte, address: Word, quantity: Word)                    // 0x0F and 0x10, response
    | MaskWrite(address: Word, andMask: Word, orMask: Word)                 // 0x16, and its echo
    | ReadWrite(readAt: Word, toRead: Word, writeAt: Word, toWrite: Word, data: seq<Byte>)   // 0x17, request
    | ReadFifo(address: Word)                                               // 0x18, request
    | Fifo(data: seq<Byte>)                                                 // 0x18, response: a two-byte count
    | Identify(detail: Byte, first: Byte)                                   // 0x2B with 0x0E, request
    | Identification(detail: Byte, level: Byte, more: Byte, next: Byte, objects: seq<Object>)   // its response
    | Exception(base: Byte, reason: Byte)                                   // any of the above, response

  function ObjectBytes(objects: seq<Object>): seq<Byte>
    requires forall o :: o in objects ==> |o.value| < 0x100
  {
    if objects == [] then []
    else [objects[0].id, |objects[0].value|] + objects[0].value + ObjectBytes(objects[1..])
  }

  // Counts fit their fields.
  predicate Countable(m: Message) {
    match m
    case Counted(_, data) => |data| < 0x100
    case WriteMultiple(_, _, _, data) => |data| < 0x100
    case ReadWrite(_, _, _, _, data) => |data| < 0x100
    case Fifo(data) => |data| < 0x1_0000
    case Identification(_, _, _, _, objects) =>
      |objects| < 0x100 && forall o | o in objects :: |o.value| < 0x100
    case Exception(base, _) => base < 0x80
    case _ => true
  }

  function Pdu(m: Message): seq<Byte>
    requires Countable(m)
  {
    match m
    case Read(code, address, quantity) => [code] + BigEndian(address) + BigEndian(quantity)
    case WriteSingle(code, address, value) => [code] + BigEndian(address) + BigEndian(value)
    case Plain(code) => [code]
    case ExceptionStatus(status) => [0x07, status]
    case Diagnostic(sub, word) => [0x08] + BigEndian(sub) + BigEndian(word)
    case EventCounter(busy, events) => [0x0B] + BigEndian(busy) + BigEndian(events)
    case Counted(code, data) => [code, |data|] + data
    case WriteMultiple(code, address, quantity, data) =>
      [code] + BigEndian(address) + BigEndian(quantity) + [|data|] + data
    case Written(code, address, quantity) => [code] + BigEndian(address) + BigEndian(quantity)
    case MaskWrite(address, andMask, orMask) => [0x16] + BigEndian(address) + BigEndian(andMask) + BigEndian(orMask)
    case ReadWrite(readAt, toRead, writeAt, toWrite, data) =>
      [0x17] + BigEndian(readAt) + BigEndian(toRead) + BigEndian(writeAt) + BigEndian(toWrite) + [|data|] + data
    case ReadFifo(address) => [0x18] + BigEndian(address)
    case Fifo(data) => [0x18] + BigEndian(|data|) + data
    case Identify(detail, first) => [0x2B, 0x0E, detail, first]
    case Identification(detail, level, more, next, objects) =>
      [0x2B, 0x0E, detail, level, more, next, |objects|] + ObjectBytes(objects)
    case Exception(base, reason) => [base + 0x80, reason]
  }

  predicate Supported(code: Byte) {
    code in [0x01, 0x02, 0x03, 0x04, 0x05, 0x06, 0x07, 0x08, 0x0B, 0x0C, 0x0F, 0x10, 0x11, 0x14, 0x15, 0x16, 0x17, 0x18,
             0x2B]
  }

  // Sub-functions with one data word: all but Return Query Data and Force Listen Only.
  predicate OneWord(sub: Word) {
    sub in [0x01, 0x02, 0x03, 0x0A, 0x0B, 0x0C, 0x0D, 0x0E, 0x0F, 0x10, 0x11, 0x12, 0x14]
  }

  // The messages that travel in a direction.
  predicate Travels(m: Message, direction: Direction) {
    && Countable(m)
    && match m
       case Read(code, _, _) => direction == Request && code in [0x01, 0x02, 0x03, 0x04]
       case WriteSingle(code, _, _) => code in [0x05, 0x06]
       case Plain(code) => direction == Request && code in [0x07, 0x0B, 0x0C, 0x11]
       case ExceptionStatus(_) => direction == Response
       case Diagnostic(sub, _) => OneWord(sub)
       case EventCounter(_, _) => direction == Response
       case Counted(code, _) =>
         code in [0x14, 0x15] || (direction == Response && code in [0x01, 0x02, 0x03, 0x04, 0x0C, 0x11, 0x17])
       case WriteMultiple(code, _, _, _) => direction == Request && code in [0x0F, 0x10]
       case Written(code, _, _) => direction == Response && code in [0x0F, 0x10]
       case MaskWrite(_, _, _) => true
       case ReadWrite(_, _, _, _, _) => direction == Request
       case ReadFifo(_) => direction == Request
       case Fifo(_) => direction == Response
       case Identify(_, _) => direction == Request
       case Identification(_, _, _, _, _) => direction == Response
       case Exception(base, _) => direction == Response && Supported(base)
  }

  predicate Spells(m: Message, direction: Direction, pdu: seq<Byte>) { Travels(m, direction) && Pdu(m) == pdu }

  ghost predicate Standard(pdu: seq<Byte>, direction: Direction) { exists m :: Spells(m, direction, pdu) }

  // ---- Every standard message declares its own length ----

  lemma {:induction false} ObjectsWalk(head: seq<Byte>, objects: seq<Object>)
    requires |head| >= 1 && forall o :: o in objects ==> |o.value| < 0x100
    requires |head + ObjectBytes(objects)| <= MAX_PDU_SIZE + 1
    ensures MeiObjects(head + ObjectBytes(objects), |objects|, |head| - 1) == Known(|head + ObjectBytes(objects)| - 1)
    decreases |objects|
  {
    if objects != [] {
      var o, rest := objects[0], objects[1..];
      var src := head + ObjectBytes(objects);
      var next := head + ([o.id, |o.value|] + o.value);
      assert src == next + ObjectBytes(rest);
      assert src[|head| + 1] == |o.value|;
      ObjectsWalk(next, rest);
    }
  }

  lemma {:induction false} ObjectsAreShort(objects: seq<Object>)
    requires forall o :: o in objects ==> |o.value| < 0x100
    ensures |ObjectBytes(objects)| >= 2 * |objects|
  {
    if objects != [] { ObjectsAreShort(objects[1..]); }
  }

  lemma MeiResponseIs(src: seq<Byte>)
    requires |src| >= 8 && src[1] == 0x2B && src[2] == 0x0E && 7 + 2 * src[7] <= MAX_PDU_SIZE
    ensures StrictLength(src, Response) == MeiObjects(src, src[7], 7)
  {
    hide MeiObjects;
  }

  lemma IdentificationDeclares(unit: Byte, m: Message)
    requires m.Identification? && Countable(m) && |Pdu(m)| <= MAX_PDU_SIZE
    ensures StrictLength([unit] + Pdu(m), Response) == Known(|Pdu(m)|)
  {
    hide StrictLength, MeiObjects, ObjectBytes;
    var src := [unit] + Pdu(m);
    var head := [unit, 0x2B, 0x0E, m.detail, m.level, m.more, m.next, |m.objects|];
    assert src == head + ObjectBytes(m.objects);
    ObjectsAreShort(m.objects);
    MeiResponseIs(src);
    ObjectsWalk(head, m.objects);
  }

  // Messages of a fixed size.
  predicate Fixed(m: Message) {
    m.Read? || m.WriteSingle? || m.Plain? || m.ExceptionStatus? || m.EventCounter? || m.Written? || m.MaskWrite?
    || m.ReadFifo? || m.Identify? || m.Exception?
  }

  lemma FixedDeclares(unit: Byte, m: Message, direction: Direction)
    requires Fixed(m) && Travels(m, direction)
    ensures StrictLength([unit] + Pdu(m), direction) == Known(|Pdu(m)|)
  {
    hide BigEndian, MeiResponseLength, DiagnosticLength, ByteCounted, WordCounted;
  }

  lemma DiagnosticDeclares(unit: Byte, m: Message, direction: Direction)
    requires m.Diagnostic? && Travels(m, direction)
    ensures StrictLength([unit] + Pdu(m), direction) == Known(5)
  {
    hide MeiResponseLength, ByteCounted, WordCounted;
    var src := [unit] + Pdu(m);
    assert src[2] == BigEndian(m.sub)[0] && src[3] == BigEndian(m.sub)[1];
  }

  lemma CountedDeclares(unit: Byte, m: Message, direction: Direction)
    requires m.Counted? || m.WriteMultiple? || m.ReadWrite? || m.Fifo?
    requires Travels(m, direction) && |Pdu(m)| <= MAX_PDU_SIZE
    ensures StrictLength([unit] + Pdu(m), direction) == Known(|Pdu(m)|)
  {
    hide MeiResponseLength, DiagnosticLength, MeiRequestLength;
    var src := [unit] + Pdu(m);
    match m
    case Counted(_, data) => assert src[2] == |data|;
    case WriteMultiple(_, _, _, data) => assert src[6] == |data|;
    case ReadWrite(_, _, _, _, data) => assert src[10] == |data|;
    case Fifo(data) => assert src[2] == |data| / 0x100 && src[3] == |data| % 0x100;
  }

  lemma MessageDeclares(unit: Byte, m: Message, direction: Direction)
    requires Travels(m, direction) && |Pdu(m)| <= MAX_PDU_SIZE
    ensures StrictLength([unit] + Pdu(m), direction) == Known(|Pdu(m)|)
  {
    hide StrictLength;
    if Fixed(m) {
      FixedDeclares(unit, m, direction);
    } else if m.Diagnostic? {
      DiagnosticDeclares(unit, m, direction);
    } else if m.Identification? {
      IdentificationDeclares(unit, m);
    } else {
      CountedDeclares(unit, m, direction);
    }
  }

  // ---- What declares its own length is a standard message ----

  lemma PairOf(high: Byte, low: Byte)
    ensures BigEndian(FromBigEndian(high, low)) == [high, low]
  {
  }

  function WordAt(pdu: seq<Byte>, i: nat): Word
    requires i + 1 < |pdu|
  {
    FromBigEndian(pdu[i], pdu[i + 1])
  }

  lemma WordsOf(pdu: seq<Byte>)
    ensures forall i :: 0 <= i < |pdu| - 1 ==> BigEndian(WordAt(pdu, i)) == pdu[i..i + 2]
  {
    hide BigEndian, FromBigEndian;
    forall i | 0 <= i < |pdu| - 1 ensures BigEndian(WordAt(pdu, i)) == pdu[i..i + 2] {
      PairOf(pdu[i], pdu[i + 1]);
    }
  }

  // The objects a walk over the bytes of a PDU passes.
  lemma {:induction false} ObjectsOf(src: seq<Byte>, count: nat, len: nat) returns (objects: seq<Object>)
    requires 1 + len <= |src| && MeiObjects(src, count, len) == Known(|src| - 1)
    ensures |objects| == count && (forall o :: o in objects ==> |o.value| < 0x100)
    ensures ObjectBytes(objects) == src[1 + len..]
    decreases count
  {
    if count == 0 {
      objects := [];
    } else {
      var at := 1 + len;
      var size := src[at + 1];
      var next := len + 2 + size;
      MeiObjectsGrow(src, count - 1, next);
      var rest := ObjectsOf(src, count - 1, next);
      var o := Object(src[at], src[at + 2..at + 2 + size]);
      objects := [o] + rest;
      assert objects[1..] == rest;
      assert src[at..] == [o.id, |o.value|] + o.value + src[1 + next..];
    }
  }

  lemma {:induction false} MeiObjectsGrow(src: seq<Byte>, count: nat, len: nat)
    requires MeiObjects(src, count, len).Known?
    ensures len <= MeiObjects(src, count, len).pdu
    decreases count
  {
    if count != 0 { MeiObjectsGrow(src, count - 1, len + 2 + src[1 + len + 1]); }
  }

  predicate Declares(unit: Byte, pdu: seq<Byte>, direction: Direction) {
    pdu != [] && StrictLength([unit] + pdu, direction) == Known(|pdu|)
  }

  // Functions whose PDU carries a count of the bytes that follow it.
  predicate CountsBytes(code: Byte, direction: Direction) {
    || code in [0x14, 0x15]
    || (if direction == Request then code in [0x0F, 0x10, 0x17]
        else code in [0x01, 0x02, 0x03, 0x04, 0x0C, 0x11, 0x17, 0x18])
  }

  lemma CountFacts(unit: Byte, pdu: seq<Byte>, direction: Direction)
    requires Declares(unit, pdu, direction) && CountsBytes(pdu[0], direction)
    ensures if pdu[0] == 0x18 then |pdu| >= 3 && |pdu| == 3 + WordAt(pdu, 1)
            else if direction == Request && pdu[0] == 0x17 then |pdu| >= 10 && |pdu| == 10 + pdu[9]
            else if direction == Request && pdu[0] in [0x0F, 0x10] then |pdu| >= 6 && |pdu| == 6 + pdu[5]
            else |pdu| >= 2 && |pdu| == 2 + pdu[1]
  {
    hide MeiResponseLength, MeiRequestLength, DiagnosticLength;
    var src := [unit] + pdu;
    assert forall i :: 0 <= i < |pdu| ==> src[i + 1] == pdu[i];
  }

  lemma ReadWriteMessage(pdu: seq<Byte>) returns (m: Message)
    requires |pdu| >= 10 && pdu[0] == 0x17 && pdu[9] == |pdu| - 10
    ensures Spells(m, Request, pdu)
  {
    hide BigEndian, FromBigEndian;
    WordsOf(pdu);
    m := ReadWrite(WordAt(pdu, 1), WordAt(pdu, 3), WordAt(pdu, 5), WordAt(pdu, 7), pdu[10..]);
    assert pdu[..5] == [0x17] + pdu[1..3] + pdu[3..5];
    assert pdu[..9] == pdu[..5] + pdu[5..7] + pdu[7..9];
    assert pdu == pdu[..9] + [pdu[9]] + pdu[10..];
  }

  lemma WriteMultipleMessage(pdu: seq<Byte>) returns (m: Message)
    requires |pdu| >= 6 && pdu[0] in [0x0F, 0x10] && pdu[5] == |pdu| - 6
    ensures Spells(m, Request, pdu)
  {
    hide BigEndian, FromBigEndian;
    WordsOf(pdu);
    m := WriteMultiple(pdu[0], WordAt(pdu, 1), WordAt(pdu, 3), pdu[6..]);
    assert pdu == [pdu[0]] + pdu[1..3] + pdu[3..5] + [pdu[5]] + pdu[6..];
  }

  lemma CountedMessage(unit: Byte, pdu: seq<Byte>, direction: Direction) returns (m: Message)
    requires Declares(unit, pdu, direction) && CountsBytes(pdu[0], direction)
    ensures Spells(m, direction, pdu)
  {
    CountFacts(unit, pdu, direction);
    hide BigEndian, FromBigEndian, Declares;
    WordsOf(pdu);
    var code := pdu[0];
    if code == 0x18 {
      m := Fifo(pdu[3..]);
      assert pdu == [0x18] + pdu[1..3] + pdu[3..];
    } else if direction == Request && code == 0x17 {
      m := ReadWriteMessage(pdu);
    } else if direction == Request && code in [0x0F, 0x10] {
      m := WriteMultipleMessage(pdu);
    } else {
      m := Counted(code, pdu[2..]);
      assert pdu == [code, pdu[1]] + pdu[2..];
    }
  }

  lemma MeiMessage(unit: Byte, pdu: seq<Byte>, direction: Direction) returns (m: Message)
    requires Declares(unit, pdu, direction) && pdu[0] == 0x2B
    ensures Spells(m, direction, pdu)
  {
    hide MeiObjects, ObjectBytes;
    var src := [unit] + pdu;
    assert forall i :: 0 <= i < |pdu| ==> src[i + 1] == pdu[i];
    if direction == Request {
      m := Identify(pdu[2], pdu[3]);
      assert pdu == [0x2B, 0x0E, pdu[2], pdu[3]];
    } else {
      MeiObjectsGrow(src, src[7], 7);
      var objects := ObjectsOf(src, src[7], 7);
      m := Identification(pdu[2], pdu[3], pdu[4], pdu[5], objects);
      assert src[8..] == pdu[7..];
      assert pdu == [0x2B, 0x0E, pdu[2], pdu[3], pdu[4], pdu[5], pdu[6]] + pdu[7..];
    }
  }

  lemma FixedFacts(unit: Byte, pdu: seq<Byte>, direction: Direction)
    requires Declares(unit, pdu, direction) && !CountsBytes(pdu[0], direction) && pdu[0] != 0x2B
    ensures if pdu[0] >= 0x80 then |pdu| == 2 && direction == Response && Supported(pdu[0] - 0x80)
            else if pdu[0] == 0x07 then |pdu| == if direction == Request then 1 else 2
            else if direction == Request && pdu[0] in [0x0B, 0x0C, 0x11] then |pdu| == 1
            else if pdu[0] == 0x18 then |pdu| == 3 && direction == Request
            else if pdu[0] == 0x16 then |pdu| == 7
            else |pdu| == 5 && FiveByteCode(pdu, direction)
  {
    hide MeiResponseLength, MeiRequestLength, ByteCounted, WordCounted;
    var src := [unit] + pdu;
    assert forall i :: 0 <= i < |pdu| ==> src[i + 1] == pdu[i];
  }

  predicate FiveByteCode(pdu: seq<Byte>, direction: Direction)
    requires |pdu| == 5
  {
    || pdu[0] in [0x05, 0x06] || (pdu[0] == 0x08 && OneWord(WordAt(pdu, 1)))
    || (if direction == Request then pdu[0] in [0x01, 0x02, 0x03, 0x04] else pdu[0] in [0x0B, 0x0F, 0x10])
  }

  lemma FixedMessage(unit: Byte, pdu: seq<Byte>, direction: Direction) returns (m: Message)
    requires Declares(unit, pdu, direction) && !CountsBytes(pdu[0], direction) && pdu[0] != 0x2B
    ensures Spells(m, direction, pdu)
  {
    FixedFacts(unit, pdu, direction);
    hide BigEndian, FromBigEndian, Declares, CountsBytes;
    WordsOf(pdu);
    var code := pdu[0];
    if code >= 0x80 {
      m := Exception(code - 0x80, pdu[1]);
      assert pdu == [code, pdu[1]];
    } else if |pdu| == 1 {
      m := Plain(code);
      assert pdu == [code];
    } else if |pdu| == 2 {
      m := ExceptionStatus(pdu[1]);
      assert pdu == [0x07, pdu[1]];
    } else if |pdu| == 3 {
      m := ReadFifo(WordAt(pdu, 1));
      assert pdu == [0x18] + pdu[1..3];
    } else if |pdu| == 7 {
      m := MaskWrite(WordAt(pdu, 1), WordAt(pdu, 3), WordAt(pdu, 5));
      assert pdu == [0x16] + pdu[1..3] + pdu[3..5] + pdu[5..7];
    } else {
      m := FiveBytes(pdu, direction);
    }
  }

  lemma FiveBytes(pdu: seq<Byte>, direction: Direction) returns (m: Message)
    requires |pdu| == 5 && FiveByteCode(pdu, direction)
    ensures Spells(m, direction, pdu)
  {
    hide BigEndian, FromBigEndian;
    WordsOf(pdu);
    var code, a, b := pdu[0], WordAt(pdu, 1), WordAt(pdu, 3);
    m := if code == 0x08 then Diagnostic(a, b)
         else if code in [0x05, 0x06] then WriteSingle(code, a, b)
         else if direction == Request then Read(code, a, b)
         else if code == 0x0B then EventCounter(a, b)
         else Written(code, a, b);
    assert pdu == [code] + pdu[1..3] + pdu[3..5];
  }

  // The function-aware decoder takes a frame for what it is exactly when its PDU is a standard message of the
  // direction it listens to.
  lemma TransparentIsStandard(unit: Byte, pdu: seq<Byte>, direction: Direction)
    requires Sendable(Strict(direction), Frame(Rtu(unit), pdu))
    ensures Transparent(Strict(direction), Frame(Rtu(unit), pdu)) <==> Standard(pdu, direction)
  {
    hide StrictLength, Spells, RtuWire;
    if Transparent(Strict(direction), Frame(Rtu(unit), pdu)) {
      var m;
      if CountsBytes(pdu[0], direction) {
        m := CountedMessage(unit, pdu, direction);
      } else if pdu[0] == 0x2B {
        m := MeiMessage(unit, pdu, direction);
      } else {
        m := FixedMessage(unit, pdu, direction);
      }
      assert Spells(m, direction, pdu);
    }
    forall m | Spells(m, direction, pdu) ensures Transparent(Strict(direction), Frame(Rtu(unit), pdu)) {
      SpelledDeclares(unit, m, direction, pdu);
    }
  }

  lemma SpelledDeclares(unit: Byte, m: Message, direction: Direction, pdu: seq<Byte>)
    requires Spells(m, direction, pdu) && |pdu| <= MAX_PDU_SIZE
    ensures StrictLength([unit] + pdu, direction) == Known(|pdu|)
  {
    hide StrictLength;
    MessageDeclares(unit, m, direction);
  }

  // ---- Whole streams of messages ----

  function Carried(unit: Byte, m: Message): Frame
    requires Countable(m)
  {
    Frame(Rtu(unit), Pdu(m))
  }

  ghost predicate Fits(units: seq<(Byte, Message)>, direction: Direction) {
    forall i :: 0 <= i < |units| ==> Travels(units[i].1, direction) && |Pdu(units[i].1)| <= MAX_PDU_SIZE
  }

  function CarriedAll(units: seq<(Byte, Message)>): seq<Frame>
    requires forall i :: 0 <= i < |units| ==> Countable(units[i].1)
  {
    seq(|units|, i requires 0 <= i < |units| => Carried(units[i].0, units[i].1))
  }

  lemma MessageIsSendable(unit: Byte, m: Message, direction: Direction)
    requires Travels(m, direction) && |Pdu(m)| <= MAX_PDU_SIZE
    ensures Sendable(Strict(direction), Carried(unit, m)) && Transparent(Strict(direction), Carried(unit, m))
  {
    hide StrictLength, RtuWire;
    MessageDeclares(unit, m, direction);
    assert |Pdu(m)| >= 1;
  }

  // Standard messages of one direction arrive as they were sent, in order, however the stream is split.
  lemma MessagesArrive(units: seq<(Byte, Message)>, direction: Direction, chunks: seq<seq<Byte>>)
    requires Fits(units, direction) && AllSendable(Strict(direction), CarriedAll(units))
    requires Flatten(chunks) == StreamOf(Strict(direction), CarriedAll(units))
    ensures FeedAll(Strict(direction), EMPTY, chunks) == Reader(CarriedAll(units), [], None)
  {
    hide Transparent, Sendable, Pdu;
    var frames := CarriedAll(units);
    forall f | f in frames ensures Transparent(Strict(direction), f) {
      var i :| 0 <= i < |frames| && frames[i] == f;
      MessageIsSendable(units[i].0, units[i].1, direction);
    }
    StreamRoundTrip(Strict(direction), frames, chunks);
  }

  // ---- What is refused ----

  // A message of the direction begins as the buffer does: function, and sub-function or encapsulated type.
  predicate BeginsAs(m: Message, direction: Direction, src: seq<Byte>)
    requires |src| >= 4
  {
    && Travels(m, direction) && Pdu(m) != [] && Pdu(m)[0] == src[1]
    && (src[1] == 0x08 ==> |Pdu(m)| > 2 && Pdu(m)[1] == src[2] && Pdu(m)[2] == src[3])
    && (src[1] == 0x2B ==> |Pdu(m)| > 1 && Pdu(m)[1] == src[2])
  }

  // Some message that begins as the buffer does, if the buffer is not refused as indeterminate.
  function SampleOf(direction: Direction, src: seq<Byte>): Message
    requires |src| >= 4
  {
    var code := src[1];
    if code >= 0x80 then Exception(code - 0x80, 0)
    else if code == 0x08 then Diagnostic(FromBigEndian(src[2], src[3]), 0)
    else if code == 0x16 then MaskWrite(0, 0, 0)
    else if code in [0x05, 0x06] then WriteSingle(code, 0, 0)
    else if code in [0x14, 0x15] then Counted(code, [])
    else if direction == Request then SampleRequest(code)
    else SampleResponse(code)
  }

  function SampleRequest(code: Byte): Message {
    if code == 0x2B then Identify(0, 0)
    else if code in [0x01, 0x02, 0x03, 0x04] then Read(code, 0, 0)
    else if code in [0x0F, 0x10] then WriteMultiple(code, 0, 0, [])
    else if code == 0x17 then ReadWrite(0, 0, 0, 0, [])
    else if code == 0x18 then ReadFifo(0)
    else Plain(code)
  }

  function SampleResponse(code: Byte): Message {
    if code == 0x2B then Identification(0, 0, 0, 0, [])
    else if code == 0x07 then ExceptionStatus(0)
    else if code == 0x0B then EventCounter(0, 0)
    else if code in [0x0F, 0x10] then Written(code, 0, 0)
    else if code == 0x18 then Fifo([])
    else Counted(code, [])
  }

  lemma RequestBegins(code: Byte)
    requires Supported(code) && code !in [0x05, 0x06, 0x08, 0x14, 0x15, 0x16]
    ensures var m := SampleRequest(code);
            && Travels(m, Request) && Pdu(m) != [] && Pdu(m)[0] == code
            && (code == 0x2B ==> |Pdu(m)| > 1 && Pdu(m)[1] == 0x0E)
  {
    hide BigEndian;
  }

  lemma ResponseBegins(code: Byte)
    requires Supported(code) && code !in [0x05, 0x06, 0x08, 0x14, 0x15, 0x16]
    ensures var m := SampleResponse(code);
            && Travels(m, Response) && Pdu(m) != [] && Pdu(m)[0] == code
            && (code == 0x2B ==> |Pdu(m)| > 1 && Pdu(m)[1] == 0x0E)
  {
    hide BigEndian;
  }

  // The codes for which a length can be told.
  predicate Determinate(src: seq<Byte>, direction: Direction)
    requires |src| >= 4
  {
    var code := src[1];
    if code >= 0x80 then direction == Response && Supported(code - 0x80)
    else && Supported(code) && (code == 0x08 ==> OneWord(FromBigEndian(src[2], src[3])))
         && (code == 0x2B ==> src[2] == 0x0E)
  }

  lemma DeterminateIs(src: seq<Byte>, direction: Direction)
    requires |src| >= 4
    ensures StrictLength(src, direction) == Rejected(Indeterminate(src[1])) <==> !Determinate(src, direction)
  {
    hide MeiObjects, ByteCounted, WordCounted, FromBigEndian;
    CountsAreDeterminate(src);
    if src[1] == 0x2B && |src| >= 8 { WalkIsDeterminate(src, src[7], 7); }
  }

  lemma CountsAreDeterminate(src: seq<Byte>)
    ensures forall base, index, code :: ByteCounted(src, base, index) != Rejected(Indeterminate(code))
    ensures forall base, index, code :: WordCounted(src, base, index) != Rejected(Indeterminate(code))
  {
  }

  lemma {:induction false} WalkIsDeterminate(src: seq<Byte>, count: nat, len: nat)
    ensures forall code :: MeiObjects(src, count, len) != Rejected(Indeterminate(code))
    decreases count
  {
    if count != 0 && 1 + len + 2 <= |src| { WalkIsDeterminate(src, count - 1, len + 2 + src[1 + len + 1]); }
  }

  lemma SampleBegins(direction: Direction, src: seq<Byte>)
    requires |src| >= 4 && Determinate(src, direction)
    ensures BeginsAs(SampleOf(direction, src), direction, src)
  {
    hide BigEndian, FromBigEndian, ObjectBytes, SampleRequest, SampleResponse;
    var code := src[1];
    if code == 0x08 { PairOf(src[2], src[3]); }
    if code < 0x80 && code !in [0x05, 0x06, 0x08, 0x14, 0x15, 0x16] {
      if direction == Request { RequestBegins(code); } else { ResponseBegins(code); }
    }
  }

  lemma BegunIsDeterminate(m: Message, direction: Direction, src: seq<Byte>)
    requires |src| >= 4 && BeginsAs(m, direction, src)
    ensures Determinate(src, direction)
  {
    hide ObjectBytes;
    if m.Diagnostic? { assert src[2] == m.sub / 0x100 && src[3] == m.sub % 0x100; }
  }

  // A buffer is refused as indeterminate exactly when no standard message of the direction begins as it does.
  lemma RefusedIsForeign(src: seq<Byte>, direction: Direction)
    requires |src| >= 4
    ensures StrictLength(src, direction) == Rejected(Indeterminate(src[1]))
            <==> !exists m :: BeginsAs(m, direction, src)
  {
    hide StrictLength, BeginsAs, SampleOf, Determinate;
    DeterminateIs(src, direction);
    forall m | BeginsAs(m, direction, src) ensures Determinate(src, direction) {
      BegunIsDeterminate(m, direction, src);
    }
    if Determinate(src, direction) { SampleBegins(direction, src); }
  }
}
