/** Whole streams through a codec: encoding, repeated decoding of a growing buffer, and exactly
    when a stream of frames comes back unchanged however the transport splits it. */
module Streams {
  import opened Bytes
  import opened Crc
  import opened Framing

  datatype Option<T> = None | Some(value: T)
  datatype Encoding = Encoded(bytes: seq<Byte>) | Refused(error: Error)

  function UnitOf(header: Header): Byte {
    match header
    case Rtu(unit) => unit
    case Mbap(_, _, _, unit) => unit
  }

  function RtuWire(unit: Byte, pdu: seq<Byte>): (r: seq<Byte>)
    ensures |r| == |pdu| + 3
  {
    [unit] + pdu + Trailer(Checksum([unit] + pdu))
  }

  function EncodeRtu(frame: Frame): Encoding {
    if |frame.pdu| < 1 then Refused(InvalidPduLength(|frame.pdu|))
    else if |frame.pdu| > MAX_PDU_SIZE then Refused(PduLengthOverflow(|frame.pdu|))
    else Encoded(RtuWire(UnitOf(frame.header), frame.pdu))
  }

  function MbapHeaderBytes(h: Header): seq<Byte>
    requires h.Mbap?
  {
    BigEndian(h.transaction) + BigEndian(h.protocol) + BigEndian(h.length) + [h.unitId]
  }

  function EncodeMbap(frame: Frame): Encoding {
    match frame.header
    case Rtu(_) => Refused(InvalidProtocol(0xFFFF))
    case Mbap(_, protocol, declared, _) =>
      var size := |frame.pdu|;
      if protocol != 0 then Refused(InvalidProtocol(protocol))
      else if size > MAX_PDU_SIZE then Refused(LengthOverflow(Min(size, 0xFFFF)))
      else if size + 1 < MIN_MBAP_LENGTH then Refused(InvalidLength(size + 1))
      else if declared < MIN_MBAP_LENGTH then Refused(InvalidLength(declared))
      else if declared > MAX_MBAP_LENGTH then Refused(LengthOverflow(declared))
      else if declared != size + 1 then Refused(LengthMismatch(declared, size + 1))
      else Encoded(MbapHeaderBytes(frame.header) + frame.pdu)
  }

  function Encode(codec: Codec, frame: Frame): Encoding {
    if codec.MbapTcp? then EncodeMbap(frame) else EncodeRtu(frame)
  }

  // A frame the codec accepts for sending and can name on receipt.
  predicate Sendable(codec: Codec, frame: Frame) {
    && Encode(codec, frame).Encoded?
    && (codec.MbapTcp? || frame.header.Rtu?)
  }

  // What can be sent: a PDU of 1 to 253 bytes under the codec's own header, and for MBAP a header that tells
  // the truth.
  lemma SendableIs(codec: Codec, frame: Frame)
    ensures Sendable(codec, frame)
            <==> && 1 <= |frame.pdu| <= 253
                 && if codec.MbapTcp?
                    then frame.header.Mbap? && frame.header.protocol == 0 && frame.header.length == |frame.pdu| + 1
                    else frame.header.Rtu?
  {
    hide RtuWire, MbapHeaderBytes;
  }

  function Wire(codec: Codec, frame: Frame): (r: seq<Byte>)
    requires Sendable(codec, frame)
    ensures |r| >= 4
  {
    Encode(codec, frame).bytes
  }

  // ---- One frame ----

  // What a sender can check of a frame: its wire form has no verifying proper prefix (scan policy),
  // or its own leading bytes declare its own length (strict policy).
  ghost predicate Transparent(codec: Codec, frame: Frame)
    requires Sendable(codec, frame)
  {
    match codec
    case CrcScan => forall k :: MIN_RTU_FRAME <= k < |Wire(codec, frame)| ==> !Verify(Wire(codec, frame)[..k])
    case Strict(direction) =>
      StrictLength([UnitOf(frame.header)] + frame.pdu, direction) == Known(|frame.pdu|)
    case MbapTcp => true
  }

  // Frames that are not transparent. Under the scan policy: any PDU that ends in the checksum of what
  // precedes it, since the frame verifies two bytes early.
  lemma EarlyMatchIsOpaque(unit: Byte, pdu: seq<Byte>)
    requires 1 <= |pdu| <= MAX_PDU_SIZE - 2
    ensures var frame := Frame(Rtu(unit), pdu + Trailer(Checksum([unit] + pdu)));
            Sendable(CrcScan, frame) && !Transparent(CrcScan, frame)
  {
    hide Checksum, Verify;
    var frame := Frame(Rtu(unit), pdu + Trailer(Checksum([unit] + pdu)));
    var n := |pdu| + 3;
    assert Wire(CrcScan, frame)[..n] == RtuWire(unit, pdu);
    RtuWireVerifies(unit, pdu);
    assert MIN_RTU_FRAME <= n < |Wire(CrcScan, frame)|;
  }

  // Under the function-aware policy: a read request of any length but five, and a read response whose byte
  // count is not the number of bytes that follow.
  lemma WrongLengthIsOpaque(unit: Byte, rest: seq<Byte>)
    requires 1 <= |rest| <= MAX_PDU_SIZE - 1
    ensures var frame := Frame(Rtu(unit), [0x03] + rest);
            && Sendable(Strict(Request), frame) && Sendable(Strict(Response), frame)
            && (Transparent(Strict(Request), frame) <==> |rest| == 4)
            && (Transparent(Strict(Response), frame) <==> rest[0] == |rest| - 1)
  {
    hide Checksum;
  }

  lemma {:induction false} FirstBoundaryIs(src: seq<Byte>, from: nat, limit: nat, n: nat)
    requires from <= n <= limit <= |src| && Verify(src[..n])
    ensures FirstBoundary(src, from, limit) == n <==> forall k :: from <= k < n ==> !Verify(src[..k])
    ensures from <= FirstBoundary(src, from, limit) <= n
    decreases n - from
  {
    hide Verify;
    if from < n && !Verify(src[..from]) { FirstBoundaryIs(src, from + 1, limit, n); }
  }

  lemma RtuWireVerifies(unit: Byte, pdu: seq<Byte>)
    ensures Verify(RtuWire(unit, pdu))
  {
  }

  lemma CrcScanTransparent(frame: Frame, tail: seq<Byte>)
    requires Sendable(CrcScan, frame)
    ensures Boundary(Wire(CrcScan, frame) + tail) == |Wire(CrcScan, frame)| <==> Transparent(CrcScan, frame)
    ensures 4 <= Boundary(Wire(CrcScan, frame) + tail) <= |Wire(CrcScan, frame)|
  {
    var wire := Wire(CrcScan, frame);
    var src, n := wire + tail, |wire|;
    RtuWireVerifies(UnitOf(frame.header), frame.pdu);
    assert src[..n] == wire;
    assert forall k :: 0 <= k <= n ==> src[..k] == wire[..k];
    FirstBoundaryIs(src, MIN_RTU_FRAME, Min(|src|, MAX_RTU_ADU_SIZE), n);
  }

  lemma StrictTransparent(frame: Frame, tail: seq<Byte>, direction: Direction)
    requires Sendable(Strict(direction), frame)
    ensures var src := Wire(Strict(direction), frame) + tail;
            StrictLength(src, direction) == Known(|frame.pdu|) <==> Transparent(Strict(direction), frame)
  {
    var wire := Wire(Strict(direction), frame);
    var src, head, n := wire + tail, [UnitOf(frame.header)] + frame.pdu, |frame.pdu|;
    assert src == head + src[n + 1..];
    assert src[..n + 1] == head;
    if StrictLength(head, direction) == Known(n) {
      StrictLengthStable(head, src[n + 1..], direction);
    } else if StrictLength(src, direction) == Known(n) {
      StrictLengthLocal(src, direction, n);
    }
  }

  lemma SplitOfWire(frame: Frame, tail: seq<Byte>)
    requires Sendable(CrcScan, frame)
    ensures SplitRtu(Wire(CrcScan, frame) + tail, |frame.pdu| + 3) == Got(frame, |frame.pdu| + 3)
  {
    var src := Wire(CrcScan, frame) + tail;
    assert src[1..|frame.pdu| + 1] == frame.pdu;
  }

  lemma CutOfWire(frame: Frame, tail: seq<Byte>)
    requires Sendable(CrcScan, frame)
    ensures CutAt(Wire(CrcScan, frame) + tail, Known(|frame.pdu|)) == Got(frame, |frame.pdu| + 3)
  {
    var wire := Wire(CrcScan, frame);
    assert (wire + tail)[..|frame.pdu| + 3] == wire;
    RtuWireVerifies(UnitOf(frame.header), frame.pdu);
    SplitOfWire(frame, tail);
  }

  lemma MbapOfWire(frame: Frame, tail: seq<Byte>)
    requires Sendable(MbapTcp, frame)
    ensures DecodeMbap(Wire(MbapTcp, frame) + tail) == Got(frame, |Wire(MbapTcp, frame)|)
  {
    hide MbapHeaderBytes, FromBigEndian;
    var src, h := Wire(MbapTcp, frame) + tail, frame.header;
    var rest := frame.pdu + tail;
    assert |MbapHeaderBytes(h)| == 7 by { HeaderOfBytes(h, rest); }
    assert src == MbapHeaderBytes(h) + rest;
    HeaderOfBytes(h, rest);
    assert src[7..6 + h.length] == frame.pdu;
  }

  lemma HeaderOfBytes(h: Header, rest: seq<Byte>)
    requires h.Mbap?
    ensures |MbapHeaderBytes(h)| == 7
    ensures var src := MbapHeaderBytes(h) + rest;
            h == Mbap(FromBigEndian(src[0], src[1]), FromBigEndian(src[2], src[3]), FromBigEndian(src[4], src[5]),
                      src[6])
  {
  }

  // What each policy makes of a sent frame followed by more bytes.
  lemma ScanOfWire(frame: Frame, tail: seq<Byte>)
    requires Sendable(CrcScan, frame)
    ensures var r := DecodeCrcScan(Wire(CrcScan, frame) + tail);
            if Transparent(CrcScan, frame) then r == Got(frame, |frame.pdu| + 3)
            else r.Got? && |r.frame.pdu| < |frame.pdu|
  {
    hide Verify;
    CrcScanTransparent(frame, tail);
    SplitOfWire(frame, tail);
  }

  lemma StrictOfWire(frame: Frame, tail: seq<Byte>, direction: Direction)
    requires Sendable(Strict(direction), frame)
    ensures var r := DecodeStrict(Wire(Strict(direction), frame) + tail, direction);
            if Transparent(Strict(direction), frame) then r == Got(frame, |frame.pdu| + 3)
            else r.Got? ==> |r.frame.pdu| != |frame.pdu|
  {
    hide Verify;
    var src := Wire(CrcScan, frame) + tail;
    StrictTransparent(frame, tail, direction);
    StrictLengthPositive(src, direction);
    CutOfWire(frame, tail);
  }

  // The first decoded frame is the one that was sent exactly when that frame is transparent.
  lemma DecodeOfWire(codec: Codec, frame: Frame, tail: seq<Byte>)
    requires Sendable(codec, frame)
    ensures var r := Decode(codec, Wire(codec, frame) + tail);
            if Transparent(codec, frame) then r == Got(frame, |Wire(codec, frame)|)
            else !(r.Got? && r.frame == frame)
  {
    hide Verify;
    match codec
    case CrcScan => ScanOfWire(frame, tail);
    case Strict(direction) => StrictOfWire(frame, tail, direction);
    case MbapTcp => MbapOfWire(frame, tail);
  }

  lemma WireOfMbap(src: seq<Byte>)
    requires DecodeMbap(src).Got?
    ensures EncodeMbap(DecodeMbap(src).frame) == Encoded(src[..DecodeMbap(src).consumed])
  {
    hide MbapHeaderBytes, FromBigEndian;
    var Got(frame, n) := DecodeMbap(src);
    HeaderReadBack(src, frame.header);
    assert src[..n] == src[..7] + src[7..n];
  }

  lemma HeaderReadBack(src: seq<Byte>, h: Header)
    requires |src| >= 7
    requires h == Mbap(FromBigEndian(src[0], src[1]), FromBigEndian(src[2], src[3]), FromBigEndian(src[4], src[5]),
                       src[6])
    ensures MbapHeaderBytes(h) == src[..7]
  {
  }

  // A codec only accepts the bytes it would itself send for the frame it yields.
  lemma EncodeOfDecode(codec: Codec, src: seq<Byte>)
    requires Decode(codec, src).Got?
    ensures Sendable(codec, Decode(codec, src).frame)
    ensures Wire(codec, Decode(codec, src).frame) == src[..Decode(codec, src).consumed]
  {
    hide Verify;
    var Got(frame, n) := Decode(codec, src);
    match codec
    case CrcScan =>
      FirstBoundaryVerifies(src, MIN_RTU_FRAME, Min(|src|, MAX_RTU_ADU_SIZE));
      WireOfVerified(src[..n], frame);
    case Strict(direction) =>
      StrictLengthPositive(src, direction);
      WireOfVerified(src[..n], frame);
    case MbapTcp => WireOfMbap(src);
  }

  lemma {:induction false} FirstBoundaryVerifies(src: seq<Byte>, from: nat, limit: nat)
    requires limit <= |src|
    ensures FirstBoundary(src, from, limit) != -1 ==> Verify(src[..FirstBoundary(src, from, limit)])
    decreases limit + 1 - from
  {
    if from <= limit && !Verify(src[..from]) { FirstBoundaryVerifies(src, from + 1, limit); }
  }

  lemma WireOfVerified(adu: seq<Byte>, frame: Frame)
    requires 4 <= |adu| <= MAX_RTU_ADU_SIZE && Verify(adu)
    requires frame == Frame(Rtu(adu[0]), adu[1..|adu| - 2])
    ensures EncodeRtu(frame) == Encoded(adu)
  {
    hide Checksum;
    var n := |adu| - 2;
    assert [adu[0]] + frame.pdu == adu[..n];
    assert adu == adu[..n] + adu[n..];
  }

  // When the scan policy waits and when it gives up: with no verifying prefix, up to 255 bytes and from 256 on.
  lemma ScanDecides(src: seq<Byte>)
    ensures DecodeCrcScan(src).Got? <==> exists k :: 4 <= k <= |src| && k <= 256 && Verify(src[..k])
    ensures DecodeCrcScan(src).Failed? <==> |src| >= 256 && !DecodeCrcScan(src).Got?
    ensures DecodeCrcScan(src).Failed? ==> DecodeCrcScan(src).error == Truncated
  {
    hide Verify;
    NoBoundaryIs(src, MIN_RTU_FRAME, Min(|src|, MAX_RTU_ADU_SIZE));
  }

  lemma {:induction false} NoBoundaryIs(src: seq<Byte>, from: nat, limit: nat)
    requires limit <= |src|
    ensures FirstBoundary(src, from, limit) != -1 <==> exists k :: from <= k <= limit && Verify(src[..k])
    decreases limit + 1 - from
  {
    hide Verify;
    if from <= limit && !Verify(src[..from]) { NoBoundaryIs(src, from + 1, limit); }
  }

  // High byte first.
  function WordOf(high: int, low: int): int { 256 * high + low }

  // What the MBAP decoder makes of a header: another protocol, a length below 2 and one above 254 are refused,
  // in this order; otherwise it waits for as many bytes as the length says.
  lemma MbapDecides(src: seq<Byte>)
    ensures var r := DecodeMbap(src);
            if |src| < 7 then r == NeedMore
            else
              var protocol: Word, length: Word := WordOf(src[2], src[3]), WordOf(src[4], src[5]);
              && (r == Failed(InvalidProtocol(protocol)) <==> protocol != 0)
              && (r == Failed(InvalidLength(length)) <==> protocol == 0 && length < 2)
              && (r == Failed(LengthOverflow(length)) <==> protocol == 0 && length > 254)
              && (r == NeedMore <==> protocol == 0 && 2 <= length <= 254 && |src| < 6 + length)
              && (r.Got? <==> protocol == 0 && 2 <= length <= 254 && 6 + length <= |src|)
              && (r.Got? ==> && r.consumed == 6 + length && r.frame.pdu == src[7..6 + length]
                             && r.frame.header == Mbap(WordOf(src[0], src[1]), 0, length, src[6]))
  {
  }

  // ---- Streams ----

  // What a framed reader holds: the frames produced, the bytes not yet cut, and the terminal error.
  datatype Reader = Reader(frames: seq<Frame>, buffer: seq<Byte>, error: Option<Error>)

  // Decode until the codec asks for more bytes or fails.
  function Drain(codec: Codec, buffer: seq<Byte>): Reader
    decreases |buffer|
  {
    match Decode(codec, buffer)
    case NeedMore => Reader([], buffer, None)
    case Failed(e) => Reader([], buffer, Some(e))
    case Got(frame, n) =>
      var rest := Drain(codec, buffer[n..]);
      Reader([frame] + rest.frames, rest.buffer, rest.error)
  }

  // One more transport read; any decode error is terminal for the connection.
  function Feed(codec: Codec, reader: Reader, chunk: seq<Byte>): Reader {
    if reader.error.Some? then reader
    else
      var d := Drain(codec, reader.buffer + chunk);
      Reader(reader.frames + d.frames, d.buffer, d.error)
  }

  function FeedAll(codec: Codec, reader: Reader, chunks: seq<seq<Byte>>): Reader
    decreases |chunks|
  {
    if chunks == [] then reader else FeedAll(codec, Feed(codec, reader, chunks[0]), chunks[1..])
  }

  function Flatten(chunks: seq<seq<Byte>>): seq<Byte> {
    if chunks == [] then [] else chunks[0] + Flatten(chunks[1..])
  }

  const EMPTY := Reader([], [], None)

  // Draining `all` is draining `part` and then going on with `more` from what was left.
  ghost predicate Continues(codec: Codec, part: Reader, more: seq<Byte>, all: Reader) {
    if part.error.Some? then all.frames == part.frames && all.error == part.error
    else all == Feed(codec, part, more)
  }

  lemma ContinuesAfter(codec: Codec, frame: Frame, part: Reader, more: seq<Byte>, all: Reader)
    requires Continues(codec, part, more, all)
    ensures Continues(codec, Reader([frame] + part.frames, part.buffer, part.error), more,
                      Reader([frame] + all.frames, all.buffer, all.error))
  {
    hide Drain;
    var d := Drain(codec, part.buffer + more);
    assert ([frame] + part.frames) + d.frames == [frame] + (part.frames + d.frames);
  }

  lemma {:induction false} DrainAppend(codec: Codec, a: seq<Byte>, b: seq<Byte>)
    ensures Continues(codec, Drain(codec, a), b, Drain(codec, a + b))
    decreases |a|
  {
    hide Decode;
    match Decode(codec, a)
    case NeedMore =>
      var all := Drain(codec, a + b);
      assert [] + all.frames == all.frames;
    case Failed(e) => DecodeStable(codec, a, b);
    case Got(frame, n) =>
      DecodeStable(codec, a, b);
      assert (a + b)[n..] == a[n..] + b;
      DrainAppend(codec, a[n..], b);
      ContinuesAfter(codec, frame, Drain(codec, a[n..]), b, Drain(codec, a[n..] + b));
  }

  lemma {:induction false} FeedAllFrom(codec: Codec, a: seq<Byte>, chunks: seq<seq<Byte>>)
    requires Drain(codec, a).error.None?
    ensures var r, whole := FeedAll(codec, Drain(codec, a), chunks), Drain(codec, a + Flatten(chunks));
            r.frames == whole.frames && r.error == whole.error && (r.error.None? ==> r.buffer == whole.buffer)
    decreases |chunks|
  {
    hide Drain;
    if chunks == [] {
      assert a + [] == a;
    } else {
      DrainAppend(codec, a, chunks[0]);
      assert a + Flatten(chunks) == (a + chunks[0]) + Flatten(chunks[1..]);
      var next := Drain(codec, a + chunks[0]);
      if next.error.None? {
        FeedAllFrom(codec, a + chunks[0], chunks[1..]);
      } else {
        DrainAppend(codec, a + chunks[0], Flatten(chunks[1..]));
        FeedAllStopped(codec, next, chunks[1..]);
      }
    }
  }

  lemma {:induction false} FeedAllStopped(codec: Codec, reader: Reader, chunks: seq<seq<Byte>>)
    requires reader.error.Some?
    ensures FeedAll(codec, reader, chunks) == reader
    decreases |chunks|
  {
    if chunks != [] { FeedAllStopped(codec, reader, chunks[1..]); }
  }

  // However the transport splits a byte stream, the same frames and the same error come out.
  lemma ChunkingIsInvisible(codec: Codec, chunks: seq<seq<Byte>>)
    ensures var r, whole := FeedAll(codec, EMPTY, chunks), Drain(codec, Flatten(chunks));
            r.frames == whole.frames && r.error == whole.error && (r.error.None? ==> r.buffer == whole.buffer)
  {
    DrainOfEmpty(codec);
    FeedAllFrom(codec, [], chunks);
    assert [] + Flatten(chunks) == Flatten(chunks);
  }

  ghost predicate AllSendable(codec: Codec, frames: seq<Frame>) {
    forall f :: f in frames ==> Sendable(codec, f)
  }

  function StreamOf(codec: Codec, frames: seq<Frame>): seq<Byte>
    requires AllSendable(codec, frames)
  {
    if frames == [] then [] else Wire(codec, frames[0]) + StreamOf(codec, frames[1..])
  }

  // Decoding neither loses, reorders nor invents bytes.
  lemma {:induction false} DrainConserves(codec: Codec, src: seq<Byte>)
    ensures AllSendable(codec, Drain(codec, src).frames)
    ensures StreamOf(codec, Drain(codec, src).frames) + Drain(codec, src).buffer == src
    decreases |src|
  {
    if Decode(codec, src).Got? {
      var frame, n := Decode(codec, src).frame, Decode(codec, src).consumed;
      DrainConserves(codec, src[n..]);
      hide Decode, Wire, Sendable, StreamOf, AllSendable, Drain;
      EncodeOfDecode(codec, src);
      DrainGot(codec, src);
      var rest := Drain(codec, src[n..]);
      StreamCons(codec, frame, rest.frames);
      Reassemble(Wire(codec, frame), StreamOf(codec, rest.frames), rest.buffer, src, n);
    }
  }

  lemma Reassemble(wire: seq<Byte>, stream: seq<Byte>, buffer: seq<Byte>, src: seq<Byte>, n: nat)
    requires n <= |src| && wire == src[..n] && stream + buffer == src[n..]
    ensures (wire + stream) + buffer == src
  {
  }

  lemma DrainGot(codec: Codec, src: seq<Byte>)
    requires Decode(codec, src).Got?
    ensures var step := Decode(codec, src);
            var rest := Drain(codec, src[step.consumed..]);
            Drain(codec, src) == Reader([step.frame] + rest.frames, rest.buffer, rest.error)
  {
  }

  lemma StreamCons(codec: Codec, frame: Frame, frames: seq<Frame>)
    requires Sendable(codec, frame) && AllSendable(codec, frames)
    ensures AllSendable(codec, [frame] + frames)
    ensures StreamOf(codec, [frame] + frames) == Wire(codec, frame) + StreamOf(codec, frames)
  {
  }

  lemma DrainOfEmpty(codec: Codec)
    ensures Drain(codec, []) == EMPTY
  {
  }

  lemma DrainOfHead(codec: Codec, head: Frame, rest: seq<Byte>, tail: seq<Frame>)
    requires Sendable(codec, head)
    ensures Drain(codec, Wire(codec, head) + rest) == Reader([head] + tail, [], None)
            <==> Transparent(codec, head) && Drain(codec, rest) == Reader(tail, [], None)
  {
    hide Decode, Wire, Sendable, Transparent;
    DecodeOfWire(codec, head, rest);
    assert (Wire(codec, head) + rest)[|Wire(codec, head)|..] == rest;
    var frames := Drain(codec, Wire(codec, head) + rest).frames;
    var src := Wire(codec, head) + rest;
    assert frames != [] ==> frames[1..] == Drain(codec, src[Decode(codec, src).consumed..]).frames;
    assert ([head] + tail)[1..] == tail;
  }

  lemma {:induction false} DrainOfStream(codec: Codec, frames: seq<Frame>)
    requires AllSendable(codec, frames)
    ensures Drain(codec, StreamOf(codec, frames)) == Reader(frames, [], None)
            <==> forall f :: f in frames ==> Transparent(codec, f)
    decreases |frames|
  {
    hide Drain, Wire, Sendable, Transparent;
    if frames == [] {
      DrainOfEmpty(codec);
    } else {
      DrainOfStream(codec, frames[1..]);
      DrainOfHead(codec, frames[0], StreamOf(codec, frames[1..]), frames[1..]);
      assert frames == [frames[0]] + frames[1..];
    }
  }

  // A sent stream is received as the very same frames, under any splitting, exactly when every
  // frame of it is transparent for the codec. For MBAP that is always so.
  lemma StreamRoundTrip(codec: Codec, frames: seq<Frame>, chunks: seq<seq<Byte>>)
    requires AllSendable(codec, frames)
    requires Flatten(chunks) == StreamOf(codec, frames)
    ensures FeedAll(codec, EMPTY, chunks) == Reader(frames, [], None)
            <==> forall f :: f in frames ==> Transparent(codec, f)
  {
    ChunkingIsInvisible(codec, chunks);
    DrainOfStream(codec, frames);
  }
}
