/** The stream codecs of the frame crate: RTU-over-TCP with its first-valid-CRC and its
    function-aware boundary policies, and MBAP. Decoding is a function of the buffered bytes
    here; the buffer-mutating decoders are in FrameDecoders. */
module Framing {
  import opened Bytes
  import opened Crc

  const MAX_PDU_SIZE := 253
  const MAX_RTU_ADU_SIZE := 256
  const MIN_RTU_FRAME := 4
  const MBAP_HEADER_LEN := 7
  const MIN_MBAP_LENGTH := 2
  const MAX_MBAP_LENGTH := 254

  datatype Header = Rtu(unit: Byte) | Mbap(transaction: Word, protocol: Word, length: Word, unitId: Byte)
  datatype Frame = Frame(header: Header, pdu: seq<Byte>)

  datatype Error =
    | Truncated
    | CrcMismatch
    | Indeterminate(function_code: Byte)
    | LengthTooLarge(length: nat)
    | InvalidProtocol(protocol: Word)
    | InvalidLength(declared: Word)
    | LengthOverflow(declared: Word)
    | LengthMismatch(declared: Word, actual: nat)
    | InvalidPduLength(pduLength: nat)
    | PduLengthOverflow(pduLength: nat)

  // What one decode call does with the buffered bytes.
  datatype Step =
    | NeedMore
    | Got(frame: Frame, consumed: nat)
    | Failed(error: Error)

  datatype Direction = Request | Response
  datatype Codec = CrcScan | Strict(direction: Direction) | MbapTcp

  // ---- First-valid-CRC policy ----

  // The first candidate length, from `from` on, whose prefix verifies; -1 when there is none up to `limit`.
  function FirstBoundary(src: seq<Byte>, from: nat, limit: nat): (r: int)
    requires limit <= |src|
    ensures r == -1 || from <= r <= limit
    decreases limit + 1 - from
  {
    if from > limit then -1
    else if Verify(src[..from]) then from
    else FirstBoundary(src, from + 1, limit)
  }

  function Min(a: nat, b: nat): nat { if a < b then a else b }

  function Boundary(src: seq<Byte>): (r: int)
    ensures r == -1 || MIN_RTU_FRAME <= r <= Min(|src|, MAX_RTU_ADU_SIZE)
  {
    FirstBoundary(src, MIN_RTU_FRAME, Min(|src|, MAX_RTU_ADU_SIZE))
  }

  function SplitRtu(src: seq<Byte>, aduLen: nat): Step
    requires 3 <= aduLen <= |src|
  {
    Got(Frame(Rtu(src[0]), src[1..aduLen - 2]), aduLen)
  }

  function DecodeCrcScan(src: seq<Byte>): (r: Step)
    ensures r.Got? ==> 4 <= r.consumed <= |src|
  {
    var n := Boundary(src);
    if n != -1 then SplitRtu(src, n)
    else if |src| >= MAX_RTU_ADU_SIZE then Failed(Truncated)
    else NeedMore
  }

  // ---- Function-aware policy ----

  // The PDU length a buffered prefix declares: unknown so far, known, or rejected.
  datatype Length = Unknown | Known(pdu: nat) | Rejected(error: Error)

  function Checked(length: nat): Length {
    if length > MAX_PDU_SIZE then Rejected(LengthTooLarge(length)) else Known(length)
  }

  function ByteCounted(src: seq<Byte>, base: nat, index: nat): Length {
    if index < |src| then Checked(base + src[index]) else Unknown
  }

  function WordCounted(src: seq<Byte>, base: nat, index: nat): Length {
    if index + 2 <= |src| then Checked(base + FromBigEndian(src[index], src[index + 1])) else Unknown
  }

  function DiagnosticLength(src: seq<Byte>): Length {
    if |src| < 4 then Unknown
    else
      var sub := FromBigEndian(src[2], src[3]);
      if 1 <= sub <= 3 || 0x0A <= sub <= 0x12 || sub == 0x14 then Known(5) else Rejected(Indeterminate(0x08))
  }

  function MeiRequestLength(src: seq<Byte>): Length {
    if |src| < 3 then Unknown else if src[2] == 0x0E then Known(4) else Rejected(Indeterminate(0x2B))
  }

  // The remaining `count` device-identification objects, the PDU being `len` bytes long before them.
  function MeiObjects(src: seq<Byte>, count: nat, len: nat): Length
    decreases count
  {
    if count == 0 then Known(len)
    else if 1 + len + 2 > |src| then Unknown
    else
      var next := len + 2 + src[1 + len + 1];
      if next > MAX_PDU_SIZE then Rejected(LengthTooLarge(next)) else MeiObjects(src, count - 1, next)
  }

  function MeiResponseLength(src: seq<Byte>): Length {
    if |src| < 3 then Unknown
    else if src[2] != 0x0E then Rejected(Indeterminate(0x2B))
    else if |src| < 8 then Unknown
    else
      var count: nat := src[7];
      if 7 + 2 * count > MAX_PDU_SIZE then Rejected(LengthTooLarge(7 + 2 * count)) else MeiObjects(src, count, 7)
  }

  predicate SupportsBase(fc: Byte) {
    1 <= fc <= 8 || fc == 0x0B || fc == 0x0C || 0x0F <= fc <= 0x11 || 0x14 <= fc <= 0x18 || fc == 0x2B
  }

  function StrictLength(src: seq<Byte>, direction: Direction): Length
    requires |src| >= 2
  {
    var fc, request := src[1], direction == Request;
    if fc >= 0x80 then
      (if !request && SupportsBase(fc - 0x80) then Known(2) else Rejected(Indeterminate(fc)))
    else if 1 <= fc <= 4 then
      (if request then Known(5) else ByteCounted(src, 2, 2))
    else if fc == 5 || fc == 6 then Known(5)
    else if fc == 7 then Known(if request then 1 else 2)
    else if fc == 8 then DiagnosticLength(src)
    else if fc == 0x0B then Known(if request then 1 else 5)
    else if fc == 0x0C || fc == 0x11 then
      (if request then Known(1) else ByteCounted(src, 2, 2))
    else if fc == 0x0F || fc == 0x10 then
      (if request then ByteCounted(src, 6, 6) else Known(5))
    else if fc == 0x14 || fc == 0x15 then ByteCounted(src, 2, 2)
    else if fc == 0x16 then Known(7)
    else if fc == 0x17 then
      (if request then ByteCounted(src, 10, 10) else ByteCounted(src, 2, 2))
    else if fc == 0x18 then
      (if request then Known(3) else WordCounted(src, 3, 2))
    else if fc == 0x2B then
      (if request then MeiRequestLength(src) else MeiResponseLength(src))
    else Rejected(Indeterminate(fc))
  }

  // The frame of the declared length, once all of it is buffered.
  function CutAt(src: seq<Byte>, length: Length): (r: Step)
    requires length.Known? ==> length.pdu >= 1
    ensures r.Got? ==> 4 <= r.consumed <= |src|
  {
    match length
    case Unknown => if |src| >= MAX_RTU_ADU_SIZE then Failed(Truncated) else NeedMore
    case Rejected(e) => Failed(e)
    case Known(pdu) =>
      if |src| < pdu + 3 then NeedMore
      else if Verify(src[..pdu + 3]) then SplitRtu(src, pdu + 3)
      else Failed(CrcMismatch)
  }

  function DecodeStrict(src: seq<Byte>, direction: Direction): (r: Step)
    ensures r.Got? ==> 4 <= r.consumed <= |src|
  {
    if |src| < 2 then NeedMore
    else StrictLengthPositive(src, direction); CutAt(src, StrictLength(src, direction))
  }

  // ---- MBAP ----

  function DecodeMbap(src: seq<Byte>): (r: Step)
    ensures r.Got? ==> 4 <= r.consumed <= |src|
  {
    if |src| < MBAP_HEADER_LEN then NeedMore
    else
      var transaction, protocol, length :=
        FromBigEndian(src[0], src[1]), FromBigEndian(src[2], src[3]), FromBigEndian(src[4], src[5]);
      if protocol != 0 then Failed(InvalidProtocol(protocol))
      else if length < MIN_MBAP_LENGTH then Failed(InvalidLength(length))
      else if length > MAX_MBAP_LENGTH then Failed(LengthOverflow(length))
      else if |src| < 6 + length then NeedMore
      else Got(Frame(Mbap(transaction, protocol, length, src[6]), src[7..6 + length]), 6 + length)
  }

  function Decode(codec: Codec, src: seq<Byte>): (r: Step)
    ensures r.Got? ==> 4 <= r.consumed <= |src|
  {
    match codec
    case CrcScan => DecodeCrcScan(src)
    case Strict(direction) => DecodeStrict(src, direction)
    case MbapTcp => DecodeMbap(src)
  }

  lemma StrictLengthPositive(src: seq<Byte>, direction: Direction)
    ensures |src| >= 2 && StrictLength(src, direction).Known? ==> 1 <= StrictLength(src, direction).pdu <= MAX_PDU_SIZE
  {
    if |src| >= 8 && MeiObjects(src, src[7], 7).Known? { MeiObjectsLocal(src, |src|, src[7], 7); }
  }

  // ---- Appending bytes never revises a decision ----

  lemma {:induction false} MeiObjectsStable(a: seq<Byte>, b: seq<Byte>, count: nat, len: nat)
    requires MeiObjects(a, count, len) != Unknown
    ensures MeiObjects(a + b, count, len) == MeiObjects(a, count, len)
    decreases count
  {
    if count != 0 {
      var next := len + 2 + a[1 + len + 1];
      if next <= MAX_PDU_SIZE { MeiObjectsStable(a, b, count - 1, next); }
    }
  }

  // A known length only depends on bytes inside the frame it delimits.
  lemma {:induction false} MeiObjectsLocal(src: seq<Byte>, n: nat, count: nat, len: nat)
    requires n <= |src| && MeiObjects(src, count, len).Known? && len <= MAX_PDU_SIZE
    ensures len <= MeiObjects(src, count, len).pdu <= MAX_PDU_SIZE
    ensures MeiObjects(src, count, len).pdu < n ==> MeiObjects(src[..n], count, len) == MeiObjects(src, count, len)
    decreases count
  {
    if count != 0 {
      MeiObjectsLocal(src, n, count - 1, len + 2 + src[1 + len + 1]);
    }
  }

  lemma StrictLengthStable(a: seq<Byte>, b: seq<Byte>, direction: Direction)
    requires |a| >= 2 && StrictLength(a, direction) != Unknown
    ensures StrictLength(a + b, direction) == StrictLength(a, direction)
  {
    if a[1] == 0x2B && direction == Response && |a| >= 8 && 7 + 2 * a[7] <= MAX_PDU_SIZE && a[2] == 0x0E {
      MeiObjectsStable(a, b, a[7], 7);
    }
  }

  lemma StrictLengthLocal(src: seq<Byte>, direction: Direction, n: nat)
    requires |src| >= 2 && StrictLength(src, direction) == Known(n) && 1 <= n < |src|
    ensures StrictLength(src[..n + 1], direction) == Known(n)
  {
    if src[1] == 0x2B && direction == Response {
      MeiObjectsLocal(src, n + 1, src[7], 7);
    }
  }

  lemma {:induction false} FirstBoundaryStable(a: seq<Byte>, b: seq<Byte>, from: nat, limit: nat, wider: nat)
    requires limit <= |a| && limit <= wider <= |a + b|
    ensures FirstBoundary(a, from, limit) != -1 ==> FirstBoundary(a + b, from, wider) == FirstBoundary(a, from, limit)
    ensures FirstBoundary(a, from, limit) == -1 && limit == wider ==> FirstBoundary(a + b, from, wider) == -1
    decreases limit + 1 - from
  {
    if from <= limit {
      assert (a + b)[..from] == a[..from];
      FirstBoundaryStable(a, b, from + 1, limit, wider);
    }
  }

  lemma {:induction false} MeiObjectsUnknown(src: seq<Byte>, count: nat, len: nat)
    requires MeiObjects(src, count, len) == Unknown && len <= MAX_PDU_SIZE
    ensures |src| < MAX_RTU_ADU_SIZE
    decreases count
  {
    if 1 + len + 2 <= |src| { MeiObjectsUnknown(src, count - 1, len + 2 + src[1 + len + 1]); }
  }

  // The strict grammar settles within one maximum frame, so its `Truncated` guard never fires.
  lemma StrictUnknownIsShort(src: seq<Byte>, direction: Direction)
    requires |src| >= 2 && StrictLength(src, direction) == Unknown
    ensures |src| < MAX_RTU_ADU_SIZE
  {
    if src[1] == 0x2B && direction == Response && |src| >= 8 {
      MeiObjectsUnknown(src, src[7], 7);
    }
  }

  lemma CrcScanStable(a: seq<Byte>, b: seq<Byte>)
    requires DecodeCrcScan(a) != NeedMore
    ensures DecodeCrcScan(a + b) == DecodeCrcScan(a)
  {
    FirstBoundaryStable(a, b, MIN_RTU_FRAME, Min(|a|, MAX_RTU_ADU_SIZE), Min(|a + b|, MAX_RTU_ADU_SIZE));
    if Boundary(a) != -1 { SplitStable(a, b, Boundary(a)); }
  }

  lemma SplitStable(a: seq<Byte>, b: seq<Byte>, n: nat)
    requires 3 <= n <= |a|
    ensures SplitRtu(a + b, n) == SplitRtu(a, n)
  {
    assert (a + b)[1..n - 2] == a[1..n - 2];
  }

  lemma CutStable(a: seq<Byte>, b: seq<Byte>, n: nat)
    requires 1 <= n <= |a| - 3
    ensures CutAt(a + b, Known(n)) == CutAt(a, Known(n))
  {
    assert (a + b)[..n + 3] == a[..n + 3];
    SplitStable(a, b, n + 3);
  }

  lemma StrictStable(a: seq<Byte>, b: seq<Byte>, direction: Direction)
    requires DecodeStrict(a, direction) != NeedMore
    ensures DecodeStrict(a + b, direction) == DecodeStrict(a, direction)
  {
    match StrictLength(a, direction)
    case Unknown => StrictUnknownIsShort(a, direction);
    case Rejected(_) => StrictLengthStable(a, b, direction);
    case Known(n) =>
      StrictLengthStable(a, b, direction);
      StrictLengthPositive(a, direction);
      CutStable(a, b, n);
  }

  // Once a codec has cut a frame or failed on a buffer, the same happens whatever follows.
  lemma DecodeStable(codec: Codec, a: seq<Byte>, b: seq<Byte>)
    requires Decode(codec, a) != NeedMore
    ensures Decode(codec, a + b) == Decode(codec, a)
  {
    match codec
    case CrcScan => CrcScanStable(a, b);
    case Strict(direction) => StrictStable(a, b, direction);
    case MbapTcp =>
  }
}
