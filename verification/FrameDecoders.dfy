/** The decoders as they run: they consume a shared byte buffer in place and carry the CRC register
    from one candidate boundary to the next. Each is proved against its function in Framing. */
module FrameDecoders {
  import opened Bytes
  import opened Crc
  import opened Framing

  // The read buffer of a connection.
  class ByteBuffer {
    var bytes: seq<Byte>

    constructor (initial: seq<Byte>)
      ensures bytes == initial
    {
      bytes := initial;
    }

    // Cut the first `n` bytes off the buffer.
    method SplitTo(n: nat) returns (head: seq<Byte>)
      requires n <= |bytes|
      modifies this
      ensures head == old(bytes)[..n] && bytes == old(bytes)[n..]
    {
      head, bytes := bytes[..n], bytes[n..];
    }
  }

  // What a decode step leaves in the buffer: only a cut frame is removed.
  function Remaining(before: seq<Byte>, step: Step): seq<Byte>
    requires step.Got? ==> step.consumed <= |before|
  {
    if step.Got? then before[step.consumed..] else before
  }

  method SplitFrame(src: ByteBuffer, aduLen: nat) returns (r: Step)
    requires 3 <= aduLen <= |src.bytes|
    modifies src
    ensures r == SplitRtu(old(src.bytes), aduLen)
    ensures src.bytes == old(src.bytes)[aduLen..]
  {
    var unit := src.bytes[0];
    var adu := src.SplitTo(aduLen);
    assert adu[1..|adu| - 2] == old(src.bytes)[1..aduLen - 2];
    r := Got(Frame(Rtu(unit), adu[1..|adu| - 2]), aduLen);
  }

  lemma FoldAppend(data: seq<Byte>, n: nat)
    requires n < |data|
    ensures Fold(INIT, data[..n + 1]) == Update(Fold(INIT, data[..n]), data[n])
  {
    assert data[..n + 1][..n] == data[..n];
  }

  lemma FoldFirstTwo(data: seq<Byte>)
    requires |data| >= 2
    ensures Checksum(data[..2]) == Update(Update(INIT, data[0]), data[1])
  {
    hide Update;
    FoldAppend(data, 0);
    FoldAppend(data, 1);
    assert data[..0] == [];
  }

  lemma VerifyPrefix(data: seq<Byte>, n: nat)
    requires 3 <= n <= |data|
    ensures Verify(data[..n]) <==> Trailer(Checksum(data[..n - 2])) == data[n - 2..n]
  {
    assert data[..n][..n - 2] == data[..n - 2];
    assert data[..n][n - 2..] == data[n - 2..n];
  }

  // One pass over the candidate boundaries with a running register finds what rescanning every prefix finds.
  method ScanBoundary(src: seq<Byte>) returns (r: int)
    requires |src| >= MIN_RTU_FRAME
    ensures r == Boundary(src)
  {
    hide Verify, Update, Trailer, Fold;
    var maxLen := Min(|src|, MAX_RTU_ADU_SIZE);
    FoldFirstTwo(src);
    var crc := Update(INIT, src[0]);
    crc := Update(crc, src[1]);
    var candidate := MIN_RTU_FRAME;
    while candidate <= maxLen
      invariant MIN_RTU_FRAME <= candidate <= maxLen + 1
      invariant candidate <= maxLen ==> crc == Checksum(src[..candidate - 2])
      invariant Boundary(src) == FirstBoundary(src, candidate, maxLen)
    {
      var dataEnd := candidate - 2;
      VerifyPrefix(src, candidate);
      assert src[dataEnd..candidate] == [src[dataEnd], src[dataEnd + 1]];
      if Trailer(crc) == [src[dataEnd], src[dataEnd + 1]] {
        return candidate;
      }
      FoldAppend(src, dataEnd);
      if candidate < maxLen {
        crc := Update(crc, src[dataEnd]);
      }
      candidate := candidate + 1;
    }
    r := -1;
  }

  // `decode_compatibility`.
  method DecodeCompatibility(src: ByteBuffer) returns (r: Step)
    modifies src
    ensures r == DecodeCrcScan(old(src.bytes))
    ensures src.bytes == Remaining(old(src.bytes), r)
  {
    hide FirstBoundary;
    if |src.bytes| < MIN_RTU_FRAME {
      ShortHasNoBoundary(src.bytes);
      return NeedMore;
    }
    var n := ScanBoundary(src.bytes);
    if n != -1 {
      r := SplitFrame(src, n);
    } else if |src.bytes| >= MAX_RTU_ADU_SIZE {
      r := Failed(Truncated);
    } else {
      r := NeedMore;
    }
  }

  lemma ShortHasNoBoundary(src: seq<Byte>)
    requires |src| < MIN_RTU_FRAME
    ensures Boundary(src) == -1
  {
  }

  // `mei_response_pdu_length`: one header per declared object, as far as it is buffered.
  method MeiResponsePduLength(src: seq<Byte>) returns (r: Length)
    ensures r == MeiResponseLength(src)
  {
    if |src| < 3 { return Unknown; }
    if src[2] != 0x0E { return Rejected(Indeterminate(0x2B)); }
    if |src| < 8 { return Unknown; }
    var objects: nat := src[7];
    var pduLen: nat := 7;
    if pduLen + objects * 2 > MAX_PDU_SIZE { return Rejected(LengthTooLarge(pduLen + objects * 2)); }
    for i := 0 to objects
      invariant MeiResponseLength(src) == MeiObjects(src, objects - i, pduLen)
    {
      var at := 1 + pduLen;
      if at + 2 > |src| { return Unknown; }
      pduLen := pduLen + 2 + src[at + 1];
      if pduLen > MAX_PDU_SIZE { return Rejected(LengthTooLarge(pduLen)); }
    }
    r := Known(pduLen);
  }

  // `pdu_length_from_u8_count`.
  method CountedPduLength(src: seq<Byte>, base: nat, index: nat) returns (r: Length)
    ensures r == ByteCounted(src, base, index)
  {
    if index >= |src| { return Unknown; }
    var length: nat := base + src[index];
    r := if length > MAX_PDU_SIZE then Rejected(LengthTooLarge(length)) else Known(length);
  }

  // `strict_pdu_length`.
  method StrictPduLength(src: seq<Byte>, direction: Direction) returns (r: Length)
    requires |src| >= 2
    ensures r == StrictLength(src, direction)
  {
    hide MeiResponseLength, ByteCounted;
    var code := src[1];
    if code >= 0x80 {
      return if direction == Response && SupportsBase(code - 0x80) then Known(2) else Rejected(Indeterminate(code));
    }
    if direction == Request {
      if 0x01 <= code <= 0x06 { return Known(5); }
      if code in [0x07, 0x0B, 0x0C, 0x11] { return Known(1); }
      if code in [0x0F, 0x10] { r := CountedPduLength(src, 6, 6); return; }
      if code in [0x14, 0x15] { r := CountedPduLength(src, 2, 2); return; }
      if code == 0x17 { r := CountedPduLength(src, 10, 10); return; }
      if code == 0x18 { return Known(3); }
      if code == 0x2B { return MeiRequestLength(src); }
    } else {
      if code in [0x05, 0x06, 0x0B, 0x0F, 0x10] { return Known(5); }
      if code in [0x01, 0x02, 0x03, 0x04, 0x0C, 0x11, 0x14, 0x15, 0x17] { r := CountedPduLength(src, 2, 2); return; }
      if code == 0x07 { return Known(2); }
      if code == 0x18 { return WordCounted(src, 3, 2); }
      if code == 0x2B { r := MeiResponsePduLength(src); return; }
    }
    if code == 0x08 { return DiagnosticLength(src); }
    if code == 0x16 { return Known(7); }
    r := Rejected(Indeterminate(code));
  }

  // `decode_strict`.
  method DecodeFunctionAware(src: ByteBuffer, direction: Direction) returns (r: Step)
    modifies src
    ensures r == DecodeStrict(old(src.bytes), direction)
    ensures src.bytes == Remaining(old(src.bytes), r)
  {
    hide Verify, Fold, Trailer;
    if |src.bytes| < 2 { return NeedMore; }
    var length := StrictPduLength(src.bytes, direction);
    StrictLengthPositive(src.bytes, direction);
    match length
    case Unknown =>
      r := if |src.bytes| >= MAX_RTU_ADU_SIZE then Failed(Truncated) else NeedMore;
    case Rejected(e) =>
      r := Failed(e);
    case Known(pduLen) =>
      var aduLen := pduLen + 3;
      if |src.bytes| < aduLen { return NeedMore; }
      VerifyPrefix(src.bytes, aduLen);
      var crc := Crc16(src.bytes[..aduLen - 2]);
      if Trailer(crc) != src.bytes[aduLen - 2..aduLen] { return Failed(CrcMismatch); }
      r := SplitFrame(src, aduLen);
  }

  // `MbapCodec::decode`.
  method DecodeMbapBuffer(src: ByteBuffer) returns (r: Step)
    modifies src
    ensures r == DecodeMbap(old(src.bytes))
    ensures src.bytes == Remaining(old(src.bytes), r)
  {
    var b := src.bytes;
    if |b| < MBAP_HEADER_LEN { return NeedMore; }
    var header := Mbap(FromBigEndian(b[0], b[1]), FromBigEndian(b[2], b[3]), FromBigEndian(b[4], b[5]), b[6]);
    if header.protocol != 0 { return Failed(InvalidProtocol(header.protocol)); }
    if header.length < MIN_MBAP_LENGTH { return Failed(InvalidLength(header.length)); }
    if header.length > MAX_MBAP_LENGTH { return Failed(LengthOverflow(header.length)); }
    var total := MBAP_HEADER_LEN - 1 + header.length;
    if |b| < total { return NeedMore; }
    var adu := src.SplitTo(total);
    assert adu[MBAP_HEADER_LEN..] == b[MBAP_HEADER_LEN..total];
    r := Got(Frame(header, adu[MBAP_HEADER_LEN..]), total);
  }
}
