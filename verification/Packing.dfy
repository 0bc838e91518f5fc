/** Coil and register payloads: packing booleans into bytes, least significant bit first, and
    registers into big-endian byte pairs, with the request builders that carry them. */
module Packing {
  import opened Bytes

  predicate Bit(b: Byte, i: nat)
    requires i < 8
  {
    Bits(b)[i]
  }

  // The byte whose bits are given by `f`.
  function Make(f: nat -> bool): (b: Byte)
    ensures forall i :: 0 <= i < 8 ==> Bit(b, i) == f(i)
  {
    var s := [f(0), f(1), f(2), f(3), f(4), f(5), f(6), f(7)];
    BitsOfValue(s);
    FromBits(s)
  }

  lemma SameBits(a: Byte, b: Byte)
    requires forall i :: 0 <= i < 8 ==> Bit(a, i) == Bit(b, i)
    ensures a == b
  {
    ByteRoundTrip(a);
    ByteRoundTrip(b);
    forall i | 0 <= i < 8 ensures Bits(a)[i] == Bits(b)[i] { assert Bit(a, i) == Bit(b, i); }
    assert Bits(a) == Bits(b);
  }

  function ByteCount(bits: nat): nat { (bits + 7) / 8 }

  // Bit `i` of the payload, false past its end.
  predicate PayloadBit(bits: seq<bool>, i: nat) { i < |bits| && bits[i] }

  function PackByte(bits: seq<bool>, j: nat): (b: Byte)
    ensures forall k :: 0 <= k < 8 ==> Bit(b, k) == PayloadBit(bits, 8 * j + k)
  {
    Make((k: nat) => PayloadBit(bits, 8 * j + k))
  }

  // The packed payload: coil `8 * j + k` is bit `k` of byte `j`, and unused bits are zero.
  function Pack(bits: seq<bool>): (r: seq<Byte>)
    ensures |r| == ByteCount(|bits|)
    ensures forall j, k :: 0 <= j < |r| && 0 <= k < 8 ==> Bit(r[j], k) == PayloadBit(bits, 8 * j + k)
  {
    seq(ByteCount(|bits|), (j: nat) => PackByte(bits, j))
  }

  function Unpack(bytes: seq<Byte>, count: nat): (r: seq<bool>)
    requires count <= 8 * |bytes|
    ensures |r| == count
    ensures forall i :: 0 <= i < count ==> r[i] == Bit(bytes[i / 8], i % 8)
  {
    seq(count, i requires 0 <= i < count => Bit(bytes[i / 8], i % 8))
  }

  lemma UnpackOfPack(bits: seq<bool>)
    ensures Unpack(Pack(bits), |bits|) == bits
  {
    hide Bit;
    var packed := Pack(bits);
    forall i | 0 <= i < |bits| ensures Unpack(packed, |bits|)[i] == bits[i] { assert i == 8 * (i / 8) + i % 8; }
  }

  // Unpacking and repacking a payload only clears its unused bits.
  lemma PackOfUnpack(bytes: seq<Byte>, count: nat)
    requires |bytes| == ByteCount(count)
    ensures Pack(Unpack(bytes, count)) == bytes <==>
              forall j, k :: 0 <= j < |bytes| && 0 <= k < 8 && 8 * j + k >= count ==> !Bit(bytes[j], k)
  {
    hide Bit;
    var bits := Unpack(bytes, count);
    var packed := Pack(bits);
    forall j, k | 0 <= j < |bytes| && 0 <= k < 8
      ensures Bit(packed[j], k) == (8 * j + k < count && Bit(bytes[j], k))
    {
      assert (8 * j + k) / 8 == j && (8 * j + k) % 8 == k;
    }
    if forall j, k :: 0 <= j < |bytes| && 0 <= k < 8 && 8 * j + k >= count ==> !Bit(bytes[j], k) {
      forall j | 0 <= j < |bytes| ensures packed[j] == bytes[j] { SameBits(packed[j], bytes[j]); }
    }
  }

  // `byte |= 1 << bit`.
  function SetBit(b: Byte, bit: nat): (r: Byte)
    requires bit < 8
    ensures forall i :: 0 <= i < 8 ==> Bit(r, i) == (i == bit || Bit(b, i))
  {
    Make((i: nat) => i == bit || (i < 8 && Bit(b, i)))
  }

  lemma ZeroBits(i: nat)
    requires i < 8
    ensures !Bit(0, i)
  {
  }

  // Pack a slice of booleans into a caller's buffer, clearing all of it first.
  method PackBoolSlice(bits: seq<bool>, out: array<Byte>)
    requires |bits| <= 8 * out.Length
    modifies out
    ensures out[..ByteCount(|bits|)] == Pack(bits)
    ensures forall j :: ByteCount(|bits|) <= j < out.Length ==> out[j] == 0
  {
    hide Bit, Pack, SetBit;
    for j := 0 to out.Length
      invariant forall m :: 0 <= m < j ==> out[m] == 0
    {
      out[j] := 0;
    }
    forall k | 0 <= k < 8 ensures !Bit(0, k) { ZeroBits(k); }
    for index := 0 to |bits|
      invariant forall j, k :: 0 <= j < out.Length && 0 <= k < 8 ==>
                  Bit(out[j], k) == (8 * j + k < index && bits[8 * j + k])
      invariant forall j :: ByteCount(|bits|) <= j < out.Length ==> out[j] == 0
    {
      if bits[index] { out[index / 8] := SetBit(out[index / 8], index % 8); }
    }
    var packed := Pack(bits);
    forall j | 0 <= j < ByteCount(|bits|) ensures out[j] == packed[j] { SameBits(out[j], packed[j]); }
    assert out[..ByteCount(|bits|)] == packed;
  }

  // ---- Registers ----

  function RegisterBytes(values: seq<Word>): (r: seq<Byte>)
    ensures |r| == 2 * |values|
  {
    if values == [] then [] else RegisterBytes(values[..|values| - 1]) + BigEndian(values[|values| - 1])
  }

  function UnpackRegisters(bytes: seq<Byte>): (r: seq<Word>)
    ensures |r| == |bytes| / 2
    ensures forall i :: 0 <= i < |r| ==> r[i] == FromBigEndian(bytes[2 * i], bytes[2 * i + 1])
  {
    seq(|bytes| / 2, i requires 0 <= i < |bytes| / 2 => FromBigEndian(bytes[2 * i], bytes[2 * i + 1]))
  }

  lemma {:induction false} UnpackOfRegisterBytes(values: seq<Word>)
    ensures UnpackRegisters(RegisterBytes(values)) == values
  {
    if values != [] {
      var init, bytes := values[..|values| - 1], RegisterBytes(values);
      UnpackOfRegisterBytes(init);
      forall i | 0 <= i < |values| ensures UnpackRegisters(bytes)[i] == values[i] {
        if i < |init| { assert UnpackRegisters(RegisterBytes(init))[i] == init[i]; }
      }
    }
  }

  lemma {:induction false} RegisterBytesOfUnpack(bytes: seq<Byte>)
    requires |bytes| % 2 == 0
    ensures RegisterBytes(UnpackRegisters(bytes)) == bytes
  {
    hide FromBigEndian, BigEndian;
    if bytes != [] {
      var n := |bytes| / 2 - 1;
      var init, values := bytes[..2 * n], UnpackRegisters(bytes);
      RegisterBytesOfUnpack(init);
      assert values[..n] == UnpackRegisters(init);
      assert BigEndian(values[n]) == [bytes[2 * n], bytes[2 * n + 1]] by {
        PairRoundTrip(bytes[2 * n], bytes[2 * n + 1]);
      }
      assert bytes == init + [bytes[2 * n], bytes[2 * n + 1]];
    }
  }

  lemma PairRoundTrip(high: Byte, low: Byte)
    ensures BigEndian(FromBigEndian(high, low)) == [high, low]
  {
  }

  // Fill byte pairs of `out` from the registers, as far as both go.
  method PackRegisterSlice(registers: seq<Word>, out: array<Byte>)
    modifies out
    ensures var n := if out.Length / 2 < |registers| then out.Length / 2 else |registers|;
            out[..2 * n] == RegisterBytes(registers[..n]) && out[2 * n..] == old(out[2 * n..])
  {
    var n := if out.Length / 2 < |registers| then out.Length / 2 else |registers|;
    hide BigEndian;
    for i := 0 to n
      invariant out[..2 * i] == RegisterBytes(registers[..i])
      invariant forall k :: 2 * i <= k < out.Length ==> out[k] == old(out[k])
    {
      ghost var done := out[..2 * i];
      var pair := BigEndian(registers[i]);
      out[2 * i], out[2 * i + 1] := pair[0], pair[1];
      assert registers[..i + 1][..i] == registers[..i];
      assert out[..2 * i] == done;
      assert out[..2 * (i + 1)] == done + pair;
    }
    assert out[2 * n..] == old(out[2 * n..]);
  }

  // ---- Request builders ----

  const MAX_PDU_SIZE := 253

  // `n as u8`, which drops the high bits.
  function TruncateByte(n: nat): Byte { n % 0x100 }
  function TruncateWord(n: nat): Word { n % 0x1_0000 }

  // A write-multiple-coils request for the given coils.
  function CoilsPdu(address: Word, bits: seq<bool>): (r: seq<Byte>)
    ensures |r| == 6 + ByteCount(|bits|)
  {
    [0x0F] + BigEndian(address) + BigEndian(TruncateWord(|bits|)) + [TruncateByte(ByteCount(|bits|))] + Pack(bits)
  }

  // Within the protocol's 1968 coils the byte-count field is the payload length and the PDU fits.
  // The field is truthful exactly up to 2040 coils.
  lemma CoilsPduLimits(address: Word, bits: seq<bool>)
    ensures var pdu := CoilsPdu(address, bits);
            && pdu[6..] == Pack(bits)
            && (|bits| <= 1968 ==> |pdu| <= MAX_PDU_SIZE)
            && (pdu[5] == |pdu| - 6 <==> |bits| <= 2040)
  {
  }

  // The benchmark pattern: every third coil is on.
  function EveryThird(count: nat): (r: seq<bool>)
    ensures |r| == count
    ensures forall i :: 0 <= i < count ==> r[i] == (i % 3 == 0)
  {
    seq(count, i => i % 3 == 0)
  }

  // The builder that assembles each payload byte in an inner loop.
  method WriteMultipleCoilsPdu(address: Word, coilCount: nat) returns (pdu: seq<Byte>)
    ensures pdu == CoilsPdu(address, EveryThird(coilCount))
  {
    hide Bit, Pack;
    var byteCount := ByteCount(coilCount);
    var bits := EveryThird(coilCount);
    var packed := Pack(bits);
    var head := [0x0F] + BigEndian(address) + BigEndian(TruncateWord(coilCount)) + [TruncateByte(byteCount)];
    pdu := head;
    for byteIndex := 0 to byteCount
      invariant pdu == head + packed[..byteIndex]
    {
      var start := byteIndex * 8;
      var bitCount := if coilCount - start < 8 then coilCount - start else 8;
      var byte := BuildByte(start, bitCount);
      forall k | 0 <= k < 8 ensures Bit(byte, k) == Bit(packed[byteIndex], k) {}
      SameBits(byte, packed[byteIndex]);
      assert packed[..byteIndex + 1] == packed[..byteIndex] + [byte];
      pdu := pdu + [byte];
    }
    assert packed[..byteCount] == packed;
  }

  method BuildByte(start: nat, bitCount: nat) returns (byte: Byte)
    requires bitCount <= 8
    ensures forall k :: 0 <= k < 8 ==> Bit(byte, k) == (k < bitCount && (start + k) % 3 == 0)
  {
    hide Bit, SetBit;
    byte := 0;
    forall k | 0 <= k < 8 ensures !Bit(0, k) { ZeroBits(k); }
    for bit := 0 to bitCount
      invariant forall k :: 0 <= k < 8 ==> Bit(byte, k) == (k < bit && (start + k) % 3 == 0)
    {
      if (start + bit) % 3 == 0 { byte := SetBit(byte, bit); }
    }
  }
}
