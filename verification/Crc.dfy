/** CRC-16/Modbus over bits, least significant bit first: the table-driven update of the
    frame crate, the bit-serial register it stands for, and what the checksum detects. */
module Crc {
  import opened Bytes

  const WIDTH := 16
  type Register = r: seq<bool> | |r| == WIDTH witness Repeat(false, 16)

  function Repeat(bit: bool, n: nat): (r: seq<bool>)
    ensures |r| == n
    ensures forall i :: 0 <= i < n ==> r[i] == bit
  {
    if n == 0 then [] else [bit] + Repeat(bit, n - 1)
  }

  // The start value 0xFFFF.
  const INIT: Register := Repeat(true, 16)
  const ZERO: Register := Repeat(false, 16)

  // Bit `i` of the reflected polynomial 0xA001.
  predicate Poly(i: nat) { i == 0 || i == 13 || i == 15 }

  function Xor(a: seq<bool>, b: seq<bool>): (r: seq<bool>)
    requires |a| == |b|
    ensures |r| == |a|
  {
    seq(|a|, i requires 0 <= i < |a| => a[i] != b[i])
  }

  // One step of the table generator: shift right, and fold in the polynomial when a one falls out.
  function ShiftOnce(r: Register): Register {
    seq(WIDTH, i requires 0 <= i < WIDTH => (i + 1 < WIDTH && r[i + 1]) != (r[0] && Poly(i)))
  }

  function Shift(r: Register, n: nat): Register
    decreases n
  {
    if n == 0 then r else Shift(ShiftOnce(r), n - 1)
  }

  function Pad(s: seq<bool>): (r: Register)
    requires |s| <= WIDTH
  {
    s + Repeat(false, WIDTH - |s|)
  }

  // `crc16_update`: the table entry of the low byte, folded onto the high byte moved down.
  function Update(crc: Register, byte: Byte): Register {
    Xor(Pad(crc[8..]), Shift(Pad(Xor(crc[..8], Bits(byte))), 8))
  }

  function Fold(crc: Register, data: seq<Byte>): Register
  {
    if |data| == 0 then crc else Update(Fold(crc, data[..|data| - 1]), data[|data| - 1])
  }

  // The checksum register of `data`.
  function Checksum(data: seq<Byte>): Register { Fold(INIT, data) }

  method Crc16(data: seq<Byte>) returns (crc: Register)
    ensures crc == Checksum(data)
  {
    crc := INIT;
    for i := 0 to |data|
      invariant crc == Fold(INIT, data[..i])
    {
      assert data[..i + 1][..i] == data[..i];
      crc := Update(crc, data[i]);
    }
    assert data[..|data|] == data;
  }

  // The register as it travels: low byte first.
  function Trailer(crc: Register): (r: seq<Byte>)
    ensures |r| == 2
  {
    [FromBits(crc[..8]), FromBits(crc[8..])]
  }

  predicate Verify(frame: seq<Byte>) {
    |frame| >= 3 && Trailer(Checksum(frame[..|frame| - 2])) == frame[|frame| - 2..]
  }

  // ---- The bit-serial register ----

  function FeedBit(r: Register, bit: bool): Register {
    ShiftOnce(r[0 := r[0] != bit])
  }

  function FeedBits(r: Register, bits: seq<bool>): Register
    decreases |bits|
  {
    if bits == [] then r else FeedBits(FeedBit(r, bits[0]), bits[1..])
  }

  function WireBits(data: seq<Byte>): (r: seq<bool>)
    ensures |r| == 8 * |data|
  {
    if data == [] then [] else WireBits(data[..|data| - 1]) + Bits(data[|data| - 1])
  }

  // ---- Linear algebra of the shift register ----

  lemma ShiftOnceXor(a: Register, b: Register)
    ensures ShiftOnce(Xor(a, b)) == Xor(ShiftOnce(a), ShiftOnce(b))
  {
  }

  lemma {:induction false} ShiftXor(a: Register, b: Register, n: nat)
    ensures Shift(Xor(a, b), n) == Xor(Shift(a, n), Shift(b, n))
    decreases n
  {
    if n != 0 {
      ShiftOnceXor(a, b);
      ShiftXor(ShiftOnce(a), ShiftOnce(b), n - 1);
    }
  }

  lemma {:induction false} ShiftOfZeros(r: Register, n: nat)
    requires n <= WIDTH
    requires forall i :: 0 <= i < n ==> !r[i]
    ensures Shift(r, n) == Pad(r[n..])
    decreases n
  {
    if n != 0 {
      var s := ShiftOnce(r);
      ShiftOfZeros(s, n - 1);
      assert Pad(s[n - 1..]) == Pad(r[n..]);
    } else {
      assert Pad(r[0..]) == r;
    }
  }

  lemma ShiftOnceZero(r: Register)
    ensures ShiftOnce(r) == ZERO <==> r == ZERO
  {
    var s := ShiftOnce(r);
    if s == ZERO {
      assert !s[15];
      assert !r[0];
      forall i | 1 <= i < 16 ensures !r[i] { assert !s[i - 1]; }
    }
  }

  lemma {:induction false} ShiftZero(r: Register, n: nat)
    ensures Shift(r, n) == ZERO <==> r == ZERO
    decreases n
  {
    ShiftOnceZero(r);
    if n != 0 { ShiftZero(ShiftOnce(r), n - 1); }
  }

  // Feeding up to sixteen bits one by one equals folding them in at once and then shifting.
  lemma {:induction false} FeedIsPreload(r: Register, bits: seq<bool>)
    requires |bits| <= WIDTH
    ensures FeedBits(r, bits) == Shift(Xor(r, Pad(bits)), |bits|)
    decreases |bits|
  {
    if bits == [] {
      assert Xor(r, Pad(bits)) == r;
    } else {
      var head, tail := bits[0], bits[1..];
      FeedIsPreload(FeedBit(r, head), tail);
      assert ShiftOnce(Xor(r, Pad(bits))) == Xor(FeedBit(r, head), Pad(tail));
    }
  }

  // The table-driven byte update is eight steps of the bit-serial register.
  lemma UpdateIsBitSerial(crc: Register, byte: Byte)
    ensures Update(crc, byte) == FeedBits(crc, Bits(byte))
  {
    var low := Pad(Xor(crc[..8], Bits(byte)));
    var high: Register := Repeat(false, 8) + crc[8..];
    FeedIsPreload(crc, Bits(byte));
    assert Xor(crc, Pad(Bits(byte))) == Xor(high, low);
    ShiftXor(high, low, 8);
    ShiftOfZeros(high, 8);
    assert high[8..] == crc[8..];
  }

  lemma {:induction false} FeedAppend(r: Register, a: seq<bool>, b: seq<bool>)
    ensures FeedBits(r, a + b) == FeedBits(FeedBits(r, a), b)
    decreases |a|
  {
    if a == [] {
      assert a + b == b;
    } else {
      assert (a + b)[1..] == a[1..] + b;
      FeedAppend(FeedBit(r, a[0]), a[1..], b);
    }
  }

  lemma {:induction false} FoldIsBitSerial(r: Register, data: seq<Byte>)
    ensures Fold(r, data) == FeedBits(r, WireBits(data))
  {
    if data != [] {
      var init := data[..|data| - 1];
      FoldIsBitSerial(r, init);
      UpdateIsBitSerial(Fold(r, init), data[|data| - 1]);
      FeedAppend(r, WireBits(init), Bits(data[|data| - 1]));
    }
  }

  lemma FeedBitXor(r: Register, s: Register, x: bool, y: bool)
    ensures FeedBit(Xor(r, s), x != y) == Xor(FeedBit(r, x), FeedBit(s, y))
  {
  }

  lemma {:induction false} FeedXor(r: Register, s: Register, x: seq<bool>, y: seq<bool>)
    requires |x| == |y|
    ensures FeedBits(Xor(r, s), Xor(x, y)) == Xor(FeedBits(r, x), FeedBits(s, y))
    decreases |x|
  {
    if x != [] {
      FeedBitXor(r, s, x[0], y[0]);
      assert Xor(x, y)[1..] == Xor(x[1..], y[1..]);
      FeedXor(FeedBit(r, x[0]), FeedBit(s, y[0]), x[1..], y[1..]);
    }
  }

  // ---- What the checksum detects ----

  // Feeding the two trailer bytes clears the register exactly when they are its own checksum bytes.
  lemma TrailerClears(crc: Register, lo: Byte, hi: Byte)
    ensures FeedBits(crc, Bits(lo) + Bits(hi)) == ZERO <==> Trailer(crc) == [lo, hi]
  {
    var tail := Bits(lo) + Bits(hi);
    FeedIsPreload(crc, tail);
    assert Pad(tail) == tail;
    ShiftZero(Xor(crc, tail), 16);
    XorZero(crc, tail);
    TrailerMatches(crc, lo, hi);
  }

  lemma WireBitsSplit(frame: seq<Byte>, n: nat)
    requires |frame| == n + 2
    ensures WireBits(frame) == WireBits(frame[..n]) + (Bits(frame[n]) + Bits(frame[n + 1]))
  {
    assert frame[..n + 1][..n] == frame[..n];
    assert frame[..|frame| - 1] == frame[..n + 1];
  }

  lemma ResidueOf(data: seq<Byte>, lo: Byte, hi: Byte)
    ensures FeedBits(INIT, WireBits(data) + (Bits(lo) + Bits(hi))) == ZERO <==> Trailer(Checksum(data)) == [lo, hi]
  {
    FoldIsBitSerial(INIT, data);
    FeedAppend(INIT, WireBits(data), Bits(lo) + Bits(hi));
    TrailerClears(Checksum(data), lo, hi);
  }

  // A frame verifies exactly when running the register over all of it, trailer included, leaves zero.
  lemma VerifyIsZeroResidue(frame: seq<Byte>)
    requires |frame| >= 3
    ensures Verify(frame) <==> FeedBits(INIT, WireBits(frame)) == ZERO
  {
    var n := |frame| - 2;
    WireBitsSplit(frame, n);
    assert frame[n..] == [frame[n], frame[n + 1]];
    ResidueOf(frame[..n], frame[n], frame[n + 1]);
  }

  lemma XorZero(a: Register, b: Register)
    ensures Xor(a, b) == ZERO <==> a == b
  {
    if Xor(a, b) == ZERO {
      forall i | 0 <= i < 16 ensures a[i] == b[i] { assert Xor(a, b)[i] == ZERO[i]; }
    }
  }

  lemma TrailerMatches(crc: Register, lo: Byte, hi: Byte)
    ensures Trailer(crc) == [lo, hi] <==> crc == Bits(lo) + Bits(hi)
  {
    assert crc == crc[..8] + crc[8..];
    BitsOfValue(crc[..8]);
    BitsOfValue(crc[8..]);
    ByteRoundTrip(lo);
    ByteRoundTrip(hi);
    if crc == Bits(lo) + Bits(hi) {
      assert crc[..8] == Bits(lo) && crc[8..] == Bits(hi);
    }
  }

  // The wire bits of the two frames differ only inside one window of at most sixteen bits, and do differ.
  ghost predicate BurstError(a: seq<Byte>, b: seq<Byte>, at: nat, length: nat)
    requires |a| == |b|
  {
    && 0 < length <= WIDTH
    && at + length <= 8 * |a|
    && WireBits(a) != WireBits(b)
    && forall i :: 0 <= i < 8 * |a| && !(at <= i < at + length) ==> WireBits(a)[i] == WireBits(b)[i]
  }

  lemma {:induction false} FeedZeros(r: Register, n: nat)
    ensures FeedBits(r, Repeat(false, n)) == ZERO <==> r == ZERO
    decreases n
  {
    var zeros := Repeat(false, n);
    if n != 0 {
      assert zeros[1..] == Repeat(false, n - 1);
      assert r[0 := r[0] != false] == r;
      ShiftOnceZero(r);
      FeedZeros(ShiftOnce(r), n - 1);
    }
  }

  lemma BurstLeavesResidue(diff: seq<bool>, at: nat, length: nat)
    requires 0 < length <= WIDTH && at + length <= |diff|
    requires forall i :: 0 <= i < |diff| && !(at <= i < at + length) ==> !diff[i]
    requires exists i :: 0 <= i < |diff| && diff[i]
    ensures FeedBits(ZERO, diff) != ZERO
  {
    hide FeedBits, Xor, Shift;
    var before, burst, after := diff[..at], diff[at..at + length], diff[at + length..];
    assert before == Repeat(false, at) && after == Repeat(false, |after|);
    assert diff == before + (burst + after);
    FeedAppend(ZERO, before, burst + after);
    FeedZeros(ZERO, at);
    FeedAppend(ZERO, burst, after);
    FeedIsPreload(ZERO, burst);
    ShiftZero(Xor(ZERO, Pad(burst)), length);
    XorZero(ZERO, Pad(burst));
    var i :| 0 <= i < |diff| && diff[i];
    assert Pad(burst)[i - at];
    FeedZeros(FeedBits(ZERO, burst), |after|);
  }

  lemma SameResidue(x: seq<bool>, y: seq<bool>)
    requires |x| == |y|
    requires FeedBits(INIT, x) == FeedBits(INIT, y)
    ensures FeedBits(ZERO, Xor(x, y)) == ZERO
  {
    FeedXor(INIT, INIT, x, y);
    XorZero(INIT, INIT);
    XorZero(FeedBits(INIT, x), FeedBits(INIT, y));
  }

  // Every corruption confined to sixteen consecutive wire bits is detected, wherever it falls,
  // in the data, in the trailer or across both.
  lemma BurstErrorIsDetected(sent: seq<Byte>, received: seq<Byte>, at: nat, length: nat)
    requires |sent| == |received|
    requires Verify(sent)
    requires BurstError(sent, received, at, length)
    ensures !Verify(received)
  {
    hide FeedBits, WireBits, Xor;
    BurstDiffers(WireBits(sent), WireBits(received), at, length);
    VerifyIsZeroResidue(sent);
    VerifyIsZeroResidue(received);
    if Verify(received) { SameResidue(WireBits(sent), WireBits(received)); }
  }

  lemma BurstDiffers(x: seq<bool>, y: seq<bool>, at: nat, length: nat)
    requires |x| == |y| && x != y && 0 < length <= WIDTH && at + length <= |x|
    requires forall i :: 0 <= i < |x| && !(at <= i < at + length) ==> x[i] == y[i]
    ensures FeedBits(ZERO, Xor(x, y)) != ZERO
  {
    hide FeedBits;
    var i :| 0 <= i < |x| && x[i] != y[i];
    assert Xor(x, y)[i];
    BurstLeavesResidue(Xor(x, y), at, length);
  }

  // ---- Parity ----

  predicate Parity(bits: seq<bool>) { bits != [] && (bits[0] != Parity(bits[1..])) }

  // The number of positions at which two bit strings differ.
  function Flips(x: seq<bool>, y: seq<bool>): nat
    requires |x| == |y|
  {
    if x == [] then 0 else (if x[0] != y[0] then 1 else 0) + Flips(x[1..], y[1..])
  }

  lemma {:induction false} ParityXor(x: seq<bool>, y: seq<bool>)
    requires |x| == |y|
    ensures Parity(Xor(x, y)) == (Parity(x) != Parity(y))
  {
    if x != [] {
      ParityXor(x[1..], y[1..]);
      assert Xor(x, y)[1..] == Xor(x[1..], y[1..]);
    }
  }

  lemma {:induction false} ParityOfFlips(x: seq<bool>, y: seq<bool>)
    requires |x| == |y|
    ensures (Parity(x) != Parity(y)) <==> Flips(x, y) % 2 == 1
  {
    if x != [] { ParityOfFlips(x[1..], y[1..]); }
  }

  lemma {:induction false} ParityOfRepeat(bit: bool, n: nat)
    ensures Parity(Repeat(bit, n)) <==> bit && n % 2 == 1
  {
    if n != 0 {
      ParityOfRepeat(bit, n - 1);
      assert Repeat(bit, n)[1..] == Repeat(bit, n - 1);
    }
  }

  lemma {:induction false} ParityOfExtended(s: seq<bool>, t: seq<bool>)
    ensures Parity(s + t) == (Parity(s) != Parity(t))
  {
    if s == [] {
      assert s + t == t;
    } else {
      ParityOfExtended(s[1..], t);
      assert (s + t)[1..] == s[1..] + t;
    }
  }

  // The polynomial has an odd number of terms besides the one shifted out.
  function PolyBits(): Register { [true] + Repeat(false, 12) + [true] + [false] + [true] }

  lemma ParityOfPoly()
    ensures Parity(PolyBits())
  {
    hide Repeat;
    ParityOfRepeat(false, 12);
    ParityOfExtended([true], Repeat(false, 12));
    ParityOfExtended([true] + Repeat(false, 12), [true]);
    ParityOfExtended([true] + Repeat(false, 12) + [true], [false]);
    ParityOfExtended([true] + Repeat(false, 12) + [true] + [false], [true]);
  }

  // The polynomial is divisible by x + 1: a step never changes the parity of the register.
  lemma ShiftKeepsParity(r: Register)
    ensures Parity(ShiftOnce(r)) == Parity(r)
  {
    hide Parity, Repeat;
    var s := r[1..] + [false];
    ParityOfExtended(r[1..], [false]);
    ParityOfExtended([r[0]], r[1..]);
    assert r == [r[0]] + r[1..];
    assert Parity([false]) == false && Parity([r[0]]) == r[0] by { ParityOfOne(false); ParityOfOne(r[0]); }
    if r[0] {
      assert ShiftOnce(r) == Xor(s, PolyBits());
      ParityXor(s, PolyBits());
      ParityOfPoly();
    } else {
      assert ShiftOnce(r) == s;
    }
  }

  lemma ParityOfOne(bit: bool)
    ensures Parity([bit]) == bit
  {
  }

  lemma FeedBitParity(r: Register, bit: bool)
    ensures Parity(FeedBit(r, bit)) == (Parity(r) != bit)
  {
    hide ShiftOnce;
    var s := r[0 := r[0] != bit];
    assert s[1..] == r[1..];
    ShiftKeepsParity(s);
  }

  lemma {:induction false} FeedParity(r: Register, bits: seq<bool>)
    ensures Parity(FeedBits(r, bits)) == (Parity(r) != Parity(bits))
    decreases |bits|
  {
    hide FeedBit;
    if bits != [] {
      FeedBitParity(r, bits[0]);
      FeedParity(FeedBit(r, bits[0]), bits[1..]);
    }
  }

  // Every frame that verifies carries an even number of ones on the wire.
  lemma ValidFramesAreEven(frame: seq<Byte>)
    requires Verify(frame)
    ensures !Parity(WireBits(frame))
  {
    hide FeedBits, WireBits, Parity;
    VerifyIsZeroResidue(frame);
    FeedParity(INIT, WireBits(frame));
    ParityOfRepeat(true, 16);
    ParityOfRepeat(false, 16);
  }

  // Every corruption that flips an odd number of wire bits is detected, however far apart they lie.
  lemma OddErrorIsDetected(sent: seq<Byte>, received: seq<Byte>)
    requires |sent| == |received| && Verify(sent) && Flips(WireBits(sent), WireBits(received)) % 2 == 1
    ensures !Verify(received)
  {
    hide Verify, WireBits, Parity, Flips;
    ParityOfFlips(WireBits(sent), WireBits(received));
    ValidFramesAreEven(sent);
    if Verify(received) { ValidFramesAreEven(received); }
  }

  // A frame built with its own checksum as trailer verifies.
  lemma TrailerVerifies(data: seq<Byte>)
    requires |data| >= 1
    ensures Verify(data + Trailer(Checksum(data)))
  {
  }
}
