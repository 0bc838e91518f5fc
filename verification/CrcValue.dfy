/** The checksum as a number: the shift register read as a 16-bit word, and the frame crate's known vector. */
module CrcValue {
  import opened Bytes
  import opened Crc

  // ---- Bits of a number ----

  function Half(v: nat, n: nat): nat { if n == 0 then v else Half(v / 2, n - 1) }

  predicate Odd(v: nat) { v % 2 == 1 }

  lemma {:induction false} BitOfValue(s: seq<bool>, i: nat)
    requires i < |s|
    ensures Odd(Half(ValueOf(s), i)) <==> s[i]
  {
    if i != 0 { BitOfValue(s[1..], i - 1); }
  }

  lemma {:induction false} FlipValue(s: seq<bool>, i: nat)
    requires i < |s|
    ensures ValueOf(s[i := !s[i]]) == if s[i] then ValueOf(s) - Pow2(i) else ValueOf(s) + Pow2(i)
  {
    if i != 0 {
      FlipValue(s[1..], i - 1);
      assert s[i := !s[i]][1..] == s[1..][i - 1 := !s[1..][i - 1]];
    } else {
      assert s[0 := !s[0]][1..] == s[1..];
    }
  }

  lemma {:induction false} ValueOfExtended(s: seq<bool>)
    ensures ValueOf(s + [false]) == ValueOf(s)
  {
    if s != [] {
      ValueOfExtended(s[1..]);
      assert (s + [false])[1..] == s[1..] + [false];
    }
  }

  // ---- The shift register as a word ----

  // `v` with the bit of the given weight changed.
  function Flip(v: nat, weight: nat): (w: int)
    requires weight > 0
    ensures w >= 0
  {
    if Odd(v / weight) then (assert v >= weight; v - weight) else v + weight
  }

  // `v ^ 0xA001`: bits 0, 13 and 15 change.
  function XorPoly(v: nat): nat { Flip(Flip(Flip(v, 1), 0x2000), 0x8000) }

  function ShiftWord(v: nat): nat { if Odd(v) then XorPoly(v / 2) else v / 2 }

  function FeedWord(v: nat, bit: bool): nat { ShiftWord(if bit then Flip(v, 1) else v) }

  lemma Weights()
    ensures Pow2(0) == 1 && Pow2(13) == 0x2000 && Pow2(15) == 0x8000 && Pow2(16) == 0x1_0000
  {
  }

  lemma {:induction false} HalfIs(v: nat, n: nat)
    ensures Half(v, n) == v / Pow2(n)
  {
    if n != 0 {
      HalfIs(v / 2, n - 1);
      DivideTwice(v, Pow2(n - 1));
    }
  }

  lemma DivideTwice(v: nat, p: nat)
    requires p > 0
    ensures v / 2 / p == v / (2 * p)
  {
    var h, q := v / 2, v / 2 / p;
    var r := h % p;
    assert v == 2 * h + v % 2 && h == q * p + r && 0 <= r < p;
    Quotient(v, 2 * p, q, 2 * r + v % 2);
  }

  lemma Quotient(v: nat, d: nat, q: nat, rest: nat)
    requires d > 0 && rest < d && v == d * q + rest
    ensures v / d == q
  {
    var x := v / d;
    assert d * x <= v < d * x + d;
    assert d * (x + 1) == d * x + d && d * (q + 1) == d * q + d;
    MulLess(d, x, q + 1);
    MulLess(d, q, x + 1);
  }

  lemma MulLess(d: nat, a: int, b: int)
    requires d > 0 && d * a < d * b
    ensures a < b
  {
  }

  lemma FlipIs(s: seq<bool>, i: nat)
    requires i < |s|
    ensures Flip(ValueOf(s), Pow2(i)) == ValueOf(s[i := !s[i]])
  {
    BitOfValue(s, i);
    HalfIs(ValueOf(s), i);
    FlipValue(s, i);
  }

  lemma ShiftWordIs(r: Register)
    ensures ShiftWord(ValueOf(r)) == ValueOf(ShiftOnce(r))
  {
    hide Flip, Pow2;
    Weights();
    var s := r[1..] + [false];
    ValueOfExtended(r[1..]);
    assert ValueOf(s) == ValueOf(r) / 2;
    if r[0] {
      var a := s[0 := !s[0]];
      var b := a[13 := !a[13]];
      var c := b[15 := !b[15]];
      FlipIs(s, 0);
      FlipIs(a, 13);
      FlipIs(b, 15);
      assert ShiftOnce(r) == c;
    } else {
      assert ShiftOnce(r) == s;
    }
  }

  lemma FeedWordIs(r: Register, bit: bool)
    ensures FeedWord(ValueOf(r), bit) == ValueOf(FeedBit(r, bit))
  {
    hide Flip, ShiftWord, Pow2;
    Weights();
    FlipIs(r, 0);
    var s := r[0 := r[0] != bit];
    assert bit ==> s == r[0 := !r[0]];
    assert !bit ==> s == r;
    ShiftWordIs(s);
  }

  // ---- A byte at a time ----

  function FeedByte(v: nat, byte: nat, n: nat): nat
    decreases n
  {
    if n == 0 then v else FeedByte(FeedWord(v, Odd(byte)), byte / 2, n - 1)
  }

  lemma {:induction false} FeedByteIs(r: Register, byte: nat, n: nat)
    ensures FeedByte(ValueOf(r), byte, n) == ValueOf(FeedBits(r, BitsOf(byte, n)))
    decreases n
  {
    hide FeedWord, FeedBit;
    if n != 0 {
      FeedWordIs(r, Odd(byte));
      FeedByteIs(FeedBit(r, Odd(byte)), byte / 2, n - 1);
      assert BitsOf(byte, n)[1..] == BitsOf(byte / 2, n - 1);
    }
  }

  // The checksum of `data` as the word the crate returns.
  function Crc16Value(data: seq<Byte>): Word {
    WordBound(Checksum(data));
    ValueOf(Checksum(data))
  }

  lemma WordBound(r: Register)
    ensures ValueOf(r) < 0x1_0000
  {
    Weights();
  }

  lemma ValueStep(data: seq<Byte>, byte: Byte)
    ensures Crc16Value(data + [byte]) == FeedByte(Crc16Value(data), byte, 8)
  {
    hide FeedByte, Fold, FeedBits;
    assert (data + [byte])[..|data|] == data;
    assert Checksum(data + [byte]) == Update(Checksum(data), byte) by { FoldSnoc(data, byte); }
    UpdateIsBitSerial(Checksum(data), byte);
    FeedByteIs(Checksum(data), byte, 8);
  }

  lemma FoldSnoc(data: seq<Byte>, byte: Byte)
    ensures Checksum(data + [byte]) == Update(Checksum(data), byte)
  {
  }

  // The crate's known vector: read ten registers from address zero.
  lemma KnownVector()
    ensures Crc16Value([0x01, 0x03, 0x00, 0x00, 0x00, 0x0A]) == 0xCDC5
  {
    hide Crc16Value, FeedByte;
    EmptyValue();
    KnownByte1();
    KnownByte2();
    KnownByte3();
    KnownByte4();
    KnownByte5();
    KnownByte6();
    var data: seq<Byte> := [0x01, 0x03, 0x00, 0x00, 0x00, 0x0A];
    ValueStep(data[..0], 0x01);
    assert data[..0] + [0x01] == data[..1];
    ValueStep(data[..1], 0x03);
    assert data[..1] + [0x03] == data[..2];
    ValueStep(data[..2], 0x00);
    assert data[..2] + [0x00] == data[..3];
    ValueStep(data[..3], 0x00);
    assert data[..3] + [0x00] == data[..4];
    ValueStep(data[..4], 0x00);
    assert data[..4] + [0x00] == data[..5];
    ValueStep(data[..5], 0x0A);
    assert data[..5] + [0x0A] == data;
  }

  // Four bits of a byte, with every register on the way.
  lemma FeedFour(a: nat, b: nat, c: nat, d: nat, e: nat, byte: nat, n: nat)
    requires FeedWord(a, Odd(byte)) == b && FeedWord(b, Odd(byte / 2)) == c && FeedWord(c, Odd(byte / 4)) == d
    requires FeedWord(d, Odd(byte / 8)) == e && n >= 4
    ensures FeedByte(a, byte, n) == if n == 4 then e else FeedByte(e, byte / 16, n - 4)
  {
    hide FeedWord, Odd;
    assert byte / 2 / 2 == byte / 4 && byte / 4 / 2 == byte / 8 && byte / 8 / 2 == byte / 16;
    assert FeedByte(a, byte, n) == FeedByte(b, byte / 2, n - 1) == FeedByte(c, byte / 4, n - 2);
    assert FeedByte(c, byte / 4, n - 2) == FeedByte(d, byte / 8, n - 3) == FeedByte(e, byte / 16, n - 4);
  }

  lemma KnownByte1()
    ensures FeedByte(0xFFFF, 0x01, 8) == 0x807E
  {
    hide FeedByte;
    FeedFour(0xFFFF, 0x7FFF, 0x9FFE, 0x4FFF, 0x87FE, 0x01, 8);
    FeedFour(0x87FE, 0x43FF, 0x81FE, 0x40FF, 0x807E, 0x00, 4);
  }

  lemma KnownByte2()
    ensures FeedByte(0x807E, 0x03, 8) == 0x2140
  {
    hide FeedByte;
    FeedFour(0x807E, 0xE03E, 0xD01E, 0x680F, 0x9406, 0x03, 8);
    FeedFour(0x9406, 0x4A03, 0x8500, 0x4280, 0x2140, 0x00, 4);
  }

  lemma KnownByte3()
    ensures FeedByte(0x2140, 0x00, 8) == 0xF020
  {
    hide FeedByte;
    FeedFour(0x2140, 0x10A0, 0x0850, 0x0428, 0x0214, 0x00, 8);
    FeedFour(0x0214, 0x010A, 0x0085, 0xA043, 0xF020, 0x00, 4);
  }

  lemma KnownByte4()
    ensures FeedByte(0xF020, 0x00, 8) == 0xD8F1
  {
    hide FeedByte;
    FeedFour(0xF020, 0x7810, 0x3C08, 0x1E04, 0x0F02, 0x00, 8);
    FeedFour(0x0F02, 0x0781, 0xA3C1, 0xF1E1, 0xD8F1, 0x00, 4);
  }

  lemma KnownByte5()
    ensures FeedByte(0xD8F1, 0x00, 8) == 0x8419
  {
    hide FeedByte;
    FeedFour(0xD8F1, 0xCC79, 0xC63D, 0xC31F, 0xC18E, 0x00, 8);
    FeedFour(0xC18E, 0x60C7, 0x9062, 0x4831, 0x8419, 0x00, 4);
  }

  lemma KnownByte6()
    ensures FeedByte(0x8419, 0x0A, 8) == 0xCDC5
  {
    hide FeedByte;
    FeedFour(0x8419, 0xE20D, 0x7106, 0x3883, 0x1C41, 0x0A, 8);
    FeedFour(0x1C41, 0xAE21, 0xF711, 0xDB89, 0xCDC5, 0x00, 4);
  }

  lemma EmptyValue()
    ensures Crc16Value([]) == 0xFFFF
  {
    AllOnes(16);
    Weights();
  }

  lemma {:induction false} AllOnes(n: nat)
    ensures ValueOf(Repeat(true, n)) == Pow2(n) - 1
  {
    if n != 0 {
      AllOnes(n - 1);
      assert Repeat(true, n)[1..] == Repeat(true, n - 1);
    }
  }
}
