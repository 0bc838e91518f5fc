// Bytes, 16-bit words and their bits, shared by the wire-level modules.
module Bytes {
  // One octet of a frame.
  type Byte = x: int | 0 <= x < 0x100
  // An unsigned 16-bit word.
  type Word = x: int | 0 <= x < 0x1_0000

  function Pow2(n: nat): (p: nat)
    ensures p >= 1
  {
    if n == 0 then 1 else 2 * Pow2(n - 1)
  }

  // The low `n` bits of `v`, least significant first.
  function BitsOf(v: nat, n: nat): (r: seq<bool>)
    ensures |r| == n
  {
    if n == 0 then [] else [v % 2 == 1] + BitsOf(v / 2, n - 1)
  }

  // The number with the given bits, least significant first.
  function ValueOf(s: seq<bool>): (v: nat)
    ensures v < Pow2(|s|)
  {
    if s == [] then 0 else (if s[0] then 1 else 0) + 2 * ValueOf(s[1..])
  }

  lemma {:induction false} BitsOfValue(s: seq<bool>)
    ensures BitsOf(ValueOf(s), |s|) == s
  {
    if s != [] {
      var v := ValueOf(s);
      assert v / 2 == ValueOf(s[1..]) && (v % 2 == 1 <==> s[0]);
      BitsOfValue(s[1..]);
    }
  }

  lemma {:induction false} ValueOfBits(v: nat, n: nat)
    requires v < Pow2(n)
    ensures ValueOf(BitsOf(v, n)) == v
  {
    if n != 0 {
      ValueOfBits(v / 2, n - 1);
      assert BitsOf(v, n)[1..] == BitsOf(v / 2, n - 1);
    }
  }

  lemma Pow2Of8()
    ensures Pow2(8) == 256
  {
  }

  function Bits(b: Byte): (r: seq<bool>)
    ensures |r| == 8
  {
    BitsOf(b, 8)
  }

  // The byte with the given bits, least significant first.
  function FromBits(s: seq<bool>): (b: Byte)
    requires |s| == 8
  {
    Pow2Of8();
    ValueOf(s)
  }

  lemma ByteRoundTrip(b: Byte)
    ensures FromBits(Bits(b)) == b
  {
    Pow2Of8();
    ValueOfBits(b, 8);
  }

  // The two bytes of a word as `to_be_bytes` lays them out.
  function BigEndian(w: Word): (r: seq<Byte>)
    ensures |r| == 2
  {
    [w / 0x100, w % 0x100]
  }

  function FromBigEndian(hi: Byte, lo: Byte): Word { hi * 0x100 + lo }
}
