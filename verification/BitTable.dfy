/** The packed coil table of the in-memory store: bit ranges at any offset are moved a byte at a time
    with shifts and masks, and the table still behaves as a plain sequence of booleans. */
module BitTable {
  import opened Bytes
  import opened Packing

  // ---- The u8 operators, by their bits ----

  function ShiftRight(b: Byte, s: nat): (r: Byte)
    ensures forall i :: 0 <= i < 8 ==> Bit(r, i) == (i + s < 8 && Bit(b, i + s))
  {
    Make((i: nat) => i + s < 8 && Bit(b, i + s))
  }

  predicate BitBelow(b: Byte, i: nat, s: nat) { s <= i < 8 && Bit(b, i - s) }

  function ShiftLeft(b: Byte, s: nat): (r: Byte)
    ensures forall i :: 0 <= i < 8 ==> Bit(r, i) == BitBelow(b, i, s)
  {
    Make((i: nat) => BitBelow(b, i, s))
  }

  function And(a: Byte, b: Byte): (r: Byte)
    ensures forall i :: 0 <= i < 8 ==> Bit(r, i) == (Bit(a, i) && Bit(b, i))
  {
    Make((i: nat) => i < 8 && Bit(a, i) && Bit(b, i))
  }

  function Or(a: Byte, b: Byte): (r: Byte)
    ensures forall i :: 0 <= i < 8 ==> Bit(r, i) == (Bit(a, i) || Bit(b, i))
  {
    Make((i: nat) => i < 8 && (Bit(a, i) || Bit(b, i)))
  }

  function Not(b: Byte): (r: Byte)
    ensures forall i :: 0 <= i < 8 ==> Bit(r, i) == !Bit(b, i)
  {
    Make((i: nat) => i < 8 && !Bit(b, i))
  }

  function LowBitMask(n: nat): (r: Byte)
    ensures forall i :: 0 <= i < 8 ==> Bit(r, i) == (i < n)
  {
    Make((i: nat) => i < n)
  }

  datatype Exception = IllegalDataAddress | IllegalDataValue
  datatype Result<T> = Ok(value: T) | Err(exception: Exception)

  // The table with `values` written from `start` on.
  function Splice(table: seq<bool>, start: nat, values: seq<bool>): (r: seq<bool>)
    requires start + |values| <= |table|
    ensures |r| == |table|
  {
    table[..start] + values + table[start + |values|..]
  }

  // Copies the low bits of a byte out, one position each.
  method SpreadByte(byte: Byte, bitCount: nat, out: array<bool>, start: nat)
    requires bitCount <= 8 && start + bitCount <= out.Length
    modifies out
    ensures forall i :: 0 <= i < out.Length ==>
              out[i] == if start <= i < start + bitCount then Bit(byte, i - start) else old(out[i])
  {
    hide Bit;
    for bit := 0 to bitCount
      invariant forall i :: 0 <= i < out.Length ==>
                  out[i] == if start <= i < start + bit then Bit(byte, i - start) else old(out[i])
    {
      out[start + bit] := Bit(byte, bit);
    }
  }

  class BitTable {
    const len: nat
    const bytes: array<Byte>

    // Bits of the last byte past the end stay zero.
    ghost predicate Valid()
      reads bytes
    {
      && bytes.Length == ByteCount(len)
      && forall i :: len <= i < 8 * bytes.Length ==> !Bit(bytes[i / 8], i % 8)
    }

    ghost function Contents(): (r: seq<bool>)
      requires bytes.Length == ByteCount(len)
      reads bytes
      ensures |r| == len
      ensures forall i :: 0 <= i < len ==> r[i] == Bit(bytes[i / 8], i % 8)
    {
      seq(len, i requires 0 <= i < len && bytes.Length == ByteCount(len) reads bytes => Bit(bytes[i / 8], i % 8))
    }

    constructor (len: nat)
      ensures this.len == len && Valid() && fresh(bytes)
      ensures forall i :: 0 <= i < len ==> !Contents()[i]
    {
      this.len := len;
      bytes := new Byte[ByteCount(len)](_ => 0);
      new;
      forall i | 0 <= i < 8 * bytes.Length ensures !Bit(bytes[i / 8], i % 8) { ZeroBits(i % 8); }
    }

    method Set(index: nat, value: bool)
      requires Valid() && index < len
      modifies bytes
      ensures Valid() && Contents() == old(Contents())[index := value]
    {
      hide Bit, ShiftLeft, LowBitMask, And, Or, Not;
      var mask := ShiftLeft(LowBitMask(1), index % 8);
      var byte := bytes[index / 8];
      bytes[index / 8] := if value then Or(byte, mask) else And(byte, Not(mask));
    }

    // Up to eight bits from `start`, in the low bits of a byte.
    method ReadByteBits(start: nat, bitCount: nat) returns (byte: Byte)
      requires Valid() && 1 <= bitCount <= 8 && start + bitCount <= len
      ensures forall k :: 0 <= k < 8 ==> Bit(byte, k) == (k < bitCount && Contents()[start + k])
    {
      hide Bit, ShiftLeft, ShiftRight, LowBitMask, And, Or;
      var index, shift := start / 8, start % 8;
      byte := ShiftRight(bytes[index], shift);
      if shift != 0 && index + 1 < bytes.Length {
        byte := Or(byte, ShiftLeft(bytes[index + 1], 8 - shift));
      }
      byte := And(byte, LowBitMask(bitCount));
      forall k | 0 <= k < bitCount ensures Bit(byte, k) == Contents()[start + k] {
        if k + shift < 8 {
          assert (start + k) / 8 == index && (start + k) % 8 == shift + k;
        } else {
          assert (start + k) / 8 == index + 1 && (start + k) % 8 == shift + k - 8;
        }
      }
    }

    // Replace up to eight bits from `start` by the low bits of `value`, across a byte boundary if need be.
    method WriteByteBits(start: nat, value: Byte, bitCount: nat)
      requires Valid() && 1 <= bitCount <= 8 && start + bitCount <= len
      modifies bytes
      ensures Valid()
      ensures forall i :: 0 <= i < len ==>
                Contents()[i] == if start <= i < start + bitCount then Bit(value, i - start) else old(Contents())[i]
    {
      hide Bit, ShiftLeft, ShiftRight, LowBitMask, And, Or, Not;
      var index, shift, mask := start / 8, start % 8, LowBitMask(bitCount);
      var low := And(value, mask);
      if shift + bitCount <= 8 {
        var shifted := ShiftLeft(mask, shift);
        bytes[index] := Or(And(bytes[index], Not(shifted)), ShiftLeft(low, shift));
        assert forall k :: 0 <= k < 8 ==>
          Bit(bytes[index], k)
          == if shift <= k < shift + bitCount then Bit(value, k - shift) else Bit(old(bytes[index]), k);
        return;
      }
      var lowBits := 8 - shift;
      var lowMask := ShiftLeft(LowBitMask(lowBits), shift);
      bytes[index] := Or(And(bytes[index], Not(lowMask)), And(ShiftLeft(low, shift), lowMask));
      assert forall k :: 0 <= k < 8 ==>
        Bit(bytes[index], k) == if shift <= k then Bit(value, k - shift) else Bit(old(bytes[index]), k);
      var highBits := bitCount - lowBits;
      var highMask := LowBitMask(highBits);
      var high := Or(And(bytes[index + 1], Not(highMask)), And(ShiftRight(low, lowBits), highMask));
      assert forall k {:trigger Bit(high, k)} :: 0 <= k < 8 ==>
        Bit(high, k) == if k < highBits then Bit(value, k + lowBits) else Bit(old(bytes[index + 1]), k);
      bytes[index + 1] := high;
    }

    // Read `quantity` bits into a caller's buffer.
    method ReadBits(address: Word, quantity: Word, out: array<bool>) returns (r: Result<nat>)
      requires Valid()
      modifies out
      ensures r == if address + quantity > len then Err(IllegalDataAddress)
                   else if out.Length < quantity then Err(IllegalDataValue) else Ok(quantity)
      ensures r.Err? ==> out[..] == old(out[..])
      ensures r.Ok? ==> out[..] == Contents()[address..address + quantity] + old(out[quantity..])
    {
      if address + quantity > len { return Err(IllegalDataAddress); }
      if out.Length < quantity { return Err(IllegalDataValue); }
      FillBits(address, quantity, out);
      assert out[..quantity] == Contents()[address..address + quantity];
      assert out[..] == out[..quantity] + out[quantity..];
      r := Ok(quantity);
    }

    method FillBits(address: nat, quantity: nat, out: array<bool>)
      requires Valid() && address + quantity <= len && quantity <= out.Length
      modifies out
      ensures forall i :: 0 <= i < quantity ==> out[i] == Contents()[address + i]
      ensures out[quantity..] == old(out[quantity..])
    {
      hide Bit, Contents;
      ghost var table := Contents();
      var byteIndex := 0;
      while byteIndex < ByteCount(quantity)
        invariant 0 <= byteIndex <= ByteCount(quantity) && Contents() == table
        invariant forall i :: 0 <= i < quantity && i < 8 * byteIndex ==> out[i] == table[address + i]
        invariant forall i :: quantity <= i < out.Length ==> out[i] == old(out[i])
      {
        var outStart := byteIndex * 8;
        var bitCount := if quantity - outStart < 8 then quantity - outStart else 8;
        var byte := ReadByteBits(address + outStart, bitCount);
        SpreadByte(byte, bitCount, out, outStart);
        byteIndex := byteIndex + 1;
      }
    }

    // Write booleans from `address` on.
    method WriteBits(address: Word, values: seq<bool>) returns (r: Result<()>)
      requires Valid()
      modifies bytes
      ensures Valid()
      ensures r == if address + |values| > len then Err(IllegalDataAddress) else Ok(())
      ensures Contents() == if r.Ok? then Splice(old(Contents()), address, values) else old(Contents())
    {
      if address + |values| > len { return Err(IllegalDataAddress); }
      var packed := Pack(values);
      WriteChunks(address, |values|, packed);
      assert Contents() == Splice(old(Contents()), address, values) by { UnpackOfPack(values); }
      r := Ok(());
    }

    // Write packed bytes, eight bits at a time, the last one as far as `quantity` goes.
    method WriteChunks(start: nat, quantity: nat, packed: seq<Byte>)
      requires Valid() && start + quantity <= len
      requires |packed| <= ByteCount(quantity)
      modifies bytes
      ensures Valid()
      ensures var n := if quantity < 8 * |packed| then quantity else 8 * |packed|;
              Contents() == Splice(old(Contents()), start, Unpack(packed, n))
    {
      hide Bit, Unpack, Splice, Contents;
      var n := if quantity < 8 * |packed| then quantity else 8 * |packed|;
      ghost var before, values := Contents(), Unpack(packed, n);
      SpliceNothing(before, start);
      for byteIndex := 0 to |packed|
        invariant Valid()
        invariant var done := if n < 8 * byteIndex then n else 8 * byteIndex;
                  Contents() == Splice(before, start, values[..done])
      {
        var offset := byteIndex * 8;
        var bitCount := if quantity - offset < 8 then quantity - offset else 8;
        ghost var mid := Contents();
        WriteByteBits(start + offset, packed[byteIndex], bitCount);
        assert offset + bitCount <= n;
        forall k | 0 <= k < bitCount ensures values[offset + k] == Bit(packed[byteIndex], k) {
          assert (offset + k) / 8 == byteIndex && (offset + k) % 8 == k;
        }
        SpliceNext(before, mid, Contents(), start, values, offset, bitCount);
      }
      assert values[..n] == values;
    }

    // Byte `byteIndex` of the packed form of a range.
    method ReadPackedByte(start: nat, quantity: nat, byteIndex: nat) returns (byte: Byte)
      requires Valid() && start + quantity <= len && byteIndex < ByteCount(quantity)
      ensures byte == Pack(Contents()[start..start + quantity])[byteIndex]
    {
      hide Bit, Pack, Contents;
      var bitCount := if quantity - byteIndex * 8 < 8 then quantity - byteIndex * 8 else 8;
      byte := ReadByteBits(start + byteIndex * 8, bitCount);
      ghost var slice := Contents()[start..start + quantity];
      forall k | 0 <= k < 8 ensures Bit(byte, k) == PayloadBit(slice, 8 * byteIndex + k) {}
      PackedByte(slice, byteIndex, byte);
    }

    method ReadPacked(address: Word, quantity: Word, out: array<Byte>) returns (r: Result<nat>)
      requires Valid() && out != bytes
      modifies out
      ensures r == if address + quantity > len then Err(IllegalDataAddress)
                   else if out.Length < ByteCount(quantity) then Err(IllegalDataValue) else Ok(quantity)
      ensures r.Err? ==> out[..] == old(out[..])
      ensures r.Ok? ==> out[..] == Pack(Contents()[address..address + quantity]) + old(out[ByteCount(quantity)..])
    {
      hide Bit, Pack, Contents;
      if address + quantity > len { return Err(IllegalDataAddress); }
      var byteCount := ByteCount(quantity);
      if out.Length < byteCount { return Err(IllegalDataValue); }
      ghost var packed := Pack(Contents()[address..address + quantity]);
      for byteIndex := 0 to byteCount
        invariant forall j :: 0 <= j < byteIndex ==> out[j] == packed[j]
        invariant forall j :: byteCount <= j < out.Length ==> out[j] == old(out[j])
      {
        var byte := ReadPackedByte(address, quantity, byteIndex);
        out[byteIndex] := byte;
      }
      r := Ok(quantity);
    }

    method WritePacked(address: Word, quantity: nat, packed: seq<Byte>) returns (r: Result<()>)
      requires Valid()
      requires |packed| <= ByteCount(quantity)
      modifies bytes
      ensures Valid()
      ensures r == if address + quantity > len then Err(IllegalDataAddress) else Ok(())
      ensures r.Err? ==> Contents() == old(Contents())
      ensures r.Ok? ==>
                var n := if quantity < 8 * |packed| then quantity else 8 * |packed|;
                Contents() == Splice(old(Contents()), address, Unpack(packed, n))
    {
      if address + quantity > len { return Err(IllegalDataAddress); }
      WriteChunks(address, quantity, packed);
      r := Ok(());
    }
  }

  lemma SpliceNothing(table: seq<bool>, start: nat)
    requires start <= |table|
    ensures Splice(table, start, []) == table
  {
  }

  // A byte holding the payload's bits from `8 * j` on is byte `j` of the packed payload.
  lemma PackedByte(bits: seq<bool>, j: nat, byte: Byte)
    requires j < ByteCount(|bits|)
    requires forall k :: 0 <= k < 8 ==> Bit(byte, k) == PayloadBit(bits, 8 * j + k)
    ensures byte == Pack(bits)[j]
  {
    hide Bit, Pack;
    SameBits(byte, Pack(bits)[j]);
  }

  // Writing the next `count` values after the first `offset` ones.
  lemma SpliceNext(before: seq<bool>, mid: seq<bool>, after: seq<bool>, start: nat, values: seq<bool>, offset: nat,
                   count: nat)
    requires offset + count <= |values| && start + |values| <= |before| == |after|
    requires mid == Splice(before, start, values[..offset])
    requires forall i :: 0 <= i < |after| ==>
               after[i] == if start + offset <= i < start + offset + count then values[i - start] else mid[i]
    ensures after == Splice(before, start, values[..offset + count])
  {
  }

  // Reading back a written range gives what was written, and writing leaves every other range alone.
  lemma SpliceReadBack(table: seq<bool>, start: nat, values: seq<bool>, from: nat, to: nat)
    requires start + |values| <= |table| && from <= to <= |table|
    ensures Splice(table, start, values)[start..start + |values|] == values
    ensures to <= start || start + |values| <= from ==> Splice(table, start, values)[from..to] == table[from..to]
  {
  }
}
