/** The memory helpers of the bit module: reading and writing a bit field
    that may straddle several bytes, setting one flag bit, and OR-ing a mask
    into memory. Each helper is a method on the emulator connection, proved
    against a function of the memory it reads and writes. */
module BitMemory {
  import opened Binary
  import opened Memory
  import opened BitHelper

  /** Bit `o` counted from `address` (for `o >= 0`). */
  predicate MemBit(m: Mem, address: int, o: nat)
  {
    Bit(ByteAt(m, address + o / 8), o % 8)
  }

  /** The flag that `set_flag_bit(address, offset, _)` writes. */
  predicate FlagBit(m: Mem, address: int, offset: int)
  {
    Bit(ByteAt(m, GetBitAddress(address, offset).0), GetBitAddress(address, offset).1)
  }

  /** The number of bytes the helpers touch: `nb`, widened one byte at a
      time until bits `bp .. bp + size - 1` fit. */
  function Window(bp: nat, size: nat, nb: nat): (w: nat)
    ensures w >= nb && bp + size <= 8 * w
    ensures w == nb || bp + size > 8 * (w - 1)
    decreases bp + size - 8 * nb
  {
    if bp + size > 8 * nb then Window(bp, size, nb + 1) else nb
  }

  /** The value `read_value_bytes` returns. */
  function ReadValue(m: Mem, address: int, offset: int, size: nat, nb: nat): (v: nat)
    ensures v < Pow2(size)
  {
    var a, bp := GetBitAddress(address, offset).0, GetBitAddress(address, offset).1;
    ExtractBitsValue(FromLE(BytesAt(m, a, Window(bp, size, nb))), bp, size)
  }

  /** The memory after `set_value_bytes`. */
  function SetValueMem(m: Mem, address: int, offset: int, value: nat, size: nat, nb: nat): Mem
    requires size >= 1 && value < Pow2(size)
  {
    var a, bp := GetBitAddress(address, offset).0, GetBitAddress(address, offset).1;
    WriteWindow(m, a, bp, Window(bp, size, nb), value, size)
  }

  /** The `w` bytes at `a`, read little-endian, with `size` bits from bit
      `bp` on replaced by `value` and written back. */
  function WriteWindow(m: Mem, a: int, bp: nat, w: nat, value: nat, size: nat): Mem
    requires size >= 1 && value < Pow2(size)
  {
    Written(m, a, ToLE(UpdateBits(FromLE(BytesAt(m, a, w)), bp, value, size).value, w))
  }

  /** The memory after `set_flag_bit`. */
  function SetFlagMem(m: Mem, address: int, offset: int, value: bool): Mem
  {
    WriteFlag(m, GetBitAddress(address, offset).0, GetBitAddress(address, offset).1, value)
  }

  /** The byte at `a` with bit `bp` replaced by `value`, written back. */
  function WriteFlag(m: Mem, a: int, bp: nat, value: bool): Mem
    requires bp < 8
  {
    Written(m, a, [FlagByte(ByteAt(m, a), bp, value)])
  }

  /** `update_bits` on one byte with a one-bit field: the byte with bit `bp`
      set to `value` and every other bit kept. */
  function FlagByte(b: Byte, bp: nat, value: bool): (r: Byte)
    requires bp < 8
    ensures forall i: nat :: i < 8 ==> Bit(r, i) == if i == bp then value else Bit(b, i)
  {
    Pow2Of8();
    WithBitBound(b, bp, value, 8);
    FlagByteBitsOf(b, bp, value);
    WithBit(b, bp, value)
  }

  lemma FlagByteBitsOf(b: Byte, bp: nat, value: bool)
    ensures forall i: nat :: i < 8 ==> Bit(WithBit(b, bp, value), i) == if i == bp then value else Bit(b, i)
  {
    forall i: nat | i < 8
      ensures Bit(WithBit(b, bp, value), i) == if i == bp then value else Bit(b, i)
    {
      BitOfWithBit(b, bp, value, i);
    }
  }

  /** The byte `update_bits` gives for a one-bit field. */
  lemma FlagByteIsUpdate(b: Byte, bp: nat, value: bool)
    requires bp < 8
    ensures UpdateBits(b, bp, if value then 1 else 0, 1).value == FlagByte(b, bp, value)
  {
    var u := UpdateBits(b, bp, if value then 1 else 0, 1).value;
    var r := FlagByte(b, bp, value);
    FlagUpdate(b, bp, value);
    Pow2Of8();
    forall p: nat
      ensures Bit(u, p) == Bit(r, p)
    {
      if p >= 8 {
        BitAbove(u, 8, p);
        BitAbove(r, 8, p);
      }
    }
    BitsEqual(u, r);
  }

  /** The memory after `set_on_or_bytes`: the `nb` bytes at `address`, read
      most significant first, OR-ed with `value`. */
  function SetOnOrMem(m: Mem, address: int, value: nat, nb: nat): Mem
    requires value < Pow2(8 * nb)
  {
    Written(m, address, ToBE(Or(FromBE(BytesAt(m, address, nb)), value), nb))
  }

  // ---------------------------------------------------------------------------
  // The helpers themselves

  method ReadValueBytes(dme: Dolphin, address: int, offset: int, size: nat, nb: nat) returns (v: nat)
    ensures v == ReadValue(dme.ram, address, offset, size, nb)
    decreases GetBitAddress(address, offset).1 + size - 8 * nb
  {
    var byteAddress, bitPosition := GetBitAddress(address, offset).0, GetBitAddress(address, offset).1;
    if bitPosition + size > 8 * nb {
      v := ReadValueBytes(dme, address, offset, size, nb + 1);
      return;
    }
    var cache := dme.ReadBytes(byteAddress, nb);
    v := ExtractBitsValue(FromLE(cache), bitPosition, size);
  }

  method SetValueBytes(dme: Dolphin, address: int, offset: int, value: nat, size: nat, nb: nat)
    requires size >= 1 && value < Pow2(size)
    modifies dme
    ensures dme.ram == SetValueMem(old(dme.ram), address, offset, value, size, nb)
    decreases GetBitAddress(address, offset).1 + size - 8 * nb
  {
    if GetBitAddress(address, offset).1 + size > 8 * nb {
      SetValueBytes(dme, address, offset, value, size, nb + 1);
      SetValueWiden(old(dme.ram), address, offset, value, size, nb);
      return;
    }
    WriteValueWindow(dme, address, offset, value, size, nb);
  }

  /** The write itself, once the window of `nb` bytes holds the field. */
  method WriteValueWindow(dme: Dolphin, address: int, offset: int, value: nat, size: nat, nb: nat)
    requires size >= 1 && value < Pow2(size)
    requires GetBitAddress(address, offset).1 + size <= 8 * nb
    modifies dme
    ensures dme.ram == SetValueMem(old(dme.ram), address, offset, value, size, nb)
  {
    var byteAddress, bitPosition := GetBitAddress(address, offset).0, GetBitAddress(address, offset).1;
    var cache := dme.ReadBytes(byteAddress, nb);
    var updated := UpdateBits(FromLE(cache), bitPosition, value, size);
    dme.WriteBytes(byteAddress, ToLE(updated.value, nb));
  }

  method SetFlagBit(dme: Dolphin, address: int, offset: int, value: bool)
    modifies dme
    ensures dme.ram == SetFlagMem(old(dme.ram), address, offset, value)
  {
    var byteAddress, bitPosition := GetBitAddress(address, offset).0, GetBitAddress(address, offset).1;
    var cache := dme.ReadByte(byteAddress);
    FlagUpdate(cache, bitPosition, value);
    FlagByteIsUpdate(cache, bitPosition, value);
    var updated := UpdateBits(cache, bitPosition, if value then 1 else 0, 1);
    dme.WriteByte(byteAddress, updated.value);
  }

  method SetOnOrBytes(dme: Dolphin, address: int, value: nat, nb: nat)
    requires value < Pow2(8 * nb)
    modifies dme
    ensures dme.ram == SetOnOrMem(old(dme.ram), address, value, nb)
  {
    var cache := dme.ReadBytes(address, nb);
    var updated := Or(FromBE(cache), value);
    dme.WriteBytes(address, ToBE(updated, nb));
  }

  // ---------------------------------------------------------------------------
  // What the helpers do to the bits of memory

  lemma PaddedByte(b: Byte)
    ensures |PaddedString(b, 8)| == 8
  {
    Pow2Of8();
    BinaryLength(b, 8);
    RoundUpLeast(|Bin(b)|, 8, 8);
    PaddedLength(b, 8);
  }

  lemma OffsetSplit(offset: nat, j: nat)
    ensures (offset + j) / 8 == offset / 8 + (offset % 8 + j) / 8
    ensures (offset + j) % 8 == (offset % 8 + j) % 8
  {
    var q, bp := offset / 8, offset % 8;
    DivModUnique(offset + j, 8, q + (bp + j) / 8, (bp + j) % 8);
  }

  /** Bit `k` of the bytes at `a` read little-endian is bit `k % 8` of byte `a + k / 8`. */
  lemma WindowBit(m: Mem, a: int, w: nat, k: nat)
    requires k < 8 * w
    ensures Bit(FromLE(BytesAt(m, a, w)), k) == Bit(ByteAt(m, a + k / 8), k % 8)
  {
    BitOfFromLE(BytesAt(m, a, w), k);
  }

  /** Bit `j` of the value read is the memory bit `offset + j`: the value
      is the `size` bits from bit `offset` on, least significant first. */
  lemma ReadValueBits(m: Mem, address: int, offset: nat, size: nat, nb: nat, j: nat)
    ensures Bit(ReadValue(m, address, offset, size, nb), j) == (j < size && MemBit(m, address, offset + j))
  {
    var a, bp := GetBitAddress(address, offset).0, GetBitAddress(address, offset).1;
    var w := Window(bp, size, nb);
    if j < size {
      WindowBit(m, a, w, bp + j);
      OffsetSplit(offset, j);
    }
  }

  /** Reading a field never looks outside its own bits. */
  lemma ReadValueDependsOnField(m: Mem, m': Mem, address: int, offset: nat, size: nat, nb: nat, nb': nat)
    requires forall o: nat :: offset <= o < offset + size ==> MemBit(m, address, o) == MemBit(m', address, o)
    ensures ReadValue(m, address, offset, size, nb) == ReadValue(m', address, offset, size, nb')
  {
    forall j: nat
      ensures Bit(ReadValue(m, address, offset, size, nb), j) == Bit(ReadValue(m', address, offset, size, nb'), j)
    {
      ReadValueBits(m, address, offset, size, nb, j);
      ReadValueBits(m', address, offset, size, nb', j);
    }
    BitsEqual(ReadValue(m, address, offset, size, nb), ReadValue(m', address, offset, size, nb'));
  }

  /** Bit `k` of the window of bytes starting at `a`. */
  predicate WinBit(m: Mem, a: int, k: nat)
  {
    Bit(ByteAt(m, a + k / 8), k % 8)
  }

  /** Memory bit `offset + j` is bit `offset % 8 + j` of the window that
      starts at the byte holding bit `offset`. */
  lemma MemBitAsWinBit(m: Mem, address: int, offset: nat, j: nat)
    ensures MemBit(m, address, offset + j) == WinBit(m, GetBitAddress(address, offset).0, GetBitAddress(address, offset).1 + j)
  {
    OffsetSplit(offset, j);
  }

  lemma MemBitFromWinBit(m: Mem, address: int, offset: nat, j: nat, b: bool)
    requires WinBit(m, GetBitAddress(address, offset).0, GetBitAddress(address, offset).1 + j) == b
    ensures MemBit(m, address, offset + j) == b
  {
    MemBitAsWinBit(m, address, offset, j);
  }

  lemma WinBitOfWritten(m: Mem, a: int, u: nat, w: nat, k: nat)
    requires k < 8 * w
    ensures WinBit(Written(m, a, ToLE(u, w)), a, k) == Bit(u, k)
  {
    assert 0 <= k / 8 < w && 8 * (k / 8) + k % 8 == k;
    ByteAtWritten(m, a, ToLE(u, w), a + k / 8);
    BitOfToLE(u, w, k / 8, k % 8);
  }

  lemma WinBitOfRead(m: Mem, a: int, w: nat, k: nat)
    requires k < 8 * w
    ensures Bit(FromLE(BytesAt(m, a, w)), k) == WinBit(m, a, k)
  {
    WindowBit(m, a, w, k);
  }

  lemma FieldOfUpdate(cache: nat, bp: nat, value: nat, size: nat, j: nat)
    requires size >= 1 && value < Pow2(size) && j < size && bp < 8
    ensures Bit(UpdateBits(cache, bp, value, size).value, bp + j) == Bit(value, j)
  {
    UpdateBitsField(cache, bp, value, size, bp + j);
  }

  /** Widening the initial window of a write that does not fit it changes nothing. */
  lemma SetValueWiden(m: Mem, address: int, offset: int, value: nat, size: nat, nb: nat)
    requires size >= 1 && value < Pow2(size)
    requires GetBitAddress(address, offset).1 + size > 8 * nb
    ensures SetValueMem(m, address, offset, value, size, nb + 1) == SetValueMem(m, address, offset, value, size, nb)
  {
    SetValueIsWindow(m, address, offset, value, size, nb);
    SetValueIsWindow(m, address, offset, value, size, nb + 1);
  }

  /** A fact about bit `bp + j` of the written window is a fact about
      memory bit `offset + j` after `set_value_bytes`. */
  lemma SetValueMemBit(m: Mem, address: int, offset: nat, value: nat, size: nat, nb: nat, j: nat, b: bool)
    requires size >= 1 && value < Pow2(size)
    requires WinBit(WriteWindow(m, GetBitAddress(address, offset).0, GetBitAddress(address, offset).1,
      Window(GetBitAddress(address, offset).1, size, nb), value, size),
      GetBitAddress(address, offset).0, GetBitAddress(address, offset).1 + j) == b
    ensures MemBit(SetValueMem(m, address, offset, value, size, nb), address, offset + j) == b
  {
    MemBitFromWinBit(SetValueMem(m, address, offset, value, size, nb), address, offset, j, b);
  }

  lemma WindowField(m: Mem, a: int, bp: nat, w: nat, value: nat, size: nat, j: nat)
    requires size >= 1 && value < Pow2(size) && j < size && bp < 8 && bp + size <= 8 * w
    ensures WinBit(WriteWindow(m, a, bp, w, value, size), a, bp + j) == Bit(value, j)
  {
    var cache := FromLE(BytesAt(m, a, w));
    FieldOfUpdate(cache, bp, value, size, j);
    WrittenField(m, a, bp, w, UpdateBits(cache, bp, value, size).value, value, j);
  }

  /** After `set_value_bytes`, bit `j` of the field holds bit `j` of the value. */
  lemma SetValueField(m: Mem, address: int, offset: nat, value: nat, size: nat, nb: nat, j: nat)
    requires size >= 1 && value < Pow2(size) && j < size
    ensures MemBit(SetValueMem(m, address, offset, value, size, nb), address, offset + j) == Bit(value, j)
  {
    WindowField(m, GetBitAddress(address, offset).0, GetBitAddress(address, offset).1,
      Window(GetBitAddress(address, offset).1, size, nb), value, size, j);
    SetValueMemBit(m, address, offset, value, size, nb, j, Bit(value, j));
  }

  lemma WrittenField(m: Mem, a: int, bp: nat, w: nat, u: nat, value: nat, j: nat)
    requires bp + j < 8 * w && Bit(u, bp + j) == Bit(value, j)
    ensures WinBit(Written(m, a, ToLE(u, w)), a, bp + j) == Bit(value, j)
  {
    WinBitOfWritten(m, a, u, w, bp + j);
  }

  /** Writing a value and reading the same field back gives the value. */
  lemma SetValueReadBack(m: Mem, address: int, offset: nat, value: nat, size: nat, nb: nat, nb': nat)
    requires size >= 1 && value < Pow2(size)
    ensures ReadValue(SetValueMem(m, address, offset, value, size, nb), address, offset, size, nb') == value
  {
    var m' := SetValueMem(m, address, offset, value, size, nb);
    forall j: nat
      ensures Bit(ReadValue(m', address, offset, size, nb'), j) == Bit(value, j)
    {
      ReadValueBits(m', address, offset, size, nb', j);
      if j < size {
        SetValueField(m, address, offset, value, size, nb, j);
      } else {
        BitAbove(value, size, j);
      }
    }
    BitsEqual(ReadValue(m', address, offset, size, nb'), value);
  }

  lemma SetValueIsWindow(m: Mem, address: int, offset: int, value: nat, size: nat, nb: nat)
    requires size >= 1 && value < Pow2(size)
    ensures SetValueMem(m, address, offset, value, size, nb) ==
      WriteWindow(m, GetBitAddress(address, offset).0, GetBitAddress(address, offset).1,
        Window(GetBitAddress(address, offset).1, size, nb), value, size)
  {
  }

  /** The bytes a write touches: those of its window. */
  lemma SetValueOutside(m: Mem, address: int, offset: int, value: nat, size: nat, nb: nat, x: int)
    requires size >= 1 && value < Pow2(size)
    requires !(GetBitAddress(address, offset).0 <= x < GetBitAddress(address, offset).0 + Window(GetBitAddress(address, offset).1, size, nb))
    ensures ByteAt(SetValueMem(m, address, offset, value, size, nb), x) == ByteAt(m, x)
  {
    SetValueIsWindow(m, address, offset, value, size, nb);
    WindowOutside(m, GetBitAddress(address, offset).0, GetBitAddress(address, offset).1,
      Window(GetBitAddress(address, offset).1, size, nb), value, size, x);
  }

  lemma WindowOutside(m: Mem, a: int, bp: nat, w: nat, value: nat, size: nat, x: int)
    requires size >= 1 && value < Pow2(size) && !(a <= x < a + w)
    ensures ByteAt(WriteWindow(m, a, bp, w, value, size), x) == ByteAt(m, x)
  {
    ByteAtWritten(m, a, ToLE(UpdateBits(FromLE(BytesAt(m, a, w)), bp, value, size).value, w), x);
  }

  /** When the window is one byte, or its last byte is not zero, a write
      changes the bits of its field and no other bit of its window. */
  lemma SetValueFrame(m: Mem, address: int, offset: nat, value: nat, size: nat, nb: nat, k: nat)
    requires size >= 1 && value < Pow2(size)
    requires Window(GetBitAddress(address, offset).1, size, nb) == 1 ||
      ByteAt(m, GetBitAddress(address, offset).0 + Window(GetBitAddress(address, offset).1, size, nb) - 1) != 0
    requires k < 8 * Window(GetBitAddress(address, offset).1, size, nb)
    requires k < GetBitAddress(address, offset).1 || k >= GetBitAddress(address, offset).1 + size
    ensures WinBit(SetValueMem(m, address, offset, value, size, nb), GetBitAddress(address, offset).0, k) ==
      WinBit(m, GetBitAddress(address, offset).0, k)
  {
    SetValueIsWindow(m, address, offset, value, size, nb);
    WindowFrame(m, GetBitAddress(address, offset).0, GetBitAddress(address, offset).1,
      Window(GetBitAddress(address, offset).1, size, nb), value, size, k);
  }

  lemma WindowFrame(m: Mem, a: int, bp: nat, w: nat, value: nat, size: nat, k: nat)
    requires size >= 1 && value < Pow2(size) && bp < 8 && bp + size <= 8 * w
    requires w == 1 || (w >= 1 && ByteAt(m, a + w - 1) != 0)
    requires k < 8 * w && (k < bp || k >= bp + size)
    ensures WinBit(WriteWindow(m, a, bp, w, value, size), a, k) == WinBit(m, a, k)
  {
    var cache := FromLE(BytesAt(m, a, w));
    var updated := UpdateBits(cache, bp, value, size).value;
    WinBitOfWritten(m, a, updated, w, k);
    WinBitOfRead(m, a, w, k);
    if k < bp {
      UpdateBitsField(cache, bp, value, size, k);
    } else {
      CleanWindow(m, a, bp, size, w);
      UpdateBitsAbove(cache, bp, value, size, k);
    }
  }

  lemma SomeBitSet(b: nat)
    requires b != 0
    ensures exists j: nat :: Bit(b, j)
  {
    if forall j: nat :: !Bit(b, j) {
      forall j: nat
        ensures Bit(b, j) == Bit(0, j)
      {
        BitOfZero(j);
      }
      BitsEqual(b, 0);
    }
  }

  lemma CleanWindow(m: Mem, a: int, bp: nat, size: nat, w: nat)
    requires bp < 8 && size >= 1 && bp + size <= 8 * w
    requires w == 1 || (w >= 1 && ByteAt(m, a + w - 1) != 0)
    ensures bp + size <= |PaddedString(FromLE(BytesAt(m, a, w)), 8)|
  {
    var cache := FromLE(BytesAt(m, a, w));
    PaddedLength(cache, 8);
    if w > 1 {
      var top := ByteAt(m, a + w - 1);
      SomeBitSet(top);
      var j: nat :| Bit(top, j);
      if j >= 8 {
        ByteBits(top, j);
      }
      var p := 8 * (w - 1) + j;
      WinBitOfRead(m, a, w, p);
      assert p / 8 == w - 1 && p % 8 == j;
      BitOfParseBin(PaddedString(cache, 8), p);
      assert |PaddedString(cache, 8)| > 8 * (w - 1);
      MultipleAbove(|PaddedString(cache, 8)|, w - 1);
    }
  }

  lemma MultipleAbove(len: nat, q: nat)
    requires len % 8 == 0 && len > 8 * q
    ensures len >= 8 * (q + 1)
  {
  }

  /** When the field spills from a one-byte value into a second byte whose
      bits are all clear, the write copies the old bits of the first byte
      above the field into the same positions of the second byte. */
  lemma SetValueSpill(m: Mem, address: int, offset: nat, value: nat, size: nat, i: nat)
    requires size >= 1 && value < Pow2(size)
    requires GetBitAddress(address, offset).1 + size > 8
    requires GetBitAddress(address, offset).1 + size - 8 <= i < 8
    requires ByteAt(m, GetBitAddress(address, offset).0 + 1) == 0
    ensures Window(GetBitAddress(address, offset).1, size, 1) == 2
    ensures Bit(ByteAt(SetValueMem(m, address, offset, value, size, 1), GetBitAddress(address, offset).0 + 1), i) ==
      Bit(ByteAt(m, GetBitAddress(address, offset).0), i)
  {
    WindowTwo(GetBitAddress(address, offset).1, size);
    WindowSpill(m, GetBitAddress(address, offset).0, GetBitAddress(address, offset).1, value, size, i);
    SetValueIsWindow(m, address, offset, value, size, 1);
  }

  /** `set_value_bytes` with `update_bits` padding the cached window to its
      full width. */
  function SetValueMemWide(m: Mem, address: int, offset: int, value: nat, size: nat, nb: nat): Mem
    requires size >= 1 && value < Pow2(size)
  {
    var a, bp := GetBitAddress(address, offset).0, GetBitAddress(address, offset).1;
    WriteWindowWide(m, a, bp, Window(bp, size, nb), value, size)
  }

  function WriteWindowWide(m: Mem, a: int, bp: nat, w: nat, value: nat, size: nat): Mem
    requires size >= 1 && value < Pow2(size) && bp + size <= 8 * w
  {
    Written(m, a, ToLE(UpdateBitsWide(FromLE(BytesAt(m, a, w)), bp, value, size, 8 * w).value, w))
  }

  /** With the window padded to its width, a write puts `value` in its field
      and keeps every other bit of its window, with no condition on the
      window's last byte. */
  lemma SetValueWideBits(m: Mem, address: int, offset: int, value: nat, size: nat, nb: nat, k: nat)
    requires size >= 1 && value < Pow2(size)
    requires k < 8 * Window(GetBitAddress(address, offset).1, size, nb)
    ensures var bp := GetBitAddress(address, offset).1;
      WinBit(SetValueMemWide(m, address, offset, value, size, nb), GetBitAddress(address, offset).0, k) ==
        if bp <= k < bp + size then Bit(value, k - bp) else WinBit(m, GetBitAddress(address, offset).0, k)
  {
    var bp := GetBitAddress(address, offset).1;
    WindowWideBits(m, GetBitAddress(address, offset).0, bp, Window(bp, size, nb), value, size, k);
  }

  lemma WindowWideBits(m: Mem, a: int, bp: nat, w: nat, value: nat, size: nat, k: nat)
    requires size >= 1 && value < Pow2(size) && bp + size <= 8 * w && k < 8 * w
    ensures WinBit(WriteWindowWide(m, a, bp, w, value, size), a, k) ==
      if bp <= k < bp + size then Bit(value, k - bp) else WinBit(m, a, k)
  {
    var cache := FromLE(BytesAt(m, a, w));
    FromLEBound(BytesAt(m, a, w));
    UpdateBitsWideBits(cache, bp, value, size, 8 * w, k);
    WinBitOfWritten(m, a, UpdateBitsWide(cache, bp, value, size, 8 * w).value, w, k);
    WinBitOfRead(m, a, w, k);
  }

  lemma WindowTwo(bp: nat, size: nat)
    requires 8 < bp + size <= 16
    ensures Window(bp, size, 1) == 2
  {
    assert Window(bp, size, 2) == 2;
  }

  lemma WindowSpill(m: Mem, a: int, bp: nat, value: nat, size: nat, i: nat)
    requires size >= 1 && value < Pow2(size) && bp < 8 && 8 < bp + size <= 16
    requires bp + size - 8 <= i < 8 && ByteAt(m, a + 1) == 0
    ensures Bit(ByteAt(WriteWindow(m, a, bp, 2, value, size), a + 1), i) == Bit(ByteAt(m, a), i)
  {
    LowByteWindow(m, a);
    SpillOfByte(ByteAt(m, a), bp, value, size, i);
    WrittenHighBit(m, a, UpdateBits(FromLE(BytesAt(m, a, 2)), bp, value, size).value, i);
  }

  lemma WrittenHighBit(m: Mem, a: int, u: nat, i: nat)
    requires i < 8
    ensures Bit(ByteAt(Written(m, a, ToLE(u, 2)), a + 1), i) == Bit(u, 8 + i)
  {
    WinBitOfWritten(m, a, u, 2, 8 + i);
    assert (8 + i) / 8 == 1 && (8 + i) % 8 == i;
  }

  /** A two-byte window whose high byte is zero reads as its low byte. */
  lemma LowByteWindow(m: Mem, a: int)
    requires ByteAt(m, a + 1) == 0
    ensures FromLE(BytesAt(m, a, 2)) == ByteAt(m, a)
  {
    assert BytesAt(m, a, 2) == [ByteAt(m, a), 0];
    assert FromLE([ByteAt(m, a), 0]) == ByteAt(m, a) + 256 * FromLE([0]);
  }

  lemma SpillOfByte(b: Byte, bp: nat, value: nat, size: nat, i: nat)
    requires size >= 1 && value < Pow2(size) && bp < 8 && 8 < bp + size <= 16
    requires bp + size - 8 <= i < 8
    ensures Bit(UpdateBits(b, bp, value, size).value, 8 + i) == Bit(b, i)
  {
    PaddedByte(b);
    UpdateBitsSpill(b, bp, value, size, 8 + i);
  }

  /** `set_flag_bit` sets exactly its own bit of memory to `value`. */
  lemma SetFlagBits(m: Mem, address: int, offset: int, value: bool, x: int, i: nat)
    requires i < 8
    ensures Bit(ByteAt(SetFlagMem(m, address, offset, value), x), i) ==
      if x == GetBitAddress(address, offset).0 && i == GetBitAddress(address, offset).1 then value
      else Bit(ByteAt(m, x), i)
  {
    FlagByteBits(m, GetBitAddress(address, offset).0, GetBitAddress(address, offset).1, value, x, i);
  }

  lemma FlagByteBits(m: Mem, a: int, bp: nat, value: bool, x: int, i: nat)
    requires bp < 8 && i < 8
    ensures Bit(ByteAt(WriteFlag(m, a, bp, value), x), i) ==
      if x == a && i == bp then value else Bit(ByteAt(m, x), i)
  {
    WrittenByteBit(m, a, FlagByte(ByteAt(m, a), bp, value), x, i);
  }

  lemma WrittenByteBit(m: Mem, a: int, u: Byte, x: int, i: nat)
    ensures Bit(ByteAt(Written(m, a, [u]), x), i) == if x == a then Bit(u, i) else Bit(ByteAt(m, x), i)
  {
    ByteAtWritten(m, a, [u], x);
  }

  lemma FlagUpdate(b: Byte, bp: nat, value: bool)
    requires bp < 8
    ensures UpdateBits(b, bp, if value then 1 else 0, 1).value < 256
    ensures forall i: nat :: i < 8 ==>
      Bit(UpdateBits(b, bp, if value then 1 else 0, 1).value, i) == if i == bp then value else Bit(b, i)
  {
    PaddedByte(b);
    Pow2Of8();
    UpdateBitsBound(b, bp, if value then 1 else 0, 1);
    forall i: nat | i < 8
      ensures Bit(UpdateBits(b, bp, if value then 1 else 0, 1).value, i) == if i == bp then value else Bit(b, i)
    {
      if i < bp + 1 {
        UpdateBitsField(b, bp, if value then 1 else 0, 1, i);
      } else {
        UpdateBitsAbove(b, bp, if value then 1 else 0, 1, i);
      }
    }
  }

  lemma SetFlagReadBack(m: Mem, address: int, offset: int, value: bool)
    ensures FlagBit(SetFlagMem(m, address, offset, value), address, offset) == value
  {
    SetFlagBits(m, address, offset, value, GetBitAddress(address, offset).0, GetBitAddress(address, offset).1);
  }

  /** A flag at another bit is not touched by `set_flag_bit`. */
  lemma SetFlagOther(m: Mem, address: int, offset: int, value: bool, address': int, offset': int)
    requires GetBitAddress(address, offset) != GetBitAddress(address', offset')
    ensures FlagBit(SetFlagMem(m, address, offset, value), address', offset') == FlagBit(m, address', offset')
  {
    SetFlagBits(m, address, offset, value, GetBitAddress(address', offset').0, GetBitAddress(address', offset').1);
  }

  lemma OrBound(x: nat, y: nat, n: nat)
    requires x < Pow2(n) && y < Pow2(n)
    ensures Or(x, y) < Pow2(n)
  {
    forall p: nat | p >= n
      ensures !Bit(Or(x, y), p)
    {
      BitOfOr(x, y, p);
      BitAbove(x, n, p);
      BitAbove(y, n, p);
    }
    BoundFromBits(Or(x, y), n);
  }

  /** `set_on_or_bytes` turns on the bits of `value` (the last byte holding
      its lowest eight bits) and keeps every bit that was already on. */
  lemma SetOnOrBits(m: Mem, address: int, value: nat, nb: nat, i: nat, j: nat)
    requires value < Pow2(8 * nb) && i < nb && j < 8
    ensures Bit(ByteAt(SetOnOrMem(m, address, value, nb), address + i), j) ==
      (Bit(ByteAt(m, address + i), j) || Bit(value, 8 * (nb - 1 - i) + j))
  {
    var bs := BytesAt(m, address, nb);
    var y := Or(FromBE(bs), value);
    var k := 8 * (nb - 1 - i) + j;
    ByteAtWritten(m, address, ToBE(y, nb), address + i);
    BitOfToBE(y, nb, i, j);
    BitOfOr(FromBE(bs), value, k);
    BitOfFromBE(bs, i, j);
  }

  lemma FromToBE(x: nat, n: nat)
    requires x < Pow2(8 * n)
    ensures FromBE(ToBE(x, n)) == x
  {
    assert Reverse(Reverse(ToLE(x, n))) == ToLE(x, n);
    FromToLE(x, n);
    ModOfSmall(x, Pow2(8 * n));
  }

  lemma OrIdempotent(x: nat, y: nat)
    ensures Or(Or(x, y), y) == Or(x, y)
  {
    forall p: nat
      ensures Bit(Or(Or(x, y), y), p) == Bit(Or(x, y), p)
    {
      BitOfOr(Or(x, y), y, p);
      BitOfOr(x, y, p);
    }
    BitsEqual(Or(Or(x, y), y), Or(x, y));
  }

  /** Applying `set_on_or_bytes` twice with the same mask is applying it once. */
  lemma SetOnOrIdempotent(m: Mem, address: int, value: nat, nb: nat)
    requires value < Pow2(8 * nb)
    ensures SetOnOrMem(SetOnOrMem(m, address, value, nb), address, value, nb) == SetOnOrMem(m, address, value, nb)
  {
    var bs := BytesAt(m, address, nb);
    var y := Or(FromBE(bs), value);
    FromLEBound(Reverse(bs));
    OrBound(FromBE(bs), value, 8 * nb);
    var m' := SetOnOrMem(m, address, value, nb);
    ReadBackWritten(m, address, ToBE(y, nb));
    FromToBE(y, nb);
    OrIdempotent(FromBE(bs), value);
    assert ToBE(Or(FromBE(BytesAt(m', address, nb)), value), nb) == ToBE(y, nb);
    WrittenTwice(m, address, ToBE(y, nb));
  }

  /** Writing one whole byte leaves a different byte's value alone. */
  lemma ByteWriteOther(m: Mem, address: int, value: nat, x: int)
    requires value < 256 && x != address
    ensures Pow2(8) == 256
    ensures ReadValue(SetValueMem(m, address, 0, value, 8, 1), x, 0, 8, 1) == ReadValue(m, x, 0, 8, 1)
  {
    Pow2Of8();
    assert GetBitAddress(address, 0) == (address, 0);
    assert Window(0, 8, 1) == 1;
    SetValueOutside(m, address, 0, value, 8, 1, x);
    SameByteSameRead(m, SetValueMem(m, address, 0, value, 8, 1), x);
  }

  /** A one-byte read depends on that byte alone. */
  lemma SameByteSameRead(m: Mem, m': Mem, x: int)
    requires ByteAt(m, x) == ByteAt(m', x)
    ensures ReadValue(m, x, 0, 8, 1) == ReadValue(m', x, 0, 8, 1)
  {
    forall o: nat | o < 8
      ensures MemBit(m, x, o) == MemBit(m', x, o)
    {
      assert x + o / 8 == x;
    }
    ReadValueDependsOnField(m, m', x, 0, 8, 1, 1);
  }
}
