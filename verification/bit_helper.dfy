/** The pure helpers of the bit module: the list of set flags of a value, a
    bit field of a value, byte-order swapping, the byte and bit of a bit
    offset, zero-padded binary strings and bit-field replacement. */
module BitHelper {
  import opened Binary
  import opened Wrappers

  // ---------------------------------------------------------------------------
  // Zero padding

  /** The smallest multiple of `n` that is at least `len`. */
  function RoundUp(len: nat, n: nat): nat
    requires n >= 1
  {
    if len == 0 then 0 else if len <= n then n else n + RoundUp(len - n, n)
  }

  lemma {:induction false} RoundUpProps(len: nat, n: nat)
    requires n >= 1
    ensures RoundUp(len, n) % n == 0
    ensures len <= RoundUp(len, n) < len + n
  {
    if len > n {
      RoundUpProps(len - n, n);
      DivModUnique(RoundUp(len, n), n, RoundUp(len - n, n) / n + 1, 0);
    } else if len > 0 {
      DivModUnique(n, n, 1, 0);
    }
  }

  lemma {:induction false} RoundUpLeast(len: nat, n: nat, k: nat)
    requires n >= 1 && k % n == 0 && k >= len
    ensures k >= RoundUp(len, n)
  {
    if len > n {
      assert k >= n;
      DivModUnique(k - n, n, k / n - 1, 0);
      RoundUpLeast(len - n, n, k - n);
    } else if len > 0 && k < n {
      DivModUnique(k, n, 0, k);
    }
  }

  /** `bin(x)` without its prefix, with zeros put in front until the length is
      a multiple of `n`. */
  function PaddedString(x: nat, n: nat): (s: string)
    requires n >= 1
    ensures |s| == RoundUp(|Bin(x)|, n)
    ensures IsBits(s) && ParseBin(s) == x
  {
    var b := Bin(x);
    RoundUpProps(|b|, n);
    LeadingZeros(RoundUp(|b|, n) - |b|, b);
    Zeros(RoundUp(|b|, n) - |b|) + b
  }

  /** The padding loop: prepend "0" while the length is not a multiple of `n`. */
  method PaddedStringByte(x: nat, n: nat) returns (s: string)
    requires n >= 1
    ensures s == PaddedString(x, n)
    ensures |s| % n == 0 && ParseBin(s) == x
  {
    var b := Bin(x);
    var target := RoundUp(|b|, n);
    RoundUpProps(|b|, n);
    s := b;
    ghost var k := 0;
    while |s| % n != 0
      invariant |s| == |b| + k <= target
      invariant s == Zeros(k) + b
      decreases target - |s|
    {
      assert |s| != target;
      ZerosSucc(k, b);
      s := "0" + s;
      k := k + 1;
    }
    RoundUpLeast(|b|, n, |s|);
  }

  lemma ZerosSucc(k: nat, b: string)
    ensures "0" + (Zeros(k) + b) == Zeros(k + 1) + b
  {
  }

  lemma MultipleAtLeast(k: nat, n: nat)
    requires n >= 1 && k >= 1 && k % n == 0
    ensures k >= n
  {
    assert k == (k / n) * n;
    MulBounds(k / n, n);
  }

  lemma PaddedLength(x: nat, n: nat)
    requires n >= 1
    ensures |PaddedString(x, n)| % n == 0 && |PaddedString(x, n)| >= n
  {
    var len := |Bin(x)|;
    RoundUpProps(len, n);
    MultipleAtLeast(RoundUp(len, n), n);
  }

  /** A value pads to at most `size` digits exactly when it fits in `size` bits,
      and it then pads to exactly `size` digits. */
  lemma PaddedFits(value: nat, size: nat)
    requires size >= 1
    ensures |PaddedString(value, size)| <= size <==> value < Pow2(size)
    ensures value < Pow2(size) ==> |PaddedString(value, size)| == size
  {
    var len := |Bin(value)|;
    BinaryLength(value, size);
    RoundUpProps(len, size);
    PaddedLength(value, size);
    if len <= size {
      RoundUpLeast(len, size, size);
    }
  }

  // ---------------------------------------------------------------------------
  // Bits of binary strings

  lemma BitsOfString(s: string)
    ensures forall p: nat :: Bit(ParseBin(s), p) <==> p < |s| && s[|s| - 1 - p] == '1'
  {
    forall p: nat
      ensures Bit(ParseBin(s), p) <==> p < |s| && s[|s| - 1 - p] == '1'
    {
      BitOfParseBin(s, p);
    }
  }

  /** The bits of a concatenation: the last part gives the low bits. */
  lemma BitOfConcat3(a: string, b: string, c: string, p: nat)
    ensures Bit(ParseBin(a + b + c), p) ==
      if p < |c| then Bit(ParseBin(c), p)
      else if p < |b| + |c| then Bit(ParseBin(b), p - |c|)
      else Bit(ParseBin(a), p - |b| - |c|)
  {
    var t := a + b + c;
    BitOfParseBin(t, p);
    if p < |c| {
      BitOfParseBin(c, p);
      assert t[|t| - 1 - p] == c[|c| - 1 - p];
    } else if p < |b| + |c| {
      BitOfParseBin(b, p - |c|);
      assert t[|t| - 1 - p] == b[|b| - 1 - (p - |c|)];
    } else {
      BitOfParseBin(a, p - |b| - |c|);
      if p < |t| {
        assert t[|t| - 1 - p] == a[|a| - 1 - (p - |b| - |c|)];
      }
    }
  }

  /** Dropping the first digits keeps the low bits. */
  lemma BitOfSuffix(s: string, k: nat, p: nat)
    requires k <= |s|
    ensures Bit(ParseBin(s[|s| - k..]), p) == (p < k && Bit(ParseBin(s), p))
  {
    BitOfParseBin(s[|s| - k..], p);
    BitOfParseBin(s, p);
  }

  /** Dropping the last digits shifts the value right. */
  lemma BitOfPrefix(s: string, k: nat, p: nat)
    requires k <= |s|
    ensures Bit(ParseBin(s[..k]), p) == Bit(ParseBin(s), p + |s| - k)
  {
    BitOfParseBin(s[..k], p);
    BitOfParseBin(s, p + |s| - k);
  }

  // ---------------------------------------------------------------------------
  // Flags and fields

  /** The positions of the "1" digits, counted from the end, front to back. */
  function Ones(s: string): (r: seq<nat>)
    ensures forall p: nat :: p in r <==> p < |s| && s[|s| - 1 - p] == '1'
    ensures forall i, j :: 0 <= i < j < |r| ==> r[i] > r[j]
    ensures forall i :: 0 <= i < |r| ==> r[i] < |s|
  {
    if s == [] then []
    else (if s[0] == '1' then [|s| - 1] else []) + Ones(s[1..])
  }

  /** The numbers of the bits set in `x`, highest first. */
  function ExtractBitflagList(x: nat): (r: seq<nat>)
    ensures forall p: nat :: p in r <==> Bit(x, p)
    ensures forall i, j :: 0 <= i < j < |r| ==> r[i] > r[j]
  {
    var s := PaddedString(x, 8);
    BitsOfString(s);
    Ones(s)
  }

  lemma FieldBit(x: nat, offset: nat, size: nat, p: nat)
    ensures Bit(Shr(x, offset) % Pow2(size), p) == (p < size && Bit(x, offset + p))
  {
    BitOfMod(Shr(x, offset), size, p);
    BitOfDiv(x, offset, p);
  }

  lemma FieldBits(x: nat, offset: nat, size: nat)
    ensures forall p: nat :: Bit(Shr(x, offset) % Pow2(size), p) == (p < size && Bit(x, offset + p))
  {
    forall p: nat
      ensures Bit(Shr(x, offset) % Pow2(size), p) == (p < size && Bit(x, offset + p))
    {
      FieldBit(x, offset, size, p);
    }
  }

  /** The `size` bits of `x` from bit `offset` upwards, as a number. */
  function ExtractBitsValue(x: nat, offset: nat, size: nat): (r: nat)
    ensures r < Pow2(size)
    ensures forall p: nat :: Bit(r, p) == (p < size && Bit(x, offset + p))
  {
    FieldBits(x, offset, size);
    Shr(x, offset) % Pow2(size)
  }

  // ---------------------------------------------------------------------------
  // Byte order

  /** The `nb`-byte value `x` with its bytes in the opposite order. */
  function SwapEndian(x: nat, nb: nat): (r: nat)
    requires x < Pow2(8 * nb)
    ensures r < Pow2(8 * nb)
    ensures ToLE(r, nb) == Reverse(ToLE(x, nb))
  {
    ToFromLE(Reverse(ToLE(x, nb)));
    FromLEBound(Reverse(ToLE(x, nb)));
    FromBE(ToLE(x, nb))
  }

  lemma SwapEndianInvolution(x: nat, nb: nat)
    requires x < Pow2(8 * nb)
    ensures SwapEndian(SwapEndian(x, nb), nb) == x
  {
    var bs := ToLE(x, nb);
    assert Reverse(Reverse(bs)) == bs;
    FromToLE(x, nb);
    ModOfSmall(x, Pow2(8 * nb));
  }

  /** Swapping a big-endian word gives its bytes read little-endian. */
  lemma SwapEndianOfBE(bs: seq<Byte>)
    ensures FromBE(bs) < Pow2(8 * |bs|)
    ensures SwapEndian(FromBE(bs), |bs|) == FromLE(bs)
  {
    var r := Reverse(bs);
    FromLEBound(r);
    ToFromLE(r);
    assert Reverse(r) == bs;
    var swapped := SwapEndian(FromBE(bs), |bs|);
    assert ToLE(swapped, |bs|) == bs;
    FromToLE(swapped, |bs|);
    ModOfSmall(swapped, Pow2(8 * |bs|));
  }

  // ---------------------------------------------------------------------------
  // Bit addresses

  /** `int(offset / 8)`: division truncated toward zero. */
  function TruncDiv8(offset: int): int
  {
    if offset >= 0 then offset / 8 else -((-offset) / 8)
  }

  /** The byte holding bit `offset` counted from `table`, and the bit inside it. */
  function GetBitAddress(table: int, offset: int): (r: (int, nat))
    ensures r.1 < 8
    ensures offset >= 0 ==> 8 * (r.0 - table) + r.1 == offset
  {
    (table + TruncDiv8(offset), offset % 8)
  }

  /** A byte and bit already split are their own split. */
  lemma BitAddressOfBit(address: int, bp: nat)
    requires bp < 8
    ensures GetBitAddress(address, bp) == (address, bp)
  {
  }

  // ---------------------------------------------------------------------------
  // Bit-field replacement

  /** Where Python's slice bound `k` lands in a string of length `len`. */
  function PyIndex(len: nat, k: int): (i: nat)
    ensures i <= len
    ensures 0 <= k <= len ==> i == k
  {
    if k < 0 then (if len + k < 0 then 0 else len + k) else if k > len then len else k
  }

  /** `s` with the `size` digits that end `start` digits before its end
      replaced by `v`, cut as Python slices `s[:len(s) - start - size]` and
      `s[len(s) - start:]` cut it. */
  function Splice(s: string, start: int, v: string, size: nat): string
  {
    var reversePos := |s| - start;
    s[..PyIndex(|s|, reversePos - size)] + v + s[PyIndex(|s|, reversePos)..]
  }

  /** The padded byte string of `input` with the `size` digits ending
      `start` digits from its end replaced by the padded `value`, read back
      as a number; an error when `value` needs more than `size` digits. */
  function UpdateBits(input: nat, start: int, value: nat, size: nat): (r: Result<nat>)
    requires size >= 1
    ensures r.Ok? <==> value < Pow2(size)
  {
    PaddedFits(value, size);
    var inputStr := PaddedString(input, 8);
    var valueStr := PaddedString(value, size);
    if |valueStr| > size then Err("Value overflowing bits size")
    else Ok(ParseBin(Splice(inputStr, start, valueStr, size)))
  }

  /** The bits of a splice: the low `start` bits of `s`, then `v`, then the
      bits of `s` from where the head slice ends. */
  lemma BitOfSplice(s: string, start: nat, v: string, size: nat, p: nat)
    requires start <= |s| && |v| == size
    ensures Bit(ParseBin(Splice(s, start, v, size)), p) ==
      if p < start then Bit(ParseBin(s), p)
      else if p < start + size then Bit(ParseBin(v), p - start)
      else Bit(ParseBin(s), p - start - size + |s| - PyIndex(|s|, |s| - start - size))
  {
    var c := PyIndex(|s|, |s| - start - size);
    var head, tail := s[..c], s[|s| - start..];
    assert Splice(s, start, v, size) == head + v + tail;
    BitOfConcat3(head, v, tail, p);
    if p < start {
      BitOfSuffix(s, start, p);
    } else if p >= start + size {
      BitOfPrefix(s, c, p - start - size);
    }
  }

  lemma UpdateBitsSplice(input: nat, start: nat, value: nat, size: nat, p: nat)
    requires size >= 1 && start < 8 && value < Pow2(size)
    ensures |PaddedString(input, 8)| >= 8
    ensures Bit(UpdateBits(input, start, value, size).value, p) ==
      if p < start then Bit(input, p)
      else if p < start + size then Bit(value, p - start)
      else Bit(input, p - start - size + |PaddedString(input, 8)|
                      - PyIndex(|PaddedString(input, 8)|, |PaddedString(input, 8)| - start - size))
  {
    PaddedFits(value, size);
    PaddedLength(input, 8);
    UpdateBitsValue(input, start, value, size);
    BitOfSplice(PaddedString(input, 8), start, PaddedString(value, size), size, p);
  }

  lemma UpdateBitsValue(input: nat, start: int, value: nat, size: nat)
    requires size >= 1 && value < Pow2(size)
    ensures UpdateBits(input, start, value, size).value
      == ParseBin(Splice(PaddedString(input, 8), start, PaddedString(value, size), size))
  {
    PaddedFits(value, size);
  }

  /** The bits below the field keep their value and the field holds `value`. */
  lemma UpdateBitsField(input: nat, start: nat, value: nat, size: nat, p: nat)
    requires size >= 1 && start < 8 && value < Pow2(size)
    requires p < start + size
    ensures Bit(UpdateBits(input, start, value, size).value, p) ==
      if p < start then Bit(input, p) else Bit(value, p - start)
  {
    UpdateBitsSplice(input, start, value, size, p);
  }

  /** When the padded input is long enough to hold the field, every bit
      outside the field keeps its value. */
  lemma UpdateBitsAbove(input: nat, start: nat, value: nat, size: nat, p: nat)
    requires size >= 1 && start < 8 && value < Pow2(size)
    requires start + size <= |PaddedString(input, 8)|
    requires p >= start + size
    ensures Bit(UpdateBits(input, start, value, size).value, p) == Bit(input, p)
  {
    UpdateBitsSplice(input, start, value, size, p);
  }

  /** When the input pads to one byte but the field reaches into a second
      byte, every bit above the field is a copy of the input bit eight places
      lower: the padded string is too short, and Python's negative slice
      bound re-reads the input's own top digits. */
  lemma UpdateBitsSpill(input: nat, start: nat, value: nat, size: nat, p: nat)
    requires size >= 1 && start < 8 && value < Pow2(size)
    requires |PaddedString(input, 8)| == 8 < start + size <= 16
    requires p >= start + size
    ensures Bit(UpdateBits(input, start, value, size).value, p) == Bit(input, p - 8)
  {
    UpdateBitsSplice(input, start, value, size, p);
  }

  /** The result never needs more bits than the padded input, or two bytes
      when the field spills out of a one-byte input. */
  lemma UpdateBitsBound(input: nat, start: nat, value: nat, size: nat)
    requires size >= 1 && start < 8 && value < Pow2(size)
    requires start + size <= |PaddedString(input, 8)| || (|PaddedString(input, 8)| == 8 < start + size <= 16)
    ensures UpdateBits(input, start, value, size).value < Pow2(if start + size <= |PaddedString(input, 8)| then |PaddedString(input, 8)| else 16)
  {
    var r := UpdateBits(input, start, value, size).value;
    var n := if start + size <= |PaddedString(input, 8)| then |PaddedString(input, 8)| else 16;
    forall p: nat | p >= n
      ensures !Bit(r, p)
    {
      BitOfParseBin(PaddedString(input, 8), p);
      if start + size <= |PaddedString(input, 8)| {
        UpdateBitsAbove(input, start, value, size, p);
      } else {
        UpdateBitsSpill(input, start, value, size, p);
        BitOfParseBin(PaddedString(input, 8), p - 8);
      }
    }
    BoundFromBits(r, n);
  }

  // ---------------------------------------------------------------------------
  // `update_bits` as evidently intended

  /** `update_bits` with the input padded to `width` digits, the width of the
      window the caller read, instead of to whole bytes of its own value. */
  function UpdateBitsWide(input: nat, start: int, value: nat, size: nat, width: nat): (r: Result<nat>)
    requires size >= 1 && width >= 1
    ensures r.Ok? <==> value < Pow2(size)
  {
    PaddedFits(value, size);
    var inputStr := PaddedString(input, width);
    var valueStr := PaddedString(value, size);
    if |valueStr| > size then Err("Value overflowing bits size")
    else Ok(ParseBin(Splice(inputStr, start, valueStr, size)))
  }

  /** With the input padded to the window's width, the field holds `value`
      and every other bit of the input is kept, whatever the input's top
      bits are. */
  lemma UpdateBitsWideBits(input: nat, start: nat, value: nat, size: nat, width: nat, p: nat)
    requires size >= 1 && value < Pow2(size)
    requires input < Pow2(width) && start + size <= width
    ensures Bit(UpdateBitsWide(input, start, value, size, width).value, p) ==
      if start <= p < start + size then Bit(value, p - start) else Bit(input, p)
  {
    PaddedFits(value, size);
    PaddedFits(input, width);
    BitOfSplice(PaddedString(input, width), start, PaddedString(value, size), size, p);
  }
}
