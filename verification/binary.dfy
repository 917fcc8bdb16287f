/** Natural-number bit arithmetic, binary digit strings and byte sequences.

    These are the Python integer operations the client's bit helpers are built
    from: `>>` and `&` (division and remainder by a power of two), `|` (Or),
    `bin(x)` (Binary), `int(s, 2)` (ParseBin), and `int.from_bytes` /
    `int.to_bytes` (FromLE, ToLE, FromBE, ToBE). Bits are numbered from the
    least significant one, bit 0. */
module Binary {

  function Pow2(n: nat): (r: nat)
    ensures r >= 1
  {
    if n == 0 then 1 else 2 * Pow2(n - 1)
  }

  /** Bit `p` of `x`; bit 0 is the least significant one. */
  predicate Bit(x: nat, p: nat)
  {
    if p == 0 then x % 2 == 1 else Bit(x / 2, p - 1)
  }

  lemma Pow2Add(a: nat, b: nat)
    ensures Pow2(a + b) == Pow2(a) * Pow2(b)
  {
    if a > 0 {
      Pow2Add(a - 1, b);
      assert Pow2(a + b) == 2 * (Pow2(a - 1) * Pow2(b));
    }
  }

  lemma Pow2Monotone(a: nat, b: nat)
    requires a <= b
    ensures Pow2(a) <= Pow2(b)
  {
    if a < b {
      Pow2Monotone(a, b - 1);
    }
  }

  lemma Pow2Of8()
    ensures Pow2(8) == 256
  {
    assert Pow2(1) == 2;
    assert Pow2(2) == 4;
    assert Pow2(3) == 8;
    assert Pow2(4) == 16;
    assert Pow2(5) == 32;
    assert Pow2(6) == 64;
    assert Pow2(7) == 128;
  }

  lemma MulBounds(k: int, d: int)
    requires d > 0
    ensures k >= 1 ==> k * d >= d
    ensures k <= -1 ==> k * d <= -d
  {
  }

  lemma DivNonNegative(x: int, d: int)
    requires x >= 0 && d > 0
    ensures x / d >= 0
  {
    MulBounds(x / d, d);
  }

  /** Python's `x >> k`. */
  function Shr(x: nat, k: nat): nat
  {
    DivNonNegative(x, Pow2(k));
    x / Pow2(k)
  }

  lemma DivModUnique(x: int, d: int, q: int, r: int)
    requires d > 0 && 0 <= r < d && x == q * d + r
    ensures x / d == q && x % d == r
  {
    var q', r' := x / d, x % d;
    assert (q - q') * d == r' - r;
    MulBounds(q - q', d);
  }

  /** Dividing by `a * b` is dividing by `a` and then by `b`. */
  lemma DivModMul(x: nat, a: nat, b: nat)
    requires a > 0 && b > 0
    ensures x / (a * b) == (x / a) / b
    ensures x % (a * b) == a * ((x / a) % b) + x % a
  {
    var q, r := (x / a) / b, (x / a) % b;
    assert x / a == q * b + r;
    assert x == a * (x / a) + x % a;
    assert x == q * (a * b) + (a * r + x % a) by {
      assert a * (q * b + r) == q * (a * b) + a * r;
    }
    assert a * r + x % a < a * b by {
      assert r <= b - 1;
      assert a * r <= a * (b - 1);
    }
    DivModUnique(x, a * b, q, a * r + x % a);
  }

  lemma BitOfZero(p: nat)
    ensures !Bit(0, p)
  {
    if p > 0 {
      BitOfZero(p - 1);
    }
  }

  /** Shifting right by `k` moves bit `k + p` to position `p`. */
  lemma {:induction false} BitOfDiv(x: nat, k: nat, p: nat)
    ensures Bit(Shr(x, k), p) == Bit(x, k + p)
  {
    if k > 0 {
      DivModMul(x, 2, Pow2(k - 1));
      BitOfDiv(x / 2, k - 1, p);
    }
  }

  /** Keeping the low `k` bits keeps exactly the bits below `k`. */
  lemma {:induction false} BitOfMod(x: nat, k: nat, p: nat)
    ensures Bit(x % Pow2(k), p) == (p < k && Bit(x, p))
  {
    if k == 0 {
      BitOfZero(p);
    } else {
      DivModMul(x, 2, Pow2(k - 1));
      var y := (x / 2) % Pow2(k - 1);
      assert x % Pow2(k) == 2 * y + x % 2;
      if p > 0 {
        assert (2 * y + x % 2) / 2 == y;
        BitOfMod(x / 2, k - 1, p - 1);
      }
    }
  }

  /** Two numbers with the same bits are equal. */
  lemma {:induction false} BitsEqual(x: nat, y: nat)
    requires forall p: nat :: Bit(x, p) == Bit(y, p)
    ensures x == y
    decreases x + y
  {
    if x != y {
      assert Bit(x, 0) == Bit(y, 0);
      forall p: nat
        ensures Bit(x / 2, p) == Bit(y / 2, p)
      {
        assert Bit(x, p + 1) == Bit(y, p + 1);
      }
      BitsEqual(x / 2, y / 2);
    }
  }

  lemma {:induction false} BitAbove(x: nat, n: nat, p: nat)
    requires x < Pow2(n) && p >= n
    ensures !Bit(x, p)
  {
    if n == 0 {
      BitOfZero(p);
    } else {
      BitAbove(x / 2, n - 1, p - 1);
    }
  }

  lemma BoundFromBits(x: nat, n: nat)
    requires forall p: nat :: p >= n ==> !Bit(x, p)
    ensures x < Pow2(n)
  {
    forall p: nat
      ensures Bit(x % Pow2(n), p) == Bit(x, p)
    {
      BitOfMod(x, n, p);
    }
    BitsEqual(x % Pow2(n), x);
  }

  /** A number is below `2^n` exactly when it has no bit at or above `n`. */
  lemma BoundByBits(x: nat, n: nat)
    ensures x < Pow2(n) ==> forall p: nat :: p >= n ==> !Bit(x, p)
    ensures (forall p: nat :: p >= n ==> !Bit(x, p)) ==> x < Pow2(n)
  {
    if x < Pow2(n) {
      forall p: nat | p >= n
        ensures !Bit(x, p)
      {
        BitAbove(x, n, p);
      }
    } else if forall p: nat :: p >= n ==> !Bit(x, p) {
      BoundFromBits(x, n);
    }
  }

  /** `lo + 2^k * hi` has the bits of `lo` below `k` and those of `hi` above. */
  lemma BitOfConcat(lo: nat, hi: nat, k: nat, p: nat)
    requires lo < Pow2(k)
    ensures Bit(lo + Pow2(k) * hi, p) == if p < k then Bit(lo, p) else Bit(hi, p - k)
  {
    var v := lo + Pow2(k) * hi;
    DivModUnique(v, Pow2(k), hi, lo);
    if p < k {
      BitOfMod(v, k, p);
      BitOfMod(lo, k, p);
      DivModUnique(lo, Pow2(k), 0, lo);
    } else {
      BitOfDiv(v, k, p - k);
    }
  }

  /** Python's `x | y` on non-negative integers. */
  function Or(x: nat, y: nat): nat
    decreases x + y
  {
    if x == 0 && y == 0 then 0
    else 2 * Or(x / 2, y / 2) + (if x % 2 == 1 || y % 2 == 1 then 1 else 0)
  }

  lemma {:induction false} BitOfOr(x: nat, y: nat, p: nat)
    ensures Bit(Or(x, y), p) == (Bit(x, p) || Bit(y, p))
    decreases x + y
  {
    if x == 0 && y == 0 {
      BitOfZero(p);
    } else if p > 0 {
      var b := if x % 2 == 1 || y % 2 == 1 then 1 else 0;
      assert (2 * Or(x / 2, y / 2) + b) / 2 == Or(x / 2, y / 2);
      BitOfOr(x / 2, y / 2, p - 1);
    }
  }

  /** `x` with bit `p` replaced by `value`. */
  function WithBit(x: nat, p: nat, value: bool): nat
    decreases p
  {
    if p == 0 then x / 2 * 2 + (if value then 1 else 0)
    else 2 * WithBit(x / 2, p - 1, value) + x % 2
  }

  lemma {:induction false} BitOfWithBit(x: nat, p: nat, value: bool, i: nat)
    ensures Bit(WithBit(x, p, value), i) == if i == p then value else Bit(x, i)
    decreases p
  {
    if p == 0 {
      if i > 0 {
        assert WithBit(x, p, value) / 2 == x / 2;
      }
    } else {
      var w := WithBit(x / 2, p - 1, value);
      assert WithBit(x, p, value) == 2 * w + x % 2;
      assert (2 * w + x % 2) / 2 == w;
      if i > 0 {
        BitOfWithBit(x / 2, p - 1, value, i - 1);
      }
    }
  }

  /** Replacing a bit below `n` keeps a number below `2^n`. */
  lemma WithBitBound(x: nat, p: nat, value: bool, n: nat)
    requires x < Pow2(n) && p < n
    ensures WithBit(x, p, value) < Pow2(n)
  {
    forall i: nat | i >= n
      ensures !Bit(WithBit(x, p, value), i)
    {
      BitOfWithBit(x, p, value, i);
      BitAbove(x, n, i);
    }
    BoundFromBits(WithBit(x, p, value), n);
  }

  // ---------------------------------------------------------------------------
  // Binary digit strings, most significant digit first

  predicate IsBits(s: string)
  {
    forall i :: 0 <= i < |s| ==> s[i] == '0' || s[i] == '1'
  }

  function Digit(b: bool): char
  {
    if b then '1' else '0'
  }

  function Zeros(k: nat): (z: string)
    ensures |z| == k && forall i :: 0 <= i < k ==> z[i] == '0'
  {
    seq(k, _ => '0')
  }

  /** Python's `int(s, 2)` on a string of binary digits. */
  function ParseBin(s: string): nat
  {
    if s == [] then 0 else 2 * ParseBin(s[..|s| - 1]) + (if s[|s| - 1] == '1' then 1 else 0)
  }

  /** The digit `|s| - 1 - p` of a binary string is bit `p` of its value. */
  lemma {:induction false} BitOfParseBin(s: string, p: nat)
    ensures Bit(ParseBin(s), p) == (p < |s| && s[|s| - 1 - p] == '1')
  {
    if s == [] {
      BitOfZero(p);
    } else if p > 0 {
      var b := if s[|s| - 1] == '1' then 1 else 0;
      assert (2 * ParseBin(s[..|s| - 1]) + b) / 2 == ParseBin(s[..|s| - 1]);
      BitOfParseBin(s[..|s| - 1], p - 1);
    }
  }

  lemma {:induction false} ParseBinBound(s: string)
    ensures ParseBin(s) < Pow2(|s|)
  {
    if s != [] {
      ParseBinBound(s[..|s| - 1]);
    }
  }

  /** Python's `bin(x)` without its "0b" prefix: the shortest binary string of `x`. */
  function Bin(x: nat): (s: string)
    ensures IsBits(s) && |s| >= 1
    ensures ParseBin(s) == x
    ensures x > 0 ==> s[0] == '1'
  {
    if x < 2 then [Digit(x == 1)]
    else
      var s := Bin(x / 2) + [Digit(x % 2 == 1)];
      assert s[..|s| - 1] == Bin(x / 2);
      s
  }

  /** `bin(x)` has at most `n` digits exactly when `x < 2^n`. */
  lemma {:induction false} BinaryLength(x: nat, n: nat)
    requires n >= 1
    ensures |Bin(x)| <= n <==> x < Pow2(n)
  {
    if x >= 2 {
      if n == 1 {
        assert Pow2(1) == 2;
      } else {
        BinaryLength(x / 2, n - 1);
      }
    } else {
      Pow2Monotone(1, n);
      assert Pow2(1) == 2;
    }
  }

  /** Leading zeros do not change the value of a binary string. */
  lemma LeadingZeros(k: nat, s: string)
    ensures ParseBin(Zeros(k) + s) == ParseBin(s)
  {
    var t := Zeros(k) + s;
    forall p: nat
      ensures Bit(ParseBin(t), p) == Bit(ParseBin(s), p)
    {
      BitOfParseBin(t, p);
      BitOfParseBin(s, p);
      if p < |s| {
        assert t[|t| - 1 - p] == s[|s| - 1 - p];
      }
    }
    BitsEqual(ParseBin(t), ParseBin(s));
  }

  // ---------------------------------------------------------------------------
  // Bytes

  type Byte = b: int | 0 <= b < 256

  /** `int.from_bytes(bs, "little")`. */
  function FromLE(bs: seq<Byte>): nat
  {
    if bs == [] then 0 else bs[0] + 256 * FromLE(bs[1..])
  }

  /** The `n` low-order bytes of `v`, least significant first; it is
      `v.to_bytes(n, "little")` whenever `v < 2^(8n)`. */
  function ToLE(v: nat, n: nat): (bs: seq<Byte>)
    ensures |bs| == n
  {
    if n == 0 then [] else [v % 256] + ToLE(v / 256, n - 1)
  }

  function Reverse<T>(s: seq<T>): (r: seq<T>)
    ensures |r| == |s| && forall i :: 0 <= i < |s| ==> r[i] == s[|s| - 1 - i]
  {
    seq(|s|, i requires 0 <= i < |s| => s[|s| - 1 - i])
  }

  /** `int.from_bytes(bs, "big")`: the bytes read most significant first. */
  function FromBE(bs: seq<Byte>): nat
  {
    FromLE(Reverse(bs))
  }

  /** `v.to_bytes(n, "big")` whenever `v < 2^(8n)`. */
  function ToBE(v: nat, n: nat): (bs: seq<Byte>)
    ensures |bs| == n
  {
    Reverse(ToLE(v, n))
  }

  lemma ByteBits(b: Byte, p: nat)
    requires p >= 8
    ensures !Bit(b, p)
  {
    Pow2Of8();
    BitAbove(b, 8, p);
  }

  /** Bit `p` of a little-endian value is bit `p % 8` of byte `p / 8`. */
  lemma {:induction false} BitOfFromLE(bs: seq<Byte>, p: nat)
    ensures Bit(FromLE(bs), p) == (p < 8 * |bs| && Bit(bs[p / 8], p % 8))
  {
    if bs == [] {
      BitOfZero(p);
    } else {
      Pow2Of8();
      BitOfConcat(bs[0], FromLE(bs[1..]), 8, p);
      if p >= 8 {
        BitOfFromLE(bs[1..], p - 8);
        assert (p - 8) / 8 == p / 8 - 1 && (p - 8) % 8 == p % 8;
      }
    }
  }

  lemma {:induction false} BitOfToLE(v: nat, n: nat, k: nat, j: nat)
    requires k < n && j < 8
    ensures Bit(ToLE(v, n)[k], j) == Bit(v, 8 * k + j)
  {
    Pow2Of8();
    if k == 0 {
      BitOfMod(v, 8, j);
    } else {
      BitOfToLE(v / 256, n - 1, k - 1, j);
      BitOfDiv(v, 8, 8 * (k - 1) + j);
    }
  }

  /** Byte `i` of a big-endian sequence holds bits `8*(|bs|-1-i)` upward. */
  lemma BitOfFromBE(bs: seq<Byte>, i: nat, j: nat)
    requires i < |bs| && j < 8
    ensures Bit(FromBE(bs), 8 * (|bs| - 1 - i) + j) == Bit(bs[i], j)
  {
    var k := 8 * (|bs| - 1 - i) + j;
    BitOfFromLE(Reverse(bs), k);
    assert k / 8 == |bs| - 1 - i && k % 8 == j;
  }

  lemma BitOfToBE(v: nat, n: nat, i: nat, j: nat)
    requires i < n && j < 8
    ensures Bit(ToBE(v, n)[i], j) == Bit(v, 8 * (n - 1 - i) + j)
  {
    BitOfToLE(v, n, n - 1 - i, j);
  }

  lemma FromLEBound(bs: seq<Byte>)
    ensures FromLE(bs) < Pow2(8 * |bs|)
  {
    forall p: nat | p >= 8 * |bs|
      ensures !Bit(FromLE(bs), p)
    {
      BitOfFromLE(bs, p);
    }
    BoundByBits(FromLE(bs), 8 * |bs|);
  }

  /** Writing the low `n` bytes and reading them back keeps the value modulo `2^(8n)`. */
  lemma FromToLE(v: nat, n: nat)
    ensures FromLE(ToLE(v, n)) == v % Pow2(8 * n)
  {
    forall p: nat
      ensures Bit(FromLE(ToLE(v, n)), p) == Bit(v % Pow2(8 * n), p)
    {
      BitOfFromLE(ToLE(v, n), p);
      BitOfMod(v, 8 * n, p);
      if p < 8 * n {
        BitOfToLE(v, n, p / 8, p % 8);
      }
    }
    BitsEqual(FromLE(ToLE(v, n)), v % Pow2(8 * n));
  }

  lemma BitOfToFromLE(bs: seq<Byte>, k: nat, j: nat)
    requires k < |bs|
    ensures Bit(ToLE(FromLE(bs), |bs|)[k], j) == Bit(bs[k], j)
  {
    if j < 8 {
      BitOfToLE(FromLE(bs), |bs|, k, j);
      BitOfFromLE(bs, 8 * k + j);
      assert (8 * k + j) / 8 == k && (8 * k + j) % 8 == j;
    } else {
      ByteBits(ToLE(FromLE(bs), |bs|)[k], j);
      ByteBits(bs[k], j);
    }
  }

  lemma ByteOfToFromLE(bs: seq<Byte>, k: nat)
    requires k < |bs|
    ensures ToLE(FromLE(bs), |bs|)[k] == bs[k]
  {
    forall j: nat
      ensures Bit(ToLE(FromLE(bs), |bs|)[k], j) == Bit(bs[k], j)
    {
      BitOfToFromLE(bs, k, j);
    }
    BitsEqual(ToLE(FromLE(bs), |bs|)[k], bs[k]);
  }

  lemma ToFromLE(bs: seq<Byte>)
    ensures ToLE(FromLE(bs), |bs|) == bs
  {
    forall k | 0 <= k < |bs|
      ensures ToLE(FromLE(bs), |bs|)[k] == bs[k]
    {
      ByteOfToFromLE(bs, k);
    }
  }

  lemma ModOfSmall(v: nat, m: nat)
    requires v < m
    ensures v % m == v
  {
    DivModUnique(v, m, 0, v);
  }
}
