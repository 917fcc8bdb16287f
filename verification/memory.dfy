/** The console's memory as the client reaches it through the Dolphin memory
    engine: a map from address to byte, where an address never written reads
    as zero, and a `Dolphin` object whose `ram` the client reads and writes. */
module Memory {
  import opened Binary

  type Mem = map<int, Byte>

  function ByteAt(m: Mem, a: int): Byte
  {
    if a in m then m[a] else 0
  }

  /** The `n` bytes from address `a` upwards. */
  function BytesAt(m: Mem, a: int, n: nat): (bs: seq<Byte>)
    ensures |bs| == n
    ensures forall i :: 0 <= i < n ==> bs[i] == ByteAt(m, a + i)
  {
    seq<Byte>(n, i => ByteAt(m, a + i))
  }

  /** `m` with `bs` stored from address `a` upwards, one byte at a time. */
  function Written(m: Mem, a: int, bs: seq<Byte>): Mem
    decreases |bs|
  {
    if |bs| == 0 then m else Written(m[a := bs[0]], a + 1, bs[1..])
  }

  /** Reading after a write sees the written bytes and, elsewhere, the old ones. */
  lemma {:induction false} ByteAtWritten(m: Mem, a: int, bs: seq<Byte>, x: int)
    ensures ByteAt(Written(m, a, bs), x) == if a <= x < a + |bs| then bs[x - a] else ByteAt(m, x)
    decreases |bs|
  {
    if |bs| > 0 {
      ByteAtWritten(m[a := bs[0]], a + 1, bs[1..], x);
    }
  }

  lemma {:induction false} WrittenKeys(m: Mem, a: int, bs: seq<Byte>, x: int)
    ensures x in Written(m, a, bs) <==> x in m || a <= x < a + |bs|
    decreases |bs|
  {
    if |bs| > 0 {
      WrittenKeys(m[a := bs[0]], a + 1, bs[1..], x);
    }
  }

  /** Writing the same bytes twice is writing them once. */
  lemma WrittenTwice(m: Mem, a: int, bs: seq<Byte>)
    ensures Written(Written(m, a, bs), a, bs) == Written(m, a, bs)
  {
    var once, twice := Written(m, a, bs), Written(Written(m, a, bs), a, bs);
    forall x
      ensures x in twice <==> x in once
      ensures x in once ==> twice[x] == once[x]
    {
      WrittenKeys(m, a, bs, x);
      WrittenKeys(once, a, bs, x);
      ByteAtWritten(m, a, bs, x);
      ByteAtWritten(once, a, bs, x);
    }
  }

  lemma ReadBackWritten(m: Mem, a: int, bs: seq<Byte>)
    ensures BytesAt(Written(m, a, bs), a, |bs|) == bs
  {
    forall i | 0 <= i < |bs|
      ensures ByteAt(Written(m, a, bs), a + i) == bs[i]
    {
      ByteAtWritten(m, a, bs, a + i);
    }
  }

  /** The emulator connection: the game's memory, read and written byte-wise. */
  class Dolphin {
    var ram: Mem

    constructor(init: Mem)
      ensures ram == init
    {
      ram := init;
    }

    method ReadByte(a: int) returns (b: Byte)
      ensures b == ByteAt(ram, a)
    {
      b := ByteAt(ram, a);
    }

    method ReadBytes(a: int, n: nat) returns (bs: seq<Byte>)
      ensures bs == BytesAt(ram, a, n)
    {
      bs := BytesAt(ram, a, n);
    }

    /** A 32-bit word, stored most significant byte first as on the console. */
    method ReadWord(a: int) returns (w: nat)
      ensures w == FromBE(BytesAt(ram, a, 4))
    {
      w := FromBE(BytesAt(ram, a, 4));
    }

    method WriteByte(a: int, b: Byte)
      modifies this
      ensures ram == Written(old(ram), a, [b])
    {
      ram := Written(ram, a, [b]);
    }

    method WriteBytes(a: int, bs: seq<Byte>)
      modifies this
      ensures ram == Written(old(ram), a, bs)
    {
      ram := Written(ram, a, bs);
    }
  }
}
