/** A list of flags forced to given states one after the other, as
    `force_gameflags` does with its starting and constant flags and the
    DarkIce Mines handler with the cog locations. */
module FlagLists {
  import opened Memory
  import opened BitHelper
  import opened BitMemory

  /** A flag and the state it is forced to. */
  datatype ForcedFlag = ForcedFlag(tableAddress: int, bitOffset: int, state: bool)

  /** The memory bit a forced flag lives in. */
  function ForcedBit(f: ForcedFlag): (int, nat)
  {
    GetBitAddress(f.tableAddress, f.bitOffset)
  }

  /** `set_flag_bit` for each entry, in order. */
  function SetFlags(m: Mem, flags: seq<ForcedFlag>): Mem
  {
    if |flags| == 0 then m
    else
      var n := |flags| - 1;
      SetFlagMem(SetFlags(m, flags[..n]), flags[n].tableAddress, flags[n].bitOffset, flags[n].state)
  }

  /** The entries up to `i + 1` are those up to `i`, then entry `i`. */
  lemma SetFlagsNext(m: Mem, flags: seq<ForcedFlag>, i: nat)
    requires i < |flags|
    ensures SetFlags(m, flags[..i + 1]) == SetFlagMem(SetFlags(m, flags[..i]), flags[i].tableAddress, flags[i].bitOffset, flags[i].state)
  {
    var p := flags[..i + 1];
    assert p[..i] == flags[..i];
    SetFlagsStep(m, p);
  }

  /** No two entries share a bit. */
  predicate FlagBitsDistinct(flags: seq<ForcedFlag>)
  {
    forall i, j :: 0 <= i < j < |flags| ==> ForcedBit(flags[i]) != ForcedBit(flags[j])
  }

  /** The last entry is written after all the others. */
  lemma SetFlagsStep(m: Mem, flags: seq<ForcedFlag>)
    requires |flags| > 0
    ensures SetFlags(m, flags) == SetFlagMem(SetFlags(m, flags[..|flags| - 1]),
      flags[|flags| - 1].tableAddress, flags[|flags| - 1].bitOffset, flags[|flags| - 1].state)
  {
  }

  lemma PrefixFlagsDistinct(flags: seq<ForcedFlag>, n: nat)
    requires FlagBitsDistinct(flags) && n <= |flags|
    ensures FlagBitsDistinct(flags[..n])
  {
    forall i, j | 0 <= i < j < n
      ensures ForcedBit(flags[..n][i]) != ForcedBit(flags[..n][j])
    {
      assert flags[..n][i] == flags[i] && flags[..n][j] == flags[j];
    }
  }

  lemma PrefixFlagsAvoid(flags: seq<ForcedFlag>, n: nat, bit: (int, nat))
    requires n <= |flags|
    requires forall i :: 0 <= i < |flags| ==> ForcedBit(flags[i]) != bit
    ensures forall i :: 0 <= i < n ==> ForcedBit(flags[..n][i]) != bit
  {
    assert forall i :: 0 <= i < n ==> flags[..n][i] == flags[i];
  }

  /** When no two entries share a bit, each ends in its own state. */
  lemma {:induction false} SetFlagsFlag(m: Mem, flags: seq<ForcedFlag>, k: int)
    requires FlagBitsDistinct(flags) && 0 <= k < |flags|
    ensures FlagBit(SetFlags(m, flags), flags[k].tableAddress, flags[k].bitOffset) == flags[k].state
  {
    var n := |flags| - 1;
    SetFlagsStep(m, flags);
    if k == n {
      SetFlagReadBack(SetFlags(m, flags[..n]), flags[n].tableAddress, flags[n].bitOffset, flags[n].state);
    } else {
      PrefixFlagsDistinct(flags, n);
      SetFlagsFlag(m, flags[..n], k);
      assert flags[..n][k] == flags[k];
      assert ForcedBit(flags[k]) != ForcedBit(flags[n]);
      SetFlagOther(SetFlags(m, flags[..n]), flags[n].tableAddress, flags[n].bitOffset, flags[n].state,
        flags[k].tableAddress, flags[k].bitOffset);
    }
  }

  /** Every flag no entry names keeps its state. */
  lemma {:induction false} SetFlagsFrame(m: Mem, flags: seq<ForcedFlag>, address: int, offset: int)
    requires forall i :: 0 <= i < |flags| ==> ForcedBit(flags[i]) != GetBitAddress(address, offset)
    ensures FlagBit(SetFlags(m, flags), address, offset) == FlagBit(m, address, offset)
  {
    if |flags| > 0 {
      var n := |flags| - 1;
      SetFlagsStep(m, flags);
      PrefixFlagsAvoid(flags, n, GetBitAddress(address, offset));
      SetFlagsFrame(m, flags[..n], address, offset);
      assert ForcedBit(flags[n]) != GetBitAddress(address, offset);
      SetFlagOther(SetFlags(m, flags[..n]), flags[n].tableAddress, flags[n].bitOffset, flags[n].state, address, offset);
    }
  }

  /** Forcing a bit on never turns another bit off. */
  lemma SetFlagKeepsOn(m: Mem, address: int, offset: int, address': int, offset': int)
    requires FlagBit(m, address', offset')
    ensures FlagBit(SetFlagMem(m, address, offset, true), address', offset')
  {
    if GetBitAddress(address, offset) == GetBitAddress(address', offset') {
      SetFlagReadBack(m, address, offset, true);
    } else {
      SetFlagOther(m, address, offset, true, address', offset');
    }
  }

  /** When every entry forces its flag on, every entry's flag ends on, even
      where two entries share a bit. */
  lemma {:induction false} SetFlagsAllOn(m: Mem, flags: seq<ForcedFlag>, k: int)
    requires forall i :: 0 <= i < |flags| ==> flags[i].state
    requires 0 <= k < |flags|
    ensures FlagBit(SetFlags(m, flags), flags[k].tableAddress, flags[k].bitOffset)
  {
    var n := |flags| - 1;
    SetFlagsStep(m, flags);
    if k == n {
      SetFlagReadBack(SetFlags(m, flags[..n]), flags[n].tableAddress, flags[n].bitOffset, true);
    } else {
      assert forall i :: 0 <= i < n ==> flags[..n][i] == flags[i];
      SetFlagsAllOn(m, flags[..n], k);
      assert flags[..n][k] == flags[k];
      SetFlagKeepsOn(SetFlags(m, flags[..n]), flags[n].tableAddress, flags[n].bitOffset,
        flags[k].tableAddress, flags[k].bitOffset);
    }
  }
}
