/** The cog room of DarkIce Mines: for each stage of the cogs, its flag set
    when the cogs were received more than that stage's index times, then the
    flag just below it cleared. */
module CogRoom {
  import opened Memory
  import opened BitHelper
  import opened BitMemory
  import opened ItemTypes

  /** A flag the loop sets, and the flag in the same table it clears next. */
  datatype FlagPair = FlagPair(address: int, offset: int, cleared: int)

  function OnBit(p: FlagPair): (int, nat)
  {
    GetBitAddress(p.address, p.offset)
  }

  function OffBit(p: FlagPair): (int, nat)
  {
    GetBitAddress(p.address, p.cleared)
  }

  /** Each stage paired with the flag just below it. */
  function StagePairs(stages: seq<Stage>): (r: seq<FlagPair>)
    ensures |r| == |stages|
    ensures forall i :: 0 <= i < |r| ==> r[i] == FlagPair(stages[i].address, stages[i].offset, stages[i].offset - 1)
  {
    seq(|stages|, i requires 0 <= i < |stages| => FlagPair(stages[i].address, stages[i].offset, stages[i].offset - 1))
  }

  /** A flag set to `on`, then a second flag cleared. */
  function PairWrite(m: Mem, p: FlagPair, on: bool): Mem
  {
    SetFlagMem(SetFlagMem(m, p.address, p.offset, on), p.address, p.cleared, false)
  }

  /** The pairs written in order, the `k`-th flag on when `count > k`. */
  function PairsMem(m: Mem, pairs: seq<FlagPair>, count: int): Mem
  {
    if |pairs| == 0 then m
    else
      var n := |pairs| - 1;
      PairWrite(PairsMem(m, pairs[..n], count), pairs[n], count > n)
  }

  /** The memory after the cog room loop over the given stages. */
  function CogRoomMem(m: Mem, stages: seq<Stage>, count: int): Mem
  {
    PairsMem(m, StagePairs(stages), count)
  }

  /** No two set flags share a bit, and no cleared flag is a set one. */
  predicate PairsApart(pairs: seq<FlagPair>)
  {
    (forall i, j :: 0 <= i < j < |pairs| ==> OnBit(pairs[i]) != OnBit(pairs[j])) &&
    (forall i, j :: 0 <= i < |pairs| && 0 <= j < |pairs| ==> OffBit(pairs[i]) != OnBit(pairs[j]))
  }

  /** The pairs up to `i + 1` are those up to `i`, then pair `i`. */
  lemma PairsNext(m: Mem, pairs: seq<FlagPair>, count: int, i: nat)
    requires i < |pairs|
    ensures PairsMem(m, pairs[..i + 1], count) == PairWrite(PairsMem(m, pairs[..i], count), pairs[i], count > i)
  {
    var p := pairs[..i + 1];
    assert p[..i] == pairs[..i];
    PairsStep(m, p, count);
  }

  lemma PairsStep(m: Mem, pairs: seq<FlagPair>, count: int)
    requires |pairs| > 0
    ensures PairsMem(m, pairs, count) ==
      PairWrite(PairsMem(m, pairs[..|pairs| - 1], count), pairs[|pairs| - 1], count > |pairs| - 1)
  {
  }

  lemma PrefixPairsApart(pairs: seq<FlagPair>, n: nat)
    requires PairsApart(pairs) && n <= |pairs|
    ensures PairsApart(pairs[..n])
  {
    assert forall i :: 0 <= i < n ==> pairs[..n][i] == pairs[i];
  }

  /** The pair leaves its flag at `on` and its cleared flag off. */
  lemma PairOwn(m: Mem, p: FlagPair, on: bool)
    requires OffBit(p) != OnBit(p)
    ensures FlagBit(PairWrite(m, p, on), p.address, p.offset) == on
    ensures !FlagBit(PairWrite(m, p, on), p.address, p.cleared)
  {
    SetFlagReadBack(m, p.address, p.offset, on);
    SetFlagOther(SetFlagMem(m, p.address, p.offset, on), p.address, p.cleared, false, p.address, p.offset);
    SetFlagReadBack(SetFlagMem(m, p.address, p.offset, on), p.address, p.cleared, false);
  }

  /** The pair leaves alone every bit but its two. */
  lemma PairOther(m: Mem, p: FlagPair, on: bool, address: int, offset: int)
    requires GetBitAddress(address, offset) != OnBit(p) && GetBitAddress(address, offset) != OffBit(p)
    ensures FlagBit(PairWrite(m, p, on), address, offset) == FlagBit(m, address, offset)
  {
    SetFlagOther(m, p.address, p.offset, on, address, offset);
    SetFlagOther(SetFlagMem(m, p.address, p.offset, on), p.address, p.cleared, false, address, offset);
  }

  /** A bit that is off and is not the pair's set flag stays off. */
  lemma PairKeepsOff(m: Mem, p: FlagPair, on: bool, address: int, offset: int)
    requires GetBitAddress(address, offset) != OnBit(p) && !FlagBit(m, address, offset)
    ensures !FlagBit(PairWrite(m, p, on), address, offset)
  {
    SetFlagOther(m, p.address, p.offset, on, address, offset);
    if GetBitAddress(address, offset) == OffBit(p) {
      SetFlagReadBack(SetFlagMem(m, p.address, p.offset, on), p.address, p.cleared, false);
    } else {
      SetFlagOther(SetFlagMem(m, p.address, p.offset, on), p.address, p.cleared, false, address, offset);
    }
  }

  /** A later pair that shares no bit with an earlier one keeps the
      earlier pair's flags. */
  lemma PairKeeps(m: Mem, p: FlagPair, on: bool, q: FlagPair, v: bool)
    requires OnBit(q) != OnBit(p) && OnBit(q) != OffBit(p) && OffBit(q) != OnBit(p)
    requires FlagBit(m, q.address, q.offset) == v && !FlagBit(m, q.address, q.cleared)
    ensures FlagBit(PairWrite(m, p, on), q.address, q.offset) == v
    ensures !FlagBit(PairWrite(m, p, on), q.address, q.cleared)
  {
    PairOther(m, p, on, q.address, q.offset);
    PairKeepsOff(m, p, on, q.address, q.cleared);
  }

  /** When the pairs are apart, flag `k` ends on exactly when `count > k`
      and every cleared flag ends off. */
  lemma {:induction false} PairsFlags(m: Mem, pairs: seq<FlagPair>, count: int, k: int)
    requires PairsApart(pairs) && 0 <= k < |pairs|
    ensures FlagBit(PairsMem(m, pairs, count), pairs[k].address, pairs[k].offset) == (count > k)
    ensures !FlagBit(PairsMem(m, pairs, count), pairs[k].address, pairs[k].cleared)
  {
    var n := |pairs| - 1;
    PairsStep(m, pairs, count);
    if k == n {
      PairOwn(PairsMem(m, pairs[..n], count), pairs[n], count > n);
    } else {
      PrefixPairsApart(pairs, n);
      PairsFlags(m, pairs[..n], count, k);
      assert pairs[..n][k] == pairs[k];
      PairKeeps(PairsMem(m, pairs[..n], count), pairs[n], count > n, pairs[k], count > k);
    }
  }

  /** No pair touches `bit`. */
  predicate PairsAvoid(pairs: seq<FlagPair>, bit: (int, nat))
  {
    forall i :: 0 <= i < |pairs| ==> OnBit(pairs[i]) != bit && OffBit(pairs[i]) != bit
  }

  lemma PrefixPairsAvoid(pairs: seq<FlagPair>, n: nat, bit: (int, nat))
    requires PairsAvoid(pairs, bit) && n <= |pairs|
    ensures PairsAvoid(pairs[..n], bit)
  {
    assert forall i :: 0 <= i < n ==> pairs[..n][i] == pairs[i];
  }

  /** Every flag no pair touches keeps its state. */
  lemma {:induction false} PairsFrame(m: Mem, pairs: seq<FlagPair>, count: int, address: int, offset: int)
    requires PairsAvoid(pairs, GetBitAddress(address, offset))
    ensures FlagBit(PairsMem(m, pairs, count), address, offset) == FlagBit(m, address, offset)
  {
    if |pairs| > 0 {
      var n := |pairs| - 1;
      PairsStep(m, pairs, count);
      PrefixPairsAvoid(pairs, n, GetBitAddress(address, offset));
      PairsFrame(m, pairs[..n], count, address, offset);
      PairOther(PairsMem(m, pairs[..n], count), pairs[n], count > n, address, offset);
    }
  }

  /** In the cog room, stage `k` ends on exactly when the cogs were received
      more than `k` times, and the flag just below it ends off. */
  lemma CogRoomFlags(m: Mem, stages: seq<Stage>, count: int, k: int)
    requires PairsApart(StagePairs(stages)) && 0 <= k < |stages|
    ensures FlagBit(CogRoomMem(m, stages, count), stages[k].address, stages[k].offset) == (count > k)
    ensures !FlagBit(CogRoomMem(m, stages, count), stages[k].address, stages[k].offset - 1)
  {
    PairsFlags(m, StagePairs(stages), count, k);
  }
}
