/** `force_gameflags`: on the first poll after leaving the main menu, the
    item-map and tutorial masks, the starting flags and a replay of every
    received item; then, on every poll, the constant flags and the bomb
    spore's flag. */
module GameFlags {
  import opened Binary
  import opened Memory
  import opened BitHelper
  import opened BitMemory
  import opened Addresses
  import opened FlagLists
  import Items
  import opened ItemDelivery

  /** The table-2 flag of the bomb spore, forced on every poll. */
  const BombSporeOffset := 0x77

  lemma MasksFit()
    ensures ItemMapInitValue < Pow2(8 * 3) && SkipTutoValue < Pow2(8 * 2)
  {
    Pow2Add(8, 16);
    Pow2Add(8, 8);
    Pow2Of8();
  }

  /** The writes on leaving the main menu, before the replay: the item-map
      mask OR-ed into its three bytes, the tutorial mask into its two, then
      the starting flags in order. */
  function StartingWrites(m: Mem, starting: seq<ForcedFlag>): Mem
  {
    SetFlags(TutoWrite(ItemMapWrite(m)), starting)
  }

  /** `set_on_or_bytes` of the item-map mask. */
  function ItemMapWrite(m: Mem): Mem
  {
    MasksFit();
    SetOnOrMem(m, ItemMapAddress, ItemMapInitValue, 3)
  }

  /** `set_on_or_bytes` of the tutorial mask. */
  function TutoWrite(m: Mem): Mem
  {
    MasksFit();
    SetOnOrMem(m, SkipTutoAddress, SkipTutoValue, 2)
  }

  /** The writes of every poll: the constant flags in order, then the bomb
      spore's flag on. */
  function ConstantWrites(m: Mem, constant: seq<ForcedFlag>): Mem
  {
    SetFlagMem(SetFlags(m, constant), T2Address, BombSporeOffset, true)
  }

  /** Whether this poll is the first one away from the main menu. */
  predicate LeavesMenu(m: Mem, storedMap: int)
  {
    storedMap != ByteAt(m, MapIdAddress) && storedMap == MapMainMenu
  }

  /** One run over the session's record `d` (nothing handed over yet) and
      the expected index: the record after the run and the new index. On
      leaving the main menu the index restarts at 0 and every received id is
      handed over again; a hand-over that raises ends the run there. */
  function ForceGameflags(d: Delivery, expectedIdx: nat, storedMap: int, received: seq<int>,
                          starting: seq<ForcedFlag>, constant: seq<ForcedFlag>): (Delivery, nat)
  {
    if LeavesMenu(d.ram, storedMap) then
      var r := Deliver(d.(ram := StartingWrites(d.ram, starting)), storedMap, Pending(received, 0));
      (if r.raised then r else r.(ram := ConstantWrites(r.ram, constant)), r.delivered)
    else (d.(ram := ConstantWrites(d.ram, constant)), expectedIdx)
  }

  /** After the constant writes every constant flag holds its state (when no
      two share a bit and none is the bomb spore's), and the bomb spore's flag
      is on. */
  lemma ConstantFlagsHold(m: Mem, constant: seq<ForcedFlag>, k: int)
    requires FlagBitsDistinct(constant) && 0 <= k < |constant|
    requires ForcedBit(constant[k]) != GetBitAddress(T2Address, BombSporeOffset)
    ensures FlagBit(ConstantWrites(m, constant), constant[k].tableAddress, constant[k].bitOffset) == constant[k].state
    ensures FlagBit(ConstantWrites(m, constant), T2Address, BombSporeOffset)
  {
    SetFlagsFlag(m, constant, k);
    SetFlagOther(SetFlags(m, constant), T2Address, BombSporeOffset, true, constant[k].tableAddress, constant[k].bitOffset);
    SetFlagReadBack(SetFlags(m, constant), T2Address, BombSporeOffset, true);
  }

  /** A flag the constant list does not name, other than the bomb spore's,
      keeps its state. */
  lemma ConstantWritesFrame(m: Mem, constant: seq<ForcedFlag>, address: int, offset: int)
    requires forall i :: 0 <= i < |constant| ==> ForcedBit(constant[i]) != GetBitAddress(address, offset)
    requires GetBitAddress(address, offset) != GetBitAddress(T2Address, BombSporeOffset)
    ensures FlagBit(ConstantWrites(m, constant), address, offset) == FlagBit(m, address, offset)
  {
    SetFlagsFrame(m, constant, address, offset);
    SetFlagOther(SetFlags(m, constant), T2Address, BombSporeOffset, true, address, offset);
  }

  /** The masks are OR-ed in: each bit of the item-map mask ends on and every
      bit already on stays on (the last of the three bytes holds the mask's
      lowest eight bits). */
  lemma ItemMapMaskSet(m: Mem, i: nat, j: nat)
    requires i < 3 && j < 8
    ensures Bit(ByteAt(ItemMapWrite(m), ItemMapAddress + i), j) ==
      (Bit(ByteAt(m, ItemMapAddress + i), j) || Bit(ItemMapInitValue, 8 * (2 - i) + j))
  {
    MasksFit();
    SetOnOrBits(m, ItemMapAddress, ItemMapInitValue, 3, i, j);
  }

  /** On leaving the main menu every received id is handed over again from
      index 0: with every id in the catalog nothing raises, all of them are
      appended once more to the ids received, and the index ends at the end
      of the list. */
  lemma ReplayOnLeavingMenu(d: Delivery, expectedIdx: nat, storedMap: int, received: seq<int>,
                            starting: seq<ForcedFlag>, constant: seq<ForcedFlag>)
    requires !d.raised && d.delivered == 0 && LeavesMenu(d.ram, storedMap)
    requires forall i :: 0 <= i < |received| ==> Items.GetById(received[i]).Some?
    ensures var r := ForceGameflags(d, expectedIdx, storedMap, received, starting, constant);
      !r.0.raised && r.0.ids == d.ids + received && r.1 == |received|
  {
    var d' := d.(ram := StartingWrites(d.ram, starting));
    assert Pending(received, 0) == received;
    DeliverKnown(d', storedMap, received);
    DeliverProgress(d', storedMap, received);
  }

  /** On any other poll nothing is handed over: the ids, the victory flag
      and the index stay, and only the constant writes happen. */
  lemma OtherPollsOnlyForce(d: Delivery, expectedIdx: nat, storedMap: int, received: seq<int>,
                            starting: seq<ForcedFlag>, constant: seq<ForcedFlag>)
    requires !LeavesMenu(d.ram, storedMap)
    ensures var r := ForceGameflags(d, expectedIdx, storedMap, received, starting, constant);
      r.0.ids == d.ids && r.0.victory == d.victory && r.1 == expectedIdx && r.0.ram == ConstantWrites(d.ram, constant)
  {
  }
}
