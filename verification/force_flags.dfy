/** `force_gameflags` on the session: the writes on leaving the main menu
    with the replay of every received item, then the writes of every poll,
    each part a method proved against the functions of `GameFlags`. */
module ForceFlags {
  import opened Memory
  import opened BitHelper
  import opened BitMemory
  import opened Addresses
  import opened FlagLists
  import opened ItemDelivery
  import opened Context
  import opened ItemSync
  import GameFlags

  /** Each flag of the list forced to its state, in order. */
  method ForceFlagList(dme: Dolphin, flags: seq<ForcedFlag>)
    modifies dme
    ensures dme.ram == SetFlags(old(dme.ram), flags)
  {
    ghost var m := dme.ram;
    var i := 0;
    while i < |flags|
      invariant 0 <= i <= |flags|
      invariant dme.ram == SetFlags(m, flags[..i])
    {
      SetFlagsNext(m, flags, i);
      SetFlagBit(dme, flags[i].tableAddress, flags[i].bitOffset, flags[i].state);
      i := i + 1;
    }
    assert flags[..i] == flags;
  }

  /** The bomb spore's flag turned on, its byte read, updated and written
      back in place. */
  method ForceBombSpore(dme: Dolphin)
    modifies dme
    ensures dme.ram == SetFlagMem(old(dme.ram), T2Address, GameFlags.BombSporeOffset, true)
  {
    var address, position := GetBitAddress(T2Address, GameFlags.BombSporeOffset).0,
      GetBitAddress(T2Address, GameFlags.BombSporeOffset).1;
    var cache := dme.ReadByte(address);
    FlagUpdate(cache, position, true);
    FlagByteIsUpdate(cache, position, true);
    var updated := UpdateBits(cache, position, 1, 1);
    dme.WriteByte(address, updated.value);
  }

  /** The writes of every poll. */
  method ForceConstants(dme: Dolphin, constant: seq<ForcedFlag>)
    modifies dme
    ensures dme.ram == GameFlags.ConstantWrites(old(dme.ram), constant)
  {
    ForceFlagList(dme, constant);
    ForceBombSpore(dme);
  }

  /** The writes on leaving the main menu, then the replay of every
      received item from index 0. */
  method StartSave(ctx: SFAContext, starting: seq<ForcedFlag>) returns (raised: bool)
    modifies ctx`receivedItemsId, ctx`victory, ctx`expectedIdx, ctx.dme
    ensures Deliver(Delivery(old(ctx.receivedItemsId), GameFlags.StartingWrites(old(ctx.dme.ram), starting), old(ctx.victory), 0, false),
      ctx.storedMap, Pending(ctx.itemsReceived, 0)) ==
      Delivery(ctx.receivedItemsId, ctx.dme.ram, ctx.victory, ctx.expectedIdx, raised)
  {
    GameFlags.MasksFit();
    SetOnOrBytes(ctx.dme, ItemMapAddress, ItemMapInitValue, 3);
    SetOnOrBytes(ctx.dme, SkipTutoAddress, SkipTutoValue, 2);
    ForceFlagList(ctx.dme, starting);
    raised := SyncFullPlayerState(ctx);
  }

  /** One run of the handler: the ids, the memory, the goal and the index
      end as the handler's function gives them; a hand-over that raises
      ends the run before the constant writes. */
  method ForceGameflags(ctx: SFAContext, starting: seq<ForcedFlag>, constant: seq<ForcedFlag>) returns (raised: bool)
    modifies ctx`receivedItemsId, ctx`victory, ctx`expectedIdx, ctx.dme
    ensures var r := GameFlags.ForceGameflags(Delivery(old(ctx.receivedItemsId), old(ctx.dme.ram), old(ctx.victory), 0, false),
      old(ctx.expectedIdx), ctx.storedMap, ctx.itemsReceived, starting, constant);
      r.0.ids == ctx.receivedItemsId && r.0.ram == ctx.dme.ram && r.0.victory == ctx.victory &&
      r.0.raised == raised && r.1 == ctx.expectedIdx
  {
    var entered := ctx.dme.ReadByte(MapIdAddress);
    raised := false;
    if ctx.storedMap != entered && ctx.storedMap == MapMainMenu {
      raised := StartSave(ctx, starting);
      if raised {
        return;
      }
    }
    ForceConstants(ctx.dme, constant);
  }
}
