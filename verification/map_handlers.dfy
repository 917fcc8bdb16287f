/** The writes of `special_map_flags`, each a method on the session proved
    against the function of the map handler's model that specifies it: the
    toggle of one special location, the two toggle loops, the single writes
    after them, and the DarkIce Mines cog and key writes. */
module MapHandlers {
  import opened Binary
  import opened Memory
  import opened BitHelper
  import opened BitMemory
  import opened Addresses
  import opened LocationTypes
  import opened LocationFlags
  import opened ItemTypes
  import opened ItemEffects
  import opened FlagLists
  import opened CogRoom
  import opened ZoneFlags
  import opened Context

  /** `_special_location_item_toggle`: on entering the location's map its
      flag shows whether it is checked (or absent from the server); on
      leaving that map it shows whether its item was received. */
  method SpecialToggle(ctx: SFAContext, data: LocationData, entered: int, expected: int)
    requires data.UpgradeLocation? || data.ShopLocation?
    modifies ctx.dme
    ensures ctx.dme.ram == Toggle(old(ctx.dme.ram), data, entered, expected, ctx.storedMap,
      ctx.checkedLocations, ctx.serverLocations, ctx.receivedItemsId)
  {
    ToggleOnEntry(ctx, data, entered, expected);
    ToggleBack(ctx, data, expected);
  }

  /** The first half of the toggle: on entering the location's map its flag
      is on when it is checked or absent from the server, off otherwise. */
  method ToggleOnEntry(ctx: SFAContext, data: LocationData, entered: int, expected: int)
    modifies ctx.dme
    ensures ctx.dme.ram == ForceIf(old(ctx.dme.ram), entered == expected, data,
      data.id in ctx.checkedLocations || data.id !in ctx.serverLocations)
  {
    var shown := data.id in ctx.checkedLocations || data.id !in ctx.serverLocations;
    ForceFlagIf(ctx.dme, entered == expected, data.tableAddress, data.bitOffset, shown);
  }

  /** The second half of the toggle: on leaving the location's map its flag
      is on when it is a map or its item was received, off otherwise. */
  method ToggleBack(ctx: SFAContext, data: LocationData, expected: int)
    requires data.UpgradeLocation? || data.ShopLocation?
    modifies ctx.dme
    ensures ctx.dme.ram == ForceIf(old(ctx.dme.ram), ctx.storedMap == expected, data,
      data.kind == Map || data.linkedItem in ctx.receivedItemsId)
  {
    // on when it is a map or its item was received, off otherwise
    var received := data.kind == Map || data.linkedItem in ctx.receivedItemsId;
    ForceFlagIf(ctx.dme, ctx.storedMap == expected, data.tableAddress, data.bitOffset, received);
  }

  /** The loop over the magic cave upgrades: the cave's act and flag word
      are read once before it, and an upgrade is toggled only in the upgrade
      act and when its bit is in the word. */
  method ToggleUpgrades(ctx: SFAContext, table: LocationTypes.Table, entered: int)
    requires forall k :: 0 <= k < |table| ==> table[k].1.UpgradeLocation?
    modifies ctx.dme
    ensures ctx.dme.ram == ToggleTable(old(ctx.dme.ram), old(ctx.dme.ram), true, table, entered, MapMagicCaveNo,
      ctx.storedMap, ctx.checkedLocations, ctx.serverLocations, ctx.receivedItemsId)
  {
    ghost var m := ctx.dme.ram;
    var actByte := ctx.dme.ReadByte(MagicCaveActAddress);
    var act := ExtractBitsValue(actByte, 2, 4);
    var word := ctx.dme.ReadWord(MagicCaveFlagAddress);
    SwapEndianOfBE(BytesAt(ctx.dme.ram, MagicCaveFlagAddress, 4));
    var flags := ExtractBitflagList(SwapEndian(word, 4));
    var i := 0;
    while i < |table|
      invariant 0 <= i <= |table|
      invariant ctx.dme.ram == ToggleTable(m, m, true, table[..i], entered, MapMagicCaveNo,
        ctx.storedMap, ctx.checkedLocations, ctx.serverLocations, ctx.receivedItemsId)
    {
      ToggleNext(m, m, true, table, entered, MapMagicCaveNo, ctx.storedMap, ctx.checkedLocations,
        ctx.serverLocations, ctx.receivedItemsId, i);
      var data := table[i].1;
      if act == MagicCaveUpgradeAct && data.mcBitflag.Some? && data.mcBitflag.value in flags {
        SpecialToggle(ctx, data, entered, MapMagicCaveNo);
      }
      i := i + 1;
    }
    assert table[..i] == table;
  }

  /** The loop over the shop entries, each toggled. */
  method ToggleShop(ctx: SFAContext, table: LocationTypes.Table, entered: int)
    requires forall k :: 0 <= k < |table| ==> table[k].1.ShopLocation?
    modifies ctx.dme
    ensures ctx.dme.ram == ToggleTable(old(ctx.dme.ram), old(ctx.dme.ram), false, table, entered, MapShopNo,
      ctx.storedMap, ctx.checkedLocations, ctx.serverLocations, ctx.receivedItemsId)
  {
    ghost var m := ctx.dme.ram;
    var i := 0;
    while i < |table|
      invariant 0 <= i <= |table|
      invariant ctx.dme.ram == ToggleTable(m, m, false, table[..i], entered, MapShopNo,
        ctx.storedMap, ctx.checkedLocations, ctx.serverLocations, ctx.receivedItemsId)
    {
      ToggleNext(m, m, false, table, entered, MapShopNo, ctx.storedMap, ctx.checkedLocations,
        ctx.serverLocations, ctx.receivedItemsId, i);
      SpecialToggle(ctx, table[i].1, entered, MapShopNo);
      i := i + 1;
    }
    assert table[..i] == table;
  }

  /** The single writes after the loops: ThornTail Hollow's act, the Fire
      Blaster's flag around the world map, the first Krystal spirit. */
  method ForceMapFlags(ctx: SFAContext, entered: int, fireBlaster: ItemData)
    modifies ctx.dme
    ensures ctx.dme.ram == FixedWrites(old(ctx.dme.ram), entered, ctx.storedMap, fireBlaster, ctx.receivedItemsId)
  {
    ForceAct(ctx.dme, entered);
    ForceFireBlaster(ctx, entered, fireBlaster);
    ForceFlagIf(ctx.dme, entered == MapKrystalSpirit, KrystalBit().0, KrystalBit().1, true);
  }

  /** On entering ThornTail Hollow its act field is set to the second act. */
  method ForceAct(dme: Dolphin, entered: int)
    modifies dme
    ensures dme.ram == ActIf(old(dme.ram), entered == MapThornTailHollow)
  {
    if entered == MapThornTailHollow {
      assert Pow2(ThornTailActSize) == 16;
      SetValueBytes(dme, ActField().0, ActField().1, ThornTailAct, ThornTailActSize, 1);
    }
  }

  /** The Fire Blaster's flag is cleared on entering the world map and set
      back to whether it was received on leaving it. */
  method ForceFireBlaster(ctx: SFAContext, entered: int, fireBlaster: ItemData)
    modifies ctx.dme
    ensures ctx.dme.ram == WorldMapWrites(old(ctx.dme.ram), entered, ctx.storedMap, ItemBit(fireBlaster),
      fireBlaster.id in ctx.receivedItemsId)
  {
    ForceFlagIf(ctx.dme, entered == MapWorldMap, ItemBit(fireBlaster).0, ItemBit(fireBlaster).1, false);
    ForceFlagIf(ctx.dme, ctx.storedMap == MapWorldMap, ItemBit(fireBlaster).0, ItemBit(fireBlaster).1,
      fireBlaster.id in ctx.receivedItemsId);
  }

  /** `set_flag_bit` under a condition. */
  method ForceFlagIf(dme: Dolphin, c: bool, address: int, offset: int, value: bool)
    modifies dme
    ensures dme.ram == FlagIf(old(dme.ram), c, address, offset, value)
  {
    if c {
      SetFlagBit(dme, address, offset, value);
    }
  }

  /** The cog room loop: each stage's flag on when the cogs were received
      more than its index times, then the flag just below it cleared. */
  method ShowCogs(dme: Dolphin, stages: seq<Stage>, count: nat)
    modifies dme
    ensures dme.ram == CogRoomMem(old(dme.ram), stages, count)
  {
    ghost var m := dme.ram;
    var pairs := StagePairs(stages);
    var i := 0;
    while i < |pairs|
      invariant 0 <= i <= |pairs|
      invariant dme.ram == PairsMem(m, pairs[..i], count)
    {
      PairsNext(m, pairs, count, i);
      SetFlagBit(dme, pairs[i].address, pairs[i].offset, count > i);
      SetFlagBit(dme, pairs[i].address, pairs[i].cleared, false);
      i := i + 1;
    }
    assert pairs[..i] == pairs;
  }

  /** Outside the cog room every stage's flag is set, which hides the cogs. */
  method HideCogs(dme: Dolphin, stages: seq<Stage>)
    modifies dme
    ensures dme.ram == SetStages(old(dme.ram), stages, |stages|)
  {
    ghost var m := dme.ram;
    var n := |stages|;
    var i := 0;
    while i < n
      invariant 0 <= i <= n
      invariant dme.ram == SetStages(m, stages[..i], n)
    {
      StagePrefixStep(m, stages, i, n);
      SetFlagBit(dme, stages[i].address, stages[i].offset, n > i);
      i := i + 1;
    }
    assert stages[..i] == stages;
  }

  /** Outside the cog room each cog location's flag shows whether the
      server has it checked. */
  method ForceCogLocations(ctx: SFAContext, locations: seq<LocationData>)
    modifies ctx.dme
    ensures ctx.dme.ram == SetFlags(old(ctx.dme.ram), CogLocationFlags(locations, ctx.checkedLocations))
  {
    ghost var m := ctx.dme.ram;
    ghost var flags := CogLocationFlags(locations, ctx.checkedLocations);
    var i := 0;
    while i < |locations|
      invariant 0 <= i <= |locations|
      invariant ctx.dme.ram == SetFlags(m, flags[..i])
    {
      SetFlagsNext(m, flags, i);
      if locations[i].id in ctx.checkedLocations {
        SetFlagBit(ctx.dme, locations[i].tableAddress, locations[i].bitOffset, true);
      } else {
        SetFlagBit(ctx.dme, locations[i].tableAddress, locations[i].bitOffset, false);
      }
      i := i + 1;
    }
    assert flags[..i] == flags;
  }

  /** The Silver Key location's flag: inside the key's cell whether the
      server has it checked, elsewhere whether the key was received. */
  method ForceSilverKey(ctx: SFAContext, zone: int, key: LocationData)
    requires key.LinkedLocation?
    modifies ctx.dme
    ensures ctx.dme.ram == SilverKeyMem(old(ctx.dme.ram), zone, key, ctx.checkedLocations, ctx.receivedItemsId)
  {
    var state := if zone == DimKeyZoneA || zone == DimKeyZoneB then key.id in ctx.checkedLocations
      else key.linkedItem in ctx.receivedItemsId;
    SetFlagBit(ctx.dme, key.tableAddress, key.bitOffset, state);
  }
}
