/** `special_map_flags` on the session, over the tables and descriptors it
    is given: each branch proved against the function of `ZoneFlags` that
    describes its writes and against its step of `HandlerSteps`, and the
    handler as the three in turn. */
module MapBranches {
  import opened Memory
  import opened BitMemory
  import opened Addresses
  import opened LocationTypes
  import opened ItemTypes
  import opened ItemEffects
  import opened FlagLists
  import opened CogRoom
  import opened ZoneFlags
  import opened Context
  import opened GiveItem
  import opened MapHandlers
  import opened HandlerSteps

  /** The map-change branch, with `entered` the map byte just read: the
      magic cave upgrades, the shop entries, then the single writes. */
  method MapChangeBranch(ctx: SFAContext, entered: int, upgrades: LocationTypes.Table, shop: LocationTypes.Table,
                         fireBlaster: ItemData)
    requires entered == ByteAt(ctx.dme.ram, MapIdAddress)
    requires forall k :: 0 <= k < |upgrades| ==> upgrades[k].1.UpgradeLocation?
    requires forall k :: 0 <= k < |shop| ==> shop[k].1.ShopLocation?
    modifies ctx.dme
    ensures ctx.dme.ram == MapChangeMem(old(ctx.dme.ram), ctx.storedMap, upgrades, shop, fireBlaster,
      ctx.checkedLocations, ctx.serverLocations, ctx.receivedItemsId)
  {
    ToggleUpgrades(ctx, upgrades, entered);
    ToggleShop(ctx, shop, entered);
    ForceMapFlags(ctx, entered, fireBlaster);
  }

  /** The cogs of the zone branch: shown as received in the cog room, all
      hidden elsewhere with their locations forced to what the server has
      checked. */
  method CogBranch(ctx: SFAContext, zone: int, cogs: ItemData, cogLocations: seq<LocationData>)
    requires cogs.ProgressiveItem?
    modifies ctx.dme
    ensures ctx.dme.ram == if zone == DimCogRoom then CogRoomMem(old(ctx.dme.ram), cogs.stages, CountIn(ctx.receivedItemsId, cogs.id))
      else SetFlags(SetStages(old(ctx.dme.ram), cogs.stages, |cogs.stages|), CogLocationFlags(cogLocations, ctx.checkedLocations))
  {
    if zone == DimCogRoom {
      ShowCogs(ctx.dme, cogs.stages, CountIn(ctx.receivedItemsId, cogs.id));
    } else {
      HideCogs(ctx.dme, cogs.stages);
      ForceCogLocations(ctx, cogLocations);
    }
  }

  /** The horn handed over on a zone change: an item that always applies,
      so nothing is raised and the goal is not touched. */
  method HornBranch(ctx: SFAContext, horn: ItemData)
    requires Applicable(horn) && horn.id != VictoryId
    modifies ctx`victory, ctx.dme
    ensures ctx.dme.ram == ApplyItem(old(ctx.dme.ram), ctx.receivedItemsId, ctx.storedMap, horn)
    ensures ctx.victory == old(ctx.victory)
  {
    ApplicableNeverRaises(ctx.dme.ram, ctx.receivedItemsId, ctx.storedMap, horn);
    var raised := GiveItemInGame(ctx, horn);
  }

  /** The zone branch: when the first zone word moved, the horn is handed
      over and the cogs set; the word is stored. */
  method DimBranch(ctx: SFAContext, cogs: ItemData, horn: ItemData, cogLocations: seq<LocationData>)
    requires cogs.ProgressiveItem? && Applicable(horn) && horn.id != VictoryId
    modifies ctx`storedDim, ctx`victory, ctx.dme
    ensures ctx.storedDim == ReadValue(old(ctx.dme.ram), DimZoneAddress, 0, 32, 4)
    ensures ctx.dme.ram == if ctx.storedDim != old(ctx.storedDim)
      then DimZoneMem(old(ctx.dme.ram), ctx.storedDim, ctx.storedMap, cogs, horn, cogLocations, ctx.checkedLocations,
        ctx.receivedItemsId)
      else old(ctx.dme.ram)
    ensures ctx.victory == old(ctx.victory)
  {
    var zone := ReadValueBytes(ctx.dme, DimZoneAddress, 0, 32, 4);
    if zone != ctx.storedDim {
      HornBranch(ctx, horn);
      CogBranch(ctx, zone, cogs, cogLocations);
      ctx.storedDim := zone;
    }
  }

  /** The Silver Key branch: when the second zone word moved, the key
      location's flag is forced; the word is stored. */
  method KeyBranch(ctx: SFAContext, key: LocationData)
    requires key.LinkedLocation?
    modifies ctx`storedDim2, ctx.dme
    ensures ctx.storedDim2 == ReadValue(old(ctx.dme.ram), DimZone2Address, 0, 32, 4)
    ensures ctx.dme.ram == if ctx.storedDim2 != old(ctx.storedDim2)
      then SilverKeyMem(old(ctx.dme.ram), ctx.storedDim2, key, ctx.checkedLocations, ctx.receivedItemsId)
      else old(ctx.dme.ram)
  {
    var zone := ReadValueBytes(ctx.dme, DimZone2Address, 0, 32, 4);
    if zone != ctx.storedDim2 {
      ForceSilverKey(ctx, zone, key);
      ctx.storedDim2 := zone;
    }
  }

  /** What the handler reads and updates on the session. */
  function StateOf(ctx: SFAContext): MapState
    reads ctx, ctx.dme
  {
    MapState(ctx.dme.ram, ctx.storedMap, ctx.storedDim, ctx.storedDim2)
  }

  /** The map-change branch, reading the map byte and storing it. */
  method OnMapChange(ctx: SFAContext, t: HandlerTables)
    requires Shaped(t)
    modifies ctx`storedMap, ctx.dme
    ensures StateOf(ctx) == MapStepOn(t, old(StateOf(ctx)), ctx.checkedLocations, ctx.serverLocations, ctx.receivedItemsId)
  {
    var entered := ctx.dme.ReadByte(MapIdAddress);
    if ctx.storedMap != entered {
      MapChangeBranch(ctx, entered, t.upgrades, t.shop, t.fireBlaster);
      ctx.storedMap := entered;
    }
  }

  /** The zone branch as the handler's zone step. */
  method OnDimChange(ctx: SFAContext, t: HandlerTables)
    requires Shaped(t)
    modifies ctx`storedDim, ctx`victory, ctx.dme
    ensures StateOf(ctx) == DimStepOn(t, old(StateOf(ctx)), ctx.checkedLocations, ctx.receivedItemsId)
    ensures ctx.victory == old(ctx.victory)
  {
    DimBranch(ctx, t.cogs, t.horn, t.cogLocations);
  }

  /** The Silver Key branch as the handler's key step. */
  method OnKeyChange(ctx: SFAContext, t: HandlerTables)
    requires Shaped(t)
    modifies ctx`storedDim2, ctx.dme
    ensures StateOf(ctx) == KeyStepOn(t, old(StateOf(ctx)), ctx.checkedLocations, ctx.receivedItemsId)
  {
    KeyBranch(ctx, t.key);
  }

  /** One run of the handler: the memory and the three stored values end as
      the handler's function gives them, and the goal is not touched. */
  method HandleSpecialMap(ctx: SFAContext, t: HandlerTables)
    requires Shaped(t)
    modifies ctx`storedMap, ctx`storedDim, ctx`storedDim2, ctx`victory, ctx.dme
    ensures StateOf(ctx) == HandlerOn(t, old(StateOf(ctx)), ctx.checkedLocations, ctx.serverLocations, ctx.receivedItemsId)
    ensures ctx.victory == old(ctx.victory)
  {
    OnMapChange(ctx, t);
    OnDimChange(ctx, t);
    OnKeyChange(ctx, t);
  }
}
