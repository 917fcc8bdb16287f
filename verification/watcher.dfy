/** `locations_watcher` on the session: the three loops over the location
    tables, then the report to the server. */
module Watcher {
  import opened Memory
  import opened Addresses
  import opened LocationWatch
  import Locations
  import opened TableBits
  import opened ItemDelivery
  import opened Context
  import opened ItemSync
  import opened LocationScan

  /** The three loops: the normal tables, then the magic cave upgrades
      while the player stays in the cave, then the shop entries while the
      player stays in the shop. */
  method ScanAll(ctx: SFAContext)
    modifies ctx`locationsChecked
    ensures ctx.locationsChecked == Watch(ctx.dme.ram, ctx.storedMap, ctx.serverLocations, old(ctx.locationsChecked))
  {
    ScanNormal(ctx, Locations.NormalTables);
    var mapValue := ctx.dme.ReadByte(MapIdAddress);
    if mapValue == MapMagicCaveNo && ctx.storedMap == MapMagicCaveNo {
      UpgradeShape();
      ScanCave(ctx, Locations.LocationUpgrade);
    }
    if mapValue == MapShopNo && ctx.storedMap == MapShopNo {
      ScanShop(ctx, Locations.LocationShop);
    }
  }

  /** The end of `locations_watcher`: when some location found checked is
      not yet checked on the server, the counted items are handed over again
      and those locations are sent; then the goal is reported, once. */
  method ReportChecks(ctx: SFAContext)
    modifies ctx`outbox, ctx`finishedGame, ctx`victory, ctx.dme
    ensures var unsent := ctx.locationsChecked - ctx.checkedLocations;
      ctx.dme.ram == (if unsent != {} then SyncMem(old(ctx.dme.ram), ctx.receivedItemsId, ctx.storedMap) else old(ctx.dme.ram)) &&
      ctx.outbox == old(ctx.outbox) + (if unsent != {} then [LocationChecks(unsent)] else []) +
        (if ctx.victory && !old(ctx.finishedGame) then [ClientGoal] else [])
    ensures ctx.victory == old(ctx.victory) && ctx.finishedGame == (old(ctx.finishedGame) || ctx.victory)
  {
    var unsent := ctx.locationsChecked - ctx.checkedLocations;
    if unsent != {} {
      SyncPlayerState(ctx);
      ctx.outbox := ctx.outbox + [LocationChecks(unsent)];
    }
    if ctx.victory && !ctx.finishedGame {
      ctx.outbox := ctx.outbox + [ClientGoal];
      ctx.finishedGame := true;
    }
  }

  /** `locations_watcher`: the three loops, then the report. */
  method LocationsWatcher(ctx: SFAContext)
    modifies ctx`locationsChecked, ctx`outbox, ctx`finishedGame, ctx`victory, ctx.dme
    ensures ctx.locationsChecked == Watch(old(ctx.dme.ram), ctx.storedMap, ctx.serverLocations, old(ctx.locationsChecked))
    ensures var unsent := ctx.locationsChecked - ctx.checkedLocations;
      ctx.dme.ram == (if unsent != {} then SyncMem(old(ctx.dme.ram), ctx.receivedItemsId, ctx.storedMap) else old(ctx.dme.ram)) &&
      ctx.outbox == old(ctx.outbox) + (if unsent != {} then [LocationChecks(unsent)] else []) +
        (if ctx.victory && !old(ctx.finishedGame) then [ClientGoal] else [])
    ensures ctx.victory == old(ctx.victory) && ctx.finishedGame == (old(ctx.finishedGame) || ctx.victory)
  {
    ScanAll(ctx);
    ReportChecks(ctx);
  }
}
