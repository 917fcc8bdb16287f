/** `give_items`, `sync_player_state` and `sync_full_player_state` on the
    session, proved against the delivery loop `Deliver` and the replay of
    the counted items `SyncMem`. */
module ItemSync {
  import opened Wrappers
  import opened Memory
  import opened ItemTypes
  import Items
  import opened ItemEffects
  import opened ItemDelivery
  import opened Context
  import opened GiveItem

  /** One turn of `give_items`' loop: the id is appended to the ids handed
      over, looked up and handed over; `raised` when it is not in the
      catalog or its write raises. */
  method GiveNext(ctx: SFAContext, id: int, ghost delivered: nat) returns (raised: bool)
    modifies ctx`receivedItemsId, ctx`victory, ctx.dme
    ensures var e := DeliverOne(Delivery(old(ctx.receivedItemsId), old(ctx.dme.ram), old(ctx.victory), delivered, false),
      ctx.storedMap, id);
      e == Delivery(ctx.receivedItemsId, ctx.dme.ram, ctx.victory, if raised then delivered else delivered + 1, raised)
  {
    ghost var d := Delivery(ctx.receivedItemsId, ctx.dme.ram, ctx.victory, delivered, false);
    ctx.receivedItemsId := ctx.receivedItemsId + [id];
    var found := Items.GetById(id);
    if found.None? {
      DeliverOneUnknown(d, ctx.storedMap, id);
      return true;
    }
    DeliverOneFound(d, ctx.storedMap, id, found.value);
    raised := GiveItemInGame(ctx, found.value);
  }

  /** `give_items`: every id from the expected index on is handed over in
      turn and the index moves past it; an unknown id or a raising write
      ends the call (`raised`). */
  method GiveItems(ctx: SFAContext) returns (raised: bool)
    modifies ctx`receivedItemsId, ctx`victory, ctx`expectedIdx, ctx.dme
    ensures ctx.expectedIdx >= old(ctx.expectedIdx)
    ensures Deliver(Delivery(old(ctx.receivedItemsId), old(ctx.dme.ram), old(ctx.victory), 0, false),
      ctx.storedMap, Pending(ctx.itemsReceived, old(ctx.expectedIdx))) ==
      Delivery(ctx.receivedItemsId, ctx.dme.ram, ctx.victory, ctx.expectedIdx - old(ctx.expectedIdx), raised)
  {
    ghost var d0 := Delivery(ctx.receivedItemsId, ctx.dme.ram, ctx.victory, 0, false);
    var start, storedMap := ctx.expectedIdx, ctx.storedMap;
    if |ctx.itemsReceived| <= start {
      return false;
    }
    var pending := ctx.itemsReceived[start..];
    assert Pending(ctx.itemsReceived, start) == pending;
    var i := 0;
    while i < |pending|
      invariant 0 <= i <= |pending|
      invariant Deliver(d0, storedMap, pending[..i]) == Delivery(ctx.receivedItemsId, ctx.dme.ram, ctx.victory, i, false)
      invariant ctx.expectedIdx == start + i
    {
      DeliverNext(d0, storedMap, pending, i);
      raised := GiveNext(ctx, pending[i], i);
      if raised {
        DeliverStopsAtRaise(d0, storedMap, pending, i + 1);
        return;
      }
      ctx.expectedIdx := start + i + 1;
      i := i + 1;
    }
    assert pending[..i] == pending;
    return false;
  }

  /** The items handed over in turn with the ids already received; with
      every write fitting its field, nothing raises. */
  method GiveInTurn(ctx: SFAContext, items: seq<ItemData>)
    requires forall i :: 0 <= i < |items| ==> Applicable(items[i])
    modifies ctx`victory, ctx.dme
    ensures GiveEach(old(ctx.dme.ram), ctx.receivedItemsId, ctx.storedMap, items) == Some(ctx.dme.ram)
    ensures ctx.victory == old(ctx.victory) || exists i :: 0 <= i < |items| && items[i].id == VictoryId
  {
    ghost var m := ctx.dme.ram;
    var i := 0;
    while i < |items|
      invariant 0 <= i <= |items|
      invariant GiveEach(m, ctx.receivedItemsId, ctx.storedMap, items[..i]) == Some(ctx.dme.ram)
      invariant ctx.victory == old(ctx.victory) || exists j :: 0 <= j < i && items[j].id == VictoryId
    {
      GiveEachNext(m, ctx.receivedItemsId, ctx.storedMap, items, i, ctx.dme.ram);
      ApplicableNeverRaises(ctx.dme.ram, ctx.receivedItemsId, ctx.storedMap, items[i]);
      var raised := GiveItemInGame(ctx, items[i]);
      i := i + 1;
    }
    assert items[..i] == items;
  }

  /** `sync_player_state`: the counted items handed over again with the ids
      already received. It never raises and leaves the victory flag. */
  method SyncPlayerState(ctx: SFAContext)
    modifies ctx`victory, ctx.dme
    ensures ctx.dme.ram == SyncMem(old(ctx.dme.ram), ctx.receivedItemsId, ctx.storedMap)
    ensures ctx.victory == old(ctx.victory)
  {
    SyncItemsApplicable();
    SyncItemsNotGoal();
    GiveInTurn(ctx, SyncItems);
  }

  /** `sync_full_player_state`: the index back to 0, then `give_items`. */
  method SyncFullPlayerState(ctx: SFAContext) returns (raised: bool)
    modifies ctx`receivedItemsId, ctx`victory, ctx`expectedIdx, ctx.dme
    ensures Deliver(Delivery(old(ctx.receivedItemsId), old(ctx.dme.ram), old(ctx.victory), 0, false),
      ctx.storedMap, Pending(ctx.itemsReceived, 0)) ==
      Delivery(ctx.receivedItemsId, ctx.dme.ram, ctx.victory, ctx.expectedIdx, raised)
  {
    ctx.expectedIdx := 0;
    raised := GiveItems(ctx);
  }

  /** `sync_full_player_state` with the ids received so far cleared along
      with the index: the replay starts from no ids, and when every received
      id is in the catalog the ids end as the received list. */
  method SyncFullFromScratch(ctx: SFAContext) returns (raised: bool)
    modifies ctx`receivedItemsId, ctx`victory, ctx`expectedIdx, ctx.dme
    ensures Deliver(Delivery([], old(ctx.dme.ram), old(ctx.victory), 0, false), ctx.storedMap,
      Pending(ctx.itemsReceived, 0)) == Delivery(ctx.receivedItemsId, ctx.dme.ram, ctx.victory, ctx.expectedIdx, raised)
    ensures (forall i :: 0 <= i < |ctx.itemsReceived| ==> Items.GetById(ctx.itemsReceived[i]).Some?) ==>
      ctx.receivedItemsId == ctx.itemsReceived
  {
    ghost var d := Delivery([], ctx.dme.ram, ctx.victory, 0, false);
    ctx.receivedItemsId := [];
    ctx.expectedIdx := 0;
    raised := GiveItems(ctx);
    if forall i :: 0 <= i < |ctx.itemsReceived| ==> Items.GetById(ctx.itemsReceived[i]).Some? {
      ReplayFromScratch(d, ctx.storedMap, ctx.itemsReceived);
      if |ctx.itemsReceived| > 0 {
        assert Pending(ctx.itemsReceived, 0) == ctx.itemsReceived;
      }
    }
  }
}
