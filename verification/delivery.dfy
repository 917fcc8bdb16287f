/** How `give_items` hands the received items over one after the other,
    and what handing over the catalog's own items does. */
module ItemDelivery {
  import opened Wrappers
  import opened Binary
  import opened Memory
  import opened BitHelper
  import opened BitMemory
  import opened Addresses
  import opened ItemTypes
  import opened ItemEffects
  import Items

  lemma ValueItemsApplicable()
    ensures Applicable(Items.AlpineRoot) && Applicable(Items.WhiteGrubTub) && Applicable(Items.DimAlpineRoot)
    ensures Applicable(Items.MpUpgrade) && Applicable(Items.HpUpgrade) && Applicable(Items.FuelCell)
    ensures Applicable(Items.HealthRefill) && Applicable(Items.MagicRefill)
  {
    Pow2Of8();
    assert Pow2(3) == 8;
  }

  /** Every descriptor of the catalog is well formed, so handing over any
      catalog item never raises. */
  lemma CatalogApplicable(k: int)
    requires 0 <= k < |Items.AllItemsTable|
    ensures Applicable(Items.AllItemsTable[k].1)
  {
    ValueItemsApplicable();
    assert forall j :: 0 <= j < |Items.AllItemsTable| ==> Applicable(Items.AllItemsTable[j].1);
  }

  /** Whatever `get_by_id` finds is well formed. */
  lemma FoundApplicable(id: int)
    requires Items.GetById(id).Some?
    ensures Applicable(Items.GetById(id).value)
  {
    var k :| 0 <= k < |Items.AllItemsTable| && Items.AllItemsTable[k].1 == Items.GetById(id).value
      && Items.FirstWithId(Items.AllItemsTable, id, k);
    CatalogApplicable(k);
  }

  /** The stages of the three progressive items of the catalog never share a
      bit. */
  lemma CatalogStagesDistinct()
    ensures StagesDistinct(Items.Tricky.stages)
    ensures StagesDistinct(Items.ScarabBag.stages)
    ensures StagesDistinct(Items.Cogs.stages)
  {
    assert StageBit(Items.Tricky.stages[0]) == (T2Address + 0x108, 6);
    assert StageBit(Items.Tricky.stages[1]) == (T2Address + 0x109, 3);
    assert StageBit(Items.ScarabBag.stages[0]) == (T2Address + 0x6B, 3);
    assert StageBit(Items.ScarabBag.stages[1]) == (T2Address + 0x6B, 4);
    assert StageBit(Items.ScarabBag.stages[2]) == (T2Address + 0x6B, 5);
    assert StageBit(Items.Cogs.stages[0]) == (T2Address + 0x6E, 1);
    assert StageBit(Items.Cogs.stages[1]) == (T2Address + 0x6E, 3);
    assert StageBit(Items.Cogs.stages[2]) == (T2Address + 0x6E, 5);
  }

  /** One MP Upgrade sets the maximum magic to 50; each further one adds 25,
      up to six. */
  lemma MpUpgradeValue(m: Mem, ids: seq<int>, storedMap: int)
    ensures Applicable(Items.MpUpgrade)
    ensures ReadValue(ApplyItem(m, ids, storedMap, Items.MpUpgrade), PlayerMaxMp, 0, 8, 1) ==
      25 + 25 * Cap(CountIn(ids, Items.MpUpgrade.id), 6)
    ensures CountIn(ids, Items.MpUpgrade.id) == 1 ==>
      ReadValue(ApplyItem(m, ids, storedMap, Items.MpUpgrade), PlayerMaxMp, 0, 8, 1) == 50
  {
    ValueItemsApplicable();
    CountItemValue(m, ids, storedMap, Items.MpUpgrade, 1);
  }

  /** A Health Refill is not idempotent: with room below the maximum, the
      first one adds 4 and the second 4 more. */
  lemma HealthRefillTwice(m: Mem, ids: seq<int>, storedMap: int)
    requires ReadValue(m, PlayerCurHp, 0, 8, 1) + 8 <= ReadValue(m, PlayerMaxHp, 0, 8, 1)
    ensures Applicable(Items.HealthRefill)
    ensures ReadValue(ApplyItem(m, ids, storedMap, Items.HealthRefill), PlayerCurHp, 0, 8, 1) ==
      ReadValue(m, PlayerCurHp, 0, 8, 1) + 4
    ensures ReadValue(ApplyItem(ApplyItem(m, ids, storedMap, Items.HealthRefill), ids, storedMap, Items.HealthRefill),
      PlayerCurHp, 0, 8, 1) == ReadValue(m, PlayerCurHp, 0, 8, 1) + 8
  {
    ValueItemsApplicable();
    var m1 := ApplyItem(m, ids, storedMap, Items.HealthRefill);
    ConsumableItemValue(m, ids, storedMap, Items.HealthRefill, 1);
    ByteWriteOther(m, PlayerCurHp, ConsumableValue(m, Items.HealthRefill), PlayerMaxHp);
    ConsumableItemValue(m1, ids, storedMap, Items.HealthRefill, 1);
  }

  /** The Fuel Cell counter starts at bit 5 of its byte and is eight bits
      wide, so its write spans two bytes. When the upper byte is clear, the
      write copies bit 5 of the old lower byte, the lowest bit of the old
      count, into bit 5 of the upper byte: the DarkIce Mines planet flag. So
      with an odd count the planet is turned on, received or not. */
  lemma FuelCellSetsDarkIceMines(m: Mem, ids: seq<int>, storedMap: int)
    requires ByteAt(m, T2Address + 0x127) == 0
    requires FlagBit(m, T2Address, Items.FuelCell.bitOffset)
    ensures Applicable(Items.FuelCell)
    ensures FlagBit(ApplyItem(m, ids, storedMap, Items.FuelCell), T2Address, Items.DarkIceMines.bitOffset)
  {
    ValueItemsApplicable();
    CountItemWrite(m, ids, storedMap, Items.FuelCell);
    SetValueSpill(m, T2Address, Items.FuelCell.bitOffset, CountValue(Items.FuelCell, ids), 8, 5);
  }

  /** "DIM Alpine Root" sits at bit 6 with a 3-bit field, so its write spans
      two bytes as well; with the upper byte clear, bits 1 to 7 of the old
      lower byte are copied into the upper byte. */
  lemma DimAlpineRootSpill(m: Mem, ids: seq<int>, storedMap: int, i: nat)
    requires ByteAt(m, T2Address + 0x70) == 0 && 1 <= i < 8
    ensures Applicable(Items.DimAlpineRoot)
    ensures Bit(ByteAt(ApplyItem(m, ids, storedMap, Items.DimAlpineRoot), T2Address + 0x70), i) ==
      Bit(ByteAt(m, T2Address + 0x6F), i)
  {
    ValueItemsApplicable();
    QuestItemWrite(m, ids, storedMap, Items.DimAlpineRoot);
    SetValueSpill(m, T2Address, Items.DimAlpineRoot.bitOffset, QuestValue(m, Items.DimAlpineRoot, ids), 3, i);
  }

  /** With `update_bits` padding the two-byte window to its width, the Fuel
      Cell counter's write keeps the DarkIce Mines planet flag, whatever the
      upper byte holds. */
  lemma FuelCellWideKeepsDarkIceMines(m: Mem, value: nat)
    requires value < 256
    ensures FlagBit(SetValueMemWide(m, T2Address, Items.FuelCell.bitOffset, value, 8, 1), T2Address,
      Items.DarkIceMines.bitOffset) == FlagBit(m, T2Address, Items.DarkIceMines.bitOffset)
  {
    Pow2Of8();
    WindowTwo(5, 8);
    SetValueWideBits(m, T2Address, Items.FuelCell.bitOffset, value, 8, 1, 13);
  }

  /** With the window padded to its width, the "DIM Alpine Root" write keeps
      bits 1 to 7 of the upper byte. */
  lemma DimAlpineRootWideKeeps(m: Mem, value: nat, i: nat)
    requires value < 8 && 1 <= i < 8
    ensures Bit(ByteAt(SetValueMemWide(m, T2Address, Items.DimAlpineRoot.bitOffset, value, 3, 1), T2Address + 0x70), i) ==
      Bit(ByteAt(m, T2Address + 0x70), i)
  {
    assert Pow2(3) == 8;
    WindowTwo(6, 3);
    assert GetBitAddress(T2Address, Items.DimAlpineRoot.bitOffset) == (T2Address + 0x6F, 6);
    assert (8 + i) / 8 == 1 && (8 + i) % 8 == i;
    SetValueWideBits(m, T2Address, Items.DimAlpineRoot.bitOffset, value, 3, 1, 8 + i);
  }

  /** `get_by_id` finds an item with the id it was asked for. */
  lemma FoundId(id: int)
    requires Items.GetById(id).Some?
    ensures Items.GetById(id).value.id == id
  {
    var k :| 0 <= k < |Items.AllItemsTable| && Items.AllItemsTable[k].1 == Items.GetById(id).value
      && Items.FirstWithId(Items.AllItemsTable, id, k);
  }

  // ---------------------------------------------------------------------------
  // Handing over the received items

  /** The part of the session that `give_items` changes: the ids received so
      far, the game's memory, the victory flag, how many items were handed
      over, and whether a hand-over raised (which ends the call). */
  datatype Delivery = Delivery(ids: seq<int>, ram: Mem, victory: bool, delivered: nat, raised: bool)

  /** One turn of the loop: the id is appended first, then the item is looked
      up and handed over; an unknown id or a write that raises ends the
      call. */
  function DeliverOne(d: Delivery, storedMap: int, id: int): Delivery
  {
    if d.raised then d
    else
      var ids := d.ids + [id];
      match Items.GetById(id)
      case None => d.(ids := ids, raised := true)
      case Some(item) =>
        match GiveItemMem(d.ram, ids, storedMap, item)
        case None => d.(ids := ids, raised := true)
        case Some(m) => Delivery(ids, m, d.victory || item.id == VictoryId, d.delivered + 1, false)
  }

  /** The loop over the pending ids, in order. */
  function Deliver(d: Delivery, storedMap: int, pending: seq<int>): Delivery
  {
    if |pending| == 0 then d
    else DeliverOne(Deliver(d, storedMap, pending[..|pending| - 1]), storedMap, pending[|pending| - 1])
  }

  /** The ids still to hand over: those from the expected index on, none
      when the index is at or past the end. */
  function Pending(received: seq<int>, expected: nat): seq<int>
  {
    if |received| <= expected then [] else received[expected..]
  }

  /** Every pending item is handed over until one raises. The ids of the
      items handed over, and of the one that raised, are appended in order;
      when none raised, all pending ids are appended. */
  lemma {:induction false} DeliverProgress(d: Delivery, storedMap: int, pending: seq<int>)
    requires !d.raised && d.delivered == 0
    ensures var r := Deliver(d, storedMap, pending);
      r.delivered <= |pending| &&
      (r.raised ==> r.delivered < |pending| && r.ids == d.ids + pending[..r.delivered + 1]) &&
      (!r.raised ==> r.delivered == |pending| && r.ids == d.ids + pending)
  {
    if |pending| > 0 {
      DeliverProgress(d, storedMap, pending[..|pending| - 1]);
      ProgressTurn(Deliver(d, storedMap, pending[..|pending| - 1]), storedMap, d.ids, pending);
    }
  }

  /** The last turn over `all`: after the turns over all but its last id,
      the delivery still consists of the ids handed over so far, up to and
      including one that raised. */
  lemma ProgressTurn(prev: Delivery, storedMap: int, base: seq<int>, all: seq<int>)
    requires |all| > 0 && prev.delivered <= |all| - 1
    requires prev.raised ==> prev.delivered < |all| - 1 && prev.ids == base + all[..|all| - 1][..prev.delivered + 1]
    requires !prev.raised ==> prev.delivered == |all| - 1 && prev.ids == base + all[..|all| - 1]
    ensures var r := DeliverOne(prev, storedMap, all[|all| - 1]);
      r.delivered <= |all| &&
      (r.raised ==> r.delivered < |all| && r.ids == base + all[..r.delivered + 1]) &&
      (!r.raised ==> r.delivered == |all| && r.ids == base + all)
  {
    var done := all[..|all| - 1];
    if prev.raised {
      assert all[..prev.delivered + 1] == done[..prev.delivered + 1];
    } else {
      assert done + [all[|all| - 1]] == all;
      assert all[..prev.delivered + 1] == all;
    }
  }

  /** One turn sets the victory flag exactly when it hands over the goal
      item. */
  lemma VictoryStep(d: Delivery, storedMap: int, id: int)
    requires !d.raised
    ensures var r := DeliverOne(d, storedMap, id);
      (r.raised ==> r.delivered == d.delivered && r.victory == d.victory) &&
      (!r.raised ==> r.delivered == d.delivered + 1 && (r.victory <==> d.victory || id == VictoryId))
  {
    if Items.GetById(id).Some? {
      FoundId(id);
    }
  }

  /** The victory flag is set exactly when it was set before or the goal
      item is among the items handed over. */
  lemma {:induction false} DeliverVictory(d: Delivery, storedMap: int, pending: seq<int>)
    requires !d.raised && d.delivered == 0
    ensures var r := Deliver(d, storedMap, pending);
      r.delivered <= |pending| && (r.victory <==> d.victory || VictoryId in pending[..r.delivered])
  {
    if |pending| > 0 {
      var n := |pending| - 1;
      var prefix := pending[..n];
      DeliverVictory(d, storedMap, prefix);
      DeliverProgress(d, storedMap, prefix);
      assert prefix + [pending[n]] == pending;
      VictoryTurn(Deliver(d, storedMap, prefix), storedMap, prefix, pending[n], d.victory);
    }
  }

  /** One more turn after the ids `done`: the victory flag still tells
      whether the goal item is among the items handed over. */
  lemma VictoryTurn(prev: Delivery, storedMap: int, done: seq<int>, id: int, victory: bool)
    requires prev.delivered <= |done| && (prev.victory <==> victory || VictoryId in done[..prev.delivered])
    requires !prev.raised ==> prev.delivered == |done|
    ensures var r := DeliverOne(prev, storedMap, id);
      r.delivered <= |done + [id]| && (r.victory <==> victory || VictoryId in (done + [id])[..r.delivered])
  {
    assert (done + [id])[..prev.delivered] == done[..prev.delivered];
    if !prev.raised {
      VictoryStep(prev, storedMap, id);
      assert (done + [id])[..prev.delivered + 1] == done + [id];
    }
  }

  /** When every pending id is in the catalog, no hand-over raises. */
  lemma {:induction false} DeliverKnown(d: Delivery, storedMap: int, pending: seq<int>)
    requires !d.raised
    requires forall i :: 0 <= i < |pending| ==> Items.GetById(pending[i]).Some?
    ensures !Deliver(d, storedMap, pending).raised
  {
    if |pending| > 0 {
      var n := |pending| - 1;
      assert forall i :: 0 <= i < n ==> pending[..n][i] == pending[i];
      DeliverKnown(d, storedMap, pending[..n]);
      var prev := Deliver(d, storedMap, pending[..n]);
      FoundApplicable(pending[n]);
      ApplicableNeverRaises(prev.ram, prev.ids + [pending[n]], storedMap, Items.GetById(pending[n]).value);
    }
  }

  /** `sync_full_player_state` starts over from index 0 without clearing the
      ids already received, so a replay appends every id a second time and
      each count doubles. */
  lemma ReplayDoubles(d: Delivery, storedMap: int, received: seq<int>)
    requires !d.raised && d.delivered == 0 && d.ids == received
    requires forall i :: 0 <= i < |received| ==> Items.GetById(received[i]).Some?
    ensures forall id :: CountIn(Deliver(d, storedMap, received).ids, id) == 2 * CountIn(received, id)
  {
    DeliverKnown(d, storedMap, received);
    DeliverProgress(d, storedMap, received);
    assert multiset(received + received) == multiset(received) + multiset(received);
  }

  /** A replay that starts from no ids received hands every id over once:
      the ids end as the received list and every count is the number of
      times the id was received. */
  lemma ReplayFromScratch(d: Delivery, storedMap: int, received: seq<int>)
    requires !d.raised && d.delivered == 0 && d.ids == []
    requires forall i :: 0 <= i < |received| ==> Items.GetById(received[i]).Some?
    ensures Deliver(d, storedMap, received).ids == received
    ensures forall id :: CountIn(Deliver(d, storedMap, received).ids, id) == CountIn(received, id)
  {
    DeliverKnown(d, storedMap, received);
    DeliverProgress(d, storedMap, received);
    assert [] + received == received;
  }

  /** Once a turn raised, the later ids change nothing: the call ended. */
  lemma {:induction false} DeliverStopsAtRaise(d: Delivery, storedMap: int, pending: seq<int>, n: nat)
    requires n <= |pending| && Deliver(d, storedMap, pending[..n]).raised
    ensures Deliver(d, storedMap, pending) == Deliver(d, storedMap, pending[..n])
    decreases |pending|
  {
    if n < |pending| {
      var k := |pending| - 1;
      assert pending[..k][..n] == pending[..n];
      DeliverStopsAtRaise(d, storedMap, pending[..k], n);
    } else {
      assert pending[..n] == pending;
    }
  }

  /** The ids up to `i + 1` are those up to `i`, then id `i`. */
  lemma DeliverNext(d: Delivery, storedMap: int, pending: seq<int>, i: nat)
    requires i < |pending|
    ensures Deliver(d, storedMap, pending[..i + 1]) == DeliverOne(Deliver(d, storedMap, pending[..i]), storedMap, pending[i])
  {
    var p := pending[..i + 1];
    assert p[..i] == pending[..i];
  }

  /** A turn whose id is not in the catalog appends it and raises. */
  lemma DeliverOneUnknown(d: Delivery, storedMap: int, id: int)
    requires !d.raised && Items.GetById(id).None?
    ensures DeliverOne(d, storedMap, id) == d.(ids := d.ids + [id], raised := true)
  {
  }

  /** A turn whose item is found hands it over with the new id counted. */
  lemma DeliverOneFound(d: Delivery, storedMap: int, id: int, item: ItemData)
    requires !d.raised && Items.GetById(id) == Some(item)
    ensures var g := GiveItemMem(d.ram, d.ids + [id], storedMap, item);
      DeliverOne(d, storedMap, id) ==
        if g.None? then d.(ids := d.ids + [id], raised := true)
        else Delivery(d.ids + [id], g.value, d.victory || item.id == VictoryId, d.delivered + 1, false)
  {
  }

  // ---------------------------------------------------------------------------
  // Re-sending the counted items

  /** The items `sync_player_state` hands over again, in its order. */
  const SyncItems: seq<ItemData> := [Items.FuelCell, Items.AlpineRoot, Items.ScarabBag, Items.HpUpgrade,
    Items.MpUpgrade, Items.WhiteGrubTub, Items.GateKey, Items.Cog1, Items.DimAlpineRoot, Items.Tricky]

  /** `_give_item_in_game` for each item in order with the same received
      ids; nothing once a hand-over raises. */
  function GiveEach(m: Mem, ids: seq<int>, storedMap: int, items: seq<ItemData>): Option<Mem>
  {
    if |items| == 0 then Some(m)
    else
      match GiveEach(m, ids, storedMap, items[..|items| - 1])
      case None => None
      case Some(m') => GiveItemMem(m', ids, storedMap, items[|items| - 1])
  }

  /** Handing over the items up to `i + 1` is handing over those up to `i`,
      then item `i`. */
  lemma GiveEachNext(m: Mem, ids: seq<int>, storedMap: int, items: seq<ItemData>, i: nat, m': Mem)
    requires i < |items| && GiveEach(m, ids, storedMap, items[..i]) == Some(m')
    ensures GiveEach(m, ids, storedMap, items[..i + 1]) == GiveItemMem(m', ids, storedMap, items[i])
  {
    var p := items[..i + 1];
    assert p[..i] == items[..i];
  }

  /** Well-formed items are handed over in turn without raising. */
  lemma {:induction false} GiveEachNeverRaises(m: Mem, ids: seq<int>, storedMap: int, items: seq<ItemData>)
    requires forall i :: 0 <= i < |items| ==> Applicable(items[i])
    ensures GiveEach(m, ids, storedMap, items).Some?
  {
    if |items| > 0 {
      var n := |items| - 1;
      assert forall i :: 0 <= i < n ==> items[..n][i] == items[i];
      GiveEachNeverRaises(m, ids, storedMap, items[..n]);
      ApplicableNeverRaises(GiveEach(m, ids, storedMap, items[..n]).value, ids, storedMap, items[n]);
    }
  }

  lemma SyncItemsApplicable()
    ensures forall i :: 0 <= i < |SyncItems| ==> Applicable(SyncItems[i])
  {
    ValueItemsApplicable();
  }

  /** None of them is the goal item. */
  lemma SyncItemsNotGoal()
    ensures forall i :: 0 <= i < |SyncItems| ==> SyncItems[i].id != VictoryId
  {
  }

  /** The memory after `sync_player_state`, which never raises. */
  function SyncMem(m: Mem, ids: seq<int>, storedMap: int): (r: Mem)
    ensures GiveEach(m, ids, storedMap, SyncItems) == Some(r)
  {
    SyncItemsApplicable();
    GiveEachNeverRaises(m, ids, storedMap, SyncItems);
    GiveEach(m, ids, storedMap, SyncItems).value
  }
}
