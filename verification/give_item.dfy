/** `_give_item_in_game` on the session: each branch a method that writes
    through the bit helpers, proved against the memory `GiveItemMem`
    specifies. */
module GiveItem {
  import opened Wrappers
  import opened Binary
  import opened Memory
  import opened BitMemory
  import opened Addresses
  import opened ItemTypes
  import opened ItemEffects
  import opened Context

  /** `set_value_bytes` with one starting byte, raising (and writing
      nothing) when `update_bits` would: a zero width, or a value that is
      negative or does not fit the width. */
  method SetValueChecked(dme: Dolphin, address: int, offset: int, value: int, size: nat) returns (raised: bool)
    modifies dme
    ensures ValueWrite(old(dme.ram), address, offset, value, size) ==
      if raised then None else Some(dme.ram)
    ensures raised ==> dme.ram == old(dme.ram)
  {
    if !(size >= 1 && 0 <= value < Pow2(size)) {
      return true;
    }
    SetValueBytes(dme, address, offset, value, size, 1);
    return false;
  }

  /** The progressive branch: the stages in order, stage `k` on exactly
      when the item was received more than `k` times. */
  method GiveStages(dme: Dolphin, stages: seq<Stage>, count: nat)
    modifies dme
    ensures dme.ram == SetStages(old(dme.ram), stages, count)
  {
    ghost var m := dme.ram;
    var i := 0;
    while i < |stages|
      invariant 0 <= i <= |stages|
      invariant dme.ram == SetStages(m, stages[..i], count)
    {
      StagePrefixStep(m, stages, i, count);
      SetFlagBit(dme, stages[i].address, stages[i].offset, count > i);
      i := i + 1;
    }
    assert stages[..i] == stages;
  }

  /** The quest branch: the copies received (capped) less those used. */
  method GiveQuest(dme: Dolphin, ids: seq<int>, item: ItemData) returns (raised: bool)
    requires item.QuestItem?
    modifies dme
    ensures ValueWrite(old(dme.ram), item.tableAddress, item.bitOffset,
      QuestValue(old(dme.ram), item, ids), item.bitSize) ==
      if raised then None else Some(dme.ram)
    ensures raised ==> dme.ram == old(dme.ram)
  {
    var count := Cap(CountIn(ids, item.id), item.maxCount);
    var used := ReadValueBytes(dme, item.tableAddress, item.usedOffset, item.usedBitSize, 1);
    var value := item.startAmount + (count - used) * item.countIncrement;
    if value < 0 {
      value := 0;
    }
    assert value == QuestValue(dme.ram, item, ids);
    raised := SetValueChecked(dme, item.tableAddress, item.bitOffset, value, item.bitSize);
  }

  /** The count branch: the start amount plus the copies received (capped)
      times the increment. */
  method GiveCount(dme: Dolphin, ids: seq<int>, item: ItemData) returns (raised: bool)
    requires item.CountItem?
    modifies dme
    ensures ValueWrite(old(dme.ram), item.tableAddress, item.bitOffset,
      CountValue(item, ids), item.bitSize) ==
      if raised then None else Some(dme.ram)
    ensures raised ==> dme.ram == old(dme.ram)
  {
    var count := Cap(CountIn(ids, item.id), item.maxCount);
    var value := item.startAmount + count * item.countIncrement;
    assert value == CountValue(item, ids);
    raised := SetValueChecked(dme, item.tableAddress, item.bitOffset, value, item.bitSize);
  }

  /** The consumable branch: the current value plus the refill, capped by
      the maximum read from another field. */
  method GiveConsumable(dme: Dolphin, item: ItemData) returns (raised: bool)
    requires item.ConsumableItem?
    modifies dme
    ensures ValueWrite(old(dme.ram), item.tableAddress, item.bitOffset,
      ConsumableValue(old(dme.ram), item), item.bitSize) ==
      if raised then None else Some(dme.ram)
    ensures raised ==> dme.ram == old(dme.ram)
  {
    var current := ReadValueBytes(dme, item.tableAddress, item.bitOffset, item.bitSize, 1);
    var value := current + item.addValue;
    var maxValue := ReadValueBytes(dme, item.maxReadAddress, 0, item.maxReadBitSize, 1);
    if value > maxValue {
      value := maxValue;
    }
    assert value == ConsumableValue(dme.ram, item);
    raised := SetValueChecked(dme, item.tableAddress, item.bitOffset, value, item.bitSize);
  }

  /** `_give_item_in_game`: the goal item sets the victory flag, a shop item
      inside the shop is skipped, and every other item is written by its
      kind's branch, with the session's ids received; `raised` when a write
      raises, in which case nothing was written. */
  method GiveItemInGame(ctx: SFAContext, item: ItemData) returns (raised: bool)
    modifies ctx`victory, ctx.dme
    ensures GiveItemMem(old(ctx.dme.ram), ctx.receivedItemsId, ctx.storedMap, item) ==
      if raised then None else Some(ctx.dme.ram)
    ensures raised ==> ctx.dme.ram == old(ctx.dme.ram)
    ensures ctx.victory == (old(ctx.victory) || item.id == VictoryId)
  {
    if item.id == VictoryId {
      ctx.victory := true;
      return false;
    }
    if ctx.storedMap == MapShopNo && (item.kind == ShopProgression || item.kind == ShopUseful) {
      return false;
    }
    var dme, ids := ctx.dme, ctx.receivedItemsId;
    if item.ProgressiveItem? {
      GiveStages(dme, item.stages, CountIn(ids, item.id));
      raised := false;
    } else if item.QuestItem? {
      raised := GiveQuest(dme, ids, item);
    } else if item.CountItem? {
      raised := GiveCount(dme, ids, item);
    } else if item.ConsumableItem? {
      raised := GiveConsumable(dme, item);
    } else {
      SetFlagBit(dme, item.tableAddress, item.bitOffset, item.id in ids);
      raised := false;
    }
  }
}
