/** What `_give_item_in_game` does to the game's memory, as a function of
    the memory, the ids received so far and the last map seen, for every
    shape of descriptor, and what each shape leaves in its field. */
module ItemEffects {
  import opened Wrappers
  import opened Binary
  import opened Memory
  import opened BitHelper
  import opened BitMemory
  import opened Addresses
  import opened ItemTypes

  /** `list.count`: how often `id` occurs in `ids`. */
  function CountIn(ids: seq<int>, id: int): nat
  {
    multiset(ids)[id]
  }

  /** A count capped at `max` (`if count > max: count = max`). */
  function Cap(count: int, max: int): int
  {
    if count > max then max else count
  }

  /** `set_value_bytes` with one starting byte, for any value: nothing when
      `update_bits` raises, that is when the width is zero (the padding loop
      divides by it) or the value is negative or does not fit the width. */
  function ValueWrite(m: Mem, address: int, offset: int, value: int, size: nat): Option<Mem>
  {
    if size >= 1 && 0 <= value < Pow2(size) then Some(SetValueMem(m, address, offset, value, size, 1)) else None
  }

  /** The flags of a progressive item's stages, set in stage order: stage
      `k` is turned on exactly when the item was received more than `k`
      times. */
  function SetStages(m: Mem, stages: seq<Stage>, count: int): Mem
  {
    if |stages| == 0 then m
    else
      var n := |stages| - 1;
      SetFlagMem(SetStages(m, stages[..n], count), stages[n].address, stages[n].offset, count > n)
  }

  /** The value a count item writes. */
  function CountValue(item: ItemData, ids: seq<int>): int
    requires item.CountItem? || item.QuestItem?
  {
    item.startAmount + Cap(CountIn(ids, item.id), item.maxCount) * item.countIncrement
  }

  /** The value a quest item writes: the copies received minus those already
      handed over in game, never below zero. */
  function QuestValue(m: Mem, item: ItemData, ids: seq<int>): int
    requires item.QuestItem?
  {
    var used := ReadValue(m, item.tableAddress, item.usedOffset, item.usedBitSize, 1);
    var value := item.startAmount + (Cap(CountIn(ids, item.id), item.maxCount) - used) * item.countIncrement;
    if value < 0 then 0 else value
  }

  /** The value a consumable writes: the current value plus the refill,
      capped by the maximum read from another field. */
  function ConsumableValue(m: Mem, item: ItemData): int
    requires item.ConsumableItem?
  {
    var current := ReadValue(m, item.tableAddress, item.bitOffset, item.bitSize, 1);
    Cap(current + item.addValue, ReadValue(m, item.maxReadAddress, 0, item.maxReadBitSize, 1))
  }

  /** The memory after `_give_item_in_game` for `item`, with `ids` the ids
      received so far (the new one included) and `storedMap` the last map
      seen; nothing when a write raises. The goal item touches no memory, and
      neither does a shop item while the player is in the shop. */
  function GiveItemMem(m: Mem, ids: seq<int>, storedMap: int, item: ItemData): Option<Mem>
  {
    if item.id == VictoryId then Some(m)
    else if storedMap == MapShopNo && (item.kind == ShopProgression || item.kind == ShopUseful) then Some(m)
    else if item.ProgressiveItem? then Some(SetStages(m, item.stages, CountIn(ids, item.id)))
    else if item.QuestItem? then ValueWrite(m, item.tableAddress, item.bitOffset, QuestValue(m, item, ids), item.bitSize)
    else if item.CountItem? then ValueWrite(m, item.tableAddress, item.bitOffset, CountValue(item, ids), item.bitSize)
    else if item.ConsumableItem? then
      ValueWrite(m, item.tableAddress, item.bitOffset, ConsumableValue(m, item), item.bitSize)
    else Some(SetFlagMem(m, item.tableAddress, item.bitOffset, item.id in ids))
  }

  /** A descriptor whose every write fits its field: counts and increments
      are not negative and the largest count fits the width, and a
      consumable's maximum is no wider than its own field. */
  predicate Applicable(item: ItemData)
  {
    match item
    case CountItem(_, _, _, _, _, maxCount, bitSize, countIncrement, startAmount) =>
      bitSize >= 1 && maxCount >= 0 && countIncrement >= 0 && startAmount >= 0 &&
      startAmount + maxCount * countIncrement < Pow2(bitSize)
    case QuestItem(_, _, _, _, _, maxCount, bitSize, countIncrement, startAmount, _, _) =>
      bitSize >= 1 && maxCount >= 0 && countIncrement >= 0 && startAmount >= 0 &&
      startAmount + maxCount * countIncrement < Pow2(bitSize)
    case ConsumableItem(_, _, _, _, _, addValue, bitSize, _, maxReadBitSize) =>
      bitSize >= 1 && addValue >= 0 && maxReadBitSize <= bitSize
    case _ => true
  }

  lemma MulMonotone(a: int, b: int, c: int)
    requires a <= b && c >= 0
    ensures a * c <= b * c
  {
    assert b * c - a * c == (b - a) * c;
  }

  /** Handing over a well-formed descriptor never raises. */
  lemma ApplicableNeverRaises(m: Mem, ids: seq<int>, storedMap: int, item: ItemData)
    requires Applicable(item)
    ensures GiveItemMem(m, ids, storedMap, item).Some?
  {
    if item.QuestItem? {
      QuestFits(m, item, ids);
    } else if item.CountItem? {
      MulMonotone(0, Cap(CountIn(ids, item.id), item.maxCount), item.countIncrement);
      MulMonotone(Cap(CountIn(ids, item.id), item.maxCount), item.maxCount, item.countIncrement);
    } else if item.ConsumableItem? {
      Pow2Monotone(item.maxReadBitSize, item.bitSize);
    }
  }

  lemma QuestFits(m: Mem, item: ItemData, ids: seq<int>)
    requires item.QuestItem? && Applicable(item)
    ensures 0 <= QuestValue(m, item, ids) < Pow2(item.bitSize)
  {
    var count := Cap(CountIn(ids, item.id), item.maxCount);
    var used := ReadValue(m, item.tableAddress, item.usedOffset, item.usedBitSize, 1);
    MulMonotone(count - used, count, item.countIncrement);
    MulMonotone(count, item.maxCount, item.countIncrement);
  }

  /** The memory after handing over a well-formed item. */
  function ApplyItem(m: Mem, ids: seq<int>, storedMap: int, item: ItemData): Mem
    requires Applicable(item)
  {
    ApplicableNeverRaises(m, ids, storedMap, item);
    GiveItemMem(m, ids, storedMap, item).value
  }

  // ---------------------------------------------------------------------------
  // What each kind of item does to memory

  /** Neither the goal item nor a shop item handed over inside the shop
      touches memory. */
  lemma GoalAndShopWriteNothing(m: Mem, ids: seq<int>, storedMap: int, item: ItemData)
    requires item.id == VictoryId ||
      (storedMap == MapShopNo && (item.kind == ShopProgression || item.kind == ShopUseful))
    ensures GiveItemMem(m, ids, storedMap, item) == Some(m)
  {
  }

  /** The item is handled by its own branch: it is not the goal and not a
      shop item inside the shop. */
  predicate Dispatched(storedMap: int, item: ItemData)
  {
    item.id != VictoryId &&
    !(storedMap == MapShopNo && (item.kind == ShopProgression || item.kind == ShopUseful))
  }

  /** A plain item sets its own flag to whether it was received, and no other
      flag changes. */
  lemma PlainItemFlag(m: Mem, ids: seq<int>, storedMap: int, item: ItemData)
    requires item.PlainItem? || item.StaffItem?
    requires Dispatched(storedMap, item)
    ensures GiveItemMem(m, ids, storedMap, item).Some?
    ensures FlagBit(GiveItemMem(m, ids, storedMap, item).value, item.tableAddress, item.bitOffset) == (item.id in ids)
    ensures forall address, offset :: GetBitAddress(address, offset) != GetBitAddress(item.tableAddress, item.bitOffset) ==>
      FlagBit(GiveItemMem(m, ids, storedMap, item).value, address, offset) == FlagBit(m, address, offset)
  {
    SetFlagReadBack(m, item.tableAddress, item.bitOffset, item.id in ids);
    forall address, offset | GetBitAddress(address, offset) != GetBitAddress(item.tableAddress, item.bitOffset)
      ensures FlagBit(SetFlagMem(m, item.tableAddress, item.bitOffset, item.id in ids), address, offset) == FlagBit(m, address, offset)
    {
      SetFlagOther(m, item.tableAddress, item.bitOffset, item.id in ids, address, offset);
    }
  }

  /** The memory bit a stage's flag lives in. */
  function StageBit(stage: Stage): (int, nat)
  {
    GetBitAddress(stage.address, stage.offset)
  }

  /** No two stages share a bit. */
  predicate StagesDistinct(stages: seq<Stage>)
  {
    forall i, j :: 0 <= i < j < |stages| ==> StageBit(stages[i]) != StageBit(stages[j])
  }

  /** A prefix of distinct stages is distinct. */
  lemma PrefixDistinct(stages: seq<Stage>, n: nat)
    requires StagesDistinct(stages) && n <= |stages|
    ensures StagesDistinct(stages[..n])
  {
    forall i, j | 0 <= i < j < n
      ensures StageBit(stages[..n][i]) != StageBit(stages[..n][j])
    {
      assert stages[..n][i] == stages[i] && stages[..n][j] == stages[j];
    }
  }

  /** The last stage is written after all the others. */
  lemma StageStep(m: Mem, stages: seq<Stage>, count: int)
    requires |stages| > 0
    ensures SetStages(m, stages, count) == SetFlagMem(SetStages(m, stages[..|stages| - 1], count),
      stages[|stages| - 1].address, stages[|stages| - 1].offset, count > |stages| - 1)
  {
  }

  /** The stages up to `i + 1` are those up to `i`, then stage `i`. */
  lemma StagePrefixStep(m: Mem, stages: seq<Stage>, i: nat, count: int)
    requires i < |stages|
    ensures SetStages(m, stages[..i + 1], count) ==
      SetFlagMem(SetStages(m, stages[..i], count), stages[i].address, stages[i].offset, count > i)
  {
    var p := stages[..i + 1];
    assert p[..i] == stages[..i];
    StageStep(m, p, count);
  }

  /** After setting the stages for `count` copies, stage `k` is on exactly
      when `count > k`: the first `min(count, |stages|)` stages are on and
      the rest off. */
  lemma {:induction false} StagesFlags(m: Mem, stages: seq<Stage>, count: int, k: int)
    requires StagesDistinct(stages) && 0 <= k < |stages|
    ensures FlagBit(SetStages(m, stages, count), stages[k].address, stages[k].offset) == (count > k)
  {
    var n := |stages| - 1;
    StageStep(m, stages, count);
    if k == n {
      SetFlagReadBack(SetStages(m, stages[..n], count), stages[n].address, stages[n].offset, count > n);
    } else {
      PrefixDistinct(stages, n);
      StagesFlags(m, stages[..n], count, k);
      assert stages[..n][k] == stages[k];
      assert StageBit(stages[k]) != StageBit(stages[n]);
      SetFlagOther(SetStages(m, stages[..n], count), stages[n].address, stages[n].offset, count > n,
        stages[k].address, stages[k].offset);
    }
  }

  /** Setting the stages leaves every flag outside them alone. */
  lemma {:induction false} StagesFrame(m: Mem, stages: seq<Stage>, count: int, address: int, offset: int)
    requires forall i :: 0 <= i < |stages| ==> StageBit(stages[i]) != GetBitAddress(address, offset)
    ensures FlagBit(SetStages(m, stages, count), address, offset) == FlagBit(m, address, offset)
  {
    if |stages| > 0 {
      var n := |stages| - 1;
      StageStep(m, stages, count);
      PrefixAvoids(stages, n, GetBitAddress(address, offset));
      StagesFrame(m, stages[..n], count, address, offset);
      assert StageBit(stages[n]) != GetBitAddress(address, offset);
      SetFlagOther(SetStages(m, stages[..n], count), stages[n].address, stages[n].offset, count > n, address, offset);
    }
  }

  /** A prefix of stages that avoid a bit avoids it too. */
  lemma PrefixAvoids(stages: seq<Stage>, n: nat, bit: (int, nat))
    requires n <= |stages|
    requires forall i :: 0 <= i < |stages| ==> StageBit(stages[i]) != bit
    ensures forall i :: 0 <= i < n ==> StageBit(stages[..n][i]) != bit
  {
    assert forall i :: 0 <= i < n ==> stages[..n][i] == stages[i];
  }

  /** A progressive item received `c` times turns on stage `k` exactly when
      `c > k`. */
  lemma ProgressiveStages(m: Mem, ids: seq<int>, storedMap: int, item: ItemData, k: int)
    requires item.ProgressiveItem? && Dispatched(storedMap, item)
    requires StagesDistinct(item.stages) && 0 <= k < |item.stages|
    ensures GiveItemMem(m, ids, storedMap, item).Some?
    ensures FlagBit(GiveItemMem(m, ids, storedMap, item).value, item.stages[k].address, item.stages[k].offset) ==
      (CountIn(ids, item.id) > k)
  {
    StagesFlags(m, item.stages, CountIn(ids, item.id), k);
  }

  /** A count item writes `start_amount + min(count, max_count) * count_increment`
      into its field. */
  lemma CountItemValue(m: Mem, ids: seq<int>, storedMap: int, item: ItemData, nb: nat)
    requires item.CountItem? && Applicable(item) && Dispatched(storedMap, item) && item.bitOffset >= 0
    ensures ReadValue(ApplyItem(m, ids, storedMap, item), item.tableAddress, item.bitOffset, item.bitSize, nb) ==
      item.startAmount + (if CountIn(ids, item.id) > item.maxCount then item.maxCount else CountIn(ids, item.id)) * item.countIncrement
  {
    ApplicableNeverRaises(m, ids, storedMap, item);
    SetValueReadBack(m, item.tableAddress, item.bitOffset, CountValue(item, ids), item.bitSize, 1, nb);
  }

  /** A count item's hand-over is one field write of its count value. */
  lemma CountItemWrite(m: Mem, ids: seq<int>, storedMap: int, item: ItemData)
    requires item.CountItem? && Applicable(item) && Dispatched(storedMap, item)
    ensures 0 <= CountValue(item, ids) < Pow2(item.bitSize)
    ensures ApplyItem(m, ids, storedMap, item) ==
      SetValueMem(m, item.tableAddress, item.bitOffset, CountValue(item, ids), item.bitSize, 1)
  {
    ApplicableNeverRaises(m, ids, storedMap, item);
  }

  /** A quest item's hand-over is one field write of its quest value. */
  lemma QuestItemWrite(m: Mem, ids: seq<int>, storedMap: int, item: ItemData)
    requires item.QuestItem? && Applicable(item) && Dispatched(storedMap, item)
    ensures 0 <= QuestValue(m, item, ids) < Pow2(item.bitSize)
    ensures ApplyItem(m, ids, storedMap, item) ==
      SetValueMem(m, item.tableAddress, item.bitOffset, QuestValue(m, item, ids), item.bitSize, 1)
  {
    QuestFits(m, item, ids);
  }

  /** A quest item writes the copies received (at most `max_count`) less the
      copies already used, never below zero. */
  lemma QuestItemValue(m: Mem, ids: seq<int>, storedMap: int, item: ItemData, nb: nat)
    requires item.QuestItem? && Applicable(item) && Dispatched(storedMap, item) && item.bitOffset >= 0
    ensures var used := ReadValue(m, item.tableAddress, item.usedOffset, item.usedBitSize, 1);
      var value := item.startAmount + (Cap(CountIn(ids, item.id), item.maxCount) - used) * item.countIncrement;
      ReadValue(ApplyItem(m, ids, storedMap, item), item.tableAddress, item.bitOffset, item.bitSize, nb) ==
        if value < 0 then 0 else value
  {
    QuestFits(m, item, ids);
    SetValueReadBack(m, item.tableAddress, item.bitOffset, QuestValue(m, item, ids), item.bitSize, 1, nb);
  }

  /** A consumable adds its refill to the current value, capped by the
      maximum read from its other field. */
  lemma ConsumableItemValue(m: Mem, ids: seq<int>, storedMap: int, item: ItemData, nb: nat)
    requires item.ConsumableItem? && Applicable(item) && Dispatched(storedMap, item) && item.bitOffset >= 0
    ensures var current := ReadValue(m, item.tableAddress, item.bitOffset, item.bitSize, 1);
      var max := ReadValue(m, item.maxReadAddress, 0, item.maxReadBitSize, 1);
      ReadValue(ApplyItem(m, ids, storedMap, item), item.tableAddress, item.bitOffset, item.bitSize, nb) ==
        if current + item.addValue > max then max else current + item.addValue
  {
    ApplicableNeverRaises(m, ids, storedMap, item);
    SetValueReadBack(m, item.tableAddress, item.bitOffset, ConsumableValue(m, item), item.bitSize, 1, nb);
  }


}
