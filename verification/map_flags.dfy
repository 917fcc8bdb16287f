/** `special_map_flags` on the game's own tables: the map-change branch
    with the magic cave upgrades, the shop entries and the Fire Blaster,
    the DarkIce Mines zone branch with the cogs, their locations and the
    Dinosaur Horn, and the Silver Key branch. */
module MapFlags {
  import opened Memory
  import opened BitHelper
  import opened BitMemory
  import opened Addresses
  import opened LocationTypes
  import opened LocationFlags
  import Locations
  import opened ItemTypes
  import Items
  import opened ItemEffects
  import opened FlagLists
  import opened CogRoom
  import opened ZoneFlags
  import opened TableBits

  // ---------------------------------------------------------------------------
  // The map change

  /** The map-change branch over the upgrade and shop tables and the Fire
      Blaster. */
  function MapChange(m: Mem, storedMap: int, serverChecked: set<int>, server: set<int>, ids: seq<int>): Mem
  {
    MapChangeMem(m, storedMap, Locations.LocationUpgrade, Locations.LocationShop, Items.FireBlaster,
      serverChecked, server, ids)
  }

  /** A table-2 flag away from the single writes is not touched by them. */
  lemma AwayAvoidsFixed(data: LocationData, entered: int, storedMap: int)
    requires InT2(data) && AwayFromFixed(data.bitOffset)
    ensures AvoidsFixed(LocBit(data), entered, storedMap, Items.FireBlaster)
  {
    AvoidsFixedBits(data);
  }

  /** After a map change a shop entry's flag is: on leaving the shop, on
      for a map or when its item was received; on entering the shop, on
      when the server has it checked or does not know it; and otherwise as
      before. */
  lemma ShopAfterMapChange(m: Mem, storedMap: int, serverChecked: set<int>, server: set<int>, ids: seq<int>, k: int)
    requires 0 <= k < |Locations.LocationShop|
    ensures Locations.LocationShop[k].1.ShopLocation?
    ensures FlagOn(MapChange(m, storedMap, serverChecked, server, ids), Locations.LocationShop[k].1) ==
      if storedMap == MapShopNo then
        Locations.LocationShop[k].1.kind == Map || Locations.LocationShop[k].1.linkedItem in ids
      else if ByteAt(m, MapIdAddress) == MapShopNo then
        Locations.LocationShop[k].1.id in serverChecked || Locations.LocationShop[k].1.id !in server
      else FlagOn(m, Locations.LocationShop[k].1)
  {
    var data := Locations.LocationShop[k].1;
    ShopShape();
    ShopBitsDistinct();
    ShopUpgradeApart();
    AwayAvoidsFixed(data, ByteAt(m, MapIdAddress), storedMap);
    MapChangeShopFlag(m, storedMap, Locations.LocationUpgrade, Locations.LocationShop, Items.FireBlaster,
      serverChecked, server, ids, k);
    ToggleFlag(m, data, ByteAt(m, MapIdAddress), MapShopNo, storedMap, serverChecked, server, ids);
  }

  /** The single writes miss the upgrades' flags, the Fire Blaster's
      whenever the world map is not involved. */
  lemma UpgradeAvoidsFixed(entered: int, storedMap: int, k: int)
    requires 0 <= k < |Locations.LocationUpgrade|
    requires k == 0 ==> entered != MapWorldMap && storedMap != MapWorldMap
    ensures AvoidsFixed(LocBit(Locations.LocationUpgrade[k].1), entered, storedMap, Items.FireBlaster)
  {
    UpgradeShape();
    if k == 1 {
      AwayAvoidsFixed(Locations.LocationUpgrade[1].1, entered, storedMap);
    } else {
      ByteOfOffset(T2Address, FireBlasterOffset);
      ByteOfOffset(T2Address, ActOffset);
      OffsetsApart(T2Address, FireBlasterOffset, KrystalOffset);
    }
  }

  /** After a map change an upgrade the cave hands out (judged before the
      change) has the toggle's flag: on leaving the cave, on when its item
      was received; on entering it, on when the server has it checked or
      does not know it. The Fire Blaster upgrade shares its flag with the
      Fire Blaster itself, so for it the world map must not be involved. */
  lemma UpgradeAfterMapChange(m: Mem, storedMap: int, serverChecked: set<int>, server: set<int>, ids: seq<int>, k: int)
    requires 0 <= k < |Locations.LocationUpgrade| && Toggles(m, true, Locations.LocationUpgrade[k].1)
    requires k == 0 ==> ByteAt(m, MapIdAddress) != MapWorldMap && storedMap != MapWorldMap
    ensures FlagOn(MapChange(m, storedMap, serverChecked, server, ids), Locations.LocationUpgrade[k].1) ==
      if storedMap == MapMagicCaveNo then Locations.LocationUpgrade[k].1.linkedItem in ids
      else if ByteAt(m, MapIdAddress) == MapMagicCaveNo then
        Locations.LocationUpgrade[k].1.id in serverChecked || Locations.LocationUpgrade[k].1.id !in server
      else FlagOn(m, Locations.LocationUpgrade[k].1)
  {
    var data := Locations.LocationUpgrade[k].1;
    UpgradeShape();
    UpgradeBitsDistinct();
    ShopUpgradeApart();
    UpgradeAvoidsFixed(ByteAt(m, MapIdAddress), storedMap, k);
    MapChangeUpgradeFlag(m, storedMap, Locations.LocationUpgrade, Locations.LocationShop, Items.FireBlaster,
      serverChecked, server, ids, k);
    ToggleFlag(m, data, ByteAt(m, MapIdAddress), MapMagicCaveNo, storedMap, serverChecked, server, ids);
  }

  /** An upgrade the cave does not hand out keeps its flag. */
  lemma UpgradeKeptOnMapChange(m: Mem, storedMap: int, serverChecked: set<int>, server: set<int>, ids: seq<int>, k: int)
    requires 0 <= k < |Locations.LocationUpgrade| && !Toggles(m, true, Locations.LocationUpgrade[k].1)
    requires k == 0 ==> ByteAt(m, MapIdAddress) != MapWorldMap && storedMap != MapWorldMap
    ensures FlagOn(MapChange(m, storedMap, serverChecked, server, ids), Locations.LocationUpgrade[k].1) ==
      FlagOn(m, Locations.LocationUpgrade[k].1)
  {
    UpgradeBitsDistinct();
    ShopUpgradeApart();
    UpgradeAvoidsFixed(ByteAt(m, MapIdAddress), storedMap, k);
    MapChangeUpgradeFlag(m, storedMap, Locations.LocationUpgrade, Locations.LocationShop, Items.FireBlaster,
      serverChecked, server, ids, k);
  }

  /** The two loops of the map-change branch, before the single writes. */
  function Toggled(m: Mem, storedMap: int, serverChecked: set<int>, server: set<int>, ids: seq<int>): Mem
  {
    var entered := ByteAt(m, MapIdAddress);
    var m1 := ToggleTable(m, m, true, Locations.LocationUpgrade, entered, MapMagicCaveNo, storedMap, serverChecked, server, ids);
    ToggleTable(m1, m1, false, Locations.LocationShop, entered, MapShopNo, storedMap, serverChecked, server, ids)
  }

  lemma MapChangeSteps(m: Mem, storedMap: int, serverChecked: set<int>, server: set<int>, ids: seq<int>)
    ensures MapChange(m, storedMap, serverChecked, server, ids) ==
      FixedWrites(Toggled(m, storedMap, serverChecked, server, ids), ByteAt(m, MapIdAddress), storedMap, Items.FireBlaster, ids)
  {
  }

  /** The Fire Blaster's bit, the Krystal spirit's bit and the act field's
      byte are apart. */
  lemma FixedBitsApart()
    ensures ItemBit(Items.FireBlaster).0 != ActField().0
    ensures ItemBit(Items.FireBlaster) != KrystalBit()
  {
    ByteOfOffset(T2Address, FireBlasterOffset);
    ByteOfOffset(T2Address, ActOffset);
    OffsetsApart(T2Address, FireBlasterOffset, KrystalOffset);
  }

  /** Entering ThornTail Hollow puts its act field at 2. */
  lemma ActOnEntering(m: Mem, storedMap: int, serverChecked: set<int>, server: set<int>, ids: seq<int>)
    requires ByteAt(m, MapIdAddress) == MapThornTailHollow
    ensures ReadValue(MapChange(m, storedMap, serverChecked, server, ids), T2Address, ThornTailActOffset,
      ThornTailActSize, 1) == ThornTailAct
  {
    MapChangeSteps(m, storedMap, serverChecked, server, ids);
    FixedBitsApart();
    FixedWritesAct(Toggled(m, storedMap, serverChecked, server, ids), ByteAt(m, MapIdAddress), storedMap, Items.FireBlaster, ids);
  }

  /** Entering the world map from elsewhere takes the Fire Blaster away. */
  lemma FireBlasterOffOnWorldMap(m: Mem, storedMap: int, serverChecked: set<int>, server: set<int>, ids: seq<int>)
    requires ByteAt(m, MapIdAddress) == MapWorldMap && storedMap != MapWorldMap
    ensures !FlagBit(MapChange(m, storedMap, serverChecked, server, ids), Items.FireBlaster.tableAddress,
      Items.FireBlaster.bitOffset)
  {
    MapChangeSteps(m, storedMap, serverChecked, server, ids);
    FixedWritesFireBlasterOff(Toggled(m, storedMap, serverChecked, server, ids), ByteAt(m, MapIdAddress), storedMap,
      Items.FireBlaster, ids);
  }

  /** Leaving the world map gives the Fire Blaster back exactly when it was
      received. */
  lemma FireBlasterBackOffWorldMap(m: Mem, storedMap: int, serverChecked: set<int>, server: set<int>, ids: seq<int>)
    requires storedMap == MapWorldMap
    ensures FlagBit(MapChange(m, storedMap, serverChecked, server, ids), Items.FireBlaster.tableAddress,
      Items.FireBlaster.bitOffset) == (Items.FireBlaster.id in ids)
  {
    MapChangeSteps(m, storedMap, serverChecked, server, ids);
    FixedBitsApart();
    FixedWritesFireBlasterBack(Toggled(m, storedMap, serverChecked, server, ids), ByteAt(m, MapIdAddress), storedMap,
      Items.FireBlaster, ids);
  }

  /** Entering the first Krystal spirit's map turns its flag on. */
  lemma KrystalOnEntering(m: Mem, storedMap: int, serverChecked: set<int>, server: set<int>, ids: seq<int>)
    requires ByteAt(m, MapIdAddress) == MapKrystalSpirit
    ensures FlagBit(MapChange(m, storedMap, serverChecked, server, ids), T2Address, KrystalSpiritOffset)
  {
    MapChangeSteps(m, storedMap, serverChecked, server, ids);
    FixedWritesKrystal(Toggled(m, storedMap, serverChecked, server, ids), ByteAt(m, MapIdAddress), storedMap,
      Items.FireBlaster, ids);
  }

  // ---------------------------------------------------------------------------
  // The DarkIce Mines zones

  /** "DIM: Cog 2 Chest", "DIM: Get Cog 3" and "DIM: Get Cog 4". */
  const CogChests: seq<LocationData> := [Locations.LocationAny[15].1, Locations.LocationAny[16].1, Locations.LocationAny[17].1]

  lemma CogChestsNamed()
    ensures Locations.LocationAny[15].0 == "DIM: Cog 2 Chest"
    ensures Locations.LocationAny[16].0 == "DIM: Get Cog 3"
    ensures Locations.LocationAny[17].0 == "DIM: Get Cog 4"
  {
  }

  /** The zone branch over the cogs, the Dinosaur Horn and the cog chests. */
  function DimZone(m: Mem, zone: int, storedMap: int, serverChecked: set<int>, ids: seq<int>): Mem
  {
    DimZoneMem(m, zone, storedMap, Items.Cogs, Items.DinosaurHorn, CogChests, serverChecked, ids)
  }

  /** The cogs' stages are the table-2 flags 0x371, 0x373 and 0x375; the
      chests' flags are the ones just below, 0x370, 0x372 and 0x374. */
  lemma CogsShape()
    ensures Items.Cogs.ProgressiveItem? && |Items.Cogs.stages| == 3 && |CogChests| == 3
    ensures forall k :: 0 <= k < 3 ==>
      Items.Cogs.stages[k].address == T2Address && Items.Cogs.stages[k].offset == 0x0371 + 2 * k &&
      CogChests[k].tableAddress == T2Address && CogChests[k].bitOffset == 0x0370 + 2 * k
  {
  }

  /** The cog room's pairs are apart. */
  lemma CogPairsApart()
    ensures PairsApart(StagePairs(Items.Cogs.stages))
  {
    CogsShape();
    var pairs := StagePairs(Items.Cogs.stages);
    forall i, j | 0 <= i < |pairs| && 0 <= j < |pairs|
      ensures OffBit(pairs[i]) != OnBit(pairs[j])
      ensures i < j ==> OnBit(pairs[i]) != OnBit(pairs[j])
    {
      OffsetsApart(T2Address, 0x0370 + 2 * i, 0x0371 + 2 * j);
      if i < j {
        OffsetsApart(T2Address, 0x0371 + 2 * i, 0x0371 + 2 * j);
      }
    }
  }

  /** Inside the cog room, cog stage `k` ends on exactly when the cogs were
      received more than `k` times. */
  lemma CogRoomStage(m: Mem, storedMap: int, serverChecked: set<int>, ids: seq<int>, k: int)
    requires 0 <= k < |Items.Cogs.stages|
    ensures FlagBit(DimZone(m, DimCogRoom, storedMap, serverChecked, ids), Items.Cogs.stages[k].address,
      Items.Cogs.stages[k].offset) == (CountIn(ids, Items.Cogs.id) > k)
  {
    CogPairsApart();
    CogRoomFlags(ApplyItem(m, ids, storedMap, Items.DinosaurHorn), Items.Cogs.stages, CountIn(ids, Items.Cogs.id), k);
  }

  /** Inside the cog room every cog chest's flag ends off, whatever the
      server knows: the flag below each stage is a chest's flag. */
  lemma CogRoomChestOff(m: Mem, storedMap: int, serverChecked: set<int>, ids: seq<int>, j: int)
    requires 0 <= j < |CogChests|
    ensures !FlagOn(DimZone(m, DimCogRoom, storedMap, serverChecked, ids), CogChests[j])
  {
    CogsShape();
    CogPairsApart();
    CogRoomFlags(ApplyItem(m, ids, storedMap, Items.DinosaurHorn), Items.Cogs.stages, CountIn(ids, Items.Cogs.id), j);
  }

  /** The stages and the chests do not share a bit. */
  lemma CogBitsApart()
    ensures StagesDistinct(Items.Cogs.stages)
    ensures forall i, k :: 0 <= i < |CogChests| && 0 <= k < |Items.Cogs.stages| ==>
      LocBit(CogChests[i]) != StageBit(Items.Cogs.stages[k])
    ensures forall c :: FlagBitsDistinct(CogLocationFlags(CogChests, c))
  {
    CogsShape();
    forall i, k | 0 <= i < 3 && 0 <= k < 3
      ensures LocBit(CogChests[i]) != StageBit(Items.Cogs.stages[k])
      ensures i < k ==> StageBit(Items.Cogs.stages[i]) != StageBit(Items.Cogs.stages[k])
      ensures i < k ==> LocBit(CogChests[i]) != LocBit(CogChests[k])
    {
      OffsetsApart(T2Address, 0x0370 + 2 * i, 0x0371 + 2 * k);
      if i < k {
        OffsetsApart(T2Address, 0x0371 + 2 * i, 0x0371 + 2 * k);
        OffsetsApart(T2Address, 0x0370 + 2 * i, 0x0370 + 2 * k);
      }
    }
  }

  /** Outside the cog room every cog stage ends on, so no cog shows. */
  lemma AwayCogStage(m: Mem, zone: int, storedMap: int, serverChecked: set<int>, ids: seq<int>, k: int)
    requires zone != DimCogRoom && 0 <= k < |Items.Cogs.stages|
    ensures FlagBit(DimZone(m, zone, storedMap, serverChecked, ids), Items.Cogs.stages[k].address, Items.Cogs.stages[k].offset)
  {
    CogBitsApart();
    AwayStagesOn(ApplyItem(m, ids, storedMap, Items.DinosaurHorn), Items.Cogs.stages, CogChests, serverChecked, k);
  }

  /** Outside the cog room each cog chest's flag ends on exactly when the
      server has that location checked. */
  lemma AwayCogChest(m: Mem, zone: int, storedMap: int, serverChecked: set<int>, ids: seq<int>, j: int)
    requires zone != DimCogRoom && 0 <= j < |CogChests|
    ensures FlagOn(DimZone(m, zone, storedMap, serverChecked, ids), CogChests[j]) == (CogChests[j].id in serverChecked)
  {
    CogBitsApart();
    AwayLocationFlag(SetStages(ApplyItem(m, ids, storedMap, Items.DinosaurHorn), Items.Cogs.stages, |Items.Cogs.stages|),
      CogChests, serverChecked, j);
  }

  /** The Dinosaur Horn's bit is neither a cog stage, nor the bit below one,
      nor a cog chest. */
  lemma HornApart(serverChecked: set<int>)
    ensures PairsAvoid(StagePairs(Items.Cogs.stages), GetBitAddress(T2Address, 0x03A0))
    ensures forall i :: 0 <= i < |Items.Cogs.stages| ==> StageBit(Items.Cogs.stages[i]) != GetBitAddress(T2Address, 0x03A0)
    ensures forall i :: 0 <= i < |CogChests| ==>
      ForcedBit(CogLocationFlags(CogChests, serverChecked)[i]) != GetBitAddress(T2Address, 0x03A0)
  {
    CogsShape();
    var pairs := StagePairs(Items.Cogs.stages);
    forall i | 0 <= i < 3
      ensures OnBit(pairs[i]) != GetBitAddress(T2Address, 0x03A0)
      ensures OffBit(pairs[i]) != GetBitAddress(T2Address, 0x03A0)
      ensures ForcedBit(CogLocationFlags(CogChests, serverChecked)[i]) != GetBitAddress(T2Address, 0x03A0)
    {
      OffsetsApart(T2Address, 0x0371 + 2 * i, 0x03A0);
      OffsetsApart(T2Address, 0x0370 + 2 * i, 0x03A0);
    }
  }

  /** The cog writes of either zone branch leave the horn's flag alone. */
  lemma HornKept(m: Mem, zone: int, serverChecked: set<int>, ids: seq<int>)
    ensures FlagBit(if zone == DimCogRoom then CogRoomMem(m, Items.Cogs.stages, CountIn(ids, Items.Cogs.id))
      else SetFlags(SetStages(m, Items.Cogs.stages, |Items.Cogs.stages|), CogLocationFlags(CogChests, serverChecked)),
      T2Address, 0x03A0) == FlagBit(m, T2Address, 0x03A0)
  {
    HornApart(serverChecked);
    if zone == DimCogRoom {
      PairsFrame(m, StagePairs(Items.Cogs.stages), CountIn(ids, Items.Cogs.id), T2Address, 0x03A0);
    } else {
      StagesFrame(m, Items.Cogs.stages, |Items.Cogs.stages|, T2Address, 0x03A0);
      SetFlagsFrame(SetStages(m, Items.Cogs.stages, |Items.Cogs.stages|), CogLocationFlags(CogChests, serverChecked),
        T2Address, 0x03A0);
    }
  }

  /** On every change of the zone word the Dinosaur Horn's flag is set to
      whether the horn was received, in the cog room and out of it. */
  lemma HornAfterDimZone(m: Mem, zone: int, storedMap: int, serverChecked: set<int>, ids: seq<int>)
    ensures FlagBit(DimZone(m, zone, storedMap, serverChecked, ids), Items.DinosaurHorn.tableAddress,
      Items.DinosaurHorn.bitOffset) == (Items.DinosaurHorn.id in ids)
  {
    PlainItemFlag(m, ids, storedMap, Items.DinosaurHorn);
    HornKept(ApplyItem(m, ids, storedMap, Items.DinosaurHorn), zone, serverChecked, ids);
  }

  // ---------------------------------------------------------------------------
  // The Silver Key

  /** "DIM: Get Silver Key": the flag of the Cell Silver Key, counted only in
      the key's cell. */
  const SilverKeyLocation: LocationData := Locations.LocationAny[19].1

  lemma SilverKeyNamed()
    ensures Locations.LocationAny[19].0 == "DIM: Get Silver Key"
    ensures SilverKeyLocation.LinkedLocation? && SilverKeyLocation.linkedItem == Items.CellSilverKey.id
    ensures SilverKeyLocation.tableAddress == Items.CellSilverKey.tableAddress
    ensures SilverKeyLocation.bitOffset == Items.CellSilverKey.bitOffset
  {
  }

  /** The second zone branch over the Silver Key location. */
  function SilverKey(m: Mem, zone: int, serverChecked: set<int>, ids: seq<int>): Mem
  {
    SilverKeyMem(m, zone, SilverKeyLocation, serverChecked, ids)
  }

  /** On every change of the second zone word the Cell Silver Key's flag is
      set to whether the server has the location checked while the player is
      in the key's cell, and to whether the key was received anywhere else. */
  lemma SilverKeyAfterZone(m: Mem, zone: int, serverChecked: set<int>, ids: seq<int>)
    ensures FlagBit(SilverKey(m, zone, serverChecked, ids), Items.CellSilverKey.tableAddress, Items.CellSilverKey.bitOffset) ==
      if zone == DimKeyZoneA || zone == DimKeyZoneB then SilverKeyLocation.id in serverChecked
      else Items.CellSilverKey.id in ids
  {
    SilverKeyNamed();
    SilverKeyFlag(m, zone, SilverKeyLocation, serverChecked, ids);
  }
}
