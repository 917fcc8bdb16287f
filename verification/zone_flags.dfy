/** What `special_map_flags` writes, over the tables and descriptors it is
    given: on a map change the toggles of the magic cave upgrades and the
    shop entries followed by a few single flags, on entering a DarkIce Mines
    zone the cogs and the cog locations, and on entering the Silver Key
    cell's zone the key location's flag. */
module ZoneFlags {
  import opened Binary
  import opened Memory
  import opened BitHelper
  import opened BitMemory
  import opened Addresses
  import opened LocationTypes
  import opened LocationFlags
  import opened ItemTypes
  import opened ItemEffects
  import opened FlagLists
  import opened CogRoom

  /** ThornTail Hollow's act: a 4-bit field of table 2, forced to 2 when the
      player enters the map. */
  const ThornTailActOffset := 0x0722
  const ThornTailActSize := 4
  const ThornTailAct := 2
  /** The flag of the first Krystal spirit, in table 2. */
  const KrystalSpiritOffset := 0x053C

  /** The byte and bit the act field starts at. */
  function ActField(): (int, nat)
  {
    GetBitAddress(T2Address, ThornTailActOffset)
  }

  function KrystalBit(): (int, nat)
  {
    GetBitAddress(T2Address, KrystalSpiritOffset)
  }

  /** The byte and bit of an item's flag. */
  function ItemBit(item: ItemData): (int, nat)
  {
    GetBitAddress(item.tableAddress, item.bitOffset)
  }

  /** `set_value_bytes(address, offset, 0x2, 4)` on the act field. */
  function ActWrite(m: Mem): Mem
  {
    assert Pow2(ThornTailActSize) == 16;
    SetValueMem(m, ActField().0, ActField().1, ThornTailAct, ThornTailActSize, 1)
  }

  /** The act field written when `c` holds. */
  function ActIf(m: Mem, c: bool): Mem
  {
    if c then ActWrite(m) else m
  }

  /** A flag written when `c` holds. */
  function FlagIf(m: Mem, c: bool, address: int, offset: int, value: bool): Mem
  {
    if c then SetFlagMem(m, address, offset, value) else m
  }

  /** The single writes after the two loops of the map handler: the act of
      ThornTail Hollow on entering it, the Fire Blaster's flag cleared on
      entering the world map and set back to whether it was received on
      leaving it, and the first Krystal spirit's flag on entering its map.
      Each write goes to the byte and bit `get_bit_address` gave, which the
      helpers turn into a byte and bit once more. */
  function FixedWrites(m: Mem, entered: int, storedMap: int, fireBlaster: ItemData, ids: seq<int>): Mem
  {
    FlagIf(WorldMapWrites(ActIf(m, entered == MapThornTailHollow), entered, storedMap, ItemBit(fireBlaster),
      fireBlaster.id in ids), entered == MapKrystalSpirit, KrystalBit().0, KrystalBit().1, true)
  }

  /** The Fire Blaster's flag, at byte and bit `p`: cleared on entering the
      world map, set back to `received` on leaving it. */
  function WorldMapWrites(m: Mem, entered: int, storedMap: int, p: (int, nat), received: bool): Mem
  {
    FlagIf(FlagIf(m, entered == MapWorldMap, p.0, p.1, false), storedMap == MapWorldMap, p.0, p.1, received)
  }

  /** A bit none of the single writes touches on this map change. */
  predicate AvoidsFixed(bit: (int, nat), entered: int, storedMap: int, fireBlaster: ItemData)
  {
    (entered == MapThornTailHollow ==> bit.0 != ActField().0) &&
    (entered == MapWorldMap || storedMap == MapWorldMap ==> bit != ItemBit(fireBlaster)) &&
    (entered == MapKrystalSpirit ==> bit != KrystalBit())
  }

  /** Writing the act field changes no other byte. */
  lemma ActWriteOther(m: Mem, x: int)
    requires x != ActField().0
    ensures ByteAt(ActWrite(m), x) == ByteAt(m, x)
  {
    assert Pow2(ThornTailActSize) == 16;
    assert Window(ActField().1, ThornTailActSize, 1) == 1;
    SetValueOutside(m, ActField().0, ActField().1, ThornTailAct, ThornTailActSize, 1, x);
  }

  lemma ActIfOther(m: Mem, c: bool, address: int, offset: int)
    requires c ==> GetBitAddress(address, offset).0 != ActField().0
    ensures FlagBit(ActIf(m, c), address, offset) == FlagBit(m, address, offset)
  {
    if c {
      ActWriteOther(m, GetBitAddress(address, offset).0);
    }
  }

  lemma FlagIfOther(m: Mem, c: bool, a: int, o: int, value: bool, address: int, offset: int)
    requires c ==> GetBitAddress(a, o) != GetBitAddress(address, offset)
    ensures FlagBit(FlagIf(m, c, a, o, value), address, offset) == FlagBit(m, address, offset)
  {
    if c {
      SetFlagOther(m, a, o, value, address, offset);
    }
  }

  lemma FlagIfSame(m: Mem, c: bool, a: int, o: int, value: bool)
    ensures FlagBit(FlagIf(m, c, a, o, value), a, o) == if c then value else FlagBit(m, a, o)
  {
    if c {
      SetFlagReadBack(m, a, o, value);
    }
  }

  /** The Fire Blaster's writes leave every other flag alone. */
  lemma WorldMapOther(m: Mem, entered: int, storedMap: int, p: (int, nat), received: bool, address: int, offset: int)
    requires p.1 < 8
    requires entered == MapWorldMap || storedMap == MapWorldMap ==> GetBitAddress(address, offset) != p
    ensures FlagBit(WorldMapWrites(m, entered, storedMap, p, received), address, offset) == FlagBit(m, address, offset)
  {
    BitAddressOfBit(p.0, p.1);
    FlagIfOther(m, entered == MapWorldMap, p.0, p.1, false, address, offset);
    FlagIfOther(FlagIf(m, entered == MapWorldMap, p.0, p.1, false), storedMap == MapWorldMap, p.0, p.1, received,
      address, offset);
  }

  /** The single writes leave every other flag alone. */
  lemma FixedWritesFrame(m: Mem, entered: int, storedMap: int, fireBlaster: ItemData, ids: seq<int>,
                         address: int, offset: int)
    requires AvoidsFixed(GetBitAddress(address, offset), entered, storedMap, fireBlaster)
    ensures FlagBit(FixedWrites(m, entered, storedMap, fireBlaster, ids), address, offset) == FlagBit(m, address, offset)
  {
    ActIfOther(m, entered == MapThornTailHollow, address, offset);
    WorldMapOther(ActIf(m, entered == MapThornTailHollow), entered, storedMap, ItemBit(fireBlaster),
      fireBlaster.id in ids, address, offset);
    FlagIfOther(WorldMapWrites(ActIf(m, entered == MapThornTailHollow), entered, storedMap, ItemBit(fireBlaster),
      fireBlaster.id in ids),
      entered == MapKrystalSpirit, KrystalBit().0, KrystalBit().1, true, address, offset);
  }

  /** The flag at the byte and bit `get_bit_address` gave is the flag at
      the table and offset it came from. */
  lemma FlagAtBit(m: Mem, table: int, offset: int)
    ensures FlagBit(m, GetBitAddress(table, offset).0, GetBitAddress(table, offset).1) == FlagBit(m, table, offset)
  {
    assert GetBitAddress(GetBitAddress(table, offset).0, GetBitAddress(table, offset).1) == GetBitAddress(table, offset);
  }

  /** A conditional flag write leaves every other byte alone. */
  lemma FlagIfByte(m: Mem, c: bool, a: int, o: int, value: bool, x: int)
    requires c ==> GetBitAddress(a, o).0 != x
    ensures ByteAt(FlagIf(m, c, a, o, value), x) == ByteAt(m, x)
  {
    if c {
      ByteAtWritten(m, GetBitAddress(a, o).0,
        [FlagByte(ByteAt(m, GetBitAddress(a, o).0), GetBitAddress(a, o).1, value)], x);
    }
  }

  /** A field inside one byte depends on that byte alone. */
  lemma SameByteSameField(m: Mem, m': Mem, x: int, bp: nat, size: nat)
    requires bp + size <= 8 && ByteAt(m, x) == ByteAt(m', x)
    ensures ReadValue(m, x, bp, size, 1) == ReadValue(m', x, bp, size, 1)
  {
    forall o: nat | bp <= o < bp + size
      ensures MemBit(m, x, o) == MemBit(m', x, o)
    {
      assert x + o / 8 == x;
    }
    ReadValueDependsOnField(m, m', x, bp, size, 1, 1);
  }

  /** Writing the act field and reading it back at table 2 gives 2. */
  lemma ActReadBack(m: Mem)
    ensures ReadValue(ActWrite(m), T2Address, ThornTailActOffset, ThornTailActSize, 1) == ThornTailAct
  {
    assert Pow2(ThornTailActSize) == 16;
    assert ActWrite(m) == SetValueMem(m, T2Address, ThornTailActOffset, ThornTailAct, ThornTailActSize, 1);
    SetValueReadBack(m, T2Address, ThornTailActOffset, ThornTailAct, ThornTailActSize, 1, 1);
  }

  /** The act field depends on the act byte alone. */
  lemma ActReadKept(m: Mem, m': Mem)
    requires ByteAt(m, ActField().0) == ByteAt(m', ActField().0)
    ensures ReadValue(m, T2Address, ThornTailActOffset, ThornTailActSize, 1) ==
      ReadValue(m', T2Address, ThornTailActOffset, ThornTailActSize, 1)
  {
    assert ReadValue(m, T2Address, ThornTailActOffset, ThornTailActSize, 1) ==
      ReadValue(m, ActField().0, ActField().1, ThornTailActSize, 1);
    assert ReadValue(m', T2Address, ThornTailActOffset, ThornTailActSize, 1) ==
      ReadValue(m', ActField().0, ActField().1, ThornTailActSize, 1);
    SameByteSameField(m, m', ActField().0, ActField().1, ThornTailActSize);
  }

  /** On entering ThornTail Hollow its act field reads 2 afterwards, unless
      the Fire Blaster's flag shares its byte and is written back too. */
  lemma FixedWritesAct(m: Mem, entered: int, storedMap: int, fireBlaster: ItemData, ids: seq<int>)
    requires entered == MapThornTailHollow
    requires storedMap == MapWorldMap ==> ItemBit(fireBlaster).0 != ActField().0
    ensures ReadValue(FixedWrites(m, entered, storedMap, fireBlaster, ids), T2Address, ThornTailActOffset,
      ThornTailActSize, 1) == ThornTailAct
  {
    var m1 := ActIf(m, true);
    ActReadBack(m);
    BitAddressOfBit(ItemBit(fireBlaster).0, ItemBit(fireBlaster).1);
    FlagIfByte(m1, storedMap == MapWorldMap, ItemBit(fireBlaster).0, ItemBit(fireBlaster).1,
      fireBlaster.id in ids, ActField().0);
    ActReadKept(m1, WorldMapWrites(m1, entered, storedMap, ItemBit(fireBlaster), fireBlaster.id in ids));
  }

  /** A conditional write at a byte and bit leaves a different byte and
      bit alone. */
  lemma FlagIfOtherBit(m: Mem, c: bool, p: (int, nat), value: bool, q: (int, nat))
    requires p.1 < 8 && q.1 < 8 && (c ==> p != q)
    ensures FlagBit(FlagIf(m, c, p.0, p.1, value), q.0, q.1) == FlagBit(m, q.0, q.1)
  {
    if c {
      SetFlagOther(m, p.0, p.1, value, q.0, q.1);
    }
  }

  /** Leaving the world map sets the Fire Blaster's flag back to whether it
      was received. */
  lemma FixedWritesFireBlasterBack(m: Mem, entered: int, storedMap: int, fireBlaster: ItemData, ids: seq<int>)
    requires storedMap == MapWorldMap
    requires entered == MapKrystalSpirit ==> ItemBit(fireBlaster) != KrystalBit()
    ensures FlagBit(FixedWrites(m, entered, storedMap, fireBlaster, ids), fireBlaster.tableAddress, fireBlaster.bitOffset) ==
      (fireBlaster.id in ids)
  {
    var p := ItemBit(fireBlaster);
    var m2 := FlagIf(ActIf(m, entered == MapThornTailHollow), entered == MapWorldMap, p.0, p.1, false);
    FlagIfSame(m2, true, p.0, p.1, fireBlaster.id in ids);
    FlagIfOtherBit(FlagIf(m2, true, p.0, p.1, fireBlaster.id in ids), entered == MapKrystalSpirit, KrystalBit(), true, p);
    FlagAtBit(FixedWrites(m, entered, storedMap, fireBlaster, ids), fireBlaster.tableAddress, fireBlaster.bitOffset);
  }

  /** Entering the world map from elsewhere clears the Fire Blaster's flag. */
  lemma FixedWritesFireBlasterOff(m: Mem, entered: int, storedMap: int, fireBlaster: ItemData, ids: seq<int>)
    requires entered == MapWorldMap && storedMap != MapWorldMap
    ensures !FlagBit(FixedWrites(m, entered, storedMap, fireBlaster, ids), fireBlaster.tableAddress, fireBlaster.bitOffset)
  {
    FlagIfSame(ActIf(m, false), true, ItemBit(fireBlaster).0, ItemBit(fireBlaster).1, false);
    FlagAtBit(FixedWrites(m, entered, storedMap, fireBlaster, ids), fireBlaster.tableAddress, fireBlaster.bitOffset);
  }

  /** On entering the first Krystal spirit's map its flag ends on. */
  lemma FixedWritesKrystal(m: Mem, entered: int, storedMap: int, fireBlaster: ItemData, ids: seq<int>)
    requires entered == MapKrystalSpirit
    ensures FlagBit(FixedWrites(m, entered, storedMap, fireBlaster, ids), T2Address, KrystalSpiritOffset)
  {
    FlagIfSame(WorldMapWrites(ActIf(m, false), entered, storedMap, ItemBit(fireBlaster), fireBlaster.id in ids), true,
      KrystalBit().0, KrystalBit().1, true);
    FlagAtBit(FixedWrites(m, entered, storedMap, fireBlaster, ids), T2Address, KrystalSpiritOffset);
  }

  // ---------------------------------------------------------------------------
  // The map change

  /** The memory after the map-change branch of `special_map_flags`: the
      magic cave upgrades toggled (only those the cave hands out in its
      upgrade act, judged on the memory before the loop), then every shop
      entry, then the single writes. */
  function MapChangeMem(m: Mem, storedMap: int, upgrades: LocationTypes.Table, shop: LocationTypes.Table, fireBlaster: ItemData,
                        serverChecked: set<int>, server: set<int>, ids: seq<int>): Mem
  {
    var entered := ByteAt(m, MapIdAddress);
    var m1 := ToggleTable(m, m, true, upgrades, entered, MapMagicCaveNo, storedMap, serverChecked, server, ids);
    var m2 := ToggleTable(m1, m1, false, shop, entered, MapShopNo, storedMap, serverChecked, server, ids);
    FixedWrites(m2, entered, storedMap, fireBlaster, ids)
  }

  /** A shop entry ends with the flag its own toggle gives it. */
  lemma MapChangeShopFlag(m: Mem, storedMap: int, upgrades: LocationTypes.Table, shop: LocationTypes.Table, fireBlaster: ItemData,
                          serverChecked: set<int>, server: set<int>, ids: seq<int>, k: int)
    requires 0 <= k < |shop| && shop[k].1.ShopLocation? && BitsDistinct(shop)
    requires forall i :: 0 <= i < |upgrades| ==> LocBit(upgrades[i].1) != LocBit(shop[k].1)
    requires AvoidsFixed(LocBit(shop[k].1), ByteAt(m, MapIdAddress), storedMap, fireBlaster)
    ensures FlagOn(MapChangeMem(m, storedMap, upgrades, shop, fireBlaster, serverChecked, server, ids), shop[k].1) ==
      FlagOn(Toggle(m, shop[k].1, ByteAt(m, MapIdAddress), MapShopNo, storedMap, serverChecked, server, ids), shop[k].1)
  {
    var entered := ByteAt(m, MapIdAddress);
    var data := shop[k].1;
    var m1 := ToggleTable(m, m, true, upgrades, entered, MapMagicCaveNo, storedMap, serverChecked, server, ids);
    var m2 := ToggleTable(m1, m1, false, shop, entered, MapShopNo, storedMap, serverChecked, server, ids);
    ToggleTableFrame(m, m, true, upgrades, entered, MapMagicCaveNo, storedMap, serverChecked, server, ids,
      data.tableAddress, data.bitOffset);
    ToggleTableFlag(m1, m1, false, shop, entered, MapShopNo, storedMap, serverChecked, server, ids, k);
    TogglePreserved(m1, m, data, entered, MapShopNo, storedMap, serverChecked, server, ids);
    FixedWritesFrame(m2, entered, storedMap, fireBlaster, ids, data.tableAddress, data.bitOffset);
  }

  /** A magic cave upgrade ends with the flag its own toggle gives it when
      the cave hands it out, and keeps its flag otherwise. */
  lemma MapChangeUpgradeFlag(m: Mem, storedMap: int, upgrades: LocationTypes.Table, shop: LocationTypes.Table, fireBlaster: ItemData,
                             serverChecked: set<int>, server: set<int>, ids: seq<int>, k: int)
    requires 0 <= k < |upgrades| && BitsDistinct(upgrades)
    requires forall i :: 0 <= i < |shop| ==> LocBit(shop[i].1) != LocBit(upgrades[k].1)
    requires AvoidsFixed(LocBit(upgrades[k].1), ByteAt(m, MapIdAddress), storedMap, fireBlaster)
    ensures Toggles(m, true, upgrades[k].1) ==>
      FlagOn(MapChangeMem(m, storedMap, upgrades, shop, fireBlaster, serverChecked, server, ids), upgrades[k].1) ==
        FlagOn(Toggle(m, upgrades[k].1, ByteAt(m, MapIdAddress), MapMagicCaveNo, storedMap, serverChecked, server, ids),
          upgrades[k].1)
    ensures !Toggles(m, true, upgrades[k].1) ==>
      FlagOn(MapChangeMem(m, storedMap, upgrades, shop, fireBlaster, serverChecked, server, ids), upgrades[k].1) ==
        FlagOn(m, upgrades[k].1)
  {
    var data := upgrades[k].1;
    ToggleTableFlag(m, m, true, upgrades, ByteAt(m, MapIdAddress), MapMagicCaveNo, storedMap, serverChecked, server, ids, k);
    MapChangeAfterUpgrades(m, storedMap, upgrades, shop, fireBlaster, serverChecked, server, ids,
      data.tableAddress, data.bitOffset);
  }

  /** After the upgrade loop, a flag no shop entry and no single write owns
      keeps the state the loop left it in. */
  lemma MapChangeAfterUpgrades(m: Mem, storedMap: int, upgrades: LocationTypes.Table, shop: LocationTypes.Table,
                               fireBlaster: ItemData, serverChecked: set<int>, server: set<int>, ids: seq<int>,
                               address: int, offset: int)
    requires forall i :: 0 <= i < |shop| ==> LocBit(shop[i].1) != GetBitAddress(address, offset)
    requires AvoidsFixed(GetBitAddress(address, offset), ByteAt(m, MapIdAddress), storedMap, fireBlaster)
    ensures FlagBit(MapChangeMem(m, storedMap, upgrades, shop, fireBlaster, serverChecked, server, ids), address, offset) ==
      FlagBit(ToggleTable(m, m, true, upgrades, ByteAt(m, MapIdAddress), MapMagicCaveNo, storedMap, serverChecked,
        server, ids), address, offset)
  {
    var entered := ByteAt(m, MapIdAddress);
    var m1 := ToggleTable(m, m, true, upgrades, entered, MapMagicCaveNo, storedMap, serverChecked, server, ids);
    var m2 := ToggleTable(m1, m1, false, shop, entered, MapShopNo, storedMap, serverChecked, server, ids);
    ToggleTableFrame(m1, m1, false, shop, entered, MapShopNo, storedMap, serverChecked, server, ids, address, offset);
    FixedWritesFrame(m2, entered, storedMap, fireBlaster, ids, address, offset);
  }

  /** A flag that no upgrade, no shop entry and no single write owns keeps
      its state through the map change. */
  lemma MapChangeFrame(m: Mem, storedMap: int, upgrades: LocationTypes.Table, shop: LocationTypes.Table, fireBlaster: ItemData,
                       serverChecked: set<int>, server: set<int>, ids: seq<int>, address: int, offset: int)
    requires forall i :: 0 <= i < |upgrades| ==> LocBit(upgrades[i].1) != GetBitAddress(address, offset)
    requires forall i :: 0 <= i < |shop| ==> LocBit(shop[i].1) != GetBitAddress(address, offset)
    requires AvoidsFixed(GetBitAddress(address, offset), ByteAt(m, MapIdAddress), storedMap, fireBlaster)
    ensures FlagBit(MapChangeMem(m, storedMap, upgrades, shop, fireBlaster, serverChecked, server, ids), address, offset) ==
      FlagBit(m, address, offset)
  {
    ToggleTableFrame(m, m, true, upgrades, ByteAt(m, MapIdAddress), MapMagicCaveNo, storedMap, serverChecked, server, ids,
      address, offset);
    MapChangeAfterUpgrades(m, storedMap, upgrades, shop, fireBlaster, serverChecked, server, ids, address, offset);
  }

  // ---------------------------------------------------------------------------
  // The DarkIce Mines zones

  /** The cog locations' flags as forced outside the cog room: on exactly
      when the server has the location checked. */
  function CogLocationFlags(locations: seq<LocationData>, serverChecked: set<int>): (r: seq<ForcedFlag>)
    ensures |r| == |locations|
    ensures forall i :: 0 <= i < |r| ==>
      r[i] == ForcedFlag(locations[i].tableAddress, locations[i].bitOffset, locations[i].id in serverChecked)
  {
    seq(|locations|, i requires 0 <= i < |locations| =>
      ForcedFlag(locations[i].tableAddress, locations[i].bitOffset, locations[i].id in serverChecked))
  }

  /** The memory after a change of the first DarkIce Mines zone word: the
      Dinosaur Horn handed over again, then inside the cog room the cogs'
      stages set for the copies received, and elsewhere every stage set (so
      no cog shows) and the cog locations forced to the server's view. */
  function DimZoneMem(m: Mem, zone: int, storedMap: int, cogs: ItemData, horn: ItemData,
                      cogLocations: seq<LocationData>, serverChecked: set<int>, ids: seq<int>): Mem
    requires cogs.ProgressiveItem? && Applicable(horn)
  {
    var m1 := ApplyItem(m, ids, storedMap, horn);
    if zone == DimCogRoom then CogRoomMem(m1, cogs.stages, CountIn(ids, cogs.id))
    else SetFlags(SetStages(m1, cogs.stages, |cogs.stages|), CogLocationFlags(cogLocations, serverChecked))
  }

  /** Outside the cog room every stage of the cogs ends on. */
  lemma AwayStagesOn(m: Mem, stages: seq<Stage>, locations: seq<LocationData>, serverChecked: set<int>, k: int)
    requires StagesDistinct(stages) && 0 <= k < |stages|
    requires forall i :: 0 <= i < |locations| ==> LocBit(locations[i]) != StageBit(stages[k])
    ensures FlagBit(SetFlags(SetStages(m, stages, |stages|), CogLocationFlags(locations, serverChecked)),
      stages[k].address, stages[k].offset)
  {
    StagesFlags(m, stages, |stages|, k);
    SetFlagsFrame(SetStages(m, stages, |stages|), CogLocationFlags(locations, serverChecked), stages[k].address, stages[k].offset);
  }

  /** Outside the cog room each cog location ends on exactly when the
      server has it checked. */
  lemma AwayLocationFlag(m: Mem, locations: seq<LocationData>, serverChecked: set<int>, j: int)
    requires FlagBitsDistinct(CogLocationFlags(locations, serverChecked)) && 0 <= j < |locations|
    ensures FlagOn(SetFlags(m, CogLocationFlags(locations, serverChecked)), locations[j]) ==
      (locations[j].id in serverChecked)
  {
    SetFlagsFlag(m, CogLocationFlags(locations, serverChecked), j);
  }

  /** The memory after a change of the second zone word: the Silver Key
      location's flag forced to whether the server has it checked while the
      player is in the key's cell, and to whether the key was received
      anywhere else. */
  function SilverKeyMem(m: Mem, zone: int, key: LocationData, serverChecked: set<int>, ids: seq<int>): Mem
    requires key.LinkedLocation?
  {
    ForceIf(m, true, key, SilverKeyState(zone, key, serverChecked, ids))
  }

  function SilverKeyState(zone: int, key: LocationData, serverChecked: set<int>, ids: seq<int>): bool
    requires key.LinkedLocation?
  {
    if zone == DimKeyZoneA || zone == DimKeyZoneB then key.id in serverChecked else key.linkedItem in ids
  }

  /** The key location's flag after the change: whether the server has it
      checked inside the key's cell, whether the key was received elsewhere. */
  lemma SilverKeyFlag(m: Mem, zone: int, key: LocationData, serverChecked: set<int>, ids: seq<int>)
    requires key.LinkedLocation?
    ensures FlagOn(SilverKeyMem(m, zone, key, serverChecked, ids), key) ==
      if zone == DimKeyZoneA || zone == DimKeyZoneB then key.id in serverChecked else key.linkedItem in ids
  {
    ForceIfFlag(m, true, key, SilverKeyState(zone, key, serverChecked, ids));
  }

  /** No other flag moves. */
  lemma SilverKeyOther(m: Mem, zone: int, key: LocationData, serverChecked: set<int>, ids: seq<int>, address: int, offset: int)
    requires key.LinkedLocation? && GetBitAddress(address, offset) != LocBit(key)
    ensures FlagBit(SilverKeyMem(m, zone, key, serverChecked, ids), address, offset) == FlagBit(m, address, offset)
  {
    ForceIfOther(m, true, key, SilverKeyState(zone, key, serverChecked, ids), address, offset);
  }
}
