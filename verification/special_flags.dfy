/** `special_map_flags` as a whole: the map-change branch when the map byte
    differs from the stored map, then the DarkIce Mines zone branch when the
    first zone word differs from the stored one, then the Silver Key branch
    when the second zone word does; each branch stores what it saw. */
module SpecialFlags {
  import opened Memory
  import opened BitHelper
  import opened BitMemory
  import opened Addresses
  import opened LocationFlags
  import Items
  import opened ItemEffects
  import opened ZoneFlags
  import opened MapFlags
  import opened TableBits
  import Locations
  import opened HandlerSteps

  /** The handler's tables: the game's upgrade and shop tables, the Fire
      Blaster, the cogs, the Dinosaur Horn, the three cog locations and
      "DIM: Get Silver Key". */
  const GameTables := HandlerTables(Locations.LocationUpgrade, Locations.LocationShop, Items.FireBlaster,
    Items.Cogs, Items.DinosaurHorn, CogChests, SilverKeyLocation)

  lemma GameTablesShaped()
    ensures Shaped(GameTables)
  {
    SilverKeyNamed();
  }

  /** The map-change branch on the game's tables. */
  function MapStep(s: MapState, serverChecked: set<int>, server: set<int>, ids: seq<int>): MapState
  {
    MapStepOn(GameTables, s, serverChecked, server, ids)
  }

  /** The zone branch on the game's tables. */
  function DimStep(s: MapState, serverChecked: set<int>, ids: seq<int>): MapState
  {
    GameTablesShaped();
    DimStepOn(GameTables, s, serverChecked, ids)
  }

  /** The Silver Key branch on the game's tables. */
  function KeyStep(s: MapState, serverChecked: set<int>, ids: seq<int>): MapState
  {
    GameTablesShaped();
    KeyStepOn(GameTables, s, serverChecked, ids)
  }

  /** The memory after the map-change branch. */
  function AfterMap(s: MapState, serverChecked: set<int>, server: set<int>, ids: seq<int>): Mem
  {
    MapStep(s, serverChecked, server, ids).ram
  }

  /** The memory after the zone branch. */
  function AfterDim(s: MapState, serverChecked: set<int>, server: set<int>, ids: seq<int>): Mem
  {
    DimStep(MapStep(s, serverChecked, server, ids), serverChecked, ids).ram
  }

  /** One run of the handler, with `serverChecked` the locations the server
      has checked, `server` those it knows and `ids` the ids received. */
  function SpecialMapFlags(s: MapState, serverChecked: set<int>, server: set<int>, ids: seq<int>): MapState
  {
    GameTablesShaped();
    HandlerOn(GameTables, s, serverChecked, server, ids)
  }

  /** The map byte and both zone words end stored as read after the
      branches before them. */
  lemma HandlerStores(s: MapState, serverChecked: set<int>, server: set<int>, ids: seq<int>)
    ensures var r := SpecialMapFlags(s, serverChecked, server, ids);
      r.storedMap == ByteAt(s.ram, MapIdAddress) &&
      r.storedDim == DimWord(AfterMap(s, serverChecked, server, ids)) &&
      r.storedDim2 == Dim2Word(AfterDim(s, serverChecked, server, ids))
  {
  }

  /** When neither the map nor either zone word moved, the handler writes
      nothing and keeps what it stored. */
  lemma IdleWhenNothingMoved(s: MapState, serverChecked: set<int>, server: set<int>, ids: seq<int>)
    requires ByteAt(s.ram, MapIdAddress) == s.storedMap
    requires DimWord(s.ram) == s.storedDim && Dim2Word(s.ram) == s.storedDim2
    ensures SpecialMapFlags(s, serverChecked, server, ids) == s
  {
  }

  /** The Silver Key's bit is not the Dinosaur Horn's, nor any cog stage's. */
  lemma KeyApart()
    ensures LocBit(SilverKeyLocation) != GetBitAddress(Items.DinosaurHorn.tableAddress, Items.DinosaurHorn.bitOffset)
    ensures forall k :: 0 <= k < |Items.Cogs.stages| ==>
      LocBit(SilverKeyLocation) != GetBitAddress(Items.Cogs.stages[k].address, Items.Cogs.stages[k].offset)
  {
    SilverKeyNamed();
    CogsShape();
    OffsetsApart(T2Address, 0x03DC, 0x03A0);
    forall k | 0 <= k < 3
      ensures LocBit(SilverKeyLocation) != GetBitAddress(Items.Cogs.stages[k].address, Items.Cogs.stages[k].offset)
    {
      OffsetsApart(T2Address, 0x03DC, 0x0371 + 2 * k);
    }
  }

  /** The Silver Key branch leaves a flag of another bit as the zone branch
      left it. */
  lemma KeyBranchKeeps(s: MapState, serverChecked: set<int>, server: set<int>, ids: seq<int>, address: int, offset: int)
    requires GetBitAddress(address, offset) != LocBit(SilverKeyLocation)
    ensures FlagBit(SpecialMapFlags(s, serverChecked, server, ids).ram, address, offset) ==
      FlagBit(AfterDim(s, serverChecked, server, ids), address, offset)
  {
    SilverKeyNamed();
    var m2 := AfterDim(s, serverChecked, server, ids);
    if Dim2Word(m2) != s.storedDim2 {
      SilverKeyOther(m2, Dim2Word(m2), SilverKeyLocation, serverChecked, ids, address, offset);
    }
  }

  /** Whenever the first zone word moved, the Dinosaur Horn's flag ends set
      to whether the horn was received. */
  lemma HornAfterHandler(s: MapState, serverChecked: set<int>, server: set<int>, ids: seq<int>)
    requires DimWord(AfterMap(s, serverChecked, server, ids)) != s.storedDim
    ensures FlagBit(SpecialMapFlags(s, serverChecked, server, ids).ram, Items.DinosaurHorn.tableAddress,
      Items.DinosaurHorn.bitOffset) == (Items.DinosaurHorn.id in ids)
  {
    var m1 := AfterMap(s, serverChecked, server, ids);
    HornAfterDimZone(m1, DimWord(m1), ByteAt(s.ram, MapIdAddress), serverChecked, ids);
    KeyApart();
    KeyBranchKeeps(s, serverChecked, server, ids, Items.DinosaurHorn.tableAddress, Items.DinosaurHorn.bitOffset);
  }

  /** Whenever the first zone word moved into the cog room, cog stage `k`
      ends on exactly when the cogs were received more than `k` times. */
  lemma CogStageAfterHandler(s: MapState, serverChecked: set<int>, server: set<int>, ids: seq<int>, k: int)
    requires 0 <= k < |Items.Cogs.stages|
    requires DimWord(AfterMap(s, serverChecked, server, ids)) != s.storedDim
    requires DimWord(AfterMap(s, serverChecked, server, ids)) == DimCogRoom
    ensures FlagBit(SpecialMapFlags(s, serverChecked, server, ids).ram, Items.Cogs.stages[k].address,
      Items.Cogs.stages[k].offset) == (CountIn(ids, Items.Cogs.id) > k)
  {
    var m1 := AfterMap(s, serverChecked, server, ids);
    CogRoomStage(m1, ByteAt(s.ram, MapIdAddress), serverChecked, ids, k);
    KeyApart();
    KeyBranchKeeps(s, serverChecked, server, ids, Items.Cogs.stages[k].address, Items.Cogs.stages[k].offset);
  }

  /** Whenever the second zone word moved, the Cell Silver Key's flag ends
      as the key branch sets it. */
  lemma SilverKeyAfterHandler(s: MapState, serverChecked: set<int>, server: set<int>, ids: seq<int>)
    requires Dim2Word(AfterDim(s, serverChecked, server, ids)) != s.storedDim2
    ensures var zone := Dim2Word(AfterDim(s, serverChecked, server, ids));
      FlagBit(SpecialMapFlags(s, serverChecked, server, ids).ram, Items.CellSilverKey.tableAddress,
        Items.CellSilverKey.bitOffset) ==
      if zone == DimKeyZoneA || zone == DimKeyZoneB then SilverKeyLocation.id in serverChecked
      else Items.CellSilverKey.id in ids
  {
    var m2 := AfterDim(s, serverChecked, server, ids);
    SilverKeyAfterZone(m2, Dim2Word(m2), serverChecked, ids);
  }
}
