/** `special_map_flags` over the tables and descriptors it is given: the
    state it reads and updates, its three branches as functions on that
    state, and the handler as the three in turn. */
module HandlerSteps {
  import opened Memory
  import opened BitMemory
  import opened Addresses
  import opened LocationTypes
  import opened ItemTypes
  import opened ItemEffects
  import opened ZoneFlags

  /** What the handler reads and updates: the game's memory and the three
      stored values. */
  datatype MapState = MapState(ram: Mem, storedMap: int, storedDim: int, storedDim2: int)

  /** What the handler works on: the magic cave upgrades, the shop entries,
      the Fire Blaster, the cogs, the Dinosaur Horn, the cog locations and
      the Silver Key location. */
  datatype HandlerTables = HandlerTables(upgrades: LocationTypes.Table, shop: LocationTypes.Table, fireBlaster: ItemData,
                                         cogs: ItemData, horn: ItemData, cogLocations: seq<LocationData>,
                                         key: LocationData)

  /** The shapes the handler relies on: upgrades and shop entries of their
      kinds, staged cogs, a horn whose hand-over cannot raise and is not
      the goal, and a key location linked to its item. */
  predicate Shaped(t: HandlerTables)
  {
    (forall k :: 0 <= k < |t.upgrades| ==> t.upgrades[k].1.UpgradeLocation?) &&
    (forall k :: 0 <= k < |t.shop| ==> t.shop[k].1.ShopLocation?) &&
    t.cogs.ProgressiveItem? && Applicable(t.horn) && t.horn.id != VictoryId && t.key.LinkedLocation?
  }

  /** The first DarkIce Mines zone word, four bytes read little-endian. */
  function DimWord(m: Mem): nat
  {
    ReadValue(m, DimZoneAddress, 0, 32, 4)
  }

  /** The second zone word. */
  function Dim2Word(m: Mem): nat
  {
    ReadValue(m, DimZone2Address, 0, 32, 4)
  }

  /** The map-change branch: when the map byte differs from the stored map,
      the toggles and single writes, and the map byte is stored. */
  function MapStepOn(t: HandlerTables, s: MapState, serverChecked: set<int>, server: set<int>, ids: seq<int>): (r: MapState)
    ensures r.storedMap == ByteAt(s.ram, MapIdAddress) && r.storedDim == s.storedDim && r.storedDim2 == s.storedDim2
  {
    var entered := ByteAt(s.ram, MapIdAddress);
    if s.storedMap != entered
    then s.(ram := MapChangeMem(s.ram, s.storedMap, t.upgrades, t.shop, t.fireBlaster, serverChecked, server, ids),
            storedMap := entered)
    else s
  }

  /** The zone branch: when the first zone word differs from the stored one,
      the horn and the cogs (the horn handed over with the map stored by
      then), and the word is stored. */
  function DimStepOn(t: HandlerTables, s: MapState, serverChecked: set<int>, ids: seq<int>): (r: MapState)
    requires Shaped(t)
    ensures r.storedMap == s.storedMap && r.storedDim == DimWord(s.ram) && r.storedDim2 == s.storedDim2
  {
    var zone := DimWord(s.ram);
    if zone != s.storedDim
    then s.(ram := DimZoneMem(s.ram, zone, s.storedMap, t.cogs, t.horn, t.cogLocations, serverChecked, ids),
            storedDim := zone)
    else s
  }

  /** The Silver Key branch: when the second zone word differs from the
      stored one, the key location's flag, and the word is stored. */
  function KeyStepOn(t: HandlerTables, s: MapState, serverChecked: set<int>, ids: seq<int>): (r: MapState)
    requires Shaped(t)
    ensures r.storedMap == s.storedMap && r.storedDim == s.storedDim && r.storedDim2 == Dim2Word(s.ram)
  {
    var zone := Dim2Word(s.ram);
    if zone != s.storedDim2 then s.(ram := SilverKeyMem(s.ram, zone, t.key, serverChecked, ids), storedDim2 := zone)
    else s
  }

  /** One run of the handler, with `serverChecked` the locations the server
      has checked, `server` those it knows and `ids` the ids received. */
  function HandlerOn(t: HandlerTables, s: MapState, serverChecked: set<int>, server: set<int>, ids: seq<int>): MapState
    requires Shaped(t)
  {
    KeyStepOn(t, DimStepOn(t, MapStepOn(t, s, serverChecked, server, ids), serverChecked, ids), serverChecked, ids)
  }
}
