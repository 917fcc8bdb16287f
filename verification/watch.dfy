/** `locations_watcher`'s scan as a whole: the loop over the normal tables,
    then the magic cave upgrades while the player stays in the cave, then
    the shop entries while the player stays in the shop. */
module LocationWatch {
  import opened Memory
  import opened Addresses
  import opened LocationTypes
  import opened LocationFlags
  import Locations

  /** The player is in the magic cave and was there at the last poll. */
  predicate InCave(m: Mem, storedMap: int)
  {
    ByteAt(m, MapIdAddress) == MapMagicCaveNo && storedMap == MapMagicCaveNo
  }

  /** The player is in the shop and was there at the last poll. */
  predicate InShop(m: Mem, storedMap: int)
  {
    ByteAt(m, MapIdAddress) == MapShopNo && storedMap == MapShopNo
  }

  /** The client's checked set after the three loops, starting from
      `checked`; `server` is the set of locations the server knows. */
  function Watch(m: Mem, storedMap: int, server: set<int>, checked: set<int>): set<int>
  {
    var normal := ScanTable(m, NormalScan, Locations.NormalTables, server, checked);
    var cave := if InCave(m, storedMap) then ScanTable(m, MagicCaveScan, Locations.LocationUpgrade, server, normal) else normal;
    if InShop(m, storedMap) then ScanTable(m, ShopScan, Locations.LocationShop, server, cave) else cave
  }

  /** The scan only adds to the checked set, and only ids on the server. */
  lemma WatchBounds(m: Mem, storedMap: int, server: set<int>, checked: set<int>)
    ensures checked <= Watch(m, storedMap, server, checked) <= checked + server
  {
    var normal := ScanTable(m, NormalScan, Locations.NormalTables, server, checked);
    var cave := if InCave(m, storedMap) then ScanTable(m, MagicCaveScan, Locations.LocationUpgrade, server, normal) else normal;
    ScanTableBounds(m, NormalScan, Locations.NormalTables, server, checked);
    ScanTableBounds(m, MagicCaveScan, Locations.LocationUpgrade, server, normal);
    ScanTableBounds(m, ShopScan, Locations.LocationShop, server, cave);
  }

  /** An id ends up checked exactly when it was checked before, or a
      location with that id is on the server and found checked by the loop
      that looks at it, the cave and shop loops running only in their map. */
  lemma WatchIff(m: Mem, storedMap: int, server: set<int>, checked: set<int>, id: int)
    ensures id in Watch(m, storedMap, server, checked) <==>
      id in checked || FoundIn(m, NormalScan, Locations.NormalTables, server, id) ||
      (InCave(m, storedMap) && FoundIn(m, MagicCaveScan, Locations.LocationUpgrade, server, id)) ||
      (InShop(m, storedMap) && FoundIn(m, ShopScan, Locations.LocationShop, server, id))
  {
    var normal := ScanTable(m, NormalScan, Locations.NormalTables, server, checked);
    var cave := if InCave(m, storedMap) then ScanTable(m, MagicCaveScan, Locations.LocationUpgrade, server, normal) else normal;
    ScanTableIff(m, NormalScan, Locations.NormalTables, server, checked, id);
    ScanTableIff(m, MagicCaveScan, Locations.LocationUpgrade, server, normal, id);
    ScanTableIff(m, ShopScan, Locations.LocationShop, server, cave, id);
  }

  /** The upgrade ids, the shop ids and the ids of the normal tables are
      apart. */
  lemma TablesApart()
    ensures forall k, j :: 0 <= k < |Locations.NormalTables| && 0 <= j < |Locations.LocationUpgrade| ==>
      Locations.NormalTables[k].1.id != Locations.LocationUpgrade[j].1.id
    ensures forall k, j :: 0 <= k < |Locations.NormalTables| && 0 <= j < |Locations.LocationShop| ==>
      Locations.NormalTables[k].1.id != Locations.LocationShop[j].1.id
    ensures forall k, j :: 0 <= k < |Locations.LocationShop| && 0 <= j < |Locations.LocationUpgrade| ==>
      Locations.LocationShop[k].1.id != Locations.LocationUpgrade[j].1.id
  {
    Locations.NormalTablesSplit();
    var front := Locations.LocationUpgrade + Locations.LocationShop;
    assert forall j :: 0 <= j < |Locations.LocationUpgrade| ==> front[j] == Locations.LocationUpgrade[j];
    assert forall j :: 0 <= j < |Locations.LocationShop| ==> front[|Locations.LocationUpgrade| + j] == Locations.LocationShop[j];
    assert forall j :: 0 <= j < |Locations.LocationShop| ==> Locations.LocationShop[j].1.id >= 200;
    assert forall j :: 0 <= j < |Locations.LocationUpgrade| ==> Locations.LocationUpgrade[j].1.id < 200;
  }

  /** Outside the cave the scan never reports a magic cave upgrade that was
      not already checked. */
  lemma UpgradeOnlyInCave(m: Mem, storedMap: int, server: set<int>, checked: set<int>, j: int)
    requires 0 <= j < |Locations.LocationUpgrade| && !InCave(m, storedMap)
    ensures Locations.LocationUpgrade[j].1.id in Watch(m, storedMap, server, checked) <==>
      Locations.LocationUpgrade[j].1.id in checked
  {
    var id := Locations.LocationUpgrade[j].1.id;
    TablesApart();
    WatchIff(m, storedMap, server, checked, id);
  }

  /** Outside the shop the scan never reports a shop entry that was not
      already checked. */
  lemma ShopOnlyInShop(m: Mem, storedMap: int, server: set<int>, checked: set<int>, j: int)
    requires 0 <= j < |Locations.LocationShop| && !InShop(m, storedMap)
    ensures Locations.LocationShop[j].1.id in Watch(m, storedMap, server, checked) <==>
      Locations.LocationShop[j].1.id in checked
  {
    var id := Locations.LocationShop[j].1.id;
    TablesApart();
    WatchIff(m, storedMap, server, checked, id);
  }
}
