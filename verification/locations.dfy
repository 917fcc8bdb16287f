/** The shapes of location descriptors (`SFALocationData` and its
    subclasses). */
module LocationTypes {
  import opened Wrappers

  /** What kind of check a location is (`SFALocationType`). */
  datatype LocationType = McUpgrade | FuelCell | DigSpot | Shop | Map | Flag | Count | Event

  /** The regions locations are placed in (`SFARegion`), with the three
      DarkIce Mines regions the location tables refer to. */
  datatype Region =
    | WorldMap | TH | IM | SwWaterSpout | SwEntrance | SwGate | ThWell | ThWellBottom | LFV | MMP
    | DimEntrance | DimFort | DimBottom

  /** A location descriptor; every variant carries the common fields. */
  datatype LocationData =
    | PlainLocation(id: int, bitOffset: int, tableAddress: int, kind: LocationType, region: Region)
      /** A magic cave upgrade, told apart by its bit in the cave's flag word. */
    | UpgradeLocation(id: int, bitOffset: int, tableAddress: int, kind: LocationType, region: Region,
                      linkedItem: int, mcBitflag: Option<int>)
    | ShopLocation(id: int, bitOffset: int, tableAddress: int, kind: LocationType, region: Region,
                   linkedItem: int, cost: int)
      /** A flag that only counts while a zone word at `mapAddress` (of
          `mapBitSize` bytes) holds `mapValue`. */
    | LinkedLocation(id: int, bitOffset: int, tableAddress: int, kind: LocationType, region: Region,
                     linkedItem: int, mapAddress: int, mapBitSize: nat, mapValue: int, state: bool)
      /** Checked once the counter of `bitSize` bits reaches `count`. */
    | CountLocation(id: int, bitOffset: int, tableAddress: int, kind: LocationType, region: Region,
                    count: int, bitSize: nat)

  type Table = seq<(string, LocationData)>
}

/** The location catalog: every place in the game that can hold an item,
    the flag or counter that tells the client it has been checked, and the
    option filter that decides which locations a generated world has. */
module Locations {
  import opened Wrappers
  import opened Dicts
  import opened Addresses
  import opened LocationTypes
  import ItemTypes

  // ---------------------------------------------------------------------------
  // The tables, in the order of their dictionary literals

  const LocationUpgrade: Table := [
    ("Fire Blaster Upgrade", UpgradeLocation(1, 0x06FC, T2Address, McUpgrade, TH, 2, Some(0))),
    ("Staff Booster Upgrade", UpgradeLocation(2, 0x0706, T2Address, McUpgrade, TH, 3, Some(1)))]

  const LocationShop: Table := [
    ("Buy Rock Candy", ShopLocation(200, 0x035F, T2Address, Shop, TH, 200, 10)),
    ("Buy Hi-Tech Display Device", ShopLocation(201, 0x035E, T2Address, Shop, TH, 201, 20)),
    ("Buy Tricky Ball", ShopLocation(202, 0x084C, T2Address, Shop, TH, 202, 15)),
    ("Buy Bafomdad Holder", ShopLocation(203, 0x09EE, T2Address, Shop, TH, 203, 20)),
    ("Buy Firefly Lantern", ShopLocation(204, 0x0717, T2Address, Shop, TH, 204, 20)),
    ("Buy Snowhorn Artifact", ShopLocation(205, 0x0060, T2Address, Shop, TH, 205, 130)),
    ("Buy Map Cape Claw", ShopLocation(210, 0x0841, T2Address, Map, TH, 0, 5)),
    ("Buy Map Ocean Force Point", ShopLocation(211, 0x083F, T2Address, Map, TH, 0, 10)),
    ("Buy Map Krazoa Palace", ShopLocation(212, 0x083D, T2Address, Map, TH, 0, 5)),
    ("Buy Map Dragon Rock", ShopLocation(213, 0x0839, T2Address, Map, TH, 0, 5)),
    ("Buy Map ThornTail Hollow", ShopLocation(214, 0x0837, T2Address, Map, TH, 0, 5)),
    ("Buy Map Moon Pass", ShopLocation(215, 0x0845, T2Address, Map, TH, 0, 5)),
    ("Buy Map LightFoot Village", ShopLocation(216, 0x0836, T2Address, Map, TH, 0, 5)),
    ("Buy Map DarkIce Mines", ShopLocation(217, 0x0833, T2Address, Map, TH, 0, 5)),
    ("Buy Map CloudRunner Fortress", ShopLocation(218, 0x0835, T2Address, Map, TH, 0, 5)),
    ("Buy Map Walled City", ShopLocation(219, 0x0840, T2Address, Map, TH, 0, 5)),
    ("Buy Map SnowHorn Wastes", ShopLocation(220, 0x0834, T2Address, Map, TH, 0, 5)),
    ("Buy Map Volcano Force Point", ShopLocation(221, 0x0832, T2Address, Map, TH, 0, 10))]

  const LocationAny: Table := [
    ("SW Magic Upgrade", PlainLocation(20, 0x0010, T2Address, Flag, SwWaterSpout)),
    ("SW Give Alpine Root 1", CountLocation(21, 0x0033, T2Address, Count, SwWaterSpout, 1, 3)),
    ("SW Give Alpine Root 2", CountLocation(22, 0x0033, T2Address, Count, SwWaterSpout, 2, 3)),
    ("SW Rescue Gate Keeper", PlainLocation(23, 0x0058, T2Address, Flag, SwEntrance)),
    ("TH Dark Well Shroom 1", PlainLocation(24, 0x00A8, T2Address, Flag, ThWellBottom)),
    ("TH Dark Well Shroom 2", PlainLocation(25, 0x00A7, T2Address, Flag, ThWellBottom)),
    ("TH Dark Well Shroom 3", PlainLocation(26, 0x00A5, T2Address, Flag, ThWellBottom)),
    ("TH Dark Well Shroom 4", PlainLocation(27, 0x00A3, T2Address, Flag, ThWellBottom)),
    ("TH Dark Well Shroom 5", PlainLocation(28, 0x00A4, T2Address, Flag, ThWellBottom)),
    ("TH Dark Well Shroom 6", PlainLocation(29, 0x00A6, T2Address, Flag, ThWellBottom)),
    ("TH Above Shop Magic Upgrade", PlainLocation(30, 0x0011, T2Address, Flag, TH)),
    ("TH Queen Gave White GrubTubs", CountLocation(31, 0x00AD, T2Address, Count, TH, 6, 3)),
    ("DIM: Release SnowHorn", PlainLocation(32, 0x0366, T2Address, Flag, DimEntrance)),
    ("DIM: Find Injured SnowHorn", PlainLocation(33, 0x036B, T2Address, Flag, DimEntrance)),
    ("DIM: Feed Injured SnowHorn", PlainLocation(34, 0x036D, T2Address, Flag, DimEntrance)),
    ("DIM: Cog 2 Chest", PlainLocation(35, 0x0370, T2Address, Flag, DimFort)),
    ("DIM: Get Cog 3", PlainLocation(36, 0x0372, T2Address, Flag, DimFort)),
    ("DIM: Get Cog 4", PlainLocation(37, 0x0374, T2Address, Flag, DimFort)),
    ("DIM: Dinosaur Horn", PlainLocation(38, 0x03BC, T2Address, Flag, DimFort)),
    ("DIM: Get Silver Key", LinkedLocation(39, 0x03DC, T2Address, Flag, DimBottom, 111, 0x803A3891, 4, 0x40042, true)),
    ("DIM: Defeat Boss Galdon", PlainLocation(40, 0x0120, T0Address, Event, DimBottom))]

  const LocationFuelCell: Table := [
    ("TH Queen Cave Fuel Cell", PlainLocation(100, 0x0945, T2Address, FuelCell, TH)),
    ("TH Pillar Fuel Cell Left", PlainLocation(101, 0x0946, T2Address, FuelCell, TH)),
    ("TH Pillar Fuel Cell Right", PlainLocation(102, 0x0943, T2Address, FuelCell, TH)),
    ("TH Beside Warpstone Left", PlainLocation(103, 0x0947, T2Address, FuelCell, TH)),
    ("TH Beside Warpstone Right", PlainLocation(104, 0x0949, T2Address, FuelCell, TH)),
    ("TH Waterfall Cave 1", PlainLocation(105, 0x094E, T2Address, FuelCell, TH)),
    ("TH Waterfall Cave 2", PlainLocation(106, 0x094C, T2Address, FuelCell, TH)),
    ("TH Waterfall Cave 3", PlainLocation(107, 0x0950, T2Address, FuelCell, TH)),
    ("TH Waterfall Cave Back", PlainLocation(108, 0x0948, T2Address, FuelCell, TH)),
    ("TH South Cave 1", PlainLocation(109, 0x0944, T2Address, FuelCell, TH)),
    ("TH South Cave 2", PlainLocation(110, 0x0942, T2Address, FuelCell, TH)),
    ("TH South Cave 3", PlainLocation(111, 0x0941, T2Address, FuelCell, TH)),
    ("TH Shop Booster Ledge 1", PlainLocation(112, 0x094F, T2Address, FuelCell, TH)),
    ("TH Shop Booster Ledge 2", PlainLocation(113, 0x094D, T2Address, FuelCell, TH)),
    ("TH Well Booster Ledge 1", PlainLocation(128, 0x095D, T2Address, FuelCell, ThWell)),
    ("TH Well Booster Ledge 2", PlainLocation(129, 0x095E, T2Address, FuelCell, ThWell)),
    ("IM Cheat Well Cave", PlainLocation(114, 0x0957, T2Address, FuelCell, IM)),
    ("IM Race Cave Front", PlainLocation(115, 0x0955, T2Address, FuelCell, IM)),
    ("IM Race Cave Back", PlainLocation(116, 0x0956, T2Address, FuelCell, IM)),
    ("SW Ice Block Left", PlainLocation(117, 0x0958, T2Address, FuelCell, SwWaterSpout)),
    ("SW Ice Block Right", PlainLocation(118, 0x0959, T2Address, FuelCell, SwWaterSpout)),
    ("SW Cold Water Left", PlainLocation(119, 0x0952, T2Address, FuelCell, SwEntrance)),
    ("SW Cold Water Right (also dig cave)", PlainLocation(120, 0x0953, T2Address, FuelCell, SwEntrance)),
    ("SW Dig Cave Left", PlainLocation(121, 0x0954, T2Address, FuelCell, SwEntrance)),
    ("SW Transition Booster Left", PlainLocation(122, 0x095F, T2Address, FuelCell, SwEntrance)),
    ("SW Transition Booster Right", PlainLocation(123, 0x0960, T2Address, FuelCell, SwEntrance)),
    ("SW Gate After Tree 1", PlainLocation(133, 0x0967, T2Address, FuelCell, SwGate)),
    ("SW Gate After Tree 2", PlainLocation(134, 0x0968, T2Address, FuelCell, SwGate)),
    ("SW Gate River Cheat Well", PlainLocation(135, 0x0984, T2Address, FuelCell, SwGate)),
    ("SW Gate River Ledge 1", PlainLocation(136, 0x095A, T2Address, FuelCell, SwGate)),
    ("SW Gate River Ledge 2", PlainLocation(137, 0x095B, T2Address, FuelCell, SwGate)),
    ("SW Gate River Ledge 3", PlainLocation(138, 0x095C, T2Address, FuelCell, SwGate)),
    ("TH Cape Claw Entrance 1", PlainLocation(124, 0x094A, T2Address, FuelCell, LFV)),
    ("TH Cape Claw Entrance 2", PlainLocation(125, 0x094B, T2Address, FuelCell, LFV))]

  const LocationDigSpot: Table := [
    ("SW Dig Alpine Root 1", PlainLocation(300, 0x002F, T2Address, DigSpot, SwWaterSpout)),
    ("SW Dig Alpine Root 2", PlainLocation(301, 0x002E, T2Address, DigSpot, SwWaterSpout)),
    ("SW Dig Water Spout Egg", PlainLocation(302, 0x003A, T2Address, DigSpot, SwWaterSpout)),
    ("SW Dig Entrance Bafomdad", PlainLocation(303, 0x086F, T2Address, DigSpot, SwEntrance)),
    ("SW Gate Dig Cave", PlainLocation(307, 0x086E, T2Address, DigSpot, SwGate)),
    ("TH Dig Near Shop", PlainLocation(304, 0x0857, T2Address, DigSpot, TH)),
    ("TH Dig Near Queen Cave", PlainLocation(305, 0x0856, T2Address, DigSpot, TH)),
    ("TH Dig Cape Claw Entrance", PlainLocation(306, 0x0858, T2Address, DigSpot, LFV)),
    ("DIM: Dig Alpine Root 1", PlainLocation(308, 0x037C, T2Address, DigSpot, DimEntrance)),
    ("DIM: Dig Alpine Root 2", PlainLocation(309, 0x037D, T2Address, DigSpot, DimEntrance))]

  /** The tables the location scan walks through on every poll. */
  const NormalTables: Table := LocationAny + LocationFuelCell + LocationDigSpot

  /** Every location. */
  const LocationTable: Table := LocationUpgrade + LocationShop + LocationAny + LocationFuelCell + LocationDigSpot

  // ---------------------------------------------------------------------------
  // Ids and names

  /** Ids are pairwise distinct. */
  predicate IdsDistinct(table: Table)
  {
    forall i, j :: 0 <= i < j < |table| ==> table[i].1.id != table[j].1.id
  }

  /** The position of each location id in the whole table, used to show
      that no id occurs twice. */
  function LocationPosition(id: int): int
  {
    if id < 10 then (match id case 1 => 0 case 2 => 1 case _ => -1)
    else if id < 30 then (match id case 20 => 20 case 21 => 21 case 22 => 22 case 23 => 23 case 24 => 24 case 25 => 25 case 26 => 26 case 27 => 27 case 28 => 28 case 29 => 29 case _ => -1)
    else if id < 40 then (match id case 30 => 30 case 31 => 31 case 32 => 32 case 33 => 33 case 34 => 34 case 35 => 35 case 36 => 36 case 37 => 37 case 38 => 38 case 39 => 39 case _ => -1)
    else if id < 50 then (match id case 40 => 40 case _ => -1)
    else if id < 110 then (match id case 100 => 41 case 101 => 42 case 102 => 43 case 103 => 44 case 104 => 45 case 105 => 46 case 106 => 47 case 107 => 48 case 108 => 49 case 109 => 50 case _ => -1)
    else if id < 120 then (match id case 110 => 51 case 111 => 52 case 112 => 53 case 113 => 54 case 114 => 57 case 115 => 58 case 116 => 59 case 117 => 60 case 118 => 61 case 119 => 62 case _ => -1)
    else if id < 130 then (match id case 128 => 55 case 129 => 56 case 120 => 63 case 121 => 64 case 122 => 65 case 123 => 66 case 124 => 73 case 125 => 74 case _ => -1)
    else if id < 140 then (match id case 133 => 67 case 134 => 68 case 135 => 69 case 136 => 70 case 137 => 71 case 138 => 72 case _ => -1)
    else if id < 210 then (match id case 200 => 2 case 201 => 3 case 202 => 4 case 203 => 5 case 204 => 6 case 205 => 7 case _ => -1)
    else if id < 220 then (match id case 210 => 8 case 211 => 9 case 212 => 10 case 213 => 11 case 214 => 12 case 215 => 13 case 216 => 14 case 217 => 15 case 218 => 16 case 219 => 17 case _ => -1)
    else if id < 230 then (match id case 220 => 18 case 221 => 19 case _ => -1)
    else if id < 310 then (match id case 300 => 75 case 301 => 76 case 302 => 77 case 303 => 78 case 307 => 79 case 304 => 80 case 305 => 81 case 306 => 82 case 308 => 83 case 309 => 84 case _ => -1)
    else -1
  }

  /** The position of each location name in the whole table, used to show
      that no name occurs twice. */
  function LocationNamePosition(name: string): int
  {
    match |name|
    case 14 => (
      match name[13]
      case '3' => (match name case "DIM: Get Cog 3" => 36 case _ => -1)
      case '4' => (match name case "DIM: Get Cog 4" => 37 case _ => -1)
      case 'y' => (match name case "Buy Rock Candy" => 2 case _ => -1)
      case _ => -1)
    case 15 => (
      match name[14]
      case '1' => (match name case "TH South Cave 1" => 50 case _ => -1)
      case '2' => (match name case "TH South Cave 2" => 51 case _ => -1)
      case '3' => (match name case "TH South Cave 3" => 52 case _ => -1)
      case 'l' => (match name case "Buy Tricky Ball" => 4 case _ => -1)
      case _ => -1)
    case 16 => (
      match name[15]
      case 'e' => (match name case "SW Magic Upgrade" => 20 case "SW Gate Dig Cave" => 79 case _ => -1)
      case 'p' => (match name case "TH Dig Near Shop" => 80 case _ => -1)
      case 't' => (match name case "DIM: Cog 2 Chest" => 35 case "SW Dig Cave Left" => 64 case _ => -1)
      case _ => -1)
    case 17 => (
      match name[16]
      case 'k' => (match name case "IM Race Cave Back" => 59 case _ => -1)
      case 's' => (match name case "Buy Map Moon Pass" => 13 case _ => -1)
      case 't' => (match name case "SW Ice Block Left" => 60 case _ => -1)
      case 'w' => (match name case "Buy Map Cape Claw" => 8 case _ => -1)
      case _ => -1)
    case 18 => (
      match name[17]
      case 'e' => (match name case "IM Cheat Well Cave" => 57 case _ => -1)
      case 'n' => (match name case "DIM: Dinosaur Horn" => 38 case _ => -1)
      case 't' => (match name case "IM Race Cave Front" => 58 case "SW Ice Block Right" => 61 case "SW Cold Water Left" => 62 case _ => -1)
      case _ => -1)
    case 19 => (
      match name[18]
      case '1' => (match name case "TH Waterfall Cave 1" => 46 case _ => -1)
      case '2' => (match name case "TH Waterfall Cave 2" => 47 case _ => -1)
      case '3' => (match name case "TH Waterfall Cave 3" => 48 case _ => -1)
      case 'k' => (match name case "Buy Map Dragon Rock" => 11 case _ => -1)
      case 'n' => (match name case "Buy Firefly Lantern" => 6 case _ => -1)
      case 'r' => (match name case "Buy Bafomdad Holder" => 5 case _ => -1)
      case 'y' => (match name case "Buy Map Walled City" => 17 case "DIM: Get Silver Key" => 39 case _ => -1)
      case _ => -1)
    case 20 => (
      match name[19]
      case '1' => (match name case "SW Gate After Tree 1" => 67 case "SW Dig Alpine Root 1" => 75 case _ => -1)
      case '2' => (match name case "SW Gate After Tree 2" => 68 case "SW Dig Alpine Root 2" => 76 case _ => -1)
      case 'e' => (match name case "Fire Blaster Upgrade" => 0 case _ => -1)
      case _ => -1)
    case 21 => (
      match name[20]
      case '1' => (match name case "SW Give Alpine Root 1" => 21 case "TH Dark Well Shroom 1" => 24 case "SW Gate River Ledge 1" => 70 case _ => -1)
      case '2' => (match name case "SW Give Alpine Root 2" => 22 case "TH Dark Well Shroom 2" => 25 case "SW Gate River Ledge 2" => 71 case _ => -1)
      case '3' => (match name case "TH Dark Well Shroom 3" => 26 case "SW Gate River Ledge 3" => 72 case _ => -1)
      case '4' => (match name case "TH Dark Well Shroom 4" => 27 case _ => -1)
      case '5' => (match name case "TH Dark Well Shroom 5" => 28 case _ => -1)
      case '6' => (match name case "TH Dark Well Shroom 6" => 29 case _ => -1)
      case 'e' => (match name case "Staff Booster Upgrade" => 1 case "Buy Map Krazoa Palace" => 10 case _ => -1)
      case 'n' => (match name case "DIM: Release SnowHorn" => 32 case _ => -1)
      case 'r' => (match name case "SW Rescue Gate Keeper" => 23 case _ => -1)
      case 's' => (match name case "Buy Map DarkIce Mines" => 15 case _ => -1)
      case 't' => (match name case "Buy Snowhorn Artifact" => 7 case _ => -1)
      case _ => -1)
    case 22 => (
      match name[21]
      case '1' => (match name case "DIM: Dig Alpine Root 1" => 83 case _ => -1)
      case '2' => (match name case "DIM: Dig Alpine Root 2" => 84 case _ => -1)
      case 'e' => (match name case "TH Dig Near Queen Cave" => 81 case _ => -1)
      case 'g' => (match name case "SW Dig Water Spout Egg" => 77 case _ => -1)
      case 'k' => (match name case "TH Waterfall Cave Back" => 49 case _ => -1)
      case _ => -1)
    case 23 => (
      match name[22]
      case '1' => (match name case "TH Shop Booster Ledge 1" => 53 case "TH Well Booster Ledge 1" => 55 case "TH Cape Claw Entrance 1" => 73 case _ => -1)
      case '2' => (match name case "TH Shop Booster Ledge 2" => 54 case "TH Well Booster Ledge 2" => 56 case "TH Cape Claw Entrance 2" => 74 case _ => -1)
      case 'l' => (match name case "TH Queen Cave Fuel Cell" => 41 case _ => -1)
      case 'n' => (match name case "DIM: Defeat Boss Galdon" => 40 case _ => -1)
      case 's' => (match name case "Buy Map SnowHorn Wastes" => 18 case _ => -1)
      case _ => -1)
    case 24 => (
      match name[23]
      case 'd' => (match name case "SW Dig Entrance Bafomdad" => 78 case _ => -1)
      case 'l' => (match name case "SW Gate River Cheat Well" => 69 case _ => -1)
      case 't' => (match name case "TH Pillar Fuel Cell Left" => 42 case "TH Beside Warpstone Left" => 44 case _ => -1)
      case 'w' => (match name case "Buy Map ThornTail Hollow" => 12 case _ => -1)
      case _ => -1)
    case 25 => (
      match name[24]
      case 'e' => (match name case "Buy Map LightFoot Village" => 14 case "TH Dig Cape Claw Entrance" => 82 case _ => -1)
      case 't' => (match name case "Buy Map Ocean Force Point" => 9 case "TH Pillar Fuel Cell Right" => 43 case "TH Beside Warpstone Right" => 45 case _ => -1)
      case _ => -1)
    case 26 => (
      match name[25]
      case 'e' => (match name case "Buy Hi-Tech Display Device" => 3 case _ => -1)
      case 'n' => (match name case "DIM: Find Injured SnowHorn" => 33 case "DIM: Feed Injured SnowHorn" => 34 case _ => -1)
      case 't' => (match name case "SW Transition Booster Left" => 65 case _ => -1)
      case _ => -1)
    case 27 => (
      match name[26]
      case 'e' => (match name case "TH Above Shop Magic Upgrade" => 30 case _ => -1)
      case 't' => (match name case "Buy Map Volcano Force Point" => 19 case "SW Transition Booster Right" => 66 case _ => -1)
      case _ => -1)
    case 28 => (
      match name[27]
      case 's' => (match name case "Buy Map CloudRunner Fortress" => 16 case "TH Queen Gave White GrubTubs" => 31 case _ => -1)
      case _ => -1)
    case 35 => (
      match name[34]
      case ')' => (match name case "SW Cold Water Right (also dig cave)" => 63 case _ => -1)
      case _ => -1)
    case _ => -1
  }

  /** Each entry of `table` sits at position `start` plus its index. */
  predicate IdsPlaced(table: Table, start: int)
  {
    forall i :: 0 <= i < |table| ==> LocationPosition(table[i].1.id) == start + i
  }

  predicate NamesPlaced(table: Table, start: int)
  {
    forall i :: 0 <= i < |table| ==> LocationNamePosition(table[i].0) == start + i
  }

  lemma PlacedAppend(a: Table, b: Table, start: int)
    requires IdsPlaced(a, start) && IdsPlaced(b, start + |a|)
    requires NamesPlaced(a, start) && NamesPlaced(b, start + |a|)
    ensures IdsPlaced(a + b, start) && NamesPlaced(a + b, start)
  {
    assert forall i :: |a| <= i < |a + b| ==> (a + b)[i] == b[i - |a|];
  }

  lemma UpgradeIdsPlaced()
    ensures IdsPlaced(LocationUpgrade, 0)
  {
    assert forall i :: 0 <= i < |LocationUpgrade| ==> LocationPosition(LocationUpgrade[i].1.id) == 0 + i;
  }

  lemma UpgradeNamesPlaced()
    ensures NamesPlaced(LocationUpgrade, 0)
  {
    assert forall i :: 0 <= i < |LocationUpgrade| ==> LocationNamePosition(LocationUpgrade[i].0) == 0 + i;
  }

  lemma ShopIdsPlaced()
    ensures IdsPlaced(LocationShop, 2)
  {
    assert forall i :: 0 <= i < |LocationShop| ==> LocationPosition(LocationShop[i].1.id) == 2 + i;
  }

  lemma ShopNamesPlaced()
    ensures NamesPlaced(LocationShop, 2)
  {
    assert forall i :: 0 <= i < |LocationShop| ==> LocationNamePosition(LocationShop[i].0) == 2 + i;
  }

  lemma AnyIdsPlaced()
    ensures IdsPlaced(LocationAny, 20)
  {
    assert forall i :: 0 <= i < |LocationAny| ==> LocationPosition(LocationAny[i].1.id) == 20 + i;
  }

  lemma AnyNamesPlaced()
    ensures NamesPlaced(LocationAny, 20)
  {
    assert forall i :: 0 <= i < |LocationAny| ==> LocationNamePosition(LocationAny[i].0) == 20 + i;
  }

  lemma FuelCellIdsPlaced()
    ensures IdsPlaced(LocationFuelCell, 41)
  {
    assert forall i :: 0 <= i < |LocationFuelCell| ==> LocationPosition(LocationFuelCell[i].1.id) == 41 + i;
  }

  lemma FuelCellNamesPlaced()
    ensures NamesPlaced(LocationFuelCell, 41)
  {
    FuelCellNamesPlacedLow();
    FuelCellNamesPlacedHigh();
  }

  lemma FuelCellNamesPlacedLow()
    ensures forall i :: 0 <= i < 17 ==> LocationNamePosition(LocationFuelCell[i].0) == 41 + i
  {
    assert forall i :: 0 <= i < 17 ==> LocationNamePosition(LocationFuelCell[i].0) == 41 + i;
  }

  lemma FuelCellNamesPlacedHigh()
    ensures forall i :: 17 <= i < 34 ==> LocationNamePosition(LocationFuelCell[i].0) == 41 + i
  {
    assert forall i :: 17 <= i < 34 ==> LocationNamePosition(LocationFuelCell[i].0) == 41 + i;
  }

  lemma DigSpotIdsPlaced()
    ensures IdsPlaced(LocationDigSpot, 75)
  {
    assert forall i :: 0 <= i < |LocationDigSpot| ==> LocationPosition(LocationDigSpot[i].1.id) == 75 + i;
  }

  lemma DigSpotNamesPlaced()
    ensures NamesPlaced(LocationDigSpot, 75)
  {
    assert forall i :: 0 <= i < |LocationDigSpot| ==> LocationNamePosition(LocationDigSpot[i].0) == 75 + i;
  }

  lemma TablePlaced()
    ensures IdsPlaced(LocationTable, 0) && NamesPlaced(LocationTable, 0)
  {
    UpgradeIdsPlaced();
    ShopIdsPlaced();
    AnyIdsPlaced();
    FuelCellIdsPlaced();
    DigSpotIdsPlaced();
    UpgradeNamesPlaced();
    ShopNamesPlaced();
    AnyNamesPlaced();
    FuelCellNamesPlaced();
    DigSpotNamesPlaced();
    PlacedAppend(LocationUpgrade, LocationShop, 0);
    PlacedAppend(LocationUpgrade + LocationShop, LocationAny, 0);
    PlacedAppend(LocationUpgrade + LocationShop + LocationAny, LocationFuelCell, 0);
    PlacedAppend(LocationUpgrade + LocationShop + LocationAny + LocationFuelCell, LocationDigSpot, 0);
  }

  /** No two locations share an id. */
  lemma LocationIdsDistinct()
    ensures IdsDistinct(LocationTable)
  {
    TablePlaced();
  }

  /** No two locations share a name, so the merged dictionary keeps every
      entry. */
  lemma LocationNamesDistinct()
    ensures KeysDistinct(LocationTable)
  {
    TablePlaced();
  }

  /** `locations_name_to_id_dict`: every location name mapped to its id. */
  function LocationsNameToId(): (r: map<string, int>)
    ensures forall k :: 0 <= k < |LocationTable| ==> LocationTable[k].0 in r && r[LocationTable[k].0] == LocationTable[k].1.id
    ensures forall name :: name in r ==> exists k :: 0 <= k < |LocationTable| && LocationTable[k].0 == name
  {
    var d := DictOf(LocationTable);
    assert forall k :: 0 <= k < |LocationTable| ==> LocationTable[k].0 in d && d[LocationTable[k].0] == LocationTable[k].1 by {
      LocationNamesDistinct();
      forall k | 0 <= k < |LocationTable| ensures LocationTable[k].0 in d && d[LocationTable[k].0] == LocationTable[k].1 {
        DictOfDistinct(LocationTable, k);
      }
    }
    map name | name in d :: d[name].id
  }

  /** The whole table is the upgrade and shop locations followed by the
      tables the scan walks through, and none of the scanned locations has
      the id of an upgrade or shop location. */
  lemma NormalTablesSplit()
    ensures LocationTable == LocationUpgrade + LocationShop + NormalTables
    ensures forall k, j :: 0 <= k < |NormalTables| && 0 <= j < |LocationUpgrade + LocationShop| ==>
      NormalTables[k].1.id != (LocationUpgrade + LocationShop)[j].1.id
  {
    var front := LocationUpgrade + LocationShop;
    assert LocationTable == front + NormalTables;
    LocationIdsDistinct();
    assert forall k :: 0 <= k < |NormalTables| ==> NormalTables[k] == LocationTable[|front| + k];
    assert forall j :: 0 <= j < |front| ==> front[j] == LocationTable[j];
  }

  /** No location of `table` is a map purchase. */
  predicate NoMaps(table: Table)
  {
    forall k :: 0 <= k < |table| ==> table[k].1.kind != Map
  }

  lemma ScannedNoMaps()
    ensures NoMaps(LocationUpgrade) && NoMaps(LocationAny) && NoMaps(LocationDigSpot)
  {
    assert forall k :: 0 <= k < |LocationAny| ==> LocationAny[k].1.kind != Map;
    assert forall k :: 0 <= k < |LocationDigSpot| ==> LocationDigSpot[k].1.kind != Map;
  }

  lemma FuelCellNoMaps()
    ensures NoMaps(LocationFuelCell)
  {
    assert forall k :: 0 <= k < |LocationFuelCell| ==> LocationFuelCell[k].1.kind != Map;
  }

  /** Map purchases are all in the shop table: no other table has a
      location of that type. */
  lemma MapLocationsInShop()
    ensures forall k :: 0 <= k < |LocationTable| && LocationTable[k].1.kind == Map ==>
      2 <= k < 20 && LocationTable[k] == LocationShop[k - 2]
  {
    ScannedNoMaps();
    FuelCellNoMaps();
    var front := LocationUpgrade + LocationShop;
    var back := LocationAny + LocationFuelCell + LocationDigSpot;
    assert LocationTable == front + back;
    assert NoMaps(back);
  }

  // ---------------------------------------------------------------------------
  // Creating the locations of a world

  /** The `shop_locations` option. */
  datatype ShopOption = AllItems | NoMap | Nothing

  /** A location placed in a region, with the item locked to it, if any. */
  datatype CreatedLocation = CreatedLocation(name: string, id: int, region: Region, lockedItem: Option<int>)

  /** `data` is one of the shop table's descriptors (descriptors compare
      by value). */
  predicate InShopValues(data: LocationData)
  {
    exists k :: 0 <= k < |LocationShop| && LocationShop[k].1 == data
  }

  /** The option filter: whether a location is created at all. */
  predicate Kept(option: ShopOption, data: LocationData)
  {
    !(option == Nothing && InShopValues(data)) && !(option == NoMap && data.kind == Map)
  }

  /** The location created for an entry; only the final boss holds the goal
      item. */
  function Create(name: string, data: LocationData): (c: CreatedLocation)
    ensures c.name == name && c.id == data.id && c.region == data.region
    ensures c.lockedItem.Some? <==> name == "DIM: Defeat Boss Galdon"
    ensures c.lockedItem.Some? ==> c.lockedItem.value == ItemTypes.VictoryId
  {
    CreatedLocation(name, data.id, data.region, if name == "DIM: Defeat Boss Galdon" then Some(ItemTypes.VictoryId) else None)
  }

  /** The locations created for the entries of `table` that pass the
      filter, in table order. */
  function Created(table: Table, option: ShopOption): seq<CreatedLocation>
  {
    if |table| == 0 then []
    else
      var n := |table| - 1;
      Created(table[..n], option) + if Kept(option, table[n].1) then [Create(table[n].0, table[n].1)] else []
  }

  /** The names of some created locations. */
  function Names(created: seq<CreatedLocation>): set<string>
  {
    set i | 0 <= i < |created| :: created[i].name
  }

  /** `created` holds a location with that name. */
  predicate NameCreated(created: seq<CreatedLocation>, name: string)
  {
    exists i :: 0 <= i < |created| && created[i].name == name
  }

  /** `create_regular_locations`: the locations created (what is appended
      to the regions) and the names added to the progress locations. */
  method CreateRegularLocations(option: ShopOption) returns (created: seq<CreatedLocation>, progress: set<string>)
    ensures created == Created(LocationTable, option)
    ensures progress == Names(created)
  {
    created, progress := CreateFrom(LocationTable, option);
  }

  /** The loop of `create_regular_locations` over the entries of `table`. */
  method CreateFrom(table: Table, option: ShopOption) returns (created: seq<CreatedLocation>, progress: set<string>)
    ensures created == Created(table, option)
    ensures progress == Names(created)
  {
    created, progress := [], {};
    for i := 0 to |table|
      invariant created == Created(table[..i], option)
      invariant progress == Names(created)
    {
      var name, data := table[i].0, table[i].1;
      assert table[..i + 1][..i] == table[..i];
      if option == Nothing && InShopValues(data) {
        continue;
      }
      if option == NoMap && data.kind == Map {
        continue;
      }
      var location := CreatedLocation(name, data.id, data.region, None);
      if name == "DIM: Defeat Boss Galdon" {
        location := location.(lockedItem := Some(ItemTypes.VictoryId));
      }
      NamesAppend(created, location);
      created := created + [location];
      progress := progress + {name};
    }
    assert table[..|table|] == table;
  }

  lemma NamesAppend(created: seq<CreatedLocation>, c: CreatedLocation)
    ensures Names(created + [c]) == Names(created) + {c.name}
  {
    var s := created + [c];
    assert forall j :: 0 <= j < |created| ==> s[j] == created[j];
    assert s[|created|] == c;
  }

  /** With distinct names, an entry's location is created exactly when the
      option filter keeps it, and then it is the one `Create` builds. */
  lemma {:induction false} CreatedIff(table: Table, option: ShopOption, k: int)
    requires 0 <= k < |table| && KeysDistinct(table)
    ensures NameCreated(Created(table, option), table[k].0) <==> Kept(option, table[k].1)
    ensures Kept(option, table[k].1) ==> Create(table[k].0, table[k].1) in Created(table, option)
  {
    var n := |table| - 1;
    var prefix := table[..n];
    var last := if Kept(option, table[n].1) then [Create(table[n].0, table[n].1)] else [];
    assert Created(table, option) == Created(prefix, option) + last;
    if k == n {
      if Kept(option, table[n].1) {
        assert Created(table, option)[|Created(prefix, option)|] == Create(table[n].0, table[n].1);
      }
      assert !NameCreated(Created(prefix, option), table[k].0) by {
        if NameCreated(Created(prefix, option), table[k].0) {
          var j := CreatedFrom(prefix, option, table[k].0);
        }
      }
    } else {
      assert prefix[k] == table[k];
      assert KeysDistinct(prefix);
      CreatedIff(prefix, option, k);
      assert table[n].0 != table[k].0;
      var all, before := Created(table, option), Created(prefix, option);
      assert forall i :: 0 <= i < |before| ==> all[i] == before[i];
      if NameCreated(all, table[k].0) {
        var i :| 0 <= i < |all| && all[i].name == table[k].0;
        assert i < |before|;
      }
    }
  }

  /** Every created name comes from an entry of the table. */
  lemma {:induction false} CreatedFrom(table: Table, option: ShopOption, name: string) returns (j: int)
    requires NameCreated(Created(table, option), name)
    ensures 0 <= j < |table| && table[j].0 == name && Kept(option, table[j].1)
  {
    var n := |table| - 1;
    var prefix := table[..n];
    if NameCreated(Created(prefix, option), name) {
      j := CreatedFrom(prefix, option, name);
      assert prefix[j] == table[j];
    } else {
      j := n;
    }
  }

  /** The option "nothing" on the catalog: every location except the
      shop's is created. */
  lemma NothingOption(k: int)
    requires 0 <= k < |LocationTable|
    ensures NameCreated(Created(LocationTable, Nothing), LocationTable[k].0) <==> !(2 <= k < 20)
  {
    LocationNamesDistinct();
    CreatedIff(LocationTable, Nothing, k);
    if 2 <= k < 20 {
      assert LocationTable[k] == LocationShop[k - 2];
    } else if InShopValues(LocationTable[k].1) {
      var j :| 0 <= j < |LocationShop| && LocationShop[j].1 == LocationTable[k].1;
      assert LocationTable[j + 2] == LocationShop[j];
      LocationIdsDistinct();
    }
  }

  /** The option "no_map" on the catalog: exactly the map purchases are
      skipped. */
  lemma NoMapOption(k: int)
    requires 0 <= k < |LocationTable|
    ensures NameCreated(Created(LocationTable, NoMap), LocationTable[k].0) <==> LocationTable[k].1.kind != Map
  {
    LocationNamesDistinct();
    CreatedIff(LocationTable, NoMap, k);
  }

  /** The option "all" on the catalog: every location is created. */
  lemma AllItemsOption(k: int)
    requires 0 <= k < |LocationTable|
    ensures NameCreated(Created(LocationTable, AllItems), LocationTable[k].0)
  {
    LocationNamesDistinct();
    CreatedIff(LocationTable, AllItems, k);
  }

}
