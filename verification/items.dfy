/** The shapes of item descriptors (`SFAItemData` and its subclasses). */
module ItemTypes {
  import opened Wrappers

  /** How the client treats an item in game (`SFAItemType`). */
  datatype ItemType =
    | StaffType | TrickyType | InventoryType | ProgressiveType | ConsumableType
    | ShopProgression | ShopUseful | UsefulType | FillerType | PlanetType

  /** The Archipelago classification of an item. */
  datatype Classification = Progression | Useful | Filler

  /** One stage of a progressive item: the flag's bit offset, its table, and
      the count it stands for. */
  datatype Stage = Stage(offset: int, address: int, count: int)

  /** An item descriptor. `kind` is the item type; the variants are the
      descriptor classes, and every variant carries the common fields. */
  datatype ItemData =
    | PlainItem(id: int, bitOffset: int, tableAddress: int, kind: ItemType, classification: Classification)
    | StaffItem(id: int, bitOffset: int, tableAddress: int, kind: ItemType, classification: Classification,
                mcBitflag: Option<int>, linkedLocation: Option<int>)
    | ProgressiveItem(id: int, bitOffset: int, tableAddress: int, kind: ItemType, classification: Classification,
                      stages: seq<Stage>)
    | CountItem(id: int, bitOffset: int, tableAddress: int, kind: ItemType, classification: Classification,
                maxCount: int, bitSize: nat, countIncrement: int, startAmount: int)
      /** A count item whose in-game counter is lowered by the number of
          copies already handed over, read from a second field. */
    | QuestItem(id: int, bitOffset: int, tableAddress: int, kind: ItemType, classification: Classification,
                maxCount: int, bitSize: nat, countIncrement: int, startAmount: int,
                usedOffset: int, usedBitSize: nat)
    | ConsumableItem(id: int, bitOffset: int, tableAddress: int, kind: ItemType, classification: Classification,
                     addValue: int, bitSize: nat, maxReadAddress: int, maxReadBitSize: nat)

  type Table = seq<(string, ItemData)>

  /** The goal item's id, the one the client treats as the win. */
  const VictoryId := 2000
}

/** The item catalog: the descriptor of every item the randomizer can hand
    out (where its flag or counter lives and how the client applies it),
    the lookup by id, and the rule that fills the item pool. */
module Items {
  import opened Wrappers
  import opened Dicts
  import opened Addresses
  import opened ItemTypes

  // ---------------------------------------------------------------------------
  // The descriptors

  const Staff := StaffItem(1, 0x0080, T2Address, StaffType, Progression, None, None)
  const FireBlaster := StaffItem(2, 0x06FC, T2Address, StaffType, Progression, None, None)
  const StaffBooster := StaffItem(3, 0x0706, T2Address, StaffType, Progression, None, None)

  const Tricky := ProgressiveItem(10, 0x0, T2Address, TrickyType, Progression,
    [Stage(0x0846, T2Address, 1), Stage(0x084B, T2Address, 1)])

  const DinosaurPlanet := PlainItem(50, 0x0930, T2Address, PlanetType, Progression)
  const DarkIceMines := PlainItem(51, 0x093D, T2Address, PlanetType, Progression)

  const ScarabBag := ProgressiveItem(100, 0x0, T2Address, ProgressiveType, Progression,
    [Stage(0x035B, T2Address, 1), Stage(0x035C, T2Address, 1), Stage(0x035D, T2Address, 1)])
  const BombPlant := PlainItem(101, 0x0, T2Address, InventoryType, Progression)
  const AlpineRoot := QuestItem(102, 0x0030, T2Address, InventoryType, Progression, 2, 3, 1, 0, 0x0033, 3)
  const WhiteGrubTub := QuestItem(103, 0x00A9, T2Address, InventoryType, Progression, 6, 3, 1, 0, 0x00AD, 3)
  const GateKey := PlainItem(104, 0x00B0, T2Address, InventoryType, Progression)
  const Cog1 := PlainItem(105, 0x036E, T2Address, InventoryType, Progression)
  /** Leaves the width of its "used" field at the default of one bit. */
  const DimAlpineRoot := QuestItem(106, 0x037E, T2Address, InventoryType, Progression, 2, 3, 1, 0, 0x036C, 1)
  const Cogs := ProgressiveItem(107, 0x0371, T2Address, InventoryType, Progression,
    [Stage(0x0371, T2Address, 1), Stage(0x0373, T2Address, 1), Stage(0x0375, T2Address, 1)])
  const DinosaurHorn := PlainItem(110, 0x03A0, T2Address, InventoryType, Progression)
  const CellSilverKey := PlainItem(111, 0x03DC, T2Address, InventoryType, Progression)

  const RockCandy := PlainItem(200, 0x035F, T2Address, ShopProgression, Progression)
  const HiTechDisplayDevice := PlainItem(201, 0x035E, T2Address, ShopUseful, Useful)
  const TrickyBall := PlainItem(202, 0x084C, T2Address, ShopUseful, Useful)
  const BafomdadHolder := PlainItem(203, 0x09EE, T2Address, ShopUseful, Useful)
  const FireflyLantern := PlainItem(204, 0x0717, T2Address, ShopProgression, Progression)

  const Victory := PlainItem(VictoryId, 0x0, 0x0, FillerType, Progression)

  const MpUpgrade := CountItem(300, 0x0, PlayerMaxMp, UsefulType, Useful, 6, 8, 25, 25)
  const HpUpgrade := CountItem(301, 0x0, PlayerMaxHp, UsefulType, Useful, 6, 8, 4, 12)

  const FuelCell := CountItem(1001, 0x0935, T2Address, FillerType, Filler, 255, 8, 1, 0)
  const HealthRefill := ConsumableItem(1002, 0x0, PlayerCurHp, FillerType, Filler, 4, 8, PlayerMaxHp, 8)
  const MagicRefill := ConsumableItem(1003, 0x0, PlayerCurMp, FillerType, Filler, 25, 8, PlayerMaxMp, 8)

  // ---------------------------------------------------------------------------
  // The tables, in the order of their dictionary literals

  const ItemStaff: Table := [("Staff", Staff), ("Fire Blaster", FireBlaster), ("Staff Booster", StaffBooster)]
  const ItemTricky: Table := [("Tricky (Progressive)", Tricky)]
  const ItemPlanet: Table := [("Dinosaur Planet", DinosaurPlanet), ("DarkIce Mines", DarkIceMines)]
  const ItemInventory: Table := [
    ("Scarab Bag (Progressive)", ScarabBag), ("Bomb Plant", BombPlant), ("Alpine Root", AlpineRoot),
    ("White GrubTub", WhiteGrubTub), ("Gate Key", GateKey), ("Cog 1", Cog1),
    ("DIM Alpine Root", DimAlpineRoot), ("Cog 2/3/4", Cogs), ("Dinosaur Horn", DinosaurHorn),
    ("Cell Silver Key", CellSilverKey)]
  const ItemShop: Table := [
    ("Rock Candy", RockCandy), ("Hi-Tech Display Device", HiTechDisplayDevice), ("Tricky Ball", TrickyBall),
    ("Bafomdad Holder", BafomdadHolder), ("Firefly Lantern", FireflyLantern)]
  const ProgressionItems: Table :=
    ItemStaff + ItemInventory + ItemShop + ItemTricky + ItemPlanet + [("Victory", Victory)]
  const UsefulItems: Table := [("MP Upgrade", MpUpgrade), ("HP Upgrade", HpUpgrade)]
  const FillerItems: Table := [("Fuel Cell", FuelCell), ("Health Refill", HealthRefill), ("Magic Refill", MagicRefill)]
  const AllItemsTable: Table := ProgressionItems + UsefulItems + FillerItems

  // ---------------------------------------------------------------------------
  // Lookup

  /** The first descriptor of `table` with the given id, if any. */
  function FindById(table: Table, id: int): (r: Option<ItemData>)
    ensures r.Some? ==> exists k :: 0 <= k < |table| && table[k].1 == r.value && FirstWithId(table, id, k)
    ensures r.None? <==> forall k :: 0 <= k < |table| ==> table[k].1.id != id
  {
    if |table| == 0 then None
    else if table[0].1.id == id then
      assert FirstWithId(table, id, 0);
      Some(table[0].1)
    else
      var r := FindById(table[1..], id);
      assert forall k :: 0 <= k < |table| - 1 ==> table[1..][k] == table[k + 1];
      if r.Some? then
        var k :| 0 <= k < |table| - 1 && table[1..][k].1 == r.value && FirstWithId(table[1..], id, k);
        assert FirstWithId(table, id, k + 1);
        r
      else
        assert forall k :: 1 <= k < |table| ==> table[k] == table[1..][k - 1];
        r
  }

  /** Entry `k` is the first entry with id `id`. */
  predicate FirstWithId(table: Table, id: int, k: int)
    requires 0 <= k < |table|
  {
    table[k].1.id == id && forall j :: 0 <= j < k ==> table[j].1.id != id
  }

  /** `SFAItemData.get_by_id`: the first item of the whole catalog with
      that id, or nothing. */
  function GetById(id: int): Option<ItemData>
  {
    FindById(AllItemsTable, id)
  }

  /** Ids are pairwise distinct. */
  predicate IdsDistinct(table: Table)
  {
    forall i, j :: 0 <= i < j < |table| ==> table[i].1.id != table[j].1.id
  }

  /** In a table without repeated ids, the lookup finds every entry. */
  lemma FindEntry(table: Table, k: int)
    requires 0 <= k < |table| && IdsDistinct(table)
    ensures FindById(table, table[k].1.id) == Some(table[k].1)
  {
    var r := FindById(table, table[k].1.id);
    var k' :| 0 <= k' < |table| && table[k'].1 == r.value && FirstWithId(table, table[k].1.id, k');
  }

  /** The position of each catalog id in the catalog, used to show that no
      id occurs twice. */
  function CatalogPosition(id: int): int
  {
    match id
    case 1 => 0 case 2 => 1 case 3 => 2
    case 100 => 3 case 101 => 4 case 102 => 5 case 103 => 6 case 104 => 7
    case 105 => 8 case 106 => 9 case 107 => 10 case 110 => 11 case 111 => 12
    case 200 => 13 case 201 => 14 case 202 => 15 case 203 => 16 case 204 => 17
    case 10 => 18 case 50 => 19 case 51 => 20 case 2000 => 21
    case 300 => 22 case 301 => 23 case 1001 => 24 case 1002 => 25 case 1003 => 26
    case _ => -1
  }

  /** The catalog's ids are pairwise distinct. */
  lemma CatalogIdsDistinct()
    ensures IdsDistinct(AllItemsTable)
  {
    assert forall i :: 0 <= i < |AllItemsTable| ==> CatalogPosition(AllItemsTable[i].1.id) == i;
  }

  /** Looking up the id of any catalog entry returns that entry. */
  lemma GetByIdOfEntry(k: int)
    requires 0 <= k < |AllItemsTable|
    ensures GetById(AllItemsTable[k].1.id) == Some(AllItemsTable[k].1)
  {
    CatalogIdsDistinct();
    FindEntry(AllItemsTable, k);
  }

  /** The position of each catalog name in the catalog, used to show that no
      name occurs twice. */
  function CatalogNamePosition(name: string): int
  {
    match name
    case "Staff" => 0 case "Fire Blaster" => 1 case "Staff Booster" => 2
    case "Scarab Bag (Progressive)" => 3 case "Bomb Plant" => 4 case "Alpine Root" => 5
    case "White GrubTub" => 6 case "Gate Key" => 7 case "Cog 1" => 8 case "DIM Alpine Root" => 9
    case "Cog 2/3/4" => 10 case "Dinosaur Horn" => 11 case "Cell Silver Key" => 12
    case "Rock Candy" => 13 case "Hi-Tech Display Device" => 14 case "Tricky Ball" => 15
    case "Bafomdad Holder" => 16 case "Firefly Lantern" => 17
    case "Tricky (Progressive)" => 18 case "Dinosaur Planet" => 19 case "DarkIce Mines" => 20
    case "Victory" => 21 case "MP Upgrade" => 22 case "HP Upgrade" => 23
    case "Fuel Cell" => 24 case "Health Refill" => 25 case "Magic Refill" => 26
    case _ => -1
  }

  /** The catalog's names are pairwise distinct, so its dictionary keeps
      every entry. */
  lemma CatalogNamesDistinct()
    ensures KeysDistinct(AllItemsTable)
  {
    assert forall i :: 0 <= i < |AllItemsTable| ==> CatalogNamePosition(AllItemsTable[i].0) == i;
  }

  /** `items_name_to_id_dict`: every catalog name mapped to its item's id. */
  function ItemsNameToId(): (r: map<string, int>)
    ensures forall k :: 0 <= k < |AllItemsTable| ==> AllItemsTable[k].0 in r && r[AllItemsTable[k].0] == AllItemsTable[k].1.id
    ensures forall name :: name in r ==> exists k :: 0 <= k < |AllItemsTable| && AllItemsTable[k].0 == name
  {
    var d := DictOf(AllItemsTable);
    assert forall k :: 0 <= k < |AllItemsTable| ==> AllItemsTable[k].0 in d && d[AllItemsTable[k].0] == AllItemsTable[k].1 by {
      CatalogNamesDistinct();
      forall k | 0 <= k < |AllItemsTable| ensures AllItemsTable[k].0 in d && d[AllItemsTable[k].0] == AllItemsTable[k].1 {
        DictOfDistinct(AllItemsTable, k);
      }
    }
    map name | name in d :: d[name].id
  }

  // ---------------------------------------------------------------------------
  // The item pool

  /** Progression items the pool leaves out: the three handed out at the
      start, and the goal. */
  predicate Skipped(name: string)
  {
    name == "Staff" || name == "Bomb Plant" || name == "Dinosaur Planet" || name == "Victory"
  }

  /** `n` copies of `name`; none when `n` is not positive. */
  function Copies(name: string, n: int): seq<string>
  {
    seq(if n > 0 then n else 0, _ => name)
  }

  /** The copies one progression entry adds to the pool. */
  function Contribution(name: string, data: ItemData): seq<string>
  {
    if Skipped(name) then []
    else if data.CountItem? || data.QuestItem? then Copies(name, data.maxCount)
    else if data.ProgressiveItem? then Copies(name, |data.stages|)
    else [name]
  }

  /** The pool the progression entries of `table` contribute, in order. */
  function BasePool(table: Table): seq<string>
  {
    if |table| == 0 then [] else Contribution(table[0].0, table[0].1) + BasePool(table[1..])
  }

  /** The upgrades added after the progression items. */
  const Upgrades := ["MP Upgrade", "MP Upgrade", "HP Upgrade", "HP Upgrade"]

  /** `name` names an entry of the filler table. */
  predicate IsFillerName(name: string)
  {
    exists k :: 0 <= k < |FillerItems| && FillerItems[k].0 == name
  }

  /** `get_random_filler_item_name` given its two draws from `randint(0, 99)`
      (the second is only looked at when the first is 20 or more). */
  function RandomFillerName(first: int, second: int): (r: string)
    ensures IsFillerName(r)
    ensures r == "Health Refill" <==> first < 20
    ensures r == "Magic Refill" <==> first >= 20 && second < 20
  {
    assert FillerItems[0].0 == "Fuel Cell" && FillerItems[1].0 == "Health Refill" && FillerItems[2].0 == "Magic Refill";
    if first < 20 then "Health Refill" else if second < 20 then "Magic Refill" else "Fuel Cell"
  }

  lemma {:induction false} BasePoolAppend(a: Table, b: Table)
    ensures BasePool(a + b) == BasePool(a) + BasePool(b)
  {
    if |a| > 0 {
      assert (a + b)[1..] == a[1..] + b;
      BasePoolAppend(a[1..], b);
    } else {
      assert a + b == b;
    }
  }

  /** Every pool entry is a name of the table that the rule does not skip. */
  lemma {:induction false} BasePoolMembers(table: Table, name: string)
    ensures name in BasePool(table) ==> !Skipped(name) && exists k :: 0 <= k < |table| && table[k].0 == name
  {
    if |table| > 0 {
      var rest := table[1..];
      BasePoolMembers(rest, name);
      if name in BasePool(rest) {
        var k :| 0 <= k < |rest| && rest[k].0 == name;
        assert table[k + 1] == rest[k];
      }
    }
  }

  /** With distinct names, each name occurs in the pool exactly as often as
      its entry contributes. */
  lemma {:induction false} BasePoolCount(table: Table, k: int)
    requires 0 <= k < |table| && KeysDistinct(table)
    ensures multiset(BasePool(table))[table[k].0] == |Contribution(table[k].0, table[k].1)|
  {
    var name := table[k].0;
    var rest := table[1..];
    var c := Contribution(table[0].0, table[0].1);
    assert forall x :: x in c ==> x == table[0].0;
    assert KeysDistinct(rest);
    if k == 0 {
      assert multiset(c)[name] == |c| by {
        assert c == Copies(name, |c|);
        CopiesCount(name, |c|);
      }
      assert name !in BasePool(rest) by {
        BasePoolMembers(rest, name);
        assert forall j :: 0 <= j < |rest| ==> rest[j] == table[j + 1];
      }
    } else {
      assert multiset(c)[name] == 0;
      assert rest[k - 1] == table[k];
      BasePoolCount(rest, k - 1);
    }
  }

  lemma {:induction false} CopiesCount(name: string, n: nat)
    ensures multiset(Copies(name, n))[name] == n
  {
    if n > 0 {
      assert Copies(name, n) == Copies(name, n - 1) + [name];
      CopiesCount(name, n - 1);
    }
  }

  /** An illustration of `BasePoolCount` on four entries of the catalog,
      not a separate promise of the source: the quest item with six copies
      and the three-stage progressive item are in the pool that often, and
      the skipped items not at all. */
  lemma BasePoolExamples()
    ensures multiset(BasePool(ProgressionItems))["White GrubTub"] == 6
    ensures multiset(BasePool(ProgressionItems))["Scarab Bag (Progressive)"] == 3
    ensures multiset(BasePool(ProgressionItems))["Staff"] == 0
    ensures multiset(BasePool(ProgressionItems))["Victory"] == 0
  {
    CatalogNamesDistinct();
    assert KeysDistinct(ProgressionItems) by {
      assert forall k :: 0 <= k < |ProgressionItems| ==> ProgressionItems[k] == AllItemsTable[k];
    }
    assert ProgressionItems[6] == ("White GrubTub", WhiteGrubTub);
    assert ProgressionItems[3] == ("Scarab Bag (Progressive)", ScarabBag);
    BasePoolCount(ProgressionItems, 6);
    BasePoolCount(ProgressionItems, 3);
    BasePoolMembers(ProgressionItems, "Staff");
    BasePoolMembers(ProgressionItems, "Victory");
  }

  /** The fillers for `n` free locations (none when `n` is not positive),
      one pair of draws each. */
  function Fillers(rolls: seq<(int, int)>, n: int): seq<string>
    requires n <= |rolls|
  {
    seq(if n > 0 then n else 0, k requires 0 <= k < |rolls| => RandomFillerName(rolls[k].0, rolls[k].1))
  }

  /** `create_all_items`: the pool handed to the generator and the items the
      player starts with. `unfilledLocations` is the number of locations
      still without an item; `rolls` are the random draws for the fillers. */
  method CreateAllItems(unfilledLocations: nat, rolls: seq<(int, int)>) returns (itempool: seq<string>, precollected: seq<string>)
    requires |rolls| >= unfilledLocations
    ensures itempool == ItemPool(unfilledLocations, rolls)
    ensures precollected == ["Staff", "Bomb Plant", "Dinosaur Planet"]
  {
    itempool := PoolOf(ProgressionItems);
    itempool := itempool + ["MP Upgrade"];
    itempool := itempool + ["MP Upgrade"];
    itempool := itempool + ["HP Upgrade"];
    itempool := itempool + ["HP Upgrade"];
    var needed := unfilledLocations - |itempool|;
    itempool := itempool + Fillers(rolls, needed);
    precollected := ["Staff", "Bomb Plant", "Dinosaur Planet"];
  }

  /** The loop of `create_all_items` over the progression entries. */
  method PoolOf(table: Table) returns (itempool: seq<string>)
    ensures itempool == BasePool(table)
  {
    itempool := [];
    for i := 0 to |table|
      invariant itempool == BasePool(table[..i])
    {
      var name, data := table[i].0, table[i].1;
      BasePoolAppend(table[..i], [table[i]]);
      assert table[..i + 1] == table[..i] + [table[i]];
      if name == "Staff" || name == "Bomb Plant" || name == "Dinosaur Planet" || name == "Victory" {
        continue;
      }
      if data.CountItem? || data.QuestItem? {
        itempool := itempool + Copies(name, data.maxCount);
      } else if data.ProgressiveItem? {
        itempool := itempool + Copies(name, |data.stages|);
      } else {
        itempool := itempool + [name];
      }
    }
    assert table[..|table|] == table;
  }

  /** The pool `create_all_items` builds: the progression items by the pool
      rule, the upgrades, then fillers up to the number of unfilled locations. */
  function ItemPool(unfilledLocations: nat, rolls: seq<(int, int)>): seq<string>
    requires |rolls| >= unfilledLocations
  {
    BasePool(ProgressionItems) + Upgrades +
      Fillers(rolls, unfilledLocations - (|BasePool(ProgressionItems)| + |Upgrades|))
  }

  /** The pool has one item per unfilled location, and never fewer than the
      progression items and the upgrades; past those come only fillers. */
  lemma PoolSize(unfilledLocations: nat, rolls: seq<(int, int)>)
    requires |rolls| >= unfilledLocations
    ensures |ItemPool(unfilledLocations, rolls)| ==
      if unfilledLocations > |BasePool(ProgressionItems)| + 4 then unfilledLocations
      else |BasePool(ProgressionItems)| + 4
    ensures forall k :: |BasePool(ProgressionItems)| + 4 <= k < |ItemPool(unfilledLocations, rolls)| ==>
      IsFillerName(ItemPool(unfilledLocations, rolls)[k])
  {
    var base := |BasePool(ProgressionItems)| + |Upgrades|;
    var fillers := Fillers(rolls, unfilledLocations - base);
    var pool := ItemPool(unfilledLocations, rolls);
    assert base == |BasePool(ProgressionItems)| + 4;
    forall k | base <= k < |pool|
      ensures IsFillerName(pool[k])
    {
      assert pool[k] == fillers[k - base];
    }
  }
}
