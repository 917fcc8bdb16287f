/** How the client reads and forces location flags: the test the location
    scan applies to each shape of descriptor, and the toggle applied to the
    magic cave upgrades and the shop entries when the player changes map. */
module LocationFlags {
  import opened Wrappers
  import opened Binary
  import opened Memory
  import opened BitHelper
  import opened BitMemory
  import opened Addresses
  import opened LocationTypes

  /** The memory bit a location's flag lives in. */
  function LocBit(data: LocationData): (int, nat)
  {
    GetBitAddress(data.tableAddress, data.bitOffset)
  }

  /** `_check_location_flag`'s test: the location's bit is on. */
  predicate FlagOn(m: Mem, data: LocationData)
  {
    FlagBit(m, data.tableAddress, data.bitOffset)
  }

  /** The bit is on exactly when its number is in the bit list of its byte. */
  lemma FlagListHasBit(m: Mem, data: LocationData)
    ensures (LocBit(data).1 in ExtractBitflagList(ByteAt(m, LocBit(data).0))) == FlagOn(m, data)
  {
  }

  /** The magic cave's act: bits 2 to 5 of its act byte. */
  function McAct(m: Mem): nat
  {
    ExtractBitsValue(ByteAt(m, MagicCaveActAddress), 2, 4)
  }

  /** The magic cave's flag word: four bytes read most significant first,
      then byte-swapped. */
  function McFlags(m: Mem): nat
  {
    SwapEndianOfBE(BytesAt(m, MagicCaveFlagAddress, 4));
    SwapEndian(FromBE(BytesAt(m, MagicCaveFlagAddress, 4)), 4)
  }

  /** Whether the upgrade's bit is among the bits of the cave's flag word (a
      missing bit never is). */
  predicate McFlagged(m: Mem, data: LocationData)
    requires data.UpgradeLocation?
  {
    data.mcBitflag.Some? && data.mcBitflag.value in ExtractBitflagList(McFlags(m))
  }

  // ---------------------------------------------------------------------------
  // The location scan

  /** The three loops of `locations_watcher`. */
  datatype ScanMode = NormalScan | MagicCaveScan | ShopScan

  /** Whether a loop in `mode` finds the location checked: a linked
      location counts only while its zone word holds its value, a count
      location once its counter reaches its count, a magic cave upgrade only
      in the act that hands it out, and every other one when its flag is on. */
  predicate Detected(m: Mem, mode: ScanMode, data: LocationData)
  {
    match mode
    case NormalScan =>
      (match data
       case LinkedLocation(_, _, _, _, _, _, mapAddress, mapBitSize, mapValue, _) =>
         ReadValue(m, mapAddress, 0, mapBitSize * 8, mapBitSize) == mapValue && FlagOn(m, data)
       case CountLocation(_, _, _, _, _, count, bitSize) =>
         ReadValue(m, data.tableAddress, data.bitOffset, bitSize, 1) >= count
       case _ => FlagOn(m, data))
    case MagicCaveScan =>
      data.UpgradeLocation? &&
      ((McAct(m) == MagicCaveUpgradeAct && McFlagged(m, data)) ||
       (McAct(m) == MagicCaveManaAct && data.mcBitflag.None?)) &&
      FlagOn(m, data)
    case ShopScan => FlagOn(m, data)
  }

  /** The checked ids after one loop over `table`: those held before, plus
      every location on the server that the loop finds checked. */
  function ScanTable(m: Mem, mode: ScanMode, table: Table, server: set<int>, checked: set<int>): set<int>
  {
    if |table| == 0 then checked
    else
      var n := |table| - 1;
      var prev := ScanTable(m, mode, table[..n], server, checked);
      if table[n].1.id in server && Detected(m, mode, table[n].1) then prev + {table[n].1.id} else prev
  }

  /** The loop up to entry `i + 1` is the loop up to `i`, then entry `i`. */
  lemma ScanNext(m: Mem, mode: ScanMode, table: Table, server: set<int>, checked: set<int>, i: nat)
    requires i < |table|
    ensures ScanTable(m, mode, table[..i + 1], server, checked) ==
      var prev := ScanTable(m, mode, table[..i], server, checked);
      if table[i].1.id in server && Detected(m, mode, table[i].1) then prev + {table[i].1.id} else prev
  {
    var p := table[..i + 1];
    assert p[..i] == table[..i];
  }

  /** Some location of `table` with this id is on the server and found
      checked. */
  predicate FoundIn(m: Mem, mode: ScanMode, table: Table, server: set<int>, id: int)
  {
    exists k :: 0 <= k < |table| && table[k].1.id == id && id in server && Detected(m, mode, table[k].1)
  }

  /** An id is held after the loop exactly when it was held before or a
      location of the table with that id is on the server and found checked. */
  lemma {:induction false} ScanTableIff(m: Mem, mode: ScanMode, table: Table, server: set<int>, checked: set<int>, id: int)
    ensures id in ScanTable(m, mode, table, server, checked) <==> id in checked || FoundIn(m, mode, table, server, id)
  {
    if |table| > 0 {
      var n := |table| - 1;
      var prefix := table[..n];
      ScanTableIff(m, mode, prefix, server, checked, id);
      if FoundIn(m, mode, table, server, id) {
        var k :| 0 <= k < |table| && table[k].1.id == id && id in server && Detected(m, mode, table[k].1);
        if k < n {
          assert prefix[k] == table[k];
        }
      }
      if FoundIn(m, mode, prefix, server, id) {
        var k :| 0 <= k < n && prefix[k].1.id == id && id in server && Detected(m, mode, prefix[k].1);
        assert prefix[k] == table[k];
      }
    }
  }

  /** The loop only adds, and only ids on the server. */
  lemma ScanTableBounds(m: Mem, mode: ScanMode, table: Table, server: set<int>, checked: set<int>)
    ensures checked <= ScanTable(m, mode, table, server, checked) <= checked + server
  {
    forall id | id in ScanTable(m, mode, table, server, checked)
      ensures id in checked + server
    {
      ScanTableIff(m, mode, table, server, checked, id);
    }
    forall id | id in checked
      ensures id in ScanTable(m, mode, table, server, checked)
    {
      ScanTableIff(m, mode, table, server, checked, id);
    }
  }

  // ---------------------------------------------------------------------------
  // The toggle on a map change

  /** The location's flag forced to `value` when `c` holds. */
  function ForceIf(m: Mem, c: bool, data: LocationData, value: bool): Mem
  {
    if c then SetFlagMem(m, data.tableAddress, data.bitOffset, value) else m
  }

  /** A forced flag reads back as forced. */
  lemma ForceIfFlag(m: Mem, c: bool, data: LocationData, value: bool)
    ensures FlagOn(ForceIf(m, c, data, value), data) == if c then value else FlagOn(m, data)
  {
    SetFlagReadBack(m, data.tableAddress, data.bitOffset, value);
  }

  /** Forcing a flag changes no other flag. */
  lemma ForceIfOther(m: Mem, c: bool, data: LocationData, value: bool, address: int, offset: int)
    requires GetBitAddress(address, offset) != LocBit(data)
    ensures FlagBit(ForceIf(m, c, data, value), address, offset) == FlagBit(m, address, offset)
  {
    SetFlagOther(m, data.tableAddress, data.bitOffset, value, address, offset);
  }

  /** `_special_location_item_toggle`: on entering the location's map its
      flag is forced on when the location is checked or not on the server,
      and off otherwise; on leaving that map, on when a map is sold there or
      the item it holds was received, and off otherwise. */
  function Toggle(m: Mem, data: LocationData, entered: int, expected: int, storedMap: int,
                  serverChecked: set<int>, server: set<int>, ids: seq<int>): Mem
    requires data.UpgradeLocation? || data.ShopLocation?
  {
    var m' := ForceIf(m, entered == expected, data, data.id in serverChecked || data.id !in server);
    ForceIf(m', storedMap == expected, data, data.kind == Map || data.linkedItem in ids)
  }

  /** Two forcings in a row: the later one wins, and with neither the flag
      is kept. */
  lemma ForceTwiceFlag(m: Mem, data: LocationData, c: bool, value: bool, c': bool, value': bool)
    ensures FlagOn(ForceIf(ForceIf(m, c, data, value), c', data, value'), data) ==
      if c' then value' else if c then value else FlagOn(m, data)
  {
    ForceIfFlag(m, c, data, value);
    ForceIfFlag(ForceIf(m, c, data, value), c', data, value');
  }

  /** What the toggle leaves in the location's flag: the leaving rule when
      the stored map is the location's map, else the entering rule when the
      new map is, and otherwise the flag as it was. */
  lemma ToggleFlag(m: Mem, data: LocationData, entered: int, expected: int, storedMap: int,
                   serverChecked: set<int>, server: set<int>, ids: seq<int>)
    requires data.UpgradeLocation? || data.ShopLocation?
    ensures FlagOn(Toggle(m, data, entered, expected, storedMap, serverChecked, server, ids), data) ==
      if storedMap == expected then data.kind == Map || data.linkedItem in ids
      else if entered == expected then data.id in serverChecked || data.id !in server
      else FlagOn(m, data)
  {
    ForceTwiceFlag(m, data, entered == expected, data.id in serverChecked || data.id !in server,
      storedMap == expected, data.kind == Map || data.linkedItem in ids);
  }

  /** The toggle changes no other flag. */
  lemma ToggleOther(m: Mem, data: LocationData, entered: int, expected: int, storedMap: int,
                    serverChecked: set<int>, server: set<int>, ids: seq<int>, address: int, offset: int)
    requires data.UpgradeLocation? || data.ShopLocation?
    requires GetBitAddress(address, offset) != LocBit(data)
    ensures FlagBit(Toggle(m, data, entered, expected, storedMap, serverChecked, server, ids), address, offset) ==
      FlagBit(m, address, offset)
  {
    ForceIfOther(m, entered == expected, data, data.id in serverChecked || data.id !in server, address, offset);
    ForceIfOther(ForceIf(m, entered == expected, data, data.id in serverChecked || data.id !in server),
      storedMap == expected, data, data.kind == Map || data.linkedItem in ids, address, offset);
  }

  /** Whether the loop toggles the entry: every upgrade or shop entry, and
      when `gated`, only an upgrade whose bit is in the cave's flag word
      while the cave is in its upgrade act (read from `gate`, the memory
      before the loop). */
  predicate Toggles(gate: Mem, gated: bool, data: LocationData)
  {
    (data.UpgradeLocation? || data.ShopLocation?) &&
    (gated ==> data.UpgradeLocation? && McAct(gate) == MagicCaveUpgradeAct && McFlagged(gate, data))
  }

  /** The toggle applied to the entries of a table in order. */
  function ToggleTable(m: Mem, gate: Mem, gated: bool, table: Table, entered: int, expected: int, storedMap: int,
                       serverChecked: set<int>, server: set<int>, ids: seq<int>): Mem
  {
    if |table| == 0 then m
    else
      var n := |table| - 1;
      var prev := ToggleTable(m, gate, gated, table[..n], entered, expected, storedMap, serverChecked, server, ids);
      if Toggles(gate, gated, table[n].1)
      then Toggle(prev, table[n].1, entered, expected, storedMap, serverChecked, server, ids)
      else prev
  }

  /** The loop up to entry `i + 1` is the loop up to `i`, then entry `i`. */
  lemma ToggleNext(m: Mem, gate: Mem, gated: bool, table: Table, entered: int, expected: int, storedMap: int,
                   serverChecked: set<int>, server: set<int>, ids: seq<int>, i: nat)
    requires i < |table|
    ensures ToggleTable(m, gate, gated, table[..i + 1], entered, expected, storedMap, serverChecked, server, ids) ==
      var prev := ToggleTable(m, gate, gated, table[..i], entered, expected, storedMap, serverChecked, server, ids);
      if Toggles(gate, gated, table[i].1) then Toggle(prev, table[i].1, entered, expected, storedMap, serverChecked, server, ids)
      else prev
  {
    var p := table[..i + 1];
    assert p[..i] == table[..i];
  }

  /** No two entries of a table share a bit. */
  predicate BitsDistinct(table: Table)
  {
    forall i, j :: 0 <= i < j < |table| ==> LocBit(table[i].1) != LocBit(table[j].1)
  }

  /** The loop leaves alone every flag that no toggled entry owns. */
  lemma {:induction false} ToggleTableFrame(m: Mem, gate: Mem, gated: bool, table: Table, entered: int, expected: int,
                                            storedMap: int, serverChecked: set<int>, server: set<int>, ids: seq<int>,
                                            address: int, offset: int)
    requires forall i :: 0 <= i < |table| && Toggles(gate, gated, table[i].1) ==> LocBit(table[i].1) != GetBitAddress(address, offset)
    ensures FlagBit(ToggleTable(m, gate, gated, table, entered, expected, storedMap, serverChecked, server, ids), address, offset) ==
      FlagBit(m, address, offset)
  {
    if |table| > 0 {
      var n := |table| - 1;
      var prefix := table[..n];
      assert forall i :: 0 <= i < n ==> prefix[i] == table[i];
      ToggleTableFrame(m, gate, gated, prefix, entered, expected, storedMap, serverChecked, server, ids, address, offset);
      if Toggles(gate, gated, table[n].1) {
        ToggleOther(ToggleTable(m, gate, gated, prefix, entered, expected, storedMap, serverChecked, server, ids),
          table[n].1, entered, expected, storedMap, serverChecked, server, ids, address, offset);
      }
    }
  }

  /** Each toggled entry ends with the flag its own toggle gives it, and an
      entry the loop skips keeps its flag. */
  lemma {:induction false} ToggleTableFlag(m: Mem, gate: Mem, gated: bool, table: Table, entered: int, expected: int,
                                           storedMap: int, serverChecked: set<int>, server: set<int>, ids: seq<int>, k: int)
    requires BitsDistinct(table) && 0 <= k < |table|
    ensures Toggles(gate, gated, table[k].1) ==>
      FlagOn(ToggleTable(m, gate, gated, table, entered, expected, storedMap, serverChecked, server, ids), table[k].1) ==
        FlagOn(Toggle(m, table[k].1, entered, expected, storedMap, serverChecked, server, ids), table[k].1)
    ensures !Toggles(gate, gated, table[k].1) ==>
      FlagOn(ToggleTable(m, gate, gated, table, entered, expected, storedMap, serverChecked, server, ids), table[k].1) ==
        FlagOn(m, table[k].1)
  {
    var data := table[k].1;
    var n := |table| - 1;
    var prefix := table[..n];
    var prev := ToggleTable(m, gate, gated, prefix, entered, expected, storedMap, serverChecked, server, ids);
    if k == n {
      assert forall i :: 0 <= i < n ==> prefix[i] == table[i];
      ToggleTableFrame(m, gate, gated, prefix, entered, expected, storedMap, serverChecked, server, ids,
        data.tableAddress, data.bitOffset);
      if Toggles(gate, gated, data) {
        TogglePreserved(m, prev, data, entered, expected, storedMap, serverChecked, server, ids);
      }
    } else {
      assert prefix[k].1 == data;
      PrefixBitsDistinct(table, n);
      ToggleTableFlag(m, gate, gated, prefix, entered, expected, storedMap, serverChecked, server, ids, k);
      if Toggles(gate, gated, table[n].1) {
        assert LocBit(data) != LocBit(table[n].1);
        ToggleOther(prev, table[n].1, entered, expected, storedMap, serverChecked, server, ids,
          data.tableAddress, data.bitOffset);
      }
    }
  }

  /** Two memories that agree on a location's flag agree on it after the
      toggle. */
  lemma TogglePreserved(m: Mem, m': Mem, data: LocationData, entered: int, expected: int, storedMap: int,
                        serverChecked: set<int>, server: set<int>, ids: seq<int>)
    requires data.UpgradeLocation? || data.ShopLocation?
    requires FlagOn(m, data) == FlagOn(m', data)
    ensures FlagOn(Toggle(m, data, entered, expected, storedMap, serverChecked, server, ids), data) ==
      FlagOn(Toggle(m', data, entered, expected, storedMap, serverChecked, server, ids), data)
  {
    ToggleFlag(m, data, entered, expected, storedMap, serverChecked, server, ids);
    ToggleFlag(m', data, entered, expected, storedMap, serverChecked, server, ids);
  }

  lemma PrefixBitsDistinct(table: Table, n: nat)
    requires BitsDistinct(table) && n <= |table|
    ensures BitsDistinct(table[..n])
  {
    forall i, j | 0 <= i < j < n
      ensures LocBit(table[..n][i].1) != LocBit(table[..n][j].1)
    {
      assert table[..n][i] == table[i] && table[..n][j] == table[j];
    }
  }
}
