/** The loops of `locations_watcher` over one location table, each proved
    against the loop `ScanTable` specifies, and the two checks they run. */
module LocationScan {
  import opened Memory
  import opened BitHelper
  import opened BitMemory
  import opened Addresses
  import opened LocationTypes
  import opened LocationFlags
  import opened Context

  /** `_check_location_flag`: a location on the server whose flag bit is on
      is added to the checked set. */
  method CheckLocationFlag(ctx: SFAContext, data: LocationData)
    modifies ctx`locationsChecked
    ensures ctx.locationsChecked == old(ctx.locationsChecked) +
      (if data.id in ctx.serverLocations && FlagOn(ctx.dme.ram, data) then {data.id} else {})
  {
    if data.id !in ctx.serverLocations {
      return;
    }
    var b := ctx.dme.ReadByte(LocBit(data).0);
    FlagListHasBit(ctx.dme.ram, data);
    if LocBit(data).1 in ExtractBitflagList(b) {
      ctx.locationsChecked := ctx.locationsChecked + {data.id};
    }
  }

  /** `_check_location_value`: a location on the server whose counter has
      reached its count is added to the checked set. */
  method CheckLocationValue(ctx: SFAContext, data: LocationData)
    requires data.CountLocation?
    modifies ctx`locationsChecked
    ensures ctx.locationsChecked == old(ctx.locationsChecked) +
      (if data.id in ctx.serverLocations && ReadValue(ctx.dme.ram, data.tableAddress, data.bitOffset, data.bitSize, 1) >= data.count
       then {data.id} else {})
  {
    if data.id !in ctx.serverLocations {
      return;
    }
    var value := ReadValueBytes(ctx.dme, data.tableAddress, data.bitOffset, data.bitSize, 1);
    if value >= data.count {
      ctx.locationsChecked := ctx.locationsChecked + {data.id};
    }
  }

  /** The loop over the normal tables: a linked location is looked at only
      while its zone word holds its value, a count location by its counter,
      every other one by its flag. */
  method ScanNormal(ctx: SFAContext, table: Table)
    modifies ctx`locationsChecked
    ensures ctx.locationsChecked == ScanTable(ctx.dme.ram, NormalScan, table, ctx.serverLocations, old(ctx.locationsChecked))
  {
    var i := 0;
    while i < |table|
      invariant 0 <= i <= |table|
      invariant ctx.locationsChecked == ScanTable(ctx.dme.ram, NormalScan, table[..i], ctx.serverLocations, old(ctx.locationsChecked))
    {
      ScanNext(ctx.dme.ram, NormalScan, table, ctx.serverLocations, old(ctx.locationsChecked), i);
      var data := table[i].1;
      if data.LinkedLocation? {
        var zone := ReadValueBytes(ctx.dme, data.mapAddress, 0, data.mapBitSize * 8, data.mapBitSize);
        if zone == data.mapValue {
          CheckLocationFlag(ctx, data);
        }
      } else if data.CountLocation? {
        CheckLocationValue(ctx, data);
      } else {
        CheckLocationFlag(ctx, data);
      }
      i := i + 1;
    }
    assert table[..i] == table;
  }

  /** The loop over the magic cave upgrades, each judged on the cave's act
      and flag word read afresh. */
  method ScanCave(ctx: SFAContext, table: Table)
    requires forall k :: 0 <= k < |table| ==> table[k].1.UpgradeLocation?
    modifies ctx`locationsChecked
    ensures ctx.locationsChecked == ScanTable(ctx.dme.ram, MagicCaveScan, table, ctx.serverLocations, old(ctx.locationsChecked))
  {
    var i := 0;
    while i < |table|
      invariant 0 <= i <= |table|
      invariant ctx.locationsChecked == ScanTable(ctx.dme.ram, MagicCaveScan, table[..i], ctx.serverLocations, old(ctx.locationsChecked))
    {
      ScanNext(ctx.dme.ram, MagicCaveScan, table, ctx.serverLocations, old(ctx.locationsChecked), i);
      var data := table[i].1;
      var actByte := ctx.dme.ReadByte(MagicCaveActAddress);
      var act := ExtractBitsValue(actByte, 2, 4);
      var word := ctx.dme.ReadWord(MagicCaveFlagAddress);
      SwapEndianOfBE(BytesAt(ctx.dme.ram, MagicCaveFlagAddress, 4));
      var flags := ExtractBitflagList(SwapEndian(word, 4));
      if (act == MagicCaveUpgradeAct && data.mcBitflag.Some? && data.mcBitflag.value in flags) ||
         (act == MagicCaveManaAct && data.mcBitflag.None?) {
        CheckLocationFlag(ctx, data);
      }
      i := i + 1;
    }
    assert table[..i] == table;
  }

  /** The loop over the shop entries, each looked at by its flag. */
  method ScanShop(ctx: SFAContext, table: Table)
    modifies ctx`locationsChecked
    ensures ctx.locationsChecked == ScanTable(ctx.dme.ram, ShopScan, table, ctx.serverLocations, old(ctx.locationsChecked))
  {
    var i := 0;
    while i < |table|
      invariant 0 <= i <= |table|
      invariant ctx.locationsChecked == ScanTable(ctx.dme.ram, ShopScan, table[..i], ctx.serverLocations, old(ctx.locationsChecked))
    {
      ScanNext(ctx.dme.ram, ShopScan, table, ctx.serverLocations, old(ctx.locationsChecked), i);
      CheckLocationFlag(ctx, table[i].1);
      i := i + 1;
    }
    assert table[..i] == table;
  }
}
