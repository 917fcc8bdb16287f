/** Where the flags of the magic cave upgrades, the shop entries and the
    DarkIce Mines locations sit in table 2, and the facts the zone handler
    needs about them: no two share a bit, and none shares a bit with the
    single flags the handler writes. */
module TableBits {
  import opened BitHelper
  import opened Addresses
  import opened LocationTypes
  import opened LocationFlags
  import Locations

  /** The offsets of the single writes of the map handler in table 2: the
      Fire Blaster, the first Krystal spirit and ThornTail Hollow's act. */
  const FireBlasterOffset := 0x06FC
  const KrystalOffset := 0x053C
  const ActOffset := 0x0722

  /** A flag of table 2 at a non-negative offset. */
  predicate InT2(data: LocationData)
  {
    data.tableAddress == T2Address && data.bitOffset >= 0
  }

  /** An offset of table 2 away from the Fire Blaster's and Krystal's flags
      and from the byte of the act field. */
  predicate AwayFromFixed(offset: int)
  {
    offset != FireBlasterOffset && offset != KrystalOffset && offset / 8 != ActOffset / 8
  }

  /** Distinct non-negative offsets from one table are distinct bits. */
  lemma OffsetsApart(table: int, o1: int, o2: int)
    requires o1 >= 0 && o2 >= 0 && o1 != o2
    ensures GetBitAddress(table, o1) != GetBitAddress(table, o2)
  {
    assert 8 * (GetBitAddress(table, o1).0 - table) + GetBitAddress(table, o1).1 == o1;
  }

  /** A non-negative offset lands in byte `table + offset / 8`. */
  lemma ByteOfOffset(table: int, offset: int)
    requires offset >= 0
    ensures GetBitAddress(table, offset).0 == table + offset / 8
  {
  }

  /** A table-2 flag away from the single writes avoids their bits. */
  lemma AvoidsFixedBits(data: LocationData)
    requires InT2(data) && AwayFromFixed(data.bitOffset)
    ensures LocBit(data) != GetBitAddress(T2Address, FireBlasterOffset)
    ensures LocBit(data) != GetBitAddress(T2Address, KrystalOffset)
    ensures LocBit(data).0 != GetBitAddress(T2Address, ActOffset).0
  {
    OffsetsApart(T2Address, data.bitOffset, FireBlasterOffset);
    OffsetsApart(T2Address, data.bitOffset, KrystalOffset);
    ByteOfOffset(T2Address, data.bitOffset);
    ByteOfOffset(T2Address, ActOffset);
  }

  /** The position of each shop offset in the shop table, used to show that
      no offset occurs twice. */
  function ShopOffsetPosition(offset: int): int
  {
    match offset
    case 0x035F => 0 case 0x035E => 1 case 0x084C => 2 case 0x09EE => 3 case 0x0717 => 4
    case 0x0060 => 5 case 0x0841 => 6 case 0x083F => 7 case 0x083D => 8 case 0x0839 => 9
    case 0x0837 => 10 case 0x0845 => 11 case 0x0836 => 12 case 0x0833 => 13 case 0x0835 => 14
    case 0x0840 => 15 case 0x0834 => 16 case 0x0832 => 17
    case _ => -1
  }

  /** Every shop entry is a table-2 flag away from the single writes and
      from the upgrades' flags, at its own position. */
  lemma ShopShape()
    ensures forall k :: 0 <= k < |Locations.LocationShop| ==>
      Locations.LocationShop[k].1.ShopLocation? && InT2(Locations.LocationShop[k].1) &&
      AwayFromFixed(Locations.LocationShop[k].1.bitOffset) &&
      Locations.LocationShop[k].1.bitOffset != 0x0706 &&
      ShopOffsetPosition(Locations.LocationShop[k].1.bitOffset) == k
  {
  }

  /** Both upgrades are table-2 flags; the Staff Booster's is away from the
      single writes, the Fire Blaster's is the Fire Blaster's own flag. */
  lemma UpgradeShape()
    ensures |Locations.LocationUpgrade| == 2
    ensures forall k :: 0 <= k < 2 ==> Locations.LocationUpgrade[k].1.UpgradeLocation? && InT2(Locations.LocationUpgrade[k].1)
    ensures Locations.LocationUpgrade[0].1.bitOffset == FireBlasterOffset
    ensures Locations.LocationUpgrade[1].1.bitOffset == 0x0706 && AwayFromFixed(0x0706)
  {
  }

  /** No two shop entries share a bit. */
  lemma ShopBitsDistinct()
    ensures BitsDistinct(Locations.LocationShop)
  {
    ShopShape();
    forall i, j | 0 <= i < j < |Locations.LocationShop|
      ensures LocBit(Locations.LocationShop[i].1) != LocBit(Locations.LocationShop[j].1)
    {
      OffsetsApart(T2Address, Locations.LocationShop[i].1.bitOffset, Locations.LocationShop[j].1.bitOffset);
    }
  }

  /** The two upgrades do not share a bit. */
  lemma UpgradeBitsDistinct()
    ensures BitsDistinct(Locations.LocationUpgrade)
  {
    UpgradeShape();
    OffsetsApart(T2Address, FireBlasterOffset, 0x0706);
  }

  /** No shop entry shares a bit with an upgrade. */
  lemma ShopUpgradeApart()
    ensures forall i, j :: 0 <= i < |Locations.LocationUpgrade| && 0 <= j < |Locations.LocationShop| ==>
      LocBit(Locations.LocationUpgrade[i].1) != LocBit(Locations.LocationShop[j].1)
  {
    ShopShape();
    UpgradeShape();
    forall i, j | 0 <= i < |Locations.LocationUpgrade| && 0 <= j < |Locations.LocationShop|
      ensures LocBit(Locations.LocationUpgrade[i].1) != LocBit(Locations.LocationShop[j].1)
    {
      OffsetsApart(T2Address, Locations.LocationUpgrade[i].1.bitOffset, Locations.LocationShop[j].1.bitOffset);
    }
  }
}
