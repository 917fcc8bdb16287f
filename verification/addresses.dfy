/** Fixed addresses and values in the game's memory (GameCube address
    space) that the client reads and forces. */
module Addresses {
  // Base addresses of the game's four bit-flag tables.
  const T0Address := 0x803A4198
  const T1Address := 0x803A380C
  const T2Address := 0x803A32CC
  const T3Address := 0x803A3880

  /** The byte holding the number of the map the player is on. */
  const MapIdAddress := 0x803DCECB
  const MapShopNo := 0x33
  const MapMagicCaveNo := 0x36
  /** The map number the client assumes before the first poll: the main menu. */
  const MapMainMenu := 0x3F
  /** The maps whose entry or exit forces single flags: ThornTail Hollow
      (SwapStone Hollow in the game), the world map, and the map that hands
      out the first Krystal spirit. */
  const MapThornTailHollow := 0x07
  const MapWorldMap := 0x29
  const MapKrystalSpirit := 0x0B

  const MagicCaveActAddress := 0x803A3871
  const MagicCaveFlagAddress := 0x803A3905
  const MagicCaveUpgradeAct := 0x2
  const MagicCaveManaAct := 0x1

  const ItemMapAddress := 0x803A33D2
  const ItemMapInitValue := 0x00FCA22F   // 0b1111_1100_1010_0010_0010_1111
  const SkipTutoAddress := 0x803A32DC
  const SkipTutoValue := 0xFF3C          // 0b1111_1111_0011_1100

  const PlayerMaxHp := 0x803A32B5
  const PlayerCurHp := 0x803A32B4
  const PlayerMaxMp := 0x803A32BB
  const PlayerCurMp := 0x803A32B9

  /** The two 4-byte words naming the DarkIce Mines zone the player is in. */
  const DimZoneAddress := 0x803A3895
  const DimZone2Address := 0x803A3891
  /** The first zone word inside the cog room, and the two second zone
      words of the Silver Key cell. */
  const DimCogRoom := 0x448380
  const DimKeyZoneA := 0x40003
  const DimKeyZoneB := 0x40042
}
