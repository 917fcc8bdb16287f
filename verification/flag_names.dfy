/** The flag lists of the game's address table by name, and what
    `force_gameflags` does with them: as written it loops over
    `STARTING_FLAGS` and `CONSTANT_FLAGS`, names the address table does not
    define, and reads a `state` its flags do not have, so every run raises;
    the run it evidently means forces on every flag of `STARTING_ON_FLAGS`
    and `CONSTANT_ON_FLAGS`. */
module FlagNames {
  import opened Wrappers
  import opened Memory
  import opened BitMemory
  import opened Addresses
  import opened FlagLists
  import opened ItemDelivery
  import opened GameFlags
  import opened Context
  import ForceFlags

  /** A flag of the address table: a name for the reader, its offset and its
      table. It carries no state to force it to. */
  datatype GameFlag = GameFlag(flagName: string, bitOffset: int, tableAddress: int)

  /** `FORCE_TRICKY`. */
  const ForceTricky := GameFlag("Spawn Tricky", 0x0847, T2Address)
  /** `FORCE_TRICKY_CALL`. */
  const ForceTrickyCall := GameFlag("Give Call", 0x0849, T2Address)

  /** `SAW_ITEM_FLAGS`: The tutorial messages and item sightings marked as seen. */
  const SawItemFlags: seq<GameFlag> := [
    GameFlag("Saw Apple", 0x0015, T2Address),
    GameFlag("Saw Bafomdad", 0x0020, T2Address),
    GameFlag("Saw BarrelGen", 0x001D, T2Address),
    GameFlag("Saw BigHealth", 0x0014, T2Address),
    GameFlag("Saw BombPlant", 0x001F, T2Address),
    GameFlag("Saw BombPlantPatch", 0x001E, T2Address),
    GameFlag("Saw BombSpore", 0x0853, T2Address),
    GameFlag("Saw CMenuExplanation", 0x001B, T2Address),
    GameFlag("Saw FuelCell", 0x0854, T2Address),
    GameFlag("Saw LifeDoorExplanation", 0x0024, T2Address),
    GameFlag("Saw Magic", 0x0013, T2Address),
    GameFlag("Saw Scarab", 0x0016, T2Address),
    GameFlag("Saw StaffBoostPad", 0x0022, T2Address),
    GameFlag("Saw WarpPad", 0x0018, T2Address),
    GameFlag("Saw GrubTubs", 0x084F, T2Address),
    GameFlag("Saw Alpine Root", 0x0851, T2Address),
    GameFlag("Entered Shop", 0x035A, T2Address),
    GameFlag("Saw Pushable Block", 0x0019, T2Address),
    GameFlag("GrubTub Tutorial 1", 0x0345, T2Address),
    GameFlag("GrubTub Tutorial 2", 0x0346, T2Address),
    GameFlag("GrubTub Tutorial 3", 0x0347, T2Address),
    GameFlag("Slippy Cold Water", 0x001C, T2Address),
    GameFlag("Saw Firefly", 0x0021, T2Address),
    GameFlag("Saw White GrubTubs", 0x0850, T2Address),
    GameFlag("Saw Last Tutorial Message", 0x0104, T2Address),
    GameFlag("Learned To Speak", 0x001A, T2Address)
  ]

  /** `SH_STATE_FLAGS`: ThornTail Hollow opened up. */
  const ShStateFlags: seq<GameFlag> := [
    GameFlag("SH WarpStone Open", 0x00D5, T2Address)
  ]

  /** `IM_OPENED_FLAGS`: Ice Mountain and SnowHorn Wastes paths opened up. */
  const ImOpenedFlags: seq<GameFlag> := [
    GameFlag("IM Lava Path Open", 0x0341, T2Address),
    GameFlag("IM Dig Tunnel to Waterspout", 0x0344, T2Address),
    GameFlag("SW Geyser Stop", 0x0036, T2Address),
    GameFlag("SW Ice Block Spawn", 0x0067, T2Address),
    GameFlag("SW Bribed Guard", 0x0039, T2Address)
  ]

  /** `INTRO_OPENED_FLAGS`: The intro on Krazoa Palace skipped. */
  const IntroOpenedFlags: seq<GameFlag> := [
    GameFlag("Enable C Menu", 0x0356, T1Address),
    GameFlag("Gold Key Got", 0x01DC, T1Address),
    GameFlag("Gold Key Used", 0x4FB, T2Address),
    GameFlag("Skip landing cutscene", 0x04FA, T2Address),
    GameFlag("Destroyed Wall 1", 0x0502, T2Address),
    GameFlag("Destroyed Wall 2", 0x0504, T2Address),
    GameFlag("Switch Door Open", 0x050D, T2Address),
    GameFlag("Dino Talked After Test", 0x0508, T2Address),
    GameFlag("Spirit Got", 0x053C, T2Address)
  ]

  /** `CUTSCENE_SKIP_FLAGS`: Cutscenes skipped. */
  const CutsceneSkipFlags: seq<GameFlag> := [
    GameFlag("SH Warpstone explanation", 0x0106, T2Address),
    GameFlag("SH Entered Well", 0x0096, T2Address),
    GameFlag("SH Returned with Tricky", 0x0093, T2Address),
    GameFlag("IM Skip Tricky captured", 0x0310, T2Address),
    GameFlag("IM Skip Hut bullying", 0x0312, T2Address),
    GameFlag("IM Skip Starting first race", 0x0314, T2Address),
    GameFlag("IM Spawn Tricky on bottom", 0x0325, T2Address),
    GameFlag("IM Open Hut Door", 0x0323, T2Address)
  ]

  /** `OFF_FLAGS`: The magic cave door flags, listed to be forced off. */
  const OffFlags: seq<GameFlag> := [
    GameFlag("MagicCaveDoorOpen", 0x0008, T2Address),
    GameFlag("MagicCaveDoorRelated", 0x0009, T2Address)
  ]

  /** `STARTING_ON_FLAGS`: the five lists above, one after the other. */
  const StartingOnFlags: seq<GameFlag> := SawItemFlags + CutsceneSkipFlags + ShStateFlags + ImOpenedFlags + IntroOpenedFlags

  /** `CONSTANT_ON_FLAGS`. */
  const ConstantOnFlags: seq<GameFlag> := [ForceTricky, ForceTrickyCall]

  /** The flag lists the client's star import of the address table brings
      into scope, by name. */
  const ListsByName: map<string, seq<GameFlag>> := map[
    "SAW_ITEM_FLAGS" := SawItemFlags,
    "SH_STATE_FLAGS" := ShStateFlags,
    "IM_OPENED_FLAGS" := ImOpenedFlags,
    "INTRO_OPENED_FLAGS" := IntroOpenedFlags,
    "CUTSCENE_SKIP_FLAGS" := CutsceneSkipFlags,
    "STARTING_ON_FLAGS" := StartingOnFlags,
    "CONSTANT_ON_FLAGS" := ConstantOnFlags,
    "OFF_FLAGS" := OffFlags
  ]

  /** `for item in <name>: set_flag_bit(..., item.state)` as written: `None`
      when it raises, either because no list has that name or because the
      first entry has no `state`; only an empty list runs to the end, writing
      nothing. */
  function FlagLoopAsWritten(m: Mem, name: string): Option<Mem>
  {
    if name !in ListsByName || |ListsByName[name]| > 0 then None else Some(m)
  }

  /** The loop over `CONSTANT_FLAGS`, then the bomb spore's flag. */
  function ConstantsAsWritten(d: Delivery, expectedIdx: nat): (Delivery, nat)
  {
    match FlagLoopAsWritten(d.ram, "CONSTANT_FLAGS")
    case None => (d.(raised := true), expectedIdx)
    case Some(m) => (d.(ram := SetFlagMem(m, T2Address, BombSporeOffset, true)), expectedIdx)
  }

  /** `force_gameflags` as written, over the same record and index as
      `GameFlags.ForceGameflags`: on leaving the main menu the two masks,
      then the loop over `STARTING_FLAGS`, the replay and the constant
      writes; otherwise the constant writes alone. */
  function ForceGameflagsAsWritten(d: Delivery, expectedIdx: nat, storedMap: int, received: seq<int>): (Delivery, nat)
  {
    if LeavesMenu(d.ram, storedMap) then
      var masked := TutoWrite(ItemMapWrite(d.ram));
      match FlagLoopAsWritten(masked, "STARTING_FLAGS")
      case None => (d.(ram := masked, raised := true), expectedIdx)
      case Some(m) =>
        var r := Deliver(d.(ram := m), storedMap, Pending(received, 0));
        if r.raised then (r, r.delivered) else ConstantsAsWritten(r, r.delivered)
    else ConstantsAsWritten(d, expectedIdx)
  }

  /** As written the handler raises on every poll: on leaving the main menu
      after the two masks and before any flag or replay, otherwise before
      any write at all. Nothing is handed over and the index stays. Renaming
      the loops to the lists the table does define would not help, since
      their flags have no `state`. */
  lemma ForceGameflagsAlwaysRaises(d: Delivery, expectedIdx: nat, storedMap: int, received: seq<int>)
    ensures var r := ForceGameflagsAsWritten(d, expectedIdx, storedMap, received);
      r.0.raised && r.1 == expectedIdx && r.0.ids == d.ids && r.0.victory == d.victory &&
      r.0.ram == (if LeavesMenu(d.ram, storedMap) then TutoWrite(ItemMapWrite(d.ram)) else d.ram)
    ensures FlagLoopAsWritten(d.ram, "STARTING_ON_FLAGS").None? && FlagLoopAsWritten(d.ram, "CONSTANT_ON_FLAGS").None?
  {
    assert "STARTING_FLAGS" !in ListsByName;
    assert "CONSTANT_FLAGS" !in ListsByName;
  }

  /** Each flag of a list, forced on. */
  function ForcedOn(flags: seq<GameFlag>): (r: seq<ForcedFlag>)
    ensures |r| == |flags|
    ensures forall i :: 0 <= i < |r| ==> r[i].state
    ensures forall i :: 0 <= i < |r| ==> r[i].tableAddress == flags[i].tableAddress && r[i].bitOffset == flags[i].bitOffset
  {
    if |flags| == 0 then []
    else ForcedOn(flags[..|flags| - 1]) + [ForcedFlag(flags[|flags| - 1].tableAddress, flags[|flags| - 1].bitOffset, true)]
  }

  /** The starting and constant flags the handler evidently means. */
  const IntendedStarting: seq<ForcedFlag> := ForcedOn(StartingOnFlags)
  const IntendedConstant: seq<ForcedFlag> := ForcedOn(ConstantOnFlags)

  /** `force_gameflags` with the lists it evidently means. */
  function ForceGameflagsIntended(d: Delivery, expectedIdx: nat, storedMap: int, received: seq<int>): (Delivery, nat)
  {
    ForceGameflags(d, expectedIdx, storedMap, received, IntendedStarting, IntendedConstant)
  }

  /** Leaving the main menu, every starting flag ends on before the replay. */
  lemma IntendedStartingOn(m: Mem, k: int)
    requires 0 <= k < |StartingOnFlags|
    ensures FlagBit(StartingWrites(m, IntendedStarting), StartingOnFlags[k].tableAddress, StartingOnFlags[k].bitOffset)
  {
    SetFlagsAllOn(TutoWrite(ItemMapWrite(m)), IntendedStarting, k);
  }

  /** A run that does not raise leaves every constant flag on, and the bomb
      spore's flag. */
  lemma IntendedConstantOn(d: Delivery, expectedIdx: nat, storedMap: int, received: seq<int>, k: int)
    requires !ForceGameflagsIntended(d, expectedIdx, storedMap, received).0.raised
    requires 0 <= k < |ConstantOnFlags|
    ensures var r := ForceGameflagsIntended(d, expectedIdx, storedMap, received).0.ram;
      FlagBit(r, ConstantOnFlags[k].tableAddress, ConstantOnFlags[k].bitOffset) && FlagBit(r, T2Address, BombSporeOffset)
  {
    var m := if LeavesMenu(d.ram, storedMap)
      then Deliver(d.(ram := StartingWrites(d.ram, IntendedStarting)), storedMap, Pending(received, 0)).ram
      else d.ram;
    assert ForceGameflagsIntended(d, expectedIdx, storedMap, received).0.ram == ConstantWrites(m, IntendedConstant);
    SetFlagsAllOn(m, IntendedConstant, k);
    SetFlagKeepsOn(SetFlags(m, IntendedConstant), T2Address, BombSporeOffset,
      ConstantOnFlags[k].tableAddress, ConstantOnFlags[k].bitOffset);
    SetFlagReadBack(SetFlags(m, IntendedConstant), T2Address, BombSporeOffset, true);
  }

  /** `force_gameflags` on the session with the lists it evidently means. */
  method ForceGameflagsOn(ctx: SFAContext) returns (raised: bool)
    modifies ctx`receivedItemsId, ctx`victory, ctx`expectedIdx, ctx.dme
    ensures var r := ForceGameflagsIntended(Delivery(old(ctx.receivedItemsId), old(ctx.dme.ram), old(ctx.victory), 0, false),
      old(ctx.expectedIdx), ctx.storedMap, ctx.itemsReceived);
      r.0.ids == ctx.receivedItemsId && r.0.ram == ctx.dme.ram && r.0.victory == ctx.victory &&
      r.0.raised == raised && r.1 == ctx.expectedIdx
  {
    raised := ForceFlags.ForceGameflags(ctx, IntendedStarting, IntendedConstant);
  }
}
