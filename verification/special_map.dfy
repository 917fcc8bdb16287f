/** `special_map_flags` on the session with the game's own tables. */
module SpecialMap {
  import opened Context
  import opened MapBranches
  import SpecialFlags

  /** One run of the handler: the memory and the three stored values end as
      the handler's function gives them, and the goal is not touched. */
  method SpecialMapFlags(ctx: SFAContext)
    modifies ctx`storedMap, ctx`storedDim, ctx`storedDim2, ctx`victory, ctx.dme
    ensures StateOf(ctx) == SpecialFlags.SpecialMapFlags(old(StateOf(ctx)), ctx.checkedLocations, ctx.serverLocations,
      ctx.receivedItemsId)
    ensures ctx.victory == old(ctx.victory)
  {
    SpecialFlags.GameTablesShaped();
    HandleSpecialMap(ctx, SpecialFlags.GameTables);
  }
}
