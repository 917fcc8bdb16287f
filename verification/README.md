# Star Fox Adventures client core, in Dafny

This project models the runtime core of the Star Fox Adventures
randomizer client and proves properties of it. The client links the game,
running in the Dolphin emulator, to an Archipelago multiworld server. On
every poll it does four things:

- forces a few game flags;
- scans the game's flag tables for checked locations and reports them;
- hands over the items received from the server, writing them into game
  memory;
- on map and zone changes, toggles the flags of shop, magic cave and
  DarkIce Mines items.

The model has four layers:

- **Bits and memory** (`binary.dfy`, `memory.dfy`, `bit_helper.dfy`,
  `bit_memory.dfy`).
  - Emulator memory is a map from address to byte; a missing address
    reads 0.
  - `Dolphin` is a class over that map, with the read and write calls the
    client makes.
  - The helpers of `bit_helper.py` are functions: bit addresses,
    `update_bits` with Python's string slicing, `padded_string_byte` as a
    loop, and swapping endianness.
  - Around them are methods that read, modify and write memory
    (`read_value_bytes`, `set_value_bytes`, `set_flag_bit`,
    `set_on_or_bytes`), each proved equal to a function of the old memory.
- **Catalog and logic** (`items.dfy`, `locations.dfy`, `macros.dfy`,
  `dicts.dfy`).
  - The item and location descriptors are datatypes, and the tables are
    sequences of (name, descriptor) pairs in the source's order.
  - The catalog has a lookup by id and name-to-id maps, and ids and names
    are proved distinct.
  - Pool creation and location creation are methods proved against
    functions.
  - The shop-price and ability predicates work over an abstract item
    count.
- **The session** (`context.dfy`). `SFAContext` is a class holding:
  - the client's fields: expected index, received ids, victory, stored map
    and zone words, locations checked;
  - what the server side gives it: items received, server and checked
    locations;
  - an outbox in place of `send_msgs`.
- **The handlers**, each a method on the session proved against a function
  of the old state:
  - `give_items` and `_give_item_in_game`: `give_item.dfy`,
    `item_sync.dfy`, `delivery.dfy`, `item_effects.dfy`;
  - `locations_watcher`: `location_scan.dfy`, `watcher.dfy`, `watch.dfy`,
    `location_flags.dfy`;
  - `special_map_flags`: `map_handlers.dfy`, `map_branches.dfy`,
    `special_map.dfy`, `special_flags.dfy`, `zone_flags.dfy`,
    `map_flags.dfy`, `cog_room.dfy`, `handler_steps.dfy`,
    `table_bits.dfy`;
  - `force_gameflags`: `force_flags.dfy`, `game_flags.dfy`,
    `flag_lists.dfy`, `flag_names.dfy`.

A handover that Python would end with an exception is modelled as an error
result (`None`, or `raised` set). Examples are an unknown item id, or a value
too wide for its field. Nothing is written after that point.

## Model

| member | source | states |
|---|---|---|
| BitHelper.ExtractBitflagList | bit_helper.py:7-15 | p is in the list iff bit p (least significant first) of the input is set; the list is strictly descending |
| BitHelper.ExtractBitsValue | bit_helper.py:18-28 | the result is below 2^size, and its bit p is bit offset+p of the input for p < size and clear above |
| BitHelper.SwapEndian | bit_helper.py:31-39 | the little-endian bytes of the result are those of the input reversed; the result fits the same width |
| BitHelper.SwapEndianInvolution | bit_helper.py:31-39 | swapping twice gives back the input |
| BitHelper.SwapEndianOfBE | bit_helper.py:31-39 | swapping a big-endian word read gives its little-endian reading |
| BitHelper.GetBitAddress | bit_helper.py:42-50 | the in-byte position is below 8; for offsets >= 0, 8*(address-table)+position equals the offset, with Python's truncating `int(offset/8)` and floor `%` |
| BitHelper.BitAddressOfBit | bit_helper.py:42-50 | an in-byte position below 8 maps to itself at the same address |
| BitHelper.PaddedString | bit_helper.py:53-64 | the digits are the binary of the input, left-padded to the least multiple of n no shorter than it, and they parse back to the input |
| BitHelper.PaddedStringByte | bit_helper.py:53-64 | the prepending loop yields a string whose length is a multiple of n and which parses back to the input |
| BitHelper.PaddedLength | bit_helper.py:53-64 | the padded length is a positive multiple of n |
| BitHelper.PaddedFits | bit_helper.py:78-80 | the value's padding to `size` is no longer than `size` iff the value is below 2^size |
| BitHelper.UpdateBits | bit_helper.py:67-83 | raises (an error result) iff the value does not fit in `size` bits |
| BitHelper.UpdateBitsField | bit_helper.py:77-83 | the bits below `start` are kept and bits start..start+size-1 hold the value |
| BitHelper.UpdateBitsAbove | bit_helper.py:77-83 | when the field fits the padded input, every bit above it is kept |
| BitHelper.UpdateBitsSpill | bit_helper.py:77-83 | when the input pads to 8 digits and the field passes bit 7, the bits above the field are copies of the input's bits 8 lower |
| BitHelper.UpdateBitsBound | bit_helper.py:77-83 | the result fits the padded width, or 16 bits in the spill case |
| BitHelper.UpdateBitsWideBits | bit_helper.py:77-83 | with the input padded to the window width, the field holds the value and every other bit is kept |
| BitHelper.UpdateBitsWide | bit_helper.py:67-83 | `update_bits` padded to the window: raises iff the value does not fit |
| BitMemory.Window | bit_helper.py:113-115 | the widened byte count is at least the one asked for and covers the field, and it is widened no further than needed |
| BitMemory.ReadValue | bit_helper.py:112-118 | the value read is below 2^size |
| BitMemory.ReadValueBits | bit_helper.py:112-118 | bit j of the value read is memory bit offset+j from the address, for j < size |
| BitMemory.ReadValueDependsOnField | bit_helper.py:112-118 | two memories that agree on the field's bits read the same value, whatever byte count was asked for |
| BitMemory.ReadValueBytes | bit_helper.py:99-118 | the recursive read widens until the field fits and returns the field's little-endian value |
| BitMemory.SetValueBytes | bit_helper.py:121-148 | the recursive write widens until the field fits; the new memory is the window read, updated by `update_bits` and written back little-endian |
| BitMemory.SetValueReadBack | bit_helper.py:121-148 | reading the field back after a write gives the value written |
| BitMemory.SetValueField | bit_helper.py:121-148 | after a write, memory bit offset+j holds bit j of the value |
| BitMemory.SetValueOutside | bit_helper.py:144-148 | no byte outside the widened window changes |
| BitMemory.SetValueFrame | bit_helper.py:144-148 | the window's other bits are kept when the window is one byte or its top byte is non-zero |
| BitMemory.SetValueSpill | bit_helper.py:77-82 | a field passing bit 7 of a byte whose next byte is zero copies the low byte's bits into the next byte |
| BitMemory.SetValueWideBits | bit_helper.py:121-148 | with `update_bits` padding to the whole window, the field holds the value and every other window bit is kept, whatever the top byte |
| BitMemory.FlagByte | bit_helper.py:159-162 | only bit `bp` of the byte changes, to the value |
| BitMemory.FlagByteIsUpdate | bit_helper.py:161 | a one-bit `update_bits` on a byte gives the byte with bit `bp` set to the value |
| BitMemory.SetFlagBit | bit_helper.py:151-162 | the new memory is the flag's byte with its bit replaced |
| BitMemory.SetFlagReadBack | bit_helper.py:151-162 | the flag reads back as written |
| BitMemory.SetFlagOther | bit_helper.py:151-162 | a flag at any other bit is unchanged |
| BitMemory.SetOnOrBytes | bit_helper.py:86-96 | the new memory holds the old big-endian bytes OR-ed with the value |
| BitMemory.SetOnOrBits | bit_helper.py:86-96 | each bit ends set iff it was set or the value has it, so no bit is ever cleared |
| BitMemory.SetOnOrIdempotent | bit_helper.py:86-96 | OR-ing the same value twice equals once |
| Memory.Dolphin.ReadWord | SFAClient.py:273 | a word read is the big-endian value of the four bytes |
| Memory.Dolphin.ReadByte | bit_helper.py:160 | a byte read is the byte stored at that address, 0 where nothing is |
| Memory.Dolphin.ReadBytes | bit_helper.py:112 | `n` bytes read are the stored bytes from the address on, in order |
| Memory.Dolphin.WriteByte | bit_helper.py:162 | the memory afterwards is the old one with that one byte replaced |
| Memory.Dolphin.WriteBytes | bit_helper.py:148 | the memory afterwards is the old one with the bytes laid down from the address on |
| Items.FindById | items.py:46-58 | a found descriptor is the first with that id in table order; the result is None iff no entry has the id |
| Items.CatalogIdsDistinct | items.py:160-342 | the catalog's ids are pairwise distinct |
| Items.FindEntry | items.py:46-58 | in a table without repeated ids, the lookup finds each entry by its own id |
| Items.GetByIdOfEntry | items.py:46-58 | looking up the id of any catalog entry gives that entry |
| Items.CatalogNamesDistinct | items.py:160-342 | the catalog's names are pairwise distinct |
| Items.ItemsNameToId | items.py:105-107 | every catalog name maps to its descriptor's id, and every key is a catalog name |
| Items.RandomFillerName | items.py:110-116 | "Health Refill" iff the first roll is below 20; "Magic Refill" iff the first is not and the second is; otherwise "Fuel Cell" |
| Items.BasePoolMembers | items.py:129-137 | a name in the pool is a table name other than the four skipped ones |
| Items.BasePoolCount | items.py:129-137 | each name appears `max_count` times for count and quest items, once per stage for progressive items, once otherwise, and not at all when skipped |
| Items.BasePoolAppend | items.py:129-137 | the pool of two tables one after the other is the two pools concatenated |
| Items.BasePoolExamples | items.py:129-137 | an illustration of the pool rule on four catalog entries |
| Items.PoolOf | items.py:129-137 | the loop over a table builds exactly its base pool |
| Items.CreateAllItems | items.py:125-157 | the pool is the base pool, two MP and two HP upgrades, then fillers up to the unfilled locations; Staff, Bomb Plant and Dinosaur Planet are precollected |
| Items.PoolSize | items.py:140-148 | the pool's size is the unfilled-location count, or the base pool plus 4 when that is larger (no fillers), and every entry after those is a filler name |
| Locations.LocationIdsDistinct | locations.py:122-285 | the ids of the location table are pairwise distinct |
| Locations.LocationNamesDistinct | locations.py:122-285 | the names of the location table are pairwise distinct |
| Locations.LocationsNameToId | locations.py:82-84 | every location name maps to its id, and every key is a location name |
| Locations.NormalTablesSplit | locations.py:273-285 | the location table is the upgrades, then the shop, then the normal tables, and no normal id is an upgrade or shop id |
| Locations.MapLocationsInShop | locations.py:140-155 | every MAP-type location is a shop entry |
| Locations.Create | locations.py:94-98 | a created location keeps its name, id and region; only "DIM: Defeat Boss Galdon" gets a locked item, the goal item 2000 |
| Locations.CreateRegularLocations | locations.py:87-101 | the locations created are those the option keeps, in table order; the progress names are exactly their names |
| Locations.CreateFrom | locations.py:88-100 | the loop over a table creates exactly the kept entries, and progress holds their names |
| Locations.CreatedIff | locations.py:87-101 | a table entry is created iff the option keeps it |
| Locations.CreatedFrom | locations.py:87-101 | every created name comes from a table entry the option keeps |
| Locations.NothingOption | locations.py:90-91 | with "nothing", an entry is created iff it is not a shop entry |
| Locations.NoMapOption | locations.py:92-93 | with "no_map", an entry is created iff it is not MAP-type |
| Locations.AllItemsOption | locations.py:87-101 | with the remaining option, every entry is created |
| Macros.CanBuyBags | macros.py:13-21 | buying at a price is possible iff enough Scarab Bags are held: none up to 10, 1 up to 50, 2 up to 100, 3 above |
| Macros.BagsNeeded | macros.py:16-21 | at most 3 bags are ever needed, and none iff the price is at most 10 |
| Macros.BagsNeededMonotone | macros.py:16-21 | a cheaper price never needs more bags |
| Macros.CanBuyAntitone | macros.py:13-21 | what can be bought at a price can be bought at any lower price |
| Macros.CanBuyMoreBags | macros.py:16-21 | holding more Scarab Bags never makes a purchase impossible |
| Macros.ExplodeNeedsBlaster | macros.py:3-11 | exploding a bomb plant requires having the blaster |
| Macros.StaffBoosterIff | macros.py:6-7 | the staff booster ability holds iff both Staff and Staff Booster are held |
| Context.SFAContext.constructor | SFAClient.py:86-98 | a session starts in the main menu (0x3F), with index 0, no ids, no victory and zero zone words |
| ItemEffects.ApplicableNeverRaises | SFAClient.py:321-382 | a descriptor whose values fit its fields never raises in `_give_item_in_game` |
| ItemEffects.GoalAndShopWriteNothing | SFAClient.py:329-337 | the goal item, and shop items while in the shop, leave memory untouched |
| ItemEffects.PlainItemFlag | SFAClient.py:378-382 | any other plain item sets its flag to whether its id was received, and no other flag changes |
| ItemEffects.ProgressiveStages | SFAClient.py:339-345 | stage k of a progressive item ends set iff more than k copies were received |
| ItemEffects.StagesFlags | SFAClient.py:341-343 | with distinct stage bits, stage k ends set iff the count exceeds k |
| ItemEffects.StagesFrame | SFAClient.py:341-343 | bits that are no stage's keep their value |
| ItemEffects.CountItemValue | SFAClient.py:360-367 | the counter reads start + min(count, max_count) * increment afterwards |
| ItemEffects.QuestItemValue | SFAClient.py:347-358 | the counter reads max(0, start + (min(count, max_count) - used) * increment), with `used` read from the item's used field |
| ItemEffects.QuestFits | SFAClient.py:347-358 | the clamped quest value fits the field for catalog items |
| ItemEffects.CountItemWrite | SFAClient.py:360-367 | a count item's hand-over is one field write of its capped value, which fits the field |
| ItemEffects.QuestItemWrite | SFAClient.py:347-358 | a quest item's hand-over is one field write of its clamped value, which fits the field |
| ItemEffects.ConsumableItemValue | SFAClient.py:369-376 | the field reads min(current + add, the maximum read from memory) afterwards |
| ItemDelivery.MpUpgradeValue | SFAClient.py:360-367 | the MP Upgrade writes 25 + 25 * min(count, 6), so 50 for one copy |
| ItemDelivery.HealthRefillTwice | SFAClient.py:369-376 | with room below the maximum, a Health Refill adds 4 and a second one 4 more, so it is not idempotent |
| ItemDelivery.CatalogApplicable | items.py:160-342 | every catalog descriptor fits its fields, so handing it over never raises |
| ItemDelivery.DeliverProgress | SFAClient.py:302-318 | the ids handed over are the old ids plus the pending ids in order, up to and including the one that raised; without a raise, the index reaches the end |
| ItemDelivery.DeliverVictory | SFAClient.py:329-331 | victory ends set iff it was set or the goal id is among the ids handed over |
| ItemDelivery.DeliverKnown | SFAClient.py:312-318 | when every pending id is in the catalog, nothing raises |
| ItemDelivery.DeliverStopsAtRaise | SFAClient.py:312-318 | once a handover raises, the rest of the list changes nothing |
| ItemDelivery.DeliverOneUnknown | SFAClient.py:315-316 | an unknown id is appended and then raises, with memory unchanged |
| ItemDelivery.DeliverOneFound | SFAClient.py:312-318 | a found id is appended before the hand-over, so the item sees its own copy counted |
| ItemDelivery.ReplayDoubles | SFAClient.py:203-210 | replaying every received id from index 0 without clearing the ids doubles every id's count |
| ItemDelivery.ReplayFromScratch | SFAClient.py:203-210 | replaying after clearing the ids leaves exactly the received ids, so every count is kept |
| ItemDelivery.FuelCellSetsDarkIceMines | SFAClient.py:360-366 | a Fuel Cell write with the next byte zero turns on the DarkIce Mines planet flag when the Fuel Cell's own low bit was on |
| ItemDelivery.DimAlpineRootSpill | SFAClient.py:347-357 | a DIM Alpine Root write with the next byte zero copies the low byte's bits 1..7 into the next byte |
| ItemDelivery.FuelCellWideKeepsDarkIceMines | bit_helper.py:77-83 | with `update_bits` padding to the window, a Fuel Cell write keeps the DarkIce Mines flag |
| ItemDelivery.DimAlpineRootWideKeeps | bit_helper.py:77-83 | with `update_bits` padding to the window, a DIM Alpine Root write keeps bits 1..7 of the next byte |
| ItemDelivery.GiveEachNeverRaises | SFAClient.py:185-200 | a run of hand-overs of fitting descriptors never raises |
| ItemDelivery.SyncItemsApplicable | SFAClient.py:191-200 | the ten items `sync_player_state` hands over all fit their fields |
| ItemDelivery.SyncItemsNotGoal | SFAClient.py:191-200 | none of the ten is the goal item |
| ItemDelivery.SyncMem | SFAClient.py:185-200 | the sync's memory is the ten hand-overs in the source's order, none raising |
| GiveItem.GiveStages | SFAClient.py:339-345 | stage flags written in order, each to `count > k` |
| GiveItem.SetValueChecked | SFAClient.py:350-367 | `set_value_bytes` from one byte: the write succeeds iff the value fits the field, and a raise writes nothing |
| GiveItem.GiveQuest | SFAClient.py:347-358 | the clamped quest value written, or raised with memory unchanged |
| GiveItem.GiveCount | SFAClient.py:360-367 | the capped count value written, or raised with memory unchanged |
| GiveItem.GiveConsumable | SFAClient.py:369-376 | the value clamped by the memory maximum written, or raised with memory unchanged |
| GiveItem.GiveItemInGame | SFAClient.py:321-382 | the branches in the source's order: the goal sets victory; shop items in the shop do nothing; progressive, quest, count and consumable items; and plain flags. A raise leaves memory unchanged |
| ItemSync.GiveItems | SFAClient.py:296-318 | the new ids, memory, victory and index are those of delivering the pending ids from the old index; the index never decreases |
| ItemSync.GiveNext | SFAClient.py:312-318 | one turn of the loop: the delivery function's step on the old ids, memory and victory |
| ItemSync.GiveInTurn | SFAClient.py:191-200 | fitting items handed over in turn, never raising; victory set only if the goal is among them |
| ItemSync.SyncPlayerState | SFAClient.py:185-200 | memory after the ten fixed hand-overs; victory unchanged |
| ItemSync.SyncFullPlayerState | SFAClient.py:203-210 | the index restarts at 0 and every received id is delivered again on top of the old ids |
| ItemSync.SyncFullFromScratch | SFAClient.py:203-210 | with the ids cleared first, the received ids end exactly equal to the items received |
| LocationFlags.FlagListHasBit | SFAClient.py:237-239 | the position is in the byte's flag list iff the location's flag is on |
| LocationFlags.ScanTableIff | SFAClient.py:255-284 | an id ends checked iff it was already checked or it is a server location found set in the table |
| LocationFlags.ScanTableBounds | SFAClient.py:228-253 | a scan only adds, and only server locations |
| LocationScan.CheckLocationFlag | SFAClient.py:228-240 | adds the id iff it is a server location whose flag is on |
| LocationScan.CheckLocationValue | SFAClient.py:242-253 | adds the id iff it is a server location whose counter is at least its count |
| LocationScan.ScanNormal | SFAClient.py:255-266 | the normal tables' loop gives the scan function of the normal mode, where linked locations count only when their zone word matches |
| LocationScan.ScanCave | SFAClient.py:269-280 | the upgrade loop gives the magic cave scan: a location counts in the upgrade act with its bit set, or in the mana act without one |
| LocationScan.ScanShop | SFAClient.py:282-284 | the shop loop gives the shop scan |
| LocationWatch.WatchIff | SFAClient.py:255-284 | an id ends checked iff it was, or a normal location is found, or an upgrade found while in the cave, or a shop entry found while in the shop |
| LocationWatch.WatchBounds | SFAClient.py:221-293 | the watcher only adds locations, and only server locations |
| LocationWatch.UpgradeOnlyInCave | SFAClient.py:268-280 | outside the magic cave, no upgrade location is newly checked |
| LocationWatch.ShopOnlyInShop | SFAClient.py:282-284 | outside the shop, no shop location is newly checked |
| Watcher.ScanAll | SFAClient.py:255-284 | the three loops give the watch function of the old checked set |
| Watcher.ReportChecks | SFAClient.py:286-293 | unsent checks trigger the sync and one LocationChecks message with exactly those ids; the goal is reported once |
| Watcher.LocationsWatcher | SFAClient.py:221-293 | the three loops, then the report |
| LocationFlags.ToggleFlag | SFAClient.py:432-445 | the flag ends as (MAP type or linked item received) when leaving the expected map, else as (checked or not on the server) when entering it, else unchanged |
| LocationFlags.ToggleOther | SFAClient.py:432-445 | the toggle changes no other flag |
| LocationFlags.ToggleTableFlag | SFAClient.py:456-462 | over a table with distinct bits, each gated entry ends as its own toggle says and the others keep their flag |
| LocationFlags.ToggleTableFrame | SFAClient.py:456-462 | flags no gated entry owns are kept |
| MapHandlers.SpecialToggle | SFAClient.py:418-445 | the toggle on memory: the write on entering, then the write on leaving |
| MapHandlers.ToggleOnEntry | SFAClient.py:433-438 | on entering the location's map its flag is forced to (checked or not on the server); elsewhere nothing changes |
| MapHandlers.ToggleBack | SFAClient.py:439-445 | on leaving the location's map its flag is forced to (MAP type or linked item received); elsewhere nothing changes |
| MapHandlers.ForceFlagIf | SFAClient.py:464-485 | a flag written under a condition, memory unchanged otherwise |
| MapHandlers.ToggleUpgrades | SFAClient.py:452-458 | each upgrade is toggled only in the upgrade act with its magic cave bit set, both read before the loop |
| MapHandlers.ToggleShop | SFAClient.py:460-462 | every shop entry is toggled |
| MapHandlers.ForceAct | SFAClient.py:464-470 | the ThornTail Hollow act set to 2 on entering it |
| MapHandlers.ForceFireBlaster | SFAClient.py:472-480 | the Fire Blaster off on entering the world map and back to received on leaving it |
| MapHandlers.ForceMapFlags | SFAClient.py:464-485 | the act, Fire Blaster and Krystal writes in order |
| MapHandlers.ShowCogs | SFAClient.py:495-502 | in the cog room, each cog's flag set to `count > k` and the flag below it cleared |
| MapHandlers.HideCogs | SFAClient.py:510-513 | elsewhere, every cog flag set |
| MapHandlers.ForceCogLocations | SFAClient.py:514-518 | the three cog chest locations set to whether the server has them checked |
| MapHandlers.ForceSilverKey | SFAClient.py:525-530 | in the two key zones the key flag holds the location's checked state, elsewhere whether the key was received |
| MapBranches.MapChangeBranch | SFAClient.py:447-487 | on a map change: the upgrade and shop toggles, then the fixed writes, and the stored map becomes the current map |
| MapBranches.OnMapChange | SFAClient.py:447-487 | the map branch on the session gives the handler's map step |
| MapBranches.OnDimChange | SFAClient.py:489-520 | the zone branch on the session gives the handler's zone step; victory is untouched |
| MapBranches.OnKeyChange | SFAClient.py:522-532 | the key branch on the session gives the handler's key step |
| MapBranches.CogBranch | SFAClient.py:495-518 | the cog room writes in the cog room, the hide and chest writes elsewhere |
| MapBranches.HornBranch | SFAClient.py:494 | the Dinosaur Horn handed over as by `_give_item_in_game` |
| MapBranches.DimBranch | SFAClient.py:489-520 | on a zone change: the horn, then the cogs, and the zone word is stored |
| MapBranches.KeyBranch | SFAClient.py:522-532 | on a second-zone change: the key write, and the zone word is stored |
| MapBranches.HandleSpecialMap | SFAClient.py:411-532 | the three branches in order give the handler function of the old state |
| SpecialMap.SpecialMapFlags | SFAClient.py:411-532 | the handler on the game's own tables; victory unchanged |
| HandlerSteps.MapStepOn | SFAClient.py:447-487 | the stored map becomes the map read; the zone words are kept |
| HandlerSteps.DimStepOn | SFAClient.py:489-520 | the stored zone word becomes the word read; the others are kept |
| HandlerSteps.KeyStepOn | SFAClient.py:522-532 | the second zone word becomes the word read; the others are kept |
| SpecialFlags.HandlerStores | SFAClient.py:447-532 | after a run, the stored map, zone and second zone are the values read at each step |
| SpecialFlags.IdleWhenNothingMoved | SFAClient.py:447-532 | with map and both zone words unchanged, the handler changes nothing |
| SpecialFlags.HornAfterHandler | SFAClient.py:492-494 | on a zone change the horn flag ends as whether the horn was received |
| SpecialFlags.CogStageAfterHandler | SFAClient.py:495-502 | entering the cog room leaves cog k set iff more than k cogs were received |
| SpecialFlags.SilverKeyAfterHandler | SFAClient.py:523-530 | on a second-zone change the key flag ends as the checked state in the key zones, else as received |
| SpecialFlags.KeyBranchKeeps | SFAClient.py:522-532 | the key branch changes no flag other than the key's |
| MapFlags.ShopAfterMapChange | SFAClient.py:460-462 | after a map change each shop flag is as the toggle rule says |
| MapFlags.UpgradeAfterMapChange | SFAClient.py:456-458 | a gated upgrade flag ends as the toggle rule says |
| MapFlags.UpgradeKeptOnMapChange | SFAClient.py:456-458 | an upgrade the act or bit does not gate keeps its flag |
| MapFlags.ActOnEntering | SFAClient.py:465-470 | entering ThornTail Hollow leaves its act field reading 2 |
| MapFlags.FireBlasterOffOnWorldMap | SFAClient.py:473-476 | entering the world map leaves the Fire Blaster off |
| MapFlags.FireBlasterBackOffWorldMap | SFAClient.py:477-480 | leaving the world map sets the Fire Blaster to whether it was received |
| MapFlags.KrystalOnEntering | SFAClient.py:483-485 | entering map 0x0B leaves Krystal's spirit flag on |
| MapFlags.CogRoomStage | SFAClient.py:495-502 | in the cog room, cog k is set iff more than k cogs were received |
| MapFlags.CogRoomChestOff | SFAClient.py:495-502 | in the cog room, the flag below each cog, which is a chest flag, ends cleared |
| MapFlags.AwayCogStage | SFAClient.py:511-513 | outside the cog room every cog flag ends set |
| MapFlags.AwayCogChest | SFAClient.py:514-518 | outside the cog room each chest flag is whether the server has it checked |
| MapFlags.HornAfterDimZone | SFAClient.py:494-518 | after the zone branch the horn flag is whether the horn was received |
| MapFlags.SilverKeyAfterZone | SFAClient.py:525-530 | the key flag after the key branch |
| ZoneFlags.MapChangeShopFlag | SFAClient.py:447-487 | a shop flag after the whole map-change branch is its toggle's |
| ZoneFlags.MapChangeUpgradeFlag | SFAClient.py:447-487 | an upgrade flag after the whole map-change branch is its gated toggle's |
| ZoneFlags.MapChangeFrame | SFAClient.py:447-487 | flags no table entry or fixed write touches are kept |
| ZoneFlags.FixedWritesAct | SFAClient.py:465-470 | the act field reads 2 after the fixed writes on entering ThornTail Hollow |
| ZoneFlags.FixedWritesKrystal | SFAClient.py:483-485 | Krystal's flag is on after the fixed writes on entering its map |
| ZoneFlags.FixedWritesFireBlasterOff | SFAClient.py:473-476 | entering the world map from elsewhere clears the Fire Blaster's flag |
| ZoneFlags.FixedWritesFireBlasterBack | SFAClient.py:477-480 | leaving the world map sets the Fire Blaster's flag to whether it was received |
| ZoneFlags.CogLocationFlags | SFAClient.py:514-518 | one forced flag per cog chest, on iff the server has that location checked |
| ZoneFlags.AwayStagesOn | SFAClient.py:510-513 | outside the cog room every cog stage ends on, whatever the chest writes after |
| ZoneFlags.AwayLocationFlag | SFAClient.py:514-518 | outside the cog room each chest flag ends on iff its location is checked |
| ZoneFlags.SilverKeyFlag | SFAClient.py:527-530 | the key location's flag follows the zone rule |
| ZoneFlags.SilverKeyOther | SFAClient.py:522-532 | the key branch moves no other flag |
| CogRoom.CogRoomFlags | SFAClient.py:499-502 | each stage ends as `count > k` and its lower neighbour cleared |
| CogRoom.PairsFlags | SFAClient.py:497-502 | with the pairs apart, flag k ends on iff `count > k`, and its partner ends off |
| TableBits.ShopBitsDistinct | locations.py:131-157 | no two shop entries share a flag bit |
| TableBits.UpgradeBitsDistinct | locations.py:122-130 | no two upgrade entries share a flag bit |
| TableBits.ShopUpgradeApart | locations.py:122-157 | no upgrade shares a bit with a shop entry |
| FlagLists.SetFlagsFlag | SFAClient.py:397-402 | with distinct bits, each listed flag ends in its state |
| FlagLists.SetFlagsAllOn | SFAClient.py:397-402 | when every entry is forced on, every listed flag ends on |
| FlagLists.SetFlagsFrame | SFAClient.py:397-402 | flags no entry names are kept |
| ForceFlags.ForceFlagList | SFAClient.py:397-398 | the flags of a list forced in order |
| ForceFlags.ForceConstants | SFAClient.py:401-408 | the writes of every poll: the constant flags, then the bomb spore |
| ForceFlags.ForceBombSpore | SFAClient.py:404-408 | the bomb spore's flag turned on through read, update and write |
| ForceFlags.StartSave | SFAClient.py:393-399 | the two masks, the starting flags, then the replay of every received id |
| ForceFlags.ForceGameflags | SFAClient.py:385-408 | the run's function over caller-given starting and constant lists |
| GameFlags.ItemMapMaskSet | SFAClient.py:395 | each item-map mask bit ends set and no bit is cleared |
| GameFlags.ConstantFlagsHold | SFAClient.py:401-408 | each constant flag ends in its state and the bomb spore's flag ends on |
| GameFlags.ConstantWritesFrame | SFAClient.py:401-408 | flags the constant list does not name, other than the bomb spore's, are kept |
| GameFlags.ReplayOnLeavingMenu | SFAClient.py:393-399 | leaving the menu appends every received id once more and the index ends at the end |
| GameFlags.OtherPollsOnlyForce | SFAClient.py:393 | other polls hand nothing over and only force flags |
| FlagNames.ForceGameflagsAlwaysRaises | SFAClient.py:397-402 | the run as written raises on every poll: after the two masks on leaving the menu, else before any write; the ids and index stay |
| FlagNames.ForcedOn | addresses.py:109-120 | a list of flags forced on, one entry per flag with its table and offset |
| FlagNames.IntendedStartingOn | addresses.py:109-115 | with the starting list the run means, every flag of `STARTING_ON_FLAGS` is on before the replay |
| FlagNames.IntendedConstantOn | addresses.py:117-120 | with the lists the run means, both constant flags and the bomb spore's flag end on |
| FlagNames.ForceGameflagsOn | SFAClient.py:385-408 | the run on the session with the lists it means |
| Dicts.DictOfDistinct | items.py:105-107 | a comprehension over distinct keys maps each key to its own value |

## Left out

- ForceGameflags: `ForceFlags.ForceGameflags`, `ForceFlags.StartSave` and `GameFlags.ForceGameflags` take the starting and constant lists as parameters. As written, the source loops over `STARTING_FLAGS` and `CONSTANT_FLAGS`, names the address table does not define, and reads a `state` its `GameFlag` records lack. So every poll raises there; `FlagNames.ForceGameflagsAsWritten` models that run and Findings records it. The poll proofs use the lists the run means (`FlagNames.ForceGameflagsOn`).
- SetValueBytes: `ReadValueBytes` and `SetValueBytes` drop the `endian` parameter and are little-endian only. No caller passes it.
- SetValueBytes: `ToLE` keeps the low bytes where Python's `to_bytes` raises OverflowError. That happens when an `update_bits` result spills past a window of three or more bytes. The game's tables never reach it: no field is wider than 8 bits, so no window is wider than two bytes, and the two-byte spill fits.
- GiveItems: after an unknown id raises, the game watcher un-hooks and retries later (SFAClient.py:559-565). `GiveItems` returns `raised` and stops. The retry is not modelled: on every later poll the same unknown id is appended to `received_items_id` again before raising again.
- `_wait_cutscene_end` (SFAClient.py:213-218) is a no-op: it polls external memory until a cutscene ends. All `asyncio` sleeps, the scheduling between the two tasks, and logging are left out.
- RandomFillerName: takes its two rolls as parameters in place of `world.random.randint(0, 99)`. The source draws the second roll only when the first is at least 20; the model ignores the second roll in that case.
- The game-watcher loop, `dolphin_sync_task`, `main`/`_main`, `server_auth` and `make_gui` (SFAClient.py:116-182, 535-606) are emulator and connection plumbing. `send_msgs` is an append to the session's outbox.
- `received_items_id` is a class variable shared by every `SFAContext` in the source. The model keeps it as one field of the one session.
- `fuel_cell_count` (SFAClient.py:93) is never read and is left out.
- `world.py`, `regions.py`, `rules.py`, `options.py` and `__init__.py` are Archipelago glue. Only the shop option's three values are modelled.
- UpdateBits: modelled as total, with Python's negative-index slicing, rather than with a precondition that excludes the spill case. The source does not guard against that case.

## Findings

| source | as written | input that shows it | evidently intended | confidence | as-written member | corrected member |
|---|---|---|---|---|---|---|
| bit_helper.py:77-82 | `update_bits` pads its input to its own binary length, not to the window, so a field passing bit 7 of a two-byte window whose top byte is zero copies low-byte bits into the top byte | a field of size 3 at bit 6, next byte 0 | pad to `8 * nb_bytes`; bits outside the field are kept | not executed | BitMemory.SetValueSpill | BitMemory.SetValueWideBits |
| SFAClient.py:360-366 with items.py:305-313 | giving a Fuel Cell (offset 0x935, size 8) writes a two-byte window, and with byte T2+0x127 zero the spill sets bit 13 of the window, the DarkIce Mines planet flag 0x93D | T2+0x126 with bit 5 set, T2+0x127 = 0 | the planet flag is kept | not executed | ItemDelivery.FuelCellSetsDarkIceMines | ItemDelivery.FuelCellWideKeepsDarkIceMines |
| SFAClient.py:347-357 with items.py:219-228 | giving a DIM Alpine Root (offset 0x37E, bit 6, size 3) with byte T2+0x70 zero copies bits 1..7 of T2+0x6F into T2+0x70 | T2+0x70 = 0, any T2+0x6F with a bit 1..7 set | T2+0x70 is kept | not executed | ItemDelivery.DimAlpineRootSpill | ItemDelivery.DimAlpineRootWideKeeps |
| SFAClient.py:203-210 | `sync_full_player_state` resets `expected_idx` to 0 and hands every item over again without clearing `received_items_id`, so every count doubles | any received list, for instance one MP Upgrade | the counts stay those of the items received | not executed | ItemDelivery.ReplayDoubles | ItemDelivery.ReplayFromScratch |
| SFAClient.py:397-402 | `force_gameflags` loops over `STARTING_FLAGS` and `CONSTANT_FLAGS`, which are not defined, and reads a `state` field `GameFlag` lacks; the NameError un-hooks the game watcher on every poll | any poll | force on every flag of `STARTING_ON_FLAGS` and `CONSTANT_ON_FLAGS` | not executed | FlagNames.ForceGameflagsAlwaysRaises | FlagNames.IntendedConstantOn |
