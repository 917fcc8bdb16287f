/** The client session `SFAContext`: what it keeps between polls of the
    game watcher, and the messages it sends to the server. The handlers
    that run on it live in the modules after this one, each a method over
    the session. */
module Context {
  import opened Memory
  import opened Addresses

  /** The messages the client sends to the server. */
  datatype Message = LocationChecks(locations: set<int>) | ClientGoal

  class SFAContext {
    /** The emulator connection. */
    const dme: Dolphin

    /** What the server side of the session holds: the ids of the items
        received (in order), the locations of this world, those the server
        has checked, whether the goal was reported, and what was sent. */
    var itemsReceived: seq<int>
    var serverLocations: set<int>
    var checkedLocations: set<int>
    var finishedGame: bool
    var outbox: seq<Message>

    /** The client's own state: the index of the next item to hand over, the
        ids handed over so far, whether the goal item arrived, the last map
        and zone words seen, and the locations found checked. */
    var expectedIdx: nat
    var receivedItemsId: seq<int>
    var victory: bool
    var storedMap: int
    var storedDim: int
    var storedDim2: int
    var locationsChecked: set<int>

    /** A new session starts in the main menu with nothing handed over. */
    constructor(dme: Dolphin, serverLocations: set<int>)
      ensures this.dme == dme && this.serverLocations == serverLocations
      ensures itemsReceived == [] && checkedLocations == {} && !finishedGame && outbox == []
      ensures expectedIdx == 0 && receivedItemsId == [] && !victory
      ensures storedMap == MapMainMenu && storedDim == 0 && storedDim2 == 0 && locationsChecked == {}
    {
      this.dme := dme;
      this.serverLocations := serverLocations;
      itemsReceived := [];
      checkedLocations := {};
      finishedGame := false;
      outbox := [];
      expectedIdx := 0;
      receivedItemsId := [];
      victory := false;
      storedMap := MapMainMenu;
      storedDim := 0;
      storedDim2 := 0;
      locationsChecked := {};
    }
  }
}
