/** The logic predicates the access rules are written with, over the items a
    player holds: how many copies of each item name. */
module Macros {

  /** What a player holds: the number of copies of each item name; a name
      that is not a key is not held. */
  type CollectionState = map<string, nat>

  function Count(state: CollectionState, name: string): nat
  {
    if name in state then state[name] else 0
  }

  /** `state.has(name, player, count)`. */
  predicate Has(state: CollectionState, name: string, count: nat)
  {
    Count(state, name) >= count
  }

  /** `state.has_all(names, player)`: at least one copy of each name. */
  predicate HasAll(state: CollectionState, names: seq<string>)
  {
    forall i :: 0 <= i < |names| ==> Has(state, names[i], 1)
  }

  /** `has_blaster`. */
  predicate HasBlaster(state: CollectionState)
  {
    HasAll(state, ["Staff", "Fire Blaster"])
  }

  /** `has_staff_booster`. */
  predicate HasStaffBooster(state: CollectionState)
  {
    HasAll(state, ["Staff", "Staff Booster"])
  }

  /** `can_explode_bomb_plant`. */
  predicate CanExplodeBombPlant(state: CollectionState)
  {
    HasAll(state, ["Staff", "Fire Blaster", "Bomb Plant"])
  }

  /** `can_buy`: the Scarab Bags a price needs. */
  predicate CanBuy(state: CollectionState, price: int)
  {
    if price <= 10 then true
    else if price <= 50 then Has(state, "Scarab Bag (Progressive)", 1)
    else if price <= 100 then Has(state, "Scarab Bag (Progressive)", 2)
    else Has(state, "Scarab Bag (Progressive)", 3)
  }

  /** The number of Scarab Bags a price needs. */
  function BagsNeeded(price: int): (n: nat)
    ensures n <= 3
    ensures price <= 10 <==> n == 0
  {
    if price <= 10 then 0 else if price <= 50 then 1 else if price <= 100 then 2 else 3
  }

  /** Buying is possible exactly when the player holds as many bags as the
      price needs; the cheapest items need none. */
  lemma CanBuyBags(state: CollectionState, price: int)
    ensures CanBuy(state, price) <==> Count(state, "Scarab Bag (Progressive)") >= BagsNeeded(price)
    ensures price <= 10 ==> CanBuy(state, price)
  {
  }

  /** A cheaper item never needs more bags. */
  lemma BagsNeededMonotone(price: int, price': int)
    requires price' <= price
    ensures BagsNeeded(price') <= BagsNeeded(price)
  {
  }

  /** `can_buy` is antitone in the price. */
  lemma CanBuyAntitone(state: CollectionState, price: int, price': int)
    requires price' <= price && CanBuy(state, price)
    ensures CanBuy(state, price')
  {
    CanBuyBags(state, price);
    CanBuyBags(state, price');
    BagsNeededMonotone(price, price');
  }

  /** Holding more Scarab Bags never makes an item unaffordable. */
  lemma CanBuyMoreBags(state: CollectionState, state': CollectionState, price: int)
    requires Count(state', "Scarab Bag (Progressive)") >= Count(state, "Scarab Bag (Progressive)")
    requires CanBuy(state, price)
    ensures CanBuy(state', price)
  {
    CanBuyBags(state, price);
    CanBuyBags(state', price);
  }

  /** Blowing up a bomb plant needs the blaster. */
  lemma ExplodeNeedsBlaster(state: CollectionState)
    requires CanExplodeBombPlant(state)
    ensures HasBlaster(state)
  {
    assert Has(state, ["Staff", "Fire Blaster", "Bomb Plant"][0], 1);
    assert Has(state, ["Staff", "Fire Blaster", "Bomb Plant"][1], 1);
  }

  /** The staff booster is there exactly when both the Staff and the Staff
      Booster are held. */
  lemma StaffBoosterIff(state: CollectionState)
    ensures HasStaffBooster(state) <==> Has(state, "Staff", 1) && Has(state, "Staff Booster", 1)
  {
    assert ["Staff", "Staff Booster"][0] == "Staff";
    assert ["Staff", "Staff Booster"][1] == "Staff Booster";
  }
}
