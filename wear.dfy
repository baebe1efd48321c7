/**
 * The Wear cog of extensions/wear.py: moving one unit of a wearable item from
 * the inventory hash to the wear set and back, and listing an outfit while
 * dropping items the item library no longer knows.
 */
module Wear {
  import opened Wrappers
  import opened KeyValue
  import opened Economy

  datatype Error = NotWearable | MissingItem | AlreadyWearing | NotWearing

  /**
   * wear: refused for an item that is not wearable, one the user holds none
   * of (the inventory check of the cog's base class) or one already worn;
   * otherwise one unit leaves the inventory and the uuid joins the wear set.
   */
  method Wear(bank: Ledger, a: Account, item: Item) returns (r: Result<(), Error>)
    modifies bank`inventories, bank`wearing
    ensures r == Failure(NotWearable) <==> !item.wearable
    ensures r == Failure(MissingItem) <==> item.wearable && old(bank.Holding(a, item.uuid)) < 1
    ensures r == Failure(AlreadyWearing) <==>
      item.wearable && old(bank.Holding(a, item.uuid)) >= 1 && item.uuid in old(Members(bank.wearing, a))
    ensures r.Failure? ==> bank.inventories == old(bank.inventories) && bank.wearing == old(bank.wearing)
    ensures r.Success? ==>
      bank.inventories == HIncrBy(old(bank.inventories), a, item.uuid, -1)
      && bank.wearing == SAdd(old(bank.wearing), a, item.uuid)
  {
    if !item.wearable {
      return Failure(NotWearable);
    }
    if bank.Holding(a, item.uuid) < 1 {
      return Failure(MissingItem);
    }
    if item.uuid in Members(bank.wearing, a) {
      return Failure(AlreadyWearing);
    }
    bank.inventories := HIncrBy(bank.inventories, a, item.uuid, -1);
    bank.wearing := SAdd(bank.wearing, a, item.uuid);
    r := Success(());
  }

  /**
   * takeoff: refused for an item not worn; otherwise one unit returns to the
   * inventory and the uuid leaves the wear set.
   */
  method Takeoff(bank: Ledger, a: Account, item: Item) returns (r: Result<(), Error>)
    modifies bank`inventories, bank`wearing
    ensures r == Failure(NotWearing) <==> item.uuid !in old(Members(bank.wearing, a))
    ensures r.Failure? ==> bank.inventories == old(bank.inventories) && bank.wearing == old(bank.wearing)
    ensures r.Success? ==>
      bank.inventories == HIncrBy(old(bank.inventories), a, item.uuid, 1)
      && bank.wearing == SRem(old(bank.wearing), a, item.uuid)
  {
    if item.uuid !in Members(bank.wearing, a) {
      return Failure(NotWearing);
    }
    bank.inventories := HIncrBy(bank.inventories, a, item.uuid, 1);
    bank.wearing := SRem(bank.wearing, a, item.uuid);
    r := Success(());
  }

  /**
   * A successful wear followed by takeoff of the same item restores the wear
   * sets exactly and every inventory count.
   */
  lemma WearThenTakeoff(inventories: map<Account, map<ItemId, int>>, wearing: map<Account, set<ItemId>>,
                        a: Account, uuid: ItemId)
    requires NoEmptySets(wearing) && uuid !in Members(wearing, a)
    ensures SRem(SAdd(wearing, a, uuid), a, uuid) == wearing
    ensures forall b, i :: Count(Hash(HIncrBy(HIncrBy(inventories, a, uuid, -1), a, uuid, 1), b), i)
                        == Count(Hash(inventories, b), i)
  {
    SRemUndoesSAdd(wearing, a, uuid);
    HIncrByUndone(inventories, a, uuid, -1);
  }

  /**
   * outfit: the items of the wear set that the item library still knows
   * (`known`) are listed; every other one is removed from the set.
   */
  method Outfit(bank: Ledger, a: Account, known: set<ItemId>) returns (shown: set<ItemId>)
    modifies bank`wearing
    ensures shown == old(Members(bank.wearing, a)) * known
    ensures Members(bank.wearing, a) == shown
    ensures forall b :: b != a ==> Members(bank.wearing, b) == old(Members(bank.wearing, b))
    ensures NoEmptySets(old(bank.wearing)) ==> NoEmptySets(bank.wearing)
  {
    var worn := Members(bank.wearing, a);
    var remaining := worn;
    shown := {};
    while remaining != {}
      invariant remaining <= worn
      invariant shown == (worn - remaining) * known
      invariant Members(bank.wearing, a) == shown + remaining
      invariant forall b :: b != a ==> Members(bank.wearing, b) == old(Members(bank.wearing, b))
      invariant NoEmptySets(old(bank.wearing)) ==> NoEmptySets(bank.wearing)
      decreases remaining
    {
      ghost var some := NonEmptyHasMember(remaining);
      var uuid :| uuid in remaining;
      if uuid in known {
        shown := shown + {uuid};
      } else {
        bank.wearing := SRem(bank.wearing, a, uuid);
      }
      remaining := remaining - {uuid};
    }
  }
}
