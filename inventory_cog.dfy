/**
 * The Inventory cog of extensions/inventory.py: showing an inventory with the
 * balance, giving items, the placeholder `use` and the operator's gift.
 */
module InventoryCog {
  import opened Wrappers
  import opened KeyValue
  import opened Economy

  datatype Error = MissingItem

  /** The entries of an inventory hash that are shown: those with a positive amount. */
  function Shown(inventory: map<ItemId, int>): (r: map<ItemId, int>)
    ensures forall i :: i in r <==> Count(inventory, i) > 0
    ensures forall i :: i in r ==> r[i] == Count(inventory, i)
  {
    map i | i in inventory && inventory[i] > 0 :: inventory[i]
  }

  /** Filtering an already filtered inventory changes nothing. */
  lemma ShownIdempotent(inventory: map<ItemId, int>)
    ensures Shown(Shown(inventory)) == Shown(inventory)
  {
    var once := Shown(inventory);
    var twice := Shown(once);
    forall i | i in once
      ensures i in twice
    {
      assert Count(once, i) == once[i] > 0;
    }
  }

  /**
   * inventory: the shown entries of the user's hash and the balance, with a
   * missing balance read as 0. Nothing is written.
   */
  method Inventory(bank: Ledger, a: Account) returns (amounts: map<ItemId, int>, coins: int)
    ensures forall i :: i in amounts <==> bank.Holding(a, i) > 0
    ensures forall i :: i in amounts ==> amounts[i] == bank.Holding(a, i)
    ensures coins == (if a in bank.balances then bank.balances[a] else 0)
  {
    amounts := Shown(Hash(bank.inventories, a));
    coins := bank.Balance(a);
  }

  /**
   * give: the giver must hold at least `amount` (the inventory check of the
   * cog's base class); the amount moves between the two hashes.
   */
  method Give(bank: Ledger, a: Account, recipient: UserId, item: Item, amount: int) returns (r: Result<(), Error>)
    modifies bank`inventories
    ensures r.Failure? <==> old(bank.Holding(a, item.uuid)) < amount
    ensures r.Failure? ==> bank.inventories == old(bank.inventories)
    ensures r.Success? ==>
      bank.inventories == HTransfer(old(bank.inventories), a, Account(a.guild, recipient), item.uuid, amount)
    ensures bank.Holding(a, item.uuid) + bank.Holding(Account(a.guild, recipient), item.uuid)
         == old(bank.Holding(a, item.uuid) + bank.Holding(Account(a.guild, recipient), item.uuid))
  {
    if bank.Holding(a, item.uuid) < amount {
      return Failure(MissingItem);
    }
    HTransferConserves(bank.inventories, a, Account(a.guild, recipient), item.uuid, amount);
    bank.inventories := HIncrBy(bank.inventories, a, item.uuid, -amount);
    bank.inventories := HIncrBy(bank.inventories, Account(a.guild, recipient), item.uuid, amount);
    r := Success(());
  }

  /** use: checks the user holds the item and changes nothing. */
  method Use(bank: Ledger, a: Account, item: Item) returns (r: Result<string, Error>)
    ensures r.Failure? <==> bank.Holding(a, item.uuid) < 1
    ensures r.Success? ==> r.value == "You used " + item.name + ". It did nothing!"
  {
    if bank.Holding(a, item.uuid) < 1 {
      return Failure(MissingItem);
    }
    r := Success("You used " + item.name + ". It did nothing!");
  }

  /** divine_gift: one more unit of the item for the named user of the named guild. */
  method DivineGift(bank: Ledger, item: Item, guild: GuildId, user: UserId)
    modifies bank`inventories
    ensures bank.inventories == HIncrBy(old(bank.inventories), Account(guild, user), item.uuid, 1)
    ensures bank.Holding(Account(guild, user), item.uuid) == old(bank.Holding(Account(guild, user), item.uuid)) + 1
  {
    bank.inventories := HIncrBy(bank.inventories, Account(guild, user), item.uuid, 1);
  }
}
