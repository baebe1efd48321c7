/**
 * The older top-level currency.py cog: balances shared with the newer cog,
 * an hourly coin claim, coin and item gifts, and a shop whose items are plain
 * names with per-user counters of their own.
 */
module LegacyCurrency {
  import opened Wrappers
  import opened KeyValue
  import opened Strings
  import opened Economy
  import CurrencyCog

  /** GET_COINS_INTERVAL, in seconds. */
  const Interval := 3600
  /** GET_COINS_AMOUNT */
  const Amount := 10

  datatype Error =
    | NoBalance       // int(None): the giver never had a balance
    | NotEnoughCoins
    | InvalidItem     // not in the guild's shop set
    | NoPrice         // int(None): a listed item without a price
    | NoItem          // the giver holds none of the item

  /** balance: the same read-or-initialise as the newer cog. */
  method ShowBalance(bank: Ledger, a: Account) returns (coins: int)
    modifies bank`balances
    ensures coins == old(bank.Balance(a)) && bank.Balance(a) == coins
    ensures bank.balances == if a in old(bank.balances) then old(bank.balances) else old(bank.balances)[a := 0]
  {
    coins := CurrencyCog.ShowBalance(bank, a);
  }

  /** Seconds left before a claim is allowed, from the stored last claim (absent reads 0). */
  function ClaimWait(latest: map<(string, UserId), int>, guildKey: string, user: UserId, now: int): (w: int)
    ensures w > 0 <==> ((guildKey, user) in latest && now < latest[(guildKey, user)] + Interval)
                       || ((guildKey, user) !in latest && now < Interval)
  {
    Count(latest, (guildKey, user)) + Interval - now
  }

  /**
   * get_coins: the last claim is read under the guild's display text
   * (`guildName`, what str(guild) gives) but written under the guild's id.
   * A claim whose wait is positive changes nothing; otherwise `now` is
   * stored and Amount coins are credited.
   */
  method GetCoins(bank: Ledger, guild: GuildId, guildName: string, user: UserId, now: int)
    returns (claimed: bool)
    modifies bank`getCoinsLatest, bank`balances
    ensures claimed <==> ClaimWait(old(bank.getCoinsLatest), guildName, user, now) <= 0
    ensures !claimed ==> bank.getCoinsLatest == old(bank.getCoinsLatest) && bank.balances == old(bank.balances)
    ensures claimed ==>
      bank.getCoinsLatest == old(bank.getCoinsLatest)[(IntToString(guild), user) := now]
      && bank.balances == IncrBy(old(bank.balances), Account(guild, user), Amount)
  {
    if ClaimWait(bank.getCoinsLatest, guildName, user, now) > 0 {
      return false;
    }
    bank.getCoinsLatest := bank.getCoinsLatest[(IntToString(guild), user) := now];
    bank.balances := IncrBy(bank.balances, Account(guild, user), Amount);
    claimed := true;
  }

  /**
   * A claim stored under the guild id does not shorten the wait read under a
   * different guild text: when the display text is not the id's digits, the
   * hourly limit never takes effect.
   */
  lemma ClaimNeverThrottles(latest: map<(string, UserId), int>, guild: GuildId, guildName: string,
                            user: UserId, now: int, later: int)
    requires guildName != IntToString(guild)
    ensures ClaimWait(latest[(IntToString(guild), user) := now], guildName, user, later)
         == ClaimWait(latest, guildName, user, later)
  {
    assert (guildName, user) != (IntToString(guild), user);
  }

  /** Had the key been the same, a claim would hold off the next one for the whole interval. */
  lemma SameKeyThrottles(latest: map<(string, UserId), int>, key: string, user: UserId, now: int, later: int)
    requires now <= later < now + Interval
    ensures ClaimWait(latest[(key, user) := now], key, user, later) > 0
  {
  }

  /**
   * give_coins: the giver's balance must exist and cover the amount; the
   * amount's sign is not checked, so a negative gift takes coins from the
   * recipient.
   */
  method GiveCoins(bank: Ledger, guild: GuildId, giver: UserId, recipient: UserId, amount: int)
    returns (r: Result<(), Error>)
    modifies bank`balances
    ensures Account(guild, giver) !in old(bank.balances) <==> r == Failure(NoBalance)
    ensures r == Failure(NotEnoughCoins) <==>
      Account(guild, giver) in old(bank.balances) && old(bank.balances)[Account(guild, giver)] < amount
    ensures r.Success? <==>
      Account(guild, giver) in old(bank.balances) && old(bank.balances)[Account(guild, giver)] >= amount
    ensures r.Failure? ==> bank.balances == old(bank.balances)
    ensures r.Success? ==>
      bank.balances == Transfer(old(bank.balances), Account(guild, giver), Account(guild, recipient), amount)
  {
    var from, to := Account(guild, giver), Account(guild, recipient);
    if from !in bank.balances {
      return Failure(NoBalance);
    }
    if bank.balances[from] < amount {
      return Failure(NotEnoughCoins);
    }
    bank.balances := IncrBy(bank.balances, from, -amount);
    bank.balances := IncrBy(bank.balances, to, amount);
    r := Success(());
  }

  /**
   * Without a sign check, a gift of a negative amount from a giver with a
   * non-negative balance always passes give_coins' guards and runs in
   * reverse: the giver gains -amount and the recipient loses it, going into
   * debt when it held less than that.
   */
  lemma NegativeGiftTakesFromRecipient(balances: map<Account, int>, from: Account, to: Account, amount: int)
    requires amount < 0 && from != to
    requires from in balances && balances[from] >= 0
    ensures balances[from] >= amount
    ensures Count(Transfer(balances, from, to, amount), from) == balances[from] - amount
    ensures Count(Transfer(balances, from, to, amount), to) == Count(balances, to) + amount
    ensures Count(balances, to) < -amount ==> !NoDebt(Transfer(balances, from, to, amount))
  {
    TransferConserves(balances, from, to, amount);
    var r := Transfer(balances, from, to, amount);
    if Count(balances, to) < -amount {
      assert to in r && r[to] < 0;
    }
  }

  /** The counter of one user's item in the legacy shop space. */
  function ItemCount(inv: map<(GuildId, UserId, string), int>, guild: GuildId, user: UserId, item: string): int
  {
    Count(inv, (guild, user, item))
  }

  /**
   * inventory: for every item of the guild's shop, the user's count when it
   * is positive.
   */
  method Inventory(bank: Ledger, guild: GuildId, user: UserId) returns (amounts: map<string, int>)
    ensures forall item :: item in amounts <==>
      item in Members(bank.legacyItems, guild) && ItemCount(bank.legacyInventory, guild, user, item) > 0
    ensures forall item :: item in amounts ==> amounts[item] == ItemCount(bank.legacyInventory, guild, user, item)
  {
    var items := Members(bank.legacyItems, guild);
    var remaining := items;
    amounts := map[];
    while remaining != {}
      invariant remaining <= items
      invariant forall item :: item in amounts <==>
        item in items - remaining && ItemCount(bank.legacyInventory, guild, user, item) > 0
      invariant forall item :: item in amounts ==> amounts[item] == ItemCount(bank.legacyInventory, guild, user, item)
      decreases remaining
    {
      ghost var some := NonEmptyHasMember(remaining);
      var item :| item in remaining;
      var quantity := ItemCount(bank.legacyInventory, guild, user, item);
      if quantity > 0 {
        amounts := amounts[item := quantity];
      }
      remaining := remaining - {item};
    }
  }

  /**
   * buy: the item must be in the guild's shop and have a price; the buyer
   * (absent balance reads 0) must afford it. The price is debited and one
   * unit credited.
   */
  method Buy(bank: Ledger, guild: GuildId, user: UserId, item: string) returns (r: Result<(), Error>)
    modifies bank`balances, bank`legacyInventory
    ensures item !in Members(bank.legacyItems, guild) <==> r == Failure(InvalidItem)
    ensures r == Failure(NoPrice) <==> item in Members(bank.legacyItems, guild) && (guild, item) !in bank.legacyPrices
    ensures r == Failure(NotEnoughCoins) <==>
      item in Members(bank.legacyItems, guild) && (guild, item) in bank.legacyPrices
      && old(bank.Balance(Account(guild, user))) < bank.legacyPrices[(guild, item)]
    ensures r.Failure? ==> bank.balances == old(bank.balances) && bank.legacyInventory == old(bank.legacyInventory)
    ensures r.Success? ==>
      bank.balances == IncrBy(old(bank.balances), Account(guild, user), -bank.legacyPrices[(guild, item)])
      && bank.legacyInventory == IncrBy(old(bank.legacyInventory), (guild, user, item), 1)
  {
    if item !in Members(bank.legacyItems, guild) {
      return Failure(InvalidItem);
    }
    if (guild, item) !in bank.legacyPrices {
      return Failure(NoPrice);
    }
    var price := bank.legacyPrices[(guild, item)];
    var a := Account(guild, user);
    if bank.Balance(a) < price {
      return Failure(NotEnoughCoins);
    }
    bank.balances := IncrBy(bank.balances, a, -price);
    bank.legacyInventory := IncrBy(bank.legacyInventory, (guild, user, item), 1);
    r := Success(());
  }

  /**
   * give_item: the item must be in the guild's shop and the giver must hold
   * at least one; exactly one unit moves to the recipient.
   */
  method GiveItem(bank: Ledger, guild: GuildId, giver: UserId, recipient: UserId, item: string)
    returns (r: Result<(), Error>)
    modifies bank`legacyInventory
    ensures item !in Members(bank.legacyItems, guild) <==> r == Failure(InvalidItem)
    ensures r == Failure(NoItem) <==>
      item in Members(bank.legacyItems, guild) && old(ItemCount(bank.legacyInventory, guild, giver, item)) < 1
    ensures r.Failure? ==> bank.legacyInventory == old(bank.legacyInventory)
    ensures r.Success? ==>
      bank.legacyInventory == Transfer(old(bank.legacyInventory), (guild, giver, item), (guild, recipient, item), 1)
    ensures NoDebt(old(bank.legacyInventory)) ==> NoDebt(bank.legacyInventory)
  {
    if item !in Members(bank.legacyItems, guild) {
      return Failure(InvalidItem);
    }
    var from, to := (guild, giver, item), (guild, recipient, item);
    if Count(bank.legacyInventory, from) < 1 {
      return Failure(NoItem);
    }
    if NoDebt(bank.legacyInventory) {
      TransferNoDebt(bank.legacyInventory, from, to, 1);
    }
    bank.legacyInventory := Transfer(bank.legacyInventory, from, to, 1);
    r := Success(());
  }
}
