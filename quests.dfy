/**
 * The Quests cog of cogs/quests.py: a rate-limited free claim that pays
 * coins and sometimes an item from a global pool, and the commands that edit
 * the pool. The clock reading and the random draw are parameters.
 */
module Quests {
  import opened Wrappers
  import opened KeyValue
  import opened Economy

  /**
   * The three settings read from the environment: GET_COINS_INTERVAL (whole
   * seconds here), GET_COINS_AMOUNT and GET_ITEM_FREQUENCY (whose comparison
   * with a random draw is the `lucky` parameter of Free).
   */
  datatype Config = Config(interval: int, amount: int)

  datatype Error = MustWait(seconds: int)

  /** The reply of the unfinished quest command. */
  const QuestReply := "Sorry, this feature is not available yet."

  /** Seconds left before the next free claim, from the last one (absent reads 0). */
  function FreeWait(latest: map<Account, int>, a: Account, cfg: Config, now: int): int
  {
    Count(latest, a) + cfg.interval - now
  }

  /**
   * After a claim at `now`, a later claim is refused exactly while less than
   * the interval has passed; at exactly the interval it is allowed.
   */
  lemma ClaimSpacing(latest: map<Account, int>, a: Account, cfg: Config, now: int, later: int)
    ensures FreeWait(latest[a := now], a, cfg, later) > 0 <==> later < now + cfg.interval
    ensures FreeWait(latest[a := now], a, cfg, now + cfg.interval) == 0
  {
  }

  /**
   * A claim by one account leaves every other account's wait as it was.
   */
  lemma ClaimIsPerAccount(latest: map<Account, int>, a: Account, b: Account, cfg: Config, now: int, later: int)
    requires a != b
    ensures FreeWait(latest[a := now], b, cfg, later) == FreeWait(latest, b, cfg, later)
  {
  }

  /**
   * free: refused while the wait is positive (nothing changes); otherwise the
   * claim time becomes `now`, the balance grows by the configured amount and,
   * when the draw is lucky and the pool is not empty, one unit of a pool item
   * (chosen by the store) is added to the inventory and returned.
   */
  method Free(bank: Ledger, cfg: Config, a: Account, now: int, lucky: bool)
    returns (r: Result<Option<ItemId>, Error>)
    modifies bank`freeLatest, bank`balances, bank`inventories
    ensures FreeWait(old(bank.freeLatest), a, cfg, now) > 0 <==> r.Failure?
    ensures r.Failure? ==>
      r.error == MustWait(FreeWait(old(bank.freeLatest), a, cfg, now))
      && bank.freeLatest == old(bank.freeLatest) && bank.balances == old(bank.balances)
      && bank.inventories == old(bank.inventories)
    ensures r.Success? ==>
      bank.freeLatest == old(bank.freeLatest)[a := now]
      && bank.balances == IncrBy(old(bank.balances), a, cfg.amount)
    ensures r.Success? ==> (r.value.Some? <==> lucky && bank.freeItems != {})
    ensures r == Success(None) ==> bank.inventories == old(bank.inventories)
    ensures r.Success? && r.value.Some? ==>
      r.value.value in bank.freeItems
      && bank.inventories == HIncrBy(old(bank.inventories), a, r.value.value, 1)
  {
    var wait := FreeWait(bank.freeLatest, a, cfg, now);
    if wait > 0 {
      return Failure(MustWait(wait));
    }
    bank.freeLatest := bank.freeLatest[a := now];
    bank.balances := IncrBy(bank.balances, a, cfg.amount);
    var granted := None;
    if lucky && bank.freeItems != {} {
      ghost var some := NonEmptyHasMember(bank.freeItems);
      var item :| item in bank.freeItems;
      bank.inventories := HIncrBy(bank.inventories, a, item, 1);
      granted := Some(item);
    }
    r := Success(granted);
  }

  /** add_free: put the item in the free pool. */
  method AddFree(bank: Ledger, item: Item)
    modifies bank`freeItems
    ensures bank.freeItems == old(bank.freeItems) + {item.uuid}
  {
    bank.freeItems := bank.freeItems + {item.uuid};
  }

  /** remove_free: take the item out of the free pool. */
  method RemoveFree(bank: Ledger, item: Item)
    modifies bank`freeItems
    ensures bank.freeItems == old(bank.freeItems) - {item.uuid}
  {
    bank.freeItems := bank.freeItems - {item.uuid};
  }

  /** quest: a fixed reply; it reads and writes nothing in the store. */
  method Quest(bank: Ledger) returns (reply: string)
    ensures reply == QuestReply
  {
    reply := QuestReply;
  }
}
