/**
 * The economy's part of the key-value store, shared by the currency, quest,
 * wear and inventory cogs (and read by the portal payment gate through the
 * wallet). Each field is one family of keys; the comment names the key.
 */
module Economy {
  import opened KeyValue

  type GuildId = int
  type UserId = int
  /** The uuid of an item; items themselves live in an item library that is not part of this model. */
  type ItemId = string

  /**
   * What the item library tells a cog about an item: its uuid, its display
   * name and whether it can be worn. Looking an item up by name is not part
   * of this model; commands receive the item it resolved to.
   */
  datatype Item = Item(uuid: ItemId, name: string, wearable: bool)

  /** The (guild, user) pair that names a balance, an inventory or an outfit. */
  datatype Account = Account(guild: GuildId, user: UserId)

  class Ledger {
    var balances: map<Account, int>                          // currency:balance:{guild}:{user}
    var inventories: map<Account, map<ItemId, int>>          // inventory:{guild}:{user} (hash)
    var shopItems: map<GuildId, set<ItemId>>                 // shop:items:{guild}
    var shopPrices: map<(GuildId, ItemId), int>              // shop:prices:{guild}:{item}
    var wearing: map<Account, set<ItemId>>                   // wear:{guild}:{user}
    var freeLatest: map<Account, int>                        // quests:free:latest:{guild}:{user}
    var freeItems: set<ItemId>                               // quests:free:items
    // The separate key space of the older top-level currency.py cog.
    var legacyItems: map<GuildId, set<string>>               // currency:shop:items:{guild}
    var legacyPrices: map<(GuildId, string), int>            // currency:shop:prices:{guild}:{item}
    var legacyInventory: map<(GuildId, UserId, string), int> // currency:shop:inventory:{guild}:{user}:{item}
    var getCoinsLatest: map<(string, UserId), int>           // currency:get_coins:latest:{guild text}:{user}

    /** An empty store. */
    constructor ()
      ensures balances == map[] && inventories == map[] && wearing == map[]
      ensures shopItems == map[] && shopPrices == map[]
      ensures freeLatest == map[] && freeItems == {}
      ensures legacyItems == map[] && legacyPrices == map[] && legacyInventory == map[]
      ensures getCoinsLatest == map[]
    {
      balances, inventories, wearing := map[], map[], map[];
      shopItems, shopPrices := map[], map[];
      freeLatest, freeItems := map[], {};
      legacyItems, legacyPrices, legacyInventory := map[], map[], map[];
      getCoinsLatest := map[];
    }

    /** A user's balance as the commands read it, absent read as 0. */
    function Balance(a: Account): int
      reads this
    {
      Count(balances, a)
    }

    /** How many of an item an account holds, absent read as 0. */
    function Holding(a: Account, item: ItemId): int
      reads this
    {
      Count(Hash(inventories, a), item)
    }
  }
}
