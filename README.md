# breqbot, modelled in Dafny

Breqbot is a Discord bot. Almost every command does a few operations on a
Redis key-value store, and the bot's logic lives in those operations. This
project models that logic. It covers the following parts.

- **Portal registry.** Registered portals, and the four indexes that make a
  portal available under an alias in a guild. It also covers the payment gate
  of the `portal` command and two small helpers: the status emoji and the
  clock frame.
- **Economy.** Both currency cogs (the newer extension and the older
  top-level cog), the rate-limited free claim and the quest stub. It also
  covers wearing items, inventories and roulette.
- **Role menus.** Converting a menu to a Redis hash and back, the link
  lookup, the menu edits and the rule that adds a role on a reaction.
- **The "space" grid game.** The 8×8 board, which is changed in place.
- **Formatters and filters.** VEX match summary lines, the Minecraft status
  text and watch indexes, the Reddit post filter, and the help command.

Each Redis key family is a typed field of a class: a set, a counter, a hash
or a string value. Redis commands become the helper functions of module
`KeyValue`. As in Redis, a set that loses its last member disappears and a
missing counter reads as 0. Randomness and clock readings become method
parameters. So do Discord inputs: reactions, roles, the guild's role list,
the filtered command list and the server status reply.

Some behaviours of the code look unintended. They are modelled as written, and lemmas state them.

- `currency.py` reads the last-claim key under the guild's text
  (`{ctx.guild}`) but writes it under the guild's id. The read therefore
  never sees the write, so `get_coins` never throttles once the two texts
  differ (`LegacyCurrency.ClaimNeverThrottles`).
- No sign check is made on the amount of `give_coins` in `currency.py`,
  of `buy` in `extensions/currency.py`, or of `give` in
  `extensions/inventory.py`. A negative `give_coins` gift runs in reverse:
  the giver gains coins, and the recipient loses them and can go into debt
  (`LegacyCurrency.NegativeGiftTakesFromRecipient`).
- In `space`, a fifth player's 🆕 reaction raises `IndexError` at the colour
  lookup. Nothing inside the reaction loop catches it, so the game ends
  (`Games.Space.Join`, `Games.Space.React`).
- `Menu.delete` removes `"{channel}{message}"` from `rolemenu:list`. The
  set holds `"{channel}:{message}"`, so the real member stays
  (`RoleMenu.Store.Delete`).
- `remrole` writes with `hset`, which merges. The removed emoji therefore
  stays in the stored hash, and the menu read back still maps it
  (`RoleMenu.Store.RemRole`).
- The Minecraft message-delete listener deletes `mc:watching:channel:…`
  rather than the `mc:watching:message:…` key it read, so the message index
  keeps the entry (`Minecraft.Watcher.MessageDeleted`).
- `get_hash` catches `UserInputError`, but `_get_state` raises a plain
  `CommandError`. The "disconnected" hash is therefore never produced, and
  a failed fetch is an error (`Minecraft.GetHash`).
- `remove_portal` on an association that does not exist deletes the alias
  key for the name `None` (`Portal.Registry.RemovePortal`).

Modules: `Wrappers`, `Strings`, `KeyValue`, `Economy`, `Portal`,
`CurrencyCog`, `LegacyCurrency`, `Quests`, `Wear`, `InventoryCog`,
`Games`, `Vex`, `Minecraft`, `Reddit`, `RoleMenu`, `HelpCommand`.

## Model

| member | source | states |
|---|---|---|
| KeyValue.SAdd | bot/connections/portal.py:37-38 | `sadd`: the key's members gain the value, every other key is unchanged, and no set is left empty |
| KeyValue.SRem | bot/connections/portal.py:343-344 | `srem`: the key's members lose the value, every other key is unchanged, and an emptied set disappears |
| KeyValue.IncrBy | extensions/currency.py:41-43 | `incr`/`decr`: the counter (absent reads 0) moves by the delta, and every other counter and key is unchanged |
| KeyValue.HIncrBy | extensions/currency.py:102-103 | `hincrby`: one field of one hash moves by the delta, and every other field and hash is unchanged |
| KeyValue.SRemUndoesSAdd | extensions/currency.py:112-123 | removing a member that was just added (and was absent before) restores the store exactly |
| KeyValue.SAddIdempotent | bot/connections/portal.py:37-38 | adding the same member twice equals adding it once |
| KeyValue.TransferConserves | extensions/currency.py:41-43 | a decr/incr pair moves the amount from one counter to the other and conserves their sum |
| KeyValue.TransferNoDebt | extensions/currency.py:34-43 | a transfer of 0..balance keeps every counter non-negative |
| KeyValue.HIncrByUndone | extensions/wear.py:29-48 | hincrby by d then by -d leaves every count as it was |
| KeyValue.HTransferConserves | extensions/inventory.py:45-48 | moving an item count between two inventories conserves the pair's total |
| Strings.ParseIntToString | extensions/currency.py:141 | `int(str(n)) == n` for every integer |
| Strings.Split | extensions/rolemenu.py:91 | `str.split`: at least one piece, and no piece holds the separator |
| Strings.SplitJoin | extensions/lookup/vex.py:165 | splitting a join at a separator that no piece holds gives back the pieces |
| Strings.FirstLine | bot/internal/help_command.py:23 | `split('\n')[0]`: a prefix without newline, ending at the first newline or at the end |
| Strings.LStrip | extensions/rolemenu.py:91 | `lstrip(c)`: a suffix, everything removed was `c`, and the result does not start with `c` |
| Portal.Stored | bot/connections/portal.py:33-35 | a stored hash keeps the portal's id and owner and always has a price |
| Portal.Normalized | bot/connections/portal.py:28-31 | a missing price reads as 0, and storing the result gives back the hash with that price filled in |
| Portal.NormalizedStored | bot/connections/portal.py:20-38 | reading back a stored portal gives the same portal |
| Portal.Registry.GetPortal | bot/connections/portal.py:20-31 | fails exactly when there is no record, or when an owner filter is given and differs; otherwise returns the record with price defaulted to 0 |
| Portal.Registry.SetPortal | bot/connections/portal.py:33-38 | upserts the record and lists the id globally and under its owner; the portal then reads back; repeating it changes nothing |
| Portal.Registry.PurgedNames | bot/connections/portal.py:290-300 | the alias index after a name check: only the checked entry may go, and a kept entry points at a live portal |
| Portal.Registry.CheckName | bot/connections/portal.py:290-300 | free exactly when the alias is unmapped or points at a missing portal (whose entry is then deleted); a taken alias leaves the store unchanged |
| Portal.Registry.RemovePortal | bot/connections/portal.py:340-346 | removes the guild-set, portal-set, id→alias and alias→id entries of the association, and keeps the indexes consistent |
| Portal.RemoveAssociationAgrees | bot/connections/portal.py:340-346 | dropping one association keeps the four indexes in agreement |
| Portal.RemoveAliasInverse | bot/connections/portal.py:345-346 | dropping one alias pair keeps the alias→id and id→alias maps inverse |
| Portal.AddAssociationAgrees | bot/connections/portal.py:317-322 | adding one association (free alias, portal not yet in the guild) keeps the four indexes in agreement |
| Portal.AddAliasInverse | bot/connections/portal.py:319-322 | adding one alias pair keeps the two alias maps inverse |
| Portal.Registry.Create | bot/connections/portal.py:158-173 | stores a new portal with the default name, description, price 0, the caller as owner and status "0" |
| Portal.Registry.Retoken | bot/connections/portal.py:186-191 | ownership check first (fails with no change); otherwise only the token changes |
| Portal.Registry.Set | bot/connections/portal.py:204-218 | ownership check first; an unknown field or a non-integer price fails with no write; otherwise only the named field changes |
| Portal.Registry.Add | bot/connections/portal.py:303-322 | ownership, alias and membership checks fail in that order with no index write (beyond the name check's purge); success writes exactly the four index entries |
| Portal.Registry.Associate | bot/connections/portal.py:317-322 | the four index writes, which keep the registry consistent for a live portal, a free alias and a new association |
| Portal.Registry.Remove | bot/connections/portal.py:327-337 | an unmapped alias fails with no change; the owner check comes next; success removes exactly that portal's entry from the guild set, the guild from the portal's set, its id→alias key and the alias key read through it, and in a consistent registry that is the alias given |
| Portal.Registry.Delete | bot/connections/portal.py:222-233 | ownership check before any removal; then the record and both listings are gone; in each former guild the portal leaves the guild set and its id→alias and alias keys are deleted; every other portal's entries are unchanged |
| Portal.Registry.DetachEverywhere | bot/connections/portal.py:231-233 | the cascade loop: the portal ends with no guilds; exactly its entries in its former guilds are removed from the guild sets and the id→alias and alias indexes, and other portals' guild sets are unchanged |
| Portal.PaymentGate | bot/connections/portal.py:54-85 | price 0 never charges; a balance below the price is refused; a timeout or ❌ charges nothing; ✅ lowers the balance by exactly the price |
| Portal.Registry.Invoke | bot/connections/portal.py:41-96 | an unknown alias fails; otherwise the gate decides, and only a charge changes the balance; a query is sent for a free or confirmed call |
| Portal.ClockIndex | bot/connections/portal.py:129-131 | a clock face is drawn exactly on frames divisible by 5, and its index is within the 12 faces |
| Portal.ClockAdvances | bot/connections/portal.py:129-131 | each drawn frame advances the face by one modulo 12, and the faces repeat every 60 frames |
| Portal.StatusToEmoji | bot/connections/portal.py:349-356 | a non-integer status fails; an emoji exists exactly for 0, 1 and 2 |
| Portal.StatusEmojiDistinct | bot/connections/portal.py:349-356 | the three statuses map to :x:, :orange_circle: and :green_circle: |
| CurrencyCog.ShowBalance | extensions/currency.py:16-24 | replies with the balance; a missing balance is stored as 0 |
| CurrencyCog.Pay | extensions/currency.py:29-43 | a negative amount or a short balance (missing reads 0) fails with no change; success moves the amount from payer to payee; no debt is created |
| CurrencyCog.Buy | extensions/currency.py:84-103 | no price or a short balance fails with no change; success lowers the balance by price×amount and raises the inventory by amount |
| CurrencyCog.List | extensions/currency.py:109-113 | adds the item to the shop set and sets its price |
| CurrencyCog.Delist | extensions/currency.py:119-123 | removes the item from the shop set and drops its price |
| CurrencyCog.DelistUndoesList | extensions/currency.py:112-123 | delisting a freshly listed item restores the shop exactly |
| CurrencyCog.WheelPockets | extensions/currency.py:158 | the wheel has 37 pockets, exactly the numbers 0..36 |
| CurrencyCog.ColoursPartition | extensions/currency.py:160-161 | 18 red and 18 black numbers that partition 1..36 |
| CurrencyCog.RedByRule | extensions/currency.py:160 | red means odd in 1-10 and 19-28, even in 11-18 and 29-36 |
| CurrencyCog.BlackByRule | extensions/currency.py:161 | black is every other number of 1..36 |
| CurrencyCog.Colour | extensions/currency.py:165 | a pocket is green exactly when it is 0 |
| CurrencyCog.Parity | extensions/currency.py:166 | "even" exactly for a non-zero even ball |
| CurrencyCog.Range | extensions/currency.py:167 | "low" exactly for 1..18 |
| CurrencyCog.ParseWager | extensions/currency.py:133-143 | all / none / half give balance / 0 / balance÷2 (within 0..balance); anything else is an integer or InvalidWager |
| CurrencyCog.ParseBet | extensions/currency.py:150-154 | a bet is one of the six names, or an integer, or InvalidBet |
| CurrencyCog.Stake | extensions/currency.py:133-154 | succeeds exactly when the wager parses to 0..balance and the bet parses; a wager above the balance is WagerTooLarge |
| CurrencyCog.WinningsPayout | extensions/currency.py:177-186 | a winning named bet pays 2×wager, a winning number 36×wager, and a loss pays 0 |
| CurrencyCog.ZeroLosesNamedBets | extensions/currency.py:165-186 | ball 0 loses every named bet |
| CurrencyCog.Roulette | extensions/currency.py:128-193 | a missing balance or a bad stake fails with no change; otherwise the balance becomes balance − wager + winnings and stays non-negative |
| CurrencyCog.Settle | extensions/currency.py:156-188 | the decr of the wager then the incr of the winnings: the balance becomes balance − wager + winnings |
| LegacyCurrency.ShowBalance | currency.py:18-30 | replies with the balance; a missing balance is stored as 0 |
| LegacyCurrency.ClaimWait | currency.py:38-41 | a wait is due exactly while less than an hour has passed since the stored claim (absent reads 0) |
| LegacyCurrency.GetCoins | currency.py:32-51 | a pending wait changes nothing; otherwise the claim time is written under the guild id and 10 coins are added |
| LegacyCurrency.ClaimNeverThrottles | currency.py:38-48 | the write goes to a key the read never sees, so a claim never delays the next one |
| LegacyCurrency.SameKeyThrottles | currency.py:38-48 | had read and write used one key, a claim would block for an hour |
| LegacyCurrency.GiveCoins | currency.py:53-65 | a missing or short balance fails with no change; otherwise the amount moves from giver to recipient, with no check on its sign |
| LegacyCurrency.NegativeGiftTakesFromRecipient | currency.py:56-63 | for every negative amount and non-negative giver balance the guard passes; the giver gains −amount, the recipient loses it, and goes into debt when it held less |
| LegacyCurrency.Inventory | currency.py:75-82 | lists exactly the shop items held in positive quantity, with those quantities |
| LegacyCurrency.Buy | currency.py:106-125 | an unknown item, a missing price or a short balance fails with no change; success takes the price and adds one unit |
| LegacyCurrency.GiveItem | currency.py:127-144 | an unknown item or a count below 1 fails with no change; success moves exactly one unit, creating no debt |
| Quests.ClaimSpacing | cogs/quests.py:32-41 | after a claim, the next is refused exactly until the interval has passed, and a claim exactly at the boundary succeeds |
| Quests.ClaimIsPerAccount | cogs/quests.py:32-41 | one account's claim does not change another's wait |
| Quests.Free | cogs/quests.py:28-59 | a pending wait fails with no change; success stores now and pays the amount; an item is granted exactly when the draw is lucky and the pool is non-empty, and it comes from the pool |
| Quests.AddFree | cogs/quests.py:72-75 | adds the item's uuid to the free pool |
| Quests.RemoveFree | cogs/quests.py:80-83 | removes the item's uuid from the free pool |
| Quests.Quest | cogs/quests.py:88-90 | replies with the fixed message and changes nothing |
| Wear.Wear | extensions/wear.py:15-31 | not wearable, not held or already worn fails with no change; success takes one from the inventory and adds the item to the outfit |
| Wear.Takeoff | extensions/wear.py:36-48 | not worn fails with no change; success returns one to the inventory and removes the item from the outfit |
| Wear.WearThenTakeoff | extensions/wear.py:29-48 | wearing then taking off restores both the inventory and the outfit |
| Wear.Outfit | extensions/wear.py:53-79 | drops the items missing from the library from the outfit and shows exactly the rest; other outfits are unchanged |
| InventoryCog.Shown | extensions/inventory.py:23-25 | exactly the entries with a positive amount, with their amounts |
| InventoryCog.ShownIdempotent | extensions/inventory.py:24-25 | filtering twice equals filtering once |
| InventoryCog.Inventory | extensions/inventory.py:16-34 | lists exactly the positive holdings, and the balance (0 when missing); changes nothing |
| InventoryCog.Give | extensions/inventory.py:39-48 | holding less than the amount fails with no change; success moves the amount, conserving the pair's total |
| InventoryCog.Use | extensions/inventory.py:53-61 | fails exactly when the item is not held; never changes the inventory |
| InventoryCog.DivineGift | extensions/inventory.py:66-69 | raises the target's count by exactly 1 |
| Games.Step | extensions/games.py:40-44 | the four arrow emoji, and only they, are unit steps |
| Games.ColorsDistinct | extensions/games.py:37 | the four player colours are distinct and are neither wall nor floor |
| Games.Player.constructor | extensions/games.py:55-57 | paints the player's colour on its cell and nothing else |
| Games.Player.MoveTo | extensions/games.py:59-62 | blanks the old cell, paints the new one and moves the position; no other cell changes |
| Games.Player.Move | extensions/games.py:64-73 | moves exactly when the step is a unit step onto a floor cell; a refused move changes nothing; a move touches only the two cells |
| Games.Space.constructor | extensions/games.py:19-28 | an 8×8 board with a wall border and a floor interior, and no players; the author's own Player() at line 75 is a Join on this board |
| Games.Space.FindOpen | extensions/games.py:49-52 | the first drawn cell that is floor, or none when every draw hits a wall or a player |
| Games.Space.Admit | extensions/games.py:55-57 | the new player takes the next colour and paints only its own cell; the board invariant holds |
| Games.Space.Join | extensions/games.py:47-57 | a player joins exactly when fewer than four play and some draw is floor, taking the next colour on the first floor draw, and only that cell changes; with four players a floor draw leads to the colour lookup raising (Crashed), with no change |
| Games.Space.MovePlayer | extensions/games.py:95-97 | a player's move as Move states it: a unit step onto floor paints the new cell, blanks the old one and changes no other cell, keeping the border intact and each player on its colour |
| Games.Space.React | extensions/games.py:87-104 | one loop turn: a player's arrow onto floor moves that player, paints the new cell, blanks the old one and leaves every other cell; onto anything else it changes nothing; a player's other reaction changes nothing; other players' pieces never change; a newcomer's 🆕 joins exactly when fewer than four play and a draw is floor, on the first floor draw with the next colour; the turn ends the game exactly when a fifth player's colour lookup raises |
| Vex.MatchNum | extensions/lookup/vex.py:117-127 | a label exists exactly for rounds 1 to 5 |
| Vex.LabelRoundTrip | extensions/lookup/vex.py:117-127 | every label reads back as its round and the numbers it shows, so labels of different rounds never collide |
| Vex.Mark | extensions/lookup/vex.py:135-138 | a name is changed (bolded) exactly when it is the asked team |
| Vex.ScoreBoldsOwnSide | extensions/lookup/vex.py:140-143 | exactly one score is bold: red when the team is red1/red2, blue otherwise |
| Vex.Framed | extensions/lookup/vex.py:145-162 | the score inside the frame; 🟥 on the left exactly for a red win, 🟦 on the right exactly for a blue win, 🟪 exactly for a tie |
| Vex.Outcome | extensions/lookup/vex.py:145-163 | 🔸 exactly for a tie; ✅ exactly when the team's alliance won |
| Vex.OutcomeColourBlind | extensions/lookup/vex.py:145-163 | swapping the alliances' colours does not change the result |
| Vex.MatchStrFields | extensions/lookup/vex.py:165 | splitting the line at tabs gives back its seven fields (label, "-", red, score, blue, "-", result) |
| Minecraft.Marker | extensions/lookup/minecraft.py:56-61 | only stars: two for bold plus one for italic |
| Minecraft.Render | extensions/lookup/minecraft.py:54-63 | a plain token is its text |
| Minecraft.RenderUnwraps | extensions/lookup/minecraft.py:56-61 | a styled token is its text between the markers and zero-width spaces, symmetrically |
| Minecraft.DescriptionAppend | extensions/lookup/minecraft.py:65 | the description of a concatenation is the concatenation of descriptions |
| Minecraft.PlainDescription | extensions/lookup/minecraft.py:62-65 | unstyled tokens render as their texts joined |
| Minecraft.GetState | extensions/lookup/minecraft.py:39-74 | fails exactly on a non-200 reply; otherwise the rendered description, the player counts, and the sample names or [] |
| Minecraft.Bullets | extensions/lookup/minecraft.py:90 | one "• name" line per sampled player |
| Minecraft.EmbedLines | extensions/lookup/minecraft.py:84-95 | the embed text's lines are the heading, the description, the player count and one bullet per player |
| Minecraft.GetHash | extensions/lookup/minecraft.py:76-82 | succeeds exactly on a 200 reply, and never yields "disconnected" |
| Minecraft.Watcher.Watch | extensions/lookup/minecraft.py:105-117 | the ip is watched, the message joins the ip's set, and the message maps to the ip; the indexes stay consistent |
| Minecraft.Watcher.MessageDeleted | extensions/lookup/minecraft.py:120-136 | an unwatched message changes nothing; otherwise it leaves the ip's set, and the ip is unwatched when the set empties; the message key stays |
| Minecraft.Watcher.Refresh | extensions/lookup/minecraft.py:21-26 | stores the new hash, and edits the ip's messages exactly when the hash changed |
| Minecraft.Watcher.StaleStep | extensions/lookup/minecraft.py:22-26 | one more ip adds exactly its watchers when its hash changed |
| Minecraft.Watcher.WatchTask | extensions/lookup/minecraft.py:19-37 | every watched ip gets its new hash, and exactly the messages of changed ips are edited |
| Reddit.Kept | extensions/reddit.py:30-54 | every kept url belongs to a post that passes all set filters |
| Reddit.KeptPrefix | extensions/reddit.py:30-54 | the posts kept from a prefix of the feed come first in order |
| Reddit.AnyIn | extensions/reddit.py:46-50 | the flair loop finds a match exactly when a listed text is in the flair |
| Reddit.Collect | extensions/reddit.py:30-54 | the first 26 kept urls in feed order |
| Reddit.GetPosts | extensions/reddit.py:19-59 | an unknown subreddit fails; an NSFW subreddit is refused where NSFW is off; otherwise one of the first 26 kept urls, or "No images found!" |
| RoleMenu.FieldTextParses | extensions/rolemenu.py:29-44 | an `emoji:` field name parses back to its emoji, and a plain field to itself |
| RoleMenu.BaseFields | extensions/rolemenu.py:36-41 | the four plain fields name, desc, message_id and channel_id |
| RoleMenu.ToHash | extensions/rolemenu.py:35-44 | name and desc, plus one `emoji:<key>` field for each mapping entry, holding its value |
| RoleMenu.EmojiMapping | extensions/rolemenu.py:27-31 | exactly the `emoji:` fields, prefix stripped, values unchanged |
| RoleMenu.FromHash | extensions/rolemenu.py:19-33 | an empty hash fails (no such menu); a hash without name or desc fails; otherwise the menu with the parsed mapping |
| RoleMenu.RoundTripFresh | extensions/rolemenu.py:19-47 | reading a freshly written menu gives back the same menu |
| RoleMenu.RoundTrip | extensions/rolemenu.py:19-47 | over an existing hash, the read-back mapping is the old mapping overwritten by the new one |
| RoleMenu.MergedMapping | extensions/rolemenu.py:43-46 | hset merges: the parsed mapping is the old one updated with the written one |
| RoleMenu.Modify | extensions/rolemenu.py:115-118 | "name" or "desc" changes only that field; any other field leaves the menu unchanged |
| RoleMenu.RoleNamed | extensions/rolemenu.py:129-133 | none exactly when no role has the name; otherwise the first role with that name, as the loop's break takes |
| RoleMenu.FindRole | extensions/rolemenu.py:129-133 | the search loop agrees with RoleNamed |
| RoleMenu.ReactionAdd | extensions/rolemenu.py:168-185 | a custom, unmapped or empty emoji, or a held role, leaves the roles; otherwise they gain exactly that role; a non-integer role id fails |
| RoleMenu.ReactionAddIdempotent | extensions/rolemenu.py:179-182 | reacting twice is the same as reacting once |
| RoleMenu.Store.FromRedis | extensions/rolemenu.py:19-33 | reads the hash of the channel and message; a missing hash is "no such menu" |
| RoleMenu.Store.ToRedis | extensions/rolemenu.py:35-47 | merges the menu's fields into its hash and lists "channel:message"; reading back gives the menu over the old mapping |
| RoleMenu.Store.Delete | extensions/rolemenu.py:49-51 | the hash is gone, but the listed "channel:message" member stays |
| RoleMenu.MergeKeepsUnprefixed | extensions/rolemenu.py:35-47 | to_redis's merge keeps the store invariant: no stored plain field carries the `emoji:` prefix |
| RoleMenu.DeleteKeepsUnprefixed | extensions/rolemenu.py:49-51 | deleting a menu's hash keeps the store invariant |
| RoleMenu.UnprefixedReadsBack | extensions/rolemenu.py:27-31 | under the invariant every stored field name parses back as itself, so the emoji fields are exactly what from_redis reads |
| RoleMenu.MenuFromLink | extensions/rolemenu.py:88-96 | a malformed link fails; another guild's link fails; otherwise the menu at the link's channel and message |
| RoleMenu.LinkRoundTrip | extensions/rolemenu.py:88-96 | a message link built from a guild, channel and message leads back to that menu |
| RoleMenu.Store.CreateMenu | extensions/rolemenu.py:101-106 | merges the default menu's fields into its own hash only and lists it; on a fresh hash it reads back with the default name and description and no roles |
| RoleMenu.Store.ModifyMenu | extensions/rolemenu.py:111-121 | a bad link fails with no change; otherwise only the menu's own hash is merged and it is listed, and it reads back with the field changed |
| RoleMenu.Store.AddRole | extensions/rolemenu.py:126-138 | an unknown role or a bad link fails with no change; otherwise only the menu's own hash is merged and it is listed, and the emoji maps to the role's id |
| RoleMenu.Store.RemRole | extensions/rolemenu.py:143-149 | a bad link or an unmapped emoji fails with no change; a mapped emoji succeeds, merging only the menu's own hash and listing it; the merge keeps the old entry, so the menu reads back unchanged |
| RoleMenu.Store.OnMessageDelete | extensions/rolemenu.py:156-160 | an unlisted message changes nothing; otherwise the menu is deleted as Delete does |
| RoleMenu.Store.OnReactionAdd | extensions/rolemenu.py:163-185 | an unlisted message leaves the roles; otherwise the reaction rule on the stored menu |
| HelpCommand.Signature | bot/internal/help_command.py:28-32 | prefix and name, then " " and the signature exactly when there is one |
| HelpCommand.Summary | bot/internal/help_command.py:20-24 | the brief if set, else the help's first line |
| HelpCommand.Closing | bot/internal/help_command.py:16-19 | the backtick closes with a trailing space exactly when there is a signature |
| HelpCommand.HelpText | bot/internal/help_command.py:119 | help, else brief, else empty; empty exactly when both are |
| HelpCommand.DescriptionParts | bot/internal/help_command.py:14-26 | a description is the bullet, the signature, the closing, and a bar with the summary when there is help text |
| HelpCommand.DescriptionOneLine | bot/internal/help_command.py:14-26 | a description is a single line |
| HelpCommand.Descriptions | bot/internal/help_command.py:86-87 | one description per usable command, in order |
| HelpCommand.Listing | bot/internal/help_command.py:83-94 | no usable commands gives "No commands from X are usable here." |
| HelpCommand.ListingLines | bot/internal/help_command.py:89-91 | the listing's lines are exactly the commands' descriptions |
| HelpCommand.QuotedAll | bot/internal/help_command.py:61-63 | one quoted prefix+name per command |
| HelpCommand.DefaultValue | bot/internal/help_command.py:61-63 | the default cog summary ends with a newline |
| HelpCommand.DefaultValueLists | bot/internal/help_command.py:61-63 | every command's quoted name occurs in the default summary |
| HelpCommand.Entry | bot/internal/help_command.py:48-63 | a cog gets an entry exactly when it exists and has usable commands: its category, and its custom help or default summary after its name |
| HelpCommand.Entries | bot/internal/help_command.py:48-68 | at most one entry per cog |
| HelpCommand.OrderCategories | bot/internal/help_command.py:65-71 | the fields are the categories that have entries, each once |
| HelpCommand.OrderPrefix | bot/internal/help_command.py:65-68 | categories keep first-seen order |
| HelpCommand.LinesOfCategory | bot/internal/help_command.py:65-68 | a category has lines exactly when some entry has it, and every line is one of its entries |
| HelpCommand.EntriesStep | bot/internal/help_command.py:48-68 | one loop step adds the cog's entry, or nothing |
| HelpCommand.AppendEntry | bot/internal/help_command.py:65-68 | an entry opens its category when new and appends its line to it |
| HelpCommand.Insert | bot/internal/help_command.py:65-68 | one insertion keeps the category order and line lists equal to their definitions |
| HelpCommand.Group | bot/internal/help_command.py:46-68 | the grouping loop builds exactly the category order and lines |
| HelpCommand.MakeFields | bot/internal/help_command.py:70-71 | one field per category, its lines joined |
| HelpCommand.BotHelp | bot/internal/help_command.py:41-73 | the title, and one field per category in first-seen order holding its joined lines |

## Left out

- The portal's response wait, Redis pub/sub, job uuids and embeds (bot/connections/portal.py:87-155) are left out. `Invoke` returns the query it would publish.
- The `portal mine` and `portal guilds` listings are left out: they only read and render.
- Discord rendering, direct messages, reactions added to messages and `ctx.send` replies are not modelled. Replies appear only where they carry the result.
- `int()` is modelled as an optional sign followed by decimal digits. Whitespace, underscores and other bases that Python accepts are not modelled.
- The item library is not part of this model. `Item.from_name`, `Item.from_redis` and `MissingItem` become inputs: the resolved item, or the set of known uuids.
- `ensure_item` is taken to mean that the user holds at least the amount.
- The wallet's `ensure` and `remove` are taken to mean that the balance is at least the price, and that the balance is then lowered by it.
- Seconds are whole numbers; the source's floating-point timestamps are not modelled.
- `filter_commands` is an input: the list of usable commands.
- A cog's `custom_bot_help` and `custom_cog_help` are inputs.
- `send_cog_help`'s embed title is not modelled.
- The shop listings (extensions/currency.py:48-79, currency.py:90-104) are left out: they only read and render.
- The item pool listing `list_free` (cogs/quests.py:64-67) is left out for the same reason.
- Role-menu posting (`Menu.post`) and `get_role` lookups are left out: they are Discord calls.
- `urlparse` is reduced to taking the link's path.
- The reaction-remove listener (extensions/rolemenu.py:187-211) is not part of this model.
- Vex.MatchNum: the match and instance numbers are natural numbers.
- Minecraft: the state hash is the fetched state value, not its JSON text.
- Minecraft.Watcher.WatchTask: takes every ip's fetched hash as input. It does not model the task stopping on a failed fetch, nor message edits on deleted messages.
- Games: the 120-second reaction timeout, clearing reactions and redrawing the board are left out.
- Games.Space.FindOpen: random placement is a finite sequence of draws. If every draw hits a wall or a player, no player joins (NoOpenCell); the source would keep drawing.
- Games.Space.constructor: builds the board only; `space` adding its author as the first player right away (games.py:75) is left to the caller, as a `Join` on the new board.
- Games.Space.React: one turn of the `while True` loop; the wait for a reaction, its timeout and the redraw of the board are I/O and are left out, and the loop itself is the caller's.
- CurrencyCog.Roulette: the ball is a parameter. It requires a pocket number 0..36, which is what `random.choice` over the wheel yields (`WheelPockets`).
- Reddit: the praw client and the `doki`/`reddit` command wrappers are left out. The subreddit and its feed are inputs, and so is the random choice.
- The info, fun and top-level bot files are not part of this model.
