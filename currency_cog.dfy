/**
 * The Currency cog of extensions/currency.py: balances, payments between
 * users, the item shop (buying, listing, delisting) and roulette. Every
 * command is a method on the shared ledger; the roulette table is a set of
 * pure functions whose properties are proved as lemmas.
 */
module CurrencyCog {
  import opened Wrappers
  import opened KeyValue
  import opened Strings
  import opened Economy

  datatype Error =
    | CannotSteal     // a negative payment
    | NotEnoughCoins
    | NotForSale      // no shop price for the item
    | NoBalance       // roulette reads a balance that was never set and int(None) raises
    | InvalidWager
    | WagerTooLarge
    | NegativeWager
    | InvalidBet

  /**
   * balance: reports the balance, first storing 0 for a user who has never
   * had one.
   */
  method ShowBalance(bank: Ledger, a: Account) returns (coins: int)
    modifies bank`balances
    ensures coins == old(bank.Balance(a)) && bank.Balance(a) == coins
    ensures a in old(bank.balances) ==> bank.balances == old(bank.balances)
    ensures a !in old(bank.balances) ==> bank.balances == old(bank.balances)[a := 0]
  {
    if a !in bank.balances {
      bank.balances := bank.balances[a := 0];
    }
    coins := bank.Balance(a);
  }

  /**
   * pay: a negative amount is refused, so is more than the payer holds
   * (absent reads as 0); otherwise the amount moves from payer to payee.
   */
  method Pay(bank: Ledger, guild: GuildId, payer: UserId, payee: UserId, amount: int)
    returns (r: Result<(), Error>)
    modifies bank`balances
    ensures amount < 0 <==> r == Failure(CannotSteal)
    ensures r == Failure(NotEnoughCoins) <==> 0 <= amount && old(bank.Balance(Account(guild, payer))) < amount
    ensures r.Failure? ==> bank.balances == old(bank.balances)
    ensures r.Success? ==>
      bank.balances == Transfer(old(bank.balances), Account(guild, payer), Account(guild, payee), amount)
    ensures NoDebt(old(bank.balances)) ==> NoDebt(bank.balances)
  {
    var from, to := Account(guild, payer), Account(guild, payee);
    if amount < 0 {
      return Failure(CannotSteal);
    }
    if bank.Balance(from) < amount {
      return Failure(NotEnoughCoins);
    }
    if NoDebt(bank.balances) {
      TransferNoDebt(bank.balances, from, to, amount);
    }
    bank.balances := IncrBy(bank.balances, from, -amount);
    bank.balances := IncrBy(bank.balances, to, amount);
    r := Success(());
  }

  /**
   * buy: the item must have a price in this guild's shop; `amount` of it
   * costs price * amount, which the buyer's balance must cover. The cost is
   * debited and the items credited. The amount is not checked for sign, as
   * in the cog: a negative amount credits coins and debits items.
   */
  method Buy(bank: Ledger, a: Account, item: ItemId, amount: int) returns (r: Result<(), Error>)
    modifies bank`balances, bank`inventories
    ensures (a.guild, item) !in bank.shopPrices <==> r == Failure(NotForSale)
    ensures r == Failure(NotEnoughCoins) <==>
      (a.guild, item) in bank.shopPrices && old(bank.Balance(a)) < bank.shopPrices[(a.guild, item)] * amount
    ensures r.Failure? ==> bank.balances == old(bank.balances) && bank.inventories == old(bank.inventories)
    ensures r.Success? ==>
      var cost := bank.shopPrices[(a.guild, item)] * amount;
      bank.balances == IncrBy(old(bank.balances), a, -cost)
      && bank.inventories == HIncrBy(old(bank.inventories), a, item, amount)
    ensures r.Success? && amount >= 0 && bank.shopPrices[(a.guild, item)] >= 0 ==> bank.Balance(a) >= 0
  {
    var k := (a.guild, item);
    if k !in bank.shopPrices {
      return Failure(NotForSale);
    }
    var cost := bank.shopPrices[k] * amount;
    if bank.Balance(a) < cost {
      return Failure(NotEnoughCoins);
    }
    bank.balances := IncrBy(bank.balances, a, -cost);
    bank.inventories := HIncrBy(bank.inventories, a, item, amount);
    r := Success(());
  }

  /** list: put the item in the guild's shop at the given price (replacing an older price). */
  method List(bank: Ledger, guild: GuildId, item: ItemId, price: int)
    modifies bank`shopItems, bank`shopPrices
    ensures bank.shopItems == SAdd(old(bank.shopItems), guild, item)
    ensures bank.shopPrices == old(bank.shopPrices)[(guild, item) := price]
  {
    bank.shopItems := SAdd(bank.shopItems, guild, item);
    bank.shopPrices := bank.shopPrices[(guild, item) := price];
  }

  /** delist: take the item out of the guild's shop and forget its price. */
  method Delist(bank: Ledger, guild: GuildId, item: ItemId)
    modifies bank`shopItems, bank`shopPrices
    ensures bank.shopItems == SRem(old(bank.shopItems), guild, item)
    ensures bank.shopPrices == old(bank.shopPrices) - {(guild, item)}
  {
    bank.shopItems := SRem(bank.shopItems, guild, item);
    bank.shopPrices := bank.shopPrices - {(guild, item)};
  }

  /** Delisting an item that was not for sale undoes listing it. */
  lemma DelistUndoesList(items: map<GuildId, set<ItemId>>, prices: map<(GuildId, ItemId), int>,
                         guild: GuildId, item: ItemId, price: int)
    requires NoEmptySets(items) && item !in Members(items, guild) && (guild, item) !in prices
    ensures SRem(SAdd(items, guild, item), guild, item) == items
    ensures prices[(guild, item) := price] - {(guild, item)} == prices
  {
    SRemUndoesSAdd(items, guild, item);
  }

  // ---------------------------------------------------------------- roulette

  /** The pockets of a European wheel in wheel order. */
  const Wheel: seq<int> := [0, 32, 15, 19, 4, 21, 2, 25, 17, 34, 6, 27, 13, 36, 11, 30, 8, 23, 10,
                            5, 24, 16, 33, 1, 20, 14, 31, 9, 22, 18, 29, 7, 28, 12, 35, 3, 26]
  const Red: seq<int> := [1, 3, 5, 7, 9, 12, 14, 16, 18, 19, 21, 23, 25, 27, 30, 32, 34, 36]
  const Black: seq<int> := [2, 4, 6, 8, 10, 11, 13, 15, 17, 20, 22, 24, 26, 28, 29, 31, 33, 35]

  /** The six named bets. */
  const BetNames: set<string> := {"red", "black", "even", "odd", "high", "low"}

  /** The wheel holds each of 0..36 exactly once. */
  lemma WheelPockets()
    ensures |Wheel| == 37
    ensures forall n :: n in Wheel <==> 0 <= n <= 36
  {
  }

  /** Red and black split 1..36 into two halves of 18; zero is neither. */
  lemma ColoursPartition()
    ensures |Red| == 18 && |Black| == 18
    ensures forall n :: n in Red ==> 1 <= n <= 36 && n !in Black
    ensures forall n :: 1 <= n <= 36 ==> n in Red || n in Black
  {
    RedByRule();
    BlackByRule();
  }

  /** The usual rule: odd numbers are red in 1..10 and 19..28, even ones in 11..18 and 29..36. */
  predicate RedRule(n: int)
  {
    if 1 <= n <= 10 || 19 <= n <= 28 then n % 2 == 1 else n % 2 == 0
  }

  lemma RedByRule()
    ensures forall n :: n in Red <==> 1 <= n <= 36 && RedRule(n)
  {}
  lemma BlackByRule()
    ensures forall n :: n in Black <==> 1 <= n <= 36 && !RedRule(n)
  {}

  function Colour(ball: int): (c: string)
    ensures c in {"red", "black", "green"}
    ensures 0 <= ball <= 36 ==> (c == "green" <==> ball == 0)
  {
    ColoursPartition();
    if ball in Red then "red" else if ball in Black then "black" else "green"
  }

  function Parity(ball: int): (p: string)
    ensures p in {"none", "even", "odd"}
    ensures p == "even" <==> ball != 0 && ball % 2 == 0
  {
    if ball == 0 then "none" else if ball % 2 == 0 then "even" else "odd"
  }

  function Range(ball: int): (h: string)
    ensures h in {"high", "low", "none"}
    ensures h == "low" <==> 1 <= ball <= 18
  {
    if ball >= 19 then "high" else if ball >= 1 then "low" else "none"
  }

  /** A bet is one of the six names or a number (int(bet)). */
  datatype Bet = Named(name: string) | Number(n: int)

  /** The wager argument: all, none, half (floor division) or an integer. */
  function ParseWager(wager: string, balance: int): (r: Result<int, Error>)
    ensures r.Failure? <==> wager !in {"all", "none", "half"} && ParseInt(wager).None?
    ensures r.Failure? ==> r.error == InvalidWager
    ensures 0 <= balance && wager in {"all", "none", "half"} ==> 0 <= r.value <= balance
  {
    if wager == "all" then Success(balance)
    else if wager == "none" then Success(0)
    else if wager == "half" then Success(balance / 2)
    else match ParseInt(wager)
      case None => Failure(InvalidWager)
      case Some(w) => Success(w)
  }

  /** The bet argument: a name is kept, anything else must be an integer. */
  function ParseBet(bet: string): (r: Result<Bet, Error>)
    ensures r.Success? && r.value.Named? <==> bet in BetNames
    ensures r.Failure? <==> bet !in BetNames && ParseInt(bet).None?
    ensures r.Failure? ==> r.error == InvalidBet
  {
    if bet in BetNames then Success(Named(bet))
    else match ParseInt(bet)
      case None => Failure(InvalidBet)
      case Some(n) => Success(Number(n))
  }

  /**
   * The checks made before the wheel spins, in the cog's order: the wager
   * parses, is at most the balance, is not negative, and the bet parses.
   */
  function Stake(balance: int, wager: string, bet: string): (r: Result<(int, Bet), Error>)
    ensures r.Success? <==>
      ParseWager(wager, balance).Success? && 0 <= ParseWager(wager, balance).value <= balance
      && ParseBet(bet).Success?
    ensures r.Success? ==> r.value == (ParseWager(wager, balance).value, ParseBet(bet).value)
    ensures r == Failure(WagerTooLarge) <==>
      ParseWager(wager, balance).Success? && ParseWager(wager, balance).value > balance
  {
    match ParseWager(wager, balance)
    case Failure(e) => Failure(e)
    case Success(w) =>
      if w > balance then Failure(WagerTooLarge)
      else if w < 0 then Failure(NegativeWager)
      else match ParseBet(bet)
        case Failure(e) => Failure(e)
        case Success(b) => Success((w, b))
  }

  /** What the table pays back for a wager on a bet when the ball lands on `ball`. */
  function Winnings(bet: Bet, wager: int, ball: int): int
  {
    if bet == Named(Colour(ball)) then wager * 2
    else if bet == Named(Parity(ball)) then wager * 2
    else if bet == Named(Range(ball)) then wager * 2
    else if bet == Number(ball) then wager * 36
    else 0
  }

  /** When a bet wins, stated pocket by pocket rather than through the ball's labels. */
  predicate Wins(bet: Bet, ball: int)
  {
    match bet
    case Number(n) => n == ball
    case Named(name) =>
      (name == "red" && ball in Red) || (name == "black" && ball in Black)
      || (name == "even" && ball != 0 && ball % 2 == 0) || (name == "odd" && ball % 2 == 1)
      || (name == "high" && 19 <= ball) || (name == "low" && 1 <= ball <= 18)
  }

  /** The bets ParseBet produces: a number, or one of the six names. */
  predicate ValidBet(bet: Bet)
  {
    bet.Named? ==> bet.name in BetNames
  }

  /**
   * For every pocket of the wheel, a winning named bet pays twice the wager, a
   * winning number 36 times, and a losing bet nothing.
   */
  lemma WinningsPayout(bet: Bet, wager: int, ball: int)
    requires ValidBet(bet) && 0 <= ball <= 36
    ensures Winnings(bet, wager, ball) ==
      if !Wins(bet, ball) then 0 else if bet.Named? then 2 * wager else 36 * wager
  {
    ColoursPartition();
    match bet
    case Number(n) =>
      assert Colour(ball) in {"red", "black", "green"};
    case Named(name) =>
      var c, p, h := Colour(ball), Parity(ball), Range(ball);
      if name == "red" || name == "black" {
        assert p != name && h != name;
        assert c == name <==> Wins(bet, ball);
      } else if name == "even" || name == "odd" {
        assert c != name && h != name;
        assert p == name <==> Wins(bet, ball);
      } else {
        assert c != name && p != name;
        assert h == name <==> Wins(bet, ball);
      }
  }

  /** Zero loses every named bet: green, "none" parity and "none" range are not bets. */
  lemma ZeroLosesNamedBets(bet: Bet, wager: int)
    requires ValidBet(bet) && bet.Named?
    ensures Winnings(bet, wager, 0) == 0
  {
    assert Colour(0) == "green" && Parity(0) == "none" && Range(0) == "none";
  }

  /**
   * roulette: the balance must exist; after the stake checks the wager is
   * debited, the ball (the random choice, a parameter here) lands in a
   * pocket and the winnings are credited. The result is the winnings.
   * The ball is a pocket of the wheel, which by WheelPockets is a number
   * from 0 to 36.
   */
  method Roulette(bank: Ledger, a: Account, bet: string, wager: string, ball: int)
    returns (r: Result<int, Error>)
    requires 0 <= ball <= 36
    modifies bank`balances
    ensures a !in old(bank.balances) <==> r == Failure(NoBalance)
    ensures a in old(bank.balances) ==>
      var stake := Stake(old(bank.balances[a]), wager, bet);
      if stake.Failure? then r == Failure(stake.error)
      else r == Success(Winnings(stake.value.1, stake.value.0, ball))
    ensures r.Failure? ==> bank.balances == old(bank.balances)
    ensures r.Success? ==>
      var w := Stake(old(bank.balances[a]), wager, bet).value.0;
      bank.balances == old(bank.balances)[a := old(bank.balances[a]) - w + r.value]
      && bank.Balance(a) >= 0
  {
    if a !in bank.balances {
      return Failure(NoBalance);
    }
    var balance := bank.balances[a];
    var stake := Stake(balance, wager, bet);
    if stake.Failure? {
      return Failure(stake.error);
    }
    var w, b := stake.value.0, stake.value.1;
    var winnings := Winnings(b, w, ball);
    Settle(bank, a, w, winnings);
    r := Success(winnings);
  }

  /** The two balance updates of a spin: the wager is debited, then the winnings credited. */
  method Settle(bank: Ledger, a: Account, w: int, winnings: int)
    requires a in bank.balances && 0 <= w <= bank.balances[a] && 0 <= winnings
    modifies bank`balances
    ensures bank.balances == old(bank.balances)[a := old(bank.balances[a]) - w + winnings]
    ensures bank.Balance(a) >= 0
  {
    IncrByTwice(bank.balances, a, -w, winnings);
    bank.balances := IncrBy(bank.balances, a, -w);
    bank.balances := IncrBy(bank.balances, a, winnings);
  }
}
