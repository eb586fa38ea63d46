/** Backtest runs of one asset that can be followed hour by hour: nothing but micro-rebalances buys, and nothing
    but the stop and the target sells. */
module Samples {
  import opened Wrappers
  import opened Arithmetic
  import opened Ladder
  import opened Metrics
  import opened Portfolios
  import opened Champion
  import opened Backtest

  const TOKEN: Asset := "WBNB"

  // At this price a buy fills at 1.
  const PAID: real := 1.0 / 1.003

  // What is bought at every `cadence` hours, and the moves in percent at which it is sold.
  datatype Script = Script(stake: real, stop: real, profit: real, cadence: nat)

  function ConfigOf(p: Script): Config {
    Config([TOKEN], [0], true, 4.0, 0.03, 0.01, 0.0, p.stop, p.profit, 1000, [], p.stake, 0.001, 0.0, p.cadence)
  }

  function FeedOf(prices: seq<real>): Feed {
    Feed(map[TOKEN := prices], map[])
  }

  function MarketOf(prices: seq<real>, h: nat): Market
    requires h < |prices|
  {
    Market(h, map[TOKEN := prices[h]], map[TOKEN := prices[..h + 1]], map[])
  }

  lemma MarketShown(prices: seq<real>, h: nat)
    requires h < |prices|
    ensures Covers(FeedOf(prices), h) && MarketAt(FeedOf(prices), h) == MarketOf(prices, h)
    ensures NonNegative(prices) ==> Tradable(MarketOf(prices, h))
    ensures MarketOf(prices, h).prices.Keys == FeedOf(prices).series.Keys == {TOKEN}
  {
    var m := MarketAt(FeedOf(prices), h);
    assert m.prices == map[TOKEN := prices[h]] && m.history == map[TOKEN := prices[..h + 1]] && m.vol == map[];
  }

  function Empty(cash: real, trades: nat): Account {
    Account(cash, map[], map[], map[], trades)
  }

  function Invested(cash: real, x: real, since: int, trades: nat): Account {
    Account(cash, map[TOKEN := x], map[TOKEN := 1.0], map[TOKEN := since], trades)
  }

  lemma ValueOfStake(x: real, prices: seq<real>, h: nat)
    requires h < |prices| && x > 0.0
    ensures RiskyValue(map[TOKEN := x], MarketOf(prices, h).prices) == Product(x, prices[h])
    ensures Get(MarketOf(prices, h).prices, TOKEN) == prices[h]
  {
    var qty: map<Asset, real> := map[TOKEN := x];
    ValueSplits(qty, MarketOf(prices, h).prices, TOKEN);
    assert qty - {TOKEN} == map[];
    NoValue(MarketOf(prices, h).prices);
  }

  lemma NothingHeld(a: Account, prices: Prices)
    requires a.qty == map[]
    ensures RiskyValue(a.qty, prices) == 0.0 && ExposureOf(a, prices) == 0.0 && Nav(a, prices) == a.cash
  {
    NoValue(prices);
  }

  // ---------------------------------------------------------------- decisions

  lemma OneExit(p: Script, m: Market, a: Account)
    ensures var reason := ExitReason(ConfigOf(p), m, a, TOKEN);
            FirstExit(ConfigOf(p), m, a, ConfigOf(p).universe)
            == if reason != NoReason then Some(Intent(Sell, TOKEN, 1.0, reason)) else None
  {
    hide ExitReason;
    assert [TOKEN][1..] == [];
  }

  lemma NoLadder(drawdown: real)
    ensures LadderState([], drawdown) == NoRung
  {
  }

  // With no ladder, no exit and no room for an entry, what is left is the micro-rebalance.
  lemma OnlyMicro(p: Script, m: Market, b: Book)
    requires p.cadence > 0
    requires ExitReason(ConfigOf(p), m, b.account, TOKEN) == NoReason && ExposureOf(b.account, m.prices) >= 0.0
    ensures Choice(ConfigOf(p), m, b) == MicroIntent(ConfigOf(p), m, b.account, NoRung)
  {
    hide ExitReason, ExposureOf, LadderState, MicroIntent, Strongest, Qualifying;
    NoLadder(LastDrop(b));
    OneExit(p, m, b.account);
  }

  lemma Holds(p: Script, m: Market, b: Book)
    requires p.cadence > 0
    requires ExitReason(ConfigOf(p), m, b.account, TOKEN) == NoReason && ExposureOf(b.account, m.prices) >= 0.0
    requires m.hour % p.cadence != 0 || m.hour == 0 || ExposureOf(b.account, m.prices) >= 0.001
    ensures Choice(ConfigOf(p), m, b) == HOLD
  {
    hide ExitReason, ExposureOf, Choice, Strongest, Followed;
    OnlyMicro(p, m, b);
  }

  lemma Sells(p: Script, m: Market, b: Book)
    requires p.cadence > 0 && ExitReason(ConfigOf(p), m, b.account, TOKEN) != NoReason
    ensures Choice(ConfigOf(p), m, b) == Intent(Sell, TOKEN, 1.0, ExitReason(ConfigOf(p), m, b.account, TOKEN))
  {
    hide ExitReason, LadderState, FirstExit;
    OneExit(p, m, b.account);
    NoLadder(LastDrop(b));
  }

  lemma Buys(p: Script, prices: seq<real>, h: nat, b: Book)
    requires p.cadence > 0 && 0 < h < |prices| && h % p.cadence == 0
    requires b.account.qty == map[] && b.account.cash >= p.stake
    ensures Choice(ConfigOf(p), MarketOf(prices, h), b) == Intent(Buy, TOKEN, p.stake, MicroRebalance)
  {
    hide Choice, ExposureOf, Strongest, Followed;
    var m := MarketOf(prices, h);
    NothingHeld(b.account, m.prices);
    OnlyMicro(p, m, b);
    OnlyFollowed(p, prices, h);
  }

  lemma OnlyFollowed(p: Script, prices: seq<real>, h: nat)
    requires p.cadence > 0 && h < |prices|
    ensures var cfg, m := ConfigOf(p), MarketOf(prices, h);
            Strongest(cfg, m, Followed(cfg, m, cfg.universe)) == Some(TOKEN)
  {
    hide Score;
    assert [TOKEN][..0] == [];
    assert Followed(ConfigOf(p), MarketOf(prices, h), [TOKEN]) == [TOKEN];
  }

  lemma ExitWhenInvested(p: Script, prices: seq<real>, h: nat, cash: real, x: real, since: int, trades: nat)
    requires h < |prices| && x > 0.0 && h - since < 1000
    ensures ExitReason(ConfigOf(p), MarketOf(prices, h), Invested(cash, x, since, trades), TOKEN)
         == if prices[h] <= 1.0 - p.stop / 100.0 then StopLoss
            else if prices[h] >= 1.0 + p.profit / 100.0 then TakeProfit
            else NoReason
  {
  }

  // ---------------------------------------------------------------- fills

  lemma StakeFilled(cash: real, x: real, hour: int, trades: nat)
    requires x > 0.0 && cash >= 1.0025 * x
    ensures BuyFills(Empty(cash, trades), x, PAID, COSTS)
    ensures Bought(Empty(cash, trades), TOKEN, x, PAID, hour, COSTS) == Invested(cash - 1.0025 * x, x, hour, trades + 1)
  {
    hide AverageEntry;
    assert BuyPrice(PAID, COSTS) == 1.0;
  }

  // What is left of a dollar sold, after slippage and fee.
  const NET: real := 0.997 * 0.9975

  lemma SaleCloses(cash: real, x: real, since: int, trades: nat, q: real)
    requires x > 0.0 && q > 0.0
    ensures SellFills(Invested(cash, x, since, trades), TOKEN, 1.0, q)
    ensures Sold(Invested(cash, x, since, trades), TOKEN, 1.0, q, COSTS)
         == Empty(cash + NET * Product(q, x), trades + 1)
  {
    var a := Invested(cash, x, since, trades);
    FullSale(a, TOKEN, q, COSTS);
    NetOf(x, q);
    hide Proceeds, SoldQty, Product;
    assert map[TOKEN := x] - {TOKEN} == map[] && map[TOKEN := 1.0] - {TOKEN} == map[];
    assert map[TOKEN := since] - {TOKEN} == map[];
  }

  lemma NetOf(x: real, q: real)
    requires x > 0.0
    ensures Worth(x, SellPrice(q, COSTS) - Fee(SellPrice(q, COSTS), COSTS)) == NET * Product(q, x)
  {
    assert SellPrice(q, COSTS) - Fee(SellPrice(q, COSTS), COSTS) == q * 0.997 * 0.9975;
    assert x * (q * 0.997 * 0.9975) == 0.997 * 0.9975 * (q * x);
  }

  // ---------------------------------------------------------------- re-decisions

  lemma EndsOnHold(t: Tracked, cfg: Config, m: Market, n: nat)
    requires Usable(cfg) && Tradable(m) && Healthy(m.prices.Keys, t.book.account) && n > 0
    requires Choice(cfg, m, Cooled(t.book, m)) == HOLD
    ensures Redecided(t, cfg, m, n) == Tracked(Cooled(t.book, m), t.rebased || Rebaselines(t.book, m))
  {
    hide Choice, Cooled, Rebaselines, Tradable, Healthy;
  }

  lemma GoesOnAfterTrade(t: Tracked, cfg: Config, m: Market, n: nat)
    requires Usable(cfg) && Tradable(m) && Healthy(m.prices.Keys, t.book.account) && n > 0
    requires var cooled := Cooled(t.book, m); var intent := Choice(cfg, m, cooled);
             intent.action != Hold && Executes(cooled.account, intent, m)
    ensures var cooled := Cooled(t.book, m);
            var a := After(cooled.account, OpOf(Choice(cfg, m, cooled), m), m.prices, COSTS);
            && Healthy(m.prices.Keys, a)
            && Redecided(t, cfg, m, n)
               == Redecided(Tracked(cooled.(account := a), t.rebased || Rebaselines(t.book, m)), cfg, m, n - 1)
  {
    hide Choice, Cooled, Rebaselines, Tradable, Nav, After, Executes;
    CoolingKeepsAccount(t.book, m);
    TradeKeepsHealthy(cfg, m, Cooled(t.book, m));
  }

  // A mark at or below the high-water mark.
  lemma MarkBelow(b: Book, prices: Prices)
    requires Nav(b.account, prices) <= b.hwm
    ensures var n := Nav(b.account, prices);
            Marked(b, prices)
            == b.(navs := b.navs + [n], drops := b.drops + [DropAt(Some(b.hwm), n)],
                  hoursInMarket := b.hoursInMarket + if RiskyValue(b.account.qty, prices) > FLAT then 1 else 0)
  {
    hide RiskyValue, Nav, DropAt;
  }

  // ---------------------------------------------------------------- the kinds of hours

  lemma AccountsHealthy(cash: real, x: real, since: int, trades: nat)
    requires cash >= 0.0 && x > 0.0
    ensures Healthy({TOKEN}, Empty(cash, trades)) && Healthy({TOKEN}, Invested(cash, x, since, trades))
  {
  }

  function Idled(b: Book, h: nat): Book {
    b.(navs := b.navs + [b.account.cash],
       drops := b.drops + [DropAt(Some(b.hwm), b.account.cash)],
       flatSince := if b.flatSince.None? then Some(h) else b.flatSince)
  }

  /** An hour with nothing held and nothing to buy. */
  lemma IdleHour(p: Script, prices: seq<real>, h: nat, t: Tracked)
    requires p.cadence > 0 && h < |prices| && NonNegative(prices) && (!Due(p, h) || h == 0)
    requires t.book.account == Empty(t.book.account.cash, t.book.account.trades)
    requires 0.0 <= t.book.account.cash <= t.book.hwm
    requires !Rebaselines(t.book, MarketOf(prices, h))
    ensures Tradable(MarketOf(prices, h)) && Healthy(MarketOf(prices, h).prices.Keys, t.book.account)
    ensures AfterHour(t, ConfigOf(p), MarketOf(prices, h)) == Tracked(Idled(t.book, h), t.rebased)
  {
    hide Choice, RiskyValue, ExposureOf, Nav, DropAt, Rebaselines, Redecided;
    var m, a := MarketOf(prices, h), t.book.account;
    MarketShown(prices, h);
    AccountsHealthy(a.cash, 1.0, 0, a.trades);
    NothingHeld(a, m.prices);
    Holds(p, m, Cooled(t.book, m));
    EndsOnHold(t, ConfigOf(p), m, MAX_TRADES_PER_HOUR);
    MarkBelow(Cooled(t.book, m), m.prices);
  }

  // The book right after the purchase of hour `h`.
  ghost function JustBought(p: Script, prices: seq<real>, h: nat, t: Tracked, cash: real, trades: nat): Book
    requires h < |prices|
  {
    Cooled(t.book, MarketOf(prices, h)).(account := Invested(cash - 1.0025 * p.stake, p.stake, h, trades + 1))
  }

  ghost predicate Purchasable(p: Script, prices: seq<real>, h: nat, t: Tracked, cash: real, trades: nat) {
    && p.cadence > 0 && 0 < h < |prices| && NonNegative(prices) && Due(p, h) && prices[h] == PAID
    && t.book.account == Empty(cash, trades) && p.stake > 0.0 && cash >= 1.0025 * p.stake
    && p.stake >= 0.0015 * cash && 1.0 - p.stop / 100.0 < PAID < 1.0 + p.profit / 100.0
    && !Rebaselines(JustBought(p, prices, h, t, cash, trades), MarketOf(prices, h))
  }

  // The end of that hour.
  ghost function Purchased(p: Script, prices: seq<real>, h: nat, t: Tracked, cash: real, trades: nat): Tracked
    requires h < |prices|
  {
    var m := MarketOf(prices, h);
    Tracked(Marked(Cooled(JustBought(p, prices, h, t, cash, trades), m), m.prices), t.rebased || Rebaselines(t.book, m))
  }

  /** An hour with a purchase, after which the book holds. */
  lemma PurchaseHour(p: Script, prices: seq<real>, h: nat, t: Tracked, cash: real, trades: nat)
    requires h < |prices| && Purchasable(p, prices, h, t, cash, trades)
    ensures Tradable(MarketOf(prices, h)) && Healthy(MarketOf(prices, h).prices.Keys, t.book.account)
    ensures AfterHour(t, ConfigOf(p), MarketOf(prices, h)) == Purchased(p, prices, h, t, cash, trades)
  {
    hide Choice, RiskyValue, ExposureOf, Bought, BuyFills, Rebaselines, Redecided, Cooled, ExitReason;
    var m, cfg := MarketOf(prices, h), ConfigOf(p);
    MarketShown(prices, h);
    AccountsHealthy(cash, p.stake, h, trades);
    CoolingKeepsAccount(t.book, m);
    Buys(p, prices, h, Cooled(t.book, m));
    StakeFilled(cash, p.stake, h, trades);
    GoesOnAfterTrade(t, cfg, m, 4);
    var bought := Cooled(t.book, m).(account := Invested(cash - 1.0025 * p.stake, p.stake, h, trades + 1));
    CoolingKeepsAccount(bought, m);
    EnoughInvested(p, prices, h, cash, trades);
    Holds(p, m, Cooled(bought, m));
    EndsOnHold(Tracked(bought, t.rebased || Rebaselines(t.book, m)), cfg, m, 3);
  }

  lemma EnoughInvested(p: Script, prices: seq<real>, h: nat, cash: real, trades: nat)
    requires h < |prices| && prices[h] == PAID
    requires p.stake > 0.0 && cash >= 1.0025 * p.stake && p.stake >= 0.0015 * cash
    requires 1.0 - p.stop / 100.0 < PAID < 1.0 + p.profit / 100.0
    ensures var a, m := Invested(cash - 1.0025 * p.stake, p.stake, h, trades + 1), MarketOf(prices, h);
            && RiskyValue(a.qty, m.prices) == Product(p.stake, PAID) == p.stake / 1.003
            && ExposureOf(a, m.prices) >= 0.001
            && ExitReason(ConfigOf(p), m, a, TOKEN) == NoReason
  {
    ValueOfStake(p.stake, prices, h);
    hide RiskyValue;
    AtLeastShare(p.stake / 1.003, cash - 1.0025 * p.stake + p.stake / 1.003);
  }

  lemma AtLeastShare(risk: real, nav: real)
    requires nav > 0.0 && risk >= 0.001 * nav
    ensures risk / nav >= 0.001
  {
    Quotient(risk, nav);
    Gap(0.001 - risk / nav, nav);
    Spread(0.001, risk / nav, nav);
  }

  // A holding of `x` units, bought in hour `since`, and the cash and the trades at that time.
  datatype Stock = Stock(cash: real, x: real, since: int, trades: nat)

  ghost function JustSold(prices: seq<real>, h: nat, t: Tracked, k: Stock): Book
    requires h < |prices|
  {
    Cooled(t.book, MarketOf(prices, h)).(account := Empty(k.cash + NET * Product(prices[h], k.x), k.trades + 1))
  }

  ghost predicate Salable(p: Script, prices: seq<real>, h: nat, t: Tracked, k: Stock) {
    && p.cadence > 0 && h < |prices| && NonNegative(prices) && !Due(p, h) && prices[h] > 0.0
    && t.book.account == Invested(k.cash, k.x, k.since, k.trades) && k.x > 0.0 && k.cash >= 0.0 && h - k.since < 1000
    && (prices[h] <= 1.0 - p.stop / 100.0 || prices[h] >= 1.0 + p.profit / 100.0)
    && !Rebaselines(JustSold(prices, h, t, k), MarketOf(prices, h))
  }

  ghost function SoldOut(prices: seq<real>, h: nat, t: Tracked, k: Stock): Tracked
    requires h < |prices|
  {
    var m := MarketOf(prices, h);
    Tracked(Marked(Cooled(JustSold(prices, h, t, k), m), m.prices), t.rebased || Rebaselines(t.book, m))
  }

  /** An hour in which the holding is sold, after which the book holds. */
  lemma SaleHour(p: Script, prices: seq<real>, h: nat, t: Tracked, k: Stock)
    requires h < |prices| && Salable(p, prices, h, t, k)
    ensures Tradable(MarketOf(prices, h)) && Healthy(MarketOf(prices, h).prices.Keys, t.book.account)
    ensures AfterHour(t, ConfigOf(p), MarketOf(prices, h)) == SoldOut(prices, h, t, k)
  {
    hide Choice, ExposureOf, Sold, SellFills, Rebaselines, Redecided, Cooled, ExitReason, Product, Nav, Marked,
      Tradable, Healthy, NonNegative, RiskyValue;
    var m, cfg := MarketOf(prices, h), ConfigOf(p);
    var sold := JustSold(prices, h, t, k);
    MarketShown(prices, h);
    SaleGoesOn(p, prices, h, t, k);
    CoolingKeepsAccount(sold, m);
    NothingHeld(sold.account, m.prices);
    NoExitWhenEmpty(p, m, sold.account.cash, k.trades + 1);
    Holds(p, m, Cooled(sold, m));
    EndsOnHold(Tracked(sold, t.rebased || Rebaselines(t.book, m)), cfg, m, 3);
  }

  lemma SaleGoesOn(p: Script, prices: seq<real>, h: nat, t: Tracked, k: Stock)
    requires h < |prices| && Salable(p, prices, h, t, k)
    ensures var m, sold := MarketOf(prices, h), JustSold(prices, h, t, k);
            && Tradable(m) && Healthy(m.prices.Keys, t.book.account) && Healthy(m.prices.Keys, sold.account)
            && Redecided(t, ConfigOf(p), m, MAX_TRADES_PER_HOUR)
               == Redecided(Tracked(sold, t.rebased || Rebaselines(t.book, m)), ConfigOf(p), m, 3)
  {
    hide Choice, ExposureOf, Sold, SellFills, Rebaselines, Redecided, Cooled, ExitReason, Product, Nav, Marked,
      RiskyValue;
    var m := MarketOf(prices, h);
    MarketShown(prices, h);
    AccountsHealthy(k.cash, k.x, k.since, k.trades);
    CoolingKeepsAccount(t.book, m);
    ExitWhenInvested(p, prices, h, k.cash, k.x, k.since, k.trades);
    Sells(p, m, Cooled(t.book, m));
    SaleCloses(k.cash, k.x, k.since, k.trades, prices[h]);
    GoesOnAfterTrade(t, ConfigOf(p), m, 4);
  }

  lemma NoExitWhenEmpty(p: Script, m: Market, cash: real, trades: nat)
    ensures ExitReason(ConfigOf(p), m, Empty(cash, trades), TOKEN) == NoReason
  {
  }

  // ---------------------------------------------------------------- runs of consecutive hours

  function RunOf(p: Script, prices: seq<real>, initial: real, n: nat): Run {
    Run(ConfigOf(p), FeedOf(prices), initial, Range(n))
  }

  predicate Ready(p: Script, prices: seq<real>, initial: real, n: nat) {
    p.cadence > 0 && NonNegative(prices) && n <= |prices| && initial >= 0.0
  }

  lemma ReadyRuns(p: Script, prices: seq<real>, initial: real, n: nat)
    requires Ready(p, prices, initial, n)
    ensures Runs(RunOf(p, prices, initial, n))
  {
  }

  /** The run over hours 0 to `n` - 1 ends in `t`. */
  ghost predicate Reaches(p: Script, prices: seq<real>, initial: real, n: nat, t: Tracked) {
    Ready(p, prices, initial, n) && Runs(RunOf(p, prices, initial, n)) && Outcome(RunOf(p, prices, initial, n)) == t
  }

  lemma Begins(p: Script, prices: seq<real>, initial: real)
    requires Ready(p, prices, initial, 0)
    ensures Reaches(p, prices, initial, 0, Start(initial))
  {
    ReadyRuns(p, prices, initial, 0);
  }

  // The next hour of a run.
  lemma NextHour(p: Script, prices: seq<real>, initial: real, h: nat, t: Tracked)
    requires Ready(p, prices, initial, h + 1) && Reaches(p, prices, initial, h, t)
    ensures Tradable(MarketOf(prices, h)) && Healthy(MarketOf(prices, h).prices.Keys, t.book.account)
    ensures Reaches(p, prices, initial, h + 1, AfterHour(t, ConfigOf(p), MarketOf(prices, h)))
  {
    hide AfterHour, Outcome, Runs, Healthy;
    ReadyRuns(p, prices, initial, h);
    ReadyRuns(p, prices, initial, h + 1);
    MarketShown(prices, h);
    HourAppends(RunOf(p, prices, initial, h), h);
  }

  function Even(n: nat, v: real): (r: seq<real>)
    ensures |r| == n && forall i | 0 <= i < n :: r[i] == v
  {
    if n == 0 then [] else Even(n - 1, v) + [v]
  }

  function IdledUntil(b: Book, n: nat): Book {
    b.(navs := b.navs + Even(n, b.account.cash), drops := b.drops + Even(n, DropAt(Some(b.hwm), b.account.cash)))
  }

  predicate Due(p: Script, h: nat)
    requires p.cadence > 0
  {
    h % p.cadence == 0
  }

  // The book `b`, flat since before hour `from`, meets no re-baseline and no purchase up to hour `to`.
  predicate Quiet(p: Script, b: Book, from: nat, to: nat) {
    && p.cadence > 0
    && b.account == Empty(b.account.cash, b.account.trades) && 0.0 <= b.account.cash <= b.hwm
    && b.flatSince.Some? && from <= to
    && (to - 1 - b.flatSince.value < FLAT_COOLDOWN_H
        || (LastDrop(b) <= 0.5 && DropAt(Some(b.hwm), b.account.cash) <= 0.5))
    && (forall h: nat | from <= h < to :: !Due(p, h))
  }

  lemma QuietStays(p: Script, prices: seq<real>, b: Book, from: nat, n: nat)
    requires n > 0 && Quiet(p, b, from, from + n) && from + n - 1 < |prices|
    ensures Quiet(p, b, from, from + n - 1) && p.cadence > 0 && !Due(p, from + n - 1)
    ensures var c := IdledUntil(b, n - 1);
            && c.account == Empty(c.account.cash, c.account.trades) && 0.0 <= c.account.cash <= c.hwm
            && !Rebaselines(c, MarketOf(prices, from + n - 1)) && Idled(c, from + n - 1) == IdledUntil(b, n)
  {
    hide RiskyValue, DropAt, Due;
  }

  lemma NotYetIdled(b: Book)
    ensures IdledUntil(b, 0) == b
  {
    hide DropAt;
    assert b.navs + [] == b.navs && b.drops + [] == b.drops;
  }

  lemma OneMoreIdle(p: Script, prices: seq<real>, initial: real, h: nat, t: Tracked)
    requires Ready(p, prices, initial, h + 1) && Reaches(p, prices, initial, h, t) && (!Due(p, h) || h == 0)
    requires t.book.account == Empty(t.book.account.cash, t.book.account.trades)
    requires 0.0 <= t.book.account.cash <= t.book.hwm
    requires !Rebaselines(t.book, MarketOf(prices, h))
    ensures Reaches(p, prices, initial, h + 1, Tracked(Idled(t.book, h), t.rebased))
  {
    hide Reaches, AfterHour, Rebaselines, Idled, Due;
    NextHour(p, prices, initial, h, t);
    IdleHour(p, prices, h, t);
  }

  lemma ReadySooner(p: Script, prices: seq<real>, initial: real, h: nat)
    requires Ready(p, prices, initial, h + 1)
    ensures Ready(p, prices, initial, h) && p.cadence > 0 && h < |prices|
  {
  }

  /** Quiet hours repeat the same mark. */
  lemma {:induction false} IdleHours(p: Script, prices: seq<real>, initial: real, from: nat, n: nat, t: Tracked)
    requires Ready(p, prices, initial, from + n) && Quiet(p, t.book, from, from + n)
    requires Reaches(p, prices, initial, from, t)
    ensures Reaches(p, prices, initial, from + n, Tracked(IdledUntil(t.book, n), t.rebased))
    decreases n
  {
    hide *;
    if n == 0 {
      NotYetIdled(t.book);
    } else {
      var h := from + n - 1;
      ReadySooner(p, prices, initial, h);
      QuietStays(p, prices, t.book, from, n);
      IdleHours(p, prices, initial, from, n - 1, t);
      OneMoreIdle(p, prices, initial, h, Tracked(IdledUntil(t.book, n - 1), t.rebased));
    }
  }
}
