/** Backtest accounting: cash and positions under fees and slippage (backtest/portfolio.py). */
module Portfolios {
  import opened Wrappers
  import opened Arithmetic
  import opened Metrics

  type Asset = string
  type Prices = map<Asset, real>

  // Basis points charged on every fill.
  datatype Costs = Costs(feeBps: real, slipBps: real)

  datatype Account = Account(
    cash: real, qty: map<Asset, real>, entryPrice: map<Asset, real>, entryHour: map<Asset, int>, trades: nat)

  // Quantities at or below this are dropped from the book.
  const DUST: real := 0.000000000001

  predicate Realistic(c: Costs) {
    0.0 <= c.feeBps <= 10000.0 && 0.0 <= c.slipBps <= 10000.0
  }

  /** The three dictionaries have the same keys, and only positive quantities are held. */
  ghost predicate Consistent(a: Account) {
    && a.qty.Keys == a.entryPrice.Keys && a.qty.Keys == a.entryHour.Keys
    && forall k | k in a.qty :: a.qty[k] > 0.0
  }

  function Min(x: real, y: real): real {
    if y < x then y else x
  }

  function Get(m: Prices, k: Asset): real {
    if k in m then m[k] else 0.0
  }

  function Worth(qty: real, price: real): real {
    if qty > 0.0 then Product(qty, price) else 0.0
  }

  ghost function RiskyValue(qty: map<Asset, real>, prices: Prices): real
    decreases |qty|
  {
    if qty == map[] then 0.0
    else
      var k :| k in qty;
      Worth(qty[k], Get(prices, k)) + RiskyValue(qty - {k}, prices)
  }

  lemma NoValue(prices: Prices)
    ensures RiskyValue(map[], prices) == 0.0
  {
  }

  ghost function Nav(a: Account, prices: Prices): real {
    a.cash + RiskyValue(a.qty, prices)
  }

  /** A sum over a book can be taken from any of its assets first. */
  lemma {:induction false} ValueSplits(qty: map<Asset, real>, prices: Prices, k: Asset)
    requires k in qty
    ensures RiskyValue(qty, prices) == Worth(qty[k], Get(prices, k)) + RiskyValue(qty - {k}, prices)
    decreases |qty|
  {
    hide Worth;
    var j :| j in qty && RiskyValue(qty, prices) == Worth(qty[j], Get(prices, j)) + RiskyValue(qty - {j}, prices);
    if j != k {
      ValueSplits(qty - {j}, prices, k);
      ValueSplits(qty - {k}, prices, j);
      assert qty - {j} - {k} == qty - {k} - {j};
    }
  }

  lemma ValueAfterUpdate(qty: map<Asset, real>, prices: Prices, k: Asset, q: real)
    ensures RiskyValue(qty[k := q], prices) == Worth(q, Get(prices, k)) + RiskyValue(qty - {k}, prices)
    ensures RiskyValue(qty, prices)
         == (if k in qty then Worth(qty[k], Get(prices, k)) else 0.0) + RiskyValue(qty - {k}, prices)
  {
    hide Worth;
    ValueSplits(qty[k := q], prices, k);
    assert qty[k := q] - {k} == qty - {k};
    if k in qty {
      ValueSplits(qty, prices, k);
    } else {
      assert qty - {k} == qty;
    }
  }

  predicate NonNegativePrices(prices: Prices) {
    forall k | k in prices :: prices[k] >= 0.0
  }

  lemma {:induction false} ValueNonNegative(qty: map<Asset, real>, prices: Prices)
    requires NonNegativePrices(prices)
    ensures RiskyValue(qty, prices) >= 0.0
    decreases |qty|
  {
    if qty != map[] {
      var k :| k in qty;
      ValueSplits(qty, prices, k);
      ValueNonNegative(qty - {k}, prices);
      if qty[k] > 0.0 {
        assert Get(prices, k) >= 0.0;
        assert qty[k] * Get(prices, k) >= 0.0;
      }
    }
  }

  // ---------------------------------------------------------------- buying

  function BuyPrice(price: real, c: Costs): real {
    price * (1.0 + c.slipBps / 10000.0)
  }

  function Fee(notional: real, c: Costs): real {
    notional * c.feeBps / 10000.0
  }

  // The notional committed: what was asked for, within cash, and leaving room for the fee.
  function Spend(cash: real, usd: real, c: Costs): real {
    var gross := Min(usd, cash);
    var fee := Fee(gross, c);
    if gross + fee > cash then Max(0.0, cash - fee) else gross
  }

  lemma SpendUnfolds(cash: real, usd: real, c: Costs)
    ensures var gross := Min(usd, cash);
            Spend(cash, usd, c) == if gross + Fee(gross, c) > cash then Max(0.0, cash - Fee(gross, c)) else gross
  {
  }

  predicate BuyFills(a: Account, usd: real, price: real, c: Costs) {
    price > 0.0 && usd > 0.0 && Min(usd, a.cash) > 0.0 && Spend(a.cash, usd, c) > 0.0
  }

  function Held(a: Account, asset: Asset): real {
    if asset in a.qty then a.qty[asset] else 0.0
  }

  lemma HeldNonNegative(a: Account, asset: Asset)
    requires Consistent(a)
    ensures Held(a, asset) >= 0.0 && (Held(a, asset) > 0.0 ==> asset in a.entryPrice)
  {
  }

  function AverageEntry(entry: real, held: real, price: real, qty: real): real
    requires held + qty != 0.0
  {
    (Product(entry, held) + Product(price, qty)) / (held + qty)
  }

  lemma FillPositive(spend: real, price: real, c: Costs)
    requires spend > 0.0 && price > 0.0 && c.slipBps > -10000.0
    ensures BuyPrice(price, c) > 0.0 && spend / BuyPrice(price, c) > 0.0
  {
    Gap(1.0 + c.slipBps / 10000.0, price);
    QuotientPositive(spend, BuyPrice(price, c));
  }

  lemma QuotientPositive(x: real, y: real)
    requires x > 0.0 && y > 0.0
    ensures x / y > 0.0
  {
  }

  ghost function Bought(a: Account, asset: Asset, usd: real, price: real, hour: int, c: Costs): Account
    requires Consistent(a) && c.slipBps > -10000.0
  {
    if !BuyFills(a, usd, price, c) then a
    else
      FillPositive(Spend(a.cash, usd, c), price, c);
      var fill, spend, held := BuyPrice(price, c), Spend(a.cash, usd, c), Held(a, asset);
      var qty := spend / fill;
      Account(
        a.cash - (spend + Fee(Min(usd, a.cash), c)),
        a.qty[asset := held + qty],
        a.entryPrice[asset := if held > 0.0 then AverageEntry(a.entryPrice[asset], held, fill, qty) else fill],
        if held > 0.0 then a.entryHour else a.entryHour[asset := hour],
        a.trades + 1)
  }

  /** A filled buy that adds to a position leaves its entry hour alone; only opening one sets it. */
  lemma AddingKeepsEntryHour(a: Account, asset: Asset, usd: real, price: real, hour: int, c: Costs)
    requires Consistent(a) && c.slipBps > -10000.0 && BuyFills(a, usd, price, c)
    ensures var b := Bought(a, asset, usd, price, hour, c);
            b.entryHour == if asset in a.qty then a.entryHour else a.entryHour[asset := hour]
  {
    hide AverageEntry;
    FillPositive(Spend(a.cash, usd, c), price, c);
  }

  // ---------------------------------------------------------------- selling

  function SellPrice(price: real, c: Costs): real {
    price * (1.0 - c.slipBps / 10000.0)
  }

  predicate SellFills(a: Account, asset: Asset, fraction: real, price: real) {
    Held(a, asset) > 0.0 && price > 0.0 && fraction > 0.0
  }

  function SoldQty(a: Account, asset: Asset, fraction: real): real {
    Product(Held(a, asset), Min(1.0, fraction))
  }

  function Gross(a: Account, asset: Asset, fraction: real, price: real, c: Costs): real {
    Product(SoldQty(a, asset, fraction), SellPrice(price, c))
  }

  function Proceeds(a: Account, asset: Asset, fraction: real, price: real, c: Costs): real {
    var gross := Gross(a, asset, fraction, price, c);
    gross - Fee(gross, c)
  }

  ghost function Sold(a: Account, asset: Asset, fraction: real, price: real, c: Costs): Account {
    if !SellFills(a, asset, fraction, price) then a
    else
      var rest := Held(a, asset) - SoldQty(a, asset, fraction);
      var cash := a.cash + Proceeds(a, asset, fraction, price, c);
      if rest <= DUST then
        Account(cash, a.qty - {asset}, a.entryPrice - {asset}, a.entryHour - {asset}, a.trades + 1)
      else
        a.(cash := cash, qty := a.qty[asset := rest], trades := a.trades + 1)
  }

  // ---------------------------------------------------------------- flattening

  // What one unit of each asset brings when sold, costs deducted; nothing where it cannot be sold.
  function NetPrices(prices: Prices, c: Costs): Prices {
    map k | k in prices :: if prices[k] > 0.0 then SellPrice(prices[k], c) - Fee(SellPrice(prices[k], c), c) else 0.0
  }

  function FeePerUnit(prices: Prices, c: Costs): Prices {
    map k | k in prices :: if prices[k] > 0.0 then Fee(SellPrice(prices[k], c), c) else 0.0
  }

  function SlippagePerUnit(prices: Prices, c: Costs): Prices {
    map k | k in prices :: if prices[k] > 0.0 then prices[k] - SellPrice(prices[k], c) else 0.0
  }

  ghost function Unsellable(qty: map<Asset, real>, prices: Prices): set<Asset> {
    set k | k in qty && Get(prices, k) <= 0.0
  }

  ghost function Restricted<V>(m: map<Asset, V>, keys: set<Asset>): map<Asset, V> {
    map k | k in m && k in keys :: m[k]
  }

  ghost function Flattened(a: Account, prices: Prices, c: Costs): Account {
    var kept := Unsellable(a.qty, prices);
    Account(
      a.cash + RiskyValue(a.qty, NetPrices(prices, c)),
      Restricted(a.qty, kept), Restricted(a.entryPrice, kept), Restricted(a.entryHour, kept),
      a.trades + |a.qty.Keys - kept|)
  }

  // ---------------------------------------------------------------- runs at one price vector

  datatype Op = BuyOp(asset: Asset, usd: real, hour: int) | SellOp(asset: Asset, fraction: real) | FlattenOp

  ghost function After(a: Account, op: Op, prices: Prices, c: Costs): Account
    requires Consistent(a) && c.slipBps > -10000.0
  {
    match op
    case BuyOp(asset, usd, hour) => Bought(a, asset, usd, Get(prices, asset), hour, c)
    case SellOp(asset, fraction) => Sold(a, asset, fraction, Get(prices, asset), c)
    case FlattenOp => Flattened(a, prices, c)
  }

  // What one operation costs: the fee, the distance of the fill from the price, and the value of dust dropped.
  datatype Charge = Charge(fee: real, slippage: real, dust: real)

  const FREE := Charge(0.0, 0.0, 0.0)

  ghost function ChargeOf(a: Account, op: Op, prices: Prices, c: Costs): Charge
    requires c.slipBps > -10000.0
  {
    match op
    case BuyOp(asset, usd, _) =>
      var price := Get(prices, asset);
      if !BuyFills(a, usd, price, c) then FREE
      else
        FillPositive(Spend(a.cash, usd, c), price, c);
        var fill := BuyPrice(price, c);
        Charge(Fee(Min(usd, a.cash), c), Product(Spend(a.cash, usd, c) / fill, fill - price), 0.0)
    case SellOp(asset, fraction) =>
      var price := Get(prices, asset);
      if !SellFills(a, asset, fraction, price) then FREE
      else
        var sold := SoldQty(a, asset, fraction);
        var rest := Held(a, asset) - sold;
        Charge(
          Fee(Gross(a, asset, fraction, price, c), c), Product(sold, price - SellPrice(price, c)),
          if rest <= DUST then Worth(rest, price) else 0.0)
    case FlattenOp =>
      Charge(RiskyValue(a.qty, FeePerUnit(prices, c)), RiskyValue(a.qty, SlippagePerUnit(prices, c)), 0.0)
  }

  function Total(x: Charge): real {
    x.fee + x.slippage + x.dust
  }

  predicate NonNegativeCharge(x: Charge) {
    x.fee >= 0.0 && x.slippage >= 0.0 && x.dust >= 0.0
  }

  lemma CostBounds(price: real, c: Costs)
    requires price > 0.0 && Realistic(c)
    ensures BuyPrice(price, c) >= price >= SellPrice(price, c) >= 0.0
  {
    var s := c.slipBps / 10000.0;
    assert price * (1.0 + s) == price + price * s && price * (1.0 - s) == price - price * s;
    BothNonNegative(price, s);
    BothNonNegative(price, 1.0 - s);
  }

  lemma FeeBounds(notional: real, c: Costs)
    requires notional >= 0.0 && Realistic(c)
    ensures 0.0 <= Fee(notional, c) <= notional
  {
    BothNonNegative(notional, c.feeBps);
    BothNonNegative(notional, 10000.0 - c.feeBps);
  }

  lemma SpendWithinCash(cash: real, usd: real, c: Costs)
    requires Spend(cash, usd, c) > 0.0
    ensures Spend(cash, usd, c) + Fee(Min(usd, cash), c) <= cash
  {
    hide Fee;
  }

  lemma BuyKeepsConsistent(a: Account, asset: Asset, usd: real, price: real, hour: int, c: Costs)
    requires Consistent(a) && c.slipBps > -10000.0
    ensures Consistent(Bought(a, asset, usd, price, hour, c))
  {
    hide Product, Fee, Spend, BuyPrice, AverageEntry;
    if BuyFills(a, usd, price, c) { FillPositive(Spend(a.cash, usd, c), price, c); }
  }

  lemma BuyCharge(a: Account, asset: Asset, usd: real, hour: int, prices: Prices, c: Costs)
    requires Consistent(a) && a.cash >= 0.0 && Realistic(c)
    ensures var op := BuyOp(asset, usd, hour); var a' := After(a, op, prices, c);
            && Consistent(a') && a'.cash >= 0.0
            && Nav(a', prices) == Nav(a, prices) - Total(ChargeOf(a, op, prices, c))
            && NonNegativeCharge(ChargeOf(a, op, prices, c))
  {
    hide Product, Fee, Spend, BuyPrice, AverageEntry;
    var price := Get(prices, asset);
    if BuyFills(a, usd, price, c) {
      var spend, fill, held := Spend(a.cash, usd, c), BuyPrice(price, c), Held(a, asset);
      FillPositive(spend, price, c);
      var qty := spend / fill;
      SpendWithinCash(a.cash, usd, c);
      CostBounds(price, c);
      FeeBounds(Min(usd, a.cash), c);
      ValueAfterUpdate(a.qty, prices, asset, held + qty);
      Spread(held, qty, price);
      Spread(fill, price, qty);
      Quotient(spend, fill);
      BothNonNegative(qty, fill - price);
    }
  }

  lemma SellKeepsConsistent(a: Account, asset: Asset, fraction: real, price: real, c: Costs)
    requires Consistent(a)
    ensures Consistent(Sold(a, asset, fraction, price, c))
  {
    hide Product, Fee, SellPrice, Proceeds, SoldQty;
  }

  lemma SellNav(a: Account, asset: Asset, fraction: real, prices: Prices, c: Costs)
    requires Consistent(a) && SellFills(a, asset, fraction, Get(prices, asset))
    ensures var rest, price := Held(a, asset) - SoldQty(a, asset, fraction), Get(prices, asset);
            Nav(Sold(a, asset, fraction, price, c), prices)
            == Nav(a, prices) + Proceeds(a, asset, fraction, price, c)
               - Worth(Held(a, asset), price) + (if rest <= DUST then 0.0 else Worth(rest, price))
  {
    hide Product, Fee, SellPrice, Proceeds, SoldQty, RiskyValue, Worth, Consistent;
    ValueAfterUpdate(a.qty, prices, asset, Held(a, asset) - SoldQty(a, asset, fraction));
  }

  lemma SellCharge(a: Account, asset: Asset, fraction: real, prices: Prices, c: Costs)
    requires Consistent(a) && a.cash >= 0.0 && Realistic(c)
    ensures var op := SellOp(asset, fraction); var a' := After(a, op, prices, c);
            && Consistent(a') && a'.cash >= 0.0
            && Nav(a', prices) == Nav(a, prices) - Total(ChargeOf(a, op, prices, c))
            && NonNegativeCharge(ChargeOf(a, op, prices, c))
  {
    hide Product, Fee, SellPrice, Gross, SoldQty, Nav, Consistent, Worth, Proceeds;
    var price := Get(prices, asset);
    SellKeepsConsistent(a, asset, fraction, price, c);
    if SellFills(a, asset, fraction, price) {
      SellNumbers(a, asset, fraction, price, c);
      SellNav(a, asset, fraction, prices, c);
    }
  }

  /** What a sell drops is at most a millionth of a millionth of a unit. */
  lemma DustIsSmall(a: Account, asset: Asset, fraction: real, prices: Prices, c: Costs)
    requires Realistic(c)
    ensures var dust := ChargeOf(a, SellOp(asset, fraction), prices, c).dust;
            dust > 0.0 ==> dust <= Product(0.000000000001, Get(prices, asset))
  {
    hide Product, Fee, SellPrice, Gross, SoldQty, Worth, Proceeds;
    if SellFills(a, asset, fraction, Get(prices, asset)) {
      SellNumbers(a, asset, fraction, Get(prices, asset), c);
    }
  }

  // What leaves the position is what the fee, the slippage and the proceeds add up to.
  lemma SellNumbers(a: Account, asset: Asset, fraction: real, price: real, c: Costs)
    requires Realistic(c) && SellFills(a, asset, fraction, price)
    ensures var held, sold := Held(a, asset), SoldQty(a, asset, fraction);
            var fee, slip := Fee(Gross(a, asset, fraction, price, c), c), Product(sold, price - SellPrice(price, c));
            && 0.0 < sold <= held && fee >= 0.0 && slip >= 0.0 && Proceeds(a, asset, fraction, price, c) >= 0.0
            && Proceeds(a, asset, fraction, price, c) + fee + slip == Worth(held, price) - Worth(held - sold, price)
            && Worth(held - sold, price) >= 0.0
            && (held - sold <= DUST ==> Worth(held - sold, price) <= Product(DUST, price))
  {
    hide Product, Fee, SellPrice;
    var held, sold, fill := Held(a, asset), SoldQty(a, asset, fraction), SellPrice(price, c);
    CostBounds(price, c);
    SoldWithinHeld(held, Min(1.0, fraction));
    BothNonNegative(sold, fill);
    FeeBounds(Gross(a, asset, fraction, price, c), c);
    Spread(held, sold, price);
    Spread(price, fill, sold);
    BothNonNegative(sold, price - fill);
    BothNonNegative(held - sold, price);
    Spread(DUST, held - sold, price);
    BothNonNegative(DUST, price);
    if held - sold <= DUST {
      BothNonNegative(DUST - (held - sold), price);
    }
    if held == sold {
      Gap(0.0, price);
      Spread(0.0, 0.0, price);
    }
  }

  lemma SoldWithinHeld(held: real, fraction: real)
    requires held > 0.0 && 0.0 < fraction <= 1.0
    ensures 0.0 < Product(held, fraction) <= held
  {
  }

  /** The value of a book is additive in the prices. */
  lemma {:induction false} ValueOfFlattened(qty: map<Asset, real>, prices: Prices, c: Costs)
    requires Realistic(c) && qty.Keys <= prices.Keys
    ensures RiskyValue(qty, prices)
         == RiskyValue(qty, NetPrices(prices, c)) + RiskyValue(qty, FeePerUnit(prices, c))
              + RiskyValue(qty, SlippagePerUnit(prices, c))
              + RiskyValue(Restricted(qty, Unsellable(qty, prices)), prices)
    ensures RiskyValue(qty, NetPrices(prices, c)) >= 0.0
    ensures RiskyValue(qty, FeePerUnit(prices, c)) >= 0.0 && RiskyValue(qty, SlippagePerUnit(prices, c)) >= 0.0
    decreases |qty|
  {
    hide Worth, SellPrice, Fee, Unsellable, Restricted;
    if qty == map[] {
      NothingKept(prices);
    } else {
      var k :| k in qty;
      var rest := qty - {k};
      ValueOfFlattened(rest, prices, c);
      ValueSplits(qty, prices, k);
      ValueSplits(qty, NetPrices(prices, c), k);
      ValueSplits(qty, FeePerUnit(prices, c), k);
      ValueSplits(qty, SlippagePerUnit(prices, c), k);
      UnitSplits(qty[k], prices[k], c);
      KeptSplits(qty, prices, k);
    }
  }

  lemma NothingKept(prices: Prices)
    ensures RiskyValue(Restricted(map[], Unsellable(map[], prices)), prices) == 0.0
  {
    assert Restricted<real>(map[], Unsellable(map[], prices)) == map[];
  }

  lemma KeptSplits(qty: map<Asset, real>, prices: Prices, k: Asset)
    requires k in qty && k in prices
    ensures RiskyValue(Restricted(qty, Unsellable(qty, prices)), prices)
         == (if prices[k] > 0.0 then 0.0 else Worth(qty[k], prices[k]))
              + RiskyValue(Restricted(qty - {k}, Unsellable(qty - {k}, prices)), prices)
  {
    hide Worth;
    var kept, rest := Restricted(qty, Unsellable(qty, prices)), qty - {k};
    if prices[k] > 0.0 {
      assert kept == Restricted(rest, Unsellable(rest, prices));
    } else {
      ValueSplits(kept, prices, k);
      assert kept - {k} == Restricted(rest, Unsellable(rest, prices));
    }
  }

  lemma UnitSplits(qty: real, price: real, c: Costs)
    requires Realistic(c)
    ensures Worth(qty, 0.0) == 0.0
    ensures price > 0.0 ==> var fill := SellPrice(price, c);
            && Worth(qty, price)
               == Worth(qty, fill - Fee(fill, c)) + Worth(qty, Fee(fill, c)) + Worth(qty, price - fill)
            && Worth(qty, fill - Fee(fill, c)) >= 0.0 && Worth(qty, Fee(fill, c)) >= 0.0
            && Worth(qty, price - fill) >= 0.0
  {
    hide SellPrice, Fee, Product;
    Spread(0.0, 0.0, qty);
    if price > 0.0 && qty > 0.0 {
      var fill := SellPrice(price, c);
      CostBounds(price, c);
      FeeBounds(fill, c);
      Spread(fill, Fee(fill, c), qty);
      Spread(price, fill, qty);
      BothNonNegative(qty, fill - Fee(fill, c));
      BothNonNegative(qty, Fee(fill, c));
      BothNonNegative(qty, price - fill);
    }
  }

  lemma FlattenCharge(a: Account, prices: Prices, c: Costs)
    requires Consistent(a) && a.cash >= 0.0 && Realistic(c) && a.qty.Keys <= prices.Keys
    ensures var a' := After(a, FlattenOp, prices, c);
            && Consistent(a') && a'.cash >= 0.0
            && Nav(a', prices) == Nav(a, prices) - Total(ChargeOf(a, FlattenOp, prices, c))
            && NonNegativeCharge(ChargeOf(a, FlattenOp, prices, c))
  {
    hide RiskyValue, NetPrices, FeePerUnit, SlippagePerUnit;
    ValueOfFlattened(a.qty, prices, c);
  }

  /** Flattening where every holding has a positive price leaves nothing but cash. */
  lemma FlattenEmpties(a: Account, prices: Prices, c: Costs)
    requires Consistent(a) && Realistic(c) && forall k | k in a.qty :: Get(prices, k) > 0.0
    ensures var a' := Flattened(a, prices, c);
            a'.qty == map[] && a'.entryPrice == map[] && a'.entryHour == map[] && Nav(a', prices) == a'.cash
  {
    hide NetPrices;
    assert Unsellable(a.qty, prices) == {};
  }

  predicate Priced(a: Account, ops: seq<Op>, prices: Prices) {
    && a.qty.Keys <= prices.Keys
    && forall op | op in ops && op.BuyOp? :: op.asset in prices
  }

  ghost function AfterAll(a: Account, ops: seq<Op>, prices: Prices, c: Costs): Account
    requires Consistent(a) && a.cash >= 0.0 && Realistic(c) && Priced(a, ops, prices)
    decreases ops
  {
    if ops == [] then a
    else
      OpCharge(a, ops[0], prices, c);
      AfterAll(After(a, ops[0], prices, c), ops[1..], prices, c)
  }

  ghost function Charges(a: Account, ops: seq<Op>, prices: Prices, c: Costs): Charge
    requires Consistent(a) && a.cash >= 0.0 && Realistic(c) && Priced(a, ops, prices)
    decreases ops
  {
    if ops == [] then FREE
    else
      OpCharge(a, ops[0], prices, c);
      var x, y := ChargeOf(a, ops[0], prices, c), Charges(After(a, ops[0], prices, c), ops[1..], prices, c);
      Charge(x.fee + y.fee, x.slippage + y.slippage, x.dust + y.dust)
  }

  /** One operation: the book stays consistent and its cash non-negative, and NAV falls by exactly the
      fee, the slippage and the dust dropped, none of them negative. */
  lemma OpCharge(a: Account, op: Op, prices: Prices, c: Costs)
    requires Consistent(a) && a.cash >= 0.0 && Realistic(c) && Priced(a, [op], prices)
    ensures var a' := After(a, op, prices, c);
            && Consistent(a') && a'.cash >= 0.0 && a'.qty.Keys <= prices.Keys
            && Nav(a', prices) == Nav(a, prices) - Total(ChargeOf(a, op, prices, c))
            && NonNegativeCharge(ChargeOf(a, op, prices, c))
  {
    hide Nav, ChargeOf, RiskyValue, Proceeds, AverageEntry, Spend, Fee;
    assert op in [op];
    match op {
      case BuyOp(asset, usd, hour) => BuyCharge(a, asset, usd, hour, prices, c);
      case SellOp(asset, fraction) => SellCharge(a, asset, fraction, prices, c);
      case FlattenOp => FlattenCharge(a, prices, c);
    }
  }

  /** Conservation over any sequence of buys, sells and flattens at one price vector. */
  lemma {:induction false} NavFallsByCosts(a: Account, ops: seq<Op>, prices: Prices, c: Costs)
    requires Consistent(a) && a.cash >= 0.0 && Realistic(c) && Priced(a, ops, prices)
    ensures var a' := AfterAll(a, ops, prices, c);
            && Consistent(a') && a'.cash >= 0.0 && a'.qty.Keys <= prices.Keys
            && Nav(a', prices) == Nav(a, prices) - Total(Charges(a, ops, prices, c)) <= Nav(a, prices)
            && NonNegativeCharge(Charges(a, ops, prices, c))
    decreases ops
  {
    hide Nav, ChargeOf, RiskyValue, Consistent, After;
    if ops != [] {
      OpCharge(a, ops[0], prices, c);
      NavFallsByCosts(After(a, ops[0], prices, c), ops[1..], prices, c);
    }
  }

  // ---------------------------------------------------------------- the portfolio object

  // Everything a portfolio records besides its account.
  datatype Book = Book(
    account: Account, hwm: real, navs: seq<real>, drops: seq<real>, hoursInMarket: nat, flatSince: Option<int>)

  function LastDrop(b: Book): real {
    if b.drops == [] then 0.0 else b.drops[|b.drops| - 1]
  }

  ghost function Marked(b: Book, prices: Prices): Book {
    var n := Nav(b.account, prices);
    b.(hwm := Raised(Some(b.hwm), n),
       navs := b.navs + [n],
       drops := b.drops + [DropAt(Some(b.hwm), n)],
       hoursInMarket := b.hoursInMarket + if RiskyValue(b.account.qty, prices) > 0.000000001 then 1 else 0)
  }

  ghost function Rebaselined(b: Book, prices: Prices): Book {
    b.(hwm := Nav(b.account, prices),
       drops := if b.drops == [] then [] else b.drops[|b.drops| - 1 := 0.0],
       flatSince := None)
  }

  lemma FullSale(a: Account, asset: Asset, price: real, c: Costs)
    requires Held(a, asset) > 0.0
    ensures SoldQty(a, asset, 1.0) == Held(a, asset)
    ensures Proceeds(a, asset, 1.0, price, c)
         == Worth(Held(a, asset), SellPrice(price, c) - Fee(SellPrice(price, c), c))
  {
    var held, fill := Held(a, asset), SellPrice(price, c);
    assert SoldQty(a, asset, 1.0) == held;
    Spread(fill, Fee(fill, c), held);
    assert held * fill * c.feeBps / 10000.0 == held * (fill * c.feeBps / 10000.0);
  }

  lemma ProceedsPositive(a: Account, asset: Asset, fraction: real, price: real, c: Costs)
    requires SellFills(a, asset, fraction, price) && c.feeBps < 10000.0 && c.slipBps < 10000.0
    ensures Proceeds(a, asset, fraction, price, c) > 0.0
  {
    var fill, sold := SellPrice(price, c), SoldQty(a, asset, fraction);
    SoldWithinHeld(Held(a, asset), Min(1.0, fraction));
    Gap(1.0 - c.slipBps / 10000.0, price);
    Gap(sold, fill);
    Gap(1.0 - c.feeBps / 10000.0, Product(sold, fill));
    hide Product, SellPrice;
  }

  // ---------------------------------------------------------------- what the operations do

  /** A holding is worth its quantity times its price, and nothing without a price; a book is worth its holdings. */
  lemma ValueMeans(qty: map<Asset, real>, prices: Prices, k: Asset)
    ensures RiskyValue(map[], prices) == 0.0
    ensures k in qty ==>
              RiskyValue(qty, prices) - RiskyValue(qty - {k}, prices)
              == if k in prices && qty[k] > 0.0 then Product(qty[k], prices[k]) else 0.0
  {
    if k in qty {
      ValueSplits(qty, prices, k);
      Spread(0.0, 0.0, qty[k]);
    }
    hide RiskyValue, Product;
  }

  /** A buy fills exactly if price, amount and cash are positive and the cash exceeds the fee on what can be asked for,
      which is the amount or all the cash. It costs that and the fee, or all the cash if that is less; and what
      is left of it after the fee buys units at the price and the slippage. */
  lemma BuyMeans(a: Account, asset: Asset, usd: real, price: real, hour: int, c: Costs)
    requires Consistent(a) && c.slipBps > -10000.0
    ensures var b, gross := Bought(a, asset, usd, price, hour, c), if usd < a.cash then usd else a.cash;
            var fee := Product(gross, c.feeBps) / 10000.0;
            if price > 0.0 && usd > 0.0 && a.cash > 0.0 && fee < a.cash then
              && b.cash == (if gross + fee <= a.cash then a.cash - gross - fee else 0.0)
              && b.trades == a.trades + 1 && b.qty == a.qty[asset := Held(b, asset)]
              && Product(Held(b, asset) - Held(a, asset), Product(price, 10000.0 + c.slipBps))
                 == 10000.0 * (a.cash - b.cash - fee)
            else b == a
  {
    var gross := Min(usd, a.cash);
    FeeIs(gross, c);
    SpendUnfolds(a.cash, usd, c);
    if BuyFills(a, usd, price, c) {
      var spend := Spend(a.cash, usd, c);
      FillPositive(spend, price, c);
      UnitsBought(spend, price, c);
    }
    hide Product, Fee, BuyPrice, Spend, AverageEntry;
  }

  lemma FeeIs(notional: real, c: Costs)
    ensures Fee(notional, c) == Product(notional, c.feeBps) / 10000.0
  {
  }

  lemma UnitsBought(spend: real, price: real, c: Costs)
    requires BuyPrice(price, c) > 0.0
    ensures Product(spend / BuyPrice(price, c), Product(price, 10000.0 + c.slipBps)) == 10000.0 * spend
  {
    var fill := BuyPrice(price, c);
    assert 10000.0 * fill == Product(price, 10000.0 + c.slipBps);
    Quotient(spend, fill);
    TenThousand(spend / fill, fill);
    hide BuyPrice, Product;
  }

  lemma TenThousand(x: real, y: real)
    ensures Product(x, 10000.0 * y) == 10000.0 * Product(x, y)
  {
  }

  /** A sell fills exactly if the asset is held and price and fraction are positive. It sells the fraction of the
      holding, at most all of it, for the price less the slippage, less the fee; what is left stays with its entry,
      unless it is at most a millionth of a millionth of a unit, which is dropped. */
  lemma SellMeans(a: Account, asset: Asset, fraction: real, price: real, c: Costs)
    requires Consistent(a)
    ensures var b, held := Sold(a, asset, fraction, price, c), if asset in a.qty then a.qty[asset] else 0.0;
            if held > 0.0 && price > 0.0 && fraction > 0.0 then
              var sold := Product(held, if fraction > 1.0 then 1.0 else fraction);
              && 100000000.0 * (b.cash - a.cash)
                 == Product(Product(Product(sold, price), 10000.0 - c.slipBps), 10000.0 - c.feeBps)
              && b.trades == a.trades + 1
              && if held - sold <= 0.000000000001 then
                   b.qty == a.qty - {asset} && b.entryPrice == a.entryPrice - {asset}
                   && b.entryHour == a.entryHour - {asset}
                 else b.qty == a.qty[asset := held - sold] && b.entryPrice == a.entryPrice && b.entryHour == a.entryHour
            else b == a
  {
    if SellFills(a, asset, fraction, price) { ProceedsAre(SoldQty(a, asset, fraction), price, c); }
    hide Product, Fee, SellPrice;
  }

  lemma ProceedsAre(sold: real, price: real, c: Costs)
    ensures var gross := Product(sold, SellPrice(price, c));
            100000000.0 * (gross - Fee(gross, c))
            == Product(Product(Product(sold, price), 10000.0 - c.slipBps), 10000.0 - c.feeBps)
  {
    var gross := Product(sold, SellPrice(price, c));
    assert 10000.0 * gross == Product(Product(sold, price), 10000.0 - c.slipBps);
    assert 10000.0 * (gross - Fee(gross, c)) == Product(gross, 10000.0 - c.feeBps);
    TenThousand(10000.0 - c.feeBps, gross);
    assert Product(10000.0 * gross, 10000.0 - c.feeBps) == 10000.0 * Product(gross, 10000.0 - c.feeBps);
    hide Product, Fee, SellPrice;
  }

  /** A mark records the cash and the value held, and how much of the raised high-water mark, in percent, is missing;
      an hour counts as spent in the market if more than a billionth of a dollar is held. */
  lemma MarkMeans(b: Book, prices: Prices)
    ensures var m, n := Marked(b, prices), b.account.cash + RiskyValue(b.account.qty, prices);
            && m.navs == b.navs + [n] && m.hwm == (if n > b.hwm then n else b.hwm)
            && |m.drops| == |b.drops| + 1 && m.drops[..|b.drops|] == b.drops
            && (if m.hwm > 0.0 then Product(m.drops[|b.drops|], m.hwm) == 100.0 * (m.hwm - n)
                else m.drops[|b.drops|] == 0.0)
            && m.hoursInMarket == b.hoursInMarket + (if n - b.account.cash > 0.000000001 then 1 else 0)
            && m.account == b.account && m.flatSince == b.flatSince
  {
    var n := Nav(b.account, prices);
    var high := Raised(Some(b.hwm), n);
    if high > 0.0 { assert (high - n) / high * 100.0 * high == 100.0 * (high - n); }
    hide RiskyValue;
  }

  class Portfolio {
    const initialCash: real
    var cash: real
    var positions: map<Asset, real>
    var entryPrice: map<Asset, real>
    var entryHour: map<Asset, int>
    var hwm: real
    var navHistory: seq<real>
    var drawdownHistory: seq<real>
    var tradeCount: nat
    var hoursInMarket: nat
    var flatSince: Option<int>

    function Acc(): Account
      reads this
    {
      Account(cash, positions, entryPrice, entryHour, tradeCount)
    }

    function Snapshot(): Book
      reads this
    {
      Book(Acc(), hwm, navHistory, drawdownHistory, hoursInMarket, flatSince)
    }

    ghost predicate Valid()
      reads this
    {
      Consistent(Acc())
    }

    constructor (initialCash: real, cash: real)
      ensures Valid() && this.initialCash == initialCash
      ensures var start := if cash == 0.0 then initialCash else cash;
              Snapshot() == Book(Account(start, map[], map[], map[], 0), start, [], [], 0, None)
    {
      this.initialCash := initialCash;
      this.cash := if cash == 0.0 then initialCash else cash;
      positions, entryPrice, entryHour := map[], map[], map[];
      hwm := if cash == 0.0 then initialCash else cash;
      navHistory, drawdownHistory := [], [];
      tradeCount, hoursInMarket, flatSince := 0, 0, None;
    }

    method MarkedRisk(prices: Prices) returns (total: real)
      ensures total == RiskyValue(positions, prices)
    {
      hide RiskyValue, Product;
      total := 0.0;
      NoValue(prices);
      var todo := positions;
      while todo != map[]
        invariant total + RiskyValue(todo, prices) == RiskyValue(positions, prices)
        decreases |todo|
      {
        var k :| k in todo;
        ValueSplits(todo, prices, k);
        if todo[k] > 0.0 {
          total := total + Product(todo[k], Get(prices, k));
        }
        todo := todo - {k};
      }
    }

    method MarkedNav(prices: Prices) returns (n: real)
      ensures n == Nav(Acc(), prices)
    {
      var risky := MarkedRisk(prices);
      return cash + risky;
    }

    method RiskyRatio(prices: Prices) returns (r: real)
      ensures r == ExposureOf(Acc(), prices)
    {
      var n := MarkedNav(prices);
      if n <= 0.0 {
        return 0.0;
      }
      var risky := MarkedRisk(prices);
      return risky / n;
    }

    function CurrentDrawdown(): real
      reads this
    {
      LastDrop(Snapshot())
    }

    method Mark(prices: Prices) returns (drop: real)
      modifies `hwm, `navHistory, `drawdownHistory, `hoursInMarket
      ensures Snapshot() == Marked(old(Snapshot()), prices) && drop == LastDrop(Snapshot())
    {
      hide RiskyValue;
      var n := MarkedNav(prices);
      navHistory := navHistory + [n];
      if n > hwm {
        hwm := n;
      }
      drop := if hwm <= 0.0 then 0.0 else (hwm - n) / hwm * 100.0;
      drawdownHistory := drawdownHistory + [drop];
      var risky := MarkedRisk(prices);
      if risky > 0.000000001 {
        hoursInMarket := hoursInMarket + 1;
      }
    }

    method Rebaseline(prices: Prices)
      modifies `hwm, `drawdownHistory, `flatSince
      ensures Snapshot() == Rebaselined(old(Snapshot()), prices)
    {
      hwm := MarkedNav(prices);
      if drawdownHistory != [] {
        drawdownHistory := drawdownHistory[|drawdownHistory| - 1 := 0.0];
      }
      flatSince := None;
    }

    method Buy(asset: Asset, usd: real, price: real, hour: int, c: Costs) returns (spent: real)
      requires Valid() && c.slipBps > -10000.0
      modifies `cash, `positions, `entryPrice, `entryHour, `tradeCount
      ensures Valid() && Acc() == Bought(old(Acc()), asset, usd, price, hour, c)
      ensures spent == old(cash) - cash
      ensures spent == if BuyFills(old(Acc()), usd, price, c)
                       then Spend(old(cash), usd, c) + Fee(Min(usd, old(cash)), c) else 0.0
    {
      hide Product, Fee, BuyPrice, Spend, AverageEntry, Consistent;
      BuyKeepsConsistent(Acc(), asset, usd, price, hour, c);
      if price <= 0.0 || usd <= 0.0 {
        return 0.0;
      }
      var gross := Min(usd, cash);
      if gross <= 0.0 {
        return 0.0;
      }
      var fill, fee := BuyPrice(price, c), Fee(gross, c);
      var spend := gross;
      if spend + fee > cash {
        spend := Max(0.0, cash - fee);
        if spend <= 0.0 {
          SpendUnfolds(cash, usd, c);
          return 0.0;
        }
      }
      SpendUnfolds(cash, usd, c);
      FillPositive(spend, price, c);
      HeldNonNegative(Acc(), asset);
      var qty := spend / fill;
      var held := if asset in positions then positions[asset] else 0.0;
      if held > 0.0 {
        entryPrice := entryPrice[asset := AverageEntry(entryPrice[asset], held, fill, qty)];
      } else {
        entryPrice := entryPrice[asset := fill];
        entryHour := entryHour[asset := hour];
      }
      positions := positions[asset := held + qty];
      cash := cash - (spend + fee);
      tradeCount := tradeCount + 1;
      return spend + fee;
    }

    method Sell(asset: Asset, fraction: real, price: real, c: Costs) returns (proceeds: real)
      requires Valid()
      modifies `cash, `positions, `entryPrice, `entryHour, `tradeCount
      ensures Valid() && Acc() == Sold(old(Acc()), asset, fraction, price, c)
      ensures proceeds == cash - old(cash)
      ensures proceeds == if SellFills(old(Acc()), asset, fraction, price)
                          then Proceeds(old(Acc()), asset, fraction, price, c) else 0.0
    {
      hide Product, Fee, SellPrice, Consistent;
      var qty := if asset in positions then positions[asset] else 0.0;
      SellKeepsConsistent(Acc(), asset, fraction, price, c);
      if qty <= 0.0 || price <= 0.0 || fraction <= 0.0 {
        return 0.0;
      }
      var part := Min(1.0, fraction);
      var sold := Product(qty, part);
      var gross := Product(sold, SellPrice(price, c));
      var fee := Fee(gross, c);
      proceeds := gross - fee;
      positions := positions[asset := qty - sold];
      if positions[asset] <= DUST {
        assert positions - {asset} == old(positions) - {asset};
        positions := positions - {asset};
        entryPrice := entryPrice - {asset};
        entryHour := entryHour - {asset};
      }
      cash := cash + proceeds;
      tradeCount := tradeCount + 1;
    }

    /** Sells every holding at its price; the number of fills counts the sells that brought cash. */
    method Flatten(prices: Prices, c: Costs) returns (fills: nat)
      requires Valid() && positions.Keys <= prices.Keys
      modifies `cash, `positions, `entryPrice, `entryHour, `tradeCount
      ensures Valid() && Acc() == Flattened(old(Acc()), prices, c)
      ensures c.feeBps < 10000.0 && c.slipBps < 10000.0 ==>
              fills == |old(positions).Keys - Unsellable(old(positions), prices)|
    {
      hide Consistent, Sold, Flattened, NetPrices, RiskyValue, Proceeds, SellPrice, Unsellable, SellFills,
        Worth, Fee, PartlyFlattened, Sellable;
      fills := 0;
      ghost var start, done := Acc(), {};
      ghost var cheap := c.feeBps < 10000.0 && c.slipBps < 10000.0;
      var todo := positions.Keys;
      StartFlattening(start, prices, c);
      while todo != {}
        invariant done !! todo && done + todo == start.qty.Keys
        invariant Valid() && Acc() == PartlyFlattened(start, done, prices, c)
        invariant cheap ==> fills == |Sellable(start.qty, done, prices)|
        decreases |todo|
      {
        var k :| k in todo;
        FlattenStep(start, done, k, prices, c);
        var proceeds := Sell(k, 1.0, prices[k], c);
        if proceeds > 0.0 {
          fills := fills + 1;
        }
        todo, done := todo - {k}, done + {k};
      }
      assert done == start.qty.Keys;
      EndFlattening(start, prices, c);
    }
  }

  ghost function Sellable(qty: map<Asset, real>, done: set<Asset>, prices: Prices): set<Asset> {
    done - Unsellable(qty, prices)
  }

  // The account while it is being flattened, the holdings in `done` having been offered for sale.
  ghost function PartlyFlattened(a: Account, done: set<Asset>, prices: Prices, c: Costs): Account {
    var sold := Sellable(a.qty, done, prices);
    Account(
      a.cash + RiskyValue(Restricted(a.qty, done), NetPrices(prices, c)),
      a.qty - sold, a.entryPrice - sold, a.entryHour - sold, a.trades + |sold|)
  }

  lemma StartFlattening(a: Account, prices: Prices, c: Costs)
    ensures PartlyFlattened(a, {}, prices, c) == a && Sellable(a.qty, {}, prices) == {}
  {
    assert Restricted(a.qty, {}) == map[];
    assert {} - Unsellable(a.qty, prices) == {};
  }

  lemma EndFlattening(a: Account, prices: Prices, c: Costs)
    requires Consistent(a)
    ensures PartlyFlattened(a, a.qty.Keys, prices, c) == Flattened(a, prices, c)
    ensures Sellable(a.qty, a.qty.Keys, prices) == a.qty.Keys - Unsellable(a.qty, prices)
  {
    hide RiskyValue, NetPrices, Unsellable, Restricted;
    var kept := Unsellable(a.qty, prices);
    RestrictedIsDifference(a.qty, kept);
    RestrictedIsDifference(a.entryPrice, kept);
    RestrictedIsDifference(a.entryHour, kept);
  }

  lemma RestrictedIsDifference<V>(m: map<Asset, V>, kept: set<Asset>)
    ensures Restricted(m, kept) == m - (m.Keys - kept) && Restricted(m, m.Keys) == m
  {
  }

  lemma FlattenStep(a: Account, done: set<Asset>, k: Asset, prices: Prices, c: Costs)
    requires Consistent(a) && k in a.qty && k !in done && k in prices
    ensures Sold(PartlyFlattened(a, done, prices, c), k, 1.0, prices[k], c) == PartlyFlattened(a, done + {k}, prices, c)
    ensures var part := PartlyFlattened(a, done, prices, c);
            var fills := SellFills(part, k, 1.0, prices[k]) && Proceeds(part, k, 1.0, prices[k], c) > 0.0;
            c.feeBps < 10000.0 && c.slipBps < 10000.0 ==>
              |Sellable(a.qty, done + {k}, prices)| == |Sellable(a.qty, done, prices)| + if fills then 1 else 0
  {
    hide RiskyValue, Worth, SellPrice, Fee, Proceeds, SoldQty;
    var part, kept, price := PartlyFlattened(a, done, prices, c), Unsellable(a.qty, prices), prices[k];
    var net := NetPrices(prices, c);
    var after := Restricted(a.qty, done + {k});
    ValueSplits(after, net, k);
    assert after - {k} == Restricted(a.qty, done);
    FullSale(part, k, price, c);
    UnitSplitsAtZero(a.qty[k]);
    if price > 0.0 {
      assert done + {k} - kept == done - kept + {k};
      assert a.qty - (done - kept) - {k} == a.qty - (done + {k} - kept);
      assert a.entryPrice - (done - kept) - {k} == a.entryPrice - (done + {k} - kept);
      assert a.entryHour - (done - kept) - {k} == a.entryHour - (done + {k} - kept);
      if c.feeBps < 10000.0 && c.slipBps < 10000.0 { ProceedsPositive(part, k, 1.0, price, c); }
    } else {
      assert done + {k} - kept == done - kept;
    }
  }

  lemma UnitSplitsAtZero(qty: real)
    ensures Worth(qty, 0.0) == 0.0
  {
  }

  ghost function ExposureOf(a: Account, prices: Prices): real {
    if Nav(a, prices) <= 0.0 then 0.0 else RiskyValue(a.qty, prices) / Nav(a, prices)
  }
}
