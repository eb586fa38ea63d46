/** The average entry price against the list of lots it stands for (backtest/portfolio.py:149-160, 178-191). */
module Lots {
  import opened Arithmetic
  import opened Portfolios

  datatype Lot = Lot(price: real, qty: real)

  function Units(lots: seq<Lot>): real {
    if lots == [] then 0.0 else Units(lots[..|lots| - 1]) + lots[|lots| - 1].qty
  }

  function Paid(lots: seq<Lot>): real {
    if lots == [] then 0.0 else Paid(lots[..|lots| - 1]) + Product(lots[|lots| - 1].price, lots[|lots| - 1].qty)
  }

  /** Every lot reduced to the same fraction. */
  function Shrunk(lots: seq<Lot>, keep: real): (r: seq<Lot>)
    ensures |r| == |lots|
    ensures forall i | 0 <= i < |r| :: r[i] == Lot(lots[i].price, Product(lots[i].qty, keep))
  {
    if lots == [] then []
    else
      var n := |lots| - 1;
      Shrunk(lots[..n], keep) + [Lot(lots[n].price, Product(lots[n].qty, keep))]
  }

  lemma {:induction false} ShrunkTotals(lots: seq<Lot>, keep: real)
    ensures Units(Shrunk(lots, keep)) == Product(Units(lots), keep)
    ensures Paid(Shrunk(lots, keep)) == Product(Paid(lots), keep)
  {
    hide Product;
    if lots != [] {
      var n := |lots| - 1;
      ShrunkTotals(lots[..n], keep);
      assert Shrunk(lots, keep)[..n] == Shrunk(lots[..n], keep);
      Spread(Units(lots[..n]), lots[n].qty, keep);
      Spread(Paid(lots[..n]), Product(lots[n].price, lots[n].qty), keep);
      Regroup(lots[n].price, lots[n].qty, keep);
    } else {
      Spread(0.0, 0.0, keep);
    }
  }

  lemma Regroup(x: real, y: real, z: real)
    ensures Product(x, Product(y, z)) == Product(Product(x, y), z)
  {
  }

  // One operation of the account and the prices at which it happened.
  datatype Trade = Trade(op: Op, prices: Prices)

  /** What one trade does to the lots of `asset`: a filled buy opens a lot at its fill price, a sell
      shrinks every lot by the fraction sold, and whatever closes the position closes every lot. */
  ghost function LotsAfter(a: Account, lots: seq<Lot>, asset: Asset, t: Trade, c: Costs): seq<Lot>
    requires Consistent(a) && c.slipBps > -10000.0
  {
    match t.op
    case BuyOp(x, usd, _) =>
      var price := Get(t.prices, x);
      if x == asset && BuyFills(a, usd, price, c) then
        FillPositive(Spend(a.cash, usd, c), price, c);
        lots + [Lot(BuyPrice(price, c), Spend(a.cash, usd, c) / BuyPrice(price, c))]
      else lots
    case SellOp(x, fraction) =>
      if x == asset && SellFills(a, x, fraction, Get(t.prices, x)) then
        if Held(a, x) - SoldQty(a, x, fraction) <= DUST then [] else Shrunk(lots, 1.0 - Min(1.0, fraction))
      else lots
    case FlattenOp =>
      if Get(t.prices, asset) > 0.0 then [] else lots
  }

  /** The quantity is the lots' total, and quantity times entry price is what was paid for them. */
  ghost predicate Stands(a: Account, asset: Asset, lots: seq<Lot>) {
    if asset in a.qty && asset in a.entryPrice then
      a.qty[asset] == Units(lots) && Product(a.entryPrice[asset], a.qty[asset]) == Paid(lots)
    else lots == []
  }

  lemma AppendedTotals(lots: seq<Lot>, x: Lot)
    ensures Units(lots + [x]) == Units(lots) + x.qty && Paid(lots + [x]) == Paid(lots) + Product(x.price, x.qty)
  {
    assert (lots + [x])[..|lots|] == lots;
  }

  lemma AverageTimesQty(entry: real, held: real, price: real, qty: real)
    requires held > 0.0 && qty > 0.0
    ensures Product(AverageEntry(entry, held, price, qty), held + qty) == Product(entry, held) + Product(price, qty)
  {
    Quotient(Product(entry, held) + Product(price, qty), held + qty);
  }

  lemma BuyStands(a: Account, asset: Asset, lots: seq<Lot>, usd: real, price: real, hour: int, c: Costs)
    requires Consistent(a) && c.slipBps > -10000.0 && Stands(a, asset, lots) && BuyFills(a, usd, price, c)
    requires BuyPrice(price, c) > 0.0
    ensures var x := Lot(BuyPrice(price, c), Spend(a.cash, usd, c) / BuyPrice(price, c));
            Stands(Bought(a, asset, usd, price, hour, c), asset, lots + [x])
  {
    hide Product, BuyPrice, Spend, AverageEntry, Units, Paid;
    FillPositive(Spend(a.cash, usd, c), price, c);
    var fill, qty := BuyPrice(price, c), Spend(a.cash, usd, c) / BuyPrice(price, c);
    AppendedTotals(lots, Lot(fill, qty));
    if asset in a.qty {
      AverageTimesQty(a.entryPrice[asset], a.qty[asset], fill, qty);
    } else {
      NoLots();
    }
  }

  lemma NoLots()
    ensures Units([]) == 0.0 && Paid([]) == 0.0
  {
  }

  lemma SellStands(a: Account, asset: Asset, lots: seq<Lot>, fraction: real, price: real, c: Costs)
    requires Consistent(a) && Stands(a, asset, lots) && SellFills(a, asset, fraction, price)
    requires Held(a, asset) - SoldQty(a, asset, fraction) > DUST
    ensures Stands(Sold(a, asset, fraction, price, c), asset, Shrunk(lots, 1.0 - Min(1.0, fraction)))
  {
    hide Product, Proceeds, Units, Paid, Shrunk;
    var part := Min(1.0, fraction);
    ShrunkTotals(lots, 1.0 - part);
    Spread(1.0, part, a.qty[asset]);
    Whole(a.qty[asset]);
    Regroup(a.entryPrice[asset], a.qty[asset], 1.0 - part);
  }

  lemma Whole(x: real)
    ensures Product(x, 1.0) == x
  {
  }

  lemma StepStands(a: Account, asset: Asset, lots: seq<Lot>, t: Trade, c: Costs)
    requires Consistent(a) && c.slipBps > -10000.0 && Stands(a, asset, lots)
    ensures Stands(After(a, t.op, t.prices, c), asset, LotsAfter(a, lots, asset, t, c))
  {
    hide Product, BuyPrice, Spend, AverageEntry, Units, Paid, Shrunk, SoldQty, Proceeds;
    match t.op {
      case BuyOp(x, usd, hour) =>
        if x == asset && BuyFills(a, usd, Get(t.prices, x), c) {
          FillPositive(Spend(a.cash, usd, c), Get(t.prices, x), c);
          BuyStands(a, x, lots, usd, Get(t.prices, x), hour, c);
        }
      case SellOp(x, fraction) =>
        var filled := x == asset && SellFills(a, x, fraction, Get(t.prices, x));
        if filled && Held(a, x) - SoldQty(a, x, fraction) > DUST {
          SellStands(a, x, lots, fraction, Get(t.prices, x), c);
        }
      case FlattenOp =>
    }
  }

  predicate Tradeable(trades: seq<Trade>, assets: set<Asset>) {
    forall t | t in trades :: assets <= t.prices.Keys && (t.op.BuyOp? ==> t.op.asset in assets)
  }

  ghost function AfterTrades(a: Account, trades: seq<Trade>, c: Costs, assets: set<Asset>): Account
    requires Consistent(a) && a.cash >= 0.0 && Realistic(c) && Tradeable(trades, assets) && a.qty.Keys <= assets
    decreases trades
  {
    if trades == [] then a
    else
      TradeKeeps(a, trades[0], c, assets);
      AfterTrades(After(a, trades[0].op, trades[0].prices, c), trades[1..], c, assets)
  }

  ghost function LotsAfterTrades(
    a: Account, lots: seq<Lot>, asset: Asset, trades: seq<Trade>, c: Costs, assets: set<Asset>): seq<Lot>
    requires Consistent(a) && a.cash >= 0.0 && Realistic(c) && Tradeable(trades, assets) && a.qty.Keys <= assets
    decreases trades
  {
    if trades == [] then lots
    else
      TradeKeeps(a, trades[0], c, assets);
      LotsAfterTrades(
        After(a, trades[0].op, trades[0].prices, c), LotsAfter(a, lots, asset, trades[0], c),
        asset, trades[1..], c, assets)
  }

  lemma TradeKeeps(a: Account, t: Trade, c: Costs, assets: set<Asset>)
    requires Consistent(a) && a.cash >= 0.0 && Realistic(c) && Tradeable([t], assets) && a.qty.Keys <= assets
    ensures var a' := After(a, t.op, t.prices, c); Consistent(a') && a'.cash >= 0.0 && a'.qty.Keys <= assets
  {
    hide ChargeOf, Nav, Proceeds, AverageEntry, Spend, Fee, SoldQty, RiskyValue;
    assert t in [t];
    OpCharge(a, t.op, t.prices, c);
  }

  /** The account keeps only a quantity and an average entry price per asset. Over any trades at any
      prices these stay the total and the weighted average of the lots a full history would list. */
  lemma {:induction false} AverageRefinesLots(
    a: Account, lots: seq<Lot>, asset: Asset, trades: seq<Trade>, c: Costs, assets: set<Asset>)
    requires Consistent(a) && a.cash >= 0.0 && Realistic(c) && Tradeable(trades, assets) && a.qty.Keys <= assets
    requires Stands(a, asset, lots)
    ensures var a', lots' := AfterTrades(a, trades, c, assets), LotsAfterTrades(a, lots, asset, trades, c, assets);
            && (asset !in a'.qty ==> lots' == [])
            && (asset in a'.qty && asset in a'.entryPrice ==>
              Units(lots') == a'.qty[asset] > 0.0 && a'.entryPrice[asset] == Paid(lots') / Units(lots'))
    decreases trades
  {
    hide After, LotsAfter, Units, Paid, Product;
    if trades == [] {
      if asset in a.qty { ProductQuotient(a.entryPrice[asset], a.qty[asset]); }
    } else {
      TradeKeeps(a, trades[0], c, assets);
      StepStands(a, asset, lots, trades[0], c);
      AverageRefinesLots(
        After(a, trades[0].op, trades[0].prices, c), LotsAfter(a, lots, asset, trades[0], c),
        asset, trades[1..], c, assets);
    }
  }
}
