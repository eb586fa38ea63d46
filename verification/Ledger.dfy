/** The internal ledger of the live loop: marking to market, booking fills, and reconciling from chain
    balances (agent/core.py:51-70 and 222-260, agent/run_live.py:53-113). */
module Ledger {
  import opened Wrappers
  import opened Engine
  import opened Survival

  type Prices = map<Token, real>

  const DUST_USD: real := 1.0
  const FILL_SLACK: real := 0.000000001

  datatype Book = Book(positions: seq<Position>, stable: real, nav: real, hwm: real)

  // Python's `price.get(t) or default`: a missing and a zero price both give the default.
  function PriceOr(price: Prices, t: Token, default: real): real {
    if t in price && price[t] != 0.0 then price[t] else default
  }

  // Python's `price.get(t, default)`.
  function PriceGet(price: Prices, t: Token, default: real): real {
    if t in price then price[t] else default
  }

  predicate PositivePrices(price: Prices) {
    forall t | t in price :: price[t] > 0.0
  }

  /** The index of the position in `t`, or the number of positions. */
  function Find(positions: seq<Position>, t: Token): (i: nat)
    ensures i <= |positions| && (i < |positions| ==> positions[i].symbol == t)
    ensures forall k | 0 <= k < i :: positions[k].symbol != t
  {
    if positions == [] || positions[0].symbol == t then 0
    else
      var i := Find(positions[1..], t);
      assert forall k | 0 < k < i + 1 :: positions[k] == positions[1..][k - 1];
      i + 1
  }

  // ---------------------------------------------------------------- marking

  function PositionUsd(p: Position, price: Prices): real {
    p.qty * PriceOr(price, p.symbol, p.entryPrice)
  }

  function MarkedRisk(positions: seq<Position>, price: Prices): real {
    if positions == [] then 0.0
    else
      MarkedRisk(positions[..|positions| - 1], price) + PositionUsd(positions[|positions| - 1], price)
  }

  function Marked(b: Book, price: Prices): Book {
    var nav := b.stable + MarkedRisk(b.positions, price);
    b.(nav := nav, hwm := if nav > b.hwm then nav else b.hwm)
  }

  // ---------------------------------------------------------------- fills

  /** A position after `qty` more were bought at `px`: the entry price becomes the weighted average. */
  function Averaged(was: Position, qty: real, px: real): Position {
    var total := was.qty + qty;
    was.(entryPrice := if total != 0.0 then (was.entryPrice * was.qty + px * qty) / total else px, qty := total)
  }

  function BoughtPositions(positions: seq<Position>, t: Token, qty: real, px: real, now: real): seq<Position> {
    var i := Find(positions, t);
    if i < |positions| then positions[i := Averaged(positions[i], qty, px)]
    else positions + [Position(t, qty, px, now)]
  }

  function BuyFilled(b: Book, t: Token, amount: real, px: real, now: real): Book
    requires px > 0.0
  {
    b.(positions := BoughtPositions(b.positions, t, amount / px, px, now), stable := b.stable - amount)
  }

  predicate BuyBooks(b: Book, t: Token, amount: real, price: Prices) {
    PriceOr(price, t, 0.0) > 0.0 && amount <= b.stable + FILL_SLACK
  }

  function SoldQty(held: real, amount: real, px: real): real
    requires px > 0.0
  {
    if amount / px < held then amount / px else held
  }

  function SellFilled(b: Book, t: Token, amount: real, px: real): Book
    requires px > 0.0 && Find(b.positions, t) < |b.positions|
  {
    var i := Find(b.positions, t);
    var sold := SoldQty(b.positions[i].qty, amount, px);
    var rest := b.positions[i].qty - sold;
    b.(stable := b.stable + sold * px,
       positions := if rest <= FILL_SLACK then b.positions[..i] + b.positions[i + 1..]
                    else b.positions[i := b.positions[i].(qty := rest)])
  }

  /** The ledger after a fill of `amount` dollars of decision `d`. */
  function Filled(b: Book, d: Decision, amount: real, price: Prices, now: real): Book {
    match d.side
    case Buy =>
      if BuyBooks(b, d.to, amount, price) then BuyFilled(b, d.to, amount, PriceOr(price, d.to, 0.0), now)
      else b
    case Sell =>
      if Find(b.positions, d.from) < |b.positions| && PriceOr(price, d.from, 0.0) > 0.0 then
        SellFilled(b, d.from, amount, PriceOr(price, d.from, 0.0))
      else b
    case Stay => b
  }

  // ---------------------------------------------------------------- reconciling

  datatype Balance = Balance(symbol: Token, qty: real)

  function ChainCash(bals: seq<Balance>, price: Prices, stables: set<Token>): real {
    if bals == [] then 0.0
    else
      var x := bals[|bals| - 1];
      ChainCash(bals[..|bals| - 1], price, stables)
      + if x.symbol in stables then x.qty * PriceOr(price, x.symbol, 1.0) else 0.0
  }

  function RiskyUsd(x: Balance, price: Prices): real {
    x.qty * PriceOr(price, x.symbol, 0.0)
  }

  predicate Kept(x: Balance, price: Prices, stables: set<Token>) {
    x.symbol !in stables && RiskyUsd(x, price) >= DUST_USD
  }

  function Reanchored(x: Balance, before: seq<Position>, price: Prices, now: real): Position {
    var i := Find(before, x.symbol);
    if i < |before| then before[i].(qty := x.qty) else Position(x.symbol, x.qty, PriceOr(price, x.symbol, 0.0), now)
  }

  function Reconciled(bals: seq<Balance>, before: seq<Position>, price: Prices, stables: set<Token>, now: real)
    : seq<Position>
  {
    if bals == [] then []
    else
      var n := |bals| - 1;
      Reconciled(bals[..n], before, price, stables, now)
      + if Kept(bals[n], price, stables) then [Reanchored(bals[n], before, price, now)] else []
  }

  // ---------------------------------------------------------------- the mutable state

  class LiveState {
    var positions: seq<Position>
    var stable: real
    var nav: real
    var hwm: real

    ghost function Contents(): Book
      reads this
    {
      Book(positions, stable, nav, hwm)
    }

    constructor (b: Book)
      ensures Contents() == b
    {
      positions, stable, nav, hwm := b.positions, b.stable, b.nav, b.hwm;
    }

    method MarkNav(price: Prices)
      modifies this
      ensures Contents() == Marked(old(Contents()), price)
    {
      var risky := 0.0;
      var i := 0;
      while i < |positions|
        invariant 0 <= i <= |positions|
        invariant risky == MarkedRisk(positions[..i], price)
        invariant Contents() == old(Contents())
      {
        assert positions[..i + 1][..i] == positions[..i];
        risky := risky + PositionUsd(positions[i], price);
        i := i + 1;
      }
      assert positions[..i] == positions;
      nav := stable + risky;
      if nav > hwm {
        hwm := nav;
      }
    }

    method ApplyFill(d: Decision, amount: real, price: Prices, now: real)
      modifies this
      ensures Contents() == Filled(old(Contents()), d, amount, price, now)
    {
      hide SoldQty, Averaged, Find;
      if d.side == Buy {
        var px := PriceOr(price, d.to, 0.0);
        if px > 0.0 && amount <= stable + FILL_SLACK {
          var qty := amount / px;
          stable := stable - amount;
          var i := Find(positions, d.to);
          if i < |positions| {
            positions := positions[i := Averaged(positions[i], qty, px)];
          } else {
            positions := positions + [Position(d.to, qty, px, now)];
          }
        }
      } else if d.side == Sell {
        var px := PriceOr(price, d.from, 0.0);
        var i := Find(positions, d.from);
        if i < |positions| && px > 0.0 {
          var sold := SoldQty(positions[i].qty, amount, px);
          stable := stable + sold * px;
          var rest := positions[i].(qty := positions[i].qty - sold);
          if rest.qty <= FILL_SLACK {
            positions := positions[..i] + positions[i + 1..];
          } else {
            positions := positions[i := rest];
          }
        }
      }
    }

    /** Overwrites the ledger from chain balances; if they cannot be read, changes nothing and says so. */
    method SyncFromChain(reply: Option<seq<Balance>>, price: Prices, stables: set<Token>, now: real) returns (ok: bool)
      modifies this
      ensures ok <==> reply.Some?
      ensures !ok ==> Contents() == old(Contents())
      ensures ok ==> Contents() == old(Contents()).(
                positions := Reconciled(reply.value, old(positions), price, stables, now),
                stable := ChainCash(reply.value, price, stables))
    {
      if reply.None? {
        return false;
      }
      var bals := reply.value;
      var cash := 0.0;
      var rebuilt: seq<Position> := [];
      var i := 0;
      while i < |bals|
        invariant 0 <= i <= |bals|
        invariant cash == ChainCash(bals[..i], price, stables)
        invariant rebuilt == Reconciled(bals[..i], positions, price, stables, now)
        invariant Contents() == old(Contents())
      {
        var x := bals[i];
        assert bals[..i + 1][..i] == bals[..i];
        if x.symbol in stables {
          cash := cash + x.qty * PriceOr(price, x.symbol, 1.0);
        } else if RiskyUsd(x, price) >= DUST_USD {
          var k := Find(positions, x.symbol);
          rebuilt := rebuilt + [if k < |positions| then positions[k].(qty := x.qty)
                              else Position(x.symbol, x.qty, PriceOr(price, x.symbol, 0.0), now)];
        }
        i := i + 1;
      }
      assert bals[..i] == bals;
      positions := rebuilt;
      stable := cash;
      return true;
    }
  }

  // ---------------------------------------------------------------- reconcile-first

  function Synced(b: Book, bals: seq<Balance>, price: Prices, stables: set<Token>, now: real): Book {
    b.(positions := Reconciled(bals, b.positions, price, stables, now), stable := ChainCash(bals, price, stables))
  }

  predicate SameHoldings(p: seq<Position>, q: seq<Position>) {
    |p| == |q| && forall i | 0 <= i < |p| :: p[i].symbol == q[i].symbol && p[i].qty == q[i].qty
  }

  lemma MarkedRiskAppend(positions: seq<Position>, p: Position, price: Prices)
    ensures MarkedRisk(positions + [p], price) == MarkedRisk(positions, price) + PositionUsd(p, price)
  {
    assert (positions + [p])[..|positions|] == positions;
  }

  // What is kept has a price, so its entry price plays no part in its value.
  lemma KeptIsPriced(x: Balance, p: Position, price: Prices, stables: set<Token>)
    requires Kept(x, price, stables) && p.symbol == x.symbol && p.qty == x.qty
    ensures PositionUsd(p, price) == RiskyUsd(x, price)
  {
    assert PriceOr(price, x.symbol, 0.0) != 0.0;
  }

  lemma {:induction false} ReconciledIndependent(
    bals: seq<Balance>, before1: seq<Position>, before2: seq<Position>, price: Prices, stables: set<Token>,
    now1: real, now2: real)
    ensures var p := Reconciled(bals, before1, price, stables, now1);
            var q := Reconciled(bals, before2, price, stables, now2);
            SameHoldings(p, q) && MarkedRisk(p, price) == MarkedRisk(q, price)
  {
    if bals != [] {
      var n := |bals| - 1;
      ReconciledIndependent(bals[..n], before1, before2, price, stables, now1, now2);
      var p := Reconciled(bals[..n], before1, price, stables, now1);
      var q := Reconciled(bals[..n], before2, price, stables, now2);
      if Kept(bals[n], price, stables) {
        var x, y := Reanchored(bals[n], before1, price, now1), Reanchored(bals[n], before2, price, now2);
        MarkedRiskAppend(p, x, price);
        MarkedRiskAppend(q, y, price);
        KeptIsPriced(bals[n], x, price, stables);
        KeptIsPriced(bals[n], y, price, stables);
      } else {
        assert p + [] == p && q + [] == q;
      }
    }
  }

  /** Reconcile-first: after a successful read and a mark, cash, holdings and NAV are functions of the
      chain's balances and the prices alone. Whatever the ledger had drifted to is gone. */
  lemma ReconcileForgetsDrift(
    b1: Book, b2: Book, bals: seq<Balance>, price: Prices, stables: set<Token>, now1: real, now2: real)
    ensures var r1 := Marked(Synced(b1, bals, price, stables, now1), price);
            var r2 := Marked(Synced(b2, bals, price, stables, now2), price);
            r1.stable == r2.stable && r1.nav == r2.nav && SameHoldings(r1.positions, r2.positions)
  {
    ReconciledIndependent(bals, b1.positions, b2.positions, price, stables, now1, now2);
  }

  function ChainValue(bals: seq<Balance>, price: Prices, stables: set<Token>): real {
    if bals == [] then 0.0
    else
      var x := bals[|bals| - 1];
      ChainValue(bals[..|bals| - 1], price, stables)
      + if x.symbol in stables then x.qty * PriceOr(price, x.symbol, 1.0) else RiskyUsd(x, price)
  }

  function RiskySymbols(bals: seq<Balance>, stables: set<Token>): nat {
    if bals == [] then 0
    else RiskySymbols(bals[..|bals| - 1], stables) + if bals[|bals| - 1].symbol in stables then 0 else 1
  }

  /** The reconciled NAV is the value on chain but for dust: it is never above it, and it is below it by
      less than `DUST_USD` for each risky symbol read. */
  lemma {:induction false} ReconciledNavIsChainValue(
    b: Book, bals: seq<Balance>, price: Prices, stables: set<Token>, now: real)
    requires PositivePrices(price) && forall i | 0 <= i < |bals| :: bals[i].qty >= 0.0
    ensures var nav := Marked(Synced(b, bals, price, stables, now), price).nav;
            var risky := RiskySymbols(bals, stables);
            && nav <= ChainValue(bals, price, stables)
            && ChainValue(bals, price, stables) - nav <= risky as real * DUST_USD
            && (risky > 0 ==> ChainValue(bals, price, stables) - nav < risky as real * DUST_USD)
  {
    if bals != [] {
      var n := |bals| - 1;
      ReconciledNavIsChainValue(b, bals[..n], price, stables, now);
      var x := bals[n];
      assert RiskyUsd(x, price) >= 0.0;
      var p := Reconciled(bals[..n], b.positions, price, stables, now);
      if Kept(x, price, stables) {
        var y := Reanchored(x, b.positions, price, now);
        MarkedRiskAppend(p, y, price);
        KeptIsPriced(x, y, price, stables);
      } else {
        assert p + [] == p;
      }
    }
  }
}
