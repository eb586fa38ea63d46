/** What marking, filling and reconciling do to the ledger, entry by entry and without its functions
    (agent/core.py:222-260, agent/run_live.py:53-113). */
module Booking {
  import opened Arithmetic
  import opened Engine
  import opened Survival
  import opened Ledger

  // ---------------------------------------------------------------- marking

  /** A mark values each holding at its quote, or at its entry price if it has no quote or a quote of zero, and adds
      the cash; it changes nothing but the NAV and the high-water mark, which never falls below either. */
  lemma MarkMeans(b: Book, p: Position, price: Prices)
    ensures var m := Marked(b, price);
            && m.positions == b.positions && m.stable == b.stable
            && m.hwm >= b.hwm && m.hwm >= m.nav && (m.hwm == b.hwm || m.hwm == m.nav)
    ensures Marked(b.(positions := []), price).nav == b.stable
    ensures Marked(b.(positions := b.positions + [p]), price).nav - Marked(b, price).nav
         == Product(p.qty, if p.symbol in price && price[p.symbol] != 0.0 then price[p.symbol] else p.entryPrice)
  {
    MarkedRiskAppend(b.positions, p, price);
  }

  /** Marking again at the same prices changes nothing. */
  lemma MarkedTwice(b: Book, price: Prices)
    ensures Marked(Marked(b, price), price) == Marked(b, price)
  {
  }

  // ---------------------------------------------------------------- fills

  // The position that the ledger keeps in `t`.
  predicate FirstIn(positions: seq<Position>, t: Token, i: nat)
    requires i < |positions|
  {
    positions[i].symbol == t && forall k | 0 <= k < i :: positions[k].symbol != t
  }

  lemma FindMeans(positions: seq<Position>, t: Token)
    ensures var i := Find(positions, t);
            && (i == |positions| <==> forall k | 0 <= k < |positions| :: positions[k].symbol != t)
            && (forall k | 0 <= k < |positions| :: FirstIn(positions, t, k) <==> k == i)
  {
  }

  // `q` is `p` after `amount` dollars more were put into it at the price `px`.
  predicate Grown(p: Position, q: Position, amount: real, px: real) {
    && q.symbol == p.symbol && q.entryTs == p.entryTs
    && Product(q.qty, px) == Product(p.qty, px) + amount
    && (q.qty != 0.0 ==> Product(q.entryPrice, q.qty) == Product(p.entryPrice, p.qty) + amount)
  }

  /** `c` is `b` after `amount` dollars of `t` were bought at the price `px`. */
  predicate BoughtAt(b: Book, c: Book, t: Token, amount: real, px: real, now: real) {
    && c.stable == b.stable - amount && c.nav == b.nav && c.hwm == b.hwm
    && (forall i | 0 <= i < |b.positions| && FirstIn(b.positions, t, i) ::
          && |c.positions| == |b.positions| && c.positions == b.positions[i := c.positions[i]]
          && Grown(b.positions[i], c.positions[i], amount, px))
    && ((forall k | 0 <= k < |b.positions| :: b.positions[k].symbol != t) ==>
          && |c.positions| == |b.positions| + 1 && c.positions[..|b.positions|] == b.positions
          && var p := c.positions[|b.positions|];
             p.symbol == t && Product(p.qty, px) == amount && p.entryPrice == px && p.entryTs == now)
  }

  lemma AverageGrows(p: Position, amount: real, px: real)
    requires px > 0.0
    ensures Grown(p, Averaged(p, amount / px, px), amount, px)
  {
    var qty := amount / px;
    Quotient(amount, px);
    Spread(p.qty, qty, px);
    if p.qty + qty != 0.0 {
      assert (p.entryPrice * p.qty + px * qty) / (p.qty + qty) * (p.qty + qty) == p.entryPrice * p.qty + px * qty;
    }
  }

  lemma BuyIsBoughtAt(b: Book, t: Token, amount: real, px: real, now: real)
    requires px > 0.0
    ensures BoughtAt(b, BuyFilled(b, t, amount, px, now), t, amount, px, now)
  {
    FindMeans(b.positions, t);
    var i := Find(b.positions, t);
    Quotient(amount, px);
    if i < |b.positions| { AverageGrows(b.positions[i], amount, px); }
    hide Product, Averaged, Grown, Find, FirstIn;
  }

  lemma {:induction false} MarkedRiskUpdate(positions: seq<Position>, i: nat, q: Position, price: Prices)
    requires i < |positions|
    ensures MarkedRisk(positions[i := q], price)
         == MarkedRisk(positions, price) - PositionUsd(positions[i], price) + PositionUsd(q, price)
  {
    hide PositionUsd;
    var n := |positions| - 1;
    if i < n {
      MarkedRiskUpdate(positions[..n], i, q, price);
      assert positions[i := q][..n] == positions[..n][i := q];
    } else {
      assert positions[i := q][..n] == positions[..n];
    }
  }

  lemma {:induction false} MarkedRiskRemove(positions: seq<Position>, i: nat, price: Prices)
    requires i < |positions|
    ensures MarkedRisk(positions[..i] + positions[i + 1..], price)
         == MarkedRisk(positions, price) - PositionUsd(positions[i], price)
  {
    hide PositionUsd;
    var n := |positions| - 1;
    var fewer := positions[..i] + positions[i + 1..];
    if i < n {
      MarkedRiskRemove(positions[..n], i, price);
      assert fewer[..n - 1] == positions[..n][..i] + positions[..n][i + 1..];
    } else {
      assert fewer == positions[..n];
    }
  }

  // A holding of a quoted token is worth its quantity times the quote.
  lemma QuotedUsd(p: Position, price: Prices, px: real)
    requires p.symbol in price && price[p.symbol] == px > 0.0
    ensures PositionUsd(p, price) == Product(p.qty, px)
  {
  }

  lemma BuyKeepsValue(b: Book, c: Book, t: Token, amount: real, price: Prices, now: real)
    requires t in price && price[t] > 0.0 && BoughtAt(b, c, t, amount, price[t], now)
    ensures Marked(c, price).nav == Marked(b, price).nav
  {
    hide Product, MarkedRisk, PositionUsd, FirstIn;
    FindMeans(b.positions, t);
    var i, px := Find(b.positions, t), price[t];
    if i < |b.positions| {
      MarkedRiskUpdate(b.positions, i, c.positions[i], price);
      QuotedUsd(b.positions[i], price, px);
      QuotedUsd(c.positions[i], price, px);
    } else {
      var p := c.positions[|b.positions|];
      MarkedRiskAppend(b.positions, p, price);
      assert c.positions == b.positions + [p];
      QuotedUsd(p, price, px);
    }
  }

  /** A buy is booked exactly when its token has a positive quote and the cash suffices, up to a billionth. Then the
      cash falls by the amount, the quantity and the cost basis of the position rise by it, an old position keeps
      its entry time, the other positions are left alone, and the NAV at the quotes is what it was. */
  lemma BuyMeans(b: Book, d: Decision, amount: real, price: Prices, now: real)
    requires d.side == Buy
    ensures var c := Filled(b, d, amount, price, now);
            if d.to in price && price[d.to] > 0.0 && amount <= b.stable + 0.000000001 then
              BoughtAt(b, c, d.to, amount, price[d.to], now) && Marked(c, price).nav == Marked(b, price).nav
            else c == b
  {
    hide BuyFilled, Marked, BoughtAt;
    if d.to in price && price[d.to] > 0.0 && amount <= b.stable + FILL_SLACK {
      BuyIsBoughtAt(b, d.to, amount, price[d.to], now);
      BuyKeepsValue(b, Filled(b, d, amount, price, now), d.to, amount, price, now);
    }
  }

  function Least(x: real, y: real): real {
    if x < y then x else y
  }

  /** `c` is `b` after at most `amount` dollars of the position at `i` were sold at the price `px`; `dropped` is the
      value of what was left of a position that was closed. */
  predicate SoldAt(b: Book, c: Book, i: nat, amount: real, px: real, dropped: real)
    requires i < |b.positions|
  {
    var p := b.positions[i];
    var worth := Product(p.qty, px);
    var paid := Least(amount, worth);
    && c.stable == b.stable + paid && c.nav == b.nav && c.hwm == b.hwm
    && if |c.positions| == |b.positions| then
         && c.positions == b.positions[i := p.(qty := c.positions[i].qty)]
         && Product(c.positions[i].qty, px) == worth - paid && c.positions[i].qty > 0.000000001 && dropped == 0.0
       else
         c.positions == b.positions[..i] + b.positions[i + 1..] && dropped == worth - paid <= Product(0.000000001, px)
  }

  lemma SoldQtyWorth(held: real, amount: real, px: real)
    requires px > 0.0
    ensures Product(SoldQty(held, amount, px), px) == Least(amount, Product(held, px))
  {
    Quotient(amount, px);
    Gap(held - amount / px, px);
    Gap(amount / px - held, px);
    Spread(held, amount / px, px);
    Spread(amount / px, held, px);
    hide Product;
  }

  lemma SellIsSoldAt(b: Book, t: Token, amount: real, px: real) returns (dropped: real)
    requires px > 0.0 && Find(b.positions, t) < |b.positions|
    ensures SoldAt(b, SellFilled(b, t, amount, px), Find(b.positions, t), amount, px, dropped)
  {
    var i := Find(b.positions, t);
    var held := b.positions[i].qty;
    var sold := SoldQty(held, amount, px);
    SoldQtyWorth(held, amount, px);
    Spread(held, sold, px);
    assert sold * px == Product(sold, px);
    var rest := held - sold;
    Gap(FILL_SLACK - rest, px);
    Spread(FILL_SLACK, rest, px);
    dropped := if rest <= FILL_SLACK then Product(rest, px) else 0.0;
    hide Product, SoldQty, Find, Least;
    if rest > FILL_SLACK { assert |SellFilled(b, t, amount, px).positions| == |b.positions|; }
  }

  lemma SellKeepsValue(b: Book, c: Book, i: nat, amount: real, price: Prices, dropped: real)
    requires i < |b.positions| && b.positions[i].symbol in price && price[b.positions[i].symbol] > 0.0
    requires SoldAt(b, c, i, amount, price[b.positions[i].symbol], dropped)
    ensures Marked(c, price).nav == Marked(b, price).nav - dropped
  {
    hide Product, MarkedRisk, PositionUsd, Least;
    var px := price[b.positions[i].symbol];
    QuotedUsd(b.positions[i], price, px);
    if |c.positions| == |b.positions| {
      MarkedRiskUpdate(b.positions, i, c.positions[i], price);
      QuotedUsd(c.positions[i], price, px);
    } else {
      MarkedRiskRemove(b.positions, i, price);
    }
  }

  /** A sell is booked exactly when its token is held and has a positive quote. Then as much is sold as the amount
      asks for and the position holds, the cash rises by what that is worth, the rest of the position keeps its
      entry, the other positions are left alone, and the NAV at the quotes is what it was but for the value of at
      most a billionth of a unit left in a position that is closed. */
  lemma SellMeans(b: Book, d: Decision, amount: real, price: Prices, now: real)
    requires d.side == Sell
    ensures var c := Filled(b, d, amount, price, now);
            && (forall i | 0 <= i < |b.positions| && FirstIn(b.positions, d.from, i) ::
                  if d.from in price && price[d.from] > 0.0 then
                    exists dropped: real ::
                      && SoldAt(b, c, i, amount, price[d.from], dropped)
                      && Marked(c, price).nav == Marked(b, price).nav - dropped
                  else c == b)
            && ((forall k | 0 <= k < |b.positions| :: b.positions[k].symbol != d.from) ==> c == b)
  {
    hide SellFilled, Marked, SoldAt;
    FindMeans(b.positions, d.from);
    var i := Find(b.positions, d.from);
    if i < |b.positions| && d.from in price && price[d.from] > 0.0 {
      var dropped := SellIsSoldAt(b, d.from, amount, price[d.from]);
      SellKeepsValue(b, Filled(b, d, amount, price, now), i, amount, price, dropped);
    }
  }

  // ---------------------------------------------------------------- reconciling

  // The balance is in no stablecoin, and worth a dollar at its quote.
  predicate Counts(x: Balance, price: Prices, stables: set<Token>) {
    x.symbol !in stables && x.symbol in price && Product(x.qty, price[x.symbol]) >= 1.0
  }

  /** A position of the reconciled ledger: its quantity is a balance that counts; if the ledger before held the
      symbol, its entry is that of the position held, otherwise it is entered now at the quote. */
  predicate Rebuilt(p: Position, x: Balance, before: seq<Position>, price: Prices, stables: set<Token>, now: real) {
    && Counts(x, price, stables) && p.symbol == x.symbol && p.qty == x.qty
    && (forall i | 0 <= i < |before| && FirstIn(before, p.symbol, i) ::
          p.entryPrice == before[i].entryPrice && p.entryTs == before[i].entryTs)
    && ((forall k | 0 <= k < |before| :: before[k].symbol != p.symbol) ==>
          p.entryPrice == price[p.symbol] && p.entryTs == now)
  }

  lemma KeptIsRebuilt(x: Balance, before: seq<Position>, price: Prices, stables: set<Token>, now: real)
    ensures Kept(x, price, stables) <==> Counts(x, price, stables)
    ensures Kept(x, price, stables) ==> Rebuilt(Reanchored(x, before, price, now), x, before, price, stables, now)
  {
    FindMeans(before, x.symbol);
    hide Find, FirstIn;
  }

  /** After a successful reconcile the ledger holds exactly the balances that count, and what it knows of a symbol
      it held before is kept. */
  lemma {:induction false} SyncMeans(b: Book, bals: seq<Balance>, price: Prices, stables: set<Token>, now: real)
    ensures var c := Synced(b, bals, price, stables, now);
            && c.nav == b.nav && c.hwm == b.hwm
            && (forall k | 0 <= k < |c.positions| :: exists j | 0 <= j < |bals| ::
                  Rebuilt(c.positions[k], bals[j], b.positions, price, stables, now))
            && (forall j | 0 <= j < |bals| && Counts(bals[j], price, stables) :: exists k | 0 <= k < |c.positions| ::
                  Rebuilt(c.positions[k], bals[j], b.positions, price, stables, now))
  {
    hide Rebuilt, Counts, Kept, Reanchored;
    if bals != [] {
      var n := |bals| - 1;
      SyncMeans(b, bals[..n], price, stables, now);
      KeptIsRebuilt(bals[n], b.positions, price, stables, now);
      var p, q := Synced(b, bals[..n], price, stables, now).positions, Synced(b, bals, price, stables, now).positions;
      var last := if Kept(bals[n], price, stables) then [Reanchored(bals[n], b.positions, price, now)] else [];
      assert q == p + last;
      forall k | 0 <= k < |q|
        ensures exists j | 0 <= j < |bals| :: Rebuilt(q[k], bals[j], b.positions, price, stables, now)
      {
        if k < |p| {
          var j :| 0 <= j < n && Rebuilt(p[k], bals[..n][j], b.positions, price, stables, now);
          assert Rebuilt(q[k], bals[j], b.positions, price, stables, now);
        } else {
          assert Rebuilt(q[k], bals[n], b.positions, price, stables, now);
        }
      }
      forall j | 0 <= j < |bals| && Counts(bals[j], price, stables)
        ensures exists k | 0 <= k < |q| :: Rebuilt(q[k], bals[j], b.positions, price, stables, now)
      {
        if j < n {
          assert bals[..n][j] == bals[j];
          var k :| 0 <= k < |p| && Rebuilt(p[k], bals[j], b.positions, price, stables, now);
          assert Rebuilt(q[k], bals[j], b.positions, price, stables, now);
        } else {
          assert Rebuilt(q[|p|], bals[j], b.positions, price, stables, now);
        }
      }
    }
  }

  // The balance that a position of the reconciled ledger stands for, and the other way round.
  lemma SyncedFrom(b: Book, bals: seq<Balance>, price: Prices, stables: set<Token>, now: real, k: nat) returns (j: nat)
    requires k < |Synced(b, bals, price, stables, now).positions|
    ensures j < |bals|
    ensures Rebuilt(Synced(b, bals, price, stables, now).positions[k], bals[j], b.positions, price, stables, now)
  {
    hide Rebuilt, Counts, Synced;
    SyncMeans(b, bals, price, stables, now);
    var c := Synced(b, bals, price, stables, now);
    var p := c.positions[k];
    j :| 0 <= j < |bals| && Rebuilt(p, bals[j], b.positions, price, stables, now);
  }

  lemma SyncedTo(b: Book, bals: seq<Balance>, price: Prices, stables: set<Token>, now: real, j: nat) returns (k: nat)
    requires j < |bals| && Counts(bals[j], price, stables)
    ensures k < |Synced(b, bals, price, stables, now).positions|
    ensures Rebuilt(Synced(b, bals, price, stables, now).positions[k], bals[j], b.positions, price, stables, now)
  {
    hide Rebuilt, Counts, Synced;
    SyncMeans(b, bals, price, stables, now);
    var c := Synced(b, bals, price, stables, now);
    assert Counts(bals[j], price, stables);
    k :| 0 <= k < |c.positions| && Rebuilt(c.positions[k], bals[j], b.positions, price, stables, now);
  }

  /** Its cash is what the stablecoins are worth, one without a quote or with a quote of zero counting for a dollar. */
  lemma SyncedCash(b: Book, bals: seq<Balance>, x: Balance, price: Prices, stables: set<Token>, now: real)
    ensures Synced(b, [], price, stables, now).stable == 0.0
    ensures Synced(b, bals + [x], price, stables, now).stable - Synced(b, bals, price, stables, now).stable
         == if x.symbol !in stables then 0.0
            else Product(x.qty, if x.symbol in price && price[x.symbol] != 0.0 then price[x.symbol] else 1.0)
  {
    assert (bals + [x])[..|bals|] == bals;
  }
}
