/** What a breach of the gate in the recorded drawdowns says about the real curve, and what the absence of one
    does not (backtest/metrics.py:81-86, backtest/run.py:274-290). */
module Breaches {
  import opened Wrappers
  import opened Arithmetic
  import opened Metrics
  import opened Portfolios
  import opened Champion
  import opened Backtest
  import opened Samples

  /** The curve that starts at `initial` falls, by the value at index `h` of `navs`, by the gate or more. */
  ghost predicate FallsBy(initial: real, navs: seq<real>, h: nat, gate: real)
    requires h < |navs|
  {
    var curve := [initial] + navs;
    exists j | 0 <= j <= h + 1 :: curve[j] > 0.0 && DropPct(curve[j], navs[h]) >= gate
  }

  lemma FirstPeak(initial: real)
    ensures PeakAfter(None, [initial]) == Some(initial)
  {
    assert [initial][..0] == [];
  }

  // The peak behind the true drawdown is the greatest value of the curve.
  lemma PeakOfCurve(initial: real, navs: seq<real>, h: nat) returns (j: nat)
    requires h < |navs|
    ensures var curve, high := [initial] + navs, Raised(PeakAfter(Some(initial), navs[..h]), navs[h]);
            j <= h + 1 && curve[j] == high && forall k | 0 <= k <= h + 1 :: curve[k] <= high
  {
    var curve, seen := [initial] + navs, [initial] + navs[..h + 1];
    ScanSplits(None, [initial], navs[..h + 1]);
    FirstPeak(initial);
    ScanStep(Some(initial), navs, h);
    PeakIsMax(seen);
    var high := PeakAfter(None, seen).value;
    var i :| 0 <= i < |seen| && seen[i] == high;
    j := i;
    forall k | 0 <= k <= h + 1 ensures curve[k] == seen[k] {
    }
  }

  /** The true drawdown reaches a gate exactly if the curve falls by it. */
  lemma TrueDropMeans(initial: real, navs: seq<real>, h: nat, gate: real)
    requires initial >= 0.0 && NonNegative(navs) && h < |navs| && gate > 0.0
    ensures TrueDrop(initial, navs, h) >= gate <==> FallsBy(initial, navs, h, gate)
  {
    hide DropPct, PeakAfter;
    var j := PeakOfCurve(initial, navs, h);
    var curve := [initial] + navs;
    if FallsBy(initial, navs, h, gate) {
      var i :| 0 <= i <= h + 1 && curve[i] > 0.0 && DropPct(curve[i], navs[h]) >= gate;
      DropMonotone(curve[i], curve[j], navs[h]);
    }
    if TrueDrop(initial, navs, h) >= gate { assert curve[j] > 0.0 && DropPct(curve[j], navs[h]) >= gate; }
  }

  /** A reported breach is a true breach, wherever the NAVs before it are at or above the margin. */
  lemma BreachIsTrue(initial: real, t: Tracked, h: nat, gate: real)
    requires Ratchets(initial, t) && initial >= 0.0
    requires h < |t.book.navs| && Robust(t.book.navs, h) && gate > 0.0 && t.book.drops[h] >= gate
    ensures FallsBy(initial, t.book.navs, h, gate) && WorstDrop(None, [initial] + t.book.navs) >= gate
  {
    hide DropPct, TrueDrop, PeakOf;
    TrueDropMeans(initial, t.book.navs, h, gate);
    FallIsDrawdown(initial, t.book.navs, h, gate);
  }

  // A fall of the curve is in its maximum drawdown.
  lemma FallIsDrawdown(initial: real, navs: seq<real>, h: nat, gate: real)
    requires initial >= 0.0 && NonNegative(navs) && h < |navs| && FallsBy(initial, navs, h, gate)
    ensures WorstDrop(None, [initial] + navs) >= gate
  {
    hide DropPct, WorstDrop;
    var curve := [initial] + navs;
    var j :| 0 <= j <= h + 1 && curve[j] > 0.0 && DropPct(curve[j], navs[h]) >= gate;
    assert curve[h + 1] == navs[h];
    WorstDropIsMaximum(curve);
  }

  /** As long as the high-water mark has not been re-based, the hours reported are the hours of true breaches, so
      that the first one reported is the first there is. */
  lemma UnrebasedBreachIsExact(initial: real, t: Tracked, h: nat, gate: real)
    requires Ratchets(initial, t) && !t.rebased && initial >= 0.0 && h < |t.book.navs| && gate > 0.0
    ensures t.book.drops[h] >= gate <==> FallsBy(initial, t.book.navs, h, gate)
  {
    hide DropPct, TrueDrop, PeakOf;
    TrueDropMeans(initial, t.book.navs, h, gate);
  }

  /** The hour that the backtest takes for the first breach, on a book whose mark was never re-based. */
  method FirstBreach(initial: real, ghost t: Tracked, drops: seq<real>, gate: real) returns (hour: Option<nat>)
    requires Ratchets(initial, t) && !t.rebased && initial >= 0.0 && gate > 0.0 && drops == t.book.drops
    ensures hour.None? <==> forall h | 0 <= h < |drops| :: !FallsBy(initial, t.book.navs, h, gate)
    ensures hour.Some? ==> hour.value < |drops| && FallsBy(initial, t.book.navs, hour.value, gate)
    ensures hour.Some? ==> forall h | 0 <= h < hour.value :: !FallsBy(initial, t.book.navs, h, gate)
  {
    hour := FirstBreachHour(drops, gate);
    forall h | 0 <= h < |drops| ensures drops[h] >= gate <==> FallsBy(initial, t.book.navs, h, gate) {
      UnrebasedBreachIsExact(initial, t, h, gate);
    }
    hide Ratchets, FallsBy;
  }

  // ---------------------------------------------------------------- a breach that a re-baseline hides

  const GATE: real := 6.0
  const CAPITAL: real := 10000.0

  // A thousand dollars go in every 25 hours, and out at a loss of ten percent. The price halves in hour 26 and
  // falls by a fifth in hour 51; in hour 50, a day after the first loss, the mark is re-based.
  const PLAN := Script(1000.0, 10.0, 900.0, 25)

  function Crash(): (prices: seq<real>)
    ensures |prices| == 52 && NonNegative(prices) && prices[26] == 0.5 && prices[51] == 0.8
    ensures (forall h | 0 <= h < 26 :: prices[h] == PAID) && (forall h | 27 <= h < 51 :: prices[h] == PAID)
  {
    Even(26, PAID) + [0.5] + Even(24, PAID) + [0.8]
  }

  const AFTER_FIRST: real := CAPITAL - 1002.5 + NET * 500.0
  const AFTER_SECOND: real := AFTER_FIRST - 1002.5 + NET * 800.0

  lemma CrashReady(n: nat)
    requires n <= 52
    ensures Ready(PLAN, Crash(), CAPITAL, n)
  {
  }

  // Before each purchase, after it, and after the sale of the next hour.
  function Waiting(): Book {
    IdledUntil(Idled(Start(CAPITAL).book, 0), 24)
  }

  function Holding(b: Book, h: int, trades: nat): Book {
    var n := b.account.cash - 1002.5 + 1000.0 / 1.003;
    b.(account := Invested(b.account.cash - 1002.5, 1000.0, h, trades), flatSince := None,
       navs := b.navs + [n], drops := b.drops + [DropAt(Some(b.hwm), n)], hoursInMarket := b.hoursInMarket + 1)
  }

  function Stopped(b: Book, h: int, cash: real, trades: nat): Book {
    b.(account := Empty(cash, trades), flatSince := Some(h),
       navs := b.navs + [cash], drops := b.drops + [DropAt(Some(b.hwm), cash)])
  }

  function FirstLoss(): Book {
    Stopped(Holding(Waiting(), 25, 1), 26, AFTER_FIRST, 2)
  }

  function Resting(): Book {
    IdledUntil(FirstLoss(), 23)
  }

  function Forgotten(): Book {
    var b := Resting();
    b.(hwm := AFTER_FIRST, drops := if b.drops == [] then [] else b.drops[|b.drops| - 1 := 0.0], flatSince := None)
  }

  function SecondLoss(): Book {
    Stopped(Holding(Forgotten(), 50, 3), 51, AFTER_SECOND, 4)
  }

  // ---- the first loss

  lemma WaitingIsQuiet()
    ensures var b := Start(CAPITAL).book;
            && b.account == Empty(CAPITAL, 0) && 0.0 <= b.account.cash <= b.hwm && !Rebaselines(b, MarketOf(Crash(), 0))
            && Quiet(PLAN, Idled(b, 0), 1, 25)
  {
    hide RiskyValue, Crash;
  }

  lemma WaitingShape()
    ensures var b := Waiting();
            && b.account == Empty(CAPITAL, 0) && b.hwm == CAPITAL && b.flatSince == Some(0)
            && |b.navs| == |b.drops| == 25 && LastDrop(b) == 0.0
            && forall k | 0 <= k < 25 :: b.navs[k] == CAPITAL && b.drops[k] == 0.0
  {
  }

  lemma WaitingDone()
    ensures Reaches(PLAN, Crash(), CAPITAL, 25, Tracked(Waiting(), false))
  {
    CrashReady(0);
    CrashReady(1);
    CrashReady(25);
    WaitingIsQuiet();
    hide Crash, Reaches, IdledUntil, Idled, Quiet, Ready, Rebaselines, MarketOf, Due, DropAt;
    Begins(PLAN, Crash(), CAPITAL);
    OneMoreIdle(PLAN, Crash(), CAPITAL, 0, Start(CAPITAL));
    IdleHours(PLAN, Crash(), CAPITAL, 1, 24, Tracked(Idled(Start(CAPITAL).book, 0), false));
  }

  lemma StakeWorth(h: nat, cash: real, since: int, trades: nat)
    requires h < 52
    ensures var m, a := MarketOf(Crash(), h), Invested(cash, 1000.0, since, trades);
            RiskyValue(a.qty, m.prices) == 1000.0 * Crash()[h] && Nav(a, m.prices) == cash + 1000.0 * Crash()[h]
  {
    ValueOfStake(1000.0, Crash(), h);
    hide RiskyValue, Crash;
  }

  lemma FirstPurchase()
    ensures var t := Tracked(Waiting(), false);
            && Purchasable(PLAN, Crash(), 25, t, CAPITAL, 0)
            && Purchased(PLAN, Crash(), 25, t, CAPITAL, 0) == Tracked(Holding(Waiting(), 25, 1), false)
  {
    WaitingShape();
    StakeWorth(25, CAPITAL - 1002.5, 25, 1);
    var b, m := Waiting(), MarketOf(Crash(), 25);
    NothingHeld(b.account, m.prices);
    hide RiskyValue, Nav, DropAt, Waiting, Crash, NonNegative;
    MarkBelow(Cooled(JustBought(PLAN, Crash(), 25, Tracked(b, false), CAPITAL, 0), m), m.prices);
  }

  // The hour after a purchase, at a price that stops the loss.
  lemma LossSale(b: Book, rebased: bool, since: nat, cash: real, trades: nat, left: real)
    requires since == 25 || since == 50
    requires b.account.cash == cash >= 1002.5 && left == cash - 1002.5 + NET * (1000.0 * Crash()[since + 1]) <= b.hwm
    ensures var t := Tracked(Holding(b, since, trades), rebased);
            var k := Stock(cash - 1002.5, 1000.0, since, trades);
            && Salable(PLAN, Crash(), since + 1, t, k)
            && SoldOut(Crash(), since + 1, t, k) == Tracked(Stopped(t.book, since + 1, left, trades + 1), rebased)
  {
    var t, k := Tracked(Holding(b, since, trades), rebased), Stock(cash - 1002.5, 1000.0, since, trades);
    var m := MarketOf(Crash(), since + 1);
    StakeWorth(since + 1, cash - 1002.5, since, trades);
    assert Product(Crash()[since + 1], 1000.0) == 1000.0 * Crash()[since + 1];
    hide RiskyValue, Nav, DropAt, Crash, NonNegative, Product;
    SaleUnseen(t, m, k, left);
    assert JustSold(Crash(), since + 1, t, k) == t.book.(account := Empty(left, trades + 1), flatSince := None);
  }

  // A book just sold out counts as flat from now on.
  lemma SaleUnseen(t: Tracked, m: Market, k: Stock, left: real)
    requires left <= t.book.hwm && t.book.flatSince == None && RiskyValue(t.book.account.qty, m.prices) > FLAT
    ensures var sold := t.book.(account := Empty(left, k.trades + 1), flatSince := None);
            && Cooled(t.book, m) == t.book && !Rebaselines(t.book, m) && !Rebaselines(sold, m)
            && Marked(Cooled(sold, m), m.prices) == Stopped(t.book, m.hour, left, k.trades + 1)
  {
    NothingHeld(Empty(left, k.trades + 1), m.prices);
    hide RiskyValue, Nav, DropAt;
    MarkBelow(Cooled(t.book.(account := Empty(left, k.trades + 1), flatSince := None), m), m.prices);
  }

  lemma FirstSale()
    ensures var t, k := Tracked(Holding(Waiting(), 25, 1), false), Stock(CAPITAL - 1002.5, 1000.0, 25, 1);
            && Salable(PLAN, Crash(), 26, t, k) && SoldOut(Crash(), 26, t, k) == Tracked(FirstLoss(), false)
  {
    WaitingShape();
    hide Waiting, Holding, Stopped, Salable, SoldOut;
    LossSale(Waiting(), false, 25, CAPITAL, 1, AFTER_FIRST);
  }

  lemma FirstLossDone()
    ensures Reaches(PLAN, Crash(), CAPITAL, 27, Tracked(FirstLoss(), false))
  {
    CrashReady(26);
    CrashReady(27);
    WaitingDone();
    FirstPurchase();
    FirstSale();
    hide Crash, Reaches, Waiting, Holding, FirstLoss, Ready, MarketOf, Purchasable, Purchased, Salable, SoldOut,
      Tradable, Healthy, AfterHour;
    var t := Tracked(Waiting(), false);
    PurchaseHour(PLAN, Crash(), 25, t, CAPITAL, 0);
    NextHour(PLAN, Crash(), CAPITAL, 25, t);
    var u := Tracked(Holding(Waiting(), 25, 1), false);
    SaleHour(PLAN, Crash(), 26, u, Stock(CAPITAL - 1002.5, 1000.0, 25, 1));
    NextHour(PLAN, Crash(), CAPITAL, 26, u);
  }

  // ---- a day without holdings, and the second loss

  lemma RestingIsQuiet()
    ensures Quiet(PLAN, FirstLoss(), 27, 50)
  {
    WaitingShape();
    hide Waiting, DropAt;
  }

  lemma RestingDone()
    ensures Reaches(PLAN, Crash(), CAPITAL, 50, Tracked(Resting(), false))
  {
    CrashReady(50);
    RestingIsQuiet();
    FirstLossDone();
    hide Crash, Reaches, FirstLoss, Ready, Quiet, IdledUntil;
    IdleHours(PLAN, Crash(), CAPITAL, 27, 23, Tracked(FirstLoss(), false));
  }

  lemma FirstDrops()
    ensures DropAt(Some(CAPITAL), AFTER_FIRST) == (CAPITAL - AFTER_FIRST) / 100.0 < GATE
    ensures DropAt(Some(CAPITAL), AFTER_FIRST) > 0.5
    ensures DropAt(Some(CAPITAL), CAPITAL - 1002.5 + 1000.0 / 1.003) < GATE
  {
  }

  lemma RestingShape()
    ensures var b := Resting();
            && b.account == Empty(AFTER_FIRST, 2) && b.hwm == CAPITAL && b.flatSince == Some(26)
            && |b.navs| == |b.drops| == 50 && LastDrop(b) > 0.5
            && (forall k | 0 <= k < 50 :: AFTER_FIRST <= b.navs[k] <= CAPITAL && b.drops[k] < GATE)
  {
    WaitingShape();
    FirstDrops();
    hide Waiting, DropAt;
    var b, l := Resting(), FirstLoss();
    assert b.navs == l.navs + Even(23, AFTER_FIRST);
    assert b.drops == l.drops + Even(23, DropAt(Some(CAPITAL), AFTER_FIRST));
    forall k | 0 <= k < 50 ensures AFTER_FIRST <= b.navs[k] <= CAPITAL && b.drops[k] < GATE {
      if k < 25 {
        assert b.navs[k] == Waiting().navs[k] && b.drops[k] == Waiting().drops[k];
      }
    }
  }

  lemma ForgottenShape()
    ensures Forgotten().account == Empty(AFTER_FIRST, 2)
    ensures Forgotten().hwm == AFTER_FIRST && Forgotten().flatSince == None
  {
    RestingShape();
    hide Resting;
  }

  lemma Forgets()
    ensures var b, m := Resting(), MarketOf(Crash(), 50);
            Rebaselines(b, m) && Cooled(b, m) == Forgotten() && b.account == Empty(AFTER_FIRST, 2)
  {
    RestingShape();
    var b, m := Resting(), MarketOf(Crash(), 50);
    NothingHeld(b.account, m.prices);
    hide RiskyValue, Nav, DropAt, Resting, Crash;
  }

  lemma SecondPurchase()
    ensures var t := Tracked(Resting(), false);
            && Purchasable(PLAN, Crash(), 50, t, AFTER_FIRST, 2)
            && Purchased(PLAN, Crash(), 50, t, AFTER_FIRST, 2) == Tracked(Holding(Forgotten(), 50, 3), true)
  {
    Forgets();
    ForgottenShape();
    StakeWorth(50, AFTER_FIRST - 1002.5, 50, 3);
    var t, m := Tracked(Resting(), false), MarketOf(Crash(), 50);
    var bought := JustBought(PLAN, Crash(), 50, t, AFTER_FIRST, 2);
    assert bought == Forgotten().(account := Invested(AFTER_FIRST - 1002.5, 1000.0, 50, 3));
    SecondUnseen(bought);
    hide RiskyValue, Nav, DropAt, Resting, Forgotten, Crash, NonNegative, Cooled, Rebaselines, Marked;
  }

  lemma SecondUnseen(bought: Book)
    requires bought == Forgotten().(account := Invested(AFTER_FIRST - 1002.5, 1000.0, 50, 3))
    ensures var m := MarketOf(Crash(), 50);
            !Rebaselines(bought, m) && Marked(Cooled(bought, m), m.prices) == Holding(Forgotten(), 50, 3)
  {
    ForgottenShape();
    StakeWorth(50, AFTER_FIRST - 1002.5, 50, 3);
    var m := MarketOf(Crash(), 50);
    hide RiskyValue, Nav, DropAt, Forgotten, Crash;
    MarkBelow(Cooled(bought, m), m.prices);
  }

  lemma SecondSale()
    ensures var t, k := Tracked(Holding(Forgotten(), 50, 3), true), Stock(AFTER_FIRST - 1002.5, 1000.0, 50, 3);
            && Salable(PLAN, Crash(), 51, t, k) && SoldOut(Crash(), 51, t, k) == Tracked(SecondLoss(), true)
  {
    ForgottenShape();
    hide Forgotten, Holding, Stopped, Salable, SoldOut, Crash;
    LossSale(Forgotten(), true, 50, AFTER_FIRST, 3, AFTER_SECOND);
  }

  lemma SecondLossDone()
    ensures Reaches(PLAN, Crash(), CAPITAL, 52, Tracked(SecondLoss(), true))
  {
    CrashReady(51);
    CrashReady(52);
    RestingDone();
    SecondPurchase();
    SecondSale();
    hide Crash, Reaches, Resting, Forgotten, Holding, SecondLoss, Ready, MarketOf, Purchasable, Purchased, Salable,
      SoldOut, Tradable, Healthy, AfterHour;
    var t := Tracked(Resting(), false);
    PurchaseHour(PLAN, Crash(), 50, t, AFTER_FIRST, 2);
    NextHour(PLAN, Crash(), CAPITAL, 50, t);
    var u := Tracked(Holding(Forgotten(), 50, 3), true);
    SaleHour(PLAN, Crash(), 51, u, Stock(AFTER_FIRST - 1002.5, 1000.0, 50, 3));
    NextHour(PLAN, Crash(), CAPITAL, 51, u);
  }

  lemma SecondDrops()
    ensures DropAt(Some(AFTER_FIRST), AFTER_FIRST - 1002.5 + 1000.0 / 1.003) < GATE
    ensures DropAt(Some(AFTER_FIRST), AFTER_SECOND) < GATE
    ensures DropAt(Some(CAPITAL), AFTER_SECOND) >= GATE
  {
  }

  lemma SecondLossShape()
    ensures var b := SecondLoss();
            && |b.navs| == |b.drops| == 52 && b.navs[51] == AFTER_SECOND
            && (forall k | 0 <= k < 51 :: AFTER_SECOND <= b.navs[k] <= CAPITAL)
            && (forall k | 0 <= k < 52 :: b.drops[k] < GATE)
  {
    RestingShape();
    SecondDrops();
    hide Resting, DropAt;
    var b, r := SecondLoss(), Resting();
    forall k | 0 <= k < 51 ensures AFTER_SECOND <= b.navs[k] <= CAPITAL {
      if k < 50 { assert b.navs[k] == r.navs[k]; }
    }
    forall k | 0 <= k < 52 ensures b.drops[k] < GATE {
      if k < 49 { assert b.drops[k] == r.drops[k]; }
    }
  }

  /** With a re-baseline a true breach can go unreported: on this run from hour 0 on every recorded drawdown is
      below the gate, while the curve has fallen from 10000 by more than the gate, far above any margin. */
  lemma BreachUnreported()
    ensures var r := RunOf(PLAN, Crash(), CAPITAL, 52);
            && Runs(r) && |Outcome(r).book.navs| == |Outcome(r).book.drops| == 52
            && Robust(Outcome(r).book.navs, 52)
            && (forall h | 0 <= h < 52 :: Outcome(r).book.drops[h] < GATE)
            && FallsBy(CAPITAL, Outcome(r).book.navs, 51, GATE)
            && WorstDrop(None, [CAPITAL] + Outcome(r).book.navs) >= GATE
  {
    SecondLossDone();
    SecondLossShape();
    SecondDrops();
    hide Outcome, Runs, SecondLoss, Crash, DropAt;
    var navs := SecondLoss().navs;
    FallFromStart(navs);
    FallIsDrawdown(CAPITAL, navs, 51, GATE);
  }

  lemma FallFromStart(navs: seq<real>)
    requires |navs| == 52 && navs[51] == AFTER_SECOND
    ensures FallsBy(CAPITAL, navs, 51, GATE)
  {
    SecondDrops();
    assert ([CAPITAL] + navs)[0] == CAPITAL;
    assert DropPct(CAPITAL, AFTER_SECOND) == DropAt(Some(CAPITAL), AFTER_SECOND);
  }
}
