/** How far the tolerance of the flatness test reaches (backtest/champion.py:171-179): the NAV from which a
    re-baseline cannot raise the high-water mark, and from which the recorded drawdowns are sound. */
module Threshold {
  import opened Wrappers
  import opened Arithmetic
  import opened Metrics
  import opened Portfolios
  import opened Champion
  import opened Backtest
  import opened Samples

  // ---------------------------------------------------------------- a day of one asset

  // The asset is bought in hour 22 for less than the tolerance, so that the book goes on counting as flat. In
  // hour 23 its price is nothing, and the NAV is marked at `left`. In hour 24, a day after the book was first
  // seen flat, the price makes the holding worth exactly the tolerance.

  // The notional: with its fee it is more than 1/199 of what is left, and less than the tolerance.
  function Stake(left: real): real {
    (left / 199.0 + FLAT) / 2.0 / 1.0025
  }

  function Initial(left: real): real {
    left + 1.0025 * Stake(left)
  }

  function Plan(left: real): Script {
    Script(Stake(left), 200.0, 0.1, 22)
  }

  // The price at which the stake is worth the tolerance.
  function Rebound(left: real): real
    requires left >= 0.0
  {
    FLAT / Stake(left)
  }

  function Day(left: real): (prices: seq<real>)
    requires left >= 0.0
    ensures |prices| == 25 && prices[23] == 0.0 && prices[24] == Rebound(left)
    ensures forall h | 0 <= h < 23 :: prices[h] == PAID
  {
    Even(23, PAID) + [0.0, Rebound(left)]
  }

  predicate Small(left: real) {
    0.0 <= left < MARGIN
  }

  lemma StakeBounds(left: real)
    requires Small(left)
    ensures var x := Stake(left);
            && Initial(left) == left + 1.0025 * x
            && 0.0 < x && left < 199.0 * 1.0025 * x && 1.0025 * x < FLAT && 0.005 * Initial(left) < 1.0025 * x
  {
  }

  lemma ReboundBounds(left: real)
    requires Small(left)
    ensures Rebound(left) > 1.002 && Product(Stake(left), Rebound(left)) == FLAT == Product(Rebound(left), Stake(left))
  {
    StakeBounds(left);
    hide Initial;
    var x := Stake(left);
    var q := FLAT / x;
    Quotient(FLAT, x);
    assert Product(q, x) == Product(x, q);
    Spread(1.002, q, x);
    if q <= 1.002 { BothNonNegative(1.002 - q, x); }
  }

  lemma DayReady(left: real)
    requires Small(left)
    ensures left >= 0.0 && |Day(left)| == 25
    ensures forall n: nat | n <= 25 :: Ready(Plan(left), Day(left), Initial(left), n)
  {
    StakeBounds(left);
    ReboundBounds(left);
    hide Stake, Initial, Rebound;
  }

  // ---------------------------------------------------------------- hours 0 to 21: nothing happens

  function Waited(left: real): Book {
    IdledUntil(Idled(Start(Initial(left)).book, 0), 21)
  }

  lemma WaitedShape(left: real)
    requires Small(left)
    ensures var b, i := Waited(left), Initial(left);
            && b.account == Empty(i, 0) && b.hwm == i && b.hoursInMarket == 0 && b.flatSince == Some(0)
            && |b.navs| == |b.drops| == 22 && (forall k | 0 <= k < 22 :: b.navs[k] == i)
            && LastDrop(b) == 0.0
  {
    StakeBounds(left);
    hide Stake, Initial;
  }

  lemma WaitingIsQuiet(left: real)
    requires Small(left)
    ensures var b, m := Start(Initial(left)).book, MarketOf(Day(left), 0);
            && b.account == Empty(Initial(left), 0) && 0.0 <= Initial(left) <= b.hwm && !Rebaselines(b, m)
            && Quiet(Plan(left), Idled(b, 0), 1, 22)
  {
    StakeBounds(left);
    hide Stake, Initial, RiskyValue, DropAt, Day;
  }

  lemma FirstHours(left: real)
    requires Small(left)
    ensures Reaches(Plan(left), Day(left), Initial(left), 22, Tracked(Waited(left), false))
  {
    DayReady(left);
    WaitingIsQuiet(left);
    hide Initial, Plan, Reaches, IdledUntil, Idled, Quiet, Ready, Day, Rebaselines, MarketOf, Due;
    var p, prices, i := Plan(left), Day(left), Initial(left);
    Begins(p, prices, i);
    OneMoreIdle(p, prices, i, 0, Start(i));
    IdleHours(p, prices, i, 1, 21, Tracked(Idled(Start(i).book, 0), false));
  }

  // ---------------------------------------------------------------- hour 22: the purchase

  function Bet(left: real): Account {
    Invested(left, Stake(left), 22, 1)
  }

  function Opened(left: real): Book {
    var b, n := Waited(left), left + Product(Stake(left), PAID);
    b.(account := Bet(left), navs := b.navs + [n], drops := b.drops + [DropAt(Some(Initial(left)), n)])
  }

  lemma BetWorth(left: real, h: nat)
    requires Small(left) && h < 25
    ensures var m := MarketOf(Day(left), h);
            && RiskyValue(Bet(left).qty, m.prices) == Product(Stake(left), Day(left)[h])
            && Nav(Bet(left), m.prices) == left + Product(Stake(left), Day(left)[h])
            && Product(Stake(left), PAID) == Stake(left) / 1.003 && Product(Stake(left), 0.0) == 0.0
  {
    StakeBounds(left);
    ValueOfStake(Stake(left), Day(left), h);
    hide RiskyValue, Stake, Day;
  }

  // The book counts as flat, before the purchase and after.
  lemma PurchaseUnseen(left: real)
    requires Small(left)
    ensures Purchasable(Plan(left), Day(left), 22, Tracked(Waited(left), false), Initial(left), 0)
    ensures Purchased(Plan(left), Day(left), 22, Tracked(Waited(left), false), Initial(left), 0)
         == Tracked(Opened(left), false)
  {
    StakeBounds(left);
    WaitedShape(left);
    DayNonNegative(left);
    BetWorth(left, 22);
    hide Stake, Initial, Waited, DropAt, Day, RiskyValue, Nav, Product, NonNegative;
    var b, m := Waited(left), MarketOf(Day(left), 22);
    NothingHeld(b.account, m.prices);
    MarkBelow(b.(account := Bet(left)), m.prices);
  }

  lemma PurchaseDone(left: real)
    requires Small(left)
    ensures Reaches(Plan(left), Day(left), Initial(left), 23, Tracked(Opened(left), false))
  {
    hide *;
    DayReady(left);
    FirstHours(left);
    PurchaseUnseen(left);
    PurchaseHour(Plan(left), Day(left), 22, Tracked(Waited(left), false), Initial(left), 0);
    NextHour(Plan(left), Day(left), Initial(left), 22, Tracked(Waited(left), false));
  }

  lemma DayNonNegative(left: real)
    requires Small(left)
    ensures NonNegative(Day(left))
  {
    ReboundBounds(left);
    hide Rebound;
  }

  // ---------------------------------------------------------------- hour 23: the price falls to nothing

  function Emptied(left: real): Book {
    var b := Opened(left);
    b.(navs := b.navs + [left], drops := b.drops + [DropAt(Some(Initial(left)), left)])
  }

  // The holding is worth nothing, and nothing is done.
  lemma LossHeld(left: real)
    requires Small(left)
    ensures var b, m := Opened(left), MarketOf(Day(left), 23);
            && Cooled(b, m) == b && !Rebaselines(b, m) && Choice(ConfigOf(Plan(left)), m, b) == HOLD
            && Marked(b, m.prices) == Emptied(left)
  {
    StakeBounds(left);
    WaitedShape(left);
    BetWorth(left, 23);
    hide Stake, Initial, Rebound, Waited, DropAt, Day, RiskyValue, Nav, Product, Choice;
    var b, m := Opened(left), MarketOf(Day(left), 23);
    ExitWhenInvested(Plan(left), Day(left), 23, left, Stake(left), 22, 1);
    NoExposure(b.account, m.prices);
    Holds(Plan(left), m, b);
    MarkBelow(b, m.prices);
  }

  lemma LossDone(left: real)
    requires Small(left)
    ensures Reaches(Plan(left), Day(left), Initial(left), 24, Tracked(Emptied(left), false))
  {
    DayReady(left);
    PurchaseDone(left);
    LossHeld(left);
    hide Stake, Initial, Reaches, Opened, Emptied, Ready, Day, Redecided, Cooled, Rebaselines, Marked, MarketOf, Choice,
      Tradable, Healthy;
    NextHour(Plan(left), Day(left), Initial(left), 23, Tracked(Opened(left), false));
    EndsOnHold(Tracked(Opened(left), false), ConfigOf(Plan(left)), MarketOf(Day(left), 23), MAX_TRADES_PER_HOUR);
  }

  lemma NoExposure(a: Account, prices: Prices)
    requires RiskyValue(a.qty, prices) == 0.0
    ensures ExposureOf(a, prices) == 0.0
  {
    hide RiskyValue;
  }

  lemma DeepDrop(left: real)
    requires Small(left)
    ensures DropAt(Some(Initial(left)), left) > 0.5 && DropAt(Some(Initial(left)), left) == DropPct(Initial(left), left)
  {
    StakeBounds(left);
    hide Stake, Initial;
    var i := Initial(left);
    DropAsRatio(i, left);
    Quotient(left, i);
    Gap(0.995 - left / i, i);
    Gap(left / i - 0.995, i);
    Expand(0.995, left / i, i);
    Expand(left / i, 0.995, i);
    assert left < 0.995 * i;
  }

  // ---------------------------------------------------------------- hour 24: the re-baseline, and a sale

  function Rebased(left: real): Book {
    var b := Emptied(left);
    b.(hwm := left + FLAT, drops := b.drops[|b.drops| - 1 := 0.0], flatSince := None)
  }

  lemma EmptiedShape(left: real)
    requires Small(left)
    ensures var b := Emptied(left);
            && b.account == Bet(left) && b.hwm == Initial(left) && b.flatSince == Some(0) && b.drops != []
            && LastNav(b) == left && LastDrop(b) == DropAt(Some(Initial(left)), left)
  {
    WaitedShape(left);
    hide Waited, DropAt, Initial, Stake, Product;
  }

  lemma Raises(left: real)
    requires Small(left)
    ensures var b, m := Emptied(left), MarketOf(Day(left), 24);
            && Rebaselines(b, m) && Cooled(b, m) == Rebased(left)
            && LastNav(b) == left && b.hwm == Initial(left) < left + FLAT
  {
    StakeBounds(left);
    ReboundBounds(left);
    EmptiedShape(left);
    DeepDrop(left);
    BetWorth(left, 24);
    hide RiskyValue, Nav, Stake, Initial, DropAt, Rebound, Emptied, Product, Day;
  }

  function Proceeds(left: real): real {
    left + NET * FLAT
  }

  function Ended(left: real): Book {
    var b, n := Rebased(left), Proceeds(left);
    b.(account := Empty(n, 2), flatSince := Some(24), navs := b.navs + [n],
       drops := b.drops + [DropAt(Some(left + FLAT), n)])
  }

  function Kept(left: real): Stock {
    Stock(left, Stake(left), 22, 1)
  }

  lemma SaleFits(left: real)
    requires Small(left)
    ensures Salable(Plan(left), Day(left), 24, Tracked(Emptied(left), false), Kept(left))
    ensures SoldOut(Day(left), 24, Tracked(Emptied(left), false), Kept(left)) == Tracked(Ended(left), true)
  {
    StakeBounds(left);
    ReboundBounds(left);
    WaitedShape(left);
    DayNonNegative(left);
    Raises(left);
    var sold, m := Rebased(left).(account := Empty(Proceeds(left), 2)), MarketOf(Day(left), 24);
    NothingHeld(sold.account, m.prices);
    hide RiskyValue, Nav, Stake, Initial, DropAt, Rebound, Waited, Product, Day, NonNegative;
    MarkBelow(Cooled(sold, m), m.prices);
  }

  lemma DayDone(left: real)
    requires Small(left)
    ensures Reaches(Plan(left), Day(left), Initial(left), 25, Tracked(Ended(left), true))
  {
    hide *;
    DayReady(left);
    LossDone(left);
    SaleFits(left);
    SaleHour(Plan(left), Day(left), 24, Tracked(Emptied(left), false), Kept(left));
    NextHour(Plan(left), Day(left), Initial(left), 24, Tracked(Emptied(left), false));
  }

  // ---------------------------------------------------------------- where a re-baseline can raise the mark

  predicate FromHourZero(r: Run) {
    r.hours == Range(|r.hours|)
  }

  /** In some run, after `n` re-decisions of the hour `h` that follows it, a re-baseline with the NAV last marked
      at `last` raises the high-water mark. */
  ghost predicate RaisesIn(last: real, r: Run, h: nat, n: nat) {
    && Runs(r) && Covers(r.feed, h) && Healthy(r.feed.series.Keys, Outcome(r).book.account)
    && var m := MarketAt(r.feed, h);
       var b := Redecided(Outcome(r), r.cfg, m, n).book;
       Rebaselines(b, m) && LastNav(b) == last && Cooled(b, m).hwm > b.hwm
  }

  lemma RaisesOnlyBelow(last: real, r: Run, h: nat, n: nat)
    requires RaisesIn(last, r, h, n)
    ensures 0.0 <= last < MARGIN
  {
    hide AfterHours, Redecided, Ratchets, Settled, Tradable, Healthy, Nav, RiskyValue, MarketAt, Covers;
    StartIsHealthy(r.feed.series.Keys, r.initial);
    RunRatchets(r.cfg, r.feed, r.initial, r.hours);
    var t, m := Outcome(r), MarketAt(r.feed, h);
    EntersHour(t.book, m);
    HourRatchets(r.initial, t.book, t, r.cfg, m, n);
    var b := Redecided(t, r.cfg, m, n).book;
    MarkedNonNegative(r.initial, Redecided(t, r.cfg, m, n), m, t.book);
    if last >= MARGIN { RebaselineNeverRaises(t.book, b, m); }
  }

  lemma MarkedNonNegative(initial: real, t: Tracked, m: Market, s: Book)
    requires Ratchets(initial, t) && InHour(s, t.book, m) && Rebaselines(t.book, m)
    ensures LastNav(t.book) >= 0.0
  {
    LastIsLast(s, t.book, m);
    hide RiskyValue, Nav, PeakOf, TrueDrop;
  }

  lemma RaisesNext(p: Script, prices: seq<real>, initial: real, h: nat, t: Tracked)
    requires Ready(p, prices, initial, h + 1) && Reaches(p, prices, initial, h, t)
    requires var m := MarketOf(prices, h); Rebaselines(t.book, m) && Cooled(t.book, m).hwm > t.book.hwm
    ensures RaisesIn(LastNav(t.book), RunOf(p, prices, initial, h), h, 0)
  {
    hide Outcome, Runs, Rebaselines, Cooled, Healthy, Tradable;
    MarketShown(prices, h);
    NextHour(p, prices, initial, h, t);
  }

  /** From every smaller NAV a run over the hours from 0 on, beginning with cash alone, raises it. */
  lemma RaisesBelow(left: real)
    requires Small(left)
    ensures RaisesIn(left, RunOf(Plan(left), Day(left), Initial(left), 24), 24, 0)
  {
    DayReady(left);
    LossDone(left);
    Raises(left);
    hide RaisesIn, Cooled, Rebaselines, Stake, Initial, Emptied, Rebound, Day, Ready, Reaches, RunOf, MarketOf;
    RaisesNext(Plan(left), Day(left), Initial(left), 24, Tracked(Emptied(left), false));
  }

  /** A re-baseline can raise the high-water mark exactly where the NAV last marked is below 199 billionths of a dollar:
      at every such NAV some run over the hours from 0 on raises it, and no run of any hours does at or above. */
  lemma RaiseCondition(last: real)
    ensures (exists r, h: nat, n: nat :: RaisesIn(last, r, h, n)) <==> 0.0 <= last < 0.000000199
    ensures (exists r: Run, n: nat :: FromHourZero(r) && RaisesIn(last, r, |r.hours|, n))
        <==> 0.0 <= last < 0.000000199
  {
    hide RaisesIn;
    if exists r, h: nat, n: nat :: RaisesIn(last, r, h, n) {
      var r, h: nat, n: nat :| RaisesIn(last, r, h, n);
      RaisesOnlyBelow(last, r, h, n);
    }
    if Small(last) {
      RaisesBelow(last);
      var r := RunOf(Plan(last), Day(last), Initial(last), 24);
      assert FromHourZero(r) && RaisesIn(last, r, |r.hours|, 0);
    }
  }

  // ---------------------------------------------------------------- where the recorded drawdowns are sound

  /** Wherever all earlier NAVs are at least `floor`, the drawdown recorded at index `i` of the run is at most the
      true one. */
  ghost predicate SoundAt(floor: real, r: Run, i: nat)
    requires Runs(r)
  {
    var b := Outcome(r).book;
    |b.drops| == |b.navs| && (i < |b.navs| && Above(floor, b.navs, i) ==> b.drops[i] <= TrueDrop(r.initial, b.navs, i))
  }

  ghost predicate SoundAbove(floor: real) {
    forall r, i: nat | Runs(r) :: SoundAt(floor, r, i)
  }

  // The same, of runs over the hours from 0 on.
  ghost predicate SoundFromHourZero(floor: real) {
    forall r, i: nat | Runs(r) && FromHourZero(r) :: SoundAt(floor, r, i)
  }

  lemma SoundFromMargin(floor: real, r: Run, i: nat)
    requires floor >= MARGIN && Runs(r)
    ensures SoundAt(floor, r, i)
  {
    hide AfterHours, TrueDrop, PeakOf, Settled;
    StartIsHealthy(r.feed.series.Keys, r.initial);
    RunRatchets(r.cfg, r.feed, r.initial, r.hours);
  }

  lemma DropStrictlyGrows(low: real, high: real, n: real)
    requires 0.0 < low < high && 0.0 < n < high
    ensures DropAt(Some(low), n) < DropAt(Some(high), n)
  {
    hide DropPct;
    var raised := Raised(Some(low), n);
    DropAsRatio(raised, n);
    DropAsRatio(high, n);
    RatioStrict(raised, high, n);
  }

  lemma RatioStrict(low: real, high: real, n: real)
    requires 0.0 < low < high && n > 0.0
    ensures n / low > n / high
  {
    Quotient(n, low);
    Quotient(n, high);
    QuotientPositive(n, high);
    Gap(high - low, n / high);
    Spread(high, low, n / high);
    assert Product(high, n / high) == Product(n / high, high) && Product(low, n / high) == Product(n / high, low);
    Gap(n / high - n / low, low);
    Spread(n / high, n / low, low);
  }

  lemma {:induction false} StartStaysPeak(initial: real, navs: seq<real>)
    requires forall k | 0 <= k < |navs| :: navs[k] <= initial
    ensures PeakAfter(Some(initial), navs) == Some(initial)
  {
    if navs != [] { StartStaysPeak(initial, navs[..|navs| - 1]); }
  }

  lemma DayRecords(left: real)
    requires Small(left)
    ensures var b := Ended(left);
            && |b.navs| == |b.drops| == 25 && (forall k | 0 <= k < 24 :: left <= b.navs[k] <= Initial(left))
            && b.navs[24] == Proceeds(left) && b.drops[24] == DropAt(Some(left + FLAT), Proceeds(left))
  {
    StakeBounds(left);
    WaitedShape(left);
    BetWorth(left, 22);
    hide DropAt, Stake, Initial, RiskyValue, Nav, Product, Waited, Day, MarketOf;
    var navs, w := Ended(left).navs, Waited(left).navs;
    assert navs == w + [left + Product(Stake(left), PAID)] + [left] + [Proceeds(left)];
    forall k | 0 <= k < 24 ensures left <= navs[k] <= Initial(left) {
      if k < 22 { assert navs[k] == w[k]; }
    }
  }

  lemma DayOvershoots(left: real)
    requires Small(left)
    ensures |Ended(left).navs| == 25
    ensures DropAt(Some(left + FLAT), Proceeds(left)) > TrueDrop(Initial(left), Ended(left).navs, 24)
  {
    StakeBounds(left);
    DayRecords(left);
    hide Ended, DropAt, Stake, Initial;
    StartStaysPeak(Initial(left), Ended(left).navs[..24]);
    DropStrictlyGrows(Initial(left), left + FLAT, Proceeds(left));
  }

  // The last drawdown that the day records is more than the true one.
  lemma DayUnsound(left: real, floor: real)
    requires Small(left) && floor <= left
    ensures var r := RunOf(Plan(left), Day(left), Initial(left), 25); Runs(r) && !SoundAt(floor, r, 24)
  {
    hide Outcome, Ended, TrueDrop, DropAt, Initial, Stake, Runs, Day, Small;
    DayDone(left);
    DayRecords(left);
    DayOvershoots(left);
  }

  /** The recorded drawdowns are sound on every run whose NAVs stay at or above `floor` exactly if `floor` is at least
      199 billionths of a dollar; runs over the hours from 0 on need no less. */
  lemma SoundCondition(floor: real)
    ensures SoundAbove(floor) <==> floor >= 0.000000199
    ensures SoundFromHourZero(floor) <==> floor >= 0.000000199
  {
    hide SoundAt, Runs;
    if floor >= MARGIN {
      forall r, i: nat | Runs(r) ensures SoundAt(floor, r, i) { SoundFromMargin(floor, r, i); }
    } else {
      var left := if floor > 0.0 then floor else 0.0;
      DayUnsound(left, floor);
      var r := RunOf(Plan(left), Day(left), Initial(left), 25);
      assert FromHourZero(r);
    }
  }
}
