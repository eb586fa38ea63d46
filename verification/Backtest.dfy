/** The backtest run: up to four re-decisions an hour, then one mark (backtest/run.py:46-99), and what the
    recorded drawdowns say about the true ones. */
module Backtest {
  import opened Wrappers
  import opened Arithmetic
  import opened Metrics
  import opened Portfolios
  import opened Champion

  const COSTS := Costs(25.0, 30.0)
  const MAX_TRADES_PER_HOUR: nat := 4

  // ---------------------------------------------------------------- one hour

  function OpOf(intent: Intent, m: Market): Op
    requires intent.action != Hold
  {
    match intent.action
    case Buy => BuyOp(intent.asset, intent.size, m.hour)
    case Sell => SellOp(intent.asset, intent.size)
    case Flatten => FlattenOp
  }

  /** The intent trades: something was spent, received or sold. */
  ghost predicate Executes(a: Account, intent: Intent, m: Market) {
    match intent.action
    case Buy => BuyFills(a, intent.size, Get(m.prices, intent.asset), COSTS)
    case Sell => SellFills(a, intent.asset, intent.size, Get(m.prices, intent.asset))
    case Flatten => |a.qty.Keys - Unsellable(a.qty, m.prices)| > 0
    case Hold => false
  }

  /** An intent counts as executed exactly when it is followed by a fill. */
  lemma ExecutesMeans(a: Account, intent: Intent, m: Market)
    requires Consistent(a)
    ensures Executes(a, intent, m) <==>
            intent.action != Hold && After(a, OpOf(intent, m), m.prices, COSTS).trades > a.trades
  {
    hide Consistent, Proceeds, Spend, Fee, BuyFills, SellFills, Unsellable, RiskyValue, SoldQty, AverageEntry;
  }

  // An account the run can be in: consistent, not overdrawn, holding only assets of the price series.
  ghost predicate Healthy(assets: set<Asset>, a: Account) {
    Consistent(a) && a.cash >= 0.0 && a.qty.Keys <= assets
  }

  predicate Tradable(m: Market) {
    m.history.Keys <= m.prices.Keys && NonNegativePrices(m.prices)
  }

  // The hourly prices of every asset, and their realised volatilities where there are any.
  datatype Feed = Feed(series: map<Asset, seq<real>>, vol: map<Asset, seq<real>>)

  predicate NonNegativeFeed(f: Feed) {
    forall a | a in f.series :: NonNegative(f.series[a])
  }

  predicate Covers(f: Feed, h: nat) {
    forall a | a in f.series :: h < |f.series[a]|
  }

  /** Hour `h` as the strategy is shown it: the prices of that hour, and each history up to and including it. */
  function MarketAt(f: Feed, h: nat): (m: Market)
    requires Covers(f, h)
    ensures NonNegativeFeed(f) ==> Tradable(m)
    ensures m.prices.Keys == f.series.Keys
  {
    Market(
      h,
      map a | a in f.series :: f.series[a][h],
      map a | a in f.series :: f.series[a][..h + 1],
      map a | a in f.vol && h < |f.vol[a]| :: f.vol[a][h])
  }

  // A backtest over these hours can be run.
  predicate Runnable(cfg: Config, f: Feed, hours: seq<nat>) {
    Usable(cfg) && NonNegativeFeed(f) && forall i | 0 <= i < |hours| :: Covers(f, hours[i])
  }

  lemma TradeKeepsHealthy(cfg: Config, m: Market, b: Book)
    requires Usable(cfg) && Tradable(m) && Healthy(m.prices.Keys, b.account) && Choice(cfg, m, b).action != Hold
    ensures var a' := After(b.account, OpOf(Choice(cfg, m, b), m), m.prices, COSTS);
            Healthy(m.prices.Keys, a') && Nav(a', m.prices) <= Nav(b.account, m.prices)
  {
    hide Choice, After, Nav, ChargeOf, Consistent;
    ChoiceIsPriced(cfg, m, b);
    var op := OpOf(Choice(cfg, m, b), m);
    assert Priced(b.account, [op], m.prices);
    OpCharge(b.account, op, m.prices, COSTS);
  }

  /** What is bought has a history, and what is sold is held; so either has a price. */
  lemma ChoiceIsPriced(cfg: Config, m: Market, b: Book)
    requires Usable(cfg) && Tradable(m) && Healthy(m.prices.Keys, b.account)
    ensures Choice(cfg, m, b).action in {Buy, Sell} ==> Choice(cfg, m, b).asset in m.prices
  {
    hide LadderState, RiskyValue, ExposureOf, Nav, SizePct, ExitReason, Score;
  }

  // A portfolio, and whether its high-water mark has ever been re-based.
  datatype Tracked = Tracked(book: Book, rebased: bool)

  /** Up to `n` re-decisions, ending early on a hold or a trade that does not execute. */
  ghost function Redecided(t: Tracked, cfg: Config, m: Market, n: nat): Tracked
    requires Usable(cfg) && Tradable(m) && Healthy(m.prices.Keys, t.book.account)
    decreases n
  {
    if n == 0 then t
    else
      var cooled := Tracked(Cooled(t.book, m), t.rebased || Rebaselines(t.book, m));
      var intent := Choice(cfg, m, cooled.book);
      if intent.action == Hold then cooled
      else
        TradeKeepsHealthy(cfg, m, cooled.book);
        var traded := cooled.(
          book := cooled.book.(account := After(cooled.book.account, OpOf(intent, m), m.prices, COSTS)));
        if Executes(cooled.book.account, intent, m) then Redecided(traded, cfg, m, n - 1) else traded
  }

  lemma {:induction false} RedecidedIsHealthy(t: Tracked, cfg: Config, m: Market, n: nat)
    requires Usable(cfg) && Tradable(m) && Healthy(m.prices.Keys, t.book.account)
    ensures Healthy(m.prices.Keys, Redecided(t, cfg, m, n).book.account)
    decreases n
  {
    hide Choice, After, Nav, Executes, Rebaselines, RiskyValue, Consistent, Tradable;
    if n > 0 {
      var cooled := Tracked(Cooled(t.book, m), t.rebased || Rebaselines(t.book, m));
      var intent := Choice(cfg, m, cooled.book);
      if intent.action != Hold {
        TradeKeepsHealthy(cfg, m, cooled.book);
        var traded := cooled.(
          book := cooled.book.(account := After(cooled.book.account, OpOf(intent, m), m.prices, COSTS)));
        if Executes(cooled.book.account, intent, m) { RedecidedIsHealthy(traded, cfg, m, n - 1); }
      }
    }
  }

  ghost function AfterHour(t: Tracked, cfg: Config, m: Market): Tracked
    requires Usable(cfg) && Tradable(m) && Healthy(m.prices.Keys, t.book.account)
  {
    var r := Redecided(t, cfg, m, 4);
    r.(book := Marked(r.book, m.prices))
  }

  lemma FewerHours(cfg: Config, f: Feed, hours: seq<nat>, n: nat)
    requires Runnable(cfg, f, hours) && n <= |hours|
    ensures Runnable(cfg, f, hours[..n]) && (n < |hours| ==> Covers(f, hours[n]))
  {
  }

  ghost function AfterHours(t: Tracked, cfg: Config, f: Feed, hours: seq<nat>): (r: Tracked)
    requires Runnable(cfg, f, hours) && Healthy(f.series.Keys, t.book.account)
    ensures Healthy(f.series.Keys, r.book.account)
  {
    if hours == [] then t
    else
      var n := |hours| - 1;
      FewerHours(cfg, f, hours, n);
      var before, m := AfterHours(t, cfg, f, hours[..n]), MarketAt(f, hours[n]);
      RedecidedIsHealthy(before, cfg, m, 4);
      AfterHour(before, cfg, m)
  }

  function Start(initial: real): Tracked {
    Tracked(Book(Account(initial, map[], map[], map[], 0), initial, [], [], 0, None), false)
  }

  // ---------------------------------------------------------------- the run

  method Execute(intent: Intent, p: Portfolio, m: Market) returns (executed: bool)
    requires p.Valid()
    requires intent.action in {Buy, Sell} ==> intent.asset in m.prices
    requires intent.action == Flatten ==> p.positions.Keys <= m.prices.Keys
    modifies p
    ensures p.Valid()
    ensures p.Snapshot() == if intent.action == Hold then old(p.Snapshot()) else
              old(p.Snapshot()).(account := After(old(p.Acc()), OpOf(intent, m), m.prices, COSTS))
    ensures executed <==> Executes(old(p.Acc()), intent, m)
    ensures executed <==> p.tradeCount > old(p.tradeCount)
  {
    ExecutesMeans(p.Acc(), intent, m);
    hide Consistent, Bought, Sold, Flattened, Proceeds, SellFills, BuyFills, Unsellable, Spend, Fee;
    match intent.action
    case Buy =>
      var spent := p.Buy(intent.asset, intent.size, m.prices[intent.asset], m.hour, COSTS);
      if BuyFills(old(p.Acc()), intent.size, m.prices[intent.asset], COSTS) {
        SpendPositive(old(p.Acc()), intent.size, m.prices[intent.asset]);
      }
      executed := spent > 0.0;
    case Sell =>
      var proceeds := p.Sell(intent.asset, intent.size, m.prices[intent.asset], COSTS);
      if SellFills(old(p.Acc()), intent.asset, intent.size, m.prices[intent.asset]) {
        ProceedsPositive(old(p.Acc()), intent.asset, intent.size, m.prices[intent.asset], COSTS);
      }
      executed := proceeds > 0.0;
    case Flatten =>
      var fills := p.Flatten(m.prices, COSTS);
      executed := fills > 0;
    case Hold =>
      executed := false;
  }

  lemma SpendPositive(a: Account, usd: real, price: real)
    requires BuyFills(a, usd, price, COSTS)
    ensures Spend(a.cash, usd, COSTS) + Fee(Min(usd, a.cash), COSTS) > 0.0
  {
    FeeBounds(Min(usd, a.cash), COSTS);
  }

  method RunHour(cfg: Config, m: Market, p: Portfolio, ghost rebased: bool)
    requires Usable(cfg) && Tradable(m) && Healthy(m.prices.Keys, p.Acc())
    modifies p
    ensures p.Valid() && p.Snapshot() == AfterHour(Tracked(old(p.Snapshot()), rebased), cfg, m).book
  {
    hide Choice, After, Consistent, Rebaselines, Cooled, RiskyValue, Executes, Marked;
    ghost var start, t := Tracked(p.Snapshot(), rebased), Tracked(p.Snapshot(), rebased);
    var k := 0;
    while k < MAX_TRADES_PER_HOUR
      invariant 0 <= k <= MAX_TRADES_PER_HOUR
      invariant Healthy(m.prices.Keys, p.Acc()) && t.book == p.Snapshot()
      invariant Redecided(start, cfg, m, MAX_TRADES_PER_HOUR) == Redecided(t, cfg, m, MAX_TRADES_PER_HOUR - k)
    {
      ghost var cooled := Tracked(Cooled(t.book, m), t.rebased || Rebaselines(t.book, m));
      var intent := Decide(cfg, m, p);
      t := cooled;
      if intent.action == Hold {
        break;
      }
      TradeKeepsHealthy(cfg, m, cooled.book);
      ChoiceIsPriced(cfg, m, cooled.book);
      t := cooled.(book := cooled.book.(account := After(cooled.book.account, OpOf(intent, m), m.prices, COSTS)));
      var executed := Execute(intent, p, m);
      if !executed {
        break;
      }
      k := k + 1;
    }
    var _ := p.Mark(m.prices);
  }

  /** The whole run, against its specification. */
  method RunStrategy(cfg: Config, f: Feed, hours: seq<nat>, initial: real) returns (p: Portfolio)
    requires Runnable(cfg, f, hours) && initial >= 0.0
    ensures fresh(p) && p.Valid() && p.Snapshot() == AfterHours(Start(initial), cfg, f, hours).book
    ensures Ratchets(initial, AfterHours(Start(initial), cfg, f, hours))
  {
    hide AfterHour, Ratchets, Consistent, MarketAt, Runnable, Covers;
    FewerHours(cfg, f, hours, 0);
    p := new Portfolio(initial, 0.0);
    StartIsHealthy(f.series.Keys, initial);
    var i := 0;
    while i < |hours|
      invariant 0 <= i <= |hours| && Runnable(cfg, f, hours[..i])
      invariant fresh(p) && p.Valid() && p.Snapshot() == AfterHours(Start(initial), cfg, f, hours[..i]).book
    {
      FewerHours(cfg, f, hours, i);
      FewerHours(cfg, f, hours, i + 1);
      assert hours[..i + 1][..i] == hours[..i];
      ghost var t := AfterHours(Start(initial), cfg, f, hours[..i]);
      RunHour(cfg, MarketAt(f, hours[i]), p, t.rebased);
      assert t == Tracked(t.book, t.rebased);
      i := i + 1;
    }
    assert hours[..i] == hours;
    RunRatchets(cfg, f, initial, hours);
  }

  lemma StartIsHealthy(assets: set<Asset>, initial: real)
    requires initial >= 0.0
    ensures Healthy(assets, Start(initial).book.account)
  {
  }

  // ---------------------------------------------------------------- the drawdown ratchet

  // The drawdown of the curve that starts at `initial` and continues with `navs`, at its i-th NAV.
  function TrueDrop(initial: real, navs: seq<real>, i: nat): real
    requires i < |navs|
  {
    DropAt(PeakAfter(Some(initial), navs[..i]), navs[i])
  }

  function PeakOf(initial: real, navs: seq<real>): real {
    PeakAfter(Some(initial), navs).value
  }

  // The NAV from which the tolerance of the flatness test cannot tip a re-baseline.
  const MARGIN: real := 199.0 * FLAT

  predicate Above(floor: real, navs: seq<real>, n: nat)
    requires n <= |navs|
  {
    forall k | 0 <= k < n :: navs[k] >= floor
  }

  predicate Robust(navs: seq<real>, n: nat)
    requires n <= |navs|
  {
    Above(MARGIN, navs, n)
  }

  /** The recorded drawdowns never exceed the true ones, and are the true ones if the high-water mark was
      never re-based. */
  ghost predicate Ratchets(initial: real, t: Tracked) {
    var b := t.book;
    && |b.drops| == |b.navs| && NonNegative(b.navs)
    && (Robust(b.navs, |b.navs|) ==> b.hwm <= PeakOf(initial, b.navs))
    && (forall i | 0 <= i < |b.navs| :: Robust(b.navs, i) ==> b.drops[i] <= TrueDrop(initial, b.navs, i))
    && (!t.rebased ==> b.hwm == PeakOf(initial, b.navs))
    && (!t.rebased ==> forall i | 0 <= i < |b.navs| :: b.drops[i] == TrueDrop(initial, b.navs, i))
  }

  function LastNav(b: Book): real {
    if b.navs == [] then 0.0 else b.navs[|b.navs| - 1]
  }

  // A recorded drawdown that could trigger a re-baseline is measured from the present high-water mark.
  ghost predicate Anchored(b: Book) {
    LastDrop(b) > 0.5 ==> b.hwm > 0.0 && b.navs != [] && LastDrop(b) == DropPct(b.hwm, LastNav(b))
  }

  // Between hours the cash is at most the NAV last marked.
  ghost predicate Settled(b: Book) {
    Anchored(b) && (b.navs != [] ==> b.account.cash <= LastNav(b))
  }

  ghost predicate FlatLong(b: Book, m: Market) {
    b.flatSince.Some? && m.hour - b.flatSince.value >= FLAT_COOLDOWN_H
  }

  // Within an hour that began with the book `s`.
  ghost predicate InHour(s: Book, b: Book, m: Market) {
    && b.navs == s.navs && Anchored(b)
    && Nav(b.account, m.prices) <= Nav(s.account, m.prices)
    && (FlatLong(b, m) ==> b.account == s.account || RiskyValue(s.account.qty, m.prices) <= FLAT)
  }

  lemma DropAbove(hwm: real, n: real)
    requires hwm > 0.0 && DropPct(hwm, n) > 0.5
    ensures n < 0.995 * hwm
  {
    hide DropPct;
    DropAsRatio(hwm, n);
    Quotient(n, hwm);
    Gap(0.995 - n / hwm, hwm);
    Expand(0.995, n / hwm, hwm);
  }

  /** A re-baseline never raises the high-water mark if the last marked NAV is at least `MARGIN`: the book has
      been flat for the whole hour, so its NAV is the cash it was marked with, up to the tolerance. */
  lemma RebaselineNeverRaises(s: Book, b: Book, m: Market)
    requires Settled(s) && InHour(s, b, m) && Rebaselines(b, m)
    requires LastNav(b) >= MARGIN
    ensures Nav(b.account, m.prices) <= b.hwm
  {
    hide DropPct, RiskyValue;
    assert RiskyValue(s.account.qty, m.prices) <= FLAT;
    DropAbove(b.hwm, LastNav(b));
  }

  lemma DropNonNegative(peak: Peak, n: real)
    ensures DropAt(peak, n) >= 0.0
  {
    var high := Raised(peak, n);
    if high > 0.0 { QuotientNonNegative(high - n, high); }
  }

  lemma DropGrowsWithPeak(low: real, high: real, n: real)
    requires low <= high && n >= 0.0
    ensures DropAt(Some(low), n) <= DropAt(Some(high), n)
  {
    hide DropPct;
    if Raised(Some(low), n) > 0.0 {
      DropMonotone(Raised(Some(low), n), Raised(Some(high), n), n);
    } else {
      DropNonNegative(Some(high), n);
    }
  }

  lemma RebaselineRatchets(initial: real, s: Book, t: Tracked, m: Market)
    requires Ratchets(initial, t) && Settled(s) && InHour(s, t.book, m) && Rebaselines(t.book, m)
    ensures Ratchets(initial, Tracked(Rebaselined(t.book, m.prices), true))
  {
    hide Nav, TrueDrop, PeakOf, Settled, InHour, DropPct;
    var b := t.book;
    if Robust(b.navs, |b.navs|) {
      LastIsLast(s, b, m);
      RebaselineNeverRaises(s, b, m);
    }
    forall i | 0 <= i < |b.navs| ensures TrueDrop(initial, b.navs, i) >= 0.0 {
      TrueDropNonNegative(initial, b.navs, i);
    }
  }

  lemma TrueDropNonNegative(initial: real, navs: seq<real>, i: nat)
    requires i < |navs|
    ensures TrueDrop(initial, navs, i) >= 0.0
  {
    DropNonNegative(PeakAfter(Some(initial), navs[..i]), navs[i]);
  }

  lemma LastIsLast(s: Book, b: Book, m: Market)
    requires InHour(s, b, m) && Rebaselines(b, m)
    ensures b.navs != [] && LastNav(b) == b.navs[|b.navs| - 1]
  {
  }

  lemma CoolingRatchets(initial: real, s: Book, t: Tracked, m: Market)
    requires Ratchets(initial, t) && Settled(s) && InHour(s, t.book, m)
    ensures var cooled := Tracked(Cooled(t.book, m), t.rebased || Rebaselines(t.book, m));
            Ratchets(initial, cooled) && InHour(s, cooled.book, m)
  {
    hide Nav, RiskyValue, TrueDrop, PeakOf, DropPct, Robust;
    if Rebaselines(t.book, m) {
      RebaselineRatchets(initial, s, t, m);
    }
  }

  /** Ratcheting survives every re-decision of an hour. */
  lemma {:induction false} HourRatchets(initial: real, s: Book, t: Tracked, cfg: Config, m: Market, n: nat)
    requires Usable(cfg) && Tradable(m) && Healthy(m.prices.Keys, t.book.account)
    requires Ratchets(initial, t) && Settled(s) && InHour(s, t.book, m)
    ensures var r := Redecided(t, cfg, m, n); Ratchets(initial, r) && InHour(s, r.book, m)
    decreases n
  {
    hide Choice, After, Executes, Rebaselines, Consistent, Tradable, Settled, Ratchets, InHour, Cooled;
    if n > 0 {
      var cooled := Tracked(Cooled(t.book, m), t.rebased || Rebaselines(t.book, m));
      CoolingRatchets(initial, s, t, m);
      CoolingKeepsAccount(t.book, m);
      var intent := Choice(cfg, m, cooled.book);
      if intent.action != Hold {
        TradeKeepsHealthy(cfg, m, cooled.book);
        var traded := cooled.(
          book := cooled.book.(account := After(cooled.book.account, OpOf(intent, m), m.prices, COSTS)));
        TradeStaysInHour(initial, s, cfg, m, cooled);
        if Executes(cooled.book.account, intent, m) {
          HourRatchets(initial, s, traded, cfg, m, n - 1);
        }
      }
    }
  }

  lemma CoolingKeepsAccount(b: Book, m: Market)
    ensures Cooled(b, m).account == b.account
    ensures FlatLong(Cooled(b, m), m) ==> RiskyValue(b.account.qty, m.prices) <= FLAT
  {
    hide RiskyValue, Nav;
  }

  lemma TradeStaysInHour(initial: real, s: Book, cfg: Config, m: Market, t: Tracked)
    requires Usable(cfg) && Tradable(m) && Healthy(m.prices.Keys, t.book.account)
    requires Ratchets(initial, t) && InHour(s, t.book, m) && Choice(cfg, m, t.book).action != Hold
    requires FlatLong(t.book, m) ==> RiskyValue(t.book.account.qty, m.prices) <= FLAT
    ensures var a' := After(t.book.account, OpOf(Choice(cfg, m, t.book), m), m.prices, COSTS);
            var traded := t.(book := t.book.(account := a'));
            Ratchets(initial, traded) && InHour(s, traded.book, m)
  {
    hide Choice, After, Nav, RiskyValue, Consistent, Tradable, TrueDrop, PeakOf, DropPct;
    TradeKeepsHealthy(cfg, m, t.book);
  }

  lemma MarkRatchets(initial: real, cfg: Config, t: Tracked, m: Market)
    requires Ratchets(initial, t) && Healthy(m.prices.Keys, t.book.account) && Tradable(m)
    ensures var r := t.(book := Marked(t.book, m.prices)); Ratchets(initial, r) && Settled(r.book)
  {
    hide RiskyValue, DropPct, DropAt, PeakAfter, Consistent;
    var b := t.book;
    var n := Nav(b.account, m.prices);
    ValueNonNegative(b.account.qty, m.prices);
    var navs := b.navs + [n];
    assert navs[..|b.navs|] == b.navs;
    PeakStep(initial, b.navs, n);
    var peak := PeakOf(initial, b.navs);
    if b.hwm <= peak { DropGrowsWithPeak(b.hwm, peak, n); }
    forall i | 0 <= i < |b.navs| ensures TrueDrop(initial, navs, i) == TrueDrop(initial, b.navs, i) {
      assert navs[..i] == b.navs[..i];
    }
    assert forall i | 0 <= i <= |b.navs| :: Robust(navs, i) == Robust(b.navs, i);
    MarkAnchors(b, m);
  }

  lemma MarkAnchors(b: Book, m: Market)
    ensures Anchored(Marked(b, m.prices))
  {
    hide RiskyValue, Nav, DropPct;
  }

  lemma PeakStep(initial: real, navs: seq<real>, n: real)
    ensures PeakAfter(Some(initial), navs) == Some(PeakOf(initial, navs))
    ensures PeakOf(initial, navs + [n]) == Raised(Some(PeakOf(initial, navs)), n)
  {
    assert (navs + [n])[..|navs|] == navs;
  }

  /** Over every run, of any configuration, feed and hours, the recorded drawdowns ratchet. */
  lemma {:induction false} RunRatchets(cfg: Config, f: Feed, initial: real, hours: seq<nat>)
    requires Runnable(cfg, f, hours) && initial >= 0.0
    requires Healthy(f.series.Keys, Start(initial).book.account)
    ensures Ratchets(initial, AfterHours(Start(initial), cfg, f, hours))
    ensures Settled(AfterHours(Start(initial), cfg, f, hours).book)
  {
    hide Ratchets, Settled, Redecided, Marked, Tradable, Healthy, InHour, Start, MarketAt;
    if hours == [] {
      StartRatchets(initial);
    } else {
      var n := |hours| - 1;
      FewerHours(cfg, f, hours, n);
      RunRatchets(cfg, f, initial, hours[..n]);
      var t, m := AfterHours(Start(initial), cfg, f, hours[..n]), MarketAt(f, hours[n]);
      EntersHour(t.book, m);
      HourRatchets(initial, t.book, t, cfg, m, MAX_TRADES_PER_HOUR);
      RedecidedIsHealthy(t, cfg, m, MAX_TRADES_PER_HOUR);
      MarkRatchets(initial, cfg, Redecided(t, cfg, m, MAX_TRADES_PER_HOUR), m);
    }
  }

  lemma StartRatchets(initial: real)
    ensures Ratchets(initial, Start(initial)) && Settled(Start(initial).book)
  {
  }

  lemma EntersHour(b: Book, m: Market)
    requires Settled(b)
    ensures InHour(b, b, m)
  {
  }

  // ---------------------------------------------------------------- runs as values

  datatype Run = Run(cfg: Config, feed: Feed, initial: real, hours: seq<nat>)

  predicate Runs(r: Run) {
    Runnable(r.cfg, r.feed, r.hours) && r.initial >= 0.0
  }

  ghost function Outcome(r: Run): Tracked
    requires Runs(r)
  {
    StartIsHealthy(r.feed.series.Keys, r.initial);
    AfterHours(Start(r.initial), r.cfg, r.feed, r.hours)
  }

  function Range(n: nat): (r: seq<nat>)
    ensures |r| == n && forall i | 0 <= i < n :: r[i] == i
  {
    if n == 0 then [] else Range(n - 1) + [n - 1]
  }

  lemma HourAppends(r: Run, h: nat)
    requires Runs(r) && Covers(r.feed, h)
    ensures var longer, m := r.(hours := r.hours + [h]), MarketAt(r.feed, h);
            && Runs(longer) && Healthy(m.prices.Keys, Outcome(r).book.account)
            && Outcome(longer) == AfterHour(Outcome(r), r.cfg, m)
  {
    hide AfterHour, Healthy, MarketAt, Covers;
    StartIsHealthy(r.feed.series.Keys, r.initial);
    assert (r.hours + [h])[..|r.hours|] == r.hours;
  }
}
