/** Passes of the live loop on the internal ledger: mark, decide, check, book, mark again
    (agent/run_live.py:185-205, agent/core.py:85-219), and the floor they keep under the NAV. */
module NavFloor {
  import opened Wrappers
  import opened Arithmetic
  import opened Ladder
  import opened Rounding
  import opened Engine
  import opened Signals
  import opened Survival
  import opened Ledger

  function HeldRisk(positions: seq<Position>, price: Prices): real {
    if positions == [] then 0.0
    else
      var p := positions[|positions| - 1];
      HeldRisk(positions[..|positions| - 1], price) + p.qty * PriceGet(price, p.symbol, p.entryPrice)
  }

  function DrawdownPct(nav: real, hwm: real): real {
    if hwm > 0.0 && hwm > nav then (hwm - nav) / hwm * 100.0 else 0.0
  }

  function PortfolioOf(b: Book, price: Prices, since: real): PortfolioState {
    var exposure := if b.nav > 0.0 then HeldRisk(b.positions, price) / b.nav else 0.0;
    PortfolioState(b.nav, b.positions, DrawdownPct(b.nav, b.hwm), exposure, since)
  }

  method BuildPortfolioState(b: Book, price: Prices, since: real) returns (p: PortfolioState)
    ensures p == PortfolioOf(b, price, since)
  {
    var risky := 0.0;
    var i := 0;
    while i < |b.positions|
      invariant 0 <= i <= |b.positions|
      invariant risky == HeldRisk(b.positions[..i], price)
    {
      var pos := b.positions[i];
      assert b.positions[..i + 1][..i] == b.positions[..i];
      risky := risky + pos.qty * PriceGet(price, pos.symbol, pos.entryPrice);
      i := i + 1;
    }
    assert b.positions[..i] == b.positions;
    return PortfolioState(
      b.nav, b.positions, DrawdownPct(b.nav, b.hwm), if b.nav > 0.0 then risky / b.nav else 0.0, since);
  }

  /** The drawdown is the part of the high-water mark, in percent, that the NAV lacks; the exposure is the part of the
      NAV in holdings, where, unlike in the NAV itself, a holding quoted at zero counts for nothing. Strategy and
      engine see the same figures. */
  lemma PortfolioMeans(b: Book, p: Position, price: Prices, since: real, trades: int)
    ensures var v := PortfolioOf(b, price, since);
            && v.nav == b.nav && v.positions == b.positions && v.sinceLastTrade == since
            && ViewOf(v, trades) == PortfolioView(b.nav, v.drawdown, v.exposure, trades, since)
            && (if b.hwm > 0.0 && b.nav < b.hwm then Product(v.drawdown, b.hwm) == 100.0 * (b.hwm - b.nav)
                else v.drawdown == 0.0)
            && (if b.nav > 0.0 then Product(v.exposure, b.nav) == HeldRisk(b.positions, price) else v.exposure == 0.0)
    ensures HeldRisk([], price) == 0.0
    ensures HeldRisk(b.positions + [p], price) - HeldRisk(b.positions, price)
         == Product(p.qty, if p.symbol in price then price[p.symbol] else p.entryPrice)
  {
    DrawdownMeans(b.nav, b.hwm);
    HeldRiskAppend(b.positions, p, price);
    if b.nav > 0.0 { Quotient(HeldRisk(b.positions, price), b.nav); }
    hide HeldRisk, DrawdownPct, Product;
  }

  lemma DrawdownMeans(nav: real, hwm: real)
    ensures if hwm > 0.0 && nav < hwm then Product(DrawdownPct(nav, hwm), hwm) == 100.0 * (hwm - nav)
            else DrawdownPct(nav, hwm) == 0.0
  {
    if hwm > 0.0 { assert (hwm - nav) / hwm * hwm == hwm - nav; }
  }

  lemma HeldRiskAppend(positions: seq<Position>, p: Position, price: Prices)
    ensures HeldRisk([], price) == 0.0
    ensures HeldRisk(positions + [p], price) - HeldRisk(positions, price)
         == Product(p.qty, if p.symbol in price then price[p.symbol] else p.entryPrice)
  {
    assert (positions + [p])[..|positions|] == positions;
  }

  // ---------------------------------------------------------------- one pass

  // What the world supplies to one pass: the market, the clock, the counters, and whether the executor
  // reports the trade as executed.
  datatype Pass = Pass(
    views: seq<TokenView>, now: real, since: real, tradesLastHour: int, dataAge: real, executed: bool)

  predicate PositiveMarket(x: Pass) {
    forall v | v in x.views :: v.price > 0.0
  }

  function Proposal(cfg: Config, m: Book, x: Pass): Decision
    requires Coherent(cfg)
  {
    var p := PortfolioOf(m, PriceMap(x.views), x.since);
    ToDecision(DecideIntent(cfg, x.views, p, x.now, cfg.quoteTokens[0]), cfg.chain)
  }

  function VerdictOn(cfg: Config, m: Book, x: Pass): Verdict
    requires Coherent(cfg)
  {
    Check(cfg, Proposal(cfg, m, x), ViewOf(PortfolioOf(m, PriceMap(x.views), x.since), x.tradesLastHour), x.dataAge)
  }

  predicate Executes(cfg: Config, m: Book, x: Pass)
    requires Coherent(cfg)
  {
    Allowed(VerdictOn(cfg, m, x)) && IsTrade(Proposal(cfg, m, x)) && x.executed
  }

  function AfterPass(cfg: Config, b: Book, x: Pass): Book
    requires Coherent(cfg)
  {
    var price := PriceMap(x.views);
    var m := Marked(b, price);
    var booked :=
      if Executes(cfg, m, x) then Filled(m, Proposal(cfg, m, x), VerdictOn(cfg, m, x).amount, price, x.now) else m;
    Marked(booked, price)
  }

  predicate BooksBuy(cfg: Config, b: Book, x: Pass)
    requires Coherent(cfg)
  {
    var m := Marked(b, PriceMap(x.views));
    var d := Proposal(cfg, m, x);
    && Executes(cfg, m, x) && d.side == Buy
    && BuyBooks(m, d.to, VerdictOn(cfg, m, x).amount, PriceMap(x.views))
  }

  // ---------------------------------------------------------------- what every pass keeps

  predicate Sane(cfg: Config, b: Book) {
    forall p | p in b.positions :: p.qty >= 0.0 && p.entryPrice >= 0.0 && p.symbol in cfg.universe
  }

  predicate Prudent(cfg: Config) {
    && Coherent(cfg) && Escalating(cfg.ladder)
    && cfg.maxSingleUsd >= 0.0 && cfg.maxSinglePct >= 0.0
    && 0.0 <= cfg.maxRisky <= 1.0
  }

  lemma ProposedBuysTakeRisk(cfg: Config, m: Book, x: Pass)
    requires Coherent(cfg) && Sane(cfg, m)
    ensures var d := Proposal(cfg, m, x); d.side == Buy ==> RiskIncreasing(cfg, d) && d.to in cfg.universe
  {
    var p := PortfolioOf(m, PriceMap(x.views), x.since);
    IntentShaped(cfg, x.views, p, x.now);
    var intent := DecideIntent(cfg, x.views, p, x.now, cfg.quoteTokens[0]);
    BuyShape(cfg, intent, p, RungAt(cfg.ladder, p.drawdown));
  }

  lemma BuyShape(cfg: Config, intent: Intent, p: PortfolioState, rung: Rung)
    requires Coherent(cfg) && Shaped(cfg, intent, p, rung)
    ensures var d := ToDecision(intent, cfg.chain); d.side == Buy ==> RiskIncreasing(cfg, d) && d.to in cfg.universe
  {
    if intent.to in cfg.universe { assert !IsStable(cfg, intent.to); }
    assert IsStable(cfg, cfg.quoteTokens[0]);
  }

  lemma AmountNonNegative(cfg: Config, d: Decision, p: PortfolioView, dataAge: real)
    requires cfg.maxSingleUsd >= 0.0 && cfg.maxSinglePct >= 0.0
    ensures Check(cfg, d, p, dataAge).amount >= 0.0
  {
    hide Finalise, RungAt;
    var rung := RungAt(cfg.ladder, p.drawdown);
    if IsTrade(d) {
      FinaliseMonotone(cfg, p, d.amount, rung, rung, p.drawdown, WithinPolicy);
      if p.nav > 0.0 {
        RoomNonNegative(cfg, p);
        FinaliseMonotone(cfg, p, RoomUsd(cfg, p), rung, rung, p.drawdown, ClampedToRoom);
      } else {
        OverRoomMeans(cfg, d, p);
      }
    }
  }

  lemma FillKeepsSane(cfg: Config, b: Book, d: Decision, amount: real, price: Prices, now: real)
    requires Sane(cfg, b) && amount >= 0.0 && PositivePrices(price)
    requires d.side == Buy ==> d.to in cfg.universe
    ensures Sane(cfg, Filled(b, d, amount, price, now))
    ensures !(d.side == Buy && BuyBooks(b, d.to, amount, price)) ==> Filled(b, d, amount, price, now).stable >= b.stable
  {
    if d.side == Buy && BuyBooks(b, d.to, amount, price) {
      BuyKeepsSane(cfg, b, d.to, amount, PriceOr(price, d.to, 0.0), now);
    } else if d.side == Sell && Find(b.positions, d.from) < |b.positions| && PriceOr(price, d.from, 0.0) > 0.0 {
      SellKeepsSane(cfg, b, d.from, amount, PriceOr(price, d.from, 0.0));
    }
  }

  lemma BuyKeepsSane(cfg: Config, b: Book, t: Token, amount: real, px: real, now: real)
    requires Sane(cfg, b) && amount >= 0.0 && px > 0.0 && t in cfg.universe
    ensures Sane(cfg, BuyFilled(b, t, amount, px, now))
  {
    hide Averaged;
    QuotientNonNegative(amount, px);
    var i := Find(b.positions, t);
    if i < |b.positions| {
      assert b.positions[i] in b.positions;
      AverageIsNonNegative(b.positions[i], amount / px, px);
    }
  }

  lemma SoldBounds(held: real, amount: real, px: real)
    requires held >= 0.0 && amount >= 0.0 && px > 0.0
    ensures 0.0 <= SoldQty(held, amount, px) <= held && SoldQty(held, amount, px) * px >= 0.0
  {
    QuotientNonNegative(amount, px);
    BothNonNegative(SoldQty(held, amount, px), px);
    hide SoldQty;
  }

  lemma SellAddsCash(b: Book, t: Token, amount: real, px: real)
    requires amount >= 0.0 && px > 0.0 && Find(b.positions, t) < |b.positions|
    requires b.positions[Find(b.positions, t)].qty >= 0.0
    ensures SellFilled(b, t, amount, px).stable >= b.stable
  {
    SoldBounds(b.positions[Find(b.positions, t)].qty, amount, px);
    hide SoldQty, Find;
  }

  lemma {:induction false} FewerSane(cfg: Config, b: Book, i: nat, rest: real)
    requires Sane(cfg, b) && i < |b.positions| && rest >= 0.0
    ensures Sane(cfg, b.(positions := b.positions[..i] + b.positions[i + 1..]))
    ensures Sane(cfg, b.(positions := b.positions[i := b.positions[i].(qty := rest)]))
  {
    assert b.positions[i] in b.positions;
  }

  lemma SaneSide(cfg: Config, b: Book, stable: real)
    requires Sane(cfg, b)
    ensures Sane(cfg, b.(stable := stable))
  {
  }

  lemma SellKeepsSane(cfg: Config, b: Book, t: Token, amount: real, px: real)
    requires Sane(cfg, b) && amount >= 0.0 && px > 0.0 && Find(b.positions, t) < |b.positions|
    ensures Sane(cfg, SellFilled(b, t, amount, px)) && SellFilled(b, t, amount, px).stable >= b.stable
  {
    var i := Find(b.positions, t);
    assert b.positions[i] in b.positions;
    SellAddsCash(b, t, amount, px);
    SoldBounds(b.positions[i].qty, amount, px);
    FewerSane(cfg, b, i, b.positions[i].qty - SoldQty(b.positions[i].qty, amount, px));
    hide SoldQty, Find, Sane;
    var sold := SellFilled(b, t, amount, px);
    SaneSide(cfg, b.(positions := sold.positions), sold.stable);
  }

  lemma AverageIsNonNegative(p: Position, qty: real, px: real)
    requires p.qty >= 0.0 && p.entryPrice >= 0.0 && qty >= 0.0 && px > 0.0
    ensures Averaged(p, qty, px).qty >= 0.0 && Averaged(p, qty, px).entryPrice >= 0.0
    ensures Averaged(p, qty, px).symbol == p.symbol
  {
    var total := p.qty + qty;
    if total != 0.0 {
      assert p.entryPrice * p.qty >= 0.0 && px * qty >= 0.0;
      assert (p.entryPrice * p.qty + px * qty) / total >= 0.0;
    }
  }

  /** Every pass keeps the ledger sane, and only a booked buy lowers its cash. */
  lemma PassKeepsSane(cfg: Config, b: Book, x: Pass)
    requires Prudent(cfg) && Sane(cfg, b) && PositiveMarket(x)
    ensures Sane(cfg, AfterPass(cfg, b, x))
    ensures !BooksBuy(cfg, b, x) ==> AfterPass(cfg, b, x).stable >= b.stable
  {
    hide DecideIntent, Check, Filled, IsTrade, RungAt;
    var price := PriceMap(x.views);
    var m := Marked(b, price);
    assert Sane(cfg, m);
    ProposedBuysTakeRisk(cfg, m, x);
    AmountNonNegative(cfg, Proposal(cfg, m, x), ViewOf(PortfolioOf(m, price, x.since), x.tradesLastHour), x.dataAge);
    FillKeepsSane(cfg, m, Proposal(cfg, m, x), VerdictOn(cfg, m, x).amount, price, x.now);
  }

  lemma {:induction false} RiskNonNegative(cfg: Config, positions: seq<Position>, price: Prices)
    requires PositivePrices(price)
    requires forall p | p in positions :: p.qty >= 0.0 && p.entryPrice >= 0.0
    ensures MarkedRisk(positions, price) >= 0.0
    ensures HeldRisk(positions, price) == MarkedRisk(positions, price)
  {
    if positions != [] {
      var p := positions[|positions| - 1];
      RiskNonNegative(cfg, positions[..|positions| - 1], price);
      assert PriceOr(price, p.symbol, p.entryPrice) == PriceGet(price, p.symbol, p.entryPrice) >= 0.0;
      assert p.qty * PriceOr(price, p.symbol, p.entryPrice) >= 0.0;
    }
  }

  // ---------------------------------------------------------------- the floor

  // The NAV at which the drawdown from `hwm` is `pct` percent.
  function AtDrawdown(pct: real, hwm: real): real {
    (1.0 - pct / 100.0) * hwm
  }

  // (1 - T)(1 - cap) of the high-water mark, less half a cent.
  function Floor(cfg: Config, rung: LadderEntry, hwm: real): real {
    (1.0 - cfg.maxRisky) * AtDrawdown(rung.atPct, hwm) - 0.005
  }

  lemma ShallowDrawdown(pct: real, nav: real, hwm: real)
    requires hwm > 0.0 && DrawdownPct(nav, hwm) < pct
    ensures nav > AtDrawdown(pct, hwm)
    ensures pct <= 100.0 ==> nav > 0.0
  {
    assert pct > 0.0;
    if nav < hwm {
      var q := (hwm - nav) / hwm;
      assert q * hwm == hwm - nav;
      assert (pct / 100.0 - q) * hwm > 0.0;
    } else {
      assert pct / 100.0 * hwm > 0.0;
    }
    if pct <= 100.0 { assert (1.0 - pct / 100.0) * hwm >= 0.0; }
  }

  lemma MildRungMeansNearPeak(cfg: Config, rung: LadderEntry, nav: real, hwm: real)
    requires Escalating(cfg.ladder) && rung in cfg.ladder && Blocks(rung.action) && hwm > 0.0
    requires !Blocks(RungAt(cfg.ladder, DrawdownPct(nav, hwm)))
    ensures nav > AtDrawdown(rung.atPct, hwm)
    ensures rung.atPct <= 100.0 ==> nav > 0.0
  {
    hide RungAt, DrawdownPct, AtDrawdown;
    RungIsMostSevere(cfg.ladder, DrawdownPct(nav, hwm));
    ShallowDrawdown(rung.atPct, nav, hwm);
  }

  lemma BookedBuyCash(cfg: Config, b: Book, x: Pass)
    requires Coherent(cfg) && BooksBuy(cfg, b, x)
    ensures var m := Marked(b, PriceMap(x.views));
            AfterPass(cfg, b, x).stable == m.stable - VerdictOn(cfg, m, x).amount
  {
    hide DecideIntent, Check, IsTrade, RungAt, PortfolioOf, Find, Averaged;
  }

  /** A booked buy leaves at least the floor in cash. */
  lemma BuyLeavesFloor(cfg: Config, b: Book, x: Pass, rung: LadderEntry)
    requires Prudent(cfg) && Sane(cfg, b) && PositiveMarket(x) && BooksBuy(cfg, b, x)
    requires rung in cfg.ladder && Blocks(rung.action) && rung.atPct <= 100.0
    requires Marked(b, PriceMap(x.views)).hwm > 0.0
    ensures AfterPass(cfg, b, x).stable >= Floor(cfg, rung, Marked(b, PriceMap(x.views)).hwm)
  {
    hide AfterPass, BooksBuy, Coherent, Escalating, DrawdownPct, VerdictOn, RoomUsd, AtDrawdown, Floor;
    var price := PriceMap(x.views);
    var m := Marked(b, price);
    var view := ViewOf(PortfolioOf(m, price, x.since), x.tradesLastHour);
    BookedBuyCash(cfg, b, x);
    RiskNonNegative(cfg, m.positions, price);
    ExecutedBuyIsSafe(cfg, b, x, rung);
    BuyWithinRoom(cfg, rung, m, MarkedRisk(m.positions, price), VerdictOn(cfg, m, x).amount, view);
  }

  lemma ExecutedBuyIsSafe(cfg: Config, b: Book, x: Pass, rung: LadderEntry)
    requires Prudent(cfg) && Sane(cfg, b) && BooksBuy(cfg, b, x)
    requires rung in cfg.ladder && Blocks(rung.action) && rung.atPct <= 100.0
    requires Marked(b, PriceMap(x.views)).hwm > 0.0
    ensures var m := Marked(b, PriceMap(x.views));
            && m.nav > AtDrawdown(rung.atPct, m.hwm) && m.nav > 0.0
            && VerdictOn(cfg, m, x).amount
                 <= RoomUsd(cfg, ViewOf(PortfolioOf(m, PriceMap(x.views), x.since), x.tradesLastHour)) + 0.005
            && PortfolioOf(m, PriceMap(x.views), x.since).exposure < cfg.maxRisky
  {
    hide DecideIntent, Check, IsTrade, RungAt, SizeCap, DrawdownPct, HeldRisk, MarkedRisk, BuyBooks,
      AtDrawdown, RoomUsd;
    var price := PriceMap(x.views);
    var m := Marked(b, price);
    var view := ViewOf(PortfolioOf(m, price, x.since), x.tradesLastHour);
    assert Sane(cfg, m);
    ProposedBuysTakeRisk(cfg, m, x);
    AllowedTradeIsSafe(cfg, Proposal(cfg, m, x), view, x.dataAge);
    MildRungMeansNearPeak(cfg, rung, m.nav, m.hwm);
  }

  lemma BuyWithinRoom(cfg: Config, rung: LadderEntry, m: Book, risk: real, amount: real, view: PortfolioView)
    requires 0.0 <= cfg.maxRisky <= 1.0 && m.nav > 0.0
    requires m.nav == m.stable + risk && view.nav == m.nav && view.exposure == risk / m.nav < cfg.maxRisky
    requires m.nav > AtDrawdown(rung.atPct, m.hwm)
    requires amount <= RoomUsd(cfg, view) + 0.005
    ensures m.stable - amount >= Floor(cfg, rung, m.hwm)
  {
    assert view.exposure * m.nav == risk;
    assert RoomUsd(cfg, view) == cfg.maxRisky * m.nav - risk;
    var cash := (1.0 - cfg.maxRisky) * m.nav;
    assert cash == m.nav - cfg.maxRisky * m.nav;
    assert (1.0 - cfg.maxRisky) * (m.nav - AtDrawdown(rung.atPct, m.hwm)) >= 0.0;
  }

  function AfterPasses(cfg: Config, b: Book, xs: seq<Pass>): Book
    requires Coherent(cfg)
    decreases xs
  {
    if xs == [] then b else AfterPasses(cfg, AfterPass(cfg, b, xs[0]), xs[1..])
  }

  predicate NoBuys(cfg: Config, b: Book, xs: seq<Pass>)
    requires Coherent(cfg)
    decreases xs
  {
    xs == [] || (!BooksBuy(cfg, b, xs[0]) && NoBuys(cfg, AfterPass(cfg, b, xs[0]), xs[1..]))
  }

  lemma {:induction false} PassesKeepCash(cfg: Config, b: Book, xs: seq<Pass>)
    requires Prudent(cfg) && Sane(cfg, b) && NoBuys(cfg, b, xs) && forall x | x in xs :: PositiveMarket(x)
    ensures Sane(cfg, AfterPasses(cfg, b, xs)) && AfterPasses(cfg, b, xs).stable >= b.stable
    decreases xs
  {
    hide AfterPass, BooksBuy, Coherent;
    if xs != [] {
      PassKeepsSane(cfg, b, xs[0]);
      PassesKeepCash(cfg, AfterPass(cfg, b, xs[0]), xs[1..]);
    }
  }

  /** The NAV floor. From a booked buy until the next one, through any number of passes with any market
      of positive prices and any fills reported, the NAV marked at any positive prices is at least
      (1 - T)(1 - cap) times the high-water mark at that buy, less half a cent: T is the threshold of
      any rung that blocks new risk, cap the committed exposure cap. */
  lemma NavFloorHolds(cfg: Config, b: Book, buy: Pass, later: seq<Pass>, rung: LadderEntry, price: Prices)
    requires Prudent(cfg) && Sane(cfg, b) && PositiveMarket(buy) && BooksBuy(cfg, b, buy)
    requires rung in cfg.ladder && Blocks(rung.action) && rung.atPct <= 100.0
    requires Marked(b, PriceMap(buy.views)).hwm > 0.0
    requires (forall x | x in later :: PositiveMarket(x)) && NoBuys(cfg, AfterPass(cfg, b, buy), later)
    requires PositivePrices(price)
    ensures Marked(AfterPasses(cfg, AfterPass(cfg, b, buy), later), price).nav
         >= Floor(cfg, rung, Marked(b, PriceMap(buy.views)).hwm)
  {
    hide AfterPass, BooksBuy;
    var start := AfterPass(cfg, b, buy);
    PassKeepsSane(cfg, b, buy);
    BuyLeavesFloor(cfg, b, buy, rung);
    PassesKeepCash(cfg, start, later);
    RiskNonNegative(cfg, AfterPasses(cfg, start, later).positions, price);
  }

  // ---------------------------------------------------------------- the floor is about something

  const SAMPLE := Config(
    "bsc", ["CAKE"], ["USDT"], {"CAKE", "USDT"}, {("bsc", "USDT", "CAKE"), ("bsc", "CAKE", "USDT")},
    [LadderEntry(2.0, NoNewRisk)], 60.0, 0.12, 60.0, 0.05, 0.03, 4, 0.0, 2.0, 3.0, 48.0, 4.0, 0.08, 0.02, 5.0)
  const SAMPLE_BOOK := Book([], 1000.0, 1000.0, 1000.0)
  const SAMPLE_VIEW := TokenView("CAKE", 2.0, Some(1.0), Some(1.0), None)
  const SAMPLE_PASS := Pass([SAMPLE_VIEW], 0.0, 0.0, 0, 0.0, true)

  /** The premises of the floor are met: on a fresh thousand dollars a rising token is bought. */
  lemma SampleBuys()
    ensures Prudent(SAMPLE) && Sane(SAMPLE, SAMPLE_BOOK) && PositiveMarket(SAMPLE_PASS)
    ensures BooksBuy(SAMPLE, SAMPLE_BOOK, SAMPLE_PASS)
    ensures SAMPLE.ladder[0] in SAMPLE.ladder && Blocks(SAMPLE.ladder[0].action)
  {
    SampleProposal();
    SamplePrice();
    hide DecideIntent, Check, RungAt, PriceMap, Proposal, VerdictOn;
  }

  // The strategy proposes to enter with three percent, and the engine lets it through.
  const SAMPLE_DECISION := Decision(Buy, "bsc", "USDT", "CAKE", 30.0)

  lemma SampleProposal()
    ensures Coherent(SAMPLE) && Marked(SAMPLE_BOOK, PriceMap(SAMPLE_PASS.views)) == SAMPLE_BOOK
    ensures Proposal(SAMPLE, SAMPLE_BOOK, SAMPLE_PASS) == SAMPLE_DECISION
    ensures VerdictOn(SAMPLE, SAMPLE_BOOK, SAMPLE_PASS) == Verdict(Allow, TradeKind, 30.0, WithinPolicy, NoRung)
  {
    hide DecideIntent, Check, RungAt, PriceMap;
    SamplePrice();
    SampleRanking();
    SampleIntent();
    SampleVerdict();
  }

  lemma SamplePrice()
    ensures PriceMap([SAMPLE_VIEW]) == map["CAKE" := 2.0]
  {
    assert [SAMPLE_VIEW][..0] == [];
  }

  lemma SampleRanking()
    ensures InUniverse(SAMPLE, [SAMPLE_VIEW]) == [SAMPLE_VIEW] && Ranked([SAMPLE_VIEW], 4.0) == [SAMPLE_VIEW]
  {
    assert [SAMPLE_VIEW][..0] == [];
    var vs := [SAMPLE_VIEW];
    assert RiskOnViews(vs, 4.0) == vs && vs[1..] == [];
    assert SortByScore(vs) == InsertByScore(SAMPLE_VIEW, SortByScore(vs[1..]));
  }

  lemma SampleRung()
    ensures RungAt(SAMPLE.ladder, 0.0) == NoRung
  {
    var e := LadderEntry(2.0, NoNewRisk);
    assert SAMPLE.ladder == [e] && [e][1..] == [] && [e][..0] == [];
    assert SortLadder([e]) == InsertEntry(e, SortLadder([]));
    assert LastReached([e], 0.0) == LastReached([e][..0], 0.0);
  }

  lemma SampleIntent()
    ensures DecideIntent(SAMPLE, [SAMPLE_VIEW], PortfolioState(1000.0, [], 0.0, 0.0, 0.0), 0.0, "USDT")
         == Intent(Enter, "USDT", "CAKE", 30.0)
  {
    hide RungAt, Ranked, InUniverse, PriceMap, Cents;
    SampleRung();
    SampleRanking();
    WholeCents();
  }

  lemma WholeCents()
    ensures Cents(30.0) == 30.0
  {
  }

  lemma SampleVerdict()
    ensures Check(SAMPLE, Decision(Buy, "bsc", "USDT", "CAKE", 30.0), PortfolioView(1000.0, 0.0, 0.0, 0, 0.0), 0.0)
         == Verdict(Allow, TradeKind, 30.0, WithinPolicy, NoRung)
  {
    hide RungAt, Cents;
    SampleRung();
    WholeCents();
  }
}
