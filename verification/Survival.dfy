/** The strategy: regime and portfolio to one intent (agent/strategy/survival.py), its translation to a
    decision (agent/core.py:35-48), and its agreement with the policy engine. */
module Survival {
  import opened Wrappers
  import opened Arithmetic
  import opened Ladder
  import opened Rounding
  import opened Engine
  import opened Signals

  datatype Position = Position(symbol: Token, qty: real, entryPrice: real, entryTs: real)
  datatype PortfolioState = PortfolioState(
    nav: real, positions: seq<Position>, drawdown: real, exposure: real, sinceLastTrade: real)

  datatype IntentAction = Enter | Exit | Rebalance | Hold
  datatype Intent = Intent(action: IntentAction, from: Token, to: Token, amount: real)
  datatype Leg = Leg(symbol: Token, usd: real)

  predicate Holds(positions: seq<Position>, t: Token) {
    exists pos | pos in positions :: pos.symbol == t
  }

  // ---------------------------------------------------------------- 1. exits

  predicate ShouldExit(cfg: Config, rung: Rung, pos: Position, px: real, now: real) {
    var pnl := if pos.entryPrice != 0.0 then (px - pos.entryPrice) / pos.entryPrice * 100.0 else 0.0;
    || rung == StablecoinMode
    || pnl <= -cfg.stopLossPct
    || pnl >= cfg.takeProfitPct
    || (now - pos.entryTs) / 3600.0 >= cfg.maxHoldHours
  }

  predicate ExitsNow(cfg: Config, rung: Rung, pos: Position, price: map<Token, real>, now: real) {
    pos.symbol in price && pos.qty > 0.0 && ShouldExit(cfg, rung, pos, price[pos.symbol], now)
  }

  function ExitLeg(pos: Position, price: map<Token, real>): Leg
    requires pos.symbol in price
  {
    Leg(pos.symbol, Cents(Product(pos.qty, price[pos.symbol])))
  }

  function FirstExit(cfg: Config, rung: Rung, positions: seq<Position>, price: map<Token, real>, now: real)
    : (leg: Option<Leg>)
    ensures leg.Some? ==> Holds(positions, leg.value.symbol)
  {
    if positions == [] then None
    else
      var pos := positions[0];
      if ExitsNow(cfg, rung, pos, price, now) then Some(ExitLeg(pos, price))
      else
        assert forall q | q in positions[1..] :: q in positions;
        FirstExit(cfg, rung, positions[1..], price, now)
  }

  /** The scan stops at the first position, in the order held, that has to be closed. */
  method ScanExits(cfg: Config, rung: Rung, positions: seq<Position>, price: map<Token, real>, now: real)
    returns (leg: Option<Leg>)
    ensures leg == FirstExit(cfg, rung, positions, price, now)
    ensures leg.None? <==> forall i | 0 <= i < |positions| :: !ExitsNow(cfg, rung, positions[i], price, now)
    ensures leg.Some? ==> exists i | 0 <= i < |positions| ::
              && ExitsNow(cfg, rung, positions[i], price, now)
              && (forall k | 0 <= k < i :: !ExitsNow(cfg, rung, positions[k], price, now))
              && leg.value == ExitLeg(positions[i], price)
  {
    hide ShouldExit, ExitLeg;
    var i := 0;
    while i < |positions|
      invariant 0 <= i <= |positions|
      invariant forall k | 0 <= k < i :: !ExitsNow(cfg, rung, positions[k], price, now)
      invariant FirstExit(cfg, rung, positions, price, now) == FirstExit(cfg, rung, positions[i..], price, now)
    {
      var pos := positions[i];
      assert positions[i..][1..] == positions[i + 1..];
      if ExitsNow(cfg, rung, pos, price, now) {
        return Some(ExitLeg(pos, price));
      }
      i := i + 1;
    }
    return None;
  }

  // ---------------------------------------------------------------- 2. entries

  // The ceiling is divided by only for a token whose volatility is known. One that ranks is below it.
  predicate Sizable(cfg: Config, v: TokenView) {
    v.vol.Some? ==> cfg.volMax != 0.0
  }

  // The share of NAV to spend: the calmer the token, the more, between the least and the greatest share.
  function Fraction(cfg: Config, vol: Option<Volatility>): real
    requires vol.Some? ==> cfg.volMax != 0.0
  {
    if vol.None? then cfg.minSinglePct
    else
      var raw := (cfg.volMax - vol.value) / cfg.volMax;
      var scale := if raw > 1.0 then 1.0 else if raw < 0.0 then 0.0 else raw;
      cfg.minSinglePct + (cfg.maxSinglePct - cfg.minSinglePct) * scale
  }

  function VolScaledSize(cfg: Config, nav: real, vol: Option<Volatility>, halve: bool): real
    requires vol.Some? ==> cfg.volMax != 0.0
  {
    var frac := Fraction(cfg, vol);
    var usd := Product(if halve then frac / 2.0 else frac, nav);
    if usd < cfg.maxSingleUsd then usd else cfg.maxSingleUsd
  }

  function EntrySize(cfg: Config, p: PortfolioState, v: TokenView, halve: bool): real
    requires Sizable(cfg, v)
  {
    var size := VolScaledSize(cfg, p.nav, v.vol, halve);
    var room := Product(cfg.maxRisky - p.exposure, p.nav);
    if size < room then size else room
  }

  predicate Enterable(cfg: Config, p: PortfolioState, v: TokenView, halve: bool)
    requires Sizable(cfg, v)
  {
    !Holds(p.positions, v.symbol) && EntrySize(cfg, p, v, halve) >= 1.0
  }

  function FirstEntry(cfg: Config, p: PortfolioState, ranked: seq<TokenView>, halve: bool): (leg: Option<Leg>)
    requires forall v | v in ranked :: Sizable(cfg, v)
    ensures leg.Some? ==> exists v | v in ranked :: v.symbol == leg.value.symbol
  {
    if ranked == [] then None
    else if Enterable(cfg, p, ranked[0], halve) then
      Some(Leg(ranked[0].symbol, Cents(EntrySize(cfg, p, ranked[0], halve))))
    else
      assert forall v | v in ranked[1..] :: v in ranked;
      FirstEntry(cfg, p, ranked[1..], halve)
  }

  lemma {:induction false} FirstEntryIs(cfg: Config, p: PortfolioState, ranked: seq<TokenView>, halve: bool, i: nat)
    requires (forall v | v in ranked :: Sizable(cfg, v)) && i <= |ranked|
    requires forall k | 0 <= k < i :: !Enterable(cfg, p, ranked[k], halve)
    requires i < |ranked| ==> Enterable(cfg, p, ranked[i], halve)
    ensures FirstEntry(cfg, p, ranked, halve)
         == if i < |ranked| then Some(Leg(ranked[i].symbol, Cents(EntrySize(cfg, p, ranked[i], halve)))) else None
  {
    hide Enterable, EntrySize, Cents;
    if i > 0 {
      FirstEntryIs(cfg, p, ranked[1..], halve, i - 1);
    }
  }

  /** The scan stops at the best-ranked token that is not held and whose size reaches one dollar. */
  method ScanEntries(cfg: Config, p: PortfolioState, ranked: seq<TokenView>, halve: bool) returns (leg: Option<Leg>)
    requires forall v | v in ranked :: Sizable(cfg, v)
    ensures leg == FirstEntry(cfg, p, ranked, halve)
    ensures leg.None? <==> forall i | 0 <= i < |ranked| :: !Enterable(cfg, p, ranked[i], halve)
    ensures leg.Some? ==> exists i | 0 <= i < |ranked| ::
              && Enterable(cfg, p, ranked[i], halve)
              && (forall k | 0 <= k < i :: !Enterable(cfg, p, ranked[k], halve))
              && leg.value == Leg(ranked[i].symbol, Cents(EntrySize(cfg, p, ranked[i], halve)))
  {
    hide Enterable, EntrySize, Cents, FirstEntry;
    var i := 0;
    while i < |ranked|
      invariant 0 <= i <= |ranked|
      invariant forall k | 0 <= k < i :: !Enterable(cfg, p, ranked[k], halve)
    {
      if Enterable(cfg, p, ranked[i], halve) {
        FirstEntryIs(cfg, p, ranked, halve, i);
        return Some(Leg(ranked[i].symbol, Cents(EntrySize(cfg, p, ranked[i], halve))));
      }
      i := i + 1;
    }
    FirstEntryIs(cfg, p, ranked, halve, i);
    return None;
  }

  // ---------------------------------------------------------------- 3. micro-rebalance

  // A view without volatility sorts last.
  function VolKey(v: TokenView): real {
    if v.vol.Some? then v.vol.value else 1000000000.0
  }

  /** The calmest view of a token that is not held; the first of equals. */
  function Calmest(views: seq<TokenView>, positions: seq<Position>): (best: Option<TokenView>)
    ensures best.Some? ==> best.value in views
  {
    if views == [] then None
    else
      var n := |views| - 1;
      var best := Calmest(views[..n], positions);
      if Holds(positions, views[n].symbol) then best
      else if best.Some? && VolKey(best.value) <= VolKey(views[n]) then best
      else Some(views[n])
  }

  function ValueAt(pos: Position, price: map<Token, real>): real {
    Product(pos.qty, if pos.symbol in price then price[pos.symbol] else 0.0)
  }

  /** The holding of greatest value; the first of equals. */
  function Largest(positions: seq<Position>, price: map<Token, real>): (best: Position)
    requires positions != []
    ensures best in positions
  {
    var n := |positions| - 1;
    if n == 0 then positions[0]
    else
      var best := Largest(positions[..n], price);
      if ValueAt(positions[n], price) > ValueAt(best, price) then positions[n] else best
  }

  function RebalanceUpToken(ranked: seq<TokenView>, views: seq<TokenView>, positions: seq<Position>): Option<Token> {
    if ranked != [] then Some(ranked[0].symbol)
    else
      var calm := Calmest(views, positions);
      if calm.Some? then Some(calm.value.symbol) else None
  }

  // ---------------------------------------------------------------- the cascade

  function InUniverse(cfg: Config, views: seq<TokenView>): (r: seq<TokenView>)
    ensures forall v | v in r :: v in views && v.symbol in cfg.universe
  {
    if views == [] then []
    else
      var n := |views| - 1;
      InUniverse(cfg, views[..n]) + if views[n].symbol in cfg.universe then [views[n]] else []
  }

  function HoldIntent(quote: Token): Intent {
    Intent(Hold, quote, quote, 0.0)
  }

  // New risk may be taken only on a mild rung and with more than one percent of room.
  predicate CanTakeRisk(cfg: Config, p: PortfolioState, rung: Rung) {
    (rung == NoRung || rung == HalveSize) && cfg.maxRisky - p.exposure > 0.01
  }

  function RebalanceIntent(
    cfg: Config, views: seq<TokenView>, ranked: seq<TokenView>, p: PortfolioState, rung: Rung,
    price: map<Token, real>, quote: Token): Intent
  {
    if p.sinceLastTrade >= cfg.minInterval && rung != StablecoinMode then
      if p.exposure < cfg.target - cfg.band && CanTakeRisk(cfg, p, rung) then
        match RebalanceUpToken(ranked, views, p.positions)
        case Some(tok) => Intent(Rebalance, quote, tok, Cents(cfg.microUsd))
        case None => HoldIntent(quote)
      else if p.exposure > cfg.target + cfg.band && p.positions != [] then
        Intent(Rebalance, Largest(p.positions, price).symbol, quote, Cents(cfg.microUsd))
      else HoldIntent(quote)
    else HoldIntent(quote)
  }

  function DecideIntent(cfg: Config, views: seq<TokenView>, p: PortfolioState, now: real, quote: Token): Intent
  {
    var rung := RungAt(cfg.ladder, p.drawdown);
    var price := PriceMap(views);
    match FirstExit(cfg, rung, p.positions, price, now)
    case Some(leg) => Intent(Exit, leg.symbol, quote, leg.usd)
    case None =>
      var entryViews := InUniverse(cfg, views);
      var ranked := Ranked(entryViews, cfg.volMax);
      assert forall v | v in ranked :: Sizable(cfg, v) by { RankedIsBestFirst(entryViews, cfg.volMax); }
      var entry := if CanTakeRisk(cfg, p, rung) then FirstEntry(cfg, p, ranked, rung == HalveSize) else None;
      match entry
      case Some(leg) => Intent(Enter, quote, leg.symbol, leg.usd)
      case None => RebalanceIntent(cfg, entryViews, ranked, p, rung, price, quote)
  }

  method Decide(cfg: Config, views: seq<TokenView>, p: PortfolioState, now: real, quote: Token)
    returns (intent: Intent)
    ensures intent == DecideIntent(cfg, views, p, now, quote)
  {
    var rung := ScanLadder(SortLadder(cfg.ladder), p.drawdown);
    var price := PriceMap(views);
    var exit := ScanExits(cfg, rung, p.positions, price, now);
    if exit.Some? {
      return Intent(Exit, exit.value.symbol, quote, exit.value.usd);
    }
    var entryViews := InUniverse(cfg, views);
    var ranked := RankEntries(entryViews, cfg.volMax);
    if CanTakeRisk(cfg, p, rung) {
      var entry := ScanEntries(cfg, p, ranked, rung == HalveSize);
      if entry.Some? {
        return Intent(Enter, quote, entry.value.symbol, entry.value.usd);
      }
    }
    return RebalanceIntent(cfg, entryViews, ranked, p, rung, price, quote);
  }

  // ---------------------------------------------------------------- intents and decisions

  predicate DollarToken(t: Token) {
    t == "USDT" || t == "USDC"
  }

  function ToDecision(intent: Intent, chain: string): Decision {
    var side :=
      match intent.action
      case Enter => Buy
      case Exit => Sell
      case Rebalance => if DollarToken(intent.to) then Sell else Buy
      case Hold => Stay;
    Decision(side, chain, intent.from, intent.to, intent.amount)
  }

  // What a committed configuration is meant to satisfy: the cash leg is no investable token, and every
  // investable token may be bought with the first quote token and sold back to it.
  predicate Coherent(cfg: Config) {
    && cfg.quoteTokens != []
    && (forall q | q in cfg.quoteTokens :: DollarToken(q) && q !in cfg.universe)
    && cfg.quoteTokens[0] in cfg.allowedTokens
    && forall u | u in cfg.universe ::
         && u in cfg.allowedTokens
         && (cfg.chain, cfg.quoteTokens[0], u) in cfg.allowedPairs
         && (cfg.chain, u, cfg.quoteTokens[0]) in cfg.allowedPairs
  }

  function ViewOf(p: PortfolioState, tradesLastHour: int): PortfolioView {
    PortfolioView(p.nav, p.drawdown, p.exposure, tradesLastHour, p.sinceLastTrade)
  }

  predicate RateLimited(cfg: Config, p: PortfolioView) {
    p.tradesLastHour >= cfg.maxTradesPerHour || p.sinceLastTrade < cfg.minInterval
  }

  /** What every intent of the strategy has in common with the engine's rules. */
  predicate Shaped(cfg: Config, intent: Intent, p: PortfolioState, rung: Rung)
    requires cfg.quoteTokens != []
  {
    var quote := cfg.quoteTokens[0];
    var opens := intent.from == quote && intent.to in cfg.universe && CanTakeRisk(cfg, p, rung);
    var closes := intent.from in cfg.universe && intent.to == quote;
    match intent.action
    case Exit => closes
    case Enter => opens
    case Rebalance => p.sinceLastTrade >= cfg.minInterval && rung != StablecoinMode && (opens || closes)
    case Hold => intent.amount == 0.0
  }

  lemma RebalanceShaped(
    cfg: Config, views: seq<TokenView>, ranked: seq<TokenView>, p: PortfolioState, rung: Rung, price: map<Token, real>)
    requires Coherent(cfg) && forall pos | pos in p.positions :: pos.symbol in cfg.universe
    requires forall v | v in views :: v.symbol in cfg.universe
    requires forall v | v in ranked :: v.symbol in cfg.universe
    ensures Shaped(cfg, RebalanceIntent(cfg, views, ranked, p, rung, price, cfg.quoteTokens[0]), p, rung)
  {
    if p.positions != [] { assert Largest(p.positions, price) in p.positions; }
    if ranked != [] { assert ranked[0] in ranked; }
  }

  lemma IntentShaped(cfg: Config, views: seq<TokenView>, p: PortfolioState, now: real)
    requires Coherent(cfg) && forall pos | pos in p.positions :: pos.symbol in cfg.universe
    ensures Shaped(cfg, DecideIntent(cfg, views, p, now, cfg.quoteTokens[0]), p, RungAt(cfg.ladder, p.drawdown))
  {
    hide RebalanceIntent, RungAt, Ranked, Classify;
    var entryViews := InUniverse(cfg, views);
    RankedIsBestFirst(entryViews, cfg.volMax);
    var ranked := Ranked(entryViews, cfg.volMax);
    RebalanceShaped(cfg, entryViews, ranked, p, RungAt(cfg.ladder, p.drawdown), PriceMap(views));
  }

  /** The decision trades what the intent says, on the committed chain. It buys exactly when it spends the cash leg
      and sells exactly when it receives it, except that a rebalance into a dollar token always sells. */
  predicate Carries(cfg: Config, intent: Intent, d: Decision)
    requires cfg.quoteTokens != []
  {
    var dollars := intent.action == Rebalance && intent.to in ["USDT", "USDC"];
    && d.chain == cfg.chain && d.from == intent.from && d.to == intent.to && d.amount == intent.amount
    && (d.side == Buy <==> intent.action != Hold && intent.from == cfg.quoteTokens[0] && !dollars)
    && (d.side == Sell <==> intent.action != Hold && (intent.to == cfg.quoteTokens[0] || dollars))
  }

  lemma ShapedIsCarried(cfg: Config, intent: Intent, p: PortfolioState)
    requires Coherent(cfg) && Shaped(cfg, intent, p, RungAt(cfg.ladder, p.drawdown))
    ensures Carries(cfg, intent, ToDecision(intent, cfg.chain))
  {
    hide RungAt;
    assert cfg.quoteTokens[0] in cfg.quoteTokens;
  }

  /** The engine's verdict on a shaped intent. */
  lemma ShapedIsAccepted(
    cfg: Config, intent: Intent, p: PortfolioState, tradesLastHour: int, dataAge: real)
    requires Coherent(cfg) && Shaped(cfg, intent, p, RungAt(cfg.ladder, p.drawdown))
    ensures var d, view := ToDecision(intent, cfg.chain), ViewOf(p, tradesLastHour);
            var v := Check(cfg, d, view, dataAge);
            && (v.action == Reject ==> v.reason in {StaleData, HourlyLimit, TooSoon})
            && (v.action == Reject <==>
                  IsTrade(d) && (dataAge > cfg.maxDataAge || (!OverRoom(cfg, d, view) && RateLimited(cfg, view))))
            && (intent.action == Rebalance ==> v.reason != TooSoon)
  {
    hide RungAt, Finalise, OverRoom;
    var d := ToDecision(intent, cfg.chain);
    if intent.from in cfg.universe {
      assert !IsStable(cfg, d.from) && IsStable(cfg, cfg.quoteTokens[0]);
    } else if intent.to in cfg.universe {
      assert !IsStable(cfg, d.to) && IsStable(cfg, cfg.quoteTokens[0]);
    }
  }

  /** Strategy and engine agree. Whatever the market and the portfolio, the decision carries the intent, and the
      engine rejects it exactly when the data are stale or a rate limit binds (which a buy clamped to the
      exposure room escapes): never for the whitelist, the ladder, or full exposure. A rebalance is
      never too soon after the last trade. */
  lemma StrategyAgreesWithEngine(
    cfg: Config, views: seq<TokenView>, p: PortfolioState, now: real, tradesLastHour: int, dataAge: real)
    requires Coherent(cfg) && forall pos | pos in p.positions :: pos.symbol in cfg.universe
    ensures var intent := DecideIntent(cfg, views, p, now, cfg.quoteTokens[0]);
            var d, view := ToDecision(intent, cfg.chain), ViewOf(p, tradesLastHour);
            var v := Check(cfg, d, view, dataAge);
            && Carries(cfg, intent, d)
            && (v.action == Reject ==> v.reason in {StaleData, HourlyLimit, TooSoon})
            && (v.action == Reject <==>
                  IsTrade(d) && (dataAge > cfg.maxDataAge || (!OverRoom(cfg, d, view) && RateLimited(cfg, view))))
            && (intent.action == Rebalance ==> v.reason != TooSoon)
  {
    IntentShaped(cfg, views, p, now);
    ShapedIsCarried(cfg, DecideIntent(cfg, views, p, now, cfg.quoteTokens[0]), p);
    ShapedIsAccepted(cfg, DecideIntent(cfg, views, p, now, cfg.quoteTokens[0]), p, tradesLastHour, dataAge);
  }
}
