/** The backtest champion: one decision over a portfolio (backtest/champion.py:129-299). */
module Champion {
  import opened Wrappers
  import opened Arithmetic
  import opened Ladder
  import opened Metrics
  import opened Portfolios

  datatype Reason = NoReason | LadderFlatten | StopLoss | TakeProfit | TimeStop | Entry | MicroRebalance
  datatype Action = Buy | Sell | Flatten | Hold
  datatype Intent = Intent(action: Action, asset: Asset, size: real, reason: Reason)

  const HOLD := Intent(Hold, "", 0.0, NoReason)

  datatype Config = Config(
    universe: seq<Asset>,
    lookbacks: seq<nat>, requireAgreement: bool, volEnterMax: real,
    maxSingle: real, minSingle: real, maxRisky: real,
    stopLossPct: real, takeProfitPct: real, maxHoldHours: int,
    ladder: seq<LadderEntry>,
    microUsd: real, target: real, band: real, cadence: nat)

  // One hour as the strategy sees it. `vol` is the realised volatility of each asset, in percent.
  datatype Market = Market(hour: int, prices: Prices, history: map<Asset, seq<real>>, vol: map<Asset, real>)

  // What the code itself needs of its configuration: no division by zero, no index out of range.
  predicate Usable(cfg: Config) {
    cfg.lookbacks != [] && cfg.cadence > 0
  }

  // The exits look up a price of every asset of the universe that is held.
  predicate Quotes(cfg: Config, m: Market, a: Account) {
    forall k | k in cfg.universe && Held(a, k) > 0.0 :: k in m.prices
  }

  // ---------------------------------------------------------------- the ladder

  /** The last known action whose threshold is reached, in the order the ladder is written. */
  function LadderState(entries: seq<LadderEntry>, drawdown: real): Rung {
    if entries == [] then NoRung
    else
      var n := |entries| - 1;
      if drawdown >= entries[n].atPct && entries[n].action != NoRung then entries[n].action
      else LadderState(entries[..n], drawdown)
  }

  method ScanState(entries: seq<LadderEntry>, drawdown: real) returns (rung: Rung)
    ensures rung == LadderState(entries, drawdown)
  {
    rung := NoRung;
    var i := 0;
    while i < |entries|
      invariant 0 <= i <= |entries|
      invariant rung == LadderState(entries[..i], drawdown)
    {
      assert entries[..i + 1][..i] == entries[..i];
      if drawdown >= entries[i].atPct {
        match entries[i].action
        case HalveSize => rung := HalveSize;
        case NoNewRisk => rung := NoNewRisk;
        case StablecoinMode => rung := StablecoinMode;
        case NoRung =>
      }
      i := i + 1;
    }
    assert entries[..i] == entries;
  }

  /** On a ladder written in ascending order with escalating actions, a reached blocking rung blocks. */
  lemma {:induction false} ReachedRungBlocks(entries: seq<LadderEntry>, drawdown: real, e: LadderEntry)
    requires Ascending(entries) && Escalating(entries)
    requires e in entries && drawdown >= e.atPct && Blocks(e.action)
    ensures Blocks(LadderState(entries, drawdown))
  {
    var n := |entries| - 1;
    var i :| 0 <= i <= n && entries[i] == e;
    if drawdown < entries[n].atPct {
      assert entries[..n][i] == e;
      ReachedRungBlocks(entries[..n], drawdown, e);
    } else {
      assert Severity(e.action) <= Severity(entries[n].action);
    }
  }

  // ---------------------------------------------------------------- signals

  function HistoryOf(m: Market, a: Asset): seq<real> {
    if a in m.history then m.history[a] else []
  }

  function Momentum(history: seq<real>, lookback: nat): real {
    if |history| < lookback + 1 then 0.0
    else
      var before, now := history[|history| - 1 - lookback], history[|history| - 1];
      if before <= 0.0 then 0.0 else now / before - 1.0
  }

  function VolOf(m: Market, a: Asset): real {
    if a in m.vol then m.vol[a] else 0.0
  }

  function Longest(lookbacks: seq<nat>): (r: nat)
    requires lookbacks != []
    ensures r in lookbacks && forall lb | lb in lookbacks :: lb <= r
  {
    var n := |lookbacks| - 1;
    assert lookbacks == lookbacks[..n] + [lookbacks[n]];
    if n == 0 then lookbacks[0]
    else
      var before := Longest(lookbacks[..n]);
      if lookbacks[n] > before then lookbacks[n] else before
  }

  function Score(cfg: Config, m: Market, a: Asset): real
    requires Usable(cfg)
  {
    Momentum(HistoryOf(m, a), cfg.lookbacks[|cfg.lookbacks| - 1])
  }

  predicate Qualifies(cfg: Config, m: Market, a: Asset)
    requires Usable(cfg)
  {
    && |HistoryOf(m, a)| >= Longest(cfg.lookbacks) + 1
    && (cfg.requireAgreement ==> forall lb | lb in cfg.lookbacks :: Momentum(HistoryOf(m, a), lb) > 0.0)
    && VolOf(m, a) <= cfg.volEnterMax
  }

  function SizePct(cfg: Config, vol: real, halve: bool): real {
    var raw := if vol > 0.0 then cfg.maxSingle * (2.0 / vol) else cfg.maxSingle;
    Max(cfg.minSingle, Min(cfg.maxSingle, raw)) * if halve then 0.5 else 1.0
  }

  lemma SizeWithinMax(cfg: Config, vol: real, halve: bool)
    requires 0.0 <= cfg.minSingle <= cfg.maxSingle
    ensures 0.0 <= SizePct(cfg, vol, halve) <= cfg.maxSingle
  {
  }

  function Qualifying(cfg: Config, m: Market, assets: seq<Asset>): (r: seq<Asset>)
    requires Usable(cfg)
    ensures forall a :: a in r <==> a in assets && Qualifies(cfg, m, a)
  {
    if assets == [] then []
    else
      var n := |assets| - 1;
      assert assets == assets[..n] + [assets[n]];
      Qualifying(cfg, m, assets[..n]) + if Qualifies(cfg, m, assets[n]) then [assets[n]] else []
  }

  function Followed(cfg: Config, m: Market, assets: seq<Asset>): (r: seq<Asset>)
    requires Usable(cfg)
    ensures forall a :: a in r <==> a in assets && |HistoryOf(m, a)| > cfg.lookbacks[|cfg.lookbacks| - 1]
  {
    if assets == [] then []
    else
      var n := |assets| - 1;
      assert assets == assets[..n] + [assets[n]];
      var long := |HistoryOf(m, assets[n])| > cfg.lookbacks[|cfg.lookbacks| - 1];
      Followed(cfg, m, assets[..n]) + if long then [assets[n]] else []
  }

  /** The candidate of greatest momentum; the first of equals. */
  function Strongest(cfg: Config, m: Market, candidates: seq<Asset>): (best: Option<Asset>)
    requires Usable(cfg)
    ensures best.None? <==> candidates == []
    ensures best.Some? ==> best.value in candidates
  {
    if candidates == [] then None
    else
      var n := |candidates| - 1;
      var best := Strongest(cfg, m, candidates[..n]);
      if best.Some? && Score(cfg, m, candidates[n]) <= Score(cfg, m, best.value) then best else Some(candidates[n])
  }

  ghost predicate FirstGreatest(cfg: Config, m: Market, candidates: seq<Asset>, i: nat)
    requires Usable(cfg)
  {
    && i < |candidates|
    && (forall k | 0 <= k < |candidates| :: Score(cfg, m, candidates[k]) <= Score(cfg, m, candidates[i]))
    && (forall k | 0 <= k < i :: Score(cfg, m, candidates[k]) < Score(cfg, m, candidates[i]))
  }

  lemma {:induction false} StrongestIsFirstGreatest(cfg: Config, m: Market, candidates: seq<Asset>) returns (i: nat)
    requires Usable(cfg) && candidates != []
    ensures FirstGreatest(cfg, m, candidates, i) && Strongest(cfg, m, candidates) == Some(candidates[i])
  {
    hide Score;
    var n := |candidates| - 1;
    if n == 0 {
      i := 0;
    } else {
      var before := candidates[..n];
      i := StrongestIsFirstGreatest(cfg, m, before);
      assert forall k | 0 <= k < n :: before[k] == candidates[k];
      if Score(cfg, m, candidates[n]) > Score(cfg, m, before[i]) {
        i := n;
      }
    }
  }

  // ---------------------------------------------------------------- exits

  function HeldSince(a: Account, asset: Asset, hour: int): int {
    if asset in a.entryHour then a.entryHour[asset] else hour
  }

  function ExitReason(cfg: Config, m: Market, a: Account, asset: Asset): Reason {
    var entry, px := Get(a.entryPrice, asset), Get(m.prices, asset);
    if Held(a, asset) <= 0.0 then NoReason
    else if px <= entry * (1.0 - cfg.stopLossPct / 100.0) then StopLoss
    else if px >= entry * (1.0 + cfg.takeProfitPct / 100.0) then TakeProfit
    else if m.hour - HeldSince(a, asset, m.hour) >= cfg.maxHoldHours then TimeStop
    else NoReason
  }

  function FirstExit(cfg: Config, m: Market, a: Account, assets: seq<Asset>): (exit: Option<Intent>)
    ensures exit.Some? ==>
              exit.value.action == Sell && exit.value.asset in assets && Held(a, exit.value.asset) > 0.0
  {
    if assets == [] then None
    else
      var reason := ExitReason(cfg, m, a, assets[0]);
      if reason != NoReason then Some(Intent(Sell, assets[0], 1.0, reason)) else FirstExit(cfg, m, a, assets[1..])
  }

  // ---------------------------------------------------------------- the decision

  // Below this risk the book counts as flat.
  const FLAT: real := 0.000000001
  const FLAT_COOLDOWN_H: int := 24

  ghost predicate Rebaselines(b: Book, m: Market) {
    && RiskyValue(b.account.qty, m.prices) <= FLAT
    && b.flatSince.Some? && m.hour - b.flatSince.value >= FLAT_COOLDOWN_H && LastDrop(b) > 0.5
  }

  /** The flat-cooldown bookkeeping that precedes every decision. */
  ghost function Cooled(b: Book, m: Market): Book {
    if Rebaselines(b, m) then Rebaselined(b, m.prices)
    else if RiskyValue(b.account.qty, m.prices) > FLAT then b.(flatSince := None)
    else if b.flatSince.None? then b.(flatSince := Some(m.hour))
    else b
  }

  ghost function EntryIntent(cfg: Config, m: Market, a: Account, rung: Rung): Option<Intent>
    requires Usable(cfg)
  {
    if ExposureOf(a, m.prices) < cfg.maxRisky then
      match Strongest(cfg, m, Qualifying(cfg, m, cfg.universe))
      case None => None
      case Some(best) =>
        var usd := Product(SizePct(cfg, VolOf(m, best), rung == HalveSize), Nav(a, m.prices));
        if usd > 0.0 && a.cash >= usd then Some(Intent(Buy, best, usd, Entry)) else None
    else None
  }

  ghost function MicroIntent(cfg: Config, m: Market, a: Account, rung: Rung): Intent
    requires Usable(cfg)
  {
    if && rung == NoRung && m.hour % cfg.cadence == 0 && m.hour > 0
       && ExposureOf(a, m.prices) < cfg.target - cfg.band && a.cash >= cfg.microUsd then
      match Strongest(cfg, m, Followed(cfg, m, cfg.universe))
      case None => HOLD
      case Some(pick) => Intent(Buy, pick, cfg.microUsd, MicroRebalance)
    else HOLD
  }

  ghost function Choice(cfg: Config, m: Market, b: Book): Intent
    requires Usable(cfg)
  {
    var rung := LadderState(cfg.ladder, LastDrop(b));
    if rung == StablecoinMode then
      if RiskyValue(b.account.qty, m.prices) > FLAT then Intent(Flatten, "", 0.0, LadderFlatten) else HOLD
    else
      match FirstExit(cfg, m, b.account, cfg.universe)
      case Some(exit) => exit
      case None =>
        if rung == NoNewRisk then HOLD
        else
          match EntryIntent(cfg, m, b.account, rung)
          case Some(entry) => entry
          case None => MicroIntent(cfg, m, b.account, rung)
  }

  method ScanExits(cfg: Config, m: Market, p: Portfolio) returns (exit: Option<Intent>)
    requires p.Valid() && Quotes(cfg, m, p.Acc())
    ensures exit == FirstExit(cfg, m, p.Acc(), cfg.universe)
    ensures exit.None? <==>
            forall k | 0 <= k < |cfg.universe| :: ExitReason(cfg, m, p.Acc(), cfg.universe[k]) == NoReason
  {
    hide ExitReason;
    var i := 0;
    while i < |cfg.universe|
      invariant 0 <= i <= |cfg.universe|
      invariant forall k | 0 <= k < i :: ExitReason(cfg, m, p.Acc(), cfg.universe[k]) == NoReason
      invariant FirstExit(cfg, m, p.Acc(), cfg.universe) == FirstExit(cfg, m, p.Acc(), cfg.universe[i..])
    {
      var asset := cfg.universe[i];
      assert cfg.universe[i..][1..] == cfg.universe[i + 1..];
      var reason := ExitReason(cfg, m, p.Acc(), asset);
      if reason != NoReason {
        return Some(Intent(Sell, asset, 1.0, reason));
      }
      i := i + 1;
    }
    return None;
  }

  method ScanEntries(cfg: Config, m: Market) returns (best: Option<Asset>)
    requires Usable(cfg)
    ensures best == Strongest(cfg, m, Qualifying(cfg, m, cfg.universe))
  {
    hide Score, Qualifies, Strongest, Qualifying;
    best := None;
    var i := 0;
    NothingQualifies(cfg, m);
    while i < |cfg.universe|
      invariant 0 <= i <= |cfg.universe|
      invariant best == Strongest(cfg, m, Qualifying(cfg, m, cfg.universe[..i]))
    {
      var asset := cfg.universe[i];
      QualifyingStep(cfg, m, cfg.universe, i);
      if Qualifies(cfg, m, asset) {
        var score := Score(cfg, m, asset);
        if best.None? || score > Score(cfg, m, best.value) {
          best := Some(asset);
        }
      }
      i := i + 1;
    }
    assert cfg.universe[..i] == cfg.universe;
  }

  lemma NothingQualifies(cfg: Config, m: Market)
    requires Usable(cfg)
    ensures Strongest(cfg, m, Qualifying(cfg, m, cfg.universe[..0])) == None
  {
    assert cfg.universe[..0] == [];
  }

  lemma QualifyingStep(cfg: Config, m: Market, assets: seq<Asset>, i: nat)
    requires Usable(cfg) && i < |assets|
    ensures var before, after := Qualifying(cfg, m, assets[..i]), Qualifying(cfg, m, assets[..i + 1]);
            var best := Strongest(cfg, m, before);
            Strongest(cfg, m, after) ==
              if Qualifies(cfg, m, assets[i])
                 && (best.None? || Score(cfg, m, assets[i]) > Score(cfg, m, best.value)) then Some(assets[i])
              else best
  {
    hide Qualifies, Score, Strongest;
    var upTo, before := assets[..i + 1], Qualifying(cfg, m, assets[..i]);
    assert upTo[..i] == assets[..i] && upTo[i] == assets[i];
    assert Qualifying(cfg, m, upTo) == before + if Qualifies(cfg, m, assets[i]) then [assets[i]] else [];
    assert before + [] == before;
    StrongestOfMore(cfg, m, before, assets[i]);
  }

  lemma StrongestOfMore(cfg: Config, m: Market, candidates: seq<Asset>, a: Asset)
    requires Usable(cfg)
    ensures var best := Strongest(cfg, m, candidates);
            Strongest(cfg, m, candidates + [a]) ==
              if best.None? || Score(cfg, m, a) > Score(cfg, m, best.value) then Some(a) else best
  {
    hide Score;
    assert (candidates + [a])[..|candidates|] == candidates;
  }

  method CoolDown(m: Market, p: Portfolio)
    requires p.Valid()
    modifies p
    ensures p.Valid() && p.Snapshot() == Cooled(old(p.Snapshot()), m) && p.Acc() == old(p.Acc())
  {
    hide Consistent, RiskyValue;
    var dd := p.CurrentDrawdown();
    var risky := p.MarkedRisk(m.prices);
    if risky <= FLAT {
      if p.flatSince.None? {
        p.flatSince := Some(m.hour);
      } else if m.hour - p.flatSince.value >= FLAT_COOLDOWN_H && dd > 0.5 {
        p.Rebaseline(m.prices);
      }
    } else {
      p.flatSince := None;
    }
  }

  method ChooseEntry(cfg: Config, m: Market, p: Portfolio, rung: Rung) returns (entry: Option<Intent>)
    requires Usable(cfg) && p.Valid()
    ensures entry == EntryIntent(cfg, m, p.Acc(), rung)
  {
    hide Consistent, RiskyValue, Strongest, Qualifying, SizePct, Product, ExposureOf, Nav;
    var exposure := p.RiskyRatio(m.prices);
    if exposure < cfg.maxRisky {
      var best := ScanEntries(cfg, m);
      if best.Some? {
        var nav := p.MarkedNav(m.prices);
        var usd := Product(SizePct(cfg, VolOf(m, best.value), rung == HalveSize), nav);
        if usd > 0.0 && p.cash >= usd {
          return Some(Intent(Buy, best.value, usd, Entry));
        }
      }
    }
    return None;
  }

  method ChooseMicro(cfg: Config, m: Market, p: Portfolio, rung: Rung) returns (intent: Intent)
    requires Usable(cfg) && p.Valid()
    ensures intent == MicroIntent(cfg, m, p.Acc(), rung)
  {
    hide Consistent, RiskyValue, Strongest, Followed;
    var exposure := p.RiskyRatio(m.prices);
    if rung == NoRung && m.hour % cfg.cadence == 0 && m.hour > 0 && exposure < cfg.target - cfg.band
       && p.cash >= cfg.microUsd {
      var pick := Strongest(cfg, m, Followed(cfg, m, cfg.universe));
      if pick.Some? {
        return Intent(Buy, pick.value, cfg.microUsd, MicroRebalance);
      }
    }
    return HOLD;
  }

  /** One decision: the cooldown bookkeeping is done on the portfolio, and the intent is the choice on it. */
  method Decide(cfg: Config, m: Market, p: Portfolio) returns (intent: Intent)
    requires Usable(cfg) && Quotes(cfg, m, p.Acc()) && p.Valid()
    modifies p
    ensures p.Valid() && p.Snapshot() == Cooled(old(p.Snapshot()), m) && p.Acc() == old(p.Acc())
    ensures intent == Choice(cfg, m, p.Snapshot())
  {
    hide Consistent, RiskyValue, FirstExit, LadderState, Cooled, EntryIntent, MicroIntent, Nav;
    CoolDown(m, p);
    var rung := ScanState(cfg.ladder, p.CurrentDrawdown());
    if rung == StablecoinMode {
      var risky := p.MarkedRisk(m.prices);
      return if risky > FLAT then Intent(Flatten, "", 0.0, LadderFlatten) else HOLD;
    }
    var exit := ScanExits(cfg, m, p);
    if exit.Some? {
      return exit.value;
    }
    if rung == NoNewRisk {
      return HOLD;
    }
    var entry := ChooseEntry(cfg, m, p, rung);
    if entry.Some? {
      return entry.value;
    }
    intent := ChooseMicro(cfg, m, p, rung);
  }

  // ---------------------------------------------------------------- what a decision may do

  /** A buy is never chosen once the drawdown has reached a rung that blocks new risk. */
  lemma NoBuyOnBlockingRung(cfg: Config, m: Market, b: Book, e: LadderEntry)
    requires Usable(cfg) && Ascending(cfg.ladder) && Escalating(cfg.ladder)
    requires e in cfg.ladder && Blocks(e.action) && LastDrop(b) >= e.atPct
    ensures Choice(cfg, m, b).action != Buy
  {
    hide LadderState;
    ReachedRungBlocks(cfg.ladder, LastDrop(b), e);
  }

  // A configuration whose size limits are in order.
  predicate Ordered(cfg: Config) {
    0.0 <= cfg.minSingle <= cfg.maxSingle
  }

  ghost function RiskAfterBuy(a: Account, intent: Intent, m: Market, c: Costs): real
    requires Consistent(a) && Realistic(c)
  {
    RiskyValue(Bought(a, intent.asset, intent.size, Get(m.prices, intent.asset), m.hour, c).qty, m.prices)
  }

  /** Right after a filled entry the risk is below (max_risky + max_single) of the NAV before it; right
      after a filled micro-rebalance it is below (target - band) of that NAV plus the micro amount. */
  lemma BuyStaysUnderCap(cfg: Config, m: Market, b: Book, c: Costs)
    requires Usable(cfg) && Ordered(cfg) && Realistic(c) && NonNegativePrices(m.prices) && Consistent(b.account)
    requires var intent := Choice(cfg, m, b);
             intent.action == Buy && BuyFills(b.account, intent.size, Get(m.prices, intent.asset), c)
    ensures var intent := Choice(cfg, m, b); var nav := Nav(b.account, m.prices);
            && nav > 0.0
            && (intent.reason == Entry ==>
                  RiskAfterBuy(b.account, intent, m, c) < Product(cfg.maxRisky + cfg.maxSingle, nav))
            && (intent.reason == MicroRebalance ==>
                  RiskAfterBuy(b.account, intent, m, c) < Product(cfg.target - cfg.band, nav) + cfg.microUsd)
            && (intent.reason == Entry || intent.reason == MicroRebalance)
  {
    hide Choice, RiskyValue, RiskAfterBuy, Product, SizePct, Consistent, Spend, Qualifying, LadderState, VolOf, Nav;
    var intent := Choice(cfg, m, b);
    var a := b.account;
    ValueNonNegative(a.qty, m.prices);
    BuyAddsAtMost(a, intent, m, c);
    BuyChoices(cfg, m, b);
    NavOf(a, m.prices);
    var nav, risk := Nav(a, m.prices), RiskyValue(a.qty, m.prices);
    if intent.reason == Entry {
      var halve := LadderState(cfg.ladder, LastDrop(b)) == HalveSize;
      SizeWithinMax(cfg, VolOf(m, intent.asset), halve);
      RatioBound(risk, nav, cfg.maxRisky);
      ScaledBound(SizePct(cfg, VolOf(m, intent.asset), halve), cfg.maxSingle, nav);
      Spread(cfg.maxRisky, cfg.maxSingle, nav);
    } else {
      RatioBound(risk, nav, cfg.target - cfg.band);
    }
  }

  lemma NavOf(a: Account, prices: Prices)
    ensures Nav(a, prices) == a.cash + RiskyValue(a.qty, prices)
  {
  }

  // The two ways in which a buy is chosen.
  lemma BuyChoices(cfg: Config, m: Market, b: Book)
    requires Usable(cfg) && Choice(cfg, m, b).action == Buy
    ensures var intent, a := Choice(cfg, m, b), b.account; var rung := LadderState(cfg.ladder, LastDrop(b));
            if intent.reason == Entry then
              && ExposureOf(a, m.prices) < cfg.maxRisky
              && intent.size == Product(SizePct(cfg, VolOf(m, intent.asset), rung == HalveSize), Nav(a, m.prices))
            else
              && intent.reason == MicroRebalance && intent.size == cfg.microUsd
              && ExposureOf(a, m.prices) < cfg.target - cfg.band
  {
    hide RiskyValue, LadderState, FirstExit, Strongest, Qualifying, Followed, SizePct, Nav, VolOf, ExposureOf;
  }

  lemma RatioBound(risk: real, nav: real, cap: real)
    requires nav > 0.0 && risk / nav < cap
    ensures risk < Product(cap, nav)
  {
    Quotient(risk, nav);
    Gap(cap - risk / nav, nav);
    Spread(cap, risk / nav, nav);
  }

  lemma ScaledBound(pct: real, cap: real, nav: real)
    requires nav > 0.0 && pct <= cap
    ensures Product(pct, nav) <= Product(cap, nav)
  {
    BothNonNegative(cap - pct, nav);
    Spread(cap, pct, nav);
  }

  /** A filled buy raises the risk by no more than the amount asked for. */
  lemma BuyAddsAtMost(a: Account, intent: Intent, m: Market, c: Costs)
    requires Consistent(a) && Realistic(c) && BuyFills(a, intent.size, Get(m.prices, intent.asset), c)
    ensures RiskAfterBuy(a, intent, m, c) <= RiskyValue(a.qty, m.prices) + intent.size
  {
    hide Product, Fee, BuyPrice, AverageEntry, RiskyValue, Spend;
    var price := Get(m.prices, intent.asset);
    var spend, fill, held := Spend(a.cash, intent.size, c), BuyPrice(price, c), Held(a, intent.asset);
    FillPositive(spend, price, c);
    CostBounds(price, c);
    FeeBounds(Min(intent.size, a.cash), c);
    SpendUnfolds(a.cash, intent.size, c);
    var qty := spend / fill;
    ValueAfterUpdate(a.qty, m.prices, intent.asset, held + qty);
    Spread(held, qty, price);
    Spread(fill, price, qty);
    Quotient(spend, fill);
    BothNonNegative(qty, fill - price);
    HeldNonNegative(a, intent.asset);
  }
}
