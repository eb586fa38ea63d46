/** Decisions, the committed configuration, and the policy engine that allows, clamps or rejects
    (agent/types.py, agent/policy/engine.py). Token symbols are in upper case throughout. */
module Engine {
  import opened Ladder
  import opened Rounding

  type Token = string

  datatype Side = Buy | Sell | Stay
  datatype Decision = Decision(side: Side, chain: string, from: Token, to: Token, amount: real)

  predicate IsTrade(d: Decision) {
    d.side != Stay && d.amount > 0.0
  }

  // Thresholds are in percent or fractions as in config/strategy.json.
  datatype Config = Config(
    chain: string,
    universe: seq<Token>,
    quoteTokens: seq<Token>,
    allowedTokens: set<Token>,
    allowedPairs: set<(string, Token, Token)>,
    ladder: seq<LadderEntry>,
    maxDataAge: real,
    maxRisky: real,
    maxSingleUsd: real,
    maxSinglePct: real,
    minSinglePct: real,
    maxTradesPerHour: int,
    minInterval: real,
    stopLossPct: real,
    takeProfitPct: real,
    maxHoldHours: real,
    volMax: real,
    target: real,
    band: real,
    microUsd: real)

  datatype PortfolioView = PortfolioView(
    nav: real, drawdown: real, exposure: real, tradesLastHour: int, sinceLastTrade: real)

  datatype Action = Allow | Clamp | Reject
  datatype Kind = TradeKind | ClampKind | RejectKind | HoldKind
  datatype Reason =
    | NoAction
    | StaleData
    | TokenNotCommitted(token: Token)
    | PairNotCommitted
    | OnlyDeRisking
    | NewRiskBlocked
    | ExposureFull
    | ClampedToRoom
    | HourlyLimit
    | TooSoon
    | WithinPolicy
    | ClampedToCaps
  datatype Verdict = Verdict(action: Action, kind: Kind, amount: real, reason: Reason, rung: Rung)

  predicate Allowed(v: Verdict) {
    v.action != Reject
  }

  predicate IsStable(cfg: Config, t: Token) {
    t in cfg.quoteTokens
  }

  predicate RiskIncreasing(cfg: Config, d: Decision) {
    d.side == Buy && IsStable(cfg, d.from) && !IsStable(cfg, d.to)
  }

  predicate RiskReducing(cfg: Config, d: Decision) {
    d.side == Sell && !IsStable(cfg, d.from) && IsStable(cfg, d.to)
  }

  function Rejected(reason: Reason, rung: Rung): Verdict {
    Verdict(Reject, RejectKind, 0.0, reason, rung)
  }

  function Room(cfg: Config, p: PortfolioView): real {
    if cfg.maxRisky - p.exposure > 0.0 then cfg.maxRisky - p.exposure else 0.0
  }

  function RoomUsd(cfg: Config, p: PortfolioView): real {
    Room(cfg, p) * p.nav
  }

  // A risk-increasing buy that asks for more than the exposure cap leaves room for.
  predicate OverRoom(cfg: Config, d: Decision, p: PortfolioView) {
    RiskIncreasing(cfg, d) && p.nav > 0.0 && d.amount / p.nav > Room(cfg, p)
  }

  function Check(cfg: Config, d: Decision, p: PortfolioView, dataAge: real): (v: Verdict)
    ensures v.kind == HoldKind <==> !IsTrade(d)
    ensures v.kind == RejectKind <==> v.action == Reject
  {
    var rung := RungAt(cfg.ladder, p.drawdown);
    if !IsTrade(d) then Verdict(Allow, HoldKind, 0.0, NoAction, NoRung)
    else if dataAge > cfg.maxDataAge then Rejected(StaleData, rung)
    else if d.from !in cfg.allowedTokens then Rejected(TokenNotCommitted(d.from), rung)
    else if d.to !in cfg.allowedTokens then Rejected(TokenNotCommitted(d.to), rung)
    else if (d.chain, d.from, d.to) !in cfg.allowedPairs then Rejected(PairNotCommitted, rung)
    else if rung == StablecoinMode && !RiskReducing(cfg, d) then Rejected(OnlyDeRisking, rung)
    else if rung == NoNewRisk && RiskIncreasing(cfg, d) then Rejected(NewRiskBlocked, rung)
    else if RiskIncreasing(cfg, d) && p.nav > 0.0 && Room(cfg, p) <= 0.0 then Rejected(ExposureFull, rung)
    else if OverRoom(cfg, d, p) then
      Finalise(cfg, p, RoomUsd(cfg, p), rung, ClampedToRoom)
    else if p.tradesLastHour >= cfg.maxTradesPerHour then Rejected(HourlyLimit, rung)
    else if p.sinceLastTrade < cfg.minInterval then Rejected(TooSoon, rung)
    else Finalise(cfg, p, d.amount, rung, WithinPolicy)
  }

  function SizeCap(cfg: Config, p: PortfolioView, rung: Rung): real {
    var byPct := p.nav * cfg.maxSinglePct;
    var cap := if p.nav > 0.0 && byPct < cfg.maxSingleUsd then byPct else cfg.maxSingleUsd;
    if rung == HalveSize then cap / 2.0 else cap
  }

  function Finalise(cfg: Config, p: PortfolioView, amount: real, rung: Rung, base: Reason): (v: Verdict)
    ensures v.action != Reject && v.kind != HoldKind && v.kind != RejectKind
    ensures v.rung == rung && (v.reason == base || v.reason == ClampedToCaps)
  {
    var cap := SizeCap(cfg, p, rung);
    var final := if amount > cap then cap else amount;
    if amount > cap || base == ClampedToRoom then
      Verdict(Clamp, ClampKind, Cents(final), if base == ClampedToRoom then base else ClampedToCaps, rung)
    else
      Verdict(Allow, TradeKind, Cents(final), base, rung)
  }

  // The single-trade caps without the functions of the engine: `times` is two on the halving rung, else one.
  predicate WithinCaps(cfg: Config, p: PortfolioView, times: real, amount: real) {
    times * amount <= cfg.maxSingleUsd && (p.nav > 0.0 ==> times * amount <= cfg.maxSinglePct * p.nav)
  }

  predicate ReachesCap(cfg: Config, p: PortfolioView, times: real, amount: real) {
    times * amount >= cfg.maxSingleUsd || (p.nav > 0.0 && times * amount >= cfg.maxSinglePct * p.nav)
  }

  /** What an allowed trade is known to satisfy: data are fresh, the pair is committed, no rung forbids it, and
      up to half a cent of rounding its size respects the decision, the single-trade caps, and, for a
      buy, the room left under the exposure cap. */
  lemma AllowedTradeIsSafe(cfg: Config, d: Decision, p: PortfolioView, dataAge: real)
    requires IsTrade(d) && Allowed(Check(cfg, d, p, dataAge))
    ensures var v := Check(cfg, d, p, dataAge);
            && dataAge <= cfg.maxDataAge && (d.chain, d.from, d.to) in cfg.allowedPairs
            && {d.from, d.to} <= cfg.allowedTokens
            && v.rung == RungAt(cfg.ladder, p.drawdown)
            && (v.rung == StablecoinMode ==> RiskReducing(cfg, d))
            && (Blocks(v.rung) ==> !RiskIncreasing(cfg, d))
            && v.amount <= d.amount + 0.005
            && v.amount <= SizeCap(cfg, p, v.rung) + 0.005
            && WithinCaps(cfg, p, if v.rung == HalveSize then 2.0 else 1.0, v.amount - 0.005)
            && (RiskIncreasing(cfg, d) && p.nav > 0.0 ==>
                  p.exposure < cfg.maxRisky && v.amount <= RoomUsd(cfg, p) + 0.005)
  {
    hide Finalise, RungAt, OverRoom, SizeCap, WithinCaps;
    var rung := RungAt(cfg.ladder, p.drawdown);
    FinaliseBounds(cfg, p, d.amount, rung, WithinPolicy);
    FinaliseBounds(cfg, p, RoomUsd(cfg, p), rung, ClampedToRoom);
    OverRoomMeans(cfg, d, p);
    CapIsLeast(cfg, p, rung, Check(cfg, d, p, dataAge).amount - 0.005);
  }

  predicate SpendsStable(cfg: Config, d: Decision) {
    d.side == Buy && d.from in cfg.quoteTokens && d.to !in cfg.quoteTokens
  }

  // What is asked for, or all the room left under the exposure cap if a buy asks for more.
  function AskedUsd(cfg: Config, d: Decision, p: PortfolioView): real {
    var room := (cfg.maxRisky - p.exposure) * p.nav;
    if SpendsStable(cfg, d) && p.nav > 0.0 && d.amount > room then room else d.amount
  }

  /** An allowed trade is in whole cents and, up to half a cent, for the least of what was asked, the dollar cap
      and the share of NAV, the caps being halved on the halving rung; and it counts as clamped exactly when
      that is less than what was asked for. */
  lemma AllowedSize(cfg: Config, d: Decision, p: PortfolioView, dataAge: real)
    requires IsTrade(d) && Allowed(Check(cfg, d, p, dataAge))
    ensures var v := Check(cfg, d, p, dataAge);
            var times := if RungAt(cfg.ladder, p.drawdown) == HalveSize then 2.0 else 1.0;
            var asked := AskedUsd(cfg, d, p);
            && Cents(v.amount) == v.amount <= asked + 0.005 && WithinCaps(cfg, p, times, v.amount - 0.005)
            && (v.amount >= asked - 0.005 || ReachesCap(cfg, p, times, v.amount + 0.005))
            && (v.action == Allow <==> asked == d.amount && WithinCaps(cfg, p, times, asked))
  {
    CheckFinalises(cfg, d, p, dataAge);
    var base := if OverRoom(cfg, d, p) then ClampedToRoom else WithinPolicy;
    FinaliseSize(cfg, p, AskedUsd(cfg, d, p), RungAt(cfg.ladder, p.drawdown), base);
    hide Check, Finalise, RungAt, OverRoom, Cents, WithinCaps, ReachesCap, AskedUsd;
  }

  // The two ways to an allowed trade.
  lemma CheckFinalises(cfg: Config, d: Decision, p: PortfolioView, dataAge: real)
    requires IsTrade(d) && Allowed(Check(cfg, d, p, dataAge))
    ensures var base := if OverRoom(cfg, d, p) then ClampedToRoom else WithinPolicy;
            Check(cfg, d, p, dataAge)
            == Finalise(cfg, p, AskedUsd(cfg, d, p), RungAt(cfg.ladder, p.drawdown), base)
    ensures OverRoom(cfg, d, p) <==> AskedUsd(cfg, d, p) != d.amount
  {
    if !(RiskIncreasing(cfg, d) && p.nav > 0.0 && Room(cfg, p) <= 0.0) { AskedMeans(cfg, d, p); }
    hide Finalise, RungAt, OverRoom, AskedUsd, RoomUsd, Room, RiskIncreasing;
  }

  lemma AskedMeans(cfg: Config, d: Decision, p: PortfolioView)
    requires !(RiskIncreasing(cfg, d) && p.nav > 0.0 && Room(cfg, p) <= 0.0)
    ensures AskedUsd(cfg, d, p) == if OverRoom(cfg, d, p) then RoomUsd(cfg, p) else d.amount
    ensures OverRoom(cfg, d, p) ==> AskedUsd(cfg, d, p) < d.amount
  {
    OverRoomMeans(cfg, d, p);
    hide OverRoom;
  }

  lemma FinaliseSize(cfg: Config, p: PortfolioView, amount: real, rung: Rung, base: Reason)
    ensures var v, times := Finalise(cfg, p, amount, rung, base), if rung == HalveSize then 2.0 else 1.0;
            && Cents(v.amount) == v.amount <= amount + 0.005 && WithinCaps(cfg, p, times, v.amount - 0.005)
            && (v.amount >= amount - 0.005 || ReachesCap(cfg, p, times, v.amount + 0.005))
            && (v.action == Allow <==> base != ClampedToRoom && WithinCaps(cfg, p, times, amount))
  {
    hide Cents;
    CapIsLeast(cfg, p, rung, amount);
    CentsNear(SizeCap(cfg, p, rung));
    CentsNear(amount);
    CentsOnce(SizeCap(cfg, p, rung));
    CentsOnce(amount);
    var final := Finalise(cfg, p, amount, rung, base).amount;
    CapIsLeast(cfg, p, rung, final - 0.005);
    CapIsLeast(cfg, p, rung, final + 0.005);
  }

  lemma CapIsLeast(cfg: Config, p: PortfolioView, rung: Rung, amount: real)
    ensures var times := if rung == HalveSize then 2.0 else 1.0;
            && (WithinCaps(cfg, p, times, amount) <==> amount <= SizeCap(cfg, p, rung))
            && (ReachesCap(cfg, p, times, amount) <==> amount >= SizeCap(cfg, p, rung))
  {
  }

  /** The rules of the engine, each on its own: what breaks it. */
  predicate Breaks(cfg: Config, d: Decision, p: PortfolioView, dataAge: real, rule: Reason) {
    var rung := RungAt(cfg.ladder, p.drawdown);
    var clamps := SpendsStable(cfg, d) && p.nav > 0.0 && d.amount > (cfg.maxRisky - p.exposure) * p.nav;
    match rule
    case StaleData => dataAge > cfg.maxDataAge
    case TokenNotCommitted(t) =>
      t !in cfg.allowedTokens && (t == d.from || (t == d.to && d.from in cfg.allowedTokens))
    case PairNotCommitted => (d.chain, d.from, d.to) !in cfg.allowedPairs
    case OnlyDeRisking =>
      rung == StablecoinMode && !(d.side == Sell && d.from !in cfg.quoteTokens && d.to in cfg.quoteTokens)
    case NewRiskBlocked => rung == NoNewRisk && SpendsStable(cfg, d)
    case ExposureFull => SpendsStable(cfg, d) && p.nav > 0.0 && p.exposure >= cfg.maxRisky
    case HourlyLimit => !clamps && p.tradesLastHour >= cfg.maxTradesPerHour
    case TooSoon => !clamps && p.sinceLastTrade < cfg.minInterval
    case _ => false
  }

  // The order in which the rules are applied.
  function Place(rule: Reason): nat {
    match rule
    case StaleData => 0
    case TokenNotCommitted(_) => 1
    case PairNotCommitted => 2
    case OnlyDeRisking => 3
    case NewRiskBlocked => 4
    case ExposureFull => 5
    case HourlyLimit => 6
    case TooSoon => 7
    case _ => 8
  }

  /** A trade is rejected exactly when it breaks some rule, and the reason given is the first rule it breaks. What
      does not trade, or trades nothing, is let be. */
  lemma RejectsFirstBroken(cfg: Config, d: Decision, p: PortfolioView, dataAge: real)
    ensures d.side == Stay || d.amount <= 0.0 ==>
              Check(cfg, d, p, dataAge) == Verdict(Allow, HoldKind, 0.0, NoAction, NoRung)
    ensures d.side != Stay && d.amount > 0.0 ==>
              var v := Check(cfg, d, p, dataAge);
              && v.kind != HoldKind
              && (v.action == Reject <==> exists rule :: Breaks(cfg, d, p, dataAge, rule))
              && (v.action == Reject ==> Breaks(cfg, d, p, dataAge, v.reason))
              && (v.action == Reject ==>
                    forall rule | Breaks(cfg, d, p, dataAge, rule) :: Place(v.reason) <= Place(rule))
  {
    hide Finalise, RungAt, OverRoom;
    OverRoomMeans(cfg, d, p);
    var v := Check(cfg, d, p, dataAge);
    if IsTrade(d) && v.action == Reject { assert Breaks(cfg, d, p, dataAge, v.reason); }
  }

  lemma FinaliseBounds(cfg: Config, p: PortfolioView, amount: real, rung: Rung, base: Reason)
    ensures var v := Finalise(cfg, p, amount, rung, base);
            v.amount <= amount + 0.005 && v.amount <= SizeCap(cfg, p, rung) + 0.005 && v.rung == rung
  {
    hide Cents;
    CentsNear(SizeCap(cfg, p, rung));
    CentsNear(amount);
  }

  lemma OverRoomMeans(cfg: Config, d: Decision, p: PortfolioView)
    ensures OverRoom(cfg, d, p) <==>
            RiskIncreasing(cfg, d) && p.nav > 0.0 && d.amount > RoomUsd(cfg, p)
  {
    if p.nav <= 0.0 { return; }
    var room, q := Room(cfg, p), d.amount / p.nav;
    assert d.amount == q * p.nav;
    if q > room { assert (q - room) * p.nav > 0.0; }
    if q <= room { assert (room - q) * p.nav >= 0.0; }
  }

  function AmountOf(v: Verdict): real {
    if Allowed(v) then v.amount else 0.0
  }

  lemma RoomNonNegative(cfg: Config, p: PortfolioView)
    requires p.nav > 0.0
    ensures RoomUsd(cfg, p) >= 0.0
  {
    assert Room(cfg, p) >= 0.0;
  }

  lemma RoomIgnoresDrawdown(cfg: Config, d: Decision, p: PortfolioView, deeper: real)
    ensures OverRoom(cfg, d, p) <==> OverRoom(cfg, d, p.(drawdown := deeper))
    ensures RoomUsd(cfg, p) == RoomUsd(cfg, p.(drawdown := deeper))
  {
  }

  lemma FinaliseMonotone(
    cfg: Config, p: PortfolioView, amount: real, mild: Rung, hard: Rung, deeper: real, base: Reason)
    requires amount >= 0.0 && cfg.maxSingleUsd >= 0.0 && cfg.maxSinglePct >= 0.0
    ensures Finalise(cfg, p, amount, mild, base).amount >= 0.0
    ensures Severity(mild) <= Severity(hard) && !Blocks(hard) ==>
              Finalise(cfg, p.(drawdown := deeper), amount, hard, base).amount
              <= Finalise(cfg, p, amount, mild, base).amount
  {
    hide Cents;
    CapMonotone(cfg, p, mild, hard, deeper);
    var wide, narrow := SizeCap(cfg, p, mild), SizeCap(cfg, p.(drawdown := deeper), hard);
    var more, less := if amount > wide then wide else amount, if amount > narrow then narrow else amount;
    assert Cents(0.0) == 0.0 by { CentsZero(); }
    CentsMonotone(0.0, more);
    if less <= more { CentsMonotone(less, more); }
  }

  lemma CentsZero()
    ensures Cents(0.0) == 0.0
  {
  }

  lemma CapMonotone(cfg: Config, p: PortfolioView, mild: Rung, hard: Rung, deeper: real)
    requires cfg.maxSingleUsd >= 0.0 && cfg.maxSinglePct >= 0.0
    ensures SizeCap(cfg, p, mild) >= 0.0
    ensures Severity(mild) <= Severity(hard) && !Blocks(hard) ==>
              SizeCap(cfg, p.(drawdown := deeper), hard) <= SizeCap(cfg, p, mild)
  {
    if p.nav > 0.0 { assert p.nav * cfg.maxSinglePct >= 0.0; }
  }

  /** On an escalating ladder a deeper drawdown never lets through what a shallower one rejected, and
      never enlarges a buy that takes on risk. */
  lemma DeeperIsStricter(cfg: Config, d: Decision, p: PortfolioView, dataAge: real, deeper: real)
    requires Escalating(cfg.ladder) && p.drawdown <= deeper
    requires cfg.maxSingleUsd >= 0.0 && cfg.maxSinglePct >= 0.0
    ensures var shallow, deep := Check(cfg, d, p, dataAge), Check(cfg, d, p.(drawdown := deeper), dataAge);
            && (Allowed(deep) ==> Allowed(shallow))
            && (RiskIncreasing(cfg, d) ==> AmountOf(deep) <= AmountOf(shallow))
  {
    hide Finalise, RungAt, OverRoom, RoomUsd;
    var q := p.(drawdown := deeper);
    var mild, hard := RungAt(cfg.ladder, p.drawdown), RungAt(cfg.ladder, deeper);
    DeeperIsMoreSevere(cfg.ladder, p.drawdown, deeper);
    OverRoomMeans(cfg, d, p);
    RoomIgnoresDrawdown(cfg, d, p, deeper);
    if IsTrade(d) {
      FinaliseMonotone(cfg, p, d.amount, mild, hard, deeper, WithinPolicy);
      if p.nav > 0.0 {
        RoomNonNegative(cfg, p);
        FinaliseMonotone(cfg, p, RoomUsd(cfg, p), mild, hard, deeper, ClampedToRoom);
      }
    }
  }
}
