/** What the strategy decides (agent/strategy/survival.py:50-157), rule by rule and without its functions: when it
    closes a position, what it enters and for how much, when it nudges the exposure, and when it holds. */
module Cascade {
  import opened Wrappers
  import opened Arithmetic
  import opened Ladder
  import opened Rounding
  import opened Engine
  import opened Signals
  import opened Survival

  // ---------------------------------------------------------------- exits

  // The price is at least `pct` percent below the entry price, or above it, without dividing by it. A position
  // with entry price zero has made neither loss nor gain.
  predicate LostBy(entry: real, px: real, pct: real) {
    if entry > 0.0 then 100.0 * px <= (100.0 - pct) * entry
    else if entry < 0.0 then 100.0 * px >= (100.0 - pct) * entry
    else pct <= 0.0
  }

  predicate GainedBy(entry: real, px: real, pct: real) {
    if entry > 0.0 then 100.0 * px >= (100.0 + pct) * entry
    else if entry < 0.0 then 100.0 * px <= (100.0 + pct) * entry
    else pct <= 0.0
  }

  // A position that is held and priced, and that the ladder, the stop, the target or the clock closes.
  predicate Due(cfg: Config, rung: Rung, pos: Position, price: map<Token, real>, now: real) {
    && pos.symbol in price && pos.qty > 0.0
    && (|| rung == StablecoinMode
        || LostBy(pos.entryPrice, price[pos.symbol], cfg.stopLossPct)
        || GainedBy(pos.entryPrice, price[pos.symbol], cfg.takeProfitPct)
        || now - pos.entryTs >= 3600.0 * cfg.maxHoldHours)
  }

  lemma RatioMeans(entry: real, px: real, pct: real)
    requires entry != 0.0
    ensures (px - entry) / entry * 100.0 <= -pct <==> LostBy(entry, px, pct)
    ensures (px - entry) / entry * 100.0 >= pct <==> GainedBy(entry, px, pct)
  {
    var q := (px - entry) / entry * 100.0;
    assert q * entry == 100.0 * (px - entry);
    Compare(q, -pct, entry);
    Compare(q, pct, entry);
    assert -pct * entry == (100.0 - pct) * entry - 100.0 * entry;
    assert pct * entry == (100.0 + pct) * entry - 100.0 * entry;
  }

  lemma Compare(x: real, y: real, unit: real)
    requires unit != 0.0
    ensures x <= y <==> if unit > 0.0 then x * unit <= y * unit else x * unit >= y * unit
    ensures x >= y <==> if unit > 0.0 then x * unit >= y * unit else x * unit <= y * unit
  {
    assert (x - y) * unit == x * unit - y * unit;
  }

  lemma DueMeans(cfg: Config, rung: Rung, pos: Position, price: map<Token, real>, now: real)
    ensures ExitsNow(cfg, rung, pos, price, now) <==> Due(cfg, rung, pos, price, now)
  {
    if pos.symbol in price && pos.entryPrice != 0.0 {
      RatioMeans(pos.entryPrice, price[pos.symbol], cfg.stopLossPct);
      RatioMeans(pos.entryPrice, price[pos.symbol], cfg.takeProfitPct);
    }
  }

  // Nothing has to be closed.
  predicate NothingDue(cfg: Config, rung: Rung, positions: seq<Position>, price: map<Token, real>, now: real) {
    forall i | 0 <= i < |positions| :: !Due(cfg, rung, positions[i], price, now)
  }

  lemma {:induction false} FirstExitIsDue(
    cfg: Config, rung: Rung, positions: seq<Position>, price: map<Token, real>, now: real)
    ensures FirstExit(cfg, rung, positions, price, now).None? <==> NothingDue(cfg, rung, positions, price, now)
    ensures forall i | 0 <= i < |positions| && Due(cfg, rung, positions[i], price, now)
                       && NothingDue(cfg, rung, positions[..i], price, now) ::
              FirstExit(cfg, rung, positions, price, now) == Some(ExitLeg(positions[i], price))
  {
    hide ExitsNow;
    if positions != [] {
      var rest := positions[1..];
      DueMeans(cfg, rung, positions[0], price, now);
      hide Due;
      FirstExitIsDue(cfg, rung, rest, price, now);
      forall i | 0 <= i < |positions| && Due(cfg, rung, positions[i], price, now)
                 && NothingDue(cfg, rung, positions[..i], price, now)
        ensures i == 0
             || (!Due(cfg, rung, positions[0], price, now) && NothingDue(cfg, rung, rest[..i - 1], price, now))
      {
        if i > 0 {
          assert positions[..i][0] == positions[0];
          assert forall k | 0 <= k < i - 1 :: rest[k] == positions[..i][k + 1];
        }
      }
    }
  }

  /** The strategy closes a position exactly when one is due: the ladder stands at stablecoin mode, the price has
      fallen from the entry price by the stop or risen by the target, or it was held for the longest time.
      It closes the first such position, for its whole value in cents. */
  lemma ExitRule(cfg: Config, views: seq<TokenView>, p: PortfolioState, now: real, quote: Token)
    ensures var intent, price := DecideIntent(cfg, views, p, now, quote), PriceMap(views);
            var rung := RungAt(cfg.ladder, p.drawdown);
            && (intent.action == Exit <==> !NothingDue(cfg, rung, p.positions, price, now))
            && forall i | 0 <= i < |p.positions| && Due(cfg, rung, p.positions[i], price, now)
                          && NothingDue(cfg, rung, p.positions[..i], price, now) ::
                 var pos := p.positions[i];
                 pos.symbol in price
                 && intent == Intent(Exit, pos.symbol, quote, Cents(Product(pos.qty, price[pos.symbol])))
  {
    hide RungAt, NothingDue, FirstExit, DecideIntent, Cents, Product, PriceMap, Due, ExitLeg;
    var rung, price := RungAt(cfg.ladder, p.drawdown), PriceMap(views);
    FirstExitIsDue(cfg, rung, p.positions, price, now);
    ExitsFirst(cfg, views, p, now, quote);
    forall i | 0 <= i < |p.positions| && Due(cfg, rung, p.positions[i], price, now)
               && NothingDue(cfg, rung, p.positions[..i], price, now)
      ensures var pos := p.positions[i];
              && pos.symbol in price
              && DecideIntent(cfg, views, p, now, quote)
                 == Intent(Exit, pos.symbol, quote, Cents(Product(pos.qty, price[pos.symbol])))
    {
      DueLeg(cfg, rung, p.positions[i], price, now);
    }
  }

  lemma DueLeg(cfg: Config, rung: Rung, pos: Position, price: map<Token, real>, now: real)
    requires Due(cfg, rung, pos, price, now)
    ensures pos.symbol in price && ExitLeg(pos, price) == Leg(pos.symbol, Cents(Product(pos.qty, price[pos.symbol])))
  {
    hide Product, Cents, LostBy, GainedBy;
  }

  lemma ExitsFirst(cfg: Config, views: seq<TokenView>, p: PortfolioState, now: real, quote: Token)
    ensures var leg := FirstExit(cfg, RungAt(cfg.ladder, p.drawdown), p.positions, PriceMap(views), now);
            var intent := DecideIntent(cfg, views, p, now, quote);
            if leg.Some? then intent == Intent(Exit, leg.value.symbol, quote, leg.value.usd) else intent.action != Exit
  {
    hide RungAt, FirstExit, FirstEntry, RebalanceUpToken, Largest, Cents, InUniverse, Ranked, PriceMap;
  }

  // ---------------------------------------------------------------- entries

  // The least share weighed by the volatility, and the greatest by how far that is below the ceiling.
  function Mixed(cfg: Config, vol: real): real {
    cfg.minSinglePct * vol + cfg.maxSinglePct * (cfg.volMax - vol)
  }

  // The amount, or twice it if the ladder halves sizes, is the share of NAV that the volatility gives, between the
  // least share at the ceiling and the greatest at rest; the least if the volatility is unknown.
  predicate IsShare(cfg: Config, nav: real, vol: Option<Volatility>, halve: bool, usd: real) {
    var whole := if halve then 2.0 * usd else usd;
    if vol.None? then whole == Product(cfg.minSinglePct, nav)
    else Product(whole, cfg.volMax) == Product(Mixed(cfg, vol.value), nav)
  }

  /** An entry is for the least of that share, the dollar cap and the room left under the exposure cap. */
  lemma EntrySizeIsLeast(cfg: Config, p: PortfolioState, v: TokenView, halve: bool) returns (share: real)
    requires v.vol.Some? ==> v.vol.value < cfg.volMax
    ensures IsShare(cfg, p.nav, v.vol, halve, share)
    ensures var usd, room := EntrySize(cfg, p, v, halve), Product(cfg.maxRisky - p.exposure, p.nav);
            && usd <= share && usd <= cfg.maxSingleUsd && usd <= room
            && (usd == share || usd == cfg.maxSingleUsd || usd == room)
  {
    share := ScaledShare(cfg, p.nav, v.vol, halve);
    hide IsShare, VolScaledSize, Product;
  }

  lemma ScaledShare(cfg: Config, nav: real, vol: Option<Volatility>, halve: bool) returns (share: real)
    requires vol.Some? ==> vol.value < cfg.volMax
    ensures IsShare(cfg, nav, vol, halve, share)
    ensures VolScaledSize(cfg, nav, vol, halve) == if share < cfg.maxSingleUsd then share else cfg.maxSingleUsd
  {
    var frac := Fraction(cfg, vol);
    share := Product(if halve then frac / 2.0 else frac, nav);
    FractionMeans(cfg, vol, nav);
    hide Fraction, IsShare, Product;
    WholeShare(cfg, nav, vol, halve, frac, share);
  }

  lemma FractionMeans(cfg: Config, vol: Option<Volatility>, nav: real)
    requires vol.Some? ==> vol.value < cfg.volMax
    ensures if vol.None? then Fraction(cfg, vol) == cfg.minSinglePct
            else Product(Product(Fraction(cfg, vol), nav), cfg.volMax) == Product(Mixed(cfg, vol.value), nav)
  {
    if vol.Some? {
      InUnitRange(cfg.volMax - vol.value, cfg.volMax);
      Interpolates(cfg.minSinglePct, cfg.maxSinglePct, vol.value, cfg.volMax, nav);
    }
  }

  lemma WholeShare(cfg: Config, nav: real, vol: Option<Volatility>, halve: bool, frac: real, share: real)
    requires share == Product(if halve then frac / 2.0 else frac, nav)
    requires if vol.None? then frac == cfg.minSinglePct
             else Product(Product(frac, nav), cfg.volMax) == Product(Mixed(cfg, vol.value), nav)
    ensures IsShare(cfg, nav, vol, halve, share)
  {
    assert (if halve then 2.0 * share else share) == Product(frac, nav);
    hide Product, Mixed;
  }

  lemma InUnitRange(x: real, y: real)
    requires 0.0 < x <= y
    ensures 0.0 <= x / y <= 1.0
  {
    assert x / y * y == x;
  }

  lemma Interpolates(lo: real, hi: real, x: real, ceiling: real, nav: real)
    requires ceiling > 0.0
    ensures Product(Product(lo + (hi - lo) * ((ceiling - x) / ceiling), nav), ceiling)
         == Product(lo * x + hi * (ceiling - x), nav)
  {
    var raw := (ceiling - x) / ceiling;
    assert raw * ceiling == ceiling - x;
    assert (lo + (hi - lo) * raw) * ceiling == lo * ceiling + (hi - lo) * (raw * ceiling);
    assert lo * ceiling + (hi - lo) * (ceiling - x) == lo * x + hi * (ceiling - x);
  }

  /** Of two tokens of known volatility the calmer one is entered for at least as much. */
  lemma CalmerIsLarger(cfg: Config, p: PortfolioState, v: TokenView, w: TokenView, halve: bool)
    requires v.vol.Some? && w.vol.Some? && v.vol.value <= w.vol.value < cfg.volMax
    requires cfg.minSinglePct <= cfg.maxSinglePct && p.nav >= 0.0
    ensures EntrySize(cfg, p, v, halve) >= EntrySize(cfg, p, w, halve)
  {
    var x, y := (cfg.volMax - v.vol.value) / cfg.volMax, (cfg.volMax - w.vol.value) / cfg.volMax;
    InUnitRange(cfg.volMax - v.vol.value, cfg.volMax);
    InUnitRange(cfg.volMax - w.vol.value, cfg.volMax);
    Gap(x - y, cfg.volMax);
    Gap(y - x, cfg.volMax);
    Quotient(cfg.volMax - v.vol.value, cfg.volMax);
    Quotient(cfg.volMax - w.vol.value, cfg.volMax);
    Spread(x, y, cfg.volMax);
    Spread(y, x, cfg.volMax);
    assert x >= y by { hide Product; }
    BothNonNegative(cfg.maxSinglePct - cfg.minSinglePct, x - y);
    var f, g := Fraction(cfg, v.vol), Fraction(cfg, w.vol);
    assert f >= g;
    var i, j := if halve then f / 2.0 else f, if halve then g / 2.0 else g;
    BothNonNegative(i - j, p.nav);
    Spread(i, j, p.nav);
    hide Product, Fraction;
  }

  // A rising token of the universe that is not held, and for which an entry is worth a dollar.
  predicate Candidate(cfg: Config, p: PortfolioState, v: TokenView, halve: bool) {
    && v.symbol in cfg.universe && Rising(v, cfg.volMax)
    && (forall pos | pos in p.positions :: pos.symbol != v.symbol)
    && EntrySize(cfg, p, v, halve) >= 1.0
  }

  // New risk: the ladder is at rest or halves sizes, and more than one percent of room is left.
  predicate RiskAllowed(cfg: Config, p: PortfolioState) {
    RungAt(cfg.ladder, p.drawdown) in {NoRung, HalveSize} && p.exposure < cfg.maxRisky - 0.01
  }

  lemma {:induction false} InUniverseMeans(cfg: Config, views: seq<TokenView>)
    ensures forall v :: v in InUniverse(cfg, views) <==> v in views && v.symbol in cfg.universe
  {
    if views != [] {
      InUniverseMeans(cfg, views[..|views| - 1]);
      assert views == views[..|views| - 1] + [views[|views| - 1]];
    }
  }

  // The index of the first token that can be entered, or the number of tokens.
  lemma {:induction false} FirstEnterable(cfg: Config, p: PortfolioState, ranked: seq<TokenView>, halve: bool)
    returns (i: nat)
    requires forall v | v in ranked :: Sizable(cfg, v)
    ensures i <= |ranked| && forall k | 0 <= k < i :: !Enterable(cfg, p, ranked[k], halve)
    ensures i < |ranked| ==> Enterable(cfg, p, ranked[i], halve)
  {
    hide Enterable;
    if ranked == [] || Enterable(cfg, p, ranked[0], halve) {
      i := 0;
    } else {
      i := FirstEnterable(cfg, p, ranked[1..], halve);
      i := i + 1;
    }
  }

  // The strongest of the candidates.
  predicate BestCandidate(cfg: Config, views: seq<TokenView>, p: PortfolioState, v: TokenView, halve: bool) {
    && v in views && Candidate(cfg, p, v, halve)
    && forall w | w in views && Candidate(cfg, p, w, halve) :: Strength(w) <= Strength(v)
  }

  lemma CandidatesRank(cfg: Config, views: seq<TokenView>, p: PortfolioState, halve: bool)
    ensures var ranked := Ranked(InUniverse(cfg, views), cfg.volMax);
            && (forall v | v in ranked :: Sizable(cfg, v) && v in views)
            && (forall v | v in views :: Candidate(cfg, p, v, halve) <==> v in ranked && Enterable(cfg, p, v, halve))
            && (forall i, j | 0 <= i < j < |ranked| :: Strength(ranked[i]) >= Strength(ranked[j]))
  {
    InUniverseMeans(cfg, views);
    RankedByStrength(InUniverse(cfg, views), cfg.volMax);
    hide Ranked, InUniverse, Strength, EntrySize;
  }

  lemma EntryIsBest(cfg: Config, views: seq<TokenView>, p: PortfolioState, halve: bool)
    ensures var ranked := Ranked(InUniverse(cfg, views), cfg.volMax);
            && (forall v | v in ranked :: Sizable(cfg, v))
            && var leg := FirstEntry(cfg, p, ranked, halve);
               && (leg.None? <==> forall v | v in views :: !Candidate(cfg, p, v, halve))
               && (leg.Some? ==> exists v | v in views ::
                     BestCandidate(cfg, views, p, v, halve)
                     && leg.value == Leg(v.symbol, Cents(EntrySize(cfg, p, v, halve))))
  {
    CandidatesRank(cfg, views, p, halve);
    hide Ranked, InUniverse, Candidate, Enterable, EntrySize, Cents, Strength, FirstEntry;
    var ranked := Ranked(InUniverse(cfg, views), cfg.volMax);
    var i := FirstEnterable(cfg, p, ranked, halve);
    FirstEntryIs(cfg, p, ranked, halve, i);
    if i < |ranked| {
      var v := ranked[i];
      forall w | w in views && Candidate(cfg, p, w, halve) ensures Strength(w) <= Strength(v) {
        var k :| 0 <= k < |ranked| && ranked[k] == w;
      }
      assert BestCandidate(cfg, views, p, v, halve);
    }
  }

  // What follows when nothing has to be closed.
  lemma AfterExits(cfg: Config, views: seq<TokenView>, p: PortfolioState, now: real, quote: Token)
    requires DecideIntent(cfg, views, p, now, quote).action != Exit
    ensures var rung, entryViews := RungAt(cfg.ladder, p.drawdown), InUniverse(cfg, views);
            var ranked := Ranked(entryViews, cfg.volMax);
            && (forall v | v in ranked :: Sizable(cfg, v))
            && var entry := if CanTakeRisk(cfg, p, rung) then FirstEntry(cfg, p, ranked, rung == HalveSize) else None;
               DecideIntent(cfg, views, p, now, quote)
               == if entry.Some? then Intent(Enter, quote, entry.value.symbol, entry.value.usd)
                  else RebalanceIntent(cfg, entryViews, ranked, p, rung, PriceMap(views), quote)
  {
    hide RungAt, FirstExit, FirstEntry, RebalanceIntent, CanTakeRisk, InUniverse, Ranked, PriceMap;
    RankedIsBestFirst(InUniverse(cfg, views), cfg.volMax);
  }

  /** If nothing has to be closed, the strategy enters exactly when new risk is allowed and there is a candidate.
      It enters the strongest candidate, for its size in cents. */
  lemma EntryRule(cfg: Config, views: seq<TokenView>, p: PortfolioState, now: real, quote: Token)
    requires DecideIntent(cfg, views, p, now, quote).action != Exit
    ensures var intent, halve := DecideIntent(cfg, views, p, now, quote), RungAt(cfg.ladder, p.drawdown) == HalveSize;
            && (intent.action == Enter <==> RiskAllowed(cfg, p) && exists v | v in views :: Candidate(cfg, p, v, halve))
            && (intent.action == Enter ==> exists v | v in views ::
                  BestCandidate(cfg, views, p, v, halve)
                  && intent == Intent(Enter, quote, v.symbol, Cents(EntrySize(cfg, p, v, halve))))
  {
    var rung := RungAt(cfg.ladder, p.drawdown);
    AfterExits(cfg, views, p, now, quote);
    EntryIsBest(cfg, views, p, rung == HalveSize);
    RebalanceIsNoEntry(
      cfg, InUniverse(cfg, views), Ranked(InUniverse(cfg, views), cfg.volMax), p, rung, PriceMap(views), quote);
    hide DecideIntent, FirstEntry, Candidate, EntrySize, Cents, Ranked, InUniverse, RungAt, PriceMap, RebalanceIntent;
  }

  lemma RebalanceIsNoEntry(
    cfg: Config, views: seq<TokenView>, ranked: seq<TokenView>, p: PortfolioState, rung: Rung, price: map<Token, real>,
    quote: Token)
    ensures RebalanceIntent(cfg, views, ranked, p, rung, price, quote).action in {Rebalance, Hold}
  {
    hide Largest, RebalanceUpToken, Cents;
  }

  // ---------------------------------------------------------------- micro-rebalances

  // What a micro-rebalance may buy: the strongest rising token, held or not; if none is rising, the calmest token
  // not held, where a token of unknown volatility yields to every one below a billion percent.
  ghost predicate Nudged(cfg: Config, views: seq<TokenView>, p: PortfolioState, v: TokenView) {
    && v in views && v.symbol in cfg.universe
    && if Rising(v, cfg.volMax) then
         forall w | w in views && w.symbol in cfg.universe && Rising(w, cfg.volMax) :: Strength(w) <= Strength(v)
       else
         && !Holds(p.positions, v.symbol)
         && (forall w | w in views && w.symbol in cfg.universe :: !Rising(w, cfg.volMax))
         && forall w | w in views && w.symbol in cfg.universe && !Holds(p.positions, w.symbol) ::
              w.vol.Some? && w.vol.value < 1000000000.0 ==> v.vol.Some? && v.vol.value <= w.vol.value
  }

  // The holding at `i` is worth the most, one without a price counting for nothing; of equals it is the first.
  predicate LargestHolding(positions: seq<Position>, price: map<Token, real>, i: nat)
    requires i < |positions|
  {
    var most := Product(positions[i].qty, if positions[i].symbol in price then price[positions[i].symbol] else 0.0);
    forall k | 0 <= k < |positions| ::
      var usd := Product(positions[k].qty, if positions[k].symbol in price then price[positions[k].symbol] else 0.0);
      usd < most || (usd == most && i <= k)
  }

  lemma {:induction false} CalmestMeans(views: seq<TokenView>, positions: seq<Position>)
    ensures var best := Calmest(views, positions);
            && (best.None? <==> forall i | 0 <= i < |views| :: Holds(positions, views[i].symbol))
            && (best.Some? ==> exists i | 0 <= i < |views| ::
                  views[i] == best.value && CalmestAt(views, positions, i))
  {
    hide Holds, VolKey;
    if views != [] {
      var n := |views| - 1;
      CalmestMeans(views[..n], positions);
      assert forall i | 0 <= i < n :: views[..n][i] == views[i];
      var best := Calmest(views[..n], positions);
      if best.Some? {
        var i :| 0 <= i < n && views[..n][i] == best.value && CalmestAt(views[..n], positions, i);
        assert views[i] == best.value;
        assert Calmest(views, positions) == best ==> CalmestAt(views, positions, i);
      }
      assert Calmest(views, positions) != best ==> CalmestAt(views, positions, n);
    }
  }

  // No token that is not held comes before the one at `i` in volatility, or, with the same, in order.
  predicate CalmestAt(views: seq<TokenView>, positions: seq<Position>, i: nat)
    requires i < |views|
  {
    && !Holds(positions, views[i].symbol)
    && forall k | 0 <= k < |views| && !Holds(positions, views[k].symbol) ::
         VolKey(views[i]) < VolKey(views[k]) || (VolKey(views[i]) == VolKey(views[k]) && i <= k)
  }

  lemma LargestMeans(positions: seq<Position>, price: map<Token, real>) returns (i: nat)
    requires positions != []
    ensures i < |positions| && Largest(positions, price) == positions[i] && LargestHolding(positions, price, i)
  {
    i := LargestIndex(positions, price);
  }

  lemma {:induction false} LargestIndex(positions: seq<Position>, price: map<Token, real>) returns (i: nat)
    requires positions != []
    ensures i < |positions| && Largest(positions, price) == positions[i]
    ensures forall k | 0 <= k < |positions| ::
              ValueAt(positions[k], price) < ValueAt(positions[i], price)
              || (ValueAt(positions[k], price) == ValueAt(positions[i], price) && i <= k)
  {
    hide ValueAt;
    var n := |positions| - 1;
    i := 0;
    if n > 0 {
      i := LargestIndex(positions[..n], price);
      assert forall k | 0 <= k < n :: positions[..n][k] == positions[k];
      if ValueAt(positions[n], price) > ValueAt(positions[i], price) { i := n; }
    }
  }

  lemma UpTokenMeans(cfg: Config, views: seq<TokenView>, p: PortfolioState)
    ensures var entryViews := InUniverse(cfg, views);
            var tok := RebalanceUpToken(Ranked(entryViews, cfg.volMax), entryViews, p.positions);
            && (tok.Some? <==> exists v | v in views && v.symbol in cfg.universe ::
                  Rising(v, cfg.volMax) || !Holds(p.positions, v.symbol))
            && (tok.Some? ==> exists v | v in views :: Nudged(cfg, views, p, v) && tok.value == v.symbol)
  {
    var entryViews := InUniverse(cfg, views);
    var ranked := Ranked(entryViews, cfg.volMax);
    InUniverseMeans(cfg, views);
    RankedByStrength(entryViews, cfg.volMax);
    CalmestMeans(entryViews, p.positions);
    hide InUniverse, Ranked, Calmest, Holds, Rising, Strength;
    if ranked != [] {
      var v := ranked[0];
      assert v in ranked;
      forall w | w in ranked ensures Strength(w) <= Strength(v) {
        var k :| 0 <= k < |ranked| && ranked[k] == w;
      }
      assert Nudged(cfg, views, p, v);
    } else {
      assert forall w | w in entryViews :: !Rising(w, cfg.volMax) by {
        assert forall w | w in entryViews && Rising(w, cfg.volMax) :: w in ranked;
      }
      var calm := Calmest(entryViews, p.positions);
      if calm.Some? { assert Nudged(cfg, views, p, calm.value); }
    }
  }

  /** If nothing has to be closed and nothing is entered, the strategy nudges the exposure towards its target, if
      the last trade is long enough ago and the ladder does not demand stablecoins: up, where it is below the
      band, new risk is allowed and some token can be bought; down, from the largest holding, where it is above
      the band. Otherwise it holds. */
  lemma RebalanceRule(cfg: Config, views: seq<TokenView>, p: PortfolioState, now: real, quote: Token)
    requires DecideIntent(cfg, views, p, now, quote).action in {Rebalance, Hold}
    ensures var intent, rung := DecideIntent(cfg, views, p, now, quote), RungAt(cfg.ladder, p.drawdown);
            var free := p.sinceLastTrade >= cfg.minInterval && rung != StablecoinMode;
            var low := p.exposure < cfg.target - cfg.band && RiskAllowed(cfg, p);
            var high := p.exposure > cfg.target + cfg.band && p.positions != [];
            var buyable := exists v | v in views && v.symbol in cfg.universe ::
                             Rising(v, cfg.volMax) || !Holds(p.positions, v.symbol);
            && (intent.action == Rebalance <==> free && if low then buyable else high)
            && (intent.action == Hold ==> intent == Intent(Hold, quote, quote, 0.0))
            && (intent.action == Rebalance && low ==> exists v | v in views ::
                  Nudged(cfg, views, p, v) && intent == Intent(Rebalance, quote, v.symbol, Cents(cfg.microUsd)))
            && (intent.action == Rebalance && !low ==> exists i | 0 <= i < |p.positions| ::
                  LargestHolding(p.positions, PriceMap(views), i)
                  && intent == Intent(Rebalance, p.positions[i].symbol, quote, Cents(cfg.microUsd)))
  {
    var rung, price, entryViews := RungAt(cfg.ladder, p.drawdown), PriceMap(views), InUniverse(cfg, views);
    AfterExits(cfg, views, p, now, quote);
    UpTokenMeans(cfg, views, p);
    if p.positions != [] { var i := LargestMeans(p.positions, price); }
    hide DecideIntent, FirstEntry, Cents, Ranked, InUniverse, RungAt, PriceMap, RebalanceUpToken, Largest, Nudged,
      LargestHolding, Rising, Holds;
  }
}
