/** What the backtest champion decides (backtest/champion.py:88-298), rule by rule and without its functions: the rung
    it stands on, the position it sells, the asset it enters and for how much, and the micro-rebalance. */
module Choices {
  import opened Wrappers
  import opened Arithmetic
  import opened Ladder
  import opened Metrics
  import opened Portfolios
  import opened Champion

  // ---------------------------------------------------------------- the ladder

  // The entry at `i` is reached and known, and none written after it is.
  predicate LastKnown(entries: seq<LadderEntry>, drawdown: real, i: nat)
    requires i < |entries|
  {
    && drawdown >= entries[i].atPct && entries[i].action != NoRung
    && forall k | i < k < |entries| :: drawdown < entries[k].atPct || entries[k].action == NoRung
  }

  /** The rung is the known action of the last threshold reached in the order written, however deep that is, and none
      exactly if no known action's is reached. */
  lemma {:induction false} LadderStateMeans(entries: seq<LadderEntry>, drawdown: real)
    ensures forall i | 0 <= i < |entries| && LastKnown(entries, drawdown, i) ::
              LadderState(entries, drawdown) == entries[i].action
    ensures LadderState(entries, drawdown) == NoRung <==>
            forall e | e in entries :: drawdown < e.atPct || e.action == NoRung
  {
    if entries != [] {
      var n := |entries| - 1;
      LadderStateMeans(entries[..n], drawdown);
      assert entries == entries[..n] + [entries[n]];
      forall i | 0 <= i < n && LastKnown(entries, drawdown, i) ensures LastKnown(entries[..n], drawdown, i) {
      }
    }
  }

  // ---------------------------------------------------------------- exits

  // The rules that sell a position entered at `entry` and `since`, without dividing.
  predicate Reaches(cfg: Config, reason: Reason, entry: real, since: int, px: real, hour: int) {
    match reason
    case StopLoss => 100.0 * px <= Product(entry, 100.0 - cfg.stopLossPct)
    case TakeProfit => 100.0 * px >= Product(entry, 100.0 + cfg.takeProfitPct)
    case TimeStop => hour - since >= cfg.maxHoldHours
    case _ => false
  }

  // A position that is held and that some rule sells.
  ghost predicate Sells(cfg: Config, m: Market, a: Account, asset: Asset, reason: Reason)
    requires Consistent(a)
  {
    asset in a.qty && Reaches(cfg, reason, a.entryPrice[asset], a.entryHour[asset], Get(m.prices, asset), m.hour)
  }

  lemma ExitReasonMeans(cfg: Config, m: Market, a: Account, asset: Asset)
    requires Consistent(a)
    ensures ExitReason(cfg, m, a, asset)
         == if Sells(cfg, m, a, asset, StopLoss) then StopLoss
            else if Sells(cfg, m, a, asset, TakeProfit) then TakeProfit
            else if Sells(cfg, m, a, asset, TimeStop) then TimeStop
            else NoReason
  {
    if asset in a.qty {
      var entry := a.entryPrice[asset];
      assert 100.0 * (entry * (1.0 - cfg.stopLossPct / 100.0)) == Product(entry, 100.0 - cfg.stopLossPct);
      assert 100.0 * (entry * (1.0 + cfg.takeProfitPct / 100.0)) == Product(entry, 100.0 + cfg.takeProfitPct);
      hide Product;
    }
  }

  // No rule sells it.
  ghost predicate Stays(cfg: Config, m: Market, a: Account, asset: Asset)
    requires Consistent(a)
  {
    !Sells(cfg, m, a, asset, StopLoss) && !Sells(cfg, m, a, asset, TakeProfit) && !Sells(cfg, m, a, asset, TimeStop)
  }

  lemma StaysMeans(cfg: Config, m: Market, a: Account, asset: Asset)
    requires Consistent(a)
    ensures Stays(cfg, m, a, asset) <==> ExitReason(cfg, m, a, asset) == NoReason
    ensures ExitReason(cfg, m, a, asset) != NoReason ==> Sells(cfg, m, a, asset, ExitReason(cfg, m, a, asset))
  {
    ExitReasonMeans(cfg, m, a, asset);
    hide Sells, ExitReason;
  }

  // The rules sell the asset at `k` and none before it.
  ghost predicate FirstSold(cfg: Config, m: Market, a: Account, assets: seq<Asset>, k: nat)
    requires Consistent(a) && k < |assets|
  {
    !Stays(cfg, m, a, assets[k]) && forall j | 0 <= j < k :: Stays(cfg, m, a, assets[j])
  }

  lemma {:induction false} FirstExitMeans(cfg: Config, m: Market, a: Account, assets: seq<Asset>)
    requires Consistent(a)
    ensures FirstExit(cfg, m, a, assets).None? <==> forall k | 0 <= k < |assets| :: Stays(cfg, m, a, assets[k])
    ensures forall k | 0 <= k < |assets| && FirstSold(cfg, m, a, assets, k) ::
              FirstExit(cfg, m, a, assets) == Some(Intent(Sell, assets[k], 1.0, ExitReason(cfg, m, a, assets[k])))
  {
    hide Stays, ExitReason, Consistent;
    if assets != [] {
      StaysMeans(cfg, m, a, assets[0]);
      var rest := assets[1..];
      FirstExitMeans(cfg, m, a, rest);
      forall k | 0 < k < |assets| && FirstSold(cfg, m, a, assets, k)
        ensures FirstSold(cfg, m, a, rest, k - 1) && rest[k - 1] == assets[k] && Stays(cfg, m, a, assets[0])
      {
        assert forall j | 0 <= j < k - 1 :: rest[j] == assets[j + 1];
      }
    }
  }

  /** At the stablecoin rung everything is sold, if more than a billionth of a dollar is held. Above it, the first
      asset of the universe that a rule sells is sold whole: for the stop, else the target, else the time. */
  lemma ExitRule(cfg: Config, m: Market, b: Book)
    requires Usable(cfg) && Consistent(b.account)
    ensures var intent, a := Choice(cfg, m, b), b.account;
            if LadderState(cfg.ladder, LastDrop(b)) == StablecoinMode then
              intent == if RiskyValue(a.qty, m.prices) > 0.000000001 then Intent(Flatten, "", 0.0, LadderFlatten)
                        else HOLD
            else
              && (intent.action == Sell <==> exists k | 0 <= k < |cfg.universe| :: !Stays(cfg, m, a, cfg.universe[k]))
              && forall k | 0 <= k < |cfg.universe| && FirstSold(cfg, m, a, cfg.universe, k) ::
                   && Sells(cfg, m, a, cfg.universe[k], intent.reason)
                   && intent == Intent(Sell, cfg.universe[k], 1.0, ExitReason(cfg, m, a, cfg.universe[k]))
  {
    FirstExitMeans(cfg, m, b.account, cfg.universe);
    forall k | 0 <= k < |cfg.universe| && FirstSold(cfg, m, b.account, cfg.universe, k)
      ensures Sells(cfg, m, b.account, cfg.universe[k], ExitReason(cfg, m, b.account, cfg.universe[k]))
    {
      StaysMeans(cfg, m, b.account, cfg.universe[k]);
    }
    hide LadderState, FirstExit, ExitReason, FirstSold, Stays, Sells, Strongest, Qualifying, Followed, SizePct, VolOf,
      Nav, RiskyValue, ExposureOf, Consistent;
  }

  // ---------------------------------------------------------------- signals

  /** The momentum is by how much of itself the last price is above the one so many hours before, and nothing if there
      is no such price or it is not positive; so it is positive exactly if the price has risen. */
  lemma MomentumMeans(history: seq<real>, lookback: nat)
    ensures |history| <= lookback ==> Momentum(history, lookback) == 0.0
    ensures |history| > lookback ==>
              var before, now := history[|history| - 1 - lookback], history[|history| - 1];
              if before > 0.0 then
                && Product(1.0 + Momentum(history, lookback), before) == now
                && (Momentum(history, lookback) > 0.0 <==> now > before)
              else Momentum(history, lookback) == 0.0
  {
    if |history| > lookback {
      var before, now := history[|history| - 1 - lookback], history[|history| - 1];
      if before > 0.0 {
        var rise := Momentum(history, lookback);
        assert rise == now / before - 1.0;
        RatioRises(before, now, rise);
      }
    }
    hide Product;
  }

  lemma RatioRises(before: real, now: real, rise: real)
    requires before > 0.0 && rise == now / before - 1.0
    ensures Product(1.0 + rise, before) == now && (rise > 0.0 <==> now > before)
  {
    Quotient(now, before);
    var ratio := 1.0 + rise;
    assert Product(ratio, before) == now && Product(1.0, before) == before;
    hide Product;
    Gap(ratio - 1.0, before);
    Gap(1.0 - ratio, before);
    Spread(ratio, 1.0, before);
    Spread(1.0, ratio, before);
  }

  // The history reaches back over every lookback; if the momenta have to agree, the price has risen over each; and
  // the volatility, nought if unknown, is within the limit.
  ghost predicate Eligible(cfg: Config, m: Market, asset: Asset) {
    var history := if asset in m.history then m.history[asset] else [];
    var n := |history| - 1;
    && (forall lb | lb in cfg.lookbacks :: n >= lb)
    && (cfg.requireAgreement ==> forall lb: nat | lb in cfg.lookbacks && n >= lb ::
          history[n - lb] > 0.0 && history[n] > history[n - lb])
    && (if asset in m.vol then m.vol[asset] else 0.0) <= cfg.volEnterMax
  }

  lemma QualifiesMeans(cfg: Config, m: Market, asset: Asset)
    requires Usable(cfg)
    ensures Qualifies(cfg, m, asset) <==> Eligible(cfg, m, asset)
  {
    var history := HistoryOf(m, asset);
    var n := |history| - 1;
    if n >= Longest(cfg.lookbacks) {
      forall lb: nat | lb in cfg.lookbacks
        ensures n >= lb
        ensures Momentum(history, lb) > 0.0 <==> history[n - lb] > 0.0 && history[n] > history[n - lb]
      {
        MomentumMeans(history, lb);
      }
    }
    hide Momentum, Product;
  }

  /** The share of NAV put into an entry, or twice it at the halving rung, is the greatest share times two over the
      volatility, within the least and the greatest share. */
  lemma SizeMeans(cfg: Config, vol: real, halve: bool)
    ensures var whole := if halve then 2.0 * SizePct(cfg, vol, halve) else SizePct(cfg, vol, halve);
            && whole >= cfg.minSingle && (whole <= cfg.maxSingle || whole == cfg.minSingle)
            && (vol <= 0.0 ==> whole >= cfg.maxSingle)
            && (vol > 0.0 ==> Product(whole, vol) <= 2.0 * cfg.maxSingle || whole == cfg.minSingle)
            && (vol > 0.0 ==> Product(whole, vol) >= 2.0 * cfg.maxSingle || whole >= cfg.maxSingle)
  {
    var raw := if vol > 0.0 then cfg.maxSingle * (2.0 / vol) else cfg.maxSingle;
    var whole := Max(cfg.minSingle, Min(cfg.maxSingle, raw));
    assert (if halve then 2.0 * SizePct(cfg, vol, halve) else SizePct(cfg, vol, halve)) == whole;
    if vol > 0.0 { RawSize(cfg.maxSingle, vol, raw); }
    hide SizePct, Product;
    if vol > 0.0 {
      if whole <= raw { BothNonNegative(raw - whole, vol); }
      if whole >= raw { BothNonNegative(whole - raw, vol); }
      Spread(raw, whole, vol);
      Spread(whole, raw, vol);
    }
  }

  lemma RawSize(most: real, vol: real, raw: real)
    requires vol > 0.0 && raw == most * (2.0 / vol)
    ensures Product(raw, vol) == 2.0 * most
  {
    assert 2.0 / vol * vol == 2.0;
  }

  // ---------------------------------------------------------------- entries

  // The risk is below this share of NAV; a book of no value has none.
  ghost predicate RiskBelow(a: Account, prices: Prices, share: real) {
    var risk := RiskyValue(a.qty, prices);
    if a.cash + risk <= 0.0 then share > 0.0 else risk < Product(share, a.cash + risk)
  }

  lemma ExposureMeans(a: Account, prices: Prices, share: real)
    ensures ExposureOf(a, prices) < share <==> RiskBelow(a, prices, share)
  {
    var risk := RiskyValue(a.qty, prices);
    var nav := a.cash + risk;
    if nav > 0.0 {
      Quotient(risk, nav);
      Gap(share - risk / nav, nav);
      Gap(risk / nav - share, nav);
      Spread(share, risk / nav, nav);
      Spread(risk / nav, share, nav);
    }
    hide RiskyValue, Product;
  }

  // The asset at `k` is eligible, and has the greatest momentum of those that are; of equals it is the first.
  ghost predicate Leads(cfg: Config, m: Market, assets: seq<Asset>, k: nat)
    requires Usable(cfg) && k < |assets|
  {
    && Eligible(cfg, m, assets[k])
    && forall j | 0 <= j < |assets| && Eligible(cfg, m, assets[j]) ::
         Score(cfg, m, assets[j]) < Score(cfg, m, assets[k])
         || (Score(cfg, m, assets[j]) == Score(cfg, m, assets[k]) && k <= j)
  }

  // One more asset takes the lead exactly if it is eligible and of greater momentum than the one that leads.
  lemma LeadsOfMore(cfg: Config, m: Market, assets: seq<Asset>, last: Asset, k: nat)
    requires Usable(cfg) && k < |assets| && Leads(cfg, m, assets, k)
    ensures Leads(cfg, m, assets + [last],
                  if Eligible(cfg, m, last) && Score(cfg, m, last) > Score(cfg, m, assets[k]) then |assets| else k)
  {
    hide Eligible, Score;
    var all := assets + [last];
    assert forall j | 0 <= j < |assets| :: all[j] == assets[j];
  }

  lemma FirstLeads(cfg: Config, m: Market, assets: seq<Asset>, last: Asset)
    requires Usable(cfg) && Eligible(cfg, m, last) && forall j | 0 <= j < |assets| :: !Eligible(cfg, m, assets[j])
    ensures Leads(cfg, m, assets + [last], |assets|)
  {
    hide Eligible, Score;
    var all := assets + [last];
    assert forall j | 0 <= j < |assets| :: all[j] == assets[j];
  }

  lemma {:induction false} StrongestLeads(cfg: Config, m: Market, assets: seq<Asset>)
    requires Usable(cfg)
    ensures var best := Strongest(cfg, m, Qualifying(cfg, m, assets));
            && (best.None? <==> forall k | 0 <= k < |assets| :: !Eligible(cfg, m, assets[k]))
            && (best.Some? ==> exists k | 0 <= k < |assets| :: Leads(cfg, m, assets, k) && best.value == assets[k])
  {
    hide Strongest, Qualifying, Qualifies, Eligible, Score, Leads;
    if assets == [] {
      NoneLeads(cfg, m);
    } else {
      var n := |assets| - 1;
      var before, last := assets[..n], assets[n];
      StrongestLeads(cfg, m, before);
      QualifyingStep(cfg, m, assets, n);
      QualifiesMeans(cfg, m, last);
      assert assets[..n + 1] == assets == before + [last];
      var best := Strongest(cfg, m, Qualifying(cfg, m, before));
      if best.Some? {
        var k :| 0 <= k < n && Leads(cfg, m, before, k) && best.value == before[k];
        LeadsOfMore(cfg, m, before, last, k);
        LeaderIsEligible(cfg, m, before, k);
        assert assets[k] == before[k];
      } else if Eligible(cfg, m, last) {
        FirstLeads(cfg, m, before, last);
      }
    }
  }

  lemma LeaderIsEligible(cfg: Config, m: Market, assets: seq<Asset>, k: nat)
    requires Usable(cfg) && k < |assets| && Leads(cfg, m, assets, k)
    ensures Eligible(cfg, m, assets[k])
  {
    hide Eligible, Score;
  }

  lemma NoneLeads(cfg: Config, m: Market)
    requires Usable(cfg)
    ensures Strongest(cfg, m, Qualifying(cfg, m, [])) == None
  {
  }

  lemma OneLeads(cfg: Config, m: Market, assets: seq<Asset>, j: nat, k: nat)
    requires Usable(cfg) && j < |assets| && k < |assets| && Leads(cfg, m, assets, j) && Leads(cfg, m, assets, k)
    ensures j == k
  {
    hide Eligible, Score;
  }

  // What an entry is for.
  ghost function EntryUsd(cfg: Config, m: Market, b: Book, pick: Asset): real {
    var halve := LadderState(cfg.ladder, LastDrop(b)) == HalveSize;
    Product(SizePct(cfg, if pick in m.vol then m.vol[pick] else 0.0, halve), Nav(b.account, m.prices))
  }

  // The ladder lets risk be taken, and nothing has to be sold.
  ghost predicate Free(cfg: Config, m: Market, b: Book)
    requires Consistent(b.account)
  {
    && LadderState(cfg.ladder, LastDrop(b)) in {NoRung, HalveSize}
    && forall k | 0 <= k < |cfg.universe| :: Stays(cfg, m, b.account, cfg.universe[k])
  }

  // The risk is below the cap, and the leading asset can be paid for.
  ghost predicate Enters(cfg: Config, m: Market, b: Book, k: nat)
    requires Usable(cfg) && k < |cfg.universe|
  {
    && RiskBelow(b.account, m.prices, cfg.maxRisky) && Leads(cfg, m, cfg.universe, k)
    && 0.0 < EntryUsd(cfg, m, b, cfg.universe[k]) <= b.account.cash
  }

  lemma ChoiceWhenFree(cfg: Config, m: Market, b: Book)
    requires Usable(cfg) && Consistent(b.account) && Free(cfg, m, b)
    ensures var rung := LadderState(cfg.ladder, LastDrop(b));
            var entry := EntryIntent(cfg, m, b.account, rung);
            Choice(cfg, m, b) == if entry.Some? then entry.value else MicroIntent(cfg, m, b.account, rung)
  {
    FirstExitMeans(cfg, m, b.account, cfg.universe);
    hide LadderState, FirstExit, Stays, EntryIntent, MicroIntent, RiskyValue, Consistent;
  }

  lemma EntryIntentMeans(cfg: Config, m: Market, b: Book)
    requires Usable(cfg)
    ensures var rung := LadderState(cfg.ladder, LastDrop(b));
            var best := Strongest(cfg, m, Qualifying(cfg, m, cfg.universe));
            EntryIntent(cfg, m, b.account, rung)
            == if RiskBelow(b.account, m.prices, cfg.maxRisky) && best.Some?
                  && 0.0 < EntryUsd(cfg, m, b, best.value) <= b.account.cash
               then Some(Intent(Buy, best.value, EntryUsd(cfg, m, b, best.value), Entry)) else None
  {
    ExposureMeans(b.account, m.prices, cfg.maxRisky);
    hide LadderState, Strongest, Qualifying, SizePct, Nav, RiskyValue, ExposureOf, RiskBelow, Product;
  }

  /** If the ladder lets risk be taken and nothing has to be sold, the leading asset is entered for its share of NAV,
      exactly if the risk is below the cap and the cash suffices. */
  lemma EntryRule(cfg: Config, m: Market, b: Book)
    requires Usable(cfg) && Consistent(b.account) && Free(cfg, m, b)
    ensures var intent := Choice(cfg, m, b);
            && (intent.reason == Entry <==> exists k | 0 <= k < |cfg.universe| :: Enters(cfg, m, b, k))
            && (intent.reason == Entry ==> exists k | 0 <= k < |cfg.universe| ::
                  Enters(cfg, m, b, k)
                  && intent == Intent(Buy, cfg.universe[k], EntryUsd(cfg, m, b, cfg.universe[k]), Entry))
  {
    ChoiceWhenFree(cfg, m, b);
    EntryIntentMeans(cfg, m, b);
    MicroIsNoEntry(cfg, m, b.account, LadderState(cfg.ladder, LastDrop(b)));
    StrongestLeads(cfg, m, cfg.universe);
    hide Choice, EntryIntent, MicroIntent, Strongest, Qualifying, Leads, Eligible, RiskBelow, EntryUsd, LadderState,
      Consistent, Free;
    var best := Strongest(cfg, m, Qualifying(cfg, m, cfg.universe));
    forall k | 0 <= k < |cfg.universe| && Enters(cfg, m, b, k) ensures best.Some? && best.value == cfg.universe[k] {
      LeaderIsEligible(cfg, m, cfg.universe, k);
      var j :| 0 <= j < |cfg.universe| && Leads(cfg, m, cfg.universe, j) && best.value == cfg.universe[j];
      OneLeads(cfg, m, cfg.universe, j, k);
    }
    if Choice(cfg, m, b).reason == Entry {
      var j :| 0 <= j < |cfg.universe| && Leads(cfg, m, cfg.universe, j) && best.value == cfg.universe[j];
      assert Enters(cfg, m, b, j);
    }
  }

  lemma MicroIsNoEntry(cfg: Config, m: Market, a: Account, rung: Rung)
    requires Usable(cfg)
    ensures MicroIntent(cfg, m, a, rung).reason != Entry
  {
    hide Strongest, Followed, ExposureOf;
  }

  // ---------------------------------------------------------------- micro-rebalances

  // The history of `pick` reaches over the last lookback, and its momentum is greatest of those.
  ghost predicate Trends(cfg: Config, m: Market, assets: seq<Asset>, pick: Asset)
    requires Usable(cfg)
  {
    var last := cfg.lookbacks[|cfg.lookbacks| - 1];
    && pick in assets && |HistoryOf(m, pick)| > last
    && forall a | a in assets && |HistoryOf(m, a)| > last :: Score(cfg, m, a) <= Score(cfg, m, pick)
  }

  lemma StrongestTrends(cfg: Config, m: Market, assets: seq<Asset>)
    requires Usable(cfg)
    ensures var best := Strongest(cfg, m, Followed(cfg, m, assets));
            && (best.None? <==>
                  forall a | a in assets :: |HistoryOf(m, a)| <= cfg.lookbacks[|cfg.lookbacks| - 1])
            && (best.Some? ==> Trends(cfg, m, assets, best.value))
  {
    hide Followed, Score, Strongest, HistoryOf;
    var followed := Followed(cfg, m, assets);
    if followed != [] {
      assert followed[0] in followed;
      var i := StrongestIsFirstGreatest(cfg, m, followed);
      assert followed[i] in followed;
      forall a | a in followed ensures Score(cfg, m, a) <= Score(cfg, m, followed[i]) {
        var k :| 0 <= k < |followed| && followed[k] == a;
      }
    }
  }

  // At the full hours of the cadence, on no rung, with the risk below the band and the cash for it.
  ghost predicate MicroTime(cfg: Config, m: Market, b: Book)
    requires Usable(cfg)
  {
    && LadderState(cfg.ladder, LastDrop(b)) == NoRung && m.hour > 0 && m.hour % cfg.cadence == 0
    && RiskBelow(b.account, m.prices, cfg.target - cfg.band) && b.account.cash >= cfg.microUsd
  }

  lemma MicroIntentMeans(cfg: Config, m: Market, b: Book)
    requires Usable(cfg)
    ensures var best := Strongest(cfg, m, Followed(cfg, m, cfg.universe));
            MicroIntent(cfg, m, b.account, LadderState(cfg.ladder, LastDrop(b)))
            == if MicroTime(cfg, m, b) && best.Some? then Intent(Buy, best.value, cfg.microUsd, MicroRebalance)
               else Intent(Hold, "", 0.0, NoReason)
  {
    ExposureMeans(b.account, m.prices, cfg.target - cfg.band);
    hide Strongest, Followed, RiskBelow, LadderState, ExposureOf;
  }

  // Some asset of the universe has a history that reaches over the last lookback.
  predicate AnyFollowed(cfg: Config, m: Market)
    requires Usable(cfg)
  {
    exists a | a in cfg.universe :: |HistoryOf(m, a)| > cfg.lookbacks[|cfg.lookbacks| - 1]
  }

  /** Where nothing has to be sold and nothing is entered, a micro-rebalance buys an asset of greatest momentum for the
      micro amount exactly when it is time for it and there is one, and otherwise nothing is done. */
  lemma MicroRule(cfg: Config, m: Market, b: Book)
    requires Usable(cfg) && Consistent(b.account) && Free(cfg, m, b) && Choice(cfg, m, b).reason != Entry
    ensures var intent := Choice(cfg, m, b);
            if MicroTime(cfg, m, b) && AnyFollowed(cfg, m) then
              Trends(cfg, m, cfg.universe, intent.asset)
              && intent == Intent(Buy, intent.asset, cfg.microUsd, MicroRebalance)
            else intent == Intent(Hold, "", 0.0, NoReason)
  {
    ChoiceWhenFree(cfg, m, b);
    EntryIntentMeans(cfg, m, b);
    MicroIntentMeans(cfg, m, b);
    StrongestTrends(cfg, m, cfg.universe);
    hide Choice, EntryIntent, MicroIntent, Strongest, Qualifying, Followed, RiskBelow, EntryUsd, LadderState,
      Consistent, Free, Trends, HistoryOf, MicroTime;
  }

  /** On the rung that blocks new risk a book with nothing to sell does nothing. */
  lemma BlockedRule(cfg: Config, m: Market, b: Book)
    requires Usable(cfg) && Consistent(b.account) && LadderState(cfg.ladder, LastDrop(b)) == NoNewRisk
    requires forall k | 0 <= k < |cfg.universe| :: Stays(cfg, m, b.account, cfg.universe[k])
    ensures Choice(cfg, m, b) == Intent(Hold, "", 0.0, NoReason)
  {
    FirstExitMeans(cfg, m, b.account, cfg.universe);
    hide LadderState, FirstExit, Stays, Consistent, RiskyValue;
  }
}
