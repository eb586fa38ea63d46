/** Market data to a per-token regime (agent/strategy/signals.py). */
module Signals {
  import opened Wrappers
  import opened Engine

  // An absolute 24-hour move, or a standard deviation.
  type Volatility = x: real | x >= 0.0

  datatype TokenView = TokenView(
    symbol: Token, price: real, pct1h: Option<real>, pct4h: Option<real>, vol: Option<Volatility>)

  datatype Regime = RiskOn | Neutral | RiskOff

  function Sign(x: real): int {
    if x > 0.0 then 1 else if x < 0.0 then -1 else 0
  }

  function Classify(v: TokenView, volMax: real): Regime {
    match (v.pct1h, v.pct4h)
    case (Some(p1), Some(p4)) =>
      var agree := Sign(p1) == Sign(p4) && Sign(p1) != 0;
      if v.vol.Some? && v.vol.value >= volMax then RiskOff
      else if !agree then Neutral
      else if Sign(p1) > 0 then RiskOn else RiskOff
    case _ => Neutral
  }

  function Abs(x: real): real {
    if x < 0.0 then -x else x
  }

  function OrZero(x: Option<real>): real {
    if x.Some? then x.value else 0.0
  }

  function VolOrZero(v: TokenView): real {
    if v.vol.Some? then v.vol.value else 0.0
  }

  function Score(v: TokenView): real {
    Abs(OrZero(v.pct4h)) + Abs(OrZero(v.pct1h)) - VolOrZero(v)
  }

  function RiskOnViews(views: seq<TokenView>, volMax: real): seq<TokenView> {
    if views == [] then []
    else
      var n := |views| - 1;
      RiskOnViews(views[..n], volMax) + if Classify(views[n], volMax) == RiskOn then [views[n]] else []
  }

  predicate BestFirst(vs: seq<TokenView>) {
    forall i, j | 0 <= i < j < |vs| :: Score(vs[i]) >= Score(vs[j])
  }

  function InsertByScore(v: TokenView, vs: seq<TokenView>): seq<TokenView> {
    if vs == [] || Score(v) >= Score(vs[0]) then [v] + vs else [vs[0]] + InsertByScore(v, vs[1..])
  }

  // Stable sort, best score first.
  function SortByScore(vs: seq<TokenView>): seq<TokenView> {
    if vs == [] then [] else InsertByScore(vs[0], SortByScore(vs[1..]))
  }

  function Ranked(views: seq<TokenView>, volMax: real): seq<TokenView> {
    SortByScore(RiskOnViews(views, volMax))
  }

  method RankEntries(views: seq<TokenView>, volMax: real) returns (ranked: seq<TokenView>)
    ensures ranked == Ranked(views, volMax)
    ensures forall v :: v in ranked <==> v in views && Classify(v, volMax) == RiskOn
    ensures BestFirst(ranked)
    ensures forall v | v in ranked :: v.vol.Some? ==> v.vol.value < volMax
  {
    var scored := [];
    var i := 0;
    while i < |views|
      invariant 0 <= i <= |views|
      invariant scored == RiskOnViews(views[..i], volMax)
    {
      assert views[..i + 1][..i] == views[..i];
      if Classify(views[i], volMax) == RiskOn {
        scored := scored + [views[i]];
      }
      i := i + 1;
    }
    assert views[..i] == views;
    ranked := SortByScore(scored);
    RankedIsBestFirst(views, volMax);
  }

  lemma {:induction false} RiskOnViewsContents(views: seq<TokenView>, volMax: real)
    ensures forall v :: v in RiskOnViews(views, volMax) <==> v in views && Classify(v, volMax) == RiskOn
  {
    if views != [] {
      RiskOnViewsContents(views[..|views| - 1], volMax);
      assert views == views[..|views| - 1] + [views[|views| - 1]];
    }
  }

  lemma {:induction false} InsertByScoreSorts(v: TokenView, vs: seq<TokenView>)
    requires BestFirst(vs)
    ensures BestFirst(InsertByScore(v, vs))
    ensures forall x :: x in InsertByScore(v, vs) <==> x == v || x in vs
  {
    hide Score;
    if vs != [] && Score(v) < Score(vs[0]) {
      InsertByScoreSorts(v, vs[1..]);
      assert vs == [vs[0]] + vs[1..];
      var rest := InsertByScore(v, vs[1..]);
      forall i | 0 <= i < |rest| ensures Score(vs[0]) >= Score(rest[i]) { assert rest[i] in rest; }
    }
  }

  lemma {:induction false} SortByScoreSorts(vs: seq<TokenView>)
    ensures BestFirst(SortByScore(vs))
    ensures forall x :: x in SortByScore(vs) <==> x in vs
  {
    if vs != [] {
      SortByScoreSorts(vs[1..]);
      InsertByScoreSorts(vs[0], SortByScore(vs[1..]));
      assert vs == [vs[0]] + vs[1..];
    }
  }

  // Both momenta are known and up, and the volatility, if known, is below the ceiling.
  predicate Rising(v: TokenView, volMax: real) {
    && v.pct1h.Some? && v.pct1h.value > 0.0 && v.pct4h.Some? && v.pct4h.value > 0.0
    && (v.vol.Some? ==> v.vol.value < volMax)
  }

  // What a rising token is ranked by.
  function Strength(v: TokenView): real {
    match (v.pct1h, v.pct4h, v.vol)
    case (Some(p1), Some(p4), Some(vol)) => p1 + p4 - vol
    case (Some(p1), Some(p4), None) => p1 + p4
    case _ => 0.0
  }

  /** A token is risk-on exactly when both momenta are up and it is not too volatile, and risk-off exactly when
      both are known and it is too volatile or both are down. */
  lemma ClassifyMeans(v: TokenView, volMax: real)
    ensures Classify(v, volMax) == RiskOn <==> Rising(v, volMax)
    ensures Classify(v, volMax) == RiskOff <==>
            && v.pct1h.Some? && v.pct4h.Some?
            && ((v.vol.Some? && v.vol.value >= volMax) || (v.pct1h.value < 0.0 && v.pct4h.value < 0.0))
    ensures Rising(v, volMax) ==> Score(v) == Strength(v)
  {
  }

  /** The ranking holds exactly the risk-on views, best score first. */
  lemma RankedIsBestFirst(views: seq<TokenView>, volMax: real)
    ensures var r := Ranked(views, volMax);
            && (forall v :: v in r <==> v in views && Classify(v, volMax) == RiskOn)
            && BestFirst(r)
    ensures forall v | v in Ranked(views, volMax) :: v.vol.Some? ==> v.vol.value < volMax
  {
    RiskOnViewsContents(views, volMax);
    SortByScoreSorts(RiskOnViews(views, volMax));
  }

  // The rising views of one strength, in the order listed.
  function OfStrength(vs: seq<TokenView>, volMax: real, strength: real): seq<TokenView> {
    if vs == [] then []
    else
      var n := |vs| - 1;
      OfStrength(vs[..n], volMax, strength)
      + if Rising(vs[n], volMax) && Strength(vs[n]) == strength then [vs[n]] else []
  }

  lemma {:induction false} OfStrengthAppend(xs: seq<TokenView>, ys: seq<TokenView>, volMax: real, strength: real)
    ensures OfStrength(xs + ys, volMax, strength) == OfStrength(xs, volMax, strength) + OfStrength(ys, volMax, strength)
    decreases |ys|
  {
    hide Rising, Strength;
    if ys == [] {
      assert xs + ys == xs;
    } else {
      var n := |ys| - 1;
      assert (xs + ys)[..|xs| + n] == xs + ys[..n];
      OfStrengthAppend(xs, ys[..n], volMax, strength);
    }
  }

  lemma OneOfStrength(v: TokenView, volMax: real, strength: real)
    ensures OfStrength([v], volMax, strength) == if Rising(v, volMax) && Strength(v) == strength then [v] else []
  {
    hide Rising, Strength;
    assert [v][..0] == [];
  }

  lemma {:induction false} InsertKeepsOrder(v: TokenView, vs: seq<TokenView>, volMax: real, strength: real)
    requires Rising(v, volMax) && forall x | x in vs :: Rising(x, volMax)
    ensures OfStrength(InsertByScore(v, vs), volMax, strength) == OfStrength([v] + vs, volMax, strength)
  {
    hide Rising, Strength, Score, OfStrength;
    if vs != [] && Score(v) < Score(vs[0]) {
      var first, rest := [vs[0]], vs[1..];
      assert vs == first + rest;
      InsertKeepsOrder(v, rest, volMax, strength);
      OfStrengthAppend(first, InsertByScore(v, rest), volMax, strength);
      OfStrengthAppend([v], rest, volMax, strength);
      OfStrengthAppend([v], vs, volMax, strength);
      OfStrengthAppend(first, rest, volMax, strength);
      OneOfStrength(v, volMax, strength);
      OneOfStrength(vs[0], volMax, strength);
      ClassifyMeans(v, volMax);
      ClassifyMeans(vs[0], volMax);
    }
  }

  lemma {:induction false} SortKeepsOrder(vs: seq<TokenView>, volMax: real, strength: real)
    requires forall x | x in vs :: Rising(x, volMax)
    ensures OfStrength(SortByScore(vs), volMax, strength) == OfStrength(vs, volMax, strength)
  {
    hide Rising, Strength, Score, OfStrength;
    if vs != [] {
      var first, rest := [vs[0]], vs[1..];
      assert vs == first + rest;
      SortKeepsOrder(rest, volMax, strength);
      SortByScoreSorts(rest);
      InsertKeepsOrder(vs[0], SortByScore(rest), volMax, strength);
      OfStrengthAppend(first, rest, volMax, strength);
      OfStrengthAppend(first, SortByScore(rest), volMax, strength);
    }
  }

  lemma {:induction false} FilterKeepsOrder(views: seq<TokenView>, volMax: real, strength: real)
    ensures OfStrength(RiskOnViews(views, volMax), volMax, strength) == OfStrength(views, volMax, strength)
  {
    hide Rising, Strength, Classify;
    if views != [] {
      var n := |views| - 1;
      FilterKeepsOrder(views[..n], volMax, strength);
      ClassifyMeans(views[n], volMax);
      OneOfStrength(views[n], volMax, strength);
      OfStrengthAppend(RiskOnViews(views[..n], volMax), [views[n]], volMax, strength);
      assert RiskOnViews(views[..n], volMax) + [] == RiskOnViews(views[..n], volMax);
    }
  }

  /** The ranking is by the sum of the two momenta less the volatility, greatest first; tokens of the same sum
      stay in the order of the views. */
  lemma RankedByStrength(views: seq<TokenView>, volMax: real)
    ensures var r := Ranked(views, volMax);
            && (forall v :: v in r <==> v in views && Rising(v, volMax))
            && (forall i, j | 0 <= i < j < |r| :: Strength(r[i]) >= Strength(r[j]))
            && forall s: real :: OfStrength(r, volMax, s) == OfStrength(views, volMax, s)
  {
    RankedIsBestFirst(views, volMax);
    var r, on := Ranked(views, volMax), RiskOnViews(views, volMax);
    forall v ensures Classify(v, volMax) == RiskOn <==> Rising(v, volMax) { ClassifyMeans(v, volMax); }
    forall i | 0 <= i < |r| ensures Rising(r[i], volMax) && Score(r[i]) == Strength(r[i]) {
      assert r[i] in r;
      ClassifyMeans(r[i], volMax);
    }
    hide Score, Strength, Classify, Rising, OfStrength, SortByScore, RiskOnViews;
    RiskOnViewsContents(views, volMax);
    forall s: real ensures OfStrength(r, volMax, s) == OfStrength(views, volMax, s) {
      SortKeepsOrder(on, volMax, s);
      FilterKeepsOrder(views, volMax, s);
    }
  }

  /** Prices by symbol; of two views of a symbol the later one counts. */
  function PriceMap(views: seq<TokenView>): (price: map<Token, real>)
    ensures (forall v | v in views :: v.price > 0.0) ==> forall t | t in price :: price[t] > 0.0
  {
    if views == [] then map[]
    else
      var n := |views| - 1;
      assert views == views[..n] + [views[n]];
      PriceMap(views[..n])[views[n].symbol := views[n].price]
  }

  lemma {:induction false} PricedTokens(views: seq<TokenView>, t: Token)
    ensures t in PriceMap(views) <==> exists i | 0 <= i < |views| :: views[i].symbol == t
  {
    if views != [] {
      var n := |views| - 1;
      PricedTokens(views[..n], t);
      assert forall i | 0 <= i < n :: views[..n][i] == views[i];
    }
  }

  // The view at `i` is the last one of its token.
  predicate LastView(views: seq<TokenView>, i: nat)
    requires i < |views|
  {
    forall k | i < k < |views| :: views[k].symbol != views[i].symbol
  }

  lemma {:induction false} PriceOfLast(views: seq<TokenView>, i: nat)
    requires i < |views| && LastView(views, i)
    ensures views[i].symbol in PriceMap(views) && PriceMap(views)[views[i].symbol] == views[i].price
  {
    var n := |views| - 1;
    if i < n {
      assert views[n].symbol != views[i].symbol;
      PriceOfLast(views[..n], i);
    }
  }

  /** A token's price is that of the last view of it, and it has one exactly if some view is of it. */
  lemma PriceMapMeans(views: seq<TokenView>)
    ensures forall t :: t in PriceMap(views) <==> exists i | 0 <= i < |views| :: views[i].symbol == t
    ensures forall i | 0 <= i < |views| && LastView(views, i) ::
              views[i].symbol in PriceMap(views) && PriceMap(views)[views[i].symbol] == views[i].price
  {
    hide PriceMap, LastView;
    forall t ensures t in PriceMap(views) <==> exists i | 0 <= i < |views| :: views[i].symbol == t {
      PricedTokens(views, t);
    }
    forall i | 0 <= i < |views| && LastView(views, i)
      ensures views[i].symbol in PriceMap(views) && PriceMap(views)[views[i].symbol] == views[i].price
    {
      PriceOfLast(views, i);
    }
  }
}
