/** From dollars to a tick-aligned order (agent/ops/injective_market.py:67-82 and 150-159,
    agent/execution/injective_backend.py:120-148). Decimals are exact. */
module Sizing {
  import opened Wrappers
  import opened Engine
  import opened Arithmetic

  datatype Mode = Down | Up

  function Ceiling(x: real): int {
    -((-x).Floor)
  }

  // Python's `int(x)`.
  function Truncate(x: real): int {
    if x >= 0.0 then x.Floor else Ceiling(x)
  }

  function Times(k: int, tick: real): real {
    Product(k as real, tick)
  }

  function Ticks(v: real, tick: real, mode: Mode): int
    requires tick > 0.0
  {
    if mode == Up then Ceiling(v / tick) else (v / tick).Floor
  }

  function SnapToTick(v: real, tick: real, mode: Mode): real {
    if tick <= 0.0 then v else Times(Ticks(v, tick, mode), tick)
  }

  ghost predicate IsMultiple(v: real, tick: real) {
    exists k: int :: v == Times(k, tick)
  }

  lemma TicksOfMultiple(k: int, tick: real, mode: Mode)
    requires tick > 0.0
    ensures Ticks(Times(k, tick), tick, mode) == k
  {
    ProductQuotient(k as real, tick);
    assert (k as real).Floor == k && (-(k as real)).Floor == -k;
  }

  /** Snapping rounds to a whole multiple of the tick, by less than one tick and in the direction asked for. */
  lemma SnapRounds(v: real, tick: real, mode: Mode)
    requires tick > 0.0
    ensures var s := SnapToTick(v, tick, mode);
            && IsMultiple(s, tick)
            && (mode == Down ==> v - tick < s <= v)
            && (mode == Up ==> v <= s < v + tick)
  {
    var k, n := Ticks(v, tick, mode), v / tick;
    TicksNear(v, tick, mode);
    Quotient(v, tick);
    Scaled(tick, n, k as real);
    assert SnapToTick(v, tick, mode) == Times(k, tick);
  }

  lemma Scaled(unit: real, n: real, a: real)
    requires unit > 0.0
    ensures n - 1.0 < a <= n ==> Product(n, unit) - unit < Product(a, unit) <= Product(n, unit)
    ensures n <= a < n + 1.0 ==> Product(n, unit) <= Product(a, unit) < Product(n, unit) + unit
  {
    hide Product;
    Gap(n - a, unit);
    Gap(a - n, unit);
    Gap(a - n + 1.0, unit);
    Gap(n - a + 1.0, unit);
    Expand(n, a, unit);
    Expand(a, n, unit);
  }

  lemma TicksNear(v: real, tick: real, mode: Mode)
    requires tick > 0.0
    ensures var n, k := v / tick, Ticks(v, tick, mode) as real;
            if mode == Down then n - 1.0 < k <= n else n <= k < n + 1.0
  {
  }

  /** Whole multiples, and nothing else, are left alone; so snapping twice is snapping once. */
  lemma SnapFixesMultiples(v: real, tick: real, mode: Mode)
    requires tick > 0.0
    ensures SnapToTick(v, tick, mode) == v <==> IsMultiple(v, tick)
    ensures SnapToTick(SnapToTick(v, tick, mode), tick, mode) == SnapToTick(v, tick, mode)
  {
    hide Ticks, Times;
    if IsMultiple(v, tick) {
      var j: int :| v == Times(j, tick);
      TicksOfMultiple(j, tick, mode);
    }
    TicksOfMultiple(Ticks(v, tick, mode), tick, mode);
  }

  const UFIXED: real := 1000000000000000000.0

  function ToUfixed(v: real): int {
    Truncate(v * UFIXED)
  }

  function FromUfixed(raw: int): real {
    raw as real / UFIXED
  }

  predicate Whole(x: real) {
    x.Floor as real == x
  }

  /** The fixed-point form loses less than 1e-18, always towards zero, and nothing exactly when the value
      is a whole multiple of 1e-18; every raw amount survives the round trip, and one is ten to the eighteenth. */
  lemma UfixedRoundTrip(v: real, raw: int)
    ensures v >= 0.0 ==> v - 0.000000000000000001 < FromUfixed(ToUfixed(v)) <= v
    ensures v <= 0.0 ==> v <= FromUfixed(ToUfixed(v)) < v + 0.000000000000000001
    ensures FromUfixed(ToUfixed(v)) == v <==> Whole(v * 1000000000000000000.0)
    ensures ToUfixed(FromUfixed(raw)) == raw && ToUfixed(1.0) == 1000000000000000000
  {
    assert Whole(v * UFIXED) ==> ToUfixed(v) as real == v * UFIXED;
    assert FromUfixed(raw) * UFIXED == raw as real;
  }

  function Power10(n: nat): (p: int)
    ensures p > 0
  {
    if n == 0 then 1 else 10 * Power10(n - 1)
  }

  function ToChainAmount(human: real, decimals: nat): int {
    Truncate(human * Power10(decimals) as real)
  }

  function FromChainAmount(raw: int, decimals: nat): real {
    raw as real / Power10(decimals) as real
  }

  /** A chain balance read into human units converts back to the same integer, for any token decimals; and each
      decimal makes a unit ten times as many. */
  lemma ChainAmountRoundTrip(raw: int, decimals: nat)
    ensures ToChainAmount(FromChainAmount(raw, decimals), decimals) == raw
    ensures FromChainAmount(raw, 0) == raw as real
    ensures FromChainAmount(raw, decimals + 1) * 10.0 == FromChainAmount(raw, decimals)
  {
    var p := Power10(decimals) as real;
    assert raw as real / p * p == raw as real;
    TenTimes(raw as real, p);
    assert Power10(decimals + 1) as real == 10.0 * p;
    hide Power10;
  }

  lemma TenTimes(x: real, p: real)
    requires p > 0.0
    ensures x / (10.0 * p) * 10.0 == x / p
  {
    assert x / (10.0 * p) * (10.0 * p) == x;
    assert x / p * p == x;
  }

  datatype Order = Order(
    ref: real, worst: real, quantity: real, priceUfixed: int, quantityUfixed: int, notional: real)

  lemma QuantityWorth(usd: real, ref: real, quantity: real, tick: real)
    requires ref > 0.0 && usd / ref - tick < quantity <= usd / ref
    ensures usd - Product(tick, ref) < Product(quantity, ref) <= usd
  {
    var exact := usd / ref;
    Quotient(usd, ref);
    hide Product;
    Gap(exact - quantity, ref);
    Gap(quantity - (exact - tick), ref);
    Expand(exact, quantity, ref);
    Expand(exact, tick, ref);
    Expand(quantity, exact - tick, ref);
  }

  // The price that the slippage tolerance allows.
  function SlippageBound(side: Side, ref: real, slippageBps: int): real {
    var slip := slippageBps as real / 10000.0;
    if side == Buy then ref * (1.0 + slip) else ref * (1.0 - slip)
  }

  /** The tolerance is in hundredths of a percent of the reference price, above it for a buy and below it for a sell. */
  lemma SlippageBoundMeans(side: Side, ref: real, slippageBps: int)
    ensures 10000.0 * SlippageBound(side, ref, slippageBps)
         == Product(ref, if side == Buy then 10000.0 + slippageBps as real else 10000.0 - slippageBps as real)
    ensures SlippageBound(Buy, 100.0, 50) == 100.5 && SlippageBound(Sell, 100.0, 50) == 99.5
  {
  }

  /** Sizes an order of `usd` dollars. With the ticks known the quantity is a whole number of ticks worth
      at most `usd` and less than one tick short of it, and the worst acceptable price is a whole number
      of ticks less than one tick beyond the slippage bound, on the side that keeps the order
      marketable. Where a tick is not known, or not positive, the exact value goes out. */
  method Size(side: Side, ref: real, usd: real, slippageBps: int, ticks: Option<(real, real)>) returns (o: Order)
    requires ref > 0.0 && side != Stay
    ensures o.ref == ref && o.notional == Product(o.quantity, ref)
    ensures o.priceUfixed == ToUfixed(o.worst) && o.quantityUfixed == ToUfixed(o.quantity)
    ensures var bound := SlippageBound(side, ref, slippageBps);
            if ticks.Some? && ticks.value.0 > 0.0 then
              && IsMultiple(o.worst, ticks.value.0)
              && if side == Buy then bound <= o.worst < bound + ticks.value.0
                 else bound - ticks.value.0 < o.worst <= bound
            else o.worst == bound
    ensures if ticks.Some? && ticks.value.1 > 0.0 then
              && IsMultiple(o.quantity, ticks.value.1)
              && usd - Product(ticks.value.1, ref) < Product(o.quantity, ref) <= usd
            else Product(o.quantity, ref) == usd
  {
    var quantity := usd / ref;
    assert Product(quantity, ref) == usd;
    var slip := slippageBps as real / 10000.0;
    var worst := if side == Buy then ref * (1.0 + slip) else ref * (1.0 - slip);
    assert worst == SlippageBound(side, ref, slippageBps);
    hide ToUfixed, Product, SlippageBound, Ticks;
    if ticks.Some? {
      var (priceTick, quantityTick) := ticks.value;
      ghost var exact, bound := quantity, worst;
      worst := SnapToTick(worst, priceTick, if side == Buy then Up else Down);
      quantity := SnapToTick(quantity, quantityTick, Down);
      if priceTick > 0.0 { SnapRounds(bound, priceTick, if side == Buy then Up else Down); }
      if quantityTick > 0.0 {
        SnapRounds(exact, quantityTick, Down);
        QuantityWorth(usd, ref, quantity, quantityTick);
      }
    }
    o := Order(ref, worst, quantity, ToUfixed(worst), ToUfixed(quantity), Product(quantity, ref));
  }
}
