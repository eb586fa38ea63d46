/** Drawdown scans over a NAV curve (backtest/metrics.py:43-54 and 81-86, backtest/run.py:240-265). */
module Metrics {
  import opened Wrappers
  import opened Rounding
  import opened Arithmetic

  /** The drop from a peak, in percent. */
  function DropPct(peak: real, n: real): real
    requires peak != 0.0
  {
    (peak - n) / peak * 100.0
  }

  // A scan's peak before its first value: `None` stands for minus infinity.
  type Peak = Option<real>

  function Raised(peak: Peak, n: real): real {
    if peak.Some? && n <= peak.value then peak.value else n
  }

  function PeakAfter(peak: Peak, navs: seq<real>): Peak {
    if navs == [] then peak else Some(Raised(PeakAfter(peak, navs[..|navs| - 1]), navs[|navs| - 1]))
  }

  // The drawdown at value `n` of a curve with this running peak; none while the peak is not positive.
  function DropAt(peak: Peak, n: real): real {
    var high := Raised(peak, n);
    if high > 0.0 then DropPct(high, n) else 0.0
  }

  function Max(x: real, y: real): real {
    if y > x then y else x
  }

  function WorstDrop(peak: Peak, navs: seq<real>): real {
    if navs == [] then 0.0
    else
      var n := |navs| - 1;
      Max(WorstDrop(peak, navs[..n]), DropAt(PeakAfter(peak, navs[..n]), navs[n]))
  }

  predicate NonNegative(navs: seq<real>) {
    forall i | 0 <= i < |navs| :: navs[i] >= 0.0
  }

  // ---------------------------------------------------------------- the one-pass scan

  lemma DropAsRatio(peak: real, n: real)
    requires peak > 0.0
    ensures DropPct(peak, n) == (1.0 - n / peak) * 100.0
  {
    ProductQuotient(1.0 - n / peak, peak);
    Quotient(n, peak);
    Expand(1.0, n / peak, peak);
    assert Product(1.0 - n / peak, peak) == peak - n;
  }

  lemma DropMonotone(low: real, high: real, n: real)
    requires 0.0 < low <= high && n >= 0.0
    ensures DropPct(low, n) <= DropPct(high, n)
  {
    hide DropPct;
    DropAsRatio(low, n);
    DropAsRatio(high, n);
    RatioAntitone(low, high, n);
  }

  /** A drop reaches `pct` percent exactly if what is left is at most the other part of the peak. */
  lemma DropReaches(peak: real, n: real, pct: real)
    requires peak > 0.0
    ensures DropPct(peak, n) >= pct <==> 100.0 * n <= (100.0 - pct) * peak
  {
    DropAsRatio(peak, n);
    Quotient(n, peak);
    Gap(100.0 - pct - 100.0 * (n / peak), peak);
    Gap(100.0 * (n / peak) - (100.0 - pct), peak);
    Spread(100.0 - pct, 100.0 * (n / peak), peak);
    Spread(100.0 * (n / peak), 100.0 - pct, peak);
    assert Product(100.0 * (n / peak), peak) == 100.0 * Product(n / peak, peak);
    hide DropPct;
  }

  lemma RatioAntitone(low: real, high: real, n: real)
    requires 0.0 < low <= high && n >= 0.0
    ensures n / low >= n / high
  {
    Quotient(n, low);
    Quotient(n, high);
    Gap(n / high - n / low, low);
    Expand(n / high, n / low, low);
    assert n / high * (high - low) >= 0.0;
  }

  lemma {:induction false} PeakIsMax(navs: seq<real>)
    requires navs != []
    ensures var p := PeakAfter(None, navs);
            && p.Some? && (forall i | 0 <= i < |navs| :: navs[i] <= p.value)
            && exists i | 0 <= i < |navs| :: navs[i] == p.value
  {
    var n := |navs| - 1;
    assert navs[n] == navs[|navs| - 1];
    if n > 0 {
      var before := navs[..n];
      PeakIsMax(before);
      var i :| 0 <= i < |before| && before[i] == PeakAfter(None, before).value;
      assert navs[i] == before[i];
      assert forall k | 0 <= k < n :: navs[k] == before[k];
    }
  }

  /** The one-pass scan computes the greatest drop between any value and a later one: it bounds every
      such drop, and some pair attains it. */
  lemma WorstDropIsMaximum(navs: seq<real>)
    requires NonNegative(navs)
    ensures forall i, j | 0 <= i <= j < |navs| && navs[i] > 0.0 :: DropPct(navs[i], navs[j]) <= WorstDrop(None, navs)
    ensures WorstDrop(None, navs) == 0.0
         || exists i, j | 0 <= i <= j < |navs| :: navs[i] > 0.0 && DropPct(navs[i], navs[j]) == WorstDrop(None, navs)
  {
    hide DropPct, WorstDrop;
    assert [] + navs == navs;
    NothingScanned(None);
    CarriedDropIsMaximum([], navs);
  }

  /** `worst` is the greatest drop to one of the values from `lo` up to `hi`, out of any value from `first` on. */
  ghost predicate GreatestDrop(navs: seq<real>, first: nat, lo: nat, hi: nat, worst: real)
    requires hi <= |navs|
  {
    && (forall i, j | first <= i <= j < hi && lo <= j && navs[i] > 0.0 :: DropPct(navs[i], navs[j]) <= worst)
    && (worst == 0.0 || exists i, j | first <= i <= j < hi && lo <= j ::
          navs[i] > 0.0 && DropPct(navs[i], navs[j]) == worst)
  }

  /** A scan that starts with the peak of an earlier stretch computes the greatest drop to a value of its own
      from any value before it, the earlier stretch included. */
  lemma {:induction false} CarriedDropIsMaximum(before: seq<real>, navs: seq<real>)
    requires NonNegative(before + navs)
    ensures GreatestDrop(before + navs, 0, |before|, |before + navs|, WorstDrop(PeakAfter(None, before), navs))
    decreases |navs|
  {
    hide DropPct;
    if navs != [] {
      var n := |navs| - 1;
      var all, fewer := before + navs, before + navs[..n];
      assert all == fewer + [navs[n]] && forall k | 0 <= k < |fewer| :: all[k] == fewer[k];
      CarriedDropIsMaximum(before, navs[..n]);
      ScanSplits(None, before, navs[..n]);
      GreatestDropGrows(fewer, navs[n], |before|, WorstDrop(PeakAfter(None, before), navs[..n]));
    }
  }

  lemma GreatestDropGrows(navs: seq<real>, n: real, lo: nat, worst: real)
    requires NonNegative(navs + [n]) && lo <= |navs| && GreatestDrop(navs, 0, lo, |navs|, worst)
    ensures GreatestDrop(navs + [n], 0, lo, |navs| + 1, Max(worst, DropAt(PeakAfter(None, navs), n)))
  {
    hide DropPct, PeakAfter;
    var all, last := navs + [n], DropAt(PeakAfter(None, navs), n);
    forall i, j | 0 <= i <= j < |all| && lo <= j && all[i] > 0.0
      ensures DropPct(all[i], all[j]) <= Max(worst, last)
    {
      if j == |navs| { LastDropBounds(navs, n, i); }
    }
    if last > worst && last != 0.0 {
      var i := LastDropAttained(navs, n);
      assert DropPct(all[i], all[|navs|]) == last;
    } else if worst != 0.0 {
      var i, j :| 0 <= i <= j < |navs| && lo <= j && navs[i] > 0.0 && DropPct(navs[i], navs[j]) == worst;
      assert all[i] > 0.0 && DropPct(all[i], all[j]) == worst;
    }
  }

  lemma LastPeak(navs: seq<real>, n: real)
    ensures PeakAfter(None, navs + [n]) == Some(Raised(PeakAfter(None, navs), n))
  {
    assert (navs + [n])[..|navs|] == navs;
  }

  lemma LastDropBounds(navs: seq<real>, n: real, i: nat)
    requires NonNegative(navs + [n]) && i <= |navs| && (navs + [n])[i] > 0.0
    ensures DropPct((navs + [n])[i], n) <= DropAt(PeakAfter(None, navs), n)
  {
    var all := navs + [n];
    PeakIsMax(all);
    LastPeak(navs, n);
    assert n == all[|navs|];
    DropMonotone(all[i], PeakAfter(None, all).value, n);
    hide DropPct, PeakAfter;
  }

  lemma LastDropAttained(navs: seq<real>, n: real) returns (i: nat)
    requires DropAt(PeakAfter(None, navs), n) != 0.0
    ensures i <= |navs| && (navs + [n])[i] > 0.0
    ensures DropPct((navs + [n])[i], n) == DropAt(PeakAfter(None, navs), n)
  {
    var all := navs + [n];
    PeakIsMax(all);
    LastPeak(navs, n);
    hide DropPct, PeakAfter;
    i :| 0 <= i < |all| && all[i] == PeakAfter(None, all).value;
  }

  lemma GreatestDropShifts(navs: seq<real>, first: nat, lo: nat, hi: nat, worst: real)
    requires first <= lo <= hi <= |navs| && GreatestDrop(navs[first..hi], 0, lo - first, hi - first, worst)
    ensures GreatestDrop(navs, first, lo, hi, worst)
  {
    hide DropPct;
    var part := navs[first..hi];
    forall i, j | first <= i <= j < hi && lo <= j && navs[i] > 0.0 ensures DropPct(navs[i], navs[j]) <= worst {
      assert part[i - first] == navs[i] && part[j - first] == navs[j];
    }
    if worst != 0.0 {
      var i, j :| 0 <= i <= j < hi - first && lo - first <= j && part[i] > 0.0 && DropPct(part[i], part[j]) == worst;
      assert part[i] == navs[first + i] && part[j] == navs[first + j];
    }
  }

  method MaxDrawdownPct(navs: seq<real>) returns (maxDd: real)
    requires NonNegative(navs)
    ensures maxDd == WorstDrop(None, navs)
    ensures forall i, j | 0 <= i <= j < |navs| && navs[i] > 0.0 :: DropPct(navs[i], navs[j]) <= maxDd
    ensures maxDd == 0.0 || exists i, j | 0 <= i <= j < |navs| :: navs[i] > 0.0 && DropPct(navs[i], navs[j]) == maxDd
  {
    var hwm: Peak := None;
    maxDd := 0.0;
    var i := 0;
    while i < |navs|
      invariant 0 <= i <= |navs|
      invariant hwm == PeakAfter(None, navs[..i])
      invariant maxDd == WorstDrop(None, navs[..i])
    {
      var n := navs[i];
      assert navs[..i + 1][..i] == navs[..i];
      if hwm.None? || n > hwm.value {
        hwm := Some(n);
      }
      if hwm.value > 0.0 {
        var dd := (hwm.value - n) / hwm.value * 100.0;
        if dd > maxDd {
          maxDd := dd;
        }
      }
      i := i + 1;
    }
    assert navs[..i] == navs;
    WorstDropIsMaximum(navs);
  }

  // ---------------------------------------------------------------- windows with a carried peak

  lemma NothingScanned(peak: Peak)
    ensures PeakAfter(peak, []) == peak && WorstDrop(peak, []) == 0.0
  {
  }

  lemma ScanStep(peak: Peak, navs: seq<real>, i: nat)
    requires i < |navs|
    ensures PeakAfter(peak, navs[..i + 1]) == Some(Raised(PeakAfter(peak, navs[..i]), navs[i]))
    ensures WorstDrop(peak, navs[..i + 1])
         == Max(WorstDrop(peak, navs[..i]), DropAt(PeakAfter(peak, navs[..i]), navs[i]))
  {
    assert navs[..i + 1][..i] == navs[..i];
  }

  /** A carried peak makes a scan splittable anywhere. */
  lemma {:induction false} ScanSplits(peak: Peak, xs: seq<real>, ys: seq<real>)
    ensures PeakAfter(peak, xs + ys) == PeakAfter(PeakAfter(peak, xs), ys)
    ensures WorstDrop(peak, xs + ys) == Max(WorstDrop(peak, xs), WorstDrop(PeakAfter(peak, xs), ys))
    decreases |ys|
  {
    if ys == [] {
      assert xs + ys == xs;
      WorstDropNonNegative(peak, xs);
    } else {
      var n := |ys| - 1;
      ScanSplits(peak, xs, ys[..n]);
      assert (xs + ys)[..|xs + ys| - 1] == xs + ys[..n];
    }
  }

  lemma {:induction false} WorstDropNonNegative(peak: Peak, xs: seq<real>)
    ensures WorstDrop(peak, xs) >= 0.0
  {
    if xs != [] { WorstDropNonNegative(peak, xs[..|xs| - 1]); }
  }

  // The scan starts from a peak below every value.
  const LOWEST: real := -1000000000000000000.0

  lemma {:induction false} LowestIsNoPeak(navs: seq<real>)
    requires NonNegative(navs)
    ensures navs != [] ==> PeakAfter(Some(LOWEST), navs) == PeakAfter(None, navs)
    ensures WorstDrop(Some(LOWEST), navs) == WorstDrop(None, navs)
  {
    if navs != [] { LowestIsNoPeak(navs[..|navs| - 1]); }
  }

  function Clip(x: nat, n: nat): nat {
    if x < n then x else n
  }

  predicate Contiguous(bounds: seq<nat>) {
    |bounds| > 0 && forall i | 0 <= i < |bounds| - 1 :: bounds[i] <= bounds[i + 1]
  }

  // The part of the curve in window `i`.
  function Window(navs: seq<real>, bounds: seq<nat>, i: nat): seq<real>
    requires Contiguous(bounds) && i + 1 < |bounds|
  {
    navs[Clip(bounds[i], |navs|)..Clip(bounds[i + 1], |navs|)]
  }

  // The curve from the first bound up to bound `i`.
  function UpTo(navs: seq<real>, bounds: seq<nat>, i: nat): seq<real>
    requires Contiguous(bounds) && i < |bounds|
  {
    var hi := Clip(bounds[i], |navs|);
    navs[Clip(bounds[0], hi)..hi]
  }

  function WindowDrop(navs: seq<real>, bounds: seq<nat>, i: nat): real
    requires Contiguous(bounds) && i + 1 < |bounds|
  {
    WorstDrop(PeakAfter(Some(LOWEST), UpTo(navs, bounds, i)), Window(navs, bounds, i))
  }

  lemma {:induction false} BoundsOrdered(bounds: seq<nat>, i: nat)
    requires Contiguous(bounds) && i < |bounds|
    ensures bounds[0] <= bounds[i]
  {
    if i > 0 { BoundsOrdered(bounds, i - 1); }
  }

  lemma UpToNext(navs: seq<real>, bounds: seq<nat>, i: nat)
    requires Contiguous(bounds) && i + 1 < |bounds|
    ensures UpTo(navs, bounds, i + 1) == UpTo(navs, bounds, i) + Window(navs, bounds, i)
  {
    BoundsOrdered(bounds, i);
  }

  /** Worst drop in each window, the peak being carried over from window to window. */
  method PerRegimeDrawdown(navs: seq<real>, bounds: seq<nat>) returns (out: seq<real>)
    requires Contiguous(bounds)
    ensures |out| == |bounds| - 1
    ensures forall i | 0 <= i < |out| :: out[i] == FourPlaces(WindowDrop(navs, bounds, i))
  {
    hide WorstDrop, PeakAfter, FourPlaces;
    out := [];
    var globalHwm := LOWEST;
    var i := 0;
    assert UpTo(navs, bounds, 0) == [];
    NothingScanned(Some(LOWEST));
    while i < |bounds| - 1
      invariant 0 <= i <= |bounds| - 1
      invariant |out| == i && forall k | 0 <= k < i :: out[k] == FourPlaces(WindowDrop(navs, bounds, k))
      invariant Some(globalHwm) == PeakAfter(Some(LOWEST), UpTo(navs, bounds, i))
    {
      var lo, hi := bounds[i], Clip(bounds[i + 1], |navs|);
      var mdd := 0.0;
      var h := lo;
      ghost var w, p := Window(navs, bounds, i), Some(globalHwm);
      NothingScanned(p);
      while h < hi
        invariant lo <= h && (lo < hi ==> h <= hi && |w| == hi - lo)
        invariant lo < hi ==> Some(globalHwm) == PeakAfter(p, w[..h - lo]) && mdd == WorstDrop(p, w[..h - lo])
        invariant lo >= hi ==> h == lo && mdd == 0.0 && Some(globalHwm) == p
      {
        var n := navs[h];
        assert w[h - lo] == n;
        ScanStep(p, w, h - lo);
        if n > globalHwm {
          globalHwm := n;
        }
        if globalHwm > 0.0 {
          var dd := (globalHwm - n) / globalHwm * 100.0;
          if dd > mdd {
            mdd := dd;
          }
        }
        h := h + 1;
      }
      if lo < hi {
        assert w[..h - lo] == w;
      } else {
        assert w == [];
      }
      UpToNext(navs, bounds, i);
      ScanSplits(Some(LOWEST), UpTo(navs, bounds, i), w);
      out := out + [FourPlaces(mdd)];
      i := i + 1;
    }
  }

  /** What a window is given is the greatest drop to one of its values from any value since the first bound. */
  lemma WindowDropMeans(navs: seq<real>, bounds: seq<nat>, i: nat)
    requires NonNegative(navs) && Contiguous(bounds) && i + 1 < |bounds|
    ensures GreatestDrop(navs, bounds[0], bounds[i], Clip(bounds[i + 1], |navs|), WindowDrop(navs, bounds, i))
  {
    hide DropPct, WorstDrop, PeakAfter, GreatestDrop;
    var before, w := UpTo(navs, bounds, i), Window(navs, bounds, i);
    BoundsOrdered(bounds, i);
    NothingScanned(PeakAfter(Some(LOWEST), before));
    if w != [] {
      var first, hi := bounds[0], Clip(bounds[i + 1], |navs|);
      assert before + w == navs[first..hi];
      CarriedDropIsMaximum(before, w);
      AnyStart(before, w);
      GreatestDropShifts(navs, first, bounds[i], hi, WindowDrop(navs, bounds, i));
    } else {
      NothingInRange(navs, bounds[0], bounds[i], Clip(bounds[i + 1], |navs|));
    }
  }

  lemma AnyStart(before: seq<real>, w: seq<real>)
    requires NonNegative(before + w)
    ensures WorstDrop(PeakAfter(Some(LOWEST), before), w) == WorstDrop(PeakAfter(None, before), w)
  {
    hide WorstDrop, PeakAfter;
    assert NonNegative(before) by {
      assert forall k | 0 <= k < |before| :: before[k] == (before + w)[k];
    }
    NothingScanned(None);
    NothingScanned(Some(LOWEST));
    LowestIsNoPeak(before);
    if before == [] {
      assert before + w == w;
      LowestIsNoPeak(w);
    }
  }

  lemma NothingInRange(navs: seq<real>, first: nat, lo: nat, hi: nat)
    requires hi <= lo && hi <= |navs|
    ensures GreatestDrop(navs, first, lo, hi, 0.0)
  {
  }

  function MaxOf(xs: seq<real>): real {
    if xs == [] then 0.0 else Max(MaxOf(xs[..|xs| - 1]), xs[|xs| - 1])
  }

  lemma {:induction false} WindowsCoverPrefix(navs: seq<real>, bounds: seq<nat>, out: seq<real>, k: nat)
    requires Contiguous(bounds) && k < |bounds| && |out| == |bounds| - 1
    requires forall i | 0 <= i < |out| :: out[i] == FourPlaces(WindowDrop(navs, bounds, i))
    ensures MaxOf(out[..k]) == FourPlaces(WorstDrop(Some(LOWEST), UpTo(navs, bounds, k)))
  {
    if k > 0 {
      WindowsCoverPrefix(navs, bounds, out, k - 1);
      UpToNext(navs, bounds, k - 1);
      ScanSplits(Some(LOWEST), UpTo(navs, bounds, k - 1), Window(navs, bounds, k - 1));
      assert out[..k][..k - 1] == out[..k - 1];
      var x, y := WorstDrop(Some(LOWEST), UpTo(navs, bounds, k - 1)), WindowDrop(navs, bounds, k - 1);
      if x <= y { FourPlacesMonotone(x, y); } else { FourPlacesMonotone(y, x); }
    } else {
      assert UpTo(navs, bounds, 0) == [];
      assert out[..0] == [];
      assert FourPlaces(0.0) == 0.0;
    }
  }

  /** Windows that cover the curve have, rounding included, the same overall worst drawdown as the curve:
      no drop is lost at a window boundary. */
  lemma RegimesKeepMaximum(navs: seq<real>, bounds: seq<nat>, out: seq<real>)
    requires NonNegative(navs) && Contiguous(bounds) && bounds[0] == 0 && bounds[|bounds| - 1] >= |navs|
    requires |out| == |bounds| - 1
    requires forall i | 0 <= i < |out| :: out[i] == FourPlaces(WindowDrop(navs, bounds, i))
    ensures MaxOf(out) == FourPlaces(WorstDrop(None, navs))
  {
    WindowsCoverPrefix(navs, bounds, out, |out|);
    assert out[..|out|] == out && UpTo(navs, bounds, |bounds| - 1) == navs;
    LowestIsNoPeak(navs);
  }

  // ---------------------------------------------------------------- breaches

  method FirstBreachHour(drawdowns: seq<real>, gatePct: real) returns (hour: Option<nat>)
    ensures hour.None? <==> forall h | 0 <= h < |drawdowns| :: drawdowns[h] < gatePct
    ensures hour.Some? ==> hour.value < |drawdowns| && drawdowns[hour.value] >= gatePct
    ensures hour.Some? ==> forall h | 0 <= h < hour.value :: drawdowns[h] < gatePct
  {
    var h := 0;
    while h < |drawdowns|
      invariant 0 <= h <= |drawdowns|
      invariant forall k | 0 <= k < h :: drawdowns[k] < gatePct
    {
      if drawdowns[h] >= gatePct {
        return Some(h);
      }
      h := h + 1;
    }
    return None;
  }
}
