/** The relative strength index with Wilder's smoothing. */
module Rsi {
  import opened Basics

  const EPSILON := 0.0000000001

  // ---- The specification ---------------------------------------------------------------------

  function Deltas(close: seq<real>): (d: seq<real>)
    ensures |d| == if close == [] then 0 else |close| - 1
  {
    if close == [] then [] else seq(|close| - 1, i requires 0 <= i < |close| - 1 => close[i + 1] - close[i])
  }

  function Clip(x: real): real { if x < 0.0 then 0.0 else x }

  function Gains(d: seq<real>): (g: seq<real>)
    ensures |g| == |d|
  {
    seq(|d|, i requires 0 <= i < |d| => Clip(d[i]))
  }

  function Losses(d: seq<real>): (l: seq<real>)
    ensures |l| == |d|
  {
    seq(|d|, i requires 0 <= i < |d| => Clip(-d[i]))
  }

  function Mean(total: real, n: nat): real
    requires n > 0
  {
    total / n as real
  }

  /** One bar of Wilder's recurrence. */
  function Smooth(average: real, x: real, period: nat): real
    requires period > 0
  {
    (average * (period - 1) as real + x) / period as real
  }

  /** The plain mean of the first `period` values, then Wilder's recurrence over the rest. */
  function Wilder(s: seq<real>, period: nat): real
    requires 0 < period <= |s|
  {
    if |s| == period then Mean(Sum(s), period)
    else Smooth(Wilder(s[..|s| - 1], period), s[|s| - 1], period)
  }

  function IndexOf(rs: real): real
    requires rs >= 0.0
  {
    100.0 - 100.0 / (1.0 + rs)
  }

  function Index(gain: real, loss: real): real
    requires gain >= 0.0 && loss >= 0.0
  {
    if loss < EPSILON then 100.0 else IndexOf(gain / loss)
  }

  /** The index of a price series: 50 while there are too few closes. */
  function RsiOf(close: seq<real>, period: nat): real
    requires period > 0
  {
    if |close| < period + 1 then 50.0
    else
      AveragesNonNegative(Deltas(close), period);
      Index(Wilder(Gains(Deltas(close)), period), Wilder(Losses(Deltas(close)), period))
  }

  // ---- The computation -----------------------------------------------------------------------

  /** The smoothing loop, over gains and losses together. */
  method SmoothedAverages(gains: seq<real>, losses: seq<real>, period: nat) returns (avgGain: real, avgLoss: real)
    requires 0 < period <= |gains| == |losses|
    ensures avgGain == Wilder(gains, period) && avgLoss == Wilder(losses, period)
  {
    avgGain := Mean(Sum(gains[..period]), period);
    avgLoss := Mean(Sum(losses[..period]), period);
    for i := period to |gains|
      invariant avgGain == Wilder(gains[..i], period)
      invariant avgLoss == Wilder(losses[..i], period)
    {
      WilderStep(gains, i, period);
      WilderStep(losses, i, period);
      avgGain := Smooth(avgGain, gains[i], period);
      avgLoss := Smooth(avgLoss, losses[i], period);
    }
    assert gains[..|gains|] == gains && losses[..|gains|] == losses;
  }

  /** The index of the series, which lies in [0, 100] for every series. */
  method ComputeRsi(close: seq<real>, period: nat) returns (rsi: real)
    requires period > 0
    ensures rsi == RsiOf(close, period)
    ensures 0.0 <= rsi <= 100.0
    ensures |close| <= period ==> rsi == 50.0
    ensures |close| > period ==> ReadsShare(rsi, Weighted(Rises(close), period), Weighted(Falls(close), period))
  {
    RsiInRange(close, period);
    if |close| > period { RsiReadsShare(close, period); }
    if |close| < period + 1 {
      return 50.0;
    }
    var delta := Deltas(close);
    var avgGain, avgLoss := SmoothedAverages(Gains(delta), Losses(delta), period);
    AveragesNonNegative(delta, period);
    if avgLoss < EPSILON {
      return 100.0;
    }
    var rs := avgGain / avgLoss;
    return IndexOf(rs);
  }

  lemma WilderStep(s: seq<real>, i: nat, period: nat)
    requires 0 < period <= i < |s|
    ensures Wilder(s[..i + 1], period) == Smooth(Wilder(s[..i], period), s[i], period)
  {
    assert s[..i + 1][..i] == s[..i];
  }

  lemma RsiInRange(close: seq<real>, period: nat)
    requires period > 0
    ensures 0.0 <= RsiOf(close, period) <= 100.0
  {
    if |close| >= period + 1 {
      AveragesNonNegative(Deltas(close), period);
      IndexInRange(Wilder(Gains(Deltas(close)), period), Wilder(Losses(Deltas(close)), period));
    }
  }

  lemma AveragesNonNegative(d: seq<real>, period: nat)
    requires 0 < period <= |d|
    ensures Wilder(Gains(d), period) >= 0.0 && Wilder(Losses(d), period) >= 0.0
  {
    WilderWithin(Gains(d), period, 0.0, true);
    WilderWithin(Losses(d), period, 0.0, true);
  }

  // ---- The averages --------------------------------------------------------------------------

  lemma {:induction false} SumWithin(s: seq<real>, bound: real, below: bool)
    requires forall i :: 0 <= i < |s| ==> if below then bound <= s[i] else s[i] <= bound
    ensures if below then bound * |s| as real <= Sum(s) else Sum(s) <= bound * |s| as real
  {
    if s != [] {
      SumWithin(s[..|s| - 1], bound, below);
    }
  }

  /** A smoothed average never leaves the range of the values it has seen: any bound on all of them,
      from below or from above, bounds the average. */
  lemma {:induction false} WilderWithin(s: seq<real>, period: nat, bound: real, below: bool)
    requires 0 < period <= |s|
    requires forall i :: 0 <= i < |s| ==> if below then bound <= s[i] else s[i] <= bound
    ensures if below then bound <= Wilder(s, period) else Wilder(s, period) <= bound
  {
    if |s| == period {
      SumWithin(s, bound, below);
      DivideBound(Sum(s), period, bound);
    } else {
      WilderWithin(s[..|s| - 1], period, bound, below);
      SmoothWithin(Wilder(s[..|s| - 1], period), s[|s| - 1], period, bound);
    }
  }

  lemma SmoothWithin(average: real, x: real, period: nat, bound: real)
    requires period > 0
    ensures bound <= average && bound <= x ==> bound <= Smooth(average, x, period)
    ensures average <= bound && x <= bound ==> Smooth(average, x, period) <= bound
  {
    ScaleBound(average, period - 1, bound);
    assert bound * (period - 1) as real + bound == bound * period as real;
    DivideBound(average * (period - 1) as real + x, period, bound);
  }

  lemma ScaleBound(x: real, n: nat, bound: real)
    ensures bound <= x ==> bound * n as real <= x * n as real
    ensures x <= bound ==> x * n as real <= bound * n as real
  {
  }

  lemma DivideBound(x: real, n: nat, bound: real)
    requires n > 0
    ensures bound * n as real <= x ==> bound <= Mean(x, n)
    ensures x <= bound * n as real ==> Mean(x, n) <= bound
  {
    var q := Mean(x, n);
    assert q * n as real == x;
    ScaleBound(q, n, bound);
  }

  lemma {:induction false} SumLinear(a: seq<real>, b: seq<real>, d: seq<real>)
    requires |a| == |b| == |d| && forall i :: 0 <= i < |d| ==> a[i] - b[i] == d[i]
    ensures Sum(a) - Sum(b) == Sum(d)
  {
    if d != [] {
      SumLinear(a[..|a| - 1], b[..|b| - 1], d[..|d| - 1]);
    }
  }

  lemma {:induction false} WilderLinear(a: seq<real>, b: seq<real>, d: seq<real>, period: nat)
    requires |a| == |b| == |d| && (forall i :: 0 <= i < |d| ==> a[i] - b[i] == d[i])
    requires 0 < period <= |d|
    ensures Wilder(a, period) - Wilder(b, period) == Wilder(d, period)
  {
    if |d| == period {
      SumLinear(a, b, d);
      MeanLinear(Sum(a), Sum(b), period);
    } else {
      var n := |d| - 1;
      WilderLinear(a[..n], b[..n], d[..n], period);
      SmoothLinear(Wilder(a[..n], period), a[n], Wilder(b[..n], period), b[n], Wilder(d[..n], period), d[n], period);
    }
  }

  lemma MeanLinear(x: real, y: real, n: nat)
    requires n > 0
    ensures Mean(x, n) - Mean(y, n) == Mean(x - y, n)
  {
  }

  lemma SmoothLinear(u: real, x: real, v: real, y: real, w: real, z: real, period: nat)
    requires period > 0 && u - v == w && x - y == z
    ensures Smooth(u, x, period) - Smooth(v, y, period) == Smooth(w, z, period)
  {
    var k := (period - 1) as real;
    assert w * k == u * k - v * k;
  }

  /** avg_gain - avg_loss is the same smoothing applied to the raw price changes. */
  lemma GainMinusLoss(d: seq<real>, period: nat)
    requires 0 < period <= |d|
    ensures Wilder(Gains(d), period) - Wilder(Losses(d), period) == Wilder(d, period)
  {
    WilderLinear(Gains(d), Losses(d), d, period);
  }

  // ---- The index -----------------------------------------------------------------------------

  /** Above the cut-off the index is the share of the gains, out of 100. */
  lemma IndexIsShare(gain: real, loss: real)
    requires gain >= 0.0 && loss >= EPSILON
    ensures gain + loss > 0.0 && Index(gain, loss) * (gain + loss) == 100.0 * gain
  {
    var rs := gain / loss;
    assert rs * loss == gain;
    assert rs >= 0.0;
    var q := 100.0 / (1.0 + rs);
    assert q * (1.0 + rs) == 100.0;
    assert q * (gain + loss) == q * (1.0 + rs) * loss;
  }

  lemma IndexInRange(gain: real, loss: real)
    requires gain >= 0.0 && loss >= 0.0
    ensures 0.0 <= Index(gain, loss) <= 100.0
  {
    if loss >= EPSILON {
      IndexIsShare(gain, loss);
      ShareCompare(Index(gain, loss), gain, loss, 0.0);
      ShareCompare(Index(gain, loss), gain, loss, 100.0);
    }
  }

  /** Comparing an index with a level is comparing gains with losses. */
  lemma ShareCompare(index: real, gain: real, loss: real, level: real)
    requires gain + loss > 0.0 && index * (gain + loss) == 100.0 * gain
    ensures index >= level <==> 100.0 * gain >= level * (gain + loss)
    ensures index <= level <==> 100.0 * gain <= level * (gain + loss)
  {
    var t := gain + loss;
    if index > level { assert (index - level) * t > 0.0; }
    if index < level { assert (level - index) * t > 0.0; }
  }

  /** Overbought, at 70: three parts of gain against seven of loss. */
  lemma OverboughtExactly(gain: real, loss: real)
    requires gain >= 0.0 && loss >= EPSILON
    ensures Index(gain, loss) >= 70.0 <==> 3.0 * gain >= 7.0 * loss
  {
    IndexIsShare(gain, loss);
    ShareCompare(Index(gain, loss), gain, loss, 70.0);
  }

  lemma SharesAddUp(x: real, y: real, gain: real, loss: real)
    requires gain + loss > 0.0 && x * (gain + loss) == 100.0 * gain && y * (gain + loss) == 100.0 * loss
    ensures x + y == 100.0
  {
    var t := gain + loss;
    assert (x + y - 100.0) * t == 0.0;
  }

  /** Below the cut-off the index is 100 whatever the gains, which breaks the symmetry. */
  lemma IndexMirrorsExactly(gain: real, loss: real)
    requires gain >= 0.0 && loss >= 0.0
    ensures Index(loss, gain) == 100.0 - Index(gain, loss)
            <==> (gain == 0.0 || gain >= EPSILON) && (loss == 0.0 || loss >= EPSILON) && gain + loss > 0.0
  {
    if loss >= EPSILON { IndexIsShare(gain, loss); }
    if gain >= EPSILON { IndexIsShare(loss, gain); }
    if gain >= EPSILON && loss >= EPSILON {
      SharesAddUp(Index(gain, loss), Index(loss, gain), gain, loss);
    } else if loss >= EPSILON {
      assert Index(loss, gain) == 100.0;
      ShareCompare(Index(gain, loss), gain, loss, 0.0);
    } else if gain >= EPSILON {
      assert Index(gain, loss) == 100.0;
      ShareCompare(Index(loss, gain), loss, gain, 0.0);
    }
  }

  /** Mirroring every price change turns the index into 100 minus itself, exactly when neither
      average lies strictly between 0 and the cut-off and they are not both 0. */
  lemma MirroredRsi(close: seq<real>, mirrored: seq<real>, period: nat)
    requires period > 0 && |mirrored| == |close| >= period + 1
    requires forall i :: 0 <= i < |close| - 1 ==> mirrored[i + 1] - mirrored[i] == -(close[i + 1] - close[i])
    ensures var gain, loss := Wilder(Gains(Deltas(close)), period), Wilder(Losses(Deltas(close)), period);
            RsiOf(mirrored, period) == 100.0 - RsiOf(close, period)
            <==> (gain == 0.0 || gain >= EPSILON) && (loss == 0.0 || loss >= EPSILON) && gain + loss > 0.0
  {
    assert Gains(Deltas(mirrored)) == Losses(Deltas(close));
    assert Losses(Deltas(mirrored)) == Gains(Deltas(close));
    AveragesNonNegative(Deltas(close), period);
    IndexMirrorsExactly(Wilder(Gains(Deltas(close)), period), Wilder(Losses(Deltas(close)), period));
  }

  /** A flat series has no gains and no losses. It is its own mirror image, yet its index is 100. */
  lemma FlatSeriesReadsHundred(close: seq<real>, period: nat)
    requires 0 < period && period + 1 <= |close| && forall i :: 0 <= i < |close| - 1 ==> close[i + 1] == close[i]
    ensures RsiOf(close, period) == 100.0 != 100.0 - RsiOf(close, period)
  {
    var losses := Losses(Deltas(close));
    WilderWithin(losses, period, 0.0, true);
    WilderWithin(losses, period, 0.0, false);
  }

  // ---- The index in terms of the prices ------------------------------------------------------

  /** By how much y exceeds x. */
  function Rise(x: real, y: real): real { if y > x then y - x else 0.0 }

  function Rises(close: seq<real>): (r: seq<real>)
    ensures |r| == if close == [] then 0 else |close| - 1
  {
    if close == [] then [] else seq(|close| - 1, i requires 0 <= i < |close| - 1 => Rise(close[i], close[i + 1]))
  }

  function Falls(close: seq<real>): (r: seq<real>)
    ensures |r| == if close == [] then 0 else |close| - 1
  {
    if close == [] then [] else seq(|close| - 1, i requires 0 <= i < |close| - 1 => Rise(close[i + 1], close[i]))
  }

  function Power(x: real, m: nat): real { if m == 0 then 1.0 else Scaled(x, Power(x, m - 1)) }

  function Scaled(x: real, y: real): real { x * y }

  /** The weight of the i-th of n values: a share of 1/period, carried by the factor (period-1)/period
      over each bar that follows it; the first `period` values are carried together. */
  function Weight(period: nat, n: nat, i: nat): real
    requires 0 < period <= n && i < n
  {
    Power((period - 1) as real / period as real, if i < period then n - period else n - 1 - i) / period as real
  }

  /** The first k terms of the weighted sum of s. */
  function WeightedPart(s: seq<real>, period: nat, k: nat): real
    requires 0 < period <= |s| && k <= |s|
  {
    if k == 0 then 0.0 else WeightedPart(s, period, k - 1) + Scaled(Weight(period, |s|, k - 1), s[k - 1])
  }

  function Weighted(s: seq<real>, period: nat): real
    requires 0 < period <= |s|
  {
    WeightedPart(s, period, |s|)
  }

  lemma WeightCarried(period: nat, n: nat, i: nat)
    requires 0 < period < n && i < n - 1
    ensures Weight(period, n, i) == Scaled((period - 1) as real / period as real, Weight(period, n - 1, i))
  {
    var factor := (period - 1) as real / period as real;
    var m := if i < period then n - 1 - period else n - 2 - i;
    assert Power(factor, m + 1) == Scaled(factor, Power(factor, m));
    ScaledOver(factor, Power(factor, m), period as real);
  }

  lemma ScaledOver(x: real, y: real, n: real)
    requires n > 0.0
    ensures Scaled(x, y) / n == Scaled(x, y / n)
  {
    var q := y / n;
    assert q * n == y;
    assert x * q * n == x * y;
  }

  lemma ScaledSum(x: real, a: real, w: real, y: real)
    ensures Scaled(x, a + Scaled(w, y)) == Scaled(x, a) + Scaled(Scaled(x, w), y)
  {
  }

  /** One more value carries the weights of all before it. */
  lemma {:induction false} PartCarried(s: seq<real>, period: nat, k: nat)
    requires 0 < period < |s| && k < |s|
    ensures WeightedPart(s, period, k)
            == Scaled((period - 1) as real / period as real, WeightedPart(s[..|s| - 1], period, k))
  {
    var factor := (period - 1) as real / period as real;
    if k > 0 {
      PartCarried(s, period, k - 1);
      WeightCarried(period, |s|, k - 1);
      ScaledSum(factor, WeightedPart(s[..|s| - 1], period, k - 1), Weight(period, |s| - 1, k - 1), s[k - 1]);
    }
  }

  lemma ShareOf(x: real, n: nat)
    requires n > 0
    ensures Scaled(1.0 / n as real, x) == Mean(x, n)
  {
    var q := 1.0 / n as real;
    assert q * n as real == 1.0;
    assert q * x * n as real == x;
  }

  lemma MeanAdds(x: real, y: real, n: nat)
    requires n > 0
    ensures Mean(x, n) + Mean(y, n) == Mean(x + y, n)
  {
  }

  /** Over the first `period` values the weighted sum is the plain mean. */
  lemma {:induction false} PartIsMean(s: seq<real>, period: nat, k: nat)
    requires 0 < period == |s| && k <= |s|
    ensures WeightedPart(s, period, k) == Mean(Sum(s[..k]), period)
  {
    if k > 0 {
      PartIsMean(s, period, k - 1);
      assert s[..k][..k - 1] == s[..k - 1];
      assert Weight(period, |s|, k - 1) == 1.0 / period as real;
      ShareOf(s[k - 1], period);
      MeanAdds(Sum(s[..k - 1]), s[k - 1], period);
    }
  }

  lemma SmoothIsCarried(average: real, x: real, period: nat)
    requires period > 0
    ensures Smooth(average, x, period)
            == Scaled((period - 1) as real / period as real, average) + Scaled(1.0 / period as real, x)
  {
    var factor, share := (period - 1) as real / period as real, 1.0 / period as real;
    var n := period as real;
    assert factor * n == n - 1.0 && share * n == 1.0;
    SameOver(n, Smooth(average, x, period), factor * average + share * x, average * (n - 1.0) + x);
  }

  lemma SameOver(n: real, a: real, b: real, product: real)
    requires n > 0.0 && a * n == product && b * n == product
    ensures a == b
  {
  }

  /** Wilder's recurrence in closed form. */
  lemma {:induction false} WilderIsWeighted(s: seq<real>, period: nat)
    requires 0 < period <= |s|
    ensures Wilder(s, period) == Weighted(s, period)
  {
    var n := |s| - 1;
    if |s| == period {
      PartIsMean(s, period, |s|);
      assert s[..|s|] == s;
    } else {
      WilderIsWeighted(s[..n], period);
      PartCarried(s, period, n);
      SmoothIsCarried(Wilder(s[..n], period), s[n], period);
      assert Weight(period, |s|, n) == 1.0 / period as real;
    }
  }

  /** The number read from average gain and loss: 100 without losses, and otherwise the share of the
      gains out of 100, which reaches 70 when three times the gains reach seven times the losses. */
  ghost predicate ReadsShare(rsi: real, gain: real, loss: real) {
    && gain >= 0.0 && loss >= 0.0
    && (loss < 0.0000000001 ==> rsi == 100.0)
    && (loss >= 0.0000000001 ==> rsi * (gain + loss) == 100.0 * gain)
    && (loss >= 0.0000000001 ==> (rsi >= 70.0 <==> 3.0 * gain >= 7.0 * loss))
  }

  lemma IndexReadsShare(gain: real, loss: real)
    requires gain >= 0.0 && loss >= 0.0
    ensures ReadsShare(Index(gain, loss), gain, loss)
  {
    if loss >= EPSILON {
      IndexIsShare(gain, loss);
      OverboughtExactly(gain, loss);
    }
  }

  lemma ChangesSplit(close: seq<real>)
    ensures Gains(Deltas(close)) == Rises(close) && Losses(Deltas(close)) == Falls(close)
  {
  }

  lemma RsiReadsShare(close: seq<real>, period: nat)
    requires 0 < period < |close|
    ensures ReadsShare(RsiOf(close, period), Weighted(Rises(close), period), Weighted(Falls(close), period))
  {
    ChangesSplit(close);
    AveragesNonNegative(Deltas(close), period);
    WilderIsWeighted(Rises(close), period);
    WilderIsWeighted(Falls(close), period);
    IndexReadsShare(Wilder(Rises(close), period), Wilder(Falls(close), period));
  }

  /** A series that never falls reads 100. */
  lemma RisingReadsHundred(close: seq<real>, period: nat)
    requires 0 < period < |close| && forall i :: 0 <= i < |close| - 1 ==> close[i + 1] >= close[i]
    ensures RsiOf(close, period) == 100.0
  {
    var losses := Losses(Deltas(close));
    WilderWithin(losses, period, 0.0, true);
    WilderWithin(losses, period, 0.0, false);
  }

  lemma WeightedWithin(s: seq<real>, period: nat, bound: real, below: bool)
    requires 0 < period <= |s|
    requires forall i :: 0 <= i < |s| ==> if below then bound <= s[i] else s[i] <= bound
    ensures if below then bound <= Weighted(s, period) else Weighted(s, period) <= bound
  {
    WilderIsWeighted(s, period);
    WilderWithin(s, period, bound, below);
  }

  lemma ZeroSeries(s: seq<real>, period: nat)
    requires 0 < period <= |s| && forall i :: 0 <= i < |s| ==> s[i] == 0.0
    ensures Weighted(s, period) == 0.0
  {
    WeightedWithin(s, period, 0.0, true);
    WeightedWithin(s, period, 0.0, false);
  }

  lemma NoRises(close: seq<real>)
    requires forall i :: 0 <= i < |close| - 1 ==> close[i + 1] <= close[i]
    ensures forall i :: 0 <= i < |Rises(close)| ==> Rises(close)[i] == 0.0
  {
  }

  lemma AllFall(close: seq<real>, bound: real)
    requires bound > 0.0 && forall i :: 0 <= i < |close| - 1 ==> close[i] - close[i + 1] >= bound
    ensures forall i :: 0 <= i < |Falls(close)| ==> bound <= Falls(close)[i]
  {
  }

  lemma ZeroShare(rsi: real, loss: real)
    requires ReadsShare(rsi, 0.0, loss)
    ensures rsi == if loss >= 0.0000000001 then 0.0 else 100.0
  {
    if loss >= 0.0000000001 { assert rsi * loss == 0.0; }
  }

  /** A series that never rises reads 0, unless its average fall lies under the cut-off: then it reads
      100 like a rising one. */
  lemma FallingReadsZeroExactly(close: seq<real>, period: nat)
    requires 0 < period < |close| && forall i :: 0 <= i < |close| - 1 ==> close[i + 1] <= close[i]
    ensures RsiOf(close, period) == if Weighted(Falls(close), period) >= 0.0000000001 then 0.0 else 100.0
  {
    NoRises(close);
    ZeroSeries(Rises(close), period);
    RsiReadsShare(close, period);
    ZeroShare(RsiOf(close, period), Weighted(Falls(close), period));
  }

  /** Falls of at least the cut-off at every step are enough. */
  lemma FallingReadsZero(close: seq<real>, period: nat)
    requires 0 < period < |close|
    requires forall i :: 0 <= i < |close| - 1 ==> close[i] - close[i + 1] >= 0.0000000001
    ensures RsiOf(close, period) == 0.0
  {
    AllFall(close, 0.0000000001);
    WeightedWithin(Falls(close), period, 0.0000000001, true);
    FallingReadsZeroExactly(close, period);
  }
}
