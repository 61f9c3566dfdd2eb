/**
  The indicator library: three series transforms. Each returns a series as long
  as its input, with `None` (the source's `null`) during the warm-up prefix.
  Each method pushes one entry per input index, as the source does, and is
  proved equal, index by index, to a specification function; the lemmas below
  say what those functions mean.
 */
module Indicators {
  import opened Wrappers
  import opened Arithmetic

  /** `reduce((a, b) => a + b, 0)`: a left fold of `+` from zero. */
  function Sum(s: seq<real>): real
  {
    if s == [] then 0.0 else Sum(s[..|s| - 1]) + s[|s| - 1]
  }

  // ===========================================================================
  // SMA

  /** The mean of the `period` prices ending at index `i`, once that many exist. */
  function SmaAt(prices: seq<real>, period: nat, i: nat): Option<real>
    requires period >= 1 && i < |prices|
  {
    if i < period - 1 then None
    else Some(Sum(prices[i - period + 1 .. i + 1]) / period as real)
  }

  /** `calculateSMA`: one entry per price, re-summing the trailing window at each index. */
  method CalculateSMA(prices: seq<real>, period: nat) returns (sma: seq<Option<real>>)
    requires period >= 1
    ensures |sma| == |prices|
    ensures forall i :: 0 <= i < |prices| ==> sma[i] == SmaAt(prices, period, i)
  {
    sma := [];
    for i := 0 to |prices|
      invariant |sma| == i
      invariant forall j :: 0 <= j < i ==> sma[j] == SmaAt(prices, period, j)
    {
      if i < period - 1 {
        sma := sma + [None];
      } else {
        var sum := Sum(prices[i - period + 1 .. i + 1]);
        sma := sma + [Some(sum / period as real)];
      }
    }
  }

  // ===========================================================================
  // EMA

  /** The smoothing factor `k = 2 / (period + 1)`. */
  function Multiplier(period: nat): real
  {
    2.0 / (period + 1) as real
  }

  /**
    The EMA at index `i`: absent before `period - 1`, the mean of the first
    `period` prices at `period - 1`, then `(price - prev) * k + prev`.
   */
  function EmaAt(prices: seq<real>, period: nat, i: nat): (r: Option<real>)
    requires period >= 1 && i < |prices|
    ensures r.Some? <==> i >= period - 1
    decreases i
  {
    if i < period - 1 then None
    else if i == period - 1 then Some(Sum(prices[..period]) / period as real)
    else
      var prev := EmaAt(prices, period, i - 1).value;
      Some((prices[i] - prev) * Multiplier(period) + prev)
  }

  /** `calculateEMA`: reads back the previous entry of the series it is building. */
  method CalculateEMA(prices: seq<real>, period: nat) returns (ema: seq<Option<real>>)
    requires period >= 1
    ensures |ema| == |prices|
    ensures forall i :: 0 <= i < |prices| ==> ema[i] == EmaAt(prices, period, i)
  {
    ema := [];
    var multiplier := Multiplier(period);
    for i := 0 to |prices|
      invariant |ema| == i
      invariant forall j :: 0 <= j < i ==> ema[j] == EmaAt(prices, period, j)
    {
      if i < period - 1 {
        ema := ema + [None];
      } else if i == period - 1 {
        var sum := Sum(prices[..period]);
        ema := ema + [Some(sum / period as real)];
      } else {
        assert ema[i - 1] == EmaAt(prices, period, i - 1);
        var prevEma := ema[i - 1].value;
        assert EmaAt(prices, period, i).value == (prices[i] - prevEma) * multiplier + prevEma;
        ema := ema + [Some((prices[i] - prevEma) * multiplier + prevEma)];
      }
    }
  }

  // ===========================================================================
  // RSI

  /** `Math.max(0, change)` */
  function Gain(change: real): real
  {
    if change > 0.0 then change else 0.0
  }

  /** `Math.max(0, -change)` */
  function Loss(change: real): real
  {
    if -change > 0.0 then -change else 0.0
  }

  /** The gain of each step `j -> j + 1`; one entry fewer than the prices. */
  function Gains(prices: seq<real>): (g: seq<real>)
    ensures |g| == if prices == [] then 0 else |prices| - 1
  {
    if prices == [] then []
    else seq(|prices| - 1, j requires 0 <= j < |prices| - 1 => Gain(prices[j + 1] - prices[j]))
  }

  /** The loss of each step `j -> j + 1`; one entry fewer than the prices. */
  function Losses(prices: seq<real>): (l: seq<real>)
    ensures |l| == if prices == [] then 0 else |prices| - 1
  {
    if prices == [] then []
    else seq(|prices| - 1, j requires 0 <= j < |prices| - 1 => Loss(prices[j + 1] - prices[j]))
  }

  ghost predicate NonNegative(xs: seq<real>)
  {
    forall j :: 0 <= j < |xs| ==> xs[j] >= 0.0
  }

  /**
    The running average the source holds at index `i >= period`: seeded with the
    sum of `xs[0 .. period - 2]` (the first `period - 1` steps) divided by
    `period`, then smoothed by `avg = (avg * (period - 1) + xs[i - 1]) / period`
    from index `period + 1` on. `xs[period - 1]` is never folded in.
   */
  function WilderAverage(xs: seq<real>, period: nat, i: nat): real
    requires period >= 1 && period <= i <= |xs|
    decreases i
  {
    if i == period then SeedAverage(xs, period)
    else Smooth(WilderAverage(xs, period, i - 1), xs[i - 1], period)
  }

  /** Wilder's update `(avg * (period - 1) + x) / period`. */
  function Smooth(avg: real, x: real, period: nat): real
    requires period >= 1
  {
    (avg * (period - 1) as real + x) / period as real
  }

  /** The seed as written: the first `period - 1` entries summed, divided by `period`. */
  function SeedAverage(xs: seq<real>, period: nat): real
    requires period >= 1 && period - 1 <= |xs|
  {
    Sum(xs[..period - 1]) / period as real
  }

  /**
    RSI from the two averages: 100 when there is no average loss, otherwise
    `100 - 100 / (1 + gain / loss)`. It lies in [0, 100], it is 100 exactly when
    the average loss is zero, and otherwise it is the gain's share of the total
    movement, in percent.
   */
  function RsiValue(avgGain: real, avgLoss: real): (r: real)
    requires avgGain >= 0.0 && avgLoss >= 0.0
    ensures 0.0 <= r <= 100.0
    ensures r == 100.0 <==> avgLoss == 0.0
    ensures avgLoss > 0.0 ==> r == 100.0 * avgGain / (avgGain + avgLoss)
  {
    if avgLoss == 0.0 then 100.0
    else
      var rs := avgGain / avgLoss;
      RsiShare(avgGain, avgLoss);
      100.0 - 100.0 / (1.0 + rs)
  }

  /** The RSI at index `i`: absent before `period`, then `RsiValue` of the two running averages. */
  function RsiAt(prices: seq<real>, period: nat, i: nat): Option<real>
    requires period >= 1 && i < |prices|
  {
    if i < period then None
    else
      GainsLossesNonNegative(prices);
      WilderAverageNonNegative(Gains(prices), period, i);
      WilderAverageNonNegative(Losses(prices), period, i);
      Some(RsiValue(WilderAverage(Gains(prices), period, i), WilderAverage(Losses(prices), period, i)))
  }

  /**
    The accumulator the source holds on entry to iteration `i` of its second loop:
    a partial sum while `i < period`, the seed at `i == period`, the running
    average of the previous index after that.
   */
  ghost function Accumulated(xs: seq<real>, period: nat, i: nat): real
    requires period >= 1 && i <= |xs| + 1
  {
    if i < period then (if i == 0 then 0.0 else Sum(xs[..i - 1]))
    else if i == period then SeedAverage(xs, period)
    else WilderAverage(xs, period, i - 1)
  }

  /** The first pass of `calculateRSI`: the gain and the loss of every step. */
  method PriceChanges(prices: seq<real>) returns (gains: seq<real>, losses: seq<real>)
    ensures gains == Gains(prices) && losses == Losses(prices)
  {
    gains, losses := [], [];
    var i := 1;
    while i < |prices|
      invariant 1 <= i <= if prices == [] then 1 else |prices|
      invariant |gains| == i - 1 && |losses| == i - 1
      invariant forall j {:trigger gains[j]} :: 0 <= j < i - 1 ==> gains[j] == Gain(prices[j + 1] - prices[j])
      invariant forall j {:trigger losses[j]} :: 0 <= j < i - 1 ==> losses[j] == Loss(prices[j + 1] - prices[j])
    {
      var change := prices[i] - prices[i - 1];
      gains := gains + [Gain(change)];
      losses := losses + [Loss(change)];
      i := i + 1;
    }
    forall j | 0 <= j < |gains|
      ensures gains[j] == Gains(prices)[j] && losses[j] == Losses(prices)[j]
    {
    }
  }

  /** `calculateRSI`: a pass for the per-step gains and losses, then a pass with two running accumulators. */
  method CalculateRSI(prices: seq<real>, period: nat) returns (rsi: seq<Option<real>>)
    requires period >= 1
    ensures |rsi| == |prices|
    ensures forall i :: 0 <= i < |prices| ==> rsi[i] == RsiAt(prices, period, i)
  {
    var gains, losses := PriceChanges(prices);
    GainsLossesNonNegative(prices);

    var avgGain := 0.0;
    var avgLoss := 0.0;
    rsi := [];
    for k := 0 to |prices|
      invariant |rsi| == k
      invariant forall j :: 0 <= j < k ==> rsi[j] == RsiAt(prices, period, j)
      invariant avgGain == Accumulated(gains, period, k)
      invariant avgLoss == Accumulated(losses, period, k)
    {
      AccumulatedAdvance(gains, period, k);
      AccumulatedAdvance(losses, period, k);
      if k < period {
        rsi := rsi + [None];
        if k > 0 {
          avgGain := avgGain + gains[k - 1];
          avgLoss := avgLoss + losses[k - 1];
        }
        if k == period - 1 {
          avgGain := avgGain / period as real;
          avgLoss := avgLoss / period as real;
        }
      } else if k == period {
        RsiAtWilder(prices, period, k);
        rsi := rsi + [Some(RsiValue(avgGain, avgLoss))];
      } else {
        avgGain := Smooth(avgGain, gains[k - 1], period);
        avgLoss := Smooth(avgLoss, losses[k - 1], period);
        RsiAtWilder(prices, period, k);
        rsi := rsi + [Some(RsiValue(avgGain, avgLoss))];
      }
    }
  }

  /** How the accumulator moves from the head of iteration `k` to the head of iteration `k + 1`. */
  lemma AccumulatedAdvance(xs: seq<real>, period: nat, k: nat)
    requires period >= 1 && k <= |xs|
    ensures k < period ==>
      var s := if k == 0 then Accumulated(xs, period, k) else Accumulated(xs, period, k) + xs[k - 1];
      Accumulated(xs, period, k + 1) == if k == period - 1 then s / period as real else s
    ensures k == period ==> Accumulated(xs, period, k + 1) == Accumulated(xs, period, k)
    ensures k > period ==> Accumulated(xs, period, k + 1) == Smooth(Accumulated(xs, period, k), xs[k - 1], period)
  {
    if 0 < k < period {
      assert xs[..k] == xs[..k - 1] + [xs[k - 1]];
    }
  }

  /** From index `period` on, the RSI is `RsiValue` of the two averages, which are non-negative. */
  lemma RsiAtWilder(prices: seq<real>, period: nat, k: nat)
    requires period >= 1 && period <= k < |prices|
    ensures WilderAverage(Gains(prices), period, k) >= 0.0
    ensures WilderAverage(Losses(prices), period, k) >= 0.0
    ensures RsiAt(prices, period, k) ==
      Some(RsiValue(WilderAverage(Gains(prices), period, k), WilderAverage(Losses(prices), period, k)))
  {
    GainsLossesNonNegative(prices);
    WilderAverageNonNegative(Gains(prices), period, k);
    WilderAverageNonNegative(Losses(prices), period, k);
  }

  // ===========================================================================
  // Lemmas: sums

  lemma {:induction false} SumNonNegative(s: seq<real>)
    requires NonNegative(s)
    ensures Sum(s) >= 0.0
  {
    if s != [] {
      assert NonNegative(s[..|s| - 1]);
      SumNonNegative(s[..|s| - 1]);
    }
  }

  lemma CancelFactor(x: real, y: real, z: real)
    requires z != 0.0 && x * z == y * z
    ensures x == y
  {
    assert (x - y) * z == 0.0;
  }

  /** The algebra behind `RsiValue`: `100 - 100 / (1 + g / l) == 100 * g / (g + l)`, within [0, 100). */
  lemma RsiShare(g: real, l: real)
    requires g >= 0.0 && l > 0.0
    ensures 0.0 < 100.0 / (1.0 + g / l) <= 100.0
    ensures 100.0 - 100.0 / (1.0 + g / l) == 100.0 * g / (g + l)
  {
    var rs := g / l;
    assert rs * l == g;
    assert rs >= 0.0;
    assert (1.0 + rs) * l == g + l;
    var q := 100.0 / (1.0 + rs);
    assert q * (1.0 + rs) == 100.0;
    assert q * (g + l) == 100.0 * l;
    assert (100.0 - q) * (g + l) == 100.0 * g;
    assert 100.0 * g / (g + l) * (g + l) == 100.0 * g;
    CancelFactor(100.0 - q, 100.0 * g / (g + l), g + l);
  }

  /** Every entry in [lo, hi] puts the sum in [|s| * lo, |s| * hi]. */
  lemma {:induction false} SumBounds(s: seq<real>, lo: real, hi: real)
    requires forall j :: 0 <= j < |s| ==> lo <= s[j] <= hi
    ensures |s| as real * lo <= Sum(s) <= |s| as real * hi
  {
    if s != [] {
      SumBounds(s[..|s| - 1], lo, hi);
    }
  }

  /** Prepending to the window: `Sum([x] + s) == x + Sum(s)`. */
  lemma {:induction false} SumCons(x: real, s: seq<real>)
    ensures Sum([x] + s) == x + Sum(s)
    decreases |s|
  {
    if s != [] {
      assert ([x] + s)[..|s|] == [x] + s[..|s| - 1];
      SumCons(x, s[..|s| - 1]);
    }
  }

  /** A sum of non-negative entries is zero exactly when every entry is zero. */
  lemma {:induction false} SumZeroIffAllZero(s: seq<real>)
    requires NonNegative(s)
    ensures Sum(s) == 0.0 <==> forall j :: 0 <= j < |s| ==> s[j] == 0.0
  {
    if s != [] {
      SumZeroIffAllZero(s[..|s| - 1]);
      SumNonNegative(s[..|s| - 1]);
      if Sum(s) == 0.0 {
        forall j | 0 <= j < |s| ensures s[j] == 0.0 {
          if j < |s| - 1 {
            assert s[j] == s[..|s| - 1][j];
          }
        }
      }
    }
  }

  // ===========================================================================
  // Lemmas: SMA

  /** The series has the input's length; an entry is absent exactly during warm-up. */
  lemma SmaWarmUp(prices: seq<real>, period: nat, i: nat)
    requires period >= 1 && i < |prices|
    ensures SmaAt(prices, period, i).None? <==> i < period - 1
  {
  }

  /** A mean of prices within [lo, hi] stays within [lo, hi]. */
  lemma SmaBounded(prices: seq<real>, period: nat, i: nat, lo: real, hi: real)
    requires period >= 1 && i < |prices| && i >= period - 1
    requires forall j :: 0 <= j < |prices| ==> lo <= prices[j] <= hi
    ensures lo <= SmaAt(prices, period, i).value <= hi
  {
    var w := prices[i - period + 1 .. i + 1];
    SumBounds(w, lo, hi);
    MeanBounds(Sum(w), |w| as real, lo, hi);
  }

  /** A total between `n * lo` and `n * hi`, shared over `n > 0`, gives a mean between `lo` and `hi`. */
  lemma MeanBounds(total: real, n: real, lo: real, hi: real)
    requires n > 0.0 && n * lo <= total <= n * hi
    ensures lo <= total / n <= hi
  {
    var m := total / n;
    assert m * n == total;
    SignOfFactor(m - lo, n);
    SignOfFactor(hi - m, n);
  }

  lemma SignOfFactor(x: real, n: real)
    requires n > 0.0 && x * n >= 0.0
    ensures x >= 0.0
  {
  }

  /**
    The running-sum form of the same mean: moving the window one step adds the
    new price and drops the oldest one.
   */
  lemma SmaSlide(prices: seq<real>, period: nat, i: nat)
    requires period >= 1 && period - 1 <= i && i + 1 < |prices|
    ensures SmaAt(prices, period, i + 1).value * period as real ==
      SmaAt(prices, period, i).value * period as real + prices[i + 1] - prices[i + 1 - period]
  {
    var w := prices[i - period + 1 .. i + 1];
    var w' := prices[i - period + 2 .. i + 2];
    assert w' == w[1..] + [prices[i + 1]];
    assert w == [w[0]] + w[1..];
    SumCons(w[0], w[1..]);
    assert w'[..|w'| - 1] == w[1..];
  }

  // ===========================================================================
  // Lemmas: EMA

  /** The EMA is seeded with the SMA at index `period - 1`. */
  lemma EmaSeedIsSma(prices: seq<real>, period: nat)
    requires period >= 1 && period <= |prices|
    ensures EmaAt(prices, period, period - 1) == SmaAt(prices, period, period - 1)
  {
    assert prices[period - 1 - period + 1 .. period - 1 + 1] == prices[..period];
  }

  /** `(x - prev) * k + prev` with `0 < k <= 1` lies between `x` and `prev`. */
  lemma StepBetween(x: real, prev: real, k: real, lo: real, hi: real)
    requires 0.0 < k <= 1.0 && lo <= x <= hi && lo <= prev <= hi
    ensures lo <= (x - prev) * k + prev <= hi
  {
    assert (x - prev) * k + prev == k * x + (1.0 - k) * prev;
    MulNonNegative(k, x - lo);
    MulNonNegative(k, hi - x);
    MulNonNegative(1.0 - k, prev - lo);
    MulNonNegative(1.0 - k, hi - prev);
  }

  /** Every EMA value lies within the range of the prices. */
  lemma {:induction false} EmaBounded(prices: seq<real>, period: nat, i: nat, lo: real, hi: real)
    requires period >= 1 && i < |prices| && i >= period - 1
    requires forall j :: 0 <= j < |prices| ==> lo <= prices[j] <= hi
    ensures lo <= EmaAt(prices, period, i).value <= hi
    decreases i
  {
    if i == period - 1 {
      EmaSeedIsSma(prices, period);
      SmaBounded(prices, period, i, lo, hi);
    } else {
      EmaBounded(prices, period, i - 1, lo, hi);
      StepBetween(prices[i], EmaAt(prices, period, i - 1).value, Multiplier(period), lo, hi);
    }
  }

  /** The sum of a window of the linear series `a + d * j`. */
  lemma {:induction false} SumLinear(prices: seq<real>, a: real, d: real, lo: nat, hi: nat)
    requires forall j :: 0 <= j < |prices| ==> prices[j] == a + d * j as real
    requires lo <= hi <= |prices|
    ensures Sum(prices[lo..hi]) == LinearWindowSum(a, d, lo as real, hi as real)
    decreases hi - lo
  {
    if lo < hi {
      SumLinear(prices, a, d, lo, hi - 1);
      assert prices[lo..hi][..hi - lo - 1] == prices[lo..hi - 1];
      LinearWindowStep(a, d, lo as real, hi as real);
    }
  }

  /** The closed form of `a + d * j` summed over `lo <= j < hi`. */
  function LinearWindowSum(a: real, d: real, lo: real, hi: real): real
  {
    (hi - lo) * a + d * (lo + hi - 1.0) * (hi - lo) / 2.0
  }

  lemma LinearWindowStep(a: real, d: real, lo: real, hi: real)
    ensures LinearWindowSum(a, d, lo, hi - 1.0) + (a + d * (hi - 1.0)) == LinearWindowSum(a, d, lo, hi)
  {
  }

  /** The value of `a + d * j` taken `(period - 1) / 2` steps before `i`. */
  function LinearLag(a: real, d: real, i: nat, period: nat): real
  {
    a + d * i as real - d * (period as real - 1.0) / 2.0
  }

  /** On a linear series `a + d * j` the SMA trails the price by `(period - 1) / 2` steps. */
  lemma LinearSeriesSma(prices: seq<real>, period: nat, a: real, d: real, i: nat)
    requires period >= 1 && i < |prices| && i >= period - 1
    requires forall j :: 0 <= j < |prices| ==> prices[j] == a + d * j as real
    ensures SmaAt(prices, period, i) == Some(LinearLag(a, d, i, period))
  {
    var p := period as real;
    SumLinear(prices, a, d, i - period + 1, i + 1);
    assert (i - period + 1) as real == i as real - p + 1.0;
    assert (i + 1) as real == i as real + 1.0;
    LinearMean(a, d, i as real, p);
    var w := prices[i - period + 1 .. i + 1];
    assert Sum(w) == LinearWindowSum(a, d, i as real - p + 1.0, i as real + 1.0);
    assert Sum(w) / p == LinearLag(a, d, i, period);
    assert SmaAt(prices, period, i) == Some(Sum(w) / p);
  }

  /**
    On a linear series `a + d * j` the EMA equals the SMA at every defined
    index: the seed trails by `(period - 1) / 2` steps and each update adds `d`.
   */
  lemma {:induction false} LinearSeriesEma(prices: seq<real>, period: nat, a: real, d: real, i: nat)
    requires period >= 1 && i < |prices| && i >= period - 1
    requires forall j :: 0 <= j < |prices| ==> prices[j] == a + d * j as real
    ensures EmaAt(prices, period, i) == SmaAt(prices, period, i)
    decreases i
  {
    LinearSeriesSma(prices, period, a, d, i);
    if i == period - 1 {
      EmaSeedIsSma(prices, period);
    } else {
      LinearSeriesEma(prices, period, a, d, i - 1);
      LinearSeriesSma(prices, period, a, d, i - 1);
      LinearEmaAdvance(prices, period, a, d, i);
    }
  }

  /** The inductive step: an EMA on the lagged line at `i - 1` stays on it at `i`. */
  lemma LinearEmaAdvance(prices: seq<real>, period: nat, a: real, d: real, i: nat)
    requires period >= 1 && period - 1 < i < |prices|
    requires prices[i] == a + d * i as real
    requires EmaAt(prices, period, i - 1) == Some(LinearLag(a, d, i - 1, period))
    ensures EmaAt(prices, period, i) == Some(LinearLag(a, d, i, period))
  {
    var prev := LinearLag(a, d, i - 1, period);
    LinearLagStep(a, d, i, period);
    assert Multiplier(period) == 2.0 / (period as real + 1.0);
    LinearEmaStep(prices[i], prev, d, period as real);
    assert EmaAt(prices, period, i - 1).value == prev;
    assert EmaAt(prices, period, i).value == (prices[i] - prev) * Multiplier(period) + prev;
    assert (prices[i] - prev) * Multiplier(period) + prev == LinearLag(a, d, i, period);
  }

  /** Successive lagged values of a linear series differ by `d`, and the price leads by `d * (period + 1) / 2`. */
  lemma LinearLagStep(a: real, d: real, i: nat, period: nat)
    requires i >= 1
    ensures LinearLag(a, d, i, period) == LinearLag(a, d, i - 1, period) + d
    ensures a + d * i as real - LinearLag(a, d, i - 1, period) == d * (period as real + 1.0) / 2.0
  {
    assert d * i as real == d * (i - 1) as real + d;
  }

  /** One update on a linear series moves the EMA by exactly `d`. */
  lemma LinearEmaStep(x: real, prev: real, d: real, p: real)
    requires p >= 1.0 && x - prev == d * (p + 1.0) / 2.0
    ensures (x - prev) * (2.0 / (p + 1.0)) + prev == prev + d
  {
    var h := d * (p + 1.0) / 2.0;
    assert h * 2.0 == d * (p + 1.0);
    assert h * (2.0 / (p + 1.0)) * (p + 1.0) == h * 2.0;
    CancelFactor(h * (2.0 / (p + 1.0)), d, p + 1.0);
  }

  /** The mean of the window of `p` entries ending at `i` is the entry `(p - 1) / 2` steps back. */
  lemma LinearMean(a: real, d: real, i: real, p: real)
    requires p >= 1.0
    ensures LinearWindowSum(a, d, i - p + 1.0, i + 1.0) / p == a + d * i - d * (p - 1.0) / 2.0
  {
    assert LinearWindowSum(a, d, i - p + 1.0, i + 1.0) == p * (a + d * i - d * (p - 1.0) / 2.0);
  }

  /** The source's example: period 3 over 10, 20, ..., 100. */
  lemma TestMovingAverages()
    ensures var prices := [10.0, 20.0, 30.0, 40.0, 50.0, 60.0, 70.0, 80.0, 90.0, 100.0];
      && SmaAt(prices, 3, 0).None? && SmaAt(prices, 3, 1).None?
      && SmaAt(prices, 3, 2) == Some(20.0) && SmaAt(prices, 3, 3) == Some(30.0) && SmaAt(prices, 3, 4) == Some(40.0)
      && EmaAt(prices, 3, 0).None? && EmaAt(prices, 3, 1).None?
      && EmaAt(prices, 3, 2) == Some(20.0) && EmaAt(prices, 3, 3) == Some(30.0) && EmaAt(prices, 3, 4) == Some(40.0)
  {
    var prices := [10.0, 20.0, 30.0, 40.0, 50.0, 60.0, 70.0, 80.0, 90.0, 100.0];
    assert forall j :: 0 <= j < |prices| ==> prices[j] == 10.0 + 10.0 * j as real;
    LinearSeriesSma(prices, 3, 10.0, 10.0, 2);
    LinearSeriesSma(prices, 3, 10.0, 10.0, 3);
    LinearSeriesSma(prices, 3, 10.0, 10.0, 4);
    LinearSeriesEma(prices, 3, 10.0, 10.0, 2);
    LinearSeriesEma(prices, 3, 10.0, 10.0, 3);
    LinearSeriesEma(prices, 3, 10.0, 10.0, 4);
  }

  // ===========================================================================
  // Lemmas: RSI

  /** Gain and loss are never negative, at most one is nonzero, and gain - loss is the change. */
  lemma GainLoss(change: real)
    ensures Gain(change) >= 0.0 && Loss(change) >= 0.0
    ensures Gain(change) == 0.0 || Loss(change) == 0.0
    ensures Gain(change) - Loss(change) == change
  {
  }

  lemma GainsLossesNonNegative(prices: seq<real>)
    ensures NonNegative(Gains(prices)) && NonNegative(Losses(prices))
  {
    forall j | 0 <= j < |Gains(prices)|
      ensures Gains(prices)[j] >= 0.0 && Losses(prices)[j] >= 0.0
    {
      GainLoss(prices[j + 1] - prices[j]);
    }
  }

  /** RSI is undefined exactly on the first `period` indices. */
  lemma RsiWarmUp(prices: seq<real>, period: nat, i: nat)
    requires period >= 1 && i < |prices|
    ensures RsiAt(prices, period, i).None? <==> i < period
  {
  }

  /** Every RSI value lies in [0, 100]; it is 100 exactly when the average loss is zero. */
  lemma RsiBounded(prices: seq<real>, period: nat, i: nat)
    requires period >= 1 && period <= i < |prices|
    ensures RsiAt(prices, period, i).Some?
    ensures 0.0 <= RsiAt(prices, period, i).value <= 100.0
    ensures RsiAt(prices, period, i).value == 100.0 <==> WilderAverage(Losses(prices), period, i) == 0.0
  {
  }

  /** Averages of non-negative entries stay non-negative, through the seed and every update. */
  lemma {:induction false} WilderAverageNonNegative(xs: seq<real>, period: nat, i: nat)
    requires period >= 1 && period <= i <= |xs|
    ensures NonNegative(xs) ==> WilderAverage(xs, period, i) >= 0.0
    decreases i
  {
    if NonNegative(xs) {
      if i == period {
        assert NonNegative(xs[..period - 1]);
        SumNonNegative(xs[..period - 1]);
      } else {
        WilderAverageNonNegative(xs, period, i - 1);
        MulNonNegative(WilderAverage(xs, period, i - 1), (period - 1) as real);
      }
    }
  }

  /** A series of zeros averages to zero. */
  lemma {:induction false} WilderAverageOfZeros(xs: seq<real>, period: nat, i: nat)
    requires period >= 1 && period <= i <= |xs|
    requires forall j :: 0 <= j < |xs| ==> xs[j] == 0.0
    ensures WilderAverage(xs, period, i) == 0.0
    decreases i
  {
    if i == period {
      SumBounds(xs[..period - 1], 0.0, 0.0);
    } else {
      WilderAverageOfZeros(xs, period, i - 1);
    }
  }

  /** A series that never falls has RSI 100 at every defined index. */
  lemma NeverFallingRsiIs100(prices: seq<real>, period: nat, i: nat)
    requires period >= 1 && i < |prices|
    requires forall j :: 0 <= j < |prices| - 1 ==> prices[j] <= prices[j + 1]
    ensures RsiAt(prices, period, i).None? <==> i < period
    ensures i >= period ==> RsiAt(prices, period, i) == Some(100.0)
  {
    if i >= period {
      WilderAverageOfZeros(Losses(prices), period, i);
    }
  }

  /** The source's zero-loss example: period 3 over 10, 20, ..., 60. */
  lemma TestRsiZeroLoss()
    ensures var prices := [10.0, 20.0, 30.0, 40.0, 50.0, 60.0];
      RsiAt(prices, 3, 3) == Some(100.0) && RsiAt(prices, 3, 4) == Some(100.0) && RsiAt(prices, 3, 5) == Some(100.0)
  {
    var prices := [10.0, 20.0, 30.0, 40.0, 50.0, 60.0];
    forall i | 3 <= i < 6
      ensures RsiAt(prices, 3, i) == Some(100.0)
    {
      NeverFallingRsiIs100(prices, 3, i);
    }
  }

  // ===========================================================================
  // The RSI seed as written and as intended

  /**
    As written, the seed leaves out the step into index `period`: over
    10, 20, 30, 20 with period 3 the last step is a fall of 10, yet RSI[3] is 100.
   */
  lemma SeedIgnoresLastStep()
    ensures var prices := [10.0, 20.0, 30.0, 20.0];
      prices[2] > prices[3] && RsiAt(prices, 3, 3) == Some(100.0)
  {
    var prices := [10.0, 20.0, 30.0, 20.0];
    var losses := Losses(prices);
    SumBounds(losses[..2], 0.0, 0.0);
  }

  /** Wilder's average with the seed taken over the first `period` steps. */
  function IntendedWilderAverage(xs: seq<real>, period: nat, i: nat): real
    requires period >= 1 && period <= i <= |xs|
    decreases i
  {
    if i == period then
      Sum(xs[..period]) / period as real
    else Smooth(IntendedWilderAverage(xs, period, i - 1), xs[i - 1], period)
  }

  lemma {:induction false} IntendedWilderAverageNonNegative(xs: seq<real>, period: nat, i: nat)
    requires period >= 1 && period <= i <= |xs|
    ensures NonNegative(xs) ==> IntendedWilderAverage(xs, period, i) >= 0.0
    decreases i
  {
    if NonNegative(xs) {
      if i == period {
        assert NonNegative(xs[..period]);
        SumNonNegative(xs[..period]);
      } else {
        IntendedWilderAverageNonNegative(xs, period, i - 1);
        MulNonNegative(IntendedWilderAverage(xs, period, i - 1), (period - 1) as real);
      }
    }
  }

  /** The RSI with the corrected seed. */
  function IntendedRsiAt(prices: seq<real>, period: nat, i: nat): Option<real>
    requires period >= 1 && i < |prices|
  {
    if i < period then None
    else
      GainsLossesNonNegative(prices);
      IntendedWilderAverageNonNegative(Gains(prices), period, i);
      IntendedWilderAverageNonNegative(Losses(prices), period, i);
      Some(RsiValue(IntendedWilderAverage(Gains(prices), period, i), IntendedWilderAverage(Losses(prices), period, i)))
  }

  /**
    With the corrected seed, the first RSI value is 100 exactly when none of the
    first `period` steps is a fall.
   */
  lemma IntendedFirstRsi(prices: seq<real>, period: nat)
    requires period >= 1 && period < |prices|
    ensures IntendedRsiAt(prices, period, period) == Some(100.0) <==>
      forall j :: 0 <= j < period ==> prices[j] <= prices[j + 1]
  {
    var gains, losses := Gains(prices), Losses(prices);
    GainsLossesNonNegative(prices);
    IntendedWilderAverageNonNegative(gains, period, period);
    IntendedWilderAverageNonNegative(losses, period, period);
    var w := losses[..period];
    assert NonNegative(w);
    SumZeroIffAllZero(w);
    QuotientIsZero(Sum(w), period as real);
    assert IntendedRsiAt(prices, period, period) ==
      Some(RsiValue(IntendedWilderAverage(gains, period, period), Sum(w) / period as real));
    forall j | 0 <= j < period
      ensures w[j] == 0.0 <==> prices[j] <= prices[j + 1]
    {
      assert w[j] == Loss(prices[j + 1] - prices[j]);
    }
  }

  lemma QuotientIsZero(x: real, p: real)
    requires p > 0.0
    ensures x / p == 0.0 <==> x == 0.0
  {
    if x / p == 0.0 {
      assert x == (x / p) * p;
    }
  }

  lemma SumOfThree(x: real, y: real, z: real)
    ensures Sum([x, y, z]) == x + y + z
  {
    assert [x, y, z][..2] == [x, y];
    assert [x, y][..1] == [x];
    assert [x][..0] == [];
    assert Sum([x]) == x;
    assert Sum([x, y]) == x + y;
  }

  /** The corrected seed on the same input gives 200/3, not 100. */
  lemma IntendedSeedSeesLastStep()
    ensures IntendedRsiAt([10.0, 20.0, 30.0, 20.0], 3, 3) == Some(200.0 / 3.0)
  {
    var prices := [10.0, 20.0, 30.0, 20.0];
    var gains, losses := Gains(prices), Losses(prices);
    assert gains[..3] == [10.0, 10.0, 0.0];
    assert losses[..3] == [0.0, 0.0, 10.0];
    SumOfThree(10.0, 10.0, 0.0);
    SumOfThree(0.0, 0.0, 10.0);
    RsiShare(20.0 / 3.0, 10.0 / 3.0);
  }
}
