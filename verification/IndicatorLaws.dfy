/** Laws of the indicators over whole price histories. */
module IndicatorLaws {
  import opened Collections
  import opened Indicators
  import opened RealSeqs

  // ---- Closed forms ----

  function Mix(p: real, x: real, k: real, w: real): real { p * x + k * w }

  lemma BlendStep(k: real, p: real, p': real, x: real, w: real, w': real, v: real)
    requires var q := 1.0 - k; p' == q * p && w' == q * w + v
    ensures Blend(k, v, Mix(p, x, k, w)) == Mix(p', x, k, w')
  {
    assert (1.0 - k) * (p * x) == p' * x;
    assert k * w' == (1.0 - k) * (k * w) + k * v;
  }

  /** The geometric-weight sum of a whole history. */
  function GeometricSum(k: real, xs: seq<real>): real
    requires xs != []
  {
    Mix(Pow(1.0 - k, |xs| - 1), xs[0], k, Weighted(1.0 - k, xs[1..]))
  }

  lemma GeometricPush(k: real, ys: seq<real>, v: real)
    requires ys != []
    ensures GeometricSum(k, ys + [v]) == Blend(k, v, GeometricSum(k, ys))
  {
    hide Blend, Mix, Weighted;
    var q, xs := 1.0 - k, ys + [v];
    assert xs[1..] == ys[1..] + [v];
    WeightedPush(q, ys[1..], v);
    BlendStep(k, Pow(q, |ys| - 1), Pow(q, |xs| - 1), xs[0], Weighted(q, ys[1..]), Weighted(q, xs[1..]), v);
  }

  /** The EMA is the geometric-weight sum of the whole history. */
  lemma {:induction false} EmaClosedForm(k: real, xs: seq<real>)
    requires xs != []
    ensures Ema(k, xs) == GeometricSum(k, xs)
  {
    if |xs| == 1 {
      assert xs[1..] == [] && Pow(1.0 - k, 0) == 1.0;
    } else {
      hide Blend, GeometricSum;
      var ys, v := xs[..|xs| - 1], xs[|xs| - 1];
      EmaClosedForm(k, ys);
      GeometricPush(k, ys, v);
      assert xs == ys + [v];
    }
  }

  lemma BlendBetween(k: real, v: real, e: real, lo: real, hi: real)
    requires 0.0 < k <= 1.0 && lo <= v <= hi && lo <= e <= hi
    ensures lo <= Blend(k, v, e) <= hi
  {
    ProductNonnegative(v - lo, k);
    ProductNonnegative(hi - v, k);
    ProductNonnegative(e - lo, 1.0 - k);
    ProductNonnegative(hi - e, 1.0 - k);
  }

  lemma ProductNonnegative(x: real, y: real)
    requires x >= 0.0 && y >= 0.0
    ensures x * y >= 0.0
  {}

  /** The EMA never leaves the range of the values seen. */
  lemma {:induction false} EmaInRange(k: real, xs: seq<real>, lo: real, hi: real)
    requires xs != [] && 0.0 < k <= 1.0 && forall i :: 0 <= i < |xs| ==> lo <= xs[i] <= hi
    ensures lo <= Ema(k, xs) <= hi
  {
    if |xs| == 1 {
    } else {
      EmaInRange(k, xs[..|xs| - 1], lo, hi);
      BlendBetween(k, xs[|xs| - 1], Ema(k, xs[..|xs| - 1]), lo, hi);
    }
  }

  function Decay(period: nat): real
    requires period >= 1
  {
    (period - 1) as real / period as real
  }

  function Combine(period: nat, p: real, seed: real, w: real): real
    requires period >= 1
  {
    p * seed + w / period as real
  }

  lemma SmoothStep(period: nat, seen: nat, p: real, p': real, seed: real, w: real, w': real, m: real)
    requires 1 <= period <= seen && p' == Decay(period) * p && w' == Decay(period) * w + m
    ensures WilderStep(period, seen, Combine(period, p, seed, w), m) == Combine(period, p', seed, w')
  {
    var n := period as real;
    var a, q := p * seed + w / n, Decay(period);
    assert (a * (n - 1.0) + m) / n == a * q + m / n;
    assert (w / n) * q == (q * w) / n;
    assert p' * seed == q * p * seed;
  }

  lemma AverageStep(period: nat, seen: nat, sum: real, m: real)
    requires seen < period
    ensures WilderStep(period, seen, sum / period as real, m) == (sum + m) / period as real
  {}

  /** RSI's averages: the mean of the first `period` moves, then geometric weights on all that follow. */
  lemma {:induction false} WilderClosedForm(period: nat, moves: seq<real>)
    requires period >= 1
    ensures |moves| <= period ==> Wilder(period, moves) == Sum(moves) / period as real
    ensures |moves| >= period ==> Wilder(period, moves) == SmoothedFrom(period, moves)
  {
    hide WilderStep, SmoothedFrom;
    if |moves| == 0 {
      assert 0.0 / period as real == 0.0;
    } else {
      var ys, m := moves[..|moves| - 1], moves[|moves| - 1];
      WilderClosedForm(period, ys);
      if |moves| <= period {
        AverageStep(period, |ys|, Sum(ys), m);
        if |moves| == period { SmoothedAtSeed(period, moves); }
      } else {
        SmoothedPush(period, ys, m);
        assert moves == ys + [m];
      }
    }
  }

  function SmoothedFrom(period: nat, moves: seq<real>): real
    requires 1 <= period <= |moves|
  {
    Combine(period, Pow(Decay(period), |moves| - period), Sum(moves[..period]) / period as real,
            Weighted(Decay(period), moves[period..]))
  }

  lemma SmoothedAtSeed(period: nat, moves: seq<real>)
    requires 1 <= period == |moves|
    ensures SmoothedFrom(period, moves) == Sum(moves) / period as real
  {
    assert moves[..period] == moves && moves[period..] == [];
    assert Pow(Decay(period), 0) == 1.0;
    assert 0.0 / period as real == 0.0;
  }

  lemma SmoothedPush(period: nat, ys: seq<real>, m: real)
    requires 1 <= period <= |ys|
    ensures SmoothedFrom(period, ys + [m]) == WilderStep(period, |ys|, SmoothedFrom(period, ys), m)
  {
    hide Decay, WilderStep, Weighted, Combine;
    var moves := ys + [m];
    assert moves[period..] == ys[period..] + [m] && moves[..period] == ys[..period];
    WeightedPush(Decay(period), ys[period..], m);
    SmoothStep(period, |ys|, Pow(Decay(period), |ys| - period), Pow(Decay(period), |moves| - period),
               Sum(ys[..period]) / period as real,
               Weighted(Decay(period), ys[period..]), Weighted(Decay(period), moves[period..]), m);
  }

  // ---- RSI: range, reflection, scaling ----

  lemma QuotientIs(x: real, y: real, q: real)
    requires y != 0.0 && q * y == x
    ensures x / y == q
  {}

  lemma QuotientTimes(x: real, y: real)
    requires y != 0.0
    ensures x / y * y == x
  {}

  lemma EqualProducts(y: real, p: real, q: real)
    requires y > 0.0 && p * y == q * y
    ensures p == q
  {
    QuotientIs(p * y, y, p);
    QuotientIs(q * y, y, q);
  }

  /** With `r` the gain per loss and `g` the gain per move, 100 over `1 + r` is what is left of 100 after `g`. */
  lemma ShareCancels(gain: real, loss: real, r: real, g: real)
    requires loss > 0.0 && r * loss == gain && g * (gain + loss) == gain
    ensures (100.0 - 100.0 * g) * (1.0 + r) == 100.0
  {
    var p := (100.0 - 100.0 * g) * (1.0 + r);
    assert (1.0 + r) * loss == gain + loss;
    assert p * loss == (100.0 - 100.0 * g) * ((1.0 + r) * loss);
    assert (100.0 - 100.0 * g) * (gain + loss) == 100.0 * (gain + loss) - 100.0 * (g * (gain + loss));
    EqualProducts(loss, p, 100.0);
  }

  lemma RsiFromShare(r: real, left: real)
    requires r >= 0.0 && left * (1.0 + r) == 100.0
    ensures 100.0 - 100.0 / (1.0 + r) == 100.0 - left
  {
    QuotientIs(100.0, 1.0 + r, left);
  }

  lemma QuotientNonnegative(x: real, y: real)
    requires x >= 0.0 && y > 0.0
    ensures x / y >= 0.0
  {
    var q := x / y;
    assert q * y == x;
    if q < 0.0 { ProductNonnegative(-q, y); }
  }

  /** The share of the average gain in the average move. */
  lemma RsiIsShare(gain: real, loss: real)
    requires gain >= 0.0 && loss >= 0.0 && gain + loss > 0.0
    ensures RsiFrom(gain, loss) == 100.0 * (gain / (gain + loss))
  {
    if loss > 0.0 {
      var r, g := gain / loss, gain / (gain + loss);
      QuotientNonnegative(gain, loss);
      QuotientTimes(gain, loss);
      QuotientTimes(gain, gain + loss);
      ShareCancels(gain, loss, r, g);
      RsiFromShare(r, 100.0 - 100.0 * g);
    }
  }

  lemma RsiInRange(gain: real, loss: real)
    requires gain >= 0.0 && loss >= 0.0
    ensures 0.0 <= RsiFrom(gain, loss) <= 100.0
  {
    if gain + loss > 0.0 {
      RsiIsShare(gain, loss);
      assert gain / (gain + loss) >= 0.0 && loss / (gain + loss) >= 0.0;
      assert gain / (gain + loss) + loss / (gain + loss) == 1.0;
    }
  }

  lemma RsiSwap(gain: real, loss: real)
    requires gain >= 0.0 && loss >= 0.0
    ensures RsiFrom(loss, gain) == 100.0 - RsiFrom(gain, loss)
  {
    if gain + loss > 0.0 {
      RsiIsShare(gain, loss);
      RsiIsShare(loss, gain);
      assert gain / (gain + loss) + loss / (gain + loss) == 1.0;
    }
  }

  lemma RsiScale(a: real, gain: real, loss: real)
    requires a > 0.0 && gain >= 0.0 && loss >= 0.0
    ensures Times(a, gain) >= 0.0 && Times(a, loss) >= 0.0
    ensures RsiFrom(Times(a, gain), Times(a, loss)) == RsiFrom(gain, loss)
  {
    ScaleNonnegative(a, gain);
    ScaleNonnegative(a, loss);
    if gain + loss > 0.0 {
      var s := gain + loss;
      assert a * s > 0.0 && a * gain + a * loss == a * s;
      RsiIsShare(gain, loss);
      RsiIsShare(a * gain, a * loss);
      assert (a * gain) / (a * s) == gain / s by { CancelFactor(a, gain, s); }
    } else {
      assert gain == 0.0 && loss == 0.0;
    }
  }

  lemma ScaleNonnegative(a: real, x: real)
    requires a > 0.0 && x >= 0.0
    ensures a * x >= 0.0
  {}

  lemma CancelFactor(a: real, x: real, s: real)
    requires a != 0.0 && s != 0.0
    ensures a * s != 0.0 && (a * x) / (a * s) == x / s
  {
    var q := x / s;
    assert q * s == x;
    assert q * (a * s) == a * x;
  }

  function Times(a: real, x: real): real { a * x }
  function AffineAt(a: real, b: real, x: real): real { a * x + b }

  function Affine(a: real, b: real, xs: seq<real>): (ys: seq<real>)
    ensures |ys| == |xs| && forall i :: 0 <= i < |xs| ==> ys[i] == AffineAt(a, b, xs[i])
  {
    Map((x: real) => AffineAt(a, b, x), xs)
  }

  function Scale(a: real, xs: seq<real>): (ys: seq<real>)
    ensures |ys| == |xs| && forall i :: 0 <= i < |xs| ==> ys[i] == Times(a, xs[i])
  {
    Map((x: real) => Times(a, x), xs)
  }

  lemma PositiveScale(a: real, d: real)
    ensures a > 0.0 ==>
      Positive(Times(a, d)) == Times(a, Positive(d)) && Positive(-Times(a, d)) == Times(a, Positive(-d))
    ensures a < 0.0 ==>
      Positive(Times(a, d)) == Times(-a, Positive(-d)) && Positive(-Times(a, d)) == Times(-a, Positive(d))
  {}

  lemma AffineMove(a: real, b: real, x: real, y: real)
    ensures AffineAt(a, b, y) - AffineAt(a, b, x) == Times(a, y - x)
  {}

  /** A positive factor scales the moves; a negative one also exchanges gains and losses. */
  lemma AffineMoves(a: real, b: real, xs: seq<real>)
    ensures a > 0.0 ==>
      Gains(Affine(a, b, xs)) == Scale(a, Gains(xs)) && Losses(Affine(a, b, xs)) == Scale(a, Losses(xs))
    ensures a < 0.0 ==>
      Gains(Affine(a, b, xs)) == Scale(-a, Losses(xs)) && Losses(Affine(a, b, xs)) == Scale(-a, Gains(xs))
  {
    hide Positive, Affine, Scale, Times, AffineAt, Gains, Losses;
    var ys := Affine(a, b, xs);
    forall i | 0 <= i < |Gains(xs)|
      ensures a > 0.0 ==> Gains(ys)[i] == Times(a, Gains(xs)[i]) && Losses(ys)[i] == Times(a, Losses(xs)[i])
      ensures a < 0.0 ==> Gains(ys)[i] == Times(-a, Losses(xs)[i]) && Losses(ys)[i] == Times(-a, Gains(xs)[i])
    {
      AffineMove(a, b, xs[i], xs[i + 1]);
      PositiveScale(a, xs[i + 1] - xs[i]);
    }
  }

  lemma WilderStepScale(a: real, period: nat, seen: nat, before: real, m: real)
    requires period >= 1
    ensures WilderStep(period, seen, Times(a, before), Times(a, m)) == Times(a, WilderStep(period, seen, before, m))
  {
    var n := period as real;
    assert (a * m) / n == a * (m / n);
    var t := before * (n - 1.0) + m;
    assert a * before * (n - 1.0) + a * m == a * t;
    assert (a * t) / n == a * (t / n);
  }

  lemma TimesZero(a: real)
    ensures Times(a, 0.0) == 0.0
  {}

  lemma {:induction false} WilderScale(a: real, period: nat, moves: seq<real>)
    requires period >= 1
    ensures Wilder(period, Scale(a, moves)) == Times(a, Wilder(period, moves))
  {
    hide WilderStep, Times, Scale;
    if moves == [] {
      TimesZero(a);
    } else {
      var n := |moves| - 1;
      WilderScale(a, period, moves[..n]);
      assert Scale(a, moves)[..n] == Scale(a, moves[..n]);
      WilderStepScale(a, period, n, Wilder(period, moves[..n]), moves[n]);
    }
  }

  /** Over every price history: a positive affine change of prices leaves RSI unchanged, and a negative one
      (reflection included) turns `v` into `100 - v`. */
  lemma RsiAffine(period: nat, a: real, b: real, xs: seq<real>)
    requires period >= 1 && a != 0.0
    ensures var v, w := RsiOf(period, xs), RsiOf(period, Affine(a, b, xs));
      if v == None then w == None
      else w == Some(if a > 0.0 then v.value else 100.0 - v.value)
  {
    hide Wilder, Gains, Losses, RsiFrom, Scale, Affine, Times;
    AffineMoves(a, b, xs);
    var c := if a > 0.0 then a else -a;
    WilderScale(c, period, Gains(xs));
    WilderScale(c, period, Losses(xs));
    var gain, loss := AvgGain(period, xs), AvgLoss(period, xs);
    RsiScale(c, gain, loss);
    RsiScale(c, loss, gain);
    RsiSwap(gain, loss);
  }

  /** Every RSI lies in 0..100. */
  lemma RsiBounded(period: nat, xs: seq<real>)
    requires period >= 1 && |xs| > period
    ensures RsiOf(period, xs).Some? && 0.0 <= RsiOf(period, xs).value <= 100.0
  {
    RsiInRange(AvgGain(period, xs), AvgLoss(period, xs));
  }

  // ---- RSI of a whole history ----

  /** RSI read off a history: none up to `period` prices; then the share of the smoothed gains in all smoothed moves,
      and 50 when there are none. */
  lemma RsiReadsHistory(period: nat, xs: seq<real>)
    requires period >= 1
    ensures RsiOf(period, xs) == None <==> |xs| <= period
    ensures |xs| > period ==>
      var g, l, v := SmoothedFrom(period, Gains(xs)), SmoothedFrom(period, Losses(xs)), RsiOf(period, xs).value;
      && g >= 0.0 && l >= 0.0
      && (if g + l > 0.0 then v * (g + l) == 100.0 * g else v == 50.0)
  {
    hide SmoothedFrom, Wilder, Gains, Losses;
    if |xs| > period {
      WilderClosedForm(period, Gains(xs));
      WilderClosedForm(period, Losses(xs));
      var g, l := AvgGain(period, xs), AvgLoss(period, xs);
      if g + l > 0.0 {
        hide RsiFrom;
        RsiIsShare(g, l);
        ShareTimes(g, g + l);
      }
    }
  }

  lemma ShareTimes(g: real, s: real)
    requires s != 0.0
    ensures 100.0 * (g / s) * s == 100.0 * g
  {
    QuotientTimes(g, s);
  }

  predicate NeverFalls(xs: seq<real>) { forall i :: 0 <= i < |xs| - 1 ==> xs[i] <= xs[i + 1] }

  /** A rise that the averages still hold: any one, or with a period of 1 the latest. */
  predicate RiseCounts(period: nat, xs: seq<real>) {
    exists i :: 0 <= i < |xs| - 1 && xs[i] < xs[i + 1] && (period >= 2 || i == |xs| - 2)
  }

  lemma {:induction false} WilderOfZeros(period: nat, moves: seq<real>)
    requires period >= 1 && forall i :: 0 <= i < |moves| ==> moves[i] == 0.0
    ensures Wilder(period, moves) == 0.0
  {
    if moves == [] {
    } else {
      WilderOfZeros(period, moves[..|moves| - 1]);
    }
  }

  predicate MoveCounts(period: nat, moves: seq<real>) {
    exists i :: 0 <= i < |moves| && moves[i] > 0.0 && (period >= 2 || i == |moves| - 1)
  }

  lemma WilderStepPositive(period: nat, seen: nat, a: real, m: real)
    requires period >= 1 && a >= 0.0 && m >= 0.0
    ensures WilderStep(period, seen, a, m) > 0.0 <==> m > 0.0 || (a > 0.0 && (period >= 2 || seen < period))
  {
    var n := period as real;
    if seen < period {
      QuotientPositive(m, n);
    } else {
      if period >= 2 && a > 0.0 { ProductIsPositive(a, n - 1.0); }
      if a >= 0.0 { ProductNonnegative(a, n - 1.0); }
      QuotientPositive(a * (n - 1.0) + m, n);
    }
  }

  lemma QuotientPositive(x: real, y: real)
    requires x >= 0.0 && y > 0.0
    ensures x / y > 0.0 <==> x > 0.0
    ensures x / y >= 0.0
  {
    QuotientTimes(x, y);
    QuotientNonnegative(x, y);
    var q := x / y;
    if q > 0.0 { ProductIsPositive(q, y); }
  }

  lemma ProductIsPositive(x: real, y: real)
    requires x > 0.0 && y > 0.0
    ensures x * y > 0.0
  {}

  lemma {:induction false} WilderPositive(period: nat, moves: seq<real>)
    requires period >= 1 && forall i :: 0 <= i < |moves| ==> moves[i] >= 0.0
    ensures Wilder(period, moves) > 0.0 <==> MoveCounts(period, moves)
  {
    hide WilderStep;
    if moves == [] {
    } else {
      var ys, m := moves[..|moves| - 1], moves[|moves| - 1];
      WilderPositive(period, ys);
      WilderNonnegative(period, ys);
      WilderStepPositive(period, |ys|, Wilder(period, ys), m);
      CountsPush(period, ys, m);
      assert moves == ys + [m];
    }
  }

  lemma CountsPush(period: nat, ys: seq<real>, m: real)
    requires period >= 1
    ensures MoveCounts(period, ys + [m]) <==> m > 0.0 || (period >= 2 && MoveCounts(period, ys))
    ensures period == 1 && |ys| < period ==> !MoveCounts(period, ys)
  {
    var all := ys + [m];
    assert all[|ys|] == m;
    assert forall i :: 0 <= i < |ys| ==> all[i] == ys[i];
  }

  /** A history that never falls has RSI 100 when a rise still counts and 50 when none does. */
  lemma RsiOfNeverFalling(period: nat, xs: seq<real>)
    requires period >= 1 && |xs| > period && NeverFalls(xs)
    ensures RsiOf(period, xs) == Some(if RiseCounts(period, xs) then 100.0 else 50.0)
  {
    hide Wilder;
    var gains, losses := Gains(xs), Losses(xs);
    WilderOfZeros(period, losses);
    MovesNonnegative(xs);
    WilderPositive(period, gains);
    RisesAreGains(period, xs);
  }

  lemma RisesAreGains(period: nat, xs: seq<real>)
    ensures RiseCounts(period, xs) <==> MoveCounts(period, Gains(xs))
  {
    var g := Gains(xs);
    if RiseCounts(period, xs) {
      var i :| 0 <= i < |xs| - 1 && xs[i] < xs[i + 1] && (period >= 2 || i == |xs| - 2);
      assert g[i] > 0.0;
    }
    if MoveCounts(period, g) {
      var i :| 0 <= i < |g| && g[i] > 0.0 && (period >= 2 || i == |g| - 1);
      assert xs[i] < xs[i + 1];
    }
  }

  /** Its mirror image has RSI 0, or 50. */
  lemma RsiOfNeverRising(period: nat, xs: seq<real>)
    requires period >= 1 && |xs| > period && NeverFalls(xs)
    ensures RsiOf(period, Affine(-1.0, 0.0, xs)) == Some(if RiseCounts(period, xs) then 0.0 else 50.0)
  {
    hide RsiOf, Affine, RiseCounts;
    RsiOfNeverFalling(period, xs);
    RsiAffine(period, -1.0, 0.0, xs);
  }

  // ---- Means and bands of a whole history ----

  /** The window holds the newest values, in order. */
  lemma WindowHoldsNewest<T>(xs: seq<T>, n: nat)
    ensures var w := Window(xs, n);
      && |w| == (if |xs| < n then |xs| else n)
      && forall i :: 0 <= i < |w| ==> w[i] == xs[|xs| - |w| + i]
  {}

  /** The moving average: none before `period` values, then `period` of it make up the sum of the newest `period`. */
  lemma SmaReadsHistory(period: nat, xs: seq<real>)
    requires period >= 1
    ensures SmaOf(period, xs) == None <==> |xs| < period
    ensures |xs| >= period ==> SmaOf(period, xs).value * period as real == Sum(xs[|xs| - period..])
  {
    if |xs| >= period {
      assert Window(xs, period) == xs[|xs| - period..];
      QuotientTimes(Sum(Window(xs, period)), period as real);
    }
  }

  /** The exponential average, in whole numbers: twice the new value and `period - 1` of the old average make up
      `period + 1` of the new one. */
  lemma EmaStep(period: nat, xs: seq<real>, v: real)
    requires period >= 1
    ensures xs == [] ==> Ema(Smoothing(period), [v]) == v
    ensures xs != [] ==>
      Ema(Smoothing(period), xs + [v]) * (period + 1) as real
      == 2.0 * v + (period - 1) as real * Ema(Smoothing(period), xs)
  {
    var k, n := Smoothing(period), (period + 1) as real;
    QuotientTimes(2.0, n);
    assert k * n == 2.0;
    EmaPush(k, xs, v);
    if xs != [] {
      BlendTimes(k, n, v, Ema(k, xs));
    }
  }

  lemma BlendTimes(k: real, n: real, v: real, e: real)
    requires k * n == 2.0
    ensures Blend(k, v, e) * n == 2.0 * v + (n - 2.0) * e
  {
    assert v * k * n == v * (k * n);
    assert e * (1.0 - k) * n == e * n - e * (k * n);
  }

  /** The volume-weighted price: none at zero quantity, otherwise times the quantity it makes up the value. */
  lemma VwapBalances(ticks: seq<Tick>)
    ensures VwapOf(ticks) == None <==> SumQ(ticks) == 0
    ensures VwapOf(ticks).Some? ==> VwapOf(ticks).value * SumQ(ticks) as real == SumPq(ticks)
  {
    hide SumPq, SumQ;
    if SumQ(ticks) != 0 { QuotientTimes(SumPq(ticks), SumQ(ticks) as real); }
  }
}
