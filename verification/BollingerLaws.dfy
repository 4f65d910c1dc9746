/** How far a price can sit outside its own bands: Samuelson's inequality and its consequences. */
module BollingerLaws {
  import opened Collections
  import opened Indicators
  import opened RealSeqs

  function Square(x: real): real { x * x }

  function SumSq(s: seq<real>): real {
    if s == [] then 0.0 else SumSq(s[..|s| - 1]) + Square(s[|s| - 1])
  }

  function Deviations(xs: seq<real>, m: real): (d: seq<real>)
    ensures |d| == |xs| && forall i :: 0 <= i < |xs| ==> d[i] == xs[i] - m
  {
    Map((x: real) => x - m, xs)
  }

  lemma SquareNonnegative(x: real)
    ensures Square(x) >= 0.0
    ensures x != 0.0 ==> Square(x) > 0.0
  {
    if x > 0.0 {
      ProductPositive(x, x, Square(x));
    } else if x < 0.0 {
      ProductPositive(-x, -x, Square(x));
    }
  }

  lemma ProductPositive(x: real, y: real, p: real)
    requires x > 0.0 && y > 0.0 && p == x * y
    ensures p > 0.0
  {}

  // ---- Cauchy-Schwarz against the constant sequence ----

  lemma CauchyStep(n: real, s: real, q: real, x: real)
    requires n >= 1.0 && Square(s) <= n * q
    ensures Square(s + x) <= (n + 1.0) * (q + Square(x))
  {
    var t := s - n * x;
    SquareNonnegative(t);
    assert Square(t) == Square(s) - 2.0 * n * (s * x) + n * n * Square(x) by {
      assert n * x * (n * x) == n * n * Square(x);
      assert s * (n * x) == n * (s * x);
    }
    assert n * (2.0 * (s * x)) <= n * (q + n * Square(x)) by {
      assert n * (q + n * Square(x)) == n * q + n * n * Square(x);
    }
    CancelLeq(n, 2.0 * (s * x), q + n * Square(x));
    assert Square(s + x) == Square(s) + 2.0 * (s * x) + Square(x);
  }

  lemma CancelLeq(n: real, x: real, y: real)
    requires n > 0.0 && n * x <= n * y
    ensures x <= y
  {
    if x > y { ProductPositive(n, x - y, n * (x - y)); }
  }

  lemma {:induction false} SquareOfSum(s: seq<real>)
    ensures Square(Sum(s)) <= |s| as real * SumSq(s)
  {
    if |s| == 1 {
      assert s[..0] == [];
    } else if |s| > 1 {
      var n := |s| - 1;
      SquareOfSum(s[..n]);
      CauchyStep(n as real, Sum(s[..n]), SumSq(s[..n]), s[n]);
    }
  }

  // ---- Deviations from the mean ----

  lemma {:induction false} SumDeviations(xs: seq<real>, m: real)
    ensures Sum(Deviations(xs, m)) == Sum(xs) - |xs| as real * m
    ensures SumSq(Deviations(xs, m)) == Sum(SquaredDeviations(xs, m))
  {
    if xs == [] {
      assert 0.0 * m == 0.0;
    } else {
      var n := |xs| - 1;
      hide Square;
      assert SquaredDeviations(xs, m)[n] == Square(xs[n] - m) by { SquareIs(xs[n] - m); }
      SumDeviations(xs[..n], m);
      assert Deviations(xs, m)[..n] == Deviations(xs[..n], m);
      assert SquaredDeviations(xs, m)[..n] == SquaredDeviations(xs[..n], m);
      assert |xs| as real * m == n as real * m + m;
    }
  }

  lemma SquareIs(x: real)
    ensures x * x == Square(x)
  {}

  /** n times the variance is the sum of squared deviations, and the deviations add up to nothing. */
  lemma MeanDeviations(xs: seq<real>)
    requires xs != []
    ensures Sum(Deviations(xs, Mean(xs))) == 0.0
    ensures SumSq(Deviations(xs, Mean(xs))) == |xs| as real * Variance(xs)
  {
    hide Deviations, SquaredDeviations, Sum, SumSq;
    var n, m := |xs| as real, Mean(xs);
    SumDeviations(xs, m);
    QuotientBack(Sum(xs), n);
    QuotientBack(Sum(SquaredDeviations(xs, m)), n);
  }

  lemma SamuelsonArithmetic(n: real, d: real, rest: real, v: real)
    requires n >= 1.0 && Square(d) <= (n - 1.0) * rest && rest + Square(d) == n * v
    ensures Square(d) <= (n - 1.0) * v
  {
    assert (n - 1.0) * rest == (n - 1.0) * (n * v) - (n - 1.0) * Square(d);
    assert (n - 1.0) * (n * v) == n * ((n - 1.0) * v);
    assert (n - 1.0) * Square(d) == n * Square(d) - Square(d);
    CancelLeq(n, Square(d), (n - 1.0) * v);
  }

  /** Samuelson's inequality for the newest value of a window. */
  lemma Samuelson(xs: seq<real>)
    requires xs != []
    ensures Square(xs[|xs| - 1] - Mean(xs)) <= (|xs| - 1) as real * Variance(xs)
  {
    hide Mean, Variance, Square;
    var n := |xs| - 1;
    var d := Deviations(xs, Mean(xs));
    MeanDeviations(xs);
    SquareOfSum(d[..n]);
    assert Sum(d[..n]) == -d[n];
    SquareNegate(d[n]);
    SamuelsonArithmetic(|xs| as real, d[n], SumSq(d[..n]), Variance(xs));
  }

  lemma SquareNegate(x: real)
    ensures Square(-x) == Square(x)
  {}

  // ---- Variance and flat windows ----

  predicate Flat(xs: seq<real>) { forall i, j :: 0 <= i < j < |xs| ==> xs[i] == xs[j] }

  lemma {:induction false} SumSqNonnegative(s: seq<real>)
    ensures SumSq(s) >= 0.0
    ensures SumSq(s) == 0.0 <==> forall i :: 0 <= i < |s| ==> s[i] == 0.0
  {
    if s == [] {
    } else {
      var n := |s| - 1;
      SumSqNonnegative(s[..n]);
      SquareNonnegative(s[n]);
      assert forall i :: 0 <= i < n ==> s[i] == s[..n][i];
    }
  }

  lemma {:induction false} FlatSum(xs: seq<real>, c: real)
    requires forall i :: 0 <= i < |xs| ==> xs[i] == c
    ensures Sum(xs) == |xs| as real * c
  {
    if xs == [] {
    } else {
      FlatSum(xs[..|xs| - 1], c);
      assert |xs| as real * c == (|xs| - 1) as real * c + c;
    }
  }

  lemma CancelFactor(n: real, x: real)
    requires n > 0.0
    ensures n * x / n == x
    ensures n * x == 0.0 <==> x == 0.0
    ensures n * x >= 0.0 ==> x >= 0.0
  {
    if x < 0.0 { assert n * x < 0.0; }
    if x > 0.0 { assert n * x > 0.0; }
  }

  /** The variance is nonnegative, and zero exactly for a flat window. */
  lemma VarianceZeroIffFlat(xs: seq<real>)
    requires xs != []
    ensures Variance(xs) >= 0.0
    ensures Variance(xs) == 0.0 <==> Flat(xs)
  {
    hide Mean, Variance;
    var n, m := |xs| as real, Mean(xs);
    var d := Deviations(xs, m);
    MeanDeviations(xs);
    SumSqNonnegative(d);
    CancelFactor(n, Variance(xs));
    if Flat(xs) {
      FlatSum(xs, xs[0]);
      MeanOfSum(xs, xs[0]);
    }
    if Variance(xs) == 0.0 {
      assert n * Variance(xs) == 0.0;
      assert forall i :: 0 <= i < |xs| ==> d[i] == 0.0;
    }
  }

  lemma MeanOfSum(xs: seq<real>, c: real)
    requires xs != [] && Sum(xs) == |xs| as real * c
    ensures Mean(xs) == c
  {
    CancelFactor(|xs| as real, c);
  }

  // ---- Percent B ----

  /** `root` is the nonnegative square root wherever a variance can fall. */
  ghost predicate IsRoot(root: real -> real) {
    forall v :: v >= 0.0 ==> root(v) >= 0.0 && Square(root(v)) == v
  }

  /** Scaled by four squared band widths, the squared offset is the squared deviation in units of variance. */
  lemma PctBScaled(k: real, s: real, d: real, y: real)
    requires y * (2.0 * (k * s)) == d
    ensures Square(d) == Square(y) * (4.0 * Square(k)) * Square(s)
  {
    var u := k * s;
    assert Square(2.0 * u) == 4.0 * Square(k) * Square(s) by { assert u * u == Square(k) * Square(s); }
    SquareProduct(y, 2.0 * u);
    assert Square(y) * (4.0 * Square(k) * Square(s)) == Square(y) * (4.0 * Square(k)) * Square(s);
  }

  lemma SquareProduct(x: real, y: real)
    ensures Square(x * y) == Square(x) * Square(y)
  {}

  lemma PctBOffset(last: real, mean: real, k: real, s: real)
    requires k > 0.0 && s > 0.0
    ensures 2.0 * (k * s) > 0.0
    ensures ((last - (mean - k * s)) / ((mean + k * s) - (mean - k * s)) - 0.5) * (2.0 * (k * s)) == last - mean
  {
    var u := k * s;
    assert u > 0.0;
    var q := (last - mean + u) / (2.0 * u);
    assert q * (2.0 * u) == last - mean + u;
  }

  /** Percent B of a window that is not flat, in terms of the newest value's deviation. */
  lemma PctBIsDeviation(period: nat, numStd: real, xs: seq<real>, root: real -> real)
    requires 1 <= period <= |xs| && numStd > 0.0 && IsRoot(root) && !Flat(Window(xs, period))
    ensures var b, w := BandsOf(period, numStd, xs, root).value, Window(xs, period);
      && b.lower < b.middle < b.upper && Variance(w) > 0.0
      && Square(w[period - 1] - Mean(w)) == Square(b.pctB - 0.5) * (4.0 * Square(numStd)) * Variance(w)
      && (w[period - 1] > Mean(w) ==> b.pctB > 0.5)
  {
    hide Mean, Variance, Square, Flat;
    var w := Window(xs, period);
    var v, m, last := Variance(w), Mean(w), w[period - 1];
    var s := root(v);
    VarianceZeroIffFlat(w);
    assert s >= 0.0 && Square(s) == v;
    SquareZero();
    assert s > 0.0;
    PctBOffset(last, m, numStd, s);
    var y := BandsOf(period, numStd, xs, root).value.pctB - 0.5;
    PctBScaled(numStd, s, last - m, y);
    if y <= 0.0 {
      NonpositiveProduct(y, 2.0 * (numStd * s), last - m);
    }
  }

  lemma NonpositiveProduct(x: real, y: real, p: real)
    requires x <= 0.0 && y > 0.0 && p == x * y
    ensures p <= 0.0
  {}

  /** For every full window: the spread is zero exactly when the window is flat, and otherwise percent B obeys
      `(pctB - 1/2)^2 * 4 * numStd^2 <= period - 1`. */
  lemma PctBBound(period: nat, numStd: real, xs: seq<real>, root: real -> real)
    requires 1 <= period <= |xs| && numStd > 0.0 && IsRoot(root)
    ensures var b := BandsOf(period, numStd, xs, root).value;
      && (b.upper == b.lower <==> Flat(Window(xs, period)))
      && (if b.upper == b.lower then b.pctB == 0.5
          else Square(b.pctB - 0.5) * (4.0 * Square(numStd)) <= (period - 1) as real)
  {
    hide Mean, Variance, Square, Flat;
    var w := Window(xs, period);
    VarianceZeroIffFlat(w);
    if Flat(w) {
      SquareNonnegative(root(Variance(w)));
      assert numStd * root(Variance(w)) == 0.0;
    } else {
      PctBIsDeviation(period, numStd, xs, root);
      Samuelson(w);
      CancelLeq(Variance(w), Square(BandsOf(period, numStd, xs, root).value.pctB - 0.5) * (4.0 * Square(numStd)),
                (period - 1) as real);
    }
  }

  lemma SquareZero()
    ensures Square(0.0) == 0.0
  {}

  // ---- The bound is attained ----

  /** A window of zeros that ends in a single one. */
  function Spike(n: nat): (w: seq<real>)
    requires n >= 1
    ensures |w| == n
  {
    seq(n - 1, _ => 0.0) + [1.0]
  }

  lemma SpikeMoments(n: nat)
    requires n >= 2
    ensures var w, r := Spike(n), n as real;
      && Mean(w) == 1.0 / r && n as real * Variance(w) == (r - 1.0) * Square(1.0 / r) + Square(1.0 - 1.0 / r)
  {
    hide Square;
    var w, r := Spike(n), n as real;
    FlatSum(w[..n - 1], 0.0);
    assert Sum(w) == 1.0;
    var m := 1.0 / r;
    var dev := SquaredDeviations(w, m);
    assert forall i :: 0 <= i < n - 1 ==> dev[i] == Square(m) by { SpikeDeviation(n, m); }
    FlatSum(dev[..n - 1], Square(m));
    SpikeDeviation(n, m);
    assert Sum(dev) == (r - 1.0) * Square(m) + Square(1.0 - m);
    assert r * (Sum(dev) / r) == Sum(dev);
  }

  lemma SpikeDeviation(n: nat, m: real)
    requires n >= 2
    ensures forall i :: 0 <= i < n - 1 ==> SquaredDeviations(Spike(n), m)[i] == Square(m)
    ensures SquaredDeviations(Spike(n), m)[n - 1] == Square(1.0 - m)
  {}

  /** Samuelson's bound cannot be improved: the spike attains it with a positive variance. */
  lemma SamuelsonIsTight(n: nat)
    requires n >= 2
    ensures var w := Spike(n);
      && Square(w[n - 1] - Mean(w)) == (n - 1) as real * Variance(w)
      && Variance(w) > 0.0
  {
    hide Mean, Variance;
    var w, r := Spike(n), n as real;
    SpikeMoments(n);
    var m, v := 1.0 / r, Variance(w);
    assert r * m == 1.0;
    var d := 1.0 - m;
    assert d == (r - 1.0) * m by { assert (r - 1.0) * m == r * m - m; }
    TightArithmetic(r, m, v);
  }

  lemma TightArithmetic(r: real, m: real, v: real)
    requires r >= 2.0 && r * m == 1.0 && r * v == (r - 1.0) * Square(m) + Square(1.0 - m)
    ensures Square(1.0 - m) == (r - 1.0) * v && v > 0.0
  {
    var d := 1.0 - m;
    assert d == (r - 1.0) * m;
    assert Square(d) == (r - 1.0) * ((r - 1.0) * Square(m));
    assert r * v == (r - 1.0) * Square(m) + (r - 1.0) * ((r - 1.0) * Square(m));
    assert r * v == (r - 1.0) * (r * Square(m));
    assert (r - 1.0) * (r * Square(m)) == r * ((r - 1.0) * Square(m));
    SameFactor(r, v, (r - 1.0) * Square(m));
    assert m > 0.0;
    assert Square(m) > 0.0;
  }

  lemma SameFactor(r: real, x: real, y: real)
    requires r > 0.0 && r * x == r * y
    ensures x == y
  {
    if x < y { ProductPositive(r, y - x, r * (y - x)); } else if y < x { ProductPositive(r, x - y, r * (x - y)); }
  }

  // ---- The bands of a whole history ----

  /** The bands read off a history: none before `period` prices; then the middle is the mean of the newest `period`,
      upper and lower lie `numStd` standard deviations from it, and the bandwidth is their distance in units of the
      middle, or 0 when that is 0. */
  lemma BandsReadHistory(period: nat, numStd: real, xs: seq<real>, root: real -> real)
    requires period >= 1 && numStd >= 0.0 && IsRoot(root)
    ensures BandsOf(period, numStd, xs, root) == None <==> |xs| < period
    ensures |xs| >= period ==>
      var b, w := BandsOf(period, numStd, xs, root).value, xs[|xs| - period..];
      && b.middle * period as real == Sum(w)
      && b.upper - b.middle == b.middle - b.lower >= 0.0
      && Square(b.upper - b.middle) * period as real == Square(numStd) * SumSq(Deviations(w, b.middle))
      && (if b.middle == 0.0 then b.bandwidth == 0.0 else b.bandwidth * b.middle == b.upper - b.lower)
  {
    hide Mean, Variance, Square, Sum, SumSq, BandsFrom, Spread, Deviations;
    if |xs| >= period {
      var w := Window(xs, period);
      assert w == xs[|xs| - period..];
      BandParts(w, numStd, root(Variance(w)));
      MeanTimes(w);
      MeanDeviations(w);
      VarianceZeroIffFlat(w);
      SpreadSquared(numStd, root(Variance(w)), Variance(w), period as real);
      SpreadNonnegative(numStd, root(Variance(w)));
    }
  }

  function Spread(numStd: real, sd: real): real { numStd * sd }

  lemma BandParts(w: seq<real>, numStd: real, sd: real)
    requires w != []
    ensures var b := BandsFrom(w, numStd, sd);
      && b.middle == Mean(w) && b.upper - b.middle == Spread(numStd, sd) == b.middle - b.lower
      && (if b.middle == 0.0 then b.bandwidth == 0.0 else b.bandwidth * b.middle == b.upper - b.lower)
  {
    hide Mean;
    var b := BandsFrom(w, numStd, sd);
    if b.middle != 0.0 { QuotientBack(b.upper - b.lower, b.middle); }
  }

  lemma MeanTimes(xs: seq<real>)
    requires xs != []
    ensures Mean(xs) * |xs| as real == Sum(xs)
  {
    hide Sum;
    QuotientBack(Sum(xs), |xs| as real);
  }

  lemma QuotientBack(x: real, y: real)
    requires y != 0.0
    ensures x / y * y == x
  {}

  lemma SpreadNonnegative(k: real, s: real)
    requires k >= 0.0 && s >= 0.0
    ensures Spread(k, s) >= 0.0
  {}

  lemma SpreadSquared(k: real, s: real, v: real, n: real)
    requires Square(s) == v
    ensures Square(Spread(k, s)) * n == Square(k) * (n * v)
  {
    hide Square;
    SquareProduct(k, s);
    Regroup(Square(k), v, n);
  }

  lemma Regroup(a: real, v: real, n: real)
    ensures a * v * n == a * (n * v)
  {}
}
