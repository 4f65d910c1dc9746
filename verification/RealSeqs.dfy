/** Sums, sums over sliding windows and weighted sums of real sequences. */
module RealSeqs {
  import opened Collections

  function Sum(s: seq<real>): real {
    if s == [] then 0.0 else Sum(s[..|s| - 1]) + s[|s| - 1]
  }

  function Pow(q: real, n: nat): real {
    if n == 0 then 1.0 else q * Pow(q, n - 1)
  }

  /** The sum of `q^(|xs| - 1 - i) * xs[i]`: each element weighted by its age. */
  function Weighted(q: real, xs: seq<real>): real {
    if xs == [] then 0.0 else Pow(q, |xs| - 1) * xs[0] + Weighted(q, xs[1..])
  }

  function Map(f: real -> real, xs: seq<real>): (ys: seq<real>)
    ensures |ys| == |xs| && forall i :: 0 <= i < |xs| ==> ys[i] == f(xs[i])
  {
    seq(|xs|, i requires 0 <= i < |xs| => f(xs[i]))
  }

  lemma {:induction false} SumFront(s: seq<real>)
    requires s != []
    ensures Sum(s) == s[0] + Sum(s[1..])
  {
    if |s| == 1 {
      assert s[..0] == [] && s[1..] == [];
    } else {
      SumFront(s[..|s| - 1]);
      assert s[1..][..|s| - 2] == s[..|s| - 1][1..];
    }
  }

  lemma SumPush(s: seq<real>, v: real)
    ensures Sum(s + [v]) == Sum(s) + v
  {}

  /** Dropping the oldest of a full window and adding the newest keeps the running total exact. */
  lemma SlideSum(xs: seq<real>, v: real, n: nat)
    requires n >= 1
    ensures var w := Window(xs, n);
      Sum(Window(xs + [v], n)) == (if |w| == n then Sum(w) - w[0] else Sum(w)) + v
  {
    var w := Window(xs, n);
    if |w| == n {
      SumFront(w);
      SumPush(w[1..], v);
      assert Window(xs + [v], n) == w[1..] + [v];
    } else {
      SumPush(w, v);
      assert Window(xs + [v], n) == w + [v];
    }
  }

  lemma {:induction false} WeightedPush(q: real, xs: seq<real>, v: real)
    ensures Weighted(q, xs + [v]) == q * Weighted(q, xs) + v
  {
    if xs == [] {
      assert [v][1..] == [];
      assert Pow(q, 0) == 1.0;
    } else {
      assert (xs + [v])[1..] == xs[1..] + [v];
      WeightedPush(q, xs[1..], v);
      Distribute(q, Pow(q, |xs| - 1), xs[0], Weighted(q, xs[1..]));
    }
  }

  lemma Distribute(q: real, p: real, x: real, w: real)
    ensures q * p * x + q * w == q * (p * x + w)
  {}
}
