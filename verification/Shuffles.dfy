/** Interleavings of two sequences, and the facts that survive every interleaving. */
module Shuffles {
  import opened Collections

  /** `w` holds every element of `a` and of `b`, each in its own order, and nothing else. */
  ghost predicate IsShuffle<T>(w: seq<T>, a: seq<T>, b: seq<T>)
    decreases |w|
  {
    if w == [] then a == [] && b == []
    else
      || (a != [] && a[|a| - 1] == w[|w| - 1] && IsShuffle(w[..|w| - 1], a[..|a| - 1], b))
      || (b != [] && b[|b| - 1] == w[|w| - 1] && IsShuffle(w[..|w| - 1], a, b[..|b| - 1]))
  }

  lemma {:induction false} ShuffleExtend<T>(w: seq<T>, a: seq<T>, b: seq<T>, u: seq<T>)
    requires IsShuffle(w, a, b)
    ensures IsShuffle(w + u, a + u, b)
    ensures IsShuffle(w + u, a, b + u)
  {
    if u == [] {
      assert w + u == w && a + u == a && b + u == b;
    } else {
      var u' := u[..|u| - 1];
      ShuffleExtend(w, a, b, u');
      assert (w + u)[..|w + u| - 1] == w + u';
      assert (a + u)[..|a + u| - 1] == a + u';
      assert (b + u)[..|b + u| - 1] == b + u';
    }
  }

  /** Expanding every element keeps an interleaving an interleaving. */
  lemma {:induction false} ShuffleFlatMap<T, U>(w: seq<T>, a: seq<T>, b: seq<T>, f: T -> seq<U>)
    requires IsShuffle(w, a, b)
    ensures IsShuffle(FlatMap(w, f), FlatMap(a, f), FlatMap(b, f))
    decreases |w|
  {
    if w == [] {
    } else {
      var w', x := w[..|w| - 1], w[|w| - 1];
      if a != [] && a[|a| - 1] == x && IsShuffle(w', a[..|a| - 1], b) {
        ShuffleFlatMap(w', a[..|a| - 1], b, f);
        ShuffleExtend(FlatMap(w', f), FlatMap(a[..|a| - 1], f), FlatMap(b, f), f(x));
      } else {
        ShuffleFlatMap(w', a, b[..|b| - 1], f);
        ShuffleExtend(FlatMap(w', f), FlatMap(a, f), FlatMap(b[..|b| - 1], f), f(x));
      }
    }
  }

  lemma {:induction false} ShuffleSum(w: seq<int>, a: seq<int>, b: seq<int>)
    requires IsShuffle(w, a, b)
    ensures IntSum(w) == IntSum(a) + IntSum(b)
    decreases |w|
  {
    if w == [] {
    } else {
      var w', x := w[..|w| - 1], w[|w| - 1];
      if a != [] && a[|a| - 1] == x && IsShuffle(w', a[..|a| - 1], b) {
        ShuffleSum(w', a[..|a| - 1], b);
      } else {
        ShuffleSum(w', a, b[..|b| - 1]);
      }
    }
  }

  /** Two copies of one sequence, however interleaved, start and end as one copy does. */
  lemma {:induction false} ShuffleEnds<T>(w: seq<T>, a: seq<T>, b: seq<T>)
    requires IsShuffle(w, a, b)
    ensures |w| == |a| + |b|
    ensures w != [] ==> (a != [] && w[0] == a[0]) || (b != [] && w[0] == b[0])
    ensures w != [] ==> (a != [] && w[|w| - 1] == a[|a| - 1]) || (b != [] && w[|w| - 1] == b[|b| - 1])
    decreases |w|
  {
    if w == [] {
    } else {
      var w', x := w[..|w| - 1], w[|w| - 1];
      if a != [] && a[|a| - 1] == x && IsShuffle(w', a[..|a| - 1], b) {
        ShuffleEnds(w', a[..|a| - 1], b);
      } else {
        ShuffleEnds(w', a, b[..|b| - 1]);
      }
    }
  }

  lemma {:induction false} ShuffleSymmetric<T>(w: seq<T>, a: seq<T>, b: seq<T>)
    requires IsShuffle(w, a, b)
    ensures IsShuffle(w, b, a)
    decreases |w|
  {
    if w == [] {
    } else {
      var w', x := w[..|w| - 1], w[|w| - 1];
      if a != [] && a[|a| - 1] == x && IsShuffle(w', a[..|a| - 1], b) {
        ShuffleSymmetric(w', a[..|a| - 1], b);
      } else {
        ShuffleSymmetric(w', a, b[..|b| - 1]);
      }
    }
  }

  /** One copy played entirely before the other is an interleaving. */
  lemma {:induction false} BackToBack<T>(a: seq<T>, b: seq<T>)
    ensures IsShuffle(a + b, a, b)
  {
    assert IsShuffle<T>([], [], []);
    ShuffleExtend<T>([], [], [], a);
    assert [] + a == a;
    ShuffleExtend(a, a, [], b);
    assert [] + b == b;
  }
}
