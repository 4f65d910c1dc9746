/** Options, sums, concatenations and windows of sequences, and elements of sets. */
module Collections {

  datatype Option<+T> = None | Some(value: T)

  /** Concatenation of what `f` yields for each element. */
  function FlatMap<T, U>(s: seq<T>, f: T -> seq<U>): seq<U> {
    if s == [] then [] else FlatMap(s[..|s| - 1], f) + f(s[|s| - 1])
  }

  function IntSum(s: seq<int>): int {
    if s == [] then 0 else IntSum(s[..|s| - 1]) + s[|s| - 1]
  }

  /** The last `n` elements, or all of them when there are fewer. */
  function Window<T>(xs: seq<T>, n: nat): (w: seq<T>)
    ensures |w| <= n && |w| <= |xs|
  {
    if |xs| <= n then xs else xs[|xs| - n..]
  }

  lemma {:induction false} FlatMapAppend<T, U>(s: seq<T>, t: seq<T>, f: T -> seq<U>)
    ensures FlatMap(s + t, f) == FlatMap(s, f) + FlatMap(t, f)
  {
    if t == [] {
      assert s + t == s;
    } else {
      assert (s + t)[..|s + t| - 1] == s + t[..|t| - 1];
      FlatMapAppend(s, t[..|t| - 1], f);
    }
  }

  lemma FlatMapOne<T, U>(x: T, f: T -> seq<U>)
    ensures FlatMap([x], f) == f(x)
  {}

  lemma {:induction false} IntSumAppend(s: seq<int>, t: seq<int>)
    ensures IntSum(s + t) == IntSum(s) + IntSum(t)
  {
    if t == [] {
      assert s + t == s;
    } else {
      assert (s + t)[..|s + t| - 1] == s + t[..|t| - 1];
      IntSumAppend(s, t[..|t| - 1]);
    }
  }

  lemma IntSumOne(x: int)
    ensures IntSum([x]) == x
  {}

  /** Pushing into a bounded window is windowing the longer history. */
  lemma WindowPush<T>(xs: seq<T>, v: T, n: nat)
    ensures Window(Window(xs, n) + [v], n) == Window(xs + [v], n)
  {}

  lemma SomeElement(s: set<int>)
    ensures s == {} || exists x :: x in s
  {
    if forall x :: x !in s { assert s == {}; }
  }
}
