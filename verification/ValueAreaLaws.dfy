/** What the greedy value area guarantees, and when it is optimal. */
module ValueAreaLaws {
  import opened Collections
  import opened VolumeProfile

  predicate Nonnegative(vols: seq<int>) { forall i :: 0 <= i < |vols| ==> vols[i] >= 0 }

  // ---- The rule of the expansion ----

  /** The next range takes the level below when there is one and it is no smaller than the one above, or there is none
      above; otherwise it takes the level above. */
  predicate Grows(vols: seq<int>, r: Range, x: Range)
    requires RangeIn(vols, r)
  {
    if r.lo > 0 && (r.hi == |vols| - 1 || vols[r.lo - 1] >= vols[r.hi + 1]) then x == Range(r.lo - 1, r.hi)
    else x == Range(r.lo, r.hi + 1)
  }

  /** Every extension follows the rule, whatever the volumes: a tie goes below. */
  lemma NextRange(vols: seq<int>, poc: nat, n: nat)
    requires poc < |vols| && n + 1 < |vols|
    ensures Grows(vols, RangeAfter(vols, poc, n), RangeAfter(vols, poc, n + 1))
  {
    var r := RangeAfter(vols, poc, n);
    assert RangeAfter(vols, poc, n + 1) == Extend(vols, r);
  }

  /** Volumes 3, 5 and 3: the tie goes to the lower level. */
  lemma TieGoesBelow()
    ensures FirstMax([3, 5, 3]) == 1 && IntSum([3, 5, 3]) == 11
    ensures StopFrom([3, 5, 3], 1, 11, 0) == Range(0, 1)
  {
    var vols := [3, 5, 3];
    assert vols[..2] == [3, 5] && [3, 5][..1] == [3] && [3][..0] == [];
    assert FirstMax([3]) == 0 && FirstMax([3, 5]) == 1 && IntSum([3, 5]) == 8;
    PocVolume(vols, 1);
    ExtendVolume(vols, Range(1, 1));
    StopStep(vols, 1, 11, 0);
    NextRange(vols, 1, 0);
    StopStep(vols, 1, 11, 1);
  }

  // ---- Termination and the 70% guarantee ----

  /** With nonnegative volumes the last branch of the expansion is never taken. */
  lemma LastResortUnreachable(vols: seq<int>, r: Range)
    requires Nonnegative(vols) && RangeIn(vols, r) && r.hi - r.lo + 1 < |vols|
    ensures Choose(vols, r) != LastResort
  {}

  lemma {:induction false} NonnegativeSum(s: seq<int>)
    requires Nonnegative(s)
    ensures IntSum(s) >= 0
  {
    if s == [] {
    } else {
      NonnegativeSum(s[..|s| - 1]);
    }
  }

  lemma {:induction false} StopsAtFirstEnough(vols: seq<int>, poc: nat, total: int, n: nat)
    requires poc < |vols| && n < |vols|
    ensures var r := StopFrom(vols, poc, total, n);
      var k := r.hi - r.lo;
      && n <= k < |vols| && r == RangeAfter(vols, poc, k)
      && (Enough(vols, r, total) || k == |vols| - 1)
      && forall m :: n <= m < k ==> !Enough(vols, RangeAfter(vols, poc, m), total)
    decreases |vols| - n
  {
    hide Extend, RangeVolume, RangeAfter, StopFrom;
    StopStep(vols, poc, total, n);
    if Enough(vols, RangeAfter(vols, poc, n), total) || n >= |vols| - 1 {
    } else {
      StopsAtFirstEnough(vols, poc, total, n + 1);
    }
  }

  /** The range before the last extension. */
  function Previous(vols: seq<int>, poc: nat, r: Range): (p: Range)
    requires poc < |vols| && RangeIn(vols, r) && r.lo < r.hi
    ensures RangeIn(vols, p) && p.hi - p.lo == r.hi - r.lo - 1
  {
    RangeAfter(vols, poc, r.hi - r.lo - 1)
  }

  lemma WholeVolume(vols: seq<int>, r: Range)
    requires RangeIn(vols, r) && r.hi - r.lo == |vols| - 1
    ensures RangeVolume(vols, r) == IntSum(vols)
  {
    assert vols[r.lo..r.hi + 1] == vols;
  }

  /** For nonnegative volumes the value area is one range around the point of control that holds at least 70% of
      the volume, and without the last level added it would not. */
  lemma ValueAreaGuarantee(vols: seq<int>, total: int)
    requires vols != [] && Nonnegative(vols) && total == IntSum(vols)
    ensures var poc := FirstMax(vols);
      var r := StopFrom(vols, poc, total, 0);
      && r.lo <= poc <= r.hi && Enough(vols, r, total)
      && (r.lo < r.hi ==>
            var p := Previous(vols, poc, r);
            (p == Range(r.lo + 1, r.hi) || p == Range(r.lo, r.hi - 1)) && !Enough(vols, p, total))
  {
    hide Choose, FirstMax, StopFrom, RangeVolume, IntSum;
    var poc := FirstMax(vols);
    StopsAtFirstEnough(vols, poc, total, 0);
    NonnegativeSum(vols);
    var r := StopFrom(vols, poc, total, 0);
    if r.hi - r.lo == |vols| - 1 {
      WholeVolume(vols, r);
    }
  }

  // ---- Optimality on single-peaked profiles ----

  /** Nondecreasing up to `m`, nonincreasing after it. */
  predicate PeaksAt(vols: seq<int>, m: nat) {
    && m < |vols|
    && (forall i, j :: 0 <= i < j <= m ==> vols[i] <= vols[j])
    && (forall i, j :: m <= i < j < |vols| ==> vols[i] >= vols[j])
  }

  lemma FirstMaxNotAfter(vols: seq<int>, m: nat)
    requires PeaksAt(vols, m)
    ensures FirstMax(vols) <= m
  {}

  lemma FirstMaxIsPeak(vols: seq<int>, m: nat)
    requires PeaksAt(vols, m)
    ensures PeaksAt(vols, FirstMax(vols))
  {
    hide FirstMax;
    var p := FirstMax(vols);
    FirstMaxNotAfter(vols, m);
    assert p == m || vols[p] <= vols[m];
    forall i, j | p <= i < j < |vols| ensures vols[i] >= vols[j] {
      if i < m { assert vols[p] <= vols[i]; }
    }
  }

  /** The volume of a set of levels. */
  function Chosen(vols: seq<int>, s: set<nat>): int {
    if vols == [] then 0
    else Chosen(vols[..|vols| - 1], s) + if |vols| - 1 in s then vols[|vols| - 1] else 0
  }

  predicate Levels(vols: seq<int>, s: set<nat>) { forall i <- s :: i < |vols| }

  /** Every chosen level is at least as large as every level left out. */
  predicate Dominates(vols: seq<int>, s: set<nat>) {
    Levels(vols, s) && forall i <- s, j | 0 <= j < |vols| && j !in s :: vols[i] >= vols[j]
  }

  lemma {:induction false} ChosenAdd(vols: seq<int>, s: set<nat>, x: nat)
    requires x !in s
    ensures Chosen(vols, s + {x}) == Chosen(vols, s) + if x < |vols| then vols[x] else 0
  {
    if vols == [] {
    } else {
      ChosenAdd(vols[..|vols| - 1], s, x);
    }
  }

  lemma {:induction false} ChosenMonotone(vols: seq<int>, s: set<nat>, t: set<nat>)
    requires Nonnegative(vols) && s <= t
    ensures Chosen(vols, s) <= Chosen(vols, t)
  {
    if vols == [] {
    } else {
      ChosenMonotone(vols[..|vols| - 1], s, t);
    }
  }

  /** No set of at most as many levels holds more than a dominating set: swap the levels they differ in. */
  lemma {:induction false} DominatingIsBest(vols: seq<int>, s: set<nat>, best: set<nat>)
    requires Nonnegative(vols) && Levels(vols, s) && Dominates(vols, best) && |s| <= |best|
    ensures Chosen(vols, s) <= Chosen(vols, best)
    decreases |s - best|
  {
    if s <= best {
      ChosenMonotone(vols, s, best);
    } else {
      Outside(s, best);
      var x :| x in s && x !in best;
      OtherSide(s, best);
      var y :| y in best && y !in s;
      var rest := s - {x};
      var swapped := rest + {y};
      assert s == rest + {x};
      ChosenAdd(vols, rest, x);
      ChosenAdd(vols, rest, y);
      assert swapped - best == (s - best) - {x};
      DominatingIsBest(vols, swapped, best);
    }
  }

  lemma Outside(s: set<nat>, t: set<nat>)
    ensures s <= t || exists x :: x in s && x !in t
  {}

  lemma OtherSide(s: set<nat>, t: set<nat>)
    requires |s| <= |t| && !(s <= t)
    ensures exists y :: y in t && y !in s
  {
    if t <= s {
      StrictSubsetSize(t, s);
    } else {
      Outside(t, s);
    }
  }

  lemma StrictSubsetSize(a: set<nat>, b: set<nat>)
    requires a < b
    ensures |a| < |b|
  {
    var rest := b - a;
    assert b == a + rest && rest != {};
  }

  // ---- Ranges as sets ----

  function Members(r: Range): (s: set<nat>)
    requires r.lo <= r.hi
    ensures forall i :: i in s <==> r.lo <= i <= r.hi
    decreases r.hi - r.lo
  {
    if r.lo == r.hi then {r.lo} else Members(Range(r.lo, r.hi - 1)) + {r.hi}
  }

  lemma {:induction false} MembersOf(vols: seq<int>, r: Range)
    requires RangeIn(vols, r)
    ensures |Members(r)| == r.hi - r.lo + 1
    ensures Chosen(vols, Members(r)) == RangeVolume(vols, r)
    decreases r.hi - r.lo
  {
    hide Chosen, RangeVolume;
    if r.lo == r.hi {
      OneMember(vols, r.lo);
    } else {
      var p := Range(r.lo, r.hi - 1);
      MembersOf(vols, p);
      ChosenAdd(vols, Members(p), r.hi);
      ExtendVolume(vols, p);
    }
  }

  lemma OneMember(vols: seq<int>, i: nat)
    requires i < |vols|
    ensures |Members(Range(i, i))| == 1
    ensures Chosen(vols, Members(Range(i, i))) == RangeVolume(vols, Range(i, i))
  {
    hide Chosen, RangeVolume;
    assert Members(Range(i, i)) == {} + {i};
    ChosenAdd(vols, {}, i);
    ChosenNone(vols);
    PocVolume(vols, i);
  }

  lemma {:induction false} ChosenNone(vols: seq<int>)
    ensures Chosen(vols, {}) == 0
  {
    if vols == [] {
    } else {
      ChosenNone(vols[..|vols| - 1]);
    }
  }

  /** Around a peak the loop keeps every level inside at least as large as every level outside. */
  lemma {:induction false} GreedyDominates(vols: seq<int>, poc: nat, n: nat)
    requires Nonnegative(vols) && PeaksAt(vols, poc) && n < |vols|
    ensures Dominates(vols, Members(RangeAfter(vols, poc, n)))
  {
    hide Extend, PeaksAt, Nonnegative, Members;
    if n > 0 {
      GreedyDominates(vols, poc, n - 1);
      ExtendDominates(vols, poc, RangeAfter(vols, poc, n - 1));
    } else {
      PeakIsLargest(vols, poc);
    }
  }

  lemma PeakIsLargest(vols: seq<int>, poc: nat)
    requires PeaksAt(vols, poc)
    ensures forall i :: 0 <= i < |vols| ==> vols[i] <= vols[poc]
  {}

  /** The level the loop adds is at least as large as every level it leaves out. */
  lemma AddedIsLargest(vols: seq<int>, poc: nat, r: Range, j: nat)
    requires Nonnegative(vols) && PeaksAt(vols, poc) && RangeIn(vols, r) && r.lo <= poc <= r.hi
    requires r.hi - r.lo + 1 < |vols| && j < |vols| && (j < r.lo || j > r.hi)
    ensures Choose(vols, r) == Above ==> r.hi + 1 < |vols| && vols[j] <= vols[r.hi + 1]
    ensures Choose(vols, r) != Above ==> r.lo > 0 && vols[j] <= vols[r.lo - 1]
  {}

  lemma ExtendDominates(vols: seq<int>, poc: nat, r: Range)
    requires Nonnegative(vols) && PeaksAt(vols, poc) && RangeIn(vols, r) && r.lo <= poc <= r.hi
    requires r.hi - r.lo + 1 < |vols| && Dominates(vols, Members(r))
    ensures Dominates(vols, Members(Extend(vols, r)))
  {
    hide PeaksAt, Nonnegative, Members, Choose;
    var x := Extend(vols, r);
    var added := if Choose(vols, r) == Above then r.hi + 1 else r.lo - 1;
    assert added >= 0;
    assert Members(x) == Members(r) + {added};
    forall j | 0 <= j < |vols| && j !in Members(x) ensures vols[added] >= vols[j] {
      AddedIsLargest(vols, poc, r, j);
    }
    DominatesMore(vols, Members(r), added);
  }

  lemma DominatesMore(vols: seq<int>, s: set<nat>, x: nat)
    requires Dominates(vols, s) && x < |vols|
    requires forall j | 0 <= j < |vols| && j !in s + {x} :: vols[x] >= vols[j]
    ensures Dominates(vols, s + {x})
  {
    forall i <- s + {x}, j | 0 <= j < |vols| && j !in s + {x} ensures vols[i] >= vols[j] {
      if i != x { assert i in s && j !in s; }
    }
  }

  /** No set of fewer levels than the range has holds 70% of the total. */
  ghost predicate Minimal(vols: seq<int>, total: int, r: Range)
    requires RangeIn(vols, r)
  {
    forall s: set<nat> :: Levels(vols, s) && |s| < r.hi - r.lo + 1 ==> 10 * Chosen(vols, s) < 7 * total
  }

  /** The range the loop stops at for this total is minimal. */
  ghost predicate OptimalFor(vols: seq<int>, total: int)
    requires vols != []
  {
    Minimal(vols, total, StopFrom(vols, FirstMax(vols), total, 0))
  }

  /** On a single-peaked profile the greedy value area is optimal, whatever positive total it is measured against: no
      set of fewer levels holds 70% of it. */
  lemma ValueAreaIsOptimal(vols: seq<int>, peak: nat, total: int)
    requires Nonnegative(vols) && PeaksAt(vols, peak) && total > 0
    ensures vols != [] && OptimalFor(vols, total)
  {
    assert vols != [];
    hide FirstMax, StopFrom, Chosen, PeaksAt, Dominates, Members, Extend, RangeVolume, RangeAfter, Nonnegative, Levels;
    var poc := FirstMax(vols);
    var r := StopFrom(vols, poc, total, 0);
    StopsAtFirstEnough(vols, poc, total, 0);
    FirstMaxIsPeak(vols, peak);
    forall s: set<nat> | Levels(vols, s) && |s| < r.hi - r.lo + 1 ensures 10 * Chosen(vols, s) < 7 * total {
      if r.lo == r.hi {
        assert s == {};
        ChosenNone(vols);
      } else {
        var p := Previous(vols, poc, r);
        GreedyDominates(vols, poc, r.hi - r.lo - 1);
        MembersOf(vols, p);
        DominatingIsBest(vols, s, Members(p));
      }
    }
  }

  // ---- The single peak is needed ----

  lemma {:induction false} VolumesGrow(vols: seq<int>, poc: nat, k: nat, n: nat)
    requires Nonnegative(vols) && poc < |vols| && k <= n < |vols|
    ensures RangeVolume(vols, RangeAfter(vols, poc, k)) <= RangeVolume(vols, RangeAfter(vols, poc, n))
  {
    hide RangeVolume, Choose;
    if k == n {
    } else {
      VolumesGrow(vols, poc, k, n - 1);
      ExtendVolume(vols, RangeAfter(vols, poc, n - 1));
    }
  }

  /** A total that the volume `v` falls short of and `v + 1` reaches. */
  lemma TotalBetween(v: int) returns (total: int)
    requires v >= 0
    ensures total > 0 && 10 * v < 7 * total <= 10 * (v + 1)
  {
    total := 10 * v / 7 + 1;
  }

  /** A set that leaves out a larger level than one it holds is improved by exchanging the two. */
  lemma Exchange(vols: seq<int>, s: set<nat>) returns (better: set<nat>)
    requires Levels(vols, s) && !Dominates(vols, s)
    ensures Levels(vols, better) && |better| == |s| && Chosen(vols, better) > Chosen(vols, s)
  {
    hide Chosen;
    var i, j :| i in s && 0 <= j < |vols| && j !in s && vols[i] < vols[j];
    var rest := s - {i};
    better := rest + {j};
    assert s == rest + {i};
    ChosenAdd(vols, rest, i);
    ChosenAdd(vols, rest, j);
  }

  /** While the range falls short the loop goes on. */
  lemma StopsLater(vols: seq<int>, poc: nat, total: int, n: nat)
    requires Nonnegative(vols) && poc < |vols| && n < |vols| - 1
    requires 10 * RangeVolume(vols, RangeAfter(vols, poc, n)) < 7 * total
    ensures var r := StopFrom(vols, poc, total, 0); r.hi - r.lo > n
  {
    hide StopFrom, RangeVolume, RangeAfter, Nonnegative;
    StopsAtFirstEnough(vols, poc, total, 0);
    var r := StopFrom(vols, poc, total, 0);
    if r.hi - r.lo <= n {
      VolumesGrow(vols, poc, r.hi - r.lo, n);
    }
  }

  /** A range on the way that does not dominate is beaten by another choice of as many levels, for some total. */
  lemma NotDominatingNotMinimal(vols: seq<int>, poc: nat, n: nat) returns (total: int)
    requires Nonnegative(vols) && poc < |vols| && n < |vols| && !Dominates(vols, Members(RangeAfter(vols, poc, n)))
    ensures total > 0 && !Minimal(vols, total, StopFrom(vols, poc, total, 0))
  {
    hide StopFrom, Chosen, RangeVolume, RangeAfter, Dominates, Members, Nonnegative;
    var r := RangeAfter(vols, poc, n);
    var better := Exchange(vols, Members(r));
    MembersOf(vols, r);
    RangeNonnegative(vols, poc, n);
    total := TotalBetween(RangeVolume(vols, r));
    NotAll(vols, r);
    StopsLater(vols, poc, total, n);
    assert 10 * Chosen(vols, better) >= 7 * total && |better| == n + 1;
  }

  lemma NotAll(vols: seq<int>, r: Range)
    requires RangeIn(vols, r) && !Dominates(vols, Members(r))
    ensures r.hi - r.lo < |vols| - 1
  {}

  lemma RangeNonnegative(vols: seq<int>, poc: nat, n: nat)
    requires Nonnegative(vols) && poc < |vols| && n < |vols|
    ensures RangeVolume(vols, RangeAfter(vols, poc, n)) >= 0
  {
    hide RangeAfter;
    var r := RangeAfter(vols, poc, n);
    NonnegativeSum(vols[r.lo..r.hi + 1]);
  }

  /** Every lower end between the point of control and the first level is met on the way. */
  lemma {:induction false} MeetsLow(vols: seq<int>, poc: nat, l: nat, n: nat) returns (k: nat)
    requires poc < |vols| && n < |vols| && RangeAfter(vols, poc, n).lo <= l <= poc
    ensures k < |vols| && RangeAfter(vols, poc, k).lo == l
  {
    hide Choose;
    if RangeAfter(vols, poc, n).lo == l {
      k := n;
    } else {
      k := MeetsLow(vols, poc, l, n - 1);
    }
  }

  lemma {:induction false} MeetsHigh(vols: seq<int>, poc: nat, h: nat, n: nat) returns (k: nat)
    requires poc < |vols| && n < |vols| && poc <= h <= RangeAfter(vols, poc, n).hi
    ensures k < |vols| && RangeAfter(vols, poc, k).hi == h
  {
    hide Choose;
    if RangeAfter(vols, poc, n).hi == h {
      k := n;
    } else {
      k := MeetsHigh(vols, poc, h, n - 1);
    }
  }

  /** If every range on the way dominates, the volumes fall off on both sides of the point of control. */
  lemma AllDominateOnePeak(vols: seq<int>, poc: nat)
    requires poc < |vols|
    requires forall n :: 0 <= n < |vols| ==> Dominates(vols, Members(RangeAfter(vols, poc, n)))
    ensures PeaksAt(vols, poc)
  {
    hide RangeAfter, Members;
    forall i, j | 0 <= i < j <= poc ensures vols[i] <= vols[j] {
      var k := MeetsLow(vols, poc, i + 1, |vols| - 1);
      var inside := Members(RangeAfter(vols, poc, k));
      assert j in inside && i !in inside;
    }
    forall i, j | poc <= i < j < |vols| ensures vols[i] >= vols[j] {
      var k := MeetsHigh(vols, poc, j - 1, |vols| - 1);
      var inside := Members(RangeAfter(vols, poc, k));
      assert i in inside && j !in inside;
    }
  }

  /** The greedy range is optimal for every positive total if and only if the profile has a single peak. */
  lemma OptimalExactlyOnOnePeak(vols: seq<int>)
    requires vols != [] && Nonnegative(vols)
    ensures (forall total :: total > 0 ==> OptimalFor(vols, total))
       <==> exists m :: PeaksAt(vols, m)
  {
    hide FirstMax, StopFrom, PeaksAt, Minimal, Dominates, RangeAfter, Members, Nonnegative;
    var poc := FirstMax(vols);
    if exists m :: PeaksAt(vols, m) {
      var m :| PeaksAt(vols, m);
      forall total | total > 0 ensures OptimalFor(vols, total) {
        ValueAreaIsOptimal(vols, m, total);
      }
    } else {
      if forall n :: 0 <= n < |vols| ==> Dominates(vols, Members(RangeAfter(vols, poc, n))) {
        AllDominateOnePeak(vols, poc);
      }
      var n :| 0 <= n < |vols| && !Dominates(vols, Members(RangeAfter(vols, poc, n)));
      var total := NotDominatingNotMinimal(vols, poc, n);
      assert !OptimalFor(vols, total);
    }
  }

  /** The single peak matters even when every level is traded: with two peaks the greedy range can need a level that
      the best choice skips. */
  lemma TwoPeaksNotOptimal()
    ensures var vols := [5, 1, 4];
      && StopFrom(vols, FirstMax(vols), 10, 0) == Range(0, 2)
      && IntSum(vols) == 10 && |{0 as nat, 2}| < 3 && 10 * Chosen(vols, {0, 2}) >= 7 * 10
  {
    hide Chosen, RangeVolume, FirstMax, StopFrom, IntSum;
    var vols := [5, 1, 4];
    SmallSums();
    SmallPeak();
    PocVolume(vols, 0);
    ExtendVolume(vols, Range(0, 0));
    StopStep(vols, 0, 10, 0);
    assert RangeAfter(vols, 0, 1) == Range(0, 1);
    StopStep(vols, 0, 10, 1);
    assert RangeAfter(vols, 0, 2) == Range(0, 2);
    StopStep(vols, 0, 10, 2);
  }

  lemma SmallPeak()
    ensures FirstMax([5, 1, 4]) == 0
    ensures Chosen([5, 1, 4], {0, 2}) == 9
  {
    var vols := [5, 1, 4];
    assert vols[..2] == [5, 1] && [5, 1][..1] == [5] && [5][..0] == [];
    assert Chosen([5], {0, 2}) == 5 && Chosen([5, 1], {0, 2}) == 5;
  }

  lemma SmallSums()
    ensures IntSum([5, 1, 4]) == 10
  {
    assert [5, 1, 4][..2] == [5, 1] && [5, 1][..1] == [5] && [5][..0] == [];
    assert IntSum([5, 1]) == 6;
  }
}
