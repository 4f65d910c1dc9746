/** Conservation of volume in the profile, and its independence of trade order. */
module ProfileLaws {
  import opened Collections
  import opened ValueAreaLaws
  import opened VolumeProfile

  // ---- Sums over keys ----

  function KeyTotal(m: map<int, int>, s: seq<int>): int {
    if s == [] then 0 else Get(m, s[0]) + KeyTotal(m, s[1..])
  }

  function SetTotal(m: map<int, int>, keys: set<int>): int { KeyTotal(m, Sorted(keys)) }

  lemma SetTotalFront(m: map<int, int>, keys: set<int>)
    requires keys != {}
    ensures SetTotal(m, keys) == Get(m, Least(keys)) + SetTotal(m, keys - {Least(keys)})
  {}

  lemma LeastUnique(keys: set<int>, k: int)
    requires k in keys && forall j <- keys :: k <= j
    ensures Least(keys) == k
  {}

  /** The total splits off any one key. */
  lemma {:induction false} SetTotalRemove(m: map<int, int>, keys: set<int>, k: int)
    requires k in keys
    ensures SetTotal(m, keys) == Get(m, k) + SetTotal(m, keys - {k})
    decreases |keys|
  {
    hide SetTotal, Sorted;
    var l := Least(keys);
    SetTotalFront(m, keys);
    if k == l {
    } else {
      SetTotalRemove(m, keys - {l}, k);
      LeastUnique(keys - {k}, l);
      SetTotalFront(m, keys - {k});
      assert keys - {k} - {l} == keys - {l} - {k};
    }
  }

  lemma {:induction false} KeyTotalSame(m: map<int, int>, n: map<int, int>, s: seq<int>)
    requires forall k <- s :: Get(m, k) == Get(n, k)
    ensures KeyTotal(m, s) == KeyTotal(n, s)
  {
    if s == [] {
    } else {
      KeyTotalSame(m, n, s[1..]);
    }
  }

  lemma SetTotalBump(m: map<int, int>, keys: set<int>, k: int, qty: int)
    requires k in keys
    ensures SetTotal(Bump(m, k, qty), keys) == SetTotal(m, keys) + qty
  {
    hide Sorted;
    SetTotalRemove(m, keys, k);
    SetTotalRemove(Bump(m, k, qty), keys, k);
    KeyTotalSame(m, Bump(m, k, qty), Sorted(keys - {k}));
  }

  lemma SetTotalGrow(m: map<int, int>, keys: set<int>, k: int)
    requires m.Keys <= keys
    ensures SetTotal(m, keys + {k}) == SetTotal(m, keys)
  {
    hide SetTotal;
    if k in keys {
      assert keys + {k} == keys;
    } else {
      SetTotalRemove(m, keys + {k}, k);
      assert keys + {k} - {k} == keys;
    }
  }

  // ---- Conservation ----

  function BuyQty(prints: seq<Print>): int {
    if prints == [] then 0
    else
      var p := prints[|prints| - 1];
      BuyQty(prints[..|prints| - 1]) + if p.aggressor == "B" then p.qty else 0
  }

  function SellQty(prints: seq<Print>): int {
    if prints == [] then 0
    else
      var p := prints[|prints| - 1];
      SellQty(prints[..|prints| - 1]) + if p.aggressor == "B" then 0 else p.qty
  }

  lemma RecordConserves(v: Volumes, tick: real, p: Print)
    requires tick != 0.0
    ensures var w := Record(v, tick, p);
      && SetTotal(w.buy, Keys(w)) == SetTotal(v.buy, Keys(v)) + (if p.aggressor == "B" then p.qty else 0)
      && SetTotal(w.sell, Keys(w)) == SetTotal(v.sell, Keys(v)) + (if p.aggressor == "B" then 0 else p.qty)
  {
    hide SetTotal, Key;
    var w, k := Record(v, tick, p), Key(tick, p.price);
    assert Keys(w) == Keys(v) + {k};
    SetTotalGrow(v.buy, Keys(v), k);
    SetTotalGrow(v.sell, Keys(v), k);
    if p.aggressor == "B" {
      SetTotalBump(v.buy, Keys(w), k, p.qty);
    } else {
      SetTotalBump(v.sell, Keys(w), k, p.qty);
    }
  }

  lemma {:induction false} VolumesConserve(tick: real, prints: seq<Print>)
    requires tick != 0.0
    ensures var v := VolumesOf(tick, prints);
      SetTotal(v.buy, Keys(v)) == BuyQty(prints) && SetTotal(v.sell, Keys(v)) == SellQty(prints)
  {
    hide SetTotal, Record, Keys;
    if prints == [] {
      EmptyTotals();
    } else {
      VolumesConserve(tick, prints[..|prints| - 1]);
      RecordConserves(VolumesOf(tick, prints[..|prints| - 1]), tick, prints[|prints| - 1]);
    }
  }

  lemma EmptyTotals()
    ensures SetTotal(map[], Keys(Volumes(map[], map[]))) == 0
  {}

  function TotalsAt(v: Volumes, s: seq<int>): seq<int> {
    seq(|s|, i requires 0 <= i < |s| => Get(v.buy, s[i]) + Get(v.sell, s[i]))
  }

  function DeltasAt(v: Volumes, s: seq<int>): seq<int> {
    seq(|s|, i requires 0 <= i < |s| => Get(v.buy, s[i]) - Get(v.sell, s[i]))
  }

  lemma {:induction false} SumsByKey(v: Volumes, s: seq<int>)
    ensures IntSum(TotalsAt(v, s)) == KeyTotal(v.buy, s) + KeyTotal(v.sell, s)
    ensures IntSum(DeltasAt(v, s)) == KeyTotal(v.buy, s) - KeyTotal(v.sell, s)
  {
    var totals, deltas := TotalsAt(v, s), DeltasAt(v, s);
    if s == [] {
      assert totals == [] && deltas == [];
    } else {
      SumsByKey(v, s[1..]);
      assert totals == [totals[0]] + TotalsAt(v, s[1..]);
      assert deltas == [deltas[0]] + DeltasAt(v, s[1..]);
      IntSumAppend([totals[0]], TotalsAt(v, s[1..]));
      IntSumAppend([deltas[0]], DeltasAt(v, s[1..]));
      IntSumOne(totals[0]);
      IntSumOne(deltas[0]);
    }
  }

  lemma LevelSums(tick: real, v: Volumes)
    ensures IntSum(Totals(LevelsOf(tick, v))) == SetTotal(v.buy, Keys(v)) + SetTotal(v.sell, Keys(v))
    ensures IntSum(Deltas(LevelsOf(tick, v))) == SetTotal(v.buy, Keys(v)) - SetTotal(v.sell, Keys(v))
  {
    hide Sorted, Keys, KeyTotal, IntSum, LevelsOf, Totals, Deltas;
    SumsByKey(v, Sorted(Keys(v)));
    LevelsByKey(tick, v);
  }

  lemma LevelsByKey(tick: real, v: Volumes)
    ensures Totals(LevelsOf(tick, v)) == TotalsAt(v, Sorted(Keys(v)))
    ensures Deltas(LevelsOf(tick, v)) == DeltasAt(v, Sorted(Keys(v)))
  {
    hide Sorted, Keys, Get, PriceOf;
  }

  /** The profile's levels hold exactly the volume traded, and its delta is bought less sold volume. */
  lemma ProfileConserves(tick: real, prints: seq<Print>)
    requires tick != 0.0
    ensures var levels := LevelsOf(tick, VolumesOf(tick, prints));
      && IntSum(Totals(levels)) == BuyQty(prints) + SellQty(prints)
      && IntSum(Deltas(levels)) == BuyQty(prints) - SellQty(prints)
  {
    hide SetTotal, VolumesOf, BuyQty, SellQty, LevelsOf;
    VolumesConserve(tick, prints);
    LevelSums(tick, VolumesOf(tick, prints));
  }

  // ---- Independence of order ----

  lemma BumpCommutes(m: map<int, int>, j: int, p: int, k: int, q: int)
    ensures Bump(Bump(m, j, p), k, q) == Bump(Bump(m, k, q), j, p)
  {}

  lemma RecordCommutes(v: Volumes, tick: real, p: Print, q: Print)
    requires tick != 0.0
    ensures Record(Record(v, tick, p), tick, q) == Record(Record(v, tick, q), tick, p)
  {
    hide Bump, Key;
    BumpCommutes(v.buy, Key(tick, p.price), p.qty, Key(tick, q.price), q.qty);
    BumpCommutes(v.sell, Key(tick, p.price), p.qty, Key(tick, q.price), q.qty);
  }

  lemma {:induction false} MoveLast(tick: real, a: seq<Print>, p: Print, b: seq<Print>)
    requires tick != 0.0
    ensures VolumesOf(tick, a + [p] + b) == Record(VolumesOf(tick, a + b), tick, p)
  {
    hide Record;
    if b == [] {
      assert a + [p] + b == a + [p] && a + b == a;
      assert (a + [p])[..|a|] == a;
    } else {
      var init, q := b[..|b| - 1], b[|b| - 1];
      assert (a + [p] + b)[..|a| + |b|] == a + [p] + init;
      assert (a + b)[..|a| + |b| - 1] == a + init;
      MoveLast(tick, a, p, init);
      RecordCommutes(VolumesOf(tick, a + init), tick, p, q);
    }
  }

  lemma FindLast(a: seq<Print>, b: seq<Print>) returns (x: seq<Print>, y: seq<Print>)
    requires a != [] && multiset(a) == multiset(b)
    ensures b == x + [a[|a| - 1]] + y
    ensures multiset(a[..|a| - 1]) == multiset(x + y)
  {
    var init, p := a[..|a| - 1], a[|a| - 1];
    assert a == init + [p];
    assert p in multiset(b);
    var i :| 0 <= i < |b| && b[i] == p;
    x, y := b[..i], b[i + 1..];
    assert b == x + [p] + y;
    TakeOut(x, p, y);
    TakeOut(init, p, []);
    assert init + [p] + [] == a && init + [] == init;
  }

  lemma TakeOut(x: seq<Print>, p: Print, y: seq<Print>)
    ensures multiset(x + y) == multiset(x + [p] + y) - multiset{p}
  {
    assert multiset(x + [p] + y) == multiset(x) + multiset{p} + multiset(y);
    assert multiset(x + y) == multiset(x) + multiset(y);
  }

  /** Any reordering of the trades gives the same profile. */
  lemma {:induction false} OrderDoesNotMatter(tick: real, a: seq<Print>, b: seq<Print>)
    requires tick != 0.0 && multiset(a) == multiset(b)
    ensures VolumesOf(tick, a) == VolumesOf(tick, b)
    ensures ResultOf(tick, VolumesOf(tick, a)) == ResultOf(tick, VolumesOf(tick, b))
    decreases |a|
  {
    hide Record, ResultOf;
    if a == [] {
      assert |multiset(b)| == 0;
    } else {
      var x, y := FindLast(a, b);
      OrderDoesNotMatter(tick, a[..|a| - 1], x + y);
      MoveLast(tick, x, a[|a| - 1], y);
    }
  }

  // ---- What a published profile says ----

  predicate NonnegativePrints(prints: seq<Print>) { forall p <- prints :: p.qty >= 0 }

  predicate NonnegativeMap(m: map<int, int>) { forall k <- m :: m[k] >= 0 }

  lemma {:induction false} VolumesNonnegative(tick: real, prints: seq<Print>)
    requires tick != 0.0 && NonnegativePrints(prints)
    ensures NonnegativeMap(VolumesOf(tick, prints).buy) && NonnegativeMap(VolumesOf(tick, prints).sell)
  {
    hide Key;
    if prints == [] {
    } else {
      VolumesNonnegative(tick, prints[..|prints| - 1]);
      assert prints[|prints| - 1] in prints;
    }
  }

  lemma LevelsAscend(tick: real, v: Volumes)
    requires tick > 0.0
    ensures Ascending(LevelsOf(tick, v))
  {
    hide Sorted, PriceOf;
    var s := Sorted(Keys(v));
    forall i, j | 0 <= i < j < |s| ensures PriceOf(s[i], tick) < PriceOf(s[j], tick) {
      PriceAscends(s[i], s[j], tick);
    }
  }

  lemma PriceAscends(j: int, k: int, tick: real)
    requires j < k && tick > 0.0
    ensures PriceOf(j, tick) < PriceOf(k, tick)
  {}

  lemma LevelsNonnegative(tick: real, prints: seq<Print>)
    requires tick != 0.0 && NonnegativePrints(prints)
    ensures Nonnegative(Totals(LevelsOf(tick, VolumesOf(tick, prints))))
  {
    hide VolumesOf, Sorted;
    VolumesNonnegative(tick, prints);
  }

  /** The volume of the levels priced between two prices, both included. */
  function VolumeBetween(levels: seq<Level>, low: real, high: real): int {
    if levels == [] then 0
    else
      var l := levels[|levels| - 1];
      VolumeBetween(levels[..|levels| - 1], low, high) + if low <= l.price <= high then l.Total() else 0
  }

  lemma {:induction false} BetweenIsChosen(levels: seq<Level>, low: real, high: real, s: set<nat>)
    requires forall i :: 0 <= i < |levels| ==> (low <= levels[i].price <= high <==> i in s)
    ensures VolumeBetween(levels, low, high) == Chosen(Totals(levels), s)
  {
    if levels == [] {
    } else {
      var n := |levels| - 1;
      BetweenIsChosen(levels[..n], low, high, s);
      assert Totals(levels)[..n] == Totals(levels[..n]);
    }
  }

  /** The point of control is the lowest price of greatest volume, lies within the value area, and the levels
      priced within the value area hold at least 70% of the total. */
  ghost predicate SoundArea(levels: seq<Level>, poc: real, val: real, vah: real, total: int) {
    && val <= poc <= vah
    && 10 * VolumeBetween(levels, val, vah) >= 7 * total
    && exists l :: l in levels && l.price == poc
         && forall m <- levels :: m.Total() <= l.Total() && (m.Total() == l.Total() ==> l.price <= m.price)
  }

  lemma AreaIsSound(levels: seq<Level>)
    requires levels != [] && Ascending(levels) && Nonnegative(Totals(levels))
    ensures var vols := Totals(levels);
      var poc, r := FirstMax(vols), StopFrom(vols, FirstMax(vols), IntSum(vols), 0);
      SoundArea(levels, levels[poc].price, levels[r.lo].price, levels[r.hi].price, IntSum(vols))
  {
    hide StopFrom, FirstMax, VolumeBetween, RangeVolume, Nonnegative, Ascending, Totals;
    var vols, total := Totals(levels), IntSum(Totals(levels));
    var poc := FirstMax(vols);
    var r := StopFrom(vols, poc, total, 0);
    ValueAreaGuarantee(vols, total);
    AreaByPrice(levels, r);
    InOrder(levels, r.lo, poc);
    InOrder(levels, poc, r.hi);
    PocIsLowest(levels, poc);
    assert levels[poc] in levels;
  }

  lemma InOrder(levels: seq<Level>, i: nat, j: nat)
    requires Ascending(levels) && i <= j < |levels|
    ensures levels[i].price <= levels[j].price
  {}

  /** For nonnegative quantities a profile is published exactly when something was traded, with the totals traded
      and a sound value area. */
  lemma ProfileGuarantee(tick: real, prints: seq<Print>)
    requires tick > 0.0 && NonnegativePrints(prints)
    ensures var traded, result := BuyQty(prints) + SellQty(prints), ResultOf(tick, VolumesOf(tick, prints));
      && (result == None <==> traded == 0)
      && (result.Some? ==>
            var r := result.value;
            && r.totalVolume == traded && r.totalDelta == BuyQty(prints) - SellQty(prints)
            && SoundArea(r.levels, r.poc, r.val, r.vah, traded))
  {
    hide VolumesOf, LevelsOf, BuyQty, SellQty, StopFrom, FirstMax, SoundArea, Ascending, Nonnegative;
    ProfileConserves(tick, prints);
    var levels := LevelsOf(tick, VolumesOf(tick, prints));
    if levels == [] {
      assert Totals(levels) == [];
    } else {
      LevelsNonnegative(tick, prints);
      LevelsAscend(tick, VolumesOf(tick, prints));
      AreaIsSound(levels);
    }
  }

  predicate Ascending(levels: seq<Level>) {
    forall i, j :: 0 <= i < j < |levels| ==> levels[i].price < levels[j].price
  }

  lemma AreaByPrice(levels: seq<Level>, r: Range)
    requires Ascending(levels) && RangeIn(Totals(levels), r)
    ensures VolumeBetween(levels, levels[r.lo].price, levels[r.hi].price) == RangeVolume(Totals(levels), r)
  {
    hide RangeVolume, Members;
    MembersOf(Totals(levels), r);
    BetweenIsChosen(levels, levels[r.lo].price, levels[r.hi].price, Members(r));
  }

  lemma PocIsLowest(levels: seq<Level>, poc: nat)
    requires Ascending(levels) && levels != [] && poc == FirstMax(Totals(levels))
    ensures levels[poc] in levels
    ensures forall m <- levels ::
      m.Total() <= levels[poc].Total() && (m.Total() == levels[poc].Total() ==> levels[poc].price <= m.price)
  {
    hide FirstMax;
    var vols := Totals(levels);
    forall m <- levels
      ensures m.Total() <= levels[poc].Total() && (m.Total() == levels[poc].Total() ==> levels[poc].price <= m.price)
    {
      var i :| 0 <= i < |levels| && levels[i] == m;
      assert vols[i] == m.Total() && vols[poc] == levels[poc].Total();
    }
  }

  // ---- The published bounds ----

  predicate Holds70(vols: seq<int>, r: Range, total: int)
    requires RangeIn(vols, r)
  {
    10 * IntSum(vols[r.lo..r.hi + 1]) >= 7 * total
  }

  /** Ranges of the profile, each the next one of the one before. */
  predicate Steps(vols: seq<int>, chain: seq<Range>) {
    && (forall i :: 0 <= i < |chain| ==> RangeIn(vols, chain[i]))
    && forall i :: 1 <= i < |chain| ==> Grows(vols, chain[i - 1], chain[i])
  }

  /** The first of the largest levels alone. */
  predicate AtPeak(vols: seq<int>, r: Range) {
    && r.lo == r.hi < |vols|
    && (forall j :: 0 <= j < |vols| ==> vols[j] <= vols[r.lo])
    && (forall j :: 0 <= j < r.lo ==> vols[j] < vols[r.lo])
  }

  /** A chain from the first largest level by the rule, ending at the first range that holds 70% of the total or at
      all levels. */
  predicate GrownTo(vols: seq<int>, total: int, chain: seq<Range>) {
    && chain != [] && Steps(vols, chain) && AtPeak(vols, chain[0])
    && (forall i :: 0 <= i < |chain| - 1 ==> !Holds70(vols, chain[i], total))
    && (Holds70(vols, chain[|chain| - 1], total) || chain[|chain| - 1] == Range(0, |vols| - 1))
  }

  lemma HoldsIsEnough(vols: seq<int>, r: Range, total: int)
    requires RangeIn(vols, r)
    ensures Holds70(vols, r, total) <==> Enough(vols, r, total)
  {}

  function Chain(vols: seq<int>, poc: nat, k: nat): (chain: seq<Range>)
    requires poc < |vols| && k < |vols|
    ensures |chain| == k + 1 && forall i :: 0 <= i <= k ==> chain[i] == RangeAfter(vols, poc, i)
  {
    seq(k + 1, i requires 0 <= i <= k => RangeAfter(vols, poc, i))
  }

  lemma ChainSteps(vols: seq<int>, poc: nat, k: nat)
    requires poc < |vols| && k < |vols|
    ensures Steps(vols, Chain(vols, poc, k))
  {
    hide RangeAfter, Grows, Chain;
    var chain := Chain(vols, poc, k);
    forall i | 1 <= i < |chain| ensures Grows(vols, chain[i - 1], chain[i]) {
      NextRange(vols, poc, i - 1);
    }
  }

  lemma AreaIsGrown(vols: seq<int>, total: int)
    requires vols != []
    ensures var r := StopFrom(vols, FirstMax(vols), total, 0);
      GrownTo(vols, total, Chain(vols, FirstMax(vols), r.hi - r.lo))
  {
    hide FirstMax, StopFrom, RangeAfter, Chain, Holds70, Enough, Steps;
    var poc := FirstMax(vols);
    StopsAtFirstEnough(vols, poc, total, 0);
    var r := StopFrom(vols, poc, total, 0);
    var chain := Chain(vols, poc, r.hi - r.lo);
    PocVolume(vols, poc);
    ChainSteps(vols, poc, r.hi - r.lo);
    forall i | 0 <= i < |chain|
      ensures RangeIn(vols, chain[i]) && (Holds70(vols, chain[i], total) <==> Enough(vols, chain[i], total))
    {
      HoldsIsEnough(vols, RangeAfter(vols, poc, i), total);
    }
  }

  /** The point of control is priced by the start of the chain, the bounds by its end. */
  predicate PricedBy(r: ProfileResult, chain: seq<Range>) {
    && chain != [] && chain[0].lo < |r.levels| && chain[|chain| - 1].lo <= chain[|chain| - 1].hi < |r.levels|
    && r.poc == r.levels[chain[0].lo].price
    && r.val == r.levels[chain[|chain| - 1].lo].price && r.vah == r.levels[chain[|chain| - 1].hi].price
  }

  /** For every run of trades, the published bounds are those of the range grown from the published point of control by
      the rule, level by level, to the first that holds 70%. */
  lemma BoundsAreGrown(tick: real, prints: seq<Print>)
    requires tick != 0.0 && ResultOf(tick, VolumesOf(tick, prints)).Some?
    ensures var r := ResultOf(tick, VolumesOf(tick, prints)).value;
      var vols := Totals(r.levels);
      exists chain: seq<Range> :: GrownTo(vols, r.totalVolume, chain) && PricedBy(r, chain)
  {
    hide VolumesOf, LevelsOf, StopFrom, FirstMax, Totals, GrownTo, IntSum, Chain, ResultOf;
    var levels := LevelsOf(tick, VolumesOf(tick, prints));
    var vols, total := Totals(levels), IntSum(Totals(levels));
    ResultParts(tick, VolumesOf(tick, prints));
    AreaIsGrown(vols, total);
    ChainEnds(vols, FirstMax(vols), total);
    var r := StopFrom(vols, FirstMax(vols), total, 0);
    var chain := Chain(vols, FirstMax(vols), r.hi - r.lo);
    assert PricedBy(ResultOf(tick, VolumesOf(tick, prints)).value, chain);
  }

  lemma ChainEnds(vols: seq<int>, poc: nat, total: int)
    requires poc < |vols|
    ensures var r := StopFrom(vols, poc, total, 0);
      && r.lo <= r.hi < |vols| && r.hi - r.lo < |vols|
      && Chain(vols, poc, r.hi - r.lo)[r.hi - r.lo] == r && Chain(vols, poc, r.hi - r.lo)[0] == Range(poc, poc)
  {
    hide StopFrom, RangeAfter, Chain;
    StopsAtFirstEnough(vols, poc, total, 0);
    PocVolume(vols, poc);
  }

  lemma ResultParts(tick: real, v: Volumes)
    requires ResultOf(tick, v).Some?
    ensures var r, levels := ResultOf(tick, v).value, LevelsOf(tick, v);
      && levels != [] && r.levels == levels && r.totalVolume == IntSum(Totals(levels))
      && r.poc == levels[FirstMax(Totals(levels))].price
      && var area := StopFrom(Totals(levels), FirstMax(Totals(levels)), r.totalVolume, 0);
         r.val == levels[area.lo].price && r.vah == levels[area.hi].price
  {
    hide LevelsOf, StopFrom, FirstMax, Totals, IntSum;
  }
}
