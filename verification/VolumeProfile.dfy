/** The session volume profile: volume by price level, point of control, greedy 70% value area. */
module VolumeProfile {
  import opened Collections

  datatype Print = Print(price: real, qty: int, aggressor: string)

  // ---- Price keys ----

  /** Python's `round`: to the nearest integer, ties to even. */
  function RoundHalfEven(x: real): int {
    var f := x.Floor;
    var d := x - f as real;
    if d < 0.5 then f else if d > 0.5 then f + 1 else if f % 2 == 0 then f else f + 1
  }

  function Key(tick: real, price: real): int
    requires tick != 0.0
  {
    RoundHalfEven(price / tick)
  }

  function Get(m: map<int, int>, k: int): int { if k in m then m[k] else 0 }

  /** `m[k] += qty` on a defaultdict. */
  function Bump(m: map<int, int>, k: int, qty: int): map<int, int> { m[k := Get(m, k) + qty] }

  /** The profile as a value: volume by price key, bought and sold. */
  datatype Volumes = Volumes(buy: map<int, int>, sell: map<int, int>)

  function Record(v: Volumes, tick: real, p: Print): Volumes
    requires tick != 0.0
  {
    if p.aggressor == "B" then v.(buy := Bump(v.buy, Key(tick, p.price), p.qty))
    else v.(sell := Bump(v.sell, Key(tick, p.price), p.qty))
  }

  function VolumesOf(tick: real, prints: seq<Print>): Volumes
    requires tick != 0.0
  {
    if prints == [] then Volumes(map[], map[])
    else Record(VolumesOf(tick, prints[..|prints| - 1]), tick, prints[|prints| - 1])
  }

  // ---- Levels in price order ----

  predicate IsLeast(k: int, keys: set<int>) { k in keys && forall j <- keys :: k <= j }

  lemma {:induction false} LeastExists(keys: set<int>)
    requires keys != {}
    ensures exists k :: IsLeast(k, keys)
  {
    SomeElement(keys);
    var x :| x in keys;
    if keys == {x} {
      assert IsLeast(x, keys);
    } else {
      LeastExists(keys - {x});
      var y :| IsLeast(y, keys - {x});
      assert forall j <- keys :: j == x || j in keys - {x};
      assert IsLeast(if x < y then x else y, keys);
    }
  }

  function Least(keys: set<int>): (k: int)
    requires keys != {}
    ensures k in keys && forall j <- keys :: k <= j
  {
    LeastExists(keys);
    var k :| IsLeast(k, keys);
    k
  }

  predicate Lists(s: seq<int>, keys: set<int>) {
    && |s| == |keys|
    && (forall k <- keys :: k in s) && (forall i :: 0 <= i < |s| ==> s[i] in keys)
    && forall i, j :: 0 <= i < j < |s| ==> s[i] < s[j]
  }

  lemma ListsStep(keys: set<int>, k: int, rest: seq<int>)
    requires IsLeast(k, keys) && Lists(rest, keys - {k})
    ensures Lists([k] + rest, keys)
  {
    var s := [k] + rest;
    assert forall i :: 1 <= i < |s| ==> s[i] == rest[i - 1] && s[i] in keys - {k};
    assert forall x <- keys :: x == s[0] || x in keys - {k};
  }

  /** `sorted(keys)`. */
  function Sorted(keys: set<int>): (s: seq<int>)
    ensures Lists(s, keys)
    decreases |keys|
  {
    if keys == {} then []
    else
      var k := Least(keys);
      ListsStep(keys, k, Sorted(keys - {k}));
      [k] + Sorted(keys - {k})
  }

  datatype Level = Level(price: real, buyVol: int, sellVol: int) {
    function Total(): int { buyVol + sellVol }
    function Delta(): int { buyVol - sellVol }
  }

  function Keys(v: Volumes): set<int> { v.buy.Keys + v.sell.Keys }

  function PriceOf(k: int, tick: real): real { k as real * tick }

  function LevelsOf(tick: real, v: Volumes): (levels: seq<Level>)
    ensures |levels| == |Keys(v)|
  {
    var s := Sorted(Keys(v));
    seq(|s|, i requires 0 <= i < |s| => Level(PriceOf(s[i], tick), Get(v.buy, s[i]), Get(v.sell, s[i])))
  }

  function Totals(levels: seq<Level>): (vols: seq<int>)
    ensures |vols| == |levels|
  {
    seq(|levels|, i requires 0 <= i < |levels| => levels[i].Total())
  }

  function Deltas(levels: seq<Level>): (d: seq<int>)
    ensures |d| == |levels|
  {
    seq(|levels|, i requires 0 <= i < |levels| => levels[i].Delta())
  }

  // ---- Point of control ----

  /** The first index holding the largest volume. */
  function FirstMax(vols: seq<int>): (p: nat)
    requires vols != []
    ensures p < |vols|
    ensures forall i :: 0 <= i < |vols| ==> vols[i] <= vols[p]
    ensures forall i :: 0 <= i < p ==> vols[i] < vols[p]
  {
    if |vols| == 1 then 0
    else
      var p := FirstMax(vols[..|vols| - 1]);
      if vols[|vols| - 1] > vols[p] then |vols| - 1 else p
  }

  // ---- Value area ----

  /** Levels `lo` to `hi`, both included. */
  datatype Range = Range(lo: nat, hi: nat)

  predicate RangeIn(vols: seq<int>, r: Range) { r.lo <= r.hi < |vols| }

  function RangeVolume(vols: seq<int>, r: Range): int
    requires RangeIn(vols, r)
  {
    IntSum(vols[r.lo..r.hi + 1])
  }

  /** How the loop extends a range: below, above, or below again in its last branch. */
  datatype Branch = Below | Above | LastResort

  function Choose(vols: seq<int>, r: Range): Branch
    requires RangeIn(vols, r)
  {
    var addLo := if r.lo > 0 then vols[r.lo - 1] else -1;
    var addHi := if r.hi < |vols| - 1 then vols[r.hi + 1] else -1;
    if addLo >= addHi && r.lo > 0 then Below
    else if r.hi < |vols| - 1 then Above
    else LastResort
  }

  function Extend(vols: seq<int>, r: Range): (x: Range)
    requires RangeIn(vols, r) && r.hi - r.lo + 1 < |vols|
    ensures RangeIn(vols, x) && x.hi - x.lo == r.hi - r.lo + 1 && x.lo <= r.lo && r.hi <= x.hi
  {
    if Choose(vols, r) == Above then Range(r.lo, r.hi + 1) else Range(r.lo - 1, r.hi)
  }

  /** The range after `n` extensions from the point of control. */
  function RangeAfter(vols: seq<int>, poc: nat, n: nat): (r: Range)
    requires poc < |vols| && n < |vols|
    ensures RangeIn(vols, r) && r.hi - r.lo == n && r.lo <= poc <= r.hi
  {
    if n == 0 then Range(poc, poc) else Extend(vols, RangeAfter(vols, poc, n - 1))
  }

  /** At least 70% of the total, in exact arithmetic. */
  predicate Enough(vols: seq<int>, r: Range, total: int)
    requires RangeIn(vols, r)
  {
    10 * RangeVolume(vols, r) >= 7 * total
  }

  /** Where the loop stops: at the first range that holds enough, or with every level included. */
  function StopFrom(vols: seq<int>, poc: nat, total: int, n: nat): (r: Range)
    requires poc < |vols| && n < |vols|
    ensures RangeIn(vols, r)
    decreases |vols| - n
  {
    var r := RangeAfter(vols, poc, n);
    if Enough(vols, r, total) || n == |vols| - 1 then r else StopFrom(vols, poc, total, n + 1)
  }

  datatype ProfileResult = ProfileResult(levels: seq<Level>, poc: real, vah: real, val: real,
                                         totalVolume: int, totalDelta: int)

  function ResultOf(tick: real, v: Volumes): Option<ProfileResult> {
    var levels := LevelsOf(tick, v);
    var vols := Totals(levels);
    var total := IntSum(vols);
    if levels == [] || total == 0 then None
    else
      var poc := FirstMax(vols);
      var r := StopFrom(vols, poc, total, 0);
      Some(ProfileResult(levels, levels[poc].price, levels[r.hi].price, levels[r.lo].price, total,
                         IntSum(Deltas(levels))))
  }

  lemma ExtendVolume(vols: seq<int>, r: Range)
    requires RangeIn(vols, r)
    ensures r.lo > 0 ==> RangeVolume(vols, Range(r.lo - 1, r.hi)) == RangeVolume(vols, r) + vols[r.lo - 1]
    ensures r.hi + 1 < |vols| ==> RangeVolume(vols, Range(r.lo, r.hi + 1)) == RangeVolume(vols, r) + vols[r.hi + 1]
  {
    var inside := vols[r.lo..r.hi + 1];
    if r.lo > 0 {
      assert vols[r.lo - 1..r.hi + 1] == [vols[r.lo - 1]] + inside;
      IntSumAppend([vols[r.lo - 1]], inside);
      IntSumOne(vols[r.lo - 1]);
    }
    if r.hi + 1 < |vols| {
      assert vols[r.lo..r.hi + 2] == inside + [vols[r.hi + 1]];
      IntSumAppend(inside, [vols[r.hi + 1]]);
      IntSumOne(vols[r.hi + 1]);
    }
  }

  lemma PocVolume(vols: seq<int>, poc: nat)
    requires poc < |vols|
    ensures RangeAfter(vols, poc, 0) == Range(poc, poc) && RangeVolume(vols, Range(poc, poc)) == vols[poc]
  {
    assert vols[poc..poc + 1] == [vols[poc]];
    IntSumOne(vols[poc]);
  }

  lemma StopStep(vols: seq<int>, poc: nat, total: int, n: nat)
    requires poc < |vols| && n < |vols|
    ensures var r := RangeAfter(vols, poc, n);
      if Enough(vols, r, total) || n == |vols| - 1 then StopFrom(vols, poc, total, n) == r
      else
        && StopFrom(vols, poc, total, n) == StopFrom(vols, poc, total, n + 1)
        && RangeAfter(vols, poc, n + 1) == Extend(vols, r)
  {}

  class VolumeProfile {
    const tick: real
    var buy: map<int, int>
    var sell: map<int, int>

    function View(): Volumes
      reads this
    {
      Volumes(buy, sell)
    }

    constructor (tick: real)
      ensures this.tick == tick && View() == Volumes(map[], map[])
    {
      this.tick, buy, sell := tick, map[], map[];
    }

    method Update(price: real, qty: int, aggressor: string)
      requires tick != 0.0
      modifies this
      ensures View() == Record(old(View()), tick, Print(price, qty, aggressor))
    {
      var k := RoundHalfEven(price / tick);
      if aggressor == "B" {
        buy := buy[k := (if k in buy then buy[k] else 0) + qty];
      } else {
        sell := sell[k := (if k in sell then sell[k] else 0) + qty];
      }
    }

    method Result() returns (result: Option<ProfileResult>)
      requires tick != 0.0
      ensures result == ResultOf(tick, View())
    {
      hide Sorted, FirstMax, StopFrom, Key;
      var levels := LevelsOf(tick, Volumes(buy, sell));
      if levels == [] { return None; }
      var vols := Totals(levels);
      var total := IntSum(vols);
      if total == 0 { return None; }
      var pocIdx := IndexOfPoc(levels);
      var lo, hi := GrowValueArea(levels, pocIdx, total);
      result := Some(ProfileResult(levels, levels[pocIdx].price, levels[hi].price, levels[lo].price, total,
                                   IntSum(Deltas(levels))));
    }

    /** `max(levels, key=total)` keeps the first of equals. */
    static method IndexOfPoc(levels: seq<Level>) returns (p: nat)
      requires levels != []
      ensures p == FirstMax(Totals(levels))
    {
      var vols := Totals(levels);
      p := 0;
      for i := 1 to |levels|
        invariant p < i && (forall j :: 0 <= j < i ==> vols[j] <= vols[p])
        invariant forall j :: 0 <= j < p ==> vols[j] < vols[p]
      {
        if levels[i].Total() > levels[p].Total() { p := i; }
      }
    }

    /** The expansion loop. */
    static method GrowValueArea(levels: seq<Level>, pocIdx: nat, total: int) returns (lo: nat, hi: nat)
      requires pocIdx < |levels|
      ensures Range(lo, hi) == StopFrom(Totals(levels), pocIdx, total, 0)
    {
      hide StopFrom, RangeAfter, RangeVolume;
      ghost var vols := Totals(levels);
      PocVolume(vols, pocIdx);
      lo, hi := pocIdx, pocIdx;
      var volInVa := levels[pocIdx].Total();
      while 10 * volInVa < 7 * total
        invariant lo <= pocIdx <= hi < |levels|
        invariant Range(lo, hi) == RangeAfter(vols, pocIdx, hi - lo)
        invariant volInVa == RangeVolume(vols, Range(lo, hi))
        invariant StopFrom(vols, pocIdx, total, 0) == StopFrom(vols, pocIdx, total, hi - lo)
        decreases |levels| - (hi - lo)
      {
        StopStep(vols, pocIdx, total, hi - lo);
        var expandLo, expandHi := lo > 0, hi < |levels| - 1;
        if !expandLo && !expandHi { break; }
        ExtendVolume(vols, Range(lo, hi));
        var addLo := if expandLo then levels[lo - 1].Total() else -1;
        var addHi := if expandHi then levels[hi + 1].Total() else -1;
        if addLo >= addHi && expandLo {
          lo := lo - 1;
          volInVa := volInVa + levels[lo].Total();
        } else if expandHi {
          hi := hi + 1;
          volInVa := volInVa + levels[hi].Total();
        } else {
          lo := lo - 1;
          volInVa := volInVa + levels[lo].Total();
        }
      }
      StopStep(vols, pocIdx, total, hi - lo);
    }

    method Reset()
      modifies this
      ensures View() == Volumes(map[], map[])
    {
      buy, sell := map[], map[];
    }
  }
}
