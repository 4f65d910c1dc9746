/** Which trades the levels of a profile stand for. */
module LevelLaws {
  import opened Collections
  import opened ProfileLaws
  import opened VolumeProfile

  /** `m` ticks are nearest to the price, an even number of ticks when two are equally near. */
  predicate Nearest(price: real, tick: real, m: int) {
    var d := price - m as real * tick;
    && -tick <= 2.0 * d <= tick
    && (2.0 * d == tick || 2.0 * d == -tick ==> m % 2 == 0)
  }

  lemma RoundIsNearest(x: real, m: int)
    ensures RoundHalfEven(x) == m
       <==> -1.0 <= 2.0 * (x - m as real) <= 1.0
            && (2.0 * (x - m as real) == 1.0 || 2.0 * (x - m as real) == -1.0 ==> m % 2 == 0)
  {}

  lemma ScaleCompare(x: real, y: real, tick: real)
    requires tick > 0.0
    ensures x * tick <= y * tick <==> x <= y
  {}

  lemma KeyIsNearest(tick: real, price: real, m: int)
    requires tick > 0.0
    ensures Key(tick, price) == m <==> Nearest(price, tick, m)
  {
    hide RoundHalfEven;
    var x := price / tick;
    var e := 2.0 * (x - m as real);
    assert x * tick == price;
    assert e * tick == 2.0 * (price - m as real * tick);
    RoundIsNearest(x, m);
    ScaleCompare(e, 1.0, tick);
    ScaleCompare(1.0, e, tick);
    ScaleCompare(e, -1.0, tick);
    ScaleCompare(-1.0, e, tick);
    assert 1.0 * tick == tick && -1.0 * tick == -tick;
  }

  /** The quantities traded nearest to `m` ticks, bought or not. */
  function TradedAt(tick: real, m: int, bought: bool): Print -> seq<int> {
    (p: Print) => if Nearest(p.price, tick, m) && (p.aggressor == "B") == bought then [p.qty] else []
  }

  function QuantityAt(prints: seq<Print>, tick: real, m: int, bought: bool): int {
    IntSum(FlatMap(prints, TradedAt(tick, m, bought)))
  }

  predicate AnyAt(prints: seq<Print>, tick: real, m: int) { exists p <- prints :: Nearest(p.price, tick, m) }

  lemma QuantityPush(prints: seq<Print>, p: Print, tick: real, m: int, bought: bool)
    ensures QuantityAt(prints + [p], tick, m, bought) == QuantityAt(prints, tick, m, bought)
      + if Nearest(p.price, tick, m) && (p.aggressor == "B") == bought then p.qty else 0
  {
    hide Nearest;
    assert (prints + [p])[..|prints|] == prints;
    var more := TradedAt(tick, m, bought)(p);
    IntSumAppend(FlatMap(prints, TradedAt(tick, m, bought)), more);
    if more != [] { IntSumOne(p.qty); }
  }

  lemma {:induction false} VolumesReadTrades(tick: real, prints: seq<Print>, m: int)
    requires tick > 0.0
    ensures var v := VolumesOf(tick, prints);
      && Get(v.buy, m) == QuantityAt(prints, tick, m, true)
      && Get(v.sell, m) == QuantityAt(prints, tick, m, false)
      && (m in Keys(v) <==> AnyAt(prints, tick, m))
  {
    hide Key, Nearest, QuantityAt;
    if prints == [] {
      NothingTraded(tick, m);
    } else {
      var before, p := prints[..|prints| - 1], prints[|prints| - 1];
      VolumesReadTrades(tick, before, m);
      KeyIsNearest(tick, p.price, m);
      assert prints == before + [p];
      QuantityPush(before, p, tick, m, true);
      QuantityPush(before, p, tick, m, false);
      assert AnyAt(prints, tick, m) <==> AnyAt(before, tick, m) || Nearest(p.price, tick, m) by {
        assert p in prints && forall q <- before :: q in prints;
      }
    }
  }

  lemma NothingTraded(tick: real, m: int)
    ensures QuantityAt([], tick, m, true) == 0 && QuantityAt([], tick, m, false) == 0
  {}

  /** The level of the trades nearest to `m` ticks. */
  predicate IsLevelAt(l: Level, prints: seq<Print>, tick: real, m: int) {
    && l.price == m as real * tick && AnyAt(prints, tick, m)
    && l.buyVol == QuantityAt(prints, tick, m, true) && l.sellVol == QuantityAt(prints, tick, m, false)
  }

  ghost predicate IsLevel(l: Level, prints: seq<Print>, tick: real) { exists m :: IsLevelAt(l, prints, tick, m) }

  /** Over every run of trades the levels ascend in price; each is a whole number of ticks, was traded, and holds just
      what was bought and what was sold nearest to it; and every number of ticks traded nearest to has its level. */
  lemma LevelsReadTrades(tick: real, prints: seq<Print>)
    requires tick > 0.0
    ensures var levels := LevelsOf(tick, VolumesOf(tick, prints));
      && (forall i, j :: 0 <= i < j < |levels| ==> levels[i].price < levels[j].price)
      && (forall i :: 0 <= i < |levels| ==> IsLevel(levels[i], prints, tick))
      && (forall m | AnyAt(prints, tick, m) :: exists i :: 0 <= i < |levels| && IsLevelAt(levels[i], prints, tick, m))
  {
    hide VolumesOf, Sorted, QuantityAt, Nearest, AnyAt, Keys;
    var v := VolumesOf(tick, prints);
    var s, levels := Sorted(Keys(v)), LevelsOf(tick, v);
    LevelsAscend(tick, v);
    forall i | 0 <= i < |levels| ensures IsLevel(levels[i], prints, tick) {
      VolumesReadTrades(tick, prints, s[i]);
      assert IsLevelAt(levels[i], prints, tick, s[i]);
    }
    forall m | AnyAt(prints, tick, m) ensures exists i :: 0 <= i < |levels| && IsLevelAt(levels[i], prints, tick, m) {
      VolumesReadTrades(tick, prints, m);
      var i :| 0 <= i < |s| && s[i] == m;
      assert IsLevelAt(levels[i], prints, tick, m);
    }
  }
}
