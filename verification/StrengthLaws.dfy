/** How strong a signal can be, and exactly when its strength is in the documented range. */
module StrengthLaws {
  import opened BollingerLaws
  import opened Collections
  import opened EngineLaws
  import opened IndicatorLaws
  import opened Indicators
  import opened SignalEngine

  /** RSI strengths lie in (0, 1]; Bollinger strengths obey Samuelson's bound; a flat window gives no Bollinger
      signal. */
  lemma StrengthBounds(s: string, prices: seq<real>, root: real -> real)
    requires IsRoot(root)
    ensures forall x <- RsiSignals(s, RsiOf(14, prices)) :: 0.0 < x.strength <= 1.0
    ensures forall x <- BandSignals(s, BandsOf(20, 2.0, prices, root)) :: Square(x.strength - 0.5) * 16.0 <= 19.0
    ensures |prices| >= 20 && Flat(Window(prices, 20)) ==> BandSignals(s, BandsOf(20, 2.0, prices, root)) == []
  {
    hide RsiOf, Flat;
    RsiStrength(s, prices);
    if |prices| >= 20 {
      hide BandsFrom;
      PctBBound(20, 2.0, prices, root);
      var b := BandsOf(20, 2.0, prices, root).value;
      assert 4.0 * Square(2.0) == 16.0;
      if b.upper == b.lower { assert Square(0.0) == 0.0; }
      MirrorSquare(b.pctB);
    }
  }

  lemma MirrorSquare(p: real)
    ensures Square((1.0 - p) - 0.5) == Square(p - 0.5)
  {}

  lemma RsiStrength(s: string, prices: seq<real>)
    ensures forall x <- RsiSignals(s, RsiOf(14, prices)) :: 0.0 < x.strength <= 1.0
  {
    if |prices| > 14 {
      RsiBounded(14, prices);
      hide RsiOf;
    }
  }

  lemma SquareOfSmall(y: real)
    requires 0.0 <= y <= 0.5
    ensures Square(y) <= 0.25
  {
    ProductNonnegative(0.5 - y, 0.5 + y);
    assert (0.5 - y) * (0.5 + y) == 0.25 - Square(y);
  }

  /** The documented range 0..1 does not hold for Bollinger strengths: a spike after a flat stretch attains
      Samuelson's bound and exceeds 1. */
  lemma BandStrengthCanExceedOne(s: string, root: real -> real)
    requires IsRoot(root)
    ensures var out := BandSignals(s, BandsOf(20, 2.0, Spike(20), root));
      |out| == 1 && out[0].direction == Sell && out[0].strength > 1.0 && Square(out[0].strength - 0.5) * 16.0 == 19.0
  {
    hide Mean, Variance, Flat;
    var w := Spike(20);
    assert Window(w, 20) == w;
    SamuelsonIsTight(20);
    VarianceZeroIffFlat(w);
    PctBIsDeviation(20, 2.0, w, root);
    SpikeMoments(20);
    var b, v := BandsOf(20, 2.0, w, root).value, Variance(w);
    var t := Square(b.pctB - 0.5) * 16.0;
    assert 4.0 * Square(2.0) == 16.0;
    assert t * v == 19.0 * v;
    SameFactor(v, t, 19.0);
    if b.pctB <= 1.0 {
      var y := b.pctB - 0.5;
      SquareOfSmall(y);
    }
  }

  // ---- Exactly when a strength is in the documented range ----

  predicate InRange(strength: real) { 0.0 <= strength <= 1.0 }

  lemma SquareOrder(y: real)
    ensures Square(y) <= 0.25 <==> -0.5 <= y <= 0.5
  {
    assert 0.25 - Square(y) == (0.5 - y) * (0.5 + y);
    if -0.5 <= y <= 0.5 {
      ProductNonnegative(0.5 - y, 0.5 + y);
    } else if y > 0.5 {
      ProductPositive(y - 0.5, y + 0.5, (y - 0.5) * (y + 0.5));
    } else {
      ProductPositive(-y - 0.5, -y + 0.5, (-y - 0.5) * (-y + 0.5));
    }
  }

  lemma ScaleOrder(q: real, v: real)
    requires v > 0.0
    ensures q * 16.0 * v <= 4.0 * v <==> q <= 0.25
  {
    if q <= 0.25 {
      ProductNonnegative(0.25 - q, v);
      assert (0.25 - q) * v == 0.25 * v - q * v;
    } else {
      ProductPositive(q - 0.25, v, (q - 0.25) * v);
    }
  }

  /** The newest price lies between its own bands. */
  predicate InsideBands(prices: seq<real>)
    requires |prices| >= 20
  {
    var w := Window(prices, 20);
    Square(w[19] - Mean(w)) <= 4.0 * Variance(w)
  }

  lemma PctBInUnit(prices: seq<real>, root: real -> real)
    requires IsRoot(root) && |prices| >= 20
    ensures InsideBands(prices) <==> 0.0 <= BandsOf(20, 2.0, prices, root).value.pctB <= 1.0
  {
    hide Mean, Variance, Flat, BandsFrom;
    var w := Window(prices, 20);
    var y := BandsOf(20, 2.0, prices, root).value.pctB - 0.5;
    VarianceZeroIffFlat(w);
    if Flat(w) {
      PctBBound(20, 2.0, prices, root);
      Samuelson(w);
    } else {
      PctBIsDeviation(20, 2.0, prices, root);
      assert 4.0 * Square(2.0) == 16.0;
      ScaleOrder(Square(y), Variance(w));
      SquareOrder(y);
    }
  }

  /** A Bollinger signal's strength is in 0..1 exactly when the newest price is at most two standard deviations
      from the mean of its window. */
  lemma BandStrengthInRange(s: string, prices: seq<real>, root: real -> real)
    requires IsRoot(root)
    ensures (forall x <- BandSignals(s, BandsOf(20, 2.0, prices, root)) :: InRange(x.strength))
       <==> (|prices| >= 20 ==> InsideBands(prices))
  {
    hide BandsFrom, InsideBands;
    if |prices| >= 20 {
      PctBInUnit(prices, root);
      var b := BandsOf(20, 2.0, prices, root).value;
      var out := BandSignals(s, BandsOf(20, 2.0, prices, root));
      if b.pctB < 0.05 || b.pctB > 0.95 { assert out[0] in out; }
    }
  }

  predicate CrossingFits(price: real, vwap: real) { price == vwap || (vwap > 0.0 && 0.0 <= price <= 2.0 * vwap) }

  /** A crossing's strength is in 0..1 exactly when the price is the VWAP itself or the VWAP is positive and the
      price between 0 and twice the VWAP; it is negative exactly when the VWAP is negative and not the price. */
  lemma CrossStrengthInRange(price: real, vwap: Option<real>, prev: Option<bool>)
    requires CrossOf(price, vwap, prev).Fired?
    ensures vwap.Some?
    ensures var strength, v := CrossOf(price, vwap, prev).strength, vwap.value;
      && (InRange(strength) <==> CrossingFits(price, v))
      && (strength < 0.0 <==> v < 0.0 && price != v)
  {
    var v := vwap.value;
    var d := Abs(price - v);
    var q := d / v;
    assert q * v == d;
    if v > 0.0 {
      if q < 0.0 { NonpositiveProduct(q, v, d); }
      if q > 1.0 { ProductPositive(q - 1.0, v, (q - 1.0) * v); } else { ProductNonnegative(1.0 - q, v); }
    } else {
      if q > 0.0 { ProductPositive(q, -v, -d); }
    }
  }

  /** Whatever a trade returns, all its strengths are in 0..1 exactly when the newest price is inside its bands and a
      crossing, if one fires, is no further from the VWAP than the VWAP is from 0. */
  lemma StrengthsInRange(e: EngineState, s: string, tick: Tick, root: real -> real)
    requires IsRoot(root) && TradeOutcome(e, s, tick, root).Signals?
    ensures var all := TicksOf(e, s) + [tick];
      (forall x <- TradeOutcome(e, s, tick, root).list :: InRange(x.strength))
      <==> && (|all| >= 20 ==> InsideBands(Prices(all)))
           && (TradeCross(e, s, tick).Fired? ==> CrossingFits(tick.price, VwapOf(all).value))
  {
    hide RsiOf, BandsOf, VwapOf, InsideBands, CrossOf, CrossingFits, RsiSignals, BandSignals;
    var all := TicksOf(e, s) + [tick];
    var prices, c := Prices(all), TradeCross(e, s, tick);
    var rsi, bands := RsiSignals(s, RsiOf(14, prices)), BandSignals(s, BandsOf(20, 2.0, prices, root));
    StrengthBounds(s, prices, root);
    BandStrengthInRange(s, prices, root);
    var list := TradeOutcome(e, s, tick, root).list;
    if c.Fired? {
      CrossStrengthInRange(tick.price, VwapOf(all), AboveOf(e, s));
      assert list == rsi + bands + [Signal(s, "VWAP_CROSS", c.direction, c.strength)];
    } else {
      assert list == rsi + bands;
    }
    UnionInRange(rsi, bands, if c.Fired? then [Signal(s, "VWAP_CROSS", c.direction, c.strength)] else []);
  }

  lemma UnionInRange(a: seq<Signal>, b: seq<Signal>, c: seq<Signal>)
    requires forall x <- a :: InRange(x.strength)
    ensures (forall x <- a + b + c :: InRange(x.strength))
       <==> (forall x <- b :: InRange(x.strength)) && (forall x <- c :: InRange(x.strength))
  {
    hide InRange;
    assert forall x <- b :: x in a + b + c;
    assert forall x <- c :: x in a + b + c;
  }

  /** Two ordinary trades give a crossing of strength 9: ten at 1, then one at 100 against a VWAP of 10. */
  lemma CrossStrengthCanExceedOne(s: string, root: real -> real)
    ensures TradeOutcome(Run([Trade(s, Tick(1.0, 10))]), s, Tick(100.0, 1), root)
         == Signals([Signal(s, "VWAP_CROSS", Buy, 9.0)])
  {
    var first, second := Tick(1.0, 10), Tick(100.0, 1);
    var e := Run([Trade(s, first)]);
    assert [Trade(s, first)] == [] + [Trade(s, first)];
    assert e == AfterTrade(Run([]), s, first);
    OneTickVwap(first);
    assert [] + [first] == [first];
    VwapPush([], first);
    VwapPush([first], second);
    var all := [first] + [second];
    assert SumPq(all) == 110.0 && SumQ(all) == 11;
    assert |Prices(all)| == 2;
  }
}
