/** Which signals a trade returns, read off the history of prices and quantities. */
module SignalLaws {
  import opened BollingerLaws
  import opened Collections
  import opened EngineLaws
  import opened IndicatorLaws
  import opened Indicators
  import opened SignalEngine

  // ---- RSI ----

  predicate IsSignal(x: Signal, symbol: string, name: string, direction: Direction) {
    x.symbol == symbol && x.name == name && x.direction == direction
  }

  /** Over more than 14 prices, with `g` and `l` the smoothed gains and losses: a BUY when `7 g < 3 l`, a SELL when
      `3 g > 7 l`, each as strong as it is past its threshold. */
  predicate SaysRsi(list: seq<Signal>, s: string, prices: seq<real>) {
    if |prices| <= 14 then list == []
    else
      var g, l := SmoothedFrom(14, Gains(prices)), SmoothedFrom(14, Losses(prices));
      if 7.0 * g < 3.0 * l then
        |list| == 1 && IsSignal(list[0], s, "RSI_OVERSOLD", Buy)
        && list[0].strength * (3.0 * (g + l)) == 3.0 * l - 7.0 * g
      else if 3.0 * g > 7.0 * l then
        |list| == 1 && IsSignal(list[0], s, "RSI_OVERBOUGHT", Sell)
        && list[0].strength * (3.0 * (g + l)) == 3.0 * g - 7.0 * l
      else list == []
  }

  lemma StrengthTimes(v: real, s: real, p: real)
    requires p == v * s
    ensures (30.0 - v) / 30.0 * (3.0 * s) == (30.0 * s - p) / 10.0
    ensures (v - 70.0) / 30.0 * (3.0 * s) == (p - 70.0 * s) / 10.0
  {}

  lemma RsiThresholds(v: real, g: real, l: real, p: real)
    requires g >= 0.0 && l >= 0.0 && g + l > 0.0 && p == v * (g + l) == 100.0 * g
    ensures v < 30.0 <==> 7.0 * g < 3.0 * l
    ensures v > 70.0 <==> 3.0 * g > 7.0 * l
    ensures (30.0 - v) / 30.0 * (3.0 * (g + l)) == 3.0 * l - 7.0 * g
    ensures (v - 70.0) / 30.0 * (3.0 * (g + l)) == 3.0 * g - 7.0 * l
  {
    var s := g + l;
    assert p == v * s;
    ScaleLess(v, 30.0, s, p, 30.0 * s);
    ScaleLess(70.0, v, s, 70.0 * s, p);
    StrengthTimes(v, s, p);
  }

  lemma ScaleLess(x: real, y: real, s: real, p: real, q: real)
    requires s > 0.0 && p == x * s && q == y * s
    ensures x < y <==> p < q
  {
    if x < y {
      ProductPositive(y - x, s, q - p);
    } else {
      ProductNonnegative(x - y, s);
    }
  }

  lemma RsiSignalsRead(s: string, prices: seq<real>)
    ensures SaysRsi(RsiSignals(s, RsiOf(14, prices)), s, prices)
  {
    hide RsiOf, SmoothedFrom, Gains, Losses;
    RsiReadsHistory(14, prices);
    if |prices| > 14 {
      var g, l := SmoothedFrom(14, Gains(prices)), SmoothedFrom(14, Losses(prices));
      if g + l > 0.0 {
        var v := RsiOf(14, prices).value;
        RsiThresholds(v, g, l, v * (g + l));
      }
    }
  }

  // ---- Bollinger bands ----

  /** Over at least 20 prices, with `d` the newest price's distance from the mean of the last 20 and `sd` their standard
      deviation: a BUY when it is more than 1.8 deviations below, a SELL when more than 1.8 above. */
  predicate SaysBands(list: seq<Signal>, s: string, prices: seq<real>, root: real -> real) {
    if |prices| < 20 then list == []
    else
      var w := prices[|prices| - 20..];
      var d, sd := w[19] - Mean(w), root(Variance(w));
      if d < -1.8 * sd then
        |list| == 1 && IsSignal(list[0], s, "BB_LOWER_TOUCH", Buy) && (list[0].strength - 0.5) * (4.0 * sd) == -d
      else if d > 1.8 * sd then
        |list| == 1 && IsSignal(list[0], s, "BB_UPPER_TOUCH", Sell) && (list[0].strength - 0.5) * (4.0 * sd) == d
      else list == []
  }

  lemma PctBThresholds(y: real, d: real, sd: real)
    requires sd > 0.0 && y * (2.0 * (2.0 * sd)) == d
    ensures y + 0.5 < 0.05 <==> d < -1.8 * sd
    ensures y + 0.5 > 0.95 <==> d > 1.8 * sd
  {
    ScaleLess(y, -0.45, 4.0 * sd, d, -1.8 * sd);
    ScaleLess(0.45, y, 4.0 * sd, 1.8 * sd, d);
  }

  lemma BandSignalsRead(s: string, prices: seq<real>, root: real -> real)
    requires IsRoot(root)
    ensures SaysBands(BandSignals(s, BandsOf(20, 2.0, prices, root)), s, prices, root)
  {
    hide Mean, Variance, Flat, Square;
    if |prices| >= 20 {
      var w := Window(prices, 20);
      assert w == prices[|prices| - 20..];
      var d, sd := w[19] - Mean(w), root(Variance(w));
      VarianceZeroIffFlat(w);
      SquareNonnegative(sd);
      if Flat(w) {
        Samuelson(w);
        SquareNonnegative(d);
        assert d == 0.0;
        PctBBound(20, 2.0, prices, root);
      } else {
        SquareZero();
        PctBOffset(w[19], Mean(w), 2.0, sd);
        PctBThresholds(BandsOf(20, 2.0, prices, root).value.pctB - 0.5, d, sd);
      }
    }
  }

  // ---- The crossing ----

  /** With a quantity traded and a side remembered: a signal when the price is on the other side of the VWAP, a BUY
      above it, as strong as the distance in units of the VWAP. */
  predicate SaysCross(list: seq<Signal>, s: string, price: real, ticks: seq<Tick>, side: Option<bool>) {
    if SumQ(ticks) == 0 || side == None then list == []
    else
      var v := SumPq(ticks) / SumQ(ticks) as real;
      if side.value == (price > v) then list == []
      else
        && |list| == 1 && IsSignal(list[0], s, "VWAP_CROSS", if price > v then Buy else Sell)
        && list[0].strength * v == if price > v then price - v else v - price
  }

  lemma CrossReads(s: string, price: real, ticks: seq<Tick>, side: Option<bool>)
    requires !CrossOf(price, VwapOf(ticks), side).DividedByZero?
    ensures var c := CrossOf(price, VwapOf(ticks), side);
      SaysCross(if c.Fired? then [Signal(s, "VWAP_CROSS", c.direction, c.strength)] else [], s, price, ticks, side)
  {
    hide SumQ, SumPq;
    var c := CrossOf(price, VwapOf(ticks), side);
    if c.Fired? {
      QuotientBack(Abs(price - VwapOf(ticks).value), VwapOf(ticks).value);
    }
  }

  // ---- A whole trade ----

  /** What any trade returns unless it raises: the RSI signal, then the Bollinger signal, then the crossing, each as its
      own history says. */
  lemma OutcomeReadsHistory(e: EngineState, s: string, tick: Tick, root: real -> real)
    returns (rsi: seq<Signal>, bands: seq<Signal>, cross: seq<Signal>)
    requires IsRoot(root) && !Raises(e, s, tick)
    ensures var all := TicksOf(e, s) + [tick];
      && TradeOutcome(e, s, tick, root) == Signals(rsi + bands + cross)
      && SaysRsi(rsi, s, Prices(all)) && SaysBands(bands, s, Prices(all), root)
      && SaysCross(cross, s, tick.price, all, AboveOf(e, s))
    ensures AboveOf(AfterTrade(e, s, tick), s)
         == var all := TicksOf(e, s) + [tick];
            if SumQ(all) == 0 then AboveOf(e, s) else Some(tick.price > SumPq(all) / SumQ(all) as real)
  {
    hide RsiOf, BandsOf, CrossOf, RsiSignals, BandSignals, SaysRsi, SaysBands, SaysCross, SumPq, SumQ, Raises;
    var all, c := TicksOf(e, s) + [tick], TradeCross(e, s, tick);
    RaisesExactly(e, s, tick, root);
    rsi := RsiSignals(s, RsiOf(14, Prices(all)));
    bands := BandSignals(s, BandsOf(20, 2.0, Prices(all), root));
    cross := if c.Fired? then [Signal(s, "VWAP_CROSS", c.direction, c.strength)] else [];
    RsiSignalsRead(s, Prices(all));
    BandSignalsRead(s, Prices(all), root);
    CrossReads(s, tick.price, all, AboveOf(e, s));
    assert rsi + bands + [] == rsi + bands;
  }

  /** A history that rises at every step is overbought: a SELL of strength 1; its mirror image is oversold: a BUY. */
  lemma RisingIsOverbought(s: string, prices: seq<real>)
    requires |prices| > 14 && forall i :: 0 <= i < |prices| - 1 ==> prices[i] < prices[i + 1]
    ensures RsiSignals(s, RsiOf(14, prices)) == [Signal(s, "RSI_OVERBOUGHT", Sell, 1.0)]
    ensures RsiSignals(s, RsiOf(14, Affine(-1.0, 0.0, prices))) == [Signal(s, "RSI_OVERSOLD", Buy, 1.0)]
  {
    hide RsiOf, Affine;
    assert prices[0] < prices[0 + 1];
    assert RiseCounts(14, prices);
    RsiOfNeverFalling(14, prices);
    RsiOfNeverRising(14, prices);
  }
}
