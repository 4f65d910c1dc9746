/** The signal engine: per-instrument indicators, three signals, session resets. */
module SignalEngine {
  import opened Collections
  import opened Indicators

  datatype Direction = Buy | Sell

  datatype Signal = Signal(symbol: string, name: string, direction: Direction, strength: real)

  // ---- The signals on values ----

  function RsiSignals(symbol: string, rsi: Option<real>): seq<Signal> {
    if rsi == None then []
    else if rsi.value < 30.0 then [Signal(symbol, "RSI_OVERSOLD", Buy, (30.0 - rsi.value) / 30.0)]
    else if rsi.value > 70.0 then [Signal(symbol, "RSI_OVERBOUGHT", Sell, (rsi.value - 70.0) / 30.0)]
    else []
  }

  function BandSignals(symbol: string, bb: Option<BandValue>): seq<Signal> {
    if bb == None then []
    else if bb.value.pctB < 0.05 then [Signal(symbol, "BB_LOWER_TOUCH", Buy, 1.0 - bb.value.pctB)]
    else if bb.value.pctB > 0.95 then [Signal(symbol, "BB_UPPER_TOUCH", Sell, bb.value.pctB)]
    else []
  }

  /** One evaluation of the crossing signal. A crossing against a VWAP of zero divides by zero. */
  datatype Cross = Quiet | Fired(direction: Direction, strength: real) | DividedByZero(direction: Direction)

  function Side(above: bool): Direction { if above then Buy else Sell }

  function Abs(x: real): real { if x < 0.0 then -x else x }

  function CrossOf(price: real, vwap: Option<real>, prev: Option<bool>): Cross {
    if vwap == None then Quiet
    else
      var above := price > vwap.value;
      if prev == None || prev.value == above then Quiet
      else if vwap.value == 0.0 then DividedByZero(Side(above))
      else Fired(Side(above), Abs(price - vwap.value) / vwap.value)
  }

  /** What one trade returns: the signals in order, or the error the division raises. */
  datatype Outcome = Signals(list: seq<Signal>) | ZeroDivision

  function CrossOutcome(symbol: string, before: seq<Signal>, c: Cross): Outcome {
    match c
    case Quiet => Signals(before)
    case Fired(direction, strength) => Signals(before + [Signal(symbol, "VWAP_CROSS", direction, strength)])
    case DividedByZero(_) => ZeroDivision
  }

  // ---- The engine on values ----

  /** What the engine remembers: each instrument's trades since its last reset, and the side of the VWAP its
      last evaluated trade was on, which no reset clears. */
  datatype EngineState = EngineState(ticks: map<string, seq<Tick>>, above: map<string, bool>)

  function Prices(ticks: seq<Tick>): (p: seq<real>)
    ensures |p| == |ticks|
  {
    seq(|ticks|, i requires 0 <= i < |ticks| => ticks[i].price)
  }

  function TicksOf(e: EngineState, symbol: string): seq<Tick> {
    if symbol in e.ticks then e.ticks[symbol] else []
  }

  function AboveOf(e: EngineState, symbol: string): Option<bool> {
    if symbol in e.above then Some(e.above[symbol]) else None
  }

  function TradeCross(e: EngineState, symbol: string, tick: Tick): Cross {
    CrossOf(tick.price, VwapOf(TicksOf(e, symbol) + [tick]), AboveOf(e, symbol))
  }

  function AfterTrade(e: EngineState, symbol: string, tick: Tick): EngineState {
    var ticks := TicksOf(e, symbol) + [tick];
    var vwap := VwapOf(ticks);
    EngineState(e.ticks[symbol := ticks],
                if vwap == None then e.above else e.above[symbol := tick.price > vwap.value])
  }

  function TradeOutcome(e: EngineState, symbol: string, tick: Tick, root: real -> real): Outcome {
    var prices := Prices(TicksOf(e, symbol) + [tick]);
    CrossOutcome(symbol, RsiSignals(symbol, RsiOf(14, prices)) + BandSignals(symbol, BandsOf(20, 2.0, prices, root)),
                 TradeCross(e, symbol, tick))
  }

  /** An empty symbol counts as no symbol: it resets everything. */
  predicate Applies(reset: Option<string>, symbol: string) {
    reset == None || reset.value == "" || reset.value == symbol
  }

  function AfterReset(e: EngineState, reset: Option<string>): EngineState {
    EngineState(map s <- e.ticks :: if Applies(reset, s) then [] else e.ticks[s], e.above)
  }

  // ---- Objects ----

  class VWAPCrossSignal {
    var prevAbove: map<string, bool>

    constructor ()
      ensures prevAbove == map[]
    {
      prevAbove := map[];
    }

    method Evaluate(symbol: string, price: real, vwap: Option<real>) returns (c: Cross)
      modifies this
      ensures c == CrossOf(price, vwap, old(if symbol in prevAbove then Some(prevAbove[symbol]) else None))
      ensures prevAbove == if vwap == None then old(prevAbove) else old(prevAbove)[symbol := price > vwap.value]
    {
      if vwap == None { return Quiet; }
      var above := price > vwap.value;
      var prev := if symbol in prevAbove then Some(prevAbove[symbol]) else None;
      prevAbove := prevAbove[symbol := above];
      if prev == None || prev.value == above { return Quiet; }
      var direction := if above then Buy else Sell;
      if vwap.value == 0.0 { return DividedByZero(direction); }
      c := Fired(direction, Abs(price - vwap.value) / vwap.value);
    }
  }

  class InstrumentState {
    const rsi: RSI
    const bb: BollingerBands
    const ema9: EMA
    const ema21: EMA
    const vwap: SessionVWAP
    ghost const repr: set<object>
    ghost var ticks: seq<Tick>

    ghost predicate Valid()
      reads this, repr
    {
      && {this, rsi, bb, bb.buf, ema9, ema21, vwap} <= repr && ema9 != ema21
      && rsi.Valid() && bb.Valid() && ema9.Valid() && ema21.Valid() && vwap.Valid()
      && rsi.period == 14 && bb.period == 20 && bb.numStd == 2.0 && ema9.period == 9 && ema21.period == 21
      && rsi.history == bb.history == ema9.history == ema21.history == Prices(ticks)
      && vwap.history == ticks
    }

    constructor ()
      ensures Valid() && ticks == [] && fresh(repr)
    {
      hide RSI.Valid, BollingerBands.Valid, EMA.Valid, SessionVWAP.Valid;
      rsi := new RSI(14);
      var bands := new BollingerBands(20, 2.0);
      bb := bands;
      ema9 := new EMA(9);
      ema21 := new EMA(21);
      vwap := new SessionVWAP();
      ticks := [];
      repr := {this, rsi, bands, bands.buf, ema9, ema21, vwap};
    }

    method OnTrade(price: real, qty: int)
      requires Valid()
      modifies repr
      ensures Valid() && ticks == old(ticks) + [Tick(price, qty)]
    {
      hide RSI.Valid, BollingerBands.Valid, EMA.Valid, SessionVWAP.Valid;
      assert Prices(ticks + [Tick(price, qty)]) == Prices(ticks) + [price];
      rsi.Update(price);
      bb.Update(price);
      ema9.Update(price);
      ema21.Update(price);
      vwap.UpdateTrade(price, qty);
      ticks := ticks + [Tick(price, qty)];
    }

    method SessionReset()
      requires Valid()
      modifies repr
      ensures Valid() && ticks == []
    {
      hide RSI.Valid, BollingerBands.Valid, EMA.Valid, SessionVWAP.Valid;
      rsi.Reset();
      bb.Reset();
      ema9.Reset();
      ema21.Reset();
      vwap.Reset();
      ticks := [];
    }

    /** The context handed to the signals: the indicators' values on the instrument's trades. */
    method Values(root: real -> real)
      returns (rsiValue: Option<real>, bands: Option<BandValue>, vwapValue: Option<real>)
      requires Valid()
      ensures rsiValue == RsiOf(14, Prices(ticks))
      ensures bands == BandsOf(20, 2.0, Prices(ticks), root)
      ensures vwapValue == VwapOf(ticks)
    {
      rsiValue := rsi.Value();
      bands := bb.Value(root);
      vwapValue := vwap.Value();
    }
  }

  class SignalEngine {
    var states: map<string, InstrumentState>
    const cross: VWAPCrossSignal
    ghost var repr: set<object>

    ghost predicate Valid()
      reads this, repr
    {
      && this in repr && cross in repr
      && (forall s <- states :: states[s] in repr && states[s].repr <= repr - {this, cross} && states[s].Valid())
      && (forall s <- states, t <- states :: s != t ==> states[s].repr !! states[t].repr)
    }

    ghost function View(): EngineState
      reads this, cross, states.Values
    {
      EngineState(map s <- states :: states[s].ticks, cross.prevAbove)
    }

    constructor ()
      ensures Valid() && View() == EngineState(map[], map[]) && fresh(repr)
    {
      states := map[];
      cross := new VWAPCrossSignal();
      repr := {this, cross};
    }

    method OnTrade(symbol: string, price: real, qty: int, root: real -> real) returns (out: Outcome)
      requires Valid()
      modifies repr
      ensures Valid() && fresh(repr - old(repr))
      ensures View() == AfterTrade(old(View()), symbol, Tick(price, qty))
      ensures out == TradeOutcome(old(View()), symbol, Tick(price, qty), root)
    {
      hide RsiOf, BandsOf, VwapOf, RsiSignals, BandSignals, CrossOf, CrossOutcome;
      hide SignalEngine.Valid, SignalEngine.View;
      SetDefault(symbol);
      UpdateOne(symbol, price, qty);
      var rsi, bb, vwap := Context(symbol, root);
      var results := EvaluateRsi(symbol, rsi);
      var more := EvaluateBands(symbol, bb);
      var c := EvaluateCross(symbol, price, vwap);
      out := CrossOutcome(symbol, results + more, c);
    }

    method Context(symbol: string, root: real -> real)
      returns (rsi: Option<real>, bb: Option<BandValue>, vwap: Option<real>)
      requires Valid() && symbol in states
      ensures symbol in View().ticks
      ensures rsi == RsiOf(14, Prices(View().ticks[symbol])) && vwap == VwapOf(View().ticks[symbol])
      ensures bb == BandsOf(20, 2.0, Prices(View().ticks[symbol]), root)
    {
      hide InstrumentState.Valid, RsiOf, BandsOf, VwapOf;
      rsi, bb, vwap := states[symbol].Values(root);
    }

    /** `setdefault`: the instrument's state is created when the symbol is new. */
    method SetDefault(symbol: string)
      requires Valid()
      modifies repr
      ensures Valid() && fresh(repr - old(repr)) && symbol in states
      ensures View() == EngineState(old(View()).ticks[symbol := TicksOf(old(View()), symbol)], old(View()).above)
    {
      hide InstrumentState.Valid;
      if symbol !in states {
        var state := new InstrumentState();
        states := states[symbol := state];
        repr := repr + state.repr + {state};
      }
    }

    /** Feeding one instrument leaves every other alone. */
    method UpdateOne(symbol: string, price: real, qty: int)
      requires Valid() && symbol in states
      modifies repr
      ensures Valid() && repr == old(repr) && states == old(states)
      ensures symbol in old(View()).ticks
      ensures View() == EngineState(old(View()).ticks[symbol := old(View()).ticks[symbol] + [Tick(price, qty)]],
                                    old(View()).above)
    {
      hide InstrumentState.Valid;
      OwnRepr();
      states[symbol].OnTrade(price, qty);
    }

    method EvaluateCross(symbol: string, price: real, vwap: Option<real>) returns (c: Cross)
      requires Valid()
      modifies repr
      ensures Valid() && repr == old(repr)
      ensures c == CrossOf(price, vwap, AboveOf(old(View()), symbol))
      ensures View() == EngineState(old(View()).ticks,
                                    if vwap == None then old(View()).above
                                    else old(View()).above[symbol := price > vwap.value])
    {
      hide InstrumentState.Valid, CrossOf;
      OwnRepr();
      c := cross.Evaluate(symbol, price, vwap);
    }

    lemma OwnRepr()
      requires Valid()
      ensures forall s <- states :: states[s] in states[s].repr
    {}

    static method EvaluateRsi(symbol: string, rsi: Option<real>) returns (out: seq<Signal>)
      ensures out == RsiSignals(symbol, rsi)
    {
      if rsi == None { return []; }
      if rsi.value < 30.0 { return [Signal(symbol, "RSI_OVERSOLD", Buy, (30.0 - rsi.value) / 30.0)]; }
      if rsi.value > 70.0 { return [Signal(symbol, "RSI_OVERBOUGHT", Sell, (rsi.value - 70.0) / 30.0)]; }
      out := [];
    }

    static method EvaluateBands(symbol: string, bb: Option<BandValue>) returns (out: seq<Signal>)
      ensures out == BandSignals(symbol, bb)
    {
      if bb == None { return []; }
      if bb.value.pctB < 0.05 { return [Signal(symbol, "BB_LOWER_TOUCH", Buy, 1.0 - bb.value.pctB)]; }
      if bb.value.pctB > 0.95 { return [Signal(symbol, "BB_UPPER_TOUCH", Sell, bb.value.pctB)]; }
      out := [];
    }

    method SessionReset(symbol: Option<string>)
      requires Valid()
      modifies repr
      ensures Valid() && repr == old(repr)
      ensures View() == AfterReset(old(View()), symbol)
    {
      hide SignalEngine.Valid, SignalEngine.View;
      ViewKeys();
      if symbol != None && symbol.value != "" {
        if symbol.value in states {
          ResetOne(symbol.value);
        }
      } else {
        ResetAll();
      }
    }

    method ResetAll()
      requires Valid()
      modifies repr
      ensures Valid() && repr == old(repr)
      ensures View() == EngineState(map s <- old(View()).ticks :: [], old(View()).above)
    {
      hide SignalEngine.Valid, SignalEngine.View;
      ViewKeys();
      var todo := states.Keys;
      ghost var before := View();
      while todo != {}
        invariant todo <= states.Keys && states == old(states) && repr == old(repr) && Valid()
        invariant View()
               == EngineState(map s <- before.ticks :: if s in todo then before.ticks[s] else [], before.above)
        decreases todo
      {
        var s :| s in todo;
        ResetOne(s);
        todo := todo - {s};
      }
    }

    lemma ViewKeys()
      ensures View().ticks.Keys == states.Keys
    {}

    method ResetOne(symbol: string)
      requires Valid() && symbol in states
      modifies repr
      ensures Valid() && repr == old(repr) && states == old(states)
      ensures symbol in old(View()).ticks
      ensures View() == EngineState(old(View()).ticks[symbol := []], old(View()).above)
    {
      hide InstrumentState.Valid;
      OwnRepr();
      states[symbol].SessionReset();
    }
  }
}
