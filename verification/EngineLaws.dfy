/** Properties of whole runs of the signal engine. */
module EngineLaws {
  import opened BollingerLaws
  import opened Collections
  import opened IndicatorLaws
  import opened Indicators
  import opened SignalEngine

  datatype Op = Trade(symbol: string, tick: Tick) | Reset(target: Option<string>)

  const FRESH := EngineState(map[], map[])

  function Step(e: EngineState, op: Op): EngineState {
    match op
    case Trade(symbol, tick) => AfterTrade(e, symbol, tick)
    case Reset(symbol) => AfterReset(e, symbol)
  }

  function Run(ops: seq<Op>): EngineState {
    if ops == [] then FRESH else Step(Run(ops[..|ops| - 1]), ops[|ops| - 1])
  }

  /** What the trades of one symbol return over a run, in order. */
  function OutcomesFor(ops: seq<Op>, s: string, root: real -> real): seq<Outcome> {
    if ops == [] then []
    else
      var before, op := ops[..|ops| - 1], ops[|ops| - 1];
      OutcomesFor(before, s, root) +
        if op.Trade? && op.symbol == s then [TradeOutcome(Run(before), s, op.tick, root)] else []
  }

  // ---- Symbols do not interfere ----

  predicate Concerns(op: Op, s: string) {
    match op
    case Trade(symbol, _) => symbol == s
    case Reset(symbol) => Applies(symbol, s)
  }

  /** The run with only the symbol's own trades and the resets that apply to it. */
  function Project(ops: seq<Op>, s: string): seq<Op> {
    if ops == [] then []
    else Project(ops[..|ops| - 1], s) + if Concerns(ops[|ops| - 1], s) then [ops[|ops| - 1]] else []
  }

  /** The engine's memory of a symbol depends only on its memory before and on operations that concern it. */
  lemma StepIsLocal(e: EngineState, f: EngineState, op: Op, s: string)
    requires TicksOf(e, s) == TicksOf(f, s) && AboveOf(e, s) == AboveOf(f, s)
    ensures TicksOf(Step(e, op), s) == TicksOf(if Concerns(op, s) then Step(f, op) else f, s)
    ensures AboveOf(Step(e, op), s) == AboveOf(if Concerns(op, s) then Step(f, op) else f, s)
  {}

  /** In every interleaved run, each symbol's signals are those of the run projected on that symbol. */
  lemma {:induction false} SymbolsDoNotInterfere(ops: seq<Op>, s: string, root: real -> real)
    ensures OutcomesFor(ops, s, root) == OutcomesFor(Project(ops, s), s, root)
    ensures TicksOf(Run(ops), s) == TicksOf(Run(Project(ops, s)), s)
    ensures AboveOf(Run(ops), s) == AboveOf(Run(Project(ops, s)), s)
  {
    hide Step, TicksOf, AboveOf, CrossOf, CrossOutcome, RsiSignals, BandSignals, RsiOf, BandsOf, VwapOf, Concerns;
    if ops == [] {
    } else {
      var before, op := ops[..|ops| - 1], ops[|ops| - 1];
      SymbolsDoNotInterfere(before, s, root);
      StepIsLocal(Run(before), Run(Project(before, s)), op, s);
      TradeConcerns(op, s);
      if Concerns(op, s) {
        assert Project(ops, s)[..|Project(before, s)|] == Project(before, s);
      } else {
        assert Project(ops, s) == Project(before, s);
      }
    }
  }

  lemma TradeConcerns(op: Op, s: string)
    ensures op.Trade? ==> (Concerns(op, s) <==> op.symbol == s)
  {}

  // ---- Crossings alternate ----

  /** A symbol's crossings over a run, in order: those signalled and those lost to a division by zero. */
  function CrossLog(ops: seq<Op>, s: string): (log: seq<Cross>)
    ensures forall c <- log :: !c.Quiet?
  {
    if ops == [] then []
    else
      var before, op := ops[..|ops| - 1], ops[|ops| - 1];
      CrossLog(before, s) + if op.Trade? && op.symbol == s then Logged(TradeCross(Run(before), s, op.tick)) else []
  }

  function Logged(c: Cross): seq<Cross> { if c.Quiet? then [] else [c] }

  function Directions(log: seq<Cross>): (d: seq<Direction>)
    requires forall c <- log :: !c.Quiet?
    ensures |d| == |log|
  {
    seq(|log|, i requires 0 <= i < |log| => assert log[i] in log; log[i].direction)
  }

  /** The crossings that come back as signals. */
  function Returned(log: seq<Cross>): seq<Direction> {
    if log == [] then []
    else
      var last := log[|log| - 1];
      Returned(log[..|log| - 1]) + if last.Fired? then [last.direction] else []
  }

  function Crossings(ops: seq<Op>, s: string): seq<Direction> { Directions(CrossLog(ops, s)) }

  predicate Alternates(d: seq<Direction>) { forall i :: 0 <= i < |d| - 1 ==> d[i] != d[i + 1] }

  lemma NothingAlternates()
    ensures Alternates([]) && Directions([]) == []
  {}

  lemma AlternatesPush(d: seq<Direction>, last: Direction)
    ensures Alternates(d + [last]) <==> Alternates(d) && (d != [] ==> d[|d| - 1] != last)
  {
    var all := d + [last];
    if Alternates(all) {
      assert forall i :: 0 <= i < |d| ==> all[i] == d[i];
      assert d != [] ==> all[|d| - 1] != all[|d| - 1 + 1];
    }
  }

  lemma DirectionsPush(log: seq<Cross>, c: Cross)
    requires (forall x <- log :: !x.Quiet?) && !c.Quiet?
    ensures Directions(log + [c]) == Directions(log) + [c.direction]
  {}

  /** Over every run, resets included, a symbol's crossings strictly alternate, and the last one is the side the
      engine remembers. */
  lemma {:induction false} CrossingsAlternate(ops: seq<Op>, s: string)
    ensures Alternates(Crossings(ops, s))
    ensures var d, above := Crossings(ops, s), AboveOf(Run(ops), s);
      d != [] ==> above.Some? && d[|d| - 1] == Side(above.value)
  {
    hide VwapOf, TradeCross, Alternates, Directions, AfterTrade;
    if ops == [] {
      NothingAlternates();
    } else {
      var before, op := ops[..|ops| - 1], ops[|ops| - 1];
      CrossingsAlternate(before, s);
      if op.Trade? && op.symbol == s {
        var c := TradeCross(Run(before), s, op.tick);
        CrossFlips(Run(before), s, op.tick);
        if c.Quiet? {
          assert CrossLog(before, s) + [] == CrossLog(before, s);
        } else {
          DirectionsPush(CrossLog(before, s), c);
          AlternatesPush(Crossings(before, s), c.direction);
        }
      } else {
        assert CrossLog(before, s) + [] == CrossLog(before, s);
        StepIsLocal(Run(before), Run(before), op, s);
      }
    }
  }

  lemma CrossFlips(e: EngineState, s: string, tick: Tick)
    ensures var c, prev, next := TradeCross(e, s, tick), AboveOf(e, s), AboveOf(AfterTrade(e, s, tick), s);
      if c.Quiet? then prev.None? || prev == next
      else prev.Some? && next.Some? && c.direction == Side(next.value) && c.direction != Side(prev.value)
  {}

  /** Directions of the VWAP_CROSS signals a symbol's trades return. */
  function CrossSignals(ops: seq<Op>, s: string, root: real -> real): seq<Direction> {
    SignalsNamed(OutcomesFor(ops, s, root))
  }

  function DirectionsIn(list: seq<Signal>): seq<Direction> {
    if list == [] then []
    else
      var last := list[|list| - 1];
      DirectionsIn(list[..|list| - 1]) + if last.name == "VWAP_CROSS" then [last.direction] else []
  }

  function SignalsNamed(outcomes: seq<Outcome>): seq<Direction> {
    if outcomes == [] then []
    else
      var last := outcomes[|outcomes| - 1];
      SignalsNamed(outcomes[..|outcomes| - 1]) + if last.Signals? then DirectionsIn(last.list) else []
  }

  lemma OutcomeDirections(e: EngineState, s: string, tick: Tick, root: real -> real)
    ensures var out, c := TradeOutcome(e, s, tick, root), TradeCross(e, s, tick);
      (out.ZeroDivision? <==> c.DividedByZero?)
      && (out.Signals? ==> DirectionsIn(out.list) == Returned(Logged(c)))
  {
    hide RsiOf, BandsOf, VwapOf;
    var prices := Prices(TicksOf(e, s) + [tick]);
    var rsi, bands := RsiSignals(s, RsiOf(14, prices)), BandSignals(s, BandsOf(20, 2.0, prices, root));
    var c := TradeCross(e, s, tick);
    NoneCross(rsi, bands);
    if c.Fired? {
      var all := rsi + bands + [Signal(s, "VWAP_CROSS", c.direction, c.strength)];
      assert all[..|all| - 1] == rsi + bands;
    }
  }

  lemma {:induction false} NoneCross(a: seq<Signal>, b: seq<Signal>)
    requires |a| <= 1 && |b| <= 1 && forall x <- a + b :: x.name != "VWAP_CROSS"
    ensures DirectionsIn(a + b) == []
  {
    var all := a + b;
    assert forall i :: 0 <= i < |all| ==> all[i] in all;
    if |all| >= 1 { assert all[|all| - 1].name != "VWAP_CROSS"; }
    if |all| == 2 {
      var one := all[..1];
      assert one[..0] == [];
      assert one[0] == all[0] && all[0] in all;
      assert DirectionsIn(one) == [];
    }
  }

  /** The trade raises: it brings the VWAP to zero and puts its price on the other side of it. */
  predicate Raises(e: EngineState, s: string, tick: Tick) {
    var all := TicksOf(e, s) + [tick];
    && SumQ(all) != 0 && SumPq(all) == 0.0
    && AboveOf(e, s).Some? && AboveOf(e, s).value != (tick.price > 0.0)
  }

  /** Exactly when a trade raises, from the sums and the side kept before it. */
  lemma RaisesExactly(e: EngineState, s: string, tick: Tick, root: real -> real)
    ensures TradeOutcome(e, s, tick, root).ZeroDivision? <==> Raises(e, s, tick)
    ensures TradeCross(e, s, tick).DividedByZero? <==> Raises(e, s, tick)
  {
    OutcomeDirections(e, s, tick, root);
    hide TradeOutcome, TicksOf, AboveOf;
    var all := TicksOf(e, s) + [tick];
    if SumQ(all) != 0 {
      ZeroQuotient(SumPq(all), SumQ(all) as real);
    }
  }

  lemma ZeroQuotient(p: real, q: real)
    requires q != 0.0
    ensures p / q == 0.0 <==> p == 0.0
  {
    var r := p / q;
    assert r * q == p;
  }

  /** No trade of the symbol raises at its place in the run. */
  predicate NeverRaises(ops: seq<Op>, s: string) {
    forall i :: 0 <= i < |ops| && ops[i].Trade? && ops[i].symbol == s ==> !Raises(Run(ops[..i]), s, ops[i].tick)
  }

  lemma {:induction false} SignalsAreReturned(ops: seq<Op>, s: string, root: real -> real)
    ensures CrossSignals(ops, s, root) == Returned(CrossLog(ops, s))
    ensures NeverRaises(ops, s) <==> forall c <- CrossLog(ops, s) :: c.Fired?
  {
    hide TradeOutcome, TradeCross, Run, Raises, NeverRaises, DirectionsIn;
    if ops == [] {
      NothingRaises(s);
    } else {
      var before, op := ops[..|ops| - 1], ops[|ops| - 1];
      SignalsAreReturned(before, s, root);
      NeverRaisesPush(ops, s);
      if op.Trade? && op.symbol == s {
        var outs := OutcomesFor(ops, s, root);
        OutcomeDirections(Run(before), s, op.tick, root);
        RaisesExactly(Run(before), s, op.tick, root);
        assert outs[..|outs| - 1] == OutcomesFor(before, s, root);
        ReturnedPush(CrossLog(before, s), TradeCross(Run(before), s, op.tick));
      } else {
        assert OutcomesFor(ops, s, root) == OutcomesFor(before, s, root);
        assert CrossLog(ops, s) == CrossLog(before, s);
      }
    }
  }

  lemma ReturnedPush(log: seq<Cross>, c: Cross)
    ensures Returned(log + Logged(c)) == Returned(log) + Returned(Logged(c))
    ensures Returned(Logged(c)) == if c.Fired? then [c.direction] else []
  {
    if c.Quiet? {
      assert log + [] == log;
    } else {
      assert (log + [c])[..|log|] == log && [c][..0] == [];
    }
  }

  lemma NothingRaises(s: string)
    ensures NeverRaises([], s)
  {}

  lemma NeverRaisesPush(ops: seq<Op>, s: string)
    requires ops != []
    ensures var before, op := ops[..|ops| - 1], ops[|ops| - 1];
      NeverRaises(ops, s) <==> NeverRaises(before, s) &&
                               (op.Trade? && op.symbol == s ==> !Raises(Run(before), s, op.tick))
  {
    hide Run, Raises;
    var before := ops[..|ops| - 1];
    assert forall i :: 0 <= i < |before| ==> before[..i] == ops[..i];
  }

  lemma {:induction false} ReturnsAll(log: seq<Cross>)
    requires forall c <- log :: !c.Quiet?
    ensures |Returned(log)| <= |log|
    ensures Returned(log) == Directions(log) <==> forall c <- log :: c.Fired?
  {
    if log == [] {
    } else {
      var before, c := log[..|log| - 1], log[|log| - 1];
      ReturnsAll(before);
      assert log == before + [c] && Directions(log) == Directions(before) + [c.direction];
      assert c in log && forall x <- before :: x in log;
      if Returned(log) == Directions(log) && c.Fired? {
        assert Returned(log)[..|before|] == Returned(before) && Directions(log)[..|before|] == Directions(before);
      }
    }
  }

  /** The VWAP_CROSS signals are all the crossings if and only if no trade raises. */
  lemma SignalsAreCrossings(ops: seq<Op>, s: string, root: real -> real)
    ensures CrossSignals(ops, s, root) == Crossings(ops, s) <==> NeverRaises(ops, s)
  {
    hide CrossLog, Returned, Directions, CrossSignals, NeverRaises;
    SignalsAreReturned(ops, s, root);
    ReturnsAll(CrossLog(ops, s));
  }

  // ---- Exactly when the signals alternate ----

  /** Two returned crossings with only lost ones between them. */
  predicate Consecutive(log: seq<Cross>, i: int, j: int) {
    && 0 <= i < j < |log| && log[i].Fired? && log[j].Fired?
    && forall k :: i < k < j ==> log[k].DividedByZero?
  }

  /** Between consecutive returned crossings the number of lost ones is even. */
  ghost predicate LossesPairUp(log: seq<Cross>) {
    forall i, j :: Consecutive(log, i, j) ==> (j - i - 1) % 2 == 0
  }

  lemma {:induction false} DirectionParity(d: seq<Direction>, i: nat, j: nat)
    requires i <= j < |d| && Alternates(d)
    ensures d[i] == d[j] <==> (j - i) % 2 == 0
  {
    if i == j {
    } else {
      DirectionParity(d, i, j - 1);
      assert d[j - 1] != d[j - 1 + 1];
    }
  }

  /** Where the last returned crossing stands in the log. */
  lemma {:induction false} LastReturned(log: seq<Cross>) returns (i: int)
    ensures -1 <= i < |log| && (i == -1 <==> Returned(log) == [])
    ensures i >= 0 ==> log[i].Fired? && Returned(log)[|Returned(log)| - 1] == log[i].direction
    ensures forall k :: i < k < |log| ==> !log[k].Fired?
  {
    if log == [] {
      i := -1;
    } else if log[|log| - 1].Fired? {
      i := |log| - 1;
    } else {
      i := LastReturned(log[..|log| - 1]);
    }
  }

  lemma PairUpPush(log: seq<Cross>, c: Cross, last: int)
    requires -1 <= last < |log| && (last >= 0 ==> log[last].Fired?) && forall x <- log :: !x.Quiet?
    requires forall k :: last < k < |log| ==> !log[k].Fired?
    ensures LossesPairUp(log + [c])
       <==> LossesPairUp(log) && (c.Fired? && last >= 0 ==> (|log| - last - 1) % 2 == 0)
  {
    var all := log + [c];
    assert forall k :: 0 <= k < |log| ==> all[k] == log[k] && log[k] in log;
    assert forall i, j :: j < |log| ==> (Consecutive(log, i, j) <==> Consecutive(all, i, j));
    if c.Fired? && last >= 0 {
      assert Consecutive(all, last, |log|);
    }
    forall i, j | Consecutive(all, i, j) ensures Consecutive(log, i, j) || (c.Fired? && i == last && j == |log|) {
      if j == |log| && i < last { assert all[last].Fired?; }
    }
    if LossesPairUp(all) {
      assert forall i, j :: Consecutive(log, i, j) ==> Consecutive(all, i, j);
    }
  }

  lemma NoLosses()
    ensures LossesPairUp([]) && Returned([]) == []
  {}

  lemma DirectionAt(log: seq<Cross>, i: nat)
    requires i < |log| && forall c <- log :: !c.Quiet?
    ensures !log[i].Quiet? && Directions(log)[i] == log[i].direction
  {
    assert log[i] in log;
  }

  /** Whether the newest crossing turns, when it is returned: the last returned one stands an odd distance back. */
  lemma TurnsWhenOdd(before: seq<Cross>, c: Cross, last: nat)
    requires last < |before| && !c.Quiet? && forall x <- before :: !x.Quiet?
    requires Alternates(Directions(before + [c]))
    ensures !before[last].Quiet?
    ensures before[last].direction != c.direction <==> (|before| - last - 1) % 2 == 0
  {
    hide Directions, Alternates;
    var all := before + [c];
    DirectionParity(Directions(all), last, |before|);
    DirectionAt(all, last);
    DirectionAt(all, |before|);
    assert (|before| - last) % 2 == 0 <==> (|before| - last - 1) % 2 != 0;
  }

  lemma {:induction false} ReturnedAlternate(log: seq<Cross>)
    requires (forall c <- log :: !c.Quiet?) && Alternates(Directions(log))
    ensures Alternates(Returned(log)) <==> LossesPairUp(log)
  {
    hide Alternates, LossesPairUp, Directions, Returned;
    if log == [] {
      NothingAlternates();
      NoLosses();
    } else {
      var before, c := log[..|log| - 1], log[|log| - 1];
      assert log == before + [c] && c in log;
      DirectionsPush(before, c);
      AlternatesPush(Directions(before), c.direction);
      ReturnedAlternate(before);
      var last := LastReturned(before);
      PairUpPush(before, c, last);
      ReturnedPush(before, c);
      AlternatesPush(Returned(before), c.direction);
      if last >= 0 {
        TurnsWhenOdd(before, c, last);
      }
      assert Returned(before) + [] == Returned(before);
    }
  }

  /** In every run, resets included, the VWAP_CROSS signals returned alternate if and only if the crossings lost
      between any two consecutive ones are even in number. */
  lemma SignalsAlternateExactly(ops: seq<Op>, s: string, root: real -> real)
    ensures Alternates(CrossSignals(ops, s, root)) <==> LossesPairUp(CrossLog(ops, s))
  {
    hide CrossLog, Returned, CrossSignals, LossesPairUp, Alternates;
    CrossingsAlternate(ops, s);
    SignalsAreReturned(ops, s, root);
    ReturnedAlternate(CrossLog(ops, s));
  }

  /** One more trade of the symbol: what it adds to the signals and to the engine's memory. */
  lemma CrossPush(ops: seq<Op>, s: string, tick: Tick, root: real -> real)
    ensures var more, c := ops + [Trade(s, tick)], TradeCross(Run(ops), s, tick);
      && CrossSignals(more, s, root) == CrossSignals(ops, s, root) + (if c.Fired? then [c.direction] else [])
      && TicksOf(Run(more), s) == TicksOf(Run(ops), s) + [tick]
      && (VwapOf(TicksOf(Run(more), s)).Some? ==>
            AboveOf(Run(more), s) == Some(tick.price > VwapOf(TicksOf(Run(more), s)).value))
  {
    hide VwapOf, TradeOutcome, CrossOf;
    var more := ops + [Trade(s, tick)];
    assert more[..|ops|] == ops;
    OutcomeDirections(Run(ops), s, tick, root);
    var outs := OutcomesFor(more, s, root);
    assert outs[..|outs| - 1] == OutcomesFor(ops, s, root);
  }

  lemma VwapPush(ticks: seq<Tick>, tick: Tick)
    ensures SumPq(ticks + [tick]) == SumPq(ticks) + tick.price * tick.qty as real
    ensures SumQ(ticks + [tick]) == SumQ(ticks) + tick.qty
  {}

  /** What the next trade does to the signals, from the sums kept so far. */
  lemma NextCross(ops: seq<Op>, s: string, price: real, qty: int, root: real -> real)
    requires var ticks := TicksOf(Run(ops), s); SumQ(ticks) + qty != 0
    ensures var before, after := Run(ops), Run(ops + [Trade(s, Tick(price, qty))]);
      var pq, q := SumPq(TicksOf(before, s)) + price * qty as real, SumQ(TicksOf(before, s)) + qty;
      var above, prev := price > pq / q as real, AboveOf(before, s);
      && SumPq(TicksOf(after, s)) == pq && SumQ(TicksOf(after, s)) == q && AboveOf(after, s) == Some(above)
      && CrossSignals(ops + [Trade(s, Tick(price, qty))], s, root) == CrossSignals(ops, s, root)
           + if prev == None || prev.value == above || pq / q as real == 0.0 then [] else [Side(above)]
  {
    hide Run, CrossSignals, TicksOf, AboveOf, SumPq, SumQ, VwapOf;
    var ticks, tick := TicksOf(Run(ops), s), Tick(price, qty);
    CrossPush(ops, s, tick, root);
    VwapPush(ticks, tick);
    VwapIs(ticks + [tick]);
  }

  lemma VwapIs(ticks: seq<Tick>)
    requires SumQ(ticks) != 0
    ensures VwapOf(ticks) == Some(SumPq(ticks) / SumQ(ticks) as real)
  {}

  /** One raise and what comes of it: a correction with a negative quantity brings the VWAP to zero and the upward
      crossing is lost in the division. Up to there the signals alternate; the next crossing is a second SELL. */
  lemma AlternationNeedsNoDivision(root: real -> real)
    ensures var ops := [Trade("S", Tick(10.0, 1)), Trade("S", Tick(20.0, 1)), Trade("S", Tick(5.0, 1)),
                        Trade("S", Tick(35.0, -1)), Trade("S", Tick(-10.0, 1))];
      && Raises(Run(ops[..3]), "S", Tick(35.0, -1))
      && CrossSignals(ops[..4], "S", root) == [Buy, Sell]
      && CrossSignals(ops, "S", root) == [Buy, Sell, Sell]
  {
    hide Run, CrossSignals, TicksOf, AboveOf, SumPq, SumQ;
    var o1 := [] + [Trade("S", Tick(10.0, 1))];
    var o2 := o1 + [Trade("S", Tick(20.0, 1))];
    var o3 := o2 + [Trade("S", Tick(5.0, 1))];
    var o4 := o3 + [Trade("S", Tick(35.0, -1))];
    FreshHasNothing(root);
    NextCross([], "S", 10.0, 1, root);
    NextCross(o1, "S", 20.0, 1, root);
    NextCross(o2, "S", 5.0, 1, root);
    NextCross(o3, "S", 35.0, -1, root);
    NextCross(o4, "S", -10.0, 1, root);
    VwapPush(TicksOf(Run(o3), "S"), Tick(35.0, -1));
    var ops := o4 + [Trade("S", Tick(-10.0, 1))];
    assert ops == [Trade("S", Tick(10.0, 1)), Trade("S", Tick(20.0, 1)), Trade("S", Tick(5.0, 1)),
                   Trade("S", Tick(35.0, -1)), Trade("S", Tick(-10.0, 1))];
    assert ops[..3] == o3 && ops[..4] == o4;
  }

  lemma FreshHasNothing(root: real -> real)
    ensures TicksOf(Run([]), "S") == [] && AboveOf(Run([]), "S") == None && CrossSignals([], "S", root) == []
    ensures SumPq([]) == 0.0 && SumQ([]) == 0
  {}

  lemma OneTickVwap(tick: Tick)
    requires tick.qty != 0
    ensures VwapOf([tick]) == Some(tick.price)
  {
    var q := tick.qty as real;
    assert [tick][..0] == [];
    assert SumPq([tick]) == tick.price * q && SumQ([tick]) == tick.qty;
    assert tick.price * q / q == tick.price;
  }

  // ---- VWAP with positive trades ----

  predicate PositiveTicks(ticks: seq<Tick>) {
    forall i :: 0 <= i < |ticks| ==> ticks[i].price > 0.0 && ticks[i].qty > 0
  }

  lemma BetweenStep(sum: real, q: real, p: real, r: real, lo: real, hi: real)
    requires lo * q <= sum <= hi * q && lo <= p <= hi && r >= 0.0
    ensures lo * (q + r) <= sum + p * r <= hi * (q + r)
  {
    ProductNonnegative(p - lo, r);
    ProductNonnegative(hi - p, r);
    assert lo * (q + r) == lo * q + lo * r && hi * (q + r) == hi * q + hi * r;
  }

  lemma {:induction false} WeightedSumBetween(ticks: seq<Tick>, lo: real, hi: real)
    requires forall i :: 0 <= i < |ticks| ==> ticks[i].qty > 0 && lo <= ticks[i].price <= hi
    ensures SumQ(ticks) >= |ticks|
    ensures lo * SumQ(ticks) as real <= SumPq(ticks) <= hi * SumQ(ticks) as real
  {
    if ticks == [] {
      assert lo * 0.0 == 0.0 && hi * 0.0 == 0.0;
    } else {
      var n := |ticks| - 1;
      WeightedSumBetween(ticks[..n], lo, hi);
      BetweenStep(SumPq(ticks[..n]), SumQ(ticks[..n]) as real, ticks[n].price, ticks[n].qty as real, lo, hi);
      assert SumQ(ticks) as real == SumQ(ticks[..n]) as real + ticks[n].qty as real;
    }
  }

  lemma QuotientBetween(p: real, q: real, lo: real, hi: real)
    requires q > 0.0 && lo * q <= p <= hi * q
    ensures lo <= p / q <= hi
  {
    var r := p / q;
    assert r * q == p;
    if r < lo { ProductPositive(lo - r, q, (lo - r) * q); }
    if r > hi { ProductPositive(r - hi, q, (r - hi) * q); }
  }

  /** With positive quantities the VWAP lies between the lowest and the highest trade price. */
  lemma VwapInRange(ticks: seq<Tick>, lo: real, hi: real)
    requires ticks != [] && forall i :: 0 <= i < |ticks| ==> ticks[i].qty > 0 && lo <= ticks[i].price <= hi
    ensures VwapOf(ticks).Some? && lo <= VwapOf(ticks).value <= hi
  {
    WeightedSumBetween(ticks, lo, hi);
    QuotientBetween(SumPq(ticks), SumQ(ticks) as real, lo, hi);
  }

  lemma QuotientBelow(p: real, s: real, q: real)
    requires q > 0.0
    ensures p > s / q <==> p * q > s
  {
    var r := s / q;
    assert r * q == s;
    if p > r { ProductPositive(p - r, q, (p - r) * q); } else { ProductNonnegative(r - p, q); }
  }

  /** With positive quantities, testing a trade against the VWAP it has just moved is testing it against the VWAP
      before it; the first trade of a session is never above. */
  lemma CrossTestSeesOldVwap(ticks: seq<Tick>, tick: Tick)
    requires tick.qty > 0 && forall i :: 0 <= i < |ticks| ==> ticks[i].qty > 0
    ensures VwapOf(ticks + [tick]).Some?
    ensures tick.price > VwapOf(ticks + [tick]).value
       <==> ticks != [] && VwapOf(ticks).Some? && tick.price > VwapOf(ticks).value
  {
    var all := ticks + [tick];
    assert all[..|ticks|] == ticks;
    QuantityPositive(ticks);
    var p, q, s, t := tick.price, tick.qty as real, SumPq(ticks), SumQ(ticks) as real;
    QuotientBelow(p, s + p * q, t + q);
    assert SumPq(all) == s + p * q && SumQ(all) as real == t + q;
    assert p * (t + q) == p * t + p * q;
    if ticks == [] {
      assert p * t == 0.0;
    } else {
      QuotientBelow(p, s, t);
    }
  }

  lemma {:induction false} QuantityPositive(ticks: seq<Tick>)
    requires forall i :: 0 <= i < |ticks| ==> ticks[i].qty > 0
    ensures SumQ(ticks) >= |ticks|
  {
    if ticks == [] {
    } else {
      QuantityPositive(ticks[..|ticks| - 1]);
    }
  }

  predicate PositiveOps(ops: seq<Op>) {
    forall i :: 0 <= i < |ops| ==> ops[i].Trade? ==> ops[i].tick.price > 0.0 && ops[i].tick.qty > 0
  }

  lemma {:induction false} PositiveRun(ops: seq<Op>, s: string)
    requires PositiveOps(ops)
    ensures PositiveTicks(TicksOf(Run(ops), s))
  {
    hide VwapOf;
    if ops == [] {
    } else {
      PositiveRun(ops[..|ops| - 1], s);
    }
  }

  lemma {:induction false} PositiveSum(ticks: seq<Tick>)
    requires ticks != [] && PositiveTicks(ticks)
    ensures SumPq(ticks) > 0.0 && SumQ(ticks) > 0
  {
    var n := |ticks| - 1;
    ProductPositive(ticks[n].price, ticks[n].qty as real, ticks[n].price * ticks[n].qty as real);
    if n > 0 {
      PositiveSum(ticks[..n]);
    } else {
      assert ticks[..n] == [];
    }
  }

  /** With positive prices and quantities no trade ever raises, so VWAP_CROSS signals strictly alternate. */
  lemma PositiveTradesNeverDivide(ops: seq<Op>, s: string, root: real -> real)
    requires PositiveOps(ops)
    ensures NeverRaises(ops, s)
    ensures Alternates(CrossSignals(ops, s, root))
  {
    hide Run, Crossings, CrossSignals, Alternates;
    forall i | 0 <= i < |ops| && ops[i].Trade? && ops[i].symbol == s ensures !Raises(Run(ops[..i]), s, ops[i].tick) {
      PositiveRun(ops[..i], s);
      PositiveSum(TicksOf(Run(ops[..i]), s) + [ops[i].tick]);
    }
    SignalsAreCrossings(ops, s, root);
    CrossingsAlternate(ops, s);
  }
}
