/** What a session reset leaves behind, over whole runs. */
module ResetLaws {
  import opened Collections
  import opened EngineLaws
  import opened Indicators
  import opened SignalEngine

  // ---- What a reset clears ----

  /** A reset of one symbol clears that symbol's trades and no other's; a reset of none, or of the empty symbol, clears
      all; no reset touches a remembered side. */
  lemma ResetScope(e: EngineState, symbol: string, s: string)
    ensures TicksOf(AfterReset(e, Some(symbol)), s) == if symbol == "" || symbol == s then [] else TicksOf(e, s)
    ensures TicksOf(AfterReset(e, None), s) == []
    ensures AboveOf(AfterReset(e, Some(symbol)), s) == AboveOf(AfterReset(e, None), s) == AboveOf(e, s)
  {}

  // ---- The first trade after a reset ----

  predicate NoQuantity(ticks: seq<Tick>) { forall i :: 0 <= i < |ticks| ==> ticks[i].qty == 0 }

  lemma {:induction false} NoQuantitySums(ticks: seq<Tick>)
    requires NoQuantity(ticks)
    ensures SumQ(ticks) == 0 && SumPq(ticks) == 0.0
  {
    if ticks == [] {
    } else {
      NoQuantitySums(ticks[..|ticks| - 1]);
    }
  }

  /** The VWAP after the first quantity is the price of that trade. */
  lemma FirstQuantity(ticks: seq<Tick>, tick: Tick)
    requires NoQuantity(ticks)
    ensures VwapOf(ticks + [tick]) == if tick.qty == 0 then None else Some(tick.price)
  {
    NoQuantitySums(ticks);
    VwapPush(ticks, tick);
    if tick.qty != 0 {
      QuotientOf(tick.price, tick.qty as real, SumPq(ticks + [tick]));
    }
  }

  lemma QuotientOf(p: real, q: real, s: real)
    requires q != 0.0 && s == p * q
    ensures s / q == p
  {}

  lemma OnePriceIsQuiet(s: string, price: real, root: real -> real)
    ensures RsiSignals(s, RsiOf(14, [price])) == [] && BandSignals(s, BandsOf(20, 2.0, [price], root)) == []
  {}

  /** The first trade after a reset is silent if and only if the side remembered from before the reset was not
      above or the trade has no quantity; otherwise it returns a SELL of strength 0, or raises at price 0. */
  lemma FirstTickAfterReset(e: EngineState, reset: Option<string>, s: string, tick: Tick, root: real -> real)
    requires Applies(reset, s)
    ensures var cleared := AfterReset(e, reset);
      TradeOutcome(cleared, s, tick, root)
      == if AboveOf(e, s) != Some(true) || tick.qty == 0 then Signals([])
         else if tick.price == 0.0 then ZeroDivision
         else Signals([Signal(s, "VWAP_CROSS", Sell, 0.0)])
  {
    hide RsiOf, BandsOf, VwapOf, RsiSignals, BandSignals;
    var cleared := AfterReset(e, reset);
    assert TicksOf(cleared, s) + [tick] == [] + [tick] == [tick];
    FirstQuantity([], tick);
    assert Prices([tick]) == [tick.price];
    OnePriceIsQuiet(s, tick.price, root);
    if tick.price != 0.0 {
      assert 0.0 / tick.price == 0.0;
    }
  }

  // ---- Every run after a reset ----

  function Across(before: seq<Op>, reset: Option<string>, after: seq<Op>): seq<Op> { before + [Reset(reset)] + after }

  lemma AcrossPush(before: seq<Op>, reset: Option<string>, after: seq<Op>)
    ensures after == [] ==> Across(before, reset, after) == before + [Reset(reset)]
    ensures after != [] ==> var all := Across(before, reset, after);
      && all != [] && all[|all| - 1] == after[|after| - 1]
      && all[..|all| - 1] == Across(before, reset, after[..|after| - 1])
  {
    if after == [] {
      assert before + [Reset(reset)] + after == before + [Reset(reset)];
    }
  }

  /** The symbol trades no quantity. */
  predicate Idle(ops: seq<Op>, s: string) {
    forall i :: 0 <= i < |ops| && ops[i].Trade? && ops[i].symbol == s ==> ops[i].tick.qty == 0
  }

  /** What the engine remembers of a symbol once a reset has applied to it: trades as after a fresh start; the old
      side for as long as the symbol stays idle, and from then on the side a fresh engine has. */
  lemma {:induction false} MemoryAfterReset(before: seq<Op>, reset: Option<string>, after: seq<Op>, s: string)
    requires Applies(reset, s)
    ensures var e, f := Run(Across(before, reset, after)), Run(after);
      && TicksOf(e, s) == TicksOf(f, s)
      && (if Idle(after, s)
          then NoQuantity(TicksOf(f, s)) && AboveOf(e, s) == AboveOf(Run(before), s) && AboveOf(f, s) == None
          else AboveOf(e, s) == AboveOf(f, s))
  {
    hide VwapOf, Across, Idle;
    AcrossPush(before, reset, after);
    if after == [] {
      assert (before + [Reset(reset)])[..|before|] == before;
      NothingIsIdle(s);
    } else {
      var m, op := after[..|after| - 1], after[|after| - 1];
      MemoryAfterReset(before, reset, m, s);
      IdlePush(after, s);
      if op.Trade? && op.symbol == s && Idle(m, s) {
        FirstQuantity(TicksOf(Run(m), s), op.tick);
      }
    }
  }

  lemma NothingIsIdle(s: string)
    ensures Idle([], s)
  {}

  lemma IdlePush(ops: seq<Op>, s: string)
    requires ops != []
    ensures var op := ops[|ops| - 1];
      Idle(ops, s) <==> Idle(ops[..|ops| - 1], s) && (op.Trade? && op.symbol == s ==> op.tick.qty == 0)
  {
    var m := ops[..|ops| - 1];
    assert forall i :: 0 <= i < |m| ==> m[i] == ops[i];
  }

  /** Equal trades in memory: the outcomes differ exactly when the crossings do. */
  lemma OutcomesDiffer(e: EngineState, f: EngineState, s: string, tick: Tick, root: real -> real)
    requires TicksOf(e, s) == TicksOf(f, s)
    ensures TradeCross(e, s, tick) == TradeCross(f, s, tick) ==>
      TradeOutcome(e, s, tick, root) == TradeOutcome(f, s, tick, root)
    ensures !TradeCross(e, s, tick).Quiet? && TradeCross(f, s, tick).Quiet? ==>
      TradeOutcome(e, s, tick, root) != TradeOutcome(f, s, tick, root)
  {
    hide RsiOf, BandsOf, VwapOf, RsiSignals, BandSignals, TicksOf, TradeCross;
    var c := TradeCross(e, s, tick);
    if c.Fired? && TradeCross(f, s, tick).Quiet? {
      assert |TradeOutcome(e, s, tick, root).list| == |TradeOutcome(f, s, tick, root).list| + 1;
    }
  }

  lemma OutcomesPush(ops: seq<Op>, s: string, root: real -> real)
    requires ops != []
    ensures var before, op := ops[..|ops| - 1], ops[|ops| - 1];
      OutcomesFor(ops, s, root) == OutcomesFor(before, s, root) +
        if op.Trade? && op.symbol == s then [TradeOutcome(Run(before), s, op.tick, root)] else []
  {}

  lemma SameAfterPush<T>(a: seq<T>, b: seq<T>, c: seq<T>, x: T, y: T)
    requires |a| == |b| + |c|
    ensures a + [x] == b + (c + [y]) <==> a == b + c && x == y
  {
    assert b + (c + [y]) == (b + c) + [y];
    if a + [x] == (b + c) + [y] {
      assert (a + [x])[..|a|] == a && ((b + c) + [y])[..|a|] == b + c;
      assert (a + [x])[|a|] == x;
    }
  }

  /** After any run and a reset, whatever follows returns what it would return from a fresh engine if and only if the
      symbol was not remembered above the VWAP or trades no quantity from then on. */
  lemma {:induction false} ResetIsFreshExactly(before: seq<Op>, reset: Option<string>, after: seq<Op>, s: string,
                                               root: real -> real)
    requires Applies(reset, s)
    ensures var all := OutcomesFor(Across(before, reset, after), s, root);
      && |all| == |OutcomesFor(before, s, root)| + |OutcomesFor(after, s, root)|
      && (all == OutcomesFor(before, s, root) + OutcomesFor(after, s, root)
          <==> AboveOf(Run(before), s) != Some(true) || Idle(after, s))
  {
    hide Across, Idle, TradeOutcome, TradeCross, Run, OutcomesFor, VwapOf;
    AcrossPush(before, reset, after);
    var all := Across(before, reset, after);
    OutcomesPush(all, s, root);
    if after == [] {
      assert (before + [Reset(reset)])[..|before|] == before;
      NoOutcomes(s, root);
      NothingIsIdle(s);
    } else {
      var m, op := after[..|after| - 1], after[|after| - 1];
      ResetIsFreshExactly(before, reset, m, s, root);
      OutcomesPush(after, s, root);
      IdlePush(after, s);
      if op.Trade? && op.symbol == s {
        var x := TradeOutcome(Run(all[..|all| - 1]), s, op.tick, root);
        var y := TradeOutcome(Run(m), s, op.tick, root);
        SameAfterPush(OutcomesFor(all[..|all| - 1], s, root), OutcomesFor(before, s, root), OutcomesFor(m, s, root),
                      x, y);
        SameOutcomeExactly(before, reset, m, s, op.tick, root);
      } else {
        assert OutcomesFor(all, s, root) == OutcomesFor(all[..|all| - 1], s, root);
        assert OutcomesFor(after, s, root) == OutcomesFor(m, s, root);
      }
    }
  }

  lemma NoOutcomes(s: string, root: real -> real)
    ensures OutcomesFor([], s, root) == []
  {}

  /** One trade some way after the reset differs from the fresh engine's exactly when it brings the first quantity
      and the remembered side is above. */
  lemma SameOutcomeExactly(before: seq<Op>, reset: Option<string>, m: seq<Op>, s: string, tick: Tick,
                           root: real -> real)
    requires Applies(reset, s)
    ensures TradeOutcome(Run(Across(before, reset, m)), s, tick, root) == TradeOutcome(Run(m), s, tick, root)
       <==> !Idle(m, s) || tick.qty == 0 || AboveOf(Run(before), s) != Some(true)
  {
    hide Across, Idle, TradeOutcome, Run, VwapOf;
    var e, f := Run(Across(before, reset, m)), Run(m);
    MemoryAfterReset(before, reset, m, s);
    OutcomesDiffer(e, f, s, tick, root);
    if Idle(m, s) {
      FirstQuantity(TicksOf(f, s), tick);
    }
  }

  /** A reachable run that shows it: after 10 and 20 the symbol is above its VWAP, and the first trade after the
      reset returns a SELL where a fresh engine is silent. */
  lemma ResetThenSell(root: real -> real)
    ensures var before, after := [Trade("S", Tick(10.0, 1)), Trade("S", Tick(20.0, 1))], [Trade("S", Tick(30.0, 1))];
      && AboveOf(Run(before), "S") == Some(true)
      && OutcomesFor(Across(before, None, after), "S", root)
         == OutcomesFor(before, "S", root) + [Signals([Signal("S", "VWAP_CROSS", Sell, 0.0)])]
      && OutcomesFor(after, "S", root) == [Signals([])]
  {
    hide Run, OutcomesFor, TicksOf, AboveOf, TradeOutcome;
    var one := [] + [Trade("S", Tick(10.0, 1))];
    var before, after := one + [Trade("S", Tick(20.0, 1))], [Trade("S", Tick(30.0, 1))];
    FreshHasNothing(root);
    NextCross([], "S", 10.0, 1, root);
    NextCross(one, "S", 20.0, 1, root);
    assert before == [Trade("S", Tick(10.0, 1)), Trade("S", Tick(20.0, 1))];
    AcrossPush(before, None, after);
    AcrossPush(before, None, []);
    OutcomesPush(Across(before, None, after), "S", root);
    OutcomesPush(before + [Reset(None)], "S", root);
    OutcomesPush(after, "S", root);
    NoOutcomes("S", root);
    ResetSteps(before, None);
    FirstTickAfterReset(Run(before), None, "S", Tick(30.0, 1), root);
    FirstTickAfterReset(Run([]), None, "S", Tick(30.0, 1), root);
    assert after[..0] == [] && (before + [Reset(None)])[..2] == before;
  }

  lemma ResetSteps(before: seq<Op>, reset: Option<string>)
    ensures Run(before + [Reset(reset)]) == AfterReset(Run(before), reset)
    ensures AfterReset(Run([]), reset) == Run([])
  {
    assert (before + [Reset(reset)])[..|before|] == before;
  }
}
