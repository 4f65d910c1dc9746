/** The feed subscriber: one trade message updates delta, profile and engine of its symbol. */
module Subscriber {
  import opened Collections
  import opened Indicators
  import opened OrderFlow
  import opened ProfileLaws
  import opened SignalEngine
  import opened VolumeProfile

  const TICK := 0.01
  const DELTA_WINDOW := 20

  // ---- Symbols ----

  const NUL := '\0'

  function StripFront(s: string): string {
    if s != "" && s[0] == NUL then StripFront(s[1..]) else s
  }

  function StripBack(s: string): string {
    if s != "" && s[|s| - 1] == NUL then StripBack(s[..|s| - 1]) else s
  }

  /** Python's `strip("\x00")`. */
  function Strip(s: string): string { StripBack(StripFront(s)) }

  // ---- The feed on values ----

  /** A decoded trade message. */
  datatype Message = Message(symbol: string, price: real, qty: int, aggressor: string)

  /** Messages with no symbol or a zero price are dropped. */
  predicate Accepted(m: Message) { Strip(m.symbol) != "" && m.price != 0.0 }

  type Prints = map<string, seq<Print>>

  function PrintsOf(p: Prints, symbol: string): seq<Print> { if symbol in p then p[symbol] else [] }

  function Recorded(p: Prints, m: Message): Prints {
    if !Accepted(m) then p
    else
      var s := Strip(m.symbol);
      p[s := PrintsOf(p, s) + [Print(m.price, m.qty, m.aggressor)]]
  }

  function TicksOfPrints(prints: seq<Print>): seq<Tick> {
    if prints == [] then []
    else TicksOfPrints(prints[..|prints| - 1]) + [Tick(prints[|prints| - 1].price, prints[|prints| - 1].qty)]
  }

  /** The accumulators of one symbol agree and conserve volume: profile, order-flow delta and VWAP count the same
      quantity, and the profile's delta is the order-flow delta. */
  lemma AccumulatorsAgree(prints: seq<Print>)
    ensures var levels := LevelsOf(TICK, VolumesOf(TICK, prints));
      && IntSum(Totals(levels)) == BuyQty(prints) + SellQty(prints) == SumQ(TicksOfPrints(prints))
      && IntSum(Deltas(levels)) == CumDelta(prints)
      && (prints != [] ==> DeltaPath(prints)[|prints| - 1] == CumDelta(prints))
  {
    hide LevelsOf, VolumesOf;
    ProfileConserves(TICK, prints);
    VwapCountsAll(prints);
  }

  lemma {:induction false} VwapCountsAll(prints: seq<Print>)
    ensures SumQ(TicksOfPrints(prints)) == BuyQty(prints) + SellQty(prints)
  {
    if prints == [] {
    } else {
      VwapCountsAll(prints[..|prints| - 1]);
      var ticks := TicksOfPrints(prints);
      assert ticks[..|ticks| - 1] == TicksOfPrints(prints[..|prints| - 1]);
    }
  }

  lemma VolumesPush(prints: seq<Print>, p: Print)
    ensures VolumesOf(TICK, prints + [p]) == Record(VolumesOf(TICK, prints), TICK, p)
    ensures VolumesOf(TICK, []) == Volumes(map[], map[])
  {}

  lemma TicksPush(prints: seq<Print>, p: Print)
    ensures TicksOfPrints(prints + [p]) == TicksOfPrints(prints) + [Tick(p.price, p.qty)]
    ensures TicksOfPrints([]) == []
  {}

  // ---- The published flow ----

  datatype FlowSummary = FlowSummary(buyVol: int, sellVol: int, delta: int, cumDelta: int, buyPct: real,
                                     history: seq<int>)

  function FlowOf(prints: seq<Print>): FlowSummary {
    FlowSummary(BuyQty(prints), SellQty(prints), BuyQty(prints) - SellQty(prints), CumDelta(prints),
                BuyShare(prints), Window(Window(DeltaPath(prints), DELTA_WINDOW), 30))
  }

  // ---- What is published, read off the trades ----

  predicate AllNul(s: string) { forall i :: 0 <= i < |s| ==> s[i] == NUL }

  lemma {:induction false} FrontStripped(s: string) returns (k: nat)
    ensures k <= |s| && AllNul(s[..k]) && StripFront(s) == s[k..] && (k < |s| ==> s[k] != '\0')
  {
    if s == "" || s[0] != NUL {
      k := 0;
    } else {
      var j := FrontStripped(s[1..]);
      k := j + 1;
      assert s[1..][j..] == s[k..];
      assert s[..k] == [s[0]] + s[1..][..j];
    }
  }

  lemma {:induction false} BackStripped(s: string) returns (n: nat)
    ensures n <= |s| && AllNul(s[n..]) && StripBack(s) == s[..n] && (n > 0 ==> s[n - 1] != '\0')
  {
    if s == "" || s[|s| - 1] != NUL {
      n := |s|;
    } else {
      n := BackStripped(s[..|s| - 1]);
      assert s[n..] == s[..|s| - 1][n..] + [s[|s| - 1]];
      assert s[..|s| - 1][..n] == s[..n];
    }
  }

  /** A symbol loses the NULs at both of its ends and nothing else. */
  lemma StripCuts(s: string) returns (front: string, back: string)
    ensures s == front + Strip(s) + back && AllNul(front) && AllNul(back)
    ensures Strip(s) != "" ==> Strip(s)[0] != '\0' && Strip(s)[|Strip(s)| - 1] != '\0'
  {
    var k := FrontStripped(s);
    var n := BackStripped(s[k..]);
    front, back := s[..k], s[k..][n..];
    assert s == s[..k] + s[k..] && s[k..] == s[k..][..n] + s[k..][n..];
  }

  function Bought(): Print -> seq<int> { (p: Print) => if p.aggressor == "B" then [p.qty] else [] }
  function Sold(): Print -> seq<int> { (p: Print) => if p.aggressor == "B" then [] else [p.qty] }

  lemma {:induction false} QuantitiesRead(prints: seq<Print>)
    ensures BuyQty(prints) == IntSum(FlatMap(prints, Bought()))
    ensures SellQty(prints) == IntSum(FlatMap(prints, Sold()))
  {
    if prints == [] {
    } else {
      var before, p := prints[..|prints| - 1], prints[|prints| - 1];
      QuantitiesRead(before);
      IntSumAppend(FlatMap(before, Bought()), Bought()(p));
      IntSumAppend(FlatMap(before, Sold()), Sold()(p));
      IntSumOne(p.qty);
    }
  }

  lemma {:induction false} PathReads(prints: seq<Print>, k: nat)
    requires k < |prints|
    ensures DeltaPath(prints)[k] == BuyQty(prints[..k + 1]) - SellQty(prints[..k + 1])
  {
    hide BuyQty, SellQty;
    if k == |prints| - 1 {
      assert prints[..k + 1] == prints;
    } else {
      PathReads(prints[..|prints| - 1], k);
      assert prints[..|prints| - 1][..k + 1] == prints[..k + 1];
    }
  }

  /** The published flow: what was bought and sold so far, their difference, the bought share of both, and the
      differences after each of the last twenty trades. */
  lemma FlowReadsTrades(prints: seq<Print>)
    ensures var f, buy, sell := FlowOf(prints), IntSum(FlatMap(prints, Bought())), IntSum(FlatMap(prints, Sold()));
      && f.buyVol == buy && f.sellVol == sell && f.delta == f.cumDelta == buy - sell
      && (if buy + sell == 0 then f.buyPct == 50.0 else f.buyPct * (buy + sell) as real == 100.0 * buy as real)
      && |f.history| == (if |prints| < 20 then |prints| else 20)
      && forall i :: 0 <= i < |f.history| ==>
           var seen := prints[..|prints| - |f.history| + i + 1];
           f.history[i] == IntSum(FlatMap(seen, Bought())) - IntSum(FlatMap(seen, Sold()))
  {
    hide BuyQty, SellQty, IntSum, FlatMap, DeltaPath, BuyShare;
    var f := FlowOf(prints);
    QuantitiesRead(prints);
    ShareReads(prints);
    forall i | 0 <= i < |f.history|
      ensures var seen := prints[..|prints| - |f.history| + i + 1];
        f.history[i] == IntSum(FlatMap(seen, Bought())) - IntSum(FlatMap(seen, Sold()))
    {
      var k := |prints| - |f.history| + i;
      PathReads(prints, k);
      QuantitiesRead(prints[..k + 1]);
    }
  }

  lemma ShareReads(prints: seq<Print>)
    ensures var buy, total := BuyQty(prints), BuyQty(prints) + SellQty(prints);
      if total == 0 then BuyShare(prints) == 50.0 else BuyShare(prints) * total as real == 100.0 * buy as real
  {
    hide BuyQty, SellQty;
    var buy, total := BuyQty(prints) as real, (BuyQty(prints) + SellQty(prints)) as real;
    if total != 0.0 {
      var q := buy / total;
      assert q * total == buy;
    }
  }

  // ---- The subscriber ----

  /** What one accepted message publishes. */
  datatype Published = Published(symbol: string, flow: FlowSummary, profile: Option<ProfileResult>, signals: Outcome)

  class FeedSubscriber {
    var deltas: map<string, OrderFlowDelta>
    var vprofile: map<string, VolumeProfile>
    const engine: SignalEngine
    /** The accepted trades of each symbol so far. */
    ghost var prints: Prints

    ghost predicate DeltasMatch(p: Prints)
      reads this`deltas, deltas.Values
    {
      && deltas.Keys == p.Keys
      && (forall s <- deltas :: deltas[s].Valid() && deltas[s].prints == p[s] && deltas[s].window == DELTA_WINDOW)
      && (forall s <- deltas, t <- deltas :: s != t ==> deltas[s] != deltas[t])
    }

    ghost predicate ProfilesMatch(p: Prints)
      reads this`vprofile, vprofile.Values
    {
      && vprofile.Keys == p.Keys
      && (forall s <- vprofile :: vprofile[s].tick == TICK && vprofile[s].View() == VolumesOf(TICK, p[s]))
      && (forall s <- vprofile, t <- vprofile :: s != t ==> vprofile[s] != vprofile[t])
    }

    /** With no session reset, the engine has seen exactly the accepted trades. */
    ghost predicate EngineMatches(p: Prints)
      reads engine, engine.repr, engine.cross, engine.states.Values
    {
      && engine.Valid()
      && engine.View().ticks.Keys == p.Keys
      && (forall s <- p :: engine.View().ticks[s] == TicksOfPrints(p[s]))
    }

    /** The engine shares no object with the rest. */
    ghost predicate Apart()
      reads this, engine
    {
      && this !in engine.repr
      && (forall d <- deltas.Values :: d !in engine.repr)
      && (forall v <- vprofile.Values :: v !in engine.repr)
    }

    ghost predicate Valid()
      reads this, deltas.Values, vprofile.Values, engine, engine.repr, engine.cross, engine.states.Values
    {
      Apart() && DeltasMatch(prints) && ProfilesMatch(prints) && EngineMatches(prints)
    }

    constructor ()
      ensures Valid() && prints == map[]
    {
      engine := new SignalEngine();
      deltas, vprofile, prints := map[], map[], map[];
    }

    /** Looking up a defaultdict creates the missing entry. */
    method DeltaFor(symbol: string) returns (delta: OrderFlowDelta)
      requires DeltasMatch(prints)
      modifies this`deltas
      ensures DeltasMatch(prints[symbol := PrintsOf(prints, symbol)])
      ensures symbol in deltas && delta == deltas[symbol]
      ensures forall d <- deltas.Values :: d in old(deltas.Values) || fresh(d)
    {
      hide OrderFlowDelta.Valid;
      if symbol !in deltas {
        delta := new OrderFlowDelta(DELTA_WINDOW);
        deltas := deltas[symbol := delta];
      } else {
        delta := deltas[symbol];
      }
    }

    method UpdateDelta(symbol: string, p: Print) returns (delta: OrderFlowDelta)
      requires DeltasMatch(prints)
      modifies this`deltas, deltas.Values
      ensures DeltasMatch(prints[symbol := PrintsOf(prints, symbol) + [p]])
      ensures symbol in deltas && delta == deltas[symbol]
      ensures forall d <- deltas.Values :: d in old(deltas.Values) || fresh(d)
    {
      hide OrderFlowDelta.Valid;
      delta := DeltaFor(symbol);
      delta.Update(p.price, p.qty, p.aggressor);
    }

    method RecordDelta(symbol: string, p: Print) returns (flow: FlowSummary)
      requires DeltasMatch(prints)
      modifies this`deltas, deltas.Values
      ensures DeltasMatch(prints[symbol := PrintsOf(prints, symbol) + [p]])
      ensures flow == FlowOf(PrintsOf(prints, symbol) + [p])
      ensures forall d <- deltas.Values :: d in old(deltas.Values) || fresh(d)
    {
      hide OrderFlowDelta.Valid, FlowOf;
      var delta := UpdateDelta(symbol, p);
      flow := Summary(delta);
    }

    static method Summary(delta: OrderFlowDelta) returns (flow: FlowSummary)
      requires delta.Valid() && delta.window == DELTA_WINDOW
      ensures flow == FlowOf(delta.prints)
    {
      hide BuyQty, SellQty, DeltaPath, Window, BuyShare;
      var pct := delta.BuyPct();
      flow := FlowSummary(delta.buyVol, delta.sellVol, delta.buyVol - delta.sellVol, delta.cumDelta, pct,
                          Window(delta.deltaHistory, 30));
    }

    method RecordProfile(symbol: string, p: Print) returns (result: Option<ProfileResult>)
      requires ProfilesMatch(prints)
      modifies this`vprofile, vprofile.Values
      ensures ProfilesMatch(prints[symbol := PrintsOf(prints, symbol) + [p]])
      ensures result == ResultOf(TICK, VolumesOf(TICK, PrintsOf(prints, symbol) + [p]))
      ensures forall v <- vprofile.Values :: v in old(vprofile.Values) || fresh(v)
    {
      hide Record, ResultOf, VolumesOf;
      VolumesPush(PrintsOf(prints, symbol), p);
      var vp;
      if symbol !in vprofile {
        vp := new VolumeProfile(TICK);
        vprofile := vprofile[symbol := vp];
      } else {
        vp := vprofile[symbol];
      }
      vp.Update(p.price, p.qty, p.aggressor);
      result := vp.Result();
    }

    method RunEngine(symbol: string, p: Print, root: real -> real) returns (signals: Outcome)
      requires EngineMatches(prints)
      modifies engine.repr
      ensures EngineMatches(old(prints)[symbol := PrintsOf(old(prints), symbol) + [p]])
      ensures fresh(engine.repr - old(engine.repr))
      ensures signals == TradeOutcome(old(engine.View()), symbol, Tick(p.price, p.qty), root)
    {
      hide SignalEngine.Valid, SignalEngine.View, TradeOutcome, VwapOf, TicksOfPrints;
      TicksPush(PrintsOf(prints, symbol), p);
      signals := engine.OnTrade(symbol, p.price, p.qty, root);
    }

    method RecordFlow(symbol: string, p: Print) returns (flow: FlowSummary, result: Option<ProfileResult>)
      requires Valid()
      modifies this`deltas, this`vprofile, deltas.Values, vprofile.Values
      ensures var h := PrintsOf(prints, symbol) + [p];
        && Apart() && DeltasMatch(prints[symbol := h]) && ProfilesMatch(prints[symbol := h]) && EngineMatches(prints)
        && engine.View() == old(engine.View())
        && flow == FlowOf(h) && result == ResultOf(TICK, VolumesOf(TICK, h))
    {
      hide DeltasMatch, ProfilesMatch, EngineMatches, ResultOf, VolumesOf, FlowOf;
      flow := RecordDelta(symbol, p);
      assert ProfilesMatch(prints) && EngineMatches(prints) && Apart();
      result := RecordProfile(symbol, p);
    }

    method HandleAccepted(symbol: string, p: Print, root: real -> real) returns (published: Published)
      requires Valid()
      modifies this, deltas.Values, vprofile.Values, engine.repr
      ensures Valid() && prints == old(prints)[symbol := PrintsOf(old(prints), symbol) + [p]]
      ensures var h := prints[symbol];
        published == Published(symbol, FlowOf(h), ResultOf(TICK, VolumesOf(TICK, h)),
                               TradeOutcome(old(engine.View()), symbol, Tick(p.price, p.qty), root))
    {
      hide DeltasMatch, ProfilesMatch, EngineMatches, ResultOf, VolumesOf, TradeOutcome, SignalEngine.View, FlowOf;
      var flow, result := RecordFlow(symbol, p);
      var signals := RunEngine(symbol, p, root);
      prints := prints[symbol := PrintsOf(prints, symbol) + [p]];
      published := Published(symbol, flow, result, signals);
    }

    /** What the objects hold for one symbol always agrees. */
    lemma ObjectsAgree(symbol: string)
      requires Valid() && symbol in prints
      ensures symbol in deltas && symbol in vprofile && symbol in engine.View().ticks
      ensures var levels, delta := LevelsOf(TICK, vprofile[symbol].View()), deltas[symbol];
        && IntSum(Totals(levels)) == delta.buyVol + delta.sellVol == SumQ(engine.View().ticks[symbol])
        && IntSum(Deltas(levels)) == delta.buyVol - delta.sellVol == delta.cumDelta
    {
      hide LevelsOf, VolumesOf, SignalEngine.Valid, SignalEngine.View;
      AccumulatorsAgree(prints[symbol]);
    }

    /** One trade message; a message without symbol or price changes and publishes nothing. */
    method HandleTrade(m: Message, root: real -> real) returns (published: seq<Published>)
      requires Valid()
      modifies this, deltas.Values, vprofile.Values, engine.repr
      ensures Valid() && prints == Recorded(old(prints), m)
      ensures published == [] <==> Strip(m.symbol) == "" || m.price == 0.0
      ensures if !Accepted(m) then published == [] && engine.View() == old(engine.View())
              else
                var s := Strip(m.symbol);
                var h := prints[s];
                published == [Published(s, FlowOf(h), ResultOf(TICK, VolumesOf(TICK, h)),
                                        TradeOutcome(old(engine.View()), s, Tick(m.price, m.qty), root))]
    {
      hide FeedSubscriber.Valid, ResultOf, VolumesOf, TradeOutcome, SignalEngine.View, FlowOf, Strip;
      published := [];
      var symbol := Strip(m.symbol);
      if symbol == "" || m.price == 0.0 { return; }
      var one := HandleAccepted(symbol, Print(m.price, m.qty, m.aggressor), root);
      published := [one];
    }
  }
}
