/** The incremental indicators. Each keeps its running state; a ghost history says what it has seen since the
    last reset, and validity ties the state to a function of that whole history. */
module Indicators {
  import opened Collections
  import opened RealSeqs

  class RollingBuffer {
    const maxlen: nat
    var buf: seq<real>

    constructor (maxlen: nat)
      ensures this.maxlen == maxlen && buf == []
    {
      this.maxlen, buf := maxlen, [];
    }

    method Push(v: real)
      requires |buf| <= maxlen
      modifies this
      ensures buf == Window(old(buf) + [v], maxlen)
    {
      buf := buf + [v];
      if |buf| > maxlen { buf := buf[1..]; }
    }

    predicate Full()
      reads this
    {
      |buf| == maxlen
    }

    method Clear()
      modifies this
      ensures buf == []
    {
      buf := [];
    }
  }

  // ---- Moving averages ----

  function SmaOf(period: nat, xs: seq<real>): Option<real>
    requires period >= 1
  {
    if |xs| < period then None else Some(Sum(Window(xs, period)) / period as real)
  }

  class SMA {
    const period: nat
    const buf: RollingBuffer
    var total: real
    ghost var history: seq<real>

    ghost predicate Valid()
      reads this, buf
    {
      period >= 1 && buf.maxlen == period && buf.buf == Window(history, period) && total == Sum(Window(history, period))
    }

    constructor (period: nat)
      requires period >= 1
      ensures Valid() && this.period == period && history == [] && fresh(buf)
    {
      this.period, total, history := period, 0.0, [];
      buf := new RollingBuffer(period);
    }

    method Update(value: real)
      requires Valid()
      modifies this, buf
      ensures Valid() && history == old(history) + [value]
    {
      hide Sum;
      WindowPush(history, value, period);
      SlideSum(history, value, period);
      if buf.Full() {
        total := total - buf.buf[0];
      }
      buf.Push(value);
      total := total + value;
      history := history + [value];
    }

    method Value() returns (v: Option<real>)
      requires Valid()
      ensures v == SmaOf(period, history)
    {
      v := if buf.Full() then Some(total / period as real) else None;
    }

    method Reset()
      requires Valid()
      modifies this, buf
      ensures Valid() && history == []
    {
      buf.Clear();
      total, history := 0.0, [];
    }
  }

  function Blend(k: real, value: real, before: real): real {
    value * k + before * (1.0 - k)
  }

  /** The recurrence: the first value, then a blend of each new one with weight `k`. */
  function Ema(k: real, xs: seq<real>): real
    requires xs != []
  {
    if |xs| == 1 then xs[0] else Blend(k, xs[|xs| - 1], Ema(k, xs[..|xs| - 1]))
  }

  lemma EmaPush(k: real, xs: seq<real>, v: real)
    ensures Ema(k, xs + [v]) == if xs == [] then v else Blend(k, v, Ema(k, xs))
  {}

  function Smoothing(period: nat): (k: real)
    requires period >= 1
    ensures 0.0 < k <= 1.0
  {
    2.0 / (period + 1) as real
  }

  class EMA {
    const period: nat
    const k: real
    var ema: Option<real>
    var count: nat
    ghost var history: seq<real>

    ghost predicate Valid()
      reads this
    {
      && period >= 1 && k == Smoothing(period) && count == |history|
      && ema == if history == [] then None else Some(Ema(k, history))
    }

    constructor (period: nat)
      requires period >= 1
      ensures Valid() && this.period == period && history == []
    {
      this.period, k, ema, count, history := period, Smoothing(period), None, 0, [];
    }

    method Update(value: real)
      requires Valid()
      modifies this
      ensures Valid() && history == old(history) + [value]
    {
      EmaPush(k, history, value);
      ema := if ema == None then Some(value) else Some(Blend(k, value, ema.value));
      count, history := count + 1, history + [value];
    }

    method Value() returns (v: Option<real>)
      requires Valid()
      ensures v == if |history| < period then None else Some(Ema(k, history))
    {
      v := if count < period then None else ema;
    }

    method Reset()
      requires Valid()
      modifies this
      ensures Valid() && history == []
    {
      ema, count, history := None, 0, [];
    }
  }

  // ---- RSI ----

  function Positive(x: real): real { if x > 0.0 then x else 0.0 }

  /** The upward moves between consecutive prices. */
  function Gains(xs: seq<real>): (g: seq<real>)
    ensures |g| == if xs == [] then 0 else |xs| - 1
    ensures forall i {:trigger g[i]} :: 0 <= i < |g| ==> g[i] == Positive(xs[i + 1] - xs[i])
  {
    if xs == [] then [] else seq(|xs| - 1, i requires 0 <= i < |xs| - 1 => Positive(xs[i + 1] - xs[i]))
  }

  /** The downward moves, as positive amounts. */
  function Losses(xs: seq<real>): (g: seq<real>)
    ensures |g| == if xs == [] then 0 else |xs| - 1
    ensures forall i {:trigger g[i]} :: 0 <= i < |g| ==> g[i] == Positive(-(xs[i + 1] - xs[i]))
  {
    if xs == [] then [] else seq(|xs| - 1, i requires 0 <= i < |xs| - 1 => Positive(-(xs[i + 1] - xs[i])))
  }

  /** One move folded into an average that has seen `seen` moves. */
  function WilderStep(period: nat, seen: nat, before: real, m: real): real
    requires period >= 1
  {
    if seen < period then before + m / period as real else (before * (period - 1) as real + m) / period as real
  }

  /** Wilder's average: a running mean over the first `period` moves, then smoothing. */
  function Wilder(period: nat, moves: seq<real>): real
    requires period >= 1
  {
    if moves == [] then 0.0
    else WilderStep(period, |moves| - 1, Wilder(period, moves[..|moves| - 1]), moves[|moves| - 1])
  }

  lemma {:induction false} WilderNonnegative(period: nat, moves: seq<real>)
    requires period >= 1 && forall i :: 0 <= i < |moves| ==> moves[i] >= 0.0
    ensures Wilder(period, moves) >= 0.0
  {
    if moves == [] {
    } else {
      WilderNonnegative(period, moves[..|moves| - 1]);
      WilderStepNonnegative(period, |moves| - 1, Wilder(period, moves[..|moves| - 1]), moves[|moves| - 1]);
    }
  }

  lemma WilderStepNonnegative(period: nat, seen: nat, a: real, m: real)
    requires period >= 1 && a >= 0.0 && m >= 0.0
    ensures WilderStep(period, seen, a, m) >= 0.0
  {}

  lemma MovesNonnegative(xs: seq<real>)
    ensures forall i :: 0 <= i < |Gains(xs)| ==> Gains(xs)[i] >= 0.0
    ensures forall i :: 0 <= i < |Losses(xs)| ==> Losses(xs)[i] >= 0.0
  {}

  function AvgGain(period: nat, xs: seq<real>): (a: real)
    requires period >= 1
    ensures a >= 0.0
  {
    MovesNonnegative(xs);
    WilderNonnegative(period, Gains(xs));
    Wilder(period, Gains(xs))
  }

  function AvgLoss(period: nat, xs: seq<real>): (a: real)
    requires period >= 1
    ensures a >= 0.0
  {
    MovesNonnegative(xs);
    WilderNonnegative(period, Losses(xs));
    Wilder(period, Losses(xs))
  }

  lemma AveragesPush(period: nat, xs: seq<real>, v: real)
    requires period >= 1
    ensures if xs == [] then
              AvgGain(period, xs + [v]) == AvgGain(period, xs) && AvgLoss(period, xs + [v]) == AvgLoss(period, xs)
            else
              var change := v - xs[|xs| - 1];
              && AvgGain(period, xs + [v]) == WilderStep(period, |xs| - 1, AvgGain(period, xs), Positive(change))
              && AvgLoss(period, xs + [v]) == WilderStep(period, |xs| - 1, AvgLoss(period, xs), Positive(-change))
  {
    hide Wilder, Gains, Losses, Positive;
    if xs == [] {
      assert Gains(xs + [v]) == Gains(xs) && Losses(xs + [v]) == Losses(xs);
    } else {
      MovesPush(xs, v);
      var change := v - xs[|xs| - 1];
      WilderPush(period, Gains(xs), Positive(change));
      WilderPush(period, Losses(xs), Positive(-change));
    }
  }

  lemma MovesPush(xs: seq<real>, v: real)
    requires xs != []
    ensures Gains(xs + [v]) == Gains(xs) + [Positive(v - xs[|xs| - 1])]
    ensures Losses(xs + [v]) == Losses(xs) + [Positive(-(v - xs[|xs| - 1]))]
  {}

  lemma WilderPush(period: nat, moves: seq<real>, m: real)
    requires period >= 1
    ensures Wilder(period, moves + [m]) == WilderStep(period, |moves|, Wilder(period, moves), m)
  {}

  function RsiFrom(gain: real, loss: real): real
    requires gain >= 0.0 && loss >= 0.0
  {
    if loss == 0.0 then (if gain > 0.0 then 100.0 else 50.0)
    else
      assert gain / loss >= 0.0;
      100.0 - 100.0 / (1.0 + gain / loss)
  }

  function RsiOf(period: nat, xs: seq<real>): Option<real>
    requires period >= 1
  {
    if |xs| <= period then None else Some(RsiFrom(AvgGain(period, xs), AvgLoss(period, xs)))
  }

  class RSI {
    const period: nat
    var avgGain: real
    var avgLoss: real
    var prev: Option<real>
    var count: nat
    ghost var history: seq<real>

    ghost predicate Valid()
      reads this
    {
      && period >= 1
      && avgGain == AvgGain(period, history) && avgLoss == AvgLoss(period, history)
      && prev == (if history == [] then None else Some(history[|history| - 1]))
      && count == |Gains(history)|
    }

    constructor (period: nat)
      requires period >= 1
      ensures Valid() && this.period == period && history == []
    {
      this.period, avgGain, avgLoss, prev, count, history := period, 0.0, 0.0, None, 0, [];
    }

    method Update(value: real)
      requires Valid()
      modifies this
      ensures Valid() && history == old(history) + [value]
    {
      hide AvgGain, AvgLoss, Gains, WilderStep, Positive;
      AveragesPush(period, history, value);
      history := history + [value];
      if prev == None {
        prev := Some(value);
        return;
      }
      var change := value - prev.value;
      prev := Some(value);
      var gain, loss := Positive(change), Positive(-change);
      avgGain := WilderStep(period, count, avgGain, gain);
      avgLoss := WilderStep(period, count, avgLoss, loss);
      count := count + 1;
    }

    method Value() returns (v: Option<real>)
      requires Valid()
      ensures v == RsiOf(period, history)
    {
      if count < period { return None; }
      if avgLoss == 0.0 { return Some(if avgGain > 0.0 then 100.0 else 50.0); }
      var rs := avgGain / avgLoss;
      assert rs >= 0.0;
      v := Some(100.0 - 100.0 / (1.0 + rs));
    }

    method Reset()
      requires Valid()
      modifies this
      ensures Valid() && history == []
    {
      avgGain, avgLoss, prev, count, history := 0.0, 0.0, None, 0, [];
    }
  }

  // ---- Bollinger bands ----

  datatype BandValue = BandValue(upper: real, middle: real, lower: real, bandwidth: real, pctB: real)

  function Mean(xs: seq<real>): real
    requires xs != []
  {
    Sum(xs) / |xs| as real
  }

  function SquaredDeviations(xs: seq<real>, m: real): seq<real> {
    Map((x: real) => (x - m) * (x - m), xs)
  }

  function Variance(xs: seq<real>): real
    requires xs != []
  {
    Sum(SquaredDeviations(xs, Mean(xs))) / |xs| as real
  }

  /** The bands of a full window, given its standard deviation. */
  function BandsFrom(window: seq<real>, numStd: real, std: real): BandValue
    requires window != []
  {
    var mean := Mean(window);
    var upper, lower := mean + numStd * std, mean - numStd * std;
    BandValue(upper, mean, lower,
              if mean != 0.0 then (upper - lower) / mean else 0.0,
              if upper != lower then (window[|window| - 1] - lower) / (upper - lower) else 0.5)
  }

  /** `root` stands for the square root. */
  function BandsOf(period: nat, numStd: real, xs: seq<real>, root: real -> real): Option<BandValue>
    requires period >= 1
  {
    if |xs| < period then None
    else
      var w := Window(xs, period);
      Some(BandsFrom(w, numStd, root(Variance(w))))
  }

  class BollingerBands {
    const period: nat
    const numStd: real
    const buf: RollingBuffer
    var last: real
    ghost var history: seq<real>

    ghost predicate Valid()
      reads this, buf
    {
      && period >= 1 && buf.maxlen == period && buf.buf == Window(history, period)
      && last == if history == [] then 0.0 else history[|history| - 1]
    }

    constructor (period: nat, numStd: real)
      requires period >= 1
      ensures Valid() && this.period == period && this.numStd == numStd && history == [] && fresh(buf)
    {
      this.period, this.numStd, last, history := period, numStd, 0.0, [];
      buf := new RollingBuffer(period);
    }

    method Update(value: real)
      requires Valid()
      modifies this, buf
      ensures Valid() && history == old(history) + [value]
    {
      WindowPush(history, value, period);
      buf.Push(value);
      last, history := value, history + [value];
    }

    method Value(root: real -> real) returns (v: Option<BandValue>)
      requires Valid()
      ensures v == BandsOf(period, numStd, history, root)
    {
      if !buf.Full() { return None; }
      var data := buf.buf;
      assert data == Window(history, period) && |data| == period && data[period - 1] == last;
      var mean := Sum(data) / period as real;
      var variance := Sum(SquaredDeviations(data, mean)) / period as real;
      assert mean == Mean(data) && variance == Variance(data);
      var std := root(variance);
      var upper, lower := mean + numStd * std, mean - numStd * std;
      var bw := if mean != 0.0 then (upper - lower) / mean else 0.0;
      var pctB := if upper != lower then (last - lower) / (upper - lower) else 0.5;
      v := Some(BandValue(upper, mean, lower, bw, pctB));
      assert v.value == BandsFrom(data, numStd, std);
    }

    method Reset()
      requires Valid()
      modifies this, buf
      ensures Valid() && history == []
    {
      buf.Clear();
      last, history := 0.0, [];
    }
  }

  // ---- Session VWAP ----

  datatype Tick = Tick(price: real, qty: int)

  function SumPq(ticks: seq<Tick>): real {
    if ticks == [] then 0.0
    else SumPq(ticks[..|ticks| - 1]) + ticks[|ticks| - 1].price * ticks[|ticks| - 1].qty as real
  }

  function SumQ(ticks: seq<Tick>): int {
    if ticks == [] then 0 else SumQ(ticks[..|ticks| - 1]) + ticks[|ticks| - 1].qty
  }

  function VwapOf(ticks: seq<Tick>): Option<real> {
    if SumQ(ticks) == 0 then None else Some(SumPq(ticks) / SumQ(ticks) as real)
  }

  class SessionVWAP {
    var sumPq: real
    var sumQ: real
    ghost var history: seq<Tick>

    ghost predicate Valid()
      reads this
    {
      sumPq == SumPq(history) && sumQ == SumQ(history) as real
    }

    constructor ()
      ensures Valid() && history == []
    {
      sumPq, sumQ, history := 0.0, 0.0, [];
    }

    method UpdateTrade(price: real, qty: int)
      requires Valid()
      modifies this
      ensures Valid() && history == old(history) + [Tick(price, qty)]
    {
      assert (history + [Tick(price, qty)])[..|history|] == history;
      sumPq, sumQ := sumPq + price * qty as real, sumQ + qty as real;
      history := history + [Tick(price, qty)];
    }

    method Value() returns (v: Option<real>)
      requires Valid()
      ensures v == VwapOf(history)
    {
      v := if sumQ == 0.0 then None else Some(sumPq / sumQ);
    }

    method Reset()
      requires Valid()
      modifies this
      ensures Valid() && history == []
    {
      sumPq, sumQ, history := 0.0, 0.0, [];
    }
  }
}
