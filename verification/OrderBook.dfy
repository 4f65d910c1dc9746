/** One instrument's level-two book. Prices are 10^-8 units, as on the wire. */
module L2Book {
  import opened Collections

  datatype Side = Bid | Ask

  datatype Level = Level(price: int, qty: int)

  /** A book as a value: what the fields of the class hold. */
  datatype Book = Book(symbol: seq<int>, bids: map<int, int>, asks: map<int, int>,
                       lastPrice: int, lastQty: int, sumPriceQty: int, totalQty: int)
  {
    function Levels(side: Side): map<int, int> { if side.Bid? then bids else asks }

    function Vwap(): real {
      if totalQty == 0 then 0.0 else sumPriceQty as real / totalQty as real
    }
  }

  function EmptyBook(symbol: seq<int>): Book {
    Book(symbol, map[], map[], 0, 0, 0, 0)
  }

  // ---- Ordered maps: bids iterate from the highest price, asks from the lowest ----

  predicate Better(side: Side, p: int, q: int) { if side.Bid? then p > q else p < q }

  predicate IsBest(side: Side, p: int, prices: set<int>) {
    p in prices && forall q <- prices :: q == p || Better(side, p, q)
  }

  lemma {:induction false} BestExists(side: Side, prices: set<int>)
    requires prices != {}
    ensures exists p :: IsBest(side, p, prices)
  {
    SomeElement(prices);
    var x :| x in prices;
    if prices == {x} {
      assert IsBest(side, x, prices);
    } else {
      BestExists(side, prices - {x});
      var y :| IsBest(side, y, prices - {x});
      var best := if Better(side, x, y) then x else y;
      forall q <- prices ensures q == best || Better(side, best, q) {
        assert q == x || q in prices - {x};
      }
      assert IsBest(side, best, prices);
    }
  }

  /** The first key of the ordered map. */
  function Begin(side: Side, prices: set<int>): (p: int)
    requires prices != {}
    ensures IsBest(side, p, prices)
  {
    BestExists(side, prices);
    var p :| IsBest(side, p, prices);
    p
  }

  /** The first `n` entries of the ordered map. */
  function Top(side: Side, levels: map<int, int>, n: nat): seq<Level> {
    if n == 0 || levels == map[] then []
    else
      var p := Begin(side, levels.Keys);
      [Level(p, levels[p])] + Top(side, levels - {p}, n - 1)
  }

  predicate Lists(top: seq<Level>, price: int) {
    exists j :: 0 <= j < |top| && top[j].price == price
  }

  /** `Top` is exactly the `min(n, |levels|)` best levels, in strict order, with their quantities. */
  lemma {:induction false} TopIsBest(side: Side, levels: map<int, int>, n: nat)
    ensures var top := Top(side, levels, n);
      && |top| == (if n < |levels| then n else |levels|)
      && (forall i :: 0 <= i < |top| ==> top[i].price in levels && levels[top[i].price] == top[i].qty)
      && (forall i, j :: 0 <= i < j < |top| ==> Better(side, top[i].price, top[j].price))
      && (forall p <- levels, i | 0 <= i < |top| ::
            Lists(top, p) || Better(side, top[i].price, p))
    decreases n
  {
    var top := Top(side, levels, n);
    if n == 0 || levels == map[] {
    } else {
      var p := Begin(side, levels.Keys);
      var rest := levels - {p};
      TopIsBest(side, rest, n - 1);
      assert |rest| == |levels| - 1 by { assert rest.Keys == levels.Keys - {p}; }
      assert top[1..] == Top(side, rest, n - 1);
      assert forall i :: 1 <= i < |top| ==> top[i] == top[1..][i - 1];
      forall q <- levels, i | 0 <= i < |top|
        ensures Lists(top, q) || Better(side, top[i].price, q)
      {
        if q == p {
          assert top[0].price == q;
        } else if i > 0 {
          assert q in rest;
          if j :| 0 <= j < |top| - 1 && top[1..][j].price == q {
            assert top[j + 1].price == q;
          } else {
            assert Better(side, top[1..][i - 1].price, q);
          }
        }
      }
    }
  }

  // ---- Operations on the value ----

  datatype Op =
    | SetLevel(side: Side, price: int, qty: int, action: int)
    | Print(price: int, qty: int)

  function UpdateLevel(levels: map<int, int>, price: int, qty: int, action: int): map<int, int> {
    if action == 2 || qty == 0 then levels - {price} else levels[price := qty]
  }

  function Apply(b: Book, op: Op): Book {
    match op
    case SetLevel(Bid, price, qty, action) => b.(bids := UpdateLevel(b.bids, price, qty, action))
    case SetLevel(Ask, price, qty, action) => b.(asks := UpdateLevel(b.asks, price, qty, action))
    case Print(price, qty) =>
      b.(lastPrice := price, lastQty := qty, sumPriceQty := b.sumPriceQty + price * qty, totalQty := b.totalQty + qty)
  }

  function Replay(b: Book, ops: seq<Op>): Book {
    if ops == [] then b else Apply(Replay(b, ops[..|ops| - 1]), ops[|ops| - 1])
  }

  /** What the last write to a price left there: 0 when nothing was written or the level was removed. */
  function LastWrite(ops: seq<Op>, side: Side, price: int): int {
    if ops == [] then 0
    else
      var op := ops[|ops| - 1];
      if op.SetLevel? && op.side == side && op.price == price then (if op.action == 2 then 0 else op.qty)
      else LastWrite(ops[..|ops| - 1], side, price)
  }

  /** After any history a side holds exactly the prices whose last write is not 0, with that write. */
  lemma {:induction false} LastWriteWins(symbol: seq<int>, ops: seq<Op>, side: Side, price: int)
    ensures var levels := Replay(EmptyBook(symbol), ops).Levels(side);
      && (price in levels <==> LastWrite(ops, side, price) != 0)
      && (price in levels ==> levels[price] == LastWrite(ops, side, price))
  {
    if ops == [] {
    } else {
      LastWriteWins(symbol, ops[..|ops| - 1], side, price);
    }
  }

  /** The published side, read off the history alone: no zero quantity, every level the last write at its price,
      best first, and no better price left out. */
  lemma SnapshotReadsHistory(symbol: seq<int>, ops: seq<Op>, side: Side)
    ensures var top := Top(side, Replay(EmptyBook(symbol), ops).Levels(side), 5);
      && |top| <= 5
      && (forall i :: 0 <= i < |top| ==> top[i].qty == LastWrite(ops, side, top[i].price) != 0)
      && (forall i, j :: 0 <= i < j < |top| ==> Better(side, top[i].price, top[j].price))
      && (forall p, i | 0 <= i < |top| && LastWrite(ops, side, p) != 0 ::
            Lists(top, p) || Better(side, top[i].price, p))
      && (|top| < 5 ==> forall p | LastWrite(ops, side, p) != 0 :: Lists(top, p))
  {
    var levels := Replay(EmptyBook(symbol), ops).Levels(side);
    var top := Top(side, levels, 5);
    TopIsBest(side, levels, 5);
    forall p ensures (p in levels <==> LastWrite(ops, side, p) != 0)
      && (p in levels ==> levels[p] == LastWrite(ops, side, p))
    {
      LastWriteWins(symbol, ops, side, p);
    }
    if |top| < 5 {
      TopIsAll(side, levels, 5);
    }
  }

  lemma {:induction false} TopIsAll(side: Side, levels: map<int, int>, n: nat)
    requires |levels| <= n
    ensures forall p <- levels :: Lists(Top(side, levels, n), p)
    decreases n
  {
    if levels == map[] {
    } else {
      assert |levels.Keys| > 0;
      var top, b := Top(side, levels, n), Begin(side, levels.Keys);
      var rest := levels - {b};
      assert rest.Keys == levels.Keys - {b};
      TopIsAll(side, rest, n - 1);
      forall p <- levels ensures Lists(top, p) {
        if p == b {
          assert top[0].price == p;
        } else {
          assert p in rest && Lists(Top(side, rest, n - 1), p);
          var j :| 0 <= j < |Top(side, rest, n - 1)| && Top(side, rest, n - 1)[j].price == p;
          assert top[j + 1].price == p;
        }
      }
    }
  }

  // ---- The class ----

  datatype BookSnapshot = BookSnapshot(security: nat, symbol: seq<int>, lastPrice: int, lastQty: int, vwap: real,
                               totalQty: int, totalValue: int, bids: seq<Level>, asks: seq<Level>)

  function SnapshotOf(security: nat, b: Book): BookSnapshot {
    BookSnapshot(security, b.symbol, b.lastPrice, b.lastQty, b.Vwap(), b.totalQty, b.sumPriceQty,
             Top(Bid, b.bids, 5), Top(Ask, b.asks, 5))
  }

  class OrderBook {
    const security: nat
    const symbol: seq<int>
    var bids: map<int, int>
    var asks: map<int, int>
    var lastTradePrice: int
    var lastTradeQty: int
    var sumPriceQty: int
    var totalTradedQty: int

    function View(): Book
      reads this
    {
      Book(symbol, bids, asks, lastTradePrice, lastTradeQty, sumPriceQty, totalTradedQty)
    }

    constructor (security: nat, symbol: seq<int>)
      ensures this.security == security && View() == EmptyBook(symbol)
    {
      this.security, this.symbol := security, symbol;
      bids, asks := map[], map[];
      lastTradePrice, lastTradeQty, sumPriceQty, totalTradedQty := 0, 0, 0, 0;
    }

    method ApplyBid(price: int, qty: int, action: int)
      modifies this
      ensures View() == Apply(old(View()), SetLevel(Bid, price, qty, action))
    {
      if action == 2 || qty == 0 {
        bids := bids - {price};
      } else {
        bids := bids[price := qty];
      }
    }

    method ApplyAsk(price: int, qty: int, action: int)
      modifies this
      ensures View() == Apply(old(View()), SetLevel(Ask, price, qty, action))
    {
      if action == 2 || qty == 0 {
        asks := asks - {price};
      } else {
        asks := asks[price := qty];
      }
    }

    method ApplyTrade(price: int, qty: int)
      modifies this
      ensures View() == Apply(old(View()), Print(price, qty))
    {
      lastTradePrice, lastTradeQty := price, qty;
      sumPriceQty, totalTradedQty := sumPriceQty + price * qty, totalTradedQty + qty;
    }

    method BestBid() returns (p: int)
      ensures var top := Top(Bid, bids, 5); p == if top == [] then 0 else top[0].price
      ensures if bids == map[] then p == 0 else p in bids && forall q <- bids :: q <= p
    {
      p := if bids == map[] then 0 else Begin(Bid, bids.Keys);
    }

    method BestAsk() returns (p: int)
      ensures var top := Top(Ask, asks, 5); p == if top == [] then 0 else top[0].price
      ensures if asks == map[] then p == 0 else p in asks && forall q <- asks :: q >= p
    {
      p := if asks == map[] then 0 else Begin(Ask, asks.Keys);
    }

    method Vwap() returns (v: real)
      ensures v == View().Vwap()
    {
      v := if totalTradedQty == 0 then 0.0 else sumPriceQty as real / totalTradedQty as real;
    }

    method Snapshot() returns (snap: BookSnapshot)
      ensures snap == SnapshotOf(security, View())
    {
      var v := Vwap();
      var topBids := FirstFive(Bid, bids);
      var topAsks := FirstFive(Ask, asks);
      snap := BookSnapshot(security, symbol, lastTradePrice, lastTradeQty, v, totalTradedQty, sumPriceQty,
                                topBids, topAsks);
    }

    /** The loop that copies one side into the snapshot, best price first, and stops after five. */
    static method FirstFive(side: Side, levels: map<int, int>) returns (out: seq<Level>)
      ensures out == Top(side, levels, 5)
    {
      out := [];
      var rest := levels;
      while rest != map[]
        invariant |out| <= 5 && Top(side, levels, 5) == out + Top(side, rest, 5 - |out|)
        decreases |rest|
      {
        if |out| >= 5 { break; }
        var price := Begin(side, rest.Keys);
        out := out + [Level(price, rest[price])];
        assert (rest - {price}).Keys == rest.Keys - {price};
        rest := rest - {price};
      }
    }
  }
}
