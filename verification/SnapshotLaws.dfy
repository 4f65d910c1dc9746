/** What a published snapshot says, read off the event stream field by field. */
module SnapshotLaws {
  import opened Channels
  import opened Collections
  import opened Feed
  import opened L2Book
  import opened Umdf

  /** The quantity the stream leaves at a price of one side, 0 for none. */
  function LeftAt(events: seq<Event>, s: nat, side: Side): int -> int {
    (p: int) => LastOr(FlatMap(events, WritesTo(s, side, p)), 0)
  }

  predicate Has(levels: seq<Level>, p: int) { exists i :: 0 <= i < |levels| && levels[i].price == p }

  /** Levels of nonzero quantity that the stream left, and all of them when there are fewer than five. */
  ghost predicate Shows(levels: seq<Level>, left: int -> int) {
    && |levels| <= 5
    && (forall i :: 0 <= i < |levels| ==> levels[i].qty == left(levels[i].price) != 0)
    && (|levels| < 5 ==> forall p :: left(p) != 0 ==> Has(levels, p))
  }

  /** The highest prices, highest first. */
  ghost predicate BestBids(levels: seq<Level>, left: int -> int) {
    && Shows(levels, left)
    && (forall i, j :: 0 <= i < j < |levels| ==> levels[i].price > levels[j].price)
    && (forall p, i :: left(p) != 0 && 0 <= i < |levels| ==> Has(levels, p) || p < levels[i].price)
  }

  /** The lowest prices, lowest first. */
  ghost predicate BestAsks(levels: seq<Level>, left: int -> int) {
    && Shows(levels, left)
    && (forall i, j :: 0 <= i < j < |levels| ==> levels[i].price < levels[j].price)
    && (forall p, i :: left(p) != 0 && 0 <= i < |levels| ==> Has(levels, p) || p > levels[i].price)
  }

  lemma TopShows(side: Side, levels: map<int, int>, left: int -> int)
    requires forall p :: Holds(levels, p, left(p))
    ensures var top := Top(side, levels, 5);
      if side == Bid then BestBids(top, left) else BestAsks(top, left)
  {
    hide Top;
    var top := Top(side, levels, 5);
    TopIsBest(side, levels, 5);
    if |top| < 5 { TopIsAll(side, levels, 5); }
    forall i | 0 <= i < |top| ensures top[i].qty == left(top[i].price) != 0 {
      assert Holds(levels, top[i].price, left(top[i].price));
    }
    forall p | left(p) != 0 ensures p in levels && (Has(top, p) <==> Lists(top, p)) {
      assert Holds(levels, p, left(p));
    }
  }

  /** The trade figures are those of the fills counted. */
  predicate ShowsFills(u: BookSnapshot, fills: seq<Fill>) {
    && u.totalQty == IntSum(FlatMap(fills, Quantity()))
    && u.totalValue == IntSum(FlatMap(fills, Notional()))
    && (if u.totalQty == 0 then u.vwap == 0.0 else u.vwap * u.totalQty as real == u.totalValue as real)
    && (if fills == [] then u.lastPrice == 0 && u.lastQty == 0
        else u.lastPrice == fills[|fills| - 1].price && u.lastQty == fills[|fills| - 1].qty)
  }

  lemma SnapshotShowsFills(s: nat, b: Book, fills: seq<Fill>)
    requires Accounts(b, fills)
    ensures ShowsFills(SnapshotOf(s, b), fills)
  {
    hide Top, FlatMap, IntSum;
    if b.totalQty != 0 {
      var v := b.Vwap();
      assert v * b.totalQty as real == b.sumPriceQty as real;
    }
  }

  /** For every event stream and every security quoted in it, the last snapshot published: its name is that of the
      first quote; its bids and asks are the best five prices, each of its own side, with the quantities last written;
      its trade figures are those of the trades since the first quote. */
  lemma LastUpdateReadsStream(events: seq<Event>, s: nat)
    requires FlatMap(events, QuotesOf(s)) != []
    ensures var updates := FlatMap(Published(map[], events), UpdatesOf(s));
      updates != [] &&
      var u := updates[|updates| - 1];
      && u.security == s && IsName(u.symbol, FlatMap(events, QuotesOf(s))[0])
      && BestBids(u.bids, LeftAt(events, s, Bid)) && BestAsks(u.asks, LeftAt(events, s, Ask))
      && ShowsFills(u, Counted(events, s))
  {
    hide FlatMap, Published, After, Top, CString, Counted, Accounts, ShowsFills, BestBids, BestAsks, Book.Vwap;
    LastUpdateIsCurrent(events, s);
    BookExists(events, s);
    CStringCuts(FlatMap(events, QuotesOf(s))[0], 11);
    TradesAreCounted(events, s);
    var b := After(map[], events)[s];
    SnapshotShowsFills(s, b, Counted(events, s));
    SideShows(events, s, Bid);
    SideShows(events, s, Ask);
  }

  lemma SideShows(events: seq<Event>, s: nat, side: Side)
    requires s in After(map[], events)
    ensures var top := Top(side, After(map[], events)[s].Levels(side), 5);
      if side == Bid then BestBids(top, LeftAt(events, s, side)) else BestAsks(top, LeftAt(events, s, side))
  {
    hide FlatMap, After, Top, BestBids, BestAsks;
    var levels := After(map[], events)[s].Levels(side);
    forall p ensures Holds(levels, p, LeftAt(events, s, side)(p)) {
      SideIsLastWrite(events, s, side, p);
    }
    TopShows(side, levels, LeftAt(events, s, side));
  }

  /** One update for every quote and every trade counted. */
  lemma {:induction false} OneUpdateEach(events: seq<Event>, s: nat)
    ensures |FlatMap(Published(map[], events), UpdatesOf(s))|
         == |FlatMap(events, QuotesOf(s))| + |Counted(events, s)|
  {
    hide Publications, SnapshotOf, Step;
    if events == [] {
    } else {
      var before, e := events[..|events| - 1], events[|events| - 1];
      var books := After(map[], before);
      OneUpdateEach(before, s);
      BookExists(before, s);
      BookExists(events, s);
      PublicationsSplit(books, e, s);
      UpdateSplit(Step(books, e), s, s);
      FlatMapAppend(Published(map[], before), Publications(books, e), UpdatesOf(s));
      QuotesGrow(events, s);
    }
  }

  lemma QuotesGrow(events: seq<Event>, s: nat)
    requires events != []
    ensures var before, e := events[..|events| - 1], events[|events| - 1];
      FlatMap(events, QuotesOf(s)) == FlatMap(before, QuotesOf(s)) + QuotesOf(s)(e)
  {}

}
