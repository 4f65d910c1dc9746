/** Two redundant channels, one parser: what every interleaving of the copies leaves behind. */
module Channels {
  import opened Bytes
  import opened Collections
  import opened Feed
  import opened L2Book
  import opened Shuffles
  import opened Umdf
  import opened UmdfParser

  /** The receiving session: both channels' loops call the one parser, whose callbacks update the books. */
  class Session {
    const parser: UMDFParser
    const manager: BookManager

    ghost predicate Valid()
      reads manager
    {
      manager.Valid()
    }

    constructor ()
      ensures Valid() && parser.lastSeq == 0 && manager.View() == map[]
      ensures fresh(parser) && fresh(manager) && fresh(manager.books.Values)
    {
      parser := new UMDFParser();
      manager := new BookManager();
    }

    /** The packets of both loops in the order the parser is given them; nothing is dropped. */
    method RecvLoop(arrivals: seq<seq<byte>>) returns (out: seq<Publication>)
      requires Valid() && forall d <- arrivals :: Defined(d)
      modifies parser, manager, manager.books.Values
      ensures Valid() && fresh(manager.books.Values - old(manager.books.Values))
      ensures manager.View() == After(old(manager.View()), RunEvents(old(parser.lastSeq), arrivals))
      ensures out == Published(old(manager.View()), RunEvents(old(parser.lastSeq), arrivals))
      ensures parser.lastSeq == SeqAfter(old(parser.lastSeq), arrivals)
    {
      hide GapEvents, Payload, Defined, Step, Publications;
      out := [];
      ghost var last, books := parser.lastSeq, manager.View();
      for i := 0 to |arrivals|
        invariant Valid() && fresh(manager.books.Values - old(manager.books.Values))
        invariant parser.lastSeq == SeqAfter(last, arrivals[..i])
        invariant manager.View() == After(books, RunEvents(last, arrivals[..i]))
        invariant out == Published(books, RunEvents(last, arrivals[..i]))
      {
        assert arrivals[..i + 1][..i] == arrivals[..i];
        ghost var before := manager.View();
        var _, events := parser.Parse(arrivals[i]);
        assert manager.View() == before;
        var more := manager.Dispatch(events);
        out := out + more;
        AfterAppend(books, RunEvents(last, arrivals[..i]), events);
      }
      assert arrivals[..|arrivals|] == arrivals;
    }
  }

  lemma {:induction false} AfterAppend(books: Books, s: seq<Event>, t: seq<Event>)
    ensures After(books, s + t) == After(After(books, s), t)
    ensures Published(books, s + t) == Published(books, s) + Published(After(books, s), t)
  {
    hide Step, Publications;
    if t == [] {
      assert s + t == s;
    } else {
      assert (s + t)[..|s + t| - 1] == s + t[..|t| - 1];
      AfterAppend(books, s, t[..|t| - 1]);
    }
  }

  // ---- What an event stream says about one security ----

  /** The quantities written to one price of one side, in order. */
  function WritesTo(security: nat, side: Side, price: int): Event -> seq<int> {
    (e: Event) =>
      if !e.Quote? || e.security != security || price <= 0 then []
      else if side == Bid && e.bid == price then [e.bidQty]
      else if side == Ask && e.ask == price then [e.askQty]
      else []
  }

  /** The symbols of the security's quotes. */
  function QuotesOf(security: nat): Event -> seq<seq<byte>> {
    (e: Event) => if e.Quote? && e.security == security then [e.symbol] else []
  }

  datatype Fill = Fill(price: int, qty: int)

  function FillsOf(security: nat): Event -> seq<Fill> {
    (e: Event) => if e.Trade? && e.security == security then [Fill(e.price, e.qty)] else []
  }

  /** True for each quote and false for each trade of the security. */
  function KindsOf(security: nat): Event -> seq<bool> {
    (e: Event) => if (e.Quote? || e.Trade?) && e.security == security then [e.Quote?] else []
  }

  function Quantity(): Fill -> seq<int> { (f: Fill) => [f.qty] }
  function Notional(): Fill -> seq<int> { (f: Fill) => [f.price * f.qty] }

  function LastOr(s: seq<int>, default: int): int { if s == [] then default else s[|s| - 1] }

  /** The fills that reach a book: those after the security's first quote. */
  function Counted(events: seq<Event>, security: nat): seq<Fill> {
    if events == [] then []
    else
      var before, e := events[..|events| - 1], events[|events| - 1];
      Counted(before, security) +
        if FlatMap(before, QuotesOf(security)) != [] then FillsOf(security)(e) else []
  }

  predicate QuoteFirst(events: seq<Event>, security: nat) {
    var kinds := FlatMap(events, KindsOf(security));
    kinds != [] ==> kinds[0]
  }

  // ---- Books read off the stream ----

  lemma {:induction false} BookExists(events: seq<Event>, s: nat)
    ensures var quotes := FlatMap(events, QuotesOf(s));
      && (s in After(map[], events) <==> quotes != [])
      && (s in After(map[], events) ==> After(map[], events)[s].symbol == CString(quotes[0], 11))
  {
    hide CString;
    if events == [] {
    } else {
      BookExists(events[..|events| - 1], s);
    }
  }

  /** The side holds quantity `v` at the price, where 0 stands for no level. */
  predicate Holds(levels: map<int, int>, price: int, v: int) {
    (price in levels <==> v != 0) && (price in levels ==> levels[price] == v)
  }

  lemma QuoteHolds(b: Book, e: Event, side: Side, price: int, v: int)
    requires e.Quote? && Holds(b.Levels(side), price, v)
    ensures Holds(QuoteBook(b, e).Levels(side), price, LastOr(WritesTo(e.security, side, price)(e), v))
  {}

  /** Each side is the last-write map of the quotes' positive prices. */
  lemma {:induction false} SideIsLastWrite(events: seq<Event>, s: nat, side: Side, price: int)
    requires s in After(map[], events)
    ensures Holds(After(map[], events)[s].Levels(side), price, LastOr(FlatMap(events, WritesTo(s, side, price)), 0))
  {
    hide QuoteBook, Holds, CString;
    var before, e, f := events[..|events| - 1], events[|events| - 1], WritesTo(s, side, price);
    var books := After(map[], before);
    if s in books {
      SideIsLastWrite(before, s, side, price);
    } else {
      BookExists(before, s);
      NoQuotesNoWrites(before, s, side, price);
      EmptyHolds(e.symbol, side, price);
    }
    if e.Quote? && e.security == s {
      QuoteHolds(BookFor(books, s, e.symbol), e, side, price, LastOr(FlatMap(before, f), 0));
    }
  }

  lemma EmptyHolds(symbol: seq<byte>, side: Side, price: int)
    ensures Holds(EmptyBook(CString(symbol, 11)).Levels(side), price, 0)
  {}

  lemma {:induction false} NoQuotesNoWrites(events: seq<Event>, s: nat, side: Side, price: int)
    requires FlatMap(events, QuotesOf(s)) == []
    ensures FlatMap(events, WritesTo(s, side, price)) == []
  {
    if events == [] {
    } else {
      NoQuotesNoWrites(events[..|events| - 1], s, side, price);
    }
  }

  /** The book's trade figures are those of these fills. */
  predicate Accounts(b: Book, fills: seq<Fill>) {
    && b.totalQty == IntSum(FlatMap(fills, Quantity()))
    && b.sumPriceQty == IntSum(FlatMap(fills, Notional()))
    && (if fills == [] then b.lastPrice == b.lastQty == 0
        else b.lastPrice == fills[|fills| - 1].price && b.lastQty == fills[|fills| - 1].qty)
  }

  lemma PrintAccounts(b: Book, fills: seq<Fill>, price: int, qty: int)
    requires Accounts(b, fills)
    ensures Accounts(Apply(b, Print(price, qty)), fills + [Fill(price, qty)])
  {}

  lemma QuoteAccounts(b: Book, e: Event, fills: seq<Fill>)
    requires e.Quote? && Accounts(b, fills)
    ensures Accounts(QuoteBook(b, e), fills)
  {}

  lemma EmptyAccounts(symbol: seq<byte>)
    ensures Accounts(EmptyBook(CString(symbol, 11)), [])
  {}

  lemma {:induction false} TradesAreCounted(events: seq<Event>, s: nat)
    ensures s !in After(map[], events) ==> Counted(events, s) == []
    ensures s in After(map[], events) ==> Accounts(After(map[], events)[s], Counted(events, s))
  {
    hide CString, QuoteBook, Apply, Accounts, QuotesOf;
    if events == [] {
    } else {
      var before, e := events[..|events| - 1], events[|events| - 1];
      var books := After(map[], before);
      TradesAreCounted(before, s);
      BookExists(before, s);
      BookExists(events, s);
      assert !(e.Trade? && e.security == s) ==> Counted(events, s) == Counted(before, s);
      if e.Quote? && e.security == s {
        EmptyAccounts(e.symbol);
        QuoteAccounts(BookFor(books, s, e.symbol), e, Counted(before, s));
      } else if e.Trade? && e.security == s && s in books {
        PrintAccounts(books[s], Counted(before, s), e.price, e.qty);
      }
    }
  }

  /** When the security's first event is a quote, no fill is lost. */
  lemma {:induction false} QuoteFirstCountsAll(events: seq<Event>, s: nat)
    ensures FlatMap(events, KindsOf(s)) == [] ==>
      FlatMap(events, QuotesOf(s)) == [] && FlatMap(events, FillsOf(s)) == []
    ensures FlatMap(events, KindsOf(s)) != [] && QuoteFirst(events, s) ==> FlatMap(events, QuotesOf(s)) != []
    ensures QuoteFirst(events, s) ==> Counted(events, s) == FlatMap(events, FillsOf(s))
  {
    if events == [] {
    } else {
      QuoteFirstCountsAll(events[..|events| - 1], s);
    }
  }

  // ---- Runs of interleaved packets ----

  ghost predicate IgnoresGaps<U>(f: Event -> seq<U>) { forall x, y :: f(Gap(x, y)) == [] }

  function OfPacket<U>(f: Event -> seq<U>): seq<byte> -> seq<U> {
    (d: seq<byte>) => FlatMap(Payload(d), f)
  }

  lemma {:induction false} RunByPacket<U>(last: nat, w: seq<seq<byte>>, f: Event -> seq<U>)
    requires IgnoresGaps(f)
    ensures FlatMap(RunEvents(last, w), f) == FlatMap(w, OfPacket(f))
  {
    hide Payload, GapEvents, SeqAfter;
    if w == [] {
    } else {
      var before, d := w[..|w| - 1], w[|w| - 1];
      RunByPacket(last, before, f);
      FlatMapAppend(RunEvents(last, before), GapEvents(SeqAfter(last, before), d) + Payload(d), f);
      GapsUnseen(SeqAfter(last, before), d, f);
    }
  }

  lemma GapsUnseen<U>(last: nat, d: seq<byte>, f: Event -> seq<U>)
    requires IgnoresGaps(f)
    ensures FlatMap(GapEvents(last, d) + Payload(d), f) == FlatMap(Payload(d), f)
  {
    hide Payload;
    var gaps := GapEvents(last, d);
    FlatMapAppend(gaps, Payload(d), f);
    if gaps != [] {
      assert gaps == [gaps[0]];
      FlatMapOne(gaps[0], f);
    }
    assert FlatMap(gaps, f) == [];
  }

  /** What the books see of an interleaved run is an interleaving of what they see of each copy. */
  lemma RunShuffle<U>(w: seq<seq<byte>>, a: seq<seq<byte>>, b: seq<seq<byte>>, f: Event -> seq<U>)
    requires IsShuffle(w, a, b) && IgnoresGaps(f)
    ensures IsShuffle(FlatMap(RunEvents(0, w), f), FlatMap(RunEvents(0, a), f), FlatMap(RunEvents(0, b), f))
  {
    RunByPacket(0, w, f);
    RunByPacket(0, a, f);
    RunByPacket(0, b, f);
    ShuffleFlatMap(w, a, b, OfPacket(f));
  }

  function FinalBooks(arrivals: seq<seq<byte>>): Books { After(map[], RunEvents(0, arrivals)) }

  lemma SameBook(w: seq<seq<byte>>, a: seq<seq<byte>>, s: nat)
    requires IsShuffle(w, a, a)
    ensures s in FinalBooks(w) <==> s in FinalBooks(a)
    ensures s in FinalBooks(w) ==> FinalBooks(w)[s].symbol == FinalBooks(a)[s].symbol
  {
    hide RunEvents, After, CString;
    BookExists(RunEvents(0, w), s);
    BookExists(RunEvents(0, a), s);
    RunShuffle(w, a, a, QuotesOf(s));
    ShuffleEnds(FlatMap(RunEvents(0, w), QuotesOf(s)), FlatMap(RunEvents(0, a), QuotesOf(s)),
                FlatMap(RunEvents(0, a), QuotesOf(s)));
  }

  lemma SameSide(w: seq<seq<byte>>, a: seq<seq<byte>>, s: nat, side: Side)
    requires IsShuffle(w, a, a)
    requires s in FinalBooks(w) && s in FinalBooks(a)
    ensures FinalBooks(w)[s].Levels(side) == FinalBooks(a)[s].Levels(side)
  {
    hide RunEvents, After, FlatMap;
    var v, u := RunEvents(0, w), RunEvents(0, a);
    var wl, al := FinalBooks(w)[s].Levels(side), FinalBooks(a)[s].Levels(side);
    forall p ensures (p in wl <==> p in al) && (p in wl ==> wl[p] == al[p]) {
      SideIsLastWrite(v, s, side, p);
      SideIsLastWrite(u, s, side, p);
      RunShuffle(w, a, a, WritesTo(s, side, p));
      ShuffleEnds(FlatMap(v, WritesTo(s, side, p)), FlatMap(u, WritesTo(s, side, p)), FlatMap(u, WritesTo(s, side, p)));
    }
  }

  /** However two complete copies of a packet stream interleave, the books that exist, their symbols and both
      sides of each end exactly as after one copy, although no duplicate is dropped. */
  lemma ChannelsConverge(w: seq<seq<byte>>, a: seq<seq<byte>>)
    requires IsShuffle(w, a, a)
    ensures FinalBooks(w).Keys == FinalBooks(a).Keys
    ensures forall s <- FinalBooks(w) :: var two, one := FinalBooks(w)[s], FinalBooks(a)[s];
      two.symbol == one.symbol && two.bids == one.bids && two.asks == one.asks
  {
    hide FinalBooks;
    forall s ensures s in FinalBooks(w) <==> s in FinalBooks(a) {
      SameBook(w, a, s);
    }
    forall s <- FinalBooks(w)
      ensures var two, one := FinalBooks(w)[s], FinalBooks(a)[s];
        two.symbol == one.symbol && two.bids == one.bids && two.asks == one.asks
    {
      SameBook(w, a, s);
      SameSide(w, a, s, Bid);
      SameSide(w, a, s, Ask);
    }
  }

  // ---- Traded figures ----

  /** Every fill of the security in one copy of the stream, whether or not it reached a book. */
  function AllFills(a: seq<seq<byte>>, s: nat): seq<Fill> { FlatMap(RunEvents(0, a), FillsOf(s)) }

  lemma QuoteFirstSurvives(w: seq<seq<byte>>, a: seq<seq<byte>>, s: nat)
    requires IsShuffle(w, a, a) && QuoteFirst(RunEvents(0, a), s)
    ensures QuoteFirst(RunEvents(0, w), s)
  {
    hide RunEvents, FlatMap;
    RunShuffle(w, a, a, KindsOf(s));
    var one := FlatMap(RunEvents(0, a), KindsOf(s));
    ShuffleEnds(FlatMap(RunEvents(0, w), KindsOf(s)), one, one);
  }

  lemma ShuffleTotal(w: seq<Fill>, a: seq<Fill>, f: Fill -> seq<int>)
    requires IsShuffle(w, a, a)
    ensures IntSum(FlatMap(w, f)) == 2 * IntSum(FlatMap(a, f))
  {
    ShuffleFlatMap(w, a, a, f);
    ShuffleSum(FlatMap(w, f), FlatMap(a, f), FlatMap(a, f));
  }

  lemma HalfOfDouble(value: int, qty: int)
    requires qty != 0
    ensures (2 * value) as real / (2 * qty) as real == value as real / qty as real
  {}

  /** When a security's first event is a quote, both copies' trades all count: traded quantity and value come out
      exactly doubled, while the average price and the last trade are those of one copy. */
  lemma TradedFiguresDouble(w: seq<seq<byte>>, a: seq<seq<byte>>, s: nat)
    requires IsShuffle(w, a, a) && QuoteFirst(RunEvents(0, a), s)
    requires s in FinalBooks(a)
    ensures s in FinalBooks(w)
    ensures var two, one := FinalBooks(w)[s], FinalBooks(a)[s];
      && two.totalQty == 2 * one.totalQty && two.sumPriceQty == 2 * one.sumPriceQty
      && two.Vwap() == one.Vwap() && two.lastPrice == one.lastPrice && two.lastQty == one.lastQty
  {
    hide RunEvents, After, FlatMap, Counted, QuoteFirst, IntSum;
    SameBook(w, a, s);
    TradesAreCounted(RunEvents(0, w), s);
    TradesAreCounted(RunEvents(0, a), s);
    QuoteFirstSurvives(w, a, s);
    QuoteFirstCountsAll(RunEvents(0, w), s);
    QuoteFirstCountsAll(RunEvents(0, a), s);
    RunShuffle(w, a, a, FillsOf(s));
    var twice, once := AllFills(w, s), AllFills(a, s);
    ShuffleEnds(twice, once, once);
    ShuffleTotal(twice, once, Quantity());
    ShuffleTotal(twice, once, Notional());
    var one := FinalBooks(a)[s];
    if one.totalQty != 0 {
      HalfOfDouble(one.sumPriceQty, one.totalQty);
    }
  }

  // ---- Exactly when they double ----

  /** The fills that reach no book because the security has not been quoted yet. */
  function Lost(events: seq<Event>, security: nat): seq<Fill> {
    if events == [] then []
    else
      var before, e := events[..|events| - 1], events[|events| - 1];
      Lost(before, security) +
        if FlatMap(before, QuotesOf(security)) == [] then FillsOf(security)(e) else []
  }

  function TotalQty(fills: seq<Fill>): int { IntSum(FlatMap(fills, Quantity())) }

  lemma TotalAppend(s: seq<Fill>, t: seq<Fill>)
    ensures TotalQty(s + t) == TotalQty(s) + TotalQty(t)
  {
    FlatMapAppend(s, t, Quantity());
    IntSumAppend(FlatMap(s, Quantity()), FlatMap(t, Quantity()));
  }

  /** Every fill is either counted or lost. */
  lemma {:induction false} FillsConserved(events: seq<Event>, s: nat)
    ensures TotalQty(Counted(events, s)) + TotalQty(Lost(events, s)) == TotalQty(FlatMap(events, FillsOf(s)))
    ensures forall f <- Lost(events, s) :: f in FlatMap(events, FillsOf(s))
  {
    hide FillsOf, QuotesOf;
    if events == [] {
    } else {
      var before, e := events[..|events| - 1], events[|events| - 1];
      FillsConserved(before, s);
      TotalAppend(Counted(before, s), FillsOf(s)(e));
      TotalAppend(Lost(before, s), FillsOf(s)(e));
      TotalAppend(FlatMap(before, FillsOf(s)), FillsOf(s)(e));
      assert Lost(before, s) + [] == Lost(before, s) && Counted(before, s) + [] == Counted(before, s);
    }
  }

  lemma {:induction false} LosesUnlessQuoteFirst(events: seq<Event>, s: nat)
    requires !QuoteFirst(events, s)
    ensures Lost(events, s) != []
  {
    if events == [] {
    } else {
      var before := events[..|events| - 1];
      QuoteFirstCountsAll(before, s);
      if FlatMap(before, KindsOf(s)) != [] {
        LosesUnlessQuoteFirst(before, s);
      }
    }
  }

  lemma {:induction false} PositiveTotal(fills: seq<Fill>)
    requires fills != [] && forall f <- fills :: f.qty > 0
    ensures TotalQty(fills) > 0
  {
    var before, f := fills[..|fills| - 1], fills[|fills| - 1];
    assert fills == before + [f];
    TotalAppend(before, [f]);
    FlatMapOne(f, Quantity());
    IntSumOne(f.qty);
    if before == [] {
      assert FlatMap(before, Quantity()) == [];
    } else {
      PositiveTotal(before);
    }
  }

  /** Once a security has a book, everything that follows counts. */
  lemma {:induction false} CountedAppend(x: seq<Event>, y: seq<Event>, s: nat)
    requires FlatMap(x, QuotesOf(s)) != []
    ensures Counted(x + y, s) == Counted(x, s) + FlatMap(y, FillsOf(s))
  {
    hide QuotesOf, FillsOf;
    if y == [] {
      assert x + y == x;
    } else {
      var before := y[..|y| - 1];
      assert (x + y)[..|x + y| - 1] == x + before;
      CountedAppend(x, before, s);
      FlatMapAppend(x, before, QuotesOf(s));
    }
  }

  lemma {:induction false} RunAppend(x: seq<seq<byte>>, y: seq<seq<byte>>)
    ensures SeqAfter(0, x + y) == SeqAfter(SeqAfter(0, x), y)
    ensures RunEvents(0, x + y) == RunEvents(0, x) + RunEvents(SeqAfter(0, x), y)
  {
    hide GapEvents, Payload, LastSeq;
    if y == [] {
      assert x + y == x;
    } else {
      assert (x + y)[..|x + y| - 1] == x + y[..|y| - 1];
      RunAppend(x, y[..|y| - 1]);
    }
  }

  /** One copy and then the other: the total grows by every fill, lost ones included. */
  lemma BackToBackTotal(a: seq<seq<byte>>, s: nat)
    requires s in FinalBooks(a)
    ensures s in FinalBooks(a + a)
    ensures FinalBooks(a + a)[s].totalQty == FinalBooks(a)[s].totalQty + TotalQty(AllFills(a, s))
  {
    hide RunEvents, After, Counted, FlatMap;
    var x := RunEvents(0, a);
    var y := RunEvents(SeqAfter(0, a), a);
    RunAppend(a, a);
    BookExists(x, s);
    BackToBack(a, a);
    SameBook(a + a, a, s);
    CountedAppend(x, y, s);
    RunByPacket(0, a, FillsOf(s));
    RunByPacket(SeqAfter(0, a), a, FillsOf(s));
    CountedTotal(x, s);
    assert RunEvents(0, a + a) == x + y;
    CountedTotal(x + y, s);
    TotalAppend(Counted(x, s), FlatMap(y, FillsOf(s)));
  }

  ghost predicate DoublesUnder(w: seq<seq<byte>>, a: seq<seq<byte>>, s: nat) {
    s in FinalBooks(w) && s in FinalBooks(a) && FinalBooks(w)[s].totalQty == 2 * FinalBooks(a)[s].totalQty
  }

  /** With positive quantities, the traded quantity doubles under every interleaving if and only if the first
      event of the security is a quote: a trade seen before any quote is lost from one copy but not both. */
  lemma DoublesExactlyWhenQuoteFirst(a: seq<seq<byte>>, s: nat)
    requires s in FinalBooks(a) && forall f <- AllFills(a, s) :: f.qty > 0
    ensures (forall w :: IsShuffle(w, a, a) ==> DoublesUnder(w, a, s)) <==> QuoteFirst(RunEvents(0, a), s)
  {
    hide RunEvents, After, Counted, FlatMap, QuoteFirst, TotalQty;
    var x := RunEvents(0, a);
    if QuoteFirst(x, s) {
      forall w | IsShuffle(w, a, a) ensures DoublesUnder(w, a, s) {
        TradedFiguresDouble(w, a, s);
      }
    } else {
      BackToBack(a, a);
      BackToBackTotal(a, s);
      FillsConserved(x, s);
      LosesUnlessQuoteFirst(x, s);
      PositiveTotal(Lost(x, s));
      CountedTotal(x, s);
      assert !DoublesUnder(a + a, a, s);
    }
  }

  lemma CountedTotal(events: seq<Event>, s: nat)
    requires s in After(map[], events)
    ensures After(map[], events)[s].totalQty == TotalQty(Counted(events, s))
  {
    TradesAreCounted(events, s);
  }
}
