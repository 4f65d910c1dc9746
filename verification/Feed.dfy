/** The feed process: callbacks that turn parsed events into book updates and publications. */
module Feed {
  import opened Bytes
  import opened Collections
  import opened L2Book
  import opened Umdf

  type Books = map<nat, Book>

  // ---- The callbacks on values ----

  /** The C string a fixed symbol field holds, cut to eleven characters as `strncpy` leaves it. */
  function CString(symbol: seq<byte>, room: nat): seq<byte>
    decreases |symbol|
  {
    if symbol == [] || room == 0 || symbol[0] == 0 then [] else [symbol[0]] + CString(symbol[1..], room - 1)
  }

  /** The name a symbol field holds: its first eleven bytes, up to a NUL. */
  predicate IsName(name: seq<int>, field: seq<int>) {
    && name <= field && |name| <= 11 && 0 !in name
    && (|name| == 11 || |name| == |field| || field[|name|] == 0)
  }

  lemma {:induction false} CStringCuts(field: seq<byte>, room: nat)
    ensures var name := CString(field, room);
      && name <= field && |name| <= room && 0 !in name
      && (|name| == room || |name| == |field| || field[|name|] == 0)
    decreases |field|
  {
    if field == [] || room == 0 || field[0] == 0 {
    } else {
      CStringCuts(field[1..], room - 1);
      assert field == [field[0]] + field[1..];
    }
  }

  function BookFor(books: Books, security: nat, symbol: seq<byte>): Book {
    if security in books then books[security] else EmptyBook(CString(symbol, 11))
  }

  function QuoteBook(b: Book, e: Event): Book
    requires e.Quote?
  {
    var b := if e.bid > 0 then Apply(b, SetLevel(Bid, e.bid, e.bidQty, 0)) else b;
    if e.ask > 0 then Apply(b, SetLevel(Ask, e.ask, e.askQty, 0)) else b
  }

  function Step(books: Books, e: Event): Books {
    match e
    case Quote(_, security, symbol, _, _, _, _) =>
      books[security := QuoteBook(BookFor(books, security, symbol), e)]
    case Trade(_, security, _, price, qty, _) =>
      if security in books then books[security := Apply(books[security], Print(price, qty))] else books
    case Heartbeat(_) => books
    case Gap(_, _) => books
  }

  function After(books: Books, events: seq<Event>): Books {
    if events == [] then books else Step(After(books, events[..|events| - 1]), events[|events| - 1])
  }

  // ---- What is published ----

  datatype Publication = BookUpdate(snap: BookSnapshot) | TradeTick(trade: Event)

  function UpdateOf(books: Books, security: nat): seq<Publication> {
    if security in books then [BookUpdate(SnapshotOf(security, books[security]))] else []
  }

  /** What the callback of one event publishes: the book it touched, and every trade whether or not it has a book. */
  function Publications(books: Books, e: Event): seq<Publication> {
    match e
    case Quote(_, security, _, _, _, _, _) => UpdateOf(Step(books, e), security)
    case Trade(_, security, _, _, _, _) => UpdateOf(Step(books, e), security) + [TradeTick(e)]
    case Heartbeat(_) => []
    case Gap(_, _) => []
  }

  function Published(books: Books, events: seq<Event>): seq<Publication> {
    if events == [] then []
    else
      var before, e := events[..|events| - 1], events[|events| - 1];
      Published(books, before) + Publications(After(books, before), e)
  }

  function Ticks(): Publication -> seq<Event> { (p: Publication) => if p.TradeTick? then [p.trade] else [] }

  function Trades(): Event -> seq<Event> { (e: Event) => if e.Trade? then [e] else [] }

  function UpdatesOf(security: nat): Publication -> seq<BookSnapshot> {
    (p: Publication) => if p.BookUpdate? && p.snap.security == security then [p.snap] else []
  }

  lemma PublicationsSplit(books: Books, e: Event, security: nat)
    ensures FlatMap(Publications(books, e), Ticks()) == Trades()(e)
    ensures (e.Quote? || e.Trade?) && e.security == security ==>
      FlatMap(Publications(books, e), UpdatesOf(security))
        == FlatMap(UpdateOf(Step(books, e), security), UpdatesOf(security))
    ensures !((e.Quote? || e.Trade?) && e.security == security) ==>
      FlatMap(Publications(books, e), UpdatesOf(security)) == []
  {
    hide SnapshotOf, Step;
    if e.Trade? {
      FlatMapAppend(UpdateOf(Step(books, e), e.security), [TradeTick(e)], Ticks());
      FlatMapAppend(UpdateOf(Step(books, e), e.security), [TradeTick(e)], UpdatesOf(security));
      FlatMapOne(TradeTick(e), Ticks());
      FlatMapOne(TradeTick(e), UpdatesOf(security));
    }
    if e.Quote? || e.Trade? { UpdateSplit(Step(books, e), e.security, security); }
  }

  lemma UpdateSplit(books: Books, s: nat, security: nat)
    ensures FlatMap(UpdateOf(books, s), Ticks()) == []
    ensures FlatMap(UpdateOf(books, s), UpdatesOf(security))
         == if s == security && s in books then [SnapshotOf(s, books[s])] else []
  {
    hide Top, Book.Vwap;
    if s in books {
      FlatMapOne(BookUpdate(SnapshotOf(s, books[s])), Ticks());
      FlatMapOne(BookUpdate(SnapshotOf(s, books[s])), UpdatesOf(security));
    }
  }

  /** Every trade is published exactly once and in order, counted in a book or not. */
  lemma {:induction false} EveryTradeIsPublished(books: Books, events: seq<Event>)
    ensures FlatMap(Published(books, events), Ticks()) == FlatMap(events, Trades())
  {
    hide Publications, Step;
    if events == [] {
    } else {
      var before, e := events[..|events| - 1], events[|events| - 1];
      EveryTradeIsPublished(books, before);
      PublicationsSplit(After(books, before), e, 0);
      FlatMapAppend(Published(books, before), Publications(After(books, before), e), Ticks());
    }
  }

  /** Subscribers are never behind: the last update published for a security shows its book as it now is, and a
      security without a book has had no update. */
  lemma {:induction false} LastUpdateIsCurrent(events: seq<Event>, s: nat)
    ensures var updates, books := FlatMap(Published(map[], events), UpdatesOf(s)), After(map[], events);
      && (s in books <==> updates != [])
      && (s in books ==> updates[|updates| - 1] == SnapshotOf(s, books[s]))
  {
    hide Publications, SnapshotOf, QuoteBook, Apply, BookFor;
    if events == [] {
    } else {
      var before, e := events[..|events| - 1], events[|events| - 1];
      var books := After(map[], before);
      LastUpdateIsCurrent(before, s);
      PublicationsSplit(books, e, s);
      UpdateSplit(Step(books, e), s, s);
      FlatMapAppend(Published(map[], before), Publications(books, e), UpdatesOf(s));
    }
  }

  // ---- The callbacks on objects ----

  class BookManager {
    var books: map<nat, OrderBook>

    ghost predicate Valid()
      reads this
    {
      && (forall s <- books :: books[s].security == s)
      && (forall s <- books, t <- books :: s != t ==> books[s] != books[t])
    }

    ghost function View(): Books
      reads this, books.Values
    {
      map s <- books :: books[s].View()
    }

    constructor ()
      ensures Valid() && View() == map[] && fresh(books.Values)
    {
      books := map[];
    }

    method GetOrCreate(security: nat, symbol: seq<byte>) returns (book: OrderBook)
      requires Valid()
      modifies this
      ensures Valid() && security in books && books[security] == book
      ensures books.Keys == old(books.Keys) + {security}
      ensures forall s <- old(books) :: books[s] == old(books[s])
      ensures security !in old(books) ==> fresh(book)
      ensures View() == old(View())[security := BookFor(old(View()), security, symbol)]
    {
      if security !in books {
        book := new OrderBook(security, CString(symbol, 11));
        books := books[security := book];
      } else {
        book := books[security];
      }
    }

    method Find(security: nat) returns (book: OrderBook?)
      ensures book == if security in books then books[security] else null
    {
      book := if security in books then books[security] else null;
    }

    /** The quote callback; returns what it publishes. */
    method OnQuote(e: Event) returns (out: seq<Publication>)
      requires Valid() && e.Quote?
      modifies this, books.Values
      ensures Valid() && fresh(books.Values - old(books.Values))
      ensures View() == Step(old(View()), e)
      ensures out == Publications(old(View()), e) == [BookUpdate(SnapshotOf(e.security, View()[e.security]))]
    {
      hide QuoteBook, SnapshotOf, BookFor, BookManager.View, OrderBook.View;
      var book := GetOrCreate(e.security, e.symbol);
      ghost var found := View();
      UpdateOne(book, e);
      var snap := book.Snapshot();
      out := [BookUpdate(snap)];
    }

    /** Updating the quote's own book leaves every other book alone. */
    method UpdateOne(book: OrderBook, e: Event)
      requires Valid() && e.Quote? && e.security in books && book == books[e.security]
      modifies book
      ensures Valid()
      ensures View() == old(View())[e.security := QuoteBook(old(View())[e.security], e)]
      ensures book.View() == View()[e.security]
    {
      hide QuoteBook;
      ApplyQuote(book, e);
      assert forall s <- books :: s != e.security ==> books[s] != book;
    }

    static method ApplyQuote(book: OrderBook, e: Event)
      requires e.Quote?
      modifies book
      ensures book.View() == QuoteBook(old(book.View()), e)
    {
      hide Apply;
      if e.bid > 0 { book.ApplyBid(e.bid, e.bidQty, 0); }
      if e.ask > 0 { book.ApplyAsk(e.ask, e.askQty, 0); }
    }

    /** The trade callback: a trade never opens a book, and is published with or without one. */
    method OnTrade(e: Event) returns (out: seq<Publication>)
      requires Valid() && e.Trade?
      modifies books.Values
      ensures Valid() && View() == Step(old(View()), e)
      ensures out == Publications(old(View()), e)
      ensures out == (if e.security in books then [BookUpdate(SnapshotOf(e.security, View()[e.security]))] else [])
                     + [TradeTick(e)]
    {
      var book := Find(e.security);
      out := [];
      if book != null {
        book.ApplyTrade(e.price, e.qty);
        var snap := book.Snapshot();
        out := [BookUpdate(snap)];
      }
      out := out + [TradeTick(e)];
    }

    lemma QuietEvents(books: Books, e: Event)
      ensures e.Heartbeat? || e.Gap? ==> Step(books, e) == books && Publications(books, e) == []
    {}

    /** Routes the events of one parse to the callbacks, in order, and collects what they publish. */
    method Dispatch(events: seq<Event>) returns (out: seq<Publication>)
      requires Valid()
      modifies this, books.Values
      ensures Valid() && fresh(books.Values - old(books.Values))
      ensures View() == After(old(View()), events)
      ensures out == Published(old(View()), events)
    {
      hide Publications, Step;
      out := [];
      for i := 0 to |events|
        invariant Valid() && fresh(books.Values - old(books.Values))
        invariant View() == After(old(View()), events[..i])
        invariant out == Published(old(View()), events[..i])
      {
        var e := events[i];
        assert events[..i + 1][..i] == events[..i];
        QuietEvents(View(), e);
        var more: seq<Publication> := [];
        match e {
          case Quote(_, _, _, _, _, _, _) => more := OnQuote(e);
          case Trade(_, _, _, _, _, _) => more := OnTrade(e);
          case Heartbeat(_) =>
          case Gap(_, _) =>
        }
        out := out + more;
      }
      assert events[..|events|] == events;
    }
  }
}
