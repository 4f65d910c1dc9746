/** Packets a feed can send that show where the two channels part. */
module ChannelExamples {
  import opened Bytes
  import opened ChannelLoss
  import opened Channels
  import opened Collections
  import opened Feed
  import opened L2Book
  import opened Shuffles
  import opened Umdf
  import opened UmdfParser
  import Wire = UmdfEncoding

  function BidEntry(price: int, qty: int): Wire.Entry { Wire.Entry(0, Wire.Bid, price, qty, 7, 1, 1, 1, 0) }
  function TradeEntry(price: int, qty: int): Wire.Entry { Wire.Entry(0, Wire.TradePrint, price, qty, 7, 1, 0, 0, 0) }

  /** A packet of one incremental refresh. */
  function Refresh(seqNum: nat, entries: seq<Wire.Entry>): Wire.Packet {
    Wire.Packet(seqNum, 0, [Wire.Incremental(0, 0, 0, entries)])
  }

  predicate SmallEntries(entries: seq<Wire.Entry>) {
    |entries| <= 2 && forall e <- entries :: Wire.EntryFits(e)
  }

  lemma RefreshFits(seqNum: nat, entries: seq<Wire.Entry>)
    requires 1 <= seqNum <= 2 && SmallEntries(entries)
    ensures Wire.PacketFits(Refresh(seqNum, entries))
  {
    hide Wire.EntryFits;
    Widths();
    assert Wire.MessageFits(Wire.Incremental(0, 0, 0, entries));
  }

  lemma SmallNumbersFit(price: int, qty: int)
    requires 0 <= price <= 100 && 0 <= qty <= 100
    ensures Wire.EntryFits(BidEntry(price, qty)) && Wire.EntryFits(TradeEntry(price, qty))
  {
    Widths();
  }

  /** What such a packet is received as. */
  lemma RefreshMeans(seqNum: nat, entries: seq<Wire.Entry>)
    requires 1 <= seqNum <= 2 && SmallEntries(entries)
    ensures Wire.PacketFits(Refresh(seqNum, entries))
    ensures Defined(Wire.Encode(Refresh(seqNum, entries)))
    ensures Payload(Wire.Encode(Refresh(seqNum, entries))) == Wire.EntriesMeaning(entries)
  {
    hide Wire.Encode, Payload, Defined, Wire.EntryFits, Wire.PacketFits, Wire.EntriesMeaning;
    RefreshFits(seqNum, entries);
    var p := Refresh(seqNum, entries);
    Wire.PacketRoundTrip(p, []);
    assert Wire.Encode(p) + [] == Wire.Encode(p);
    FlatMapOne(p.messages[0], Wire.Meanings());
  }

  /** A trade and then the first bid, in one packet. */
  function EarlyTrade(): seq<byte>
    ensures Defined(EarlyTrade())
    ensures Payload(EarlyTrade()) == Wire.EntriesMeaning([TradeEntry(100, 5), BidEntry(99, 3)])
  {
    SmallNumbersFit(100, 5);
    SmallNumbersFit(99, 3);
    RefreshMeans(1, [TradeEntry(100, 5), BidEntry(99, 3)]);
    Wire.Encode(Refresh(1, [TradeEntry(100, 5), BidEntry(99, 3)]))
  }

  lemma EarlyTradeEvents()
    ensures var t, q := Trade(0, 7, EMPTY_SYMBOL, 100, 5, 'B'), Quote(0, 7, EMPTY_SYMBOL, 99, 0, 3, 0);
      RunEvents(0, [EarlyTrade()]) == [t, q]
  {
    hide EarlyTrade, Payload;
    var a: seq<seq<byte>> := [EarlyTrade()];
    assert a[..0] == [];
    assert [TradeEntry(100, 5), BidEntry(99, 3)][1..] == [BidEntry(99, 3)] && [BidEntry(99, 3)][1..] == [];
    assert RunEvents(0, []) == [];
  }

  lemma EarlyTradeCounts()
    ensures var x := RunEvents(0, [EarlyTrade()]);
      && Counted(x, 7) == [] && FlatMap(x, QuotesOf(7)) != []
      && FlatMap(x, FillsOf(7)) == [Fill(100, 5)] && FlatMap(x, KindsOf(7)) == [false, true]
  {
    hide EarlyTrade, RunEvents;
    var t, q := Trade(0, 7, EMPTY_SYMBOL, 100, 5, 'B'), Quote(0, 7, EMPTY_SYMBOL, 99, 0, 3, 0);
    EarlyTradeEvents();
    assert [t, q][..1] == [t] && [t][..0] == [];
    FlatMapOne(t, QuotesOf(7));
    assert Counted([t], 7) == [];
  }

  /** The trade of this packet is lost when the packet comes once, and counted once when it comes twice: the traded
      quantity goes from 0 to 5 and does not double. */
  lemma EarlyTradeDoesNotDouble()
    ensures var a := [EarlyTrade()];
      && 7 in FinalBooks(a) && FinalBooks(a)[7].totalQty == 0
      && IsShuffle(a + a, a, a) && 7 in FinalBooks(a + a) && FinalBooks(a + a)[7].totalQty == 5
      && !QuoteFirst(RunEvents(0, a), 7) && !DoublesUnder(a + a, a, 7)
  {
    hide EarlyTrade, RunEvents, After, Counted, FlatMap, IsShuffle;
    var a := [EarlyTrade()];
    EarlyTradeCounts();
    BookExists(RunEvents(0, a), 7);
    CountedTotal(RunEvents(0, a), 7);
    BackToBack(a, a);
    BackToBackTotal(a, 7);
    SmallTotals();
  }

  lemma SmallTotals()
    ensures TotalQty([]) == 0 && TotalQty([Fill(100, 5)]) == 5
  {
    FlatMapOne(Fill(100, 5), Quantity());
    IntSumOne(5);
  }

  // ---- A removal that only one channel delivers ----

  function BidPacket(seqNum: nat, qty: int): seq<byte>
    requires 1 <= seqNum <= 2 && 0 <= qty <= 100
    ensures Defined(BidPacket(seqNum, qty))
    ensures Payload(BidPacket(seqNum, qty)) == [Quote(0, 7, EMPTY_SYMBOL, 99, 0, qty, 0)]
  {
    SmallNumbersFit(99, qty);
    RefreshMeans(seqNum, [BidEntry(99, qty)]);
    assert [BidEntry(99, qty)][1..] == [];
    Wire.Encode(Refresh(seqNum, [BidEntry(99, qty)]))
  }

  lemma BidPacketWrites(seqNum: nat, qty: int)
    requires 1 <= seqNum <= 2 && 0 <= qty <= 100
    ensures OfPacket(WritesTo(7, Bid, 99))(BidPacket(seqNum, qty)) == [qty]
    ensures OfPacket(QuotesOf(7))(BidPacket(seqNum, qty)) == [EMPTY_SYMBOL]
  {
    hide BidPacket;
    var q := Quote(0, 7, EMPTY_SYMBOL, 99, 0, qty, 0);
    FlatMapOne(q, WritesTo(7, Bid, 99));
    FlatMapOne(q, QuotesOf(7));
  }

  lemma RemovalWrites()
    ensures var full, part, lost := [BidPacket(1, 3), BidPacket(2, 0)], [BidPacket(1, 3)], [BidPacket(2, 0)];
      && part + lost == full
      && Writes(full, 7, Bid, 99) == [3, 0] && Writes(part, 7, Bid, 99) == [3]
      && Quotes(full, 7) != []
  {
    hide BidPacket, RunEvents, FlatMap, OfPacket;
    var full, part, lost := [BidPacket(1, 3), BidPacket(2, 0)], [BidPacket(1, 3)], [BidPacket(2, 0)];
    var writes, quotes := OfPacket(WritesTo(7, Bid, 99)), OfPacket(QuotesOf(7));
    assert part + lost == full;
    BidPacketWrites(1, 3);
    BidPacketWrites(2, 0);
    FlatMapOne(BidPacket(1, 3), writes);
    FlatMapOne(BidPacket(2, 0), writes);
    FlatMapOne(BidPacket(1, 3), quotes);
    FlatMapAppend(part, lost, writes);
    FlatMapAppend(part, lost, quotes);
    RunByPacket(0, full, WritesTo(7, Bid, 99));
    RunByPacket(0, part, WritesTo(7, Bid, 99));
    RunByPacket(0, full, QuotesOf(7));
  }

  /** Channel A delivers a bid and its removal, channel B only the bid. With B behind, the bid stays in the book. */
  lemma LostRemovalStays()
    ensures var full, part, lost := [BidPacket(1, 3), BidPacket(2, 0)], [BidPacket(1, 3)], [BidPacket(2, 0)];
      && IsShuffle(full, part, lost) && IsShuffle(full + part, full, part)
      && !LastWriteKept(full, part, 7, Bid, 99)
      && 7 in FinalBooks(full) && 99 !in FinalBooks(full)[7].bids
      && 7 in FinalBooks(full + part) && 99 in FinalBooks(full + part)[7].bids
  {
    hide BidPacket, RunEvents, After, FlatMap, IsShuffle, WritesTo, QuotesOf;
    var full, part, lost := [BidPacket(1, 3), BidPacket(2, 0)], [BidPacket(1, 3)], [BidPacket(2, 0)];
    RemovalWrites();
    BackToBack(part, lost);
    BackToBack(full, part);
    LossKeepsBooks(full + part, full, part, lost);
    LastOfBackToBack(full, part, 7, Bid, 99);
    BookExists(RunEvents(0, full), 7);
    SideIsLastWrite(RunEvents(0, full), 7, Bid, 99);
    SideIsLastWrite(RunEvents(0, full + part), 7, Bid, 99);
  }
}
