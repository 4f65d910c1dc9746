/** Two channels when one of them loses packets: exactly when the books still converge. */
module ChannelLoss {
  import opened Bytes
  import opened Channels
  import opened Collections
  import opened Feed
  import opened L2Book
  import opened Shuffles
  import opened UmdfParser

  /** The quantities a packet run writes to one price of one side of one book, in order. */
  function Writes(arrivals: seq<seq<byte>>, s: nat, side: Side, price: int): seq<int> {
    FlatMap(RunEvents(0, arrivals), WritesTo(s, side, price))
  }

  function Quotes(arrivals: seq<seq<byte>>, s: nat): seq<seq<byte>> { FlatMap(RunEvents(0, arrivals), QuotesOf(s)) }

  /** The same books exist, and both sides of each are the same. */
  ghost predicate SameSides(w: seq<seq<byte>>, a: seq<seq<byte>>) {
    && FinalBooks(w).Keys == FinalBooks(a).Keys
    && forall s: nat, side: Side :: s in FinalBooks(w) && s in FinalBooks(a) ==>
         FinalBooks(w)[s].Levels(side) == FinalBooks(a)[s].Levels(side)
  }

  /** What is left of a copy writes nothing to the price, or writes last what the full copy writes last. */
  predicate LastWriteKept(a: seq<seq<byte>>, b: seq<seq<byte>>, s: nat, side: Side, price: int) {
    Writes(b, s, side, price) != [] ==>
      LastOr(Writes(b, s, side, price), 0) == LastOr(Writes(a, s, side, price), 0)
  }

  /** A book exists after the interleaving of a copy and part of it exactly when it exists after the copy. */
  lemma LossKeepsBooks(w: seq<seq<byte>>, a: seq<seq<byte>>, b: seq<seq<byte>>, lost: seq<seq<byte>>)
    requires IsShuffle(w, a, b) && IsShuffle(a, b, lost)
    ensures FinalBooks(w).Keys == FinalBooks(a).Keys
  {
    hide RunEvents, After, CString, FlatMap, IsShuffle;
    forall s ensures s in FinalBooks(w) <==> s in FinalBooks(a) {
      BookExists(RunEvents(0, w), s);
      BookExists(RunEvents(0, a), s);
      RunShuffle(w, a, b, QuotesOf(s));
      RunShuffle(a, b, lost, QuotesOf(s));
      ShuffleEnds(Quotes(w, s), Quotes(a, s), Quotes(b, s));
      ShuffleEnds(Quotes(a, s), Quotes(b, s), Quotes(lost, s));
    }
  }

  lemma SidesByWrites(w: seq<seq<byte>>, a: seq<seq<byte>>, s: nat, side: Side)
    requires s in FinalBooks(w) && s in FinalBooks(a)
    ensures FinalBooks(w)[s].Levels(side) == FinalBooks(a)[s].Levels(side)
       <==> forall p :: LastOr(Writes(w, s, side, p), 0) == LastOr(Writes(a, s, side, p), 0)
  {
    hide RunEvents, After, FlatMap;
    var wl, al := FinalBooks(w)[s].Levels(side), FinalBooks(a)[s].Levels(side);
    forall p
      ensures Holds(wl, p, LastOr(Writes(w, s, side, p), 0)) && Holds(al, p, LastOr(Writes(a, s, side, p), 0))
    {
      SideIsLastWrite(RunEvents(0, w), s, side, p);
      SideIsLastWrite(RunEvents(0, a), s, side, p);
    }
    SameLevels(wl, al, p => LastOr(Writes(w, s, side, p), 0), p => LastOr(Writes(a, s, side, p), 0));
  }

  lemma SameLevels(x: map<int, int>, y: map<int, int>, f: int -> int, g: int -> int)
    requires forall p :: Holds(x, p, f(p)) && Holds(y, p, g(p))
    ensures x == y <==> forall p :: f(p) == g(p)
  {
    if x == y {
      forall p ensures f(p) == g(p) {
        assert Holds(x, p, f(p)) && Holds(y, p, g(p));
      }
    }
    if forall p :: f(p) == g(p) {
      forall p ensures (p in x <==> p in y) && (p in x ==> x[p] == y[p]) {
        assert Holds(x, p, f(p)) && Holds(y, p, g(p));
      }
    }
  }

  lemma LastOfShuffle(w: seq<seq<byte>>, a: seq<seq<byte>>, b: seq<seq<byte>>, s: nat, side: Side, price: int)
    requires IsShuffle(w, a, b) && LastWriteKept(a, b, s, side, price)
    ensures LastOr(Writes(w, s, side, price), 0) == LastOr(Writes(a, s, side, price), 0)
  {
    hide RunEvents, FlatMap, IsShuffle;
    RunShuffle(w, a, b, WritesTo(s, side, price));
    ShuffleEnds(Writes(w, s, side, price), Writes(a, s, side, price), Writes(b, s, side, price));
  }

  lemma LastOfBackToBack(a: seq<seq<byte>>, b: seq<seq<byte>>, s: nat, side: Side, price: int)
    ensures LastOr(Writes(a + b, s, side, price), 0)
         == if Writes(b, s, side, price) == [] then LastOr(Writes(a, s, side, price), 0)
            else LastOr(Writes(b, s, side, price), 0)
  {
    hide RunEvents, FlatMap;
    var f := WritesTo(s, side, price);
    RunByPacket(0, a + b, f);
    RunByPacket(0, a, f);
    RunByPacket(0, b, f);
    FlatMapAppend(a, b, OfPacket(f));
  }

  lemma NoBookNoWrites(arrivals: seq<seq<byte>>, s: nat, side: Side, price: int)
    requires s !in FinalBooks(arrivals)
    ensures Writes(arrivals, s, side, price) == []
  {
    BookExists(RunEvents(0, arrivals), s);
    NoQuotesNoWrites(RunEvents(0, arrivals), s, side, price);
  }

  /** One channel delivers every packet, the other loses some. Under every interleaving all books exist and both sides
      of each end as after one full copy if and only if, at every price of every side of every book, what the lossy
      channel delivers writes nothing or writes last what the full copy writes last. */
  lemma LossyChannelsConverge(a: seq<seq<byte>>, b: seq<seq<byte>>, lost: seq<seq<byte>>)
    requires IsShuffle(a, b, lost)
    ensures (forall w :: IsShuffle(w, a, b) ==> SameSides(w, a))
       <==> forall s: nat, side: Side, price: int :: LastWriteKept(a, b, s, side, price)
  {
    hide FinalBooks, Writes, IsShuffle, LastOr;
    if forall s: nat, side: Side, price: int :: LastWriteKept(a, b, s, side, price) {
      forall w | IsShuffle(w, a, b) ensures SameSides(w, a) {
        KeptConverges(w, a, b, lost);
      }
    }
    if forall w :: IsShuffle(w, a, b) ==> SameSides(w, a) {
      BackToBack(a, b);
      forall s: nat, side: Side, price: int ensures LastWriteKept(a, b, s, side, price) {
        ConvergedKeeps(a, b, lost, s, side, price);
      }
    }
  }

  lemma KeptConverges(w: seq<seq<byte>>, a: seq<seq<byte>>, b: seq<seq<byte>>, lost: seq<seq<byte>>)
    requires IsShuffle(w, a, b) && IsShuffle(a, b, lost)
    requires forall s: nat, side: Side, price: int :: LastWriteKept(a, b, s, side, price)
    ensures SameSides(w, a)
  {
    hide FinalBooks, Writes, IsShuffle, LastOr, LastWriteKept;
    LossKeepsBooks(w, a, b, lost);
    forall s: nat, side: Side | s in FinalBooks(w) && s in FinalBooks(a)
      ensures FinalBooks(w)[s].Levels(side) == FinalBooks(a)[s].Levels(side)
    {
      forall p ensures LastOr(Writes(w, s, side, p), 0) == LastOr(Writes(a, s, side, p), 0) {
        LastOfShuffle(w, a, b, s, side, p);
      }
      SidesByWrites(w, a, s, side);
    }
  }

  /** The lossy channel played last: what it writes last is what the books show. */
  lemma ConvergedKeeps(a: seq<seq<byte>>, b: seq<seq<byte>>, lost: seq<seq<byte>>, s: nat, side: Side, price: int)
    requires IsShuffle(a + b, a, b) && IsShuffle(a, b, lost) && SameSides(a + b, a)
    ensures LastWriteKept(a, b, s, side, price)
  {
    hide FinalBooks, Writes, IsShuffle, LastOr;
    if s in FinalBooks(a) {
      SidesByWrites(a + b, a, s, side);
      LastOfBackToBack(a, b, s, side, price);
    } else {
      PartWritesNothing(a, b, lost, s, side, price);
    }
  }

  lemma PartWritesNothing(a: seq<seq<byte>>, b: seq<seq<byte>>, lost: seq<seq<byte>>, s: nat, side: Side, price: int)
    requires IsShuffle(a, b, lost) && s !in FinalBooks(a)
    ensures Writes(b, s, side, price) == []
  {
    hide RunEvents, FlatMap, IsShuffle;
    NoBookNoWrites(a, s, side, price);
    RunShuffle(a, b, lost, WritesTo(s, side, price));
    ShuffleEnds(Writes(a, s, side, price), Writes(b, s, side, price), Writes(lost, s, side, price));
  }

  // ---- Both channels lose packets ----

  /** Every security quoted in the full copy is still quoted on one of the channels. */
  ghost predicate QuotesKept(a: seq<seq<byte>>, b: seq<seq<byte>>, c: seq<seq<byte>>) {
    forall s: nat :: Quotes(a, s) != [] ==> Quotes(b, s) != [] || Quotes(c, s) != []
  }

  /** Each channel writes nothing to the price or writes last what the full copy does, and where neither writes, the
      full copy leaves no level. */
  predicate WritesKept(a: seq<seq<byte>>, b: seq<seq<byte>>, c: seq<seq<byte>>, s: nat, side: Side, price: int) {
    && LastWriteKept(a, b, s, side, price) && LastWriteKept(a, c, s, side, price)
    && (Writes(b, s, side, price) == [] && Writes(c, s, side, price) == [] ==>
          LastOr(Writes(a, s, side, price), 0) == 0)
  }

  lemma QuotesMakeBooks(w: seq<seq<byte>>, b: seq<seq<byte>>, c: seq<seq<byte>>, s: nat)
    requires IsShuffle(w, b, c)
    ensures s in FinalBooks(w) <==> Quotes(b, s) != [] || Quotes(c, s) != []
  {
    hide RunEvents, After, CString, FlatMap, IsShuffle;
    BookExists(RunEvents(0, w), s);
    RunShuffle(w, b, c, QuotesOf(s));
    ShuffleEnds(Quotes(w, s), Quotes(b, s), Quotes(c, s));
  }

  /** Parts of a copy bring no book the copy does not bring. */
  lemma PartsAddNoBook(a: seq<seq<byte>>, b: seq<seq<byte>>, lost: seq<seq<byte>>, s: nat)
    requires IsShuffle(a, b, lost) && Quotes(b, s) != []
    ensures Quotes(a, s) != []
  {
    hide RunEvents, FlatMap, IsShuffle;
    RunShuffle(a, b, lost, QuotesOf(s));
    ShuffleEnds(Quotes(a, s), Quotes(b, s), Quotes(lost, s));
  }

  lemma SameBooksExactly(w: seq<seq<byte>>, a: seq<seq<byte>>, b: seq<seq<byte>>, lostB: seq<seq<byte>>,
                         c: seq<seq<byte>>, lostC: seq<seq<byte>>)
    requires IsShuffle(w, b, c) && IsShuffle(a, b, lostB) && IsShuffle(a, c, lostC)
    ensures FinalBooks(w).Keys == FinalBooks(a).Keys <==> QuotesKept(a, b, c)
  {
    hide RunEvents, After, FinalBooks, Quotes, IsShuffle;
    forall s: nat
      ensures s in FinalBooks(w) <==> Quotes(b, s) != [] || Quotes(c, s) != []
      ensures s in FinalBooks(a) <==> Quotes(a, s) != []
      ensures Quotes(b, s) != [] || Quotes(c, s) != [] ==> Quotes(a, s) != []
    {
      QuotesMakeBooks(w, b, c, s);
      BookOfCopy(a, s);
      if Quotes(b, s) != [] { PartsAddNoBook(a, b, lostB, s); }
      if Quotes(c, s) != [] { PartsAddNoBook(a, c, lostC, s); }
    }
    if FinalBooks(w).Keys == FinalBooks(a).Keys {
      forall s: nat | Quotes(a, s) != [] ensures Quotes(b, s) != [] || Quotes(c, s) != [] {
        assert s in FinalBooks(a).Keys;
      }
    }
    if QuotesKept(a, b, c) {
      forall s: nat ensures s in FinalBooks(w) <==> s in FinalBooks(a) {}
    }
  }

  lemma BookOfCopy(a: seq<seq<byte>>, s: nat)
    ensures s in FinalBooks(a) <==> Quotes(a, s) != []
  {
    BookExists(RunEvents(0, a), s);
  }

  lemma LastOfParts(w: seq<seq<byte>>, a: seq<seq<byte>>, b: seq<seq<byte>>, c: seq<seq<byte>>, s: nat, side: Side,
                    price: int)
    requires IsShuffle(w, b, c) && WritesKept(a, b, c, s, side, price)
    ensures LastOr(Writes(w, s, side, price), 0) == LastOr(Writes(a, s, side, price), 0)
  {
    hide RunEvents, FlatMap, IsShuffle;
    RunShuffle(w, b, c, WritesTo(s, side, price));
    ShuffleEnds(Writes(w, s, side, price), Writes(b, s, side, price), Writes(c, s, side, price));
  }

  lemma PartsConverge(w: seq<seq<byte>>, a: seq<seq<byte>>, b: seq<seq<byte>>, lostB: seq<seq<byte>>,
                      c: seq<seq<byte>>, lostC: seq<seq<byte>>)
    requires IsShuffle(w, b, c) && IsShuffle(a, b, lostB) && IsShuffle(a, c, lostC) && QuotesKept(a, b, c)
    requires forall s: nat, side: Side, price: int :: WritesKept(a, b, c, s, side, price)
    ensures SameSides(w, a)
  {
    hide FinalBooks, Writes, IsShuffle, LastOr, WritesKept, QuotesKept;
    SameBooksExactly(w, a, b, lostB, c, lostC);
    forall s: nat, side: Side | s in FinalBooks(w) && s in FinalBooks(a)
      ensures FinalBooks(w)[s].Levels(side) == FinalBooks(a)[s].Levels(side)
    {
      forall p ensures LastOr(Writes(w, s, side, p), 0) == LastOr(Writes(a, s, side, p), 0) {
        LastOfParts(w, a, b, c, s, side, p);
      }
      SidesByWrites(w, a, s, side);
    }
  }

  /** Each channel played last in turn: what it writes last is what the books show. */
  lemma ConvergedPartsKeep(a: seq<seq<byte>>, b: seq<seq<byte>>, lostB: seq<seq<byte>>, c: seq<seq<byte>>,
                           lostC: seq<seq<byte>>, s: nat, side: Side, price: int)
    requires IsShuffle(a, b, lostB) && IsShuffle(a, c, lostC)
    requires SameSides(b + c, a) && SameSides(c + b, a)
    ensures WritesKept(a, b, c, s, side, price)
  {
    hide FinalBooks, Writes, IsShuffle, LastOr;
    if s in FinalBooks(a) {
      SidesByWrites(b + c, a, s, side);
      SidesByWrites(c + b, a, s, side);
      LastOfBackToBack(b, c, s, side, price);
      LastOfBackToBack(c, b, s, side, price);
      NoWriteIsZero();
    } else {
      PartWritesNothing(a, b, lostB, s, side, price);
      PartWritesNothing(a, c, lostC, s, side, price);
      NoBookNoWrites(a, s, side, price);
      NoWriteIsZero();
    }
  }

  lemma NoWriteIsZero()
    ensures LastOr([], 0) == 0
  {}

  /** Both channels lose packets of one copy. Under every interleaving of what they deliver the books and their sides
      end as after the whole copy if and only if every quoted security is still quoted on one of them and, at every
      price of every side, each writes nothing or writes last what the copy does, and neither writes only where the
      copy leaves no level. */
  lemma TwoLossyChannelsConverge(a: seq<seq<byte>>, b: seq<seq<byte>>, lostB: seq<seq<byte>>, c: seq<seq<byte>>,
                                 lostC: seq<seq<byte>>)
    requires IsShuffle(a, b, lostB) && IsShuffle(a, c, lostC)
    ensures (forall w :: IsShuffle(w, b, c) ==> SameSides(w, a))
       <==> && QuotesKept(a, b, c)
            && forall s: nat, side: Side, price: int :: WritesKept(a, b, c, s, side, price)
  {
    hide FinalBooks, IsShuffle, WritesKept, QuotesKept;
    if QuotesKept(a, b, c) && forall s: nat, side: Side, price: int :: WritesKept(a, b, c, s, side, price) {
      forall w | IsShuffle(w, b, c) ensures SameSides(w, a) {
        PartsConverge(w, a, b, lostB, c, lostC);
      }
    }
    if forall w :: IsShuffle(w, b, c) ==> SameSides(w, a) {
      BackToBack(b, c);
      BackToBack(c, b);
      ShuffleSymmetric(c + b, c, b);
      SameBooksExactly(b + c, a, b, lostB, c, lostC);
      forall s: nat, side: Side, price: int ensures WritesKept(a, b, c, s, side, price) {
        ConvergedPartsKeep(a, b, lostB, c, lostC, s, side, price);
      }
    }
  }
}
