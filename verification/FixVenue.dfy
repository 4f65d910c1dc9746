/** What the venue reads from a message the client sends, tag by tag. */
module FixVenue {
  import opened FixRequests
  import opened FixRoundTrip
  import opened FixText
  import opened StepClient

  lemma PrintedDiffers(m: nat, n: nat)
    ensures Printed(m) == Printed(n) <==> m == n
  {
    hide Printed;
    PrintedReads(m);
    PrintedReads(n);
  }

  lemma {:induction false} LookupAt(fields: seq<FixField>, k: nat)
    requires k < |fields| && forall j :: 0 <= j < k ==> fields[j].tag != fields[k].tag
    ensures Lookup(fields, Printed(fields[k].tag)) == fields[k].value
  {
    hide Printed;
    if k == 0 {
    } else {
      PrintedDiffers(fields[0].tag, fields[k].tag);
      LookupAt(fields[1..], k - 1);
    }
  }

  lemma {:induction false} LookupAbsent(fields: seq<FixField>, tag: nat)
    requires forall f <- fields :: f.tag != tag
    ensures Lookup(fields, Printed(tag)) == ""
  {
    hide Printed;
    if fields == [] {
    } else {
      assert fields[0] in fields;
      PrintedDiffers(fields[0].tag, tag);
      LookupAbsent(fields[1..], tag);
    }
  }

  lemma OrderTags()
    ensures Printed(11) == "11" && Printed(55) == "55" && Printed(48) == "48" && Printed(22) == "22"
    ensures Printed(54) == "54" && Printed(40) == "40" && Printed(59) == "59" && Printed(44) == "44"
    ensures Printed(38) == "38" && Printed(1) == "1" && Printed(41) == "41"
  {}

  lemma SessionTags()
    ensures Printed(8) == "8" && Printed(49) == "49" && Printed(56) == "56" && Printed(34) == "34"
    ensures Printed(52) == "52" && Printed(35) == "35" && Printed(98) == "98" && Printed(108) == "108"
    ensures Printed(554) == "554" && PrintedInt(0) == "0" && PrintedInt(30) == "30"
  {
    assert Printed(0) == "0" && Printed(30) == "30" && Printed(10) == "10" && Printed(55) == "55";
  }

  /** What the fields of an order say, each under its own tag; the price is left out of a market order. */
  predicate SaysOrder(fields: seq<FixField>, o: Order) {
    && Lookup(fields, "11") == o.clOrdId && Lookup(fields, "55") == o.symbol
    && Lookup(fields, "48") == Printed(o.security) && Lookup(fields, "22") == "8"
    && Lookup(fields, "54") == [o.side] && Lookup(fields, "40") == [o.ordType] && Lookup(fields, "59") == [o.tif]
    && Lookup(fields, "44") == (if o.ordType == '1' then "" else o.price)
    && Lookup(fields, "38") == PrintedInt(Int32(o.qty))
  }

  /** Reading on past fields without the tag. */
  lemma {:induction false} LookupPast(front: seq<FixField>, rest: seq<FixField>, tag: nat)
    requires forall f <- front :: f.tag != tag
    ensures Lookup(front + rest, Printed(tag)) == Lookup(rest, Printed(tag))
  {
    hide Printed;
    if front == [] {
      assert front + rest == rest;
    } else {
      assert front[0] in front;
      PrintedDiffers(front[0].tag, tag);
      assert (front + rest)[1..] == front[1..] + rest;
      LookupPast(front[1..], rest, tag);
    }
  }

  lemma LookupFirst(f: FixField, rest: seq<FixField>)
    ensures Lookup([f] + rest, Printed(f.tag)) == f.value
  {}

  /** Fields in order, found one after the other. */
  lemma LookupNext(f: FixField, rest: seq<FixField>, tag: nat)
    requires f.tag != tag
    ensures Lookup([f] + rest, Printed(tag)) == Lookup(rest, Printed(tag))
  {
    LookupPast([f], rest, tag);
  }

  /** The end of an order: its price, unless it is a market order, and its quantity. */
  function Ending(o: Order): seq<FixField> {
    (if o.ordType != MARKET then [FixField(44, o.price)] else []) + [FixField(38, PrintedInt(Int32(o.qty)))]
  }

  function Ids(o: Order): seq<FixField> {
    [FixField(11, o.clOrdId), FixField(55, o.symbol), FixField(48, Printed(o.security)), FixField(22, PrintedInt(8))]
  }

  function Terms(o: Order): seq<FixField> { [FixField(54, [o.side]), FixField(40, [o.ordType]), FixField(59, [o.tif])] }

  lemma OrderParts(o: Order)
    ensures OrderFields(o) == Ids(o) + Terms(o) + Ending(o)
  {
    hide Printed, PrintedInt, Int32;
  }

  lemma EndingReads(o: Order, back: seq<FixField>)
    requires forall f <- back :: f.tag != 44
    ensures Lookup(Ending(o) + back, "44") == if o.ordType == '1' then "" else o.price
    ensures Lookup(Ending(o) + back, "38") == PrintedInt(Int32(o.qty))
  {
    hide Printed, PrintedInt, Lookup, Int32;
    OrderTags();
    var qty := FixField(38, PrintedInt(Int32(o.qty)));
    LookupFirst(qty, back);
    if o.ordType == '1' {
      assert Ending(o) + back == [qty] + back;
      LookupNext(qty, back, 44);
      LookupAbsent(back, 44);
    } else {
      var price := FixField(44, o.price);
      assert Ending(o) + back == [price] + ([qty] + back);
      LookupFirst(price, [qty] + back);
      LookupNext(price, [qty] + back, 38);
    }
  }

  lemma IdsRead(o: Order, rest: seq<FixField>)
    ensures Lookup(Ids(o) + rest, "11") == o.clOrdId && Lookup(Ids(o) + rest, "55") == o.symbol
    ensures Lookup(Ids(o) + rest, "48") == Printed(o.security) && Lookup(Ids(o) + rest, "22") == "8"
  {
    hide Printed, PrintedInt, Lookup;
    OrderTags();
    SessionTags();
    PrintedNat(8);
    var all := Ids(o) + rest;
    LookupAt(all, 0);
    LookupAt(all, 1);
    LookupAt(all, 2);
    LookupAt(all, 3);
  }

  lemma TermsRead(o: Order, rest: seq<FixField>)
    ensures Lookup(Terms(o) + rest, "54") == [o.side] && Lookup(Terms(o) + rest, "40") == [o.ordType]
    ensures Lookup(Terms(o) + rest, "59") == [o.tif]
  {
    hide Printed, Lookup;
    OrderTags();
    var all := Terms(o) + rest;
    LookupAt(all, 0);
    LookupAt(all, 1);
    LookupAt(all, 2);
  }

  lemma OrderIsSaid(front: seq<FixField>, o: Order, back: seq<FixField>)
    requires forall f <- front :: f.tag !in {11, 55, 48, 22, 54, 40, 59, 44, 38}
    requires forall f <- back :: f.tag != 44
    ensures SaysOrder(front + OrderFields(o) + back, o)
  {
    hide Printed, PrintedInt, Lookup, Int32, OrderFields, Ending, Ids, Terms;
    OrderParts(o);
    var tail := Ending(o) + back;
    var rest := Terms(o) + tail;
    assert front + OrderFields(o) + back == front + (Ids(o) + rest);
    OrderTags();
    IdsRead(o, rest);
    TermsRead(o, tail);
    EndingReads(o, back);
    PastIds(o, rest);
    PastTerms(o, tail);
    LookupPast(front, Ids(o) + rest, 11);
    LookupPast(front, Ids(o) + rest, 55);
    LookupPast(front, Ids(o) + rest, 48);
    LookupPast(front, Ids(o) + rest, 22);
    LookupPast(front, Ids(o) + rest, 54);
    LookupPast(front, Ids(o) + rest, 40);
    LookupPast(front, Ids(o) + rest, 59);
    LookupPast(front, Ids(o) + rest, 44);
    LookupPast(front, Ids(o) + rest, 38);
  }

  lemma PastIds(o: Order, rest: seq<FixField>)
    ensures forall tag <- {54, 40, 59, 44, 38} :: Lookup(Ids(o) + rest, Printed(tag)) == Lookup(rest, Printed(tag))
  {
    hide Printed, PrintedInt, Lookup;
    forall tag <- {54, 40, 59, 44, 38} ensures Lookup(Ids(o) + rest, Printed(tag)) == Lookup(rest, Printed(tag)) {
      LookupPast(Ids(o), rest, tag);
    }
  }

  lemma PastTerms(o: Order, rest: seq<FixField>)
    ensures forall tag <- {44, 38} :: Lookup(Terms(o) + rest, Printed(tag)) == Lookup(rest, Printed(tag))
  {
    hide Printed, Lookup;
    forall tag <- {44, 38} ensures Lookup(Terms(o) + rest, Printed(tag)) == Lookup(rest, Printed(tag)) {
      LookupPast(Terms(o), rest, tag);
    }
  }

  /** What a message says of the session: sender, target, number, time and type. */
  predicate SaysSession(fields: seq<FixField>, s: Session, n: nat, time: string, msgType: string) {
    && Lookup(fields, "35") == msgType && Lookup(fields, "49") == s.sender && Lookup(fields, "56") == s.target
    && Lookup(fields, "34") == Printed(n) && Lookup(fields, "52") == time
  }

  /** What a message says of its request. */
  predicate SaysRequest(fields: seq<FixField>, r: Request) {
    match r
    case Logon(password) =>
      Lookup(fields, "98") == "0" && Lookup(fields, "108") == "30" && Lookup(fields, "554") == password
    case NewOrder(o) => SaysOrder(fields, o) && Lookup(fields, "1") == o.account
    case Cancel(orig, symbol, qty) =>
      && Lookup(fields, "41") == orig && Lookup(fields, "11") == orig + "_C" && Lookup(fields, "55") == symbol
      && Lookup(fields, "38") == PrintedInt(Int32(qty))
    case CancelReplace(orig, o) => Lookup(fields, "41") == orig && SaysOrder(fields, o)
  }

  function TypeOf(r: Request): string {
    if r.Logon? then "A" else if r.NewOrder? then "D" else if r.Cancel? then "F" else "G"
  }

  function Front(s: Session, n: nat, time: string, r: Request): seq<FixField> {
    [FixField(9, Printed(|Text(BodyFields(s, n, time, r))|)), FixField(35, MsgType(r)), FixField(49, s.sender),
     FixField(56, s.target), FixField(34, Printed(n)), FixField(52, time)]
  }

  lemma MessageSplits(s: Session, n: nat, time: string, r: Request)
    ensures MessageFields(s, n, time, r)[0] == FixField(8, "FIX.4.4")
    ensures MessageFields(s, n, time, r)[1..] == Front(s, n, time, r) + RequestFields(r)
  {
    hide Printed, Text, RequestFields;
  }

  lemma SessionIsSaid(s: Session, n: nat, time: string, r: Request)
    ensures SaysSession(Front(s, n, time, r) + RequestFields(r), s, n, time, TypeOf(r))
  {
    hide Printed, PrintedInt, Text, Lookup, RequestFields;
    var all := Front(s, n, time, r) + RequestFields(r);
    SessionTags();
    LookupAt(all, 1);
    LookupAt(all, 2);
    LookupAt(all, 3);
    LookupAt(all, 4);
    LookupAt(all, 5);
  }

  lemma FrontHasNo(s: Session, n: nat, time: string, r: Request)
    ensures forall f <- Front(s, n, time, r) :: f.tag in {9, 35, 49, 56, 34, 52}
  {
    hide Printed, Text, RequestFields;
  }

  lemma LogonIsSaid(front: seq<FixField>, password: string)
    requires forall f <- front :: f.tag !in {98, 108, 554}
    ensures SaysRequest(front + RequestFields(Logon(password)), Logon(password))
  {
    hide Printed, PrintedInt, Lookup;
    var own := RequestFields(Logon(password));
    SessionTags();
    LookupAt(own, 0);
    LookupAt(own, 1);
    LookupAt(own, 2);
    LookupPast(front, own, 98);
    LookupPast(front, own, 108);
    LookupPast(front, own, 554);
  }

  lemma NewOrderIsSaid(front: seq<FixField>, o: Order)
    requires forall f <- front :: f.tag in {9, 35, 49, 56, 34, 52}
    ensures SaysRequest(front + RequestFields(NewOrder(o)), NewOrder(o))
  {
    hide Printed, PrintedInt, Lookup, SaysOrder, OrderFields;
    OrderTags();
    var account := FixField(1, o.account);
    assert front + RequestFields(NewOrder(o)) == front + OrderFields(o) + [account];
    OrderIsSaid(front, o, [account]);
    OrderHasNo(o, 1);
    LookupPast(front + OrderFields(o), [account], 1);
    LookupFirst(account, []);
    assert [account] + [] == [account];
  }

  lemma CancelIsSaid(front: seq<FixField>, orig: string, symbol: string, qty: int)
    requires forall f <- front :: f.tag in {9, 35, 49, 56, 34, 52}
    ensures SaysRequest(front + RequestFields(Cancel(orig, symbol, qty)), Cancel(orig, symbol, qty))
  {
    hide Printed, PrintedInt, Lookup, Int32;
    var own := RequestFields(Cancel(orig, symbol, qty));
    OrderTags();
    LookupAt(own, 0);
    LookupAt(own, 1);
    LookupAt(own, 2);
    LookupAt(own, 3);
    LookupPast(front, own, 41);
    LookupPast(front, own, 11);
    LookupPast(front, own, 55);
    LookupPast(front, own, 38);
  }

  lemma ReplaceIsSaid(front: seq<FixField>, orig: string, o: Order)
    requires forall f <- front :: f.tag in {9, 35, 49, 56, 34, 52}
    ensures SaysRequest(front + RequestFields(CancelReplace(orig, o)), CancelReplace(orig, o))
  {
    hide Printed, PrintedInt, Lookup, SaysOrder, OrderFields;
    OrderTags();
    var first := FixField(41, orig);
    assert front + RequestFields(CancelReplace(orig, o)) == (front + [first]) + OrderFields(o) + [];
    assert front + RequestFields(CancelReplace(orig, o)) == front + ([first] + OrderFields(o));
    OrderIsSaid(front + [first], o, []);
    LookupPast(front, [first] + OrderFields(o), 41);
    LookupFirst(first, OrderFields(o));
  }

  lemma RequestIsSaid(s: Session, n: nat, time: string, r: Request)
    ensures SaysRequest(Front(s, n, time, r) + RequestFields(r), r)
  {
    hide Front, RequestFields, SaysRequest;
    FrontHasNo(s, n, time, r);
    match r {
      case Logon(password) => LogonIsSaid(Front(s, n, time, r), password);
      case NewOrder(o) => NewOrderIsSaid(Front(s, n, time, r), o);
      case Cancel(orig, symbol, qty) => CancelIsSaid(Front(s, n, time, r), orig, symbol, qty);
      case CancelReplace(orig, o) => ReplaceIsSaid(Front(s, n, time, r), orig, o);
    }
  }

  lemma OrderHasNo(o: Order, tag: nat)
    requires tag == 1
    ensures forall f <- OrderFields(o) :: f.tag != tag
  {
    hide Printed, PrintedInt;
  }

  /** Whatever request is sent, its texts being free of SOH, the message begins with the version, and reading it by tag
      gives the session, the number, the type, and every text and quantity of the request under its own tag. */
  lemma VenueReads(s: Session, n: nat, time: string, r: Request)
    requires forall t <- MessageTexts(s, time, r) :: NoSoh(t)
    ensures var fields := MessageFields(s, n, time, r);
      && fields[0] == FixField(8, "FIX.4.4")
      && SaysSession(fields[1..], s, n, time, TypeOf(r)) && SaysRequest(fields[1..], r)
    ensures forall tag | IsTag(tag) && tag != "10" ::
      Extract(Sealed(MessageFields(s, n, time, r)), tag) == Lookup(MessageFields(s, n, time, r)[1..], tag)
  {
    hide Extract, Sealed, SohFree, Lookup, SaysSession, SaysRequest, Front, RequestFields, NoSoh, TypeOf, IsTag;
    MessageSplits(s, n, time, r);
    SessionIsSaid(s, n, time, r);
    RequestIsSaid(s, n, time, r);
    SentIsSohFree(s, n, time, r);
    forall tag | IsTag(tag) && tag != "10"
      ensures Extract(Sealed(MessageFields(s, n, time, r)), tag) == Lookup(MessageFields(s, n, time, r)[1..], tag)
    {
      ExtractIsTold(MessageFields(s, n, time, r), tag);
    }
  }

  /** The quantity sent is the one number of 32 bits that agrees with the order's modulo 2^32. */
  lemma QuantitySent(qty: int, v: int)
    ensures Int32(qty) == v <==> -0x8000_0000 <= v < 0x8000_0000 && (v - qty) % 0x1_0000_0000 == 0
  {}
}
