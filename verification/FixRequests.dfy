/** What can be read back from the messages the client sends, in terms of the texts its callers supply. */
module FixRequests {
  import opened Decimal
  import opened FixRoundTrip
  import opened FixText
  import opened StepClient

  // ---- The texts a message prints ----

  function OrderTexts(o: Order): seq<string> {
    [o.clOrdId, o.symbol, [o.side], [o.ordType], [o.tif]] + if o.ordType != MARKET then [o.price] else []
  }

  function RequestTexts(r: Request): seq<string> {
    match r
    case Logon(password) => [password]
    case NewOrder(o) => OrderTexts(o) + [o.account]
    case Cancel(orig, symbol, _) => [orig, symbol]
    case CancelReplace(orig, o) => [orig] + OrderTexts(o)
  }

  /** Every text the caller supplies that is printed; a market order's price is not. */
  function MessageTexts(s: Session, time: string, r: Request): seq<string> {
    [s.sender, s.target, time] + RequestTexts(r)
  }

  function Values(fields: seq<FixField>): (v: seq<string>)
    ensures |v| == |fields|
  {
    seq(|fields|, i requires 0 <= i < |fields| => fields[i].value)
  }

  predicate All(texts: seq<string>, p: string -> bool) { forall t <- texts :: p(t) }

  lemma AllAppend(a: seq<string>, b: seq<string>, p: string -> bool)
    ensures All(a + b, p) <==> All(a, p) && All(b, p)
  {
    assert forall t <- a :: t in a + b;
    assert forall t <- b :: t in a + b;
  }

  lemma AllOne(t: string, p: string -> bool)
    ensures All([t], p) <==> p(t)
  {
    assert t in [t];
  }

  lemma ValuesAppend(a: seq<FixField>, b: seq<FixField>)
    ensures Values(a + b) == Values(a) + Values(b)
  {}

  /** True of everything the client prints on its own account. */
  ghost predicate OwnTexts(p: string -> bool) {
    && (forall n: int :: p(PrintedInt(n))) && p("FIX.4.4") && p("A") && p("D") && p("F") && p("G")
    && forall t: string :: p(t + "_C") <==> p(t)
  }

  lemma OrderValues(o: Order, p: string -> bool)
    requires OwnTexts(p)
    ensures All(Values(OrderFields(o)), p) <==> All(OrderTexts(o), p)
  {
    hide PrintedInt, All;
    var security, source, qty := PrintedInt(o.security), PrintedInt(8), PrintedInt(Int32(o.qty));
    var ids, chars := [o.clOrdId, o.symbol], [[o.side], [o.ordType], [o.tif]];
    var price := if o.ordType != MARKET then [o.price] else [];
    assert Printed(o.security) == security by { PrintedNat(o.security); }
    assert Values(OrderFields(o)) == ids + ([security] + [source]) + chars + price + [qty];
    assert OrderTexts(o) == ids + chars + price;
    AllAppend(ids + ([security] + [source]) + chars + price, [qty], p);
    AllAppend(ids + ([security] + [source]) + chars, price, p);
    AllAppend(ids + ([security] + [source]), chars, p);
    AllAppend(ids, [security] + [source], p);
    AllAppend([security], [source], p);
    AllAppend(ids + chars, price, p);
    AllAppend(ids, chars, p);
    AllOne(security, p);
    AllOne(source, p);
    AllOne(qty, p);
  }

  lemma PrintedNat(n: nat)
    ensures PrintedInt(n) == Printed(n)
  {}

  lemma RequestValues(r: Request, p: string -> bool)
    requires OwnTexts(p)
    ensures All(Values(RequestFields(r)), p) <==> All(RequestTexts(r), p)
  {
    hide PrintedInt, OrderFields, OrderTexts, All;
    match r {
      case Logon(password) =>
        assert Values(RequestFields(r)) == [PrintedInt(0)] + [PrintedInt(30)] + [password];
        AllAppend([PrintedInt(0)] + [PrintedInt(30)], [password], p);
        AllAppend([PrintedInt(0)], [PrintedInt(30)], p);
        AllOne(PrintedInt(0), p);
        AllOne(PrintedInt(30), p);
      case NewOrder(o) =>
        OrderValues(o, p);
        ValuesAppend(OrderFields(o), [FixField(1, o.account)]);
        assert Values([FixField(1, o.account)]) == [o.account];
        AllAppend(Values(OrderFields(o)), [o.account], p);
        AllAppend(OrderTexts(o), [o.account], p);
      case Cancel(orig, symbol, qty) =>
        var n := PrintedInt(Int32(qty));
        assert Values(RequestFields(r)) == [orig] + [orig + "_C"] + [symbol] + [n];
        assert RequestTexts(r) == [orig] + [symbol];
        AllAppend([orig] + [orig + "_C"] + [symbol], [n], p);
        AllAppend([orig] + [orig + "_C"], [symbol], p);
        AllAppend([orig], [orig + "_C"], p);
        AllAppend([orig], [symbol], p);
        AllOne(orig, p);
        AllOne(orig + "_C", p);
        AllOne(n, p);
      case CancelReplace(orig, o) =>
        OrderValues(o, p);
        ValuesAppend([FixField(41, orig)], OrderFields(o));
        assert Values([FixField(41, orig)]) == [orig];
        AllAppend([orig], Values(OrderFields(o)), p);
        AllAppend([orig], OrderTexts(o), p);
    }
  }

  /** Whatever holds of the client's own texts holds of all a message prints exactly when it holds of the texts the
      caller supplies. */
  lemma MessageValues(s: Session, n: nat, time: string, r: Request, p: string -> bool)
    requires OwnTexts(p)
    ensures All(Values(MessageFields(s, n, time, r)), p) <==> All(MessageTexts(s, time, r), p)
  {
    hide PrintedInt, RequestFields, RequestTexts, All, Text;
    var body := BodyFields(s, n, time, r);
    var length, number := PrintedInt(|Text(body)|), PrintedInt(n);
    PrintedNat(|Text(body)|);
    PrintedNat(n);
    var own, mid, last := ["FIX.4.4"] + [length] + [MsgType(r)], [s.sender, s.target], [number] + [time];
    ValuesAppend(HeaderFields(MsgType(r), |Text(body)|), body);
    var front := [FixField(49, s.sender), FixField(56, s.target), FixField(34, number), FixField(52, time)];
    ValuesAppend(front, RequestFields(r));
    assert Values(HeaderFields(MsgType(r), |Text(body)|)) == own && Values(front) == mid + last;
    AllAppend(own, Values(body), p);
    AllAppend(["FIX.4.4"] + [length], [MsgType(r)], p);
    AllAppend(["FIX.4.4"], [length], p);
    AllOne("FIX.4.4", p);
    AllOne(length, p);
    AllOne(MsgType(r), p);
    AllAppend(mid + last, Values(RequestFields(r)), p);
    AllAppend(mid, last, p);
    AllAppend([number], [time], p);
    AllOne(number, p);
    RequestValues(r, p);
    assert MessageTexts(s, time, r) == mid + [time] + RequestTexts(r);
    AllAppend(mid + [time], RequestTexts(r), p);
    AllAppend(mid, [time], p);
  }

  // ---- Exactly when a sent message is clean ----

  predicate MarkFree(text: string) { !Occurs(text, MARK) }

  /** No supplied text that is printed holds "10=". */
  predicate MarkFreeTexts(s: Session, time: string, r: Request) {
    forall t <- MessageTexts(s, time, r) :: MarkFree(t)
  }

  lemma PlainText(text: string)
    requires forall i :: 0 <= i < |text| ==> text[i] != SOH && (text[i] == '=' ==> i == 0 || text[i - 1] != '0')
    ensures NoSoh(text) && MarkFree(text)
  {
    forall i | 0 <= i ensures !At(text, MARK, i) {
      if At(text, MARK, i) { ThreeChars(text, i); }
    }
  }

  lemma MarkBeforeSuffix(text: string)
    ensures MarkFree(text + "_C") <==> MarkFree(text)
  {
    var all := text + "_C";
    forall i | 0 <= i ensures At(all, MARK, i) <==> At(text, MARK, i) {
      if i + 3 <= |text| {
        assert all[i..i + 3] == text[i..i + 3];
      } else if At(all, MARK, i) {
        ThreeChars(all, i);
      }
    }
  }

  lemma OwnTextsArePlain()
    ensures OwnTexts(MarkFree) && OwnTexts(NoSoh)
  {
    hide MarkFree, Printed;
    forall n: int ensures MarkFree(PrintedInt(n)) && NoSoh(PrintedInt(n)) { PlainText(PrintedInt(n)); }
    PlainText("FIX.4.4");
    PlainText("A");
    PlainText("D");
    PlainText("F");
    PlainText("G");
    forall t: string ensures (MarkFree(t + "_C") <==> MarkFree(t)) && (NoSoh(t + "_C") <==> NoSoh(t)) {
      MarkBeforeSuffix(t);
    }
  }

  predicate TagsFit(fields: seq<FixField>) { forall f <- fields :: f.tag % 100 != 10 }

  lemma ValuesDecide(fields: seq<FixField>)
    requires TagsFit(fields)
    ensures Clean(fields) <==> All(Values(fields), MarkFree)
    ensures SohFree(fields) <==> All(Values(fields), NoSoh)
  {
    hide Occurs;
    var v := Values(fields);
    assert forall i :: 0 <= i < |v| ==> v[i] in v && fields[i] in fields;
  }

  lemma OrderTagsFit(o: Order)
    ensures TagsFit(OrderFields(o))
  {
    hide Printed, PrintedInt;
  }

  lemma TagsAreClean(s: Session, n: nat, time: string, r: Request)
    ensures TagsFit(MessageFields(s, n, time, r))
  {
    hide Printed, PrintedInt, Text, OrderFields;
    if r.NewOrder? || r.CancelReplace? { OrderTagsFit(r.order); }
    assert TagsFit(RequestFields(r));
    assert TagsFit(HeaderFields(MsgType(r), |Text(BodyFields(s, n, time, r))|));
  }

  /** A message the client sends is clean if and only if no text its caller supplies, among those printed, holds
      "10=". */
  lemma SentIsClean(s: Session, n: nat, time: string, r: Request)
    ensures Clean(MessageFields(s, n, time, r)) <==> MarkFreeTexts(s, time, r)
  {
    hide MessageFields, MessageTexts, Clean, MarkFree;
    OwnTextsArePlain();
    TagsAreClean(s, n, time, r);
    ValuesDecide(MessageFields(s, n, time, r));
    MessageValues(s, n, time, r, MarkFree);
  }

  /** Likewise for SOH. */
  lemma SentIsSohFree(s: Session, n: nat, time: string, r: Request)
    ensures SohFree(MessageFields(s, n, time, r)) <==> forall t <- MessageTexts(s, time, r) :: NoSoh(t)
  {
    hide MessageFields, MessageTexts, SohFree, NoSoh;
    OwnTextsArePlain();
    TagsAreClean(s, n, time, r);
    ValuesDecide(MessageFields(s, n, time, r));
    MessageValues(s, n, time, r, NoSoh);
  }

  // ---- Reading a sent message back ----

  lemma ReadStep(f: FixField, rest: seq<FixField>, tag: string)
    ensures ReadFrom([f] + rest, tag)
         == if Printed(f.tag) == tag then ValueAt(f.value, 0) else ReadInside(f.value, tag, ReadFrom(rest, tag))
  {
    assert ([f] + rest)[1..] == rest;
  }

  lemma LeadingTags()
    ensures Printed(9) == "9" && Printed(35) == "35" && Printed(49) == "49" && Printed(56) == "56"
    ensures Printed(34) == "34" && Printed(52) == "52" && Printed(11) == "11" && Printed(41) == "41"
  {}

  /** The fields a message prints before those of the request, read in order. */
  lemma FrontReads(s: Session, n: nat, time: string, r: Request, tag: string)
    requires tag !in {"9", "35", "49", "56"}
    ensures var msg := WithCheckSum(MessageFields(s, n, time, r));
      var after := [FixField(34, Printed(n)), FixField(52, time)]
                   + (RequestFields(r) + [FixField(10, CheckSum(Text(MessageFields(s, n, time, r))))]);
      ReadTag(msg, tag) == ReadInside(s.sender, tag, ReadInside(s.target, tag, ReadFrom(after, tag)))
  {
    hide Printed, PrintedInt, Text, CheckSum, RequestFields, ReadInside, ReadFrom, ValueAt;
    LeadingTags();
    var fields := MessageFields(s, n, time, r);
    var body := BodyFields(s, n, time, r);
    var after := [FixField(34, Printed(n)), FixField(52, time)]
                 + (RequestFields(r) + [FixField(10, CheckSum(Text(fields)))]);
    var f9, f35 := FixField(9, Printed(|Text(body)|)), FixField(35, MsgType(r));
    var f49, f56 := FixField(49, s.sender), FixField(56, s.target);
    assert WithCheckSum(fields) == [FixField(8, "FIX.4.4")] + ([f9] + ([f35] + ([f49] + ([f56] + after))));
    assert WithCheckSum(fields)[1..] == [f9] + ([f35] + ([f49] + ([f56] + after)));
    ReadStep(f9, [f35] + ([f49] + ([f56] + after)), tag);
    ReadStep(f35, [f49] + ([f56] + after), tag);
    ReadStep(f49, [f56] + after, tag);
    ReadStep(f56, after, tag);
    OwnTextsArePlain();
    PrintedNat(|Text(body)|);
    PlainValue("FIX.4.4", tag, ReadFrom([f9] + ([f35] + ([f49] + ([f56] + after))), tag));
    PlainValue(Printed(|Text(body)|), tag, ReadFrom([f35] + ([f49] + ([f56] + after)), tag));
    PlainValue(MsgType(r), tag, ReadFrom([f49] + ([f56] + after), tag));
  }

  /** The tag as it stands in the text of a message cannot be found in a text of the session. */
  predicate Silent(text: string, tag: string) { !Occurs(text, Needle(tag)) }

  /** What the sequence number's tag reads as, whatever the session's texts hold. */
  lemma SeqNumRead(s: Session, n: nat, time: string, r: Request)
    ensures Extract(Sealed(MessageFields(s, n, time, r)), "34")
         == ReadInside(s.sender, "34", ReadInside(s.target, "34", Printed(n)))
  {
    hide MessageFields, WithCheckSum, Extract, Sealed, ReadInside, RequestFields, CheckSum, Text, ValueAt, PrintedInt;
    ExtractFindsFirst(MessageFields(s, n, time, r), "34");
    FrontReads(s, n, time, r, "34");
    LeadingTags();
    var own := RequestFields(r) + [FixField(10, CheckSum(Text(MessageFields(s, n, time, r))))];
    var number, sent := FixField(34, Printed(n)), FixField(52, time);
    assert [number, sent] + own == [number] + ([sent] + own);
    ReadStep(number, [sent] + own, "34");
    OwnTextsArePlain();
    PrintedNat(n);
    PlainValue(Printed(n), "34", "");
  }

  /** Every sequence number reads back from the message that carries it if and only if neither the sender's nor the
      target's name holds SOH and "34=". */
  lemma SeqNumReadsBack(s: Session, time: string, r: Request)
    ensures (forall n: nat :: Extract(Sealed(MessageFields(s, n, time, r)), "34") == Printed(n))
       <==> Silent(s.sender, "34") && Silent(s.target, "34")
  {
    hide MessageFields, Extract, Sealed, ValueAt;
    forall n: nat
      ensures Extract(Sealed(MessageFields(s, n, time, r)), "34")
           == ReadInside(s.sender, "34", ReadInside(s.target, "34", Printed(n)))
    {
      SeqNumRead(s, n, time, r);
    }
    if !(Silent(s.sender, "34") && Silent(s.target, "34")) {
      assert Extract(Sealed(MessageFields(s, 1, time, r)), "34") == Extract(Sealed(MessageFields(s, 2, time, r)), "34");
      assert Printed(1)[0] == '1' && Printed(2)[0] == '2';
    }
  }

  /** What a tag of the request reads as, past the session's texts. */
  function Past(s: Session, time: string, tag: string, value: string): string {
    ReadInside(s.sender, tag, ReadInside(s.target, tag, ReadInside(time, tag, value)))
  }

  lemma RequestRead(s: Session, n: nat, time: string, r: Request, tag: string)
    requires tag in {"11", "41"}
    ensures var own := RequestFields(r) + [FixField(10, CheckSum(Text(MessageFields(s, n, time, r))))];
      Extract(Sealed(MessageFields(s, n, time, r)), tag) == Past(s, time, tag, ReadFrom(own, tag))
  {
    hide MessageFields, WithCheckSum, Extract, Sealed, ReadInside, RequestFields, CheckSum, Text, ValueAt, PrintedInt;
    ExtractFindsFirst(MessageFields(s, n, time, r), tag);
    FrontReads(s, n, time, r, tag);
    LeadingTags();
    var own := RequestFields(r) + [FixField(10, CheckSum(Text(MessageFields(s, n, time, r))))];
    var number, sent := FixField(34, Printed(n)), FixField(52, time);
    assert [number, sent] + own == [number] + ([sent] + own);
    ReadStep(number, [sent] + own, tag);
    ReadStep(sent, own, tag);
    OwnTextsArePlain();
    PrintedNat(n);
    PlainValue(Printed(n), tag, ReadFrom([sent] + own, tag));
  }

  /** What the order ids read as from any request, whatever its texts hold. */
  lemma OrderIdsRead(s: Session, n: nat, time: string, r: Request)
    ensures var msg := Sealed(MessageFields(s, n, time, r));
      && (r.NewOrder? ==> Extract(msg, "11") == Past(s, time, "11", ValueAt(r.order.clOrdId, 0)))
      && (r.Cancel? || r.CancelReplace? ==> Extract(msg, "41") == Past(s, time, "41", ValueAt(r.origClOrdId, 0)))
      && (r.Cancel? ==>
            Extract(msg, "11") == Past(s, time, "11",
                                       ReadInside(r.origClOrdId, "11", ValueAt(r.origClOrdId + "_C", 0))))
      && (r.CancelReplace? ==>
            Extract(msg, "11") == Past(s, time, "11",
                                       ReadInside(r.origClOrdId, "11", ValueAt(r.order.clOrdId, 0))))
  {
    hide MessageFields, Extract, Sealed, ReadInside, ReadFrom, CheckSum, Text, ValueAt, PrintedInt, Printed, Past;
    RequestRead(s, n, time, r, "11");
    RequestRead(s, n, time, r, "41");
    LeadingTags();
    var own := RequestFields(r) + [FixField(10, CheckSum(Text(MessageFields(s, n, time, r))))];
    if !r.Logon? {
      assert own == [own[0]] + own[1..] && own[1..] == [own[1]] + own[2..];
      ReadStep(own[0], own[1..], "11");
      ReadStep(own[0], own[1..], "41");
      ReadStep(own[1], own[2..], "11");
    }
  }

  predicate SilentSession(s: Session, time: string, tag: string) {
    Silent(s.sender, tag) && Silent(s.target, tag) && Silent(time, tag)
  }

  lemma TruncatedValue(text: string)
    ensures ValueAt(text, 0) == text <==> NoSoh(text)
  {
    hide Find, At;
    FindsSohInside(text, 0);
    var e := Find(text, [SOH], 0);
    if e >= 0 {
      OneChar(text, e);
    } else {
      forall i | 0 <= i < |text| ensures text[i] != SOH { OneChar(text, i); }
    }
  }

  lemma InsideIsShorter(value: string, tag: string, otherwise: string)
    ensures if Silent(value, tag) then ReadInside(value, tag, otherwise) == otherwise
            else |ReadInside(value, tag, otherwise)| < |value|
  {
    FindBounds(value, Needle(tag));
  }

  /** Past a session that does not mimic the tags, an order id reads back if and only if it holds no SOH; in a replace
      the new id does so unless the original id before it mimics its tag. */
  lemma OrderIdsReadBack(s: Session, n: nat, time: string, r: Request)
    requires SilentSession(s, time, "11") && SilentSession(s, time, "41")
    ensures var msg := Sealed(MessageFields(s, n, time, r));
      && (r.NewOrder? ==> (Extract(msg, "11") == r.order.clOrdId <==> NoSoh(r.order.clOrdId)))
      && (r.Cancel? || r.CancelReplace? ==> (Extract(msg, "41") == r.origClOrdId <==> NoSoh(r.origClOrdId)))
      && (r.Cancel? ==> (Extract(msg, "11") == r.origClOrdId + "_C" <==> NoSoh(r.origClOrdId)))
      && (r.CancelReplace? && Silent(r.origClOrdId, "11") ==>
            (Extract(msg, "11") == r.order.clOrdId <==> NoSoh(r.order.clOrdId)))
  {
    hide MessageFields, Extract, Sealed, ValueAt;
    OrderIdsRead(s, n, time, r);
    match r {
      case Logon(_) =>
      case NewOrder(o) => TruncatedValue(o.clOrdId);
      case Cancel(orig, _, _) =>
        TruncatedValue(orig);
        TruncatedValue(orig + "_C");
        if NoSoh(orig) { PlainValue(orig, "11", ValueAt(orig + "_C", 0)); }
        InsideIsShorter(orig, "11", ValueAt(orig + "_C", 0));
      case CancelReplace(orig, o) =>
        TruncatedValue(orig);
        TruncatedValue(o.clOrdId);
    }
  }

  /** BodyLength as FIX 4.4 defines it: the bytes after the BodyLength field up to the CheckSum field. */
  function FixBodyLength(s: Session, n: nat, time: string, r: Request): nat {
    |Text(MessageFields(s, n, time, r)[2..])|
  }

  lemma TwoDigits(n: nat)
    requires 10 <= n < 100
    ensures Printed(n) == [(48 + n / 10) as char, (48 + n % 10) as char]
  {
    assert Digits(n / 10) == [n / 10];
    assert Digits(n) == [n / 10] + [n % 10];
  }

  /** The declared BodyLength is always 5 short: the header's MsgType field is not counted. */
  lemma BodyLengthIsFiveShort(s: Session, n: nat, time: string, r: Request)
    ensures MessageFields(s, n, time, r)[1] == FixField(9, Printed(FixBodyLength(s, n, time, r) - 5))
  {
    hide Printed, RequestFields;
    var body := BodyFields(s, n, time, r);
    var msgType := FixField(35, MsgType(r));
    assert MessageFields(s, n, time, r)[2..] == [msgType] + body;
    TextAppend([msgType], body);
    TwoDigits(35);
    assert Text([msgType]) == FieldText(msgType) + Text([]);
  }

  // ---- Runs of requests ----

  /** The messages of a run of requests, numbered from `n`. */
  function SentFields(s: Session, n: nat, requests: seq<(string, Request)>): (m: seq<seq<FixField>>)
    ensures |m| == |requests|
  {
    seq(|requests|, i requires 0 <= i < |requests| => MessageFields(s, n + i, requests[i].0, requests[i].1))
  }

  lemma SentAt(s: Session, n: nat, requests: seq<(string, Request)>, i: nat)
    requires i < |requests|
    ensures SentFields(s, n, requests)[i] == MessageFields(s, n + i, requests[i].0, requests[i].1)
  {}

  /** A run of requests, however its bytes are cut into chunks, is framed back into exactly the messages sent if and
      only if no supplied text that is printed holds "10="; the sequence numbers read from them are then consecutive
      unless a session name holds SOH and "34=". */
  lemma SentRunReadsBack(s: Session, n: nat, requests: seq<(string, Request)>, chunks: seq<string>)
    requires Concat(chunks) == Stream(SentFields(s, n, requests))
    ensures Receive(chunks) == Frames(SealAll(SentFields(s, n, requests)), "")
       <==> forall r <- requests :: MarkFreeTexts(s, r.0, r.1)
    ensures (forall r <- requests :: MarkFreeTexts(s, r.0, r.1)) && Silent(s.sender, "34") && Silent(s.target, "34") ==>
      forall i :: 0 <= i < |requests| ==>
        i < |Receive(chunks).messages| && Extract(Receive(chunks).messages[i], "34") == Printed(n + i)
  {
    hide Extract, Sealed, MessageFields, Clean, Receive, MarkFreeTexts, Silent, SentFields, Acks;
    var all := SentFields(s, n, requests);
    SegmentationDoesNotMatter(all, chunks);
    RunIsClean(s, n, requests);
    forall i | 0 <= i < |requests| && Silent(s.sender, "34") && Silent(s.target, "34")
      ensures Extract(SealAll(all)[i], "34") == Printed(n + i)
    {
      SentAt(s, n, requests, i);
      SeqNumReadsBack(s, requests[i].0, requests[i].1);
    }
  }

  lemma RunIsClean(s: Session, n: nat, requests: seq<(string, Request)>)
    ensures (forall m <- SentFields(s, n, requests) :: Clean(m))
       <==> forall r <- requests :: MarkFreeTexts(s, r.0, r.1)
  {
    hide MessageFields, Clean, MarkFreeTexts, SentFields;
    var all := SentFields(s, n, requests);
    forall i | 0 <= i < |requests| ensures Clean(all[i]) <==> MarkFreeTexts(s, requests[i].0, requests[i].1) {
      SentAt(s, n, requests, i);
      SentIsClean(s, n + i, requests[i].0, requests[i].1);
    }
    assert forall i :: 0 <= i < |requests| ==> all[i] in all && requests[i] in requests;
  }

  // ---- Runs of a client ----

  function ClientRun(ops: seq<ClientOp>): ClientState {
    if ops == [] then NEW_CLIENT else AfterOp(ClientRun(ops[..|ops| - 1]), ops[|ops| - 1])
  }

  /** The requests whose messages a run hands to the socket, in order. */
  function HandedOver(ops: seq<ClientOp>): seq<(string, Request)> {
    if ops == [] then []
    else HandedOver(ops[..|ops| - 1]) + Handed(ClientRun(ops[..|ops| - 1]), ops[|ops| - 1])
  }

  /** The messages themselves, each with the number it is given when it is built. */
  function HandedFields(s: Session, ops: seq<ClientOp>): seq<seq<FixField>> {
    if ops == [] then []
    else
      var before, op := ops[..|ops| - 1], ops[|ops| - 1];
      var c := ClientRun(before);
      HandedFields(s, before) +
        seq(|Handed(c, op)|, i requires 0 <= i < |Handed(c, op)| =>
          MessageFields(s, c.msgSeqNum, Handed(c, op)[i].0, Handed(c, op)[i].1))
  }

  lemma SentFieldsPush(s: Session, n: nat, requests: seq<(string, Request)>, r: (string, Request))
    ensures SentFields(s, n, requests + [r])
         == SentFields(s, n, requests) + [MessageFields(s, n + |requests|, r.0, r.1)]
  {
    hide MessageFields;
    var all := requests + [r];
    var x, y := SentFields(s, n, all), SentFields(s, n, requests) + [MessageFields(s, n + |requests|, r.0, r.1)];
    assert forall i :: 0 <= i < |requests| ==> all[i] == requests[i];
    assert |x| == |y| && forall i :: 0 <= i < |x| ==> x[i] == y[i];
  }

  /** Over every run of connecting, sending and losing the connection, whatever the socket answers, the messages handed
      over are numbered 1, 2, 3 and so on without gap or repetition. */
  lemma {:induction false} RunIsNumbered(s: Session, ops: seq<ClientOp>)
    ensures ClientRun(ops).msgSeqNum == 1 + |HandedOver(ops)|
    ensures HandedFields(s, ops) == SentFields(s, 1, HandedOver(ops))
  {
    hide MessageFields, SentFields;
    if ops == [] {
      assert |SentFields(s, 1, [])| == 0;
    } else {
      var before, op := ops[..|ops| - 1], ops[|ops| - 1];
      var c := ClientRun(before);
      RunIsNumbered(s, before);
      if Handed(c, op) == [] {
        assert HandedOver(ops) == HandedOver(before);
      } else {
        var r := Handed(c, op)[0];
        assert Handed(c, op) == [r];
        SentFieldsPush(s, 1, HandedOver(before), r);
      }
    }
  }
}
