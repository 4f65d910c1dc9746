/** The encoder the parser has to invert: abstract packets and their bytes. */
module UmdfEncoding {
  import opened Bytes
  import opened Collections
  import opened Decimal
  import opened Umdf

  /** What a market data entry is about; the wire codes are 0, 1 and 2 for the first three. */
  datatype Kind = Bid | Offer | TradePrint | OtherKind(code: int)

  function Code(kind: Kind): int {
    match kind
    case Bid => 0
    case Offer => 1
    case TradePrint => 2
    case OtherKind(code) => code
  }

  datatype Entry = Entry(action: int, kind: Kind, price: int, qty: int, security: nat, rptSeq: int,
                         orders: byte, level: int, ts: nat)

  /** A security id as ASCII decimal, possibly with leading zeros; whatever follows its NUL is filler. */
  datatype SecurityId = SecurityId(zeros: nat, number: nat, filler: seq<byte>)

  /** `second` is the second byte of the message type, which nothing reads. */
  datatype Message =
    | Snapshot(second: byte, tradeDate: nat, openTime: nat, ts: nat, action: int, kind: Kind, price: int, qty: int,
               rptSeq: int, symbol: seq<byte>, security: SecurityId)
    | Incremental(second: byte, ts: nat, indicator: byte, entries: seq<Entry>)
    | Unknown(second: byte, letter: byte, body: seq<byte>)

  datatype Packet = Packet(seqNum: nat, sendTime: nat, messages: seq<Message>)

  // ---- What fits on the wire ----

  predicate KindFits(kind: Kind) {
    FitsSigned(Code(kind), 4) && (kind.OtherKind? ==> kind.code !in {0, 1, 2})
  }

  predicate EntryFits(e: Entry) {
    && FitsSigned(e.action, 4) && KindFits(e.kind) && FitsSigned(e.price, 8) && FitsSigned(e.qty, 8)
    && e.security < Pow256(4) && FitsSigned(e.rptSeq, 4) && FitsSigned(e.level, 4) && e.ts < Pow256(8)
  }

  predicate IdFits(id: SecurityId) { id.zeros + |Digits(id.number)| + 1 + |id.filler| == 8 }

  predicate MessageFits(m: Message) {
    match m
    case Snapshot(_, tradeDate, openTime, ts, action, kind, price, qty, rptSeq, symbol, security) =>
      && tradeDate < Pow256(4) && openTime < Pow256(8) && ts < Pow256(8) && FitsSigned(action, 4)
      && KindFits(kind) && FitsSigned(price, 8) && FitsSigned(qty, 8) && FitsSigned(rptSeq, 4)
      && |symbol| == 12 && IdFits(security)
    case Incremental(_, ts, _, entries) =>
      && ts < Pow256(8) && (forall e <- entries :: EntryFits(e))
      && MESSAGE_HEADER_SIZE + INCREMENTAL_HEADER_SIZE + ENTRY_SIZE * |entries| < Pow256(2)
    case Unknown(_, letter, body) =>
      letter != 'X' as int && letter != 'W' as int && MESSAGE_HEADER_SIZE + |body| < Pow256(2)
  }

  predicate PacketFits(p: Packet) {
    && p.seqNum < Pow256(4) && p.sendTime < Pow256(8) && |p.messages| < 256
    && forall m <- p.messages :: MessageFits(m)
  }

  // ---- Encoding ----

  function Ascii(d: seq<digit>): (s: seq<byte>)
    ensures |s| == |d|
  {
    seq(|d|, i requires 0 <= i < |d| => 48 + (d[i] as int))
  }

  function IdField(id: SecurityId): (s: seq<byte>)
    requires IdFits(id)
    ensures |s| == 8
  {
    Zeros(id.zeros) + (Ascii(Digits(id.number)) + ([0] + id.filler))
  }

  function Zeros(n: nat): (s: seq<byte>)
    ensures |s| == n
  {
    if n == 0 then [] else [48] + Zeros(n - 1)
  }

  function SnapshotFields(m: Message): seq<seq<byte>>
    requires m.Snapshot? && MessageFits(m)
  {
    [ToBigEndian(m.tradeDate, 4), ToBigEndian(m.openTime, 8), ToBigEndian(m.ts, 8), SignedField(m.action, 4),
     SignedField(Code(m.kind), 4), SignedField(m.price, 8), SignedField(m.qty, 8), SignedField(m.rptSeq, 4),
     m.symbol, IdField(m.security)]
  }

  function EntryFields(e: Entry): seq<seq<byte>>
    requires EntryFits(e)
  {
    [SignedField(e.action, 4), SignedField(Code(e.kind), 4), SignedField(e.price, 8), SignedField(e.qty, 8),
     ToBigEndian(e.security, 4), SignedField(e.rptSeq, 4), [e.orders], SignedField(e.level, 4),
     ToBigEndian(e.ts, 8)]
  }

  function EncodeEntries(entries: seq<Entry>): seq<byte>
    requires forall e <- entries :: EntryFits(e)
  {
    if entries == [] then [] else Join(EntryFields(entries[0])) + EncodeEntries(entries[1..])
  }

  function Body(m: Message): seq<byte>
    requires MessageFits(m)
  {
    match m
    case Snapshot(_, _, _, _, _, _, _, _, _, _, _) => Join(SnapshotFields(m))
    case Incremental(_, ts, indicator, entries) => ToBigEndian(ts, 8) + [indicator] + EncodeEntries(entries)
    case Unknown(_, _, body) => body
  }

  function Letter(m: Message): byte {
    if m.Snapshot? then 'W' as int else if m.Incremental? then 'X' as int else m.letter
  }

  function EncodeMessage(m: Message): seq<byte>
    requires MessageFits(m)
  {
    ToBigEndian(MESSAGE_HEADER_SIZE + |Body(m)|, 2) + [Letter(m), m.second] + Body(m)
  }

  function EncodeMessages(ms: seq<Message>): seq<byte>
    requires forall m <- ms :: MessageFits(m)
  {
    if ms == [] then [] else EncodeMessage(ms[0]) + EncodeMessages(ms[1..])
  }

  function Encode(p: Packet): seq<byte>
    requires PacketFits(p)
  {
    ToBigEndian(p.seqNum, 4) + ToBigEndian(p.sendTime, 8) + [|p.messages|] + EncodeMessages(p.messages)
  }

  // ---- Meaning ----

  function KindMeaning(ts: nat, security: nat, symbol: seq<byte>, kind: Kind, price: int, qty: int, aggressor: char)
    : seq<Event>
  {
    match kind
    case Bid => [Quote(ts, security, symbol, price, 0, qty, 0)]
    case Offer => [Quote(ts, security, symbol, 0, price, 0, qty)]
    case TradePrint => [Trade(ts, security, symbol, price, qty, aggressor)]
    case OtherKind(_) => []
  }

  function EntriesMeaning(entries: seq<Entry>): seq<Event> {
    if entries == [] then []
    else
      var e := entries[0];
      KindMeaning(e.ts, e.security, EMPTY_SYMBOL, e.kind, e.price, e.qty, if e.action == 0 then 'B' else 'S')
        + EntriesMeaning(entries[1..])
  }

  function Meaning(m: Message): seq<Event> {
    match m
    case Snapshot(_, _, _, ts, _, kind, price, qty, _, symbol, security) =>
      KindMeaning(ts, security.number, symbol, kind, price, qty, 'U')
    case Incremental(_, _, _, entries) => EntriesMeaning(entries)
    case Unknown(_, _, _) => []
  }

  function Meanings(): Message -> seq<Event> { (m: Message) => Meaning(m) }

  function PacketMeaning(p: Packet): seq<Event> {
    if p.messages == [] then [Heartbeat(p.sendTime)] else FlatMap(p.messages, Meanings())
  }

  // ---- Parsing inverts encoding ----

  lemma {:induction false} LeadingDigitsOf(n: nat, t: seq<byte>)
    ensures LeadingDigits(Ascii(Digits(n)) + t, 0) == LeadingDigits(t, n)
  {
    if n < 10 {
      assert Ascii([n]) + t == [48 + n] + t;
      assert ([48 + n] + t)[1..] == t;
      assert LeadingDigits([48 + n] + t, 0) == LeadingDigits(t, n);
    } else {
      var u: seq<byte> := [48 + n % 10] + t;
      assert Ascii(Digits(n)) + t == Ascii(Digits(n / 10)) + u;
      LeadingDigitsOf(n / 10, u);
      assert u[1..] == t;
    }
  }

  lemma {:induction false} LeadingZeros(n: nat, t: seq<byte>)
    ensures LeadingDigits(Zeros(n) + t, 0) == LeadingDigits(t, 0)
  {
    if n == 0 {
      assert Zeros(0) + t == t;
    } else {
      assert Zeros(n) + t == [48] + (Zeros(n - 1) + t);
      assert ([48] + (Zeros(n - 1) + t))[1..] == Zeros(n - 1) + t;
      LeadingZeros(n - 1, t);
    }
  }

  /** The id field reads back as the number printed in it, is terminated, and holds at most seven digits. */
  lemma IdRoundTrip(id: SecurityId)
    requires IdFits(id)
    ensures Atoi(IdField(id)) == id.number < 10000000
    ensures 0 in IdField(id)
  {
    hide Digits;
    var tail: seq<byte> := [0] + id.filler;
    var d := Ascii(Digits(id.number));
    var s := IdField(id);
    assert s[id.zeros + |d|] == 0;
    assert IsDigit(s[0]) by {
      if id.zeros > 0 {
        assert s[0] == Zeros(id.zeros)[0];
      } else {
        assert s[0] == d[0];
      }
    }
    LeadingZeros(id.zeros, d + tail);
    LeadingDigitsOf(id.number, tail);
    DigitsBound(id.number);
    PowersUpTo7(|d|);
  }

  lemma LevelMeaning(ts: nat, security: nat, symbol: seq<byte>, kind: Kind, price: int, qty: int, aggressor: char)
    requires KindFits(kind)
    ensures LevelEvents(ts, security, symbol, Code(kind), price, qty, aggressor)
         == KindMeaning(ts, security, symbol, kind, price, qty, aggressor)
  {}

  lemma SnapshotBody(m: Message)
    requires m.Snapshot? && MessageFits(m)
    ensures |Body(m)| == SNAPSHOT_SIZE == Size(SNAPSHOT)
    ensures Split(Body(m), SNAPSHOT) == SnapshotFields(m)
    ensures 0 in Body(m)[60..68]
  {
    hide Split, Size, Join, ToBigEndian, SignedField, IdField, Digits, Pow256, Pow10;
    StructSizes();
    IdRoundTrip(m.security);
    var fields := SnapshotFields(m);
    assert Layout(fields) == SNAPSHOT;
    JoinSize(fields);
    SplitJoin(fields, []);
    assert Join(fields) + [] == Join(fields);
    LastField(fields);
  }

  lemma SnapshotRoundTrip(m: Message)
    requires m.Snapshot? && MessageFits(m)
    ensures SnapshotEvents(Body(m)) == Meaning(m)
  {
    hide Split, Join, ToBigEndian, SignedField, IdField, Atoi, BigEndian, Signed, Body;
    Widths();
    SnapshotBody(m);
    IdRoundTrip(m.security);
    BigEndianRoundTrip(m.ts, 8);
    SignedRoundTrip(Code(m.kind), 4);
    SignedRoundTrip(m.price, 8);
    SignedRoundTrip(m.qty, 8);
    LevelMeaning(m.ts, m.security.number, m.symbol, m.kind, m.price, m.qty, 'U');
  }

  lemma {:induction false} LastField(fields: seq<seq<byte>>)
    requires fields != []
    ensures |Join(fields)| >= |fields[|fields| - 1]|
    ensures Join(fields)[|Join(fields)| - |fields[|fields| - 1]|..] == fields[|fields| - 1]
  {
    if |fields| == 1 {
      assert Join(fields[1..]) == [];
    } else {
      LastField(fields[1..]);
    }
  }

  lemma EntryRoundTrip(e: Entry, rest: seq<byte>)
    requires EntryFits(e)
    ensures |Join(EntryFields(e))| == ENTRY_SIZE
    ensures EntryEvents(Join(EntryFields(e)) + rest)
         == KindMeaning(e.ts, e.security, EMPTY_SYMBOL, e.kind, e.price, e.qty, if e.action == 0 then 'B' else 'S')
  {
    hide Join, Size, ToBigEndian, SignedField, BigEndian, Signed, Pow256;
    Widths();
    StructSizes();
    var fields := EntryFields(e);
    assert Layout(fields) == ENTRY;
    JoinSize(fields);
    SplitJoin(fields, rest);
    BigEndianRoundTrip(e.ts, 8);
    BigEndianRoundTrip(e.security, 4);
    SignedRoundTrip(e.action, 4);
    SignedRoundTrip(Code(e.kind), 4);
    SignedRoundTrip(e.price, 8);
    SignedRoundTrip(e.qty, 8);
    LevelMeaning(e.ts, e.security, EMPTY_SYMBOL, e.kind, e.price, e.qty, if e.action == 0 then 'B' else 'S');
  }

  lemma {:induction false} EntriesRoundTrip(entries: seq<Entry>)
    requires forall e <- entries :: EntryFits(e)
    ensures |EncodeEntries(entries)| == ENTRY_SIZE * |entries|
    ensures EntriesEvents(EncodeEntries(entries)) == EntriesMeaning(entries)
  {
    if entries == [] {
    } else {
      var rest := EncodeEntries(entries[1..]);
      EntryRoundTrip(entries[0], rest);
      EntriesRoundTrip(entries[1..]);
      assert (Join(EntryFields(entries[0])) + rest)[ENTRY_SIZE..] == rest;
    }
  }

  lemma BodyRoundTrip(m: Message)
    requires MessageFits(m)
    ensures MESSAGE_HEADER_SIZE + |Body(m)| < Pow256(2)
    ensures m.Snapshot? ==> |Body(m)| == SNAPSHOT_SIZE && 0 in Body(m)[60..68] && SnapshotEvents(Body(m)) == Meaning(m)
    ensures m.Incremental? ==> IncrementalEvents(Body(m)) == Meaning(m)
  {
    Widths();
    match m {
      case Snapshot(_, _, _, _, _, _, _, _, _, _, _) =>
        SnapshotBody(m);
        SnapshotRoundTrip(m);
      case Incremental(_, _, _, entries) =>
        EntriesRoundTrip(entries);
        assert Body(m)[INCREMENTAL_HEADER_SIZE..] == EncodeEntries(entries);
      case Unknown(_, _, _) =>
    }
  }

  function AsRaw(m: Message): Raw
    requires MessageFits(m)
  {
    Raw(Letter(m), EncodeMessage(m))
  }

  lemma MessageRoundTrip(m: Message)
    requires MessageFits(m)
    ensures MessageEvents(AsRaw(m)) == Meaning(m)
    ensures MessageDefined(AsRaw(m))
  {
    BodyRoundTrip(m);
    var bytes, body := EncodeMessage(m), Body(m);
    assert bytes[MESSAGE_HEADER_SIZE..] == body;
    if m.Snapshot? {
      assert bytes[64..72] == body[60..68];
    }
  }

  lemma HeaderRoundTrip(m: Message, rest: seq<byte>)
    requires MessageFits(m)
    ensures |EncodeMessage(m)| >= MESSAGE_HEADER_SIZE
    ensures BigEndian((EncodeMessage(m) + rest)[..2]) == |EncodeMessage(m)|
    ensures (EncodeMessage(m) + rest)[2] == Letter(m)
  {
    BodyRoundTrip(m);
    var bytes := EncodeMessage(m);
    BigEndianRoundTrip(|bytes|, 2);
    assert (bytes + rest)[..2] == ToBigEndian(|bytes|, 2);
  }

  function Raws(ms: seq<Message>): seq<Raw>
    requires forall m <- ms :: MessageFits(m)
  {
    if ms == [] then [] else [AsRaw(ms[0])] + Raws(ms[1..])
  }

  lemma {:induction false} CutEncoded(ms: seq<Message>, junk: seq<byte>)
    requires forall m <- ms :: MessageFits(m)
    ensures Cut(EncodeMessages(ms) + junk, |ms|) == Raws(ms)
  {
    hide EncodeMessage, Letter, MessageFits;
    if ms == [] {
    } else {
      var bytes, tail := EncodeMessage(ms[0]), EncodeMessages(ms[1..]) + junk;
      var all := EncodeMessages(ms) + junk;
      assert all == bytes + tail;
      HeaderRoundTrip(ms[0], tail);
      CutEncoded(ms[1..], junk);
      assert all[|bytes|..] == tail && all[..|bytes|] == bytes;
    }
  }

  lemma {:induction false} DecodeEncoded(ms: seq<Message>)
    requires forall m <- ms :: MessageFits(m)
    ensures |Raws(ms)| == |ms| && forall m <- Raws(ms) :: MessageDefined(m)
    ensures FlatMap(Raws(ms), Decoder()) == FlatMap(ms, Meanings())
  {
    hide MessageEvents, Meaning, MessageDefined, AsRaw, MessageFits;
    if ms == [] {
    } else {
      MessageRoundTrip(ms[0]);
      DecodeEncoded(ms[1..]);
      FlatMapAppend([AsRaw(ms[0])], Raws(ms[1..]), Decoder());
      FlatMapAppend([ms[0]], ms[1..], Meanings());
      assert ms == [ms[0]] + ms[1..];
      FlatMapOne(AsRaw(ms[0]), Decoder());
      FlatMapOne(ms[0], Meanings());
    }
  }

  /** Any well-formed packet, whatever bytes follow it in the datagram, parses to exactly its messages. */
  lemma PacketRoundTrip(p: Packet, junk: seq<byte>)
    requires PacketFits(p)
    ensures var buf := Encode(p) + junk;
      && Defined(buf)
      && |buf| >= PACKET_HEADER_SIZE
      && SeqNum(buf) == p.seqNum
      && |Contents(buf)| == |p.messages|
      && Payload(buf) == PacketMeaning(p)
  {
    var buf := Encode(p) + junk;
    assert buf[..4] == ToBigEndian(p.seqNum, 4);
    assert buf[4..12] == ToBigEndian(p.sendTime, 8);
    assert buf[PACKET_HEADER_SIZE..] == EncodeMessages(p.messages) + junk;
    BigEndianRoundTrip(p.seqNum, 4);
    BigEndianRoundTrip(p.sendTime, 8);
    CutEncoded(p.messages, junk);
    DecodeEncoded(p.messages);
  }
}
