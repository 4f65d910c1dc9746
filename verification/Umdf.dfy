/** The wire messages of the market data feed and what each one means. */
module Umdf {
  import opened Bytes
  import opened Collections

  // ---- Events handed to the callbacks ----

  datatype Event =
    | Quote(ts: nat, security: nat, symbol: seq<byte>, bid: int, ask: int, bidQty: int, askQty: int)
    | Trade(ts: nat, security: nat, symbol: seq<byte>, price: int, qty: int, aggressor: char)
    | Heartbeat(ts: nat)
    | Gap(expected: nat, got: nat)

  // ---- Packed struct layouts, in field order ----

  const PACKET_HEADER: seq<nat> := [4, 8, 1]
  const SNAPSHOT: seq<nat> := [4, 8, 8, 4, 4, 8, 8, 4, 12, 8]
  const ENTRY: seq<nat> := [4, 4, 8, 8, 4, 4, 1, 4, 8]
  const PACKET_HEADER_SIZE := 13
  const MESSAGE_HEADER_SIZE := 4
  const SNAPSHOT_SIZE := 68
  const INCREMENTAL_HEADER_SIZE := 9
  const ENTRY_SIZE := 45
  const SEQ_MODULUS := 0x1_0000_0000
  const EMPTY_SYMBOL: seq<byte> := [0, 0, 0, 0, 0, 0, 0, 0, 0, 0, 0, 0]

  /** The packed structs occupy 13, 68 and 45 bytes. */
  lemma StructSizes()
    ensures Size(PACKET_HEADER) == PACKET_HEADER_SIZE
    ensures Size(SNAPSHOT) == SNAPSHOT_SIZE
    ensures Size(ENTRY) == ENTRY_SIZE
  {
    assert PACKET_HEADER[1..] == [8, 1] && [8 as nat, 1][1..] == [1];
    assert SNAPSHOT[1..] == [8, 8, 4, 4, 8, 8, 4, 12, 8];
    assert [8 as nat, 8, 4, 4, 8, 8, 4, 12, 8][1..] == [8, 4, 4, 8, 8, 4, 12, 8];
    assert [8 as nat, 4, 4, 8, 8, 4, 12, 8][1..] == [4, 4, 8, 8, 4, 12, 8];
    assert [4 as nat, 4, 8, 8, 4, 12, 8][1..] == [4, 8, 8, 4, 12, 8];
    assert [4 as nat, 8, 8, 4, 12, 8][1..] == [8, 8, 4, 12, 8];
    assert [8 as nat, 8, 4, 12, 8][1..] == [8, 4, 12, 8];
    assert [8 as nat, 4, 12, 8][1..] == [4, 12, 8];
    assert [4 as nat, 12, 8][1..] == [12, 8] && [12 as nat, 8][1..] == [8];
    assert ENTRY[1..] == [4, 8, 8, 4, 4, 1, 4, 8];
    assert [4 as nat, 8, 8, 4, 4, 1, 4, 8][1..] == [8, 8, 4, 4, 1, 4, 8];
    assert [8 as nat, 8, 4, 4, 1, 4, 8][1..] == [8, 4, 4, 1, 4, 8];
    assert [8 as nat, 4, 4, 1, 4, 8][1..] == [4, 4, 1, 4, 8];
    assert [4 as nat, 4, 1, 4, 8][1..] == [4, 1, 4, 8];
    assert [4 as nat, 1, 4, 8][1..] == [1, 4, 8] && [1 as nat, 4, 8][1..] == [4, 8];
    assert [4 as nat, 8][1..] == [8];
  }

  // ---- std::atoi on a fixed field ----

  predicate IsSpace(b: byte) { b == 32 || 9 <= b <= 13 }
  predicate IsDigit(b: byte) { 48 <= b <= 57 }

  function SkipSpaces(s: seq<byte>): seq<byte> {
    if s != [] && IsSpace(s[0]) then SkipSpaces(s[1..]) else s
  }

  function LeadingDigits(s: seq<byte>, acc: nat): nat {
    if s != [] && IsDigit(s[0]) then LeadingDigits(s[1..], 10 * acc + (s[0] - 48)) else acc
  }

  function Atoi(s: seq<byte>): int {
    var t := SkipSpaces(s);
    if t != [] && t[0] == 45 then -(LeadingDigits(t[1..], 0) as int)
    else if t != [] && t[0] == 43 then LeadingDigits(t[1..], 0)
    else LeadingDigits(t, 0)
  }

  // ---- Decoding ----

  /** The event for one price level or trade; types other than bid, offer and trade yield none. */
  function LevelEvents(ts: nat, security: nat, symbol: seq<byte>, kind: int, price: int, qty: int, aggressor: char)
    : seq<Event>
  {
    if kind == 0 then [Quote(ts, security, symbol, price, 0, qty, 0)]
    else if kind == 1 then [Quote(ts, security, symbol, 0, price, 0, qty)]
    else if kind == 2 then [Trade(ts, security, symbol, price, qty, aggressor)]
    else []
  }

  function SnapshotEvents(body: seq<byte>): seq<Event> {
    if |body| < SNAPSHOT_SIZE then []
    else
      StructSizes();
      var f := Split(body, SNAPSHOT);
      LevelEvents(BigEndian(f[2]), Atoi(f[9]) % SEQ_MODULUS, f[8], Signed(BigEndian(f[4]), 4),
                  Signed(BigEndian(f[5]), 8), Signed(BigEndian(f[6]), 8), 'U')
  }

  function EntryEvents(entry: seq<byte>): seq<Event>
    requires |entry| >= ENTRY_SIZE
  {
    StructSizes();
    var f := Split(entry, ENTRY);
    LevelEvents(BigEndian(f[8]), BigEndian(f[4]), EMPTY_SYMBOL, Signed(BigEndian(f[1]), 4),
                Signed(BigEndian(f[2]), 8), Signed(BigEndian(f[3]), 8),
                if Signed(BigEndian(f[0]), 4) == 0 then 'B' else 'S')
  }

  function EntriesEvents(s: seq<byte>): seq<Event> {
    if |s| < ENTRY_SIZE then [] else EntryEvents(s) + EntriesEvents(s[ENTRY_SIZE..])
  }

  function IncrementalEvents(body: seq<byte>): seq<Event> {
    if |body| < INCREMENTAL_HEADER_SIZE then [] else EntriesEvents(body[INCREMENTAL_HEADER_SIZE..])
  }

  /** One message as the loop meets it: its type letter and the `msg_size` bytes it declares. */
  datatype Raw = Raw(letter: byte, bytes: seq<byte>)

  function MessageEvents(m: Raw): seq<Event> {
    if |m.bytes| < MESSAGE_HEADER_SIZE then []
    else if m.letter == 'X' as int then IncrementalEvents(m.bytes[MESSAGE_HEADER_SIZE..])
    else if m.letter == 'W' as int then SnapshotEvents(m.bytes[MESSAGE_HEADER_SIZE..])
    else []
  }

  function Decoder(): Raw -> seq<Event> { (m: Raw) => MessageEvents(m) }

  /** The messages at the front of `rest`, at most `left` of them, until one is cut short. */
  function Cut(rest: seq<byte>, left: nat): seq<Raw>
    decreases left
  {
    if left == 0 || |rest| < MESSAGE_HEADER_SIZE then []
    else
      var size := BigEndian(rest[..2]);
      if size > |rest| then [] else [Raw(rest[2], rest[..size])] + Cut(rest[size..], left - 1)
  }

  function SeqNum(buf: seq<byte>): (n: nat)
    requires |buf| >= PACKET_HEADER_SIZE
    ensures n < SEQ_MODULUS
  {
    Widths();
    BigEndian(buf[..4])
  }

  /** The messages of a datagram that holds any. */
  function Contents(buf: seq<byte>): seq<Raw> {
    if |buf| < PACKET_HEADER_SIZE then [] else Cut(buf[PACKET_HEADER_SIZE..], buf[12])
  }

  /** Everything a datagram says, leaving aside gaps. */
  function Payload(buf: seq<byte>): seq<Event> {
    if |buf| >= PACKET_HEADER_SIZE && buf[12] == 0 then [Heartbeat(BigEndian(buf[4..12]))]
    else FlatMap(Contents(buf), Decoder())
  }

  function NextSeq(last: nat): nat { (last + 1) % SEQ_MODULUS }

  /** The gap report a datagram triggers after sequence number `last`. */
  function GapEvents(last: nat, buf: seq<byte>): seq<Event> {
    if |buf| < PACKET_HEADER_SIZE || last == 0 || SeqNum(buf) == NextSeq(last) then []
    else [Gap(NextSeq(last), SeqNum(buf))]
  }

  function LastSeq(last: nat, buf: seq<byte>): nat {
    if |buf| < PACKET_HEADER_SIZE then last else SeqNum(buf)
  }

  // ---- Where the C++ parser's behaviour is defined ----

  /** A snapshot or incremental message has room for its own header, and a snapshot's security id is
      terminated inside its field. */
  predicate MessageDefined(m: Raw) {
    && (m.letter == 'X' as int || m.letter == 'W' as int ==> |m.bytes| >= MESSAGE_HEADER_SIZE)
    && (m.letter == 'W' as int && |m.bytes| >= MESSAGE_HEADER_SIZE + SNAPSHOT_SIZE ==> 0 in m.bytes[64..72])
  }

  predicate Defined(buf: seq<byte>) {
    forall m <- Contents(buf) :: MessageDefined(m)
  }

  // ---- Cutting a datagram short ----

  lemma {:induction false} TruncatedCut(rest: seq<byte>, n: nat, left: nat)
    requires n <= |rest|
    ensures Cut(rest[..n], left) <= Cut(rest, left)
    decreases left
  {
    hide BigEndian;
    var cut := rest[..n];
    if left == 0 || |cut| < MESSAGE_HEADER_SIZE {
    } else {
      assert cut[..2] == rest[..2];
      var size := BigEndian(cut[..2]);
      if size <= n {
        assert cut[size..] == rest[size..][..n - size];
        assert cut[..size] == rest[..size];
        TruncatedCut(rest[size..], n - size, left - 1);
      }
    }
  }

  /** A truncated datagram yields a prefix of the whole datagram's messages and events, and is as safe to parse. */
  lemma Truncation(buf: seq<byte>, n: nat)
    requires n <= |buf|
    ensures Contents(buf[..n]) <= Contents(buf)
    ensures Payload(buf[..n]) <= Payload(buf)
    ensures Defined(buf) ==> Defined(buf[..n])
  {
    hide MessageEvents, Cut, FlatMap, MessageDefined;
    var cut := buf[..n];
    if n >= PACKET_HEADER_SIZE {
      assert cut[4..12] == buf[4..12];
      assert cut[PACKET_HEADER_SIZE..] == buf[PACKET_HEADER_SIZE..][..n - PACKET_HEADER_SIZE];
      TruncatedCut(buf[PACKET_HEADER_SIZE..], n - PACKET_HEADER_SIZE, buf[12]);
    }
    var kept := Contents(cut);
    assert Contents(buf) == kept + Contents(buf)[|kept|..];
    FlatMapAppend(kept, Contents(buf)[|kept|..], Decoder());
  }
}
