/** The packet parser: sequence tracking, message loop and event callbacks. */
module UmdfParser {
  import opened Bytes
  import opened Collections
  import opened Umdf

  lemma CutAt(buf: seq<byte>, cursor: nat, left: nat)
    requires left > 0 && cursor + MESSAGE_HEADER_SIZE <= |buf|
    ensures var size := BigEndian(buf[cursor..cursor + 2]);
      Cut(buf[cursor..], left) ==
        if cursor + size > |buf| then []
        else [Raw(buf[cursor + 2], buf[cursor..cursor + size])] + Cut(buf[cursor + size..], left - 1)
  {
    var rest := buf[cursor..];
    assert rest[..2] == buf[cursor..cursor + 2];
    var size := BigEndian(rest[..2]);
    if size <= |rest| {
      assert rest[..size] == buf[cursor..cursor + size];
      assert rest[size..] == buf[cursor + size..];
    }
  }

  lemma CutEnds(rest: seq<byte>, left: nat)
    requires left == 0 || |rest| < MESSAGE_HEADER_SIZE || BigEndian(rest[..2]) > |rest|
    ensures Cut(rest, left) == []
  {}

  /** The callbacks a parse fires are returned as events, in firing order. */
  class UMDFParser {
    var lastSeq: nat

    constructor ()
      ensures lastSeq == 0
    {
      lastSeq := 0;
    }

    method Parse(buf: seq<byte>) returns (parsed: nat, events: seq<Event>)
      requires Defined(buf)
      modifies this
      ensures parsed == |Contents(buf)|
      ensures events == GapEvents(old(lastSeq), buf) + Payload(buf)
      ensures lastSeq == LastSeq(old(lastSeq), buf)
    {
      parsed, events := 0, [];
      if |buf| < PACKET_HEADER_SIZE { return; }
      var got := SeqNum(buf);
      if lastSeq != 0 && got != NextSeq(lastSeq) {
        events := [Gap(NextSeq(lastSeq), got)];
      }
      lastSeq := got;
      var msgCount := buf[12];
      if msgCount == 0 {
        events := events + [Heartbeat(BigEndian(buf[4..12]))];
        return;
      }
      var fired;
      parsed, fired := ParseMessages(buf, msgCount);
      events := events + fired;
    }

    /** The message loop of `Parse`. */
    method ParseMessages(buf: seq<byte>, msgCount: nat) returns (parsed: nat, events: seq<Event>)
      requires |buf| >= PACKET_HEADER_SIZE
      requires forall m <- Cut(buf[PACKET_HEADER_SIZE..], msgCount) :: MessageDefined(m)
      ensures var messages := Cut(buf[PACKET_HEADER_SIZE..], msgCount);
        parsed == |messages| && events == FlatMap(messages, Decoder())
    {
      hide MessageEvents, MessageDefined, BigEndian, Cut;
      parsed, events := 0, [];
      ghost var messages := Cut(buf[PACKET_HEADER_SIZE..], msgCount);
      var cursor, i := PACKET_HEADER_SIZE, 0;
      while i < msgCount && cursor < |buf|
        invariant i <= msgCount && PACKET_HEADER_SIZE <= cursor <= |buf|
        invariant parsed <= |messages| && messages[parsed..] == Cut(buf[cursor..], msgCount - i)
        invariant events == FlatMap(messages[..parsed], Decoder())
      {
        if cursor + MESSAGE_HEADER_SIZE > |buf| { break; }
        CutAt(buf, cursor, msgCount - i);
        assert buf[cursor..][..2] == buf[cursor..cursor + 2];
        var size := BigEndian(buf[cursor..cursor + 2]);
        if cursor + size > |buf| { break; }
        var message := Raw(buf[cursor + 2], buf[cursor..cursor + size]);
        assert messages[parsed] == messages[parsed..][0] == message;
        var fired := Dispatch(message);
        assert messages[..parsed + 1][..parsed] == messages[..parsed];
        assert messages[parsed + 1..] == messages[parsed..][1..];
        events := events + fired;
        cursor, i, parsed := cursor + size, i + 1, parsed + 1;
      }
      CutEnds(buf[cursor..], msgCount - i);
      assert messages[..parsed] == messages;
    }

    /** The type test of the message loop. */
    method Dispatch(message: Raw) returns (events: seq<Event>)
      requires MessageDefined(message)
      ensures events == MessageEvents(message)
    {
      if message.letter == 'X' as int {
        events := HandleIncremental(message.bytes[MESSAGE_HEADER_SIZE..]);
      } else if message.letter == 'W' as int {
        events := HandleSnapshot(message.bytes[MESSAGE_HEADER_SIZE..]);
      } else {
        events := [];
      }
    }

    method HandleSnapshot(body: seq<byte>) returns (events: seq<Event>)
      ensures events == SnapshotEvents(body)
    {
      if |body| < SNAPSHOT_SIZE { return []; }
      StructSizes();
      var snap := Split(body, SNAPSHOT);
      var ts, kind := BigEndian(snap[2]), Signed(BigEndian(snap[4]), 4);
      var price, qty := Signed(BigEndian(snap[5]), 8), Signed(BigEndian(snap[6]), 8);
      var security := Atoi(snap[9]) % SEQ_MODULUS;
      events := [];
      if kind == 0 || kind == 1 {
        events := if kind == 0 then [Quote(ts, security, snap[8], price, 0, qty, 0)]
                  else [Quote(ts, security, snap[8], 0, price, 0, qty)];
      } else if kind == 2 {
        events := [Trade(ts, security, snap[8], price, qty, 'U')];
      }
    }

    method HandleIncremental(body: seq<byte>) returns (events: seq<Event>)
      ensures events == IncrementalEvents(body)
    {
      hide EntryEvents;
      events := [];
      if |body| < INCREMENTAL_HEADER_SIZE { return; }
      var cursor := INCREMENTAL_HEADER_SIZE;
      while cursor + ENTRY_SIZE <= |body|
        invariant INCREMENTAL_HEADER_SIZE <= cursor <= |body|
        invariant IncrementalEvents(body) == events + EntriesEvents(body[cursor..])
      {
        assert body[cursor..][ENTRY_SIZE..] == body[cursor + ENTRY_SIZE..];
        var fired := HandleEntry(body[cursor..]);
        events := events + fired;
        cursor := cursor + ENTRY_SIZE;
      }
    }

    /** The body of the entry loop. */
    method HandleEntry(entry: seq<byte>) returns (events: seq<Event>)
      requires |entry| >= ENTRY_SIZE
      ensures events == EntryEvents(entry)
    {
      StructSizes();
      var f := Split(entry, ENTRY);
      var action, kind := Signed(BigEndian(f[0]), 4), Signed(BigEndian(f[1]), 4);
      var price, qty := Signed(BigEndian(f[2]), 8), Signed(BigEndian(f[3]), 8);
      var security, ts := BigEndian(f[4]), BigEndian(f[8]);
      events := [];
      if kind == 0 || kind == 1 {
        events := if kind == 0 then [Quote(ts, security, EMPTY_SYMBOL, price, 0, qty, 0)]
                  else [Quote(ts, security, EMPTY_SYMBOL, 0, price, 0, qty)];
      } else if kind == 2 {
        events := [Trade(ts, security, EMPTY_SYMBOL, price, qty, if action == 0 then 'B' else 'S')];
      }
    }
  }

  // ---- Runs of the parser ----

  function SeqAfter(last: nat, datagrams: seq<seq<byte>>): nat {
    if datagrams == [] then last
    else LastSeq(SeqAfter(last, datagrams[..|datagrams| - 1]), datagrams[|datagrams| - 1])
  }

  /** Everything the parser reports over a run of datagrams, starting after sequence number `last`. */
  function RunEvents(last: nat, datagrams: seq<seq<byte>>): seq<Event> {
    if datagrams == [] then []
    else
      var before, d := datagrams[..|datagrams| - 1], datagrams[|datagrams| - 1];
      RunEvents(last, before) + (GapEvents(SeqAfter(last, before), d) + Payload(d))
  }

  /** A repeated packet is not dropped: it is reported as a gap and all its events fire again. */
  lemma DuplicatesAreProcessedAgain(d: seq<byte>)
    requires |d| >= PACKET_HEADER_SIZE && SeqNum(d) > 0
    ensures RunEvents(0, [d, d]) == Payload(d) + [Gap(NextSeq(SeqNum(d)), SeqNum(d))] + Payload(d)
  {
    hide Payload, SeqNum;
    assert [d, d][..1] == [d] && [d][..0] == [];
    assert SeqAfter(0, [d]) == SeqNum(d);
    assert RunEvents(0, [d]) == [] + ([] + Payload(d));
  }

  /** The number of packets a gap callback prints as missed: `got - expected` in 32 bits. */
  function Missed(): Event -> seq<int> {
    (e: Event) => if e.Gap? then [(e.got - e.expected) % SEQ_MODULUS] else []
  }

  lemma {:induction false} EntriesReportNoGap(s: seq<byte>)
    ensures forall e <- EntriesEvents(s) :: !e.Gap?
    decreases |s|
  {
    if |s| < ENTRY_SIZE {
    } else {
      EntriesReportNoGap(s[ENTRY_SIZE..]);
    }
  }

  lemma MessageReportsNoGap(m: Raw)
    ensures forall e <- MessageEvents(m) :: !e.Gap?
  {
    if |m.bytes| >= MESSAGE_HEADER_SIZE + INCREMENTAL_HEADER_SIZE {
      EntriesReportNoGap(m.bytes[MESSAGE_HEADER_SIZE..][INCREMENTAL_HEADER_SIZE..]);
    }
  }

  lemma {:induction false} MessagesReportNoGap(messages: seq<Raw>)
    ensures forall e <- FlatMap(messages, Decoder()) :: !e.Gap?
  {
    if messages == [] {
    } else {
      MessageReportsNoGap(messages[|messages| - 1]);
      MessagesReportNoGap(messages[..|messages| - 1]);
    }
  }

  lemma {:induction false} NoGapNoneMissed(events: seq<Event>)
    requires forall e <- events :: !e.Gap?
    ensures FlatMap(events, Missed()) == []
  {
    if events == [] {
    } else {
      NoGapNoneMissed(events[..|events| - 1]);
    }
  }

  predicate IncreasingRun(datagrams: seq<seq<byte>>) {
    && (forall d <- datagrams :: |d| >= PACKET_HEADER_SIZE && SeqNum(d) > 0)
    && (forall i :: 0 <= i < |datagrams| - 1 ==> SeqNum(datagrams[i]) < SeqNum(datagrams[i + 1]))
  }

  lemma GapMissed(last: nat, d: seq<byte>)
    requires |d| >= PACKET_HEADER_SIZE && last < SEQ_MODULUS && (last == 0 || last < SeqNum(d))
    ensures IntSum(FlatMap(GapEvents(last, d), Missed())) == if last == 0 then 0 else SeqNum(d) - last - 1
  {
    hide SeqNum;
    var gaps := GapEvents(last, d);
    if gaps != [] {
      var g := gaps[0];
      assert gaps == [g];
      FlatMapOne(g, Missed());
      assert [g.got - g.expected][..0] == [];
      assert IntSum([g.got - g.expected]) == g.got - g.expected;
    }
  }

  lemma StepMissed(last: nat, d: seq<byte>)
    requires |d| >= PACKET_HEADER_SIZE && last < SEQ_MODULUS && (last == 0 || last < SeqNum(d))
    ensures IntSum(FlatMap(GapEvents(last, d) + Payload(d), Missed())) == if last == 0 then 0 else SeqNum(d) - last - 1
  {
    hide SeqNum, GapEvents, Contents, MessageEvents, BigEndian, FlatMap;
    FlatMapAppend(GapEvents(last, d), Payload(d), Missed());
    MessagesReportNoGap(Contents(d));
    NoGapNoneMissed(Payload(d));
    assert FlatMap(GapEvents(last, d), Missed()) + [] == FlatMap(GapEvents(last, d), Missed());
    GapMissed(last, d);
  }

  /** Over any strictly increasing run of nonzero sequence numbers, the gaps reported add up to exactly the
      numbers the run skips: its span less the packets received. */
  lemma {:induction false} GapsAddUp(datagrams: seq<seq<byte>>)
    requires datagrams != [] && IncreasingRun(datagrams)
    ensures SeqAfter(0, datagrams) == SeqNum(datagrams[|datagrams| - 1])
    ensures IntSum(FlatMap(RunEvents(0, datagrams), Missed()))
         == SeqNum(datagrams[|datagrams| - 1]) - SeqNum(datagrams[0]) + 1 - |datagrams|
  {
    hide Payload, GapEvents, Missed;
    var before, d := datagrams[..|datagrams| - 1], datagrams[|datagrams| - 1];
    var fired := GapEvents(SeqAfter(0, before), d) + Payload(d);
    FlatMapAppend(RunEvents(0, before), fired, Missed());
    IntSumAppend(FlatMap(RunEvents(0, before), Missed()), FlatMap(fired, Missed()));
    if before == [] {
      StepMissed(0, d);
    } else {
      GapsAddUp(before);
      StepMissed(SeqNum(before[|before| - 1]), d);
    }
  }
}
