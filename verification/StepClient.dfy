/** The order-entry client: building and sending messages, framing the received stream, reading tags. */
module StepClient {
  import opened FixText

  // ---- Framing ----

  datatype Frames = Frames(messages: seq<string>, rest: string)

  /** Length of the first complete message: through the first SOH after the first mark; 0 if there is none. */
  function FirstLength(acc: string): (n: nat)
    ensures n <= |acc|
  {
    var p := Find(acc, MARK, 0);
    if p == -1 then 0
    else
      var e := Find(acc, [SOH], p);
      if e == -1 then 0 else e + 1
  }

  /** Reading a whole stream at once. */
  function Frame(acc: string): Frames
    decreases |acc|
  {
    var n := FirstLength(acc);
    if n == 0 then Frames([], acc) else Prepend(acc[..n], Frame(acc[n..]))
  }

  function Concat(parts: seq<string>): string {
    if parts == [] then "" else Concat(parts[..|parts| - 1]) + parts[|parts| - 1]
  }

  lemma FindStable(x: string, y: string, needle: string, from: nat)
    requires Find(x, needle, from) != -1
    ensures Find(x + y, needle, from) == Find(x, needle, from)
  {
    var p, q := Find(x, needle, from), Find(x + y, needle, from);
    assert (x + y)[p..p + |needle|] == x[p..p + |needle|];
    assert At(x + y, needle, p);
    assert (x + y)[q..q + |needle|] == x[q..q + |needle|];
    assert At(x, needle, q);
  }

  lemma FirstLengthStable(x: string, y: string)
    requires FirstLength(x) != 0
    ensures FirstLength(x + y) == FirstLength(x)
  {
    FindStable(x, y, MARK, 0);
    FindStable(x, y, [SOH], Find(x, MARK, 0));
  }

  function Prepend(message: string, f: Frames): Frames { Frames([message] + f.messages, f.rest) }

  /** Going on with more input from the residue. */
  function Resume(f: Frames, more: string): Frames {
    var g := Frame(f.rest + more);
    Frames(f.messages + g.messages, g.rest)
  }

  lemma ResumePrepend(message: string, f: Frames, more: string)
    ensures Resume(Prepend(message, f), more) == Prepend(message, Resume(f, more))
  {}

  /** Framing is incremental: a stream that goes on is framed by resuming from the residue. */
  lemma {:induction false} FrameAppend(x: string, y: string)
    ensures Frame(x + y) == Resume(Frame(x), y)
    decreases |x|
  {
    hide FirstLength, Resume;
    var n := FirstLength(x);
    if n == 0 {
      ResumeNothing(x, y);
    } else {
      FirstLengthStable(x, y);
      assert (x + y)[n..] == x[n..] + y && (x + y)[..n] == x[..n];
      FrameAppend(x[n..], y);
      ResumePrepend(x[..n], Frame(x[n..]), y);
    }
  }

  /** What the receive loop holds after a run of chunks: messages emitted so far and the residue kept. */
  function Receive(chunks: seq<string>): Frames {
    if chunks == [] then Frames([], "") else Resume(Receive(chunks[..|chunks| - 1]), chunks[|chunks| - 1])
  }

  /** However a stream is cut into chunks, receiving it gives the messages and the residue of one single read. */
  lemma {:induction false} ReceiveIsFrame(chunks: seq<string>)
    ensures Receive(chunks) == Frame(Concat(chunks))
  {
    hide Resume;
    if chunks == [] {
      assert FirstLength("") == 0;
    } else {
      ReceiveIsFrame(chunks[..|chunks| - 1]);
      FrameAppend(Concat(chunks[..|chunks| - 1]), chunks[|chunks| - 1]);
    }
  }

  lemma ResumeNothing(x: string, y: string)
    ensures Resume(Frames([], x), y) == Frame(x + y)
  {}

  // ---- Reading tags ----

  /** The text from `from` up to the next SOH, or to the end. */
  function ValueAt(msg: string, from: nat): string
    requires from <= |msg|
  {
    var e := Find(msg, [SOH], from);
    msg[from..if e == -1 then |msg| else e]
  }

  /** The value after the first SOH-preceded `tag=`, or "" when the tag is only first or absent. */
  function Extract(msg: string, tag: string): string {
    var needle := [SOH] + tag + "=";
    var p := Find(msg, needle, 0);
    if p == -1 then "" else ValueAt(msg, p + |needle|)
  }

  datatype OrderAck = OrderAck(clOrdId: string, ordId: string, status: char, text: string)

  function AckOf(tagValue: string -> string): seq<OrderAck> {
    if tagValue("35") != "8" then []
    else
      var status := tagValue("39");
      [OrderAck(tagValue("11"), tagValue("37"), if status == "" then '8' else status[0], tagValue("58"))]
  }

  function Acks(messages: seq<string>): seq<OrderAck> {
    if messages == [] then []
    else Acks(messages[..|messages| - 1]) + AckOf((tag: string) => Extract(messages[|messages| - 1], tag))
  }

  lemma NoAcks()
    ensures Acks([]) == []
  {}

  lemma {:induction false} AcksAppend(a: seq<string>, b: seq<string>)
    ensures Acks(a + b) == Acks(a) + Acks(b)
  {
    if b == [] {
      assert a + b == a;
    } else {
      assert (a + b)[..|a + b| - 1] == a + b[..|b| - 1];
      AcksAppend(a, b[..|b| - 1]);
    }
  }

  // ---- What an acknowledgement carries ----

  /** The messages whose type is execution report, in order. */
  function ExecutionReports(messages: seq<string>): seq<string> {
    if messages == [] then []
    else
      var last := messages[|messages| - 1];
      ExecutionReports(messages[..|messages| - 1]) + if Extract(last, "35") == "8" then [last] else []
  }

  /** The client's order id is tag 11, the venue's tag 37, the text tag 58; the status is the first character of tag
      39, or '8' when there is none. */
  predicate Tells(ack: OrderAck, report: string) {
    && ack.clOrdId == Extract(report, "11") && ack.ordId == Extract(report, "37") && ack.text == Extract(report, "58")
    && (var status := Extract(report, "39"); ack.status == if status == "" then '8' else status[0])
  }

  /** One acknowledgement for each execution report, in order. */
  predicate Acknowledges(acks: seq<OrderAck>, messages: seq<string>) {
    var reports := ExecutionReports(messages);
    |acks| == |reports| && forall i :: 0 <= i < |acks| ==> Tells(acks[i], reports[i])
  }

  lemma {:induction false} AcksAcknowledge(messages: seq<string>)
    ensures Acknowledges(Acks(messages), messages)
  {
    hide Extract;
    if messages == [] {
    } else {
      AcksAcknowledge(messages[..|messages| - 1]);
    }
  }

  lemma ResumeAcks(f: Frames, more: string)
    ensures Acks(Resume(f, more).messages) == Acks(f.messages) + Acks(Frame(f.rest + more).messages)
    ensures Resume(f, more).rest == Frame(f.rest + more).rest
  {
    AcksAppend(f.messages, Frame(f.rest + more).messages);
  }

  // ---- Requests ----

  datatype Order = Order(clOrdId: string, symbol: string, security: nat, side: char, ordType: char, tif: char,
                         price: string, qty: int, account: string)

  datatype Request =
    | Logon(password: string)
    | NewOrder(order: Order)
    | Cancel(origClOrdId: string, symbol: string, qty: int)
    | CancelReplace(origClOrdId: string, order: Order)

  datatype Session = Session(sender: string, target: string)

  const MARKET := '1'

  /** `static_cast<int>` of a 64-bit quantity. */
  function Int32(n: int): int {
    var m := n % 0x1_0000_0000;
    if m >= 0x8000_0000 then m - 0x1_0000_0000 else m
  }

  function OrderFields(o: Order): seq<FixField> {
    [FixField(11, o.clOrdId), FixField(55, o.symbol), FixField(48, Printed(o.security)), FixField(22, PrintedInt(8)),
     FixField(54, [o.side]), FixField(40, [o.ordType]), FixField(59, [o.tif])]
    + (if o.ordType != MARKET then [FixField(44, o.price)] else [])
    + [FixField(38, PrintedInt(Int32(o.qty)))]
  }

  function RequestFields(r: Request): seq<FixField> {
    match r
    case Logon(password) => [FixField(98, PrintedInt(0)), FixField(108, PrintedInt(30)), FixField(554, password)]
    case NewOrder(o) => OrderFields(o) + [FixField(1, o.account)]
    case Cancel(orig, symbol, qty) =>
      [FixField(41, orig), FixField(11, orig + "_C"), FixField(55, symbol), FixField(38, PrintedInt(Int32(qty)))]
    case CancelReplace(orig, o) => [FixField(41, orig)] + OrderFields(o)
  }

  function MsgType(r: Request): string {
    match r case Logon(_) => "A" case NewOrder(_) => "D" case Cancel(_, _, _) => "F" case CancelReplace(_, _) => "G"
  }

  /** The body: session fields, the sequence number, then the request's own fields. */
  function BodyFields(s: Session, seqNum: nat, time: string, r: Request): seq<FixField> {
    [FixField(49, s.sender), FixField(56, s.target), FixField(34, Printed(seqNum)), FixField(52, time)]
    + RequestFields(r)
  }

  /** The header as built: BodyLength counts the body alone, leaving out the MsgType field. */
  function HeaderFields(msgType: string, bodyLen: nat): seq<FixField> {
    [FixField(8, "FIX.4.4"), FixField(9, Printed(bodyLen)), FixField(35, msgType)]
  }

  function MessageFields(s: Session, seqNum: nat, time: string, r: Request): seq<FixField> {
    var body := BodyFields(s, seqNum, time, r);
    HeaderFields(MsgType(r), |Text(body)|) + body
  }

  lemma DropMultiple(m: nat, q: nat, x: nat)
    requires m == 256 || m == 0x1_0000_0000
    ensures (m * q + x) % m == x % m
  {}

  /** Reducing modulo 2^32 at every step loses nothing modulo 256. */
  lemma Wraparound(s: nat, b: nat)
    ensures (s % 0x1_0000_0000 + b) % 0x1_0000_0000 == (s + b) % 0x1_0000_0000
    ensures s % 0x1_0000_0000 % 256 == s % 256
  {
    var q, r := s / 0x1_0000_0000, s % 0x1_0000_0000;
    DropMultiple(0x1_0000_0000, q, r + b);
    DropMultiple(256, 0x100_0000 * q, r);
  }

  // ---- The client on values ----

  datatype ClientState = ClientState(connected: bool, msgSeqNum: nat)

  const NEW_CLIENT := ClientState(false, 1)

  /** What happens to a client; `reachable` and `written` are the answers of the socket calls. */
  datatype ClientOp =
    | Connecting(password: string, reachable: bool, time: string)
    | Sending(request: Request, written: int, time: string)
    | Closing

  /** The request whose message the operation hands to the socket, with its time. */
  function Handed(c: ClientState, op: ClientOp): seq<(string, Request)> {
    match op
    case Connecting(password, reachable, time) => if reachable then [(time, Logon(password))] else []
    case Sending(request, _, time) => if c.connected then [(time, request)] else []
    case Closing => []
  }

  function AfterOp(c: ClientState, op: ClientOp): ClientState {
    var n := c.msgSeqNum + |Handed(c, op)|;
    match op
    case Connecting(_, reachable, _) => ClientState(c.connected || reachable, n)
    case Sending(_, _, _) => ClientState(c.connected, n)
    case Closing => ClientState(false, n)
  }

  // ---- The client ----

  class StepClient {
    const session: Session
    const password: string
    var connected: bool
    var msgSeqNum: nat

    ghost function View(): ClientState
      reads this
    {
      ClientState(connected, msgSeqNum)
    }

    constructor (session: Session, password: string)
      ensures this.session == session && this.password == password && View() == NEW_CLIENT
    {
      this.session, this.password, connected, msgSeqNum := session, password, false, 1;
    }

    /** `connect`: a logon goes out as soon as the socket is up, and its own fate is not looked at. */
    method Connect(reachable: bool, time: string) returns (ok: bool, sent: seq<string>)
      modifies this
      ensures View() == AfterOp(old(View()), Connecting(password, reachable, time))
      ensures connected == (old(connected) || reachable)
      ensures ok == reachable
      ensures sent == if reachable then [Sealed(MessageFields(session, old(msgSeqNum), time, Logon(password)))] else []
    {
      if !reachable { return false, []; }
      connected := true;
      var msg := Build(Logon(password), time);
      return true, [msg];
    }

    /** The three order requests: without a connection nothing happens; with one the message goes out and uses up its
        number whether or not the socket takes it. */
    method Send(r: Request, written: int, time: string) returns (ok: bool, sent: seq<string>)
      requires !r.Logon?
      modifies this
      ensures View() == AfterOp(old(View()), Sending(r, written, time))
      ensures ok <==> old(connected) && written > 0
      ensures sent == if old(connected) then [Sealed(MessageFields(session, old(msgSeqNum), time, r))] else []
    {
      if !connected { return false, []; }
      var msg := Build(r, time);
      return written > 0, [msg];
    }

    /** Header, body and checksum, numbered with the next sequence number. */
    method Build(r: Request, time: string) returns (msg: string)
      modifies `msgSeqNum
      ensures msg == Sealed(MessageFields(session, old(msgSeqNum), time, r)) && msgSeqNum == old(msgSeqNum) + 1
    {
      var body := BodyFields(session, msgSeqNum, time, r);
      msgSeqNum := msgSeqNum + 1;
      msg := Text(HeaderFields(MsgType(r), |Text(body)|)) + Text(body);
      TextAppend(HeaderFields(MsgType(r), |Text(body)|), body);
      var sum := ComputeCheckSum(msg);
      TextAppend(HeaderFields(MsgType(r), |Text(body)|) + body, [FixField(10, sum)]);
      msg := msg + Text([FixField(10, sum)]);
    }

    /** The checksum loop, in 32-bit unsigned arithmetic. */
    static method ComputeCheckSum(msg: string) returns (text: string)
      ensures text == CheckSum(msg)
    {
      var sum := 0;
      for i := 0 to |msg|
        invariant 0 <= sum < 0x1_0000_0000 && sum == ByteSum(msg[..i]) % 0x1_0000_0000
      {
        assert msg[..i + 1][..i] == msg[..i];
        Wraparound(ByteSum(msg[..i]), (msg[i] as int) % 256);
        sum := (sum + (msg[i] as int) % 256) % 0x1_0000_0000;
      }
      assert msg[..|msg|] == msg;
      Wraparound(ByteSum(msg), 0);
      text := ThreeDigits(sum % 256);
    }

    /** The receive loop over the chunks `recv` returns; an empty chunk is a closed connection. */
    method RecvLoop(chunks: seq<string>) returns (acks: seq<OrderAck>, acc: string)
      requires forall c <- chunks :: c != ""
      modifies this
      ensures acks == Acks(Receive(chunks).messages) && acc == Receive(chunks).rest
      ensures Acknowledges(acks, Receive(chunks).messages)
      ensures View() == AfterOp(old(View()), Closing) && !connected
    {
      hide Acks, Frame, Resume, Acknowledges;
      acks, acc := [], "";
      NoAcks();
      for i := 0 to |chunks|
        invariant acks == Acks(Receive(chunks[..i]).messages) && acc == Receive(chunks[..i]).rest
        invariant unchanged(this)
      {
        assert chunks[..i + 1][..i] == chunks[..i];
        ResumeAcks(Receive(chunks[..i]), chunks[i]);
        var got, left := SplitMessages(acc + chunks[i]);
        acks, acc := acks + got, left;
      }
      assert chunks[..|chunks|] == chunks;
      AcksAcknowledge(Receive(chunks).messages);
      connected := false;
    }

    /** The inner loop: take complete messages off the front of the accumulator. */
    static method SplitMessages(start: string) returns (acks: seq<OrderAck>, acc: string)
      ensures acks == Acks(Frame(start).messages) && acc == Frame(start).rest
    {
      hide Acks, Find;
      acks, acc := [], start;
      ghost var messages := [];
      NoAcks();
      while true
        invariant Frame(start) == Frames(messages + Frame(acc).messages, Frame(acc).rest)
        invariant acks == Acks(messages)
        decreases |acc|
      {
        var pos := Find(acc, MARK, 0);
        if pos == -1 { break; }
        var end := Find(acc, [SOH], pos);
        if end == -1 { break; }
        assert FirstLength(acc) == end + 1;
        var msg := acc[..end + 1];
        acc := acc[end + 1..];
        var got := HandleMessage(msg);
        AcksAppend(messages, [msg]);
        acks, messages := acks + got, messages + [msg];
      }
      assert FirstLength(acc) == 0 && messages + [] == messages;
    }

    static method HandleMessage(msg: string) returns (acks: seq<OrderAck>)
      ensures acks == Acks([msg])
      ensures Acknowledges(acks, [msg])
    {
      AcksAcknowledge([msg]);
      assert [msg][..0] == [];
      acks := [];
      var msgType := Extract(msg, "35");
      if msgType == "8" {
        var clOrdId, ordId, status := Extract(msg, "11"), Extract(msg, "37"), Extract(msg, "39");
        acks := [OrderAck(clOrdId, ordId, if status == "" then '8' else status[0], Extract(msg, "58"))];
      }
    }
  }
}
