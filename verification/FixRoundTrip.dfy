/** What the receiving side makes of messages built by the sending side. */
module FixRoundTrip {
  import opened FixText
  import opened StepClient

  // ---- Framing inverts building ----

  lemma FindIs(s: string, needle: string, from: nat, r: nat)
    requires from <= r && At(s, needle, r)
    requires forall i :: from <= i < r ==> !At(s, needle, i)
    ensures Find(s, needle, from) == r
  {}

  lemma CleanMark(fields: seq<FixField>, tail: string)
    requires Clean(fields)
    ensures Find(Text(fields) + (MARK + tail), MARK, 0) == |Text(fields)|
  {
    hide Find;
    var pre, n := Text(fields), |Text(fields)|;
    var s := pre + (MARK + tail);
    CleanHasNoMark(fields);
    assert s[n..n + 3] == MARK;
    forall i | 0 <= i < n ensures !At(s, MARK, i) {
      if At(s, MARK, i) {
        MarkStays(fields, MARK + tail, i);
      }
    }
    FindIs(s, MARK, 0, n);
  }

  lemma SealEnd(pre: string, sum: string, tail: string)
    requires |sum| == 3 && AllDigits(sum)
    ensures Find(pre + (MARK + (sum + [SOH] + tail)), [SOH], |pre|) == |pre| + 6
  {
    hide Find, At;
    var six := MARK + sum;
    var s, n := pre + (MARK + (sum + [SOH] + tail)), |pre|;
    assert s == pre + (six + ([SOH] + tail));
    assert forall i :: 0 <= i < 6 ==> six[i] != SOH;
    forall i | n <= i < n + 6 ensures !At(s, [SOH], i) {
      OneChar(s, i);
      assert s[i] == six[i - n];
    }
    OneChar(s, n + 6);
    FindIs(s, [SOH], n, n + 6);
  }

  lemma OneChar(s: string, i: nat)
    requires i < |s|
    ensures At(s, [SOH], i) <==> s[i] == SOH
  {}

  lemma CleanFrames(fields: seq<FixField>, rest: string)
    requires Clean(fields)
    ensures FirstLength(Sealed(fields) + rest) == |Sealed(fields)|
  {
    hide Find, CheckSum, Clean, Sealed;
    var pre, sum := Text(fields), CheckSum(Text(fields));
    SealedIs(fields);
    CheckSumDigits(pre);
    CleanMark(fields, sum + [SOH] + rest);
    SealEnd(pre, sum, rest);
    assert Sealed(fields) + rest == pre + (MARK + (sum + [SOH] + rest));
  }

  /** A mark that starts inside the text of some fields ends inside it, since the text ends in SOH. */
  lemma MarkStays(fields: seq<FixField>, tail: string, i: nat)
    requires i < |Text(fields)| && At(Text(fields) + tail, MARK, i)
    ensures At(Text(fields), MARK, i)
  {
    var pre, s := Text(fields), Text(fields) + tail;
    TextEndsInSoh(fields);
    ThreeChars(s, i);
    assert s[|pre| - 1] == SOH;
    assert pre[i..i + 3] == s[i..i + 3];
  }

  lemma CheckSumDigits(msg: string)
    ensures |CheckSum(msg)| == 3 && AllDigits(CheckSum(msg))
  {}

  lemma UncleanFramesShort(fields: seq<FixField>, rest: string)
    requires !Clean(fields)
    ensures 0 < FirstLength(Sealed(fields) + rest) < |Sealed(fields)|
  {
    hide CheckSum, Find, Text, Sealed;
    var pre := Text(fields);
    SealedIs(fields);
    CleanHasNoMark(fields);
    var s := Sealed(fields) + rest;
    var tail := s[|pre|..];
    assert s == pre + tail;
    FindStable(pre, tail, MARK, 0);
    TextEndsInSoh(fields);
    var p := Find(s, MARK, 0);
    assert pre[p..p + 3][2] == pre[p + 2] == '=';
    assert At(pre, [SOH], |pre| - 1);
    FindStable(pre, tail, [SOH], p);
  }

  function SealAll(messages: seq<seq<FixField>>): seq<string> {
    seq(|messages|, i requires 0 <= i < |messages| => Sealed(messages[i]))
  }

  function Stream(messages: seq<seq<FixField>>): string {
    if messages == [] then "" else Sealed(messages[0]) + Stream(messages[1..])
  }

  /** The framer gives back exactly the messages built if and only if none of their fields has a tag ending in 10
      or a value containing "10=". */
  lemma {:induction false} FramesExactlyWhenClean(messages: seq<seq<FixField>>)
    ensures Frame(Stream(messages)) == Frames(SealAll(messages), "") <==> forall m <- messages :: Clean(m)
  {
    hide Sealed, Clean, FirstLength;
    if messages == [] {
      assert FirstLength("") == 0;
    } else {
      var m, rest := messages[0], Stream(messages[1..]);
      var s, n := Stream(messages), FirstLength(Stream(messages));
      if Clean(m) {
        CleanFrames(m, rest);
        SealedNonEmpty(m);
        assert s[n..] == rest && s[..n] == Sealed(m);
        FramesExactlyWhenClean(messages[1..]);
        assert SealAll(messages) == [Sealed(m)] + SealAll(messages[1..]);
        assert SealAll(messages)[1..] == SealAll(messages[1..]);
        assert Frame(s).messages[1..] == Frame(rest).messages;
        assert (forall x <- messages :: Clean(x)) <==> forall x <- messages[1..] :: Clean(x);
      } else {
        UncleanFramesShort(m, rest);
        assert |Frame(s).messages[0]| == n < |SealAll(messages)[0]|;
      }
    }
  }

  lemma SealedNonEmpty(m: seq<FixField>)
    ensures |Sealed(m)| > 0
  {}

  // ---- Reading tags inverts building ----

  predicate NoSoh(text: string) { SOH !in text }

  predicate SohFree(fields: seq<FixField>) { forall f <- fields :: NoSoh(f.value) }

  /** The value of the first field printed with this tag. */
  function Lookup(fields: seq<FixField>, tag: string): string {
    if fields == [] then ""
    else if Printed(fields[0].tag) == tag then fields[0].value
    else Lookup(fields[1..], tag)
  }

  predicate IsTag(tag: string) { tag != "" && AllDigits(tag) }

  function Needle(tag: string): string { [SOH] + tag + "=" }

  lemma NeedleShift(a: string, s: string, needle: string)
    requires forall i :: 0 <= i < |a| ==> !At(a + s, needle, i)
    ensures Find(a + s, needle, 0) == var p := Find(s, needle, 0); if p == -1 then -1 else |a| + p
  {
    hide Find;
    var t := a + s;
    var p, q := Find(s, needle, 0), Find(t, needle, 0);
    if p >= 0 {
      assert t[|a| + p..|a| + p + |needle|] == s[p..p + |needle|];
      assert At(t, needle, |a| + p);
    }
    if q >= 0 {
      assert t[q..q + |needle|] == s[q - |a|..q - |a| + |needle|];
      assert At(s, needle, q - |a|);
    }
  }

  lemma ExtractShift(a: string, s: string, tag: string)
    requires forall i :: 0 <= i < |a| ==> !At(a + s, Needle(tag), i)
    ensures Extract(a + s, tag) == Extract(s, tag)
  {
    hide Find, At, ValueAt;
    NeedleShift(a, s, Needle(tag));
    var p := Find(s, Needle(tag), 0);
    if p >= 0 {
      FindBounds(s, Needle(tag));
      ValueShift(a, s, p + |Needle(tag)|);
    }
  }

  lemma FindBounds(s: string, needle: string)
    ensures Find(s, needle, 0) + |needle| <= |s| || Find(s, needle, 0) == -1
  {}

  lemma ValueShift(a: string, s: string, from: nat)
    requires from <= |s|
    ensures ValueAt(a + s, |a| + from) == ValueAt(s, from)
  {
    hide Find;
    FindShift(a, s, from);
    var e := Find(s, [SOH], from);
    var end := if e == -1 then |s| else e;
    assert (a + s)[|a| + from..|a| + end] == s[from..end];
  }

  lemma FindShift(a: string, s: string, from: nat)
    ensures Find(a + s, [SOH], |a| + from) == var e := Find(s, [SOH], from); if e == -1 then -1 else |a| + e
  {
    hide Find, At;
    var t := a + s;
    var e, r := Find(s, [SOH], from), Find(t, [SOH], |a| + from);
    FindsSohInside(s, from);
    FindsSohInside(t, |a| + from);
    if e >= 0 { OneChar(s, e); OneChar(t, |a| + e); }
    if r >= 0 { OneChar(s, r - |a|); OneChar(t, r); }
  }

  lemma FindsSohInside(s: string, from: nat)
    ensures var e := Find(s, [SOH], from); e == -1 || (from <= e < |s| && At(s, [SOH], e))
    ensures var e := Find(s, [SOH], from); forall i | from <= i && (e == -1 || i < e) :: !At(s, [SOH], i)
  {}

  lemma NeedsSoh(s: string, tag: string, i: nat)
    requires i < |s| && s[i] != SOH
    ensures !At(s, Needle(tag), i)
  {}

  /** A tag read from inside a value, when the value holds SOH and the tag; otherwise what follows the value. */
  function ReadInside(value: string, tag: string, otherwise: string): string {
    var p := Find(value, Needle(tag), 0);
    if p == -1 then otherwise else ValueAt(value, p + |Needle(tag)|)
  }

  function ReadFrom(fields: seq<FixField>, tag: string): string {
    if fields == [] then ""
    else if Printed(fields[0].tag) == tag then ValueAt(fields[0].value, 0)
    else ReadInside(fields[0].value, tag, ReadFrom(fields[1..], tag))
  }

  /** What a list of fields says for a tag, whatever bytes the values hold; the leading field's tag is never seen. */
  function ReadTag(fields: seq<FixField>, tag: string): string
    requires fields != []
  {
    ReadInside(fields[0].value, tag, ReadFrom(fields[1..], tag))
  }

  lemma Mismatch(s: string, needle: string, i: nat, j: nat)
    requires i + j < |s| && j < |needle| && s[i + j] != needle[j]
    ensures !At(s, needle, i)
  {}

  /** A needle that starts inside a value ends inside it, since SOH follows the value. */
  lemma NeedleStays(v: string, rest: string, tag: string, i: nat)
    requires IsTag(tag) && i < |v|
    ensures At(v + ([SOH] + rest), Needle(tag), i) <==> At(v, Needle(tag), i)
  {
    var t, needle := v + ([SOH] + rest), Needle(tag);
    if i + |needle| <= |v| {
      assert t[i..i + |needle|] == v[i..i + |needle|];
    } else {
      var k := |v| - i;
      assert needle[k] == if k <= |tag| then tag[k - 1] else '=';
      Mismatch(t, needle, i, k);
    }
  }

  lemma ValueStays(v: string, rest: string, from: nat)
    requires from <= |v|
    ensures ValueAt(v + ([SOH] + rest), from) == ValueAt(v, from)
  {
    hide Find, At;
    var t := v + ([SOH] + rest);
    var e := Find(v, [SOH], from);
    var end := if e == -1 then |v| else e;
    FindsSohInside(v, from);
    forall i | from <= i < end ensures !At(t, [SOH], i) {
      OneChar(t, i);
      OneChar(v, i);
    }
    OneChar(t, end);
    if e >= 0 { OneChar(v, e); }
    FindIs(t, [SOH], from, end);
  }

  /** Reading on from inside a value: a tag the value itself holds, or what the rest of the text gives. */
  lemma ExtractThrough(v: string, rest: string, tag: string)
    requires IsTag(tag)
    ensures Extract(v + ([SOH] + rest), tag) == ReadInside(v, tag, Extract([SOH] + rest, tag))
  {
    hide Find, At, ValueAt;
    var t, p := v + ([SOH] + rest), Find(v, Needle(tag), 0);
    forall i | 0 <= i < |v| ensures At(t, Needle(tag), i) <==> At(v, Needle(tag), i) {
      NeedleStays(v, rest, tag, i);
    }
    if p == -1 {
      ExtractShift(v, [SOH] + rest, tag);
    } else {
      FindBounds(v, Needle(tag));
      FindIs(t, Needle(tag), 0, p);
      ValueStays(v, rest, p + |Needle(tag)|);
    }
  }

  lemma ExtractHere(f: FixField, rest: string)
    ensures Extract([SOH] + FieldText(f) + rest, Printed(f.tag)) == ValueAt(f.value, 0)
  {
    hide Find, Printed, At, ValueAt;
    var p, v := Printed(f.tag), f.value;
    var s := [SOH] + FieldText(f) + rest;
    assert s == Needle(p) + (v + ([SOH] + rest));
    AtFront(Needle(p), v + ([SOH] + rest));
    FindIs(s, Needle(p), 0, 0);
    ValueShift(Needle(p), v + ([SOH] + rest), 0);
    ValueStays(v, rest, 0);
  }

  lemma AtFront(needle: string, rest: string)
    ensures At(needle + rest, needle, 0)
  {}

  lemma ExtractNext(f: FixField, rest: string, tag: string)
    requires IsTag(tag) && Printed(f.tag) != tag
    ensures Extract([SOH] + FieldText(f) + rest, tag) == ReadInside(f.value, tag, Extract([SOH] + rest, tag))
  {
    hide Find, Printed, At, Extract, ReadInside;
    var p, v := Printed(f.tag), f.value;
    var head, after := [SOH] + p + "=", v + ([SOH] + rest);
    var s := head + after;
    assert s == [SOH] + FieldText(f) + rest;
    forall i | 0 <= i < |head| ensures !At(s, Needle(tag), i) {
      if i == 0 {
        OtherTag(p, tag, "=" + after);
        assert s == [SOH] + p + ("=" + after);
      } else {
        assert s[i] == head[i] == if i <= |p| then p[i - 1] else '=';
        NeedsSoh(s, tag, i);
      }
    }
    ExtractShift(head, after, tag);
    ExtractThrough(v, rest, tag);
  }

  /** Two different digit strings, each closed by "=", do not start alike. */
  lemma OtherTag(p: string, tag: string, rest: string)
    requires IsTag(tag) && p != tag && AllDigits(p) && rest != "" && rest[0] == '='
    ensures !At([SOH] + p + rest, Needle(tag), 0)
  {
    var s, n := [SOH] + p + rest, Needle(tag);
    assert s[1 + |p|] == '=' && n[1 + |tag|] == '=';
    if |p| < |tag| {
      assert n[1 + |p|] == tag[|p|];
      Mismatch(s, n, 0, 1 + |p|);
    } else if |p| > |tag| {
      assert s[1 + |tag|] == p[|tag|];
      Mismatch(s, n, 0, 1 + |tag|);
    } else {
      var k :| 0 <= k < |p| && p[k] != tag[k];
      assert s[1 + k] == p[k] && n[1 + k] == tag[k];
      Mismatch(s, n, 0, 1 + k);
    }
  }

  lemma {:induction false} ExtractFromFields(fields: seq<FixField>, tag: string)
    requires IsTag(tag)
    ensures Extract([SOH] + Text(fields), tag) == ReadFrom(fields, tag)
  {
    hide Extract, FieldText, ReadInside;
    if fields == [] {
      ExtractNothing(tag);
    } else {
      if Printed(fields[0].tag) == tag {
        ExtractHere(fields[0], Text(fields[1..]));
      } else {
        ExtractNext(fields[0], Text(fields[1..]), tag);
      }
      assert [SOH] + Text(fields) == [SOH] + FieldText(fields[0]) + Text(fields[1..]);
      ExtractFromFields(fields[1..], tag);
    }
  }

  lemma ExtractNothing(tag: string)
    requires IsTag(tag)
    ensures Extract([SOH] + Text([]), tag) == ""
  {}

  /** `extract` on any built message, whatever bytes its values hold, reads its fields in order, the leading one's tag
      aside: a field with that tag gives its value up to an SOH, and a value holding SOH and the tag gives what
      follows them there. */
  lemma ExtractFindsFirst(fields: seq<FixField>, tag: string)
    requires IsTag(tag)
    ensures Extract(Sealed(fields), tag) == ReadTag(WithCheckSum(fields), tag)
  {
    hide Extract, CheckSum, ReadInside, Printed;
    var all := WithCheckSum(fields);
    var f, rest := all[0], all[1..];
    var head, after := Printed(f.tag) + "=", f.value + ([SOH] + Text(rest));
    var s := Sealed(fields);
    assert s == head + after;
    forall i | 0 <= i < |head| ensures !At(s, Needle(tag), i) {
      assert s[i] == head[i];
      NeedsSoh(s, tag, i);
    }
    ExtractShift(head, after, tag);
    ExtractThrough(f.value, Text(rest), tag);
    ExtractFromFields(rest, tag);
  }

  lemma PlainValue(value: string, tag: string, otherwise: string)
    requires NoSoh(value)
    ensures ReadInside(value, tag, otherwise) == otherwise
    ensures ValueAt(value, 0) == value
  {
    forall i | 0 <= i < |value| ensures !At(value, Needle(tag), i) && !At(value, [SOH], i) {
      assert value[i] in value;
      NeedsSoh(value, tag, i);
      OneChar(value, i);
    }
  }

  lemma {:induction false} PlainReads(fields: seq<FixField>, tag: string)
    requires SohFree(fields)
    ensures ReadFrom(fields, tag) == Lookup(fields, tag)
  {
    hide ReadInside, ValueAt;
    if fields == [] {
    } else {
      assert fields[0] in fields;
      PlainValue(fields[0].value, tag, ReadFrom(fields[1..], tag));
      PlainReads(fields[1..], tag);
    }
  }

  /** When no value holds SOH, that is the value of the first field, after the leading one, with the tag. */
  lemma PlainFieldsRead(fields: seq<FixField>, tag: string)
    requires SohFree(fields)
    ensures ReadTag(WithCheckSum(fields), tag) == Lookup(WithCheckSum(fields)[1..], tag)
  {
    hide ReadInside, CheckSum;
    var all := WithCheckSum(fields);
    CheckSumDigits(Text(fields));
    assert forall g <- all :: g in fields || g == all[|fields|];
    assert SohFree(all) && all[0] in all;
    PlainValue(all[0].value, tag, ReadFrom(all[1..], tag));
    PlainReads(all[1..], tag);
  }

  // ---- From the sender's fields to the receiver's acknowledgements ----

  /** What a list of fields says as an execution report. */
  function ReportOf(fields: seq<FixField>): seq<OrderAck> {
    AckOf((tag: string) => ReadTag(WithCheckSum(fields), tag))
  }

  function ReportsOf(messages: seq<seq<FixField>>): seq<OrderAck> {
    if messages == [] then [] else ReportOf(messages[0]) + ReportsOf(messages[1..])
  }

  lemma AckReadsFields(fields: seq<FixField>)
    ensures Acks([Sealed(fields)]) == ReportOf(fields)
  {
    hide Extract, Sealed, WithCheckSum, ReadTag;
    var msg := Sealed(fields);
    ExtractFindsFirst(fields, "35");
    ExtractFindsFirst(fields, "11");
    ExtractFindsFirst(fields, "37");
    ExtractFindsFirst(fields, "39");
    ExtractFindsFirst(fields, "58");
    assert [msg][..0] == [];
    assert Acks([msg]) == Acks([]) + AckOf((tag: string) => Extract(msg, tag));
  }

  lemma {:induction false} AcksReadFields(messages: seq<seq<FixField>>)
    ensures Acks(SealAll(messages)) == ReportsOf(messages)
  {
    hide ReportOf, Sealed;
    if messages == [] {
      assert SealAll(messages) == [];
    } else {
      AckReadsFields(messages[0]);
      AcksReadFields(messages[1..]);
      assert SealAll(messages) == [Sealed(messages[0])] + SealAll(messages[1..]);
      AcksAppend([Sealed(messages[0])], SealAll(messages[1..]));
    }
  }

  /** However TCP cuts the bytes of any list of messages, the receive loop emits exactly those messages and keeps
      nothing back if and only if all are clean; and then it reports exactly the execution reports among them. */
  lemma SegmentationDoesNotMatter(messages: seq<seq<FixField>>, chunks: seq<string>)
    requires Concat(chunks) == Stream(messages)
    ensures Receive(chunks) == Frames(SealAll(messages), "") <==> forall m <- messages :: Clean(m)
    ensures (forall m <- messages :: Clean(m)) ==> Acks(Receive(chunks).messages) == ReportsOf(messages)
  {
    hide Clean, Frame, Receive, Acks;
    ReceiveIsFrame(chunks);
    FramesExactlyWhenClean(messages);
    AcksReadFields(messages);
  }

  // ---- What reaches the caller ----

  /** What a message without SOH in its values says for a tag: its first field, after the leading one, with the tag. */
  function Told(fields: seq<FixField>, tag: string): string { if fields == [] then "" else Lookup(fields[1..], tag) }

  /** The execution reports among some messages, in order. */
  function Executions(messages: seq<seq<FixField>>): seq<seq<FixField>> {
    if messages == [] then []
    else
      var last := messages[|messages| - 1];
      Executions(messages[..|messages| - 1]) + if Told(last, "35") == "8" then [last] else []
  }

  lemma {:induction false} LookupSkipsLast(fields: seq<FixField>, f: FixField, tag: string)
    requires Printed(f.tag) != tag
    ensures Lookup(fields + [f], tag) == Lookup(fields, tag)
  {
    hide Printed;
    if fields == [] {
    } else {
      assert (fields + [f])[1..] == fields[1..] + [f];
      LookupSkipsLast(fields[1..], f, tag);
    }
  }

  lemma ExtractIsTold(fields: seq<FixField>, tag: string)
    requires SohFree(fields) && IsTag(tag) && tag != "10"
    ensures Extract(Sealed(fields), tag) == Told(fields, tag)
  {
    hide Extract, Sealed, ReadTag, CheckSum, Text, Printed;
    ExtractFindsFirst(fields, tag);
    PlainFieldsRead(fields, tag);
    PrintedTen();
    if fields != [] {
      var sum := FixField(10, CheckSum(Text(fields)));
      assert WithCheckSum(fields)[1..] == fields[1..] + [sum];
      LookupSkipsLast(fields[1..], sum, tag);
    }
  }

  lemma {:induction false} ReportsAreExecutions(messages: seq<seq<FixField>>)
    requires forall m <- messages :: SohFree(m)
    ensures ExecutionReports(SealAll(messages)) == SealAll(Executions(messages))
    ensures forall m <- Executions(messages) :: SohFree(m)
  {
    hide Extract, Sealed, Told, SohFree;
    if messages == [] {
      assert SealAll(messages) == [];
    } else {
      var before, last := messages[..|messages| - 1], messages[|messages| - 1];
      assert last in messages && forall m <- before :: m in messages;
      ReportsAreExecutions(before);
      ExtractIsTold(last, "35");
      assert SealAll(messages) == SealAll(before) + [Sealed(last)];
      assert SealAll(messages)[..|before|] == SealAll(before);
      assert SealAll(Executions(before) + [last]) == SealAll(Executions(before)) + [Sealed(last)];
      assert Executions(before) + [] == Executions(before);
    }
  }

  /** Whatever a receiver acknowledges of a stream of clean messages without SOH in their values, however it is cut:
      one acknowledgement per execution report, in order, with the client's id, the venue's id, the status and the text
      that the report's fields hold. */
  lemma ReportsReachTheCaller(messages: seq<seq<FixField>>, chunks: seq<string>, acks: seq<OrderAck>)
    requires Concat(chunks) == Stream(messages) && forall m <- messages :: Clean(m) && SohFree(m)
    requires Acknowledges(acks, Receive(chunks).messages)
    ensures var reports := Executions(messages);
      && |acks| == |reports|
      && forall i :: 0 <= i < |acks| ==>
           && acks[i].clOrdId == Told(reports[i], "11") && acks[i].ordId == Told(reports[i], "37")
           && acks[i].text == Told(reports[i], "58")
           && acks[i].status == if Told(reports[i], "39") == "" then '8' else Told(reports[i], "39")[0]
  {
    hide Clean, SohFree, Frame, Receive, Told, Extract, Sealed, Stream, Executions;
    ReceiveIsFrame(chunks);
    FramesExactlyWhenClean(messages);
    ReportsAreExecutions(messages);
    var reports := Executions(messages);
    forall i | 0 <= i < |reports|
      ensures Extract(SealAll(reports)[i], "11") == Told(reports[i], "11")
      ensures Extract(SealAll(reports)[i], "37") == Told(reports[i], "37")
      ensures Extract(SealAll(reports)[i], "39") == Told(reports[i], "39")
      ensures Extract(SealAll(reports)[i], "58") == Told(reports[i], "58")
    {
      assert reports[i] in reports;
      ExtractIsTold(reports[i], "11");
      ExtractIsTold(reports[i], "37");
      ExtractIsTold(reports[i], "39");
      ExtractIsTold(reports[i], "58");
    }
  }
}
