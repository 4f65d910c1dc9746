/** Exactly which gaps the parser reports over a run of datagrams. */
module GapLaws {
  import opened Bytes
  import opened Collections
  import opened Umdf
  import opened UmdfParser

  /** The sequence numbers a run carries, in order; datagrams too short for a header carry none. */
  function Numbers(datagrams: seq<seq<byte>>): seq<nat> {
    if datagrams == [] then []
    else
      var d := datagrams[|datagrams| - 1];
      Numbers(datagrams[..|datagrams| - 1]) + if |d| < 13 then [] else [SeqNum(d)]
  }

  /** The gap callback between two numbers in a row: none after 0, and none when the second follows the first in 32
      bits. */
  function Between(p: nat, q: nat): seq<Event> {
    if p == 0 || q == (p + 1) % 0x1_0000_0000 then [] else [Gap((p + 1) % 0x1_0000_0000, q)]
  }

  function Reported(numbers: seq<nat>): seq<Event> {
    if |numbers| < 2 then []
    else Reported(numbers[..|numbers| - 1]) + Between(numbers[|numbers| - 2], numbers[|numbers| - 1])
  }

  function GapReports(): Event -> seq<Event> { (e: Event) => if e.Gap? then [e] else [] }

  function LastNumber(numbers: seq<nat>): nat { if numbers == [] then 0 else numbers[|numbers| - 1] }

  lemma {:induction false} PayloadHasNoReports(events: seq<Event>)
    requires forall e <- events :: !e.Gap?
    ensures FlatMap(events, GapReports()) == []
  {
    if events == [] {
    } else {
      PayloadHasNoReports(events[..|events| - 1]);
    }
  }

  lemma StepReports(last: nat, d: seq<byte>)
    requires last < 0x1_0000_0000
    ensures FlatMap(GapEvents(last, d) + Payload(d), GapReports())
         == if |d| < 13 then [] else Between(last, SeqNum(d))
  {
    hide SeqNum, Contents, BigEndian;
    var gaps := GapEvents(last, d);
    FlatMapAppend(gaps, Payload(d), GapReports());
    NoGapInPayload(d);
    PayloadHasNoReports(Payload(d));
    if gaps != [] {
      assert gaps == [gaps[0]];
      FlatMapOne(gaps[0], GapReports());
    }
  }

  lemma NoGapInPayload(d: seq<byte>)
    ensures forall e <- Payload(d) :: !e.Gap?
  {
    hide MessageEvents, Cut, BigEndian;
    MessagesReportNoGap(Contents(d));
  }

  /** Over every run of datagrams, in any order and with numbers repeated, going down or wrapping around, the gaps
      reported are exactly one for each two numbers in a row of which the second does not follow the first, with the
      number expected and the one received. */
  lemma {:induction false} GapsAreExactly(datagrams: seq<seq<byte>>)
    ensures FlatMap(RunEvents(0, datagrams), GapReports()) == Reported(Numbers(datagrams))
    ensures SeqAfter(0, datagrams) == LastNumber(Numbers(datagrams)) < 0x1_0000_0000
  {
    hide Payload, GapEvents, SeqNum, Between, FlatMap, Reported;
    if datagrams == [] {
      NoRun();
    } else {
      var before, d := datagrams[..|datagrams| - 1], datagrams[|datagrams| - 1];
      var fired := GapEvents(SeqAfter(0, before), d) + Payload(d);
      GapsAreExactly(before);
      FlatMapAppend(RunEvents(0, before), fired, GapReports());
      StepReports(SeqAfter(0, before), d);
      ReportedNext(Numbers(before), d);
    }
  }

  lemma NoRun()
    ensures RunEvents(0, []) == [] && FlatMap<Event, Event>([], GapReports()) == [] && Reported([]) == []
  {}

  lemma ReportedNext(numbers: seq<nat>, d: seq<byte>)
    ensures |d| >= 13 ==> Reported(numbers + [SeqNum(d)]) == Reported(numbers) + Between(LastNumber(numbers), SeqNum(d))
    ensures Reported(numbers + []) == Reported(numbers) + []
  {
    hide SeqNum, Between;
    assert numbers + [] == numbers;
    if |d| >= 13 {
      ReportedPush(numbers, SeqNum(d));
    }
  }

  lemma ReportedPush(numbers: seq<nat>, q: nat)
    ensures Reported(numbers + [q]) == Reported(numbers) + Between(LastNumber(numbers), q)
  {
    assert (numbers + [q])[..|numbers|] == numbers;
  }

  predicate Follows(p: nat, q: nat) { p == 0 || q == (p + 1) % 0x1_0000_0000 }

  ghost predicate AllFollow(numbers: seq<nat>) {
    forall i :: 0 <= i < |numbers| - 1 ==> Follows(numbers[i], numbers[i + 1])
  }

  lemma AllFollowPush(numbers: seq<nat>, q: nat)
    ensures AllFollow(numbers + [q]) <==> AllFollow(numbers) && (numbers == [] || Follows(LastNumber(numbers), q))
  {
    hide Follows;
    var all := numbers + [q];
    assert forall i :: 0 <= i < |numbers| ==> all[i] == numbers[i];
    if AllFollow(all) && numbers != [] {
      assert Follows(all[|numbers| - 1], all[|numbers| - 1 + 1]);
    }
  }

  lemma NothingBetween(p: nat, q: nat)
    ensures Between(p, q) == [] <==> Follows(p, q)
  {}

  lemma {:induction false} NothingReported(numbers: seq<nat>)
    ensures Reported(numbers) == [] <==> AllFollow(numbers)
  {
    hide Between, Follows;
    if numbers == [] {
    } else {
      var before, q := numbers[..|numbers| - 1], numbers[|numbers| - 1];
      assert numbers == before + [q];
      NothingReported(before);
      AllFollowPush(before, q);
      ReportedPush(before, q);
      NothingBetween(LastNumber(before), q);
      NothingBetween(0, q);
      assert Follows(0, q) by { FollowsStart(q); }
    }
  }

  lemma FollowsStart(q: nat)
    ensures Follows(0, q)
  {}

  /** A run reports no gap if and only if every number follows the one before it, 0 aside. */
  lemma NoGapExactly(datagrams: seq<seq<byte>>)
    ensures (forall e <- RunEvents(0, datagrams) :: !e.Gap?) <==> AllFollow(Numbers(datagrams))
  {
    hide RunEvents, Numbers, Follows, AllFollow;
    GapsAreExactly(datagrams);
    NothingReported(Numbers(datagrams));
    ReportsFound(RunEvents(0, datagrams));
  }

  lemma {:induction false} ReportsFound(events: seq<Event>)
    ensures FlatMap(events, GapReports()) == [] <==> forall e <- events :: !e.Gap?
  {
    if events == [] {
    } else {
      ReportsFound(events[..|events| - 1]);
      assert events == events[..|events| - 1] + [events[|events| - 1]];
    }
  }

  /** Two packets in order report nothing: the first is just after the start, the second follows it. */
  lemma InOrderReportsNothing(a: seq<byte>, b: seq<byte>)
    requires |a| >= 13 && |b| >= 13 && SeqNum(a) == 1 && SeqNum(b) == 2
    ensures RunEvents(0, [a, b]) == Payload(a) + Payload(b)
  {
    hide Payload, SeqNum;
    assert [a, b][..1] == [a] && [a][..0] == [];
    assert SeqAfter(0, [a]) == 1;
    assert RunEvents(0, [a]) == [] + ([] + Payload(a));
  }

  // ---- What the reports add up to ----

  lemma MissedBetween(p: nat, q: nat) returns (k: int)
    requires 0 < p < 0x1_0000_0000 && q < 0x1_0000_0000
    ensures IntSum(FlatMap(Between(p, q), Missed())) == q - p - 1 + 0x1_0000_0000 * k
  {
    var gaps := Between(p, q);
    if gaps == [] {
      k := if p + 1 == 0x1_0000_0000 then 1 else 0;
    } else {
      var e := (p + 1) % 0x1_0000_0000;
      assert gaps == [Gap(e, q)];
      FlatMapOne(Gap(e, q), Missed());
      IntSumOne((q - e) % 0x1_0000_0000);
      k := (if q < e then 1 else 0) + if p + 1 == 0x1_0000_0000 then 1 else 0;
    }
  }

  lemma {:induction false} ReportedMissed(numbers: seq<nat>) returns (k: int)
    requires numbers != [] && forall n <- numbers :: 0 < n < 0x1_0000_0000
    ensures IntSum(FlatMap(Reported(numbers), Missed()))
         == numbers[|numbers| - 1] - numbers[0] + 1 - |numbers| + 0x1_0000_0000 * k
  {
    hide Between;
    if |numbers| == 1 {
      assert FlatMap<Event, int>([], Missed()) == [];
      k := 0;
    } else {
      var before, p, q := numbers[..|numbers| - 1], numbers[|numbers| - 2], numbers[|numbers| - 1];
      assert p in numbers && q in numbers && forall n <- before :: n in numbers;
      var k0 := ReportedMissed(before);
      var k1 := MissedBetween(p, q);
      FlatMapAppend(Reported(before), Between(p, q), Missed());
      IntSumAppend(FlatMap(Reported(before), Missed()), FlatMap(Between(p, q), Missed()));
      k := k0 + k1;
    }
  }

  lemma {:induction false} MissedByReports(events: seq<Event>)
    ensures FlatMap(events, Missed()) == FlatMap(FlatMap(events, GapReports()), Missed())
  {
    if events == [] {
    } else {
      var before, e := events[..|events| - 1], events[|events| - 1];
      MissedByReports(before);
      FlatMapAppend(FlatMap(before, GapReports()), GapReports()(e), Missed());
      if e.Gap? { FlatMapOne(e, Missed()); }
    }
  }

  /** For every run of nonzero numbers, in any order, the missed counts reported add up to the span less the packets
      received, up to a multiple of 2^32. */
  lemma MissedCountsAddUp(datagrams: seq<seq<byte>>) returns (k: int)
    requires Numbers(datagrams) != [] && 0 !in Numbers(datagrams)
    ensures var numbers := Numbers(datagrams);
      IntSum(FlatMap(RunEvents(0, datagrams), Missed()))
      == numbers[|numbers| - 1] - numbers[0] + 1 - |numbers| + 0x1_0000_0000 * k
  {
    hide RunEvents, Reported, Missed;
    GapsAreExactly(datagrams);
    NumbersFit(datagrams);
    MissedByReports(RunEvents(0, datagrams));
    k := ReportedMissed(Numbers(datagrams));
  }

  lemma {:induction false} NumbersFit(datagrams: seq<seq<byte>>)
    ensures forall n <- Numbers(datagrams) :: n < 0x1_0000_0000
  {
    if datagrams == [] {
    } else {
      NumbersFit(datagrams[..|datagrams| - 1]);
    }
  }
}
