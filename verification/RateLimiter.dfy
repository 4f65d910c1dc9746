/** The per-user hourly message limit: a Redis counter that expires an hour after it was created. */
module RateLimiter {

  const HOUR := 3600.0

  datatype Counter = Counter(count: nat, expiry: real)

  datatype Request = Request(user: string, time: real)

  type Store = map<string, Counter>

  predicate Live(store: Store, r: Request) { r.user in store && r.time < store[r.user].expiry }

  /** The counter after INCR, given an expiry when it has just been created. */
  function Incremented(store: Store, r: Request): Counter {
    if Live(store, r) then store[r.user].(count := store[r.user].count + 1) else Counter(1, r.time + HOUR)
  }

  function After(store: Store, r: Request): Store { store[r.user := Incremented(store, r)] }

  predicate Accepts(store: Store, limit: int, r: Request) { Incremented(store, r).count <= limit }

  /** A rejection names the whole minutes left, as the message to the user does. */
  datatype Verdict = Accepted | TooMany(minutes: int)

  /** `remaining // 60`. */
  function Minutes(seconds: int): int { seconds / 60 }

  class Limiter {
    const limit: int
    var store: Store

    /** A stored counter has been incremented at least once. */
    ghost predicate Valid()
      reads this
    {
      forall u <- store :: store[u].count >= 1
    }

    constructor (limit: int)
      ensures Valid() && this.limit == limit && store == map[]
    {
      this.limit, store := limit, map[];
    }

    /** `ttl` is the whole number of seconds the server answers for the time a key has left. */
    method CheckRateLimit(user: string, now: real, ttl: real -> int) returns (v: Verdict)
      requires Valid()
      modifies this
      ensures Valid() && store == After(old(store), Request(user, now))
      ensures v == if Accepts(old(store), limit, Request(user, now)) then Accepted
                   else TooMany(Minutes(ttl(store[user].expiry - now)))
    {
      if user in store && now >= store[user].expiry { store := store - {user}; }
      var count := if user in store then store[user].count + 1 else 1;
      if count == 1 {
        store := store[user := Counter(1, now + HOUR)];
      } else {
        store := store[user := store[user].(count := count)];
      }
      if count > limit {
        var remaining := ttl(store[user].expiry - now);
        return TooMany(remaining / 60);
      }
      v := Accepted;
    }
  }

  // ---- Runs ----

  function Run(requests: seq<Request>): Store {
    if requests == [] then map[] else After(Run(requests[..|requests| - 1]), requests[|requests| - 1])
  }

  predicate Ordered(requests: seq<Request>) {
    forall i :: 0 <= i < |requests| - 1 ==> requests[i].time <= requests[i + 1].time
  }

  /** Messages of one user accepted in the half-open hour that starts at `a`. */
  function AcceptedFrom(requests: seq<Request>, limit: int, user: string, a: real): nat {
    if requests == [] then 0
    else
      var before, r := requests[..|requests| - 1], requests[|requests| - 1];
      AcceptedFrom(before, limit, user, a) +
        if r.user == user && a <= r.time < a + HOUR && Accepts(Run(before), limit, r) then 1 else 0
  }

  function Min(x: int, y: int): int { if x < y then x else y }
  function Max(x: int, y: int): int { if x < y then y else x }

  /** The most one hour can let through: a window's tail without its opening message, then a whole window. */
  function HourlyMost(limit: int): int { if limit >= 1 then 2 * limit - 1 else 0 }

  /** A call inside a live window, accepted or not, leaves the window's end where it was. */
  lemma CallsNeverExtendAWindow(store: Store, r: Request)
    ensures Live(store, r) ==> After(store, r)[r.user].expiry == store[r.user].expiry
    ensures !Live(store, r) ==> After(store, r)[r.user] == Counter(1, r.time + HOUR)
    ensures forall u <- store :: u != r.user ==> After(store, r)[u] == store[u]
  {}

  /** What a run guarantees about the hour from `a`, in terms of the user's current window. */
  predicate Bounded(requests: seq<Request>, limit: int, user: string, a: real) {
    var n, cap := AcceptedFrom(requests, limit, user, a), Max(0, limit);
    if user !in Run(requests) then n == 0
    else
      var c := Run(requests)[user];
      var start := c.expiry - HOUR;
      && c.count >= 1
      && (a >= c.expiry ==> n == 0)
      && (a > start ==> n <= Max(0, Min(c.count, cap) - 1))
      && (a == start ==> n == Min(c.count, cap))
      && (a <= start < a + HOUR ==> n <= Max(0, cap - 1) + Min(c.count, cap))
      && n <= HourlyMost(limit)
  }

  /** A window opens no later than the latest request. */
  lemma {:induction false} WindowIsOpen(requests: seq<Request>, user: string)
    requires Ordered(requests) && user in Run(requests)
    ensures requests != [] && Run(requests)[user].expiry - HOUR <= requests[|requests| - 1].time
  {
    var before, r := requests[..|requests| - 1], requests[|requests| - 1];
    if user in Run(before) {
      WindowIsOpen(before, user);
    }
  }

  lemma BoundedAtFirst(limit: int, user: string, a: real)
    ensures Bounded([], limit, user, a)
  {}

  lemma BoundedStep(before: seq<Request>, r: Request, limit: int, user: string, a: real)
    requires Bounded(before, limit, user, a)
    requires user in Run(before) ==> Run(before)[user].expiry - HOUR <= r.time
    ensures Bounded(before + [r], limit, user, a)
  {
    hide Run, AcceptedFrom;
    PushRequest(before, r, limit, user, a);
  }

  lemma PushRequest(requests: seq<Request>, r: Request, limit: int, user: string, a: real)
    ensures Run(requests + [r]) == After(Run(requests), r)
    ensures AcceptedFrom(requests + [r], limit, user, a) == AcceptedFrom(requests, limit, user, a) +
      if r.user == user && a <= r.time < a + HOUR && Accepts(Run(requests), limit, r) then 1 else 0
  {}

  lemma {:induction false} RunIsBounded(requests: seq<Request>, limit: int, user: string, a: real)
    requires Ordered(requests)
    ensures Bounded(requests, limit, user, a)
  {
    hide Bounded;
    if requests == [] {
      BoundedAtFirst(limit, user, a);
    } else {
      var before, r := requests[..|requests| - 1], requests[|requests| - 1];
      RunIsBounded(before, limit, user, a);
      assert requests == before + [r];
      if user in Run(before) { WindowIsOpen(before, user); }
      BoundedStep(before, r, limit, user, a);
    }
  }

  /** In any half-open hour a user gets at most `2 * limit - 1` messages, for every nondecreasing sequence of
      request times of any users. */
  lemma HourlyBound(requests: seq<Request>, limit: int, user: string, a: real)
    requires Ordered(requests)
    ensures AcceptedFrom(requests, limit, user, a) <= HourlyMost(limit)
  {
    RunIsBounded(requests, limit, user, a);
  }

  /** A window lets through exactly the first `limit` of its calls. */
  lemma WindowLetsThroughLimit(requests: seq<Request>, limit: int, user: string)
    requires Ordered(requests) && user in Run(requests)
    ensures var c := Run(requests)[user];
      AcceptedFrom(requests, limit, user, c.expiry - HOUR) == Min(c.count, Max(0, limit))
  {
    hide Run, AcceptedFrom;
    RunIsBounded(requests, limit, user, Run(requests)[user].expiry - HOUR);
  }

  // ---- When to try again ----

  /** The time left in the user's window after a call. */
  function TimeLeft(requests: seq<Request>, r: Request): real { After(Run(requests), r)[r.user].expiry - r.time }

  /** Calls made while a window is open leave its end alone and only raise its count. */
  lemma {:induction false} WindowHolds(requests: seq<Request>, between: seq<Request>, user: string)
    requires user in Run(requests)
    requires forall b <- between :: b.user == user ==> b.time < Run(requests)[user].expiry
    ensures var all := Run(requests + between);
      user in all && all[user].expiry == Run(requests)[user].expiry && all[user].count >= Run(requests)[user].count
  {
    if between == [] {
      assert requests + between == requests;
    } else {
      var before, b := between[..|between| - 1], between[|between| - 1];
      WindowHolds(requests, before, user);
      assert b in between;
      assert (requests + between)[..|requests + between| - 1] == requests + before;
    }
  }

  /** After a rejection, whatever calls are made while the window is open, the user's next call is accepted exactly
      when it comes no earlier than the window's end, provided the limit accepts anything at all. */
  lemma RetryExactly(requests: seq<Request>, limit: int, r: Request, between: seq<Request>, later: real)
    requires !Accepts(Run(requests), limit, r)
    requires forall b <- between :: b.user == r.user ==> b.time < r.time + TimeLeft(requests, r)
    ensures TimeLeft(requests, r) > 0.0
    ensures Accepts(Run(requests + [r] + between), limit, Request(r.user, later))
       <==> limit >= 1 && later >= r.time + TimeLeft(requests, r)
  {
    assert (requests + [r])[..|requests|] == requests;
    WindowHolds(requests + [r], between, r.user);
  }

  /** Waiting the minutes a rejection reports is enough exactly when they are no shorter than the time left: for a
      reply of the seconds left, exactly when these are a multiple of 60. */
  lemma ReportedMinutesSuffice(requests: seq<Request>, limit: int, r: Request, between: seq<Request>,
                               ttl: real -> int)
    requires !Accepts(Run(requests), limit, r)
    requires forall b <- between :: b.user == r.user ==> b.time < r.time + TimeLeft(requests, r)
    ensures var left, minutes := TimeLeft(requests, r), Minutes(ttl(TimeLeft(requests, r)));
      var store, retry := Run(requests + [r] + between), Request(r.user, r.time + 60.0 * minutes as real);
      && (Accepts(store, limit, retry) <==> limit >= 1 && left <= 60.0 * minutes as real)
      && (ttl(left) as real == left ==> (Accepts(store, limit, retry) <==> limit >= 1 && ttl(left) % 60 == 0))
  {
    hide Run, Accepts, After;
    var left := TimeLeft(requests, r);
    var minutes := Minutes(ttl(left));
    RetryExactly(requests, limit, r, between, r.time + 60.0 * minutes as real);
    assert ttl(left) == 60 * minutes + ttl(left) % 60;
    assert 60.0 * minutes as real == (60 * minutes) as real;
  }

  /** With a limit of 1 and calls at 0 and 3510, ninety seconds are left and one minute is reported; the call a minute
      later is still rejected. */
  lemma ReportedMinuteTooShort(user: string, ttl: real -> int)
    requires ttl(90.0) == 90
    ensures var requests, r := [Request(user, 0.0)], Request(user, 3510.0);
      && !Accepts(Run(requests), 1, r)
      && Minutes(ttl(TimeLeft(requests, r))) == 1
      && !Accepts(After(Run(requests), r), 1, Request(user, 3570.0))
  {
    FirstOpens(user, 1);
  }

  // ---- The bound is attained ----

  function Burst(user: string, time: real, n: nat): seq<Request> {
    if n == 0 then [] else Burst(user, time, n - 1) + [Request(user, time)]
  }

  lemma InWindowCall(requests: seq<Request>, limit: int, user: string, time: real, a: real)
    requires Live(Run(requests), Request(user, time)) && a <= time < a + HOUR
    ensures var all, c := requests + [Request(user, time)], Run(requests)[user];
      && user in Run(all) && Run(all)[user] == Counter(c.count + 1, c.expiry)
      && AcceptedFrom(all, limit, user, a) == AcceptedFrom(requests, limit, user, a) + if c.count < limit then 1 else 0
  {}

  lemma BurstBack(requests: seq<Request>, user: string, time: real, n: nat)
    ensures requests + Burst(user, time, 0) == requests
    ensures n > 0 ==> requests + Burst(user, time, n) == (requests + Burst(user, time, n - 1)) + [Request(user, time)]
  {}

  /** Of `n` more calls in a live window, those that still fit under the limit are accepted. */
  lemma {:induction false} BurstInWindow(requests: seq<Request>, limit: int, user: string, time: real, n: nat, a: real)
    requires Live(Run(requests), Request(user, time)) && a <= time < a + HOUR
    ensures var all, c := requests + Burst(user, time, n), Run(requests)[user];
      && user in Run(all) && Run(all)[user] == Counter(c.count + n, c.expiry)
      && AcceptedFrom(all, limit, user, a)
         == AcceptedFrom(requests, limit, user, a) + Max(0, Min(limit, c.count + n) - c.count)
  {
    hide Run, AcceptedFrom, Burst;
    BurstBack(requests, user, time, n);
    if n == 0 {
    } else {
      BurstInWindow(requests, limit, user, time, n - 1, a);
      InWindowCall(requests + Burst(user, time, n - 1), limit, user, time, a);
    }
  }

  lemma {:induction false} BurstOrdered(requests: seq<Request>, user: string, time: real, n: nat)
    requires Ordered(requests) && forall r <- requests :: r.time <= time
    ensures Ordered(requests + Burst(user, time, n))
    ensures forall r <- requests + Burst(user, time, n) :: r.time <= time
  {
    if n == 0 {
      assert requests + [] == requests;
    } else {
      BurstOrdered(requests, user, time, n - 1);
      assert requests + Burst(user, time, n) == requests + Burst(user, time, n - 1) + [Request(user, time)];
    }
  }

  /** One message at 0, `limit - 1` just before the window ends, `limit` as the next one opens. */
  function Worst(user: string, limit: nat): seq<Request>
    requires limit >= 1
  {
    [Request(user, 0.0)] + Burst(user, 3599.0, limit - 1) + Burst(user, 3600.0, limit)
  }

  /** The bound cannot be improved: this schedule gets `2 * limit - 1` messages through in the hour from 1. */
  lemma HourlyBoundIsAttained(user: string, limit: nat)
    requires limit >= 1
    ensures Ordered(Worst(user, limit))
    ensures AcceptedFrom(Worst(user, limit), limit, user, 1.0) == HourlyMost(limit)
  {
    hide Burst, Run, AcceptedFrom, Ordered;
    var first := [Request(user, 0.0)];
    FirstOpens(user, limit);
    var one := first + Burst(user, 3599.0, limit - 1);
    BurstInWindow(first, limit, user, 3599.0, limit - 1, 1.0);
    BurstOrdered(first, user, 3599.0, limit - 1);
    var two := one + [Request(user, 3600.0)];
    PushRequest(one, Request(user, 3600.0), limit, user, 1.0);
    BurstInWindow(two, limit, user, 3600.0, limit - 1, 1.0);
    BurstOrdered(one, user, 3600.0, limit);
    BurstFront(user, 3600.0, limit);
    assert two + Burst(user, 3600.0, limit - 1) == Worst(user, limit);
  }

  lemma FirstOpens(user: string, limit: nat)
    requires limit >= 1
    ensures var first := [Request(user, 0.0)];
      Ordered(first) && Run(first) == map[user := Counter(1, 3600.0)] && AcceptedFrom(first, limit, user, 1.0) == 0
  {}

  lemma {:induction false} BurstFront(user: string, time: real, n: nat)
    requires n >= 1
    ensures Burst(user, time, n) == [Request(user, time)] + Burst(user, time, n - 1)
  {
    if n == 1 {
    } else {
      BurstFront(user, time, n - 1);
    }
  }
}
