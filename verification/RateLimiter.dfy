/** The gateway's rate limiter: a counter per key that Redis drops one window after its first request.
    The bounds below are for every sequence of request times on one key. */
module RateLimiter {
  import opened Tables
  import opened Contracts

  datatype Counter = Counter(count: nat, expiresAt: Instant)

  datatype Policy = Policy(limit: nat, window: int)

  predicate ValidPolicy(p: Policy) {
    p.limit >= 1 && p.window >= SECOND
  }

  /** INCR, and EXPIRE when the counter is new; a counter past its expiry no longer exists. */
  function Hit(stored: Option<Counter>, window: int, now: Instant): Counter {
    if stored.Some? && now < stored.value.expiresAt then stored.value.(count := stored.value.count + 1)
    else Counter(1, now + window)
  }

  // ---- what a sequence of requests does to one key ----

  ghost predicate Ordered(times: seq<Instant>) {
    forall i, j :: 0 <= i < j < |times| ==> times[i] <= times[j]
  }

  /** The counter after all the requests. */
  function Run(times: seq<Instant>, window: int): Option<Counter> {
    if |times| == 0 then None
    else Some(Hit(Run(times[..|times| - 1], window), window, times[|times| - 1]))
  }

  /** The counter that request `i` leaves behind. */
  function After(times: seq<Instant>, window: int, i: nat): Counter
    requires i < |times|
  {
    Hit(Run(times[..i], window), window, times[i])
  }

  predicate Allowed(times: seq<Instant>, p: Policy, i: nat)
    requires i < |times|
  {
    After(times, p.window, i).count <= p.limit
  }

  /** When the lifetime of the key that request `i` fell into began. */
  function Birth(times: seq<Instant>, window: int, i: nat): Instant
    requires i < |times|
  {
    After(times, window, i).expiresAt - window
  }

  lemma PrefixAgrees(times: seq<Instant>, window: int, n: nat, i: nat)
    requires i < n <= |times|
    ensures After(times[..n], window, i) == After(times, window, i)
  {
    assert times[..n][..i] == times[..i];
  }

  lemma RunIsAfter(times: seq<Instant>, window: int)
    requires |times| > 0
    ensures Run(times, window) == Some(After(times, window, |times| - 1))
  {
  }

  /** How many of the first `n` requests fell into the lifetime that began at `birth`. */
  function InLife(times: seq<Instant>, window: int, birth: Instant, n: nat): (count: nat)
    requires n <= |times|
    ensures count <= n
  {
    if n == 0 then 0
    else InLife(times, window, birth, n - 1) + (if Birth(times, window, n - 1) == birth then 1 else 0)
  }

  /** How many of them were allowed. */
  function AllowedInLife(times: seq<Instant>, p: Policy, birth: Instant, n: nat): nat
    requires n <= |times|
  {
    if n == 0 then 0
    else
      AllowedInLife(times, p, birth, n - 1)
      + (if Birth(times, p.window, n - 1) == birth && Allowed(times, p, n - 1) then 1 else 0)
  }

  /** Every lifetime so far began no later than the current one, and the counter counts its requests. */
  lemma {:induction false} CounterCounts(times: seq<Instant>, window: int, n: nat)
    requires Ordered(times) && window > 0 && 0 < n <= |times|
    ensures var c := After(times, window, n - 1);
            && c.expiresAt - window <= times[n - 1] < c.expiresAt
            && c.count == InLife(times, window, c.expiresAt - window, n)
    ensures forall birth :: birth > After(times, window, n - 1).expiresAt - window ==>
              InLife(times, window, birth, n) == 0
  {
    var c := After(times, window, n - 1);
    if n > 1 {
      CounterCounts(times, window, n - 1);
      RunIsAfter(times[..n - 1], window);
      PrefixAgrees(times, window, n - 1, n - 2);
    }
  }

  /** A lifetime allows its first `limit` requests and no others. */
  lemma {:induction false} LifeIsBounded(times: seq<Instant>, p: Policy, birth: Instant, n: nat)
    requires Ordered(times) && ValidPolicy(p) && n <= |times|
    ensures var requests := InLife(times, p.window, birth, n);
            AllowedInLife(times, p, birth, n) == if requests <= p.limit then requests else p.limit
  {
    if n == 0 {
    } else {
      LifeIsBounded(times, p, birth, n - 1);
      CounterCounts(times, p.window, n);
    }
  }

  // ---- any interval of one window ----

  predicate Within(times: seq<Instant>, p: Policy, a: Instant, i: nat)
    requires i < |times|
  {
    a <= times[i] < a + p.window
  }

  /** How many of the first `n` requests were allowed in the window that starts at `a`. */
  function AllowedWithin(times: seq<Instant>, p: Policy, a: Instant, n: nat): nat
    requires n <= |times|
  {
    if n == 0 then 0
    else AllowedWithin(times, p, a, n - 1) + (if Within(times, p, a, n - 1) && Allowed(times, p, n - 1) then 1 else 0)
  }

  function Capped(count: nat, limit: nat): nat {
    if count <= limit then count else limit
  }

  /** The most that can have been allowed in the interval so far, by when the current lifetime began:
      before the interval (its first request lies outside), inside it, or after it. */
  function Most(c: Counter, p: Policy, a: Instant): int {
    var birth := c.expiresAt - p.window;
    if birth < a then Capped(c.count, p.limit) - 1
    else if birth < a + p.window then p.limit - 1 + Capped(c.count, p.limit)
    else 2 * p.limit - 1
  }

  lemma {:induction false} NothingBefore(times: seq<Instant>, p: Policy, a: Instant, n: nat)
    requires Ordered(times) && n <= |times| && (n > 0 ==> times[n - 1] < a)
    ensures AllowedWithin(times, p, a, n) == 0
  {
    if n == 0 {
    } else {
      NothingBefore(times, p, a, n - 1);
    }
  }

  lemma {:induction false} WindowIsBounded(times: seq<Instant>, p: Policy, a: Instant, n: nat)
    requires Ordered(times) && ValidPolicy(p) && 0 < n <= |times|
    ensures AllowedWithin(times, p, a, n) <= Most(After(times, p.window, n - 1), p, a)
  {
    var c := After(times, p.window, n - 1);
    CounterCounts(times, p.window, n);
    if n > 1 {
      WindowIsBounded(times, p, a, n - 1);
      CounterCounts(times, p.window, n - 1);
      RunIsAfter(times[..n - 1], p.window);
      PrefixAgrees(times, p.window, n - 1, n - 2);
      if times[n - 2] < a {
        NothingBefore(times, p, a, n - 1);
      }
    }
  }

  /** In any half-open interval of one window at most 2 * limit - 1 requests are allowed: the interval
      meets at most two lifetimes, and cannot hold the first request of both. */
  lemma AtMostTwice(times: seq<Instant>, p: Policy, a: Instant)
    requires Ordered(times) && ValidPolicy(p)
    ensures AllowedWithin(times, p, a, |times|) <= 2 * p.limit - 1
  {
    if |times| > 0 {
      WindowIsBounded(times, p, a, |times|);
    }
  }

  /** A burst just before a lifetime ends and another just after it. */
  function Burst(p: Policy): (times: seq<Instant>)
    requires ValidPolicy(p)
    ensures |times| == 2 * p.limit
  {
    seq(2 * p.limit, i => if i == 0 then 0 else if i < p.limit then p.window - 1 else p.window)
  }

  lemma {:induction false} BurstCounters(p: Policy, i: nat)
    requires ValidPolicy(p) && i < 2 * p.limit
    ensures After(Burst(p), p.window, i)
         == if i < p.limit then Counter(i + 1, p.window) else Counter(i - p.limit + 1, 2 * p.window)
  {
    if i == 0 {
    } else {
      BurstCounters(p, i - 1);
      RunIsAfter(Burst(p)[..i], p.window);
      PrefixAgrees(Burst(p), p.window, i, i - 1);
    }
  }

  lemma {:induction false} BurstAllowed(p: Policy, n: nat)
    requires ValidPolicy(p) && 0 < n <= 2 * p.limit
    ensures AllowedWithin(Burst(p), p, 1, n) == n - 1
  {
    BurstCounters(p, n - 1);
    if n > 1 {
      BurstAllowed(p, n - 1);
    } else {
      assert AllowedWithin(Burst(p), p, 1, 0) == 0;
    }
  }

  /** The bound is tight for every policy. */
  lemma AtMostTwiceIsTight(p: Policy)
    requires ValidPolicy(p)
    ensures exists times, a :: Ordered(times) && AllowedWithin(times, p, a, |times|) == 2 * p.limit - 1
  {
    BurstAllowed(p, 2 * p.limit);
    assert Ordered(Burst(p)) && AllowedWithin(Burst(p), p, 1, |Burst(p)|) == 2 * p.limit - 1;
  }

  // ---- requests with their policies ----

  /** Every call brings its own limit and window. */
  datatype Request = Request(at: Instant, policy: Policy)

  function CounterAfter(requests: seq<Request>): Option<Counter> {
    if |requests| == 0 then None
    else
      var last := requests[|requests| - 1];
      Some(Hit(CounterAfter(requests[..|requests| - 1]), last.policy.window, last.at))
  }

  predicate RequestAllowed(requests: seq<Request>, i: nat)
    requires i < |requests|
  {
    Hit(CounterAfter(requests[..i]), requests[i].policy.window, requests[i].at).count <= requests[i].policy.limit
  }

  function Times(requests: seq<Request>): (times: seq<Instant>)
    ensures |times| == |requests| && forall i :: 0 <= i < |requests| ==> times[i] == requests[i].at
  {
    seq(|requests|, i requires 0 <= i < |requests| => requests[i].at)
  }

  predicate Uniform(requests: seq<Request>, p: Policy) {
    forall i :: 0 <= i < |requests| ==> requests[i].policy == p
  }

  lemma {:induction false} UniformAfter(requests: seq<Request>, p: Policy)
    requires Uniform(requests, p)
    ensures CounterAfter(requests) == Run(Times(requests), p.window)
  {
    if |requests| == 0 {
    } else {
      var init := requests[..|requests| - 1];
      UniformAfter(init, p);
      assert Times(init) == Times(requests)[..|requests| - 1];
    }
  }

  /** A key that is always called with one policy, as the routes call it, is limited by that policy: the
      bounds above are about exactly its requests. */
  lemma UniformKey(requests: seq<Request>, p: Policy, i: nat)
    requires Uniform(requests, p) && i < |requests|
    ensures RequestAllowed(requests, i) <==> Allowed(Times(requests), p, i)
  {
    UniformAfter(requests[..i], p);
    assert Times(requests[..i]) == Times(requests)[..i];
  }

  // ---- the limiter over all keys ----

  function Stored(counters: map<string, Counter>, key: string): Option<Counter> {
    if key in counters then Some(counters[key]) else None
  }

  /** A key's stored counter is what its requests so far left behind, and they came in time order. */
  ghost predicate Agrees(requests: seq<Request>, stored: Option<Counter>, now: Instant) {
    && Ordered(Times(requests))
    && (|requests| > 0 ==> requests[|requests| - 1].at <= now)
    && CounterAfter(requests) == stored
  }

  lemma AgreesNext(requests: seq<Request>, stored: Option<Counter>, now: Instant, p: Policy)
    requires Agrees(requests, stored, now)
    ensures Agrees(requests + [Request(now, p)], Some(Hit(stored, p.window, now)), now)
    ensures RequestAllowed(requests + [Request(now, p)], |requests|) <==> Hit(stored, p.window, now).count <= p.limit
  {
    var longer := requests + [Request(now, p)];
    assert longer[..|requests|] == requests;
    forall i, j | 0 <= i < j < |longer| ensures longer[i].at <= longer[j].at {
      assert |requests| > 0 && Times(requests)[i] <= Times(requests)[|requests| - 1];
    }
  }

  class RedisRateLimiter {
    var counters: map<string, Counter>
    var now: Instant
    ghost var log: Table<string, Request>

    ghost predicate Valid()
      reads this
    {
      forall key :: Agrees(RowsOf(log, key), Stored(counters, key), now)
    }

    constructor (now: Instant)
      ensures Valid() && log == [] && this.now == now
    {
      this.now := now;
      counters, log := map[], [];
    }

    method AdvanceClock(to: Instant)
      requires Valid() && now <= to
      modifies this`now
      ensures Valid() && now == to
    {
      forall key ensures Agrees(RowsOf(log, key), Stored(counters, key), to) {
        assert Agrees(RowsOf(log, key), Stored(counters, key), now);
      }
      now := to;
    }

    /** The script that Redis runs atomically. */
    method IncrementAndExpire(key: string, window: int) returns (current: nat)
      modifies this`counters
      ensures counters == old(counters)[key := Hit(Stored(old(counters), key), window, now)]
      ensures current == counters[key].count
    {
      current := if key in counters && now < counters[key].expiresAt then counters[key].count + 1 else 1;
      if key in counters && now < counters[key].expiresAt {
        counters := counters[key := counters[key].(count := current)];
      } else {
        counters := counters[key := Counter(current, now + window)];
      }
    }

    /** The request is logged, and allowed iff the key's counter stays within the limit it brings. */
    method Allow(key: string, limit: nat, window: int) returns (allowed: bool)
      requires Valid()
      modifies this`counters, this`log
      ensures Valid() && log == old(log) + [(key, Request(now, Policy(limit, window)))]
      ensures |RowsOf(log, key)| > 0 && allowed == RequestAllowed(RowsOf(log, key), |RowsOf(log, key)| - 1)
    {
      ghost var was := counters;
      ghost var request := Request(now, Policy(limit, window));
      assert Agrees(RowsOf(log, key), Stored(was, key), now);
      AgreesNext(RowsOf(log, key), Stored(was, key), now, Policy(limit, window));
      var current := IncrementAndExpire(key, window);
      allowed := current <= limit;
      log := log + [(key, request)];
      RowsOfAppend(old(log), key, (key, request));
      forall other ensures Agrees(RowsOf(log, other), Stored(counters, other), now) {
        RowsOfAppend(old(log), other, (key, request));
        assert RowsOf(old(log), other) + [] == RowsOf(old(log), other);
        assert Agrees(RowsOf(old(log), other), Stored(was, other), now);
      }
    }
  }
}
