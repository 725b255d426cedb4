/** The fixed-window limiter (internal/platform/ratelimit.go): one Redis counter with an expiry per key. */
module RateLimit {
  import opened Common

  // The counter of one key; expiry None: the key is there without a TTL.
  datatype Counter = Gone | Counter(count: int, expiry: Option<Time>)

  function Live(c: Counter, now: Time): Counter {
    if c.Counter? && c.expiry.Some? && c.expiry.value <= now then Gone else c
  }

  // The script: INCR, and PEXPIRE when the counter is new or has no TTL.
  function Incremented(c: Counter, now: Time, window: Time): Counter {
    match Live(c, now)
    case Gone => Counter(1, Some(now + window))
    case Counter(n, e) => Counter(n + 1, if n + 1 == 1 || e.None? then Some(now + window) else e)
  }

  function Admits(c: Counter, now: Time, window: Time, limit: int): bool {
    Incremented(c, now, window).count <= limit
  }

  predicate Ordered(times: seq<Time>) {
    forall i, j :: 0 <= i < j < |times| ==> times[i] <= times[j]
  }

  // How many of these calls are allowed at a moment in [from, to).
  function Allowed(c: Counter, times: seq<Time>, window: Time, limit: int, from: Time, to: Time): nat
    decreases |times|
  {
    if times == [] then 0
    else
      (if from <= times[0] < to && Admits(c, times[0], window, limit) then 1 else 0)
      + Allowed(Incremented(c, times[0], window), times[1..], window, limit, from, to)
  }

  function Left(limit: int, count: int): nat {
    if limit <= count then 0 else limit - count
  }

  // A counter that was counted up by the script, and is set to expire.
  predicate Counting(c: Counter) {
    c.Counter? && c.expiry.Some? && c.count >= 1
  }

  /** The key has an expiry after every call: the one it had, or a window from now if it had none or was gone. */
  lemma ExpiryAfterCall(c: Counter, now: Time, window: Time)
    ensures Incremented(c, now, window).Counter? && Incremented(c, now, window).expiry.Some?
    ensures var e := Incremented(c, now, window).expiry.value;
            e == if c.Counter? && c.count != 0 && c.expiry.Some? && now < c.expiry.value then c.expiry.value
                 else now + window
    ensures c != Gone && c.count >= 0 ==> Counting(Incremented(c, now, window))
    ensures c == Gone ==> Counting(Incremented(c, now, window))
  {
  }

  lemma {:induction false} NothingAfter(c: Counter, times: seq<Time>, window: Time, limit: int, from: Time, to: Time)
    requires Ordered(times) && (times != [] ==> to <= times[0])
    ensures Allowed(c, times, window, limit, from, to) == 0
    decreases |times|
  {
    if times != [] {
      assert |times| > 1 ==> times[0] <= times[1];
      NothingAfter(Incremented(c, times[0], window), times[1..], window, limit, from, to);
    }
  }

  /** Within one lifetime of the counter only what is left of the limit is admitted. */
  lemma {:induction false} OneLifetime(c: Counter, times: seq<Time>, window: Time, limit: int, from: Time, to: Time)
    requires Ordered(times) && Counting(c) && to <= c.expiry.value
    ensures Allowed(c, times, window, limit, from, to) <= Left(limit, c.count)
    decreases |times|
  {
    if times != [] {
      if times[0] >= to {
        NothingAfter(c, times, window, limit, from, to);
      } else {
        OneLifetime(Incremented(c, times[0], window), times[1..], window, limit, from, to);
      }
    }
  }

  // Every call of the interval before the counter runs out.
  predicate Inside(times: seq<Time>, from: Time, to: Time) {
    forall i :: 0 <= i < |times| ==> from <= times[i] < to
  }

  lemma {:induction false} LifetimeAdmits(c: Counter, times: seq<Time>, window: Time, limit: int, from: Time, to: Time)
    requires Counting(c) && to <= c.expiry.value && Inside(times, from, to)
    ensures Allowed(c, times, window, limit, from, to)
         == if |times| <= Left(limit, c.count) then |times| else Left(limit, c.count)
    decreases |times|
  {
    if times != [] {
      LifetimeAdmits(Incremented(c, times[0], window), times[1..], window, limit, from, to);
    }
  }

  /** The first call on a counter that is gone or has run out begins a lifetime of exactly one window, in which the
      first limit calls are admitted and all further ones refused. */
  lemma WindowAdmits(c: Counter, times: seq<Time>, window: Time, limit: nat)
    requires window > 0 && times != [] && Live(c, times[0]) == Gone && Inside(times, times[0], times[0] + window)
    ensures Allowed(c, times, window, limit, times[0], times[0] + window)
         == if |times| <= limit then |times| else limit
    ensures Incremented(c, times[0], window).expiry == Some(times[0] + window)
  {
    LifetimeAdmits(Incremented(c, times[0], window), times[1..], window, limit, times[0], times[0] + window);
  }

  // A fresh counter admits at most limit calls before it runs out.
  lemma NewLifetime(c: Counter, times: seq<Time>, window: Time, limit: int, from: Time, to: Time)
    requires Ordered(times) && times != [] && Live(c, times[0]) == Gone && to <= times[0] + window
    ensures Allowed(c, times, window, limit, from, to) <= Left(limit, 0)
  {
    OneLifetime(Incremented(c, times[0], window), times[1..], window, limit, from, to);
  }

  // From within one lifetime, up to a window past its end.
  lemma {:induction false} TwoLifetimes(c: Counter, times: seq<Time>, window: Time, limit: int, from: Time, to: Time)
    requires Ordered(times) && Counting(c) && to <= c.expiry.value + window
    ensures Allowed(c, times, window, limit, from, to) <= Left(limit, c.count) + Left(limit, 0)
    decreases |times|
  {
    if times != [] {
      if times[0] >= c.expiry.value {
        NewLifetime(c, times, window, limit, from, to);
      } else {
        TwoLifetimes(Incremented(c, times[0], window), times[1..], window, limit, from, to);
      }
    }
  }

  // A counter as the script leaves it, or none: what a key that only the limiter writes can hold.
  predicate Usable(c: Counter) {
    c == Gone || (c.Counter? && c.count >= 1)
  }

  /** Any half-open interval as long as the window admits at most 2*limit - 1 calls, whenever the run started and
      whether or not the counter it started with had an expiry. */
  lemma {:induction false} LimiterBound(c: Counter, times: seq<Time>, window: Time, limit: int, from: Time)
    requires Ordered(times) && Usable(c) && window > 0
    ensures Allowed(c, times, window, limit, from, from + window) <= if limit <= 0 then 0 else 2 * limit - 1
    decreases |times|
  {
    if times != [] {
      var next := Incremented(c, times[0], window);
      if times[0] < from {
        LimiterBound(next, times[1..], window, limit, from);
      } else if Live(c, times[0]) == Gone {
        NewLifetime(c, times, window, limit, from, from + window);
      } else {
        TwoLifetimes(next, times[1..], window, limit, from, from + window);
      }
    }
  }

  // n calls at one moment.
  function Burst(n: nat, at: Time): seq<Time> {
    seq(n, _ => at)
  }

  lemma {:induction false} BurstAllowed(count: int, expiry: Time, n: nat, at: Time, rest: seq<Time>, window: Time,
                                        limit: int, from: Time, to: Time)
    requires 1 <= count && at < expiry && from <= at < to && count + n <= limit
    ensures Allowed(Counter(count, Some(expiry)), Burst(n, at) + rest, window, limit, from, to)
         == n + Allowed(Counter(count + n, Some(expiry)), rest, window, limit, from, to)
    decreases n
  {
    if n > 0 {
      assert (Burst(n, at) + rest)[1..] == Burst(n - 1, at) + rest;
      BurstAllowed(count + 1, expiry, n - 1, at, rest, window, limit, from, to);
    } else {
      assert Burst(0, at) + rest == rest;
    }
  }

  // One call, a window of calls just before the counter runs out, and another window right after.
  function TwoBursts(window: Time, limit: nat): seq<Time>
    requires limit >= 1
  {
    [0] + (Burst(limit - 1, window - 1) + ([window] + Burst(limit - 1, window)))
  }

  lemma BurstsOrdered(window: Time, limit: nat)
    requires window >= 2 && limit >= 1
    ensures Ordered(TwoBursts(window, limit))
  {
  }

  /** The bound is reached, for every limit and every window of at least two milliseconds. */
  lemma LimiterBoundTight(window: Time, limit: nat)
    requires window >= 2 && limit >= 1
    ensures exists times :: Ordered(times) && Allowed(Gone, times, window, limit, 1, 1 + window) == 2 * limit - 1
  {
    var second := [window] + Burst(limit - 1, window);
    var times := TwoBursts(window, limit);
    assert times[1..] == Burst(limit - 1, window - 1) + second;
    BurstAllowed(1, window, limit - 1, window - 1, second, window, limit, 1, 1 + window);
    assert second[1..] == Burst(limit - 1, window) + [];
    BurstAllowed(1, 2 * window, limit - 1, window, [], window, limit, 1, 1 + window);
    BurstsOrdered(window, limit);
    assert Ordered(times) && Allowed(Gone, times, window, limit, 1, 1 + window) == 2 * limit - 1;
  }

  // How many calls of a run are allowed in the interval as long as the window that begins here.
  function AllowedFrom(c: Counter, times: seq<Time>, from: Time, window: Time, limit: int): nat {
    Allowed(c, times, window, limit, from, from + window)
  }

  ghost predicate KeepsLimit(window: Time, limit: nat) {
    forall c, times, from :: Ordered(times) && Usable(c) ==> AllowedFrom(c, times, from, window, limit) <= limit
  }

  /** No run lets more than the limit through in an interval as long as the window if and only if the limit is at most
      one. */
  lemma LimitKeptExactly(window: Time, limit: nat)
    requires window >= 2
    ensures KeepsLimit(window, limit) <==> limit <= 1
  {
    if limit <= 1 {
      forall c, times, from | Ordered(times) && Usable(c)
        ensures AllowedFrom(c, times, from, window, limit) <= limit
      {
        LimiterBound(c, times, window, limit, from);
      }
    } else {
      LimiterBoundTight(window, limit);
      var times :| Ordered(times) && Allowed(Gone, times, window, limit, 1, 1 + window) == 2 * limit - 1;
      assert Usable(Gone) && AllowedFrom(Gone, times, 1, window, limit) > limit;
    }
  }

  /** The limiter of one key. */
  class RateLimiter {
    const limit: int
    const window: Time
    var counter: Counter

    constructor (limit: int, window: Time)
      ensures this.limit == limit && this.window == window && counter == Gone
    {
      this.limit := limit;
      this.window := window;
      counter := Gone;
    }

    // works: whether the script can be run; None is its error.
    method Allow(now: Time, works: bool) returns (r: Option<bool>)
      modifies this
      ensures counter == if works then Incremented(old(counter), now, window) else old(counter)
      ensures r == if works then Some(Admits(old(counter), now, window, limit)) else None
    {
      if !works {
        return None;
      }
      if counter.Counter? && counter.expiry.Some? && counter.expiry.value <= now {
        counter := Gone;
      }
      var current := if counter.Gone? then 1 else counter.count + 1;
      var expiry := if counter.Gone? then None else counter.expiry;
      counter := Counter(current, expiry);
      if current == 1 || expiry.None? {
        counter := Counter(current, Some(now + window));
      }
      r := Some(current <= limit);
    }

    /** The middleware: a request is stopped only by a limiter that works and refuses it. */
    method Handle(now: Time, works: bool) returns (passes: bool)
      modifies this
      ensures counter == if works then Incremented(old(counter), now, window) else old(counter)
      ensures passes <==> (works ==> Admits(old(counter), now, window, limit))
    {
      var r := Allow(now, works);
      passes := r.None? || r.value;
    }
  }
}
