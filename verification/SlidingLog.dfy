/** The API gateway's rate limiter: one deque of request times per client.

    The deque is a compact form of the client's whole history of accepted requests, and the limit holds
    over every interval of the window's length, not only over the windows the limiter looks at.
    Times are exact seconds. */
module SlidingLog {
  import opened Common

  datatype Limits = Limits(limit: int, window: real)

  datatype Request = Request(client: string, at: real)

  type Buckets = map<string, seq<real>>

  function Bucket(buckets: Buckets, client: string): seq<real> {
    if client in buckets then buckets[client] else []
  }

  function DropOld(bucket: seq<real>, now: real, window: real): seq<real> {
    if bucket != [] && now - bucket[0] > window then DropOld(bucket[1..], now, window) else bucket
  }

  /** What one request leaves behind, and whether it goes through. */
  function Serve(l: Limits, buckets: Buckets, r: Request): (Buckets, bool) {
    var bucket := DropOld(Bucket(buckets, r.client), r.at, l.window);
    if |bucket| >= l.limit then (buckets[r.client := bucket], false)
    else (buckets[r.client := bucket + [r.at]], true)
  }

  function Replay(l: Limits, h: seq<Request>): Buckets {
    if h == [] then map[] else Serve(l, Replay(l, h[..|h| - 1]), h[|h| - 1]).0
  }

  // ---- The history the deques stand for ---------------------------------------------------------

  predicate GoesThrough(l: Limits, h: seq<Request>, r: Request) {
    Serve(l, Replay(l, h), r).1
  }

  /** When the client's requests went through, oldest first. */
  function Accepted(l: Limits, h: seq<Request>, client: string): seq<real> {
    if h == [] then []
    else
      var before, r := h[..|h| - 1], h[|h| - 1];
      Accepted(l, before, client) + if r.client == client && GoesThrough(l, before, r) then [r.at] else []
  }

  /** When the client last asked, whether it went through or not. */
  function LastAsked(h: seq<Request>, client: string): Option<real> {
    if h == [] then None
    else if h[|h| - 1].client == client then Some(h[|h| - 1].at)
    else LastAsked(h[..|h| - 1], client)
  }

  predicate ClockGoesForward(h: seq<Request>) {
    forall i, j :: 0 <= i < j < |h| ==> h[i].at <= h[j].at
  }

  /** The times in `[now - window, now]`, for times that are not after `now`. */
  function Within(times: seq<real>, now: real, window: real): seq<real> {
    if times == [] then []
    else
      var before, t := times[..|times| - 1], times[|times| - 1];
      Within(before, now, window) + if now - t <= window then [t] else []
  }

  function CountIn(times: seq<real>, from: real, to: real): nat {
    if times == [] then 0
    else
      var before, t := times[..|times| - 1], times[|times| - 1];
      CountIn(before, from, to) + if from <= t <= to then 1 else 0
  }

  // ---- Facts about the two filters --------------------------------------------------------------

  predicate Sorted(times: seq<real>) {
    forall i, j :: 0 <= i < j < |times| ==> times[i] <= times[j]
  }

  lemma {:induction false} WithinAppends(xs: seq<real>, ys: seq<real>, now: real, window: real)
    ensures Within(xs + ys, now, window) == Within(xs, now, window) + Within(ys, now, window)
  {
    if ys == [] {
      assert xs + ys == xs;
    } else {
      assert (xs + ys)[..|xs + ys| - 1] == xs + ys[..|ys| - 1];
      WithinAppends(xs, ys[..|ys| - 1], now, window);
    }
  }

  lemma {:induction false} WithinTwice(times: seq<real>, now: real, later: real, window: real)
    requires now <= later
    ensures Within(Within(times, now, window), later, window) == Within(times, later, window)
  {
    if times != [] {
      var before, t := times[..|times| - 1], times[|times| - 1];
      WithinTwice(before, now, later, window);
      WithinAppends(Within(before, now, window), if now - t <= window then [t] else [], later, window);
      assert [t][..0] == [];
    }
  }

  lemma {:induction false} WithinAll(times: seq<real>, now: real, window: real)
    requires forall i :: 0 <= i < |times| ==> now - times[i] <= window
    ensures Within(times, now, window) == times
  {
    if times != [] {
      WithinAll(times[..|times| - 1], now, window);
    }
  }

  /** On sorted times, dropping from the front is filtering. */
  lemma {:induction false} DropOldIsWithin(times: seq<real>, now: real, window: real)
    requires Sorted(times)
    ensures DropOld(times, now, window) == Within(times, now, window)
  {
    if times != [] && now - times[0] > window {
      DropOldIsWithin(times[1..], now, window);
      WithinAppends([times[0]], times[1..], now, window);
      assert [times[0]] + times[1..] == times && [times[0]][..0] == [];
    } else {
      WithinAll(times, now, window);
    }
  }

  lemma {:induction false} WithinSorted(times: seq<real>, now: real, window: real)
    requires Sorted(times)
    ensures Sorted(Within(times, now, window))
    ensures forall t :: t in Within(times, now, window) ==> t in times
  {
    if times != [] {
      var before, t := times[..|times| - 1], times[|times| - 1];
      WithinSorted(before, now, window);
      var kept := Within(before, now, window);
      forall i | 0 <= i < |kept| ensures kept[i] <= t {
        assert kept[i] in kept;
      }
    }
  }

  lemma CountAppends(times: seq<real>, t: real, from: real, to: real)
    ensures CountIn(times + [t], from, to) == CountIn(times, from, to) + if from <= t <= to then 1 else 0
  {
    assert (times + [t])[..|times|] == times;
  }

  /** An interval of the window's length that ends no earlier than `now` holds no more of `times` than
      the window that ends at `now`. */
  lemma {:induction false} CountAtMostWithin(times: seq<real>, now: real, window: real, from: real)
    requires now <= from + window
    ensures CountIn(times, from, from + window) <= |Within(times, now, window)|
  {
    if times != [] {
      CountAtMostWithin(times[..|times| - 1], now, window, from);
    }
  }

  // ---- The deque is the accepted history, filtered ----------------------------------------------

  lemma {:induction false} AcceptedIsSorted(l: Limits, h: seq<Request>, client: string)
    requires ClockGoesForward(h)
    ensures Sorted(Accepted(l, h, client))
    ensures forall t :: t in Accepted(l, h, client) ==> h != [] && t <= h[|h| - 1].at
  {
    if h != [] {
      var before, r := h[..|h| - 1], h[|h| - 1];
      AcceptedIsSorted(l, before, client);
      var times := Accepted(l, before, client);
      forall i | 0 <= i < |times| ensures times[i] <= r.at {
        assert times[i] in times;
      }
    }
  }

  lemma {:induction false} LastAskedIsPast(l: Limits, h: seq<Request>, client: string)
    requires ClockGoesForward(h)
    ensures LastAsked(h, client).Some? ==> h != [] && LastAsked(h, client).value <= h[|h| - 1].at
    ensures LastAsked(h, client).None? ==> Accepted(l, h, client) == [] && client !in Replay(l, h)
  {
    if h != [] {
      LastAskedIsPast(l, h[..|h| - 1], client);
    }
  }

  ghost predicate DequeHolds(l: Limits, h: seq<Request>, client: string) {
    Bucket(Replay(l, h), client)
    == match LastAsked(h, client)
       case None => []
       case Some(at) => Within(Accepted(l, h, client), at, l.window)
  }

  /** After any requests with a clock that does not go back, a client's deque holds exactly its accepted
      requests that were in the window when it last asked. */
  lemma {:induction false} DequeIsFilteredHistory(l: Limits, h: seq<Request>, client: string)
    requires ClockGoesForward(h) && l.window >= 0.0
    ensures DequeHolds(l, h, client)
  {
    if h != [] {
      var before, r := h[..|h| - 1], h[|h| - 1];
      assert before + [r] == h;
      DequeIsFilteredHistory(l, before, client);
      var times := Accepted(l, before, client);
      assert times + [] == times;
      if r.client == client {
        DroppedIsWithin(l, before, r);
        WithinAppendsNow(times, r.at, l.window);
      }
    }
  }

  lemma WithinAppendsNow(times: seq<real>, now: real, window: real)
    requires window >= 0.0
    ensures Within(times + [now], now, window) == Within(times, now, window) + [now]
  {
    WithinAppends(times, [now], now, window);
    WithinAll([now], now, window);
  }

  /** What the limiter counts for a request: the client's accepted requests in the window before it. */
  lemma DroppedIsWithin(l: Limits, h: seq<Request>, r: Request)
    requires ClockGoesForward(h + [r]) && l.window >= 0.0
    requires DequeHolds(l, h, r.client)
    ensures
      DropOld(Bucket(Replay(l, h), r.client), r.at, l.window) == Within(Accepted(l, h, r.client), r.at, l.window)
  {
    assert ClockGoesForward(h) by {
      assert forall i :: 0 <= i < |h| ==> (h + [r])[i] == h[i];
    }
    LastAskedIsPast(l, h, r.client);
    AcceptedIsSorted(l, h, r.client);
    if h != [] {
      assert (h + [r])[|h| - 1].at <= (h + [r])[|h|].at;
    }
    match LastAsked(h, r.client)
    case None =>
    case Some(at) =>
      WithinSorted(Accepted(l, h, r.client), at, l.window);
      DropOldIsWithin(Bucket(Replay(l, h), r.client), r.at, l.window);
      WithinTwice(Accepted(l, h, r.client), at, r.at, l.window);
  }

  /** A request is rejected exactly when the window that ends with it already holds `limit` accepted ones. */
  lemma RejectedExactlyWhenFull(l: Limits, h: seq<Request>, r: Request)
    requires ClockGoesForward(h + [r]) && l.window >= 0.0
    ensures GoesThrough(l, h, r) <==> |Within(Accepted(l, h, r.client), r.at, l.window)| < l.limit
  {
    assert ClockGoesForward(h) by {
      assert forall i :: 0 <= i < |h| ==> (h + [r])[i] == h[i];
    }
    DequeIsFilteredHistory(l, h, r.client);
    DroppedIsWithin(l, h, r);
  }

  ghost predicate LimitHolds(l: Limits, h: seq<Request>, client: string, from: real) {
    CountIn(Accepted(l, h, client), from, from + l.window) <= Max(0, l.limit)
  }

  lemma AcceptingKeepsLimit(l: Limits, times: seq<real>, at: real, from: real)
    requires CountIn(times, from, from + l.window) <= Max(0, l.limit)
    requires |Within(times, at, l.window)| < l.limit
    ensures CountIn(times + [at], from, from + l.window) <= Max(0, l.limit)
  {
    CountAppends(times, at, from, from + l.window);
    if at <= from + l.window {
      CountAtMostWithin(times, at, l.window, from);
    }
  }

  /** Every closed interval of the window's length holds at most `limit` accepted requests of a client. */
  lemma {:induction false} LimitHoldsEverywhere(l: Limits, h: seq<Request>, client: string, from: real)
    requires ClockGoesForward(h) && l.window >= 0.0
    ensures LimitHolds(l, h, client, from)
  {
    if h != [] {
      var before, r := h[..|h| - 1], h[|h| - 1];
      var times := Accepted(l, before, client);
      LimitHoldsEverywhere(l, before, client, from);
      if r.client == client && GoesThrough(l, before, r) {
        assert before + [r] == h;
        RejectedExactlyWhenFull(l, before, r);
        assert Accepted(l, h, client) == times + [r.at];
        AcceptingKeepsLimit(l, times, r.at, from);
      } else {
        assert Accepted(l, h, client) == times + [] == times;
      }
    }
  }

  // ---- The middleware ---------------------------------------------------------------------------

  class InMemoryRateLimiter {
    const limits: Limits
    var requests: Buckets
    ghost var history: seq<Request>

    ghost predicate Valid()
      reads this
    {
      requests == Replay(limits, history)
    }

    constructor (limit: int, window: real)
      ensures Valid() && history == [] && limits == Limits(limit, window)
    {
      limits := Limits(limit, window);
      requests, history := map[], [];
    }

    /** Returns whether the request is passed on; otherwise it is answered with status 429. */
    method Dispatch(host: Option<string>, now: real) returns (passed: bool)
      requires Valid()
      modifies this
      ensures Valid()
      ensures history == old(history) + [Request(host.GetOr("unknown"), now)]
      ensures passed == GoesThrough(limits, old(history), Request(host.GetOr("unknown"), now))
      ensures ClockGoesForward(history) && limits.window >= 0.0 ==>
                forall client, from :: LimitHolds(limits, history, client, from)
    {
      var client := host.GetOr("unknown");
      var bucket := Bucket(requests, client);
      ghost var all := bucket;
      while |bucket| > 0 && now - bucket[0] > limits.window
        invariant DropOld(bucket, now, limits.window) == DropOld(all, now, limits.window)
      {
        bucket := bucket[1..];
      }
      ghost var r := Request(client, now);
      assert (history + [r])[..|history|] == history;
      history := history + [r];
      passed := |bucket| < limits.limit;
      if passed {
        bucket := bucket + [now];
      }
      requests := requests[client := bucket];
      if ClockGoesForward(history) && limits.window >= 0.0 {
        forall client, from
          ensures LimitHolds(limits, history, client, from)
        {
          LimitHoldsEverywhere(limits, history, client, from);
        }
      }
    }
  }
}
