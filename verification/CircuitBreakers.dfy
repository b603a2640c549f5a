/** The circuit breaker of the contract client and of the agents' dependencies (the two are the same code).

    The breaker keeps a counter, a state and a time.  Here they are tied to the history of everything
    that was asked of it and told to it.  Time is the monotonic clock, in exact seconds. */
module CircuitBreakers {
  import opened Common

  datatype CircuitState = Closed | Open | HalfOpen

  datatype Event = Allow(at: real) | Success | Failure(at: real)

  datatype Settings = Settings(threshold: int, timeout: real)

  /** The number of failures since the last success. */
  function Failures(h: seq<Event>): nat {
    if h == [] then 0 else
    match h[|h| - 1]
    case Success => 0
    case Failure(_) => Failures(h[..|h| - 1]) + 1
    case Allow(_) => Failures(h[..|h| - 1])
  }

  function LastFailure(h: seq<Event>): real
    requires Failures(h) > 0
  {
    if h[|h| - 1].Failure? then h[|h| - 1].at else LastFailure(h[..|h| - 1])
  }

  /** A threshold below 1 acts like 1: the state is checked only when a failure is recorded. */
  function Limit(c: Settings): nat {
    Max(1, c.threshold)
  }

  predicate Tripped(c: Settings, h: seq<Event>) {
    Failures(h) >= Limit(c)
  }

  predicate TimedOut(c: Settings, h: seq<Event>, now: real)
    requires Tripped(c, h)
  {
    now - LastFailure(h) >= c.timeout
  }

  /** Event `k` asked for permission after the timeout of a tripped breaker had passed, and no call has
      succeeded or failed since. */
  predicate IsProbe(c: Settings, h: seq<Event>, k: nat)
    requires k < |h|
  {
    && h[k].Allow? && Tripped(c, h[..k]) && TimedOut(c, h[..k], h[k].at)
    && forall j :: k < j < |h| ==> h[j].Allow?
  }

  predicate Probed(c: Settings, h: seq<Event>) {
    exists k: nat :: k < |h| && IsProbe(c, h, k)
  }

  /** What `allow` must refuse, told from the history alone. */
  predicate Refuses(c: Settings, h: seq<Event>, now: real) {
    Tripped(c, h) && !Probed(c, h) && !TimedOut(c, h, now)
  }

  lemma Extend(c: Settings, h: seq<Event>, e: Event)
    ensures Failures(h + [e]) == (match e
                                  case Success => 0
                                  case Failure(_) => Failures(h) + 1
                                  case Allow(_) => Failures(h))
    ensures e.Failure? ==> LastFailure(h + [e]) == e.at
    ensures e.Allow? && Failures(h) > 0 ==> LastFailure(h + [e]) == LastFailure(h)
    ensures Probed(c, h + [e]) <==>
            e.Allow? && (Probed(c, h) || (Tripped(c, h) && TimedOut(c, h, e.at)))
  {
    var h' := h + [e];
    assert h'[..|h|] == h;
    forall k: nat | k < |h| ensures h'[..k] == h[..k] {}
    if e.Allow? && Probed(c, h) {
      var k: nat :| k < |h| && IsProbe(c, h, k);
      assert IsProbe(c, h', k);
    }
    if e.Allow? && Tripped(c, h) && TimedOut(c, h, e.at) {
      assert IsProbe(c, h', |h|);
    }
    if Probed(c, h') {
      var k: nat :| k < |h'| && IsProbe(c, h', k);
      assert h'[|h|] == e;
      if k < |h| {
        assert IsProbe(c, h, k);
      }
    }
  }

  predicate OnlyAsks(asks: seq<Event>) {
    forall k :: 0 <= k < |asks| ==> asks[k].Allow?
  }

  predicate SomeAskAfter(asks: seq<Event>, time: real)
    requires OnlyAsks(asks)
  {
    exists k :: 0 <= k < |asks| && asks[k].at >= time
  }

  /** After a failure has tripped the breaker, and until a call ends, a caller is let through exactly when
      it, or some caller before it, asked once the timeout had passed. */
  lemma {:induction false} LetThroughAfterTimeout(c: Settings, h: seq<Event>, asks: seq<Event>, now: real)
    requires h != [] && h[|h| - 1].Failure? && Tripped(c, h) && OnlyAsks(asks)
    ensures
      var retryAt := LastFailure(h) + c.timeout;
      !Refuses(c, h + asks, now) <==> now >= retryAt || SomeAskAfter(asks, retryAt)
    ensures Tripped(c, h + asks) && LastFailure(h + asks) == LastFailure(h)
  {
    if asks == [] {
      assert h + asks == h && h == h[..|h| - 1] + [h[|h| - 1]];
      Extend(c, h[..|h| - 1], h[|h| - 1]);
    } else {
      var before, last := asks[..|asks| - 1], asks[|asks| - 1];
      assert h + asks == (h + before) + [last] && asks == before + [last];
      LetThroughAfterTimeout(c, h, before, last.at);
      LetThroughAfterTimeout(c, h, before, now);
      Extend(c, h + before, last);
    }
  }

  class CircuitBreaker {
    const settings: Settings
    var failures: nat
    var state: CircuitState
    var openedAt: Option<real>
    ghost var history: seq<Event>

    /** The fields are what the history says. */
    ghost predicate Valid()
      reads this
    {
      && failures == Failures(history)
      && (state == Closed <==> !Tripped(settings, history))
      && (state != Closed ==> openedAt == Some(LastFailure(history)))
      && (state == HalfOpen <==> Tripped(settings, history) && Probed(settings, history))
    }

    constructor (threshold: int, timeout: real)
      ensures Valid() && history == [] && settings == Settings(threshold, timeout)
    {
      settings := Settings(threshold, timeout);
      failures, state, openedAt, history := 0, Closed, None, [];
    }

    method Allow(now: real) returns (allowed: bool)
      requires Valid()
      modifies this
      ensures Valid() && history == old(history) + [Event.Allow(now)]
      ensures allowed <==> !Refuses(settings, old(history), now)
    {
      Extend(settings, history, Event.Allow(now));
      history := history + [Event.Allow(now)];
      if state == Closed {
        return true;
      }
      if state == Open {
        if now - openedAt.value >= settings.timeout {
          state := HalfOpen;
          return true;
        }
        return false;
      }
      return true;
    }

    method RecordSuccess()
      requires Valid()
      modifies this
      ensures Valid() && history == old(history) + [Success]
    {
      Extend(settings, history, Success);
      history := history + [Success];
      failures := 0;
      state := Closed;
    }

    method RecordFailure(now: real)
      requires Valid()
      modifies this
      ensures Valid() && history == old(history) + [Failure(now)]
    {
      Extend(settings, history, Failure(now));
      history := history + [Failure(now)];
      failures := failures + 1;
      if state == HalfOpen || failures >= settings.threshold {
        state := Open;
        openedAt := Some(now);
      }
    }
  }
}
