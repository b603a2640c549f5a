/** The two retry loops around the breaker: the contract client asks the breaker before every attempt,
    `with_retry` only once.  What a remote call does is an `Attempt`, chosen by the environment. */
module RetryLoops {
  import opened Common
  import opened CircuitBreakers

  /** NoProvider: no RPC provider could be had.  Reverts: the contract itself refused.  Fails: anything else. */
  datatype Reply = NoProvider | Reverts | Fails | Returns(value: int)

  datatype Attempt = Attempt(duration: real, reply: Reply)

  datatype CallError = ProviderUnavailable | ContractReverted | ContractCallFailed

  datatype Policy = Policy(breaker: Settings, maxRetries: int, base: real)

  function Pow2(n: nat): (p: nat)
    ensures p > 0
  {
    if n == 0 then 1 else 2 * Pow2(n - 1)
  }

  /** How long the loops sleep after failed attempt number `attempt`: twice as long each time. */
  function Backoff(base: real, attempt: nat): real
    requires attempt > 0
  {
    if attempt == 1 then base else 2.0 * Backoff(base, attempt - 1)
  }

  /** The sleep after failed attempt number `attempt`; there is none after the last. */
  function SleepAfter(maxRetries: int, base: real, attempt: nat): real
    requires attempt > 0
  {
    if attempt < maxRetries then Backoff(base, attempt) else 0.0
  }

  datatype Outcome = Outcome(result: Result<int, CallError>, rpcs: nat, history: seq<Event>, now: real)

  /** The rest of `call`, from attempt number `attempt` on, with `rpcs` remote calls made so far. */
  function CallFrom(p: Policy, h: seq<Event>, now: real, env: nat -> Attempt, attempt: nat, rpcs: nat): Outcome
    requires attempt > 0
    decreases p.maxRetries - attempt
  {
    if attempt > p.maxRetries then Outcome(Err(ContractCallFailed), rpcs, h, now)
    else
      var asked := h + [Allow(now)];
      if Refuses(p.breaker, h, now) then Outcome(Err(ProviderUnavailable), rpcs, asked, now)
      else
        var a := env(attempt);
        var later := now + a.duration;
        match a.reply
        case NoProvider => Outcome(Err(ProviderUnavailable), rpcs, asked + [Failure(later)], later)
        case Reverts => Outcome(Err(ContractReverted), rpcs + 1, asked, later)
        case Returns(value) => Outcome(Ok(value), rpcs + 1, asked + [Success], later)
        case Fails =>
          var sleep := if attempt < p.maxRetries then Backoff(p.base, attempt) else 0.0;
          CallFrom(p, asked + [Failure(later)], later + sleep, env, attempt + 1, rpcs + 1)
  }

  /** What one attempt makes of the rest of the call. */
  lemma CallStep(p: Policy, h: seq<Event>, now: real, env: nat -> Attempt, attempt: nat, rpcs: nat)
    requires 0 < attempt <= p.maxRetries
    ensures
      var rest := CallFrom(p, h, now, env, attempt, rpcs);
      var asked, later := h + [Allow(now)], now + env(attempt).duration;
      if Refuses(p.breaker, h, now) then rest == Outcome(Err(ProviderUnavailable), rpcs, asked, now)
      else
        match env(attempt).reply
        case NoProvider => rest == Outcome(Err(ProviderUnavailable), rpcs, asked + [Failure(later)], later)
        case Reverts => rest == Outcome(Err(ContractReverted), rpcs + 1, asked, later)
        case Returns(value) => rest == Outcome(Ok(value), rpcs + 1, asked + [Success], later)
        case Fails =>
          var next := later + SleepAfter(p.maxRetries, p.base, attempt);
          rest == CallFrom(p, asked + [Failure(later)], next, env, attempt + 1, rpcs + 1)
  {
  }

  class ContractClient {
    const breaker: CircuitBreaker
    const maxRetries: int
    const base: real
    var now: real

    constructor (breaker: CircuitBreaker, maxRetries: int, base: real, now: real)
      ensures this.breaker == breaker && this.maxRetries == maxRetries && this.base == base && this.now == now
    {
      this.breaker := breaker;
      this.maxRetries := maxRetries;
      this.base := base;
      this.now := now;
    }

    ghost function PolicyOf(): Policy {
      Policy(breaker.settings, maxRetries, base)
    }

    /** `call`: returns what the call gives or raises, and how many remote calls it made. */
    method Call(env: nat -> Attempt) returns (result: Result<int, CallError>, rpcs: nat)
      requires breaker.Valid()
      modifies this`now, breaker
      ensures breaker.Valid()
      ensures Outcome(result, rpcs, breaker.history, now)
              == CallFrom(PolicyOf(), old(breaker.history), old(now), env, 1, 0)
    {
      ghost var p := PolicyOf();
      ghost var outcome := CallFrom(p, breaker.history, now, env, 1, 0);
      var attempt := 1;
      rpcs := 0;
      while attempt <= maxRetries
        invariant attempt >= 1 && breaker.Valid()
        invariant CallFrom(p, breaker.history, now, env, attempt, rpcs) == outcome
        decreases maxRetries - attempt
      {
        CallStep(p, breaker.history, now, env, attempt, rpcs);
        var allowed := breaker.Allow(now);
        if !allowed {
          return Err(ProviderUnavailable), rpcs;
        }
        var a := env(attempt);
        now := now + a.duration;
        match a.reply {
          case NoProvider =>
            breaker.RecordFailure(now);
            return Err(ProviderUnavailable), rpcs;
          case Reverts =>
            return Err(ContractReverted), rpcs + 1;
          case Returns(value) =>
            breaker.RecordSuccess();
            return Ok(value), rpcs + 1;
          case Fails =>
            breaker.RecordFailure(now);
            rpcs := rpcs + 1;
            now := now + SleepAfter(maxRetries, base, attempt);
        }
        attempt := attempt + 1;
      }
      return Err(ContractCallFailed), rpcs;
    }
  }

  // ---- How many remote calls a failing call makes -----------------------------------------------

  ghost predicate AlwaysFails(env: nat -> Attempt) {
    forall k :: env(k).reply == Fails && env(k).duration >= 0.0
  }

  lemma {:induction false} BackoffGrows(base: real, m: nat, n: nat)
    requires 0 < m <= n && base >= 0.0
    ensures 0.0 <= Backoff(base, m) <= Backoff(base, n)
  {
    if m < n {
      BackoffGrows(base, m, n - 1);
    } else if 1 < n {
      BackoffGrows(base, 1, n - 1);
    }
  }

  /** One failing attempt that the breaker lets through. */
  lemma FailingAttempt(p: Policy, h: seq<Event>, now: real, later: real)
    ensures
      var h' := h + [Allow(now)] + [Failure(later)];
      Failures(h') == Failures(h) + 1 && LastFailure(h') == later && !Probed(p.breaker, h')
  {
    Extend(p.breaker, h, Allow(now));
    Extend(p.breaker, h + [Allow(now)], Failure(later));
  }

  /** Once the sleeps are at least as long as the timeout, every attempt that is left is made. */
  lemma {:induction false} SlowLoopMakesAllAttempts(
      p: Policy, h: seq<Event>, now: real, env: nat -> Attempt, attempt: nat, rpcs: nat)
    requires p.base >= 0.0 && AlwaysFails(env) && 1 < attempt <= p.maxRetries + 1
    requires attempt <= p.maxRetries ==>
               Tripped(p.breaker, h) && now >= LastFailure(h) + Backoff(p.base, attempt - 1)
    requires Backoff(p.base, attempt - 1) >= p.breaker.timeout
    ensures
      var o := CallFrom(p, h, now, env, attempt, rpcs);
      o.result == Err(ContractCallFailed) && o.rpcs == rpcs + (p.maxRetries + 1 - attempt)
    decreases p.maxRetries + 1 - attempt
  {
    if attempt <= p.maxRetries {
      assert !Refuses(p.breaker, h, now);
      assert env(attempt).reply == Fails;
      var later := now + env(attempt).duration;
      FailingAttempt(p, h, now, later);
      BackoffGrows(p.base, attempt - 1, attempt);
      var sleep := if attempt < p.maxRetries then Backoff(p.base, attempt) else 0.0;
      SlowLoopMakesAllAttempts(p, h + [Allow(now)] + [Failure(later)], later + sleep, env, attempt + 1, rpcs + 1);
    }
  }

  /** The failures it takes for a breaker that lets a caller in to be open: those a closed one has left, one
      if it has tripped. */
  function UntilOpen(p: Policy, h: seq<Event>): nat {
    Max(1, Limit(p.breaker) - Failures(h))
  }

  /** With the breaker letting the attempt in and every remote call failing, the loop makes its remaining
      attempts until the breaker opens; then it stops if the sleep is shorter than the timeout, and else
      makes all. */
  lemma {:induction false} FailingLoop(
    p: Policy, h: seq<Event>, now: real, env: nat -> Attempt, attempt: nat, rpcs: nat)
    requires p.base >= 0.0 && AlwaysFails(env) && 1 <= attempt <= p.maxRetries
    requires !Refuses(p.breaker, h, now)
    ensures
      var o := CallFrom(p, h, now, env, attempt, rpcs);
      var open := attempt - 1 + UntilOpen(p, h);
      if open < p.maxRetries && Backoff(p.base, open) < p.breaker.timeout then
        o.result == Err(ProviderUnavailable) && o.rpcs == rpcs + UntilOpen(p, h)
      else
        o.result == Err(ContractCallFailed) && o.rpcs == rpcs + (p.maxRetries + 1 - attempt)
    decreases p.maxRetries - attempt
  {
    assert env(attempt).reply == Fails;
    var later := now + env(attempt).duration;
    FailingAttempt(p, h, now, later);
    var h' := h + [Allow(now)] + [Failure(later)];
    var sleep := if attempt < p.maxRetries then Backoff(p.base, attempt) else 0.0;
    if attempt < p.maxRetries {
      if !Tripped(p.breaker, h') {
        FailingLoop(p, h', later + sleep, env, attempt + 1, rpcs + 1);
      } else if sleep >= p.breaker.timeout {
        SlowLoopMakesAllAttempts(p, h', later + sleep, env, attempt + 1, rpcs + 1);
      } else {
        assert Refuses(p.breaker, h', later + sleep);
      }
    }
  }

  /** `call` with providers that resolve and remote calls that all fail, from any state of the breaker: the
      number of remote calls and the error, exactly.  A breaker that lets the call in cuts the loop short if
      and only if it opens before the last attempt and the sleep that follows is shorter than the recovery
      timeout. */
  lemma FailingCall(p: Policy, h: seq<Event>, now: real, env: nat -> Attempt)
    requires p.base >= 0.0 && AlwaysFails(env)
    ensures
      var o := CallFrom(p, h, now, env, 1, 0);
      var open := UntilOpen(p, h);
      if p.maxRetries >= 1 && Refuses(p.breaker, h, now) then
        o.result == Err(ProviderUnavailable) && o.rpcs == 0
      else if open < p.maxRetries && Backoff(p.base, open) < p.breaker.timeout then
        o.result == Err(ProviderUnavailable) && o.rpcs == open
      else
        o.result == Err(ContractCallFailed) && o.rpcs == Max(0, p.maxRetries)
  {
    if p.maxRetries >= 1 && !Refuses(p.breaker, h, now) {
      FailingLoop(p, h, now, env, 1, 0);
    }
  }

  // ---- How a call ends --------------------------------------------------------------------------

  /** Attempt `k` ends the call with `last`, those from `first` up to it fail, and the breaker does not stop the loop
      before it: it is not open yet after failure `open`, or every sleep from then on outlasts its timeout. */
  ghost predicate EndsAt(p: Policy, env: nat -> Attempt, first: nat, open: nat, k: nat, last: Final)
    requires open > 0
  {
    && first <= k <= p.maxRetries && env(k).reply == last
    && (forall j :: first <= j < k ==> env(j).reply == Fails)
    && (k <= open || Backoff(p.base, open) >= p.breaker.timeout)
  }

  /** The replies that end a call whatever the breaker says. */
  type Final = r: Reply | r.Returns? || r.Reverts? witness Reverts

  function ResultOf(last: Final): Result<int, CallError> {
    match last
    case Returns(value) => Ok(value)
    case Reverts => Err(ContractReverted)
  }

  ghost predicate Ends(p: Policy, env: nat -> Attempt, first: nat, open: nat, last: Final)
    requires open > 0
  {
    exists k :: EndsAt(p, env, first, open, k, last)
  }

  lemma EndsAtFirst(p: Policy, env: nat -> Attempt, first: nat, open: nat, last: Final)
    requires 0 < first <= open && first <= p.maxRetries && env(first).reply != Fails
    ensures Ends(p, env, first, open, last) <==> env(first).reply == last
  {
    if env(first).reply == last {
      assert EndsAt(p, env, first, open, first, last);
    }
  }

  /** After a failure that leaves the breaker closed, or open with a sleep that outlasts its timeout, the
      rest of the loop decides. */
  lemma EndsLater(p: Policy, env: nat -> Attempt, first: nat, open: nat, open': nat, last: Final)
    requires p.base >= 0.0 && 0 < first <= open && env(first).reply == Fails
    requires open' == open || (open == first && open' == first + 1 && Backoff(p.base, first) >= p.breaker.timeout)
    ensures Ends(p, env, first, open, last) <==> Ends(p, env, first + 1, open', last)
  {
    BackoffGrows(p.base, open, open');
    var next := first + 1;
    if k :| EndsAt(p, env, first, open, k, last) {
      assert EndsAt(p, env, next, open', k, last);
    }
    if k :| EndsAt(p, env, next, open', k, last) {
      assert EndsAt(p, env, first, open, k, last);
    }
  }

  /** After a failure of the last attempt, or one that opens the breaker for longer than the sleep, the call
      has no other end. */
  lemma NoLaterEnd(p: Policy, env: nat -> Attempt, first: nat, open: nat, last: Final)
    requires first > 0 && open > 0 && env(first).reply == Fails
    requires first == p.maxRetries || (open == first && Backoff(p.base, first) < p.breaker.timeout)
    ensures !Ends(p, env, first, open, last)
  {
  }

  lemma LastAttempt(
    p: Policy, h: seq<Event>, now: real, env: nat -> Attempt, attempt: nat, rpcs: nat, open: nat, last: Final)
    requires 1 <= attempt <= p.maxRetries && attempt <= open
    requires !Refuses(p.breaker, h, now) && env(attempt).reply != Fails
    ensures CallFrom(p, h, now, env, attempt, rpcs).result == ResultOf(last) <==> Ends(p, env, attempt, open, last)
  {
    CallStep(p, h, now, env, attempt, rpcs);
    EndsAtFirst(p, env, attempt, open, last);
  }

  /** `h'` is what the breaker has been told after a failed attempt. */
  lemma FailedAttempt(p: Policy, h: seq<Event>, now: real, env: nat -> Attempt, attempt: nat, rpcs: nat)
    returns (h': seq<Event>)
    requires 1 <= attempt <= p.maxRetries && !Refuses(p.breaker, h, now) && env(attempt).reply == Fails
    ensures
      var later := now + env(attempt).duration;
      && Failures(h') > 0 && LastFailure(h') == later && !Probed(p.breaker, h')
      && attempt - 1 + UntilOpen(p, h) == Max(attempt, attempt + Limit(p.breaker) - Failures(h'))
      && CallFrom(p, h, now, env, attempt, rpcs)
         == CallFrom(p, h', later + SleepAfter(p.maxRetries, p.base, attempt), env, attempt + 1, rpcs + 1)
  {
    h' := h + [Allow(now)] + [Failure(now + env(attempt).duration)];
    CallStep(p, h, now, env, attempt, rpcs);
    FailingAttempt(p, h, now, now + env(attempt).duration);
  }

  lemma {:induction false} LoopEndsExactlyWhen(
    p: Policy, h: seq<Event>, now: real, env: nat -> Attempt, attempt: nat, rpcs: nat, last: Final)
    requires p.base >= 0.0 && 1 <= attempt <= p.maxRetries && !Refuses(p.breaker, h, now)
    ensures CallFrom(p, h, now, env, attempt, rpcs).result == ResultOf(last) <==>
            Ends(p, env, attempt, attempt - 1 + UntilOpen(p, h), last)
    decreases p.maxRetries - attempt, 2
  {
    if env(attempt).reply != Fails {
      LastAttempt(p, h, now, env, attempt, rpcs, attempt - 1 + UntilOpen(p, h), last);
    } else {
      LoopGoesOn(p, h, now, env, attempt, rpcs, last);
    }
  }

  lemma {:induction false} LoopGoesOn(
    p: Policy, h: seq<Event>, now: real, env: nat -> Attempt, attempt: nat, rpcs: nat, last: Final)
    requires p.base >= 0.0 && 1 <= attempt <= p.maxRetries && !Refuses(p.breaker, h, now)
    requires env(attempt).reply == Fails
    ensures CallFrom(p, h, now, env, attempt, rpcs).result == ResultOf(last) <==>
            Ends(p, env, attempt, attempt - 1 + UntilOpen(p, h), last)
    decreases p.maxRetries - attempt, 1
  {
    var h' := FailedAttempt(p, h, now, env, attempt, rpcs);
    AfterFailure(p, h', now + env(attempt).duration, env, attempt, rpcs + 1, attempt - 1 + UntilOpen(p, h), last);
  }

  lemma {:induction false} AfterFailure(
    p: Policy, h: seq<Event>, later: real, env: nat -> Attempt, attempt: nat, rpcs: nat, open: nat, last: Final)
    requires p.base >= 0.0 && 1 <= attempt <= p.maxRetries && env(attempt).reply == Fails
    requires Failures(h) > 0 && LastFailure(h) == later && !Probed(p.breaker, h)
    requires open == Max(attempt, attempt + Limit(p.breaker) - Failures(h))
    ensures
      var next := later + SleepAfter(p.maxRetries, p.base, attempt);
      CallFrom(p, h, next, env, attempt + 1, rpcs).result == ResultOf(last) <==> Ends(p, env, attempt, open, last)
    decreases p.maxRetries - attempt, 0
  {
    var next := later + SleepAfter(p.maxRetries, p.base, attempt);
    if attempt == p.maxRetries {
      NoLaterEnd(p, env, attempt, open, last);
    } else if Refuses(p.breaker, h, next) {
      CallStep(p, h, next, env, attempt + 1, rpcs);
      NoLaterEnd(p, env, attempt, open, last);
    } else {
      EndsLater(p, env, attempt, open, attempt + UntilOpen(p, h), last);
      LoopEndsExactlyWhen(p, h, next, env, attempt + 1, rpcs, last);
    }
  }

  /** In every environment, `call` returns a value exactly when the breaker lets it in, some attempt returns
      that value and all before it fail, and either the breaker is not open by then or the sleep after the
      failure that opened it outlasts its timeout. */
  lemma CallSucceedsExactlyWhen(p: Policy, h: seq<Event>, now: real, env: nat -> Attempt, value: int)
    requires p.base >= 0.0
    ensures CallFrom(p, h, now, env, 1, 0).result == Ok(value) <==>
            !Refuses(p.breaker, h, now) && Ends(p, env, 1, UntilOpen(p, h), Returns(value))
  {
    if p.maxRetries >= 1 && !Refuses(p.breaker, h, now) {
      LoopEndsExactlyWhen(p, h, now, env, 1, 0, Returns(value));
    }
  }

  /** It raises the contract's refusal exactly when, under the same conditions, an attempt was refused. */
  lemma CallRevertsExactlyWhen(p: Policy, h: seq<Event>, now: real, env: nat -> Attempt)
    requires p.base >= 0.0
    ensures CallFrom(p, h, now, env, 1, 0).result == Err(ContractReverted) <==>
            !Refuses(p.breaker, h, now) && Ends(p, env, 1, UntilOpen(p, h), Reverts)
  {
    if p.maxRetries >= 1 && !Refuses(p.breaker, h, now) {
      LoopEndsExactlyWhen(p, h, now, env, 1, 0, Reverts);
    }
  }

  /** What a call tells the breaker: a success resets its count, each failed remote call adds one, a refusal
      by the contract adds nothing, and a missing provider adds one without a remote call. */
  lemma {:induction false} CallTellsBreaker(
    p: Policy, h: seq<Event>, now: real, env: nat -> Attempt, attempt: nat, rpcs: nat)
    requires attempt > 0
    ensures
      var o := CallFrom(p, h, now, env, attempt, rpcs);
      && rpcs <= o.rpcs
      && match o.result
         case Ok(_) => Failures(o.history) == 0 && !Tripped(p.breaker, o.history)
         case Err(ContractReverted) => Failures(o.history) + 1 == Failures(h) + o.rpcs - rpcs
         case Err(ContractCallFailed) => Failures(o.history) == Failures(h) + o.rpcs - rpcs
         case Err(ProviderUnavailable) => 0 <= Failures(o.history) - (Failures(h) + o.rpcs - rpcs) <= 1
    decreases p.maxRetries - attempt
  {
    if attempt <= p.maxRetries {
      CallStep(p, h, now, env, attempt, rpcs);
      var asked, later := h + [Allow(now)], now + env(attempt).duration;
      Extend(p.breaker, h, Allow(now));
      if !Refuses(p.breaker, h, now) {
        match env(attempt).reply
        case NoProvider => Extend(p.breaker, asked, Failure(later));
        case Reverts =>
        case Returns(_) => Extend(p.breaker, asked, Success);
        case Fails =>
          Extend(p.breaker, asked, Failure(later));
          var next := later + SleepAfter(p.maxRetries, p.base, attempt);
          CallTellsBreaker(p, asked + [Failure(later)], next, env, attempt + 1, rpcs + 1);
      }
    }
  }

  // ---- with_retry -------------------------------------------------------------------------------

  /** `history` is what the breaker has been told since it let the loop through; `result` is None when
      the loop raises TransientDependencyError. */
  datatype Retried = Retried(result: Option<int>, calls: nat, slept: real, history: seq<Event>, now: real)

  /** The rest of the loop of `with_retry` after `calls` failed calls. */
  function RetryFrom(
    maxRetries: int, base: real, h: seq<Event>, now: real, env: nat -> Attempt, calls: nat, slept: real): Retried
    decreases maxRetries - calls
  {
    if calls >= maxRetries then Retried(None, calls, slept, h, now)
    else
      var a := env(calls + 1);
      var later := now + a.duration;
      if a.reply.Returns? then Retried(Some(a.reply.value), calls + 1, slept, h + [Success], later)
      else
        var sleep := if calls + 1 < maxRetries then Backoff(base, calls + 1) else 0.0;
        RetryFrom(maxRetries, base, h + [Failure(later)], later + sleep, env, calls + 1, slept + sleep)
  }

  lemma RetryGoesOn(maxRetries: int, base: real, h: seq<Event>, now: real, env: nat -> Attempt, calls: nat, slept: real)
    requires calls < maxRetries && !env(calls + 1).reply.Returns?
    ensures
      var later, sleep := now + env(calls + 1).duration, SleepAfter(maxRetries, base, calls + 1);
      RetryFrom(maxRetries, base, h, now, env, calls, slept)
      == RetryFrom(maxRetries, base, h + [Failure(later)], later + sleep, env, calls + 1, slept + sleep)
  {
  }

  /** `with_retry`; `circuit` is optional.  `admitted` says whether the breaker let the loop start. */
  method WithRetry(circuit: CircuitBreaker?, maxRetries: int, base: real, start: real, env: nat -> Attempt)
    returns (admitted: bool, r: Retried)
    requires circuit != null ==> circuit.Valid()
    modifies circuit
    ensures circuit != null ==>
              && circuit.Valid() && circuit.history == old(circuit.history) + [Allow(start)] + r.history
              && (admitted <==> !Refuses(circuit.settings, old(circuit.history), start))
    ensures circuit == null ==> admitted
    ensures circuit != null && admitted ==>
              if r.result.Some? then Failures(circuit.history) == 0 && circuit.state == Closed
              else Failures(circuit.history) == old(Failures(circuit.history)) + r.calls
    ensures r == if admitted then RetryFrom(maxRetries, base, [], start, env, 0, 0.0)
                 else Retried(None, 0, 0.0, [], start)
  {
    var calls, slept, now := 0, 0.0, start;
    admitted := true;
    if circuit != null {
      admitted := circuit.Allow(now);
    }
    if !admitted {
      return false, Retried(None, 0, 0.0, [], start);
    }
    ghost var outcome := RetryFrom(maxRetries, base, [], start, env, 0, 0.0);
    var history: seq<Event> := [];
    while calls < maxRetries
      invariant circuit != null ==>
                  circuit.Valid() && circuit.history == old(circuit.history) + [Allow(start)] + history
      invariant RetryFrom(maxRetries, base, history, now, env, calls, slept) == outcome
    {
      var a := env(calls + 1);
      if !a.reply.Returns? {
        RetryGoesOn(maxRetries, base, history, now, env, calls, slept);
      }
      now := now + a.duration;
      calls := calls + 1;
      if a.reply.Returns? {
        if circuit != null {
          circuit.RecordSuccess();
          SuccessTold(old(circuit.history) + [Allow(start)], history);
        }
        return true, Retried(Some(a.reply.value), calls, slept, history + [Success], now);
      }
      if circuit != null {
        circuit.RecordFailure(now);
      }
      history := history + [Failure(now)];
      var sleep := SleepAfter(maxRetries, base, calls);
      now := now + sleep;
      slept := slept + sleep;
    }
    r := Retried(None, calls, slept, history, now);
    if circuit != null {
      RetryTellsBreaker(maxRetries, base, [], start, env, 0, 0.0);
      FailuresTold(circuit.settings, old(circuit.history), start, history);
    }
  }

  lemma {:induction false} FailuresAdd(c: Settings, h: seq<Event>, told: seq<Event>)
    requires AllFailures(told)
    ensures Failures(h + told) == Failures(h) + |told|
    decreases |told|
  {
    if told == [] {
      assert h + told == h;
    } else {
      var before, last := told[..|told| - 1], told[|told| - 1];
      assert h + told == (h + before) + [last];
      FailuresAdd(c, h, before);
      Extend(c, h + before, last);
    }
  }

  /** What the breaker's count is after one question and the failures a loop told it. */
  lemma FailuresTold(c: Settings, h: seq<Event>, start: real, told: seq<Event>)
    requires AllFailures(told)
    ensures Failures(h + [Allow(start)] + told) == Failures(h) + |told|
  {
    Extend(c, h, Allow(start));
    FailuresAdd(c, h + [Allow(start)], told);
  }

  lemma SuccessTold(h: seq<Event>, told: seq<Event>)
    ensures Failures(h + (told + [Success])) == 0
  {
    var all := h + (told + [Success]);
    assert all[|all| - 1] == Success;
  }

  /** What the first `n` backoffs add up to. */
  function TotalBackoff(base: real, n: nat): real {
    Backoff(base, n + 1) - base
  }

  /** In closed form: base * 2^(n-1) after attempt `n`, base * (2^n - 1) after the first `n` together. */
  lemma {:induction false} BackoffsArePowers(base: real, n: nat)
    ensures n > 0 ==> Backoff(base, n) == base * Pow2(n - 1) as real
    ensures TotalBackoff(base, n) == base * (Pow2(n) - 1) as real
  {
    if n > 0 {
      BackoffsArePowers(base, n - 1);
    }
  }

  /** Once let through, the loop calls until the first success or `maxRetries` calls, whatever the breaker
      does meanwhile, and sleeps base * (2^(calls-1) - 1) in all. */
  lemma {:induction false} RetriesUntilSuccess(
      maxRetries: int, base: real, h: seq<Event>, now: real, env: nat -> Attempt, calls: nat, slept: real)
    requires calls < maxRetries && slept == TotalBackoff(base, calls)
    requires forall k: nat :: 0 < k <= calls ==> !env(k).reply.Returns?
    ensures
      var r := RetryFrom(maxRetries, base, h, now, env, calls, slept);
      && calls < r.calls <= maxRetries && r.slept == TotalBackoff(base, r.calls - 1)
      && (forall k: nat :: 0 < k < r.calls ==> !env(k).reply.Returns?)
      && (match r.result
          case Some(value) => env(r.calls).reply == Returns(value)
          case None => r.calls == maxRetries && !env(r.calls).reply.Returns?)
    decreases maxRetries - calls
  {
    if !env(calls + 1).reply.Returns? && calls + 1 < maxRetries {
      var later := now + env(calls + 1).duration;
      var sleep := Backoff(base, calls + 1);
      RetriesUntilSuccess(maxRetries, base, h + [Failure(later)], later + sleep, env, calls + 1, slept + sleep);
    }
  }

  predicate AllFailures(h: seq<Event>) {
    forall k :: 0 <= k < |h| ==> h[k].Failure?
  }

  /** How long calls `from + 1` to `to` take. */
  function Durations(env: nat -> Attempt, from: nat, to: nat): real
    requires from <= to
  {
    if from == to then 0.0 else Durations(env, from, to - 1) + env(to).duration
  }

  lemma {:induction false} DurationsFromFirst(env: nat -> Attempt, from: nat, to: nat)
    requires from < to
    ensures Durations(env, from, to) == env(from + 1).duration + Durations(env, from + 1, to)
  {
    if from + 1 < to {
      DurationsFromFirst(env, from, to - 1);
    }
  }

  /** What the loop tells the breaker, and when it ends: a failure for every failed call and, if it returns,
      one success at the end; after the calls' durations and its sleeps. */
  lemma {:induction false} RetryTellsBreaker(
    maxRetries: int, base: real, h: seq<Event>, now: real, env: nat -> Attempt, calls: nat, slept: real)
    requires AllFailures(h) && |h| == calls
    ensures
      var r := RetryFrom(maxRetries, base, h, now, env, calls, slept);
      && calls <= r.calls == |r.history|
      && (match r.result
          case None => AllFailures(r.history)
          case Some(_) => calls < r.calls && AllFailures(r.history[..r.calls - 1]) && r.history[r.calls - 1] == Success)
      && r.now == now + Durations(env, calls, r.calls) + (r.slept - slept)
    decreases maxRetries - calls
  {
    if calls < maxRetries {
      var later := now + env(calls + 1).duration;
      if env(calls + 1).reply.Returns? {
        assert (h + [Success])[..calls] == h;
      } else {
        var sleep := SleepAfter(maxRetries, base, calls + 1);
        RetryGoesOn(maxRetries, base, h, now, env, calls, slept);
        RetryTellsBreaker(maxRetries, base, h + [Failure(later)], later + sleep, env, calls + 1, slept + sleep);
        DurationsFromFirst(env, calls, RetryFrom(maxRetries, base, h, now, env, calls, slept).calls);
      }
    }
  }

  /** The two loops compared, on remote calls that all fail and a breaker that starts closed: `with_retry`
      makes all `maxRetries` calls; `call` makes fewer exactly when the breaker trips before the last one
      and the sleep that follows is shorter than the recovery timeout. */
  lemma OnlyCallStopsEarly(p: Policy, h: seq<Event>, now: real, env: nat -> Attempt)
    requires p.base >= 0.0 && AlwaysFails(env) && !Tripped(p.breaker, h) && p.maxRetries > 0
    ensures
      var retried := RetryFrom(p.maxRetries, p.base, [], now, env, 0, 0.0);
      var called := CallFrom(p, h, now, env, 1, 0);
      && retried.calls == p.maxRetries && retried.slept == TotalBackoff(p.base, p.maxRetries - 1)
      && (called.rpcs < retried.calls
          <==> UntilOpen(p, h) < p.maxRetries && Backoff(p.base, UntilOpen(p, h)) < p.breaker.timeout)
  {
    RetriesUntilSuccess(p.maxRetries, p.base, [], now, env, 0, 0.0);
    FailingCall(p, h, now, env);
    var r := RetryFrom(p.maxRetries, p.base, [], now, env, 0, 0.0);
    assert env(r.calls).reply == Fails;
  }
}
