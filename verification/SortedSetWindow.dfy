/** The guardrail's rate limiter: a Redis sorted set per user, scored by whole seconds.

    A request is handled as one step: the four Redis commands of one request do not interleave with
    those of another. */
module SortedSetWindow {
  import opened Common
  import Decimal

  /** `maxRequests` in `window` whole seconds. */
  datatype Limits = Limits(maxRequests: int, window: int)

  datatype Request = Request(user: string, at: int)

  /** The member "score:serial", stored with that score. */
  datatype Entry = Entry(score: int, serial: nat)

  function MemberName(e: Entry): string {
    Decimal.Print(e.score) + ":" + Decimal.Print(e.serial)
  }

  /** Redis tells members apart by name alone, which is as good as telling entries apart. */
  lemma MemberNamesDiffer(e: Entry, f: Entry)
    ensures MemberName(e) == MemberName(f) ==> e == f
  {
    Decimal.PrintIsInjective(e.score, f.score);
    Decimal.PrintIsInjective(f.score, e.score);
    Decimal.PrintIsInjective(e.serial, f.serial);
    if MemberName(e) == MemberName(f) {
      Decimal.JoinIsInjective(
        Decimal.Print(e.score), Decimal.Print(e.serial), Decimal.Print(f.score), Decimal.Print(f.serial));
    }
  }

  /** A sorted set and the time at which Redis drops its key. */
  datatype Stored = Stored(entries: set<Entry>, expires: int)

  type Redis = map<string, Stored>

  /** Clock ticks in a second; Redis keeps finer time than the scores. */
  const TICKS := 1_000_000

  /** Python's int() of a clock reading that is not negative. */
  function Second(at: int): int {
    at / TICKS
  }

  /** What Redis holds for the user at that time. */
  function Live(redis: Redis, user: string, at: int): set<Entry> {
    if user in redis && at < redis[user].expires then redis[user].entries else {}
  }

  /** ZREMRANGEBYSCORE from 0 to `upTo`. */
  function RemoveUpTo(entries: set<Entry>, upTo: int): set<Entry> {
    set e | e in entries && !(0 <= e.score <= upTo)
  }

  /** The user's sorted set once the entries that left the window are removed. */
  function Trimmed(l: Limits, redis: Redis, r: Request): Stored {
    Stored(RemoveUpTo(Live(redis, r.user, r.at), Second(r.at) - l.window),
           if r.user in redis then redis[r.user].expires else r.at)
  }

  /** The set after ZADD and EXPIRE. */
  function WithEntry(l: Limits, s: Stored, at: int): Stored {
    Stored(s.entries + {Entry(Second(at), |s.entries|)}, at + l.window * TICKS)
  }

  /** What Redis holds, and what has happened: the requests that went through and the second in which
      each user last asked. */
  datatype State = State(redis: Redis, accepted: seq<Request>, last: map<string, int>, clock: int)

  const INIT := State(map[], [], map[], 0)

  predicate GoesThrough(l: Limits, s: State, r: Request) {
    |Trimmed(l, s.redis, r).entries| < l.maxRequests
  }

  function Step(l: Limits, s: State, r: Request): State {
    var trimmed := Trimmed(l, s.redis, r);
    var last := s.last[r.user := Second(r.at)];
    if GoesThrough(l, s, r) then
      State(s.redis[r.user := WithEntry(l, trimmed, r.at)], s.accepted + [r], last, r.at)
    else
      State(s.redis[r.user := trimmed], s.accepted, last, r.at)
  }

  function Run(l: Limits, s: State, h: seq<Request>): State
    decreases |h|
  {
    if h == [] then s else Run(l, Step(l, s, h[0]), h[1..])
  }

  /** No request comes before the one before it. */
  predicate ClockGoesForward(clock: int, h: seq<Request>)
    decreases |h|
  {
    h == [] || (clock <= h[0].at && ClockGoesForward(h[0].at, h[1..]))
  }

  /** The seconds in which the user's requests went through, oldest first. */
  function Seconds(accepted: seq<Request>, user: string): seq<int> {
    if accepted == [] then []
    else
      var r := accepted[|accepted| - 1];
      Seconds(accepted[..|accepted| - 1], user) + if r.user == user then [Second(r.at)] else []
  }

  function CountIn(seconds: seq<int>, from: int, to: int): nat {
    if seconds == [] then 0
    else CountIn(seconds[..|seconds| - 1], from, to) + if from <= seconds[|seconds| - 1] <= to then 1 else 0
  }

  // ---- The sorted set counts the accepted requests of the window --------------------------------

  function ScoresIn(entries: set<Entry>, from: int, to: int): set<Entry> {
    set e | e in entries && from <= e.score <= to
  }

  /** Once a request of the user has been served in second `now`: every entry is in the window, the set
      counts what went through, names made in this second have smaller serials than the next one, and the
      key outlives its entries. */
  ghost predicate SetCounts(l: Limits, s: Stored, seconds: seq<int>, now: int) {
    && (forall e :: e in s.entries ==> now - l.window < e.score <= now && 0 <= e.score)
    && (forall e :: e in s.entries && e.score == now ==> e.serial < |s.entries|)
    && (forall from :: from > now - l.window ==> |ScoresIn(s.entries, from, now)| == CountIn(seconds, from, now))
    && (forall e :: e in s.entries ==> (e.score + l.window) * TICKS <= s.expires)
    && (forall i :: 0 <= i < |seconds| ==> seconds[i] <= now)
  }

  lemma {:induction false} CountShifts(seconds: seq<int>, from: int, to: int, to': int)
    requires to <= to' && forall i :: 0 <= i < |seconds| ==> seconds[i] <= to
    ensures CountIn(seconds, from, to') == CountIn(seconds, from, to)
  {
    if seconds != [] {
      CountShifts(seconds[..|seconds| - 1], from, to, to');
    }
  }

  lemma CountAppends(seconds: seq<int>, second: int, from: int, to: int)
    ensures CountIn(seconds + [second], from, to) == CountIn(seconds, from, to) + if from <= second <= to then 1 else 0
  {
    assert (seconds + [second])[..|seconds|] == seconds;
  }

  /** Later on, trimming leaves the same entries whether or not Redis has dropped the key meanwhile: an
      expired key had no entry left that would still count. */
  lemma ExpiryDropsNothing(l: Limits, s: Stored, seconds: seq<int>, now: int, at: int)
    requires SetCounts(l, s, seconds, now) && at >= 0 && now <= Second(at)
    ensures
      RemoveUpTo(if at < s.expires then s.entries else {}, Second(at) - l.window)
      == set e | e in s.entries && e.score > Second(at) - l.window
  {
    if at >= s.expires {
      forall e | e in s.entries ensures e.score <= Second(at) - l.window {
        assert (e.score + l.window) * TICKS <= at;
      }
    }
  }

  /** Trimming at a later second keeps the set counting what went through. */
  lemma TrimKeepsCounting(l: Limits, s: Stored, seconds: seq<int>, now: int, later: int)
    requires SetCounts(l, s, seconds, now) && now <= later && l.window > 0
    ensures
      var entries := set e | e in s.entries && e.score > later - l.window;
      SetCounts(l, Stored(entries, s.expires), seconds, later)
  {
    var entries := set e | e in s.entries && e.score > later - l.window;
    if later == now {
      assert entries == s.entries;
    }
    forall from | from > later - l.window
      ensures |ScoresIn(entries, from, later)| == CountIn(seconds, from, later)
    {
      assert ScoresIn(entries, from, later) == ScoresIn(s.entries, from, now);
      CountShifts(seconds, from, now, later);
    }
  }

  /** What ZCARD counts is what went through in the last `window` seconds, this one included. */
  lemma CardIsCount(l: Limits, s: Stored, seconds: seq<int>, now: int)
    requires SetCounts(l, s, seconds, now) && l.window > 0
    ensures |s.entries| == CountIn(seconds, now - l.window + 1, now)
  {
    assert ScoresIn(s.entries, now - l.window + 1, now) == s.entries;
  }

  /** The new member's name is not in the set yet, and adding it keeps the set counting. */
  lemma AddKeepsCounting(l: Limits, s: Stored, seconds: seq<int>, at: int)
    requires SetCounts(l, s, seconds, Second(at)) && l.window > 0 && at >= 0
    ensures Entry(Second(at), |s.entries|) !in s.entries
    ensures SetCounts(l, WithEntry(l, s, at), seconds + [Second(at)], Second(at))
  {
    var now := Second(at);
    var entry := Entry(now, |s.entries|);
    assert entry !in s.entries;
    var entries := s.entries + {entry};
    forall from | from > now - l.window
      ensures |ScoresIn(entries, from, now)| == CountIn(seconds + [now], from, now)
    {
      CountAppends(seconds, now, from, now);
      if from <= now {
        assert ScoresIn(entries, from, now) == ScoresIn(s.entries, from, now) + {entry};
      } else {
        assert ScoresIn(entries, from, now) == {} && ScoresIn(s.entries, from, now) == {};
      }
    }
    forall e | e in entries ensures (e.score + l.window) * TICKS <= at + l.window * TICKS {
      assert e.score * TICKS <= at;
    }
  }

  lemma TrimOne(l: Limits, s: Stored, seconds: seq<int>, last: int, at: int)
    requires SetCounts(l, s, seconds, last) && at >= 0 && last <= Second(at) && l.window > 0
    ensures
      SetCounts(l, Stored(RemoveUpTo(if at < s.expires then s.entries else {}, Second(at) - l.window), s.expires),
                seconds, Second(at))
  {
    ExpiryDropsNothing(l, s, seconds, last, at);
    TrimKeepsCounting(l, s, seconds, last, Second(at));
  }

  // ---- Every run --------------------------------------------------------------------------------

  /** How many requests went through in the `window` consecutive seconds from `from` on. */
  function InWindow(l: Limits, seconds: seq<int>, from: int): nat {
    CountIn(seconds, from, from + l.window - 1)
  }

  ghost predicate LimitHolds(l: Limits, seconds: seq<int>) {
    forall from :: InWindow(l, seconds, from) <= Max(0, l.maxRequests)
  }

  ghost predicate UserHolds(l: Limits, s: State, user: string) {
    var seconds := Seconds(s.accepted, user);
    && LimitHolds(l, seconds)
    && (user in s.redis <==> user in s.last)
    && (user !in s.redis ==> seconds == [])
    && (user in s.redis ==> SetCounts(l, s.redis[user], seconds, s.last[user]) && s.last[user] <= Second(s.clock))
  }

  ghost predicate Inv(l: Limits, s: State) {
    s.clock >= 0 && forall user :: UserHolds(l, s, user)
  }

  /** What the set holds when the limiter counts it is what went through in the window. */
  lemma TrimmedCounts(l: Limits, s: State, r: Request)
    requires UserHolds(l, s, r.user) && l.window > 0 && 0 <= s.clock <= r.at
    ensures SetCounts(l, Trimmed(l, s.redis, r), Seconds(s.accepted, r.user), Second(r.at))
  {
    if r.user in s.redis {
      TrimOne(l, s.redis[r.user], Seconds(s.accepted, r.user), s.last[r.user], r.at);
    } else {
      assert forall from :: ScoresIn({}, from, Second(r.at)) == {};
    }
  }

  /** A request is rejected exactly when `maxRequests` of the user's went through in the last `window`
      seconds. */
  lemma RejectedExactlyWhenFull(l: Limits, s: State, r: Request)
    requires Inv(l, s) && l.window > 0 && s.clock <= r.at
    ensures GoesThrough(l, s, r) <==>
            CountIn(Seconds(s.accepted, r.user), Second(r.at) - l.window + 1, Second(r.at)) < l.maxRequests
  {
    assert UserHolds(l, s, r.user);
    TrimmedCounts(l, s, r);
    CardIsCount(l, Trimmed(l, s.redis, r), Seconds(s.accepted, r.user), Second(r.at));
  }

  lemma {:induction false} CountSkipsOld(seconds: seq<int>, from: int, from': int, to: int, to': int)
    requires from' <= from && (forall i :: 0 <= i < |seconds| ==> seconds[i] <= to')
    ensures CountIn(seconds, from, to) <= CountIn(seconds, from', to')
  {
    if seconds != [] {
      CountSkipsOld(seconds[..|seconds| - 1], from, from', to, to');
    }
  }

  lemma AcceptingKeepsLimit(l: Limits, seconds: seq<int>, now: int)
    requires LimitHolds(l, seconds) && CountIn(seconds, now - l.window + 1, now) < l.maxRequests
    requires forall i :: 0 <= i < |seconds| ==> seconds[i] <= now
    ensures LimitHolds(l, seconds + [now])
  {
    forall from
      ensures InWindow(l, seconds + [now], from) <= Max(0, l.maxRequests)
    {
      assert InWindow(l, seconds, from) <= Max(0, l.maxRequests);
      CountAppends(seconds, now, from, from + l.window - 1);
      if now <= from + l.window - 1 {
        CountSkipsOld(seconds, from, now - l.window + 1, from + l.window - 1, now);
      }
    }
  }

  lemma SecondsAppend(accepted: seq<Request>, r: Request, user: string)
    ensures Seconds(accepted + [r], user) == Seconds(accepted, user) + if r.user == user then [Second(r.at)] else []
  {
    assert (accepted + [r])[..|accepted|] == accepted;
  }

  lemma StepKeepsUser(l: Limits, s: State, r: Request)
    requires UserHolds(l, s, r.user) && l.window > 0 && 0 <= s.clock <= r.at
    ensures UserHolds(l, Step(l, s, r), r.user)
  {
    var trimmed, seconds, now := Trimmed(l, s.redis, r), Seconds(s.accepted, r.user), Second(r.at);
    TrimmedCounts(l, s, r);
    CardIsCount(l, trimmed, seconds, now);
    if |trimmed.entries| < l.maxRequests {
      SecondsAppend(s.accepted, r, r.user);
      AcceptingKeepsLimit(l, seconds, now);
      AddKeepsCounting(l, trimmed, seconds, r.at);
    }
  }

  lemma StepKeepsOtherUser(l: Limits, s: State, r: Request, user: string)
    requires UserHolds(l, s, user) && user != r.user && s.clock <= r.at
    ensures UserHolds(l, Step(l, s, r), user)
  {
    SecondsAppend(s.accepted, r, user);
    assert Seconds(Step(l, s, r).accepted, user) == Seconds(s.accepted, user);
  }

  lemma StepKeepsInv(l: Limits, s: State, r: Request)
    requires Inv(l, s) && l.window > 0 && s.clock <= r.at
    ensures Inv(l, Step(l, s, r))
  {
    forall user ensures UserHolds(l, Step(l, s, r), user) {
      assert UserHolds(l, s, user);
      if user == r.user {
        StepKeepsUser(l, s, r);
      } else {
        StepKeepsOtherUser(l, s, r, user);
      }
    }
  }

  lemma {:induction false} RunKeepsInv(l: Limits, s: State, h: seq<Request>)
    requires Inv(l, s) && l.window > 0 && ClockGoesForward(s.clock, h)
    ensures Inv(l, Run(l, s, h))
    decreases |h|
  {
    if h != [] {
      StepKeepsInv(l, s, h[0]);
      RunKeepsInv(l, Step(l, s, h[0]), h[1..]);
    }
  }

  /** After any requests of any users with a clock that does not go back: any `window` consecutive seconds
      hold at most `maxRequests` accepted requests of a user, and the next request at or after the last
      is rejected exactly when the window that ends with it is full. */
  lemma LimitHoldsInEveryWindow(l: Limits, h: seq<Request>, user: string, from: int, r: Request)
    requires l.window > 0 && ClockGoesForward(0, h) && Run(l, INIT, h).clock <= r.at
    ensures
      var s := Run(l, INIT, h);
      && InWindow(l, Seconds(s.accepted, user), from) <= Max(0, l.maxRequests)
      && (GoesThrough(l, s, r) <==>
          CountIn(Seconds(s.accepted, r.user), Second(r.at) - l.window + 1, Second(r.at)) < l.maxRequests)
  {
    assert forall from :: InWindow(l, [], from) == 0;
    RunKeepsInv(l, INIT, h);
    assert UserHolds(l, Run(l, INIT, h), user);
    RejectedExactlyWhenFull(l, Run(l, INIT, h), r);
  }

  class AbuseDetectionService {
    const limits: Limits
    var redis: Redis
    ghost var accepted: seq<Request>
    ghost var last: map<string, int>
    ghost var clock: int

    ghost function View(): State
      reads this
    {
      State(redis, accepted, last, clock)
    }

    constructor (window: int, maxRequests: int)
      ensures View() == INIT && limits == Limits(maxRequests, window)
    {
      limits := Limits(maxRequests, window);
      redis, accepted, last, clock := map[], [], map[], 0;
    }

    method CheckRateLimit(user: string, at: int) returns (allowed: bool)
      modifies this
      ensures View() == Step(limits, old(View()), Request(user, at))
      ensures allowed == GoesThrough(limits, old(View()), Request(user, at))
    {
      var now := Second(at);
      var windowStart := now - limits.window;

      // zremrangebyscore, then zcard
      var entries := RemoveUpTo(Live(redis, user, at), windowStart);
      var requestCount := |entries|;
      allowed := requestCount < limits.maxRequests;
      if allowed {
        // zadd, then expire
        redis := redis[user := Stored(entries + {Entry(now, requestCount)}, at + limits.window * TICKS)];
        accepted := accepted + [Request(user, at)];
      } else {
        redis := redis[user := Stored(entries, if user in redis then redis[user].expires else at)];
      }
      last := last[user := now];
      clock := at;
    }
  }
}
