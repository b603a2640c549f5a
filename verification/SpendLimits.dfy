/** The wallet's daily spend limits: a Redis counter per agent and UTC day, read by `check` and
    incremented by `record_spend` once a transaction confirmed.

    Between the two a spend is approved but not recorded, and other checks may run.  Amounts are counted
    exactly in some smallest unit, time in seconds. */
module SpendLimits {
  import opened Common

  const DAY := 86400

  datatype Config = Config(perTx: int, daily: int)

  datatype Counter = Counter(value: int, expires: int)

  datatype Key = Key(agent: string, day: int)

  type Redis = map<Key, Counter>

  function DayOf(now: int): int {
    now / DAY
  }

  function Get(redis: Redis, key: Key, now: int): int {
    if key in redis && now < redis[key].expires then redis[key].value else 0
  }

  function SpentToday(redis: Redis, agent: string, now: int): int {
    Get(redis, Key(agent, DayOf(now)), now)
  }

  /** INCRBYFLOAT, then EXPIRE with one day. */
  function Incremented(redis: Redis, agent: string, amount: int, now: int): Redis {
    var key := Key(agent, DayOf(now));
    redis[key := Counter(Get(redis, key, now) + amount, now + DAY)]
  }

  datatype Reason = NotConfigured | OverTransactionLimit | OverDailyLimit

  datatype CheckResult = CheckResult(allowed: bool, reason: Option<Reason>, remaining: Option<int>)

  type Configs = map<string, Config>

  predicate Allows(configs: Configs, redis: Redis, agent: string, amount: int, now: int) {
    && agent in configs
    && amount <= configs[agent].perTx
    && amount <= configs[agent].daily - SpentToday(redis, agent, now)
  }

  class SpendLimitsService {
    const configs: Configs
    var redis: Redis

    constructor (configs: Configs)
      ensures this.configs == configs && redis == map[]
    {
      this.configs := configs;
      redis := map[];
    }

    method Check(agent: string, amount: int, now: int) returns (r: CheckResult)
      ensures r.allowed <==> Allows(configs, redis, agent, amount, now)
      ensures r.allowed ==>
                r.reason == None && r.remaining == Some(configs[agent].daily - SpentToday(redis, agent, now) - amount)
      ensures r.reason == Some(NotConfigured) <==> agent !in configs
      ensures r.reason == Some(OverTransactionLimit) <==> agent in configs && amount > configs[agent].perTx
      ensures r.reason == Some(OverDailyLimit) ==>
                r.remaining == Some(configs[agent].daily - SpentToday(redis, agent, now))
      ensures !r.allowed ==> r.reason.Some?
    {
      if agent !in configs {
        return CheckResult(false, Some(NotConfigured), None);
      }
      var config := configs[agent];
      if amount > config.perTx {
        return CheckResult(false, Some(OverTransactionLimit), None);
      }
      var spentToday := SpentToday(redis, agent, now);
      var remaining := config.daily - spentToday;
      if amount > remaining {
        return CheckResult(false, Some(OverDailyLimit), Some(remaining));
      }
      return CheckResult(true, None, Some(remaining - amount));
    }

    method RecordSpend(agent: string, amount: int, now: int)
      modifies this
      ensures redis == Incremented(old(redis), agent, amount, now)
      ensures SpentToday(redis, agent, now) == SpentToday(old(redis), agent, now) + amount
      ensures forall key: Key :: key != Key(agent, DayOf(now)) ==>
                (key in redis <==> key in old(redis)) && (key in redis ==> redis[key] == old(redis)[key])
      ensures forall other, t :: other != agent ==> SpentToday(redis, other, t) == SpentToday(old(redis), other, t)
    {
      var key := Key(agent, DayOf(now));
      var value := Get(redis, key, now);
      redis := redis[key := Counter(value + amount, now + DAY)];
    }
  }

  /** A recorded spend counts until midnight of its UTC day and not after, whenever it is recorded. */
  lemma CountsUntilMidnight(redis: Redis, agent: string, amount: int, now: int, later: int)
    requires now <= later
    ensures
      var before, after := redis, Incremented(redis, agent, amount, now);
      SpentToday(after, agent, later) ==
        if later / 86400 == now / 86400 then SpentToday(before, agent, now) + amount
        else SpentToday(before, agent, later)
  {
  }

  // ---- Checks and records interleaved -----------------------------------------------------------

  datatype Record = Record(agent: string, day: int, amount: int)

  /** A spend that was approved and is neither recorded nor given up. */
  datatype Approval = Approval(agent: string, amount: int)

  datatype State = State(redis: Redis, records: seq<Record>, open: seq<Approval>, clock: int)

  const INIT := State(map[], [], [], 0)

  /** Time passes; somebody checks; an open spend is recorded, or given up because its transaction failed. */
  datatype Event =
    | Tick(now: int)
    | Check(agent: string, amount: int)
    | Confirm(i: nat)
    | GiveUp(i: nat)

  function Close(open: seq<Approval>, i: nat): seq<Approval>
    requires i < |open|
  {
    open[..i] + open[i + 1..]
  }

  /** One event; one that cannot happen changes nothing. */
  function Step(configs: Configs, s: State, e: Event): State {
    match e
    case Tick(now) => if s.clock <= now then s.(clock := now) else s
    case Check(agent, amount) =>
      if Allows(configs, s.redis, agent, amount, s.clock) then s.(open := s.open + [Approval(agent, amount)]) else s
    case Confirm(i) =>
      if i < |s.open| then
        var a := s.open[i];
        s.(redis := Incremented(s.redis, a.agent, a.amount, s.clock),
           records := s.records + [Record(a.agent, DayOf(s.clock), a.amount)],
           open := Close(s.open, i))
      else s
    case GiveUp(i) => if i < |s.open| then s.(open := Close(s.open, i)) else s
  }

  function Run(configs: Configs, s: State, trace: seq<Event>): State
    decreases |trace|
  {
    if trace == [] then s else Run(configs, Step(configs, s, trace[0]), trace[1..])
  }

  /** What was recorded for the agent on that day. */
  function Recorded(records: seq<Record>, agent: string, day: int): int {
    if records == [] then 0
    else
      var r := records[|records| - 1];
      Recorded(records[..|records| - 1], agent, day) + if r.agent == agent && r.day == day then r.amount else 0
  }

  function Outstanding(open: seq<Approval>, agent: string): int {
    if open == [] then 0
    else Outstanding(open[1..], agent) + if open[0].agent == agent then open[0].amount else 0
  }

  function CountOpen(open: seq<Approval>, agent: string): nat {
    if open == [] then 0 else CountOpen(open[1..], agent) + if open[0].agent == agent then 1 else 0
  }

  lemma RecordedAppends(records: seq<Record>, r: Record, agent: string, day: int)
    ensures Recorded(records + [r], agent, day)
            == Recorded(records, agent, day) + if r.agent == agent && r.day == day then r.amount else 0
  {
    assert (records + [r])[..|records|] == records;
  }

  lemma {:induction false} OutstandingAppends(xs: seq<Approval>, ys: seq<Approval>, agent: string)
    ensures Outstanding(xs + ys, agent) == Outstanding(xs, agent) + Outstanding(ys, agent)
    ensures CountOpen(xs + ys, agent) == CountOpen(xs, agent) + CountOpen(ys, agent)
  {
    if xs == [] {
      assert xs + ys == ys;
    } else {
      assert (xs + ys)[1..] == xs[1..] + ys;
      OutstandingAppends(xs[1..], ys, agent);
    }
  }

  lemma OutstandingOfOne(a: Approval, agent: string)
    ensures Outstanding([a], agent) == if a.agent == agent then a.amount else 0
    ensures CountOpen([a], agent) == if a.agent == agent then 1 else 0
  {
    assert [a][1..] == [];
  }

  lemma ClosingTakesOne(open: seq<Approval>, i: nat, agent: string)
    requires i < |open|
    ensures
      var mine := open[i].agent == agent;
      && Outstanding(Close(open, i), agent) == Outstanding(open, agent) - (if mine then open[i].amount else 0)
      && CountOpen(Close(open, i), agent) == CountOpen(open, agent) - (if mine then 1 else 0)
  {
    assert open == open[..i] + ([open[i]] + open[i + 1..]);
    OutstandingAppends(open[..i], [open[i]] + open[i + 1..], agent);
    OutstandingAppends([open[i]], open[i + 1..], agent);
    OutstandingAppends(open[..i], open[i + 1..], agent);
    OutstandingOfOne(open[i], agent);
  }

  // ---- The counter is the day's recorded sum ----------------------------------------------------

  /** Every counter is its day's recorded sum and outlives its day; no counter means nothing recorded. */
  ghost predicate CountersHold(s: State) {
    && (forall key :: key in s.redis ==>
          s.redis[key].value == Recorded(s.records, key.agent, key.day) && s.redis[key].expires >= (key.day + 1) * DAY)
    && (forall key: Key :: key !in s.redis ==> Recorded(s.records, key.agent, key.day) == 0)
  }

  lemma CounterIsToday(s: State, agent: string)
    requires CountersHold(s)
    ensures SpentToday(s.redis, agent, s.clock) == Recorded(s.records, agent, DayOf(s.clock))
  {
    var key := Key(agent, DayOf(s.clock));
    assert s.clock < (key.day + 1) * DAY;
    if key !in s.redis {
      assert Recorded(s.records, key.agent, key.day) == 0;
    }
  }

  /** One more record, on the counter of its own day. */
  lemma RecordKeepsCounters(s: State, s': State, agent: string, amount: int)
    requires CountersHold(s)
    requires s'.redis == Incremented(s.redis, agent, amount, s.clock)
    requires s'.records == s.records + [Record(agent, DayOf(s.clock), amount)]
    ensures CountersHold(s')
  {
    var mine := Key(agent, DayOf(s.clock));
    CounterIsToday(s, agent);
    forall key: Key
      ensures Recorded(s'.records, key.agent, key.day)
              == Recorded(s.records, key.agent, key.day) + if key == mine then amount else 0
    {
      RecordedAppends(s.records, Record(agent, DayOf(s.clock), amount), key.agent, key.day);
    }
    assert s'.redis == s.redis[mine := s'.redis[mine]];
  }

  lemma StepKeepsCounters(configs: Configs, s: State, e: Event)
    requires CountersHold(s)
    ensures CountersHold(Step(configs, s, e))
  {
    if e.Confirm? && e.i < |s.open| {
      RecordKeepsCounters(s, Step(configs, s, e), s.open[e.i].agent, s.open[e.i].amount);
    }
  }

  // ---- The daily budget -------------------------------------------------------------------------

  /** What the agent has spent today and may still spend on standing approvals. */
  function Committed(s: State, agent: string): int {
    Recorded(s.records, agent, DayOf(s.clock)) + Outstanding(s.open, agent)
  }

  /** The most one spend can be approved for. */
  function PerSpend(c: Config): int {
    Min(c.perTx, c.daily)
  }

  function Budget(c: Config, k: nat): int
    requires k >= 1
  {
    c.daily + (k - 1) * PerSpend(c)
  }

  /** No request is for a negative amount, and the agent never has more than `k` open approvals. */
  predicate Admissible(configs: Configs, s: State, trace: seq<Event>, agent: string, k: nat)
    decreases |trace|
  {
    && CountOpen(s.open, agent) <= k
    && (trace != [] ==>
          && (trace[0].Check? ==> trace[0].amount >= 0)
          && Admissible(configs, Step(configs, s, trace[0]), trace[1..], agent, k))
  }

  ghost predicate OpenIsSound(c: Config, open: seq<Approval>, agent: string) {
    forall i :: 0 <= i < |open| && open[i].agent == agent ==> 0 <= open[i].amount <= PerSpend(c)
  }

  ghost predicate RecordsAreSound(s: State, agent: string) {
    && (forall i :: 0 <= i < |s.records| && s.records[i].agent == agent ==> s.records[i].amount >= 0)
    && (forall i :: 0 <= i < |s.records| ==> s.records[i].day <= DayOf(s.clock))
  }

  ghost predicate BudgetHolds(c: Config, s: State, agent: string, k: nat)
    requires k >= 1
  {
    && CountersHold(s)
    && OpenIsSound(c, s.open, agent)
    && RecordsAreSound(s, agent)
    && Committed(s, agent) <= Max(0, Budget(c, k))
  }

  /** Open approvals add up to at most the daily limit for one and the transaction limit for the others. */
  lemma {:induction false} OpenIsBounded(c: Config, open: seq<Approval>, agent: string)
    requires OpenIsSound(c, open, agent)
    ensures 0 <= Outstanding(open, agent) <= CountOpen(open, agent) * PerSpend(c)
    ensures CountOpen(open, agent) > 0 ==>
              PerSpend(c) >= 0 && Outstanding(open, agent) <= c.daily + (CountOpen(open, agent) - 1) * PerSpend(c)
  {
    if open != [] {
      OpenIsBounded(c, open[1..], agent);
    }
  }

  lemma {:induction false} RecordedNonNegative(records: seq<Record>, agent: string, day: int)
    requires forall i :: 0 <= i < |records| && records[i].agent == agent ==> records[i].amount >= 0
    ensures Recorded(records, agent, day) >= 0
  {
    if records != [] {
      RecordedNonNegative(records[..|records| - 1], agent, day);
    }
  }

  lemma {:induction false} NothingRecordedYet(records: seq<Record>, agent: string, day: int)
    requires forall i :: 0 <= i < |records| ==> records[i].day < day
    ensures Recorded(records, agent, day) == 0
  {
    if records != [] {
      NothingRecordedYet(records[..|records| - 1], agent, day);
    }
  }

  lemma TimesIsMonotonic(a: int, b: int, n: nat)
    requires a <= b
    ensures a * n <= b * n
  {
  }

  lemma CloseKeepsOpenSound(c: Config, open: seq<Approval>, i: nat, agent: string)
    requires OpenIsSound(c, open, agent) && i < |open|
    ensures OpenIsSound(c, Close(open, i), agent)
  {
    forall j | 0 <= j < |Close(open, i)|
      ensures Close(open, i)[j] == open[if j < i then j else j + 1]
    {
    }
  }

  lemma TickKeepsBudget(configs: Configs, c: Config, s: State, now: int, agent: string, k: nat)
    requires k >= 1 && BudgetHolds(c, s, agent, k) && CountOpen(s.open, agent) <= k
    ensures BudgetHolds(c, Step(configs, s, Tick(now)), agent, k)
  {
    var s' := Step(configs, s, Tick(now));
    if DayOf(s.clock) < DayOf(s'.clock) {
      NothingRecordedYet(s.records, agent, DayOf(s'.clock));
      OpenIsBounded(c, s.open, agent);
      if CountOpen(s.open, agent) > 0 {
        TimesIsMonotonic(CountOpen(s.open, agent) - 1, k - 1, PerSpend(c));
      }
    } else {
      assert DayOf(s.clock) == DayOf(s'.clock);
    }
  }

  lemma CheckKeepsBudget(configs: Configs, s: State, who: string, amount: int, agent: string, k: nat)
    requires agent in configs && k >= 1 && BudgetHolds(configs[agent], s, agent, k) && amount >= 0
    requires CountOpen(Step(configs, s, Check(who, amount)).open, agent) <= k
    ensures BudgetHolds(configs[agent], Step(configs, s, Check(who, amount)), agent, k)
  {
    var c := configs[agent];
    var a := Approval(who, amount);
    if Allows(configs, s.redis, who, amount, s.clock) {
      OutstandingAppends(s.open, [a], agent);
      OutstandingOfOne(a, agent);
      if who == agent {
        CounterIsToday(s, agent);
        RecordedNonNegative(s.records, agent, DayOf(s.clock));
        OpenIsBounded(c, s.open, agent);
        TimesIsMonotonic(CountOpen(s.open, agent), k - 1, PerSpend(c));
      }
    }
  }

  lemma ConfirmKeepsBudget(configs: Configs, c: Config, s: State, i: nat, agent: string, k: nat)
    requires k >= 1 && BudgetHolds(c, s, agent, k)
    ensures BudgetHolds(c, Step(configs, s, Confirm(i)), agent, k)
  {
    StepKeepsCounters(configs, s, Confirm(i));
    if i < |s.open| {
      var a := s.open[i];
      ClosingTakesOne(s.open, i, agent);
      CloseKeepsOpenSound(c, s.open, i, agent);
      RecordedAppends(s.records, Record(a.agent, DayOf(s.clock), a.amount), agent, DayOf(s.clock));
    }
  }

  lemma GiveUpKeepsBudget(configs: Configs, c: Config, s: State, i: nat, agent: string, k: nat)
    requires k >= 1 && BudgetHolds(c, s, agent, k)
    ensures BudgetHolds(c, Step(configs, s, GiveUp(i)), agent, k)
  {
    if i < |s.open| {
      ClosingTakesOne(s.open, i, agent);
      CloseKeepsOpenSound(c, s.open, i, agent);
    }
  }

  lemma {:induction false} StepKeepsBudget(configs: Configs, s: State, e: Event, agent: string, k: nat)
    requires agent in configs && k >= 1 && BudgetHolds(configs[agent], s, agent, k)
    requires CountOpen(s.open, agent) <= k && CountOpen(Step(configs, s, e).open, agent) <= k
    requires e.Check? ==> e.amount >= 0
    ensures BudgetHolds(configs[agent], Step(configs, s, e), agent, k)
  {
    match e
    case Tick(now) => TickKeepsBudget(configs, configs[agent], s, now, agent, k);
    case Check(who, amount) => CheckKeepsBudget(configs, s, who, amount, agent, k);
    case Confirm(i) => ConfirmKeepsBudget(configs, configs[agent], s, i, agent, k);
    case GiveUp(i) => GiveUpKeepsBudget(configs, configs[agent], s, i, agent, k);
  }

  lemma {:induction false} RunKeepsBudget(configs: Configs, s: State, trace: seq<Event>, agent: string, k: nat)
    requires agent in configs && k >= 1 && BudgetHolds(configs[agent], s, agent, k)
    requires Admissible(configs, s, trace, agent, k)
    ensures BudgetHolds(configs[agent], Run(configs, s, trace), agent, k)
    decreases |trace|
  {
    if trace != [] {
      StepKeepsBudget(configs, s, trace[0], agent, k);
      RunKeepsBudget(configs, Step(configs, s, trace[0]), trace[1..], agent, k);
    }
  }

  /** However checks, records and midnights interleave, with at most `k` open approvals at a time an agent
      never commits more than its daily limit and `k - 1` transaction limits, or daily limits where those are
      lower; with one, exactly the daily limit holds.  And the counter `check` reads is what was recorded on
      that day. */
  lemma DailyBudgetHolds(configs: Configs, trace: seq<Event>, agent: string, k: nat)
    requires agent in configs && k >= 1 && Admissible(configs, INIT, trace, agent, k)
    ensures
      var s := Run(configs, INIT, trace);
      var c := configs[agent];
      && Committed(s, agent) <= Max(0, c.daily + (k - 1) * Min(c.perTx, c.daily))
      && Committed(s, agent) <= Max(0, c.daily + (k - 1) * c.perTx)
      && SpentToday(s.redis, agent, s.clock) == Recorded(s.records, agent, DayOf(s.clock))
  {
    RunKeepsBudget(configs, INIT, trace, agent, k);
    CounterIsToday(Run(configs, INIT, trace), agent);
    LowerEach(k - 1, Min(configs[agent].perTx, configs[agent].daily), configs[agent].perTx);
  }

  lemma LowerEach(n: nat, low: int, high: int)
    requires low <= high
    ensures n * low <= n * high
  {
  }

  // ---- The bound is reached ---------------------------------------------------------------------

  /** The trace is admissible from `s` on and commits the agent to `amount` in the end. */
  predicate Commits(configs: Configs, s: State, trace: seq<Event>, agent: string, k: nat, amount: int) {
    Admissible(configs, s, trace, agent, k) && Committed(Run(configs, s, trace), agent) == amount
  }

  lemma PrependEvent(configs: Configs, s: State, e: Event, rest: seq<Event>, agent: string, k: nat, amount: int)
    requires CountOpen(s.open, agent) <= k && (e.Check? ==> e.amount >= 0)
    requires Commits(configs, Step(configs, s, e), rest, agent, k, amount)
    ensures Commits(configs, s, [e] + rest, agent, k, amount)
  {
    assert ([e] + rest)[0] == e && ([e] + rest)[1..] == rest;
  }

  /** Checks for as much as one spend may be, with that much left today, are all approved. */
  lemma {:induction false} AskInARow(configs: Configs, s: State, agent: string, k: nat, n: nat)
    returns (trace: seq<Event>)
    requires agent in configs && CountersHold(s) && CountOpen(s.open, agent) + n <= k
    requires PerSpend(configs[agent]) >= 0
    requires Recorded(s.records, agent, DayOf(s.clock)) == configs[agent].daily - PerSpend(configs[agent])
    ensures Commits(configs, s, trace, agent, k, Committed(s, agent) + n * PerSpend(configs[agent]))
    decreases n
  {
    trace := [];
    if n > 0 {
      var each := PerSpend(configs[agent]);
      var e := Check(agent, each);
      CounterIsToday(s, agent);
      OutstandingAppends(s.open, [Approval(agent, each)], agent);
      OutstandingOfOne(Approval(agent, each), agent);
      var rest := AskInARow(configs, Step(configs, s, e), agent, k, n - 1);
      assert n * each == (n - 1) * each + each;
      PrependEvent(configs, s, e, rest, agent, k, Committed(s, agent) + n * each);
      trace := [e] + rest;
    }
  }

  /** One spend, checked and recorded. */
  lemma SpendOnce(configs: Configs, s: State, agent: string, amount: int)
    requires agent in configs && CountersHold(s) && s.open == []
    requires amount <= configs[agent].perTx
    requires Recorded(s.records, agent, DayOf(s.clock)) + amount <= configs[agent].daily
    ensures
      var s1 := Step(configs, s, Check(agent, amount));
      var s2 := Step(configs, s1, Confirm(0));
      && CountOpen(s1.open, agent) == 1
      && CountersHold(s2) && s2.open == [] && s2.clock == s.clock
      && Recorded(s2.records, agent, DayOf(s.clock)) == Recorded(s.records, agent, DayOf(s.clock)) + amount
  {
    CounterIsToday(s, agent);
    var s1 := Step(configs, s, Check(agent, amount));
    assert s1.open == [Approval(agent, amount)];
    OutstandingOfOne(Approval(agent, amount), agent);
    StepKeepsCounters(configs, s1, Confirm(0));
    RecordedAppends(s1.records, Record(agent, DayOf(s.clock), amount), agent, DayOf(s.clock));
  }

  /** Spend until no more than one spend may be is left today, then ask for that `k` times in a row. */
  lemma {:induction false} SpendThenAsk(configs: Configs, s: State, agent: string, k: nat) returns (trace: seq<Event>)
    requires agent in configs && k >= 1 && CountersHold(s) && s.open == []
    requires
      var spent := Recorded(s.records, agent, DayOf(s.clock));
      var left := configs[agent].daily - PerSpend(configs[agent]) - spent;
      (left == 0 && 0 <= PerSpend(configs[agent])) || (0 < left && 0 < PerSpend(configs[agent]))
    ensures Commits(configs, s, trace, agent, k, Budget(configs[agent], k))
    decreases configs[agent].daily - Recorded(s.records, agent, DayOf(s.clock))
  {
    var each := PerSpend(configs[agent]);
    var left := configs[agent].daily - each - Recorded(s.records, agent, DayOf(s.clock));
    if left == 0 {
      trace := AskInARow(configs, s, agent, k, k);
      assert k * each == (k - 1) * each + each;
    } else {
      var amount := Min(each, left);
      SpendOnce(configs, s, agent, amount);
      var s1 := Step(configs, s, Check(agent, amount));
      var rest := SpendThenAsk(configs, Step(configs, s1, Confirm(0)), agent, k);
      PrependEvent(configs, s1, Confirm(0), rest, agent, k, Budget(configs[agent], k));
      PrependEvent(configs, s, Check(agent, amount), [Confirm(0)] + rest, agent, k, Budget(configs[agent], k));
      trace := [Check(agent, amount)] + ([Confirm(0)] + rest);
    }
  }

  /** With a transaction limit of zero nothing is ever committed. */
  ghost predicate NothingSpent(s: State, agent: string) {
    && (forall i :: 0 <= i < |s.open| && s.open[i].agent == agent ==> s.open[i].amount == 0)
    && (forall i :: 0 <= i < |s.records| && s.records[i].agent == agent ==> s.records[i].amount == 0)
  }

  lemma {:induction false} NothingOutstanding(open: seq<Approval>, agent: string)
    requires forall i :: 0 <= i < |open| && open[i].agent == agent ==> open[i].amount == 0
    ensures Outstanding(open, agent) == 0
  {
    if open != [] {
      NothingOutstanding(open[1..], agent);
    }
  }

  lemma {:induction false} NothingRecorded(records: seq<Record>, agent: string, day: int)
    requires forall i :: 0 <= i < |records| && records[i].agent == agent ==> records[i].amount == 0
    ensures Recorded(records, agent, day) == 0
  {
    if records != [] {
      NothingRecorded(records[..|records| - 1], agent, day);
    }
  }

  lemma {:induction false} RunSpendsNothing(configs: Configs, s: State, trace: seq<Event>, agent: string, k: nat)
    requires agent in configs && configs[agent].perTx == 0
    requires NothingSpent(s, agent) && Admissible(configs, s, trace, agent, k)
    ensures Committed(Run(configs, s, trace), agent) == 0
    decreases |trace|
  {
    if trace == [] {
      NothingOutstanding(s.open, agent);
      NothingRecorded(s.records, agent, DayOf(s.clock));
    } else {
      StepSpendsNothing(configs, s, trace[0], agent);
      RunSpendsNothing(configs, Step(configs, s, trace[0]), trace[1..], agent, k);
    }
  }

  lemma StepSpendsNothing(configs: Configs, s: State, e: Event, agent: string)
    requires agent in configs && configs[agent].perTx == 0
    requires NothingSpent(s, agent) && (e.Check? ==> e.amount >= 0)
    ensures NothingSpent(Step(configs, s, e), agent)
  {
    if (e.Confirm? || e.GiveUp?) && e.i < |s.open| {
      forall j | 0 <= j < |Close(s.open, e.i)|
        ensures Close(s.open, e.i)[j] == s.open[if j < e.i then j else j + 1]
      {
      }
    }
  }

  /** For limits that are not negative the bound is reached by some run, for every `k`, exactly when anything
      can be spent at all or there is nothing to spend. */
  lemma BudgetIsReachedExactlyWhen(configs: Configs, agent: string, k: nat)
    requires agent in configs && k >= 1 && configs[agent].perTx >= 0 && configs[agent].daily >= 0
    ensures
      (exists trace :: Commits(configs, INIT, trace, agent, k, Budget(configs[agent], k)))
      <==> configs[agent].perTx > 0 || configs[agent].daily == 0
  {
    var budget := Budget(configs[agent], k);
    if configs[agent].perTx > 0 || configs[agent].daily == 0 {
      var trace := SpendThenAsk(configs, INIT, agent, k);
    } else {
      forall trace | Admissible(configs, INIT, trace, agent, k)
        ensures Committed(Run(configs, INIT, trace), agent) != budget
      {
        RunSpendsNothing(configs, INIT, trace, agent, k);
      }
    }
  }
}
