/** What the executor confirms, what it records as spent, and what the chain accepted. */
module SpendAccounts {
  import opened Common
  import opened Graph
  import opened GraphRuns

  datatype Account = Receipts | Records | Confirmations

  function Credit(account: Account, note: Note): int {
    match note
    case ReceiptOk(_, _, subtask) => if account == Receipts then subtask.amountUsd else 0
    case Recorded(amount, times) => if account == Records then times * amount else 0
    case Confirmed(_, _, amount) => if account == Confirmations then amount else 0
    case _ => 0
  }

  function Total(account: Account, log: seq<Note>): int {
    if log == [] then 0 else Total(account, log[..|log| - 1]) + Credit(account, log[|log| - 1])
  }

  lemma {:induction false} TotalAppends(account: Account, xs: seq<Note>, ys: seq<Note>)
    ensures Total(account, xs + ys) == Total(account, xs) + Total(account, ys)
  {
    if ys == [] {
      assert xs + ys == xs;
    } else {
      assert (xs + ys)[..|xs + ys| - 1] == xs + ys[..|ys| - 1];
      TotalAppends(account, xs, ys[..|ys| - 1]);
    }
  }

  /** Confirmed spending has been recorded, and recorded spending has a successful receipt, `MaxTries`
      times at most. */
  ghost predicate Balanced(v: Variant, log: seq<Note>) {
    && Total(Confirmations, log) <= Total(Records, log)
    && Total(Records, log) <= MaxTries(v) * Total(Receipts, log)
  }

  ghost predicate NonNegative(plan: seq<SubTask>) {
    forall i :: 0 <= i < |plan| ==> plan[i].amountUsd >= 0
  }

  /** A possible answer whose plan asks for no negative amount. */
  ghost predicate Fair(v: Variant, a: Answer) {
    Possible(v, a) && (a.plan.Some? ==> NonNegative(a.plan.value))
  }

  lemma TotalOfOne(account: Account, note: Note)
    ensures Total(account, [note]) == Credit(account, note)
  {
    assert [note][..0] == [];
  }

  /** What the notes of one attempt add to each account. */
  function CreditOfAttempt(account: Account, v: Variant, amount: int, t: Attempt): int {
    match account
    case Receipts => if ReceiptSucceeds(t) then amount else 0
    case Records => if ReceiptSucceeds(t) then t.recorded * amount else 0
    case Confirmations => if ResultOf(v, t).confirmed then amount else 0
  }

  lemma TotalOfReceipts(account: Account, v: Variant, s: State, t: Attempt)
    requires s.index < |s.subtasks|
    ensures Total(account, ReceiptNotes(s, t))
            == if account == Confirmations then 0 else CreditOfAttempt(account, v, s.subtasks[s.index].amountUsd, t)
  {
    var receipt := ReceiptOk(s.plans, s.index, s.subtasks[s.index]);
    var record := Recorded(s.subtasks[s.index].amountUsd, t.recorded);
    TotalAppends(account, [receipt], [record]);
    TotalOfOne(account, receipt);
    TotalOfOne(account, record);
  }

  lemma TotalOfAttempt(account: Account, v: Variant, s: State, t: Attempt)
    requires s.index < |s.subtasks|
    ensures Total(account, NotesOf(v, s, t)) == CreditOfAttempt(account, v, s.subtasks[s.index].amountUsd, t)
  {
    var amount := s.subtasks[s.index].amountUsd;
    TotalAppends(account, DispatchNotes(s, t) + ReceiptNotes(s, t), ConfirmNotes(v, s, amount, t));
    TotalAppends(account, DispatchNotes(s, t), ReceiptNotes(s, t));
    TotalOfOne(account, Dispatched(s.plans, s.index, s.subtasks[s.index], t.tries));
    TotalOfReceipts(account, v, s, t);
    TotalOfOne(account, Confirmed(s.plans, s.index, amount));
  }

  /** A confirmed attempt was recorded at least once, and no attempt is recorded more than MaxTries times. */
  lemma AttemptIsBalanced(v: Variant, amount: int, a: Answer)
    requires Possible(v, a) && amount >= 0
    ensures CreditOfAttempt(Confirmations, v, amount, a.attempt) <= CreditOfAttempt(Records, v, amount, a.attempt)
    ensures CreditOfAttempt(Records, v, amount, a.attempt)
            <= MaxTries(v) * CreditOfAttempt(Receipts, v, amount, a.attempt)
  {
    var n := a.attempt.recorded;
    assert n == 0 || n == 1 || n == 2;
  }

  lemma ExecutorKeepsBalanced(v: Variant, s: State, a: Answer)
    requires s.node == Executor && s.index < |s.subtasks| && s.simulation == Some(true)
    requires Balanced(v, s.log) && NonNegative(s.subtasks) && Possible(v, a)
    ensures Balanced(v, Step(v, s, a).log)
  {
    var notes := [Pass(s.retryCount, s.index)] + NotesOf(v, s, a.attempt);
    assert Step(v, s, a).log == s.log + notes;
    forall account: Account
      ensures Total(account, s.log + notes)
              == Total(account, s.log) + CreditOfAttempt(account, v, s.subtasks[s.index].amountUsd, a.attempt)
    {
      TotalAppends(account, s.log, notes);
      TotalAppends(account, [Pass(s.retryCount, s.index)], NotesOf(v, s, a.attempt));
      TotalOfOne(account, Pass(s.retryCount, s.index));
      TotalOfAttempt(account, v, s, a.attempt);
    }
    AttemptIsBalanced(v, s.subtasks[s.index].amountUsd, a);
  }

  lemma NoteKeepsBalanced(v: Variant, log: seq<Note>, note: Note)
    requires Balanced(v, log) && (note.Pass? || note.Checked?)
    ensures Balanced(v, log + [note])
  {
    forall account: Account ensures Total(account, log + [note]) == Total(account, log) {
      TotalAppends(account, log, [note]);
      TotalOfOne(account, note);
    }
  }

  lemma StepKeepsBalanced(v: Variant, s: State, a: Answer)
    requires Balanced(v, s.log) && NonNegative(s.subtasks) && Fair(v, a)
    ensures Balanced(v, Step(v, s, a).log) && NonNegative(Step(v, s, a).subtasks)
  {
    LogIsExtended(v, s, a);
    if s.node == Executor && s.index < |s.subtasks| {
      if s.simulation == Some(true) {
        ExecutorKeepsBalanced(v, s, a);
      } else {
        assert Step(v, s, a).log == s.log + [Pass(s.retryCount, s.index)];
        NoteKeepsBalanced(v, s.log, Pass(s.retryCount, s.index));
      }
    } else if s.node == Simulator && Step(v, s, a).log != s.log {
      NoteKeepsBalanced(v, s.log, Checked(s.plans, s.index, a.policyPasses));
    }
  }

  lemma {:induction false} StepsKeepBalanced(v: Variant, s: State, answers: nat -> Answer, k: nat, n: nat)
    requires Balanced(v, s.log) && NonNegative(s.subtasks) && forall m :: Fair(v, answers(m))
    ensures Balanced(v, Steps(v, s, answers, k, n).log)
    decreases n
  {
    if n > 0 {
      StepKeepsBalanced(v, s, answers(k));
      StepsKeepBalanced(v, Step(v, s, answers(k)), answers, k + 1, n - 1);
    }
  }

  /** Over any run with non-negative amounts: what was confirmed is covered by what was recorded, and what
      was recorded by successful receipts, once each in the service and twice at most in contracts/. */
  lemma SpendIsAccountedFor(v: Variant, maxRetries: int, answers: nat -> Answer)
    requires forall n :: Fair(v, answers(n))
    ensures
      var log := RunToEnd(v, Init(maxRetries), answers, 0).log;
      && Total(Confirmations, log) <= Total(Records, log)
      && Total(Records, log) <= (if v == Service then 1 else 2) * Total(Receipts, log)
  {
    RunTakesSteps(v, Init(maxRetries), answers, 0);
    StepsKeepBalanced(v, Init(maxRetries), answers, 0, Length(v, Init(maxRetries), answers, 0));
  }

  // ---- The bound is reached ---------------------------------------------------------------------

  /** The model plans `x` alone and everything goes well, except that record_spend takes effect `times`
      times: in contracts/ the call is repeated when it raised after taking effect. */
  function RecordedTimes(x: SubTask, times: nat): Answer {
    Answer(Some([x]), true, false, false, true, Attempt(1, None, None, true, times, None, None), false)
  }

  /** With that answer throughout: nothing is on record until the executor has run, and then all is. */
  ghost predicate OnRecord(s: State, x: SubTask, times: nat) {
    var done := s.node == Critic || s.node == End;
    && s.node != Aborted
    && (s.node != Planner ==> s.subtasks == [x] && s.index == 0)
    && (s.node == Executor ==> s.simulation == Some(true))
    && (s.node == Critic ==> s.execution == Some(Execution(true, "")))
    && Total(Receipts, s.log) == (if done then x.amountUsd else 0)
    && Total(Records, s.log) == (if done then times * x.amountUsd else 0)
  }

  lemma ExecutorRecords(v: Variant, s: State, x: SubTask, times: nat)
    requires OnRecord(s, x, times) && s.node == Executor
    ensures OnRecord(Step(v, s, RecordedTimes(x, times)), x, times)
  {
    var a := RecordedTimes(x, times);
    var notes := [Pass(s.retryCount, s.index)] + NotesOf(v, s, a.attempt);
    var s' := Step(v, s, a);
    assert s'.log == s.log + notes;
    forall account: Account
      ensures Total(account, s'.log)
              == Total(account, s.log) + CreditOfAttempt(account, v, x.amountUsd, a.attempt)
    {
      TotalAppends(account, s.log, notes);
      TotalAppends(account, [Pass(s.retryCount, s.index)], NotesOf(v, s, a.attempt));
      TotalOfOne(account, Pass(s.retryCount, s.index));
      TotalOfAttempt(account, v, s, a.attempt);
    }
  }

  lemma ReviewRecords(v: Variant, s: State, x: SubTask, times: nat, critique: Critique)
    requires OnRecord(s, x, times) && s.node == Critic
    ensures
      var (s', raised) := Review(v, s, RecordedTimes(x, times), true, critique);
      OnRecord(Leave(v, s', raised), x, times)
  {
  }

  lemma StepStaysOnRecord(v: Variant, s: State, x: SubTask, times: nat)
    requires OnRecord(s, x, times) && !Ended(s) && Accepts(v, [x])
    ensures OnRecord(Step(v, s, RecordedTimes(x, times)), x, times)
  {
    var a := RecordedTimes(x, times);
    match s.node
    case Executor => ExecutorRecords(v, s, x, times);
    case Critic => ReviewRecords(v, s, x, times, Evaluate(v, s.execution.value));
    case Simulator =>
      var check := Checked(s.plans, s.index, true);
      assert Step(v, s, a).log == s.log + [check];
      TotalAppends(Receipts, s.log, [check]);
      TotalAppends(Records, s.log, [check]);
      TotalOfOne(Receipts, check);
      TotalOfOne(Records, check);
    case _ => LogIsExtended(v, s, a);
  }

  lemma {:induction false} RunStaysOnRecord(
    v: Variant, s: State, answers: nat -> Answer, k: nat, x: SubTask, times: nat)
    requires OnRecord(s, x, times) && Accepts(v, [x]) && forall n :: answers(n) == RecordedTimes(x, times)
    ensures OnRecord(RunToEnd(v, s, answers, k), x, times)
    decreases Length(v, s, answers, k)
  {
    if !Ended(s) {
      StepStaysOnRecord(v, s, x, times);
      RunStaysOnRecord(v, Step(v, s, answers(k)), answers, k + 1, x, times);
    }
  }

  /** Recording as often as the variant's retry loop can is a fair run, and records every receipt that many
      times: once in the service, twice in contracts/. */
  lemma RecordedAsOftenAsRetried(v: Variant, maxRetries: int, x: SubTask, answers: nat -> Answer)
    requires Accepts(v, [x]) && x.amountUsd >= 0 && forall n :: answers(n) == RecordedTimes(x, MaxTries(v))
    ensures forall n :: Fair(v, answers(n))
    ensures
      var log := RunToEnd(v, Init(maxRetries), answers, 0).log;
      Total(Receipts, log) == x.amountUsd && Total(Records, log) == MaxTries(v) * x.amountUsd
  {
    RunTakesSteps(v, Init(maxRetries), answers, 0);
    RunStaysOnRecord(v, Init(maxRetries), answers, 0, x, MaxTries(v));
    EveryRunEnds(v, maxRetries, answers);
  }
}
