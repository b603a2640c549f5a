/** Whether a transaction the chain accepted is sent again, counted by what the subtask says.

    It is, in both variants: when the executor's last steps raise a transient error after the receipt, the
    critic retries, and a new plan that lists an equal subtask first, or in contracts/ the old plan, sends
    the transaction once more.  How often that can happen in a run is bounded, and the bound is reached. */
module Resends {
  import opened Common
  import opened Graph
  import opened GraphRuns
  import opened PolicyGate
  import opened Repayments

  /** How often the chain accepted a transaction for a subtask equal to `x`. */
  function Payments(log: seq<Note>, x: SubTask): nat {
    if log == [] then 0
    else
      var last := log[|log| - 1];
      Payments(log[..|log| - 1], x) + if last.ReceiptOk? && last.subtask == x then 1 else 0
  }

  /** How often a plan lists `x`. */
  function Listed(plan: seq<SubTask>, x: SubTask): nat {
    if plan == [] then 0 else Listed(plan[1..], x) + if plan[0] == x then 1 else 0
  }

  // ---- Retrying after a receipt -----------------------------------------------------------------

  /** The critic reviews the pass and sends the run back to the planner. */
  predicate Retries(v: Variant, s: State, a0: Answer, a1: Answer) {
    var e := ResultOf(v, a0.attempt);
    && !e.confirmed && IsTransient(v, e.error) && s.retryCount < s.maxRetries
    && !(v == Service && a1.criticLogRaises)
  }

  /** The planner's answer leaves `x` to do next: a new plan begins with it, or the old plan stays. */
  predicate LeavesNext(v: Variant, x: SubTask, a2: Answer) {
    if Adopts(v, a2) then a2.plan.value != [] && a2.plan.value[0] == x else v == Wrapped
  }

  /** Memory and simulator let the pass go on with a passing verdict, the executor gets to dispatch. */
  predicate PassDispatches(v: Variant, a3: Answer, a4: Answer, a5: Answer) {
    && (v == Service ==> !a3.memoryRaises)
    && (if a4.simulatorRaises then v == Wrapped else a4.policyPasses)
    && a5.attempt.tries > 0
  }

  predicate LiveExecutor(s: State) {
    s.node == Executor && s.index < |s.subtasks| && s.simulation == Some(true)
  }

  lemma ReceiptThenRetry(v: Variant, s: State, a0: Answer, a1: Answer)
    requires LiveExecutor(s)
    ensures
      var s2 := Step(v, Step(v, s, a0), a1);
      && (s2.node == Planner <==> Retries(v, s, a0, a1))
      && (s2.node == Planner ==>
            s2.subtasks == s.subtasks && s2.index == s.index && s2.simulation == s.simulation)
  {
    var s1 := Step(v, s, a0);
    assert s1.node == Critic && s1.execution == Some(ResultOf(v, a0.attempt));
    if !(v == Service && a1.criticLogRaises) {
      AfterReview(v, s1, a1);
      ReviewKeepsPlan(v, s1, a1, Evaluate(v, s1.execution.value));
    }
  }

  lemma ReviewKeepsPlan(v: Variant, s: State, a: Answer, critique: Critique)
    requires s.node == Critic && s.execution.Some?
    ensures
      var (s', raised) := Review(v, s, a, s.execution.value.confirmed, critique);
      Leave(v, s', raised).subtasks == s.subtasks && Leave(v, s', raised).simulation == s.simulation
  {
  }

  lemma PlannerThenMemory(v: Variant, s: State, a2: Answer, a3: Answer)
    requires s.node == Planner && s.index < |s.subtasks|
    ensures
      var s4 := Step(v, Step(v, s, a2), a3);
      && (s4.node == Simulator <==> (Adopts(v, a2) || v == Wrapped) && (v == Service ==> !a3.memoryRaises))
      && s4.node in {Simulator, Aborted}
      && (s4.node == Simulator ==>
            && s4.simulation == s.simulation
            && (if Adopts(v, a2) then s4.subtasks == a2.plan.value && s4.index == 0
                else s4.subtasks == s.subtasks && s4.index == s.index))
  {
  }

  lemma SimulatorThenDispatch(v: Variant, s: State, a4: Answer, a5: Answer)
    requires s.node == Simulator && s.simulation == Some(true)
    ensures
      var s5 := Step(v, s, a4);
      && (Dispatches(s5, a5) <==>
          s.index < |s.subtasks| && a5.attempt.tries > 0
          && if a4.simulatorRaises then v == Wrapped else a4.policyPasses)
      && (Dispatches(s5, a5) ==> s5.subtasks == s.subtasks && s5.index == s.index)
  {
  }

  /** After a pass whose receipt succeeded, in either variant, the run retries and the retry's pass sends the
      same subtask again exactly when the pass ended in an unconfirmed transient failure with a retry left,
      the planner leaves the subtask to do next, and the pass is let through to dispatch. */
  lemma RetrySendsAgainExactlyWhen(
    v: Variant, s: State, a0: Answer, a1: Answer, a2: Answer, a3: Answer, a4: Answer, a5: Answer)
    requires LiveExecutor(s) && ReceiptSucceeds(a0.attempt)
    ensures
      var x := s.subtasks[s.index];
      var s2 := Step(v, Step(v, s, a0), a1);
      var s5 := Step(v, Step(v, Step(v, s2, a2), a3), a4);
      s2.node == Planner && Dispatches(s5, a5) && s5.subtasks[s5.index] == x <==>
      Retries(v, s, a0, a1) && LeavesNext(v, x, a2) && PassDispatches(v, a3, a4, a5)
  {
    var s2 := Step(v, Step(v, s, a0), a1);
    ReceiptThenRetry(v, s, a0, a1);
    if s2.node == Planner {
      var s4 := Step(v, Step(v, s2, a2), a3);
      PlannerThenMemory(v, s2, a2, a3);
      if s4.node == Simulator {
        SimulatorThenDispatch(v, s4, a4, a5);
      }
    }
  }

  // ---- How often a run pays ---------------------------------------------------------------------

  predicate Pays(s: State, a: Answer, x: SubTask) {
    LiveExecutor(s) && ReceiptSucceeds(a.attempt) && s.subtasks[s.index] == x
  }

  lemma {:induction false} PaymentsAppend(log: seq<Note>, notes: seq<Note>, x: SubTask)
    ensures Payments(log + notes, x) == Payments(log, x) + Payments(notes, x)
    decreases |notes|
  {
    if notes == [] {
      assert log + notes == log;
    } else {
      assert (log + notes)[..|log + notes| - 1] == log + notes[..|notes| - 1];
      PaymentsAppend(log, notes[..|notes| - 1], x);
    }
  }

  lemma {:induction false} NoPayments(notes: seq<Note>, x: SubTask)
    requires forall k :: 0 <= k < |notes| ==> !notes[k].ReceiptOk?
    ensures Payments(notes, x) == 0
    decreases |notes|
  {
    if notes != [] {
      NoPayments(notes[..|notes| - 1], x);
    }
  }

  lemma ReceiptPays(s: State, t: Attempt, x: SubTask)
    requires s.index < |s.subtasks|
    ensures Payments(ReceiptNotes(s, t), x) == if ReceiptSucceeds(t) && s.subtasks[s.index] == x then 1 else 0
  {
    if ReceiptSucceeds(t) {
      var receipt, record := ReceiptNotes(s, t)[0], ReceiptNotes(s, t)[1];
      assert ReceiptNotes(s, t) == [receipt] + [record];
      PaymentsAppend([receipt], [record], x);
      assert [receipt][..0] == [] && [record][..0] == [];
    }
  }

  lemma PaymentsOfParts(pass: seq<Note>, sent: seq<Note>, paid: seq<Note>, confirmed: seq<Note>, x: SubTask)
    requires forall k :: 0 <= k < |pass| ==> !pass[k].ReceiptOk?
    requires forall k :: 0 <= k < |sent| ==> !sent[k].ReceiptOk?
    requires forall k :: 0 <= k < |confirmed| ==> !confirmed[k].ReceiptOk?
    ensures Payments(pass + (sent + paid + confirmed), x) == Payments(paid, x)
  {
    PaymentsAppend(pass, sent + paid + confirmed, x);
    PaymentsAppend(sent + paid, confirmed, x);
    PaymentsAppend(sent, paid, x);
    NoPayments(pass, x);
    NoPayments(sent, x);
    NoPayments(confirmed, x);
  }

  lemma AttemptPays(v: Variant, s: State, t: Attempt, x: SubTask)
    requires s.index < |s.subtasks|
    ensures Payments([Pass(s.retryCount, s.index)] + NotesOf(v, s, t), x)
            == if ReceiptSucceeds(t) && s.subtasks[s.index] == x then 1 else 0
  {
    var confirmed := ConfirmNotes(v, s, s.subtasks[s.index].amountUsd, t);
    PaymentsOfParts([Pass(s.retryCount, s.index)], DispatchNotes(s, t), ReceiptNotes(s, t), confirmed, x);
    ReceiptPays(s, t, x);
  }

  lemma StepPays(v: Variant, s: State, a: Answer, x: SubTask)
    ensures Payments(Step(v, s, a).log, x) == Payments(s.log, x) + if Pays(s, a, x) then 1 else 0
  {
    if LiveExecutor(s) {
      ExecutorLog(v, s, a);
      AttemptPays(v, s, a.attempt, x);
      PaymentsAppend(s.log, [Pass(s.retryCount, s.index)] + NotesOf(v, s, a.attempt), x);
    } else {
      QuietStep(v, s, a);
      var notes := Step(v, s, a).log[|s.log|..];
      assert Step(v, s, a).log == s.log + notes;
      NoPayments(notes, x);
      PaymentsAppend(s.log, notes, x);
    }
  }

  function Rest(plan: seq<SubTask>, index: nat): seq<SubTask> {
    if index < |plan| then plan[index..] else []
  }

  lemma RestListed(plan: seq<SubTask>, index: nat, x: SubTask)
    ensures Listed(Rest(plan, index), x)
            == Listed(Rest(plan, index + 1), x) + if index < |plan| && plan[index] == x then 1 else 0
  {
    if index < |plan| {
      assert plan[index..][1..] == plan[index + 1..];
    }
  }

  lemma {:induction false} RestIsListed(plan: seq<SubTask>, index: nat, x: SubTask)
    ensures Listed(Rest(plan, index), x) <= Listed(plan, x)
  {
    if index > 0 {
      RestIsListed(plan, index - 1, x);
      RestListed(plan, index - 1, x);
    } else {
      assert plan[0..] == plan;
    }
  }

  /** How often the current plan may still pay for `x`. */
  function Left(s: State, x: SubTask): nat {
    match s.node
    case Memory => Listed(Rest(s.subtasks, s.index), x)
    case Simulator => Listed(Rest(s.subtasks, s.index), x)
    case Executor => Listed(Rest(s.subtasks, s.index), x)
    case Critic => Listed(Rest(s.subtasks, s.index + 1), x)
    case _ => 0
  }

  function PlansLeft(s: State): nat {
    RetriesLeft(s) + PlannerPending(s)
  }

  lemma ReviewLeaves(v: Variant, s: State, a: Answer, critique: Critique, x: SubTask)
    requires s.node == Critic && s.execution.Some?
    ensures
      var (s1, raised) := Review(v, s, a, s.execution.value.confirmed, critique);
      var s' := Leave(v, s1, raised);
      Left(s', x) <= Left(s, x) && PlansLeft(s') <= PlansLeft(s) && s'.subtasks == s.subtasks
  {
  }

  lemma CriticLeaves(v: Variant, s: State, a: Answer, x: SubTask)
    requires s.node == Critic
    ensures
      var s' := Step(v, s, a);
      Left(s', x) <= Left(s, x) && PlansLeft(s') <= PlansLeft(s) && s'.subtasks == s.subtasks
  {
    if s.execution.Some? {
      ReviewLeaves(v, s, a, Evaluate(v, s.execution.value), x);
    }
  }

  lemma OthersLeave(v: Variant, s: State, a: Answer, x: SubTask)
    requires s.node in {Memory, Simulator, Executor}
    ensures
      var s' := Step(v, s, a);
      && Left(s', x) + (if Pays(s, a, x) then 1 else 0) <= Left(s, x)
      && PlansLeft(s') == PlansLeft(s) && s'.subtasks == s.subtasks
  {
    RestListed(s.subtasks, s.index, x);
  }

  lemma PlannerLeaves(v: Variant, s: State, a: Answer, x: SubTask, c: nat)
    requires s.node == Planner && Listed(s.subtasks, x) <= c
    requires a.plan.Some? ==> Listed(a.plan.value, x) <= c
    ensures
      var s' := Step(v, s, a);
      Left(s', x) <= c && PlansLeft(s') == PlansLeft(s) - 1 && Listed(s'.subtasks, x) <= c
  {
    var s' := Step(v, s, a);
    RestIsListed(s'.subtasks, s'.index, x);
  }

  /** Each step pays only what the plans it still has can pay. */
  lemma StepKeepsBound(v: Variant, s: State, a: Answer, x: SubTask, c: nat)
    requires !Ended(s) && Listed(s.subtasks, x) <= c && (a.plan.Some? ==> Listed(a.plan.value, x) <= c)
    ensures
      var s' := Step(v, s, a);
      && Payments(s'.log, x) + Left(s', x) + c * PlansLeft(s') <= Payments(s.log, x) + Left(s, x) + c * PlansLeft(s)
      && Listed(s'.subtasks, x) <= c
  {
    var s' := Step(v, s, a);
    StepPays(v, s, a, x);
    match s.node
    case Planner =>
      PlannerLeaves(v, s, a, x, c);
      assert c * (PlansLeft(s') + 1) == c * PlansLeft(s') + c;
    case Critic =>
      CriticLeaves(v, s, a, x);
      TimesIsMonotonic(c, PlansLeft(s'), PlansLeft(s));
    case _ => OthersLeave(v, s, a, x);
  }

  lemma TimesIsMonotonic(c: nat, m: nat, n: nat)
    requires m <= n
    ensures c * m <= c * n
  {
  }

  lemma {:induction false} PaymentsFrom(v: Variant, s: State, answers: nat -> Answer, k: nat, x: SubTask, c: nat)
    requires Listed(s.subtasks, x) <= c && forall n :: OffersAtMost(answers(n), x, c)
    ensures Payments(RunToEnd(v, s, answers, k).log, x) <= Payments(s.log, x) + Left(s, x) + c * PlansLeft(s)
    decreases Length(v, s, answers, k)
  {
    if !Ended(s) {
      RunGoesOn(v, s, answers, k);
      assert OffersAtMost(answers(k), x, c);
      StepKeepsBound(v, s, answers(k), x, c);
      PaymentsFrom(v, Step(v, s, answers(k)), answers, k + 1, x, c);
    }
  }

  predicate OffersAtMost(a: Answer, x: SubTask, c: nat) {
    a.plan.Some? ==> Listed(a.plan.value, x) <= c
  }

  /** In a whole run of either variant, when no plan lists a subtask more than `c` times, the chain accepts at
      most `c` transactions for it for the first plan and each retry, whatever raises. */
  lemma PaymentsAreBounded(v: Variant, maxRetries: int, answers: nat -> Answer, x: SubTask, c: nat)
    requires forall n :: OffersAtMost(answers(n), x, c)
    ensures Payments(RunToEnd(v, Init(maxRetries), answers, 0).log, x) <= c * (Max(0, maxRetries) + 1)
  {
    PaymentsFrom(v, Init(maxRetries), answers, 0, x, c);
  }

  // ---- The bound is reached ---------------------------------------------------------------------

  /** The model plans `x` alone, everything is allowed and paid, and what the executor does after the receipt
      raises: writing its log in the service, recording the spend in contracts/. */
  function PaidThenRaises(v: Variant, x: SubTask, error: string): Answer {
    var t := Attempt(1, None, None, true, 1, if v == Wrapped then Some(error) else None, Some(error));
    Answer(Some([x]), true, false, false, true, t, false)
  }

  function Always(a: Answer): nat -> Answer {
    n => a
  }

  lemma AttemptFails(v: Variant, x: SubTask, error: string)
    ensures
      var t := PaidThenRaises(v, x, error).attempt;
      ReceiptSucceeds(t) && ResultOf(v, t) == Execution(false, error) && Possible(v, PaidThenRaises(v, x, error))
  {
  }

  /** With that answer throughout, what each node finds. */
  predicate OnCourse(s: State, x: SubTask, error: string) {
    s.node == Planner
    || (s.subtasks == [x] && s.index == 0
        && match s.node
           case Executor => s.simulation == Some(true)
           case Critic => s.execution == Some(Execution(false, error))
           case Aborted => false
           case _ => true)
  }

  /** How many payments are still to come. */
  function Due(s: State): nat {
    match s.node
    case Critic => RetriesLeft(s)
    case End => 0
    case Aborted => 0
    case _ => RetriesLeft(s) + 1
  }

  lemma ReviewStaysOnCourse(v: Variant, s: State, a: Answer, critique: Critique, x: SubTask, error: string)
    requires s.node == Critic && OnCourse(s, x, error) && critique.shouldRetry && !a.criticLogRaises
    ensures
      var (s1, raised) := Review(v, s, a, false, critique);
      OnCourse(Leave(v, s1, raised), x, error) && Due(Leave(v, s1, raised)) == Due(s)
  {
  }

  lemma StaysOnCourse(v: Variant, s: State, x: SubTask, error: string)
    requires OnCourse(s, x, error) && !Ended(s) && Accepts(v, [x]) && IsTransient(v, error)
    ensures
      var a := PaidThenRaises(v, x, error);
      var s' := Step(v, s, a);
      OnCourse(s', x, error) && Due(s') + (if Pays(s, a, x) then 1 else 0) == Due(s)
  {
    var a := PaidThenRaises(v, x, error);
    if s.node == Critic {
      ReviewStaysOnCourse(v, s, a, Evaluate(v, s.execution.value), x, error);
    } else if s.node == Executor {
      AttemptFails(v, x, error);
    }
  }

  /** The first plan and every retry pay once more. */
  lemma {:induction false} PaysEachTime(v: Variant, s: State, k: nat, x: SubTask, error: string)
    requires OnCourse(s, x, error) && Accepts(v, [x]) && IsTransient(v, error)
    ensures
      Payments(RunToEnd(v, s, Always(PaidThenRaises(v, x, error)), k).log, x) == Payments(s.log, x) + Due(s)
    decreases Length(v, s, Always(PaidThenRaises(v, x, error)), k)
  {
    if !Ended(s) {
      var a := PaidThenRaises(v, x, error);
      RunGoesOn(v, s, Always(a), k);
      StaysOnCourse(v, s, x, error);
      StepPays(v, s, a, x);
      PaysEachTime(v, Step(v, s, a), k + 1, x, error);
    }
  }

  /** Every retry pays again, in both variants, for any acceptable subtask and any transient error: the model
      plans it once, the chain accepts it, what follows the receipt raises, and so on until the retries are
      used up. */
  lemma EveryRetryPaysAgain(v: Variant, maxRetries: nat, x: SubTask, error: string)
    requires Accepts(v, [x]) && IsTransient(v, error)
    ensures
      var a := PaidThenRaises(v, x, error);
      && Possible(v, a) && OffersAtMost(a, x, 1)
      && Payments(RunToEnd(v, Init(maxRetries), Always(a), 0).log, x) == maxRetries + 1
  {
    AttemptFails(v, x, error);
    PaysEachTime(v, Init(maxRetries), 0, x, error);
    assert [x][1..] == [];
  }
}
