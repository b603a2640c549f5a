/** Whether one subtask of one plan is dispatched again after the chain accepted its transaction.

    Subtasks are told apart here by the plan's number and their position in it; an equal subtask listed by
    a later plan is another one (module Resends counts by what the subtask says).  Counted so, it never
    happens in the service.  In contracts/ it does when recording the spend raised a transient error after
    the receipt and the replan that follows raises too: the wrapped graph goes on with the old plan at the
    old index. */
module Repayments {
  import opened Common
  import opened Graph
  import opened GraphRuns
  import opened PolicyGate

  ghost predicate PaidFor(log: seq<Note>, plan: nat, index: nat) {
    exists subtask :: ReceiptOk(plan, index, subtask) in log
  }

  /** A dispatch follows a successful receipt for the same subtask of the same plan. */
  ghost predicate PaidAgain(log: seq<Note>) {
    exists j, k :: 0 <= j < k < |log| && AgainAt(log, j, k)
  }

  predicate AgainAt(log: seq<Note>, j: nat, k: nat)
    requires j < |log| && k < |log|
  {
    log[j].ReceiptOk? && log[k].Dispatched? && log[j].plan == log[k].plan && log[j].index == log[k].index
  }

  // ---- What the answers say ---------------------------------------------------------------------

  /** The executor gets as far as calling dispatch. */
  predicate Dispatches(s: State, a: Answer) {
    s.node == Executor && s.index < |s.subtasks| && s.simulation == Some(true) && a.attempt.tries > 0
  }

  predicate Adopts(v: Variant, a: Answer) {
    a.plan.Some? && Accepts(v, a.plan.value) && (v == Wrapped ==> a.capable)
  }

  /** Whether, after the step, an accepted transaction is neither confirmed nor left behind by a new plan;
      `before` says so of the time before it. */
  predicate Unsettled(v: Variant, s: State, a: Answer, before: bool) {
    if s.node == Executor && s.index < |s.subtasks| && s.simulation == Some(true) && ReceiptSucceeds(a.attempt) then
      !ResultOf(v, a.attempt).confirmed
    else if s.node == Planner && Adopts(v, a) then false
    else before
  }

  /** In the rest of the run some dispatch happens while a transaction is unsettled. */
  predicate Repays(v: Variant, s: State, answers: nat -> Answer, k: nat, unsettled: bool)
    decreases Length(v, s, answers, k)
  {
    if Ended(s) then false
    else
      RunGoesOn(v, s, answers, k);
      (unsettled && Dispatches(s, answers(k)))
      || Repays(v, Step(v, s, answers(k)), answers, k + 1, Unsettled(v, s, answers(k), unsettled))
  }

  // ---- The log and the answers agree ------------------------------------------------------------

  predicate JustConfirmed(s: State) {
    s.node == Critic && s.execution.Some? && s.execution.value.confirmed
  }

  /** Receipts so far are at or before the current (plan, index), and the current subtask has one exactly
      when it is unsettled or was confirmed just now. */
  ghost predicate Settles(s: State, unsettled: bool) {
    && (forall p: nat, i: nat :: PaidFor(s.log, p, i) ==>
          Before(p, i, s.plans, s.index) || (p == s.plans && i == s.index))
    && (!Ended(s) ==> (PaidFor(s.log, s.plans, s.index) <==> unsettled || JustConfirmed(s)))
    && (JustConfirmed(s) ==> !unsettled)
  }

  lemma PaidForExtends(log: seq<Note>, notes: seq<Note>, plan: nat, index: nat)
    ensures PaidFor(log + notes, plan, index) <==> PaidFor(log, plan, index) || PaidFor(notes, plan, index)
  {
    if PaidFor(log, plan, index) {
      var subtask :| ReceiptOk(plan, index, subtask) in log;
      assert ReceiptOk(plan, index, subtask) in log + notes;
    }
    if PaidFor(notes, plan, index) {
      var subtask :| ReceiptOk(plan, index, subtask) in notes;
      assert ReceiptOk(plan, index, subtask) in log + notes;
    }
  }

  lemma NotesPay(v: Variant, s: State, t: Attempt, plan: nat, index: nat)
    requires s.index < |s.subtasks|
    ensures
      var notes := [Pass(s.retryCount, s.index)] + NotesOf(v, s, t);
      PaidFor(notes, plan, index) <==> ReceiptSucceeds(t) && plan == s.plans && index == s.index
  {
    var notes := [Pass(s.retryCount, s.index)] + NotesOf(v, s, t);
    var receipts := ReceiptNotes(s, t);
    if ReceiptSucceeds(t) {
      assert receipts[0] in notes;
    }
  }

  /** What a pass that is not blocked adds to the log. */
  lemma ExecutorLog(v: Variant, s: State, a: Answer)
    requires s.node == Executor && s.index < |s.subtasks| && s.simulation == Some(true)
    ensures Step(v, s, a).log == s.log + ([Pass(s.retryCount, s.index)] + NotesOf(v, s, a.attempt))
  {
  }

  lemma ExtendPaidAgain(log: seq<Note>, notes: seq<Note>, plan: nat, index: nat)
    requires forall k :: 0 <= k < |notes| && notes[k].Dispatched? ==>
               k <= 1 && notes[k].plan == plan && notes[k].index == index
    requires forall k :: 0 <= k < |notes| && notes[k].ReceiptOk? ==> k > 1
    ensures
      PaidAgain(log + notes) <==>
      PaidAgain(log) || (PaidFor(log, plan, index) && exists k :: 0 <= k < |notes| && notes[k].Dispatched?)
  {
    var longer := log + notes;
    if PaidAgain(log) {
      var j, k :| 0 <= j < k < |log| && AgainAt(log, j, k);
      assert AgainAt(longer, j, k);
    }
    if PaidFor(log, plan, index) && exists k :: 0 <= k < |notes| && notes[k].Dispatched? {
      var subtask :| ReceiptOk(plan, index, subtask) in log;
      var j :| 0 <= j < |log| && log[j] == ReceiptOk(plan, index, subtask);
      var k :| 0 <= k < |notes| && notes[k].Dispatched?;
      assert longer[|log| + k] == notes[k];
      assert AgainAt(longer, j, |log| + k);
    }
    if PaidAgain(longer) {
      var j, k :| 0 <= j < k < |longer| && AgainAt(longer, j, k);
      if k < |log| {
        assert AgainAt(log, j, k);
      } else {
        assert longer[k] == notes[k - |log|];
        assert j < |log|;
        assert ReceiptOk(plan, index, longer[j].subtask) in log;
      }
    }
  }

  lemma AttemptPaysAfterDispatch(v: Variant, s: State, t: Attempt)
    requires s.index < |s.subtasks| && (ReceiptSucceeds(t) ==> t.tries > 0)
    ensures forall k :: 0 <= k < |NotesOf(v, s, t)| && NotesOf(v, s, t)[k].ReceiptOk? ==> k > 0
  {
  }

  lemma PassPaidAgain(v: Variant, s: State, t: Attempt)
    requires s.index < |s.subtasks| && (ReceiptSucceeds(t) ==> t.tries > 0)
    ensures
      PaidAgain(s.log + ([Pass(s.retryCount, s.index)] + NotesOf(v, s, t))) <==>
      PaidAgain(s.log) || (t.tries > 0 && PaidFor(s.log, s.plans, s.index))
  {
    var notes := NotesOf(v, s, t);
    var pass := [Pass(s.retryCount, s.index)] + notes;
    AttemptDispatchesFirst(v, s, t);
    AttemptPaysAfterDispatch(v, s, t);
    assert forall k :: 0 < k < |pass| ==> pass[k] == notes[k - 1];
    ExtendPaidAgain(s.log, pass, s.plans, s.index);
    if t.tries > 0 {
      assert pass[1].Dispatched?;
    }
  }

  lemma QuietPaidAgain(log: seq<Note>, log': seq<Note>)
    requires log <= log' && forall k :: |log| <= k < |log'| ==> log'[k].Checked? || log'[k].Pass?
    ensures PaidAgain(log') <==> PaidAgain(log)
  {
    var notes := log'[|log|..];
    assert log' == log + notes;
    assert forall k :: 0 <= k < |notes| ==> notes[k] == log'[|log| + k];
    ExtendPaidAgain(log, notes, 0, 0);
  }

  /** A step repeats a paid dispatch exactly when it dispatches a subtask that has its receipt. */
  lemma StepPaidAgain(v: Variant, s: State, a: Answer)
    requires Possible(v, a)
    ensures
      PaidAgain(Step(v, s, a).log) <==>
      PaidAgain(s.log) || (Dispatches(s, a) && PaidFor(s.log, s.plans, s.index))
  {
    if s.node == Executor && s.index < |s.subtasks| && s.simulation == Some(true) {
      ExecutorLog(v, s, a);
      PassPaidAgain(v, s, a.attempt);
    } else {
      QuietStep(v, s, a);
      QuietPaidAgain(s.log, Step(v, s, a).log);
    }
  }

  /** Nodes other than a live executor note at most one check or one blocked pass. */
  lemma QuietStep(v: Variant, s: State, a: Answer)
    requires !(s.node == Executor && s.index < |s.subtasks| && s.simulation == Some(true))
    ensures
      var log := Step(v, s, a).log;
      s.log <= log && forall k :: |s.log| <= k < |log| ==> log[k].Checked? || log[k].Pass?
  {
    if s.node == Executor {
      BlockedExecutorLog(v, s, a);
    } else if s.node == Simulator {
      SimulatorLog(v, s, a);
    } else {
      LogIsExtended(v, s, a);
    }
  }

  lemma BlockedExecutorLog(v: Variant, s: State, a: Answer)
    requires s.node == Executor && !(s.index < |s.subtasks| && s.simulation == Some(true))
    ensures Step(v, s, a).log == s.log + if s.index < |s.subtasks| then [Pass(s.retryCount, s.index)] else []
  {
  }

  lemma SimulatorLog(v: Variant, s: State, a: Answer)
    requires s.node == Simulator
    ensures
      Step(v, s, a).log == s.log +
        if s.index < |s.subtasks| && !a.simulatorRaises then [Checked(s.plans, s.index, a.policyPasses)] else []
  {
  }

  lemma QuietStepPays(v: Variant, s: State, a: Answer, plan: nat, index: nat)
    requires !(s.node == Executor && s.index < |s.subtasks| && s.simulation == Some(true))
    ensures PaidFor(Step(v, s, a).log, plan, index) <==> PaidFor(s.log, plan, index)
  {
    QuietStep(v, s, a);
    var notes := Step(v, s, a).log[|s.log|..];
    assert Step(v, s, a).log == s.log + notes;
    PaidForExtends(s.log, notes, plan, index);
  }

  lemma LiveExecutorSettles(v: Variant, s: State, a: Answer, unsettled: bool)
    requires Settles(s, unsettled) && s.node == Executor && s.index < |s.subtasks| && s.simulation == Some(true)
    ensures Settles(Step(v, s, a), Unsettled(v, s, a, unsettled))
  {
    var s' := Step(v, s, a);
    ExecutorLog(v, s, a);
    var notes := [Pass(s.retryCount, s.index)] + NotesOf(v, s, a.attempt);
    forall p: nat, i: nat
      ensures PaidFor(s'.log, p, i) <==>
              PaidFor(s.log, p, i) || (ReceiptSucceeds(a.attempt) && p == s.plans && i == s.index)
    {
      PaidForExtends(s.log, notes, p, i);
      NotesPay(v, s, a.attempt, p, i);
    }
    assert s'.execution == Some(ResultOf(v, a.attempt));
  }

  lemma ReviewSettles(v: Variant, s: State, a: Answer, critique: Critique, unsettled: bool)
    requires Settles(s, unsettled) && s.node == Critic && s.execution.Some?
    ensures
      var (s', raised) := Review(v, s, a, s.execution.value.confirmed, critique);
      Settles(Leave(v, s', raised), unsettled)
  {
  }

  lemma QuietStepSettles(v: Variant, s: State, a: Answer, unsettled: bool)
    requires Settles(s, unsettled) && Progress(v, s) && s.node != Critic
    requires !(s.node == Executor && s.index < |s.subtasks| && s.simulation == Some(true))
    ensures Settles(Step(v, s, a), Unsettled(v, s, a, unsettled))
  {
    forall p: nat, i: nat ensures PaidFor(Step(v, s, a).log, p, i) <==> PaidFor(s.log, p, i) {
      QuietStepPays(v, s, a, p, i);
    }
  }

  lemma StepSettles(v: Variant, s: State, a: Answer, unsettled: bool)
    requires Settles(s, unsettled) && Progress(v, s)
    ensures Settles(Step(v, s, a), Unsettled(v, s, a, unsettled))
  {
    if s.node == Critic && s.execution.Some? {
      ReviewSettles(v, s, a, Evaluate(v, s.execution.value), unsettled);
    } else if s.node == Executor && s.index < |s.subtasks| && s.simulation == Some(true) {
      LiveExecutorSettles(v, s, a, unsettled);
    } else if s.node != Critic {
      QuietStepSettles(v, s, a, unsettled);
    } else {
      LogIsExtended(v, s, a);
    }
  }

  lemma {:induction false} PaidAgainFrom(v: Variant, s: State, answers: nat -> Answer, k: nat, unsettled: bool)
    requires Settles(s, unsettled) && Progress(v, s) && forall m :: Possible(v, answers(m))
    ensures PaidAgain(RunToEnd(v, s, answers, k).log) <==> PaidAgain(s.log) || Repays(v, s, answers, k, unsettled)
    decreases Length(v, s, answers, k)
  {
    if !Ended(s) {
      RunGoesOn(v, s, answers, k);
      StepPaidAgain(v, s, answers(k));
      StepSettles(v, s, answers(k), unsettled);
      StepKeepsProgress(v, s, answers(k));
      PaidAgainFrom(v, Step(v, s, answers(k)), answers, k + 1, Unsettled(v, s, answers(k), unsettled));
    }
  }

  /** In a whole run of either graph, a position of a plan that had a successful receipt is dispatched again
      exactly when some dispatch happens after a receipt that was not confirmed and before a new plan. */
  lemma PaidAgainExactlyWhen(v: Variant, maxRetries: int, answers: nat -> Answer)
    requires forall m :: Possible(v, answers(m))
    ensures PaidAgain(RunToEnd(v, Init(maxRetries), answers, 0).log) <==> Repays(v, Init(maxRetries), answers, 0, false)
  {
    PaidAgainFrom(v, Init(maxRetries), answers, 0, false);
  }

  // ---- The service ------------------------------------------------------------------------------

  lemma UnsettledServiceReplans(s: State, a: Answer, unsettled: bool)
    requires unsettled ==> s.node in {Critic, Planner, End, Aborted}
    requires JustConfirmed(s) ==> !unsettled
    ensures
      var s' := Step(Service, s, a);
      var later := Unsettled(Service, s, a, unsettled);
      (later ==> s'.node in {Critic, Planner, End, Aborted}) && (JustConfirmed(s') ==> !later)
  {
    if s.node == Critic && s.execution.Some? {
      UnsettledReviewReplans(s, a, Evaluate(Service, s.execution.value), unsettled);
    }
  }

  lemma UnsettledReviewReplans(s: State, a: Answer, critique: Critique, unsettled: bool)
    requires s.node == Critic && s.execution.Some? && (unsettled ==> !s.execution.value.confirmed)
    ensures
      var (s', raised) := Review(Service, s, a, s.execution.value.confirmed, critique);
      var s'' := Leave(Service, s', raised);
      (unsettled ==> s''.node in {Planner, End, Aborted}) && s''.node != Critic
  {
  }

  lemma {:induction false} ServiceNeverRepays(s: State, answers: nat -> Answer, k: nat, unsettled: bool)
    requires unsettled ==> s.node in {Critic, Planner, End, Aborted}
    requires JustConfirmed(s) ==> !unsettled
    ensures !Repays(Service, s, answers, k, unsettled)
    decreases Length(Service, s, answers, k)
  {
    if !Ended(s) {
      RunGoesOn(Service, s, answers, k);
      UnsettledServiceReplans(s, answers(k), unsettled);
      ServiceNeverRepays(Step(Service, s, answers(k)), answers, k + 1, Unsettled(Service, s, answers(k), unsettled));
    }
  }

  /** In the service graph no position of a plan is dispatched again once it had a successful receipt, even
      if recording the spend or writing the log raised.  A later plan may list an equal subtask. */
  lemma ServiceNeverPaysAgain(maxRetries: int, answers: nat -> Answer)
    requires forall m :: Possible(Service, answers(m))
    ensures !PaidAgain(RunToEnd(Service, Init(maxRetries), answers, 0).log)
  {
    PaidAgainExactlyWhen(Service, maxRetries, answers);
    ServiceNeverRepays(Init(maxRetries), answers, 0, false);
  }

  // ---- contracts/ -------------------------------------------------------------------------------

  /** Recording the spend raised a transient error after the receipt, and a retry is left. */
  predicate RecordFailsTransiently(s: State, t: Attempt) {
    t.recordError.Some? && IsTransient(Wrapped, t.recordError.value) && s.retryCount < s.maxRetries
  }

  lemma ReceiptThenReview(s: State, a0: Answer, a1: Answer)
    requires s.node == Executor && s.index < |s.subtasks| && s.simulation == Some(true) && ReceiptSucceeds(a0.attempt)
    ensures
      var s2 := Step(Wrapped, Step(Wrapped, s, a0), a1);
      && (s2.node == Planner <==> RecordFailsTransiently(s, a0.attempt))
      && (s2.node == Planner ==>
            s2.subtasks == s.subtasks && s2.index == s.index && s2.plans == s.plans && s2.simulation == s.simulation
            && PaidFor(s2.log, s.plans, s.index))
  {
    var s1 := Step(Wrapped, s, a0);
    assert s1.node == Critic && s1.execution == Some(ResultOf(Wrapped, a0.attempt));
    AfterReview(Wrapped, s1, a1);
    ExecutorLog(Wrapped, s, a0);
    NotesPay(Wrapped, s, a0.attempt, s.plans, s.index);
    PaidForExtends(s.log, [Pass(s.retryCount, s.index)] + NotesOf(Wrapped, s, a0.attempt), s.plans, s.index);
    LogIsExtended(Wrapped, s1, a1);
  }

  lemma RetryDispatchesOldPlan(s: State, a2: Answer, a3: Answer, a4: Answer, a5: Answer)
    requires s.node == Planner && s.index < |s.subtasks| && s.simulation == Some(true)
    ensures
      var s5 := Step(Wrapped, Step(Wrapped, Step(Wrapped, s, a2), a3), a4);
      && (Dispatches(s5, a5) && s5.plans == s.plans && s5.index == s.index <==>
          !Adopts(Wrapped, a2) && (a4.simulatorRaises || a4.policyPasses) && a5.attempt.tries > 0)
      && s.log <= s5.log
  {
    var s3 := Step(Wrapped, s, a2);
    var s4 := Step(Wrapped, s3, a3);
    assert s3.node == Memory && s4.node == Simulator;
    LogIsExtended(Wrapped, s, a2);
    LogIsExtended(Wrapped, s3, a3);
    LogIsExtended(Wrapped, s4, a4);
  }

  /** In contracts/, after a pass whose receipt succeeded, the run retries and the retry's pass dispatches the
      same position of the same plan exactly when recording raised a transient error with a retry left, the
      replan raised, the simulator did not reject, and the executor got as far as dispatch. */
  lemma RetryPaysAgainExactlyWhen(s: State, a0: Answer, a1: Answer, a2: Answer, a3: Answer, a4: Answer, a5: Answer)
    requires s.node == Executor && s.index < |s.subtasks| && s.simulation == Some(true)
    requires ReceiptSucceeds(a0.attempt) && Possible(Wrapped, a5)
    ensures
      var s2 := Step(Wrapped, Step(Wrapped, s, a0), a1);
      var s5 := Step(Wrapped, Step(Wrapped, Step(Wrapped, s2, a2), a3), a4);
      var again := s2.node == Planner && Dispatches(s5, a5) && s5.plans == s.plans && s5.index == s.index;
      && (again <==>
          && RecordFailsTransiently(s, a0.attempt) && !Adopts(Wrapped, a2)
          && (a4.simulatorRaises || a4.policyPasses) && a5.attempt.tries > 0)
      && (again ==> PaidAgain(Step(Wrapped, s5, a5).log))
  {
    var s2 := Step(Wrapped, Step(Wrapped, s, a0), a1);
    ReceiptThenReview(s, a0, a1);
    if s2.node == Planner {
      RetryDispatchesOldPlan(s2, a2, a3, a4, a5);
      var s5 := Step(Wrapped, Step(Wrapped, Step(Wrapped, s2, a2), a3), a4);
      var subtask :| ReceiptOk(s.plans, s.index, subtask) in s2.log;
      assert ReceiptOk(s.plans, s.index, subtask) in s5.log;
      StepPaidAgain(Wrapped, s5, a5);
    }
  }

  /** Everything goes well but recording the spend, which raises after taking effect. */
  function RecordRaises(error: string): Answer {
    GoodAnswer(false).(attempt := Attempt(1, None, None, true, 1, Some(error), None))
  }

  /** The language model cannot be reached. */
  function Unplanned(): Answer {
    GoodAnswer(false).(plan := None)
  }

  /** Such runs exist, for any transient error (a timeout is one): the first subtask's transaction goes
      through, recording it raises, the language model fails to replan, and the transaction is sent a second
      time. */
  lemma FailedReplanPaysAgain(error: string)
    requires IsTransient(Wrapped, error)
    ensures
      var good := GoodAnswer(false);
      var s2 := Step(Wrapped, Step(Wrapped, Good(3), RecordRaises(error)), good);
      var s5 := Step(Wrapped, Step(Wrapped, Step(Wrapped, s2, Unplanned()), good), good);
      && Possible(Wrapped, RecordRaises(error)) && Possible(Wrapped, Unplanned()) && Possible(Wrapped, good)
      && PaidAgain(Step(Wrapped, s5, good).log)
  {
    var good := GoodAnswer(false);
    FirstSubtaskChecked();
    RetryPaysAgainExactlyWhen(Good(3), RecordRaises(error), good, Unplanned(), good, good, good);
  }
}
