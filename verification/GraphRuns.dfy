/** Every run of the agent graph ends, and its progress is sound. */
module GraphRuns {
  import opened Common
  import opened Graph

  // ---- Progress ---------------------------------------------------------------------------------

  ghost predicate IsConfirmed(s: State, plan: nat, index: nat) {
    exists amount :: Confirmed(plan, index, amount) in s.log
  }

  predicate Before(a: nat, b: nat, c: nat, d: nat) {
    a < c || (a == c && b < d)
  }

  /** All executor passes so far are at or before the current (retry_count, index), and before it unless
      this pass has been made. */
  ghost predicate PassesBefore(s: State) {
    forall r: nat, i: nat :: Pass(r, i) in s.log ==>
      if s.node == Planner then r < s.retryCount
      else
        || Before(r, i, s.retryCount, s.index)
        || (s.node in {Critic, End, Aborted} && r == s.retryCount && i == s.index)
  }

  ghost predicate PassesIncrease(log: seq<Note>) {
    forall j, k :: 0 <= j < k < |log| && log[j].Pass? && log[k].Pass? ==>
      Before(log[j].retries, log[j].at, log[k].retries, log[k].at)
  }

  /** Confirmations so far are at or before the current (plan, index), and before it unless the current
      subtask's own confirmation waits for the critic. */
  ghost predicate ConfirmationsBefore(s: State) {
    forall p: nat, i: nat, a: int :: Confirmed(p, i, a) in s.log ==>
      Before(p, i, s.plans, s.index)
      || (p == s.plans && i == s.index
          && (s.node in {End, Aborted} || (s.node == Critic && s.execution.Some? && s.execution.value.confirmed)))
  }

  ghost predicate ConfirmationsIncrease(log: seq<Note>) {
    forall j, k :: 0 <= j < k < |log| && log[j].Confirmed? && log[k].Confirmed? ==>
      Before(log[j].plan, log[j].index, log[k].plan, log[k].index)
  }

  /** The positions below the index are confirmed, and a run that is done has confirmed its whole plan. */
  ghost predicate Sound(v: Variant, s: State) {
    && (s.index < |s.subtasks| || (s.index == 0 && s.subtasks == []))
    && (s.subtasks == [] ==> if v == Wrapped then s.execution.None? else s.node !in {Executor, Critic, End})
    && (forall i: nat :: i < s.index ==> IsConfirmed(s, s.plans, i))
    && (s.node == Critic && s.execution.Some? && s.execution.value.confirmed ==> IsConfirmed(s, s.plans, s.index))
    && (s.node == End ==> s.status == Done || s.status == Failed)
    && (s.node == End && s.status == Done ==>
          s.subtasks != [] && forall i: nat :: i < |s.subtasks| ==> IsConfirmed(s, s.plans, i))
  }

  ghost predicate Ordered(s: State) {
    PassesBefore(s) && PassesIncrease(s.log) && ConfirmationsBefore(s) && ConfirmationsIncrease(s.log)
  }

  ghost predicate Progress(v: Variant, s: State) {
    Sound(v, s) && Ordered(s)
  }

  lemma NotesOfAttempt(v: Variant, s: State, t: Attempt)
    requires s.index < |s.subtasks|
    ensures
      var notes := NotesOf(v, s, t);
      var confirmed := ResultOf(v, t).confirmed;
      && (forall k :: 0 <= k < |notes| ==> !notes[k].Pass? && !notes[k].Checked?)
      && (forall k :: 0 <= k < |notes| && notes[k].Confirmed? ==> confirmed && k == |notes| - 1)
      && (confirmed ==> |notes| > 0
                        && notes[|notes| - 1] == Confirmed(s.plans, s.index, s.subtasks[s.index].amountUsd))
  {
  }

  lemma LogIsExtended(v: Variant, s: State, a: Answer)
    ensures s.log <= Step(v, s, a).log
    ensures s.node != Executor && s.node != Simulator ==> Step(v, s, a).log == s.log
  {
  }

  lemma LogGrows(v: Variant, s: State, a: Answer)
    ensures s.log <= Step(v, s, a).log
    ensures s.node != Executor && s.node != Simulator ==> Step(v, s, a).log == s.log
    ensures forall p: nat, i: nat :: IsConfirmed(s, p, i) ==> IsConfirmed(Step(v, s, a), p, i)
  {
    LogIsExtended(v, s, a);
    ConfirmationsStay(s, Step(v, s, a));
  }

  lemma ConfirmationsStay(s: State, s': State)
    requires s.log <= s'.log
    ensures forall p: nat, i: nat :: IsConfirmed(s, p, i) ==> IsConfirmed(s', p, i)
  {
    forall p: nat, i: nat | IsConfirmed(s, p, i) ensures IsConfirmed(s', p, i) {
      var amount :| Confirmed(p, i, amount) in s.log;
      assert Confirmed(p, i, amount) in s'.log;
    }
  }

  lemma StepKeepsSound(v: Variant, s: State, a: Answer)
    requires Progress(v, s) && s.node != Critic && s.node != Executor
    ensures Sound(v, Step(v, s, a))
  {
    LogGrows(v, s, a);
  }

  lemma ReviewKeepsSound(v: Variant, s: State, a: Answer, critique: Critique)
    requires Progress(v, s) && s.node == Critic && s.execution.Some?
    ensures
      var (s', raised) := Review(v, s, a, s.execution.value.confirmed, critique);
      Sound(v, Leave(v, s', raised))
  {
    var (s', raised) := Review(v, s, a, s.execution.value.confirmed, critique);
    var s'' := Leave(v, s', raised);
    assert forall p: nat, i: nat :: IsConfirmed(s, p, i) ==> IsConfirmed(s'', p, i);
  }

  lemma ExecutorKeepsSound(v: Variant, s: State, a: Answer)
    requires Progress(v, s) && s.node == Executor
    ensures Sound(v, Step(v, s, a))
  {
    LogGrows(v, s, a);
    if s.index < |s.subtasks| {
      NotesOfAttempt(v, s, a.attempt);
    }
  }

  lemma StepKeepsOrdered(v: Variant, s: State, a: Answer)
    requires Progress(v, s) && s.node !in {Executor, Simulator, Critic}
    ensures Ordered(Step(v, s, a))
  {
    LogGrows(v, s, a);
  }

  lemma ReviewKeepsOrdered(v: Variant, s: State, a: Answer, critique: Critique)
    requires Progress(v, s) && s.node == Critic && s.execution.Some?
    ensures
      var (s', raised) := Review(v, s, a, s.execution.value.confirmed, critique);
      Ordered(Leave(v, s', raised))
  {
  }

  lemma CriticKeepsProgress(v: Variant, s: State, a: Answer)
    requires Progress(v, s) && s.node == Critic
    ensures Progress(v, Step(v, s, a))
  {
    if s.execution.Some? {
      ReviewKeepsSound(v, s, a, Evaluate(v, s.execution.value));
      ReviewKeepsOrdered(v, s, a, Evaluate(v, s.execution.value));
    } else {
      LogGrows(v, s, a);
    }
  }

  lemma PassesExtend(log: seq<Note>, notes: seq<Note>, r: nat, i: nat)
    requires PassesIncrease(log)
    requires forall q: nat, j: nat :: Pass(q, j) in log ==> Before(q, j, r, i)
    requires forall k :: 0 <= k < |notes| && notes[k].Pass? ==> k == 0 && notes[k] == Pass(r, i)
    ensures PassesIncrease(log + notes)
  {
    forall k | 0 <= k < |log| && log[k].Pass?
      ensures Before(log[k].retries, log[k].at, r, i)
    {
      assert Pass(log[k].retries, log[k].at) in log;
    }
  }

  lemma ConfirmationsExtend(log: seq<Note>, notes: seq<Note>, p: nat, i: nat)
    requires ConfirmationsIncrease(log)
    requires forall q: nat, j: nat, a: int :: Confirmed(q, j, a) in log ==> Before(q, j, p, i)
    requires forall k :: 0 <= k < |notes| && notes[k].Confirmed? ==>
               k == |notes| - 1 && notes[k].plan == p && notes[k].index == i
    ensures ConfirmationsIncrease(log + notes)
  {
    forall k | 0 <= k < |log| && log[k].Confirmed?
      ensures Before(log[k].plan, log[k].index, p, i)
    {
      assert Confirmed(log[k].plan, log[k].index, log[k].amount) in log;
    }
  }

  lemma SimulatorKeepsOrdered(v: Variant, s: State, a: Answer)
    requires Progress(v, s) && s.node == Simulator
    ensures Ordered(Step(v, s, a))
  {
    var notes := [Checked(s.plans, s.index, a.policyPasses)];
    PassesExtend(s.log, notes, s.retryCount, s.index);
    ConfirmationsExtend(s.log, notes, s.plans, s.index);
  }

  lemma PassKeepsOrdered(s: State, s': State, notes: seq<Note>)
    requires Ordered(s) && s.node == Executor && s'.node == Critic && s'.log == s.log + notes
    requires s'.plans == s.plans && s'.index == s.index && s'.retryCount == s.retryCount
    requires forall k :: 0 <= k < |notes| && notes[k].Pass? ==> k == 0 && notes[k] == Pass(s.retryCount, s.index)
    requires forall k :: 0 <= k < |notes| && notes[k].Confirmed? ==>
               k == |notes| - 1 && notes[k].plan == s.plans && notes[k].index == s.index
               && s'.execution.Some? && s'.execution.value.confirmed
    ensures Ordered(s')
  {
    PassesExtend(s.log, notes, s.retryCount, s.index);
    ConfirmationsExtend(s.log, notes, s.plans, s.index);
  }

  lemma {:induction false} ExecutorKeepsOrdered(v: Variant, s: State, a: Answer)
    requires Progress(v, s) && s.node == Executor
    ensures Ordered(Step(v, s, a))
  {
    if s.index < |s.subtasks| {
      NotesOfAttempt(v, s, a.attempt);
      var notes := if s.simulation == Some(true) then NotesOf(v, s, a.attempt) else [];
      assert Step(v, s, a).log == s.log + ([Pass(s.retryCount, s.index)] + notes);
      PassKeepsOrdered(s, Step(v, s, a), [Pass(s.retryCount, s.index)] + notes);
    }
  }

  lemma StepKeepsProgress(v: Variant, s: State, a: Answer)
    requires Progress(v, s)
    ensures Progress(v, Step(v, s, a))
  {
    match s.node
    case Executor => ExecutorKeepsSound(v, s, a); ExecutorKeepsOrdered(v, s, a);
    case Critic => CriticKeepsProgress(v, s, a);
    case Simulator => StepKeepsSound(v, s, a); SimulatorKeepsOrdered(v, s, a);
    case _ => StepKeepsSound(v, s, a); StepKeepsOrdered(v, s, a);
  }

  /** `n` steps of a run. */
  function Steps(v: Variant, s: State, answers: nat -> Answer, k: nat, n: nat): State
    decreases n
  {
    if n == 0 then s else Steps(v, Step(v, s, answers(k)), answers, k + 1, n - 1)
  }

  /** How many steps a run takes to its end. */
  function Length(v: Variant, s: State, answers: nat -> Answer, k: nat): nat
    decreases RetriesLeft(s), PlannerPending(s), SubtasksLeft(s), NodeRank(s)
  {
    if Ended(s) then 0
    else
      StepLowersRank(v, s, answers(k));
      1 + Length(v, Step(v, s, answers(k)), answers, k + 1)
  }

  lemma {:induction false} RunTakesSteps(v: Variant, s: State, answers: nat -> Answer, k: nat)
    ensures RunToEnd(v, s, answers, k) == Steps(v, s, answers, k, Length(v, s, answers, k))
    ensures Ended(RunToEnd(v, s, answers, k))
    decreases Length(v, s, answers, k)
  {
    if !Ended(s) {
      RunTakesSteps(v, Step(v, s, answers(k)), answers, k + 1);
    }
  }

  lemma {:induction false} StepsKeepProgress(v: Variant, s: State, answers: nat -> Answer, k: nat, n: nat)
    requires Progress(v, s)
    ensures Progress(v, Steps(v, s, answers, k, n))
    ensures v == Wrapped && s.node != Aborted ==> Steps(v, s, answers, k, n).node != Aborted
    decreases n
  {
    if n > 0 {
      StepKeepsProgress(v, s, answers(k));
      StepsKeepProgress(v, Step(v, s, answers(k)), answers, k + 1, n - 1);
    }
  }

  /** `s'` is lower in, lexicographically: the retries left, whether the planner is next, the subtasks
      left, and the position of the node. */
  predicate RankLowered(s: State, s': State) {
    || RetriesLeft(s') < RetriesLeft(s)
    || (RetriesLeft(s') == RetriesLeft(s)
        && (|| PlannerPending(s') < PlannerPending(s)
            || (PlannerPending(s') == PlannerPending(s)
                && (|| SubtasksLeft(s') < SubtasksLeft(s)
                    || (SubtasksLeft(s') == SubtasksLeft(s) && NodeRank(s') < NodeRank(s))))))
  }

  lemma ReviewLowersRank(v: Variant, s: State, a: Answer, critique: Critique)
    requires s.node == Critic && s.execution.Some?
    ensures
      var (s', raised) := Review(v, s, a, s.execution.value.confirmed, critique);
      RankLowered(s, Leave(v, s', raised))
  {
  }

  /** Each step of a run that has not ended lowers its rank. */
  lemma {:induction false} StepLowersRank(v: Variant, s: State, a: Answer)
    requires !Ended(s)
    ensures RankLowered(s, Step(v, s, a))
  {
    if s.node == Critic && s.execution.Some? {
      ReviewLowersRank(v, s, a, Evaluate(v, s.execution.value));
    }
  }

  /** Every run ends, for all answers.  A wrapped run ends DONE or FAILED; a service run does too, unless
      an exception aborted it. */
  lemma EveryRunEnds(v: Variant, maxRetries: int, answers: nat -> Answer)
    ensures
      var s := RunToEnd(v, Init(maxRetries), answers, 0);
      && (s.node == End || (v == Service && s.node == Aborted))
      && (s.node == End ==> s.status == Done || s.status == Failed)
  {
    RunTakesSteps(v, Init(maxRetries), answers, 0);
    StepsKeepProgress(v, Init(maxRetries), answers, 0, Length(v, Init(maxRetries), answers, 0));
  }

  /** Executor passes go strictly forward in (retry_count, index), confirmations strictly forward in
      (plan, index), and a run that is done has confirmed every subtask of its last plan. */
  lemma ProgressIsSound(v: Variant, maxRetries: int, answers: nat -> Answer)
    ensures
      var s := RunToEnd(v, Init(maxRetries), answers, 0);
      && PassesIncrease(s.log) && ConfirmationsIncrease(s.log)
      && (s.node == End && s.status == Done ==>
            s.subtasks != [] && forall i: nat :: i < |s.subtasks| ==> IsConfirmed(s, s.plans, i))
  {
    RunTakesSteps(v, Init(maxRetries), answers, 0);
    StepsKeepProgress(v, Init(maxRetries), answers, 0, Length(v, Init(maxRetries), answers, 0));
  }

  // ---- Retries are bounded ----------------------------------------------------------------------

  /** Each replan used up a retry, and there are no more retries than allowed. */
  predicate PlansCounted(s: State) {
    && s.retryCount <= Max(0, s.maxRetries)
    && s.plans <= s.retryCount + (if s.node == Planner then 0 else 1)
  }

  lemma StepKeepsPlansCounted(v: Variant, s: State, a: Answer)
    requires PlansCounted(s)
    ensures PlansCounted(Step(v, s, a)) && Step(v, s, a).maxRetries == s.maxRetries
  {
    if s.node == Critic && s.execution.Some? {
      ReviewKeepsPlansCounted(v, s, a, Evaluate(v, s.execution.value));
    }
  }

  lemma ReviewKeepsPlansCounted(v: Variant, s: State, a: Answer, critique: Critique)
    requires PlansCounted(s) && s.node == Critic && s.execution.Some?
    ensures
      var (s', raised) := Review(v, s, a, s.execution.value.confirmed, critique);
      PlansCounted(Leave(v, s', raised)) && s'.maxRetries == s.maxRetries
  {
  }

  /** What every step keeps, every run keeps. */
  lemma {:induction false} StepsKeep(v: Variant, inv: State -> bool, s: State, answers: nat -> Answer, k: nat, n: nat)
    requires inv(s) && forall s, a :: inv(s) ==> inv(Step(v, s, a))
    ensures inv(Steps(v, s, answers, k, n))
    decreases n
  {
    if n > 0 {
      StepsKeep(v, inv, Step(v, s, answers(k)), answers, k + 1, n - 1);
    }
  }

  /** No run retries more often than it may, or adopts more plans than one and one for each retry. */
  lemma RetriesAreBounded(v: Variant, maxRetries: int, answers: nat -> Answer)
    ensures
      var s := RunToEnd(v, Init(maxRetries), answers, 0);
      s.retryCount <= Max(0, maxRetries) && s.plans <= Max(0, maxRetries) + 1
  {
    var inv := (s: State) => PlansCounted(s) && s.maxRetries == maxRetries;
    forall s, a | inv(s) ensures inv(Step(v, s, a)) {
      StepKeepsPlansCounted(v, s, a);
    }
    RunTakesSteps(v, Init(maxRetries), answers, 0);
    StepsKeep(v, inv, Init(maxRetries), answers, 0, Length(v, Init(maxRetries), answers, 0));
  }

  /** Where the run goes after a review that did not raise: on to the next subtask, back to the planner for
      a transient failure with a retry left, or to the end. */
  lemma AfterReview(v: Variant, s: State, a: Answer)
    requires s.node == Critic && s.execution.Some? && !(v == Service && a.criticLogRaises)
    ensures
      var e := s.execution.value;
      var s' := Step(v, s, a);
      && (s'.node == Simulator <==> e.confirmed && s.index + 1 < |s.subtasks|)
      && (s'.node == Planner <==> !e.confirmed && IsTransient(v, e.error) && s.retryCount < s.maxRetries)
      && (s'.node == End <==> s'.node != Simulator && s'.node != Planner)
      && (s'.node == End ==> s'.status == if e.confirmed then Done else Failed)
      && (s'.node == Planner ==> s'.status == Retrying)
      && s'.index == s.index + (if s'.node == Simulator then 1 else 0)
      && s'.retryCount == s.retryCount + (if s'.node == Planner then 1 else 0)
  {
    ReviewRoutes(v, s, a, Evaluate(v, s.execution.value));
  }

  lemma ReviewRoutes(v: Variant, s: State, a: Answer, critique: Critique)
    requires s.node == Critic && s.execution.Some? && !(v == Service && a.criticLogRaises)
    ensures
      var confirmed := s.execution.value.confirmed;
      var s' := Leave(v, Review(v, s, a, confirmed, critique).0, Review(v, s, a, confirmed, critique).1);
      && (s'.node == Simulator <==> confirmed && s.index + 1 < |s.subtasks|)
      && (s'.node == Planner <==> !confirmed && critique.shouldRetry && s.retryCount < s.maxRetries)
      && (s'.node == End <==> s'.node != Simulator && s'.node != Planner)
      && (s'.node == End ==> s'.status == if confirmed then Done else Failed)
      && (s'.node == Planner ==> s'.status == Retrying)
      && s'.index == s.index + (if s'.node == Simulator then 1 else 0)
      && s'.retryCount == s.retryCount + (if s'.node == Planner then 1 else 0)
  {
  }
}
