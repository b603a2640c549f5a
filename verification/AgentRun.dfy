/** The agents' `run` methods and the compiled graph's `ainvoke`, updating the run's state in place. */
module AgentRun {
  import opened Common
  import opened Graph
  import opened GraphRuns
  import opened PolicyGate

  /** What a pass of the executor adds to the log. */
  lemma ExecutorNotes(v: Variant, s: State, a: Answer)
    requires s.index < |s.subtasks|
    ensures
      var s' := RunExecutor(v, s, a).0;
      && s.log <= s'.log
      && (forall k :: |s.log| <= k < |s'.log| && s'.log[k].Dispatched? ==>
            s.simulation == Some(true) && s'.log[k].plan == s.plans && s'.log[k].index == s.index)
      && (s'.execution.value.confirmed ==> IsConfirmed(s', s.plans, s.index))
  {
    AttemptDispatchesFirst(v, s, a.attempt);
    NotesOfAttempt(v, s, a.attempt);
    var notes := if s.simulation == Some(true) then NotesOf(v, s, a.attempt) else [];
    assert RunExecutor(v, s, a).0.log == s.log + [Pass(s.retryCount, s.index)] + notes;
  }

  class Run {
    const v: Variant
    const maxRetries: int
    var node: Node
    var subtasks: seq<SubTask>
    var index: nat
    var status: Status
    var simulation: Option<bool>
    var execution: Option<Execution>
    var critique: Option<Critique>
    var retryCount: nat
    ghost var plans: nat
    ghost var log: seq<Note>

    ghost function View(): State
      reads this
    {
      State(node, subtasks, index, status, simulation, execution, critique, retryCount, maxRetries, plans, log)
    }

    constructor (v: Variant, maxRetries: int)
      ensures this.v == v && View() == Init(maxRetries)
    {
      this.v := v;
      this.maxRetries := maxRetries;
      node, subtasks, index, status := Planner, [], 0, Planning;
      simulation, execution, critique := None, None, None;
      retryCount, plans, log := 0, 0, [];
    }

    method Plan(a: Answer) returns (raised: bool)
      modifies this
      ensures (View(), raised) == RunPlanner(v, old(View()), a)
      ensures raised ==> View() == old(View())
      ensures !raised ==> index == 0 && forall i :: 0 <= i < |subtasks| ==> subtasks[i].tool in AVAILABLE_TOOLS
    {
      if a.plan.None? || !Accepts(v, a.plan.value) {
        return true;
      }
      if v == Wrapped && !a.capable {
        return true;
      }
      subtasks := a.plan.value;
      index := 0;
      status := Simulating;
      plans := plans + 1;
      return false;
    }

    method Simulate(a: Answer) returns (raised: bool)
      modifies this
      ensures (View(), raised) == RunSimulator(v, old(View()), a)
      ensures raised ==> View() == old(View()) || (v == Wrapped && simulation == Some(false))
      ensures !raised ==>
                simulation == Some(a.policyPasses) && log == old(log) + [Checked(plans, index, a.policyPasses)]
    {
      if index >= |subtasks| {
        return true;
      }
      // Resolving the call, estimating gas and asking the policy engine all come before any update.
      if a.simulatorRaises {
        return true;
      }
      var passed := a.policyPasses;
      log := log + [Checked(plans, index, passed)];
      simulation := Some(passed);
      status := if passed then Executing else Failed;
      return v == Wrapped && !passed;
    }

    method Execute(a: Answer) returns (raised: bool)
      modifies this
      ensures (View(), raised) == RunExecutor(v, old(View()), a)
      ensures old(log) <= log
      ensures forall k :: |old(log)| <= k < |log| && log[k].Dispatched? ==>
                simulation == Some(true) && log[k].plan == plans && log[k].index == index
      ensures !raised && execution.value.confirmed ==> IsConfirmed(View(), plans, index)
    {
      if index >= |subtasks| {
        return true;
      }
      ExecutorNotes(v, View(), a);
      log := log + [Pass(retryCount, index)];
      if simulation != Some(true) {
        execution := Some(Execution(false, POLICY_BLOCKED));
        status := Reviewing;
        assert log == log + [];
        return false;
      }
      var result := Dispatch(a.attempt);
      execution := Some(result);
      status := Reviewing;
      return false;
    }

    /** The executor's `try` block: dispatch, wait for the receipt, record the spend, log the transaction. */
    method Dispatch(t: Attempt) returns (result: Execution)
      requires index < |subtasks|
      modifies this`log
      ensures result == ResultOf(v, t)
      ensures result.confirmed <==> ReceiptSucceeds(t) && t.recordError.None? && (v == Service ==> t.logError.None?)
      ensures log == old(log) + NotesOf(v, old(View()), t)
    {
      var subtask := subtasks[index];
      if t.tries > 0 {
        log := log + [Dispatched(plans, index, subtask, t.tries)];
      }
      if t.dispatchError.Some? {
        return Execution(false, t.dispatchError.value);
      }
      if t.receiptError.Some? {
        return Execution(false, t.receiptError.value);
      }
      result := if t.success then Execution(true, "") else Execution(false, REVERTED);
      if t.success {
        log := log + [ReceiptOk(plans, index, subtask), Recorded(subtask.amountUsd, t.recorded)];
        if t.recordError.Some? {
          return Execution(false, t.recordError.value);
        }
      }
      if v == Service && t.logError.Some? {
        return Execution(false, t.logError.value);
      }
      if t.success {
        log := log + [Confirmed(plans, index, subtask.amountUsd)];
      }
    }

    method Criticize(a: Answer) returns (raised: bool)
      modifies this
      ensures (View(), raised) == RunCritic(v, old(View()), a)
      ensures index != old(index) ==> !raised && execution.value.confirmed && index == old(index) + 1 < |subtasks|
      ensures retryCount != old(retryCount) ==>
                && !raised && !execution.value.confirmed && IsTransient(v, execution.value.error)
                && retryCount <= maxRetries
    {
      if execution.None? {
        return true;
      }
      var verdict := Evaluate(v, execution.value);
      critique := Some(verdict);
      if v == Service && a.criticLogRaises {
        return true;
      }
      var moreSubtasksRemain := index + 1 < |subtasks|;
      if execution.value.confirmed && moreSubtasksRemain {
        index := index + 1;
        status := Simulating;
      } else if execution.value.confirmed {
        status := Done;
      } else if verdict.shouldRetry && retryCount < maxRetries {
        retryCount := retryCount + 1;
        status := Retrying;
      } else {
        status := Failed;
      }
      return false;
    }

    /** One node and the edge it follows.  The service lets an exception through; contracts/ turns it into
        a failed state and goes on. */
    method Advance(a: Answer)
      requires !Ended(View())
      modifies this
      ensures View() == Step(v, old(View()), a)
      ensures RankLowered(old(View()), View())
    {
      StepLowersRank(v, View(), a);
      var raised := false;
      match node {
        case Planner => raised := Plan(a);
        case Memory => raised := a.memoryRaises;
        case Simulator => raised := Simulate(a);
        case Executor => raised := Execute(a);
        case Critic => raised := Criticize(a);
        case _ =>
      }
      if raised && v == Service {
        node := Aborted;
        return;
      }
      if raised {
        status := Failed;
        critique := Some(Critique(false, false));
      }
      match node {
        case Planner => node := Memory;
        case Memory => node := Simulator;
        case Simulator => node := Executor;
        case Executor => node := Critic;
        case Critic => node := RouteAfterCritic(status);
        case _ =>
      }
    }

    /** Run the graph to its end.  The loop ends for all answers, and so does the run, done or failed. */
    method Invoke(answers: nat -> Answer)
      requires View() == Init(maxRetries)
      modifies this
      ensures View() == RunToEnd(v, Init(maxRetries), answers, 0)
      ensures node == End || (v == Service && node == Aborted)
      ensures node == End ==> status == Done || status == Failed
      ensures node == End && status == Done ==>
                subtasks != [] && forall i: nat :: i < |subtasks| ==> IsConfirmed(View(), plans, i)
      ensures v == Service ==> Gated(log)
    {
      var k := 0;
      while node != End && node != Aborted
        invariant RunToEnd(v, View(), answers, k) == RunToEnd(v, Init(maxRetries), answers, 0)
        decreases RetriesLeft(View()), PlannerPending(View()), SubtasksLeft(View()), NodeRank(View())
      {
        Advance(answers(k));
        k := k + 1;
      }
      EveryRunEnds(v, maxRetries, answers);
      ProgressIsSound(v, maxRetries, answers);
      EveryDispatchIsGated(maxRetries, answers);
    }
  }
}
