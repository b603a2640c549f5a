/** What a failed pass leaves behind, and whether the run retries it: told from what was raised and from the
    texts themselves. */
module Reviews {
  import opened Common
  import opened Graph
  import opened GraphRuns

  predicate LivePass(s: State) {
    s.node == Executor && s.index < |s.subtasks| && s.simulation == Some(true)
  }

  /** The error texts that count as transient. */
  predicate Transient(v: Variant, error: string) {
    || Contains(error, "Transaction reverted") || Contains(error, "timeout") || Contains(error, "nonce too low")
    || (v == Wrapped && Contains(error, "replacement transaction underpriced"))
  }

  /** The text that a pass raised before it had a receipt, or that stands for a failed receipt. */
  predicate FailsWith(v: Variant, t: Attempt, error: string) {
    if t.dispatchError.Some? then error == t.dispatchError.value
    else if t.receiptError.Some? then error == t.receiptError.value
    else !t.success && (v == Service ==> t.logError.None?) && error == "Transaction reverted"
  }

  /** The text that a pass raised after a receipt. */
  predicate FailsAfterReceiptWith(v: Variant, t: Attempt, error: string) {
    && t.dispatchError.None? && t.receiptError.None?
    && if t.success && t.recordError.Some? then error == t.recordError.value
       else v == Service && t.logError.Some? && error == t.logError.value
  }

  predicate AllGoesWell(v: Variant, t: Attempt) {
    && t.dispatchError.None? && t.receiptError.None? && t.success && t.recordError.None?
    && (v == Service ==> t.logError.None?)
  }

  /** A pass that was let through leaves the very text that was raised, at whatever point; "Transaction
      reverted" for a failed receipt; and no error for a confirmed one. */
  lemma PassReports(v: Variant, s: State, a: Answer, error: string)
    requires LivePass(s)
    ensures
      var s' := Step(v, s, a);
      var t := a.attempt;
      && s'.node == Critic && s'.index == s.index && s'.subtasks == s.subtasks
      && s'.retryCount == s.retryCount && s'.maxRetries == s.maxRetries
      && (FailsWith(v, t, error) || FailsAfterReceiptWith(v, t, error) ==>
            s'.execution == Some(Execution(false, error)))
      && (AllGoesWell(v, t) ==> s'.execution == Some(Execution(true, "")))
  {
  }

  /** A failed pass goes back to the planner exactly when its text contains a transient one and a retry is
      left; otherwise the run ends as failed and no retry is used up. */
  lemma FailedPassRetriesExactlyWhen(v: Variant, s: State, a0: Answer, a1: Answer, error: string)
    requires LivePass(s) && (FailsWith(v, a0.attempt, error) || FailsAfterReceiptWith(v, a0.attempt, error))
    requires v == Service ==> !a1.criticLogRaises
    ensures
      var s' := Step(v, Step(v, s, a0), a1);
      if Transient(v, error) && s.retryCount < s.maxRetries then
        s'.node == Planner && s'.retryCount == s.retryCount + 1 && s'.status == Retrying
      else
        s'.node == End && s'.retryCount == s.retryCount && s'.status == Failed
  {
    PassReports(v, s, a0, error);
    FailureReviewed(v, Step(v, s, a0), a1, error);
  }

  lemma FailureReviewed(v: Variant, s: State, a: Answer, error: string)
    requires s.node == Critic && s.execution == Some(Execution(false, error)) && (v == Service ==> !a.criticLogRaises)
    ensures
      var s' := Step(v, s, a);
      if Transient(v, error) && s.retryCount < s.maxRetries then
        s'.node == Planner && s'.retryCount == s.retryCount + 1 && s'.status == Retrying
      else
        s'.node == End && s'.retryCount == s.retryCount && s'.status == Failed
  {
    AfterReview(v, s, a);
  }

  /** A failed receipt is retried whenever a retry is left. */
  lemma RevertedIsRetried(v: Variant, s: State, a0: Answer, a1: Answer)
    requires LivePass(s) && a0.attempt.dispatchError.None? && a0.attempt.receiptError.None? && !a0.attempt.success
    requires v == Service ==> a0.attempt.logError.None? && !a1.criticLogRaises
    ensures (Step(v, Step(v, s, a0), a1).node == Planner) <==> s.retryCount < s.maxRetries
  {
    var error := "Transaction reverted";
    assert "Transaction reverted" <= error[0..];
    FailedPassRetriesExactlyWhen(v, s, a0, a1, error);
  }

  /** A confirmed pass moves on to the next subtask, or ends the run as done after the last. */
  lemma ConfirmedPassMovesOn(v: Variant, s: State, a0: Answer, a1: Answer)
    requires LivePass(s) && AllGoesWell(v, a0.attempt) && (v == Service ==> !a1.criticLogRaises)
    ensures
      var s' := Step(v, Step(v, s, a0), a1);
      if s.index + 1 < |s.subtasks| then s'.node == Simulator && s'.index == s.index + 1
      else s'.node == End && s'.status == Done
  {
    PassReports(v, s, a0, "");
    AfterReview(v, Step(v, s, a0), a1);
  }

  // ---- Adopting a plan --------------------------------------------------------------------------

  predicate KnownTool(tool: string) {
    || tool == "swap_tool" || tool == "bridge_tool" || tool == "defi_tool"
    || tool == "nft_tool" || tool == "wallet_tool" || tool == "price_feed_tool"
  }

  predicate SaysSomething(action: string) {
    exists i :: 0 <= i < |action| && action[i] != ' ' && action[i] != '\t' && action[i] != '\n' && action[i] != '\r'
  }

  predicate Acceptable(v: Variant, plan: seq<SubTask>) {
    && (forall i :: 0 <= i < |plan| ==> KnownTool(plan[i].tool))
    && (v == Wrapped ==> plan != [] && forall i :: 0 <= i < |plan| ==> SaysSomething(plan[i].action))
  }

  lemma AcceptsExactlyWhen(v: Variant, plan: seq<SubTask>)
    ensures Accepts(v, plan) <==> Acceptable(v, plan)
  {
    forall i | 0 <= i < |plan| ensures plan[i].tool in AVAILABLE_TOOLS <==> KnownTool(plan[i].tool) {}
    forall i | 0 <= i < |plan| ensures !IsBlank(plan[i].action) <==> SaysSomething(plan[i].action) {}
  }

  /** The planner adopts a reply exactly when it is a plan of known tools, in contracts/ also not empty, with
      an action everywhere and within the agent's capabilities; it then starts from its first subtask.
      Otherwise the service's run is aborted, and that of contracts/ goes on with the plan it had. */
  lemma PlannerAdoptsExactlyWhen(v: Variant, s: State, a: Answer)
    requires s.node == Planner
    ensures
      var s' := Step(v, s, a);
      var adopts := a.plan.Some? && Acceptable(v, a.plan.value) && (v == Wrapped ==> a.capable);
      && (adopts ==>
            s'.node == Memory && s'.subtasks == a.plan.value && s'.index == 0 && s'.plans == s.plans + 1)
      && (!adopts ==>
            && s'.node == (if v == Service then Aborted else Memory)
            && s'.subtasks == s.subtasks && s'.index == s.index && s'.plans == s.plans
            && (v == Wrapped ==> s'.status == Failed))
      && s'.simulation == s.simulation && s'.retryCount == s.retryCount
  {
    if a.plan.Some? {
      AcceptsExactlyWhen(v, a.plan.value);
    }
  }

  /** The simulator records the policy engine's verdict about the current subtask, unless something before
      raised, and a rejection raises too in contracts/. */
  lemma SimulatorRecords(v: Variant, s: State, a: Answer)
    requires s.node == Simulator && s.index < |s.subtasks|
    ensures
      var s' := Step(v, s, a);
      && s'.simulation == (if a.simulatorRaises then s.simulation else Some(a.policyPasses))
      && s'.node == (if a.simulatorRaises && v == Service then Aborted else Executor)
      && s'.subtasks == s.subtasks && s'.index == s.index && s'.retryCount == s.retryCount
  {
  }
}
