/** The Planner, Memory, Simulator, Executor, Critic graph in its two variants.

    `Service` is services/agent-orchestrator: an exception in a node aborts the whole run.
    `Wrapped` is contracts/: every node is wrapped, an exception becomes status FAILED and the graph
    still follows its fixed edges.  What the language model, the policy engine, the tool router and the
    chain say is an `Answer`, one for each node that runs; the theorems hold for all answers. */
module Graph {
  import opened Common

  datatype Variant = Service | Wrapped

  datatype Status = Planning | Simulating | Executing | Reviewing | Retrying | Done | Failed

  /** `amountUsd` is params.amount_usd, 0 when missing, counted exactly in some smallest unit. */
  datatype SubTask = SubTask(tool: string, action: string, amountUsd: int)

  datatype Execution = Execution(confirmed: bool, error: string)

  datatype Critique = Critique(outcomeMatchesIntent: bool, shouldRetry: bool)

  datatype Node = Planner | Memory | Simulator | Executor | Critic | End | Aborted

  /** What a run did to the outside world.  Plans are numbered from 1 as they are adopted,
      and `times` counts the calls of one retry loop. */
  datatype Note =
    | Checked(plan: nat, index: nat, passed: bool)
    | Pass(retries: nat, at: nat)
    | Dispatched(plan: nat, index: nat, subtask: SubTask, times: nat)
    | ReceiptOk(plan: nat, index: nat, subtask: SubTask)
    | Recorded(amount: int, times: nat)
    | Confirmed(plan: nat, index: nat, amount: int)

  /** `simulation` is whether the last recorded simulation passed the policy check. */
  datatype State = State(
    node: Node, subtasks: seq<SubTask>, index: nat, status: Status,
    simulation: Option<bool>, execution: Option<Execution>, critique: Option<Critique>,
    retryCount: nat, maxRetries: int, plans: nat, log: seq<Note>)

  /** How one dispatch of the executor goes, in the order the source awaits things.  `tries` counts the
      calls to dispatch and `recorded` those to record_spend that took effect. */
  datatype Attempt = Attempt(
    tries: nat, dispatchError: Option<string>, receiptError: Option<string>, success: bool,
    recorded: nat, recordError: Option<string>, logError: Option<string>)

  /** `plan` is None when the call to the language model, or reading its reply as JSON, raises. */
  datatype Answer = Answer(
    plan: Option<seq<SubTask>>, capable: bool, memoryRaises: bool,
    simulatorRaises: bool, policyPasses: bool, attempt: Attempt, criticLogRaises: bool)

  const AVAILABLE_TOOLS: set<string> :=
    {"swap_tool", "bridge_tool", "defi_tool", "nft_tool", "wallet_tool", "price_feed_tool"}

  const POLICY_BLOCKED := "Blocked by policy check before execution"
  const REVERTED := "Transaction reverted"

  predicate Contains(s: string, pattern: string) {
    exists i :: 0 <= i <= |s| && pattern <= s[i..]
  }

  predicate IsTransient(v: Variant, error: string) {
    || Contains(error, REVERTED) || Contains(error, "timeout") || Contains(error, "nonce too low")
    || (v == Wrapped && Contains(error, "replacement transaction underpriced"))
  }

  predicate IsBlank(s: string) {
    forall i :: 0 <= i < |s| ==> s[i] in {' ', '\t', '\n', '\r'}
  }

  /** The service accepts any list of known tools, even an empty one; contracts/ validates more. */
  predicate Accepts(v: Variant, plan: seq<SubTask>) {
    && (forall i :: 0 <= i < |plan| ==> plan[i].tool in AVAILABLE_TOOLS)
    && (v == Wrapped ==> plan != [] && forall i :: 0 <= i < |plan| ==> !IsBlank(plan[i].action))
  }

  /** How often the variant calls dispatch or record_spend for one subtask at most. */
  function MaxTries(v: Variant): nat {
    if v == Service then 1 else 2
  }

  /** Calls that return have happened, and are not repeated more than the variant's retry loop does. */
  predicate Possible(v: Variant, a: Answer) {
    && a.attempt.tries <= MaxTries(v) && (a.attempt.dispatchError.None? ==> a.attempt.tries >= 1)
    && a.attempt.recorded <= MaxTries(v) && (a.attempt.recordError.None? ==> a.attempt.recorded >= 1)
  }

  // ---- The nodes.  Each gives the state it leaves and whether it raised. ------------------------

  function RunPlanner(v: Variant, s: State, a: Answer): (State, bool) {
    if a.plan.None? || !Accepts(v, a.plan.value) || (v == Wrapped && !a.capable) then (s, true)
    else (s.(subtasks := a.plan.value, index := 0, status := Simulating, plans := s.plans + 1), false)
  }

  function RunMemory(s: State, a: Answer): (State, bool) {
    (s, a.memoryRaises)
  }

  function RunSimulator(v: Variant, s: State, a: Answer): (State, bool) {
    if s.index >= |s.subtasks| || a.simulatorRaises then (s, true)
    else
      (s.(simulation := Some(a.policyPasses),
          status := if a.policyPasses then Executing else Failed,
          log := s.log + [Checked(s.plans, s.index, a.policyPasses)]),
       v == Wrapped && !a.policyPasses)
  }

  /** What the executor records about the attempt. */
  function ResultOf(v: Variant, t: Attempt): Execution {
    if t.dispatchError.Some? then Execution(false, t.dispatchError.value)
    else if t.receiptError.Some? then Execution(false, t.receiptError.value)
    else if t.success && t.recordError.Some? then Execution(false, t.recordError.value)
    else if v == Service && t.logError.Some? then Execution(false, t.logError.value)
    else if !t.success then Execution(false, REVERTED)
    else Execution(true, "")
  }

  predicate ReceiptSucceeds(t: Attempt) {
    t.dispatchError.None? && t.receiptError.None? && t.success
  }

  function DispatchNotes(s: State, t: Attempt): seq<Note>
    requires s.index < |s.subtasks|
  {
    if t.tries > 0 then [Dispatched(s.plans, s.index, s.subtasks[s.index], t.tries)] else []
  }

  function ReceiptNotes(s: State, t: Attempt): seq<Note>
    requires s.index < |s.subtasks|
  {
    var subtask := s.subtasks[s.index];
    if ReceiptSucceeds(t) then
      [ReceiptOk(s.plans, s.index, subtask), Recorded(subtask.amountUsd, t.recorded)]
    else []
  }

  function ConfirmNotes(v: Variant, s: State, amount: int, t: Attempt): seq<Note> {
    if ResultOf(v, t).confirmed then [Confirmed(s.plans, s.index, amount)] else []
  }

  /** What the attempt does to the outside world. */
  function NotesOf(v: Variant, s: State, t: Attempt): seq<Note>
    requires s.index < |s.subtasks|
  {
    var amount := s.subtasks[s.index].amountUsd;
    DispatchNotes(s, t) + ReceiptNotes(s, t) + ConfirmNotes(v, s, amount, t)
  }

  function RunExecutor(v: Variant, s: State, a: Answer): (State, bool) {
    if s.index >= |s.subtasks| then (s, true)
    else
      var go := s.simulation == Some(true);
      var execution := if go then ResultOf(v, a.attempt) else Execution(false, POLICY_BLOCKED);
      var notes := if go then NotesOf(v, s, a.attempt) else [];
      (s.(execution := Some(execution), status := Reviewing,
          log := s.log + [Pass(s.retryCount, s.index)] + notes),
       false)
  }

  function Evaluate(v: Variant, e: Execution): Critique {
    if e.confirmed then Critique(true, false) else Critique(false, IsTransient(v, e.error))
  }

  function RunCritic(v: Variant, s: State, a: Answer): (State, bool) {
    if s.execution.None? then (s, true)
    else Review(v, s, a, s.execution.value.confirmed, Evaluate(v, s.execution.value))
  }

  function Review(v: Variant, s: State, a: Answer, confirmed: bool, critique: Critique): (State, bool) {
    var s1 := s.(critique := Some(critique));
    if v == Service && a.criticLogRaises then (s1, true)
    else if confirmed && s.index + 1 < |s.subtasks| then
      (s1.(index := s.index + 1, status := Simulating), false)
    else if confirmed then (s1.(status := Done), false)
    else if critique.shouldRetry && s.retryCount < s.maxRetries then
      (s1.(retryCount := s.retryCount + 1, status := Retrying), false)
    else (s1.(status := Failed), false)
  }

  // ---- The graph --------------------------------------------------------------------------------

  function RouteAfterCritic(status: Status): Node {
    match status
    case Simulating => Simulator
    case Retrying => Planner
    case _ => End
  }

  function RunNode(v: Variant, s: State, a: Answer): (State, bool) {
    match s.node
    case Planner => RunPlanner(v, s, a)
    case Memory => RunMemory(s, a)
    case Simulator => RunSimulator(v, s, a)
    case Executor => RunExecutor(v, s, a)
    case Critic => RunCritic(v, s, a)
    case _ => (s, false)
  }

  function Follow(s: State): Node {
    match s.node
    case Planner => Memory
    case Memory => Simulator
    case Simulator => Executor
    case Executor => Critic
    case Critic => RouteAfterCritic(s.status)
    case _ => s.node
  }

  predicate Ended(s: State) {
    s.node == End || s.node == Aborted
  }

  function Step(v: Variant, s: State, a: Answer): State {
    if Ended(s) then s
    else
      var (s', raised) := RunNode(v, s, a);
      Leave(v, s', raised)
  }

  /** Where a node that left state `s` and possibly raised takes the run. */
  function Leave(v: Variant, s: State, raised: bool): State {
    if raised && v == Service then s.(node := Aborted)
    else
      var s' := if raised then s.(status := Failed, critique := Some(Critique(false, false))) else s;
      s'.(node := Follow(s'))
  }

  function Init(maxRetries: int): State {
    State(Planner, [], 0, Planning, None, None, None, 0, maxRetries, 0, [])
  }

  // ---- Every run ends ---------------------------------------------------------------------------

  function RetriesLeft(s: State): nat {
    Max(0, s.maxRetries - s.retryCount)
  }

  function PlannerPending(s: State): nat {
    if s.node == Planner then 1 else 0
  }

  function SubtasksLeft(s: State): nat {
    if s.node == Planner then 0 else Max(0, |s.subtasks| - s.index)
  }

  function NodeRank(s: State): nat {
    match s.node
    case Planner => 5
    case Memory => 4
    case Simulator => 3
    case Executor => 2
    case Critic => 1
    case _ => 0
  }

  /** A run to its end, with the answers from number `k` on.  That this is a function at all says that
      every run ends, whatever plans and answers come back. */
  function RunToEnd(v: Variant, s: State, answers: nat -> Answer, k: nat): State
    decreases RetriesLeft(s), PlannerPending(s), SubtasksLeft(s), NodeRank(s)
  {
    if Ended(s) then s else RunToEnd(v, Step(v, s, answers(k)), answers, k + 1)
  }
}
