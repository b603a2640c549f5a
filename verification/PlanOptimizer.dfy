/** The optimizer as the program runs it: on task objects whose amounts are changed in place, and on the
    record of what the agent's tools did before. */
module PlanOptimizer {
  import opened Common
  import opened Optimizer

  // ---- The record of past attempts --------------------------------------------------------------

  datatype Memory = Memory(agent: string, tool: string, failure: bool)

  const FAILURE_LIMIT: nat := 5

  predicate IsFailure(m: Memory, agent: string, tool: string) {
    m.agent == agent && m.tool == tool && m.failure
  }

  /** The latest failures on record, at most `limit`, newest first. */
  function FailurePatterns(log: seq<Memory>, agent: string, tool: string, limit: nat): seq<Memory> {
    if log == [] || limit == 0 then []
    else
      var last, rest := log[|log| - 1], log[..|log| - 1];
      if IsFailure(last, agent, tool) then [last] + FailurePatterns(rest, agent, tool, limit - 1)
      else FailurePatterns(rest, agent, tool, limit)
  }

  function KnownFailure(log: seq<Memory>, agent: string): string -> bool {
    tool => |FailurePatterns(log, agent, tool, FAILURE_LIMIT)| >= FAILURE_LIMIT
  }

  function CountFailures(log: seq<Memory>, agent: string, tool: string): nat {
    if log == [] then 0
    else
      CountFailures(log[..|log| - 1], agent, tool) + if IsFailure(log[|log| - 1], agent, tool) then 1 else 0
  }

  lemma {:induction false} FailurePatternsCount(log: seq<Memory>, agent: string, tool: string, limit: nat)
    ensures |FailurePatterns(log, agent, tool, limit)| == Min(limit, CountFailures(log, agent, tool))
  {
    if log != [] && limit > 0 {
      var rest := log[..|log| - 1];
      FailurePatternsCount(rest, agent, tool, if IsFailure(log[|log| - 1], agent, tool) then limit - 1 else limit);
    }
  }

  lemma {:induction false} CountGrows(log: seq<Memory>, more: seq<Memory>, agent: string, tool: string)
    ensures CountFailures(log, agent, tool) <= CountFailures(log + more, agent, tool)
    decreases |more|
  {
    if more == [] {
      assert log + more == log;
    } else {
      assert (log + more)[..|log + more| - 1] == log + more[..|more| - 1];
      CountGrows(log, more[..|more| - 1], agent, tool);
    }
  }

  /** A tool counts as failing exactly when five failures are on record, however many attempts went well
      in between, and it then counts as failing for ever. */
  lemma KnownFailureIsForever(log: seq<Memory>, more: seq<Memory>, agent: string, tool: string)
    ensures KnownFailure(log, agent)(tool) <==> CountFailures(log, agent, tool) >= 5
    ensures KnownFailure(log, agent)(tool) ==> KnownFailure(log + more, agent)(tool)
  {
    FailurePatternsCount(log, agent, tool, FAILURE_LIMIT);
    FailurePatternsCount(log + more, agent, tool, FAILURE_LIMIT);
    CountGrows(log, more, agent, tool);
  }

  /** The latest attempts on record, at most `limit`, newest first. */
  function LatestAttempts(log: seq<Memory>, agent: string, tool: string, limit: nat): seq<Memory> {
    if log == [] || limit == 0 then []
    else
      var last, rest := log[|log| - 1], log[..|log| - 1];
      if last.agent == agent && last.tool == tool then [last] + LatestAttempts(rest, agent, tool, limit - 1)
      else LatestAttempts(rest, agent, tool, limit)
  }

  ghost predicate NoSuccess(attempts: seq<Memory>) {
    forall m :: m in attempts ==> m.failure
  }

  lemma {:induction false} FailuresAndLatestAttempts(log: seq<Memory>, agent: string, tool: string, limit: nat)
    ensures
      var latest := LatestAttempts(log, agent, tool, limit);
      && Min(limit, CountFailures(log, agent, tool)) <= |latest| <= limit
      && (NoSuccess(latest) ==> |latest| <= CountFailures(log, agent, tool))
  {
    if log != [] && limit > 0 {
      var last, rest := log[|log| - 1], log[..|log| - 1];
      if last.agent == agent && last.tool == tool {
        var older := LatestAttempts(rest, agent, tool, limit - 1);
        FailuresAndLatestAttempts(rest, agent, tool, limit - 1);
        assert NoSuccess([last] + older) ==> NoSuccess(older) && last.failure by {
          assert last in [last] + older;
        }
      } else {
        FailuresAndLatestAttempts(rest, agent, tool, limit);
      }
    }
  }

  /** What the documentation promises instead: every one of the last five attempts failed. */
  ghost predicate LastFiveFailed(log: seq<Memory>, agent: string, tool: string) {
    var latest := LatestAttempts(log, agent, tool, FAILURE_LIMIT);
    |latest| == FAILURE_LIMIT && NoSuccess(latest)
  }

  /** The code does what is documented exactly when the tool has failed fewer than five times, or none of
      its last five attempts went well. */
  lemma DropsAsDocumentedExactlyWhen(log: seq<Memory>, agent: string, tool: string)
    ensures LastFiveFailed(log, agent, tool) ==> KnownFailure(log, agent)(tool)
    ensures (KnownFailure(log, agent)(tool) <==> LastFiveFailed(log, agent, tool)) <==>
            (CountFailures(log, agent, tool) < FAILURE_LIMIT
             || NoSuccess(LatestAttempts(log, agent, tool, FAILURE_LIMIT)))
  {
    FailuresAndLatestAttempts(log, agent, tool, FAILURE_LIMIT);
    KnownFailureIsForever(log, [], agent, tool);
  }

  /** One success after the failures does not bring the tool back. */
  lemma SuccessDoesNotUndrop(log: seq<Memory>, agent: string, tool: string)
    requires KnownFailure(log, agent)(tool)
    ensures
      var later := log + [Memory(agent, tool, false)];
      KnownFailure(later, agent)(tool) && !LastFiveFailed(later, agent, tool)
  {
    var success := Memory(agent, tool, false);
    KnownFailureIsForever(log, [success], agent, tool);
    assert LatestAttempts(log + [success], agent, tool, FAILURE_LIMIT)[0] == success;
  }

  // ---- Task objects -----------------------------------------------------------------------------

  class Task {
    const tool: string
    const action: string
    const params: map<string, string>
    var amount: Option<int>

    constructor (value: SubTask)
      ensures Value() == value
    {
      tool, action, params, amount := value.tool, value.action, value.params, value.amount;
    }

    function Value(): SubTask
      reads this
    {
      SubTask(tool, action, params, amount)
    }
  }

  /** The tasks now hold these values. */
  predicate Hold(tasks: seq<Task>, values: seq<SubTask>)
    reads tasks
  {
    |tasks| == |values| && forall i :: 0 <= i < |tasks| ==> tasks[i].Value() == values[i]
  }

  ghost predicate Distinct(tasks: seq<Task>) {
    forall i, j :: 0 <= i < j < |tasks| ==> tasks[i] != tasks[j]
  }

  /** One turn of the loop below: absorb `subtask` into the last merged task, or append it. */
  method MergeInto(merged: seq<Task>, subtask: Task, ghost values: seq<SubTask>, ghost value: SubTask)
    returns (longer: seq<Task>)
    requires merged != [] && merged[|merged| - 1] !in merged[..|merged| - 1]
    requires Hold(merged, values) && subtask.Value() == value
    modifies merged[|merged| - 1]
    ensures Hold(longer, Push(values, value))
    ensures longer == if IsMergeable(values[|values| - 1], value) then merged else merged + [subtask]
    ensures subtask !in merged ==> longer != [] && longer[|longer| - 1] !in longer[..|longer| - 1]
    ensures forall t :: t in longer ==> t in merged || t == subtask
  {
    var prev := merged[|merged| - 1];
    if IsMergeable(prev.Value(), subtask.Value()) {
      assert forall i :: 0 <= i < |merged| - 1 ==> merged[i] in merged[..|merged| - 1];
      prev.amount := Some(prev.amount.GetOr(0) + subtask.amount.GetOr(0));
      longer := merged;
    } else {
      longer := merged + [subtask];
    }
  }

  /** The tasks from `i` on are not merged yet and hold their own values. */
  ghost predicate Untouched(merged: seq<Task>, subtasks: seq<Task>, values: seq<SubTask>, i: nat)
    requires i <= |subtasks| == |values|
    reads subtasks
  {
    forall j :: i <= j < |subtasks| ==> subtasks[j] !in merged && subtasks[j].Value() == values[j]
  }

  method MergeDuplicateActions(subtasks: seq<Task>, ghost values: seq<SubTask>) returns (merged: seq<Task>)
    requires Distinct(subtasks) && Hold(subtasks, values)
    modifies subtasks
    ensures Hold(merged, Merge(values))
    ensures forall t :: t in merged ==> t in subtasks
  {
    if subtasks == [] {
      return subtasks;
    }
    merged := [subtasks[0]];
    MergeOneMore(values, 0);
    ghost var held := Merge(values[..1]);
    for i := 1 to |subtasks|
      invariant merged != [] && merged[|merged| - 1] !in merged[..|merged| - 1]
      invariant forall t :: t in merged ==> t in subtasks
      invariant Untouched(merged, subtasks, values, i)
      invariant Hold(merged, held) && held == Merge(values[..i])
    {
      MergeOneMore(values, i);
      assert merged[|merged| - 1] in merged;
      merged := MergeInto(merged, subtasks[i], held, values[i]);
      held := Push(held, values[i]);
    }
    assert values[..|subtasks|] == values;
  }

  lemma MergeOneMore(values: seq<SubTask>, i: nat)
    requires i < |values|
    ensures Merge(values[..i + 1]) == Push(Merge(values[..i]), values[i])
  {
    assert values[..i + 1] == values[..i] + [values[i]];
    PushLast([], values[..i], values[i]);
  }

  function KeepTasks(p: string -> bool, tasks: seq<Task>): (kept: seq<Task>)
    ensures forall t :: t in kept ==> t in tasks
  {
    if tasks == [] then [] else (if p(tasks[0].tool) then [tasks[0]] else []) + KeepTasks(p, tasks[1..])
  }

  lemma {:induction false} KeepTasksKeeps(p: string -> bool, tasks: seq<Task>, values: seq<SubTask>)
    requires Hold(tasks, values)
    ensures Hold(KeepTasks(p, tasks), Keep(p, values))
  {
    if tasks != [] {
      assert tasks[0].Value() == values[0];
      KeepTasksKeeps(p, tasks[1..], values[1..]);
    }
  }

  lemma {:induction false} KeepTasksAppends(p: string -> bool, tasks: seq<Task>, task: Task)
    ensures KeepTasks(p, tasks + [task]) == KeepTasks(p, tasks) + if p(task.tool) then [task] else []
  {
    if tasks != [] {
      assert (tasks + [task])[0] == tasks[0] && (tasks + [task])[1..] == tasks[1..] + [task];
      KeepTasksAppends(p, tasks[1..], task);
    } else {
      assert tasks + [task] == [task];
    }
  }

  function ReorderReadsBeforeWrites(subtasks: seq<Task>): (ordered: seq<Task>)
    ensures forall t :: t in ordered ==> t in subtasks
  {
    KeepTasks(IsReadOnly, subtasks) + KeepTasks(IsWrite, subtasks)
  }

  lemma ReorderReorders(subtasks: seq<Task>, values: seq<SubTask>)
    requires Hold(subtasks, values)
    ensures Hold(ReorderReadsBeforeWrites(subtasks), Reorder(values))
  {
    KeepTasksKeeps(IsReadOnly, subtasks, values);
    KeepTasksKeeps(IsWrite, subtasks, values);
  }

  method DropKnownFailures(log: seq<Memory>, agent: string, subtasks: seq<Task>, ghost values: seq<SubTask>)
    returns (filtered: seq<Task>)
    requires Hold(subtasks, values)
    ensures Hold(filtered, DropFailures(KnownFailure(log, agent), values))
    ensures forall t :: t in filtered ==> t in subtasks
  {
    ghost var healthy := Healthy(KnownFailure(log, agent));
    filtered := [];
    for i := 0 to |subtasks|
      invariant filtered == KeepTasks(healthy, subtasks[..i])
    {
      assert subtasks[..i + 1] == subtasks[..i] + [subtasks[i]];
      KeepTasksAppends(healthy, subtasks[..i], subtasks[i]);
      var failures := FailurePatterns(log, agent, subtasks[i].tool, FAILURE_LIMIT);
      if |failures| >= FAILURE_LIMIT {
        continue;
      }
      filtered := filtered + [subtasks[i]];
    }
    assert subtasks[..|subtasks|] == subtasks;
    KeepTasksKeeps(healthy, subtasks, values);
    if filtered == [] {
      return subtasks;
    }
  }

  /** The task objects end up as `Optimize` says, some of them changed in place, none of them new. */
  method OptimizePlan(log: seq<Memory>, agent: string, subtasks: seq<Task>, ghost values: seq<SubTask>)
    returns (plan: seq<Task>)
    requires Distinct(subtasks) && Hold(subtasks, values)
    modifies subtasks
    ensures Hold(plan, Optimize(KnownFailure(log, agent), values))
    ensures forall t :: t in plan ==> t in subtasks
  {
    var merged := MergeDuplicateActions(subtasks, values);
    ReorderReorders(merged, Merge(values));
    plan := DropKnownFailures(log, agent, ReorderReadsBeforeWrites(merged), Reorder(Merge(values)));
  }
}
