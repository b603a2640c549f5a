/** What gets dispatched: in the service graph only what the policy engine passed in the same pass, and in
    both graphs only known tools.  In contracts/ a pass can go ungated, and the module says exactly when. */
module PolicyGate {
  import opened Common
  import opened Graph
  import opened GraphRuns

  /** Every dispatch directly follows the pass it belongs to and a passed check of the same plan and index. */
  ghost predicate Gated(log: seq<Note>) {
    forall k :: 0 <= k < |log| && log[k].Dispatched? ==>
      k >= 2 && log[k - 1].Pass? && log[k - 2] == Checked(log[k].plan, log[k].index, true)
  }

  ghost predicate KnownTools(s: State) {
    && (forall i :: 0 <= i < |s.subtasks| ==> s.subtasks[i].tool in AVAILABLE_TOOLS)
    && (forall p: nat, i: nat, x, n: nat :: Dispatched(p, i, x, n) in s.log ==> x.tool in AVAILABLE_TOOLS)
  }

  lemma AttemptDispatchesFirst(v: Variant, s: State, t: Attempt)
    requires s.index < |s.subtasks|
    ensures
      var notes := NotesOf(v, s, t);
      && (forall k :: 0 <= k < |notes| ==> (notes[k].Dispatched? <==> k == 0 && t.tries > 0))
      && (t.tries > 0 ==> |notes| > 0 && notes[0] == Dispatched(s.plans, s.index, s.subtasks[s.index], t.tries))
  {
  }

  lemma ExecutorKeepsKnownTools(v: Variant, s: State, a: Answer)
    requires KnownTools(s) && s.node == Executor
    ensures KnownTools(Step(v, s, a))
  {
    if s.index < |s.subtasks| {
      AttemptDispatchesFirst(v, s, a.attempt);
      var notes := if s.simulation == Some(true) then NotesOf(v, s, a.attempt) else [];
      assert Step(v, s, a).log == s.log + [Pass(s.retryCount, s.index)] + notes;
    }
  }

  lemma StepKeepsKnownTools(v: Variant, s: State, a: Answer)
    requires KnownTools(s)
    ensures KnownTools(Step(v, s, a))
  {
    if s.node == Executor {
      ExecutorKeepsKnownTools(v, s, a);
    } else if s.node != Simulator {
      LogIsExtended(v, s, a);
    }
  }

  lemma {:induction false} StepsKeepKnownTools(v: Variant, s: State, answers: nat -> Answer, k: nat, n: nat)
    requires KnownTools(s)
    ensures KnownTools(Steps(v, s, answers, k, n))
    decreases n
  {
    if n > 0 {
      StepKeepsKnownTools(v, s, answers(k));
      StepsKeepKnownTools(v, Step(v, s, answers(k)), answers, k + 1, n - 1);
    }
  }

  /** No tool outside the catalog is ever dispatched, whatever the language model plans. */
  lemma OnlyKnownToolsAreDispatched(v: Variant, maxRetries: int, answers: nat -> Answer)
    ensures
      forall p: nat, i: nat, x, n: nat ::
        Dispatched(p, i, x, n) in RunToEnd(v, Init(maxRetries), answers, 0).log ==>
          x.tool in {"swap_tool", "bridge_tool", "defi_tool", "nft_tool", "wallet_tool", "price_feed_tool"}
  {
    RunTakesSteps(v, Init(maxRetries), answers, 0);
    StepsKeepKnownTools(v, Init(maxRetries), answers, 0, Length(v, Init(maxRetries), answers, 0));
  }

  lemma ContainedCharacters(s: string, pattern: string, at: nat)
    requires at < |pattern| && Contains(s, pattern)
    ensures pattern[at] in s
  {
    var i :| 0 <= i <= |s| && pattern <= s[i..];
    assert pattern[at] == s[i..][at] == s[i + at];
  }

  lemma TransientErrorsHaveOneOf(v: Variant, error: string)
    requires IsTransient(v, error)
    ensures 'a' in error || 'm' in error || 'w' in error
  {
    if Contains(error, REVERTED) {
      ContainedCharacters(error, REVERTED, 2);
    } else if Contains(error, "timeout") {
      ContainedCharacters(error, "timeout", 2);
    } else if Contains(error, "nonce too low") {
      ContainedCharacters(error, "nonce too low", 12);
    } else {
      ContainedCharacters(error, "replacement transaction underpriced", 4);
    }
  }

  lemma PolicyBlockedIsNotTransient(v: Variant, error: string)
    requires error == POLICY_BLOCKED
    ensures !IsTransient(v, error)
  {
    if IsTransient(v, error) {
      TransientErrorsHaveOneOf(v, error);
      PolicyBlockedLetters(error);
    }
  }

  lemma PolicyBlockedLetters(error: string)
    requires error == POLICY_BLOCKED
    ensures 'a' !in error && 'm' !in error && 'w' !in error
  {
    NotInPolicyBlocked(error, 'a');
    NotInPolicyBlocked(error, 'm');
    NotInPolicyBlocked(error, 'w');
  }

  lemma NotInPolicyBlocked(error: string, c: char)
    requires error == POLICY_BLOCKED && (c == 'a' || c == 'm' || c == 'w')
    ensures c !in error
  {
  }

  /** A policy rejection ends the run in both variants, with nothing dispatched and nothing retried: as
      failed, or aborted if the service's critic cannot write its log. */
  lemma PolicyRejectionEndsTheRun(v: Variant, s: State, a0: Answer, a1: Answer, a2: Answer)
    requires s.node == Simulator && s.index < |s.subtasks|
    requires !a0.simulatorRaises && !a0.policyPasses
    ensures
      var s' := Step(v, Step(v, Step(v, s, a0), a1), a2);
      && s'.log == s.log + [Checked(s.plans, s.index, false), Pass(s.retryCount, s.index)]
      && s'.retryCount == s.retryCount && s'.plans == s.plans
      && (if v == Service && a2.criticLogRaises then s'.node == Aborted
          else s'.node == End && s'.status == Failed)
  {
    PolicyBlockedIsNotTransient(v, POLICY_BLOCKED);
    var s1 := Step(v, s, a0);
    var s2 := Step(v, s1, a1);
    assert s2.node == Critic && s2.execution == Some(Execution(false, POLICY_BLOCKED));
  }

  // ---- Whole runs -------------------------------------------------------------------------------

  /** The simulator of a contracts/ pass raises over an earlier passing verdict, and the executor dispatches. */
  predicate StalePass(v: Variant, s: State, a0: Answer, a1: Answer) {
    && v == Wrapped && s.node == Simulator && s.index < |s.subtasks|
    && a0.simulatorRaises && s.simulation == Some(true) && a1.attempt.tries > 0
  }

  /** The pass that begins `m` steps after `s` is one. */
  predicate StaleAt(v: Variant, s: State, answers: nat -> Answer, k: nat, m: nat) {
    StalePass(v, Steps(v, s, answers, k, m), answers(k + m), answers(k + m + 1))
  }

  ghost predicate StaleAhead(v: Variant, s: State, answers: nat -> Answer, k: nat) {
    exists m: nat :: StaleAt(v, s, answers, k, m)
  }

  lemma StaleLater(v: Variant, s: State, answers: nat -> Answer, k: nat, m: nat)
    ensures StaleAt(v, s, answers, k, m + 1) == StaleAt(v, Step(v, s, answers(k)), answers, k + 1, m)
  {
  }

  lemma StaleAheadOfStep(v: Variant, s: State, answers: nat -> Answer, k: nat)
    ensures StaleAhead(v, s, answers, k) <==>
            StaleAt(v, s, answers, k, 0) || StaleAhead(v, Step(v, s, answers(k)), answers, k + 1)
  {
    var s' := Step(v, s, answers(k));
    if StaleAhead(v, s, answers, k) {
      var m: nat :| StaleAt(v, s, answers, k, m);
      if m > 0 {
        StaleLater(v, s, answers, k, m - 1);
      }
    }
    if StaleAhead(v, s', answers, k + 1) {
      var m: nat :| StaleAt(v, s', answers, k + 1, m);
      StaleLater(v, s, answers, k, m);
    }
  }

  lemma {:induction false} EndedIsNotStale(v: Variant, s: State, answers: nat -> Answer, k: nat, m: nat)
    requires Ended(s)
    ensures Steps(v, s, answers, k, m) == s && !StaleAt(v, s, answers, k, m)
    decreases m
  {
    if m > 0 {
      EndedIsNotStale(v, s, answers, k + 1, m - 1);
    }
  }

  /** No check waits for its executor pass. */
  predicate NoCheckPending(s: State) {
    s.log != [] ==> !s.log[|s.log| - 1].Checked?
  }

  lemma ExtendGated(log: seq<Note>, retries: nat, index: nat, notes: seq<Note>)
    requires forall k :: 0 < k < |notes| ==> !notes[k].Dispatched?
    ensures
      Gated(log + [Pass(retries, index)] + notes) <==>
      && Gated(log)
      && (notes != [] && notes[0].Dispatched? ==>
            log != [] && log[|log| - 1] == Checked(notes[0].plan, notes[0].index, true))
  {
    var longer := log + [Pass(retries, index)] + notes;
    assert forall k :: 0 <= k < |log| ==> longer[k] == log[k];
    assert forall k :: 0 <= k < |notes| ==> longer[|log| + 1 + k] == notes[k];
  }

  lemma ExecutorGated(v: Variant, s: State, a: Answer)
    requires s.node == Executor && s.index < |s.subtasks|
    ensures
      Gated(Step(v, s, a).log) <==>
      && Gated(s.log)
      && (s.simulation == Some(true) && a.attempt.tries > 0 ==>
            s.log != [] && s.log[|s.log| - 1] == Checked(s.plans, s.index, true))
    ensures NoCheckPending(Step(v, s, a))
  {
    AttemptDispatchesFirst(v, s, a.attempt);
    NotesOfAttempt(v, s, a.attempt);
    var notes := if s.simulation == Some(true) then NotesOf(v, s, a.attempt) else [];
    assert Step(v, s, a).log == s.log + [Pass(s.retryCount, s.index)] + notes;
    ExtendGated(s.log, s.retryCount, s.index, notes);
  }

  lemma CheckKeepsGated(log: seq<Note>, check: Note)
    requires check.Checked?
    ensures Gated(log + [check]) <==> Gated(log)
  {
    assert forall k :: 0 <= k < |log| ==> (log + [check])[k] == log[k];
  }

  /** A pass dispatches without having been checked exactly when contracts/ runs it, its simulator raised
      before it recorded a verdict, an earlier subtask's passing verdict is still there, and the executor
      gets as far as calling dispatch.  Such a pass exists: see `StaleVerdictDispatches`. */
  lemma PassGatedExactlyWhen(v: Variant, s: State, a0: Answer, a1: Answer)
    requires s.node == Simulator && NoCheckPending(s)
    ensures
      var s2 := Step(v, Step(v, s, a0), a1);
      s2.node != Executor && NoCheckPending(s2) && (Gated(s2.log) <==> Gated(s.log) && !StalePass(v, s, a0, a1))
  {
    var s1 := Step(v, s, a0);
    if s1.node == Executor && s1.index < |s1.subtasks| {
      if !a0.simulatorRaises {
        CheckKeepsGated(s.log, Checked(s.plans, s.index, a0.policyPasses));
      }
      ExecutorGated(v, s1, a1);
    }
  }

  /** A run goes on after its next step. */
  lemma RunGoesOn(v: Variant, s: State, answers: nat -> Answer, k: nat)
    requires !Ended(s)
    ensures Length(v, s, answers, k) == 1 + Length(v, Step(v, s, answers(k)), answers, k + 1)
    ensures RunToEnd(v, s, answers, k) == RunToEnd(v, Step(v, s, answers(k)), answers, k + 1)
  {
  }

  /** It goes on after its next pass. */
  lemma RunGoesOnAfterPass(v: Variant, s: State, answers: nat -> Answer, k: nat)
    requires s.node == Simulator && Step(v, s, answers(k)).node == Executor
    ensures
      var s2 := Step(v, Step(v, s, answers(k)), answers(k + 1));
      && Length(v, s, answers, k) == 2 + Length(v, s2, answers, k + 2)
      && RunToEnd(v, s, answers, k) == RunToEnd(v, s2, answers, k + 2)
      && (StaleAhead(v, s, answers, k) <==>
          StalePass(v, s, answers(k), answers(k + 1)) || StaleAhead(v, s2, answers, k + 2))
  {
    RunGoesOn(v, s, answers, k);
    RunGoesOn(v, Step(v, s, answers(k)), answers, k + 1);
    StaleAheadOfStep(v, s, answers, k);
    StaleAheadOfStep(v, Step(v, s, answers(k)), answers, k + 1);
  }

  lemma {:induction false} GatedFrom(v: Variant, s: State, answers: nat -> Answer, k: nat)
    requires s.node != Executor && NoCheckPending(s)
    ensures Gated(RunToEnd(v, s, answers, k).log) <==> Gated(s.log) && !StaleAhead(v, s, answers, k)
    decreases Length(v, s, answers, k)
  {
    if Ended(s) {
      forall m: nat ensures !StaleAt(v, s, answers, k, m) {
        EndedIsNotStale(v, s, answers, k, m);
      }
    } else if s.node == Simulator && Step(v, s, answers(k)).node == Executor {
      PassGatedExactlyWhen(v, s, answers(k), answers(k + 1));
      RunGoesOnAfterPass(v, s, answers, k);
      GatedFrom(v, Step(v, Step(v, s, answers(k)), answers(k + 1)), answers, k + 2);
    } else {
      RunGoesOn(v, s, answers, k);
      StaleAheadOfStep(v, s, answers, k);
      OtherNodesDoNotDispatch(v, s, answers(k));
      GatedFrom(v, Step(v, s, answers(k)), answers, k + 1);
    }
  }

  lemma OtherNodesDoNotDispatch(v: Variant, s: State, a: Answer)
    requires s.node != Executor && !(s.node == Simulator && Step(v, s, a).node == Executor)
    ensures Step(v, s, a).node != Executor && Step(v, s, a).log == s.log
  {
    if s.node == Simulator {
      RaisingSimulatorLogsNothing(v, s, a);
    } else {
      LogIsExtended(v, s, a);
      OnlySimulatorLeadsToExecutor(v, s, a);
    }
  }

  lemma RaisingSimulatorLogsNothing(v: Variant, s: State, a: Answer)
    requires s.node == Simulator && Step(v, s, a).node != Executor
    ensures Step(v, s, a).log == s.log
  {
  }

  lemma OnlySimulatorLeadsToExecutor(v: Variant, s: State, a: Answer)
    requires s.node != Simulator && s.node != Executor
    ensures Step(v, s, a).node != Executor
  {
  }

  /** In a whole run of either graph, every dispatch is preceded in its own pass by a check of the same plan
      and index that passed, exactly when in no pass the simulator raised over a stale passing verdict and
      the executor dispatched. */
  lemma GatedExactlyWhen(v: Variant, maxRetries: int, answers: nat -> Answer)
    ensures Gated(RunToEnd(v, Init(maxRetries), answers, 0).log) <==> !StaleAhead(v, Init(maxRetries), answers, 0)
  {
    GatedFrom(v, Init(maxRetries), answers, 0);
  }

  /** In the service that is every run. */
  lemma EveryDispatchIsGated(maxRetries: int, answers: nat -> Answer)
    ensures Gated(RunToEnd(Service, Init(maxRetries), answers, 0).log)
  {
    GatedExactlyWhen(Service, maxRetries, answers);
  }

  // ---- A run that dispatches on a stale verdict -------------------------------------------------

  const PLAN_OF_TWO: seq<SubTask> := [SubTask("swap_tool", "buy", 50), SubTask("swap_tool", "sell", 50)]

  function GoodAnswer(simulatorRaises: bool): Answer {
    Answer(Some(PLAN_OF_TWO), true, false, simulatorRaises, true,
           Attempt(1, None, None, true, 1, None, None), false)
  }

  /** A run of the contracts/ graph in which everything goes well, after `n` steps. */
  function Good(n: nat): State {
    if n == 0 then Init(2) else Step(Wrapped, Good(n - 1), GoodAnswer(false))
  }

  lemma FirstSubtaskChecked()
    ensures
      var s := Good(3);
      && s.node == Executor && s.index == 0 && s.plans == 1 && s.simulation == Some(true)
      && s.subtasks == PLAN_OF_TWO && s.log == [Checked(1, 0, true)]
      && s.retryCount == 0 && s.maxRetries == 2
  {
    var good := GoodAnswer(false);
    assert Accepts(Wrapped, PLAN_OF_TWO) by {
      assert "buy"[0] != ' ' && "sell"[0] != ' ';
    }
    var s1 := Good(1);
    assert s1.node == Memory && s1.subtasks == PLAN_OF_TWO && s1.log == [];
    var s2 := Good(2);
    assert s2.node == Simulator && s2.subtasks == PLAN_OF_TWO && s2.log == [];
  }

  lemma PassConfirms(s: State)
    requires s.node == Executor && s.index == 0 && s.plans == 1 && s.simulation == Some(true)
    requires s.subtasks == PLAN_OF_TWO && s.log == [Checked(1, 0, true)]
    ensures
      var s' := Step(Wrapped, Step(Wrapped, s, GoodAnswer(false)), GoodAnswer(false));
      && s'.node == Simulator && s'.index == 1 && s'.plans == 1 && s'.simulation == Some(true)
      && s'.subtasks == PLAN_OF_TWO
      && forall passed :: Checked(1, 1, passed) !in s'.log
  {
    var good := GoodAnswer(false);
    NotesOfAttempt(Wrapped, s, good.attempt);
    assert Step(Wrapped, s, good).log == s.log + [Pass(s.retryCount, 0)] + NotesOf(Wrapped, s, good.attempt);
  }

  /** In contracts/, after a confirmed first subtask, a second one whose call cannot be resolved is still
      dispatched, although the policy engine was never asked about it. */
  lemma StaleVerdictDispatches()
    ensures
      var s := Good(5);
      var s' := Step(Wrapped, Step(Wrapped, s, GoodAnswer(true)), GoodAnswer(false));
      && Possible(Wrapped, GoodAnswer(true)) && Possible(Wrapped, GoodAnswer(false))
      && Dispatched(1, 1, PLAN_OF_TWO[1], 1) in s'.log
      && forall passed :: Checked(1, 1, passed) !in s'.log
  {
    FirstSubtaskChecked();
    PassConfirms(Good(3));
    assert Good(5) == Step(Wrapped, Good(4), GoodAnswer(false));
    StaleVerdictIsUsed(Good(5));
  }

  lemma StaleVerdictIsUsed(s: State)
    requires s.node == Simulator && s.index == 1 && s.plans == 1 && s.simulation == Some(true)
    requires s.subtasks == PLAN_OF_TWO && forall passed :: Checked(1, 1, passed) !in s.log
    ensures
      var s' := Step(Wrapped, Step(Wrapped, s, GoodAnswer(true)), GoodAnswer(false));
      Dispatched(1, 1, PLAN_OF_TWO[1], 1) in s'.log && forall passed :: Checked(1, 1, passed) !in s'.log
  {
    var good := GoodAnswer(false);
    var s1 := Step(Wrapped, s, GoodAnswer(true));
    var notes := NotesOf(Wrapped, s1, good.attempt);
    var s2 := Step(Wrapped, s1, good);
    AttemptDispatchesFirst(Wrapped, s1, good.attempt);
    NotesOfAttempt(Wrapped, s1, good.attempt);
    assert s2.log == s.log + [Pass(s.retryCount, 1)] + notes;
    assert s2.log[|s.log| + 1] == notes[0] == Dispatched(1, 1, PLAN_OF_TWO[1], 1);
  }
}
