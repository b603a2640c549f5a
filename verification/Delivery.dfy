/** No event is lost, duplicates are not handled twice, and retries are bounded: properties of every
    run of the broker model, under any interleaving and any failures. */
module Delivery {
  import opened Common
  import opened Broker

  // ---- No event is lost -------------------------------------------------------------------------

  /** A newer copy of the same event was stored. */
  ghost predicate Later(s: State, i: nat) {
    i < |s.slots| && exists k :: i < k < |s.slots| && s.slots[k].copy.message == s.slots[i].copy.message
  }

  /** A handler returned for some copy of `m`. */
  ghost predicate HandlerDone(s: State, m: Message) {
    exists h :: h in s.handled && h < |s.slots| && s.slots[h].copy.message == m
  }

  /** What makes it safe to remove copy `i` from the broker. */
  ghost predicate Replaceable(s: State, i: nat) {
    i < |s.slots|
    && (Later(s, i) || HandlerDone(s, s.slots[i].copy.message) || MarkedProcessed(s, s.slots[i].copy.message))
  }

  /** `m` still has a copy in one of the queues, or held by a delivery. */
  ghost predicate Present(s: State, m: Message) {
    exists i: nat :: i < |s.slots| && s.slots[i].copy.message == m && s.slots[i].place != Gone
  }

  ghost predicate HandlerDoneForId(s: State, id: string) {
    exists h :: h in s.handled && h < |s.slots| && s.slots[h].copy.message.id == Some(id)
  }

  ghost predicate WellFormed(s: State) {
    && (forall t :: 0 <= t < |s.tasks| ==> s.tasks[t].slot < |s.slots|)
    && (forall h :: h in s.handled ==> h < |s.slots|)
  }

  ghost predicate TaskSafe(s: State, t: nat)
    requires t < |s.tasks| && s.tasks[t].slot < |s.slots|
  {
    match s.tasks[t].pc
    case PoisonAck => Later(s, s.tasks[t].slot)
    case FailureAck => Later(s, s.tasks[t].slot)
    case Marking => s.tasks[t].slot in s.handled
    case FinalAck => s.tasks[t].slot in s.handled
    case DuplicateAck => MarkedProcessed(s, s.Held(t).copy.message)
    case _ => true
  }

  ghost predicate Inv(s: State) {
    && WellFormed(s)
    && (forall i :: 0 <= i < |s.slots| && s.slots[i].place == Gone ==> Replaceable(s, i))
    && (forall t :: 0 <= t < |s.tasks| ==> TaskSafe(s, t))
    && (forall id :: id in s.processed ==> HandlerDoneForId(s, id))
  }

  /** Copies are only appended, and the handler and database records only grow. */
  ghost predicate Grows(s: State, s': State) {
    && |s.slots| <= |s'.slots|
    && (forall i :: 0 <= i < |s.slots| ==> s'.slots[i].copy == s.slots[i].copy)
    && s.handled <= s'.handled && s.processed <= s'.processed
  }

  lemma GrowingKeeps(s: State, s': State)
    requires Grows(s, s')
    ensures forall i: nat :: Later(s, i) ==> Later(s', i)
    ensures forall m: Message :: HandlerDone(s, m) ==> HandlerDone(s', m)
    ensures forall id :: HandlerDoneForId(s, id) ==> HandlerDoneForId(s', id)
    ensures forall i: nat :: Replaceable(s, i) ==> Replaceable(s', i)
  {
    forall i: nat | Later(s, i) ensures Later(s', i) {
      var k :| i < k < |s.slots| && s.slots[k].copy.message == s.slots[i].copy.message;
      assert s'.slots[k].copy.message == s'.slots[i].copy.message;
    }
    forall m: Message | HandlerDone(s, m) ensures HandlerDone(s', m) {
      var h :| h in s.handled && h < |s.slots| && s.slots[h].copy.message == m;
      assert s'.slots[h].copy.message == m;
    }
    forall id | HandlerDoneForId(s, id) ensures HandlerDoneForId(s', id) {
      var h :| h in s.handled && h < |s.slots| && s.slots[h].copy.message.id == Some(id);
      assert s'.slots[h].copy.message.id == Some(id);
    }
  }

  lemma AdvanceGrows(cfg: Config, s: State, tag: nat, op: Op)
    requires WellFormed(s) && Enabled(cfg, s, Advance(tag, op))
    ensures Grows(s, Step(cfg, s, Advance(tag, op))) && WellFormed(Step(cfg, s, Advance(tag, op)))
  {
  }

  lemma StepGrows(cfg: Config, s: State, e: Event)
    requires WellFormed(s)
    ensures Grows(s, Step(cfg, s, e))
    ensures WellFormed(Step(cfg, s, e))
  {
    if e.Advance? && Enabled(cfg, s, e) {
      AdvanceGrows(cfg, s, e.tag, e.op);
    }
  }

  lemma StepKeepsTaskSafe(cfg: Config, s: State, e: Event, t: nat)
    requires Inv(s) && t < |Step(cfg, s, e).tasks|
    ensures Step(cfg, s, e).Running(t) && TaskSafe(Step(cfg, s, e), t)
  {
    var s' := Step(cfg, s, e);
    StepGrows(cfg, s, e);
    GrowingKeeps(s, s');
    if t < |s.tasks| {
      assert TaskSafe(s, t);
      if s'.tasks[t] != s.tasks[t] {
        AdvanceKeepsTaskSafe(cfg, s, t, e.op);
      }
    }
  }

  lemma AdvanceKeepsTaskSafe(cfg: Config, s: State, t: nat, op: Op)
    requires Inv(s) && Enabled(cfg, s, Advance(t, op))
    ensures TaskSafe(Step(cfg, s, Advance(t, op)), t)
  {
    var s' := Step(cfg, s, Advance(t, op));
    assert TaskSafe(s, t);
    if |s.slots| < |s'.slots| {
      assert s'.slots[|s.slots|].copy.message == s'.Held(t).copy.message;
    }
  }

  lemma AckedIsReplaceable(cfg: Config, s: State, tag: nat, op: Op)
    requires Inv(s) && Enabled(cfg, s, Advance(tag, op)) && s.Held(tag).place != Gone
    requires Step(cfg, s, Advance(tag, op)).Held(tag).place == Gone
    ensures Replaceable(s, s.tasks[tag].slot)
  {
    assert TaskSafe(s, tag);
  }

  lemma StepKeepsGoneReplaceable(cfg: Config, s: State, e: Event, i: nat)
    requires Inv(s) && i < |Step(cfg, s, e).slots| && Step(cfg, s, e).slots[i].place == Gone
    ensures Replaceable(Step(cfg, s, e), i)
  {
    StepGrows(cfg, s, e);
    GrowingKeeps(s, Step(cfg, s, e));
    if i < |s.slots| && s.slots[i].place == Gone {
      assert Replaceable(s, i);
    } else {
      AckedIsReplaceable(cfg, s, e.tag, e.op);
    }
  }

  lemma StepKeepsProcessedHandled(cfg: Config, s: State, e: Event, id: string)
    requires Inv(s) && id in Step(cfg, s, e).processed
    ensures HandlerDoneForId(Step(cfg, s, e), id)
  {
    StepGrows(cfg, s, e);
    GrowingKeeps(s, Step(cfg, s, e));
    if id !in s.processed {
      assert TaskSafe(s, e.tag);
      assert Step(cfg, s, e).slots[s.tasks[e.tag].slot].copy.message.id == Some(id);
    }
  }

  lemma StepKeepsInv(cfg: Config, s: State, e: Event)
    requires Inv(s)
    ensures Inv(Step(cfg, s, e))
  {
    var s' := Step(cfg, s, e);
    StepGrows(cfg, s, e);
    forall t: nat | t < |s'.tasks| ensures TaskSafe(s', t) {
      StepKeepsTaskSafe(cfg, s, e, t);
    }
    forall i: nat | i < |s'.slots| && s'.slots[i].place == Gone ensures Replaceable(s', i) {
      StepKeepsGoneReplaceable(cfg, s, e, i);
    }
    forall id | id in s'.processed ensures HandlerDoneForId(s', id) {
      StepKeepsProcessedHandled(cfg, s, e, id);
    }
  }

  lemma {:induction false} RunKeepsInv(cfg: Config, s: State, trace: seq<Event>)
    requires Inv(s)
    ensures Inv(Run(cfg, s, trace))
    decreases |trace|
  {
    if trace != [] {
      StepKeepsInv(cfg, s, trace[0]);
      RunKeepsInv(cfg, Step(cfg, s, trace[0]), trace[1..]);
    }
  }

  /** Follow the replacements of copy `i`: they end at a copy that is still there, or at a handled event. */
  lemma {:induction false} FollowReplacements(s: State, i: nat)
    requires Inv(s) && i < |s.slots|
    ensures
      var c := s.slots[i].copy;
      Present(s, c.message) || HandlerDone(s, c.message) || MarkedProcessed(s, c.message)
    decreases |s.slots| - i
  {
    if s.slots[i].place == Gone {
      assert Replaceable(s, i);
      if Later(s, i) {
        var k :| i < k < |s.slots| && s.slots[k].copy.message == s.slots[i].copy.message;
        FollowReplacements(s, k);
      }
    }
  }

  /** In every reachable state, each event that was ever stored still has a copy in the main, retry or
      dead-letter queue or held by a delivery, or its handler returned for one of its copies, or its id
      was already processed, in which case a handler returned for a message with that id. */
  lemma {:induction false} NoEventIsLost(cfg: Config, trace: seq<Event>, i: nat)
    requires i < |Run(cfg, INIT, trace).slots|
    ensures
      var s := Run(cfg, INIT, trace);
      var event := s.slots[i].copy;
      || Present(s, event.message)
      || HandlerDone(s, event.message)
      || (HasId(event.message) && event.message.id.value in s.processed && HandlerDoneForId(s, event.message.id.value))
  {
    RunKeepsInv(cfg, INIT, trace);
    FollowReplacements(Run(cfg, INIT, trace), i);
  }

  /** When no other message carries the id, as `publish` makes sure with a fresh uuid, a handler returned
      for this very message unless a copy of it is still there. */
  lemma NoUniqueEventIsLost(cfg: Config, trace: seq<Event>, i: nat)
    requires i < |Run(cfg, INIT, trace).slots|
    requires
      var s := Run(cfg, INIT, trace);
      forall j: nat :: j < |s.slots| && s.slots[j].copy.message.id == s.slots[i].copy.message.id ==>
        s.slots[j].copy.message == s.slots[i].copy.message
    ensures
      var s := Run(cfg, INIT, trace);
      Present(s, s.slots[i].copy.message) || HandlerDone(s, s.slots[i].copy.message)
  {
    NoEventIsLost(cfg, trace, i);
  }

  // ---- Duplicates -------------------------------------------------------------------------------

  predicate IsPastCheck(s: State, t: nat, id: string)
    requires t < |s.tasks|
  {
    s.tasks[t].pc == Decoding && s.tasks[t].slot < |s.slots| && s.Held(t).copy.message.id == Some(id)
  }

  /** How many of the first `n` deliveries have passed their is_processed check for `id` and have not
      yet started the handler. */
  function PastCheck(s: State, id: string, n: nat): nat
    requires n <= |s.tasks|
  {
    if n == 0 then 0 else PastCheck(s, id, n - 1) + (if IsPastCheck(s, n - 1, id) then 1 else 0)
  }

  lemma {:induction false} PastCheckChanges(s: State, s': State, id: string, tag: nat, n: nat)
    requires n <= |s.tasks| && n <= |s'.tasks|
    requires forall t: nat :: t < n && t != tag ==> IsPastCheck(s, t, id) == IsPastCheck(s', t, id)
    ensures
      PastCheck(s', id, n) - PastCheck(s, id, n)
      == if tag >= n || IsPastCheck(s, tag, id) == IsPastCheck(s', tag, id) then 0
         else if IsPastCheck(s', tag, id) then 1 else -1
  {
    if n > 0 {
      PastCheckChanges(s, s', id, tag, n - 1);
    }
  }

  lemma AdvanceStartsOnlyPastCheck(cfg: Config, s: State, tag: nat, op: Op, id: string)
    requires WellFormed(s) && cfg.checks && id != "" && id in s.processed
    requires Enabled(cfg, s, Advance(tag, op))
    ensures
      var s' := Step(cfg, s, Advance(tag, op));
      s'.starts[id] + PastCheck(s', id, |s'.tasks|) <= s.starts[id] + PastCheck(s, id, |s.tasks|)
  {
    PastCheckChanges(s, Step(cfg, s, Advance(tag, op)), id, tag, |s.tasks|);
  }

  lemma StepStartsOnlyPastCheck(cfg: Config, s: State, e: Event, id: string)
    requires WellFormed(s) && cfg.checks && id != "" && id in s.processed
    ensures
      var s' := Step(cfg, s, e);
      s'.starts[id] + PastCheck(s', id, |s'.tasks|) <= s.starts[id] + PastCheck(s, id, |s.tasks|)
  {
    if e.Advance? && Enabled(cfg, s, e) {
      AdvanceStartsOnlyPastCheck(cfg, s, e.tag, e.op, id);
    } else {
      PastCheckChanges(s, Step(cfg, s, e), id, |s.tasks|, |s.tasks|);
    }
  }

  /** Once `id` is marked processed, however the run goes on, the handler is started for `id` at most
      once for each delivery that had already passed its check. */
  lemma {:induction false} HandledOnlyByDeliveriesPastCheck(cfg: Config, s: State, trace: seq<Event>, id: string)
    requires WellFormed(s) && cfg.checks && id != "" && id in s.processed
    ensures Run(cfg, s, trace).starts[id] <= s.starts[id] + PastCheck(s, id, |s.tasks|)
    decreases |trace|
  {
    if trace != [] {
      StepGrows(cfg, s, trace[0]);
      StepStartsOnlyPastCheck(cfg, s, trace[0], id);
      HandledOnlyByDeliveriesPastCheck(cfg, Step(cfg, s, trace[0]), trace[1..], id);
    }
  }

  // ---- Retries are bounded ----------------------------------------------------------------------

  /** The most retries a copy outside the dead-letter queue can show: MAX_RETRIES, or 0 when that is negative. */
  function Cap(cfg: Config): nat {
    Max(0, cfg.maxRetries)
  }

  ghost predicate SlotBounded(cfg: Config, s: State, i: nat)
    requires i < |s.slots|
  {
    var c := s.slots[i].copy;
    && 0 <= c.retries <= s.failures[c.message]
    && (s.slots[i].place != Dlq ==> c.reason == NoReason)
    && (s.slots[i].place == Dlq ==> c.reason != NoReason)
    && (if c.reason == MaxRetriesExceeded then c.retries == Cap(cfg) + 1 else c.retries <= Cap(cfg))
  }

  ghost predicate TaskBounded(s: State, t: nat)
    requires s.Running(t)
  {
    var c := s.Held(t).copy;
    s.Held(t).place != Dlq && (s.tasks[t].pc == FailurePublish ==> c.retries < s.failures[c.message])
  }

  ghost predicate RetriesBounded(cfg: Config, s: State) {
    && WellFormed(s)
    && (forall i: nat :: i < |s.slots| ==> SlotBounded(cfg, s, i))
    && (forall t: nat :: t < |s.tasks| ==> TaskBounded(s, t))
  }

  lemma StepKeepsSlotBounded(cfg: Config, s: State, e: Event, i: nat)
    requires RetriesBounded(cfg, s) && i < |Step(cfg, s, e).slots|
    ensures SlotBounded(cfg, Step(cfg, s, e), i)
  {
    if e.Advance? && Enabled(cfg, s, e) {
      AdvanceKeepsSlotBounded(cfg, s, e.tag, e.op, i);
    } else if i < |s.slots| {
      assert SlotBounded(cfg, s, i);
    }
  }

  lemma AdvanceKeepsSlotBounded(cfg: Config, s: State, tag: nat, op: Op, i: nat)
    requires RetriesBounded(cfg, s) && Enabled(cfg, s, Advance(tag, op))
    requires i < |Step(cfg, s, Advance(tag, op)).slots|
    ensures SlotBounded(cfg, Step(cfg, s, Advance(tag, op)), i)
  {
    var held := s.Held(tag);
    assert TaskBounded(s, tag);
    var effect := EffectOf(cfg, tag, held, s.tasks[tag].pc, MarkedProcessed(s, held.copy.message), op);
    ApplyKeepsSlotBounded(cfg, s, tag, op, effect, i);
  }

  lemma ApplyKeepsSlotBounded(cfg: Config, s: State, tag: nat, op: Op, effect: Effect, i: nat)
    requires RetriesBounded(cfg, s) && s.Running(tag) && i < |Apply(s, tag, op, effect).slots|
    requires effect.place != Dlq && |effect.published| <= 1
    requires effect.published != [] ==>
               var c := s.Held(tag).copy;
               effect.published[0] == Slot(c.(reason := PoisonMessage), Dlq)
               || (s.tasks[tag].pc == FailurePublish && effect.published[0] == AfterFailure(cfg, c))
    ensures SlotBounded(cfg, Apply(s, tag, op, effect), i)
  {
    assert TaskBounded(s, tag) && SlotBounded(cfg, s, s.tasks[tag].slot);
    if i < |s.slots| {
      assert SlotBounded(cfg, s, i);
    }
  }

  lemma AdvanceKeepsTaskBounded(cfg: Config, s: State, tag: nat, op: Op, t: nat)
    requires RetriesBounded(cfg, s) && Enabled(cfg, s, Advance(tag, op)) && t < |s.tasks|
    ensures Step(cfg, s, Advance(tag, op)).Running(t) && TaskBounded(Step(cfg, s, Advance(tag, op)), t)
  {
    assert TaskBounded(s, t) && SlotBounded(cfg, s, s.tasks[t].slot);
  }

  lemma StepKeepsTaskBounded(cfg: Config, s: State, e: Event, t: nat)
    requires RetriesBounded(cfg, s) && t < |Step(cfg, s, e).tasks|
    ensures Step(cfg, s, e).Running(t) && TaskBounded(Step(cfg, s, e), t)
  {
    if e.Advance? && Enabled(cfg, s, e) {
      AdvanceKeepsTaskBounded(cfg, s, e.tag, e.op, t);
    } else if t < |s.tasks| {
      assert TaskBounded(s, t);
    } else {
      assert SlotBounded(cfg, s, e.slot);
    }
  }

  lemma StepKeepsRetriesBounded(cfg: Config, s: State, e: Event)
    requires RetriesBounded(cfg, s)
    ensures RetriesBounded(cfg, Step(cfg, s, e))
  {
    StepGrows(cfg, s, e);
    forall i: nat | i < |Step(cfg, s, e).slots|
      ensures SlotBounded(cfg, Step(cfg, s, e), i)
    {
      StepKeepsSlotBounded(cfg, s, e, i);
    }
    forall t: nat | t < |Step(cfg, s, e).tasks|
      ensures TaskBounded(Step(cfg, s, e), t)
    {
      StepKeepsTaskBounded(cfg, s, e, t);
    }
  }

  lemma {:induction false} RunKeepsRetriesBounded(cfg: Config, s: State, trace: seq<Event>)
    requires RetriesBounded(cfg, s)
    ensures RetriesBounded(cfg, Run(cfg, s, trace))
    decreases |trace|
  {
    if trace != [] {
      StepKeepsRetriesBounded(cfg, s, trace[0]);
      RunKeepsRetriesBounded(cfg, Step(cfg, s, trace[0]), trace[1..]);
    }
  }

  /** In every reachable state no copy outside the dead-letter queue shows more than MAX_RETRIES retries,
      a copy dead-lettered for exhausted retries shows exactly one more, and in both cases at least as
      many attempts at its message have failed. */
  lemma RetriesAreBounded(cfg: Config, trace: seq<Event>, i: nat)
    requires i < |Run(cfg, INIT, trace).slots|
    ensures
      var s := Run(cfg, INIT, trace);
      var c := s.slots[i].copy;
      && (s.slots[i].place != Dlq ==> c.retries <= Cap(cfg))
      && (s.slots[i].place == Dlq ==> c.reason == PoisonMessage || c.retries == Cap(cfg) + 1)
      && 0 <= c.retries <= s.failures[c.message]
  {
    RunKeepsRetriesBounded(cfg, INIT, trace);
    assert SlotBounded(cfg, Run(cfg, INIT, trace), i);
  }

  // ---- Bodies -----------------------------------------------------------------------------------

  ghost predicate BodyFits(s: State, t: nat)
    requires s.Running(t)
  {
    var body := s.Held(t).copy.message.body;
    match s.tasks[t].pc
    case Handling => body == Json
    case Marking => body == Json
    case FinalAck => body == Json
    case PoisonPublish => body == MalformedJson
    case _ => true
  }

  ghost predicate BodiesFit(s: State) {
    && WellFormed(s)
    && (forall t: nat :: t < |s.tasks| ==> BodyFits(s, t))
    && (forall h: nat :: h in s.handled ==> s.slots[h].copy.message.body == Json)
    && (forall i: nat :: i < |s.slots| && s.slots[i].copy.reason == PoisonMessage ==>
          s.slots[i].copy.message.body == MalformedJson)
  }

  lemma AdvanceKeepsBodyFits(cfg: Config, s: State, tag: nat, op: Op)
    requires BodiesFit(s) && Enabled(cfg, s, Advance(tag, op))
    ensures BodyFits(Step(cfg, s, Advance(tag, op)), tag)
  {
    assert BodyFits(s, tag);
  }

  lemma AdvanceKeepsSlotBodies(cfg: Config, s: State, tag: nat, op: Op)
    requires BodiesFit(s) && Enabled(cfg, s, Advance(tag, op))
    ensures
      var s' := Step(cfg, s, Advance(tag, op));
      && (forall h: nat :: h in s'.handled ==> h < |s'.slots| && s'.slots[h].copy.message.body == Json)
      && (forall i: nat :: i < |s'.slots| && s'.slots[i].copy.reason == PoisonMessage ==>
            s'.slots[i].copy.message.body == MalformedJson)
  {
    assert BodyFits(s, tag);
  }

  lemma StepKeepsBodiesFit(cfg: Config, s: State, e: Event)
    requires BodiesFit(s)
    ensures BodiesFit(Step(cfg, s, e))
  {
    var s' := Step(cfg, s, e);
    StepGrows(cfg, s, e);
    forall t: nat | t < |s'.tasks| ensures BodyFits(s', t) {
      if t < |s.tasks| {
        assert BodyFits(s, t);
        if e.Advance? && e.tag == t && Enabled(cfg, s, e) {
          AdvanceKeepsBodyFits(cfg, s, t, e.op);
        }
      }
    }
    if e.Advance? && Enabled(cfg, s, e) {
      AdvanceKeepsSlotBodies(cfg, s, e.tag, e.op);
    }
  }

  lemma {:induction false} RunKeepsBodiesFit(cfg: Config, s: State, trace: seq<Event>)
    requires BodiesFit(s)
    ensures BodiesFit(Run(cfg, s, trace))
    decreases |trace|
  {
    if trace != [] {
      StepKeepsBodiesFit(cfg, s, trace[0]);
      RunKeepsBodiesFit(cfg, Step(cfg, s, trace[0]), trace[1..]);
    }
  }

  /** In every reachable state handlers completed only for bodies that are JSON, and only malformed JSON was
      dead-lettered as poison. */
  lemma OnlyJsonIsHandled(cfg: Config, trace: seq<Event>, i: nat)
    requires i < |Run(cfg, INIT, trace).slots|
    ensures
      var s := Run(cfg, INIT, trace);
      && (i in s.handled ==> s.slots[i].copy.message.body == Json)
      && (s.slots[i].copy.reason == PoisonMessage ==> s.slots[i].copy.message.body == MalformedJson)
  {
    RunKeepsBodiesFit(cfg, INIT, trace);
  }
}
