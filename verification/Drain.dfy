/** With a broker that does not fail, every message is delivered at most MAX_RETRIES + 1 times and the
    queues drain: handlers, checks and marks may still raise as often as they like. */
module Drain {
  import opened Common
  import opened Broker
  import opened Delivery

  predicate BrokerWorks(e: Event) {
    match e
    case Redeliver(_) => false
    case Advance(_, Ack(raised, applied)) => !raised && applied
    case Advance(_, Reject(raised, applied)) => !raised && applied
    case Advance(_, Republish(raised, stored)) => !raised && stored
    case _ => true
  }

  ghost predicate SlotHeld(s: State, i: nat)
    requires i < |s.slots|
  {
    s.slots[i].place.Unacked? ==>
      var t := s.slots[i].place.tag;
      t < |s.tasks| && s.tasks[t].slot == i && s.tasks[t].pc != Ended
  }

  ghost predicate TaskHolds(s: State, t: nat)
    requires s.Running(t)
  {
    s.tasks[t].pc != Ended ==>
      s.Held(t).place == Unacked(t) && s.tasks[t].pc != PoisonReject && s.tasks[t].pc != FailureReject
  }

  /** A delivery that has not ended holds its copy, and nobody else does. */
  ghost predicate Exclusive(s: State) {
    && WellFormed(s)
    && (forall i: nat :: i < |s.slots| ==> SlotHeld(s, i))
    && (forall t: nat :: t < |s.tasks| ==> TaskHolds(s, t))
  }

  lemma AdvanceKeepsSlotHeld(cfg: Config, s: State, s': State, tag: nat, i: nat)
    requires Exclusive(s) && s.Running(tag) && s.tasks[tag].pc != Ended && Advanced(cfg, s, s', tag)
    requires i < |s'.slots|
    ensures SlotHeld(s', i)
  {
    assert TaskHolds(s, tag);
    if i < |s.slots| {
      assert SlotHeld(s, i);
    } else {
      assert s'.slots[i] == s'.slots[|s.slots|..][0];
    }
  }

  lemma StepKeepsSlotHeld(cfg: Config, s: State, e: Event, i: nat)
    requires Exclusive(s) && BrokerWorks(e) && i < |Step(cfg, s, e).slots|
    ensures SlotHeld(Step(cfg, s, e), i)
  {
    if e.Advance? && Enabled(cfg, s, e) {
      AdvanceIsAdvanced(cfg, s, e.tag, e.op);
      AdvanceKeepsSlotHeld(cfg, s, Step(cfg, s, e), e.tag, i);
    } else if i < |s.slots| {
      assert SlotHeld(s, i);
    }
  }

  lemma AdvanceKeepsTaskHolds(cfg: Config, s: State, s': State, tag: nat, t: nat)
    requires Exclusive(s) && s.Running(tag) && s.tasks[tag].pc != Ended && Advanced(cfg, s, s', tag)
    requires s'.Running(t)
    ensures TaskHolds(s', t)
  {
    assert TaskHolds(s, tag) && TaskHolds(s, t);
  }

  lemma StepKeepsTaskHolds(cfg: Config, s: State, e: Event, t: nat)
    requires Exclusive(s) && BrokerWorks(e) && Step(cfg, s, e).Running(t)
    ensures TaskHolds(Step(cfg, s, e), t)
  {
    if e.Advance? && Enabled(cfg, s, e) {
      AdvanceIsAdvanced(cfg, s, e.tag, e.op);
      AdvanceKeepsTaskHolds(cfg, s, Step(cfg, s, e), e.tag, t);
    } else if t < |s.tasks| {
      assert TaskHolds(s, t);
    }
  }

  lemma StepKeepsExclusive(cfg: Config, s: State, e: Event)
    requires Exclusive(s) && BrokerWorks(e)
    ensures Exclusive(Step(cfg, s, e))
  {
    var s' := Step(cfg, s, e);
    StepGrows(cfg, s, e);
    forall i: nat | i < |s'.slots| ensures SlotHeld(s', i) {
      StepKeepsSlotHeld(cfg, s, e, i);
    }
    forall t: nat | t < |s'.tasks| ensures TaskHolds(s', t) {
      StepKeepsTaskHolds(cfg, s, e, t);
    }
  }

  // ---- Each message is delivered at most MAX_RETRIES + 1 times ----------------------------------

  /** Copy `i` may still be delivered or replaced. */
  predicate Active(s: State, i: nat)
    requires i < |s.slots|
  {
    match s.slots[i].place
    case Main => true
    case Retry => true
    case Unacked(t) => t < |s.tasks| && s.tasks[t].pc != PoisonAck && s.tasks[t].pc != FailureAck
    case _ => false
  }

  ghost predicate DeliveriesCounted(s: State, i: nat)
    requires i < |s.slots|
  {
    var c := s.slots[i].copy;
    && c.message.number < |s.slots|
    && (Active(s, i) ==> s.deliveries[c.message] <= c.retries + (if s.slots[i].place.Unacked? then 1 else 0))
  }

  ghost predicate OneActiveCopy(s: State) {
    forall i: nat, j: nat ::
      i < j < |s.slots| && s.slots[i].copy.message == s.slots[j].copy.message ==> !Active(s, i) || !Active(s, j)
  }

  ghost predicate Counted(cfg: Config, s: State) {
    && Exclusive(s) && RetriesBounded(cfg, s) && OneActiveCopy(s)
    && (forall i: nat :: i < |s.slots| ==> DeliveriesCounted(s, i))
    && (forall m :: m in s.deliveries ==> m.number < |s.slots| && s.deliveries[m] <= Cap(cfg) + 1)
  }

  predicate IsPublishPc(pc: Pc) {
    pc == PoisonPublish || pc == FailurePublish
  }

  predicate IsReplacedPc(pc: Pc) {
    pc == PoisonAck || pc == FailureAck
  }

  /** What a step of delivery `tag` does to the broker when the broker works. */
  ghost predicate Advanced(cfg: Config, s: State, s': State, tag: nat)
    requires s.Running(tag)
  {
    var j := s.tasks[tag].slot;
    var pc := s.tasks[tag].pc;
    && |s.slots| <= |s'.slots| && |s'.tasks| == |s.tasks|
    && (forall i: nat :: i < |s.slots| && i != j ==> s'.slots[i] == s.slots[i])
    && (forall t: nat :: t < |s.tasks| && t != tag ==> s'.tasks[t] == s.tasks[t])
    && s'.slots[j].copy == s.slots[j].copy
    && s'.tasks[tag].slot == j
    && s'.slots[j].place == (if s'.tasks[tag].pc == Ended then Gone else Unacked(tag))
    && PcRank(s'.tasks[tag].pc) < PcRank(pc)
    && s'.tasks[tag].pc != PoisonReject && s'.tasks[tag].pc != FailureReject
    && s'.deliveries == s.deliveries
    && (IsReplacedPc(pc) ==> s'.tasks[tag].pc == Ended)
    && (if IsPublishPc(pc) then
          && IsReplacedPc(s'.tasks[tag].pc)
          && s'.slots[|s.slots|..] ==
             [if pc == FailurePublish then AfterFailure(cfg, s.slots[j].copy)
              else Slot(s.slots[j].copy.(reason := PoisonMessage), Dlq)]
        else |s'.slots| == |s.slots| && !IsReplacedPc(s'.tasks[tag].pc))
  }

  function PcRank(pc: Pc): nat {
    match pc
    case Checking => 9
    case Decoding => 8
    case Handling => 7
    case Marking => 6
    case FinalAck => 5
    case DuplicateAck => 5
    case PoisonPublish => 5
    case FailurePublish => 4
    case PoisonAck => 1
    case FailureAck => 1
    case PoisonReject => 1
    case FailureReject => 1
    case Ended => 0
  }

  /** What an effect must be like for `Advanced`. */
  ghost predicate Forward(cfg: Config, tag: nat, held: Slot, pc: Pc, effect: Effect) {
    && effect.place == (if effect.pc == Ended then Gone else Unacked(tag))
    && PcRank(effect.pc) < PcRank(pc) && effect.pc != PoisonReject && effect.pc != FailureReject
    && (IsReplacedPc(pc) ==> effect.pc == Ended)
    && (if IsPublishPc(pc) then
          && IsReplacedPc(effect.pc)
          && effect.published ==
             [if pc == FailurePublish then AfterFailure(cfg, held.copy)
              else Slot(held.copy.(reason := PoisonMessage), Dlq)]
        else effect.published == [] && !IsReplacedPc(effect.pc))
  }

  lemma EffectIsForward(cfg: Config, tag: nat, held: Slot, pc: Pc, duplicate: bool, op: Op)
    requires held.place == Unacked(tag) && pc != PoisonReject && pc != FailureReject
    requires BrokerWorks(Advance(tag, op)) && Fits(cfg, held.copy.message, pc, op)
    ensures Forward(cfg, tag, held, pc, EffectOf(cfg, tag, held, pc, duplicate, op))
  {
  }

  lemma ApplyIsAdvanced(cfg: Config, s: State, tag: nat, op: Op, effect: Effect)
    requires s.Running(tag) && Forward(cfg, tag, s.Held(tag), s.tasks[tag].pc, effect)
    ensures Advanced(cfg, s, Apply(s, tag, op, effect), tag)
  {
    var s' := Apply(s, tag, op, effect);
    assert s'.slots[|s.slots|..] == effect.published;
  }

  lemma AdvanceIsAdvanced(cfg: Config, s: State, tag: nat, op: Op)
    requires Exclusive(s) && BrokerWorks(Advance(tag, op)) && Enabled(cfg, s, Advance(tag, op))
    ensures Advanced(cfg, s, Step(cfg, s, Advance(tag, op)), tag)
  {
    var held, pc := s.Held(tag), s.tasks[tag].pc;
    var duplicate := MarkedProcessed(s, held.copy.message);
    assert TaskHolds(s, tag);
    EffectIsForward(cfg, tag, held, pc, duplicate, op);
    ApplyIsAdvanced(cfg, s, tag, op, EffectOf(cfg, tag, held, pc, duplicate, op));
  }

  lemma AdvanceKeepsDeliveriesCounted(cfg: Config, s: State, s': State, tag: nat, i: nat)
    requires Counted(cfg, s) && s.Running(tag) && s.tasks[tag].pc != Ended && Advanced(cfg, s, s', tag)
    requires i < |s'.slots|
    ensures DeliveriesCounted(s', i)
  {
    var j := s.tasks[tag].slot;
    assert TaskHolds(s, tag) && DeliveriesCounted(s, j);
    if i < |s.slots| {
      assert DeliveriesCounted(s, i) && SlotHeld(s, i);
    } else {
      assert s'.slots[i] == s'.slots[|s.slots|..][0];
    }
  }

  lemma ReplacedIsNotActive(cfg: Config, s: State, s': State, tag: nat)
    requires s.Running(tag) && Advanced(cfg, s, s', tag) && |s'.slots| > |s.slots|
    requires s.Held(tag).place == Unacked(tag)
    ensures !Active(s', s.tasks[tag].slot) && Active(s, s.tasks[tag].slot)
    ensures |s'.slots| == |s.slots| + 1
    ensures s'.slots[|s.slots|].copy.message == s.Held(tag).copy.message
  {
    assert s'.slots[|s.slots|] == s'.slots[|s.slots|..][0];
  }

  lemma AdvanceActivates(cfg: Config, s: State, s': State, tag: nat, i: nat)
    requires Exclusive(s) && s.Running(tag) && s.tasks[tag].pc != Ended && Advanced(cfg, s, s', tag)
    requires i < |s.slots| && Active(s', i)
    ensures Active(s, i)
  {
    assert TaskHolds(s, tag) && SlotHeld(s, i);
  }

  lemma AdvanceKeepsOneActiveCopy(cfg: Config, s: State, s': State, tag: nat, i: nat, k: nat)
    requires Counted(cfg, s) && s.Running(tag) && s.tasks[tag].pc != Ended && Advanced(cfg, s, s', tag)
    requires i < k < |s'.slots| && s'.slots[i].copy.message == s'.slots[k].copy.message
    ensures !Active(s', i) || !Active(s', k)
  {
    assert TaskHolds(s, tag);
    if k >= |s.slots| {
      ReplacedIsNotActive(cfg, s, s', tag);
    }
    if i < |s.slots| && Active(s', i) {
      AdvanceActivates(cfg, s, s', tag, i);
    }
    if k < |s.slots| && Active(s', k) {
      AdvanceActivates(cfg, s, s', tag, k);
    }
  }

  lemma OtherKeepsDeliveriesCounted(cfg: Config, s: State, e: Event, i: nat)
    requires Counted(cfg, s) && BrokerWorks(e) && !e.Advance? && i < |Step(cfg, s, e).slots|
    ensures DeliveriesCounted(Step(cfg, s, e), i)
  {
    if i < |s.slots| {
      assert DeliveriesCounted(s, i) && SlotHeld(s, i);
      if e.Deliver? && Enabled(cfg, s, e) && i != e.slot {
        assert i < e.slot || e.slot < i;
      }
    }
  }

  lemma OtherKeepsOneActiveCopy(cfg: Config, s: State, e: Event, i: nat, k: nat)
    requires Counted(cfg, s) && BrokerWorks(e) && !e.Advance? && i < k < |Step(cfg, s, e).slots|
    requires Step(cfg, s, e).slots[i].copy.message == Step(cfg, s, e).slots[k].copy.message
    ensures !Active(Step(cfg, s, e), i) || !Active(Step(cfg, s, e), k)
  {
    assert SlotHeld(s, i) && DeliveriesCounted(s, i);
    if k < |s.slots| {
      assert SlotHeld(s, k);
    }
  }

  lemma StepKeepsCounted(cfg: Config, s: State, e: Event)
    requires Counted(cfg, s) && BrokerWorks(e)
    ensures Counted(cfg, Step(cfg, s, e))
  {
    var s' := Step(cfg, s, e);
    StepGrows(cfg, s, e);
    StepKeepsExclusive(cfg, s, e);
    StepKeepsRetriesBounded(cfg, s, e);
    if Enabled(cfg, s, e) {
      if e.Advance? {
        AdvanceIsAdvanced(cfg, s, e.tag, e.op);
      }
      forall i: nat | i < |s'.slots| ensures DeliveriesCounted(s', i) {
        if e.Advance? {
          AdvanceKeepsDeliveriesCounted(cfg, s, s', e.tag, i);
        } else {
          OtherKeepsDeliveriesCounted(cfg, s, e, i);
        }
      }
      forall i: nat, k: nat | i < k < |s'.slots| && s'.slots[i].copy.message == s'.slots[k].copy.message
        ensures !Active(s', i) || !Active(s', k)
      {
        if e.Advance? {
          AdvanceKeepsOneActiveCopy(cfg, s, s', e.tag, i, k);
        } else {
          OtherKeepsOneActiveCopy(cfg, s, e, i, k);
        }
      }
      if e.Deliver? {
        assert DeliveriesCounted(s, e.slot) && SlotBounded(cfg, s, e.slot);
      }
    }
  }

  lemma {:induction false} RunKeepsCounted(cfg: Config, s: State, trace: seq<Event>)
    requires Counted(cfg, s) && forall e :: e in trace ==> BrokerWorks(e)
    ensures Counted(cfg, Run(cfg, s, trace))
    decreases |trace|
  {
    if trace != [] {
      assert BrokerWorks(trace[0]);
      StepKeepsCounted(cfg, s, trace[0]);
      RunKeepsCounted(cfg, Step(cfg, s, trace[0]), trace[1..]);
    }
  }

  /** With a working broker, no message is delivered more than MAX_RETRIES + 1 times. */
  lemma DeliveredAtMost(cfg: Config, trace: seq<Event>, m: Message)
    requires forall e :: e in trace ==> BrokerWorks(e)
    ensures Run(cfg, INIT, trace).deliveries[m] <= Cap(cfg) + 1
  {
    RunKeepsCounted(cfg, INIT, trace);
    assert m in Run(cfg, INIT, trace).deliveries || Run(cfg, INIT, trace).deliveries[m] == 0;
  }

  // ---- The queues drain -------------------------------------------------------------------------

  /** How much work copy `i` can still cause: sixteen steps for each attempt left, and the steps to the
      end of the current one. */
  function Weight(cfg: Config, s: State, i: nat): nat
    requires i < |s.slots|
  {
    var left := 16 * Max(0, Cap(cfg) + 1 - s.slots[i].copy.retries);
    match s.slots[i].place
    case Retry => left + 11
    case Main => left + 10
    case Unacked(t) =>
      if t >= |s.tasks| then 0
      else PcRank(s.tasks[t].pc) + (if IsReplacedPc(s.tasks[t].pc) then 0 else left)
    case _ => 0
  }

  function TotalWeight(cfg: Config, s: State, n: nat): nat
    requires n <= |s.slots|
  {
    if n == 0 then 0 else TotalWeight(cfg, s, n - 1) + Weight(cfg, s, n - 1)
  }

  lemma {:induction false} WeightChanges(cfg: Config, s: State, s': State, j: nat, n: nat)
    requires n <= |s.slots| && n <= |s'.slots|
    requires forall i: nat :: i < n && i != j ==> Weight(cfg, s', i) == Weight(cfg, s, i)
    ensures TotalWeight(cfg, s', n)
            == TotalWeight(cfg, s, n) + (if j < n then Weight(cfg, s', j) - Weight(cfg, s, j) else 0)
  {
    if n > 0 {
      WeightChanges(cfg, s, s', j, n - 1);
    }
  }

  lemma AdvanceKeepsOtherWeight(cfg: Config, s: State, s': State, tag: nat, i: nat)
    requires Exclusive(s) && s.Running(tag) && Advanced(cfg, s, s', tag)
    requires i < |s.slots| && i != s.tasks[tag].slot
    ensures Weight(cfg, s', i) == Weight(cfg, s, i)
  {
    assert SlotHeld(s, i);
  }

  lemma ReplacementWeighsLess(cfg: Config, s: State, s': State, tag: nat)
    requires RetriesBounded(cfg, s) && s.Running(tag) && Advanced(cfg, s, s', tag)
    requires s.Held(tag).place == Unacked(tag) && IsPublishPc(s.tasks[tag].pc)
    ensures |s'.slots| == |s.slots| + 1
    ensures Weight(cfg, s', s.tasks[tag].slot) + Weight(cfg, s', |s.slots|) < Weight(cfg, s, s.tasks[tag].slot)
  {
    assert SlotBounded(cfg, s, s.tasks[tag].slot);
    assert s'.slots[|s.slots|] == s'.slots[|s.slots|..][0];
  }

  lemma NextPcWeighsLess(cfg: Config, s: State, s': State, tag: nat)
    requires s.Running(tag) && Advanced(cfg, s, s', tag)
    requires s.Held(tag).place == Unacked(tag) && !IsPublishPc(s.tasks[tag].pc)
    ensures Weight(cfg, s', s.tasks[tag].slot) < Weight(cfg, s, s.tasks[tag].slot)
  {
  }

  lemma TotalFalls(cfg: Config, s: State, s': State, j: nat)
    requires j < |s.slots| && |s.slots| <= |s'.slots| <= |s.slots| + 1
    requires forall i: nat :: i < |s.slots| && i != j ==> Weight(cfg, s', i) == Weight(cfg, s, i)
    requires Weight(cfg, s', j) + (if |s'.slots| > |s.slots| then Weight(cfg, s', |s.slots|) else 0) < Weight(cfg, s, j)
    ensures TotalWeight(cfg, s', |s'.slots|) < TotalWeight(cfg, s, |s.slots|)
  {
    WeightChanges(cfg, s, s', j, |s.slots|);
  }

  lemma AdvanceLowersWeight(cfg: Config, s: State, s': State, tag: nat)
    requires Exclusive(s) && RetriesBounded(cfg, s) && s.Running(tag) && s.tasks[tag].pc != Ended
    requires Advanced(cfg, s, s', tag)
    ensures TotalWeight(cfg, s', |s'.slots|) < TotalWeight(cfg, s, |s.slots|)
  {
    var j := s.tasks[tag].slot;
    assert TaskHolds(s, tag);
    if IsPublishPc(s.tasks[tag].pc) {
      ReplacementWeighsLess(cfg, s, s', tag);
    } else {
      NextPcWeighsLess(cfg, s, s', tag);
    }
    forall i: nat | i < |s.slots| && i != j
      ensures Weight(cfg, s', i) == Weight(cfg, s, i)
    {
      AdvanceKeepsOtherWeight(cfg, s, s', tag, i);
    }
    TotalFalls(cfg, s, s', j);
  }

  /** Every step of a working broker and its consumers, other than a new publish, lowers the total weight. */
  lemma StepLowersWeight(cfg: Config, s: State, e: Event)
    requires Exclusive(s) && RetriesBounded(cfg, s)
    requires BrokerWorks(e) && !e.Publish? && Enabled(cfg, s, e)
    ensures TotalWeight(cfg, Step(cfg, s, e), |Step(cfg, s, e).slots|) < TotalWeight(cfg, s, |s.slots|)
  {
    if e.Advance? {
      AdvanceIsAdvanced(cfg, s, e.tag, e.op);
      AdvanceLowersWeight(cfg, s, Step(cfg, s, e), e.tag);
    } else {
      forall i: nat | i < |s.slots| && i != e.slot
        ensures Weight(cfg, Step(cfg, s, e), i) == Weight(cfg, s, i)
      {
        assert SlotHeld(s, i);
      }
      WeightChanges(cfg, s, Step(cfg, s, e), e.slot, |s.slots|);
    }
  }

  /** A run of steps that all happen, with no new publish. */
  predicate Draining(cfg: Config, s: State, trace: seq<Event>)
    decreases |trace|
  {
    trace == [] ||
    (!trace[0].Publish? && BrokerWorks(trace[0]) && Enabled(cfg, s, trace[0])
     && Draining(cfg, Step(cfg, s, trace[0]), trace[1..]))
  }

  lemma {:induction false} DrainingEnds(cfg: Config, s: State, trace: seq<Event>)
    requires Counted(cfg, s) && Draining(cfg, s, trace)
    ensures |trace| <= TotalWeight(cfg, s, |s.slots|)
    decreases |trace|
  {
    if trace != [] {
      StepLowersWeight(cfg, s, trace[0]);
      StepKeepsCounted(cfg, s, trace[0]);
      DrainingEnds(cfg, Step(cfg, s, trace[0]), trace[1..]);
    }
  }

  function NextOp(pc: Pc): Op
    requires pc != Ended
  {
    match pc
    case Checking => Check(false)
    case Decoding => Decode
    case Handling => Handle(false)
    case Marking => Mark(false, true)
    case PoisonPublish => Republish(false, true)
    case FailurePublish => Republish(false, true)
    case PoisonReject => Reject(false, true)
    case FailureReject => Reject(false, true)
    case _ => Ack(false, true)
  }

  ghost predicate Stuck(cfg: Config, s: State) {
    forall e: Event :: !e.Publish? && BrokerWorks(e) ==> !Enabled(cfg, s, e)
  }

  lemma SomethingToDo(cfg: Config, s: State, i: nat) returns (e: Event)
    requires Exclusive(s) && i < |s.slots| && s.slots[i].place != Gone && s.slots[i].place != Dlq
    ensures !e.Publish? && BrokerWorks(e) && Enabled(cfg, s, e)
  {
    assert SlotHeld(s, i);
    match s.slots[i].place
    case Main => e := Deliver(i);
    case Retry => e := Expire(i);
    case Unacked(t) => e := Advance(t, NextOp(s.tasks[t].pc));
  }

  lemma StuckIsDrained(cfg: Config, s: State, i: nat)
    requires Exclusive(s) && Stuck(cfg, s) && i < |s.slots|
    ensures s.slots[i].place == Gone || s.slots[i].place == Dlq
  {
    if s.slots[i].place != Gone && s.slots[i].place != Dlq {
      var e := SomethingToDo(cfg, s, i);
    }
  }

  /** After any run with a working broker, draining takes at most TotalWeight steps, and when nothing is
      left to do each message was handled, was a duplicate of a handled one, or is in the dead-letter queue. */
  lemma QueuesDrain(cfg: Config, trace: seq<Event>, more: seq<Event>, i: nat)
    requires forall e :: e in trace ==> BrokerWorks(e)
    requires Draining(cfg, Run(cfg, INIT, trace), more)
    requires i < |Run(cfg, INIT, trace + more).slots|
    ensures
      var s := Run(cfg, INIT, trace);
      |more| <= TotalWeight(cfg, s, |s.slots|)
    ensures
      var s := Run(cfg, INIT, trace + more);
      var m := s.slots[i].copy.message;
      Stuck(cfg, s) ==>
        || HandlerDone(s, m)
        || (MarkedProcessed(s, m) && HandlerDoneForId(s, m.id.value))
        || (exists k: nat :: k < |s.slots| && s.slots[k].copy.message == m && s.slots[k].place == Dlq)
  {
    var s := Run(cfg, INIT, trace);
    var s' := Run(cfg, INIT, trace + more);
    RunInTwoParts(cfg, INIT, trace, s, more);
    RunKeepsCounted(cfg, INIT, trace);
    DrainingEnds(cfg, s, more);
    DrainingKeepsCounted(cfg, s, more);
    NoEventIsLost(cfg, trace + more, i);
    var m := s'.slots[i].copy.message;
    if Stuck(cfg, s') && Present(s', m) {
      var k: nat :| k < |s'.slots| && s'.slots[k].copy.message == m && s'.slots[k].place != Gone;
      StuckIsDrained(cfg, s', k);
    }
  }

  lemma {:induction false} DrainingKeepsCounted(cfg: Config, s: State, trace: seq<Event>)
    requires Counted(cfg, s) && Draining(cfg, s, trace)
    ensures Counted(cfg, Run(cfg, s, trace))
    decreases |trace|
  {
    if trace != [] {
      StepKeepsCounted(cfg, s, trace[0]);
      DrainingKeepsCounted(cfg, Step(cfg, s, trace[0]), trace[1..]);
    }
  }
}
