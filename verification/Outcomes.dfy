/** What one delivery comes to when it runs undisturbed, branch by branch, and what it takes for a message to
    exhaust its retries, counted from the operations that went wrong. */
module Outcomes {
  import opened Common
  import opened Broker
  import opened Delivery
  import opened Drain

  /** Delivery `tag` holds copy `c`, stored at `slot`, and stands at `pc`. */
  predicate Holds(s: State, tag: nat, slot: nat, c: Copy, pc: Pc) {
    && tag < |s.tasks| && s.tasks[tag] == Task(slot, pc)
    && slot < |s.slots| && s.slots[slot] == Slot(c, Unacked(tag))
  }

  predicate Marked(s: State, m: Message) {
    m.id.Some? && m.id.value != "" && m.id.value in s.processed
  }

  /** `s'` is `s` but for delivery `tag`, its slot, and copies and records that came with it. */
  ghost predicate OthersStay(s: State, s': State, tag: nat, slot: nat) {
    && |s.slots| <= |s'.slots| && |s.tasks| == |s'.tasks|
    && (forall i: nat :: i < |s.slots| && i != slot ==> s'.slots[i] == s.slots[i])
    && (forall t: nat :: t < |s.tasks| && t != tag ==> s'.tasks[t] == s.tasks[t])
  }

  // ---- One operation ----------------------------------------------------------------------------

  /** The operation went wrong in a way that makes the delivery a failed attempt. */
  predicate Fails(body: Body, pc: Pc, op: Op) {
    match op
    case Check(raised) => raised
    case Decode => body == NotUtf8
    case Handle(raised) => raised
    case Mark(raised, _) => raised
    case Ack(raised, _) => raised && (pc == FinalAck || pc == DuplicateAck)
    case Reject(raised, _) => raised && pc == PoisonReject
    case Republish(_, _) => false
  }

  /** A delivery turns to its failure handler exactly when its operation failed. */
  lemma FailsExactlyWhen(cfg: Config, s: State, tag: nat, op: Op)
    requires Enabled(cfg, s, Advance(tag, op))
    ensures Step(cfg, s, Advance(tag, op)).tasks[tag].pc == FailurePublish <==>
            Fails(s.Held(tag).copy.message.body, s.tasks[tag].pc, op)
  {
  }

  lemma CheckStep(cfg: Config, s: State, tag: nat, slot: nat, c: Copy)
    requires Holds(s, tag, slot, c, Checking)
    ensures
      var s' := Step(cfg, s, Advance(tag, Check(false)));
      && Holds(s', tag, slot, c, if cfg.checks && Marked(s, c.message) then DuplicateAck else Decoding)
      && s' == s.(tasks := s'.tasks) && OthersStay(s, s', tag, slot)
  {
    var s' := Step(cfg, s, Advance(tag, Check(false)));
    assert s'.slots == s.slots;
  }

  lemma DecodeStep(cfg: Config, s: State, tag: nat, slot: nat, c: Copy)
    requires Holds(s, tag, slot, c, Decoding)
    ensures
      var s' := Step(cfg, s, Advance(tag, Decode));
      && Holds(s', tag, slot, c, match c.message.body
                                 case Json => Handling
                                 case MalformedJson => PoisonPublish
                                 case NotUtf8 => FailurePublish)
      && s'.slots == s.slots && s'.handled == s.handled && s'.processed == s.processed
      && OthersStay(s, s', tag, slot)
  {
    var s' := Step(cfg, s, Advance(tag, Decode));
    assert s'.slots == s.slots;
  }

  lemma HandleStep(cfg: Config, s: State, tag: nat, slot: nat, c: Copy)
    requires Holds(s, tag, slot, c, Handling)
    ensures
      var s' := Step(cfg, s, Advance(tag, Handle(false)));
      var hasId := c.message.id.Some? && c.message.id.value != "";
      && Holds(s', tag, slot, c, if hasId && cfg.marks then Marking else FinalAck)
      && s'.slots == s.slots && s'.handled == s.handled + {slot} && s'.processed == s.processed
      && OthersStay(s, s', tag, slot)
  {
    var s' := Step(cfg, s, Advance(tag, Handle(false)));
    assert s'.slots == s.slots;
  }

  lemma MarkStep(cfg: Config, s: State, tag: nat, slot: nat, c: Copy)
    requires Holds(s, tag, slot, c, Marking) && c.message.id.Some? && c.message.id.value != ""
    ensures
      var s' := Step(cfg, s, Advance(tag, Mark(false, true)));
      && Holds(s', tag, slot, c, FinalAck)
      && s'.slots == s.slots && s'.handled == s.handled && s'.processed == s.processed + {c.message.id.value}
      && OthersStay(s, s', tag, slot)
  {
    var s' := Step(cfg, s, Advance(tag, Mark(false, true)));
    assert s'.slots == s.slots;
  }

  lemma AckStep(cfg: Config, s: State, tag: nat, slot: nat, c: Copy, pc: Pc)
    requires Holds(s, tag, slot, c, pc) && pc in {FinalAck, DuplicateAck, PoisonAck, FailureAck}
    ensures
      var s' := Step(cfg, s, Advance(tag, Ack(false, true)));
      && s'.tasks == s.tasks[tag := Task(slot, Ended)] && s'.slots == s.slots[slot := Slot(c, Gone)]
      && s'.handled == s.handled && s'.processed == s.processed
      && OthersStay(s, s', tag, slot)
  {
  }

  /** The copy a delivery that cannot go on publishes, and where. */
  lemma RepublishStep(cfg: Config, s: State, tag: nat, slot: nat, c: Copy, pc: Pc)
    requires Holds(s, tag, slot, c, pc) && pc in {PoisonPublish, FailurePublish}
    ensures
      var s' := Step(cfg, s, Advance(tag, Republish(false, true)));
      && Holds(s', tag, slot, c, if pc == PoisonPublish then PoisonAck else FailureAck)
      && s'.slots == s.slots + [
           if pc == PoisonPublish then Slot(c.(reason := PoisonMessage), Dlq)
           else if c.retries + 1 <= cfg.maxRetries then Slot(c.(retries := c.retries + 1), Retry)
           else Slot(c.(retries := c.retries + 1, reason := MaxRetriesExceeded), Dlq)]
      && s'.handled == s.handled && s'.processed == s.processed
      && OthersStay(s, s', tag, slot)
  {
  }

  // ---- Whole deliveries, undisturbed ------------------------------------------------------------

  lemma RunOne(cfg: Config, s: State, e: Event, rest: seq<Event>)
    ensures Run(cfg, s, [e] + rest) == Run(cfg, Step(cfg, s, e), rest)
  {
    assert ([e] + rest)[0] == e && ([e] + rest)[1..] == rest;
  }

  /** From the handler to the acknowledgement. */
  function FromHandler(cfg: Config, tag: nat, m: Message): seq<Event> {
    [Advance(tag, Handle(false))] + (
      if m.id.Some? && m.id.value != "" && cfg.marks then [Advance(tag, Mark(false, true))] + Acknowledge(tag)
      else Acknowledge(tag))
  }

  function Acknowledge(tag: nat): seq<Event> {
    [Advance(tag, Ack(false, true))] + []
  }

  function CheckAndDecode(tag: nat, rest: seq<Event>): seq<Event> {
    [Advance(tag, Check(false))] + ([Advance(tag, Decode)] + rest)
  }

  lemma Acknowledges(cfg: Config, s: State, tag: nat, slot: nat, c: Copy, pc: Pc)
    requires Holds(s, tag, slot, c, pc) && pc in {FinalAck, DuplicateAck, PoisonAck, FailureAck}
    ensures
      var s' := Run(cfg, s, Acknowledge(tag));
      && s'.tasks == s.tasks[tag := Task(slot, Ended)] && s'.slots == s.slots[slot := Slot(c, Gone)]
      && s'.handled == s.handled && s'.processed == s.processed
  {
    RunOne(cfg, s, Advance(tag, Ack(false, true)), []);
    AckStep(cfg, s, tag, slot, c, pc);
  }

  lemma HandlerToAck(cfg: Config, s: State, tag: nat, slot: nat, c: Copy)
    requires Holds(s, tag, slot, c, Handling)
    ensures
      var s' := Run(cfg, s, FromHandler(cfg, tag, c.message));
      var id := c.message.id;
      && s'.tasks == s.tasks[tag := Task(slot, Ended)] && s'.slots == s.slots[slot := Slot(c, Gone)]
      && s'.handled == s.handled + {slot}
      && s'.processed == s.processed + if id.Some? && id.value != "" && cfg.marks then {id.value} else {}
  {
    var handled := Step(cfg, s, Advance(tag, Handle(false)));
    HandleStep(cfg, s, tag, slot, c);
    if c.message.id.Some? && c.message.id.value != "" && cfg.marks {
      RunOne(cfg, s, Advance(tag, Handle(false)), [Advance(tag, Mark(false, true))] + Acknowledge(tag));
      RunOne(cfg, handled, Advance(tag, Mark(false, true)), Acknowledge(tag));
      MarkStep(cfg, handled, tag, slot, c);
      Acknowledges(cfg, Step(cfg, handled, Advance(tag, Mark(false, true))), tag, slot, c, FinalAck);
    } else {
      RunOne(cfg, s, Advance(tag, Handle(false)), Acknowledge(tag));
      Acknowledges(cfg, handled, tag, slot, c, FinalAck);
    }
  }

  lemma ChecksAndDecodes(cfg: Config, s: State, tag: nat, slot: nat, c: Copy, rest: seq<Event>)
    requires Holds(s, tag, slot, c, Checking) && !(cfg.checks && Marked(s, c.message))
    ensures
      var s' := Step(cfg, Step(cfg, s, Advance(tag, Check(false))), Advance(tag, Decode));
      && Run(cfg, s, CheckAndDecode(tag, rest)) == Run(cfg, s', rest)
      && Holds(s', tag, slot, c, match c.message.body
                                 case Json => Handling
                                 case MalformedJson => PoisonPublish
                                 case NotUtf8 => FailurePublish)
      && s'.tasks == s.tasks[tag := s'.tasks[tag]] && s'.slots == s.slots
      && s'.handled == s.handled && s'.processed == s.processed
  {
    var checked := Step(cfg, s, Advance(tag, Check(false)));
    RunOne(cfg, s, Advance(tag, Check(false)), [Advance(tag, Decode)] + rest);
    RunOne(cfg, checked, Advance(tag, Decode), rest);
    CheckStep(cfg, s, tag, slot, c);
    DecodeStep(cfg, checked, tag, slot, c);
  }

  /** An undisturbed delivery of a JSON message whose id is not marked, or is not asked for, runs the
      handler, marks the id if there is one and a marker, and acknowledges; nothing else changes. */
  lemma JsonIsHandled(cfg: Config, s: State, tag: nat, slot: nat, c: Copy)
    requires Holds(s, tag, slot, c, Checking) && c.message.body == Json && !(cfg.checks && Marked(s, c.message))
    ensures
      var s' := Run(cfg, s, CheckAndDecode(tag, FromHandler(cfg, tag, c.message)));
      var id := c.message.id;
      && s'.tasks == s.tasks[tag := Task(slot, Ended)] && s'.slots == s.slots[slot := Slot(c, Gone)]
      && s'.handled == s.handled + {slot}
      && s'.processed == s.processed + if id.Some? && id.value != "" && cfg.marks then {id.value} else {}
  {
    ChecksAndDecodes(cfg, s, tag, slot, c, FromHandler(cfg, tag, c.message));
    HandlerToAck(cfg, Step(cfg, Step(cfg, s, Advance(tag, Check(false))), Advance(tag, Decode)), tag, slot, c);
  }

  /** A message whose id is marked is acknowledged without its handler being run. */
  lemma DuplicateIsAcknowledged(cfg: Config, s: State, tag: nat, slot: nat, c: Copy)
    requires Holds(s, tag, slot, c, Checking) && cfg.checks && Marked(s, c.message)
    ensures
      var s' := Run(cfg, s, [Advance(tag, Check(false))] + Acknowledge(tag));
      && s'.tasks == s.tasks[tag := Task(slot, Ended)] && s'.slots == s.slots[slot := Slot(c, Gone)]
      && s'.handled == s.handled && s'.processed == s.processed
  {
    RunOne(cfg, s, Advance(tag, Check(false)), Acknowledge(tag));
    CheckStep(cfg, s, tag, slot, c);
    Acknowledges(cfg, Step(cfg, s, Advance(tag, Check(false))), tag, slot, c, DuplicateAck);
  }

  function Replace(tag: nat): seq<Event> {
    [Advance(tag, Republish(false, true))] + Acknowledge(tag)
  }

  lemma Replaces(cfg: Config, s: State, tag: nat, slot: nat, c: Copy, pc: Pc)
    requires Holds(s, tag, slot, c, pc) && pc in {PoisonPublish, FailurePublish}
    ensures
      var s' := Run(cfg, s, Replace(tag));
      && s'.tasks == s.tasks[tag := Task(slot, Ended)]
      && s'.slots == s.slots[slot := Slot(c, Gone)] + [
           if pc == PoisonPublish then Slot(c.(reason := PoisonMessage), Dlq)
           else if c.retries + 1 <= cfg.maxRetries then Slot(c.(retries := c.retries + 1), Retry)
           else Slot(c.(retries := c.retries + 1, reason := MaxRetriesExceeded), Dlq)]
      && s'.handled == s.handled && s'.processed == s.processed
  {
    var published := Step(cfg, s, Advance(tag, Republish(false, true)));
    RunOne(cfg, s, Advance(tag, Republish(false, true)), Acknowledge(tag));
    RepublishStep(cfg, s, tag, slot, c, pc);
    Acknowledges(cfg, published, tag, slot, c, if pc == PoisonPublish then PoisonAck else FailureAck);
  }

  /** A malformed message is dead-lettered as poison at once, however many retries are left. */
  lemma PoisonIsDeadLettered(cfg: Config, s: State, tag: nat, slot: nat, c: Copy)
    requires Holds(s, tag, slot, c, Checking) && c.message.body == MalformedJson
    requires !(cfg.checks && Marked(s, c.message))
    ensures
      var s' := Run(cfg, s, CheckAndDecode(tag, Replace(tag)));
      && s'.tasks == s.tasks[tag := Task(slot, Ended)]
      && s'.slots == s.slots[slot := Slot(c, Gone)] + [Slot(c.(reason := PoisonMessage), Dlq)]
      && s'.handled == s.handled && s'.processed == s.processed
  {
    ChecksAndDecodes(cfg, s, tag, slot, c, Replace(tag));
    var checked := Step(cfg, s, Advance(tag, Check(false)));
    Replaces(cfg, Step(cfg, checked, Advance(tag, Decode)), tag, slot, c, PoisonPublish);
  }

  /** A delivery whose operation failed replaces its copy by one with one retry more: in the retry queue
      while that is at most MAX_RETRIES, else in the dead-letter queue. */
  lemma FailureIsRetried(cfg: Config, s: State, tag: nat, slot: nat, c: Copy, pc: Pc, op: Op)
    requires Holds(s, tag, slot, c, pc) && Enabled(cfg, s, Advance(tag, op)) && Fails(c.message.body, pc, op)
    requires !op.Ack? && !op.Reject?
    ensures
      var s' := Run(cfg, s, [Advance(tag, op)] + Replace(tag));
      var retries := c.retries + 1;
      && s'.slots == s.slots[slot := Slot(c, Gone)] + [
           if retries <= cfg.maxRetries then Slot(c.(retries := retries), Retry)
           else Slot(c.(retries := retries, reason := MaxRetriesExceeded), Dlq)]
      && s'.handled == s.handled
  {
    var failed := Step(cfg, s, Advance(tag, op));
    FailsExactlyWhen(cfg, s, tag, op);
    RunOne(cfg, s, Advance(tag, op), Replace(tag));
    assert failed.slots == s.slots;
    Replaces(cfg, failed, tag, slot, c, FailurePublish);
  }

  /** When the replacement cannot be published, the copy goes back to the main queue as it was. */
  lemma UnreplacedIsRequeued(cfg: Config, s: State, tag: nat, slot: nat, c: Copy, pc: Pc)
    requires Holds(s, tag, slot, c, pc) && pc in {PoisonPublish, FailurePublish}
    ensures
      var reject := [Advance(tag, Reject(false, true))] + [];
      var s' := Run(cfg, s, [Advance(tag, Republish(true, false))] + reject);
      && s'.tasks == s.tasks[tag := Task(slot, Ended)] && s'.slots == s.slots[slot := Slot(c, Main)]
      && s'.handled == s.handled && s'.processed == s.processed
  {
    var refused := Step(cfg, s, Advance(tag, Republish(true, false)));
    RunOne(cfg, s, Advance(tag, Republish(true, false)), [Advance(tag, Reject(false, true))] + []);
    RunOne(cfg, refused, Advance(tag, Reject(false, true)), []);
    assert refused.slots == s.slots;
  }

  // ---- Exhausted retries, counted from the operations -------------------------------------------

  /** The event is a failed operation of a delivery of `m`. */
  predicate FailsFor(cfg: Config, s: State, e: Event, m: Message) {
    && e.Advance? && Enabled(cfg, s, e) && s.Held(e.tag).copy.message == m
    && Fails(m.body, s.tasks[e.tag].pc, e.op)
  }

  function CountFailed(cfg: Config, s: State, trace: seq<Event>, m: Message): nat
    decreases |trace|
  {
    if trace == [] then 0
    else
      CountFailed(cfg, Step(cfg, s, trace[0]), trace[1..], m) + if FailsFor(cfg, s, trace[0], m) then 1 else 0
  }

  lemma {:induction false} RunFails(cfg: Config, s: State, trace: seq<Event>, m: Message)
    ensures Run(cfg, s, trace).failures[m] == s.failures[m] + CountFailed(cfg, s, trace, m)
    decreases |trace|
  {
    if trace != [] {
      var e := trace[0];
      if e.Advance? && Enabled(cfg, s, e) {
        FailsExactlyWhen(cfg, s, e.tag, e.op);
      }
      RunFails(cfg, Step(cfg, s, trace[0]), trace[1..], m);
    }
  }

  /** In every run, a copy shows no more retries than operations failed for its message, and one that
      exhausted its retries has seen at least MAX_RETRIES + 1 of them fail. */
  lemma RetriesNeedFailures(cfg: Config, trace: seq<Event>, i: nat)
    requires i < |Run(cfg, INIT, trace).slots|
    ensures
      var c := Run(cfg, INIT, trace).slots[i].copy;
      && c.retries <= CountFailed(cfg, INIT, trace, c.message)
      && (c.reason == MaxRetriesExceeded ==> CountFailed(cfg, INIT, trace, c.message) >= Max(0, cfg.maxRetries) + 1)
  {
    RunKeepsRetriesBounded(cfg, INIT, trace);
    assert SlotBounded(cfg, Run(cfg, INIT, trace), i);
    RunFails(cfg, INIT, trace, Run(cfg, INIT, trace).slots[i].copy.message);
  }

  // ---- Handler starts and deliveries, counted from the events -----------------------------------

  /** The event starts the handler for a message with that id: its body was decoded as JSON. */
  predicate StartsFor(cfg: Config, s: State, e: Event, id: string) {
    && e.Advance? && e.op.Decode? && Enabled(cfg, s, e)
    && s.Held(e.tag).copy.message.body == Json && s.Held(e.tag).copy.message.id == Some(id)
  }

  function CountStarted(cfg: Config, s: State, trace: seq<Event>, id: string): nat
    decreases |trace|
  {
    if trace == [] then 0
    else
      CountStarted(cfg, Step(cfg, s, trace[0]), trace[1..], id) + if StartsFor(cfg, s, trace[0], id) then 1 else 0
  }

  lemma {:induction false} RunStarts(cfg: Config, s: State, trace: seq<Event>, id: string)
    requires id != ""
    ensures Run(cfg, s, trace).starts[id] == s.starts[id] + CountStarted(cfg, s, trace, id)
    decreases |trace|
  {
    if trace != [] {
      RunStarts(cfg, Step(cfg, s, trace[0]), trace[1..], id);
    }
  }

  /** Once `id` is marked in a reachable state, the rest of any run starts the handler for it at most once
      for each delivery that had passed its check by then. */
  lemma StartsAfterMark(cfg: Config, before: seq<Event>, after: seq<Event>, id: string)
    requires cfg.checks && id != "" && id in Run(cfg, INIT, before).processed
    ensures
      var s := Run(cfg, INIT, before);
      CountStarted(cfg, s, after, id) <= PastCheck(s, id, |s.tasks|)
  {
    var s := Run(cfg, INIT, before);
    RunKeepsInv(cfg, INIT, before);
    RunStarts(cfg, s, after, id);
    HandledOnlyByDeliveriesPastCheck(cfg, s, after, id);
  }

  predicate Delivers(s: State, e: Event, m: Message) {
    e.Deliver? && e.slot < |s.slots| && s.slots[e.slot].place == Main && s.slots[e.slot].copy.message == m
  }

  function CountDelivered(cfg: Config, s: State, trace: seq<Event>, m: Message): nat
    decreases |trace|
  {
    if trace == [] then 0
    else CountDelivered(cfg, Step(cfg, s, trace[0]), trace[1..], m) + if Delivers(s, trace[0], m) then 1 else 0
  }

  lemma {:induction false} RunDelivers(cfg: Config, s: State, trace: seq<Event>, m: Message)
    ensures Run(cfg, s, trace).deliveries[m] == s.deliveries[m] + CountDelivered(cfg, s, trace, m)
    decreases |trace|
  {
    if trace != [] {
      RunDelivers(cfg, Step(cfg, s, trace[0]), trace[1..], m);
    }
  }

  /** With a working broker the deliveries of a message in any run, counted from its events, are at most
      MAX_RETRIES + 1. */
  lemma DeliveriesAreBounded(cfg: Config, trace: seq<Event>, m: Message)
    requires forall e :: e in trace ==> BrokerWorks(e)
    ensures CountDelivered(cfg, INIT, trace, m) <= Max(0, cfg.maxRetries) + 1
  {
    RunDelivers(cfg, INIT, trace, m);
    DeliveredAtMost(cfg, trace, m);
  }
}
