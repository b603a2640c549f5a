/** The queues of one routing key and the consumers that drain them, as a state machine.

    A copy is one stored AMQP message.  Every copy ever stored keeps its index in `slots`, so a copy
    that was acknowledged stays visible as `Gone`.  A delivery is one run of `process_message`; it
    advances one `await` at a time, and any number of deliveries may be in flight.
    Each event says how the awaited operation turned out: a publish, acknowledgement or rejection
    may raise, and one that raises may still have reached the broker. */
module Broker {
  import opened Common

  datatype Body = Json | MalformedJson | NotUtf8

  datatype Reason = NoReason | PoisonMessage | MaxRetriesExceeded

  /** What every copy of a published message shares.  `number` is the index of the copy a publisher
      first stored and tells messages with equal or missing ids apart. */
  datatype Message = Message(number: nat, id: Option<string>, body: Body)

  /** `retries` and `reason` are the retry_count and failure_reason headers. */
  datatype Copy = Copy(message: Message, retries: int, reason: Reason)

  datatype Place = Main | Unacked(tag: nat) | Retry | Dlq | Gone

  datatype Slot = Slot(copy: Copy, place: Place)

  /** Where a delivery stands: the operation it does next. */
  datatype Pc =
    | Checking | Decoding | Handling | Marking | FinalAck | DuplicateAck
    | PoisonPublish | PoisonAck | PoisonReject
    | FailurePublish | FailureAck | FailureReject
    | Ended

  datatype Task = Task(slot: nat, pc: Pc)

  /** `maxRetries` is RABBITMQ_MAX_RETRIES; `checks` and `marks` say whether the consumer was given
      is_processed and mark_processed. */
  datatype Config = Config(maxRetries: int, checks: bool, marks: bool)

  /** `handled` holds the copies whose handler returned and `processed` the ids marked in the database.
      `starts`, `failures` and `deliveries` count handler starts by id, and failed attempts and
      deliveries by message. */
  datatype State = State(
    slots: seq<Slot>, tasks: seq<Task>, processed: set<string>, handled: set<nat>,
    starts: multiset<string>, failures: multiset<Message>, deliveries: multiset<Message>)
  {
    function Move(i: nat, place: Place): State
      requires i < |slots|
    {
      this.(slots := slots[i := slots[i].(place := place)])
    }

    predicate Running(tag: nat) {
      tag < |tasks| && tasks[tag].slot < |slots|
    }

    /** The copy that delivery `tag` was given. */
    function Held(tag: nat): Slot
      requires Running(tag)
    {
      slots[tasks[tag].slot]
    }
  }

  const INIT := State([], [], {}, {}, multiset{}, multiset{}, multiset{})

  /** `raised` says what the client saw, `stored` and `applied` what happened on the other side. */
  datatype Event =
    | Publish(id: Option<string>, body: Body, stored: bool)
    | Expire(slot: nat)
    | Deliver(slot: nat)
    | Redeliver(slot: nat)
    | Advance(tag: nat, op: Op)

  datatype Op =
    | Check(raised: bool)
    | Decode
    | Handle(raised: bool)
    | Mark(raised: bool, applied: bool)
    | Ack(raised: bool, applied: bool)
    | Reject(raised: bool, applied: bool)
    | Republish(raised: bool, stored: bool)

  /** An empty message id is falsy in the source and counts as none. */
  predicate HasId(m: Message) {
    m.id.Some? && m.id.value != ""
  }

  predicate MarkedProcessed(s: State, m: Message) {
    HasId(m) && m.id.value in s.processed
  }

  /** Whether `op` is what a delivery of `m` does at `pc`. */
  predicate Fits(cfg: Config, m: Message, pc: Pc, op: Op) {
    match op
    case Check(raised) => pc == Checking && (raised ==> HasId(m) && cfg.checks)
    case Decode => pc == Decoding
    case Handle(_) => pc == Handling
    case Mark(raised, applied) => pc == Marking && (!raised ==> applied)
    case Ack(_, _) => pc == FinalAck || pc == DuplicateAck || pc == PoisonAck || pc == FailureAck
    case Reject(_, _) => pc == PoisonReject || pc == FailureReject
    case Republish(raised, stored) => (pc == PoisonPublish || pc == FailurePublish) && (!raised ==> stored)
  }

  predicate Enabled(cfg: Config, s: State, e: Event) {
    match e
    case Publish(_, _, _) => true
    case Expire(i) => i < |s.slots| && s.slots[i].place == Retry
    case Deliver(i) => i < |s.slots| && s.slots[i].place == Main
    case Redeliver(i) => i < |s.slots| && s.slots[i].place.Unacked?
    case Advance(tag, op) => s.Running(tag) && Fits(cfg, s.Held(tag).copy.message, s.tasks[tag].pc, op)
  }

  /** What one step of `process_message` does: where the delivery goes next, where the copy it was given
      is then, and the copy it published, if any. */
  datatype Effect = Effect(pc: Pc, place: Place, published: seq<Slot>)

  /** The copy that `_handle_failure` publishes, and the queue it goes to. */
  function AfterFailure(cfg: Config, c: Copy): Slot {
    if c.retries + 1 <= cfg.maxRetries then Slot(c.(retries := c.retries + 1), Retry)
    else Slot(c.(retries := c.retries + 1, reason := MaxRetriesExceeded), Dlq)
  }

  /** `held` is the slot of the delivery's copy; `duplicate` is what is_processed answers. */
  function EffectOf(cfg: Config, tag: nat, held: Slot, pc: Pc, duplicate: bool, op: Op): Effect {
    var c := held.copy;
    var holding := held.place == Unacked(tag);
    match op
    case Check(raised) =>
      Effect(if raised then FailurePublish else if duplicate && cfg.checks then DuplicateAck else Decoding,
             held.place, [])
    case Decode =>
      Effect(match c.message.body
             case Json => Handling
             case MalformedJson => PoisonPublish
             case NotUtf8 => FailurePublish,
             held.place, [])
    case Handle(raised) =>
      Effect(if raised then FailurePublish else if HasId(c.message) && cfg.marks then Marking else FinalAck,
             held.place, [])
    case Mark(raised, _) =>
      Effect(if raised then FailurePublish else FinalAck, held.place, [])
    case Ack(raised, applied) =>
      Effect(if !raised then Ended
             else if pc == PoisonAck then PoisonReject
             else if pc == FailureAck then FailureReject
             else FailurePublish,
             if applied && holding then Gone else held.place, [])
    case Reject(raised, applied) =>
      Effect(if raised && pc == PoisonReject then FailurePublish else Ended,
             if applied && holding then Main else held.place, [])
    case Republish(raised, stored) =>
      if pc == PoisonPublish then
        Effect(if raised then PoisonReject else PoisonAck, held.place,
               if stored then [Slot(c.(reason := PoisonMessage), Dlq)] else [])
      else
        Effect(if raised then FailureReject else FailureAck, held.place,
               if stored then [AfterFailure(cfg, c)] else [])
  }

  /** Apply one step of delivery `tag`; every way into FailurePublish is a failed attempt. */
  function Apply(s: State, tag: nat, op: Op, effect: Effect): State
    requires s.Running(tag)
  {
    var slot := s.tasks[tag].slot;
    var m := s.Held(tag).copy.message;
    State(
      s.slots[slot := s.slots[slot].(place := effect.place)] + effect.published,
      s.tasks[tag := s.tasks[tag].(pc := effect.pc)],
      if op.Mark? && op.applied && HasId(m) then s.processed + {m.id.value} else s.processed,
      if op == Handle(false) then s.handled + {slot} else s.handled,
      if effect.pc == Handling && HasId(m) then s.starts + multiset{m.id.value} else s.starts,
      if effect.pc == FailurePublish then s.failures + multiset{m} else s.failures,
      s.deliveries)
  }

  /** One step.  An event that is not enabled changes nothing, so every event sequence is a run. */
  function Step(cfg: Config, s: State, e: Event): State {
    if !Enabled(cfg, s, e) then s else
    match e
    case Publish(id, body, stored) =>
      if stored then s.(slots := s.slots + [Slot(Copy(Message(|s.slots|, id, body), 0, NoReason), Main)]) else s
    case Expire(i) => s.Move(i, Main)
    case Redeliver(i) => s.Move(i, Main)
    case Deliver(i) =>
      s.Move(i, Unacked(|s.tasks|)).(
        tasks := s.tasks + [Task(i, Checking)],
        deliveries := s.deliveries + multiset{s.slots[i].copy.message})
    case Advance(tag, op) =>
      var held := s.Held(tag);
      Apply(s, tag, op, EffectOf(cfg, tag, held, s.tasks[tag].pc, MarkedProcessed(s, held.copy.message), op))
  }

  function Run(cfg: Config, s: State, trace: seq<Event>): State
    decreases |trace|
  {
    if trace == [] then s else Run(cfg, Step(cfg, s, trace[0]), trace[1..])
  }

  lemma {:induction false} RunInTwoParts(cfg: Config, s: State, first: seq<Event>, between: State, second: seq<Event>)
    requires Run(cfg, s, first) == between
    ensures Run(cfg, s, first + second) == Run(cfg, between, second)
    decreases |first|
  {
    if first == [] {
      assert first + second == second;
    } else {
      assert (first + second)[0] == first[0] && (first + second)[1..] == first[1..] + second;
      RunInTwoParts(cfg, Step(cfg, s, first[0]), first[1..], between, second);
    }
  }
}
