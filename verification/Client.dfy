/** The client's own code: `publish`, `process_message`, `_route_to_dlq_explicitly` and `_handle_failure`,
    written as the source writes them.  Each awaited operation is one step of the broker model, and while
    a delivery awaits, any other deliveries, publishers and the broker itself may take any number of steps.
    The methods' contracts say that whatever happens in between, the broker only ever goes through runs of
    the model, so everything proved about all runs holds of the code. */
module Client {
  import opened Common
  import opened Broker
  import opened Delivery

  /** Nobody else moves delivery `tag` or changes the copy it was given. */
  lemma OthersKeepTask(cfg: Config, s: State, e: Event, tag: nat)
    requires s.Running(tag) && !(e.Advance? && e.tag == tag)
    ensures
      var s' := Step(cfg, s, e);
      s'.Running(tag) && s'.tasks[tag] == s.tasks[tag] && s'.Held(tag).copy == s.Held(tag).copy
  {
  }

  /** What was handled or marked stays so. */
  lemma RecordsGrow(cfg: Config, before: seq<Event>, now: seq<Event>)
    requires before <= now
    ensures Run(cfg, INIT, before).handled <= Run(cfg, INIT, now).handled
    ensures Run(cfg, INIT, before).processed <= Run(cfg, INIT, now).processed
  {
    var more := now[|before|..];
    assert now == before + more;
    RunInTwoParts(cfg, INIT, before, Run(cfg, INIT, before), more);
    RunKeepsInv(cfg, INIT, before);
    RunGrows(cfg, Run(cfg, INIT, before), more);
  }

  lemma {:induction false} RunGrows(cfg: Config, s: State, trace: seq<Event>)
    requires WellFormed(s)
    ensures s.handled <= Run(cfg, s, trace).handled && s.processed <= Run(cfg, s, trace).processed
    decreases |trace|
  {
    if trace != [] {
      StepGrows(cfg, s, trace[0]);
      RunGrows(cfg, Step(cfg, s, trace[0]), trace[1..]);
    }
  }

  /** A delivery about to acknowledge its message has handled it, or found it marked. */
  lemma AcksOnlyHandled(cfg: Config, trace: seq<Event>, tag: nat)
    requires tag < |Run(cfg, INIT, trace).tasks|
    ensures
      var s := Run(cfg, INIT, trace);
      && s.Running(tag)
      && (s.tasks[tag].pc == FinalAck ==> s.tasks[tag].slot in s.handled)
      && (s.tasks[tag].pc == DuplicateAck ==> MarkedProcessed(s, s.Held(tag).copy.message))
  {
    RunKeepsInv(cfg, INIT, trace);
    assert TaskSafe(Run(cfg, INIT, trace), tag);
  }

  class RabbitMQClient {
    const cfg: Config
    var state: State
    ghost var trace: seq<Event>

    /** The queues and the database are where some run of the model leads. */
    ghost predicate Valid()
      reads this
    {
      state == Run(cfg, INIT, trace)
    }

    /** Delivery `tag` was given `copy`, stored at `slot`, and stands at `pc`. */
    ghost predicate At(tag: nat, slot: nat, copy: Copy, pc: Pc)
      reads this
    {
      && tag < |state.tasks| && state.tasks[tag] == Task(slot, pc)
      && slot < |state.slots| && state.slots[slot].copy == copy
    }

    constructor (cfg: Config)
      ensures Valid() && this.cfg == cfg && state == INIT
    {
      this.cfg := cfg;
      state := INIT;
      trace := [];
    }

    /** One event happens. */
    method Do(e: Event)
      requires Valid()
      modifies this
      ensures Valid() && trace == old(trace) + [e] && state == Step(cfg, old(state), e)
    {
      RunInTwoParts(cfg, INIT, trace, state, [e]);
      assert Run(cfg, Step(cfg, state, e), [e][1..]) == Step(cfg, state, e);
      state := Step(cfg, state, e);
      trace := trace + [e];
    }

    /** What the others do while delivery `tag` awaits: any number of events that are not its own. */
    method Await(tag: nat, ghost slot: nat, ghost copy: Copy, ghost pc: Pc)
      requires Valid() && At(tag, slot, copy, pc)
      modifies this
      ensures Valid() && At(tag, slot, copy, pc) && old(trace) <= trace
    {
      var n: int := *;
      while n > 0
        invariant Valid() && At(tag, slot, copy, pc) && old(trace) <= trace
      {
        var e: Event := *;
        if !(e.Advance? && e.tag == tag) {
          OthersKeepTask(cfg, state, e, tag);
          Do(e);
        }
        n := n - 1;
      }
    }

    /** Await one operation of delivery `tag` that ends as `op` says. */
    method AwaitOp(tag: nat, ghost slot: nat, copy: Copy, ghost pc: Pc, op: Op)
      requires Valid() && At(tag, slot, copy, pc) && Fits(cfg, copy.message, pc, op)
      modifies this
      ensures Valid() && old(trace) <= trace
      ensures tag < |state.tasks|
      ensures At(tag, slot, copy, state.tasks[tag].pc)
      ensures op.Check? || state.tasks[tag].pc == NextPc(cfg, copy, pc, op)
      ensures op.Check? ==>
                state.tasks[tag].pc == (if op.raised then FailurePublish
                                        else if cfg.checks && MarkedProcessed(state, copy.message) then DuplicateAck
                                        else Decoding)
    {
      Await(tag, slot, copy, pc);
      Do(Advance(tag, op));
    }

    /** Where `op` leads, when that does not depend on the database. */
    ghost function NextPc(cfg: Config, copy: Copy, pc: Pc, op: Op): Pc {
      EffectOf(cfg, 0, Slot(copy, Gone), pc, false, op).pc
    }

    /** Returns whether the broker confirmed the event; one that is not confirmed may still be stored. */
    method Publish(id: string, body: Body) returns (confirmed: bool)
      requires Valid()
      modifies this
      ensures Valid()
      ensures
        var copy := Copy(Message(|old(state.slots)|, Some(id), body), 0, NoReason);
        || state == old(state).(slots := old(state).slots + [Slot(copy, Main)])
        || (!confirmed && state == old(state))
    {
      confirmed := *;
      var stored: bool := *;
      Do(Event.Publish(Some(id), body, confirmed || stored));
    }

    method PublishCopy(tag: nat, ghost slot: nat, ghost held: Copy, ghost pc: Pc, copy: Copy, queue: Place)
      returns (raised: bool)
      requires Valid() && At(tag, slot, held, pc)
      requires pc == PoisonPublish || pc == FailurePublish
      requires Slot(copy, queue) ==
               if pc == PoisonPublish then Slot(held.(reason := PoisonMessage), Dlq) else AfterFailure(cfg, held)
      modifies this
      ensures Valid() && old(trace) <= trace
      ensures At(tag, slot, held,
                 if pc == PoisonPublish then if raised then PoisonReject else PoisonAck
                 else if raised then FailureReject else FailureAck)
      ensures !raised ==> |state.slots| > 0 && state.slots[|state.slots| - 1] == Slot(copy, queue)
    {
      raised := *;
      var stored: bool := *;
      Await(tag, slot, held, pc);
      Do(Advance(tag, Republish(raised, stored || !raised)));
    }

    /** `_handle_failure`: retry the message or dead-letter it, and acknowledge it only after that worked. */
    method HandleFailure(tag: nat, ghost slot: nat, message: Copy)
      requires Valid() && At(tag, slot, message, FailurePublish)
      modifies this
      ensures Valid() && old(trace) <= trace && At(tag, slot, message, Ended)
    {
      var nextRetry := message.retries + 1;
      var retryMsg := message.(retries := nextRetry);
      var raised: bool;
      if nextRetry <= cfg.maxRetries {
        raised := PublishCopy(tag, slot, message, FailurePublish, retryMsg, Retry);
      } else {
        raised := PublishCopy(tag, slot, message, FailurePublish, retryMsg.(reason := MaxRetriesExceeded), Dlq);
      }
      if !raised {
        raised := AwaitAck(tag, slot, message, FailureAck);
      }
      if raised {
        var _ := AwaitReject(tag, slot, message, FailureReject);
      }
    }

    /** `_route_to_dlq_explicitly`: returns whether the final rejection raised, which sends the caller to
        its own failure handler. */
    method RouteToDlqExplicitly(tag: nat, ghost slot: nat, message: Copy) returns (raised: bool)
      requires Valid() && At(tag, slot, message, PoisonPublish)
      modifies this
      ensures Valid() && old(trace) <= trace
      ensures At(tag, slot, message, if raised then FailurePublish else Ended)
    {
      raised := PublishCopy(tag, slot, message, PoisonPublish, message.(reason := PoisonMessage), Dlq);
      if !raised {
        raised := AwaitAck(tag, slot, message, PoisonAck);
      }
      if raised {
        raised := AwaitReject(tag, slot, message, PoisonReject);
      }
    }

    method AwaitAck(tag: nat, ghost slot: nat, message: Copy, ghost pc: Pc) returns (raised: bool)
      requires Valid() && At(tag, slot, message, pc)
      requires pc == FinalAck || pc == DuplicateAck || pc == PoisonAck || pc == FailureAck
      modifies this
      ensures Valid() && old(trace) <= trace
      ensures At(tag, slot, message,
                 if !raised then Ended
                 else if pc == PoisonAck then PoisonReject
                 else if pc == FailureAck then FailureReject
                 else FailurePublish)
    {
      raised := *;
      var applied: bool := *;
      AwaitOp(tag, slot, message, pc, Ack(raised, applied));
    }

    method AwaitReject(tag: nat, ghost slot: nat, message: Copy, ghost pc: Pc) returns (raised: bool)
      requires Valid() && At(tag, slot, message, pc)
      requires pc == PoisonReject || pc == FailureReject
      modifies this
      ensures Valid() && old(trace) <= trace
      ensures At(tag, slot, message, if raised && pc == PoisonReject then FailurePublish else Ended)
    {
      raised := *;
      var applied: bool := *;
      AwaitOp(tag, slot, message, pc, Reject(raised, applied));
    }

    /** `process_message`, from the moment the broker delivers `message` to the end of the coroutine.
        When it ends the queues are where a run of the model leads, so no event is lost. */
    method ProcessMessage(tag: nat, ghost slot: nat, message: Copy)
      requires Valid() && At(tag, slot, message, Checking)
      modifies this
      ensures Valid() && old(trace) <= trace && At(tag, slot, message, Ended)
      ensures forall i: nat :: i < |state.slots| ==>
                var m := state.slots[i].copy.message;
                Present(state, m) || HandlerDone(state, m)
                || (MarkedProcessed(state, m) && HandlerDoneForId(state, m.id.value))
    {
      var raised := TryProcess(tag, slot, message);
      if raised {
        HandleFailure(tag, slot, message);
      }
      forall i: nat | i < |state.slots|
        ensures
          var m := state.slots[i].copy.message;
          Present(state, m) || HandlerDone(state, m)
          || (MarkedProcessed(state, m) && HandlerDoneForId(state, m.id.value))
      {
        NoEventIsLost(cfg, trace, i);
      }
    }

    /** The body of the outer `try`; returns whether it raised.  It ends without raising only for a message
        that was handled in this delivery, whose id is marked, or that is malformed. */
    method TryProcess(tag: nat, ghost slot: nat, message: Copy) returns (raised: bool)
      requires Valid() && At(tag, slot, message, Checking)
      modifies this
      ensures Valid() && old(trace) <= trace
      ensures At(tag, slot, message, if raised then FailurePublish else Ended)
      ensures !raised ==>
                || slot in state.handled || MarkedProcessed(state, message.message)
                || message.message.body == MalformedJson
    {
      // Idempotency check: asked only for a message with an id, and only if there is a checker.
      var checkRaised: bool := *;
      raised := HasId(message.message) && cfg.checks && checkRaised;
      AwaitOp(tag, slot, message, Checking, Check(raised));
      if raised {
        return;
      }
      var duplicate := cfg.checks && MarkedProcessed(state, message.message);
      if duplicate {
        AcksOnlyHandled(cfg, trace, tag);
        ghost var before := trace;
        raised := AwaitAck(tag, slot, message, DuplicateAck);
        RecordsGrow(cfg, before, trace);
        return;
      }

      // Decode the payload.
      AwaitOp(tag, slot, message, Decoding, Decode);
      match message.message.body {
        case MalformedJson =>
          raised := RouteToDlqExplicitly(tag, slot, message);
          return;
        case NotUtf8 =>
          raised := true;
          return;
        case Json =>
      }

      raised := HandleAndMark(tag, slot, message);
    }

    /** Run the handler, mark the id as processed and acknowledge. */
    method HandleAndMark(tag: nat, ghost slot: nat, message: Copy) returns (raised: bool)
      requires Valid() && At(tag, slot, message, Handling)
      modifies this
      ensures Valid() && old(trace) <= trace
      ensures At(tag, slot, message, if raised then FailurePublish else Ended)
      ensures !raised ==> slot in state.handled
    {
      raised := *;
      AwaitOp(tag, slot, message, Handling, Handle(raised));
      if raised {
        return;
      }
      if HasId(message.message) && cfg.marks {
        raised := *;
        var applied: bool := *;
        AwaitOp(tag, slot, message, Marking, Mark(raised, applied || !raised));
        if raised {
          return;
        }
      }
      AcksOnlyHandled(cfg, trace, tag);
      ghost var before := trace;
      raised := AwaitAck(tag, slot, message, FinalAck);
      RecordsGrow(cfg, before, trace);
    }
  }
}
