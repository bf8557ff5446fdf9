/** `EventHandlerABC` (src/message_bus/event_handlers/base.py:7-33): an event
    handler object with an append-only emission buffer and the lifecycle
    `handle`. */
module EventHandlers {
  import opened Messages
  import opened Lifecycle

  class EventHandler {
    /** `_emitted_messages`: every message this instance has emitted, oldest first. */
    var emitted: seq<Message>

    constructor ()
      ensures emitted == []
    {
      emitted := [];
    }

    /** `emmit_message`: appends to the tail; earlier entries are unchanged. */
    method EmitMessage(m: Message)
      modifies this
      ensures emitted == old(emitted) + [m]
    {
      emitted := emitted + [m];
    }

    /** `emitted_messages`: the buffer itself, neither copied nor cleared. */
    function EmittedMessages(): seq<Message>
      reads this
    {
      emitted
    }

    /** `handle`: the before hook, then `_handle` inside `try`, then the after
        hook in `finally`.  The subclass's overrides that run call
        `emmit_message` once for each of `r.emits`; nothing is ever removed,
        whichever of them raises. */
    method Handle(event: Message, context: Context, r: Reaction) returns (status: Status, calls: seq<Call<Message>>)
      modifies this
      ensures status == LifecycleStatus(r.behaviour)
      ensures calls == LifecycleTrace(r.behaviour, event, context)
      ensures emitted == old(emitted) + r.emits
    {
      calls := [Before(context)];
      emitted := emitted + r.emits;
      if r.behaviour.before.Raises? {
        status := Failed(r.behaviour.before.exc);
        return;
      }
      calls := calls + [Body(event, context)];
      var body := r.behaviour.body;
      // finally: the after hook runs whether or not `_handle` raised
      calls := calls + [After(context)];
      if r.behaviour.after.Raises? {
        status := Failed(r.behaviour.after.exc);
      } else if body.BodyRaises? {
        status := Failed(body.exc);
      } else {
        status := Completed(NoneValue);
      }
    }
  }
}
