/** `CommandHandlerABC` (src/message_bus/command_handlers/base.py:7-20): a
    command handler object with an append-only emission buffer.  Its
    `handle` is written entirely by the subclass: there is no lifecycle
    around it. */
module CommandHandlers {
  import opened Messages
  import opened Lifecycle

  /** How a `handle` with no lifecycle wrapper ends: exactly as the code in it does. */
  function BodyStatus(body: BodyResult): (s: Status)
    ensures s.Completed? <==> body.Returns?
    ensures s.Completed? ==> s.value == body.value
    ensures s.Failed? ==> s.exc == body.exc
  {
    match body
    case Returns(v) => Completed(v)
    case BodyRaises(e) => Failed(e)
  }

  class CommandHandler {
    /** `_emitted_messages`: every message this instance has emitted, oldest first. */
    var emitted: seq<Message>

    constructor ()
      ensures emitted == []
    {
      emitted := [];
    }

    /** `emmit_message`: appends to the tail and changes nothing else. */
    method EmitMessage(m: Message)
      modifies this
      ensures emitted == old(emitted) + [m]
    {
      emitted := emitted + [m];
    }

    /** `emitted_messages`: the buffer itself, neither copied nor cleared. */
    function EmittedMessages(): seq<Message>
      reads this
    {
      emitted
    }

    /** The subclass's own `handle`: it calls `emmit_message` once for each of
        `r.emits` and then returns or raises.  The hooks of `r` play no part:
        the base class has no before/after lifecycle. */
    method Handle(command: Message, context: Context, r: Reaction) returns (status: Status)
      modifies this
      ensures status == BodyStatus(r.behaviour.body)
      ensures emitted == old(emitted) + r.emits
    {
      emitted := emitted + r.emits;
      status := BodyStatus(r.behaviour.body);
    }
  }
}
