/** `OutboxHandlerABC` (src/message_bus/outbox_handlers/base.py:4-20): a
    stateless handler of outbox records whose `handle` is the before /
    `_handle` / after lifecycle. */
module OutboxHandlers {
  import opened Messages
  import opened Lifecycle
  import opened OutboxRepository

  datatype OutboxHandler = OutboxHandler(name: string)
  {
    /** `handle`: the before hook, then `_handle` inside `try`, then the after
        hook in `finally`; `b` is what the subclass's overrides do.  An
        exception propagates to the caller, which is what stops the sweep's
        loop over handlers for this record. */
    method Handle(record: Record, context: Context, b: Behaviour) returns (status: Status, calls: seq<Call<Record>>)
      ensures status == LifecycleStatus(b)
      ensures calls == LifecycleTrace(b, record, context)
    {
      calls := [Before(context)];
      if b.before.Raises? {
        status := Failed(b.before.exc);
        return;
      }
      calls := calls + [Body(record, context)];
      // finally: the after hook runs whether or not `_handle` raised
      calls := calls + [After(context)];
      if b.after.Raises? {
        status := Failed(b.after.exc);
      } else if b.body.BodyRaises? {
        status := Failed(b.body.exc);
      } else {
        status := Completed(NoneValue);
      }
    }
  }
}
