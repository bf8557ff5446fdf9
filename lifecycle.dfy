/** The before / `_handle` / after lifecycle shared by event handlers and
    outbox handlers (src/message_bus/event_handlers/base.py:15-26 and
    src/message_bus/outbox_handlers/base.py:9-20).

    The hooks and `_handle` are overridden by application subclasses, so
    what they do on one call is given as a `Behaviour`: whether the before
    hook raises, what `_handle` returns or raises, whether the after hook
    raises. */
module Lifecycle {
  import opened Messages

  /** What `_handle` (or a plain callable, or a command handler's `handle`) did. */
  datatype BodyResult = Returns(value: Value) | BodyRaises(exc: Exc)

  /** What the overridable parts of a handler do on one call. */
  datatype Behaviour = Behaviour(before: Effect, body: BodyResult, after: Effect)

  /** One handler invocation as the dispatcher sees it: the behaviour, and the
      messages the handler's code passed to `emmit_message` during the call,
      in order, from whichever of the before hook, `_handle` and the after
      hook ran (a hook may emit and then raise; what it emitted stays). */
  datatype Reaction = Reaction(behaviour: Behaviour, emits: seq<Message>)

  /** One observable step of `handle`: which hook or body ran, with which arguments. */
  datatype Call<M> = Before(ctx: Context) | Body(message: M, ctx: Context) | After(ctx: Context)

  /** How a call to `handle` ended: by returning a value or by raising. */
  datatype Status = Completed(value: Value) | Failed(exc: Exc)

  /** The base classes' hooks are `pass`: they return normally and do nothing else. */
  function DefaultHooks(body: BodyResult): (b: Behaviour)
    ensures b.before == Passes && b.after == Passes && b.body == body
    ensures LifecycleStatus(b) == if body.Returns? then Completed(NoneValue) else Failed(body.exc)
  {
    Behaviour(Passes, body, Passes)
  }

  /** How `handle` ends.  It has no `return` statement, so it yields `None`
      whatever `_handle` returns; an exception of the before hook stops
      everything; an exception of `_handle` propagates after the after hook
      has run; an exception of the after hook (in the `finally`) replaces
      any exception of `_handle`. */
  function LifecycleStatus(b: Behaviour): (s: Status)
    ensures s.Completed? ==> s.value == NoneValue
    ensures s.Completed? <==> b.before.Passes? && b.body.Returns? && b.after.Passes?
    ensures b.before.Raises? ==> s == Failed(b.before.exc)
    ensures b.before.Passes? && b.after.Raises? ==> s == Failed(b.after.exc)
    ensures b.before.Passes? && b.after.Passes? && b.body.BodyRaises? ==> s == Failed(b.body.exc)
  {
    if b.before.Raises? then Failed(b.before.exc)
    else if b.after.Raises? then Failed(b.after.exc)
    else if b.body.BodyRaises? then Failed(b.body.exc)
    else Completed(NoneValue)
  }

  /** The calls `handle` makes, in order.  The before hook always runs first;
      if it raises nothing else runs; otherwise `_handle` runs and then the
      after hook, whatever `_handle` did; every call gets the same context. */
  function LifecycleTrace<M(==)>(b: Behaviour, m: M, ctx: Context): (calls: seq<Call<M>>)
    ensures |calls| > 0 && calls[0] == Before(ctx)
    ensures b.before.Raises? ==> |calls| == 1
    ensures b.before.Passes? ==> |calls| == 3 && calls[1] == Body(m, ctx) && calls[2] == After(ctx)
    ensures forall i :: 0 <= i < |calls| ==> calls[i].ctx == ctx
  {
    if b.before.Raises? then [Before(ctx)] else [Before(ctx), Body(m, ctx), After(ctx)]
  }
}
