/** The legacy single-event dispatcher (message_bus.py:21-46): a registry
    from event class to an ordered list of handlers, and a `handle` that
    calls every handler of the event's class and collects what they return.

    Handler code is not part of the core: what the i-th handler call of one
    `handle` call returns or raises is given by an oracle. */
module LegacyBus {
  import opened Messages
  import opened Lifecycle

  /** An event of the legacy API: its class and opaque application fields. */
  datatype Event = Event(cls: ClassName, fields: Fields)

  /** A registered handler: an instance of a `HandlerABC` subclass, or any
      other callable. */
  datatype Handler = HandlerObject(name: string) | Callable(name: string)

  /** How the dispatcher invoked a handler: through its `handle` method, or
      by calling it directly. */
  datatype Invocation = ViaHandle(handler: Handler, event: Event) | DirectCall(handler: Handler, event: Event)

  /** What the i-th handler call of one `handle` call does. */
  type Oracle = nat -> BodyResult

  /** `HandlerABC` instances are called through `.handle`, anything else directly. */
  function Invoke(h: Handler, e: Event): (c: Invocation)
    ensures c.handler == h && c.event == e
    ensures c.ViaHandle? <==> h.HandlerObject?
  {
    if h.HandlerObject? then ViaHandle(h, e) else DirectCall(h, e)
  }

  /** The position of the first of the first `n` handler calls that raises,
      or `n` when all of them return. */
  function FirstRaise(oracle: Oracle, n: nat): (f: nat)
    ensures f <= n
    ensures forall i :: 0 <= i < f ==> oracle(i).Returns?
    ensures f < n ==> oracle(f).BodyRaises?
  {
    if n == 0 then 0
    else
      var g := FirstRaise(oracle, n - 1);
      if g < n - 1 then g
      else if oracle(n - 1).BodyRaises? then n - 1
      else n
  }

  /** What `handle` reports once the handlers `hs` of the event's class
      have been looked up: calls to the handlers in order up to and
      including the first that raises; that handler's exception, or the
      value of every call in registration order when none raises. */
  ghost predicate Dispatched(hs: seq<Handler>, event: Event, oracle: Oracle, r: Result<seq<Value>>, calls: seq<Invocation>)
  {
    var f := FirstRaise(oracle, |hs|);
    && |calls| == (if f < |hs| then f + 1 else |hs|)
    && (forall i :: 0 <= i < |calls| ==> calls[i] == Invoke(hs[i], event))
    && (r.Success? <==> f == |hs|)
    && (f < |hs| ==> r == Failure(HandlerError(oracle(f).exc)))
    && (r.Success? ==> |r.value| == |hs| && forall i :: 0 <= i < |hs| ==> r.value[i] == oracle(i).value)
  }

  class MessageBus {
    var handlers: map<ClassName, seq<Handler>>

    /** A missing or empty mapping gives an empty registry. */
    constructor (handlers: Option<map<ClassName, seq<Handler>>>)
      ensures handlers.Some? && handlers.value != map[] ==> this.handlers == handlers.value
      ensures handlers.None? || handlers.value == map[] ==> this.handlers == map[]
    {
      if handlers.Some? && handlers.value != map[] {
        this.handlers := handlers.value;
      } else {
        this.handlers := map[];
      }
    }

    /** Replaces the handler list of one event class; the others stay. */
    method SetHandlers(cls: ClassName, hs: seq<Handler>)
      modifies this
      ensures cls in handlers && handlers[cls] == hs
      ensures forall c :: c in old(handlers) && c != cls ==> c in handlers && handlers[c] == old(handlers)[c]
      ensures forall c :: c in handlers ==> c == cls || c in old(handlers)
    {
      handlers := handlers[cls := hs];
    }

    /** The queue starts with the input event and nothing is ever added to
        it, so exactly that one event is dispatched.  An unregistered class
        is the lookup's `KeyError`, before any handler runs; a handler's
        exception ends `handle` and the handlers after it do not run. */
    method Handle(event: Event, oracle: Oracle) returns (r: Result<seq<Value>>, calls: seq<Invocation>)
      ensures event.cls !in handlers ==> r == Failure(KeyError(event.cls)) && calls == []
      ensures event.cls in handlers ==> Dispatched(handlers[event.cls], event, oracle, r, calls)
      ensures forall i :: 0 <= i < |calls| ==> calls[i].event == event
    {
      var results: seq<Value> := [];
      var queue := [event];
      calls := [];
      while queue != []
        invariant |queue| <= 1
        invariant queue != [] ==> queue == [event] && results == [] && calls == []
        invariant queue == [] ==> event.cls in handlers && Dispatched(handlers[event.cls], event, oracle, Success(results), calls)
        decreases |queue|
      {
        var e := queue[0];
        queue := queue[1..];
        if e.cls !in handlers {
          return Failure(KeyError(e.cls)), calls;
        }
        var hs := handlers[e.cls];
        for i := 0 to |hs|
          invariant |results| == i && |calls| == i
          invariant forall j :: 0 <= j < i ==> oracle(j).Returns? && results[j] == oracle(j).value
          invariant forall j :: 0 <= j < i ==> calls[j] == Invoke(hs[j], e)
        {
          calls := calls + [Invoke(hs[i], e)];
          var result := oracle(i);
          if result.BodyRaises? {
            assert FirstRaise(oracle, |hs|) == i;
            return Failure(HandlerError(result.exc)), calls;
          }
          results := results + [result.value];
        }
        assert FirstRaise(oracle, |hs|) == |hs|;
      }
      r := Success(results);
    }
  }
}
