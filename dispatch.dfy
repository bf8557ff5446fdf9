/** The cascade that `MessageBus.handle` runs (src/message_bus/core.py:169-244)
    and the sequential `batch_handle` (src/message_bus/core.py:70-72), as
    functions over an explicit state: the emission buffers of the handler
    objects, and a counter of handler invocations that indexes the oracle
    giving what each invocation's (unseen) handler code does. */
module Dispatch {
  import opened Messages
  import opened Lifecycle
  import opened EventHandlers
  import opened CommandHandlers

  /** A registered handler: an instance of a handler base class, called through
      its `handle` and drained through its buffer, or any other callable,
      called directly and with no buffer. */
  datatype Subscriber<H> = WithBuffer(handler: H) | Callable(name: string)

  /** The two registries: event class to ordered handler list, command class to one handler. */
  datatype Registry = Registry(
    events: map<ClassName, seq<Subscriber<EventHandler>>>,
    commands: map<ClassName, Subscriber<CommandHandler>>)

  /** The dictionaries `{"event", "result"}` and `{"command", "result"}` of the result list. */
  datatype Entry = EventEntry(event: Message, result: Value) | CommandEntry(command: Message, result: Value)

  /** The emission buffer of every handler object. */
  datatype Buffers = Buffers(events: map<EventHandler, seq<Message>>, commands: map<CommandHandler, seq<Message>>)

  /** What the handler code of the k-th handler invocation of one `handle` call does. */
  type Oracle = nat -> Reaction

  function BufferOf<H(==)>(m: map<H, seq<Message>>, h: H): seq<Message>
  {
    if h in m then m[h] else []
  }

  /** The handler objects a registry holds, and the requirement that their heap
      buffers are the ones an abstract state records. */
  ghost function EventObjects(reg: Registry): set<EventHandler>
  {
    set cls, s | cls in reg.events && s in reg.events[cls] && s.WithBuffer? :: s.handler
  }

  ghost function CommandObjects(reg: Registry): set<CommandHandler>
  {
    set cls | cls in reg.commands && reg.commands[cls].WithBuffer? :: reg.commands[cls].handler
  }

  ghost predicate EventsMirror(objs: set<EventHandler>, m: map<EventHandler, seq<Message>>)
    reads objs
  {
    forall h :: h in objs ==> h.emitted == BufferOf(m, h)
  }

  ghost predicate CommandsMirror(objs: set<CommandHandler>, m: map<CommandHandler, seq<Message>>)
    reads objs
  {
    forall h :: h in objs ==> h.emitted == BufferOf(m, h)
  }

  ghost predicate Mirrors(reg: Registry, bufs: Buffers)
    reads EventObjects(reg), CommandObjects(reg)
  {
    EventsMirror(EventObjects(reg), bufs.events) && CommandsMirror(CommandObjects(reg), bufs.commands)
  }

  /** How one invocation of an event handler ends.  It depends on the handler
      kind and on the handler's code only, never on the buffers. */
  function EventStatus(s: Subscriber<EventHandler>, r: Reaction): Status
  {
    if s.WithBuffer? then LifecycleStatus(r.behaviour) else BodyStatus(r.behaviour.body)
  }

  /** One invocation of a handler: how it ended, what it added to the queue,
      and the buffers afterwards. */
  datatype Invocation = Invocation(status: Status, enqueued: seq<Message>, bufs: Buffers)

  /** One event handler on one event (core.py:204-217).  A handler object is
      called through its lifecycle `handle`; when that returns, the WHOLE
      buffer of the object is appended to the queue, including what earlier
      invocations emitted, because nothing clears it.  A callable enqueues
      nothing. */
  function InvokeEventHandler(s: Subscriber<EventHandler>, event: Message, bufs: Buffers, r: Reaction): (inv: Invocation)
    ensures inv.status == EventStatus(s, r)
    ensures inv.status.Failed? ==> inv.enqueued == []
    ensures s.Callable? ==> inv.enqueued == [] && inv.bufs == bufs
    ensures s.WithBuffer? ==>
      && inv.bufs == bufs.(events := bufs.events[s.handler := BufferOf(bufs.events, s.handler) + r.emits])
      && (inv.status.Completed? ==> inv.enqueued == BufferOf(inv.bufs.events, s.handler))
  {
    match s
    case Callable(_) => Invocation(BodyStatus(r.behaviour.body), [], bufs)
    case WithBuffer(h) =>
      var buffer := BufferOf(bufs.events, h) + r.emits;
      var status := LifecycleStatus(r.behaviour);
      Invocation(status, if status.Completed? then buffer else [], bufs.(events := bufs.events[h := buffer]))
  }

  /** What processing some messages yields: the result entries, the messages
      appended to the queue, the new buffers and the next oracle index; or the
      error that aborts `handle`. */
  datatype Step =
    | Continue(entries: seq<Entry>, enqueued: seq<Message>, bufs: Buffers, next: nat)
    | Abort(error: Error, bufs: Buffers, next: nat)

  /** Number of handlers in `subs` whose invocation (the i-th at oracle index k + i) returns. */
  function CountCompleted(subs: seq<Subscriber<EventHandler>>, k: nat, oracle: Oracle): (n: nat)
    ensures n <= |subs|
    ensures n == |subs| <==> forall i :: 0 <= i < |subs| ==> EventStatus(subs[i], oracle(k + i)).Completed?
    decreases |subs|
  {
    if subs == [] then 0
    else
      assert forall i :: 1 <= i < |subs| ==> subs[1..][i - 1] == subs[i] && k + 1 + (i - 1) == k + i;
      (if EventStatus(subs[0], oracle(k)).Completed? then 1 else 0) + CountCompleted(subs[1..], k + 1, oracle)
  }

  /** The fan-out loop of `_handle_event` (core.py:201-219): every handler runs,
      in registration order, each at the next oracle index; the buffers of the
      command handlers play no part. */
  function FanOut(subs: seq<Subscriber<EventHandler>>, event: Message, bufs: Buffers, k: nat, oracle: Oracle): (st: Step)
    ensures st.Continue? && st.next == k + |subs|
    ensures st.bufs.commands == bufs.commands
    decreases |subs|
  {
    if subs == [] then Continue([], [], bufs, k)
    else
      var inv := InvokeEventHandler(subs[0], event, bufs, oracle(k));
      var rest := FanOut(subs[1..], event, inv.bufs, k + 1, oracle);
      var entry := if inv.status.Completed? then [EventEntry(event, inv.status.value)] else [];
      Continue(entry + rest.entries, inv.enqueued + rest.enqueued, rest.bufs, rest.next)
  }

  /** A handler that raises is skipped: it contributes no entry, and the
      handlers after it still run; so there is one entry per handler that
      returned, and each pairs the event with a result. */
  lemma {:induction false} FanOutCount(subs: seq<Subscriber<EventHandler>>, event: Message, bufs: Buffers, k: nat, oracle: Oracle)
    ensures var st := FanOut(subs, event, bufs, k, oracle);
      && |st.entries| == CountCompleted(subs, k, oracle)
      && (forall e :: e in st.entries ==> e.EventEntry? && e.event == event)
    decreases |subs|
  {
    if subs != [] {
      FanOutCons(subs, event, bufs, k, oracle);
      var inv := InvokeEventHandler(subs[0], event, bufs, oracle(k));
      FanOutCount(subs[1..], event, inv.bufs, k + 1, oracle);
    }
  }

  /** Callables have no buffer: a handler list of callables only enqueues
      nothing and leaves every buffer as it was. */
  lemma {:induction false} FanOutCallablesOnly(subs: seq<Subscriber<EventHandler>>, event: Message, bufs: Buffers, k: nat, oracle: Oracle)
    requires forall i :: 0 <= i < |subs| ==> subs[i].Callable?
    ensures FanOut(subs, event, bufs, k, oracle).enqueued == []
    ensures FanOut(subs, event, bufs, k, oracle).bufs == bufs
    decreases |subs|
  {
    if subs != [] {
      FanOutCons(subs, event, bufs, k, oracle);
      assert forall i :: 1 <= i < |subs| ==> subs[1..][i - 1] == subs[i];
      FanOutCallablesOnly(subs[1..], event, bufs, k + 1, oracle);
    }
  }

  /** When every handler returns, the i-th entry is the i-th handler's result:
      registration order is kept. */
  lemma {:induction false} FanOutInOrder(subs: seq<Subscriber<EventHandler>>, event: Message, bufs: Buffers, k: nat, oracle: Oracle)
    requires forall i :: 0 <= i < |subs| ==> EventStatus(subs[i], oracle(k + i)).Completed?
    ensures var st := FanOut(subs, event, bufs, k, oracle);
      && |st.entries| == |subs|
      && forall i :: 0 <= i < |subs| ==> st.entries[i] == EventEntry(event, EventStatus(subs[i], oracle(k + i)).value)
    decreases |subs|
  {
    if subs != [] {
      var inv := InvokeEventHandler(subs[0], event, bufs, oracle(k));
      var rest := FanOut(subs[1..], event, inv.bufs, k + 1, oracle);
      CompletedShift(subs, k, oracle);
      FanOutInOrder(subs[1..], event, inv.bufs, k + 1, oracle);
      assert EventStatus(subs[0], oracle(k + 0)).Completed?;
      FanOutReturned(subs, event, bufs, k, oracle);
      EntriesShift(subs, event, k, oracle, rest.entries);
    }
  }

  lemma CompletedShift(subs: seq<Subscriber<EventHandler>>, k: nat, oracle: Oracle)
    requires subs != []
    requires forall i :: 0 <= i < |subs| ==> EventStatus(subs[i], oracle(k + i)).Completed?
    ensures forall i :: 0 <= i < |subs[1..]| ==> EventStatus(subs[1..][i], oracle(k + 1 + i)).Completed?
  {
    forall i | 0 <= i < |subs[1..]|
      ensures EventStatus(subs[1..][i], oracle(k + 1 + i)).Completed?
    {
      assert subs[1..][i] == subs[i + 1] && k + 1 + i == k + (i + 1);
    }
  }

  lemma EntriesShift(subs: seq<Subscriber<EventHandler>>, event: Message, k: nat, oracle: Oracle, rest: seq<Entry>)
    requires subs != [] && |rest| == |subs| - 1
    requires forall i :: 0 <= i < |subs| ==> EventStatus(subs[i], oracle(k + i)).Completed?
    requires forall i :: 0 <= i < |subs[1..]| ==> EventStatus(subs[1..][i], oracle(k + 1 + i)).Completed?
    requires forall i :: 0 <= i < |subs[1..]| ==> rest[i] == EventEntry(event, EventStatus(subs[1..][i], oracle(k + 1 + i)).value)
    ensures var entries := [EventEntry(event, EventStatus(subs[0], oracle(k)).value)] + rest;
            forall i :: 0 <= i < |subs| ==> entries[i] == EventEntry(event, EventStatus(subs[i], oracle(k + i)).value)
  {
    var entries := [EventEntry(event, EventStatus(subs[0], oracle(k)).value)] + rest;
    forall i | 0 <= i < |subs|
      ensures entries[i] == EventEntry(event, EventStatus(subs[i], oracle(k + i)).value)
    {
      if i > 0 {
        assert subs[1..][i - 1] == subs[i] && k + 1 + (i - 1) == k + i;
      } else {
        assert k + 0 == k;
      }
    }
  }

  lemma FanOutReturned(subs: seq<Subscriber<EventHandler>>, event: Message, bufs: Buffers, k: nat, oracle: Oracle)
    requires subs != [] && EventStatus(subs[0], oracle(k)).Completed?
    ensures var inv := InvokeEventHandler(subs[0], event, bufs, oracle(k));
            FanOut(subs, event, bufs, k, oracle).entries
            == [EventEntry(event, inv.status.value)] + FanOut(subs[1..], event, inv.bufs, k + 1, oracle).entries
  {
    FanOutCons(subs, event, bufs, k, oracle);
  }

  lemma FanOutCons(subs: seq<Subscriber<EventHandler>>, event: Message, bufs: Buffers, k: nat, oracle: Oracle)
    requires subs != []
    ensures var inv := InvokeEventHandler(subs[0], event, bufs, oracle(k));
            var rest := FanOut(subs[1..], event, inv.bufs, k + 1, oracle);
            var entry := if inv.status.Completed? then [EventEntry(event, inv.status.value)] else [];
            FanOut(subs, event, bufs, k, oracle) == Continue(entry + rest.entries, inv.enqueued + rest.enqueued, rest.bufs, rest.next)
  {
  }

  /** The result entries of a fan-out, read off the handlers' outcomes alone:
      for each handler in registration order that returns, its result, and
      nothing for one that raises. */
  function Survivors(subs: seq<Subscriber<EventHandler>>, event: Message, k: nat, oracle: Oracle): seq<Entry>
    decreases |subs|
  {
    if subs == [] then []
    else
      var status := EventStatus(subs[0], oracle(k));
      (if status.Completed? then [EventEntry(event, status.value)] else []) + Survivors(subs[1..], event, k + 1, oracle)
  }

  /** A raising handler is isolated: the handlers that return keep their
      results, in registration order, whatever their siblings did, and the
      results never depend on what is in the buffers. */
  lemma {:induction false} FanOutSurvivors(subs: seq<Subscriber<EventHandler>>, event: Message, bufs: Buffers, k: nat, oracle: Oracle)
    ensures FanOut(subs, event, bufs, k, oracle).entries == Survivors(subs, event, k, oracle)
    decreases |subs|
  {
    if subs != [] {
      FanOutCons(subs, event, bufs, k, oracle);
      var inv := InvokeEventHandler(subs[0], event, bufs, oracle(k));
      FanOutSurvivors(subs[1..], event, inv.bufs, k + 1, oracle);
    }
  }

  /** `_handle_event` (core.py:187-219): an event class with no handlers yields
      no entries and is not an error. */
  function EventStep(reg: Registry, event: Message, bufs: Buffers, k: nat, oracle: Oracle): (st: Step)
    ensures st.Continue?
    ensures event.cls !in reg.events ==> st == Continue([], [], bufs, k)
  {
    if event.cls in reg.events then FanOut(reg.events[event.cls], event, bufs, k, oracle)
    else Continue([], [], bufs, k)
  }

  /** The single handler of a command (core.py:229-244).  Whatever it raises
      aborts `handle`; when it returns, one `{"command", "result"}` entry is
      produced and, for a handler object, its whole buffer is enqueued. */
  function InvokeCommandHandler(s: Subscriber<CommandHandler>, command: Message, bufs: Buffers, k: nat, oracle: Oracle): (st: Step)
    ensures st.next == k + 1
    ensures st.Continue? <==> oracle(k).behaviour.body.Returns?
    ensures st.Continue? ==> st.entries == [CommandEntry(command, oracle(k).behaviour.body.value)]
    ensures st.Abort? ==> st.error == HandlerError(oracle(k).behaviour.body.exc)
    ensures s.Callable? ==> st.bufs == bufs && (st.Continue? ==> st.enqueued == [])
    ensures s.WithBuffer? ==>
      && st.bufs == bufs.(commands := bufs.commands[s.handler := BufferOf(bufs.commands, s.handler) + oracle(k).emits])
      && (st.Continue? ==> st.enqueued == BufferOf(st.bufs.commands, s.handler))
  {
    var r := oracle(k);
    var status := BodyStatus(r.behaviour.body);
    match s
    case Callable(_) =>
      if status.Completed? then Continue([CommandEntry(command, status.value)], [], bufs, k + 1)
      else Abort(HandlerError(status.exc), bufs, k + 1)
    case WithBuffer(h) =>
      var buffer := BufferOf(bufs.commands, h) + r.emits;
      var after := bufs.(commands := bufs.commands[h := buffer]);
      if status.Completed? then Continue([CommandEntry(command, status.value)], buffer, after, k + 1)
      else Abort(HandlerError(status.exc), after, k + 1)
  }

  /** `_handle_command`: a command class with no handler raises `KeyError`. */
  function CommandStep(reg: Registry, command: Message, bufs: Buffers, k: nat, oracle: Oracle): (st: Step)
    ensures command.cls !in reg.commands ==> st == Abort(KeyError(command.cls), bufs, k)
    ensures st.Continue? ==> |st.entries| == 1 && st.entries[0].CommandEntry? && st.entries[0].command == command
  {
    if command.cls in reg.commands then InvokeCommandHandler(reg.commands[command.cls], command, bufs, k, oracle)
    else Abort(KeyError(command.cls), bufs, k)
  }

  /** One popped message (core.py:176-183): the Event test comes first; a
      message that is neither an Event nor a Command aborts `handle`. */
  function Process(reg: Registry, m: Message, bufs: Buffers, k: nat, oracle: Oracle): (st: Step)
    ensures k <= st.next
    ensures m.isEvent ==> st.Continue?
    ensures !m.isEvent && !m.isCommand ==> st == Abort(NotEventOrCommand(m), bufs, k)
  {
    if m.isEvent then EventStep(reg, m, bufs, k, oracle)
    else if m.isCommand then CommandStep(reg, m, bufs, k, oracle)
    else Abort(NotEventOrCommand(m), bufs, k)
  }

  /** How `handle` ends: with its result list, by raising, or (only in the
      model) with the step bound used up while messages are still queued. */
  datatype HandleOutcome = Returned(results: seq<Entry>) | Raised(error: Error) | OutOfFuel

  datatype Run = Run(outcome: HandleOutcome, bufs: Buffers, next: nat)

  /** Results produced before the rest of a run; kept only if the run returns. */
  function Prepend(es: seq<Entry>, run: Run): Run
  {
    if run.outcome.Returned? then run.(outcome := Returned(es + run.outcome.results)) else run
  }

  /** The `while queue` loop of `handle`: pop the front, process it, append
      what it enqueued to the tail.  `fuel` bounds the number of pops.  The
      invocation counter only advances, and the bound can only run out while
      messages are still queued. */
  function Drain(reg: Registry, queue: seq<Message>, bufs: Buffers, k: nat, oracle: Oracle, fuel: nat): (run: Run)
    ensures k <= run.next
    ensures run.outcome.OutOfFuel? ==> queue != []
    decreases fuel
  {
    if queue == [] then Run(Returned([]), bufs, k)
    else if fuel == 0 then Run(OutOfFuel, bufs, k)
    else
      match Process(reg, queue[0], bufs, k, oracle)
      case Abort(e, b, next) => Run(Raised(e), b, next)
      case Continue(es, more, b, next) => Prepend(es, Drain(reg, queue[1..] + more, b, next, oracle, fuel - 1))
  }

  /** The messages of `p` processed one after another, without processing what
      they enqueue: a reference for one "generation" of a breadth-first cascade. */
  function ProcessAll(reg: Registry, p: seq<Message>, bufs: Buffers, k: nat, oracle: Oracle): Step
    decreases |p|
  {
    if p == [] then Continue([], [], bufs, k)
    else
      match Process(reg, p[0], bufs, k, oracle)
      case Abort(e, b, next) => Abort(e, b, next)
      case Continue(es, more, b, next) =>
        match ProcessAll(reg, p[1..], b, next, oracle)
        case Abort(e, b2, next2) => Abort(e, b2, next2)
        case Continue(es2, more2, b2, next2) => Continue(es + es2, more + more2, b2, next2)
  }

  /** What `handle` does once some messages have been processed: raise their
      error, or carry on with the queue `s` followed by what they enqueued. */
  function Resume(reg: Registry, st: Step, s: seq<Message>, oracle: Oracle, fuel: nat): Run
  {
    match st
    case Abort(e, b, next) => Run(Raised(e), b, next)
    case Continue(es, more, b, next) => Prepend(es, Drain(reg, s + more, b, next, oracle, fuel))
  }

  lemma DrainHead(reg: Registry, queue: seq<Message>, bufs: Buffers, k: nat, oracle: Oracle, fuel: nat)
    requires queue != [] && 0 < fuel
    ensures Drain(reg, queue, bufs, k, oracle, fuel) == Resume(reg, Process(reg, queue[0], bufs, k, oracle), queue[1..], oracle, fuel - 1)
  {
  }

  lemma PrependTwice(es1: seq<Entry>, es2: seq<Entry>, run: Run)
    ensures Prepend(es1, Prepend(es2, run)) == Prepend(es1 + es2, run)
  {
    if run.outcome.Returned? {
      Associative(es1, es2, run.outcome.results);
    }
  }

  /** Appends the entries and enqueued messages of `a` in front of those of `b`. */
  function Chain(a: Step, b: Step): Step
    requires a.Continue?
  {
    if b.Abort? then b else Continue(a.entries + b.entries, a.enqueued + b.enqueued, b.bufs, b.next)
  }

  lemma ProcessAllCons(reg: Registry, p: seq<Message>, bufs: Buffers, k: nat, oracle: Oracle)
    requires p != []
    ensures var head := Process(reg, p[0], bufs, k, oracle);
            ProcessAll(reg, p, bufs, k, oracle) ==
              if head.Abort? then head else Chain(head, ProcessAll(reg, p[1..], head.bufs, head.next, oracle))
  {
  }

  /** Resuming after one message and then after more is resuming after both. */
  lemma {:induction false} ResumeChain(reg: Registry, head: Step, tail: Step, s: seq<Message>, oracle: Oracle, fuel: nat)
    requires head.Continue? && tail.Continue?
    ensures Prepend(head.entries, Resume(reg, tail, s + head.enqueued, oracle, fuel)) == Resume(reg, Chain(head, tail), s, oracle, fuel)
  {
    Associative(s, head.enqueued, tail.enqueued);
    PrependTwice(head.entries, tail.entries, Drain(reg, s + (head.enqueued + tail.enqueued), tail.bufs, tail.next, oracle, fuel));
  }

  /** The inductive step of BreadthFirst, given the claim for the rest of `p`. */
  lemma DrainConcatHead(reg: Registry, p: seq<Message>, s: seq<Message>, bufs: Buffers, k: nat, oracle: Oracle, fuel: nat)
    requires p != [] && 0 < fuel
    ensures Drain(reg, p + s, bufs, k, oracle, fuel) == Resume(reg, Process(reg, p[0], bufs, k, oracle), p[1..] + s, oracle, fuel - 1)
  {
    assert (p + s)[0] == p[0] && (p + s)[1..] == p[1..] + s;
    DrainHead(reg, p + s, bufs, k, oracle, fuel);
  }

  lemma ResumeAfterHead(reg: Registry, head: Step, tail: Step, rest: seq<Message>, s: seq<Message>, oracle: Oracle, restFuel: nat, fuel: nat)
    requires head.Continue?
    requires Drain(reg, rest + (s + head.enqueued), head.bufs, head.next, oracle, restFuel) == Resume(reg, tail, s + head.enqueued, oracle, fuel)
    ensures Resume(reg, head, rest + s, oracle, restFuel) == Resume(reg, if tail.Abort? then tail else Chain(head, tail), s, oracle, fuel)
  {
    Associative(rest, s, head.enqueued);
    if tail.Continue? {
      ResumeChain(reg, head, tail, s, oracle, fuel);
    }
  }

  lemma BreadthFirstStep(reg: Registry, p: seq<Message>, s: seq<Message>, bufs: Buffers, k: nat, oracle: Oracle, fuel: nat)
    requires p != [] && |p| <= fuel
    requires var head := Process(reg, p[0], bufs, k, oracle);
      head.Continue? ==>
        Drain(reg, p[1..] + (s + head.enqueued), head.bufs, head.next, oracle, fuel - 1)
        == Resume(reg, ProcessAll(reg, p[1..], head.bufs, head.next, oracle), s + head.enqueued, oracle, fuel - |p|)
    ensures Drain(reg, p + s, bufs, k, oracle, fuel) == Resume(reg, ProcessAll(reg, p, bufs, k, oracle), s, oracle, fuel - |p|)
  {
    var head := Process(reg, p[0], bufs, k, oracle);
    DrainConcatHead(reg, p, s, bufs, k, oracle, fuel);
    ProcessAllCons(reg, p, bufs, k, oracle);
    if head.Continue? {
      ResumeAfterHead(reg, head, ProcessAll(reg, p[1..], head.bufs, head.next, oracle), p[1..], s, oracle, fuel - 1, fuel - |p|);
    }
  }

  /** Strict FIFO, hence breadth-first: whatever the messages already queued
      (`p`) enqueue goes behind everything queued after them (`s`), and their
      entries come first in the result.  If one of them aborts, `handle` raises
      that error and returns no result at all. */
  lemma {:induction false} BreadthFirst(reg: Registry, p: seq<Message>, s: seq<Message>, bufs: Buffers, k: nat, oracle: Oracle, fuel: nat)
    requires |p| <= fuel
    ensures Drain(reg, p + s, bufs, k, oracle, fuel) == Resume(reg, ProcessAll(reg, p, bufs, k, oracle), s, oracle, fuel - |p|)
    decreases |p|
  {
    if p == [] {
      assert p + s == s && s + [] == s;
      PrependTwice([], [], Drain(reg, s, bufs, k, oracle, fuel));
    } else {
      var head := Process(reg, p[0], bufs, k, oracle);
      if head.Continue? {
        BreadthFirst(reg, p[1..], s + head.enqueued, head.bufs, head.next, oracle, fuel - 1);
      }
      BreadthFirstStep(reg, p, s, bufs, k, oracle, fuel);
    }
  }

  /** A message that aborts (an unregistered or failing command, or neither an
      Event nor a Command) makes `handle` raise, whatever was processed before
      it and whatever is queued behind it: no result list is returned. */
  lemma AbortDiscardsResults(reg: Registry, p: seq<Message>, m: Message, s: seq<Message>, bufs: Buffers, k: nat, oracle: Oracle, fuel: nat)
    requires |p| < fuel
    requires ProcessAll(reg, p, bufs, k, oracle).Continue?
    requires Process(reg, m, ProcessAll(reg, p, bufs, k, oracle).bufs, ProcessAll(reg, p, bufs, k, oracle).next, oracle).Abort?
    ensures Drain(reg, p + [m] + s, bufs, k, oracle, fuel).outcome
         == Raised(Process(reg, m, ProcessAll(reg, p, bufs, k, oracle).bufs, ProcessAll(reg, p, bufs, k, oracle).next, oracle).error)
  {
    var first := ProcessAll(reg, p, bufs, k, oracle);
    Associative(p, [m], s);
    BreadthFirst(reg, p, [m] + s, bufs, k, oracle, fuel);
    assert ([m] + s + first.enqueued)[0] == m;
    DrainHead(reg, [m] + s + first.enqueued, first.bufs, first.next, oracle, fuel - |p|);
  }

  /** An event class without handlers is skipped: `handle` goes on with the
      rest of the queue exactly as if the event had not been there. */
  lemma UnregisteredEventSkipped(reg: Registry, m: Message, s: seq<Message>, bufs: Buffers, k: nat, oracle: Oracle, fuel: nat)
    requires m.isEvent && m.cls !in reg.events && 0 < fuel
    ensures Drain(reg, [m] + s, bufs, k, oracle, fuel) == Drain(reg, s, bufs, k, oracle, fuel - 1)
  {
    assert ([m] + s)[1..] + [] == s;
    var run := Drain(reg, s, bufs, k, oracle, fuel - 1);
    if run.outcome.Returned? {
      assert [] + run.outcome.results == run.outcome.results;
    }
  }

  /** The step bound only truncates: a run that finishes within some bound
      finishes identically with any larger one. */
  lemma {:induction false} FuelMonotone(reg: Registry, queue: seq<Message>, bufs: Buffers, k: nat, oracle: Oracle, fuel: nat, more: nat)
    requires !Drain(reg, queue, bufs, k, oracle, fuel).outcome.OutOfFuel?
    requires fuel <= more
    ensures Drain(reg, queue, bufs, k, oracle, more) == Drain(reg, queue, bufs, k, oracle, fuel)
    decreases fuel
  {
    if queue != [] {
      match Process(reg, queue[0], bufs, k, oracle)
      case Abort(e, b, next) =>
      case Continue(es, enq, b, next) =>
        FuelMonotone(reg, queue[1..] + enq, b, next, oracle, fuel - 1, more - 1);
    }
  }

  /** Because no buffer is ever cleared, a handler object that is invoked twice
      enqueues, on the second successful invocation, everything it emitted on
      the first as well, even if the first invocation raised after emitting
      (in its before hook, in `_handle` or in its after hook). */
  lemma PastEmissionsReenqueued(h: EventHandler, event1: Message, event2: Message, bufs: Buffers, r1: Reaction, r2: Reaction)
    requires LifecycleStatus(r2.behaviour).Completed?
    ensures var first := InvokeEventHandler(WithBuffer(h), event1, bufs, r1);
            var second := InvokeEventHandler(WithBuffer(h), event2, first.bufs, r2);
            second.enqueued == BufferOf(bufs.events, h) + r1.emits + r2.emits
  {
  }

  /** Command handler objects keep their buffer too: the second successful
      invocation of the same object enqueues what the first one emitted as well,
      even when the first one raised (as in a later `handle` of a batch). */
  lemma PastCommandEmissionsReenqueued(h: CommandHandler, command1: Message, command2: Message, bufs: Buffers,
                                       k1: nat, oracle1: Oracle, k2: nat, oracle2: Oracle)
    requires oracle2(k2).behaviour.body.Returns?
    ensures var first := InvokeCommandHandler(WithBuffer(h), command1, bufs, k1, oracle1);
            var second := InvokeCommandHandler(WithBuffer(h), command2, first.bufs, k2, oracle2);
            second.enqueued == BufferOf(bufs.commands, h) + oracle1(k1).emits + oracle2(k2).emits
  {
  }

  /** The sequence of per-message oracles of a batch: message i gets its own. */
  type BatchOracle = (nat, nat) -> Reaction

  function ForMessage(oracle: BatchOracle, i: nat): Oracle
  {
    (k: nat) => oracle(i, k)
  }

  /** `batch_handle` returns nothing; it stops at the first message whose `handle` raises. */
  datatype BatchOutcome = AllHandled | BatchRaised(index: nat, error: Error) | BatchOutOfFuel(index: nat)

  datatype BatchRun = BatchRun(outcome: BatchOutcome, bufs: Buffers)

  /** `batch_handle` (core.py:70-72): `handle` on each message in input order,
      each a fresh cascade; the first one that raises aborts all later ones. */
  function Batch(reg: Registry, ms: seq<Message>, bufs: Buffers, i: nat, oracle: BatchOracle, fuel: nat): (b: BatchRun)
    ensures b.outcome.BatchRaised? ==> i <= b.outcome.index < i + |ms|
    decreases |ms|
  {
    if ms == [] then BatchRun(AllHandled, bufs)
    else
      var run := Drain(reg, [ms[0]], bufs, 0, ForMessage(oracle, i), fuel);
      match run.outcome
      case Returned(_) => Batch(reg, ms[1..], run.bufs, i + 1, oracle, fuel)
      case Raised(e) => BatchRun(BatchRaised(i, e), run.bufs)
      case OutOfFuel => BatchRun(BatchOutOfFuel(i), run.bufs)
  }

  /** A batch is its first part followed, only if that part was handled
      completely, by its second part; when the first part raises, what follows
      is never handled. */
  lemma {:induction false} BatchSequential(reg: Registry, ms1: seq<Message>, ms2: seq<Message>, bufs: Buffers, i: nat, oracle: BatchOracle, fuel: nat)
    ensures var first := Batch(reg, ms1, bufs, i, oracle, fuel);
            Batch(reg, ms1 + ms2, bufs, i, oracle, fuel) ==
              if first.outcome.AllHandled? then Batch(reg, ms2, first.bufs, i + |ms1|, oracle, fuel) else first
    decreases |ms1|
  {
    if ms1 == [] {
      assert ms1 + ms2 == ms2;
    } else {
      assert (ms1 + ms2)[0] == ms1[0];
      assert (ms1 + ms2)[1..] == ms1[1..] + ms2;
      var run := Drain(reg, [ms1[0]], bufs, 0, ForMessage(oracle, i), fuel);
      if run.outcome.Returned? {
        BatchSequential(reg, ms1[1..], ms2, run.bufs, i + 1, oracle, fuel);
      }
    }
  }
}
