/** The synchronous `MessageBus` (src/message_bus/core.py:28-244): the handler
    registries, the breadth-first `handle` loop with its event and command
    steps, `batch_handle`, and the outbox gateway.  Each method is proved
    against the function of the `Dispatch` or `Outbox` module that specifies it. */
module Core {
  import opened Messages
  import opened Lifecycle
  import opened EventHandlers
  import opened CommandHandlers
  import opened Dispatch
  import opened OutboxRepository
  import opened OutboxHandlers
  import opened Outbox

  /** One loop iteration of `_handle_event`, seen from the fan-out specification:
      the entries and enqueued messages so far, followed by the rest of the
      handler list, equal the same after one more handler. */
  lemma FanOutStep(subs: seq<Subscriber<EventHandler>>, i: nat, event: Message, bufs: Buffers, k: nat, oracle: Oracle, acc: Step, acc': Step)
    requires i < |subs| && FanOutProgress(subs, i, event, bufs, k, oracle, acc)
    requires var inv := InvokeEventHandler(subs[i], event, acc.bufs, oracle(acc.next));
             acc' == Continue(acc.entries + (if inv.status.Completed? then [EventEntry(event, inv.status.value)] else []),
                              acc.enqueued + inv.enqueued, inv.bufs, acc.next + 1)
    ensures FanOutProgress(subs, i + 1, event, bufs, k, oracle, acc')
  {
    var inv := InvokeEventHandler(subs[i], event, acc.bufs, oracle(acc.next));
    var entry := if inv.status.Completed? then [EventEntry(event, inv.status.value)] else [];
    FanOutAt(subs, i, event, acc.bufs, acc.next, oracle);
    ChainCons(acc, entry, inv.enqueued, FanOut(subs[i + 1..], event, inv.bufs, acc.next + 1, oracle));
  }

  lemma FanOutAt(subs: seq<Subscriber<EventHandler>>, i: nat, event: Message, bufs: Buffers, k: nat, oracle: Oracle)
    requires i < |subs|
    ensures var inv := InvokeEventHandler(subs[i], event, bufs, oracle(k));
            var entry := if inv.status.Completed? then [EventEntry(event, inv.status.value)] else [];
            var rest := FanOut(subs[i + 1..], event, inv.bufs, k + 1, oracle);
            FanOut(subs[i..], event, bufs, k, oracle) == Continue(entry + rest.entries, inv.enqueued + rest.enqueued, rest.bufs, rest.next)
  {
    assert subs[i..][0] == subs[i] && subs[i..][1..] == subs[i + 1..];
    FanOutCons(subs[i..], event, bufs, k, oracle);
  }

  lemma ChainCons(acc: Step, es: seq<Entry>, more: seq<Message>, rest: Step)
    requires acc.Continue? && rest.Continue?
    ensures Chain(acc, Continue(es + rest.entries, more + rest.enqueued, rest.bufs, rest.next))
         == Chain(Continue(acc.entries + es, acc.enqueued + more, rest.bufs, rest.next), rest)
  {
    Associative(acc.entries, es, rest.entries);
    Associative(acc.enqueued, more, rest.enqueued);
  }

  /** One step of `handle`'s loop, seen from `Drain`: when the front message
      yields `es` and enqueues `more`, the results so far followed by the rest
      of the run equal the results with `es` followed by the run on the new queue. */
  lemma DrainStep(reg: Registry, results: seq<Entry>, queue: seq<Message>, bufs: Buffers, k: nat, oracle: Oracle, fuel: nat)
    requires queue != [] && 0 < fuel
    requires Process(reg, queue[0], bufs, k, oracle).Continue?
    ensures var st := Process(reg, queue[0], bufs, k, oracle);
            Prepend(results, Drain(reg, queue, bufs, k, oracle, fuel))
            == Prepend(results + st.entries, Drain(reg, queue[1..] + st.enqueued, st.bufs, st.next, oracle, fuel - 1))
  {
    var st := Process(reg, queue[0], bufs, k, oracle);
    DrainHead(reg, queue, bufs, k, oracle, fuel);
    PrependTwice(results, st.entries, Drain(reg, queue[1..] + st.enqueued, st.bufs, st.next, oracle, fuel - 1));
  }

  lemma BatchStep(reg: Registry, ms: seq<Message>, i: nat, bufs: Buffers, oracle: BatchOracle, fuel: nat)
    requires i < |ms|
    ensures var run := Drain(reg, [ms[i]], bufs, 0, ForMessage(oracle, i), fuel);
            Batch(reg, ms[i..], bufs, i, oracle, fuel) ==
              match run.outcome
              case Returned(_) => Batch(reg, ms[i + 1..], run.bufs, i + 1, oracle, fuel)
              case Raised(e) => BatchRun(BatchRaised(i, e), run.bufs)
              case OutOfFuel => BatchRun(BatchOutOfFuel(i), run.bufs)
  {
    assert ms[i..][0] == ms[i] && ms[i..][1..] == ms[i + 1..];
  }

  lemma SaveCallsSnoc(t: seq<SweepEvent>, e: SweepEvent)
    ensures SaveCalls(t + [e]) == SaveCalls(t) + (if e.SaveRan? then [SaveCall] else [])
  {
    assert (t + [e])[..|t|] == t;
  }

  lemma {:induction false} SaveCallsAppend(a: seq<SweepEvent>, b: seq<SweepEvent>)
    ensures SaveCalls(a + b) == SaveCalls(a) + SaveCalls(b)
    decreases |b|
  {
    if b == [] {
      assert a + b == a;
    } else {
      var init := b[..|b| - 1];
      var e := b[|b| - 1];
      assert b == init + [e];
      assert a + b == (a + init) + [e];
      SaveCallsAppend(a, init);
      SaveCallsSnoc(a + init, e);
      SaveCallsSnoc(init, e);
    }
  }

  /** The sweep of all records is `trace` followed by the sweep of the records from i on. */
  ghost predicate SweepProgress(records: seq<Record>, i: nat, handlers: seq<OutboxHandler>, oracle: SweepOracle, ctx: Context, trace: seq<SweepEvent>)
    requires i <= |records|
  {
    Sweep(records, 0, handlers, oracle, ctx) == trace + Sweep(records[i..], i, handlers, oracle, ctx)
  }

  lemma SweepProgressStep(records: seq<Record>, i: nat, handlers: seq<OutboxHandler>, oracle: SweepOracle, ctx: Context, trace: seq<SweepEvent>)
    requires i < |records| && SweepProgress(records, i, handlers, oracle, ctx, trace)
    ensures SweepProgress(records, i + 1, handlers, oracle, ctx, trace + RecordSweep(records[i], i, handlers, 0, oracle, ctx))
  {
    assert records[i..][0] == records[i] && records[i..][1..] == records[i + 1..];
    var t := RecordSweep(records[i], i, handlers, 0, oracle, ctx);
    var rest := Sweep(records[i + 1..], i + 1, handlers, oracle, ctx);
    Associative(trace, t, rest);
  }

  /** Where the outer loop of the sweep stands after i records: the sweep
      so far is `trace`, and the repository log has one `save` per `SaveRan` of it. */
  ghost predicate SweepState(records: seq<Record>, i: nat, handlers: seq<OutboxHandler>, oracle: SweepOracle, ctx: Context,
                             trace: seq<SweepEvent>, log: seq<RepoCall>, log0: seq<RepoCall>)
  {
    i <= |records| && SweepProgress(records, i, handlers, oracle, ctx, trace) && log == log0 + SaveCalls(trace)
  }

  /** One turn of the outer loop: the record's sweep extends the trace, and its `save` calls the log. */
  lemma SweepStep(records: seq<Record>, i: nat, handlers: seq<OutboxHandler>, oracle: SweepOracle, ctx: Context,
                  trace: seq<SweepEvent>, t: seq<SweepEvent>, log: seq<RepoCall>, log': seq<RepoCall>, log0: seq<RepoCall>)
    requires i < |records| && SweepState(records, i, handlers, oracle, ctx, trace, log, log0)
    requires t == RecordSweep(records[i], i, handlers, 0, oracle, ctx) && log' == log + SaveCalls(t)
    ensures SweepState(records, i + 1, handlers, oracle, ctx, trace + t, log', log0)
  {
    SweepProgressStep(records, i, handlers, oracle, ctx, trace);
    SaveCallsAppend(trace, t);
    Associative(log0, SaveCalls(trace), SaveCalls(t));
  }

  lemma SweepProgressDone(records: seq<Record>, handlers: seq<OutboxHandler>, oracle: SweepOracle, ctx: Context, trace: seq<SweepEvent>)
    requires SweepProgress(records, |records|, handlers, oracle, ctx, trace)
    ensures Sweep(records, 0, handlers, oracle, ctx) == trace
  {
    assert records[|records|..] == [] && trace + [] == trace;
  }

  /** The sweep of one record is `t` followed by its sweep from handler j on. */
  ghost predicate RecordProgress(rec: Record, i: nat, handlers: seq<OutboxHandler>, j: nat, oracle: SweepOracle, ctx: Context, t: seq<SweepEvent>)
  {
    RecordSweep(rec, i, handlers, 0, oracle, ctx) == t + RecordSweep(rec, i, handlers, j, oracle, ctx)
  }

  lemma RecordProgressStart(rec: Record, i: nat, handlers: seq<OutboxHandler>, oracle: SweepOracle, ctx: Context)
    ensures RecordState(rec, i, handlers, 0, oracle, ctx, [], false)
  {
    assert [] + RecordSweep(rec, i, handlers, 0, oracle, ctx) == RecordSweep(rec, i, handlers, 0, oracle, ctx);
  }

  /** Handler j either ends the record's turn, or adds its step and a `save` and hands over to handler j + 1. */
  lemma RecordProgressStep(rec: Record, i: nat, handlers: seq<OutboxHandler>, j: nat, oracle: SweepOracle, ctx: Context, t: seq<SweepEvent>)
    requires j < |handlers| && RecordProgress(rec, i, handlers, j, oracle, ctx, t)
    ensures var a := oracle(i, j);
            var head := SweepHead(rec, i, j, oracle, ctx);
            if LifecycleStatus(a.behaviour).Failed? then RecordSweep(rec, i, handlers, 0, oracle, ctx) == t + [head]
            else if a.save.Raises? then RecordSweep(rec, i, handlers, 0, oracle, ctx) == t + [head, SaveRan(a.save)]
            else RecordProgress(rec, i, handlers, j + 1, oracle, ctx, t + [head, SaveRan(Passes)])
  {
    RecordSweepUnfold(rec, i, handlers, j, oracle, ctx);
    var a := oracle(i, j);
    if LifecycleStatus(a.behaviour).Completed? && a.save.Passes? {
      var head := SweepHead(rec, i, j, oracle, ctx);
      var rest := RecordSweep(rec, i, handlers, j + 1, oracle, ctx);
      Associative(t, [head, SaveRan(Passes)], rest);
    }
  }

  /** A handler that raises ends the record's turn, with no `save`. */
  lemma TurnStops(rec: Record, i: nat, handlers: seq<OutboxHandler>, j: nat, oracle: SweepOracle, ctx: Context, t: seq<SweepEvent>, ran: SweepEvent)
    requires j < |handlers| && RecordProgress(rec, i, handlers, j, oracle, ctx, t)
    requires ran == SweepHead(rec, i, j, oracle, ctx) && ran.status.Failed?
    ensures RecordState(rec, i, handlers, j + 1, oracle, ctx, t + [ran], true)
    ensures SaveCalls(t + [ran]) == SaveCalls(t)
  {
    RecordProgressStep(rec, i, handlers, j, oracle, ctx, t);
    SaveCallsSnoc(t, ran);
  }

  /** A handler that completes is followed by one `save`, whose exception ends the record's turn. */
  lemma TurnSaves(rec: Record, i: nat, handlers: seq<OutboxHandler>, j: nat, oracle: SweepOracle, ctx: Context, t: seq<SweepEvent>, ran: SweepEvent)
    requires j < |handlers| && RecordProgress(rec, i, handlers, j, oracle, ctx, t)
    requires ran == SweepHead(rec, i, j, oracle, ctx) && ran.status.Completed?
    ensures var save := oracle(i, j).save;
            RecordState(rec, i, handlers, j + 1, oracle, ctx, t + [ran, SaveRan(save)], save.Raises?)
    ensures SaveCalls(t + [ran, SaveRan(oracle(i, j).save)]) == SaveCalls(t) + [SaveCall]
  {
    var save := oracle(i, j).save;
    RecordProgressStep(rec, i, handlers, j, oracle, ctx, t);
    SaveCallsSnoc(t, ran);
    SaveCallsSnoc(t + [ran], SaveRan(save));
    assert t + [ran] + [SaveRan(save)] == t + [ran, SaveRan(save)];
  }

  /** Where the inner loop of the sweep stands: stopped with the record's
      whole sweep in `t`, or still going at handler j. */
  ghost predicate RecordState(rec: Record, i: nat, handlers: seq<OutboxHandler>, j: nat, oracle: SweepOracle, ctx: Context, t: seq<SweepEvent>, stop: bool)
  {
    if stop then RecordSweep(rec, i, handlers, 0, oracle, ctx) == t else RecordProgress(rec, i, handlers, j, oracle, ctx, t)
  }

  lemma RecordStateDone(rec: Record, i: nat, handlers: seq<OutboxHandler>, j: nat, oracle: SweepOracle, ctx: Context, t: seq<SweepEvent>, stop: bool)
    requires RecordState(rec, i, handlers, j, oracle, ctx, t, stop) && (stop || j >= |handlers|)
    ensures RecordSweep(rec, i, handlers, 0, oracle, ctx) == t
  {
    if !stop {
      assert t + [] == t;
    }
  }

  /** The fan-out of `handlers` from `bufs` and oracle index `k` is what `acc`
      has produced so far followed by the fan-out of the handlers from i on. */
  ghost predicate FanOutProgress(handlers: seq<Subscriber<EventHandler>>, i: nat, event: Message, bufs: Buffers, k: nat, oracle: Oracle, acc: Step)
    requires i <= |handlers|
  {
    acc.Continue? && FanOut(handlers, event, bufs, k, oracle) == Chain(acc, FanOut(handlers[i..], event, acc.bufs, acc.next, oracle))
  }

  /** Where the loop of `_handle_event` stands after i handlers: the messages
      enqueued so far are `enq`, and the fan-out from the start is the
      progress so far followed by the fan-out of the rest of the list. */
  ghost predicate FanOutState(handlers: seq<Subscriber<EventHandler>>, i: nat, event: Message, queue0: seq<Message>,
                              bufs: Buffers, k: nat, oracle: Oracle,
                              results: seq<Entry>, queue: seq<Message>, enq: seq<Message>, kk: nat, cur: Buffers)
  {
    && i <= |handlers|
    && queue == queue0 + enq
    && FanOutProgress(handlers, i, event, bufs, k, oracle, Continue(results, enq, cur, kk))
  }

  /** Handler i, invoked at oracle index `kk`, extends the state by its entry and its enqueued messages. */
  lemma FanOutStateStep(handlers: seq<Subscriber<EventHandler>>, i: nat, event: Message, queue0: seq<Message>,
                        bufs: Buffers, k: nat, oracle: Oracle,
                        results: seq<Entry>, queue: seq<Message>, enq: seq<Message>, kk: nat, cur: Buffers,
                        entry: seq<Entry>, queue': seq<Message>, cur': Buffers)
    requires i < |handlers| && FanOutState(handlers, i, event, queue0, bufs, k, oracle, results, queue, enq, kk, cur)
    requires var inv := InvokeEventHandler(handlers[i], event, cur, oracle(kk));
             && entry == (if inv.status.Completed? then [EventEntry(event, inv.status.value)] else [])
             && queue' == queue + inv.enqueued && cur' == inv.bufs
    ensures FanOutState(handlers, i + 1, event, queue0, bufs, k, oracle, results + entry, queue',
                        enq + InvokeEventHandler(handlers[i], event, cur, oracle(kk)).enqueued, kk + 1, cur')
  {
    var inv := InvokeEventHandler(handlers[i], event, cur, oracle(kk));
    assert queue' == queue0 + (enq + inv.enqueued);
    FanOutStep(handlers, i, event, bufs, k, oracle, Continue(results, enq, cur, kk), Continue(results + entry, enq + inv.enqueued, cur', kk + 1));
  }

  class MessageBus {
    /** `_event_handlers`: event class to its handlers, in registration order. */
    var eventHandlers: map<ClassName, seq<Subscriber<EventHandler>>>
    /** `_command_handlers`: command class to its one handler. */
    var commandHandlers: map<ClassName, Subscriber<CommandHandler>>
    /** `_outbox_handlers`, empty until `set_outbox_handlers`. */
    var outboxHandlers: seq<OutboxHandler>
    /** `context`, passed to every handler; the bus never changes it. */
    var context: Context

    /** A missing or empty mapping (both falsy) starts an empty registry. */
    constructor (eventHandlers: Option<map<ClassName, seq<Subscriber<EventHandler>>>>,
                 commandHandlers: Option<map<ClassName, Subscriber<CommandHandler>>>)
      ensures this.eventHandlers == if eventHandlers.Some? then eventHandlers.value else map[]
      ensures this.commandHandlers == if commandHandlers.Some? then commandHandlers.value else map[]
      ensures outboxHandlers == [] && context == Context(map[])
    {
      if eventHandlers.Some? && |eventHandlers.value| > 0 {
        this.eventHandlers := eventHandlers.value;
      } else {
        this.eventHandlers := map[];
      }
      if commandHandlers.Some? && |commandHandlers.value| > 0 {
        this.commandHandlers := commandHandlers.value;
      } else {
        this.commandHandlers := map[];
      }
      context := Context(map[]);
      outboxHandlers := [];
    }

    /** Both registries as the dispatch specification sees them. */
    function Handlers(): Registry
      reads this
    {
      Registry(eventHandlers, commandHandlers)
    }

    /** `get_event_handlers`: a plain lookup; an unregistered class is a `KeyError`. */
    function GetEventHandlers(cls: ClassName): (r: Result<seq<Subscriber<EventHandler>>>)
      reads this
      ensures r.Success? <==> cls in eventHandlers
      ensures r.Success? ==> r.value == eventHandlers[cls]
      ensures r.Failure? ==> r.error == KeyError(cls)
    {
      if cls in eventHandlers then Success(eventHandlers[cls]) else Failure(KeyError(cls))
    }

    /** `get_command_handler`: a plain lookup; an unregistered class is a `KeyError`. */
    function GetCommandHandler(cls: ClassName): (r: Result<Subscriber<CommandHandler>>)
      reads this
      ensures r.Success? <==> cls in commandHandlers
      ensures r.Success? ==> r.value == commandHandlers[cls]
      ensures r.Failure? ==> r.error == KeyError(cls)
    {
      if cls in commandHandlers then Success(commandHandlers[cls]) else Failure(KeyError(cls))
    }

    /** `set_event_handlers`: replaces the whole list of one class (last write
        wins); every other class and the command registry are unchanged. */
    method SetEventHandlers(cls: ClassName, handlers: seq<Subscriber<EventHandler>>)
      modifies this
      ensures eventHandlers == old(eventHandlers)[cls := handlers]
      ensures GetEventHandlers(cls) == Success(handlers)
      ensures forall c :: c != cls ==> GetEventHandlers(c) == old(GetEventHandlers(c))
      ensures commandHandlers == old(commandHandlers) && outboxHandlers == old(outboxHandlers) && context == old(context)
    {
      eventHandlers := eventHandlers[cls := handlers];
    }

    /** `set_command_handler`: replaces the handler of one class (last write wins). */
    method SetCommandHandler(cls: ClassName, handler: Subscriber<CommandHandler>)
      modifies this
      ensures commandHandlers == old(commandHandlers)[cls := handler]
      ensures GetCommandHandler(cls) == Success(handler)
      ensures forall c :: c != cls ==> GetCommandHandler(c) == old(GetCommandHandler(c))
      ensures eventHandlers == old(eventHandlers) && outboxHandlers == old(outboxHandlers) && context == old(context)
    {
      commandHandlers := commandHandlers[cls := handler];
    }

    /** `set_outbox_handlers`: replaces the whole list. */
    method SetOutboxHandlers(handlers: seq<OutboxHandler>)
      modifies this
      ensures outboxHandlers == handlers
      ensures eventHandlers == old(eventHandlers) && commandHandlers == old(commandHandlers) && context == old(context)
    {
      outboxHandlers := handlers;
    }

    /** `_handle_event`: every handler of the event's class in turn, starting at
        oracle index `k`.  A handler object goes through its lifecycle `handle`
        and, if that returns, its whole buffer is appended to `queue`; any other
        callable is called directly.  A handler that raises is logged and
        skipped.  An unregistered class yields nothing. */
    method HandleEvent(event: Message, queue: seq<Message>, k: nat, oracle: Oracle, ghost bufs: Buffers)
      returns (results: seq<Entry>, queue': seq<Message>, k': nat, ghost bufs': Buffers)
      requires Mirrors(Handlers(), bufs)
      modifies EventObjects(Handlers())
      ensures var st := EventStep(Handlers(), event, bufs, k, oracle);
              results == st.entries && queue' == queue + st.enqueued && bufs' == st.bufs && k' == st.next
      ensures Mirrors(Handlers(), bufs')
    {
      if event.cls !in eventHandlers {
        return [], queue, k, bufs;
      }
      var handlers := eventHandlers[event.cls];
      ghost var objs := EventObjects(Handlers());
      assert forall s :: s in handlers && s.WithBuffer? ==> s.handler in objs;
      results, queue', k', bufs' := RunEventHandlers(handlers, event, queue, k, oracle, objs, bufs);
    }

    /** The loop of `_handle_event` over one class's handlers (core.py:201-219). */
    method RunEventHandlers(handlers: seq<Subscriber<EventHandler>>, event: Message, queue: seq<Message>, k: nat, oracle: Oracle,
                            ghost objs: set<EventHandler>, ghost bufs: Buffers)
      returns (results: seq<Entry>, queue': seq<Message>, k': nat, ghost bufs': Buffers)
      requires EventsMirror(objs, bufs.events)
      requires forall s :: s in handlers && s.WithBuffer? ==> s.handler in objs
      modifies objs
      ensures var st := FanOut(handlers, event, bufs, k, oracle);
              results == st.entries && queue' == queue + st.enqueued && bufs' == st.bufs && k' == st.next
      ensures EventsMirror(objs, bufs'.events)
    {
      ghost var enq: seq<Message> := [];
      results, queue', k', bufs' := [], queue, k, bufs;
      var i := 0;
      assert handlers[0..] == handlers && queue + [] == queue;
      while i < |handlers|
        invariant 0 <= i <= |handlers|
        invariant EventsMirror(objs, bufs'.events)
        invariant FanOutState(handlers, i, event, queue, bufs, k, oracle, results, queue', enq, k', bufs')
      {
        results, queue', enq, k', bufs' := EventHandlerTurn(handlers, i, event, queue, bufs, k, oracle, objs, results, queue', enq, k', bufs');
        i := i + 1;
      }
      assert handlers[i..] == [];
      assert results + [] == results && enq + [] == enq;
    }

    /** One turn of the loop of `RunEventHandlers`: handler i runs at oracle
        index `kk`, and the progress made through the handler list extends by it. */
    method EventHandlerTurn(handlers: seq<Subscriber<EventHandler>>, i: nat, event: Message, ghost queue0: seq<Message>,
                            ghost bufs: Buffers, ghost k: nat, oracle: Oracle, ghost objs: set<EventHandler>,
                            results: seq<Entry>, queue: seq<Message>, ghost enq: seq<Message>, kk: nat, ghost cur: Buffers)
      returns (results': seq<Entry>, queue': seq<Message>, ghost enq': seq<Message>, kk': nat, ghost cur': Buffers)
      requires i < |handlers|
      requires forall s :: s in handlers && s.WithBuffer? ==> s.handler in objs
      requires EventsMirror(objs, cur.events)
      requires FanOutState(handlers, i, event, queue0, bufs, k, oracle, results, queue, enq, kk, cur)
      modifies objs
      ensures EventsMirror(objs, cur'.events)
      ensures FanOutState(handlers, i + 1, event, queue0, bufs, k, oracle, results', queue', enq', kk', cur')
    {
      ghost var inv := InvokeEventHandler(handlers[i], event, cur, oracle(kk));
      assert handlers[i] in handlers;
      var entry;
      entry, queue', cur' := CallEventHandler(handlers[i], event, queue, oracle(kk), objs, cur);
      FanOutStateStep(handlers, i, event, queue0, bufs, k, oracle, results, queue, enq, kk, cur, entry, queue', cur');
      results' := results + entry;
      enq' := enq + inv.enqueued;
      kk' := kk + 1;
    }

    /** One turn of `_handle_event`'s loop (core.py:204-217): a handler object
        is called through its lifecycle `handle` and, if that returns, its whole
        buffer is appended to `queue`; any other callable is called directly.
        A handler that raises yields no entry. */
    method CallEventHandler(s: Subscriber<EventHandler>, event: Message, queue: seq<Message>, r: Reaction,
                            ghost objs: set<EventHandler>, ghost bufs: Buffers)
      returns (entry: seq<Entry>, queue': seq<Message>, ghost bufs': Buffers)
      requires EventsMirror(objs, bufs.events)
      requires s.WithBuffer? ==> s.handler in objs
      modifies if s.WithBuffer? then {s.handler} else {}
      ensures var inv := InvokeEventHandler(s, event, bufs, r);
              && entry == (if inv.status.Completed? then [EventEntry(event, inv.status.value)] else [])
              && queue' == queue + inv.enqueued && bufs' == inv.bufs
      ensures EventsMirror(objs, bufs'.events)
    {
      match s
      case WithBuffer(h) =>
        var status, calls := h.Handle(event, context, r);
        bufs' := bufs.(events := bufs.events[h := h.emitted]);
        if status.Completed? {
          queue' := queue + h.EmittedMessages();
          entry := [EventEntry(event, status.value)];
        } else {
          queue' := queue;
          entry := [];
        }
      case Callable(_) =>
        bufs' := bufs;
        queue' := queue;
        var status := BodyStatus(r.behaviour.body);
        if status.Completed? {
          entry := [EventEntry(event, status.value)];
        } else {
          entry := [];
        }
    }

    /** `_handle_command`: the one handler of the command's class, at oracle
        index `k`.  An unregistered class is a `KeyError`; whatever the handler
        raises propagates.  A handler object's whole buffer is appended to
        `queue` when its `handle` returns. */
    method HandleCommand(command: Message, queue: seq<Message>, k: nat, oracle: Oracle, ghost bufs: Buffers)
      returns (r: Result<Entry>, queue': seq<Message>, k': nat, ghost bufs': Buffers)
      requires Mirrors(Handlers(), bufs)
      modifies CommandObjects(Handlers())
      ensures var st := CommandStep(Handlers(), command, bufs, k, oracle);
              && bufs' == st.bufs && k' == st.next
              && (st.Continue? ==> r == Success(st.entries[0]) && queue' == queue + st.enqueued)
              && (st.Abort? ==> r == Failure(st.error))
      ensures Mirrors(Handlers(), bufs')
    {
      if command.cls !in commandHandlers {
        return Failure(KeyError(command.cls)), queue, k, bufs;
      }
      var reaction := oracle(k);
      k' := k + 1;
      match commandHandlers[command.cls]
      case WithBuffer(h) =>
        assert h in CommandObjects(Handlers());
        var status := h.Handle(command, context, reaction);
        bufs' := bufs.(commands := bufs.commands[h := h.emitted]);
        match status {
        case Completed(v) =>
          queue' := queue + h.EmittedMessages();
          r := Success(CommandEntry(command, v));
        case Failed(e) =>
          queue' := queue;
          r := Failure(HandlerError(e));
        }
      case Callable(_) =>
        bufs' := bufs;
        queue' := queue;
        match BodyStatus(reaction.behaviour.body)
        case Completed(v) => r := Success(CommandEntry(command, v));
        case Failed(e) => r := Failure(HandlerError(e));
    }

    /** `handle`: pop the front of the queue, dispatch on Event (tested first)
        or Command, append the results, until the queue is empty.  The result
        is what `Drain` specifies, so the lemmas of `Dispatch` (breadth-first
        order, aborts discard results, ...) hold of it.  `fuel` bounds the
        number of pops. */
    method Handle(message: Message, oracle: Oracle, fuel: nat, ghost bufs: Buffers) returns (outcome: HandleOutcome, ghost bufs': Buffers)
      requires Mirrors(Handlers(), bufs)
      modifies EventObjects(Handlers()), CommandObjects(Handlers())
      ensures var run := Drain(Handlers(), [message], bufs, 0, oracle, fuel);
              outcome == run.outcome && bufs' == run.bufs
      ensures Mirrors(Handlers(), bufs')
    {
      ghost var reg := Handlers();
      var results: seq<Entry> := [];
      var queue := [message];
      var k: nat := 0;
      var left := fuel;
      bufs' := bufs;
      assert Prepend([], Drain(reg, queue, bufs, 0, oracle, fuel)) == Drain(reg, queue, bufs, 0, oracle, fuel) by {
        PrependTwice([], [], Drain(reg, queue, bufs, 0, oracle, fuel));
      }
      while queue != []
        invariant Mirrors(reg, bufs')
        invariant Prepend(results, Drain(reg, queue, bufs', k, oracle, left)) == Drain(reg, [message], bufs, 0, oracle, fuel)
        decreases left
      {
        if left == 0 {
          return OutOfFuel, bufs';
        }
        var m := queue[0];
        ghost var st := Process(reg, m, bufs', k, oracle);
        if m.isEvent {
          DrainStep(reg, results, queue, bufs', k, oracle, left);
          var es;
          es, queue, k, bufs' := HandleEvent(m, queue[1..], k, oracle, bufs');
          results := results + es;
        } else if m.isCommand {
          DrainHead(reg, queue, bufs', k, oracle, left);
          if st.Continue? {
            DrainStep(reg, results, queue, bufs', k, oracle, left);
          }
          var r;
          ghost var b0 := bufs';
          r, queue, k, bufs' := HandleCommand(m, queue[1..], k, oracle, bufs');
          match r {
          case Failure(e) =>
            return Raised(e), bufs';
          case Success(entry) =>
            results := results + [entry];
          }
        } else {
          return Raised(NotEventOrCommand(m)), bufs';
        }
        left := left - 1;
      }
      assert results + [] == results;
      outcome := Returned(results);
    }

    /** `batch_handle`: `handle` on each message in order, each with its own
        oracle; the first that raises propagates and the rest are not handled. */
    method BatchHandle(messages: seq<Message>, oracle: BatchOracle, fuel: nat, ghost bufs: Buffers)
      returns (outcome: BatchOutcome, ghost bufs': Buffers)
      requires Mirrors(Handlers(), bufs)
      modifies EventObjects(Handlers()), CommandObjects(Handlers())
      ensures Batch(Handlers(), messages, bufs, 0, oracle, fuel) == BatchRun(outcome, bufs')
      ensures Mirrors(Handlers(), bufs')
    {
      ghost var reg := Handlers();
      bufs' := bufs;
      var i := 0;
      while i < |messages|
        invariant 0 <= i <= |messages|
        invariant Mirrors(reg, bufs')
        invariant Batch(reg, messages, bufs, 0, oracle, fuel) == Batch(reg, messages[i..], bufs', i, oracle, fuel)
      {
        BatchStep(reg, messages, i, bufs', oracle, fuel);
        var o;
        o, bufs' := Handle(messages[i], ForMessage(oracle, i), fuel, bufs');
        match o {
        case Raised(e) => return BatchRaised(i, e), bufs';
        case OutOfFuel => return BatchOutOfFuel(i), bufs';
        case Returned(_) =>
        }
        i := i + 1;
      }
      outcome := AllHandled;
    }

    /** `register_outbox_message`: classify (Command tested first), build the
        record from the repository's model, hand it to `add` and return it.
        `id` is the generated uuid and `serialize` the message's `serialize`;
        `fx` says which of `get_model`, `serialize` and `_add` raise, and
        whatever they raise propagates. */
    static method RegisterOutboxMessage(repo: OutboxRepo, message: Message, meta: Option<Meta>, id: nat,
                                        serialize: Message -> Payload, fx: RegisterEffects)
      returns (r: Result<Record>)
      modifies repo`log
      ensures Classify(message).Failure? ==> r == Failure(UnknownMessageType) && repo.log == old(repo.log)
      ensures Classify(message).Success? && fx.getModel.Raises? ==>
        r == Failure(HandlerError(fx.getModel.exc)) && repo.log == old(repo.log) + [GetModelCall]
      ensures Classify(message).Success? && fx.getModel.Passes? && fx.serialize.Raises? ==>
        r == Failure(HandlerError(fx.serialize.exc)) && repo.log == old(repo.log) + [GetModelCall]
      ensures Classify(message).Success? && fx.getModel.Passes? && fx.serialize.Passes? ==>
        var rec := NewRecord(id, Classify(message).value, message, serialize(message), repo.model, meta);
        && repo.log == old(repo.log) + [GetModelCall, InnerAddCall(rec)]
        && (fx.innerAdd.Passes? ==> r == Success(rec))
        && (fx.innerAdd.Raises? ==> r == Failure(HandlerError(fx.innerAdd.exc)))
    {
      var kind: string;
      if message.isCommand {
        kind := "COMMAND";
      } else if message.isEvent {
        kind := "EVENT";
      } else {
        return Failure(UnknownMessageType);
      }
      var got := repo.GetModel(fx.getModel);
      if got.Failure? {
        return Failure(got.error);
      }
      var model := got.value;
      if fx.serialize.Raises? {
        return Failure(HandlerError(fx.serialize.exc));
      }
      var record := map["id" := UuidAttr(id), "type" := TextAttr(kind), "message" := TextAttr(message.cls), "payload" := PayloadAttr(serialize(message))];
      if model.hasMeta {
        record := record["meta" := MetaAttr(meta)];
      }
      var added := repo.Add(record, fx.innerAdd);
      match added {
      case Failure(e) => r := Failure(e);
      case Success(_) => r := Success(record);
      }
    }

    /** `process_outbox`: with no outbox handlers nothing happens, not even the
        listing.  An exception of `list_unprocessed` (`listing`) propagates.
        Otherwise every unprocessed record goes to the handlers in order, each
        successful handler followed by a `save`; an exception from a handler or
        from `save` is logged and ends that record's turn only. */
    method ProcessOutbox(repo: OutboxRepo, listing: Effect, oracle: SweepOracle) returns (r: Result<seq<SweepEvent>>)
      modifies repo`log
      ensures |outboxHandlers| == 0 ==> r == Success([]) && repo.log == old(repo.log)
      ensures |outboxHandlers| > 0 && listing.Raises? ==>
        r == Failure(HandlerError(listing.exc)) && repo.log == old(repo.log) + [ListUnprocessedCall]
      ensures |outboxHandlers| > 0 && listing.Passes? ==>
        && r == Success(Sweep(repo.unprocessed, 0, outboxHandlers, oracle, context))
        && repo.log == old(repo.log) + [ListUnprocessedCall] + SaveCalls(r.value)
    {
      if |outboxHandlers| == 0 {
        return Success([]);
      }
      var listed := repo.ListUnprocessed(listing);
      if listed.Failure? {
        return Failure(listed.error);
      }
      var trace := SweepRecords(repo, outboxHandlers, context, listed.value, oracle);
      r := Success(trace);
    }

    /** The outer loop of `process_outbox` (core.py:113): every record in turn,
        whatever happened to the ones before it. */
    static method SweepRecords(repo: OutboxRepo, handlers: seq<OutboxHandler>, ctx: Context, records: seq<Record>, oracle: SweepOracle) returns (trace: seq<SweepEvent>)
      modifies repo`log
      ensures trace == Sweep(records, 0, handlers, oracle, ctx)
      ensures repo.log == old(repo.log) + SaveCalls(trace)
    {
      ghost var log0 := repo.log;
      trace := [];
      var i := 0;
      assert SaveCalls([]) == [] && log0 + [] == log0;
      while i < |records|
        invariant SweepState(records, i, handlers, oracle, ctx, trace, repo.log, log0)
      {
        ghost var log := repo.log;
        var t := SweepRecord(repo, handlers, ctx, records[i], i, oracle);
        SweepStep(records, i, handlers, oracle, ctx, trace, t, log, repo.log, log0);
        trace := trace + t;
        i := i + 1;
      }
      SweepProgressDone(records, handlers, oracle, ctx, trace);
    }

    /** The inner loop of `process_outbox` for record i (core.py:114-120):
        each handler in turn, each successful one followed by a `save`.  The
        first exception from a handler or from `save` is logged and ends the
        loop (`stop` is that `break`). */
    static method SweepRecord(repo: OutboxRepo, handlers: seq<OutboxHandler>, ctx: Context, rec: Record, i: nat, oracle: SweepOracle) returns (t: seq<SweepEvent>)
      modifies repo`log
      ensures t == RecordSweep(rec, i, handlers, 0, oracle, ctx)
      ensures repo.log == old(repo.log) + SaveCalls(t)
    {
      ghost var log0 := repo.log;
      t := [];
      var j := 0;
      var stop := false;
      RecordProgressStart(rec, i, handlers, oracle, ctx);
      assert SaveCalls([]) == [] && log0 + [] == log0;
      while j < |handlers| && !stop
        invariant j <= |handlers|
        invariant RecordState(rec, i, handlers, j, oracle, ctx, t, stop)
        invariant repo.log == log0 + SaveCalls(t)
      {
        t, stop := OutboxHandlerTurn(repo, handlers, ctx, rec, i, j, oracle, t, log0);
        j := j + 1;
      }
      RecordStateDone(rec, i, handlers, j, oracle, ctx, t, stop);
    }

    /** One turn of the inner loop: handler j on the record inside the `try`,
        then `save`; `stop` when either raised. */
    static method OutboxHandlerTurn(repo: OutboxRepo, handlers: seq<OutboxHandler>, ctx: Context, rec: Record, i: nat, j: nat, oracle: SweepOracle, t: seq<SweepEvent>, ghost log0: seq<RepoCall>)
      returns (t': seq<SweepEvent>, stop: bool)
      requires j < |handlers| && RecordState(rec, i, handlers, j, oracle, ctx, t, false)
      requires repo.log == log0 + SaveCalls(t)
      modifies repo`log
      ensures RecordState(rec, i, handlers, j + 1, oracle, ctx, t', stop)
      ensures repo.log == log0 + SaveCalls(t')
    {
      var attempt := oracle(i, j);
      var status, calls := handlers[j].Handle(rec, ctx, attempt.behaviour);
      var ran := HandlerRan(rec, j, calls, status);
      if status.Failed? {
        TurnStops(rec, i, handlers, j, oracle, ctx, t, ran);
        return t + [ran], true;
      }
      TurnSaves(rec, i, handlers, j, oracle, ctx, t, ran);
      var saved := repo.Save(attempt.save);
      t' := t + [ran, SaveRan(attempt.save)];
      stop := saved.Failure?;
    }
  }
}
