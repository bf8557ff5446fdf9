# message_bus in Dafny

A model of the synchronous core of the `message_bus` Python library, with proofs about it. The model covers:

- **The `MessageBus` dispatcher.** Registries map an event class to an ordered list of handlers, and a command class to one handler. `handle` pops a queue of messages FIFO and fans each event out to its handlers. It sends each command to its handler, and collects `{"event", "result"}` and `{"command", "result"}` entries. `batch_handle` runs `handle` on a list of messages.
- **The handler base classes.** `EventHandlerABC` has a before / `_handle` / after lifecycle and an emission buffer. `CommandHandlerABC` has an emission buffer and no lifecycle. `OutboxHandlerABC` has the same lifecycle as event handlers.
- **The outbox gateway.** `register_outbox_message` builds a record and hands it to the repository's guarded `add`. `process_outbox` sweeps the unprocessed records through the outbox handlers, calling `save` after each handler that succeeds.
- **The legacy single-event `MessageBus`** of `message_bus.py`.

Code the core calls but does not contain becomes inputs to the model:

| Outside code | How the model receives it |
|---|---|
| Handler code: subclass `_handle` bodies, hooks, plain callables, a command handler's `handle` | An *oracle*: a function from the invocation counter to what that invocation does (returns a value or raises, and the messages its hooks and body emit) |
| `uuid.uuid4()` | A parameter |
| `message.serialize()` | A parameter, with an effect saying whether it raises |
| The store behind the repository | A record of the calls the core makes into it, plus an effect per call (`get_model`, `_add`, `list_unprocessed`, `save`) saying whether it raises |

Emission buffers are `class` fields, updated in place. The imperative methods keep a ghost map of all buffers equal to the heap. Each method is proved equal to a functional specification (`Dispatch.Drain`, `Dispatch.FanOut`, `Outbox.Sweep`, …). The properties the code promises are lemmas about those functions.

Two points where the code behaves differently from what one might expect. The model follows the code in both.

- **Buffers are never cleared** (`event_handlers/base.py:9,28-33`, `command_handlers/base.py:8-20`). `queue.extend(handler.emitted_messages)` (`core.py:207`, `core.py:234`) therefore re-enqueues everything a handler object has emitted in its whole lifetime, not only what the current call emitted. This holds even for emissions made by an earlier call that raised. See `Dispatch.PastEmissionsReenqueued` and `Dispatch.PastCommandEmissionsReenqueued`.
- **`EventHandlerABC.handle` and `OutboxHandlerABC.handle` have no `return`.** For an event handler object, the stored result is always `None`, whatever `_handle` returns. Only plain callables and command handler objects, whose `handle` is the subclass's own code (`core.py:233`, `core.py:241-244`), contribute their own return value.

Messages carry two flags, "derives from `Event`" and "derives from `Command`". `handle` tests Event first (`core.py:176-181`); `register_outbox_message` tests Command first (`core.py:81-86`). Both orders are modelled.

Files:

| File | Contents |
|---|---|
| `messages.dfy` | Messages, values, errors |
| `lifecycle.dfy` | The shared hook lifecycle |
| `event_handlers.dfy` | The event handler buffer class |
| `command_handlers.dfy` | The command handler buffer class |
| `outbox_repository.dfy` | The repository and its guard |
| `outbox_handlers.dfy` | The outbox handler |
| `dispatch.dfy` | Functional specification of `handle` and `batch_handle` |
| `outbox.dfy` | Functional specification of the outbox gateway |
| `core.dfy` | The `MessageBus` class |
| `legacy_bus.dfy` | The legacy bus |

## Model

| member | source | states |
|---|---|---|
| Lifecycle.DefaultHooks | src/message_bus/event_handlers/base.py:22-26 | The base hooks return normally and do nothing, so the lifecycle ends as `_handle` does, with `None` as its value |
| Lifecycle.LifecycleStatus | src/message_bus/event_handlers/base.py:15-20 | `handle` completes iff the before hook, `_handle` and the after hook all return, and then yields `None`. A before-hook exception wins. Otherwise an after-hook exception replaces any exception of `_handle`. Otherwise the exception of `_handle` propagates |
| Lifecycle.LifecycleTrace | src/message_bus/event_handlers/base.py:15-20 | The before hook runs first. If it raises nothing else runs; otherwise `_handle` runs and then the after hook, even when `_handle` raised. Every call gets the same context |
| EventHandlers.EventHandler.constructor | src/message_bus/event_handlers/base.py:8-9 | The buffer starts empty |
| EventHandlers.EventHandler.EmitMessage | src/message_bus/event_handlers/base.py:28-29 | Appends the message at the tail and leaves earlier entries unchanged |
| EventHandlers.EventHandler.Handle | src/message_bus/event_handlers/base.py:15-20 | Status and call sequence are the lifecycle's. The buffer is the old buffer plus, at the tail, whatever the hooks and `_handle` emitted before returning or raising; a raising hook's emissions stay. It is never cleared |
| EventHandlers.EventHandler.EmittedMessages | src/message_bus/event_handlers/base.py:31-33 | The property is the buffer itself, every message the object has emitted, oldest first, neither copied nor cleared; `Dispatch.InvokeEventHandler` enqueues exactly it |
| CommandHandlers.BodyStatus | src/message_bus/command_handlers/base.py:11-13 | A command handler's `handle` ends exactly as its own code does: returns that value or raises that exception, with no wrapper |
| CommandHandlers.CommandHandler.constructor | src/message_bus/command_handlers/base.py:8-9 | The buffer starts empty |
| CommandHandlers.CommandHandler.EmitMessage | src/message_bus/command_handlers/base.py:15-16 | Appends at the tail and changes nothing else |
| CommandHandlers.CommandHandler.Handle | src/message_bus/command_handlers/base.py:11-20 | Ends as the handler's code does. Emissions accumulate on the old buffer, so nothing is reset between calls |
| CommandHandlers.CommandHandler.EmittedMessages | src/message_bus/command_handlers/base.py:18-20 | The property is the buffer itself, neither copied nor cleared; `Dispatch.InvokeCommandHandler` enqueues exactly it |
| OutboxRepository.MissingAttribute | src/message_bus/repositories/outbox.py:10-14 | None iff the record has `id`, `type`, `message` and `payload`. Otherwise it names the first missing attribute in the checking order, and every attribute checked before it is present |
| OutboxRepository.OutboxRepo.GetModel | src/message_bus/repositories/outbox.py:6-8 | Records one call. Returns the record class, or raises iff the implementation raises |
| OutboxRepository.OutboxRepo.Add | src/message_bus/repositories/outbox.py:10-20 | Succeeds iff the four attributes are present and `_add` returns. With the attributes present, `_add` is called exactly once with the unmodified record and its exception propagates. Otherwise the assertion on the first missing attribute fails and `_add` is not called |
| OutboxRepository.OutboxRepo.ListUnprocessed | src/message_bus/repositories/outbox.py:26-28 | Records one call. Returns the store's unprocessed records, or raises iff the store raises |
| OutboxRepository.OutboxRepo.Save | src/message_bus/repositories/outbox.py:30-32 | Records one call, and raises iff the store's commit raises |
| OutboxHandlers.OutboxHandler.Handle | src/message_bus/outbox_handlers/base.py:9-20 | The same lifecycle as event handlers: hook order, the after hook in `finally`, the same context to every call, and `None` as the value |
| Dispatch.EventStatus | src/message_bus/core.py:204-217 | How one event handler call ends: a handler object through its lifecycle `handle`, a callable as its own code does. It depends on the handler's code only, not on buffers; `Dispatch.FanOutSurvivors` and `Dispatch.CountCompleted` are stated in its terms |
| Dispatch.InvokeEventHandler | src/message_bus/core.py:204-217 | A handler object runs its lifecycle. If it completes, its whole buffer, including past emissions, is enqueued. If it raises, nothing is enqueued. A callable enqueues nothing and leaves every buffer as it was |
| Dispatch.CountCompleted | src/message_bus/core.py:201-217 | Counts the handlers that return. It reaches the number of handlers iff every one of them returns |
| Dispatch.FanOut | src/message_bus/core.py:201-219 | Every handler runs, each taking the next invocation index. Command buffers are untouched |
| Dispatch.FanOutCount | src/message_bus/core.py:211-217 | A failing handler is skipped and the others still run. There is one entry per handler that returned, each pairing the event with a result |
| Dispatch.FanOutCallablesOnly | src/message_bus/core.py:205-209 | When every handler is a plain callable, nothing is enqueued and no buffer changes |
| Dispatch.FanOutInOrder | src/message_bus/core.py:201-214 | When every handler returns, entry i is handler i's result, in registration order |
| Dispatch.FanOutSurvivors | src/message_bus/core.py:201-219 | With any mix of returning and raising handlers, the entries are exactly `Survivors`: the result of each handler that returned, in registration order, and nothing for those that raised. They do not depend on the buffers |
| Dispatch.EventStep | src/message_bus/core.py:195-199 | An event class without handlers yields no entry, enqueues nothing, and is not an error |
| Dispatch.InvokeCommandHandler | src/message_bus/core.py:229-244 | The handler's exception aborts `handle`. On return there is exactly one `{"command", "result"}` entry, and a handler object's whole buffer is enqueued |
| Dispatch.CommandStep | src/message_bus/core.py:229-239 | An unregistered command class is a `KeyError` that aborts `handle`. A command that succeeds yields one entry for itself |
| Dispatch.Process | src/message_bus/core.py:176-183 | Event is tested first and never aborts by itself. A message that is neither Event nor Command raises |
| Dispatch.Drain | src/message_bus/core.py:173-185 | The `while queue` loop. The invocation counter only advances and the bound runs out only with messages still queued. `BreadthFirst`, `AbortDiscardsResults`, `UnregisteredEventSkipped` and `FuelMonotone` below are the properties proved about it |
| Dispatch.BreadthFirst | src/message_bus/core.py:170-185 | Strict FIFO. Whatever the queued messages enqueue goes behind everything queued after them, and their entries come first in the result |
| Dispatch.AbortDiscardsResults | src/message_bus/core.py:179-183 | A message that aborts makes `handle` raise that error, whatever came before it. No result list is returned |
| Dispatch.UnregisteredEventSkipped | src/message_bus/core.py:195-199 | `handle` continues with the rest of the queue as if the unregistered event had not been there |
| Dispatch.FuelMonotone | src/message_bus/core.py:173-185 | The model's bound on loop passes only truncates. A run that finishes within one bound finishes identically within any larger one |
| Dispatch.PastEmissionsReenqueued | src/message_bus/core.py:205-207 | A second successful call of the same event handler object enqueues the first call's emissions again, even if the first call raised, in a hook or in `_handle` |
| Dispatch.PastCommandEmissionsReenqueued | src/message_bus/core.py:232-234 | The same for a command handler object invoked twice |
| Dispatch.Batch | src/message_bus/core.py:70-72 | The first message whose `handle` raises is the one reported, and it lies within the batch |
| Dispatch.BatchSequential | src/message_bus/core.py:70-72 | A batch is its first part followed by its second part, in input order. The second part is only reached if the first part was handled completely |
| Outbox.Classify | src/message_bus/core.py:81-86 | Command is tested first giving "COMMAND", then Event giving "EVENT". Anything else is the `TypeError` |
| Outbox.NewRecord | src/message_bus/core.py:88-98 | The record holds the id, the kind, the class name and the payload. It holds `meta` iff the record class has that attribute, and nothing else. It always passes the repository's guard |
| Outbox.RecordSweep | src/message_bus/core.py:114-120 | The inner loop for one record. `RecordSweepSteps`, `RunsUntilFirstFailure` and `SaveFollowsEachSuccess` are the properties proved about it |
| Outbox.RecordSweepSteps | src/message_bus/core.py:114-120 | Each handler step of a record's sweep is a handler of the list, from the starting index on. It runs on that record, with the calls and status its lifecycle gives |
| Outbox.FirstFailure | src/message_bus/core.py:114-120 | The first handler whose run or following `save` raises: everything before it succeeded |
| Outbox.RunsUntilFirstFailure | src/message_bus/core.py:114-120 | Handlers run in registration order, up to and including the first failure (of the handler or of its `save`). The rest are skipped for that record |
| Outbox.SaveFollowsEachSuccess | src/message_bus/core.py:116-117 | `save` is called right after every handler that returns, and at no other time |
| Outbox.Sweep | src/message_bus/core.py:113-120 | The outer loop: each record's inner loop in turn. `SweepConcat` is the property proved about it |
| Outbox.SweepConcat | src/message_bus/core.py:113-120 | A record's failure does not affect other records: the sweep of two lists is the sweep of the first followed by the sweep of the second |
| Core.TurnStops | src/message_bus/core.py:115-120 | A handler that raises ends that record's turn without a `save` |
| Core.TurnSaves | src/message_bus/core.py:115-120 | A handler that returns is followed by exactly one `save`. An exception from `save` ends the record's turn |
| Core.MessageBus.constructor | src/message_bus/core.py:124-141 | A missing or empty mapping gives an empty registry; a non-empty one is kept. The context is empty and there are no outbox handlers |
| Core.MessageBus.GetEventHandlers | src/message_bus/core.py:150-154 | Plain lookup. Succeeds iff the class is registered; an unregistered class is a `KeyError` |
| Core.MessageBus.GetCommandHandler | src/message_bus/core.py:156-160 | Plain lookup. Succeeds iff the class is registered; an unregistered class is a `KeyError` |
| Core.MessageBus.SetEventHandlers | src/message_bus/core.py:143-148 | The class now maps to exactly the new list. Every other class, the command registry, the outbox handlers and the context are unchanged |
| Core.MessageBus.SetCommandHandler | src/message_bus/core.py:162-167 | The class now maps to the new handler. Everything else is unchanged |
| Core.MessageBus.SetOutboxHandlers | src/message_bus/core.py:104-105 | The outbox handler list becomes the new list. Everything else is unchanged |
| Core.MessageBus.HandleEvent | src/message_bus/core.py:187-219 | The entries, the extended queue, the buffers and the invocation counter are those of `EventStep`. Heap buffers stay equal to the specification's |
| Core.MessageBus.RunEventHandlers | src/message_bus/core.py:201-219 | The loop over one class's handlers computes `FanOut` |
| Core.MessageBus.EventHandlerTurn | src/message_bus/core.py:201-217 | One loop pass extends the fan-out progress by one handler |
| Core.MessageBus.CallEventHandler | src/message_bus/core.py:204-217 | One handler call: the entry, the enqueued messages and the buffer are those of `InvokeEventHandler` |
| Core.MessageBus.HandleCommand | src/message_bus/core.py:221-244 | The result, the extended queue and the buffers are those of `CommandStep`. A `KeyError` or the handler's exception propagates |
| Core.MessageBus.Handle | src/message_bus/core.py:169-185 | The outcome and buffers are those of `Drain` on the one-message queue. So breadth-first order, result order and abort behaviour, proved above, hold of the method |
| Core.MessageBus.BatchHandle | src/message_bus/core.py:70-72 | The outcome and buffers are those of `Batch` |
| Core.MessageBus.RegisterOutboxMessage | src/message_bus/core.py:74-102 | When the message is neither Event nor Command: raises before any repository call. An exception of `get_model` or of `serialize` propagates after the `get_model` call only. Otherwise it calls `get_model` then `_add` (through the guarded `add`) with the constructed record, and returns that record unless `_add` raises, whose exception propagates |
| Core.MessageBus.ProcessOutbox | src/message_bus/core.py:107-120 | With no outbox handlers, it returns without calling `list_unprocessed`. An exception of `list_unprocessed` propagates and nothing else runs. Otherwise the steps are `Sweep` over the unprocessed records, and the repository sees one listing and then one `save` per successful handler |
| Core.MessageBus.SweepRecords | src/message_bus/core.py:113-120 | The outer loop visits every record in order, whatever happened to the earlier ones |
| Core.MessageBus.SweepRecord | src/message_bus/core.py:114-120 | The inner loop for one record equals `RecordSweep`, and the log gains exactly its `save` calls |
| Core.MessageBus.OutboxHandlerTurn | src/message_bus/core.py:115-120 | One handler inside the `try`, then `save`. The loop stops when either raised |
| LegacyBus.Invoke | message_bus.py:39-42 | `HandlerABC` instances are called through `.handle`; any other handler is called directly |
| LegacyBus.FirstRaise | message_bus.py:38-44 | The first handler call that raises: every earlier call returned |
| LegacyBus.Dispatched | message_bus.py:35-44 | The specification of one dispatch: calls to the class's handlers in order, up to and including the first that raises; that exception, or every result in registration order |
| LegacyBus.MessageBus.constructor | message_bus.py:22-26 | A missing or empty mapping gives an empty registry; a non-empty one is kept |
| LegacyBus.MessageBus.SetHandlers | message_bus.py:28-29 | Replaces the list of one event class only. Other entries are unchanged and no class is added besides it |
| LegacyBus.MessageBus.Handle | message_bus.py:31-46 | An unregistered class is a `KeyError` before any handler runs. Otherwise handlers run in registration order, each on the input event only. Without a raise it returns every result in order; otherwise the first exception propagates and later handlers do not run |

## Left out

- `AsyncMessageBus` and the `Async*` handler bases (`core.py:247-391`): their point is concurrent fan-out with `asyncio.gather`, and concurrency is not modelled. Their buffer code is the same as the synchronous classes'.
- Logging (`logger.error`, `logger.exception`, `logger.debug`): it has no effect on results, queue or repository.
- The `*args` / `**kwargs` passed through to handlers: they are forwarded unchanged, and the oracles stand for whatever the handlers do with them.
- `OutBoxRepoABC.get`, `_add` and the store behind `get_model`, `list_unprocessed` and `save` belong to the persistence layer. The repository object records the calls the core makes and answers `list_unprocessed` with the records it holds.
- Python aliasing of the dictionaries: the registries passed to the constructors are values in the model. The caller's dict is not shared with the bus.
- The class attribute `MessageBusABC.context` (`core.py:29`): it is shadowed by the instance attribute set in `__init__`. The context is a single value passed unchanged to every handler, and handlers that mutate it are not modelled.
- `issubclass` dispatch is a tag on each registered handler (handler object or plain callable). An object registered both as an event handler and as a command handler, which would share one buffer, is not modelled.
- Handler code emits only through its own `emmit_message` and does not call back into the bus. A hook, `_handle` or plain callable that calls `emmit_message` on another handler object, calls `handle` re-entrantly, or changes the registries (`set_event_handlers` while the loop at `core.py:201` runs over the live list) is not modelled. The "leaves every buffer as it was" parts of `Dispatch.InvokeEventHandler` and `Dispatch.FanOutCallablesOnly` rely on this.
- The registries are keyed by class name. The code keys them by the class object `type(event)` / `type(cmd)` (`core.py:196`, `core.py:230`, `message_bus.py:38`), so two distinct classes with the same `__name__` are one key in the model.
- Exceptions that `except Exception` does not catch (`BaseException` subclasses such as `KeyboardInterrupt`): every exception is modelled as an `Exception`.
- The repository guard is modelled with assertions enabled. Under `python -O` the `assert` statements of `add` would be skipped.
- A subclass that overrides the `handle` of `EventHandlerABC` or `OutboxHandlerABC` instead of `_handle` is not modelled: the base `handle` is assumed.
- `serialize()` is an opaque function parameter. No round-trip through the serializer is claimed.
- The record class returned by `get_model` is described only by whether it has a `meta` attribute. A constructor of that class that raises is not modelled.
- Core.MessageBus.Handle: termination is not claimed. A cascade can re-emit forever, since buffers are never cleared, so the loop is bounded by `fuel` passes and reports `OutOfFuel` when the bound is used up. `Dispatch.FuelMonotone` shows that the bound only truncates a run.
- Core.MessageBus.BatchHandle: each message's `handle` has the same `fuel` bound, and a message that runs out of it ends the batch with `BatchOutOfFuel`.
