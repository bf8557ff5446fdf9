/** The outbox gateway of `MessageBusABC` (src/message_bus/core.py:74-120):
    building the record that `register_outbox_message` hands to the
    repository, and the sweep that `process_outbox` runs over the
    unprocessed records. */
module Outbox {
  import opened Messages
  import opened Lifecycle
  import opened OutboxRepository
  import opened OutboxHandlers

  /** The kind discriminator: the Command test comes first, then Event;
      any other message is a `TypeError`. */
  function Classify(m: Message): (r: Result<string>)
    ensures r.Success? <==> m.isCommand || m.isEvent
    ensures r.Success? ==> r.value == (if m.isCommand then "COMMAND" else "EVENT")
    ensures r.Failure? ==> r.error == UnknownMessageType
  {
    if m.isCommand then Success("COMMAND")
    else if m.isEvent then Success("EVENT")
    else Failure(UnknownMessageType)
  }

  /** The record built from the generated id, the kind, the class name and the
      serialized payload; `meta` is set only when the record class has that
      attribute.  Every such record passes the repository's guard. */
  function NewRecord(id: nat, kind: string, m: Message, payload: Payload, schema: Schema, meta: Option<Meta>): (rec: Record)
    ensures HasRequiredAttributes(rec)
    ensures rec["id"] == UuidAttr(id) && rec["type"] == TextAttr(kind)
    ensures rec["message"] == TextAttr(m.cls) && rec["payload"] == PayloadAttr(payload)
    ensures "meta" in rec <==> schema.hasMeta
    ensures schema.hasMeta ==> rec["meta"] == MetaAttr(meta)
    ensures rec.Keys == {"id", "type", "message", "payload"} + (if schema.hasMeta then {"meta"} else {})
  {
    var attrs := map["id" := UuidAttr(id), "type" := TextAttr(kind), "message" := TextAttr(m.cls), "payload" := PayloadAttr(payload)];
    if schema.hasMeta then attrs["meta" := MetaAttr(meta)] else attrs
  }

  /** Whether each call `register_outbox_message` makes into code outside the
      core raises: the repository's `get_model`, the message's `serialize`
      and the repository's `_add`. */
  datatype RegisterEffects = RegisterEffects(getModel: Effect, serialize: Effect, innerAdd: Effect)

  /** What happens when the sweep gives record i to handler j: what the
      handler's overrides do, and whether the `save` that follows raises. */
  datatype Attempt = Attempt(behaviour: Behaviour, save: Effect)

  type SweepOracle = (nat, nat) -> Attempt

  /** One observable step of the sweep: handler j ran on a record, or `save` was called. */
  datatype SweepEvent = HandlerRan(record: Record, handler: nat, calls: seq<Call<Record>>, status: Status) | SaveRan(effect: Effect)

  /** Handler and save both returned: the sweep goes on to the next handler. */
  predicate Succeeds(a: Attempt)
  {
    LifecycleStatus(a.behaviour).Completed? && a.save.Passes?
  }

  /** The inner loop (core.py:114-120) for record i from handler j on: run the
      handler, then `save`; an exception from either is logged and ends the
      loop for this record. */
  function RecordSweep(rec: Record, i: nat, handlers: seq<OutboxHandler>, j: nat, oracle: SweepOracle, ctx: Context): seq<SweepEvent>
    decreases |handlers| - j
  {
    if j >= |handlers| then []
    else
      var a := oracle(i, j);
      var status := LifecycleStatus(a.behaviour);
      var ran := HandlerRan(rec, j, LifecycleTrace(a.behaviour, rec, ctx), status);
      if status.Failed? then [ran]
      else if a.save.Raises? then [ran, SaveRan(a.save)]
      else [ran, SaveRan(Passes)] + RecordSweep(rec, i, handlers, j + 1, oracle, ctx)
  }

  /** Every handler step of a record's sweep is that record, given to one of
      the handlers from j on through its lifecycle `handle`, with the
      outcome the lifecycle gives. */
  lemma {:induction false} RecordSweepSteps(rec: Record, i: nat, handlers: seq<OutboxHandler>, j: nat, oracle: SweepOracle, ctx: Context)
    ensures forall e :: e in RecordSweep(rec, i, handlers, j, oracle, ctx) && e.HandlerRan? ==>
      && e.record == rec && j <= e.handler < |handlers|
      && e.status == LifecycleStatus(oracle(i, e.handler).behaviour)
      && e.calls == LifecycleTrace(oracle(i, e.handler).behaviour, rec, ctx)
    decreases |handlers| - j
  {
    if j < |handlers| {
      RecordSweepSteps(rec, i, handlers, j + 1, oracle, ctx);
    }
  }

  /** The outer loop (core.py:113): every record, in order, whatever happened to the previous ones. */
  function Sweep(records: seq<Record>, i: nat, handlers: seq<OutboxHandler>, oracle: SweepOracle, ctx: Context): seq<SweepEvent>
    decreases |records|
  {
    if records == [] then []
    else RecordSweep(records[0], i, handlers, 0, oracle, ctx) + Sweep(records[1..], i + 1, handlers, oracle, ctx)
  }

  /** The repository calls a sweep trace implies: one `save` per `SaveRan`. */
  function SaveCalls(t: seq<SweepEvent>): seq<RepoCall>
    decreases |t|
  {
    if t == [] then []
    else SaveCalls(t[..|t| - 1]) + (if t[|t| - 1].SaveRan? then [SaveCall] else [])
  }

  /** The first handler index from j on whose attempt does not succeed, or n. */
  function FirstFailure(i: nat, n: nat, j: nat, oracle: SweepOracle): (f: nat)
    requires j <= n
    ensures j <= f <= n
    ensures forall u :: j <= u < f ==> Succeeds(oracle(i, u))
    ensures f < n ==> !Succeeds(oracle(i, f))
    decreases n - j
  {
    if j == n then n
    else if Succeeds(oracle(i, j)) then FirstFailure(i, n, j + 1, oracle)
    else j
  }

  /** The handler indices of the `HandlerRan` steps of a trace, in order. */
  function HandlersRun(t: seq<SweepEvent>): seq<nat>
    decreases |t|
  {
    if t == [] then []
    else (if t[0].HandlerRan? then [t[0].handler] else []) + HandlersRun(t[1..])
  }

  /** The indices a, a + 1, ..., b - 1. */
  function Range(a: nat, b: nat): (r: seq<nat>)
    ensures |r| == if a <= b then b - a else 0
    ensures forall x :: 0 <= x < |r| ==> r[x] == a + x
    decreases b - a
  {
    if a >= b then [] else [a] + Range(a + 1, b)
  }

  lemma HandlersRunCons(e: SweepEvent, t: seq<SweepEvent>)
    ensures HandlersRun([e] + t) == (if e.HandlerRan? then [e.handler] else []) + HandlersRun(t)
  {
    assert ([e] + t)[1..] == t;
  }

  /** The handler of record i's j-th attempt, its step and what `save` then gives. */
  function SweepHead(rec: Record, i: nat, j: nat, oracle: SweepOracle, ctx: Context): SweepEvent
  {
    HandlerRan(rec, j, LifecycleTrace(oracle(i, j).behaviour, rec, ctx), LifecycleStatus(oracle(i, j).behaviour))
  }

  lemma RecordSweepUnfold(rec: Record, i: nat, handlers: seq<OutboxHandler>, j: nat, oracle: SweepOracle, ctx: Context)
    requires j < |handlers|
    ensures var t := RecordSweep(rec, i, handlers, j, oracle, ctx);
            var a := oracle(i, j);
            t == if LifecycleStatus(a.behaviour).Failed? then [SweepHead(rec, i, j, oracle, ctx)]
                 else if a.save.Raises? then [SweepHead(rec, i, j, oracle, ctx), SaveRan(a.save)]
                 else [SweepHead(rec, i, j, oracle, ctx), SaveRan(Passes)] + RecordSweep(rec, i, handlers, j + 1, oracle, ctx)
  {
  }

  /** One past the last handler index the sweep of a record runs, from j on. */
  function LastRun(i: nat, n: nat, j: nat, oracle: SweepOracle): (last: nat)
    requires j <= n
    ensures j <= last <= n
  {
    var f := FirstFailure(i, n, j, oracle);
    if f < n then f + 1 else f
  }

  lemma RunsStop(rec: Record, i: nat, handlers: seq<OutboxHandler>, j: nat, oracle: SweepOracle, ctx: Context)
    requires j < |handlers| && !Succeeds(oracle(i, j))
    ensures HandlersRun(RecordSweep(rec, i, handlers, j, oracle, ctx)) == [j]
    ensures LastRun(i, |handlers|, j, oracle) == j + 1
  {
    var a := oracle(i, j);
    var head := SweepHead(rec, i, j, oracle, ctx);
    RecordSweepUnfold(rec, i, handlers, j, oracle, ctx);
    if LifecycleStatus(a.behaviour).Failed? {
      HandlersRunCons(head, []);
    } else {
      HandlersRunCons(SaveRan(a.save), []);
      HandlersRunCons(head, [SaveRan(a.save)]);
    }
  }

  lemma RunsContinue(rec: Record, i: nat, handlers: seq<OutboxHandler>, j: nat, oracle: SweepOracle, ctx: Context)
    requires j < |handlers| && Succeeds(oracle(i, j))
    ensures HandlersRun(RecordSweep(rec, i, handlers, j, oracle, ctx))
         == [j] + HandlersRun(RecordSweep(rec, i, handlers, j + 1, oracle, ctx))
    ensures LastRun(i, |handlers|, j, oracle) == LastRun(i, |handlers|, j + 1, oracle)
  {
    var head := SweepHead(rec, i, j, oracle, ctx);
    var rest := RecordSweep(rec, i, handlers, j + 1, oracle, ctx);
    RecordSweepUnfold(rec, i, handlers, j, oracle, ctx);
    HandlersRunCons(SaveRan(Passes), rest);
    Associative([head], [SaveRan(Passes)], rest);
    assert [head] + [SaveRan(Passes)] == [head, SaveRan(Passes)];
    HandlersRunCons(head, [SaveRan(Passes)] + rest);
  }

  /** For one record the handlers run in registration order, from the first
      up to and including the first one that fails (or whose `save` fails);
      the later ones are skipped. */
  lemma {:induction false} RunsUntilFirstFailure(rec: Record, i: nat, handlers: seq<OutboxHandler>, j: nat, oracle: SweepOracle, ctx: Context)
    requires j <= |handlers|
    ensures HandlersRun(RecordSweep(rec, i, handlers, j, oracle, ctx)) == Range(j, LastRun(i, |handlers|, j, oracle))
    decreases |handlers| - j
  {
    if j < |handlers| {
      if Succeeds(oracle(i, j)) {
        RunsContinue(rec, i, handlers, j, oracle, ctx);
        RunsUntilFirstFailure(rec, i, handlers, j + 1, oracle, ctx);
        var last := LastRun(i, |handlers|, j + 1, oracle);
        assert Range(j, last) == [j] + Range(j + 1, last);
      } else {
        RunsStop(rec, i, handlers, j, oracle, ctx);
        assert Range(j, j + 1) == [j] + Range(j + 1, j + 1);
      }
    }
  }

  /** `save` is called right after every handler that returns, and at no other
      time. */
  lemma {:induction false} SaveFollowsEachSuccess(rec: Record, i: nat, handlers: seq<OutboxHandler>, j: nat, oracle: SweepOracle, ctx: Context)
    ensures var t := RecordSweep(rec, i, handlers, j, oracle, ctx);
      && (forall p :: 0 <= p < |t| && t[p].HandlerRan? && t[p].status.Completed? ==>
            p + 1 < |t| && t[p + 1] == SaveRan(oracle(i, t[p].handler).save))
      && (forall p :: 0 <= p < |t| && t[p].SaveRan? ==>
            0 < p && t[p - 1].HandlerRan? && t[p - 1].status.Completed?)
    decreases |handlers| - j
  {
    if j < |handlers| {
      RecordSweepUnfold(rec, i, handlers, j, oracle, ctx);
      var a := oracle(i, j);
      if LifecycleStatus(a.behaviour).Completed? && a.save.Passes? {
        var t := RecordSweep(rec, i, handlers, j, oracle, ctx);
        var rest := RecordSweep(rec, i, handlers, j + 1, oracle, ctx);
        SaveFollowsEachSuccess(rec, i, handlers, j + 1, oracle, ctx);
        forall p | 0 <= p < |t| && t[p].HandlerRan? && t[p].status.Completed?
          ensures p + 1 < |t| && t[p + 1] == SaveRan(oracle(i, t[p].handler).save)
        {
          if p >= 2 {
            assert t[p] == rest[p - 2] && t[p + 1] == rest[p - 1];
          } else {
            assert p == 0;
          }
        }
        forall p | 0 <= p < |t| && t[p].SaveRan?
          ensures 0 < p && t[p - 1].HandlerRan? && t[p - 1].status.Completed?
        {
          if p >= 3 {
            assert t[p] == rest[p - 2] && t[p - 1] == rest[p - 3];
          }
        }
      }
    }
  }

  /** A record's failure affects no other record: the sweep of two lists of
      records is the sweep of the first followed by the sweep of the second. */
  lemma {:induction false} SweepConcat(records1: seq<Record>, records2: seq<Record>, i: nat, handlers: seq<OutboxHandler>, oracle: SweepOracle, ctx: Context)
    ensures Sweep(records1 + records2, i, handlers, oracle, ctx)
         == Sweep(records1, i, handlers, oracle, ctx) + Sweep(records2, i + |records1|, handlers, oracle, ctx)
    decreases |records1|
  {
    if records1 == [] {
      assert records1 + records2 == records2;
    } else {
      assert (records1 + records2)[0] == records1[0];
      assert (records1 + records2)[1..] == records1[1..] + records2;
      SweepConcat(records1[1..], records2, i + 1, handlers, oracle, ctx);
    }
  }
}
