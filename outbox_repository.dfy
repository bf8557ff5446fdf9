/** `OutBoxRepoABC` (src/message_bus/repositories/outbox.py:5-32).  Only
    `add` is concrete: it checks that the record has the four attributes the
    outbox needs and then delegates to the abstract `_add`.  The abstract
    members are the persistence layer, outside the core: the repository
    object records each call the core makes into them, and `list_unprocessed`
    answers with whatever the store currently holds. */
module OutboxRepository {
  import opened Messages

  /** The serialized payload of a message; the serializer is opaque. */
  type Payload = map<string, string>

  type Meta = map<string, string>

  /** The value of one attribute of an outbox record. */
  datatype Attr = UuidAttr(uuid: nat) | TextAttr(text: string) | PayloadAttr(payload: Payload) | MetaAttr(meta: Option<Meta>)

  /** An instance of the repository's record class: its attributes by name. */
  type Record = map<string, Attr>

  /** What `get_model` returns, the record class; the core only asks whether it has `meta`. */
  datatype Schema = Schema(hasMeta: bool)

  /** A call of the core into a member the repository subclass supplies. */
  datatype RepoCall = GetModelCall | InnerAddCall(record: Record) | ListUnprocessedCall | SaveCall

  const RequiredAttributes: seq<string> := ["id", "type", "message", "payload"]

  predicate HasRequiredAttributes(rec: Record)
  {
    forall a :: a in RequiredAttributes ==> a in rec
  }

  /** The attribute whose `assert hasattr` fails first, in the order `add` checks them. */
  function MissingAttribute(rec: Record): (r: Option<string>)
    ensures r.None? <==> HasRequiredAttributes(rec)
    ensures r.Some? ==> r.value in RequiredAttributes && r.value !in rec
    ensures r.Some? ==> forall i :: 0 <= i < |RequiredAttributes| && RequiredAttributes[i] == r.value ==>
                          forall j :: 0 <= j < i ==> RequiredAttributes[j] in rec
  {
    if "id" !in rec then Some("id")
    else if "type" !in rec then Some("type")
    else if "message" !in rec then Some("message")
    else if "payload" !in rec then Some("payload")
    else None
  }

  class OutboxRepo {
    /** The record class `get_model` returns. */
    const model: Schema
    /** The records the store currently reports as unprocessed. */
    var unprocessed: seq<Record>
    /** Every call the core has made into the abstract members, oldest first. */
    var log: seq<RepoCall>

    constructor (model: Schema, unprocessed: seq<Record>)
      ensures this.model == model && this.unprocessed == unprocessed && log == []
    {
      this.model := model;
      this.unprocessed := unprocessed;
      log := [];
    }

    /** `get_model`: `effect` says whether the subclass's implementation raised. */
    method GetModel(effect: Effect) returns (r: Result<Schema>)
      modifies this`log
      ensures log == old(log) + [GetModelCall]
      ensures r.Success? <==> effect.Passes?
      ensures r.Success? ==> r.value == model
      ensures r.Failure? ==> r.error == HandlerError(effect.exc)
    {
      log := log + [GetModelCall];
      r := if effect.Passes? then Success(model) else Failure(HandlerError(effect.exc));
    }

    /** `add`: a record lacking one of the four attributes fails an assertion
        and `_add` is not called; otherwise `_add` is called exactly once with
        the record unchanged, and what it raises (`effect`) propagates.
        `meta` is not among the attributes checked. */
    method Add(rec: Record, effect: Effect) returns (r: Result<()>)
      modifies this`log
      ensures r.Success? <==> HasRequiredAttributes(rec) && effect.Passes?
      ensures HasRequiredAttributes(rec) ==> log == old(log) + [InnerAddCall(rec)]
      ensures HasRequiredAttributes(rec) && r.Failure? ==> r.error == HandlerError(effect.exc)
      ensures !HasRequiredAttributes(rec) ==> log == old(log) && r == Failure(AssertionFailed(MissingAttribute(rec).value))
    {
      var missing := MissingAttribute(rec);
      if missing.Some? {
        r := Failure(AssertionFailed(missing.value));
        return;
      }
      log := log + [InnerAddCall(rec)];
      r := if effect.Passes? then Success(()) else Failure(HandlerError(effect.exc));
    }

    /** `list_unprocessed`: the records the store holds, unless it raises (`effect`). */
    method ListUnprocessed(effect: Effect) returns (r: Result<seq<Record>>)
      modifies this`log
      ensures log == old(log) + [ListUnprocessedCall]
      ensures r.Success? <==> effect.Passes?
      ensures r.Success? ==> r.value == unprocessed
      ensures r.Failure? ==> r.error == HandlerError(effect.exc)
    {
      log := log + [ListUnprocessedCall];
      r := if effect.Passes? then Success(unprocessed) else Failure(HandlerError(effect.exc));
    }

    /** `save`: commits; `effect` says whether the store's commit raised. */
    method Save(effect: Effect) returns (r: Result<()>)
      modifies this`log
      ensures log == old(log) + [SaveCall]
      ensures r.Success? <==> effect.Passes?
      ensures r.Failure? ==> r.error == HandlerError(effect.exc)
    {
      log := log + [SaveCall];
      r := if effect.Passes? then Success(()) else Failure(HandlerError(effect.exc));
    }
  }
}
