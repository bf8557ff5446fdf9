/** The message taxonomy and the values that flow through the bus.

    A message is an instance of some application class.  The bus only looks
    at two things about it: its class, stood for by the class's name, which
    keys the handler registries, and whether that class derives from `Event`, from `Command`,
    from both or from neither (the `isinstance` checks of the dispatcher and
    of the outbox gateway).  The application fields are kept as an opaque
    sequence: nothing in the core reads them. */
module Messages {

  type ClassName = string

  /** Application-defined fields; only their identity matters to the core. */
  type Fields = seq<int>

  datatype Message = Message(cls: ClassName, isEvent: bool, isCommand: bool, fields: Fields)

  /** A value returned by handler code.  `NoneValue` is Python's `None`. */
  datatype Value = NoneValue | Data(token: int)

  /** An exception raised by code outside the core (a handler, a hook, a repository). */
  datatype Exc = Exc(code: nat)

  /** The shared context every handler receives; the core never looks inside it. */
  datatype Context = Context(entries: map<string, string>)

  /** What a call into code outside the core did: returned normally or raised. */
  datatype Effect = Passes | Raises(exc: Exc)

  /** The errors the core raises or lets through. */
  datatype Error =
    | HandlerError(exc: Exc)              // raised by handler or repository code and propagated
    | KeyError(key: ClassName)            // a registry lookup for a class that is not registered
    | NotEventOrCommand(message: Message) // the generic Exception of the dispatch loop
    | UnknownMessageType                  // the TypeError of the outbox gateway
    | AssertionFailed(attribute: string)  // the repository guard found an attribute missing

  datatype Option<T> = None | Some(value: T)

  datatype Result<T> = Success(value: T) | Failure(error: Error)

  /** Concatenation of sequences is associative. */
  lemma Associative<T>(a: seq<T>, b: seq<T>, c: seq<T>)
    ensures a + b + c == a + (b + c)
  {
  }
}
