/**
 Messages sent to the CPU daemon. Callbacks are opaque code in the source; here each is a tag,
 and invoking one is recorded as an event, so "exactly one callback fired" is observable.
 */
module Messages {
  import opened Bits

  /** The message types, in declaration order. */
  datatype MessageType = Reset | LoadROM | SetStateRunning | SetStatePaused

  /** The enum's trailing _last: the number of message types and the handler table's size. */
  const Last := 4

  /** The enum value of a message type. */
  function Ordinal(t: MessageType): (i: nat)
    ensures i < Last
  {
    match t
    case Reset => 0
    case LoadROM => 1
    case SetStateRunning => 2
    case SetStatePaused => 3
  }

  /** Distinct types have distinct handler lists. */
  lemma OrdinalInjective(a: MessageType, b: MessageType)
    requires Ordinal(a) == Ordinal(b)
    ensures a == b
  {
  }

  /** A callback: the empty lambda the constructors default to, or caller-supplied code. */
  datatype Action = NoOp | Notify(id: nat)

  datatype Message = Message(kind: MessageType, data: seq<byte>, callback: Action, onError: Action)

  /** cpu_message(type): no data, both callbacks empty. */
  function OfType(kind: MessageType): (m: Message)
    ensures m.kind == kind && m.data == []
    ensures m.callback == NoOp && m.onError == NoOp
  {
    Message(kind, [], NoOp, NoOp)
  }

  /** cpu_message(type, data): the data verbatim, both callbacks empty. */
  function WithData(kind: MessageType, data: seq<byte>): (m: Message)
    ensures m.kind == kind && m.data == data
    ensures m.callback == NoOp && m.onError == NoOp
  {
    Message(kind, data, NoOp, NoOp)
  }

  /** cpu_message(type, data, callback): the error callback defaults to empty. */
  function WithCallback(kind: MessageType, data: seq<byte>, callback: Action): (m: Message)
    ensures m.kind == kind && m.data == data && m.callback == callback
    ensures m.onError == NoOp
  {
    Message(kind, data, callback, NoOp)
  }

  /** cpu_message(type, data, callback, error): everything stored unchanged. */
  function WithHandlers(kind: MessageType, data: seq<byte>, callback: Action, onError: Action): (m: Message)
    ensures m.kind == kind && m.data == data && m.callback == callback && m.onError == onError
  {
    Message(kind, data, callback, onError)
  }

  /** Each shorter constructor is the next longer one with a default filled in. */
  lemma ConstructorsNest(kind: MessageType, data: seq<byte>, callback: Action)
    ensures OfType(kind) == WithData(kind, [])
    ensures WithData(kind, data) == WithCallback(kind, data, NoOp)
    ensures WithCallback(kind, data, callback) == WithHandlers(kind, data, callback, NoOp)
  {
  }

  /** Any message can be rebuilt from its fields with the four-argument constructor. */
  lemma FullConstructorCovers(m: Message)
    ensures WithHandlers(m.kind, m.data, m.callback, m.onError) == m
  {
  }

  /**
   What a daemon observably does: one CPU step (with the pause that follows it), one handler
   run on a message, one callback invoked, one message removed from the queue.
   */
  datatype Event<H> =
    | Stepped(sleepMs: nat)
    | Handled(handler: H, kind: MessageType)
    | Invoked(action: Action)
    | Popped(message: Message)
}
