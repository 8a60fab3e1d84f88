/**
 The message-draining half of a daemon loop iteration, shared by both trees: while the queue
 is not empty, run every handler registered for the front message's type in registration
 order, then pop it. What a handler does to the daemon is a parameter.
 */
module MessageLoop {
  import opened Messages

  /** A handler table: one list of handlers per message type, indexed by the type's ordinal. */
  type Table<H> = t: seq<seq<H>> | |t| == Last witness [[], [], [], []]

  function HandlersFor<H>(t: Table<H>, kind: MessageType): seq<H>
  {
    t[Ordinal(kind)]
  }

  /** The state a handler left and the callbacks it invoked, in order. */
  datatype Applied<S> = Applied(state: S, invoked: seq<Action>)

  datatype Drained<S, H> = Drained(state: S, events: seq<Event<H>>)

  function InvokedAll<H>(acts: seq<Action>): (es: seq<Event<H>>)
    ensures |es| == |acts|
    ensures forall i :: 0 <= i < |es| ==> es[i] == Invoked(acts[i])
  {
    seq(|acts|, i requires 0 <= i < |acts| => Invoked(acts[i]))
  }

  /** The handlers recorded as run, in order. */
  function HandlersRun<H>(es: seq<Event<H>>): seq<H>
  {
    if |es| == 0 then []
    else (if es[0].Handled? then [es[0].handler] else []) + HandlersRun(es[1..])
  }

  /** The messages recorded as removed from the queue, in order. */
  function PoppedAll<H>(es: seq<Event<H>>): seq<Message>
  {
    if |es| == 0 then []
    else (if es[0].Popped? then [es[0].message] else []) + PoppedAll(es[1..])
  }

  /** The callbacks recorded as invoked, in order. */
  function Callbacks<H>(es: seq<Event<H>>): seq<Action>
  {
    if |es| == 0 then []
    else (if es[0].Invoked? then [es[0].action] else []) + Callbacks(es[1..])
  }

  /** The number of CPU steps recorded. */
  function Steps<H>(es: seq<Event<H>>): nat
  {
    if |es| == 0 then 0 else (if es[0].Stepped? then 1 else 0) + Steps(es[1..])
  }

  lemma {:induction false} ProjectionsAppend<H>(a: seq<Event<H>>, b: seq<Event<H>>)
    ensures HandlersRun(a + b) == HandlersRun(a) + HandlersRun(b)
    ensures PoppedAll(a + b) == PoppedAll(a) + PoppedAll(b)
    ensures Callbacks(a + b) == Callbacks(a) + Callbacks(b)
    ensures Steps(a + b) == Steps(a) + Steps(b)
  {
    if |a| > 0 {
      assert (a + b)[1..] == a[1..] + b;
      ProjectionsAppend(a[1..], b);
    } else {
      assert a + b == b;
    }
  }

  lemma {:induction false} InvokedOnly<H>(acts: seq<Action>)
    ensures HandlersRun(InvokedAll<H>(acts)) == []
    ensures PoppedAll(InvokedAll<H>(acts)) == []
    ensures Callbacks(InvokedAll<H>(acts)) == acts
    ensures Steps(InvokedAll<H>(acts)) == 0
  {
    if |acts| > 0 {
      assert InvokedAll<H>(acts)[1..] == InvokedAll<H>(acts[1..]);
      InvokedOnly<H>(acts[1..]);
    }
  }

  /** Run the handlers hs on m one after another; each run is recorded, then its callbacks. */
  function RunHandlers<S, H>(s: S, hs: seq<H>, m: Message, apply: (S, H, Message) -> Applied<S>): Drained<S, H>
    decreases |hs|
  {
    if |hs| == 0 then Drained(s, [])
    else
      var a := apply(s, hs[0], m);
      var rest := RunHandlers(a.state, hs[1..], m, apply);
      Drained(rest.state, [Handled(hs[0], m.kind)] + InvokedAll(a.invoked) + rest.events)
  }

  /** Every handler given is run, in order, and running handlers neither steps nor pops. */
  lemma {:induction false} RunHandlersRunsAll<S, H>(s: S, hs: seq<H>, m: Message, apply: (S, H, Message) -> Applied<S>)
    ensures var d := RunHandlers(s, hs, m, apply);
      HandlersRun(d.events) == hs && PoppedAll(d.events) == [] && Steps(d.events) == 0
    decreases |hs|
  {
    if |hs| > 0 {
      var a := apply(s, hs[0], m);
      var rest := RunHandlers(a.state, hs[1..], m, apply);
      RunHandlersRunsAll(a.state, hs[1..], m, apply);
      InvokedOnly<H>(a.invoked);
      ProjectionsAppend<H>([Handled(hs[0], m.kind)], InvokedAll(a.invoked));
      ProjectionsAppend([Handled(hs[0], m.kind)] + InvokedAll(a.invoked), rest.events);
      assert HandlersRun<H>([Handled(hs[0], m.kind)]) == [hs[0]];
      assert [hs[0]] + hs[1..] == hs;
    }
  }

  /** One message: all the handlers registered for its type, then the pop. */
  function Deliver<S, H>(s: S, t: Table<H>, m: Message, apply: (S, H, Message) -> Applied<S>): (d: Drained<S, H>)
    ensures HandlersRun(d.events) == HandlersFor(t, m.kind)
    ensures PoppedAll(d.events) == [m]
    ensures Steps(d.events) == 0
    ensures HandlersFor(t, m.kind) == [] ==> d == Drained(s, [Popped(m)])
  {
    var r := RunHandlers(s, HandlersFor(t, m.kind), m, apply);
    RunHandlersRunsAll(s, HandlersFor(t, m.kind), m, apply);
    ProjectionsAppend(r.events, [Popped(m)]);
    Drained(r.state, r.events + [Popped(m)])
  }

  /** A type with a single handler: it runs once and only its callbacks are invoked. */
  lemma SingleHandler<S, H>(s: S, t: Table<H>, m: Message, apply: (S, H, Message) -> Applied<S>)
    requires |HandlersFor(t, m.kind)| == 1
    ensures var h := HandlersFor(t, m.kind)[0];
      var a := apply(s, h, m);
      var d := Deliver(s, t, m, apply);
      d.state == a.state && Callbacks(d.events) == a.invoked
  {
    var hs := HandlersFor(t, m.kind);
    var h := hs[0];
    var a := apply(s, h, m);
    assert hs[1..] == [];
    assert RunHandlers(a.state, hs[1..], m, apply) == Drained(a.state, []);
    var r := RunHandlers(s, hs, m, apply);
    assert r == Drained(a.state, [Handled(h, m.kind)] + InvokedAll(a.invoked) + []);
    InvokedOnly<H>(a.invoked);
    ProjectionsAppend<H>([Handled(h, m.kind)], InvokedAll(a.invoked));
    ProjectionsAppend<H>([Handled(h, m.kind)] + InvokedAll(a.invoked), []);
    ProjectionsAppend<H>(r.events, [Popped(m)]);
  }

  /** Messages of types nobody handles are discarded without touching the state. */
  lemma {:induction false} DrainUnhandled<S, H>(s: S, t: Table<H>, q: seq<Message>, apply: (S, H, Message) -> Applied<S>)
    requires forall i :: 0 <= i < |q| ==> HandlersFor(t, q[i].kind) == []
    ensures Drain(s, t, q, apply).state == s
    ensures Callbacks(Drain(s, t, q, apply).events) == []
    decreases |q|
  {
    if |q| > 0 {
      var d := Deliver(s, t, q[0], apply);
      assert d == Drained(s, [Popped(q[0])]);
      DrainUnhandled(s, t, q[1..], apply);
      ProjectionsAppend(d.events, Drain(s, t, q[1..], apply).events);
    }
  }

  /** Handle and pop messages until the queue is empty. */
  function Drain<S, H>(s: S, t: Table<H>, q: seq<Message>, apply: (S, H, Message) -> Applied<S>): Drained<S, H>
    decreases |q|
  {
    if |q| == 0 then Drained(s, [])
    else
      var d := Deliver(s, t, q[0], apply);
      var rest := Drain(d.state, t, q[1..], apply);
      Drained(rest.state, d.events + rest.events)
  }

  /** The handlers registered for each queued message's type, message after message. */
  function QueuedHandlers<H>(t: Table<H>, q: seq<Message>): seq<H>
    decreases |q|
  {
    if |q| == 0 then [] else HandlersFor(t, q[0].kind) + QueuedHandlers(t, q[1..])
  }

  /**
   Messages are removed in the order they were queued, every one of them, each after all the
   handlers of its type have run in registration order, and no step happens.
   */
  lemma {:induction false} DrainIsFifo<S, H>(s: S, t: Table<H>, q: seq<Message>, apply: (S, H, Message) -> Applied<S>)
    ensures PoppedAll(Drain(s, t, q, apply).events) == q
    ensures HandlersRun(Drain(s, t, q, apply).events) == QueuedHandlers(t, q)
    ensures Steps(Drain(s, t, q, apply).events) == 0
    decreases |q|
  {
    if |q| > 0 {
      var d := Deliver(s, t, q[0], apply);
      DrainIsFifo(d.state, t, q[1..], apply);
      ProjectionsAppend(d.events, Drain(d.state, t, q[1..], apply).events);
      assert [q[0]] + q[1..] == q;
    }
  }

  /** Draining two queues one after the other is draining their concatenation. */
  lemma {:induction false} DrainAppend<S, H>(s: S, t: Table<H>, q1: seq<Message>, q2: seq<Message>, apply: (S, H, Message) -> Applied<S>)
    ensures var a := Drain(s, t, q1, apply);
      var b := Drain(a.state, t, q2, apply);
      Drain(s, t, q1 + q2, apply) == Drained(b.state, a.events + b.events)
    decreases |q1|
  {
    if |q1| > 0 {
      var d := Deliver(s, t, q1[0], apply);
      assert (q1 + q2)[0] == q1[0];
      assert (q1 + q2)[1..] == q1[1..] + q2;
      DrainAppend(d.state, t, q1[1..], q2, apply);
    } else {
      assert q1 + q2 == q2;
    }
  }
}
