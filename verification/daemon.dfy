/**
 The current tree's CPU daemon as a state machine: a run state, a FIFO of messages, a handler
 table, and an observation log. One loop iteration steps the CPU only when running, then
 drains the whole queue. The thread, its lock and its sleep are not modelled; the length of
 the sleep is recorded with the step.
 */
module Daemon {
  import opened Bits
  import opened Messages
  import opened MessageLoop
  import Machine
  import opened Handlers
  import opened Interpreter

  /** The handlers the daemon registers itself, and any registered from outside, whose code is
      not visible and which are modelled as leaving the CPU alone. */
  datatype Handler = LoadRomHandler | ResetHandler | Observer(id: nat)

  datatype RunState = Paused | Running

  datatype Daemon = Daemon(
    core: Core,
    run: RunState,
    queue: seq<Message>,
    table: Table<Handler>,
    clockSpeed: nat,
    log: seq<Event<Handler>>)

  /** Where ROM images are loaded. */
  const RomBase: u16 := 0x200

  /**
   The daemon's own handlers. LoadROM loads the data at 0x200 without a reset and invokes the
   callback if the image was accepted, the error callback if not. Reset resets the CPU and
   invokes the callback.
   */
  function Apply(k: Core, h: Handler, m: Message): (a: Applied<Core>)
    ensures h == LoadRomHandler ==>
      var l := Machine.LoadRom(k.cpu, m.data, RomBase);
      a.state == k.(cpu := l.cpu) && a.invoked == [if l.ok then m.callback else m.onError]
    ensures h == ResetHandler ==> a.state == k.(cpu := Machine.Reset(k.cpu)) && a.invoked == [m.callback]
    ensures h.Observer? ==> a == Applied(k, [])
    ensures a.state.statics == k.statics
  {
    match h
    case LoadRomHandler =>
      var l := Machine.LoadRom(k.cpu, m.data, RomBase);
      Applied(k.(cpu := l.cpu), [if l.ok then m.callback else m.onError])
    case ResetHandler => Applied(k.(cpu := Machine.Reset(k.cpu)), [m.callback])
    case Observer(_) => Applied(k, [])
  }

  /** register_message_handler: appended to its type's list; no other list changes. */
  function RegisterHandler(d: Daemon, kind: MessageType, h: Handler): (r: Daemon)
    ensures HandlersFor(r.table, kind) == HandlersFor(d.table, kind) + [h]
    ensures forall u :: u != kind ==> HandlersFor(r.table, u) == HandlersFor(d.table, u)
    ensures r == d.(table := r.table)
  {
    var t: Table<Handler> := d.table[Ordinal(kind) := HandlersFor(d.table, kind) + [h]];
    forall u | u != kind
      ensures HandlersFor(t, u) == HandlersFor(d.table, u)
    {
      if Ordinal(u) == Ordinal(kind) {
        OrdinalInjective(u, kind);
      }
    }
    d.(table := t)
  }

  /** The handler table the constructor builds. */
  predicate Standard(t: Table<Handler>)
  {
    HandlersFor(t, LoadROM) == [LoadRomHandler] && HandlersFor(t, Reset) == [ResetHandler]
    && HandlersFor(t, SetStateRunning) == [] && HandlersFor(t, SetStatePaused) == []
  }

  /**
   The constructor: a new CPU, paused, an empty queue, and the LoadROM handler then the Reset
   handler registered. The clock speed is set elsewhere and given here.
   */
  function NewDaemon(junk: Machine.Cpu, clockSpeed: nat): (d: Daemon)
    ensures d.run == Paused && d.queue == [] && d.log == []
    ensures Standard(d.table)
    ensures d.core == Core(NewCpu(junk), Unstarted)
  {
    var d0 := Daemon(Core(NewCpu(junk), Unstarted), Paused, [], [[], [], [], []], clockSpeed, []);
    RegisterHandler(RegisterHandler(d0, LoadROM, LoadRomHandler), Reset, ResetHandler)
  }

  /** send_message: appended to the back of the queue; nothing else changes. */
  function SendMessage(d: Daemon, m: Message): (r: Daemon)
    ensures r.queue == d.queue + [m] && r.queue[|d.queue|] == m
    ensures r == d.(queue := r.queue)
  {
    d.(queue := d.queue + [m])
  }

  /** set_cpu_state: the only way the run state changes. */
  function SetCpuState(d: Daemon, s: RunState): (r: Daemon)
    ensures r.run == s && r == d.(run := r.run)
  {
    d.(run := s)
  }

  /** set_cpu_clockspeed. */
  function SetClockSpeed(d: Daemon, hz: nat): (r: Daemon)
    ensures r.clockSpeed == hz && r == d.(clockSpeed := r.clockSpeed)
  {
    d.(clockSpeed := hz)
  }

  /**
   What a running daemon's step needs: a clock speed to divide by and, unless the interpreter
   has halted (then the step returns before reading anything), a word to fetch at PC.
   */
  predicate Steppable(d: Daemon)
  {
    d.run == Running ==> d.clockSpeed > 0 && (!d.core.statics.killed ==> CanStep(d.core.cpu))
  }

  /** The part of the loop that steps: only when running, then a pause of 1000/speed ms. */
  function MaybeStep(d: Daemon, now: int, other: Effect): (r: Daemon)
    requires Steppable(d)
    ensures d.run == Running ==>
      r == d.(core := Step(d.core, now, other), log := d.log + [Stepped(1000 / d.clockSpeed)])
    ensures d.run == Paused ==> r == d
  {
    if d.run == Running then
      d.(core := Step(d.core, now, other), log := d.log + [Stepped(1000 / d.clockSpeed)])
    else d
  }

  /**
   One pass of cpu_thread's loop: a step if running, then every queued message handled in
   order and popped. The run state, handler table and clock speed are left alone; the queue
   ends empty; the log grows by exactly one step when running and none when paused, and by
   the queued messages' pops in queue order.
   */
  function Iterate(d: Daemon, now: int, other: Effect): (r: Daemon)
    requires Steppable(d)
    ensures r.queue == []
    ensures r.run == d.run && r.table == d.table && r.clockSpeed == d.clockSpeed
    ensures |r.log| >= |d.log| && r.log[..|d.log|] == d.log
    ensures PoppedAll(r.log[|d.log|..]) == d.queue
    ensures Steps(r.log[|d.log|..]) == if d.run == Running then 1 else 0
    ensures r.core == Drain(if d.run == Running then Step(d.core, now, other) else d.core, d.table, d.queue, Apply).state
  {
    var d1 := MaybeStep(d, now, other);
    var dr := Drain(d1.core, d.table, d.queue, Apply);
    var r := d1.(core := dr.state, queue := [], log := d1.log + dr.events);
    DrainIsFifo(d1.core, d.table, d.queue, Apply);
    assert r.log[|d.log|..] == d1.log[|d.log|..] + dr.events;
    ProjectionsAppend(d1.log[|d.log|..], dr.events);
    r
  }

  /**
   Step first, then drain: a running daemon with one LoadROM message queued loads the image
   over the memory the step left, not the memory before it.
   */
  lemma RunningStepThenLoad(d: Daemon, m: Message, now: int, other: Effect)
    requires Steppable(d) && d.run == Running && Standard(d.table) && d.queue == [m] && m.kind == LoadROM
    ensures Iterate(d, now, other).core.cpu == Machine.LoadRom(Step(d.core, now, other).cpu, m.data, RomBase).cpu
    ensures Iterate(d, now, other).core.statics == Step(d.core, now, other).statics
  {
    var k := Step(d.core, now, other);
    LoadRomMessage(k, d.table, m);
    var dl := Deliver(k, d.table, m, Apply);
    assert [m][1..] == [];
    assert Drain(k, d.table, [m], Apply).state == Drain(dl.state, d.table, [], Apply).state;
  }

  /** With the standard table a LoadROM message loads at 0x200 and fires exactly one callback. */
  lemma LoadRomMessage(k: Core, t: Table<Handler>, m: Message)
    requires Standard(t) && m.kind == LoadROM
    ensures var d := Deliver(k, t, m, Apply);
      var l := Machine.LoadRom(k.cpu, m.data, RomBase);
      d.state == k.(cpu := l.cpu) &&
      Callbacks(d.events) == [if l.ok then m.callback else m.onError]
  {
    SingleHandler(k, t, m, Apply);
  }

  /** With the standard table a Reset message resets the CPU, not the halt flag, and fires the callback. */
  lemma ResetMessage(k: Core, t: Table<Handler>, m: Message)
    requires Standard(t) && m.kind == Reset
    ensures var d := Deliver(k, t, m, Apply);
      d.state == Core(Machine.Reset(k.cpu), k.statics) && Callbacks(d.events) == [m.callback]
  {
    SingleHandler(k, t, m, Apply);
  }

  /**
   Run-state messages have no handler: a paused daemon whose queue holds only such messages
   ends the iteration paused, with the CPU untouched and no callback fired.
   */
  lemma RunStateMessagesIgnored(d: Daemon, now: int, other: Effect)
    requires Standard(d.table) && d.run == Paused
    requires forall i :: 0 <= i < |d.queue| ==> d.queue[i].kind in {SetStateRunning, SetStatePaused}
    ensures Iterate(d, now, other).run == Paused
    ensures Iterate(d, now, other).core == d.core
    ensures Callbacks(Iterate(d, now, other).log[|d.log|..]) == []
  {
    DrainUnhandled(d.core, d.table, d.queue, Apply);
    var r := Iterate(d, now, other);
    assert r.log[|d.log|..] == Drain(d.core, d.table, d.queue, Apply).events;
  }

  /** A message sent before an iteration is handled by it, after everything queued before it. */
  lemma SentMessageHandledLast(d: Daemon, m: Message, now: int, other: Effect)
    requires Steppable(d)
    ensures var r := Iterate(SendMessage(d, m), now, other);
      PoppedAll(r.log[|d.log|..]) == d.queue + [m] && r.queue == []
  {
  }
}
