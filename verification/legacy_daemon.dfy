/**
 The older tree's CPU daemon: each loop iteration first drains the whole queue, then steps the
 older interpreter whatever the run state. Its LoadROM handler resets before loading, and it
 handles SetStateRunning instead of Reset.
 */
module LegacyDaemon {
  import opened Bits
  import opened Messages
  import opened MessageLoop
  import Machine
  import opened Handlers
  import opened Interpreter
  import opened Legacy

  datatype LegacyHandler = LoadRomHandler | SetRunningHandler | Observer(id: nat)

  /** The older run states; steponce is declared but nothing uses it. */
  datatype LegacyRunState = Paused | Running | StepOnce

  /** What the older handlers can reach: the CPU and the run state. */
  datatype Host = Host(cpu: Machine.Cpu, run: LegacyRunState)

  datatype LegacyDaemon = LegacyDaemon(
    host: Host,
    queue: seq<Message>,
    table: Table<LegacyHandler>,
    clockSpeed: nat,
    log: seq<Event<LegacyHandler>>)

  /**
   The older handlers. LoadROM resets the CPU, loads the data at 0x200 and invokes the
   callback if the image was accepted, the error callback if not. SetStateRunning sets the
   run state and invokes the callback.
   */
  function Apply(s: Host, h: LegacyHandler, m: Message): (a: Applied<Host>)
    ensures h == LoadRomHandler ==>
      var l := Machine.LoadRom(LegacyReset(s.cpu), m.data, 0x200);
      a.state == s.(cpu := l.cpu) && a.invoked == [if l.ok then m.callback else m.onError]
    ensures h == SetRunningHandler ==> a.state == s.(run := Running) && a.invoked == [m.callback]
    ensures h.Observer? ==> a == Applied(s, [])
  {
    match h
    case LoadRomHandler =>
      var l := Machine.LoadRom(LegacyReset(s.cpu), m.data, 0x200);
      Applied(s.(cpu := l.cpu), [if l.ok then m.callback else m.onError])
    case SetRunningHandler => Applied(s.(run := Running), [m.callback])
    case Observer(_) => Applied(s, [])
  }

  /** A ROM loaded by the older daemon sits on a freshly reset CPU: outside the image every
      byte is the junk pattern, and PC is at the image's start. */
  lemma LoadedOverReset(s: Host, m: Message)
    requires Machine.LoadRom(LegacyReset(s.cpu), m.data, 0x200).ok
    ensures var c := Apply(s, LoadRomHandler, m).state.cpu;
      c.pc == 0x200 &&
      (forall k :: 0 <= k < |m.data| ==> c.ram[0x200 + k] == m.data[k]) &&
      (forall a :: 0 <= a < Machine.RamSize && !(0x200 <= a < 0x200 + |m.data|) ==> c.ram[a] == 0xCC)
  {
  }

  /** register_message_handler (older tree). */
  function RegisterHandler(d: LegacyDaemon, kind: MessageType, h: LegacyHandler): (r: LegacyDaemon)
    ensures HandlersFor(r.table, kind) == HandlersFor(d.table, kind) + [h]
    ensures forall u :: u != kind ==> HandlersFor(r.table, u) == HandlersFor(d.table, u)
    ensures r == d.(table := r.table)
  {
    var t: Table<LegacyHandler> := d.table[Ordinal(kind) := HandlersFor(d.table, kind) + [h]];
    forall u | u != kind
      ensures HandlersFor(t, u) == HandlersFor(d.table, u)
    {
      if Ordinal(u) == Ordinal(kind) {
        OrdinalInjective(u, kind);
      }
    }
    d.(table := t)
  }

  predicate Standard(t: Table<LegacyHandler>)
  {
    HandlersFor(t, LoadROM) == [LoadRomHandler] && HandlersFor(t, SetStateRunning) == [SetRunningHandler]
    && HandlersFor(t, Reset) == [] && HandlersFor(t, SetStatePaused) == []
  }

  /** The older constructor: an older CPU, paused, LoadROM then SetStateRunning registered. */
  function NewLegacyDaemon(junk: Machine.Cpu, clockSpeed: nat): (d: LegacyDaemon)
    ensures d.host == Host(LegacyNewCpu(junk), Paused)
    ensures d.queue == [] && d.log == [] && Standard(d.table)
  {
    var d0 := LegacyDaemon(Host(LegacyNewCpu(junk), Paused), [], [[], [], [], []], clockSpeed, []);
    RegisterHandler(RegisterHandler(d0, LoadROM, LoadRomHandler), SetStateRunning, SetRunningHandler)
  }

  /** send_message (older tree). */
  function SendMessage(d: LegacyDaemon, m: Message): (r: LegacyDaemon)
    ensures r.queue == d.queue + [m] && r.queue[|d.queue|] == m
    ensures r == d.(queue := r.queue)
  {
    d.(queue := d.queue + [m])
  }

  /** The state the drain leaves, which the step then works on. */
  function AfterDrain(d: LegacyDaemon): Host
  {
    Drain(d.host, d.table, d.queue, Apply).state
  }

  /**
   One pass of the older loop: drain every queued message in order, then step once whatever
   the run state, then pause 1000/speed ms.
   */
  function Iterate(d: LegacyDaemon, other: Effect): (r: LegacyDaemon)
    requires d.clockSpeed > 0 && CanStep(AfterDrain(d).cpu)
    ensures r.queue == [] && r.table == d.table && r.clockSpeed == d.clockSpeed
    ensures |r.log| >= |d.log| && r.log[..|d.log|] == d.log
    ensures PoppedAll(r.log[|d.log|..]) == d.queue
    ensures Steps(r.log[|d.log|..]) == 1
    ensures r.host == AfterDrain(d).(cpu := LegacyStep(AfterDrain(d).cpu, other))
  {
    var dr := Drain(d.host, d.table, d.queue, Apply);
    var events := dr.events + [Stepped(1000 / d.clockSpeed)];
    DrainThenStep(d.host, d.table, d.queue, 1000 / d.clockSpeed);
    assert (d.log + events)[|d.log|..] == events;
    d.(host := dr.state.(cpu := LegacyStep(dr.state.cpu, other)), queue := [], log := d.log + events)
  }

  /** The events of one older iteration: the drain's, then the step. */
  lemma DrainThenStep(s: Host, t: Table<LegacyHandler>, q: seq<Message>, sleepMs: nat)
    ensures var events := Drain(s, t, q, Apply).events + [Stepped(sleepMs)];
      PoppedAll(events) == q && Steps(events) == 1
  {
    DrainIsFifo(s, t, q, Apply);
    ProjectionsAppend(Drain(s, t, q, Apply).events, [Stepped(sleepMs)]);
  }

  /** A paused older daemon still executes: the run state does not gate the step. */
  lemma PausedStillSteps(d: LegacyDaemon, other: Effect)
    requires d.clockSpeed > 0 && CanStep(d.host.cpu) && d.host.run == Paused && d.queue == []
    ensures Iterate(d, other).host == Host(LegacyStep(d.host.cpu, other), Paused)
    ensures Steps(Iterate(d, other).log[|d.log|..]) == 1
  {
  }

  /** With the standard table a SetStateRunning message sets the run state and fires its callback. */
  lemma SetRunningMessage(s: Host, t: Table<LegacyHandler>, m: Message)
    requires Standard(t) && m.kind == SetStateRunning
    ensures var d := Deliver(s, t, m, Apply);
      d.state == s.(run := Running) && Callbacks(d.events) == [m.callback]
  {
    SingleHandler(s, t, m, Apply);
  }

  /** With the standard table a LoadROM message resets, loads, and fires exactly one callback. */
  lemma LoadRomMessage(s: Host, t: Table<LegacyHandler>, m: Message)
    requires Standard(t) && m.kind == LoadROM
    ensures var d := Deliver(s, t, m, Apply);
      var l := Machine.LoadRom(LegacyReset(s.cpu), m.data, 0x200);
      d.state == s.(cpu := l.cpu) && Callbacks(d.events) == [if l.ok then m.callback else m.onError]
  {
    SingleHandler(s, t, m, Apply);
  }

  /** Reset and SetStatePaused messages have no handler in the older tree and are dropped. */
  lemma UnhandledMessagesDropped(d: LegacyDaemon)
    requires Standard(d.table)
    requires forall i :: 0 <= i < |d.queue| ==> d.queue[i].kind in {Reset, SetStatePaused}
    ensures AfterDrain(d) == d.host
    ensures Callbacks(Drain(d.host, d.table, d.queue, Apply).events) == []
  {
    DrainUnhandled(d.host, d.table, d.queue, Apply);
  }
}
