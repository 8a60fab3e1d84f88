/**
 One step of the current interpreter: fetch the word at PC, resolve it through the handler
 trie, update the timers, run the handler and apply the PC rule. The clock reading is an input
 (milliseconds) and the two function-local statics of the step live in their own record.
 */
module Interpreter {
  import opened Bits
  import opened Optional
  import opened Codec
  import opened Opcodes
  import opened Trie
  import opened Dispatch
  import opened Machine
  import opened Handlers

  /** 1000/60 in integer arithmetic: the timers' period in milliseconds. */
  const TickMs := 16

  /**
   The two statics local to the step: the time of the last timer update, which the first step
   initialises, and the halt flag set by an unknown opcode. Being local to the step, neither is
   reachable from reset.
   */
  datatype Statics = Statics(lastClock: Option<int>, killed: bool)

  /** The statics before the first step. */
  const Unstarted := Statics(None, false)

  datatype Core = Core(cpu: Cpu, statics: Statics)

  /** A constructed CPU: handlers registered, then reset. The last key is an empty optional,
      as default construction leaves it; the other fields reset leaves alone keep whatever the
      uninitialised storage held, given here as junk. */
  function NewCpu(junk: Cpu): (r: Cpu)
    ensures r.ops == OpTree()
    ensures r == Reset(r)
    ensures r.sp == junk.sp && r.i == junk.i && r.screen == junk.screen && r.mode == junk.mode
    ensures r.lastKey == None
  {
    ResetIdempotent(junk.(ops := OpTree(), lastKey := None));
    Reset(junk.(ops := OpTree(), lastKey := None))
  }

  /** A timer after ticks periods: it counts down and stops at 0 instead of wrapping. */
  function CountDown(t: byte, ticks: nat): (r: byte)
    ensures r <= t
    ensures r == 0 <==> ticks >= t
    ensures r > 0 ==> r + ticks == t
  {
    if ticks >= t then 0 else t - ticks
  }

  /** Counting down in two goes is counting down once by the sum. */
  lemma CountDownAdds(t: byte, a: nat, b: nat)
    ensures CountDown(CountDown(t, a), b) == CountDown(t, a + b)
  {
  }

  /**
   The timer update of a step: only when more than 16 ms have passed since the last update,
   both timers count down by the whole periods elapsed and the clock is re-read; the
   remainder of a period is dropped.
   */
  function UpdateTimers(k: Core, now: int): (r: Core)
    requires k.statics.lastClock.Some?
    ensures var e := now - k.statics.lastClock.value;
      if e > TickMs then
        r.statics == Statics(Some(now), k.statics.killed) &&
        r.cpu.dt == CountDown(k.cpu.dt, e / TickMs) && r.cpu.st == CountDown(k.cpu.st, e / TickMs)
      else r == k
    ensures r.cpu.dt <= k.cpu.dt && r.cpu.st <= k.cpu.st
    ensures r.cpu == k.cpu.(dt := r.cpu.dt, st := r.cpu.st)
  {
    var e := now - k.statics.lastClock.value;
    if e > TickMs then
      var ticks := e / TickMs;
      Core(k.cpu.(dt := CountDown(k.cpu.dt, ticks), st := CountDown(k.cpu.st, ticks)),
           k.statics.(lastClock := Some(now)))
    else
      k
  }

  /** The word at PC. */
  function Fetch(c: Cpu): u16
    requires c.pc + 1 < RamSize
  {
    ReadU16(c, c.pc)
  }

  /** What a step needs of the state: a fetch inside memory and a RET that indexes the stack. */
  predicate CanStep(c: Cpu)
  {
    c.pc + 1 < RamSize && (Lookup(c.ops, Fetch(c)) == Some(Ret) ==> c.sp < StackDepth)
  }

  /** The PC rule: if the handler left PC where it was, move on to the next instruction. */
  function Advance(saved: u16, c: Cpu): (r: Cpu)
    ensures c.pc == saved ==> r.pc == (saved + 2) % 0x1_0000
    ensures c.pc != saved ==> r.pc == c.pc
    ensures r == c.(pc := r.pc)
  {
    if c.pc == saved then c.(pc := (saved + 2) % 0x1_0000) else c
  }

  /** The clock static is initialised by the first step to run, before anything else. */
  function Started(k: Core, now: int): (r: Core)
    ensures r.statics.lastClock.Some?
    ensures k.statics.lastClock.None? ==> r.statics.lastClock == Some(now)
    ensures k.statics.lastClock.Some? ==> r == k
    ensures r.cpu == k.cpu && r.statics.killed == k.statics.killed
  {
    if k.statics.lastClock.None? then k.(statics := k.statics.(lastClock := Some(now))) else k
  }

  /**
   execute_op_at_pc. Once halted nothing happens. An unknown word halts the interpreter and
   changes nothing else (PC stays put). A known word updates the timers, runs the handler and
   applies the PC rule.
   */
  function Step(k: Core, now: int, other: Effect): (r: Core)
    requires !k.statics.killed ==> CanStep(k.cpu)
    ensures r.statics.lastClock.Some?
    ensures k.statics.killed ==> r == Started(k, now)
    ensures r.statics.killed <==> k.statics.killed || Lookup(k.cpu.ops, Fetch(k.cpu)) == None
    ensures !k.statics.killed && Lookup(k.cpu.ops, Fetch(k.cpu)) == None ==>
              r.cpu == k.cpu && r.statics.lastClock == Started(k, now).statics.lastClock
    ensures !k.statics.killed && Lookup(k.cpu.ops, Fetch(k.cpu)) != None ==>
              var t := UpdateTimers(Started(k, now), now);
              var e := Execute(Lookup(k.cpu.ops, Fetch(k.cpu)).value, OperandsOf(Fetch(k.cpu)), t.cpu, other);
              r == Core(Advance(k.cpu.pc, e), t.statics)
  {
    var k0 := Started(k, now);
    if k0.statics.killed then k0
    else
      var w := Fetch(k0.cpu);
      match Lookup(k0.cpu.ops, w)
      case None => k0.(statics := k0.statics.(killed := true))
      case Some(op) =>
        var t := UpdateTimers(k0, now);
        var e := Execute(op, OperandsOf(w), t.cpu, other);
        Core(Advance(k0.cpu.pc, e), t.statics)
  }

  /** The timer update of the first step finds no time elapsed, whatever the clock reads. */
  lemma FirstUpdateIsIdle(c: Cpu, now: int)
    ensures UpdateTimers(Started(Core(c, Unstarted), now), now) == Started(Core(c, Unstarted), now)
    ensures Started(Core(c, Unstarted), now) == Core(c, Statics(Some(now), false))
  {
  }

  /**
   The first step only starts the clock: whatever handler the word resolves to, it runs on
   the timers as they were, and the statics end as the clock just read and no halt.
   */
  lemma FirstStepKeepsTimers(c: Cpu, now: int, other: Effect)
    requires CanStep(c) && Lookup(c.ops, Fetch(c)).Some?
    ensures Step(Core(c, Unstarted), now, other) ==
              Core(Advance(c.pc, Execute(Lookup(c.ops, Fetch(c)).value, OperandsOf(Fetch(c)), c, other)),
                   Statics(Some(now), false))
    ensures Lookup(c.ops, Fetch(c)) == Some(Jp) ==>
              Step(Core(c, Unstarted), now, other).cpu.dt == c.dt &&
              Step(Core(c, Unstarted), now, other).cpu.st == c.st
  {
    FirstUpdateIsIdle(c, now);
  }

  /** Once halted, every later step is a no-op, whatever the clock and handlers say. */
  lemma HaltIsSticky(k: Core, now: int, later: int, other: Effect)
    requires k.statics.killed
    ensures Step(k, now, other).cpu == k.cpu
    ensures Step(Step(k, now, other), later, other) == Step(k, now, other)
  {
  }

  /** Reset does not reach the halt flag: a halted interpreter stays halted after a reset. */
  lemma HaltSurvivesReset(k: Core, now: int, other: Effect)
    requires k.statics.killed && k.statics.lastClock.Some?
    ensures Step(Core(Reset(k.cpu), k.statics), now, other) == Core(Reset(k.cpu), k.statics)
  {
  }

  /** An unknown word does not move PC: the interpreter halts on it. */
  lemma UnknownHaltsInPlace(k: Core, now: int, other: Effect)
    requires CanStep(k.cpu) && !k.statics.killed && Lookup(k.cpu.ops, Fetch(k.cpu)) == None
    ensures Step(k, now, other).cpu.pc == k.cpu.pc
    ensures Step(k, now, other).statics.killed
  {
  }

  /**
   A JP to its own address leaves PC equal to the saved PC, so the PC rule still moves past it:
   the self-loop idiom is not an idle loop here.
   */
  lemma JumpToSelfAdvances(k: Core, now: int, other: Effect)
    requires CanStep(k.cpu) && !k.statics.killed
    requires Lookup(k.cpu.ops, Fetch(k.cpu)) == Some(Jp)
    requires OperandsOf(Fetch(k.cpu)).nnn == k.cpu.pc
    ensures Step(k, now, other).cpu.pc == k.cpu.pc + 2
  {
  }

  /** A JP anywhere else lands on its target. */
  lemma JumpElsewhereLands(k: Core, now: int, other: Effect)
    requires CanStep(k.cpu) && !k.statics.killed
    requires Lookup(k.cpu.ops, Fetch(k.cpu)) == Some(Jp)
    requires OperandsOf(Fetch(k.cpu)).nnn != k.cpu.pc
    ensures Step(k, now, other).cpu.pc == OperandsOf(Fetch(k.cpu)).nnn
  {
  }

  /** On the registered trie, a word of the form 1nnn is a jump. */
  lemma JumpWordDispatches(k: Core, now: int, other: Effect)
    requires CanStep(k.cpu) && !k.statics.killed && k.cpu.ops == OpTree()
    requires Nibbles(Fetch(k.cpu))[0] == 1
    ensures Lookup(k.cpu.ops, Fetch(k.cpu)) == Some(Jp)
    ensures Step(k, now, other).cpu.pc ==
              if OperandsOf(Fetch(k.cpu)).nnn == k.cpu.pc then k.cpu.pc + 2 else OperandsOf(Fetch(k.cpu)).nnn
  {
    OpTreeResolvesByTable(Fetch(k.cpu));
  }

  /** A RET pops the return address and advances past it only if it equals the saved PC. */
  lemma ReturnStep(k: Core, now: int, other: Effect)
    requires CanStep(k.cpu) && !k.statics.killed
    requires Lookup(k.cpu.ops, Fetch(k.cpu)) == Some(Ret)
    ensures var r := Step(k, now, other).cpu;
      (r.sp + 1) % 0x100 == k.cpu.sp &&
      r.pc == (if k.cpu.stack[k.cpu.sp] == k.cpu.pc then (k.cpu.pc + 2) % 0x1_0000 else k.cpu.stack[k.cpu.sp]) &&
      r.ram == k.cpu.ram && r.v == k.cpu.v && r.i == k.cpu.i
  {
  }
}
