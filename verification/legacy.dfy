/**
 The older interpreter tree: a reset that fills memory and stack with junk patterns and loads
 no font, a 21-handler trie, a step with no halt state that lights a debug pixel, and a
 disassembler that writes into one stream shared by all its calls.
 */
module Legacy {
  import opened Bits
  import opened Optional
  import opened Codec
  import opened Opcodes
  import opened Trie
  import opened Dispatch
  import opened Machine
  import opened Handlers
  import opened Interpreter

  /** reset (older tree): registers 0, memory 0xCC, PC 0x200, stack 0xBEEF; nothing else touched. */
  function LegacyReset(c: Cpu): (r: Cpu)
    ensures r.pc == 0x200
    ensures forall k :: 0 <= k < RegisterCount ==> r.v[k] == 0
    ensures forall a :: 0 <= a < RamSize ==> r.ram[a] == 0xCC
    ensures forall k :: 0 <= k < StackDepth ==> r.stack[k] == 0xBEEF
    ensures r == c.(v := r.v, ram := r.ram, pc := r.pc, stack := r.stack)
  {
    c.(v := seq(RegisterCount, _ => 0), ram := seq(RamSize, _ => 0xCC), pc := 0x200,
       stack := seq(StackDepth, _ => 0xBEEF))
  }

  /** No font: the glyph area holds the junk pattern, so the digit 0 is not drawable. */
  lemma LegacyResetHasNoFont(c: Cpu)
    ensures LegacyReset(c).ram[0] != Reset(c).ram[0]
    ensures LegacyReset(c).dt == c.dt && LegacyReset(c).sp == c.sp && LegacyReset(c).i == c.i
  {
    assert Reset(c).ram[0] == Glyphs[0][0];
  }

  /** The older constructor: the 21 handlers, then the older reset. The pressed key starts as
      an empty optional. */
  function LegacyNewCpu(junk: Cpu): (r: Cpu)
    ensures r.ops == LegacyOpTree()
    ensures r == LegacyReset(r)
    ensures r.dt == junk.dt && r.st == junk.st && r.sp == junk.sp && r.i == junk.i
    ensures r.lastKey == None
  {
    LegacyReset(junk.(ops := LegacyOpTree(), lastKey := None))
  }

  /** The pixel the older step turns on after every handler it runs. */
  const DebugX: byte := 2
  const DebugY: byte := 2

  /**
   execute_op_at_pc (older tree). An unknown word changes nothing at all, so the same word is
   fetched again next time. A known word runs its handler, lights pixel (2, 2) and applies the
   PC rule. There are no timers and no halt state.
   */
  function LegacyStep(c: Cpu, other: Effect): (r: Cpu)
    requires CanStep(c)
    ensures Lookup(c.ops, Fetch(c)) == None ==> r == c
    ensures Lookup(c.ops, Fetch(c)) != None ==>
              var e := Execute(Lookup(c.ops, Fetch(c)).value, OperandsOf(Fetch(c)), c, other);
              r.pc == (if e.pc == c.pc then (c.pc + 2) % 0x1_0000 else e.pc) &&
              r.mode == e.mode && GetScreenXY(r, DebugX, DebugY) &&
              r == e.(pc := r.pc, screen := r.screen) &&
              forall k :: 0 <= k < ScreenWidth * ScreenHeight && k != PixelIndex(e.mode, DebugX, DebugY) ==>
                r.screen[k] == e.screen[k]
  {
    var w := Fetch(c);
    match Lookup(c.ops, w)
    case None => c
    case Some(op) =>
      var e := Execute(op, OperandsOf(w), c, other);
      Advance(c.pc, SetScreenXY(e, DebugX, DebugY, true))
  }

  /** Without a halt flag an unknown word stalls the older interpreter forever on the same PC. */
  lemma LegacyUnknownStalls(c: Cpu, other: Effect)
    requires CanStep(c) && Lookup(c.ops, Fetch(c)) == None
    ensures LegacyStep(LegacyStep(c, other), other) == c
  {
  }

  /** On the older trie a draw instruction is unknown, so the older step ignores it. */
  lemma LegacyIgnoresDraw(c: Cpu, other: Effect)
    requires CanStep(c) && c.ops == LegacyOpTree() && Nibbles(Fetch(c))[0] == 0xD
    ensures LegacyStep(c, other) == c
  {
    LegacyTreeResolves(Fetch(c));
  }

  /** The text the older disassembler produces for the word at addr, before it is buffered. */
  function LineAt(c: Cpu, addr: u16, otherText: (Op, Operands) -> string): Option<string>
    requires addr + 1 < RamSize
  {
    var w := ReadU16(c, addr);
    match Lookup(c.ops, w)
    case None => None
    case Some(op) => Some(Dasm(op, OperandsOf(w), otherText) + "\n")
  }

  datatype Disassembly = Disassembly(text: Option<string>, stream: string)

  /**
   dasm_op (older tree) as written: the stream is a function-local static and clear() only
   resets its error flags, so every call appends to what earlier calls wrote and returns all
   of it. An unknown word returns nothing and leaves the stream alone.
   */
  function DasmOpAsWritten(c: Cpu, addr: u16, stream: string, otherText: (Op, Operands) -> string): (r: Disassembly)
    requires addr + 1 < RamSize
    ensures r.text == None <==> Lookup(c.ops, ReadU16(c, addr)) == None
    ensures r.text == None ==> r.stream == stream
    ensures r.text != None ==> r.text.value == r.stream && |r.stream| > |stream| && r.stream[..|stream|] == stream
  {
    match LineAt(c, addr, otherText)
    case None => Disassembly(None, stream)
    case Some(line) => Disassembly(Some(stream + line), stream + line)
  }

  /**
   dasm_op (older tree) as evidently intended: the text of the one instruction at addr, ended
   by a newline, or nothing exactly when no handler matches the word.
   */
  function DasmOp(c: Cpu, addr: u16, otherText: (Op, Operands) -> string): (r: Option<string>)
    requires addr + 1 < RamSize
    ensures r == None <==> Lookup(c.ops, ReadU16(c, addr)) == None
    ensures r != None ==> var op := Lookup(c.ops, ReadU16(c, addr)).value;
      r.value == Dasm(op, OperandsOf(ReadU16(c, addr)), otherText) + "\n"
  {
    LineAt(c, addr, otherText)
  }

  /** The RET word disassembles to its own text and nothing else. */
  lemma DasmOpOfReturn(c: Cpu, addr: u16, otherText: (Op, Operands) -> string)
    requires addr + 1 < RamSize && c.ops == LegacyOpTree() && ReadU16(c, addr) == 0x00EE
    ensures DasmOp(c, addr, otherText) == Some("RETee\n")
  {
    LegacyReturnResolves();
    assert Dasm(Ret, OperandsOf(0x00EE), otherText) == "RETee" by {
      RetTextOfReturnWord();
    }
    assert LineAt(c, addr, otherText) == Some(Dasm(Ret, OperandsOf(0x00EE), otherText) + "\n");
    assert "RETee" + "\n" == "RETee\n";
  }

  lemma LegacyReturnResolves()
    ensures Lookup(LegacyOpTree(), 0x00EE) == Some(Ret)
  {
    assert Decode(0x00EE) == Some(Ret) by {
      NibblesRoundTrip(0x00EE);
      assert Nibbles(0x00EE) == [0, 0, 0xE, 0xE];
    }
    LegacyTreeResolves(0x00EE);
  }

  /**
   The discrepancy: disassembling the same RET word twice, the second call of the code as
   written returns both lines, where the intended disassembler returns one.
   */
  lemma DasmOpAccumulates(c: Cpu, addr: u16, otherText: (Op, Operands) -> string)
    requires addr + 1 < RamSize && c.ops == LegacyOpTree() && ReadU16(c, addr) == 0x00EE
    ensures var first := DasmOpAsWritten(c, addr, "", otherText);
      DasmOpAsWritten(c, addr, first.stream, otherText).text == Some("RETee\nRETee\n")
    ensures DasmOp(c, addr, otherText) == Some("RETee\n")
  {
    DasmOpOfReturn(c, addr, otherText);
    var first := DasmOpAsWritten(c, addr, "", otherText);
    assert first.stream == "RETee\n";
    assert DasmOpAsWritten(c, addr, first.stream, otherText).text == Some("RETee\n" + "RETee\n");
    assert "RETee\n" + "RETee\n" == "RETee\nRETee\n";
  }
}
