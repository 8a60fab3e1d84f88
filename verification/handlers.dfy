/**
 The two opcode handlers whose bodies are visible, RET and JP: their effect on the CPU and
 their disassembly text. Every other handler's effect is supplied by the caller.
 */
module Handlers {
  import opened Bits
  import opened Codec
  import opened Opcodes
  import opened HexText
  import opened Machine

  /** The effect of a handler whose body this model does not see. */
  type Effect = (Op, Operands, Cpu) -> Cpu

  /**
   RET: PC takes the stack slot SP points at, then SP drops by one as an 8-bit value, so 0
   becomes 255. Indexing the 16-slot stack past its end is undefined, hence sp < 16.
   */
  function ExecRet(c: Cpu): (r: Cpu)
    requires c.sp < StackDepth
    ensures r.pc == c.stack[c.sp]
    ensures (r.sp + 1) % 0x100 == c.sp
    ensures c.sp == 0 ==> r.sp == 0xFF
    ensures r == c.(pc := r.pc, sp := r.sp)
  {
    c.(pc := c.stack[c.sp], sp := (c.sp - 1) % 0x100)
  }

  /** JP nnn: PC becomes the 12-bit target, so it stays inside memory. */
  function ExecJp(c: Cpu, o: Operands): (r: Cpu)
    requires o.nnn < 0x1000
    ensures r.pc == o.nnn && r.pc < RamSize
    ensures r == c.(pc := r.pc)
  {
    c.(pc := o.nnn)
  }

  /** The handler body chosen for a resolved op. */
  function Execute(op: Op, o: Operands, c: Cpu, other: Effect): (r: Cpu)
    requires o.nnn < 0x1000
    requires op == Ret ==> c.sp < StackDepth
    ensures op == Ret ==> r == ExecRet(c)
    ensures op == Jp ==> r == ExecJp(c, o)
    ensures op != Ret && op != Jp ==> r == other(op, o, c)
  {
    match op
    case Ret => ExecRet(c)
    case Jp => ExecJp(c, o)
    case _ => other(op, o, c)
  }

  /** RET's disassembly: "RET" with the hex of nnn appended, no separator. */
  function DasmRet(o: Operands): (s: string)
    ensures |s| > 3 && s[..3] == "RET"
    ensures forall i :: 3 <= i < |s| ==> IsHexDigit(s[i])
    ensures ParseHex(s[3..]) == o.nnn
  {
    ParseToHex(o.nnn);
    var s := "RET" + ToHex(o.nnn);
    assert s[3..] == ToHex(o.nnn);
    s
  }

  /** JP's disassembly: "JP 0x" then the lowercase hex of nnn, no padding. */
  function DasmJp(o: Operands): (s: string)
    ensures |s| > 5 && s[..5] == "JP 0x"
    ensures forall i :: 5 <= i < |s| ==> IsHexDigit(s[i])
    ensures ParseHex(s[5..]) == o.nnn
    ensures o.nnn < 0x1000 ==> |s| <= 8
  {
    ParseToHex(o.nnn);
    ToHexShape(o.nnn);
    var s := "JP 0x" + ToHex(o.nnn);
    assert s[5..] == ToHex(o.nnn);
    s
  }

  /** The text a disassembly of the word 0x00EE produces: the nnn field leaks into it. */
  lemma RetTextOfReturnWord()
    ensures DasmRet(OperandsOf(0x00EE)) == "RETee"
  {
    var o := OperandsOf(0x00EE);
    assert o.nnn == 0xEE;
    assert ToHex(0xE) == "e";
    assert ToHex(0xEE) == ToHex(0xE) + [Digit(0xE)];
  }

  /** Different jump targets disassemble to different text. */
  lemma DasmJpInjective(a: Operands, b: Operands)
    requires DasmJp(a) == DasmJp(b)
    ensures a.nnn == b.nnn
  {
    assert DasmJp(a)[5..] == DasmJp(b)[5..];
  }

  /** The disassembly of a handler; other handlers' text is supplied by the caller. */
  function Dasm(op: Op, o: Operands, otherText: (Op, Operands) -> string): (s: string)
    ensures op == Ret ==> s == DasmRet(o)
    ensures op == Jp ==> s == DasmJp(o)
    ensures op != Ret && op != Jp ==> s == otherText(op, o)
  {
    match op
    case Ret => DasmRet(o)
    case Jp => DasmJp(o)
    case _ => otherText(op, o)
  }
}
