/**
 The instruction set as the handler table sees it: the 35 opcode handlers of the header, their
 4-slot encodings (a fixed nibble, or std::nullopt for a nibble carrying operand data), and an
 independent reference decoder written straight from Cowgod's Chip-8 Technical Reference,
 section 3.1, against which the dispatch tree is proved correct.
 */
module Opcodes {
  import opened Bits
  import opened Optional
  import opened Codec

  /** One slot of a handler encoding: a fixed nibble, or operand data (std::nullopt). */
  datatype Slot = Fixed(v: nibble) | Operand

  /** An op_handler's m_encoding: exactly four slots, most significant nibble first. */
  type Encoding = e: seq<Slot> | |e| == 4 witness [Operand, Operand, Operand, Operand]

  /** A slot pattern matches a nibble sequence when every fixed slot equals its nibble. */
  predicate Matches(e: seq<Slot>, ns: seq<nibble>)
  {
    |e| == |ns| && forall i :: 0 <= i < |e| && e[i].Fixed? ==> e[i].v == ns[i]
  }

  /** The static op_handler members, in declaration order. */
  datatype Op =
    | Cls | Ret | Sys | Jp | Call
    | SeVxKk | SneVxKk | SeVxVy | LdVxKk | AddVxKk
    | LdVxVy | OrVxVy | AndVxVy | XorVxVy | AddVxVy | SubVxVy | ShrVxVy | SubnVxVy | ShlVxVy
    | SneVxVy | LdINnn | JpV0Nnn | RndVxKk | DrwVxVyN | SkpVx | SknpVx
    | LdVxDt | LdVxK | LdDtVx | LdStVx | AddIVx | LdFVx | LdBVx | LdMemVx | LdVxMem

  /** Each handler's m_encoding, as listed beside its declaration. */
  function EncodingOf(op: Op): Encoding
  {
    match op
    case Cls => [Fixed(0x0), Fixed(0x0), Fixed(0xE), Fixed(0x0)]
    case Ret => [Fixed(0x0), Fixed(0x0), Fixed(0xE), Fixed(0xE)]
    case Sys => [Fixed(0x0), Operand, Operand, Operand]
    case Jp => [Fixed(0x1), Operand, Operand, Operand]
    case Call => [Fixed(0x2), Operand, Operand, Operand]
    case SeVxKk => [Fixed(0x3), Operand, Operand, Operand]
    case SneVxKk => [Fixed(0x4), Operand, Operand, Operand]
    case SeVxVy => [Fixed(0x5), Operand, Operand, Fixed(0x0)]
    case LdVxKk => [Fixed(0x6), Operand, Operand, Operand]
    case AddVxKk => [Fixed(0x7), Operand, Operand, Operand]
    case LdVxVy => [Fixed(0x8), Operand, Operand, Fixed(0x0)]
    case OrVxVy => [Fixed(0x8), Operand, Operand, Fixed(0x1)]
    case AndVxVy => [Fixed(0x8), Operand, Operand, Fixed(0x2)]
    case XorVxVy => [Fixed(0x8), Operand, Operand, Fixed(0x3)]
    case AddVxVy => [Fixed(0x8), Operand, Operand, Fixed(0x4)]
    case SubVxVy => [Fixed(0x8), Operand, Operand, Fixed(0x5)]
    case ShrVxVy => [Fixed(0x8), Operand, Operand, Fixed(0x6)]
    case SubnVxVy => [Fixed(0x8), Operand, Operand, Fixed(0x7)]
    case ShlVxVy => [Fixed(0x8), Operand, Operand, Fixed(0xE)]
    case SneVxVy => [Fixed(0x9), Operand, Operand, Fixed(0x0)]
    case LdINnn => [Fixed(0xA), Operand, Operand, Operand]
    case JpV0Nnn => [Fixed(0xB), Operand, Operand, Operand]
    case RndVxKk => [Fixed(0xC), Operand, Operand, Operand]
    case DrwVxVyN => [Fixed(0xD), Operand, Operand, Operand]
    case SkpVx => [Fixed(0xE), Operand, Fixed(0x9), Fixed(0xE)]
    case SknpVx => [Fixed(0xE), Operand, Fixed(0xA), Fixed(0x1)]
    case LdVxDt => [Fixed(0xF), Operand, Fixed(0x0), Fixed(0x7)]
    case LdVxK => [Fixed(0xF), Operand, Fixed(0x0), Fixed(0xA)]
    case LdDtVx => [Fixed(0xF), Operand, Fixed(0x1), Fixed(0x5)]
    case LdStVx => [Fixed(0xF), Operand, Fixed(0x1), Fixed(0x8)]
    case AddIVx => [Fixed(0xF), Operand, Fixed(0x1), Fixed(0xE)]
    case LdFVx => [Fixed(0xF), Operand, Fixed(0x2), Fixed(0x9)]
    case LdBVx => [Fixed(0xF), Operand, Fixed(0x3), Fixed(0x3)]
    case LdMemVx => [Fixed(0xF), Operand, Fixed(0x5), Fixed(0x5)]
    case LdVxMem => [Fixed(0xF), Operand, Fixed(0x6), Fixed(0x5)]
  }

  /**
   Reference decoder: the instruction a word denotes according to the CHIP-8 opcode table,
   leaving out SYS (0nnn), which the interpreter does not register.
   */
  function Decode(w: u16): Option<Op>
  {
    var ns := Nibbles(w);
    var a, b, c, d := ns[0], ns[1], ns[2], ns[3];
    if a == 0x0 then
      if b == 0x0 && c == 0xE && d == 0x0 then Some(Cls)
      else if b == 0x0 && c == 0xE && d == 0xE then Some(Ret)
      else None
    else if a == 0x1 then Some(Jp)
    else if a == 0x2 then Some(Call)
    else if a == 0x3 then Some(SeVxKk)
    else if a == 0x4 then Some(SneVxKk)
    else if a == 0x5 then (if d == 0x0 then Some(SeVxVy) else None)
    else if a == 0x6 then Some(LdVxKk)
    else if a == 0x7 then Some(AddVxKk)
    else if a == 0x8 then
      if d == 0x0 then Some(LdVxVy)
      else if d == 0x1 then Some(OrVxVy)
      else if d == 0x2 then Some(AndVxVy)
      else if d == 0x3 then Some(XorVxVy)
      else if d == 0x4 then Some(AddVxVy)
      else if d == 0x5 then Some(SubVxVy)
      else if d == 0x6 then Some(ShrVxVy)
      else if d == 0x7 then Some(SubnVxVy)
      else if d == 0xE then Some(ShlVxVy)
      else None
    else if a == 0x9 then (if d == 0x0 then Some(SneVxVy) else None)
    else if a == 0xA then Some(LdINnn)
    else if a == 0xB then Some(JpV0Nnn)
    else if a == 0xC then Some(RndVxKk)
    else if a == 0xD then Some(DrwVxVyN)
    else if a == 0xE then
      if c == 0x9 && d == 0xE then Some(SkpVx)
      else if c == 0xA && d == 0x1 then Some(SknpVx)
      else None
    else
      if c == 0x0 && d == 0x7 then Some(LdVxDt)
      else if c == 0x0 && d == 0xA then Some(LdVxK)
      else if c == 0x1 && d == 0x5 then Some(LdDtVx)
      else if c == 0x1 && d == 0x8 then Some(LdStVx)
      else if c == 0x1 && d == 0xE then Some(AddIVx)
      else if c == 0x2 && d == 0x9 then Some(LdFVx)
      else if c == 0x3 && d == 0x3 then Some(LdBVx)
      else if c == 0x5 && d == 0x5 then Some(LdMemVx)
      else if c == 0x6 && d == 0x5 then Some(LdVxMem)
      else None
  }

  /** A slot accepts a nibble when it is an operand or that very nibble. */
  predicate SlotAccepts(s: Slot, n: nibble)
  {
    s.Fixed? ==> s.v == n
  }

  /** Matching a four-slot encoding, slot by slot. */
  lemma MatchesBySlot(e: Encoding, ns: seq<nibble>)
    requires |ns| == 4
    ensures Matches(e, ns) <==>
      SlotAccepts(e[0], ns[0]) && SlotAccepts(e[1], ns[1]) && SlotAccepts(e[2], ns[2]) && SlotAccepts(e[3], ns[3])
  {
    if SlotAccepts(e[0], ns[0]) && SlotAccepts(e[1], ns[1]) && SlotAccepts(e[2], ns[2]) && SlotAccepts(e[3], ns[3]) {
      forall i | 0 <= i < 4 && e[i].Fixed?
        ensures e[i].v == ns[i]
      {
        assert SlotAccepts(e[i], ns[i]);
      }
    }
  }

  /** Every handler but SYS: a word matches its encoding exactly when the reference decoder names it. */
  lemma DecodeAgrees(op: Op, w: u16)
    requires op != Sys
    ensures Matches(EncodingOf(op), Nibbles(w)) <==> Decode(w) == Some(op)
  {
    MatchesBySlot(EncodingOf(op), Nibbles(w));
    var a := EncodingOf(op)[0].v;
    if a < 0x8 {
      DecodeAgreesLow(op, w);
    } else if a == 0x8 {
      DecodeAgreesArith(op, w);
    } else if a < 0xE {
      DecodeAgreesMid(op, w);
    } else {
      DecodeAgreesHigh(op, w);
    }
  }

  /** The families 0 to 7. */
  lemma DecodeAgreesLow(op: Op, w: u16)
    requires op != Sys && EncodingOf(op)[0].Fixed? && EncodingOf(op)[0].v < 0x8
    ensures Matches(EncodingOf(op), Nibbles(w)) <==> Decode(w) == Some(op)
  {
    MatchesBySlot(EncodingOf(op), Nibbles(w));
  }

  /** The register-arithmetic family 8. */
  lemma DecodeAgreesArith(op: Op, w: u16)
    requires EncodingOf(op)[0] == Fixed(0x8)
    ensures Matches(EncodingOf(op), Nibbles(w)) <==> Decode(w) == Some(op)
  {
    MatchesBySlot(EncodingOf(op), Nibbles(w));
  }

  /** The families 9 to D. */
  lemma DecodeAgreesMid(op: Op, w: u16)
    requires EncodingOf(op)[0].Fixed? && 0x8 < EncodingOf(op)[0].v < 0xE
    ensures Matches(EncodingOf(op), Nibbles(w)) <==> Decode(w) == Some(op)
  {
    MatchesBySlot(EncodingOf(op), Nibbles(w));
  }

  /** The key and miscellaneous families E and F. */
  lemma DecodeAgreesHigh(op: Op, w: u16)
    requires EncodingOf(op)[0].Fixed? && EncodingOf(op)[0].v >= 0xE
    ensures Matches(EncodingOf(op), Nibbles(w)) <==> Decode(w) == Some(op)
  {
    MatchesBySlot(EncodingOf(op), Nibbles(w));
  }

  /** The word that fills every operand slot of an encoding with 0. */
  function Instance(e: Encoding): (w: u16)
    ensures Matches(e, Nibbles(w))
  {
    var ns := seq(4, i requires 0 <= i < 4 => if e[i].Fixed? then e[i].v else 0);
    FromNibbles(ns[0], ns[1], ns[2], ns[3])
  }

  /** No two handlers but SYS share an encoding, so none can be refused as a duplicate. */
  lemma EncodingInjective(a: Op, b: Op)
    requires a != Sys && b != Sys
    ensures EncodingOf(a) == EncodingOf(b) ==> a == b
  {
    if EncodingOf(a) == EncodingOf(b) {
      var w := Instance(EncodingOf(a));
      DecodeAgrees(a, w);
      DecodeAgrees(b, w);
    }
  }

  /** Which slots of an encoding are fixed. */
  function Shape(e: seq<Slot>): seq<bool>
  {
    seq(|e|, i requires 0 <= i < |e| => e[i].Fixed?)
  }

  /** For every handler but SYS the shape of the encoding is fixed by its leading nibble. */
  function ShapeOfFamily(a: nibble): seq<bool>
  {
    if a == 0x0 then [true, true, true, true]
    else if a == 0x5 || a == 0x8 || a == 0x9 then [true, false, false, true]
    else if a == 0xE || a == 0xF then [true, false, true, true]
    else [true, false, false, false]
  }

  lemma ShapeFollowsFamily(op: Op)
    requires op != Sys
    ensures EncodingOf(op)[0].Fixed?
    ensures Shape(EncodingOf(op)) == ShapeOfFamily(EncodingOf(op)[0].v)
  {
  }
}
