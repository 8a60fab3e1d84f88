/**
 The instruction codec: splitting a 16-bit instruction word into its four nibbles and into the
 operand fields handed to an opcode handler (operand_data).
 */
module Codec {
  import opened Bits

  /** The nibbles of an instruction word, most significant first: 0xABCD gives [A, B, C, D]. */
  function Nibbles(w: u16): (ns: seq<nibble>)
    ensures |ns| == 4
    ensures ns[0] as int * 0x1000 + ns[1] as int * 0x100 + ns[2] as int * 0x10 + ns[3] as int == w
  {
    [w / 0x1000, (w / 0x100) % 0x10, (w / 0x10) % 0x10, w % 0x10]
  }

  /** The word whose nibbles are n0 n1 n2 n3; the inverse of Nibbles. */
  function FromNibbles(n0: nibble, n1: nibble, n2: nibble, n3: nibble): (w: u16)
    ensures Nibbles(w) == [n0, n1, n2, n3]
  {
    var w := n0 as int * 0x1000 + n1 as int * 0x100 + n2 as int * 0x10 + n3 as int;
    assert w / 0x10 == n0 as int * 0x100 + n1 as int * 0x10 + n2 as int && w % 0x10 == n3;
    assert w / 0x100 == n0 as int * 0x10 + n1 as int && (w / 0x10) % 0x10 == n2;
    assert w / 0x1000 == n0 && (w / 0x100) % 0x10 == n1;
    w
  }

  lemma NibblesRoundTrip(w: u16)
    ensures var ns := Nibbles(w); FromNibbles(ns[0], ns[1], ns[2], ns[3]) == w
  {
  }

  /**
   The operand fields of an instruction. The source keeps every field in a std::uint16_t
   (so that printing them does not treat them as characters).
   */
  datatype Operands = Operands(nnn: u16, x: u16, y: u16, kk: u16, n: u16)

  /** get_operand_data_from_instruction: nnn = w & 0xFFF, x = (w >> 8) & 0xF,
      y = (w >> 4) & 0xF, kk = w & 0xFF, n = w & 0xF. */
  function OperandsOf(w: u16): (o: Operands)
    ensures o.nnn < 0x1000 && o.x < 0x10 && o.y < 0x10 && o.kk < 0x100 && o.n < 0x10
    ensures o.x == Nibbles(w)[1] && o.y == Nibbles(w)[2] && o.n == Nibbles(w)[3]
    // (w & 0xF000) | nnn == w: the address field is the word without its leading nibble
    ensures Nibbles(w)[0] as int * 0x1000 + o.nnn == w
    ensures o.nnn == 0x100 * o.x as int + o.kk
    ensures o.kk == 0x10 * o.y as int + o.n
  {
    Operands(w % 0x1000, (w / 0x100) % 0x10, (w / 0x10) % 0x10, w % 0x100, w % 0x10)
  }

  /** Decoding a word assembled from an opcode nibble and operand nibbles gives those operands back. */
  lemma OperandsOfAssembled(op: nibble, x: nibble, y: nibble, n: nibble)
    ensures OperandsOf(FromNibbles(op, x, y, n)) == Operands(0x100 * x + 0x10 * y + n, x, y, 0x10 * y + n, n)
  {
  }
}
