/**
 Fixed-width unsigned integers of the interpreter. The C++ source stores values in
 std::uint8_t and std::uint16_t; here they are subsets of int, and every mask or shift the
 source applies to a non-negative value is written as the equivalent `%` or `/`.
 */
module Bits {

  /** std::uint8_t */
  type byte = x: int | 0 <= x < 0x100

  /** std::uint16_t */
  type u16 = x: int | 0 <= x < 0x1_0000

  /** A 4-bit half-byte: one hexadecimal digit of an instruction word. */
  type nibble = x: int | 0 <= x < 0x10
}
