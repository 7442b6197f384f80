/** The flag rule engine of libdmg/src/flags.rs: carry and half-carry
    predicates for 8- and 16-bit addition and subtraction.

    The Rust masks are written as arithmetic on non-negative integers:
    `x & 0x0F` is `x % 0x10`, `x & 0x10 == 0x10` is `(x / 0x10) % 2 == 1`,
    and likewise for the 16-bit masks `0x0FFF` and `0x1000`. */
module Flags {
  import opened Data

  datatype ArithmeticMode = Add | Subtract

  /** `check_carry8`: the 8-bit result of `a + b` (resp. `a - b`) is not the
      true sum (resp. difference), i.e. a carry (resp. borrow) left bit 7. */
  function CheckCarry8(mode: ArithmeticMode, a: Byte, b: Byte): (r: bool)
    ensures mode.Add? ==> (r <==> (a + b) % 0x100 != a + b)
    ensures mode.Subtract? ==> (r <==> (a - b) % 0x100 != a - b)
  {
    match mode
    case Add => a + b > 0xFF
    case Subtract => b > a
  }

  /** `check_half_carry8`. Add: the sum of the low nibbles has bit 4 set,
      which is exactly a carry out of bit 3. Subtract: bit 4 of the minuend
      is set and the low nibble of the subtrahend is non-zero. */
  function CheckHalfCarry8(mode: ArithmeticMode, a: Byte, b: Byte): (r: bool)
    ensures mode.Add? ==> (r <==> a % 0x10 + b % 0x10 >= 0x10)
    ensures mode.Subtract? ==> (r <==> a % 0x20 >= 0x10 && b % 0x10 != 0)
  {
    match mode
    case Add => ((a % 0x10 + b % 0x10) / 0x10) % 2 == 1
    case Subtract => (a / 0x10) % 2 == 1 && b % 0x10 > 0
  }

  /** `check_carry16`: the 16-bit result of the operation wraps. */
  function CheckCarry16(mode: ArithmeticMode, a: Word, b: Word): (r: bool)
    ensures mode.Add? ==> (r <==> (a + b) % 0x1_0000 != a + b)
    ensures mode.Subtract? ==> (r <==> (a - b) % 0x1_0000 != a - b)
  {
    match mode
    case Add => a + b > 0xFFFF
    case Subtract => b > a
  }

  /** `check_half_carry16`: the same rules at bit 12. */
  function CheckHalfCarry16(mode: ArithmeticMode, a: Word, b: Word): (r: bool)
    ensures mode.Add? ==> (r <==> a % 0x1000 + b % 0x1000 >= 0x1000)
    ensures mode.Subtract? ==> (r <==> a % 0x2000 >= 0x1000 && b % 0x1000 != 0)
  {
    match mode
    case Add => ((a % 0x1000 + b % 0x1000) / 0x1000) % 2 == 1
    case Subtract => (a / 0x1000) % 2 == 1 && b % 0x1000 > 0
  }

  /** Every Add-mode predicate is symmetric in its operands. */
  lemma AddIsSymmetric(a: Byte, b: Byte, x: Word, y: Word)
    ensures CheckCarry8(Add, a, b) == CheckCarry8(Add, b, a)
    ensures CheckHalfCarry8(Add, a, b) == CheckHalfCarry8(Add, b, a)
    ensures CheckCarry16(Add, x, y) == CheckCarry16(Add, y, x)
    ensures CheckHalfCarry16(Add, x, y) == CheckHalfCarry16(Add, y, x)
  {
  }

  /** The subtract carry is a borrow: it is set exactly when the subtrahend
      exceeds the minuend. */
  lemma SubtractCarryIsBorrow(a: Byte, b: Byte, x: Word, y: Word)
    ensures CheckCarry8(Subtract, a, b) <==> a < b
    ensures CheckCarry16(Subtract, x, y) <==> x < y
  {
  }

  /** The borrow out of bit 4 that a nibble-wise subtraction needs: the low
      nibble of the minuend is smaller than that of the subtrahend. */
  predicate NibbleBorrow8(a: Byte, b: Byte)
  {
    a % 0x10 < b % 0x10
  }

  /** The subtract half-carry rule of the source is not the nibble borrow:
      0x00 - 0x01 borrows from bit 4 but the rule reports no half-carry,
      and 0x1F - 0x01 borrows nothing but the rule reports one. The unit
      tests of the source (DEC B from 0x20 leaves HalfCarry clear) follow
      the rule as written, and so does this model. */
  lemma SubtractHalfCarryIsNotNibbleBorrow()
    ensures !CheckHalfCarry8(Subtract, 0x00, 0x01) && NibbleBorrow8(0x00, 0x01)
    ensures CheckHalfCarry8(Subtract, 0x1F, 0x01) && !NibbleBorrow8(0x1F, 0x01)
    ensures !CheckHalfCarry8(Subtract, 0x20, 0x01) && NibbleBorrow8(0x20, 0x01)
  {
  }

  /** The vectors of the unit tests of libdmg/src/flags.rs. */
  lemma FlagRuleVectors()
    ensures CheckCarry8(Add, 0xFF, 0x01) && !CheckCarry8(Add, 0xFF, 0x00) && !CheckCarry8(Add, 0x00, 0x00)
    ensures CheckCarry8(Subtract, 0x00, 0xFF) && !CheckCarry8(Subtract, 0xFF, 0x00)
    ensures CheckHalfCarry8(Add, 0x08, 0x08) && !CheckHalfCarry8(Add, 0x08, 0x10) && CheckHalfCarry8(Add, 0x0F, 0x01)
    ensures CheckHalfCarry8(Subtract, 0x10, 0x08) && !CheckHalfCarry8(Subtract, 0x08, 0x10)
    ensures CheckHalfCarry8(Subtract, 0x10, 0x01)
    ensures CheckCarry16(Add, 0xFFFF, 0x0001) && !CheckCarry16(Add, 0xFFFF, 0x0000) && !CheckCarry16(Add, 0x0000, 0x0000)
    ensures CheckCarry16(Subtract, 0x0000, 0xFFFF) && !CheckCarry16(Subtract, 0xFFFF, 0x0000)
    ensures CheckHalfCarry16(Add, 0x0800, 0x0800) && !CheckHalfCarry16(Add, 0x0800, 0x1000)
    ensures CheckHalfCarry16(Add, 0x0F00, 0x0100) && CheckHalfCarry16(Add, 0xFFFF, 0x0001)
    ensures CheckHalfCarry16(Subtract, 0x1000, 0x0800) && !CheckHalfCarry16(Subtract, 0x0800, 0x1000)
    ensures CheckHalfCarry16(Subtract, 0x1000, 0x0100)
  {
  }
}
