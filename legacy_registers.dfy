/** The older register file of src/dmg/registers.rs: the same eight 8-bit
    registers and packed flags as the library, without `pc` and `sp`, with
    pairs named by two registers (AF included) and one getter and setter per
    flag. The flag record and its byte packing are those of
    `RegisterFile`, which this file defines identically. */
module LegacyRegisterFile {
  import opened Data
  import opened Results
  import opened RegisterFile
  import Bits

  /** The whole register file as a value. */
  datatype LegacyRegFile = LegacyRegFile(a: Byte, b: Byte, c: Byte, d: Byte, e: Byte, h: Byte, l: Byte,
                                         flags: FlagsRegister)
  {
    /** `get_reg8`: F reads as the packed flags byte. */
    function Reg8(reg: Register): (v: Byte)
      ensures reg == F ==> v % 0x10 == 0 && FlagsFromByte(v) == flags
    {
      match reg
      case A => a
      case B => b
      case C => c
      case D => d
      case E => e
      case F => FlagsToByte(flags)
      case H => h
      case L => l
    }

    /** `get_reg16`: the first register is the high byte and the second
        the low byte; AF carries the packed flags. Any other pair panics. */
    function Pair(hi: Register, lo: Register): (r: Result<Word>)
      ensures r.Ok? <==> IsPair(hi, lo)
      ensures r.Err? ==> r.error == InvalidRegisterPair
      ensures r.Ok? ==> r.value / 0x100 == Reg8(hi) && r.value % 0x100 == Reg8(lo)
    {
      match (hi, lo)
      case (A, F) => Ok(JoinBytes(a, FlagsToByte(flags)))
      case (B, C) => Ok(JoinBytes(b, c))
      case (D, E) => Ok(JoinBytes(d, e))
      case (H, L) => Ok(JoinBytes(h, l))
      case _ => Err(InvalidRegisterPair)
    }

    /** `set_reg8` as a value: F is unpacked into flags, so it reads back as
        the high nibble only; no other register changes. */
    function WithReg8(reg: Register, value: Byte): (s: LegacyRegFile)
      ensures s.Reg8(reg) == if reg == F then value - value % 0x10 else value
      ensures forall other: Register :: other != reg ==> s.Reg8(other) == Reg8(other)
    {
      match reg
      case A => this.(a := value)
      case B => this.(b := value)
      case C => this.(c := value)
      case D => this.(d := value)
      case E => this.(e := value)
      case F => this.(flags := FlagsFromByte(value))
      case H => this.(h := value)
      case L => this.(l := value)
    }
  }

  /** The four register pairs `get_reg16` and `set_reg16` accept, high
      register first. */
  predicate IsPair(hi: Register, lo: Register)
  {
    (hi, lo) == (A, F) || (hi, lo) == (B, C) || (hi, lo) == (D, E) || (hi, lo) == (H, L)
  }

  class Registers {
    var a: Byte
    var b: Byte
    var c: Byte
    var d: Byte
    var e: Byte
    var h: Byte
    var l: Byte
    var flags: FlagsRegister

    function Snapshot(): LegacyRegFile
      reads this
    {
      LegacyRegFile(a, b, c, d, e, h, l, flags)
    }

    /** `get_reg8`; writing back what was read changes nothing, F included. */
    function GetReg8(reg: Register): (v: Byte)
      reads this
      ensures reg == F ==> v % 0x10 == 0
      ensures Snapshot().WithReg8(reg, v) == Snapshot()
    {
      Snapshot().Reg8(reg)
    }

    /** `get_reg16`: the two registers as high and low byte; a pair outside
        AF, BC, DE and HL panics. */
    function GetReg16(hi: Register, lo: Register): (r: Result<Word>)
      reads this
      ensures r.Ok? <==> IsPair(hi, lo)
      ensures r.Err? ==> r.error == InvalidRegisterPair
      ensures r.Ok? ==> r.value / 0x100 == GetReg8(hi) && r.value % 0x100 == GetReg8(lo)
    {
      Snapshot().Pair(hi, lo)
    }

    method SetReg8(reg: Register, value: Byte)
      modifies this
      ensures Snapshot() == old(Snapshot()).WithReg8(reg, value)
    {
      match reg
      case A => a := value;
      case B => b := value;
      case C => c := value;
      case D => d := value;
      case E => e := value;
      case F => flags := FlagsFromByte(value);
      case H => h := value;
      case L => l := value;
    }

    /** `set_reg16`: the high byte goes to the first register and the low
        byte to the second, as two `set_reg8` calls would; for AF the low
        byte is unpacked into flags, so reading AF back loses its low
        nibble. Any other pair panics before anything changes. */
    method SetReg16(hi: Register, lo: Register, value: Word) returns (r: Result<()>)
      modifies this
      ensures r.Ok? <==> IsPair(hi, lo)
      ensures r.Ok? ==> Snapshot() == old(Snapshot()).WithReg8(hi, value / 0x100).WithReg8(lo, value % 0x100)
      ensures r.Err? ==> r.error == InvalidRegisterPair && Snapshot() == old(Snapshot())
    {
      var (high, low) := SplitByte(value);
      match (hi, lo) {
        case (A, F) => a := high; flags := FlagsFromByte(low);
        case (B, C) => b := high; c := low;
        case (D, E) => d := high; e := low;
        case (H, L) => h := high; l := low;
        case _ => return Err(InvalidRegisterPair);
      }
      return Ok(());
    }

    /** `get_zero` .. `get_carry`: each flag is one of bits 7..4 of F. */
    function GetZero(): (v: bool)
      reads this
      ensures v <==> GetReg8(F) >= 0x80
    {
      flags.zero
    }

    function GetSubtract(): (v: bool)
      reads this
      ensures v <==> (GetReg8(F) / 0x40) % 2 == 1
    {
      flags.subtract
    }

    function GetHalfCarry(): (v: bool)
      reads this
      ensures v <==> (GetReg8(F) / 0x20) % 2 == 1
    {
      flags.halfCarry
    }

    function GetCarry(): (v: bool)
      reads this
      ensures v <==> (GetReg8(F) / 0x10) % 2 == 1
    {
      flags.carry
    }

    method SetZero(value: bool)
      modifies this
      ensures Snapshot() == old(Snapshot()).(flags := old(flags).(zero := value))
    {
      flags := flags.(zero := value);
    }

    method SetSubtract(value: bool)
      modifies this
      ensures Snapshot() == old(Snapshot()).(flags := old(flags).(subtract := value))
    {
      flags := flags.(subtract := value);
    }

    method SetHalfCarry(value: bool)
      modifies this
      ensures Snapshot() == old(Snapshot()).(flags := old(flags).(halfCarry := value))
    {
      flags := flags.(halfCarry := value);
    }

    method SetCarry(value: bool)
      modifies this
      ensures Snapshot() == old(Snapshot()).(flags := old(flags).(carry := value))
    {
      flags := flags.(carry := value);
    }

    /** `get_flags`: the packed flags byte, which is also what F reads as. */
    function GetFlags(): (byte: Byte)
      reads this
      ensures byte == GetReg8(F)
      ensures GetZero() <==> byte >= 0x80
      ensures byte % 0x10 == 0
    {
      FlagsToByte(flags)
    }

    /** `set_flags`: unpacks a byte into the flags, keeping its high nibble. */
    method SetFlags(value: Byte)
      modifies this
      ensures Snapshot() == old(Snapshot()).(flags := FlagsFromByte(value))
      ensures GetFlags() == value - value % 0x10
    {
      flags := FlagsFromByte(value);
    }
  }

  /** Writing a pair and reading it back gives the value, except that AF
      keeps only the high nibble of its low byte; a pair outside the four
      fails both ways. */
  lemma PairRoundTrip(s: LegacyRegFile, hi: Register, lo: Register, value: Word)
    requires IsPair(hi, lo)
    ensures s.WithReg8(hi, value / 0x100).WithReg8(lo, value % 0x100).Pair(hi, lo)
            == Ok(if lo == F then value - value % 0x10 else value)
  {
    var t := s.WithReg8(hi, value / 0x100).WithReg8(lo, value % 0x100);
    var w := if lo == F then value - value % 0x10 else value;
    assert hi != lo;
    if lo == F {
      LowNibbleCleared(value);
    }
    assert t.Reg8(hi) == w / 0x100 && t.Reg8(lo) == w % 0x100;
    SameBytes(t.Pair(hi, lo).value, w);
  }

  /** Clearing the low nibble of a word leaves its high byte and clears the
      low nibble of its low byte. */
  lemma LowNibbleCleared(value: Word)
    ensures (value - value % 0x10) / 0x100 == value / 0x100
    ensures (value - value % 0x10) % 0x100 == value % 0x100 - value % 0x10
  {
    assert value % 0x10 == (value % 0x100) % 0x10;
    Bits.DivUnique(value - value % 0x10, 0x100, value / 0x100, value % 0x100 - value % 0x10);
  }

  /** A word is determined by its two bytes. */
  lemma SameBytes(x: Word, y: Word)
    requires x / 0x100 == y / 0x100 && x % 0x100 == y % 0x100
    ensures x == y
  {
  }
}
