/** The register file of libdmg/src/registers.rs: seven 8-bit registers,
    the packed flags register, the program counter and the stack pointer. */
module RegisterFile {
  import opened Data

  datatype Register = A | B | C | D | E | F | H | L

  datatype RegisterPair = BC | DE | HL

  datatype Flag = Zero | Subtract | HalfCarry | Carry

  /** The four status flags; packed into bits 7..4 of a byte. */
  datatype FlagsRegister = FlagsRegister(zero: bool, subtract: bool, halfCarry: bool, carry: bool)
  {
    function Get(flag: Flag): bool
    {
      match flag
      case Zero => zero
      case Subtract => subtract
      case HalfCarry => halfCarry
      case Carry => carry
    }

    /** These flags with one of them replaced. */
    function With(flag: Flag, value: bool): (f: FlagsRegister)
      ensures f.Get(flag) == value
      ensures forall other: Flag :: other != flag ==> f.Get(other) == Get(other)
      ensures value == Get(flag) ==> f == this
    {
      match flag
      case Zero => this.(zero := value)
      case Subtract => this.(subtract := value)
      case HalfCarry => this.(halfCarry := value)
      case Carry => this.(carry := value)
    }
  }

  const NoFlags := FlagsRegister(false, false, false, false)

  function Bit(b: bool): (n: nat)
  {
    if b then 1 else 0
  }

  /** `From<FlagsRegister> for u8`: Zero, Subtract, HalfCarry and Carry go to
      bits 7, 6, 5 and 4 (the disjoint `<<`/`|` terms are written as a sum),
      and the low nibble is always clear. */
  function FlagsToByte(f: FlagsRegister): (byte: Byte)
    ensures byte % 0x10 == 0
    ensures f.zero <==> byte >= 0x80
    ensures f.subtract <==> (byte / 0x40) % 2 == 1
    ensures f.halfCarry <==> (byte / 0x20) % 2 == 1
    ensures f.carry <==> (byte / 0x10) % 2 == 1
  {
    Bit(f.zero) * 0x80 + Bit(f.subtract) * 0x40 + Bit(f.halfCarry) * 0x20 + Bit(f.carry) * 0x10
  }

  /** `From<u8> for FlagsRegister`: each flag is one of bits 7..4 of the byte;
      the low nibble is ignored. */
  function FlagsFromByte(byte: Byte): (f: FlagsRegister)
    ensures FlagsToByte(f) == byte - byte % 0x10
  {
    FlagsRegister((byte / 0x80) % 2 == 1, (byte / 0x40) % 2 == 1, (byte / 0x20) % 2 == 1, (byte / 0x10) % 2 == 1)
  }

  /** Packing and then unpacking the flags loses nothing. */
  lemma FlagsRoundTrip(f: FlagsRegister)
    ensures FlagsFromByte(FlagsToByte(f)) == f
  {
  }

  /** Unpacking two bytes gives the same flags exactly when their high
      nibbles agree. */
  lemma FlagsFromByteIgnoresLowNibble(x: Byte, y: Byte)
    ensures FlagsFromByte(x) == FlagsFromByte(y) <==> x / 0x10 == y / 0x10
  {
    var hx, hy := FlagsToByte(FlagsFromByte(x)), FlagsToByte(FlagsFromByte(y));
    assert hx == (x / 0x10) * 0x10 && hy == (y / 0x10) * 0x10;
    FlagsRoundTrip(FlagsFromByte(x));
    FlagsRoundTrip(FlagsFromByte(y));
    assert FlagsFromByte(hx) == FlagsFromByte(x) && FlagsFromByte(hy) == FlagsFromByte(y);
  }

  /** The vectors of `test_flags_from_u8` and `test_u8_from_flags`. */
  lemma FlagsVectors()
    ensures FlagsFromByte(0xC0) == FlagsRegister(true, true, false, false)
    ensures FlagsToByte(FlagsRegister(true, true, false, false)) == 0xC0
  {
  }

  /** The whole register file as a value; `Registers` derives `Clone` and
      `PartialEq`, and the tests compare whole register files. */
  datatype RegFile = RegFile(a: Byte, b: Byte, c: Byte, d: Byte, e: Byte, h: Byte, l: Byte,
                             flags: FlagsRegister, pc: Word, sp: Word)
  {
    /** `get_reg8`: F reads as the packed flags byte. */
    function Reg8(reg: Register): (v: Byte)
      ensures reg == F ==> v == FlagsToByte(flags) && v % 0x10 == 0
    {
      match reg
      case A => a
      case B => b
      case C => c
      case D => d
      case E => e
      case F => FlagsToByte(flags)
      case H => h
      case L => l
    }

    /** `get_reg16`: `(hi as u16) << 8 | lo as u16`, the first-named
        register of the pair being the high byte. */
    function Pair(pair: RegisterPair): (v: Word)
      ensures pair == BC ==> v / 0x100 == b && v % 0x100 == c
      ensures pair == DE ==> v / 0x100 == d && v % 0x100 == e
      ensures pair == HL ==> v / 0x100 == h && v % 0x100 == l
    {
      match pair
      case BC => JoinBytes(b, c)
      case DE => JoinBytes(d, e)
      case HL => JoinBytes(h, l)
    }

    /** This register file with one 8-bit register written; F is stored
        as unpacked flags, so it reads back as the high nibble only. */
    function WithReg8(reg: Register, value: Byte): (s: RegFile)
      ensures s.Reg8(reg) == if reg == F then value - value % 0x10 else value
      ensures forall other: Register :: other != reg ==> s.Reg8(other) == Reg8(other)
      ensures s.pc == pc && s.sp == sp
    {
      match reg
      case A => this.(a := value)
      case B => this.(b := value)
      case C => this.(c := value)
      case D => this.(d := value)
      case E => this.(e := value)
      case F => this.(flags := FlagsFromByte(value))
      case H => this.(h := value)
      case L => this.(l := value)
    }

    /** This register file with a pair written, high byte first. */
    function WithPair(pair: RegisterPair, value: Word): (s: RegFile)
      ensures s.Pair(pair) == value
      ensures forall other: RegisterPair :: other != pair ==> s.Pair(other) == Pair(other)
      ensures s.a == a && s.flags == flags && s.pc == pc && s.sp == sp
    {
      var (hi, lo) := SplitByte(value);
      match pair
      case BC => this.(b := hi, c := lo)
      case DE => this.(d := hi, e := lo)
      case HL => this.(h := hi, l := lo)
    }
  }

  class Registers {
    var a: Byte
    var b: Byte
    var c: Byte
    var d: Byte
    var e: Byte
    var h: Byte
    var l: Byte
    var flags: FlagsRegister
    var pc: Word
    var sp: Word

    function Snapshot(): RegFile
      reads this
    {
      RegFile(a, b, c, d, e, h, l, flags, pc, sp)
    }

    /** `Registers::create`: every register, every flag, `pc` and `sp` zero. */
    constructor Create()
      ensures Snapshot() == RegFile(0, 0, 0, 0, 0, 0, 0, NoFlags, 0, 0)
      ensures forall r: Register :: GetReg8(r) == 0
      ensures forall f: Flag :: !GetFlag(f)
    {
      a, b, c, d, e, h, l := 0, 0, 0, 0, 0, 0, 0;
      flags := NoFlags;
      pc, sp := 0, 0;
    }

    /** `get_reg8`; writing back what was read changes nothing, F included. */
    function GetReg8(reg: Register): (v: Byte)
      reads this
      ensures reg == F ==> v % 0x10 == 0
      ensures Snapshot().WithReg8(reg, v) == Snapshot()
    {
      Snapshot().Reg8(reg)
    }

    /** `get_reg16`: the first-named register is the high byte; writing
        back what was read changes nothing. */
    function GetReg16(pair: RegisterPair): (v: Word)
      reads this
      ensures pair == BC ==> v / 0x100 == GetReg8(B) && v % 0x100 == GetReg8(C)
      ensures pair == DE ==> v / 0x100 == GetReg8(D) && v % 0x100 == GetReg8(E)
      ensures pair == HL ==> v / 0x100 == GetReg8(H) && v % 0x100 == GetReg8(L)
      ensures Snapshot().WithPair(pair, v) == Snapshot()
    {
      Snapshot().Pair(pair)
    }

    /** `set_reg8`: writes one register; F goes through the flag unpacking,
        so only its high nibble is kept. */
    method SetReg8(reg: Register, value: Byte)
      modifies this
      ensures GetReg8(reg) == if reg == F then value - value % 0x10 else value
      ensures forall r: Register :: r != reg ==> GetReg8(r) == old(GetReg8(r))
      ensures Snapshot() == old(Snapshot()).WithReg8(reg, value)
    {
      match reg
      case A => a := value;
      case B => b := value;
      case C => c := value;
      case D => d := value;
      case E => e := value;
      case F => flags := FlagsFromByte(value);
      case H => h := value;
      case L => l := value;
    }

    /** `set_reg16`: splits the value into high and low byte and writes the
        two registers of the pair; nothing else changes. */
    method SetReg16(pair: RegisterPair, value: Word)
      modifies this
      ensures GetReg16(pair) == value
      ensures forall p: RegisterPair :: p != pair ==> GetReg16(p) == old(GetReg16(p))
      ensures Snapshot() == old(Snapshot()).WithPair(pair, value)
    {
      var (hi, lo) := SplitByte(value);
      match pair
      case BC => b := hi; c := lo;
      case DE => d := hi; e := lo;
      case HL => h := hi; l := lo;
    }

    /** `get_flag`: each flag is one of bits 7..4 of F. */
    function GetFlag(flag: Flag): (v: bool)
      reads this
      ensures flag == Zero ==> (v <==> GetReg8(F) >= 0x80)
      ensures flag == Subtract ==> (v <==> (GetReg8(F) / 0x40) % 2 == 1)
      ensures flag == HalfCarry ==> (v <==> (GetReg8(F) / 0x20) % 2 == 1)
      ensures flag == Carry ==> (v <==> (GetReg8(F) / 0x10) % 2 == 1)
    {
      flags.Get(flag)
    }

    /** `set_flag`: changes one flag; the other three and every register
        keep their values. */
    method SetFlag(flag: Flag, value: bool)
      modifies this
      ensures GetFlag(flag) == value
      ensures forall f: Flag :: f != flag ==> GetFlag(f) == old(GetFlag(f))
      ensures Snapshot() == old(Snapshot()).(flags := old(flags).With(flag, value))
    {
      match flag
      case Zero => flags := flags.(zero := value);
      case Subtract => flags := flags.(subtract := value);
      case HalfCarry => flags := flags.(halfCarry := value);
      case Carry => flags := flags.(carry := value);
    }

    /** `get_flags`: the packed flags byte, which is also what F reads as;
        unpacking it gives the flags back. */
    function GetFlags(): (byte: Byte)
      reads this
      ensures byte == GetReg8(F)
      ensures FlagsFromByte(byte) == flags
    {
      FlagsToByte(flags)
    }

    /** `set_flags`: unpacks a byte into the flags; reading them back gives
        its high nibble (`value & 0xF0`). */
    method SetFlags(value: Byte)
      modifies this
      ensures GetFlags() == value - value % 0x10
      ensures Snapshot() == old(Snapshot()).(flags := FlagsFromByte(value))
    {
      flags := FlagsFromByte(value);
    }
  }
}
