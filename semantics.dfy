/** What each implemented opcode does to a register file and a memory, stated
    per opcode and on values. The interpreter of libdmg/src/instructions.rs
    (decode table, operand resolver, flag policies) is proved to compute
    exactly this; the properties the source's tests pin down are proved here. */
module Semantics {
  import opened Data
  import opened Results
  import opened RegisterFile
  import opened Flags
  import opened Bits
  import Memory

  /** The state after one instruction and the cycles it cost. */
  datatype Effect = Effect(regs: RegFile, mem: seq<Byte>, cycles: Byte)

  /** Byte lengths and cycle costs of opcodes 0x00..0x07. */
  const Lengths: seq<Byte> := [1, 3, 1, 1, 1, 1, 2, 1]
  const CycleCosts: seq<Byte> := [4, 12, 4, 8, 4, 4, 8, 4]

  /** Circular left rotation of a byte: bits 6..0 move up one place and
      bit 7 comes round to bit 0. */
  function RotateLeft(x: Byte): (r: Byte)
    ensures r % 2 == x / 0x80
    ensures r / 2 == x % 0x80
  {
    (x % 0x80) * 2 + x / 0x80
  }

  /** One instruction. Opcodes outside 0x00..0x07 are not decoded; a program
      counter that would pass 0xFFFF, and an 8- or 16-bit increment or
      decrement that would wrap, are debug-build overflows. */
  function Step(code: Word, s: RegFile, mem: seq<Byte>): (r: Result<Effect>)
    requires |mem| == Memory.MemSize
    ensures r.Ok? ==> code <= 0x07 && r.value.cycles == CycleCosts[code]
    ensures r.Ok? ==> |r.value.mem| == |mem| && r.value.regs.sp == s.sp
  {
    if code > 0x07 then Err(UnsupportedInstruction(code))
    else if s.pc + Lengths[code] > 0xFFFF then Err(ArithmeticOverflow)
    else
      var pc := s.pc + Lengths[code];
      var cycles := CycleCosts[code];
      if code == 0x00 then           // NOP
        Ok(Effect(s.(pc := pc), mem, cycles))
      else if code == 0x01 then      // LD BC, u16 (little-endian immediate)
        Ok(Effect(s.(b := mem[s.pc + 2], c := mem[s.pc + 1], pc := pc), mem, cycles))
      else if code == 0x02 then      // LD (BC), A
        Ok(Effect(s.(pc := pc), mem[s.b * 0x100 + s.c := s.a], cycles))
      else if code == 0x03 then      // INC BC, no flag changes
        var bc := s.b * 0x100 + s.c;
        if bc == 0xFFFF then Err(ArithmeticOverflow)
        else Ok(Effect(s.(b := (bc + 1) / 0x100, c := (bc + 1) % 0x100, pc := pc), mem, cycles))
      else if code == 0x04 then      // INC B
        if s.b == 0xFF then Err(ArithmeticOverflow)
        else
          var flags := s.flags.(zero := (s.b + 1) % 0x100 == 0, subtract := false,
                                halfCarry := s.b % 0x10 == 0xF);
          Ok(Effect(s.(b := s.b + 1, flags := flags, pc := pc), mem, cycles))
      else if code == 0x05 then      // DEC B; half-carry is bit 4 of the old B
        if s.b == 0 then Err(ArithmeticOverflow)
        else
          var flags := s.flags.(zero := s.b == 1, subtract := true,
                                halfCarry := (s.b / 0x10) % 2 == 1);
          Ok(Effect(s.(b := s.b - 1, flags := flags, pc := pc), mem, cycles))
      else if code == 0x06 then      // LD B, u8
        Ok(Effect(s.(b := mem[s.pc + 1], pc := pc), mem, cycles))
      else                           // RLCA
        Ok(Effect(s.(a := RotateLeft(s.a), flags := FlagsRegister(false, false, false, s.a >= 0x80), pc := pc),
                  mem, cycles))
  }

  /** For a bit weight k of bits 0..6, bit `2k` of the rotation is bit
      `k` of the original. */
  lemma RotatedBit(x: Byte, k: nat, j: nat)
    requires k >= 1 && j * k == 0x40
    ensures (RotateLeft(x) / (2 * k)) % 2 == (x / k) % 2
  {
    var lo, hi := x % 0x80, x / 0x80;
    assert x == hi * 0x80 + lo;
    ShiftUp(lo, hi, k);
    ClearTop(hi, lo, k, j);
  }

  /** Bit `i` of a rotated byte, for i in 1..7, is bit `i - 1` of the
      original. */
  lemma RotatedBitAt(x: Byte, i: nat)
    requires 1 <= i < 8
    ensures BitSet(RotateLeft(x), i) == BitSet(x, i - 1)
  {
    Pow2Add(7 - i, i - 1);
    assert Pow2(6) == 0x40 by { Pow2Table(); }
    RotatedBit(x, Pow2(i - 1), Pow2(7 - i));
  }

  /** Bit 7 comes round to bit 0. */
  lemma RotatedTopBit(x: Byte)
    ensures BitSet(RotateLeft(x), 0) == BitSet(x, 7)
  {
    Pow2Table();
    assert RotateLeft(x) % 2 == x / 0x80;
  }

  /** Bit `i` of a rotated byte is bit `i - 1` (mod 8) of the original. */
  lemma RotateLeftMovesBits(x: Byte, i: nat)
    requires i < 8
    ensures BitSet(RotateLeft(x), i) == BitSet(x, (i + 7) % 8)
  {
    if i == 0 {
      RotatedTopBit(x);
    } else {
      RotatedBitAt(x, i);
    }
  }

  /** A successful step advances the program counter by the opcode's
      length and costs its cycles, whatever the operands are. */
  lemma StepAdvancesPc(code: Word, s: RegFile, mem: seq<Byte>)
    requires |mem| == Memory.MemSize
    ensures Step(code, s, mem).Ok? ==>
      code <= 0x07 &&
      Step(code, s, mem).value.regs.pc == s.pc + Lengths[code] &&
      Step(code, s, mem).value.cycles == CycleCosts[code]
    ensures code <= 0x07 && s.pc + Lengths[code] > 0xFFFF ==> Step(code, s, mem) == Err(ArithmeticOverflow)
  {
  }

  /** The only failures of a step are an opcode the table lacks and an
      overflow; the table never trips its own consistency checks. */
  lemma StepFailures(code: Word, s: RegFile, mem: seq<Byte>)
    requires |mem| == Memory.MemSize
    ensures Step(code, s, mem).Err? ==>
      Step(code, s, mem).error in {UnsupportedInstruction(code), ArithmeticOverflow}
    ensures Step(code, s, mem) == Err(UnsupportedInstruction(code)) <==> code > 0x07
  {
  }

  /** NOP changes nothing but the program counter. */
  lemma NopOnlyAdvancesPc(s: RegFile, mem: seq<Byte>)
    requires |mem| == Memory.MemSize && s.pc < 0xFFFF
    ensures Step(0x00, s, mem) == Ok(Effect(s.(pc := s.pc + 1), mem, 4))
  {
  }

  /** Only LD (BC),A writes memory, and it writes exactly the byte at BC. */
  lemma MemoryWrites(code: Word, s: RegFile, mem: seq<Byte>)
    requires |mem| == Memory.MemSize
    ensures Step(code, s, mem).Ok? && code != 0x02 ==> Step(code, s, mem).value.mem == mem
    ensures Step(code, s, mem).Ok? && code == 0x02 ==>
      forall addr :: 0 <= addr < Memory.MemSize ==>
        Step(code, s, mem).value.mem[addr] == if addr == s.b * 0x100 + s.c then s.a else mem[addr]
  {
  }

  /** The loads: LD BC,u16 reads a little-endian word after the opcode,
      LD B,u8 the byte after it; neither touches the flags. */
  lemma LoadsReadImmediates(s: RegFile, mem: seq<Byte>)
    requires |mem| == Memory.MemSize
    ensures s.pc + 3 <= 0xFFFF ==>
      var r := Step(0x01, s, mem).value.regs;
      r.b * 0x100 + r.c == (mem[s.pc + 1] as int) + (mem[s.pc + 2] as int) * 0x100 && r.flags == s.flags
    ensures s.pc + 2 <= 0xFFFF ==>
      var r := Step(0x06, s, mem).value.regs;
      r.b == mem[s.pc + 1] && r.flags == s.flags
  {
  }

  /** INC B / DEC B move B by one, keep Carry, and set Zero exactly when the
      new B is zero. */
  lemma IncDecB(s: RegFile, mem: seq<Byte>)
    requires |mem| == Memory.MemSize && s.pc < 0xFFFF
    ensures s.b < 0xFF ==>
      var r := Step(0x04, s, mem).value.regs;
      r.b == s.b + 1 && !r.flags.zero && !r.flags.subtract && r.flags.carry == s.flags.carry &&
      (r.flags.halfCarry <==> CheckHalfCarry8(Flags.Add, s.b, 1))
    ensures s.b > 0 ==>
      var r := Step(0x05, s, mem).value.regs;
      r.b == s.b - 1 && (r.flags.zero <==> r.b == 0) && r.flags.subtract && r.flags.carry == s.flags.carry &&
      (r.flags.halfCarry <==> CheckHalfCarry8(Flags.Subtract, s.b, 1))
    ensures Step(0x04, s, mem).Err? <==> s.b == 0xFF
    ensures Step(0x05, s, mem).Err? <==> s.b == 0
  {
    Pow2Table();
  }

  /** RLCA rotates A left and copies its old bit 7 into Carry; the other
      three flags are cleared. */
  lemma RlcaRotates(s: RegFile, mem: seq<Byte>)
    requires |mem| == Memory.MemSize && s.pc < 0xFFFF
    ensures var r := Step(0x07, s, mem).value.regs;
      (forall i :: 0 <= i < 8 ==> BitSet(r.a, i) == BitSet(s.a, (i + 7) % 8)) &&
      r.flags.carry == BitSet(s.a, 7) &&
      !r.flags.zero && !r.flags.subtract && !r.flags.halfCarry
  {
    var r := Step(0x07, s, mem).value.regs;
    assert r.a == RotateLeft(s.a);
    forall i | 0 <= i < 8
      ensures BitSet(r.a, i) == BitSet(s.a, (i + 7) % 8)
    {
      RotateLeftMovesBits(s.a, i);
    }
    Pow2Table();
  }

  /** The register file `Registers::create` builds and the memory
      `MemoryBus::default` builds. */
  const Reset := RegFile(0, 0, 0, 0, 0, 0, 0, NoFlags, 0, 0)
  const Zeros: seq<Byte> := seq(Memory.MemSize, _ => 0)

  /** The vectors of the opcode tests (0x00 to 0x07), each from the reset
      state with the test's inputs written in. */
  lemma StepTestVectors()
    ensures Step(0x00, Reset, Zeros) == Ok(Effect(Reset.(pc := 1), Zeros, 4))
    ensures var r := Step(0x01, Reset, Zeros[1 := 0x34][2 := 0x12]).value.regs;
      r.b * 0x100 + r.c == 0x1234
    ensures Step(0x02, Reset.(a := 0x12, b := 0x11, c := 0x22), Zeros).value.mem[0x1122] == 0x12
    ensures var r := Step(0x03, Reset.(b := 0x12, c := 0x34), Zeros).value.regs;
      r.b * 0x100 + r.c == 0x1235
    ensures var r := Step(0x04, Reset.(b := 0x12), Zeros).value.regs;
      r.b == 0x13 && r.flags == FlagsRegister(false, false, false, false)
    ensures var r := Step(0x04, Reset.(b := 0x1F), Zeros).value.regs;
      r.b == 0x20 && r.flags == FlagsRegister(false, false, true, false)
    ensures var r := Step(0x05, Reset.(b := 0x20), Zeros).value.regs;
      r.b == 0x1F && r.flags == FlagsRegister(false, true, false, false)
    ensures var r := Step(0x05, Reset.(b := 0x10), Zeros).value.regs;
      r.b == 0x0F && r.flags == FlagsRegister(false, true, true, false)
    ensures var r := Step(0x05, Reset.(b := 0x01), Zeros).value.regs;
      r.b == 0x00 && r.flags == FlagsRegister(true, true, false, false)
    ensures Step(0x06, Reset, Zeros[1 := 0x12]).value.regs.b == 0x12
    ensures var r := Step(0x07, Reset.(a := 0xBA, flags := FlagsRegister(true, true, true, false)), Zeros).value.regs;
      r.a == 0x75 && r.flags == FlagsRegister(false, false, false, true)
  {
  }

  /** The same opcode stepped `n` times; the register file and memory after. */
  function Repeat(code: Word, s: RegFile, mem: seq<Byte>, n: nat): Result<(RegFile, seq<Byte>)>
    requires |mem| == Memory.MemSize
    decreases n
  {
    if n == 0 then Ok((s, mem))
    else match Step(code, s, mem)
      case Err(e) => Err(e)
      case Ok(eff) => Repeat(code, eff.regs, eff.mem, n - 1)
  }

  /** DEC B stepped `n` times (n at most B) counts B down by n, always sets
      Subtract, and sets Zero exactly when B reaches zero. */
  lemma {:induction false} RepeatedDec(s: RegFile, mem: seq<Byte>, n: nat)
    requires |mem| == Memory.MemSize
    requires 1 <= n <= s.b && s.pc + n <= 0xFFFF
    ensures Repeat(0x05, s, mem, n).Ok?
    ensures var r := Repeat(0x05, s, mem, n).value.0;
      r.b == s.b - n && r.pc == s.pc + n && r.flags.subtract && (r.flags.zero <==> n == s.b) &&
      r.flags.carry == s.flags.carry
    decreases n
  {
    var eff := Step(0x05, s, mem).value;
    if n > 1 {
      RepeatedDec(eff.regs, eff.mem, n - 1);
    }
  }
}
