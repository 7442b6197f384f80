/** The interpreter of libdmg/src/instructions.rs: the decode table for
    opcodes 0x00..0x07, the operand resolver, the flag policy combinator and
    the execution engine. `execute_instruction` is proved to do exactly what
    `Semantics.Step` says each opcode does. */
module Instructions {
  import opened Data
  import opened Results
  import opened Flags
  import opened RegisterFile
  import opened Memory
  import Semantics
  import Bits

  /** Where an operand lives: a register, a register pair, the byte at an
      address, or the little-endian word at an address. */
  datatype InstructionTarget =
    | A | B | C | D | E | H | L
    | BC | DE | HL
    | N8(addr: Address)
    | N16(addr: Address)

  datatype Direction = Left | Right

  datatype Operation = NOP | LD | INC | DEC | RXC(direction: Direction)

  datatype InstructionSize = Eight | Sixteen

  /** What an instruction does to one flag. */
  datatype FlagOperation = Unmodified | Dependent | Set | Unset

  /** The value computed for a flag whose policy is `Dependent`. */
  datatype FlagResult = Set | Unset

  datatype FlagInstruction = FlagInstruction(zero: FlagOperation, subtract: FlagOperation,
                                             halfCarry: FlagOperation, carry: FlagOperation)

  datatype FlagResults = FlagResults(zero: Option<FlagResult>, subtract: Option<FlagResult>,
                                     halfCarry: Option<FlagResult>, carry: Option<FlagResult>)

  datatype Instruction = Instruction(source: Option<InstructionTarget>, target: Option<InstructionTarget>,
                                     operation: Operation, cycles: Byte, length: Byte,
                                     flags: FlagInstruction)

  /** `FlagInstruction::default()`: every flag Unmodified. */
  const Unmodified4 := FlagInstruction(Unmodified, Unmodified, Unmodified, Unmodified)

  /** `FlagResults::default()`: no flag computed. */
  const NoResults := FlagResults(None, None, None, None)

  /** `get_op_size`: plain registers and `N8` are 8-bit, pairs and `N16`
      16-bit. */
  function GetOpSize(target: InstructionTarget): (size: InstructionSize)
    ensures size == Eight <==> target.N8? || TargetToRegister(target).Ok?
    ensures size == Sixteen <==> target.N16? || TargetToRegisterPair(target).Ok?
  {
    match target
    case A => Eight
    case B => Eight
    case C => Eight
    case D => Eight
    case E => Eight
    case H => Eight
    case L => Eight
    case BC => Sixteen
    case DE => Sixteen
    case HL => Sixteen
    case N8(_) => Eight
    case N16(_) => Sixteen
  }

  /** `target_to_register`: the 8-bit register a target names; any other
      target panics. No target names the flags register F. */
  function TargetToRegister(target: InstructionTarget): (r: Result<Register>)
    ensures r.Ok? <==> target.A? || target.B? || target.C? || target.D? || target.E? || target.H? || target.L?
    ensures r.Ok? ==> r.value != Register.F
    ensures r.Err? ==> r.error == InvalidTarget
    ensures target.A? ==> r == Ok(Register.A)
    ensures target.B? ==> r == Ok(Register.B)
    ensures target.C? ==> r == Ok(Register.C)
    ensures target.D? ==> r == Ok(Register.D)
    ensures target.E? ==> r == Ok(Register.E)
    ensures target.H? ==> r == Ok(Register.H)
    ensures target.L? ==> r == Ok(Register.L)
  {
    match target
    case A => Ok(Register.A)
    case B => Ok(Register.B)
    case C => Ok(Register.C)
    case D => Ok(Register.D)
    case E => Ok(Register.E)
    case H => Ok(Register.H)
    case L => Ok(Register.L)
    case _ => Err(InvalidTarget)
  }

  /** `target_to_register_pair`: the pair a target names; any other
      target panics. */
  function TargetToRegisterPair(target: InstructionTarget): (r: Result<RegisterPair>)
    ensures r.Ok? <==> target.BC? || target.DE? || target.HL?
    ensures r.Err? ==> r.error == InvalidTarget
    ensures target.BC? ==> r == Ok(RegisterPair.BC)
    ensures target.DE? ==> r == Ok(RegisterPair.DE)
    ensures target.HL? ==> r == Ok(RegisterPair.HL)
  {
    match target
    case BC => Ok(RegisterPair.BC)
    case DE => Ok(RegisterPair.DE)
    case HL => Ok(RegisterPair.HL)
    case _ => Err(InvalidTarget)
  }

  /** Distinct targets name distinct registers and distinct pairs, so
      the resolvers never confuse two operands. */
  lemma TargetConversionsAreInjective(t: InstructionTarget, u: InstructionTarget)
    ensures TargetToRegister(t).Ok? && TargetToRegister(t) == TargetToRegister(u) ==> t == u
    ensures TargetToRegisterPair(t).Ok? && TargetToRegisterPair(t) == TargetToRegisterPair(u) ==> t == u
  {
  }

  /** An instruction the engine can run without tripping its own checks:
      operands are present and of a width the operation accepts, and every
      Dependent flag is one the operation computes. */
  predicate WellFormed(instr: Instruction)
  {
    && instr.length >= 1
    && match instr.operation
       case NOP => true
       case LD =>
         instr.source.Some? && instr.target.Some? &&
         GetOpSize(instr.source.value) == GetOpSize(instr.target.value)
       case INC =>
         instr.target.Some? && !instr.flags.subtract.Dependent? && !instr.flags.carry.Dependent?
       case DEC =>
         instr.target.Some? && !instr.flags.subtract.Dependent? && !instr.flags.carry.Dependent?
       case RXC(_) =>
         instr.target.Some? && TargetToRegister(instr.target.value).Ok? &&
         !instr.flags.zero.Dependent? && !instr.flags.subtract.Dependent? && !instr.flags.halfCarry.Dependent?
  }

  /** `get_instruction`: the static decode table. It reads the registers
      only: immediate operands sit right after the opcode, at `pc + 1`, and
      LD (BC),A targets the byte at the current BC. Any other opcode is
      unsupported. */
  function GetInstruction(code: Word, s: RegFile): (r: Result<Instruction>)
    ensures r.Ok? <==> code <= 0x07 && ((code == 0x01 || code == 0x06) ==> s.pc < 0xFFFF)
    ensures r.Err? ==> r.error == if code > 0x07 then UnsupportedInstruction(code) else ArithmeticOverflow
    ensures r.Ok? ==> WellFormed(r.value)
    ensures r.Ok? ==> r.value.length == Semantics.Lengths[code] && r.value.cycles == Semantics.CycleCosts[code]
  {
    if code == 0x00 then        // NOP
      Ok(Instruction(None, None, NOP, 4, 1, Unmodified4))
    else if code == 0x01 then   // LD BC, u16
      if s.pc + 1 > 0xFFFF then Err(ArithmeticOverflow)
      else Ok(Instruction(Some(N16(s.pc + 1)), Some(InstructionTarget.BC), LD, 12, 3, Unmodified4))
    else if code == 0x02 then   // LD (BC), A
      Ok(Instruction(Some(InstructionTarget.A), Some(N8(s.Pair(RegisterPair.BC))), LD, 4, 1, Unmodified4))
    else if code == 0x03 then   // INC BC
      Ok(Instruction(None, Some(InstructionTarget.BC), INC, 8, 1, Unmodified4))
    else if code == 0x04 then   // INC B
      Ok(Instruction(None, Some(InstructionTarget.B), INC, 4, 1,
                     FlagInstruction(Dependent, FlagOperation.Unset, Dependent, Unmodified)))
    else if code == 0x05 then   // DEC B
      Ok(Instruction(None, Some(InstructionTarget.B), DEC, 4, 1,
                     FlagInstruction(Dependent, FlagOperation.Set, Dependent, Unmodified)))
    else if code == 0x06 then   // LD B, u8
      if s.pc + 1 > 0xFFFF then Err(ArithmeticOverflow)
      else Ok(Instruction(Some(N8(s.pc + 1)), Some(InstructionTarget.B), LD, 8, 2, Unmodified4))
    else if code == 0x07 then   // RLCA
      Ok(Instruction(None, Some(InstructionTarget.A), RXC(Left), 4, 1,
                     FlagInstruction(FlagOperation.Unset, FlagOperation.Unset, FlagOperation.Unset, Dependent)))
    else
      Err(UnsupportedInstruction(code))
  }

  /** The per-flag match of `modify_flags`: `None` leaves the flag alone,
      `Some(v)` writes v. */
  function FlagUpdate(op: FlagOperation, result: Option<FlagResult>): (r: Result<Option<bool>>)
    ensures r.Err? <==> op == Dependent && result.None?
    ensures r.Err? ==> r.error == MissingFlagResult
    ensures r.Ok? ==> (r.value.None? <==> op == Unmodified)
  {
    match op
    case Dependent =>
      (match result
       case Some(v) => Ok(Some(v == FlagResult.Set))
       case None => Err(MissingFlagResult))
    case Unset => Ok(Some(false))
    case Set => Ok(Some(true))
    case Unmodified => Ok(None)
  }

  function Updated(u: Option<bool>, current: bool): bool
  {
    if u.Some? then u.value else current
  }

  /** The flags `modify_flags` leaves behind, or the failure it stops at. */
  function ApplyPolicy(instr: FlagInstruction, results: FlagResults, flags: FlagsRegister): (r: Result<FlagsRegister>)
    ensures r.Err? <==>
      (instr.zero == Dependent && results.zero.None?) || (instr.subtract == Dependent && results.subtract.None?) ||
      (instr.halfCarry == Dependent && results.halfCarry.None?) || (instr.carry == Dependent && results.carry.None?)
    ensures r.Err? ==> r.error == MissingFlagResult
    ensures instr == Unmodified4 ==> r == Ok(flags)
  {
    var zero :- FlagUpdate(instr.zero, results.zero);
    var subtract :- FlagUpdate(instr.subtract, results.subtract);
    var halfCarry :- FlagUpdate(instr.halfCarry, results.halfCarry);
    var carry :- FlagUpdate(instr.carry, results.carry);
    Ok(FlagsRegister(Updated(zero, flags.zero), Updated(subtract, flags.subtract),
                     Updated(halfCarry, flags.halfCarry), Updated(carry, flags.carry)))
  }

  /** The flag policy, flag by flag: Unmodified keeps the flag, Set and
      Unset force it whatever result is supplied, Dependent copies the
      supplied result and fails without one. */
  lemma FlagPolicyLaws(op: FlagOperation, result: Option<FlagResult>, current: bool)
    ensures op == Unmodified ==> FlagUpdate(op, result).Ok? && Updated(FlagUpdate(op, result).value, current) == current
    ensures op == FlagOperation.Set ==> FlagUpdate(op, result) == Ok(Some(true))
    ensures op == FlagOperation.Unset ==> FlagUpdate(op, result) == Ok(Some(false))
    ensures op == Dependent ==> (FlagUpdate(op, result).Err? <==> result.None?)
    ensures op == Dependent && result.Some? ==> FlagUpdate(op, result) == Ok(Some(result.value == FlagResult.Set))
    ensures FlagUpdate(op, result).Err? ==> FlagUpdate(op, result).error == MissingFlagResult
  {
  }

  /** `modify_flags` succeeds exactly when no Dependent flag lacks its
      result, and then each flag depends only on its own policy, its own
      result and its own old value. */
  lemma ApplyPolicyIsPerFlag(instr: FlagInstruction, results: FlagResults, flags: FlagsRegister)
    ensures ApplyPolicy(instr, results, flags).Ok? <==>
      FlagUpdate(instr.zero, results.zero).Ok? && FlagUpdate(instr.subtract, results.subtract).Ok? &&
      FlagUpdate(instr.halfCarry, results.halfCarry).Ok? && FlagUpdate(instr.carry, results.carry).Ok?
    ensures ApplyPolicy(instr, results, flags).Ok? ==>
      var f := ApplyPolicy(instr, results, flags).value;
      f.zero == Updated(FlagUpdate(instr.zero, results.zero).value, flags.zero) &&
      f.subtract == Updated(FlagUpdate(instr.subtract, results.subtract).value, flags.subtract) &&
      f.halfCarry == Updated(FlagUpdate(instr.halfCarry, results.halfCarry).value, flags.halfCarry) &&
      f.carry == Updated(FlagUpdate(instr.carry, results.carry).value, flags.carry)
    ensures instr == Unmodified4 ==> ApplyPolicy(instr, results, flags) == Ok(flags)
  {
  }

  /** The vector of `test_modify_flags`. */
  lemma ModifyFlagsVector()
    ensures ApplyPolicy(FlagInstruction(Dependent, FlagOperation.Unset, Dependent, Unmodified),
                        FlagResults(Some(FlagResult.Unset), Some(FlagResult.Unset), Some(FlagResult.Set), None),
                        FlagsRegister(true, true, false, false))
            == Ok(FlagsRegister(false, false, true, false))
  {
  }

  /** The `match` after each flag's update: `Some(v)` sets the flag to v,
      `None` leaves it. */
  method SetFlagIfSome(reg: Registers, flag: Flag, update: Option<bool>)
    modifies reg
    ensures reg.Snapshot() == old(reg.Snapshot()).(flags := old(reg.flags).With(flag, Updated(update, old(reg.flags).Get(flag))))
  {
    if update.Some? {
      reg.SetFlag(flag, update.value);
    }
  }

  /** `modify_flags`: the four flags are updated in turn, and the first
      Dependent flag without a result panics. */
  method ModifyFlags(reg: Registers, instr: FlagInstruction, results: FlagResults) returns (r: Result<()>)
    modifies reg
    ensures reg.Snapshot() == old(reg.Snapshot()).(flags := reg.flags)
    ensures (if r.Ok? then Ok(reg.flags) else Err(r.error)) == ApplyPolicy(instr, results, old(reg.flags))
  {
    var zero := FlagUpdate(instr.zero, results.zero);
    if zero.Err? {
      return Err(zero.error);
    }
    SetFlagIfSome(reg, Flag.Zero, zero.value);
    var subtract := FlagUpdate(instr.subtract, results.subtract);
    if subtract.Err? {
      return Err(subtract.error);
    }
    SetFlagIfSome(reg, Flag.Subtract, subtract.value);
    var halfCarry := FlagUpdate(instr.halfCarry, results.halfCarry);
    if halfCarry.Err? {
      return Err(halfCarry.error);
    }
    SetFlagIfSome(reg, Flag.HalfCarry, halfCarry.value);
    var carry := FlagUpdate(instr.carry, results.carry);
    if carry.Err? {
      return Err(carry.error);
    }
    SetFlagIfSome(reg, Flag.Carry, carry.value);
    return Ok(());
  }

  /** The machine state an operation acts on: the register file and the
      64 KiB of memory. */
  type State = (RegFile, seq<Byte>)

  predicate Sized(m: State)
  {
    |m.1| == MemSize
  }

  /** `get_x8`: the byte a target holds; 16-bit targets panic. */
  function GetX8(target: InstructionTarget, m: State): (r: Result<Byte>)
    requires Sized(m)
    ensures r.Ok? <==> GetOpSize(target) == Eight
    ensures r.Err? ==> r.error == InvalidOperandWidth
    ensures TargetToRegister(target).Ok? ==> r == Ok(m.0.Reg8(TargetToRegister(target).value))
    ensures target.N8? ==> r == Ok(m.1[target.addr])
  {
    match target
    case A => Ok(m.0.Reg8(Register.A))
    case B => Ok(m.0.Reg8(Register.B))
    case C => Ok(m.0.Reg8(Register.C))
    case D => Ok(m.0.Reg8(Register.D))
    case E => Ok(m.0.Reg8(Register.E))
    case H => Ok(m.0.Reg8(Register.H))
    case L => Ok(m.0.Reg8(Register.L))
    case N8(addr) => Ok(m.1[addr])
    case _ => Err(InvalidOperandWidth)
  }

  /** `get_x16`: the word a target holds. `N16` is little-endian: the low
      byte at `addr`, the high byte at `addr + 1`, whose computation
      overflows for 0xFFFF. 8-bit targets panic. */
  function GetX16(target: InstructionTarget, m: State): (r: Result<Word>)
    requires Sized(m)
    ensures r.Ok? <==> GetOpSize(target) == Sixteen && !(target.N16? && target.addr == 0xFFFF)
    ensures r.Err? ==> r.error == if target.N16? then ArithmeticOverflow else InvalidOperandWidth
    ensures TargetToRegisterPair(target).Ok? ==> r == Ok(m.0.Pair(TargetToRegisterPair(target).value))
    ensures target.N16? && r.Ok? ==> r.value % 0x100 == m.1[target.addr] && r.value / 0x100 == m.1[target.addr + 1]
  {
    match target
    case BC => Ok(m.0.Pair(RegisterPair.BC))
    case DE => Ok(m.0.Pair(RegisterPair.DE))
    case HL => Ok(m.0.Pair(RegisterPair.HL))
    case N16(addr) =>
      if addr + 1 > 0xFFFF then Err(ArithmeticOverflow)
      else Ok(JoinBytes(m.1[addr + 1], m.1[addr]))
    case _ => Err(InvalidOperandWidth)
  }

  /** The state `set_x8` leaves: the byte a target names is replaced; a
      16-bit target panics before anything is written. Reading the target
      back gives the value, and every other 8-bit operand is unchanged. */
  function PutX8(target: InstructionTarget, m: State, value: Byte): (r: Result<State>)
    requires Sized(m)
    ensures r.Ok? <==> GetOpSize(target) == Eight
    ensures r.Err? ==> r.error == InvalidOperandWidth
    ensures r.Ok? ==> Sized(r.value) && GetX8(target, r.value) == Ok(value)
    ensures r.Ok? ==> forall t :: t != target && GetOpSize(t) == Eight ==> GetX8(t, r.value) == GetX8(t, m)
    ensures r.Ok? ==> r.value.0.flags == m.0.flags && r.value.0.pc == m.0.pc && r.value.0.sp == m.0.sp
  {
    match target
    case A => Ok((m.0.WithReg8(Register.A, value), m.1))
    case B => Ok((m.0.WithReg8(Register.B, value), m.1))
    case C => Ok((m.0.WithReg8(Register.C, value), m.1))
    case D => Ok((m.0.WithReg8(Register.D, value), m.1))
    case E => Ok((m.0.WithReg8(Register.E, value), m.1))
    case H => Ok((m.0.WithReg8(Register.H, value), m.1))
    case L => Ok((m.0.WithReg8(Register.L, value), m.1))
    case N8(addr) => Ok((m.0, m.1[addr := value]))
    case _ => Err(InvalidOperandWidth)
  }

  /** The state `set_x16` leaves: a pair is written high byte first; `N16`
      stores the high byte at `addr + 1` and then the low byte at `addr`.
      Reading the target back gives the value. */
  function PutX16(target: InstructionTarget, m: State, value: Word): (r: Result<State>)
    requires Sized(m)
    ensures r.Ok? <==> GetOpSize(target) == Sixteen && !(target.N16? && target.addr == 0xFFFF)
    ensures r.Err? ==> r.error == if target.N16? then ArithmeticOverflow else InvalidOperandWidth
    ensures r.Ok? ==> Sized(r.value) && GetX16(target, r.value) == Ok(value)
    ensures r.Ok? && target.N16? ==> r.value.0 == m.0
    ensures r.Ok? && !target.N16? ==> r.value.1 == m.1
    ensures r.Ok? ==> r.value.0.a == m.0.a && r.value.0.flags == m.0.flags && r.value.0.pc == m.0.pc
    ensures r.Ok? && target.N16? ==>
      forall i :: 0 <= i < |m.1| && i != target.addr && i != target.addr + 1 ==> r.value.1[i] == m.1[i]
    ensures r.Ok? && !target.N16? ==>
      r.value.0.sp == m.0.sp &&
      forall p: RegisterPair :: p != TargetToRegisterPair(target).value ==> r.value.0.Pair(p) == m.0.Pair(p)
  {
    match target
    case BC => Ok((m.0.WithPair(RegisterPair.BC, value), m.1))
    case DE => Ok((m.0.WithPair(RegisterPair.DE, value), m.1))
    case HL => Ok((m.0.WithPair(RegisterPair.HL, value), m.1))
    case N16(addr) =>
      if addr + 1 > 0xFFFF then Err(ArithmeticOverflow)
      else
        var (hi, lo) := SplitByte(value);
        Ok((m.0, m.1[addr + 1 := hi][addr := lo]))
    case _ => Err(InvalidOperandWidth)
  }

  /** A method outcome `r` with the state it left, as the value a
      specification function gives: the state after success, the failure
      otherwise. */
  function Outcome<T>(r: Result<T>, after: State): Result<State>
  {
    if r.Ok? then Ok(after) else Err(r.error)
  }

  /** `set_x8` on the machine. */
  method SetX8(target: InstructionTarget, reg: Registers, mem: MemoryBus, value: Byte) returns (r: Result<()>)
    requires mem.Valid()
    modifies reg, mem.memory
    ensures Outcome(r, (reg.Snapshot(), mem.Contents())) == PutX8(target, old((reg.Snapshot(), mem.Contents())), value)
    ensures r.Err? ==> reg.Snapshot() == old(reg.Snapshot()) && mem.Contents() == old(mem.Contents())
  {
    match target {
      case A => reg.SetReg8(Register.A, value);
      case B => reg.SetReg8(Register.B, value);
      case C => reg.SetReg8(Register.C, value);
      case D => reg.SetReg8(Register.D, value);
      case E => reg.SetReg8(Register.E, value);
      case H => reg.SetReg8(Register.H, value);
      case L => reg.SetReg8(Register.L, value);
      case N8(addr) => mem.Write(addr, value);
      case _ => return Err(InvalidOperandWidth);
    }
    return Ok(());
  }

  /** `set_x16` on the machine. */
  method SetX16(target: InstructionTarget, reg: Registers, mem: MemoryBus, value: Word) returns (r: Result<()>)
    requires mem.Valid()
    modifies reg, mem.memory
    ensures Outcome(r, (reg.Snapshot(), mem.Contents())) == PutX16(target, old((reg.Snapshot(), mem.Contents())), value)
    ensures r.Err? ==> reg.Snapshot() == old(reg.Snapshot()) && mem.Contents() == old(mem.Contents())
  {
    match target {
      case BC => reg.SetReg16(RegisterPair.BC, value);
      case DE => reg.SetReg16(RegisterPair.DE, value);
      case HL => reg.SetReg16(RegisterPair.HL, value);
      case N16(addr) =>
        if addr + 1 > 0xFFFF {
          return Err(ArithmeticOverflow);
        }
        var (hi, lo) := SplitByte(value);
        mem.Write(addr + 1, hi);
        mem.Write(addr, lo);
      case _ => return Err(InvalidOperandWidth);
    }
    return Ok(());
  }

  function ToFlagResult(b: bool): FlagResult
  {
    if b then FlagResult.Set else FlagResult.Unset
  }

  /** The state after a flag update, or the failure of `modify_flags`. */
  function WithFlags(m: State, policy: FlagInstruction, results: FlagResults): Result<State>
  {
    var flags :- ApplyPolicy(policy, results, m.0.flags);
    Ok((m.0.(flags := flags), m.1))
  }

  /** The LD arm: the source is read at its own width and written to the
      target, so a successful load leaves the target holding the source's
      old value. */
  function Load(source: Option<InstructionTarget>, target: Option<InstructionTarget>, m: State): (r: Result<State>)
    requires Sized(m)
    ensures r.Ok? ==> Sized(r.value) && source.Some? && target.Some?
    ensures r.Ok? && GetOpSize(source.value) == Eight ==> GetX8(target.value, r.value) == GetX8(source.value, m)
    ensures r.Ok? && GetOpSize(source.value) == Sixteen ==> GetX16(target.value, r.value) == GetX16(source.value, m)
    ensures source.Some? && target.Some? ==>
      (r.Ok? <==> GetOpSize(source.value) == GetOpSize(target.value) &&
                  !(source.value.N16? && source.value.addr == 0xFFFF) &&
                  !(target.value.N16? && target.value.addr == 0xFFFF))
    ensures source.None? || target.None? ==> r == Err(MissingOperand)
  {
    if source.None? || target.None? then Err(MissingOperand)
    else
    var source, target := source.value, target.value;
    match GetOpSize(source)
    case Eight =>
      PutX8(target, m, GetX8(source, m).value)
    case Sixteen =>
      var value :- GetX16(source, m);
      PutX16(target, m, value)
  }

  /** The results INC hands to the flag policy: Zero Unset and the
      half-carry of `value + 1`. */
  function IncrementResults(halfCarry: bool): FlagResults
  {
    NoResults.(zero := Some(FlagResult.Unset), halfCarry := Some(ToFlagResult(halfCarry)))
  }

  /** The results DEC hands to the flag policy: whether the result is zero
      and the subtract half-carry of `value - 1`. */
  function DecrementResults(zero: bool, halfCarry: bool): FlagResults
  {
    NoResults.(zero := Some(ToFlagResult(zero)), halfCarry := Some(ToFlagResult(halfCarry)))
  }

  /** The INC arm: a missing operand fails, and the operand width decides
      which half runs. */
  function Increment(target: Option<InstructionTarget>, policy: FlagInstruction, m: State): (r: Result<State>)
    requires Sized(m)
    ensures r.Ok? ==> Sized(r.value) && target.Some? && r.value.0.pc == m.0.pc
    ensures target.None? ==> r == Err(MissingOperand)
  {
    if target.None? then Err(MissingOperand)
    else if GetOpSize(target.value) == Eight then IncrementByte(target.value, policy, m)
    else IncrementWord(target.value, policy, m)
  }

  /** INC on an 8-bit operand: it grows by one, 0xFF is an overflow, and
      the flag policy gets Zero Unset and the half-carry of `value + 1`. */
  function IncrementByte(target: InstructionTarget, policy: FlagInstruction, m: State): (r: Result<State>)
    requires Sized(m) && GetOpSize(target) == Eight
    ensures r.Ok? ==> Sized(r.value) && r.value.0.pc == m.0.pc
    ensures r.Ok? ==> GetX8(target, r.value).value == GetX8(target, m).value + 1
    ensures GetX8(target, m).value == 0xFF ==> r == Err(ArithmeticOverflow)
  {
    var value := GetX8(target, m).value;
    if value as int + 1 > 0xFF then Err(ArithmeticOverflow)
    else
      var m' := PutX8(target, m, value + 1).value;
      WithFlags(m', policy, IncrementResults(CheckHalfCarry8(Add, value, 1)))
  }

  /** INC on a 16-bit operand: it grows by one, 0xFFFF is an overflow, and
      the flag policy gets Zero Unset and the 16-bit half-carry. */
  function IncrementWord(target: InstructionTarget, policy: FlagInstruction, m: State): (r: Result<State>)
    requires Sized(m) && GetOpSize(target) == Sixteen
    ensures r.Ok? ==> Sized(r.value) && r.value.0.pc == m.0.pc
    ensures r.Ok? && !target.N16? ==> GetX16(target, r.value).value == GetX16(target, m).value + 1
    ensures GetX16(target, m) == Ok(0xFFFF) ==> r == Err(ArithmeticOverflow)
  {
    var value :- GetX16(target, m);
    if value as int + 1 > 0xFFFF then Err(ArithmeticOverflow)
    else
      var m' := PutX16(target, m, value + 1).value;
      WithFlags(m', policy, IncrementResults(CheckHalfCarry16(Add, value, 1)))
  }

  /** The DEC arm: a missing operand fails, and the operand width decides
      which half runs. */
  function Decrement(target: Option<InstructionTarget>, policy: FlagInstruction, m: State): (r: Result<State>)
    requires Sized(m)
    ensures r.Ok? ==> Sized(r.value) && target.Some? && r.value.0.pc == m.0.pc
    ensures target.None? ==> r == Err(MissingOperand)
  {
    if target.None? then Err(MissingOperand)
    else if GetOpSize(target.value) == Eight then DecrementByte(target.value, policy, m)
    else DecrementWord(target.value, policy, m)
  }

  /** DEC on an 8-bit operand: it shrinks by one, zero is an overflow, and
      the flag policy gets Zero iff the result is zero and the subtract
      half-carry of `value - 1`. */
  function DecrementByte(target: InstructionTarget, policy: FlagInstruction, m: State): (r: Result<State>)
    requires Sized(m) && GetOpSize(target) == Eight
    ensures r.Ok? ==> Sized(r.value) && r.value.0.pc == m.0.pc
    ensures r.Ok? ==> GetX8(target, r.value).value == GetX8(target, m).value - 1
    ensures GetX8(target, m).value == 0 ==> r == Err(ArithmeticOverflow)
  {
    var value := GetX8(target, m).value;
    if value < 1 then Err(ArithmeticOverflow)
    else
      var m' := PutX8(target, m, value - 1).value;
      WithFlags(m', policy, DecrementResults(value == 1, CheckHalfCarry8(ArithmeticMode.Subtract, value, 1)))
  }

  /** DEC on a 16-bit operand: it shrinks by one, zero is an overflow, and
      the flag policy gets Zero iff the result is zero and the 16-bit
      subtract half-carry. */
  function DecrementWord(target: InstructionTarget, policy: FlagInstruction, m: State): (r: Result<State>)
    requires Sized(m) && GetOpSize(target) == Sixteen
    ensures r.Ok? ==> Sized(r.value) && r.value.0.pc == m.0.pc
    ensures r.Ok? && !target.N16? ==> GetX16(target, r.value).value == GetX16(target, m).value - 1
    ensures GetX16(target, m) == Ok(0) ==> r == Err(ArithmeticOverflow)
  {
    var value :- GetX16(target, m);
    if value < 1 then Err(ArithmeticOverflow)
    else
      var m' := PutX16(target, m, value - 1).value;
      WithFlags(m', policy, DecrementResults(value == 1, CheckHalfCarry16(ArithmeticMode.Subtract, value, 1)))
  }

  /** The RXC arm: a left rotation moves bit 7 of the register into bit 0
      and reports it as the carry result; the right rotation is an
      unimplemented stub. */
  function Rotate(direction: Direction, target: Option<InstructionTarget>, policy: FlagInstruction, m: State): (r: Result<State>)
    ensures r.Ok? ==> direction == Left && r.value.1 == m.1 && r.value.0.pc == m.0.pc
    ensures r.Ok? ==> target.Some? && TargetToRegister(target.value).Ok?
    ensures r.Ok? ==> (var reg := TargetToRegister(target.value).value;
                       r.value.0.Reg8(reg) == Semantics.RotateLeft(m.0.Reg8(reg)))
    ensures direction == Right ==> r == Err(NotImplemented)
  {
    match direction
    case Left =>
      if target.None? then Err(MissingOperand)
      else
      var reg :- TargetToRegister(target.value);
      var value := m.0.Reg8(reg);
      var bit7 := (value / 0x80) % 2;                      // (value & 0x80) >> 7
      var rotated := (value % 0x80) * 2 + bit7;            // u8 `value << 1` drops bit 7
      WithFlags((m.0.WithReg8(reg, rotated), m.1), policy,
                NoResults.(carry := Some(if bit7 == 0 then FlagResult.Unset else FlagResult.Set)))
    case Right => Err(NotImplemented)
  }

  /** The `match instruction.operation` of `execute_instruction`: the
      effect of one decoded instruction before `pc` moves. No operation
      touches `pc`. */
  function Perform(instr: Instruction, m: State): (r: Result<State>)
    requires Sized(m)
    ensures r.Ok? ==> Sized(r.value) && r.value.0.pc == m.0.pc
    ensures instr.operation == NOP ==> r == Ok(m)
  {
    match instr.operation
    case NOP => Ok(m)
    case LD => Load(instr.source, instr.target, m)
    case INC => Increment(instr.target, instr.flags, m)
    case DEC => Decrement(instr.target, instr.flags, m)
    case RXC(direction) => Rotate(direction, instr.target, instr.flags, m)
  }

  /** `execute_instruction` as a value: decode, perform, then advance `pc`
      by the instruction length (an overflow past 0xFFFF fails) and report
      the cycle cost. */
  function Execute(code: Word, m: State): (r: Result<Semantics.Effect>)
    requires Sized(m)
    ensures r.Ok? ==> GetInstruction(code, m.0).Ok?
    ensures r.Ok? ==> r.value.regs.pc == m.0.pc + GetInstruction(code, m.0).value.length
  {
    var instr :- GetInstruction(code, m.0);
    var m' :- Perform(instr, m);
    if m'.0.pc + instr.length > 0xFFFF then Err(ArithmeticOverflow)
    else Ok(Semantics.Effect(m'.0.(pc := m'.0.pc + instr.length), m'.1, instr.cycles))
  }

  /** The machine state as a value. */
  function Machine(reg: Registers, mem: MemoryBus): (m: State)
    reads reg, mem, mem.memory
    requires mem.Valid()
    ensures Sized(m)
  {
    (reg.Snapshot(), mem.Contents())
  }

  /** The LD arm on the machine. */
  method ExecuteLoad(source: Option<InstructionTarget>, target: Option<InstructionTarget>,
                     reg: Registers, mem: MemoryBus) returns (r: Result<()>)
    requires mem.Valid()
    modifies reg, mem.memory
    ensures Outcome(r, Machine(reg, mem)) == Load(source, target, old(Machine(reg, mem)))
  {
    if source.None? || target.None? {
      return Err(MissingOperand);
    }
    match GetOpSize(source.value) {
      case Eight =>
        var value := GetX8(source.value, Machine(reg, mem)).value;
        r := SetX8(target.value, reg, mem, value);
      case Sixteen =>
        var value :- GetX16(source.value, Machine(reg, mem));
        r := SetX16(target.value, reg, mem, value);
    }
  }

  /** The second half of every INC and DEC arm: write the new operand
      value, then run the flag policy on the results. */
  method WriteByteWithFlags(target: InstructionTarget, value: Byte, policy: FlagInstruction, results: FlagResults,
                            reg: Registers, mem: MemoryBus) returns (r: Result<()>)
    requires mem.Valid() && PutX8(target, Machine(reg, mem), value).Ok?
    modifies reg, mem.memory
    ensures Outcome(r, Machine(reg, mem)) == WithFlags(PutX8(target, old(Machine(reg, mem)), value).value, policy, results)
  {
    ghost var written := PutX8(target, Machine(reg, mem), value).value;
    var _ := SetX8(target, reg, mem, value);
    assert Machine(reg, mem) == written;
    r := ModifyFlags(reg, policy, results);
    assert mem.Contents() == written.1;
  }

  method WriteWordWithFlags(target: InstructionTarget, value: Word, policy: FlagInstruction, results: FlagResults,
                            reg: Registers, mem: MemoryBus) returns (r: Result<()>)
    requires mem.Valid() && PutX16(target, Machine(reg, mem), value).Ok?
    modifies reg, mem.memory
    ensures Outcome(r, Machine(reg, mem)) == WithFlags(PutX16(target, old(Machine(reg, mem)), value).value, policy, results)
  {
    ghost var written := PutX16(target, Machine(reg, mem), value).value;
    var _ := SetX16(target, reg, mem, value);
    assert Machine(reg, mem) == written;
    r := ModifyFlags(reg, policy, results);
    assert mem.Contents() == written.1;
  }

  /** The INC arm on the machine: the operand width decides which half
      runs. */
  method ExecuteIncrement(target: Option<InstructionTarget>, policy: FlagInstruction,
                          reg: Registers, mem: MemoryBus) returns (r: Result<()>)
    requires mem.Valid()
    modifies reg, mem.memory
    ensures Outcome(r, Machine(reg, mem)) == Increment(target, policy, old(Machine(reg, mem)))
  {
    if target.None? {
      return Err(MissingOperand);
    }
    match GetOpSize(target.value) {
      case Eight => r := ExecuteIncrementByte(target.value, policy, reg, mem);
      case Sixteen => r := ExecuteIncrementWord(target.value, policy, reg, mem);
    }
  }

  method ExecuteIncrementByte(target: InstructionTarget, policy: FlagInstruction,
                              reg: Registers, mem: MemoryBus) returns (r: Result<()>)
    requires mem.Valid() && GetOpSize(target) == Eight
    modifies reg, mem.memory
    ensures Outcome(r, Machine(reg, mem)) == IncrementByte(target, policy, old(Machine(reg, mem)))
  {
    var value := GetX8(target, Machine(reg, mem)).value;
    if value as int + 1 > 0xFF {
      return Err(ArithmeticOverflow);
    }
    var results := IncrementResults(CheckHalfCarry8(Add, value, 1));
    r := WriteByteWithFlags(target, value + 1, policy, results, reg, mem);
  }

  method ExecuteIncrementWord(target: InstructionTarget, policy: FlagInstruction,
                              reg: Registers, mem: MemoryBus) returns (r: Result<()>)
    requires mem.Valid() && GetOpSize(target) == Sixteen
    modifies reg, mem.memory
    ensures Outcome(r, Machine(reg, mem)) == IncrementWord(target, policy, old(Machine(reg, mem)))
  {
    var read := GetX16(target, Machine(reg, mem));
    if read.Err? {
      return Err(read.error);
    }
    var value := read.value;
    if value as int + 1 > 0xFFFF {
      return Err(ArithmeticOverflow);
    }
    var results := IncrementResults(CheckHalfCarry16(Add, value, 1));
    r := WriteWordWithFlags(target, value + 1, policy, results, reg, mem);
  }

  /** The DEC arm on the machine: the operand width decides which half
      runs. */
  method ExecuteDecrement(target: Option<InstructionTarget>, policy: FlagInstruction,
                          reg: Registers, mem: MemoryBus) returns (r: Result<()>)
    requires mem.Valid()
    modifies reg, mem.memory
    ensures Outcome(r, Machine(reg, mem)) == Decrement(target, policy, old(Machine(reg, mem)))
  {
    if target.None? {
      return Err(MissingOperand);
    }
    match GetOpSize(target.value) {
      case Eight => r := ExecuteDecrementByte(target.value, policy, reg, mem);
      case Sixteen => r := ExecuteDecrementWord(target.value, policy, reg, mem);
    }
  }

  method ExecuteDecrementByte(target: InstructionTarget, policy: FlagInstruction,
                              reg: Registers, mem: MemoryBus) returns (r: Result<()>)
    requires mem.Valid() && GetOpSize(target) == Eight
    modifies reg, mem.memory
    ensures Outcome(r, Machine(reg, mem)) == DecrementByte(target, policy, old(Machine(reg, mem)))
  {
    var value := GetX8(target, Machine(reg, mem)).value;
    if value < 1 {
      return Err(ArithmeticOverflow);
    }
    var results := DecrementResults(value == 1, CheckHalfCarry8(ArithmeticMode.Subtract, value, 1));
    r := WriteByteWithFlags(target, value - 1, policy, results, reg, mem);
  }

  method ExecuteDecrementWord(target: InstructionTarget, policy: FlagInstruction,
                              reg: Registers, mem: MemoryBus) returns (r: Result<()>)
    requires mem.Valid() && GetOpSize(target) == Sixteen
    modifies reg, mem.memory
    ensures Outcome(r, Machine(reg, mem)) == DecrementWord(target, policy, old(Machine(reg, mem)))
  {
    var read := GetX16(target, Machine(reg, mem));
    if read.Err? {
      return Err(read.error);
    }
    var value := read.value;
    if value < 1 {
      return Err(ArithmeticOverflow);
    }
    var results := DecrementResults(value == 1, CheckHalfCarry16(ArithmeticMode.Subtract, value, 1));
    r := WriteWordWithFlags(target, value - 1, policy, results, reg, mem);
  }

  /** The RXC arm on the machine. */
  method ExecuteRotate(direction: Direction, target: Option<InstructionTarget>, policy: FlagInstruction,
                       reg: Registers, mem: MemoryBus) returns (r: Result<()>)
    requires mem.Valid()
    modifies reg
    ensures Outcome(r, Machine(reg, mem)) == Rotate(direction, target, policy, old(Machine(reg, mem)))
  {
    match direction {
      case Left =>
        if target.None? {
          return Err(MissingOperand);
        }
        var register :- TargetToRegister(target.value);
        var value := reg.GetReg8(register);
        var bit7 := (value / 0x80) % 2;                       // (value & 0x80) >> 7
        reg.SetReg8(register, (value % 0x80) * 2 + bit7);     // u8 `value << 1` drops bit 7
        r := ModifyFlags(reg, policy, NoResults.(carry := Some(if bit7 == 0 then FlagResult.Unset else FlagResult.Set)));
      case Right =>
        return Err(NotImplemented);
    }
  }

  /** `execute_instruction`: decode, run the operation's arm, then advance
      `pc` by the instruction length and return the cycle cost. The outcome
      is exactly the one `Semantics.Step` specifies for the opcode, and an
      unsupported opcode fails before anything changes. */
  method ExecuteInstruction(code: Word, reg: Registers, mem: MemoryBus) returns (r: Result<Byte>)
    requires mem.Valid()
    modifies reg, mem.memory
    ensures var step := Semantics.Step(code, old(reg.Snapshot()), old(mem.Contents()));
      && (r.Ok? <==> step.Ok?)
      && (r.Ok? ==> step.value == Semantics.Effect(reg.Snapshot(), mem.Contents(), r.value))
      && (r.Err? ==> step.Err? && r.error == step.error)
    ensures r == Err(UnsupportedInstruction(code)) ==>
      reg.Snapshot() == old(reg.Snapshot()) && mem.Contents() == old(mem.Contents())
  {
    ExecuteIsStep(code, Machine(reg, mem));
    var instr :- GetInstruction(code, reg.Snapshot());
    var done: Result<()>;
    match instr.operation {
      case NOP => done := Ok(());
      case LD => done := ExecuteLoad(instr.source, instr.target, reg, mem);
      case INC => done := ExecuteIncrement(instr.target, instr.flags, reg, mem);
      case DEC => done := ExecuteDecrement(instr.target, instr.flags, reg, mem);
      case RXC(direction) => done := ExecuteRotate(direction, instr.target, instr.flags, reg, mem);
    }
    if done.Err? {
      return Err(done.error);
    }
    if reg.pc + instr.length > 0xFFFF {
      return Err(ArithmeticOverflow);
    }
    reg.pc := reg.pc + instr.length;
    return Ok(instr.cycles);
  }

  /** The interpreter, built from the decode table, the operand resolver and
      the flag policy, does exactly what each opcode is specified to do:
      the same new registers, memory and cycle count, and the same failure. */
  lemma ExecuteIsStep(code: Word, m: State)
    requires Sized(m)
    ensures Execute(code, m) == Semantics.Step(code, m.0, m.1)
  {
    if code == 0x01 || code == 0x02 || code == 0x06 {
      LoadsAgree(code, m);
    } else if code == 0x03 {
      IncrementPairAgrees(m);
    } else if code == 0x04 {
      IncrementByteAgrees(m);
    } else if code == 0x05 {
      DecrementByteAgrees(m);
    } else if code == 0x07 {
      RotateAgrees(m);
    }
  }

  lemma LoadsAgree(code: Word, m: State)
    requires Sized(m) && (code == 0x01 || code == 0x02 || code == 0x06)
    ensures Execute(code, m) == Semantics.Step(code, m.0, m.1)
  {
    var s := m.0;
    if code == 0x01 && s.pc + 2 <= 0xFFFF {
      var instr := GetInstruction(code, s).value;
      assert GetX16(N16(s.pc + 1), m) == Ok(JoinBytes(m.1[s.pc + 2], m.1[s.pc + 1]));
      assert Perform(instr, m) == Ok((s.(b := m.1[s.pc + 2], c := m.1[s.pc + 1]), m.1));
    } else if code == 0x02 {
      var instr := GetInstruction(code, s).value;
      assert Perform(instr, m) == Ok((s, m.1[s.b * 0x100 + s.c := s.a]));
    } else if code == 0x06 && s.pc + 1 <= 0xFFFF {
      var instr := GetInstruction(code, s).value;
      assert Perform(instr, m) == Ok((s.(b := m.1[s.pc + 1]), m.1));
    }
  }

  lemma IncrementPairAgrees(m: State)
    requires Sized(m)
    ensures Execute(0x03, m) == Semantics.Step(0x03, m.0, m.1)
  {
  }

  lemma IncrementByteAgrees(m: State)
    requires Sized(m)
    ensures Execute(0x04, m) == Semantics.Step(0x04, m.0, m.1)
  {
    var s := m.0;
    var policy := GetInstruction(0x04, s).value.flags;
    if s.b == 0xFF {
      assert IncrementByte(InstructionTarget.B, policy, m) == Err(ArithmeticOverflow);
    } else {
      var halfCarry := s.b % 0x10 == 0xF;
      var flags := s.flags.(zero := false, subtract := false, halfCarry := halfCarry);
      IncrementBWrites(m);
      assert Perform(GetInstruction(0x04, s).value, m) == Ok((s.(b := s.b + 1, flags := flags), m.1));
    }
  }

  /** INC B below 0xFF: B grows by one, Zero and Subtract clear, HalfCarry
      set exactly when the low nibble was 0xF. */
  lemma IncrementBWrites(m: State)
    requires Sized(m) && m.0.b < 0xFF
    ensures var s := m.0;
      IncrementByte(InstructionTarget.B, GetInstruction(0x04, s).value.flags, m) ==
        Ok((s.(b := s.b + 1, flags := s.flags.(zero := false, subtract := false, halfCarry := s.b % 0x10 == 0xF)), m.1))
  {
    var s := m.0;
    var policy := GetInstruction(0x04, s).value.flags;
    var halfCarry := s.b % 0x10 == 0xF;
    assert PutX8(InstructionTarget.B, m, s.b + 1) == Ok((s.(b := s.b + 1), m.1));
    assert CheckHalfCarry8(Add, s.b, 1) == halfCarry;
    assert ApplyPolicy(policy, IncrementResults(halfCarry), s.flags) ==
           Ok(s.flags.(zero := false, subtract := false, halfCarry := halfCarry));
  }

  lemma DecrementByteAgrees(m: State)
    requires Sized(m)
    ensures Execute(0x05, m) == Semantics.Step(0x05, m.0, m.1)
  {
    var s := m.0;
    var policy := GetInstruction(0x05, s).value.flags;
    if s.b == 0 {
      assert DecrementByte(InstructionTarget.B, policy, m) == Err(ArithmeticOverflow);
    } else {
      var halfCarry := (s.b / 0x10) % 2 == 1;
      var flags := s.flags.(zero := s.b == 1, subtract := true, halfCarry := halfCarry);
      DecrementBWrites(m);
      assert Perform(GetInstruction(0x05, s).value, m) == Ok((s.(b := s.b - 1, flags := flags), m.1));
    }
  }

  /** DEC B above zero: B shrinks by one, Zero set exactly when B was 1,
      Subtract set, HalfCarry a copy of bit 4 of the old B. */
  lemma DecrementBWrites(m: State)
    requires Sized(m) && m.0.b > 0
    ensures var s := m.0;
      DecrementByte(InstructionTarget.B, GetInstruction(0x05, s).value.flags, m) ==
        Ok((s.(b := s.b - 1, flags := s.flags.(zero := s.b == 1, subtract := true, halfCarry := (s.b / 0x10) % 2 == 1)), m.1))
  {
    var s := m.0;
    var policy := GetInstruction(0x05, s).value.flags;
    var halfCarry := (s.b / 0x10) % 2 == 1;
    assert PutX8(InstructionTarget.B, m, s.b - 1) == Ok((s.(b := s.b - 1), m.1));
    assert CheckHalfCarry8(ArithmeticMode.Subtract, s.b, 1) == halfCarry;
    assert ApplyPolicy(policy, DecrementResults(s.b == 1, halfCarry), s.flags) ==
           Ok(s.flags.(zero := s.b == 1, subtract := true, halfCarry := halfCarry));
  }

  lemma RotateAgrees(m: State)
    requires Sized(m)
    ensures Execute(0x07, m) == Semantics.Step(0x07, m.0, m.1)
  {
    var s := m.0;
    var instr := GetInstruction(0x07, s).value;
    var carry := if s.a >= 0x80 then FlagResult.Set else FlagResult.Unset;
    var flags := FlagsRegister(false, false, false, s.a >= 0x80);
    assert ApplyPolicy(instr.flags, NoResults.(carry := Some(carry)), s.flags) == Ok(flags);
    assert Perform(instr, m) == Ok((s.(a := Semantics.RotateLeft(s.a), flags := flags), m.1));
  }
}
