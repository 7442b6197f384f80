# libdmg SM83 interpreter, modelled in Dafny

This project models the core of the `libdmg` crate, the most complete
revision of a Game Boy (Sharp SM83 / LR35902) CPU interpreter written in
Rust. It also models the older register file of `src/dmg/registers.rs`.
The model covers:

- the carry and half-carry rules for 8- and 16-bit add and subtract;
- the register file: seven 8-bit registers, a flags register packed into the
  high nibble of a byte, the BC/DE/HL pairs, `pc` and `sp`;
- the 64 KiB memory bus;
- the interpreter: the decode table for opcodes 0x00 to 0x07 (NOP, LD BC,u16,
  LD (BC),A, INC BC, INC B, DEC B, LD B,u8, RLCA), the operand resolver
  (registers, pairs, a byte at an address, a little-endian word at an
  address), the per-flag policy (Unmodified, Set, Unset, Dependent), and the
  execution engine;
- the CPU, whose tick always executes opcode 0x00.

Modules, one per source file:

| module | file | source |
|---|---|---|
| `Results` | results.dfy | the outcome type: a value, or the failure the Rust code panics with |
| `Data` | data.dfy | libdmg/src/data.rs |
| `Bits` | bits.dfy | arithmetic facts about bit positions, used by the proofs |
| `Flags` | flags.dfy | libdmg/src/flags.rs |
| `RegisterFile` | registers.dfy | libdmg/src/registers.rs |
| `Memory` | memory.dfy | libdmg/src/memory.rs |
| `Semantics` | semantics.dfy | what each implemented opcode does, stated per opcode on values |
| `Instructions` | instructions.dfy | libdmg/src/instructions.rs |
| `Cpu` | cpu.dfy | libdmg/src/cpu.rs |
| `LegacyRegisterFile` | legacy_registers.dfy | src/dmg/registers.rs |

How the Rust code is represented:

- **Objects changed in place are classes.**
  - `Registers`, `MemoryBus` and `CPU` are classes. `MemoryBus` holds an array of 0x10000 bytes.
  - Every method that writes states the whole new state, through `Snapshot()` (a `RegFile` value) and `Contents()` (a `seq` of bytes).
- **Panics become `Err` values.** Each failure is a `Results.Failure`:
  - `UnsupportedInstruction(code)` for an opcode the decode table lacks;
  - `ArithmeticOverflow` for the debug-build overflows of `value + 1`, `value - 1`, `addr + 1` and `pc + length`;
  - `InvalidOperandWidth` for a width-mismatched operand;
  - `InvalidTarget` and `InvalidRegisterPair` for a target or pair a conversion does not accept;
  - `MissingOperand` for `unwrap` on an absent operand;
  - `MissingFlagResult` for a Dependent flag with no result;
  - `NotImplemented` for the `todo!()` of RRCA.
- **The interpreter is proved against an independent reference, `Semantics.Step`.**
  - `Step` states what each opcode does to a register file and a memory.
  - `Instructions.ExecuteIsStep` proves the value-level interpreter (`Instructions.Execute`: decode, perform, advance `pc`) equal to it for every opcode and state.
  - `Instructions.ExecuteInstruction` is the imperative engine. It is proved to produce exactly `Step`'s outcome.
- **Model follows the code.** Where the code differs from the Game Boy hardware documentation, the model follows the code, and the tests agree with the code:
  - The subtract half-carry tests bit 4 of the minuend (libdmg/src/flags.rs:16) rather than a borrow out of the low nibble. `Flags.SubtractHalfCarryIsNotNibbleBorrow` gives inputs where the two differ.
  - INC forces Zero to Unset (libdmg/src/instructions.rs:245). Since INC of 0xFF overflows first, this equals "Zero iff the result is zero" on every input that succeeds.

## Model

| member | source | states |
|---|---|---|
| Data.SplitByte | libdmg/src/data.rs:7-11 | the high and low bytes recombine to the address (`hi * 256 + lo == addr`), and are `addr / 256` and `addr % 256` |
| Data.SplitJoin | libdmg/src/data.rs:8-10 | joining the two halves of a split gives the address back |
| Data.JoinSplit | libdmg/src/data.rs:8-10 | splitting a joined pair of bytes gives the pair back |
| Flags.CheckCarry8 | libdmg/src/flags.rs:6-11 | Add: true iff the 8-bit sum wraps; Subtract: true iff the 8-bit difference wraps |
| Flags.CheckHalfCarry8 | libdmg/src/flags.rs:13-18 | Add: true iff the low nibbles sum to at least 0x10; Subtract: true iff bit 4 of `a` is set and the low nibble of `b` is not zero |
| Flags.CheckCarry16 | libdmg/src/flags.rs:20-25 | Add: true iff the 16-bit sum wraps; Subtract: true iff the 16-bit difference wraps |
| Flags.CheckHalfCarry16 | libdmg/src/flags.rs:27-32 | Add: true iff the low 12 bits sum to at least 0x1000; Subtract: true iff bit 12 of `a` is set and the low 12 bits of `b` are not zero |
| Flags.AddIsSymmetric | libdmg/src/flags.rs:8-29 | every Add-mode rule is symmetric in its operands |
| Flags.SubtractCarryIsBorrow | libdmg/src/flags.rs:9-23 | the Subtract carry is set exactly when `a < b` |
| Flags.SubtractHalfCarryIsNotNibbleBorrow | libdmg/src/flags.rs:16 | the subtract half-carry differs from a low-nibble borrow: (0x00,0x01), (0x1F,0x01) and (0x20,0x01) disagree |
| Flags.FlagRuleVectors | libdmg/src/flags.rs:38-174 | every vector of the four flag-rule tests |
| RegisterFile.FlagsRegister.With | libdmg/src/registers.rs:134-141 | the chosen flag takes the value, and the other three keep theirs |
| RegisterFile.FlagsToByte | libdmg/src/registers.rs:14-21 | Zero, Subtract, HalfCarry and Carry are bits 7, 6, 5 and 4, and the low nibble is zero |
| RegisterFile.FlagsFromByte | libdmg/src/registers.rs:23-37 | packing the unpacked flags gives the byte with its low nibble cleared (`byte & 0xF0`) |
| RegisterFile.FlagsRoundTrip | libdmg/src/registers.rs:14-37 | unpacking packed flags gives the flags back |
| RegisterFile.FlagsFromByteIgnoresLowNibble | libdmg/src/registers.rs:23-37 | two bytes unpack to the same flags iff they agree in their high nibble |
| RegisterFile.FlagsVectors | libdmg/src/registers.rs:496-520 | the vectors of `test_flags_from_u8` and `test_u8_from_flags` (0xC0 and Zero plus Subtract) |
| RegisterFile.RegFile.Reg8 | libdmg/src/registers.rs:74-85 | F reads as the packed flags byte, whose low nibble is zero |
| RegisterFile.RegFile.Pair | libdmg/src/registers.rs:87-93 | B, D and H are the high byte and C, E and L the low byte of BC, DE and HL |
| RegisterFile.RegFile.WithReg8 | libdmg/src/registers.rs:95-106 | the written register reads back as the value (F: its high nibble), no other register changes, and `pc` and `sp` are kept |
| RegisterFile.RegFile.WithPair | libdmg/src/registers.rs:108-123 | the pair reads back as the value; the other pairs, A, the flags, `pc` and `sp` are kept |
| RegisterFile.Registers.constructor | libdmg/src/registers.rs:54-72 | every register, every flag, `pc` and `sp` start at zero |
| RegisterFile.Registers.SetReg8 | libdmg/src/registers.rs:95-106 | the register reads back as the value (F as `value & 0xF0`); other registers are unchanged; the new state is the old one with that register written |
| RegisterFile.Registers.SetReg16 | libdmg/src/registers.rs:108-123 | the pair reads back as the value; other pairs are unchanged; only the two registers of the pair change |
| RegisterFile.Registers.SetFlag | libdmg/src/registers.rs:134-141 | the flag reads back as the value; the other flags and all registers are unchanged |
| RegisterFile.Registers.GetReg8 | libdmg/src/registers.rs:74-85 | F reads with a zero low nibble, and writing back what was read changes nothing |
| RegisterFile.Registers.GetReg16 | libdmg/src/registers.rs:87-93 | B, D and H are the high byte and C, E and L the low byte of BC, DE and HL, and writing the pair back changes nothing |
| RegisterFile.Registers.GetFlag | libdmg/src/registers.rs:125-132 | Zero, Subtract, HalfCarry and Carry are bits 7, 6, 5 and 4 of what F reads as |
| RegisterFile.Registers.GetFlags | libdmg/src/registers.rs:143-145 | the packed flags byte is what F reads as, and unpacking it gives the flags back |
| RegisterFile.Registers.SetFlags | libdmg/src/registers.rs:143-149 | `get_flags` afterwards gives `value & 0xF0`; only the flags change |
| Memory.MemoryBus.Contents | libdmg/src/memory.rs:8-10 | the bus holds exactly 0x10000 bytes, so every 16-bit address is in bounds |
| Memory.MemoryBus.constructor | libdmg/src/memory.rs:22-27 | the default bus is 0x10000 zero bytes |
| Memory.MemoryBus.Read | libdmg/src/memory.rs:17-19 | the byte the bus holds at that address |
| Memory.MemoryBus.Write | libdmg/src/memory.rs:13-15 | the byte reads back as written and every other address is unchanged |
| Semantics.RotateLeft | libdmg/src/instructions.rs:307-312 | bit 0 of the rotation is bit 7 of the byte, and the bits above it are bits 0 to 6 of the byte |
| Semantics.Step | libdmg/src/instructions.rs:124-333 | the reference meaning of opcodes 0x00 to 0x07, written per opcode; a successful step is a decoded opcode, costs that opcode's cycles, and keeps `sp` and the memory size |
| Semantics.RotatedTopBit | libdmg/src/instructions.rs:307-312 | bit 7 of the byte becomes bit 0 of the rotation |
| Semantics.RotatedBitAt | libdmg/src/instructions.rs:307-312 | bits 0 to 6 of the byte move up one place in the rotation |
| Semantics.RotateLeftMovesBits | libdmg/src/instructions.rs:307-312 | bit `i` of the rotated byte is bit `i - 1` (mod 8) of the original |
| Semantics.StepAdvancesPc | libdmg/src/instructions.rs:329-332 | a successful instruction advances `pc` by its length and costs its cycles, whatever the operands; a `pc + length` past 0xFFFF overflows |
| Semantics.StepFailures | libdmg/src/instructions.rs:124-215 | the only failures are an opcode outside 0x00..0x07 and an overflow |
| Semantics.NopOnlyAdvancesPc | libdmg/src/instructions.rs:126-134 | NOP changes nothing but `pc`, which grows by one |
| Semantics.MemoryWrites | libdmg/src/instructions.rs:144-152 | only LD (BC),A writes memory, and it writes A at address BC only |
| Semantics.LoadsReadImmediates | libdmg/src/instructions.rs:135-198 | LD BC,u16 (decoded at lines 135-143) loads the little-endian word after the opcode; LD B,u8 (decoded at lines 190-198) loads the byte after it; flags are kept |
| Semantics.IncDecB | libdmg/src/instructions.rs:162-189 | INC B and DEC B move B by one, fail exactly at 0xFF and 0, keep Carry, set Subtract as specified, and take the half-carry from the flag rules |
| Semantics.RlcaRotates | libdmg/src/instructions.rs:199-212 | RLCA rotates A left by one bit, copies the old bit 7 to Carry and clears the other flags |
| Semantics.StepTestVectors | libdmg/src/instructions/tests.rs:240-401 | the vectors of the opcode tests 0x00 to 0x07 |
| Semantics.RepeatedDec | libdmg/src/instructions.rs:176-189 | `n` DEC B in a row count B down by `n`, advance `pc` by `n`, keep Carry and set Zero exactly when B reaches zero |
| Instructions.GetOpSize | libdmg/src/instructions.rs:82-97 | a target is 8-bit iff it is a register or `N8`, and 16-bit iff it is a pair or `N16` |
| Instructions.TargetToRegister | libdmg/src/instructions.rs:99-110 | succeeds exactly for the seven register targets A, B, C, D, E, H and L, maps each to its own register (never F), and fails with an invalid-target error for the pairs, `N8` and `N16` |
| Instructions.TargetToRegisterPair | libdmg/src/instructions.rs:112-122 | succeeds exactly for BC, DE and HL, maps each to its own pair, and fails with an invalid-target error for every other target |
| Instructions.TargetConversionsAreInjective | libdmg/src/instructions.rs:99-122 | distinct targets never convert to the same register or the same pair |
| Instructions.GetInstruction | libdmg/src/instructions.rs:124-215 | decodes exactly 0x00..0x07 (an immediate past 0xFFFF overflows); each entry has the table's length and cycles, and its operands and flag policies fit the operation |
| Instructions.FlagUpdate | libdmg/src/instructions.rs:336-346 | a flag update fails exactly for a Dependent flag without a result, and leaves the flag alone exactly when it is Unmodified |
| Instructions.ApplyPolicy | libdmg/src/instructions.rs:335-387 | the policy fails exactly when some Dependent flag lacks its result, and an all-Unmodified policy keeps the flags |
| Instructions.FlagPolicyLaws | libdmg/src/instructions.rs:335-343 | Unmodified keeps a flag, Set and Unset force it whatever the result, and Dependent copies the result or fails without one |
| Instructions.ApplyPolicyIsPerFlag | libdmg/src/instructions.rs:335-387 | each flag depends only on its own policy, result and old value; the update fails iff some flag fails; all-Unmodified keeps every flag |
| Instructions.ModifyFlagsVector | libdmg/src/instructions/tests.rs:6-31 | the vector of `test_modify_flags` |
| Instructions.SetFlagIfSome | libdmg/src/instructions.rs:344-347 | `Some(v)` sets the flag to v and `None` keeps it; nothing else changes |
| Instructions.ModifyFlags | libdmg/src/instructions.rs:335-387 | the four sequential updates end with exactly the flags `ApplyPolicy` computes, or with its failure; nothing but the flags changes |
| Instructions.GetX8 | libdmg/src/instructions.rs:389-401 | a register target reads that register, `N8(addr)` reads the byte at `addr`, and 16-bit targets fail |
| Instructions.GetX16 | libdmg/src/instructions.rs:403-413 | reads a pair, or the little-endian word at an address (which overflows at 0xFFFF), and fails for 8-bit targets |
| Instructions.PutX8 | libdmg/src/instructions.rs:415-427 | after the write the target reads back as the value and every other 8-bit operand is unchanged; 16-bit targets fail |
| Instructions.PutX16 | libdmg/src/instructions.rs:429-440 | after the write the target reads back as the value; `N16` stores the high byte at `addr + 1` and the low byte at `addr`, keeps every other byte and every register; a pair write keeps memory, A, the flags, `pc`, `sp` and the other two pairs; 8-bit targets fail |
| Instructions.SetX8 | libdmg/src/instructions.rs:415-427 | the machine ends as `PutX8` says, and a failure changes nothing |
| Instructions.SetX16 | libdmg/src/instructions.rs:429-440 | the machine ends as `PutX16` says, and a failure changes nothing |
| Instructions.Load | libdmg/src/instructions.rs:222-235 | after a load the target holds the source's old value; it succeeds iff the widths match and no word read or write passes 0xFFFF |
| Instructions.Increment | libdmg/src/instructions.rs:237-265 | an absent operand fails; a success keeps `pc` and the memory size |
| Instructions.IncrementByte | libdmg/src/instructions.rs:242-251 | the 8-bit operand grows by one, 0xFF overflows, and `pc` is kept |
| Instructions.IncrementWord | libdmg/src/instructions.rs:252-261 | a register pair grows by one, 0xFFFF overflows, and `pc` is kept |
| Instructions.Decrement | libdmg/src/instructions.rs:266-302 | an absent operand fails; a success keeps `pc` and the memory size |
| Instructions.DecrementByte | libdmg/src/instructions.rs:271-285 | the 8-bit operand shrinks by one, 0 overflows, and `pc` is kept |
| Instructions.DecrementWord | libdmg/src/instructions.rs:286-299 | a register pair shrinks by one, 0 overflows, and `pc` is kept |
| Instructions.Rotate | libdmg/src/instructions.rs:304-326 | a left rotation rotates the register and leaves memory and `pc` alone; the right rotation is not implemented |
| Instructions.Perform | libdmg/src/instructions.rs:220-327 | no operation changes `pc`, and NOP changes nothing |
| Instructions.Execute | libdmg/src/instructions.rs:217-333 | a successful instruction advances `pc` by its decoded length |
| Instructions.ExecuteIsStep | libdmg/src/instructions.rs:217-333 | decode, perform and advance give exactly the outcome `Semantics.Step` specifies, for every opcode and state |
| Instructions.LoadsAgree | libdmg/src/instructions.rs:135-152 | the three loads agree with `Semantics.Step` |
| Instructions.IncrementPairAgrees | libdmg/src/instructions.rs:153-161 | INC BC agrees with `Semantics.Step` |
| Instructions.IncrementByteAgrees | libdmg/src/instructions.rs:162-175 | INC B agrees with `Semantics.Step` |
| Instructions.IncrementBWrites | libdmg/src/instructions.rs:242-251 | INC B below 0xFF adds one to B, clears Zero and Subtract, sets HalfCarry iff the low nibble was 0xF, and keeps Carry |
| Instructions.DecrementByteAgrees | libdmg/src/instructions.rs:176-189 | DEC B agrees with `Semantics.Step` |
| Instructions.DecrementBWrites | libdmg/src/instructions.rs:271-285 | DEC B above zero subtracts one from B, sets Zero iff B was 1, sets Subtract, copies bit 4 of the old B to HalfCarry, and keeps Carry |
| Instructions.RotateAgrees | libdmg/src/instructions.rs:199-212 | RLCA agrees with `Semantics.Step` |
| Instructions.ExecuteLoad | libdmg/src/instructions.rs:222-235 | the LD arm ends as `Load` says |
| Instructions.ExecuteIncrement | libdmg/src/instructions.rs:237-265 | the INC arm ends as `Increment` says |
| Instructions.WriteByteWithFlags | libdmg/src/instructions.rs:244-264 | writing the new 8-bit value and then running the flag policy ends as `PutX8` followed by `ApplyPolicy` says |
| Instructions.WriteWordWithFlags | libdmg/src/instructions.rs:254-264 | writing the new 16-bit value and then running the flag policy ends as `PutX16` followed by `ApplyPolicy` says |
| Instructions.ExecuteIncrementByte | libdmg/src/instructions.rs:242-251 | the 8-bit INC ends as `IncrementByte` says |
| Instructions.ExecuteIncrementWord | libdmg/src/instructions.rs:252-261 | the 16-bit INC ends as `IncrementWord` says |
| Instructions.ExecuteDecrement | libdmg/src/instructions.rs:266-302 | the DEC arm ends as `Decrement` says |
| Instructions.ExecuteDecrementByte | libdmg/src/instructions.rs:271-285 | the 8-bit DEC ends as `DecrementByte` says |
| Instructions.ExecuteDecrementWord | libdmg/src/instructions.rs:286-299 | the 16-bit DEC ends as `DecrementWord` says |
| Instructions.ExecuteRotate | libdmg/src/instructions.rs:304-326 | the RXC arm ends as `Rotate` says |
| Instructions.ExecuteInstruction | libdmg/src/instructions.rs:217-333 | the engine succeeds iff `Semantics.Step` does, and then leaves the registers, memory and cycle count `Step` gives; otherwise it fails with the same failure, and an unsupported opcode changes nothing |
| Cpu.CPU.constructor | libdmg/src/cpu.rs:5-9 | a new CPU has `Registers::create` registers and zeroed memory |
| Cpu.CPU.Tick | libdmg/src/cpu.rs:12-14 | a tick advances `pc` by one and changes nothing else, and fails exactly when `pc` is 0xFFFF |
| Cpu.CPU.ExecuteInstruction | libdmg/src/cpu.rs:16-18 | executing opcode 0x00 advances `pc` by one and changes nothing else |
| LegacyRegisterFile.LegacyRegFile.Reg8 | src/dmg/registers.rs:52-63 | F reads as the packed flags byte, whose low nibble is zero |
| LegacyRegisterFile.LegacyRegFile.Pair | src/dmg/registers.rs:65-73 | AF, BC, DE and HL read as high byte times 256 plus low byte, with F as the packed flags; any other pair fails |
| LegacyRegisterFile.LegacyRegFile.WithReg8 | src/dmg/registers.rs:75-86 | the written register reads back as the value (F: its high nibble), and no other register changes |
| LegacyRegisterFile.Registers.GetReg8 | src/dmg/registers.rs:52-63 | F reads with a zero low nibble, and writing back what was read changes nothing |
| LegacyRegisterFile.Registers.GetReg16 | src/dmg/registers.rs:65-73 | AF, BC, DE and HL read as high register times 256 plus low register; any other pair fails |
| LegacyRegisterFile.Registers.SetReg8 | src/dmg/registers.rs:75-86 | the new state is the old one with that register written |
| LegacyRegisterFile.Registers.SetReg16 | src/dmg/registers.rs:88-108 | the high byte goes to the first register and the low byte to the second (for AF, through the flag unpacking); any other pair fails and changes nothing |
| LegacyRegisterFile.PairRoundTrip | src/dmg/registers.rs:65-108 | writing a pair and reading it back gives the value, except that AF gives `value & 0xFFF0` |
| LegacyRegisterFile.LowNibbleCleared | src/dmg/registers.rs:90-93 | `value & 0xFFF0` keeps the high byte and clears only the low nibble of the low byte |
| LegacyRegisterFile.Registers.GetZero | src/dmg/registers.rs:110-112 | Zero is bit 7 of what F reads as |
| LegacyRegisterFile.Registers.GetSubtract | src/dmg/registers.rs:114-116 | Subtract is bit 6 of what F reads as |
| LegacyRegisterFile.Registers.GetHalfCarry | src/dmg/registers.rs:118-120 | HalfCarry is bit 5 of what F reads as |
| LegacyRegisterFile.Registers.GetCarry | src/dmg/registers.rs:122-124 | Carry is bit 4 of what F reads as |
| LegacyRegisterFile.Registers.SetZero | src/dmg/registers.rs:126-128 | only the Zero flag changes |
| LegacyRegisterFile.Registers.SetSubtract | src/dmg/registers.rs:130-132 | only the Subtract flag changes |
| LegacyRegisterFile.Registers.SetHalfCarry | src/dmg/registers.rs:134-136 | only the HalfCarry flag changes |
| LegacyRegisterFile.Registers.SetCarry | src/dmg/registers.rs:138-140 | only the Carry flag changes |
| LegacyRegisterFile.Registers.GetFlags | src/dmg/registers.rs:142-144 | the packed flags byte is what F reads as; its low nibble is zero and it is at least 0x80 iff Zero is set |
| LegacyRegisterFile.Registers.SetFlags | src/dmg/registers.rs:146-148 | only the flags change, and `get_flags` afterwards gives `value & 0xF0` |

## Left out

- **Failures.** After a failure, the state is left unspecified, because the Rust code unwinds mid-operation. Exceptions are failures that are stated to change nothing: an unsupported opcode, a width-mismatched `set_x8`/`set_x16`, and an invalid legacy pair. A `pc + length` overflow in particular happens after the operation has written its result.
- **Bit operations.** Shifts, masks and ors on `u8`/`u16` are written as the equivalent arithmetic: `/`, `%`, and sums of disjoint bit fields. Integer widths are the subset types `Byte` and `Word`.
- **Release-mode wrapping.** This is not modelled: the overflows of `value + 1`, `value - 1`, `addr + 1` and `pc += length` are the debug-build panics, as `ArithmeticOverflow`.
- **RRCA.** `Direction::Right` is a `todo!()` stub and no opcode decodes to it; it is the `NotImplemented` failure.
- **Opcodes 0x08 to 0x0F and the `Ref` target.** These appear only in libdmg/src/instructions/tests.rs and are not implemented by the code, which panics on them; they are not modelled. The same goes for `Registers::default()` used by those tests: `Registers` has no `Default`.
- **`CPU::default()`.** It relies on a `Default` for `Registers` that libdmg does not define. `Cpu.CPU.constructor` uses `Registers::create` and `MemoryBus::default` instead.
- **Cycle timing.** Cycle counts are only the constants returned to the caller. `Cpu.CPU.Tick` drops them, as `tick` does.
- **The `execute_instruction` arms.** Its match arms (LD, INC, DEC, RXC) are split into the methods `ExecuteLoad`, `ExecuteIncrement`, `ExecuteDecrement` and `ExecuteRotate`, and INC and DEC are further split by operand width. `get_instruction`, `get_x8` and `get_x16` read the registers and memory through value snapshots.
- **`Registers::set_reg16`.** It is written with `Data.SplitByte`, which computes the same high and low bytes as its inline masks.
- **The legacy flag types.** src/dmg/registers.rs declares its own `FlagsRegister`, `From` conversions and `Register` enum. These are identical to libdmg's, so `LegacyRegisterFile` reuses those of `RegisterFile`.
- **Memory test vectors.** The tests at addresses 0x0000, 0x00FF and 0xFFFF are instances of `Memory.MemoryBus.Write`'s contract and are not stated separately.
- **Files not part of this model:**
  - gbrs/src/main.rs and src/main.rs: command-line parsing, window and event loop, logging.
  - src/registers.rs: it does not compile.
  - src/dmg/instructions.rs and its tests: an abandoned revision with `todo!()` bodies.
  - src/dmg/memory.rs: a constructor only.
