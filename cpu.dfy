/** The CPU of libdmg/src/cpu.rs: the register file and the memory bus, and
    a tick that runs one instruction. The fetch is not written yet: every
    tick executes opcode 0x00 (NOP). */
module Cpu {
  import opened Data
  import opened Results
  import opened RegisterFile
  import opened Memory
  import Instructions
  import Semantics

  class CPU {
    const memory: MemoryBus
    const registers: Registers

    ghost predicate Valid()
      reads this, memory
    {
      memory.Valid()
    }

    /** `CPU::default()`: zeroed registers and zeroed memory. */
    constructor Default()
      ensures Valid() && fresh(registers) && fresh(memory) && fresh(memory.memory)
      ensures registers.Snapshot() == RegFile(0, 0, 0, 0, 0, 0, 0, NoFlags, 0, 0)
      ensures memory.Contents() == seq(MemSize, _ => 0)
    {
      memory := new MemoryBus.Default();
      registers := new Registers.Create();
    }

    /** `tick`: one instruction. Since the opcode is always NOP, a tick only
        moves `pc` on by one; at 0xFFFF that increment overflows. */
    method Tick() returns (r: Result<()>)
      requires Valid()
      modifies registers, memory.memory
      ensures Valid()
      ensures r.Ok? <==> old(registers.pc) < 0xFFFF
      ensures r.Ok? ==> registers.Snapshot() == old(registers.Snapshot()).(pc := old(registers.pc) + 1)
      ensures r.Ok? ==> memory.Contents() == old(memory.Contents())
      ensures r.Err? ==> r.error == ArithmeticOverflow
    {
      r := ExecuteInstruction();
    }

    /** `execute_instruction`: runs opcode 0x00 on the register file and the
        bus; the cycle count it yields is dropped. */
    method ExecuteInstruction() returns (r: Result<()>)
      requires Valid()
      modifies registers, memory.memory
      ensures Valid()
      ensures r.Ok? <==> old(registers.pc) < 0xFFFF
      ensures r.Ok? ==> registers.Snapshot() == old(registers.Snapshot()).(pc := old(registers.pc) + 1)
      ensures r.Ok? ==> memory.Contents() == old(memory.Contents())
      ensures r.Err? ==> r.error == ArithmeticOverflow
    {
      var cycles :- Instructions.ExecuteInstruction(0x00, registers, memory);
      return Ok(());
    }
  }
}
