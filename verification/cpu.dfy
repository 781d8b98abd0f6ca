/**
 * The processor (src/cpu.rs): 32 general registers, the pc, the bus and the
 * CSR bank, with the fetch, decode and execute steps of one cycle.
 *
 * `Snapshot` reads the machine out as a `Semantics.State`; every step is
 * proved to move the machine exactly as the corresponding function of
 * `Semantics` moves the snapshot, so the lemmas proved there about values
 * hold of the class.
 */
module Processor {
  import opened Types
  import opened Bits
  import opened Instructions
  import opened Decoder
  import opened CompressedDecoder
  import opened ByteMemory
  import opened SystemBus
  import opened CsrBank
  import opened Alu
  import opened Semantics
  import CompressedDecoderProperties
  import ExecuteProperties

  /** The pc after reset. */
  const RESET_PC: u64 := 0x8000_0000

  /** Bytes taken by an instruction whose low halfword is `w`: 2 unless
      its two low bits are both set. */
  function InstructionLength(w: RawInstruction): (n: nat)
    ensures n == 2 || n == 4
    ensures n == 4 <==> Field(w, 0, 2) == 3
  {
    if w % 4 != 3 then 2 else 4
  }

  /** The fetched word: the 32-bit little-endian value at pc, or the bus
      error for an unmapped pc. */
  function FetchAt(mem: seq<u8>, pc: u64): (r: Result<RawInstruction>)
    requires Accessible(|mem|, pc, 4)
    ensures r.Err? <==> pc < MEMORY_BASE
    ensures r.Err? ==> r.error == InvalidMemoryAccess(pc)
    ensures r.Ok? ==> r.value == LoadLE(mem[pc - MEMORY_BASE..pc - MEMORY_BASE + 4])
  {
    var v :- Load(mem, pc, 4);
    Ok(v)
  }

  /** The decoder a word is handed to: compressed unless both low bits are
      set, in which case only the low halfword is looked at. */
  function DecodeWord(w: RawInstruction): (r: Result<Instruction>)
    ensures Field(w, 0, 2) == 3 ==> r == Decode(w)
    ensures Field(w, 0, 2) != 3 ==> r == DecodeCompressed(w % 0x1_0000)
  {
    if w % 4 != 3 then DecodeCompressed(w % 0x1_0000) else Decode(w)
  }

  /** `decode`: the instruction and the address of the next one, pc plus
      its length. */
  function DecodeAt(pc: u64, w: RawInstruction): (r: Result<InstructionContext>)
    requires DecodeWord(w).Ok? ==> pc + InstructionLength(w) < 0x1_0000_0000_0000_0000
    ensures r.Err? <==> DecodeWord(w).Err?
    ensures r.Err? ==> r.error == UnknownInstruction(if Field(w, 0, 2) == 3 then w else w % 0x1_0000)
    ensures r.Ok? ==> r.value.instruction == DecodeWord(w).value && r.value.nextPc == pc + InstructionLength(w)
  {
    var inst :- DecodeWord(w);
    Ok(InstructionContext(inst, pc + InstructionLength(w)))
  }

  /** The word 0x00500093 is `addi x1, x0, 5`, four bytes long. */
  lemma DecodesAddi(pc: u64)
    requires pc + 4 < 0x1_0000_0000_0000_0000
    ensures DecodeAt(pc, 0x0050_0093) == Ok(InstructionContext(ADDI(1, 0, 5), pc + 4))
  {
    var w: RawInstruction := 0x0050_0093;
    assert Opcode(w) == OP_IMM && Funct3(w) == 0 && Rd(w) == 1 && Rs1(w) == 0 && ImmI(w) == 5;
    assert Decode(w) == Ok(ADDI(1, 0, 5));
  }

  /** `addi x1, x0, 5` leaves 5 in x1 and falls through to the next pc. */
  lemma ExecutesAddi(s: State, nextPc: u64)
    requires s.Valid()
    ensures Execute(s, InstructionContext(ADDI(1, 0, 5), nextPc)) == Ok(s.(regs := s.regs[1 := 5], pc := nextPc))
  {
    var ctx := InstructionContext(ADDI(1, 0, 5), nextPc);
    ExecuteProperties.ComputationalStep(s, ctx);
    assert PerformComputational(s, ctx.instruction) == s.(regs := s.regs[1 := 5]);
  }

  /** The bytes 93 00 50 00 read little-endian are the word 0x00500093. */
  lemma FetchesAddi(mem: seq<u8>, pc: u64)
    requires MEMORY_BASE <= pc && pc - MEMORY_BASE + 4 <= |mem|
    requires mem[pc - MEMORY_BASE..pc - MEMORY_BASE + 4] == [0x93, 0x00, 0x50, 0x00]
    ensures FetchAt(mem, pc) == Ok(0x0050_0093)
  {
    assert LoadLE([0x93, 0x00, 0x50, 0x00]) == 0x0050_0093;
  }

  /** One step on values, fetch to retire: the bytes of `addi x1, x0, 5`
      at pc are fetched, decoded as a four-byte ADDI, and executed to leave
      5 in x1 and pc + 4 in the pc. */
  lemma AddiStep(s: State)
    requires s.Valid() && MEMORY_BASE <= s.pc && s.pc + 4 < 0x1_0000_0000_0000_0000
    requires s.pc - MEMORY_BASE + 4 <= |s.mem|
    requires s.mem[s.pc - MEMORY_BASE..s.pc - MEMORY_BASE + 4] == [0x93, 0x00, 0x50, 0x00]
    ensures && FetchAt(s.mem, s.pc) == Ok(0x0050_0093)
            && DecodeAt(s.pc, 0x0050_0093) == Ok(InstructionContext(ADDI(1, 0, 5), s.pc + 4))
            && Execute(s, InstructionContext(ADDI(1, 0, 5), s.pc + 4)) == Ok(s.(regs := s.regs[1 := 5], pc := s.pc + 4))
  {
    FetchesAddi(s.mem, s.pc);
    DecodesAddi(s.pc);
    ExecutesAddi(s, s.pc + 4);
  }

  /** The all-zero halfword decodes, as the source's quadrant 0 decoder
      has it, to a two-byte `addi x8, x2, 0`. */
  lemma DecodesZeroHalfword(pc: u64)
    requires pc + 2 < 0x1_0000_0000_0000_0000
    ensures DecodeAt(pc, 0) == Ok(InstructionContext(ADDI(8, 2, 0), pc + 2))
  {
    CompressedDecoderProperties.DecodeCompressedAcceptsZero();
  }

  /** `addi x8, x2, 0` copies x2 into x8 and falls through. */
  lemma ExecutesMoveX2ToX8(s: State, nextPc: u64)
    requires s.Valid()
    ensures Execute(s, InstructionContext(ADDI(8, 2, 0), nextPc)) == Ok(s.(regs := s.regs[8 := s.regs[2]], pc := nextPc))
  {
    var ctx := InstructionContext(ADDI(8, 2, 0), nextPc);
    ExecuteProperties.ComputationalStep(s, ctx);
    assert Add(s.regs[2], ImmToU64(0)) == s.regs[2] by { assert ImmToU64(0) == 0; }
  }

  /** Executing the all-zero halfword copies x2 into x8 and moves the pc
      by 2 instead of raising an illegal-instruction error. */
  lemma ZeroHalfwordStep(s: State)
    requires s.Valid() && s.pc + 2 < 0x1_0000_0000_0000_0000
    ensures && DecodeAt(s.pc, 0) == Ok(InstructionContext(ADDI(8, 2, 0), s.pc + 2))
            && Execute(s, InstructionContext(ADDI(8, 2, 0), s.pc + 2)) == Ok(s.(regs := s.regs[8 := s.regs[2]], pc := s.pc + 2))
  {
    DecodesZeroHalfword(s.pc);
    ExecutesMoveX2ToX8(s, s.pc + 2);
  }

  class Cpu {
    const registers: array<u64>
    var pc: u64
    const bus: Bus
    const csr: Csr

    /** 32 registers, a full CSR bank, and the two arrays of u64 kept
        apart so that a register write leaves the CSRs alone. */
    predicate Valid() {
      registers.Length == 32 && csr.Valid() && registers != csr.data
    }

    /** The machine as a value. */
    function Snapshot(): (s: State)
      requires Valid()
      reads this, registers, bus.memory.data, csr.data
      ensures s.Valid()
    {
      State(registers[..], pc, bus.memory.data[..], csr.data[..])
    }

    /** `Cpu::new`: registers zero, pc at 0x8000_0000, a fresh CSR bank. */
    constructor(bus: Bus)
      ensures Valid() && this.bus == bus && pc == RESET_PC
      ensures forall k :: 0 <= k < 32 ==> registers[k] == 0
      ensures forall k :: 0 <= k < CSR_COUNT ==> csr.data[k] == 0
      ensures fresh(registers) && fresh(csr) && fresh(csr.data)
    {
      registers := new u64[32](_ => 0);
      pc := RESET_PC;
      this.bus := bus;
      csr := new Csr();
    }

    /** `read_register`: x0 reads as zero. */
    method ReadRegister(index: RegIdx) returns (v: u64)
      requires Valid()
      ensures v == ReadReg(registers[..], index)
      ensures index == 0 ==> v == 0
    {
      if index == 0 {
        return 0;
      }
      v := registers[index];
    }

    /** `write_register`: a write to x0 is dropped. */
    method WriteRegister(index: RegIdx, value: u64)
      requires Valid()
      modifies registers
      ensures registers[..] == WriteReg(old(registers[..]), index, value)
    {
      if index == 0 {
        return;
      }
      registers[index] := value;
    }

    /** `fetch`: the 32-bit word at pc. The pc is not advanced here. */
    method Fetch() returns (r: Result<RawInstruction>)
      requires Valid() && Accessible(bus.memory.data.Length, pc, 4)
      ensures r == FetchAt(bus.memory.data[..], pc)
    {
      var v :- bus.Read(pc, 4);
      r := Ok(v);
    }

    /** `decode`: the next pc is pc + 2 for a compressed instruction and
        pc + 4 otherwise; the source's `self.pc + n` may not overflow. */
    method DecodeInstruction(instruction: RawInstruction) returns (r: Result<InstructionContext>)
      requires DecodeWord(instruction).Ok? ==> pc + InstructionLength(instruction) < 0x1_0000_0000_0000_0000
      ensures r == DecodeAt(pc, instruction)
    {
      if instruction % 4 != 3 {
        var inst :- DecodeCompressed(instruction % 0x1_0000);
        r := Ok(InstructionContext(inst, pc + 2));
      } else {
        var inst :- Decode(instruction);
        r := Ok(InstructionContext(inst, pc + 4));
      }
    }

    // ---- the op_* helpers ----

    /** `op_rr`. */
    method OpRegReg(rd: RegIdx, rs1: RegIdx, rs2: RegIdx, op: (u64, u64) -> u64)
      requires Valid()
      modifies registers
      ensures Snapshot() == RegReg(old(Snapshot()), rd, rs1, rs2, op)
    {
      var val1 := ReadRegister(rs1);
      var val2 := ReadRegister(rs2);
      WriteRegister(rd, op(val1, val2));
    }

    /** `op_ri`. */
    method OpRegImm(rd: RegIdx, rs1: RegIdx, imm: Imm, op: (u64, u64) -> u64)
      requires Valid()
      modifies registers
      ensures Snapshot() == RegImm(old(Snapshot()), rd, rs1, imm, op)
    {
      var val1 := ReadRegister(rs1);
      WriteRegister(rd, op(val1, ImmToU64(imm)));
    }

    /** `op_rrw`. */
    method OpRegRegWord(rd: RegIdx, rs1: RegIdx, rs2: RegIdx, op: (i32, i32) -> i32)
      requires Valid()
      modifies registers
      ensures Snapshot() == RegRegWord(old(Snapshot()), rd, rs1, rs2, op)
    {
      var val1 := ReadRegister(rs1);
      var val2 := ReadRegister(rs2);
      var res := op(Low32(val1), Low32(val2));
      WriteRegister(rd, SignExtend32(res));
    }

    /** `op_riw`. */
    method OpRegImmWord(rd: RegIdx, rs1: RegIdx, imm: Imm, op: (i32, i32) -> i32)
      requires Valid()
      modifies registers
      ensures Snapshot() == RegImmWord(old(Snapshot()), rd, rs1, imm, op)
    {
      var val1 := ReadRegister(rs1);
      var res := op(Low32(val1), ImmToI32(imm));
      WriteRegister(rd, SignExtend32(res));
    }

    /** `op_branch`. */
    method OpBranch(rs1: RegIdx, rs2: RegIdx, offset: Imm, condition: (u64, u64) -> bool)
      requires Valid()
      modifies this
      ensures Snapshot() == Branch(old(Snapshot()), rs1, rs2, offset, condition)
    {
      var val1 := ReadRegister(rs1);
      var val2 := ReadRegister(rs2);
      if condition(val1, val2) {
        pc := Add(pc, ImmToU64(offset));
      }
    }

    /** `op_load`: a failing bus read returns before rd is written. */
    method OpLoad(rd: RegIdx, rs1: RegIdx, offset: Imm, width: u64, extend: u64 -> u64) returns (r: Result<()>)
      requires Valid() && Accessible(bus.memory.data.Length, EffectiveAddress(Snapshot(), rs1, offset), width)
      modifies registers
      ensures LoadOp(old(Snapshot()), rd, rs1, offset, width, extend).Ok? ==>
        r == Ok(()) && Snapshot() == LoadOp(old(Snapshot()), rd, rs1, offset, width, extend).value
      ensures LoadOp(old(Snapshot()), rd, rs1, offset, width, extend).Err? ==>
        r == Err(LoadOp(old(Snapshot()), rd, rs1, offset, width, extend).error) && Snapshot() == old(Snapshot())
    {
      var base := ReadRegister(rs1);
      var addr := Add(base, ImmToU64(offset));
      var val :- bus.Read(addr, width);
      WriteRegister(rd, extend(val));
      r := Ok(());
    }

    /** `op_store`. */
    method OpStore(rs1: RegIdx, rs2: RegIdx, offset: Imm, width: u64) returns (r: Result<()>)
      requires Valid() && Accessible(bus.memory.data.Length, EffectiveAddress(Snapshot(), rs1, offset), width)
      modifies bus.memory.data
      ensures StoreOp(old(Snapshot()), rs1, rs2, offset, width).Ok? ==>
        r == Ok(()) && Snapshot() == StoreOp(old(Snapshot()), rs1, rs2, offset, width).value
      ensures StoreOp(old(Snapshot()), rs1, rs2, offset, width).Err? ==>
        r == Err(StoreOp(old(Snapshot()), rs1, rs2, offset, width).error) && Snapshot() == old(Snapshot())
    {
      var base := ReadRegister(rs1);
      var addr := Add(base, ImmToU64(offset));
      var val := ReadRegister(rs2);
      r := bus.Write(addr, val, width);
    }

    /** `op_jump`: rd := next_pc, then pc := target. */
    method OpJump(ctx: InstructionContext, rd: RegIdx, target: u64)
      requires Valid()
      modifies this, registers
      ensures Snapshot() == Jump(old(Snapshot()), ctx.nextPc, rd, target)
    {
      WriteRegister(rd, ctx.nextPc);
      pc := target;
    }

    // ---- the arms of execute, grouped by helper ----

    /** The arms that call `op_rr`, `op_rrw`, `op_ri` and `op_riw`. */
    method ExecuteComputational(inst: Instruction)
      requires Valid() && IsComputational(inst)
      modifies registers
      ensures Snapshot() == PerformComputational(old(Snapshot()), inst)
    {
      if inst.IsRegReg() {
        OpRegReg(inst.rd, inst.rs1, inst.rs2, RegRegOp(inst));
      } else if inst.IsRegRegWord() {
        OpRegRegWord(inst.rd, inst.rs1, inst.rs2, RegRegWordOp(inst));
      } else if inst.IsRegImm() {
        OpRegImm(inst.rd, inst.rs1, inst.imm, RegImmOp(inst));
      } else if inst.IsShiftImm() {
        OpRegImm(inst.rd, inst.rs1, inst.shamt, ShiftImmOp(inst));
      } else if inst.ADDIW? {
        OpRegImmWord(inst.rd, inst.rs1, inst.imm, AddW);
      } else {
        OpRegImmWord(inst.rd, inst.rs1, inst.wshamt, ShiftImmWordOp(inst));
      }
    }

    /** The arms that call `op_load` and `op_store`; the `?` after each
        hands a bus error back to the caller. */
    method ExecuteMemory(inst: Instruction) returns (r: Result<()>)
      requires Valid() && IsMemoryAccess(inst) && MemoryOk(Snapshot(), inst)
      modifies registers, bus.memory.data
      ensures PerformMemory(old(Snapshot()), inst).Ok? ==>
        r == Ok(()) && Snapshot() == PerformMemory(old(Snapshot()), inst).value
      ensures PerformMemory(old(Snapshot()), inst).Err? ==>
        r == Err(PerformMemory(old(Snapshot()), inst).error) && Snapshot() == old(Snapshot())
    {
      if inst.IsLoad() {
        r := OpLoad(inst.rd, inst.rs1, inst.offset, LoadWidth(inst), LoadExtension(inst));
      } else {
        r := OpStore(inst.rs1, inst.rs2, inst.offset, StoreWidth(inst));
      }
    }

    /** The CSRRW, CSRRS and CSRRC arms. The CSR address is a 12-bit
        field, so the bank's read never fails and its `?` never returns. */
    method ExecuteCsrReg(inst: Instruction)
      requires Valid() && inst.IsCsrReg()
      modifies registers, csr.data
      ensures Snapshot() == PerformCsr(old(Snapshot()), inst).value
    {
      match inst
      case CSRRW(rd, rs1, addr) =>
        var oldValue: u64 := 0;
        if rd != 0 {
          var read := csr.Read(addr);
          oldValue := read.value;
        }
        var v := ReadRegister(rs1);
        csr.Write(addr, v);
        WriteRegister(rd, oldValue);
      case CSRRS(rd, rs1, addr) =>
        var read := csr.Read(addr);
        var oldValue := read.value;
        if rs1 != 0 {
          var v := ReadRegister(rs1);
          csr.Write(addr, Or64(oldValue, v));
        }
        WriteRegister(rd, oldValue);
      case CSRRC(rd, rs1, addr) =>
        var read := csr.Read(addr);
        var oldValue := read.value;
        if rs1 != 0 {
          var v := ReadRegister(rs1);
          csr.Write(addr, And64(oldValue, Not64(v)));
        }
        WriteRegister(rd, oldValue);
    }

    /** The CSRRWI, CSRRSI and CSRRCI arms. */
    method ExecuteCsrImm(inst: Instruction)
      requires Valid() && inst.IsCsrImm()
      modifies registers, csr.data
      ensures Snapshot() == PerformCsr(old(Snapshot()), inst).value
    {
      match inst
      case CSRRWI(rd, imm, addr) =>
        var oldValue: u64 := 0;
        if rd != 0 {
          var read := csr.Read(addr);
          oldValue := read.value;
        }
        csr.Write(addr, imm);
        WriteRegister(rd, oldValue);
      case CSRRSI(rd, imm, addr) =>
        var read := csr.Read(addr);
        var oldValue := read.value;
        if imm != 0 {
          csr.Write(addr, Or64(oldValue, imm));
        }
        WriteRegister(rd, oldValue);
      case CSRRCI(rd, imm, addr) =>
        var read := csr.Read(addr);
        var oldValue := read.value;
        if imm != 0 {
          csr.Write(addr, And64(oldValue, Not64(imm)));
        }
        WriteRegister(rd, oldValue);
    }

    /** LUI, AUIPC, JAL, JALR, ECALL and EBREAK. */
    method ExecuteOther(ctx: InstructionContext)
      requires Valid() && IsOther(ctx.instruction)
      modifies this, registers
      ensures Snapshot() == PerformOther(old(Snapshot()), ctx)
    {
      match ctx.instruction
      case LUI(rd, imm) =>
        WriteRegister(rd, ImmToU64(imm));
      case AUIPC(rd, imm) =>
        WriteRegister(rd, Add(pc, ImmToU64(imm)));
      case JAL(rd, offset) =>
        var target := Add(pc, ImmToU64(offset));
        OpJump(ctx, rd, target);
      case JALR(rd, rs1, offset) =>
        var base := ReadRegister(rs1);
        var target := And64(Add(base, ImmToU64(offset)), Not64(1));
        OpJump(ctx, rd, target);
      case ECALL =>
      case EBREAK =>
    }

    /** `execute`: the instruction's effect, then pc := next_pc when the
        instruction left the pc where it was. A bus error is returned with
        the machine unchanged. */
    method Execute(ctx: InstructionContext) returns (r: Result<()>)
      requires Valid() && MemoryOk(Snapshot(), ctx.instruction)
      modifies this, registers, bus.memory.data, csr.data
      ensures Semantics.Execute(old(Snapshot()), ctx).Ok? ==>
        r == Ok(()) && Snapshot() == Semantics.Execute(old(Snapshot()), ctx).value
      ensures Semantics.Execute(old(Snapshot()), ctx).Err? ==>
        r == Err(Semantics.Execute(old(Snapshot()), ctx).error) && Snapshot() == old(Snapshot())
    {
      var currentPc := pc;
      var inst := ctx.instruction;
      if IsComputational(inst) {
        ExecuteComputational(inst);
      } else if IsMemoryAccess(inst) {
        var res := ExecuteMemory(inst);
        if res.Err? {
          return res;
        }
      } else if inst.IsBranch() {
        OpBranch(inst.rs1, inst.rs2, inst.offset, BranchCondition(inst));
      } else if inst.IsCsrReg() {
        ExecuteCsrReg(inst);
      } else if inst.IsCsrImm() {
        ExecuteCsrImm(inst);
      } else {
        ExecuteOther(ctx);
      }
      if currentPc == pc {
        pc := ctx.nextPc;
      }
      r := Ok(());
    }
  }
}
