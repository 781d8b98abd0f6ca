/**
 * What one call of `Cpu::execute` (src/cpu.rs) does to the machine, as a
 * function on values. The machine is the register file, the pc, the bytes
 * of main memory and the CSR bank; `Perform` is the big match of `execute`
 * arm by arm, each arm handing its closure to the step that models the
 * `op_*` helper it calls, and `Execute` adds the final pc update.
 *
 * The class `Processor.Cpu` is proved to follow these functions; the
 * lemmas below state what the source promises about them.
 */
module Semantics {
  import opened Types
  import opened Bits
  import opened Instructions
  import opened Alu
  import opened ByteMemory
  import opened SystemBus
  import opened CsrBank

  /** The whole machine as values. */
  datatype State = State(regs: seq<u64>, pc: u64, mem: seq<u8>, csrs: seq<u64>)
  {
    predicate Valid() {
      |regs| == 32 && |csrs| == CSR_COUNT
    }
  }

  // ---- register file ----

  /** `read_register`: x0 reads as zero. */
  function ReadReg(regs: seq<u64>, i: RegIdx): u64
    requires |regs| == 32
  {
    if i == 0 then 0 else regs[i]
  }

  /** `write_register`: a write to x0 is dropped. */
  function WriteReg(regs: seq<u64>, i: RegIdx, v: u64): (r: seq<u64>)
    requires |regs| == 32
    ensures |r| == 32
  {
    if i == 0 then regs else regs[i := v]
  }

  /** x0 is hard-wired to zero, a write to it changes nothing, and a write
      to any other register is read back while the rest keep their
      values. */
  lemma RegisterFile(regs: seq<u64>, i: RegIdx, v: u64, j: RegIdx)
    requires |regs| == 32
    ensures ReadReg(regs, 0) == 0
    ensures WriteReg(regs, 0, v) == regs
    ensures ReadReg(WriteReg(regs, i, v), j) == if i == j && i != 0 then v else ReadReg(regs, j)
  {
  }

  // ---- the op_* helpers ----

  /** `op_rr`: rd := op(rs1, rs2). */
  function RegReg(s: State, rd: RegIdx, rs1: RegIdx, rs2: RegIdx, op: (u64, u64) -> u64): (r: State)
    requires s.Valid()
    ensures r.Valid() && r.pc == s.pc && r.mem == s.mem && r.csrs == s.csrs
  {
    s.(regs := WriteReg(s.regs, rd, op(ReadReg(s.regs, rs1), ReadReg(s.regs, rs2))))
  }

  /** `op_ri`: rd := op(rs1, imm as u64). */
  function RegImm(s: State, rd: RegIdx, rs1: RegIdx, imm: Imm, op: (u64, u64) -> u64): (r: State)
    requires s.Valid()
    ensures r.Valid() && r.pc == s.pc && r.mem == s.mem && r.csrs == s.csrs
  {
    s.(regs := WriteReg(s.regs, rd, op(ReadReg(s.regs, rs1), ImmToU64(imm))))
  }

  /** `op_rrw`: the op on the i32 views of rs1 and rs2, sign-extended. */
  function RegRegWord(s: State, rd: RegIdx, rs1: RegIdx, rs2: RegIdx, op: (i32, i32) -> i32): (r: State)
    requires s.Valid()
    ensures r.Valid() && r.pc == s.pc && r.mem == s.mem && r.csrs == s.csrs
  {
    var res := op(Low32(ReadReg(s.regs, rs1)), Low32(ReadReg(s.regs, rs2)));
    s.(regs := WriteReg(s.regs, rd, SignExtend32(res)))
  }

  /** `op_riw`: the op on the i32 view of rs1 and `imm as i32`,
      sign-extended. */
  function RegImmWord(s: State, rd: RegIdx, rs1: RegIdx, imm: Imm, op: (i32, i32) -> i32): (r: State)
    requires s.Valid()
    ensures r.Valid() && r.pc == s.pc && r.mem == s.mem && r.csrs == s.csrs
  {
    var res := op(Low32(ReadReg(s.regs, rs1)), ImmToI32(imm));
    s.(regs := WriteReg(s.regs, rd, SignExtend32(res)))
  }

  /** `op_branch`: pc := pc + offset (wrapping) when the condition holds. */
  function Branch(s: State, rs1: RegIdx, rs2: RegIdx, offset: Imm, cond: (u64, u64) -> bool): (r: State)
    requires s.Valid()
    ensures r.Valid() && r.regs == s.regs && r.mem == s.mem && r.csrs == s.csrs
  {
    if cond(ReadReg(s.regs, rs1), ReadReg(s.regs, rs2)) then s.(pc := Add(s.pc, ImmToU64(offset)))
    else s
  }

  /** The address of a load or store: rs1 + offset, wrapping. */
  function EffectiveAddress(s: State, rs1: RegIdx, offset: Imm): u64
    requires s.Valid()
  {
    Add(ReadReg(s.regs, rs1), ImmToU64(offset))
  }

  /** `op_load`: the bus read comes first, so a failing read returns its
      error before rd is written. */
  function LoadOp(s: State, rd: RegIdx, rs1: RegIdx, offset: Imm, width: nat, extend: u64 -> u64): (r: Result<State>)
    requires s.Valid() && Accessible(|s.mem|, EffectiveAddress(s, rs1, offset), width)
    ensures r.Err? <==> EffectiveAddress(s, rs1, offset) < MEMORY_BASE
    ensures r.Ok? ==> r.value.Valid() && r.value.pc == s.pc && r.value.mem == s.mem && r.value.csrs == s.csrs
  {
    var val :- Load(s.mem, EffectiveAddress(s, rs1, offset), width);
    Ok(s.(regs := WriteReg(s.regs, rd, extend(val))))
  }

  /** `op_store`: the low `width` bytes of rs2 go to memory. */
  function StoreOp(s: State, rs1: RegIdx, rs2: RegIdx, offset: Imm, width: nat): (r: Result<State>)
    requires s.Valid() && Accessible(|s.mem|, EffectiveAddress(s, rs1, offset), width)
    ensures r.Err? <==> EffectiveAddress(s, rs1, offset) < MEMORY_BASE
    ensures r.Ok? ==> r.value.regs == s.regs && r.value.pc == s.pc && |r.value.mem| == |s.mem| && r.value.csrs == s.csrs
  {
    var mem :- Store(s.mem, EffectiveAddress(s, rs1, offset), ReadReg(s.regs, rs2), width);
    Ok(s.(mem := mem))
  }

  /** `op_jump`: rd := next_pc, then pc := target. */
  function Jump(s: State, nextPc: u64, rd: RegIdx, target: u64): (r: State)
    requires s.Valid()
    ensures r.Valid() && r.pc == target && r.mem == s.mem && r.csrs == s.csrs
  {
    s.(regs := WriteReg(s.regs, rd, nextPc), pc := target)
  }

  /** The JALR target: rs1 + offset (wrapping) with bit 0 cleared. */
  function JalrTarget(s: State, rs1: RegIdx, offset: Imm): u64
    requires s.Valid()
  {
    And64(Add(ReadReg(s.regs, rs1), ImmToU64(offset)), Not64(1))
  }

  // ---- the closures of `execute`, by instruction ----

  /** The closure each register-register arm passes to `op_rr`. */
  function RegRegOp(inst: Instruction): (u64, u64) -> u64
    requires inst.IsRegReg()
  {
    match inst
    case ADD(_, _, _) => Add
    case SUB(_, _, _) => Sub
    case SLL(_, _, _) => Sll
    case SLT(_, _, _) => Slt
    case SLTU(_, _, _) => Sltu
    case XOR(_, _, _) => Xor64
    case SRL(_, _, _) => Srl
    case SRA(_, _, _) => Sra
    case OR(_, _, _) => Or64
    case AND(_, _, _) => And64
    case MUL(_, _, _) => Mul
    case MULH(_, _, _) => Mulh
    case MULHSU(_, _, _) => Mulhsu
    case MULHU(_, _, _) => Mulhu
    case DIV(_, _, _) => Div
    case DIVU(_, _, _) => Divu
    case REM(_, _, _) => Rem
    case REMU(_, _, _) => Remu
  }

  /** The closure each word register-register arm passes to `op_rrw`. */
  function RegRegWordOp(inst: Instruction): (i32, i32) -> i32
    requires inst.IsRegRegWord()
  {
    match inst
    case ADDW(_, _, _) => AddW
    case SUBW(_, _, _) => SubW
    case SLLW(_, _, _) => SllW
    case SRLW(_, _, _) => SrlW
    case SRAW(_, _, _) => SraW
    case MULW(_, _, _) => MulW
    case DIVW(_, _, _) => DivW
    case DIVUW(_, _, _) => DivuW
    case REMW(_, _, _) => RemW
    case REMUW(_, _, _) => RemuW
  }

  /** The closure each register-immediate arm passes to `op_ri`. */
  function RegImmOp(inst: Instruction): (u64, u64) -> u64
    requires inst.IsRegImm()
  {
    match inst
    case ADDI(_, _, _) => Add
    case SLTI(_, _, _) => Slt
    case SLTIU(_, _, _) => Sltu
    case XORI(_, _, _) => Xor64
    case ORI(_, _, _) => Or64
    case ANDI(_, _, _) => And64
  }

  /** The closure each shift-immediate arm passes to `op_ri`; the shift
      amount is below 64, so the masking in `Sll`, `Srl` and `Sra` keeps it
      as it is. */
  function ShiftImmOp(inst: Instruction): (u64, u64) -> u64
    requires inst.IsShiftImm()
  {
    match inst
    case SLLI(_, _, _) => Sll
    case SRLI(_, _, _) => Srl
    case SRAI(_, _, _) => Sra
  }

  /** The closure each word shift-immediate arm passes to `op_riw`. */
  function ShiftImmWordOp(inst: Instruction): (i32, i32) -> i32
    requires inst.IsShiftImmWord()
  {
    match inst
    case SLLIW(_, _, _) => SllW
    case SRLIW(_, _, _) => SrlW
    case SRAIW(_, _, _) => SraW
  }

  /** The condition each branch arm passes to `op_branch`. */
  function BranchCondition(inst: Instruction): (u64, u64) -> bool
    requires inst.IsBranch()
  {
    match inst
    case BEQ(_, _, _) => Eq
    case BNE(_, _, _) => Ne
    case BLT(_, _, _) => Lt
    case BGE(_, _, _) => Ge
    case BLTU(_, _, _) => Ltu
    case BGEU(_, _, _) => Geu
  }

  /** The extension each load arm passes to `op_load`. */
  function LoadExtension(inst: Instruction): u64 -> u64
    requires inst.IsLoad()
  {
    match inst
    case LB(_, _, _) => SignExtendByte
    case LH(_, _, _) => SignExtendHalf
    case LW(_, _, _) => SignExtendWord
    case LBU(_, _, _) => ZeroExtend
    case LHU(_, _, _) => ZeroExtend
    case LD(_, _, _) => ZeroExtend
    case LWU(_, _, _) => ZeroExtend
  }

  // ---- widths ----

  /** Bytes read by a load. */
  function LoadWidth(inst: Instruction): nat
    requires inst.IsLoad()
  {
    match inst
    case LB(_, _, _) => 1
    case LH(_, _, _) => 2
    case LW(_, _, _) => 4
    case LBU(_, _, _) => 1
    case LHU(_, _, _) => 2
    case LD(_, _, _) => 8
    case LWU(_, _, _) => 4
  }

  /** Bytes written by a store. */
  function StoreWidth(inst: Instruction): nat
    requires inst.IsStore()
  {
    match inst
    case SB(_, _, _) => 1
    case SH(_, _, _) => 2
    case SW(_, _, _) => 4
    case SD(_, _, _) => 8
  }

  /** Loads and stores, the only instructions that go to the bus. */
  predicate IsMemoryAccess(inst: Instruction) {
    inst.IsLoad() || inst.IsStore()
  }

  /** The six Zicsr instructions, the only ones that touch the CSR bank. */
  predicate IsCsrAccess(inst: Instruction) {
    inst.IsCsrReg() || inst.IsCsrImm()
  }

  /** Branches and jumps, the only instructions that may set the pc. */
  predicate IsControlTransfer(inst: Instruction) {
    inst.IsBranch() || inst.JAL? || inst.JALR?
  }

  /** The bus address of a load or store: rs1 + offset, wrapping. */
  function AccessAddress(s: State, inst: Instruction): u64
    requires s.Valid() && IsMemoryAccess(inst)
  {
    EffectiveAddress(s, inst.rs1, inst.offset)
  }

  /** What the source needs for a load or store not to panic: the access
      lies inside memory (the bus turns an address below the window into
      an error itself). */
  predicate MemoryOk(s: State, inst: Instruction)
    requires s.Valid()
  {
    (inst.IsLoad() ==> Accessible(|s.mem|, EffectiveAddress(s, inst.rs1, inst.offset), LoadWidth(inst))) &&
    (inst.IsStore() ==> Accessible(|s.mem|, EffectiveAddress(s, inst.rs1, inst.offset), StoreWidth(inst)))
  }

  // ---- execute ----

  /** The register-register and register-immediate instructions, 64-bit
      and word forms: they only write rd. */
  predicate IsComputational(inst: Instruction) {
    inst.IsRegReg() || inst.IsRegRegWord() || inst.IsRegImm() || inst.IsShiftImm() ||
    inst.ADDIW? || inst.IsShiftImmWord()
  }

  /** The arms of `execute` that call `op_rr`, `op_rrw`, `op_ri` and
      `op_riw`, each with its own closure. */
  function PerformComputational(s: State, inst: Instruction): (r: State)
    requires s.Valid() && IsComputational(inst)
    ensures r.Valid() && r.pc == s.pc && r.mem == s.mem && r.csrs == s.csrs
  {
    if inst.IsRegReg() then RegReg(s, inst.rd, inst.rs1, inst.rs2, RegRegOp(inst))
    else if inst.IsRegRegWord() then RegRegWord(s, inst.rd, inst.rs1, inst.rs2, RegRegWordOp(inst))
    else if inst.IsRegImm() then RegImm(s, inst.rd, inst.rs1, inst.imm, RegImmOp(inst))
    else if inst.IsShiftImm() then RegImm(s, inst.rd, inst.rs1, inst.shamt, ShiftImmOp(inst))
    else if inst.ADDIW? then RegImmWord(s, inst.rd, inst.rs1, inst.imm, AddW)
    else RegImmWord(s, inst.rd, inst.rs1, inst.wshamt, ShiftImmWordOp(inst))
  }

  /** The arms of `execute` that call `op_load` and `op_store`, each with
      its width and, for a load, its extension. */
  function PerformMemory(s: State, inst: Instruction): (r: Result<State>)
    requires s.Valid() && IsMemoryAccess(inst) && MemoryOk(s, inst)
    ensures r.Err? <==> AccessAddress(s, inst) < MEMORY_BASE
    ensures r.Err? ==> r.error == InvalidMemoryAccess(AccessAddress(s, inst))
    ensures r.Ok? ==> r.value.Valid() && r.value.pc == s.pc && |r.value.mem| == |s.mem| && r.value.csrs == s.csrs
    ensures r.Ok? && inst.IsLoad() ==> r.value.mem == s.mem
  {
    if inst.IsLoad() then LoadOp(s, inst.rd, inst.rs1, inst.offset, LoadWidth(inst), LoadExtension(inst))
    else StoreOp(s, inst.rs1, inst.rs2, inst.offset, StoreWidth(inst))
  }

  /** The arms of `execute` for the Zicsr instructions. The CSR read is the
      bank's checked read, propagated with `?` as in the source. */
  function PerformCsr(s: State, inst: Instruction): (r: Result<State>)
    requires s.Valid() && (inst.IsCsrReg() || inst.IsCsrImm())
    ensures r.Ok? && r.value.Valid() && r.value.pc == s.pc && r.value.mem == s.mem
  {
    match inst
    case CSRRW(rd, rs1, csr) =>
      (match (if rd != 0 then CsrRead(s.csrs, csr) else Ok(0))
      case Err(e) => Err(e)
      case Ok(prev) => Ok(s.(csrs := s.csrs[csr := ReadReg(s.regs, rs1)], regs := WriteReg(s.regs, rd, prev))))
    case CSRRS(rd, rs1, csr) =>
      (match CsrRead(s.csrs, csr)
      case Err(e) => Err(e)
      case Ok(prev) =>
        var csrs := if rs1 != 0 then s.csrs[csr := SetBits(prev, ReadReg(s.regs, rs1))] else s.csrs;
        Ok(s.(csrs := csrs, regs := WriteReg(s.regs, rd, prev))))
    case CSRRC(rd, rs1, csr) =>
      (match CsrRead(s.csrs, csr)
      case Err(e) => Err(e)
      case Ok(prev) =>
        var csrs := if rs1 != 0 then s.csrs[csr := ClearBits(prev, ReadReg(s.regs, rs1))] else s.csrs;
        Ok(s.(csrs := csrs, regs := WriteReg(s.regs, rd, prev))))
    case CSRRWI(rd, uimm, csr) =>
      (match (if rd != 0 then CsrRead(s.csrs, csr) else Ok(0))
      case Err(e) => Err(e)
      case Ok(prev) => Ok(s.(csrs := s.csrs[csr := uimm], regs := WriteReg(s.regs, rd, prev))))
    case CSRRSI(rd, uimm, csr) =>
      (match CsrRead(s.csrs, csr)
      case Err(e) => Err(e)
      case Ok(prev) =>
        var csrs := if uimm != 0 then s.csrs[csr := SetBits(prev, uimm)] else s.csrs;
        Ok(s.(csrs := csrs, regs := WriteReg(s.regs, rd, prev))))
    case CSRRCI(rd, uimm, csr) =>
      (match CsrRead(s.csrs, csr)
      case Err(e) => Err(e)
      case Ok(prev) =>
        var csrs := if uimm != 0 then s.csrs[csr := ClearBits(prev, uimm)] else s.csrs;
        Ok(s.(csrs := csrs, regs := WriteReg(s.regs, rd, prev))))
  }

  /** The remaining arms of `execute`: upper immediates, jumps, ECALL and
      EBREAK. */
  function PerformOther(s: State, ctx: InstructionContext): (r: State)
    requires s.Valid() && IsOther(ctx.instruction)
    ensures r.Valid() && r.mem == s.mem && r.csrs == s.csrs
    ensures !ctx.instruction.JAL? && !ctx.instruction.JALR? ==> r.pc == s.pc
  {
    match ctx.instruction
    // upper immediates
    case LUI(rd, imm) => s.(regs := WriteReg(s.regs, rd, ImmToU64(imm)))
    case AUIPC(rd, imm) => s.(regs := WriteReg(s.regs, rd, Add(s.pc, ImmToU64(imm))))
    // jumps
    case JAL(rd, offset) => Jump(s, ctx.nextPc, rd, Add(s.pc, ImmToU64(offset)))
    case JALR(rd, rs1, offset) => Jump(s, ctx.nextPc, rd, JalrTarget(s, rs1, offset))
    // system: ECALL and EBREAK do nothing here
    case ECALL => s
    case EBREAK => s
  }

  /** The instructions without an `op_*` helper or CSR access. */
  predicate IsOther(inst: Instruction) {
    inst.LUI? || inst.AUIPC? || inst.JAL? || inst.JALR? || inst.ECALL? || inst.EBREAK?
  }

  /** The match of `execute`: what each instruction does before the final
      pc update. Each arm of the source calls an `op_*` helper with its own
      closure, so the arms are grouped by helper, with the closure taken
      from the tables above. */
  function Perform(s: State, ctx: InstructionContext): (r: Result<State>)
    requires s.Valid() && MemoryOk(s, ctx.instruction)
    ensures r.Ok? ==> r.value.Valid() && |r.value.mem| == |s.mem|
  {
    var inst := ctx.instruction;
    if IsComputational(inst) then Ok(PerformComputational(s, inst))
    else if IsMemoryAccess(inst) then PerformMemory(s, inst)
    else if inst.IsBranch() then Ok(Branch(s, inst.rs1, inst.rs2, inst.offset, BranchCondition(inst)))
    else if IsCsrAccess(inst) then PerformCsr(s, inst)
    else Ok(PerformOther(s, ctx))
  }

  /** `execute`: the instruction's effect, then pc := next_pc when the
      instruction left pc where it was. An error is returned before that
      update, with whatever the failing step had not yet done left undone. */
  function Execute(s: State, ctx: InstructionContext): (r: Result<State>)
    requires s.Valid() && MemoryOk(s, ctx.instruction)
    ensures r.Ok? ==> r.value.Valid() && |r.value.mem| == |s.mem|
  {
    var t :- Perform(s, ctx);
    if t.pc == s.pc then Ok(t.(pc := ctx.nextPc)) else Ok(t)
  }
}
