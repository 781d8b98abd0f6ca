/**
 * The decoded instruction (src/instructions.rs): one variant per supported
 * opcode, carrying only the operands it needs. The variant set is the one
 * the decoder builds and `execute` matches, which includes ECALL and the
 * six Zicsr instructions.
 */
module Instructions {
  import opened Types

  datatype Instruction =
    // RV32I R-type
    | ADD(rd: RegIdx, rs1: RegIdx, rs2: RegIdx)
    | SUB(rd: RegIdx, rs1: RegIdx, rs2: RegIdx)
    | SLL(rd: RegIdx, rs1: RegIdx, rs2: RegIdx)
    | SLT(rd: RegIdx, rs1: RegIdx, rs2: RegIdx)
    | SLTU(rd: RegIdx, rs1: RegIdx, rs2: RegIdx)
    | XOR(rd: RegIdx, rs1: RegIdx, rs2: RegIdx)
    | SRL(rd: RegIdx, rs1: RegIdx, rs2: RegIdx)
    | SRA(rd: RegIdx, rs1: RegIdx, rs2: RegIdx)
    | OR(rd: RegIdx, rs1: RegIdx, rs2: RegIdx)
    | AND(rd: RegIdx, rs1: RegIdx, rs2: RegIdx)
    // RV32M
    | MUL(rd: RegIdx, rs1: RegIdx, rs2: RegIdx)
    | MULH(rd: RegIdx, rs1: RegIdx, rs2: RegIdx)
    | MULHSU(rd: RegIdx, rs1: RegIdx, rs2: RegIdx)
    | MULHU(rd: RegIdx, rs1: RegIdx, rs2: RegIdx)
    | DIV(rd: RegIdx, rs1: RegIdx, rs2: RegIdx)
    | DIVU(rd: RegIdx, rs1: RegIdx, rs2: RegIdx)
    | REM(rd: RegIdx, rs1: RegIdx, rs2: RegIdx)
    | REMU(rd: RegIdx, rs1: RegIdx, rs2: RegIdx)
    // RV64I R-type
    | ADDW(rd: RegIdx, rs1: RegIdx, rs2: RegIdx)
    | SUBW(rd: RegIdx, rs1: RegIdx, rs2: RegIdx)
    | SLLW(rd: RegIdx, rs1: RegIdx, rs2: RegIdx)
    | SRLW(rd: RegIdx, rs1: RegIdx, rs2: RegIdx)
    | SRAW(rd: RegIdx, rs1: RegIdx, rs2: RegIdx)
    // RV64M
    | MULW(rd: RegIdx, rs1: RegIdx, rs2: RegIdx)
    | DIVW(rd: RegIdx, rs1: RegIdx, rs2: RegIdx)
    | DIVUW(rd: RegIdx, rs1: RegIdx, rs2: RegIdx)
    | REMW(rd: RegIdx, rs1: RegIdx, rs2: RegIdx)
    | REMUW(rd: RegIdx, rs1: RegIdx, rs2: RegIdx)
    // RV32I I-type
    | ADDI(rd: RegIdx, rs1: RegIdx, imm: Imm)
    | SLTI(rd: RegIdx, rs1: RegIdx, imm: Imm)
    | SLTIU(rd: RegIdx, rs1: RegIdx, imm: Imm)
    | XORI(rd: RegIdx, rs1: RegIdx, imm: Imm)
    | ORI(rd: RegIdx, rs1: RegIdx, imm: Imm)
    | ANDI(rd: RegIdx, rs1: RegIdx, imm: Imm)
    | SLLI(rd: RegIdx, rs1: RegIdx, shamt: Shamt)
    | SRLI(rd: RegIdx, rs1: RegIdx, shamt: Shamt)
    | SRAI(rd: RegIdx, rs1: RegIdx, shamt: Shamt)
    // RV64I I-type
    | ADDIW(rd: RegIdx, rs1: RegIdx, imm: Imm)
    | SLLIW(rd: RegIdx, rs1: RegIdx, wshamt: WordShamt)
    | SRLIW(rd: RegIdx, rs1: RegIdx, wshamt: WordShamt)
    | SRAIW(rd: RegIdx, rs1: RegIdx, wshamt: WordShamt)
    // Loads
    | LB(rd: RegIdx, rs1: RegIdx, offset: Imm)
    | LH(rd: RegIdx, rs1: RegIdx, offset: Imm)
    | LW(rd: RegIdx, rs1: RegIdx, offset: Imm)
    | LBU(rd: RegIdx, rs1: RegIdx, offset: Imm)
    | LHU(rd: RegIdx, rs1: RegIdx, offset: Imm)
    | LD(rd: RegIdx, rs1: RegIdx, offset: Imm)
    | LWU(rd: RegIdx, rs1: RegIdx, offset: Imm)
    // Stores
    | SB(rs1: RegIdx, rs2: RegIdx, offset: Imm)
    | SH(rs1: RegIdx, rs2: RegIdx, offset: Imm)
    | SW(rs1: RegIdx, rs2: RegIdx, offset: Imm)
    | SD(rs1: RegIdx, rs2: RegIdx, offset: Imm)
    // Branches
    | BEQ(rs1: RegIdx, rs2: RegIdx, offset: Imm)
    | BNE(rs1: RegIdx, rs2: RegIdx, offset: Imm)
    | BLT(rs1: RegIdx, rs2: RegIdx, offset: Imm)
    | BGE(rs1: RegIdx, rs2: RegIdx, offset: Imm)
    | BLTU(rs1: RegIdx, rs2: RegIdx, offset: Imm)
    | BGEU(rs1: RegIdx, rs2: RegIdx, offset: Imm)
    // U-type
    | LUI(rd: RegIdx, imm: Imm)
    | AUIPC(rd: RegIdx, imm: Imm)
    // Jumps
    | JAL(rd: RegIdx, offset: Imm)
    | JALR(rd: RegIdx, rs1: RegIdx, offset: Imm)
    // System
    | ECALL
    | EBREAK
    | CSRRW(rd: RegIdx, rs1: RegIdx, csr: CsrAddr)
    | CSRRS(rd: RegIdx, rs1: RegIdx, csr: CsrAddr)
    | CSRRC(rd: RegIdx, rs1: RegIdx, csr: CsrAddr)
    // The source names the 5-bit immediate of these three `imm`; the word
    // shifts above name their 5-bit shift amount `shamt`.
    | CSRRWI(rd: RegIdx, uimm: CsrImm, csr: CsrAddr)
    | CSRRSI(rd: RegIdx, uimm: CsrImm, csr: CsrAddr)
    | CSRRCI(rd: RegIdx, uimm: CsrImm, csr: CsrAddr)
  {
    /** The helper of `execute` an instruction goes through. */
    function Kind(): Kind {
      match this
      case ADD(_, _, _) | SUB(_, _, _) | SLL(_, _, _) | SLT(_, _, _) | SLTU(_, _, _) | XOR(_, _, _) | SRL(_, _, _) | SRA(_, _, _) | OR(_, _, _) | AND(_, _, _) | MUL(_, _, _) | MULH(_, _, _) | MULHSU(_, _, _) | MULHU(_, _, _) | DIV(_, _, _) | DIVU(_, _, _) | REM(_, _, _) | REMU(_, _, _) => RegRegKind
      case ADDW(_, _, _) | SUBW(_, _, _) | SLLW(_, _, _) | SRLW(_, _, _) | SRAW(_, _, _) | MULW(_, _, _) | DIVW(_, _, _) | DIVUW(_, _, _) | REMW(_, _, _) | REMUW(_, _, _) => RegRegWordKind
      case ADDI(_, _, _) | SLTI(_, _, _) | SLTIU(_, _, _) | XORI(_, _, _) | ORI(_, _, _) | ANDI(_, _, _) => RegImmKind
      case SLLI(_, _, _) | SRLI(_, _, _) | SRAI(_, _, _) => ShiftImmKind
      case ADDIW(_, _, _) => RegImmWordKind
      case SLLIW(_, _, _) | SRLIW(_, _, _) | SRAIW(_, _, _) => ShiftImmWordKind
      case LB(_, _, _) | LH(_, _, _) | LW(_, _, _) | LBU(_, _, _) | LHU(_, _, _) | LD(_, _, _) | LWU(_, _, _) => LoadKind
      case SB(_, _, _) | SH(_, _, _) | SW(_, _, _) | SD(_, _, _) => StoreKind
      case BEQ(_, _, _) | BNE(_, _, _) | BLT(_, _, _) | BGE(_, _, _) | BLTU(_, _, _) | BGEU(_, _, _) => BranchKind
      case LUI(_, _) | AUIPC(_, _) => UpperImmediateKind
      case JAL(_, _) => JumpKind
      case JALR(_, _, _) => JumpRegisterKind
      case ECALL | EBREAK => SystemKind
      case CSRRW(_, _, _) | CSRRS(_, _, _) | CSRRC(_, _, _) => CsrRegKind
      case CSRRWI(_, _, _) | CSRRSI(_, _, _) | CSRRCI(_, _, _) => CsrImmKind
    }

    predicate IsRegReg() {
      Kind() == RegRegKind
    }

    predicate IsRegRegWord() {
      Kind() == RegRegWordKind
    }

    predicate IsRegImm() {
      Kind() == RegImmKind
    }

    predicate IsShiftImm() {
      Kind() == ShiftImmKind
    }

    predicate IsShiftImmWord() {
      Kind() == ShiftImmWordKind
    }

    predicate IsLoad() {
      Kind() == LoadKind
    }

    predicate IsStore() {
      Kind() == StoreKind
    }

    predicate IsBranch() {
      Kind() == BranchKind
    }

    predicate IsCsrReg() {
      Kind() == CsrRegKind
    }

    predicate IsCsrImm() {
      Kind() == CsrImmKind
    }

    /** The instruction writes a 32-bit result sign-extended to 64 bits. */
    predicate IsWordOp() {
      IsRegRegWord() || ADDIW? || IsShiftImmWord()
    }
  }

  datatype Kind = RegRegKind | RegRegWordKind | RegImmKind | ShiftImmKind | RegImmWordKind | ShiftImmWordKind | LoadKind | StoreKind | BranchKind | UpperImmediateKind | JumpKind | JumpRegisterKind | SystemKind | CsrRegKind | CsrImmKind

  /** An instruction together with the address of the one after it. */
  datatype InstructionContext = InstructionContext(instruction: Instruction, nextPc: u64)
}
