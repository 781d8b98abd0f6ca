/**
 * Instruction decoding (src/cpu/decode.rs): a total map from a raw word to
 * an `Instruction` or `UnknownInstruction(raw)`. Opcodes follow chapter 2
 * and chapter 5 of the RISC-V Unprivileged ISA (version 20191213), the
 * SYSTEM encodings section 9.1, the compressed encodings chapter 16.
 */
module Decoder {
  import opened Types
  import opened Bits
  import opened Instructions

  // Major opcodes, bits 6:0 of a 32-bit instruction.
  const OP_LOAD: nat := 0x03       // 0b00000_11
  const OP_IMM: nat := 0x13        // 0b00100_11
  const OP_AUIPC: nat := 0x17      // 0b00101_11
  const OP_IMM_32: nat := 0x1b     // 0b00110_11
  const OP_STORE: nat := 0x23      // 0b01000_11
  const OP_REG: nat := 0x33        // 0b01100_11
  const OP_LUI: nat := 0x37        // 0b01101_11
  const OP_REG_32: nat := 0x3b     // 0b01110_11
  const OP_BRANCH: nat := 0x63     // 0b11000_11
  const OP_JALR: nat := 0x67       // 0b11001_11
  const OP_JAL: nat := 0x6f        // 0b11011_11
  const OP_SYSTEM: nat := 0x73     // 0b11100_11

  function Opcode(w: RawInstruction): nat { Field(w, 0, 7) }
  function Rd(w: RawInstruction): (r: RegIdx) { Field(w, 7, 5) }
  function Funct3(w: RawInstruction): (r: nat) ensures r < 8 { (w / 0x1000) % 8 }
  function Rs1(w: RawInstruction): (r: RegIdx) { Field(w, 15, 5) }
  function Rs2(w: RawInstruction): (r: RegIdx) { Field(w, 20, 5) }
  function Funct7(w: RawInstruction): nat { Field(w, 25, 7) }

  /** I-type immediate: `(w as i32) >> 20`, an arithmetic shift, which on
      integers is floor division by 2^20. */
  function ImmI(w: RawInstruction): (r: Imm)
    ensures -0x800 <= r < 0x800
  {
    Signed32(w) / 0x10_0000
  }

  /** S-type offset: imm[11:5] = bits 31:25, imm[4:0] = bits 11:7, then
      sign-extended from bit 11. */
  function ImmS(w: RawInstruction): Imm {
    var imm11_5 := Field(w, 25, 7);
    var imm4_0 := Field(w, 7, 5);
    SignExtend(imm11_5 * 0x20 + imm4_0, 12)
  }

  /** B-type offset: imm[12] = bit 31, imm[11] = bit 7, imm[10:5] = bits
      30:25, imm[4:1] = bits 11:8, then sign-extended from bit 12. */
  function ImmB(w: RawInstruction): Imm {
    var imm12 := Field(w, 31, 1);
    var imm10_5 := Field(w, 25, 6);
    var imm4_1 := Field(w, 8, 4);
    var imm11 := Field(w, 7, 1);
    SignExtend(imm12 * 0x1000 + imm11 * 0x800 + imm10_5 * 0x20 + imm4_1 * 2, 13)
  }

  /** U-type immediate: `(w as i32 & 0xfffff000 as i32) as i64`. */
  function ImmU(w: RawInstruction): Imm {
    Signed32(Field(w, 12, 20) * 0x1000)
  }

  /** J-type offset: imm[20] = bit 31, imm[10:1] = bits 30:21, imm[11] =
      bit 20, imm[19:12] = bits 19:12, then sign-extended from bit 20. */
  function ImmJ(w: RawInstruction): Imm {
    var imm20 := Field(w, 31, 1);
    var imm10_1 := Field(w, 21, 10);
    var imm11 := Field(w, 20, 1);
    var imm19_12 := Field(w, 12, 8);
    SignExtend(imm20 * 0x10_0000 + imm19_12 * 0x1000 + imm11 * 0x800 + imm10_1 * 2, 21)
  }

  /** Decodes a 32-bit instruction: dispatch on the major opcode. Every
      combination of opcode, funct3 and funct7 that is not listed is an error
      carrying the raw word. */
  function Decode(w: RawInstruction): (r: Result<Instruction>)
    ensures r.Err? ==> r.error == UnknownInstruction(w)
  {
    var opcode := Opcode(w);
    if opcode == OP_REG then DecodeReg(w)
    else if opcode == OP_REG_32 then DecodeReg32(w)
    else if opcode == OP_IMM then DecodeImm(w)
    else if opcode == OP_IMM_32 then DecodeImm32(w)
    else if opcode == OP_LOAD then DecodeLoad(w)
    else if opcode == OP_STORE then DecodeStore(w)
    else if opcode == OP_BRANCH then DecodeBranch(w)
    else if opcode == OP_LUI then Ok(LUI(Rd(w), ImmU(w)))
    else if opcode == OP_AUIPC then Ok(AUIPC(Rd(w), ImmU(w)))
    else if opcode == OP_JAL then Ok(JAL(Rd(w), ImmJ(w)))
    else if opcode == OP_JALR then DecodeJalr(w)
    else if opcode == OP_SYSTEM then DecodeSystem(w)
    else Err(UnknownInstruction(w))
  }

  /** OP: RV32I and RV32M register-register instructions, by (funct7, funct3). */
  function DecodeReg(w: RawInstruction): (r: Result<Instruction>)
    ensures r.Err? ==> r.error == UnknownInstruction(w)
  {
    var rd, rs1, rs2 := Rd(w), Rs1(w), Rs2(w);
    match (Funct7(w), Funct3(w))
    // RV32I R-type
    case (0x00, 0) => Ok(ADD(rd, rs1, rs2))
    case (0x20, 0) => Ok(SUB(rd, rs1, rs2))
    case (0x00, 1) => Ok(SLL(rd, rs1, rs2))
    case (0x00, 2) => Ok(SLT(rd, rs1, rs2))
    case (0x00, 3) => Ok(SLTU(rd, rs1, rs2))
    case (0x00, 4) => Ok(XOR(rd, rs1, rs2))
    case (0x00, 5) => Ok(SRL(rd, rs1, rs2))
    case (0x20, 5) => Ok(SRA(rd, rs1, rs2))
    case (0x00, 6) => Ok(OR(rd, rs1, rs2))
    case (0x00, 7) => Ok(AND(rd, rs1, rs2))
    // RV32M
    case (0x01, 0) => Ok(MUL(rd, rs1, rs2))
    case (0x01, 1) => Ok(MULH(rd, rs1, rs2))
    case (0x01, 2) => Ok(MULHSU(rd, rs1, rs2))
    case (0x01, 3) => Ok(MULHU(rd, rs1, rs2))
    case (0x01, 4) => Ok(DIV(rd, rs1, rs2))
    case (0x01, 5) => Ok(DIVU(rd, rs1, rs2))
    case (0x01, 6) => Ok(REM(rd, rs1, rs2))
    case (0x01, 7) => Ok(REMU(rd, rs1, rs2))
    case _ => Err(UnknownInstruction(w))
  }

  /** OP-32: RV64I and RV64M word register-register instructions. */
  function DecodeReg32(w: RawInstruction): (r: Result<Instruction>)
    ensures r.Err? ==> r.error == UnknownInstruction(w)
  {
    var rd, rs1, rs2 := Rd(w), Rs1(w), Rs2(w);
    match (Funct7(w), Funct3(w))
    // RV64I R-type
    case (0x00, 0) => Ok(ADDW(rd, rs1, rs2))
    case (0x20, 0) => Ok(SUBW(rd, rs1, rs2))
    case (0x00, 1) => Ok(SLLW(rd, rs1, rs2))
    case (0x00, 5) => Ok(SRLW(rd, rs1, rs2))
    case (0x20, 5) => Ok(SRAW(rd, rs1, rs2))
    // RV64M
    case (0x01, 0) => Ok(MULW(rd, rs1, rs2))
    case (0x01, 4) => Ok(DIVW(rd, rs1, rs2))
    case (0x01, 5) => Ok(DIVUW(rd, rs1, rs2))
    case (0x01, 6) => Ok(REMW(rd, rs1, rs2))
    case (0x01, 7) => Ok(REMUW(rd, rs1, rs2))
    case _ => Err(UnknownInstruction(w))
  }

  /** OP-IMM: register-immediate instructions. Every funct3 is assigned. */
  function DecodeImm(w: RawInstruction): (r: Result<Instruction>)
    ensures r.Err? ==> r.error == UnknownInstruction(w)
  {
    var rd, rs1 := Rd(w), Rs1(w);
    var imm := ImmI(w);
    // RV64 shift amounts are 6 bits wide
    var shamt := Field(w, 20, 6);
    match Funct3(w)
    case 0 => Ok(ADDI(rd, rs1, imm))
    case 2 => Ok(SLTI(rd, rs1, imm))
    case 3 => Ok(SLTIU(rd, rs1, imm))
    case 4 => Ok(XORI(rd, rs1, imm))
    case 6 => Ok(ORI(rd, rs1, imm))
    case 7 => Ok(ANDI(rd, rs1, imm))
    case 1 => Ok(SLLI(rd, rs1, shamt))
    // bit 10 of the immediate selects the arithmetic shift
    case 5 => Ok(if Field(ToU64(imm), 10, 1) == 0 then SRLI(rd, rs1, shamt) else SRAI(rd, rs1, shamt))
    case _ => Err(UnknownInstruction(w))
  }

  /** OP-IMM-32: word register-immediate instructions. */
  function DecodeImm32(w: RawInstruction): (r: Result<Instruction>)
    ensures r.Err? ==> r.error == UnknownInstruction(w)
  {
    var rd, rs1 := Rd(w), Rs1(w);
    // word shift amounts are 5 bits wide
    var shamt := Field(w, 20, 5);
    match Funct3(w)
    case 0 => Ok(ADDIW(rd, rs1, ImmI(w)))
    case 1 => Ok(SLLIW(rd, rs1, shamt))
    case 5 => (
      match Funct7(w)
      case 0x00 => Ok(SRLIW(rd, rs1, shamt))
      case 0x20 => Ok(SRAIW(rd, rs1, shamt))
      case _ => Err(UnknownInstruction(w)))
    case _ => Err(UnknownInstruction(w))
  }

  /** LOAD: the offset is the I-type immediate. */
  function DecodeLoad(w: RawInstruction): (r: Result<Instruction>)
    ensures r.Err? ==> r.error == UnknownInstruction(w)
  {
    var rd, rs1 := Rd(w), Rs1(w);
    var offset := ImmI(w);
    match Funct3(w)
    // RV32I
    case 0 => Ok(LB(rd, rs1, offset))
    case 1 => Ok(LH(rd, rs1, offset))
    case 2 => Ok(LW(rd, rs1, offset))
    case 4 => Ok(LBU(rd, rs1, offset))
    case 5 => Ok(LHU(rd, rs1, offset))
    // RV64I
    case 3 => Ok(LD(rd, rs1, offset))
    case 6 => Ok(LWU(rd, rs1, offset))
    case _ => Err(UnknownInstruction(w))
  }

  /** STORE: the offset is the S-type immediate. */
  function DecodeStore(w: RawInstruction): (r: Result<Instruction>)
    ensures r.Err? ==> r.error == UnknownInstruction(w)
  {
    var rs1, rs2 := Rs1(w), Rs2(w);
    var offset := ImmS(w);
    match Funct3(w)
    case 0 => Ok(SB(rs1, rs2, offset))
    case 1 => Ok(SH(rs1, rs2, offset))
    case 2 => Ok(SW(rs1, rs2, offset))
    case 3 => Ok(SD(rs1, rs2, offset))
    case _ => Err(UnknownInstruction(w))
  }

  /** BRANCH: the offset is the B-type immediate. */
  function DecodeBranch(w: RawInstruction): (r: Result<Instruction>)
    ensures r.Err? ==> r.error == UnknownInstruction(w)
  {
    var rs1, rs2 := Rs1(w), Rs2(w);
    var offset := ImmB(w);
    match Funct3(w)
    case 0 => Ok(BEQ(rs1, rs2, offset))
    case 1 => Ok(BNE(rs1, rs2, offset))
    case 4 => Ok(BLT(rs1, rs2, offset))
    case 5 => Ok(BGE(rs1, rs2, offset))
    case 6 => Ok(BLTU(rs1, rs2, offset))
    case 7 => Ok(BGEU(rs1, rs2, offset))
    case _ => Err(UnknownInstruction(w))
  }

  /** JALR: I-type layout, funct3 must be 0. */
  function DecodeJalr(w: RawInstruction): (r: Result<Instruction>)
    ensures r.Err? ==> r.error == UnknownInstruction(w)
  {
    match Funct3(w)
    case 0 => Ok(JALR(Rd(w), Rs1(w), ImmI(w)))
    case _ => Err(UnknownInstruction(w))
  }

  /** SYSTEM: ECALL and EBREAK by exact 12-bit field, otherwise the Zicsr
      instructions, whose 12-bit field is an unsigned CSR address and whose
      immediate forms reuse the rs1 field as a 5-bit unsigned operand. */
  function DecodeSystem(w: RawInstruction): (r: Result<Instruction>)
    ensures r.Err? ==> r.error == UnknownInstruction(w)
  {
    var rd, rs1 := Rd(w), Rs1(w);
    var csr := Field(w, 20, 12);
    match Funct3(w)
    case 0 => (
      match csr
      case 0 => Ok(ECALL)
      case 1 => Ok(EBREAK)
      case _ => Err(UnknownInstruction(w)))
    case 1 => Ok(CSRRW(rd, rs1, csr))
    case 2 => Ok(CSRRS(rd, rs1, csr))
    case 3 => Ok(CSRRC(rd, rs1, csr))
    case 5 => Ok(CSRRWI(rd, rs1, csr))
    case 6 => Ok(CSRRSI(rd, rs1, csr))
    case 7 => Ok(CSRRCI(rd, rs1, csr))
    case _ => Err(UnknownInstruction(w))
  }
}
