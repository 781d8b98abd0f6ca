/**
 * Expansion of 16-bit compressed instructions (src/cpu/decode.rs,
 * `decode_compressed`) following chapter 16 of the RISC-V Unprivileged ISA
 * (version 20191213): each one becomes the 32-bit `Instruction` it stands for.
 */
module CompressedDecoder {
  import opened Types
  import opened Bits
  import opened Instructions

  /** `to_register`: a 3-bit compressed register field names x8..x15. */
  function CReg(h: RawShortInstruction, lo: nat): (r: RegIdx)
    requires lo <= 13
    ensures 8 <= r < 16
  {
    Field(h, lo, 3) + 8
  }

  /** `as_register`: a full 5-bit register field. */
  function FullReg(h: RawShortInstruction, lo: nat): (r: RegIdx)
    requires lo <= 11
  {
    Field(h, lo, 5)
  }

  /** C.ADDI4SPN's scaled immediate nzuimm[5:4|9:6|2|3] from bits 12:5. */
  function Addi4spnImm(h: RawShortInstruction): nat {
    Field(h, 11, 2) * 0x10 + Field(h, 7, 4) * 0x40 + Field(h, 6, 1) * 4 + Field(h, 5, 1) * 8
  }

  /** C.ADDI4SPN exactly as the source writes it: the reserved-encoding test
      looks at rd', which is never 0, so nothing is ever rejected. */
  function Addi4spnAsWritten(h: RawShortInstruction): (r: Result<Instruction>)
    ensures r.Err? ==> r.error == UnknownInstruction(h)
  {
    var raw: RawInstruction := h;
    var rd := CReg(h, 2);
    if rd == 0 then Err(UnknownInstruction(raw))
    else Ok(ADDI(rd, 2, Addi4spnImm(h)))
  }

  /** C.ADDI4SPN as evidently intended: the reserved encoding nzuimm = 0
      rejected (this includes the all-zero halfword, which the compressed
      ISA defines as illegal). `DecodeCompressed` keeps the source's
      behaviour and calls `Addi4spnAsWritten`. */
  function Addi4spn(h: RawShortInstruction): (r: Result<Instruction>)
    ensures r.Err? ==> r.error == UnknownInstruction(h)
  {
    var raw: RawInstruction := h;
    var nzuimm := Addi4spnImm(h);
    if nzuimm == 0 then Err(UnknownInstruction(raw))
    else Ok(ADDI(CReg(h, 2), 2, nzuimm))
  }

  /** The 6-bit signed immediate imm[5|4:0] at bits 12 | 6:2 (C.ADDI, C.ADDIW,
      C.LI, C.ANDI, and nzimm[17:12] of C.LUI). */
  function CImm6(h: RawShortInstruction): nat {
    Field(h, 12, 1) * 0x20 + Field(h, 2, 5)
  }

  /** C.ADDI16SP's nzimm[9|4|6|8:7|5] from bits 12 | 6:2. */
  function Addi16spImm(h: RawShortInstruction): Imm {
    SignExtend(Field(h, 12, 1) * 0x200 + Field(h, 6, 1) * 0x10 + Field(h, 5, 1) * 0x40
               + Field(h, 3, 2) * 0x80 + Field(h, 2, 1) * 0x20, 10)
  }

  /** C.J's offset[11|4|9:8|10|6|7|3:1|5] from bits 12:2. */
  function CJumpOffset(h: RawShortInstruction): Imm {
    SignExtend(Field(h, 12, 1) * 0x800 + Field(h, 11, 1) * 0x10 + Field(h, 9, 2) * 0x100
               + Field(h, 8, 1) * 0x400 + Field(h, 7, 1) * 0x40 + Field(h, 6, 1) * 0x80
               + Field(h, 3, 3) * 2 + Field(h, 2, 1) * 0x20, 12)
  }

  /** C.BEQZ / C.BNEZ offset[8|4:3] at bits 12:10 and offset[7:6|2:1|5] at bits 6:2. */
  function CBranchOffset(h: RawShortInstruction): Imm {
    SignExtend(Field(h, 12, 1) * 0x100 + Field(h, 10, 2) * 8 + Field(h, 5, 2) * 0x40
               + Field(h, 3, 2) * 2 + Field(h, 2, 1) * 0x20, 9)
  }

  /** Expands a 16-bit RVC instruction into the equivalent `Instruction`;
      the two low bits select the quadrant. */
  function DecodeCompressed(h: RawShortInstruction): (r: Result<Instruction>)
    ensures r.Err? ==> r.error == UnknownInstruction(h)
  {
    var raw: RawInstruction := h;
    match Field(h, 0, 2)
    case 0 => DecodeQuadrant0(h)
    case 1 => DecodeQuadrant1(h)
    case 2 => DecodeQuadrant2(h)
    // 0b11 marks a 32-bit instruction
    case _ => Err(UnknownInstruction(raw))
  }

  /** Quadrant 0: ADDI relative to x2 (sp) and register-based loads and stores. */
  function DecodeQuadrant0(h: RawShortInstruction): (r: Result<Instruction>)
    ensures r.Err? ==> r.error == UnknownInstruction(h)
  {
    var raw: RawInstruction := h;
    var funct3 := Field(h, 13, 3);
    match funct3
    // C.ADDI4SPN, with the source's guard on rd'
    case 0 => Addi4spnAsWritten(h)
    // C.FLD is not implemented
    case 1 => Err(UnknownInstruction(raw))
    // C.LW: uimm[5:3|2|6]
    case 2 =>
      var uimm := Field(h, 10, 3) * 8 + Field(h, 6, 1) * 4 + Field(h, 5, 1) * 0x40;
      Ok(LW(CReg(h, 2), CReg(h, 7), uimm))
    // C.LD: uimm[5:3|7:6]
    case 3 =>
      var uimm := Field(h, 10, 3) * 8 + Field(h, 5, 2) * 0x40;
      Ok(LD(CReg(h, 2), CReg(h, 7), uimm))
    // C.FSD is not implemented
    case 5 => Err(UnknownInstruction(raw))
    // C.SW
    case 6 =>
      var uimm := Field(h, 10, 3) * 8 + Field(h, 6, 1) * 4 + Field(h, 5, 1) * 0x40;
      Ok(SW(CReg(h, 7), CReg(h, 2), uimm))
    // C.SD
    case 7 =>
      var uimm := Field(h, 10, 3) * 8 + Field(h, 5, 2) * 0x40;
      Ok(SD(CReg(h, 7), CReg(h, 2), uimm))
    case _ => Err(UnknownInstruction(raw))
  }

  /** Quadrant 1: immediates, control transfers and the register ALU group. */
  function DecodeQuadrant1(h: RawShortInstruction): (r: Result<Instruction>)
    ensures r.Err? ==> r.error == UnknownInstruction(h)
  {
    var raw: RawInstruction := h;
    var funct3 := Field(h, 13, 3);
    match funct3
    // C.NOP / C.ADDI
    case 0 =>
      var rd := FullReg(h, 7);
      var nzimm := SignExtend(CImm6(h), 6);
      if rd == 0 then Ok(ADDI(0, 0, 0)) else Ok(ADDI(rd, rd, nzimm))
    // C.ADDIW
    case 1 =>
      var rd := FullReg(h, 7);
      if rd == 0 then Err(UnknownInstruction(raw))
      else Ok(ADDIW(rd, rd, SignExtend(CImm6(h), 6)))
    // C.LI
    case 2 =>
      var rd := FullReg(h, 7);
      if rd == 0 then Err(UnknownInstruction(raw))
      else Ok(ADDI(rd, 0, SignExtend(CImm6(h), 6)))
    // C.ADDI16SP / C.LUI
    case 3 =>
      var rd := FullReg(h, 7);
      if rd == 2 then
        var nzimm := Addi16spImm(h);
        if nzimm == 0 then Err(UnknownInstruction(raw)) else Ok(ADDI(2, 2, nzimm))
      else if rd != 0 then
        var nzimm := SignExtend(CImm6(h), 6);
        if nzimm == 0 then Err(UnknownInstruction(raw)) else Ok(LUI(rd, nzimm * 0x1000))
      else
        Err(UnknownInstruction(raw))
    case 4 =>
      var funct2 := Field(h, 10, 2);
      var rd := CReg(h, 7);
      var bit12 := Field(h, 12, 1);
      // imm[5|4:0]; `(bit12 << 5) | imm_shamt` adds nothing, bit 12 is already bit 5
      var immShamt := CImm6(h);
      (match funct2
       // C.SRLI
       case 0 => Ok(SRLI(rd, rd, immShamt))
       // C.SRAI
       case 1 => Ok(SRAI(rd, rd, immShamt))
       // C.ANDI
       case 2 => Ok(ANDI(rd, rd, SignExtend(immShamt, 6)))
       case 3 => (
         var rs2 := CReg(h, 2);
         var opSub := Field(h, 5, 2);
         match (bit12, opSub)
         case (0, 0) => Ok(SUB(rd, rd, rs2))
         case (0, 1) => Ok(XOR(rd, rd, rs2))
         case (0, 2) => Ok(OR(rd, rd, rs2))
         case (0, 3) => Ok(AND(rd, rd, rs2))
         case (1, 0) => Ok(SUBW(rd, rd, rs2))
         case (1, 1) => Ok(ADDW(rd, rd, rs2))
         case _ => Err(UnknownInstruction(raw)))
       case _ => Err(UnknownInstruction(raw)))
    // C.J
    case 5 => Ok(JAL(0, CJumpOffset(h)))
    // C.BEQZ
    case 6 => Ok(BEQ(CReg(h, 7), 0, CBranchOffset(h)))
    // C.BNEZ
    case 7 => Ok(BNE(CReg(h, 7), 0, CBranchOffset(h)))
    case _ => Err(UnknownInstruction(raw))
  }

  /** Quadrant 2: SLLI, loads and stores relative to x2 (sp), JR, MV, JALR, ADD. */
  function DecodeQuadrant2(h: RawShortInstruction): (r: Result<Instruction>)
    ensures r.Err? ==> r.error == UnknownInstruction(h)
  {
    var raw: RawInstruction := h;
    var funct3 := Field(h, 13, 3);
    match funct3
    // C.SLLI
    case 0 =>
      var rd := FullReg(h, 7);
      if rd == 0 then Err(UnknownInstruction(raw)) else Ok(SLLI(rd, rd, CImm6(h)))
    // C.FLDSP is not implemented
    case 1 => Err(UnknownInstruction(raw))
    // C.LWSP: uimm[5|4:2|7:6]
    case 2 =>
      var rd := FullReg(h, 7);
      if rd == 0 then Err(UnknownInstruction(raw))
      else Ok(LW(rd, 2, Field(h, 12, 1) * 0x20 + Field(h, 4, 3) * 4 + Field(h, 2, 2) * 0x40))
    // C.LDSP: uimm[5|4:3|8:6]
    case 3 =>
      var rd := FullReg(h, 7);
      if rd == 0 then Err(UnknownInstruction(raw))
      else Ok(LD(rd, 2, Field(h, 12, 1) * 0x20 + Field(h, 5, 2) * 8 + Field(h, 2, 3) * 0x40))
    case 4 =>
      var bit12 := Field(h, 12, 1);
      var rs1 := FullReg(h, 7);
      var rs2 := FullReg(h, 2);
      if bit12 == 0 then
        if rs2 == 0 then
          // C.JR
          if rs1 == 0 then Err(UnknownInstruction(raw)) else Ok(JALR(0, rs1, 0))
        else
          // C.MV
          if rs1 == 0 then Err(UnknownInstruction(raw)) else Ok(ADD(rs1, 0, rs2))
      else
        if rs2 == 0 then
          // C.EBREAK / C.JALR
          if rs1 == 0 then Ok(EBREAK) else Ok(JALR(1, rs1, 0))
        else
          // C.ADD
          if rs1 == 0 then Err(UnknownInstruction(raw)) else Ok(ADD(rs1, rs1, rs2))
    // C.FSDSP is not implemented
    case 5 => Err(UnknownInstruction(raw))
    // C.SWSP: uimm[5:2|7:6]
    case 6 => Ok(SW(2, FullReg(h, 2), Field(h, 9, 4) * 4 + Field(h, 7, 2) * 0x40))
    // C.SDSP: uimm[5:3|8:6]
    case 7 => Ok(SD(2, FullReg(h, 2), Field(h, 10, 3) * 8 + Field(h, 7, 3) * 0x40))
    case _ => Err(UnknownInstruction(raw))
  }
}
