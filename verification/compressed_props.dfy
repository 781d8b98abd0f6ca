/**
 * Properties of the compressed-instruction expansion: the encodings it
 * rejects, the registers and offsets it produces (chapter 16 of the
 * RISC-V Unprivileged ISA, version 20191213), and the C.ADDI4SPN
 * reserved-encoding check.
 */
module CompressedDecoderProperties {
  import opened Types
  import opened Bits
  import opened Instructions
  import opened CompressedDecoder

  function Quadrant(h: RawShortInstruction): nat { Field(h, 0, 2) }
  function CFunct3(h: RawShortInstruction): nat { Field(h, 13, 3) }

  /** A halfword whose two low bits are 11 is not a compressed instruction. */
  lemma CompressedRejectsQuadrant3(h: RawShortInstruction)
    requires Quadrant(h) == 3
    ensures DecodeCompressed(h) == Err(UnknownInstruction(h))
  {
  }

  /** The floating-point loads and stores (C.FLD, C.FSD, C.FLDSP, C.FSDSP)
      are not implemented and always rejected. */
  lemma CompressedRejectsFloatingPoint(h: RawShortInstruction)
    requires Quadrant(h) == 0 || Quadrant(h) == 2
    requires CFunct3(h) == 1 || CFunct3(h) == 5
    ensures DecodeCompressed(h) == Err(UnknownInstruction(h))
  {
  }

  /** C.ADDI16SP and C.LUI with a zero immediate are reserved and rejected;
      so is the same funct3 with rd = 0. Otherwise C.ADDI16SP adds a nonzero
      multiple of 16 in [-512, 496] to x2 and C.LUI loads a nonzero
      multiple of 4096 in [-2^17, 2^17 - 4096]. */
  lemma CompressedAddi16spLui(h: RawShortInstruction)
    requires Quadrant(h) == 1 && CFunct3(h) == 3
    ensures var rd := Field(h, 7, 5);
      && (rd == 0 ==> DecodeCompressed(h).Err?)
      && (rd == 2 ==> (DecodeCompressed(h).Err? <==> Addi16spImm(h) == 0))
      && (rd != 0 && rd != 2 ==> (DecodeCompressed(h).Err? <==> CImm6(h) == 0))
    ensures DecodeCompressed(h).Ok? ==> var i := DecodeCompressed(h).value;
      || (i.ADDI? && i.rd == 2 && i.rs1 == 2 && i.imm != 0 && i.imm % 16 == 0 && -512 <= i.imm <= 496)
      || (i.LUI? && i.rd == Field(h, 7, 5) && i.imm != 0 && i.imm % 0x1000 == 0
          && -0x2_0000 <= i.imm <= 0x2_0000 - 0x1000)
  {
    var q := Field(h, 12, 1) * 0x20 + Field(h, 6, 1) + Field(h, 5, 1) * 4 + Field(h, 3, 2) * 8 + Field(h, 2, 1) * 2;
    assert Addi16spImm(h) == 16 * q || Addi16spImm(h) == 16 * q - 0x400;
    ModUnique(16 * q, 16, q, 0);
    ModUnique(16 * q - 0x400, 16, q - 0x40, 0);
    var n := SignExtend(CImm6(h), 6);
    ModUnique(n * 0x1000, 0x1000, n, 0);
  }

  /** rd = 0 is rejected by C.ADDIW, C.LI, C.SLLI, C.LWSP and C.LDSP. */
  lemma CompressedRejectsZeroRd(h: RawShortInstruction)
    requires Field(h, 7, 5) == 0
    requires (Quadrant(h) == 1 && (CFunct3(h) == 1 || CFunct3(h) == 2))
             || (Quadrant(h) == 2 && (CFunct3(h) == 0 || CFunct3(h) == 2 || CFunct3(h) == 3))
    ensures DecodeCompressed(h) == Err(UnknownInstruction(h))
  {
  }

  /** C.LW / C.SW expand to a word access at rs1' (bits 9:7) with the
      offset uimm[5:3|2|6], a multiple of 4 below 128; C.LD / C.SD to a
      doubleword access with uimm[5:3|7:6], a multiple of 8 below 256. The
      loaded or stored register is rd' / rs2' (bits 4:2); every register
      operand is one of x8..x15. */
  lemma CompressedRegisterBasedAccess(h: RawShortInstruction)
    requires Quadrant(h) == 0 && CFunct3(h) in {2, 3, 6, 7}
    ensures DecodeCompressed(h).Ok?
    ensures var i := DecodeCompressed(h).value;
      && (CFunct3(h) == 2 ==> i.LW?) && (CFunct3(h) == 3 ==> i.LD?)
      && (CFunct3(h) == 6 ==> i.SW?) && (CFunct3(h) == 7 ==> i.SD?)
      && 8 <= i.rs1 < 16
      && (i.LW? || i.LD? ==> 8 <= i.rd < 16) && (i.SW? || i.SD? ==> 8 <= i.rs2 < 16)
      && 0 <= i.offset
      && (i.LW? || i.SW? ==> i.offset % 4 == 0 && i.offset < 128)
      && (i.LD? || i.SD? ==> i.offset % 8 == 0 && i.offset < 256)
    ensures var i := DecodeCompressed(h).value;
      && i.rs1 == 8 + Field(h, 7, 3)
      && (i.LW? || i.LD? ==> i.rd == 8 + Field(h, 2, 3))
      && (i.SW? || i.SD? ==> i.rs2 == 8 + Field(h, 2, 3))
      && (i.LW? || i.SW? ==> i.offset == Field(h, 10, 3) * 8 + Field(h, 6, 1) * 4 + Field(h, 5, 1) * 0x40)
      && (i.LD? || i.SD? ==> i.offset == Field(h, 10, 3) * 8 + Field(h, 5, 2) * 0x40)
  {
    var a, b, c, d := Field(h, 10, 3), Field(h, 6, 1), Field(h, 5, 1), Field(h, 5, 2);
    ModUnique(a * 8 + b * 4 + c * 0x40, 4, a * 2 + b + c * 0x10, 0);
    ModUnique(a * 8 + d * 0x40, 8, a + d * 8, 0);
  }

  /** C.LWSP and C.LDSP load into a nonzero rd from x2 plus an offset that
      is a multiple of 4 below 256 (word, uimm[5|4:2|7:6]) or of 8 below 512
      (doubleword, uimm[5|4:3|8:6]). */
  lemma CompressedStackLoad(h: RawShortInstruction)
    requires Quadrant(h) == 2 && (CFunct3(h) == 2 || CFunct3(h) == 3)
    requires Field(h, 7, 5) != 0
    ensures DecodeCompressed(h).Ok?
    ensures var i := DecodeCompressed(h).value;
      && (if CFunct3(h) == 2 then i.LW? else i.LD?)
      && i.rd == Field(h, 7, 5) && i.rs1 == 2 && 0 <= i.offset
      && (i.LW? ==> i.offset % 4 == 0 && i.offset < 256)
      && (i.LD? ==> i.offset % 8 == 0 && i.offset < 512)
    ensures var i := DecodeCompressed(h).value;
      && (i.LW? ==> i.offset == Field(h, 12, 1) * 0x20 + Field(h, 4, 3) * 4 + Field(h, 2, 2) * 0x40)
      && (i.LD? ==> i.offset == Field(h, 12, 1) * 0x20 + Field(h, 5, 2) * 8 + Field(h, 2, 3) * 0x40)
  {
    var a, b, c := Field(h, 12, 1), Field(h, 4, 3), Field(h, 2, 2);
    ModUnique(a * 0x20 + b * 4 + c * 0x40, 4, a * 8 + b + c * 0x10, 0);
    var d, e := Field(h, 5, 2), Field(h, 2, 3);
    ModUnique(a * 0x20 + d * 8 + e * 0x40, 8, a * 4 + d + e * 8, 0);
  }

  /** C.SWSP and C.SDSP store any register at x2 plus an offset that is a
      multiple of 4 below 256 (word, uimm[5:2|7:6]) or of 8 below 512
      (doubleword, uimm[5:3|8:6]). */
  lemma CompressedStackStore(h: RawShortInstruction)
    requires Quadrant(h) == 2 && (CFunct3(h) == 6 || CFunct3(h) == 7)
    ensures DecodeCompressed(h).Ok?
    ensures var i := DecodeCompressed(h).value;
      && (if CFunct3(h) == 6 then i.SW? else i.SD?)
      && i.rs1 == 2 && i.rs2 == Field(h, 2, 5) && 0 <= i.offset
      && (i.SW? ==> i.offset % 4 == 0 && i.offset < 256)
      && (i.SD? ==> i.offset % 8 == 0 && i.offset < 512)
    ensures var i := DecodeCompressed(h).value;
      && (i.SW? ==> i.offset == Field(h, 9, 4) * 4 + Field(h, 7, 2) * 0x40)
      && (i.SD? ==> i.offset == Field(h, 10, 3) * 8 + Field(h, 7, 3) * 0x40)
  {
    var a, b := Field(h, 9, 4), Field(h, 7, 2);
    ModUnique(a * 4 + b * 0x40, 4, a + b * 0x10, 0);
    var c, d := Field(h, 10, 3), Field(h, 7, 3);
    ModUnique(c * 8 + d * 0x40, 8, c + d * 8, 0);
  }

  /** The C.J offset is even and within [-2048, 2046]. */
  lemma CJumpOffsetRange(h: RawShortInstruction)
    ensures CJumpOffset(h) % 2 == 0
    ensures -2048 <= CJumpOffset(h) <= 2046
  {
    var q := Field(h, 12, 1) * 0x400 + Field(h, 11, 1) * 0x8 + Field(h, 9, 2) * 0x80
             + Field(h, 8, 1) * 0x200 + Field(h, 7, 1) * 0x20 + Field(h, 6, 1) * 0x40
             + Field(h, 3, 3) + Field(h, 2, 1) * 0x10;
    assert CJumpOffset(h) == 2 * q || CJumpOffset(h) == 2 * q - 0x1000;
    ModUnique(2 * q, 2, q, 0);
    ModUnique(2 * q - 0x1000, 2, q - 0x800, 0);
  }

  /** The C.BEQZ / C.BNEZ offset is even and within [-256, 254]. */
  lemma CBranchOffsetRange(h: RawShortInstruction)
    ensures CBranchOffset(h) % 2 == 0
    ensures -256 <= CBranchOffset(h) <= 254
  {
  }

  /** C.J expands to JAL x0 with the offset CJumpOffset, even and in
      [-2048, 2046]; C.BEQZ and C.BNEZ compare rs1' (bits 9:7, one of
      x8..x15) with x0 and branch by CBranchOffset, even and in [-256, 254]. */
  lemma CompressedControlTransfer(h: RawShortInstruction)
    requires Quadrant(h) == 1 && CFunct3(h) >= 5
    ensures DecodeCompressed(h).Ok?
    ensures var i := DecodeCompressed(h).value;
      && (CFunct3(h) == 5 ==> i.JAL? && i.rd == 0 && i.offset % 2 == 0 && -2048 <= i.offset <= 2046)
      && (CFunct3(h) == 6 ==> i.BEQ?) && (CFunct3(h) == 7 ==> i.BNE?)
      && (CFunct3(h) >= 6 ==> 8 <= i.rs1 < 16 && i.rs2 == 0 && i.offset % 2 == 0 && -256 <= i.offset <= 254)
    ensures var i := DecodeCompressed(h).value;
      && (CFunct3(h) == 5 ==> i.offset == CJumpOffset(h))
      && (CFunct3(h) >= 6 ==> i.rs1 == 8 + Field(h, 7, 3) && i.offset == CBranchOffset(h))
  {
    CJumpOffsetRange(h);
    CBranchOffsetRange(h);
  }

  /** The source's C.ADDI4SPN test can never fire: rd' is always one of
      x8..x15, so every encoding is accepted. */
  lemma Addi4spnAsWrittenNeverRejects(h: RawShortInstruction)
    ensures Addi4spnAsWritten(h).Ok?
  {
  }

  /** In particular the all-zero halfword, which the compressed ISA defines
      to be illegal, is accepted by the source as `addi x8, x2, 0`. */
  lemma Addi4spnAsWrittenAcceptsZero()
    ensures Addi4spnAsWritten(0) == Ok(ADDI(8, 2, 0))
  {
  }

  /** The corrected C.ADDI4SPN rejects exactly the reserved nzuimm = 0, and
      otherwise adds a nonzero multiple of 4 below 1024 to x2 into one of
      x8..x15. */
  lemma Addi4spnRejectsReserved(h: RawShortInstruction)
    ensures Addi4spn(h).Err? <==> Addi4spnImm(h) == 0
    ensures Addi4spn(h).Ok? ==> var i := Addi4spn(h).value;
      && i.ADDI? && 8 <= i.rd < 16 && i.rs1 == 2
      && 0 < i.imm < 1024 && i.imm % 4 == 0
  {
  }

  /** The correction changes nothing but the reserved encoding: wherever
      nzuimm is nonzero both versions give the same instruction. */
  lemma Addi4spnCorrectionOnlyReserved(h: RawShortInstruction)
    ensures Addi4spnImm(h) != 0 ==> Addi4spn(h) == Addi4spnAsWritten(h)
    ensures Addi4spnImm(h) == 0 ==> Addi4spn(h) == Err(UnknownInstruction(h)) && Addi4spnAsWritten(h).Ok?
  {
  }

  /** `decode_compressed` keeps the source's guard: quadrant 0, funct3 000
      is `addi rd', x2, nzuimm` for every encoding, the reserved one
      included, with nzuimm[5:4|9:6|2|3] taken from bits 12:5. */
  lemma DecodeCompressedAddi4spn(h: RawShortInstruction)
    requires Quadrant(h) == 0 && CFunct3(h) == 0
    ensures DecodeCompressed(h) == Ok(ADDI(8 + Field(h, 2, 3), 2,
      Field(h, 11, 2) * 0x10 + Field(h, 7, 4) * 0x40 + Field(h, 6, 1) * 4 + Field(h, 5, 1) * 8))
  {
  }

  /** So the all-zero halfword, which zero-filled memory holds, decodes as
      `addi x8, x2, 0`. */
  lemma DecodeCompressedAcceptsZero()
    ensures DecodeCompressed(0) == Ok(ADDI(8, 2, 0))
  {
    DecodeCompressedAddi4spn(0);
  }

  /** The 6-bit immediate imm[5|4:0] at bits 12 | 6:2, read as a signed
      number: imm[5] weighs -32. */
  function CSigned6(h: RawShortInstruction): (r: int)
    ensures -0x20 <= r < 0x20
  {
    -0x20 * Field(h, 12, 1) + Field(h, 2, 5)
  }

  /** The same six bits read as an unsigned shift amount. */
  function CShamt(h: RawShortInstruction): (r: nat)
    ensures r < 0x40
  {
    0x20 * Field(h, 12, 1) + Field(h, 2, 5)
  }

  lemma CImm6Layout(h: RawShortInstruction)
    ensures CImm6(h) == CShamt(h)
    ensures SignExtend(CImm6(h), 6) == CSigned6(h)
  {
  }

  /** Quadrant 1, funct3 000 to 010: C.NOP, C.ADDI, C.ADDIW and C.LI. C.ADDI
      with rd = 0 is the NOP `addi x0, x0, 0` whatever its immediate;
      C.ADDIW and C.LI with rd = 0 are rejected. */
  lemma CompressedImmediateArithmetic(h: RawShortInstruction)
    requires Quadrant(h) == 1 && CFunct3(h) <= 2
    ensures var rd := Field(h, 7, 5);
      DecodeCompressed(h) ==
        if CFunct3(h) == 0 then Ok(if rd == 0 then ADDI(0, 0, 0) else ADDI(rd, rd, CSigned6(h)))
        else if rd == 0 then Err(UnknownInstruction(h))
        else if CFunct3(h) == 1 then Ok(ADDIW(rd, rd, CSigned6(h)))
        else Ok(ADDI(rd, 0, CSigned6(h)))
  {
    CImm6Layout(h);
  }

  /** Quadrant 1, funct3 100, funct2 00 to 10: C.SRLI and C.SRAI shift
      rd' in place by the unsigned six bits, C.ANDI masks it with the
      signed ones. */
  lemma CompressedShiftAndMask(h: RawShortInstruction)
    requires Quadrant(h) == 1 && CFunct3(h) == 4 && Field(h, 10, 2) <= 2
    ensures var rd := 8 + Field(h, 7, 3);
      DecodeCompressed(h) == Ok(
        if Field(h, 10, 2) == 0 then SRLI(rd, rd, CShamt(h))
        else if Field(h, 10, 2) == 1 then SRAI(rd, rd, CShamt(h))
        else ANDI(rd, rd, CSigned6(h)))
  {
    CImm6Layout(h);
  }

  /** Quadrant 1, funct3 100, funct2 11: bit 12 and bits 6:5 choose
      C.SUB, C.XOR, C.OR, C.AND, C.SUBW or C.ADDW on rd' and rs2'; the two
      remaining word encodings are rejected. */
  lemma CompressedRegisterArithmetic(h: RawShortInstruction)
    requires Quadrant(h) == 1 && CFunct3(h) == 4 && Field(h, 10, 2) == 3
    ensures var rd, rs2, op := 8 + Field(h, 7, 3), 8 + Field(h, 2, 3), Field(h, 5, 2);
      DecodeCompressed(h) ==
        if Field(h, 12, 1) == 0 then Ok([SUB(rd, rd, rs2), XOR(rd, rd, rs2), OR(rd, rd, rs2), AND(rd, rd, rs2)][op])
        else if op == 0 then Ok(SUBW(rd, rd, rs2))
        else if op == 1 then Ok(ADDW(rd, rd, rs2))
        else Err(UnknownInstruction(h))
  {
  }

  /** Quadrant 2, funct3 000: C.SLLI shifts rd in place by the unsigned six
      bits; rd = 0 is rejected. */
  lemma CompressedShiftLeft(h: RawShortInstruction)
    requires Quadrant(h) == 2 && CFunct3(h) == 0
    ensures var rd := Field(h, 7, 5);
      DecodeCompressed(h) == if rd == 0 then Err(UnknownInstruction(h)) else Ok(SLLI(rd, rd, CShamt(h)))
  {
    CImm6Layout(h);
  }

  /** Quadrant 2, funct3 100: C.JR, C.MV, C.EBREAK, C.JALR and C.ADD. Every
      form needs a nonzero rs1 except C.EBREAK, which is the one with
      bit 12 set and both register fields zero. C.JR links to x0 and C.JALR
      to x1; C.MV adds rs2 to x0 and C.ADD to rd. */
  lemma CompressedJumpMoveAdd(h: RawShortInstruction)
    requires Quadrant(h) == 2 && CFunct3(h) == 4
    ensures var bit12, rs1, rs2 := Field(h, 12, 1), Field(h, 7, 5), Field(h, 2, 5);
      DecodeCompressed(h) ==
        if bit12 == 1 && rs1 == 0 && rs2 == 0 then Ok(EBREAK)
        else if rs1 == 0 then Err(UnknownInstruction(h))
        else if rs2 == 0 then Ok(JALR(if bit12 == 0 then 0 else 1, rs1, 0))
        else Ok(ADD(rs1, if bit12 == 0 then 0 else rs1, rs2))
  {
  }
}
