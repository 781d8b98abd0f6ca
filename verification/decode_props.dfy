/**
 * Properties of the 32-bit decoder: exactly which words it accepts, which
 * bits every operand comes from, and the ranges of the assembled
 * immediates (section 2.3 of the RISC-V Unprivileged ISA, version
 * 20191213).
 */
module DecoderProperties {
  import opened Types
  import opened Bits
  import opened Instructions
  import opened Decoder

  /** The encodings the decoder accepts, as a table over opcode, funct3 and
      funct7 written independently of the decoder's nested matches. */
  predicate Legal32(w: RawInstruction) {
    var op, f3, f7 := Opcode(w), Funct3(w), Funct7(w);
    || (op == OP_REG && (f7 == 0x00 || f7 == 0x01 || (f7 == 0x20 && (f3 == 0 || f3 == 5))))
    || (op == OP_REG_32 && ((f7 == 0x00 && (f3 == 0 || f3 == 1 || f3 == 5))
                            || (f7 == 0x20 && (f3 == 0 || f3 == 5))
                            || (f7 == 0x01 && (f3 == 0 || f3 >= 4))))
    || op == OP_IMM
    || (op == OP_IMM_32 && (f3 == 0 || f3 == 1 || (f3 == 5 && (f7 == 0x00 || f7 == 0x20))))
    || (op == OP_LOAD && f3 != 7)
    || (op == OP_STORE && f3 <= 3)
    || (op == OP_BRANCH && f3 != 2 && f3 != 3)
    || op == OP_LUI || op == OP_AUIPC || op == OP_JAL
    || (op == OP_JALR && f3 == 0)
    || (op == OP_SYSTEM && (if f3 == 0 then Field(w, 20, 12) <= 1 else f3 != 4))
  }

  datatype Option<T> = None | Some(value: T)

  /** The assembler mnemonic of an instruction, without its operands. */
  datatype Mnemonic =
    | Add | Sub | Sll | Slt | Sltu | Xor | Srl | Sra | Or | And
    | Mul | Mulh | Mulhsu | Mulhu | Div | Divu | Rem | Remu
    | Addw | Subw | Sllw | Srlw | Sraw | Mulw | Divw | Divuw | Remw | Remuw
    | Addi | Slti | Sltiu | Xori | Ori | Andi | Slli | Srli | Srai
    | Addiw | Slliw | Srliw | Sraiw
    | Lb | Lh | Lw | Lbu | Lhu | Ld | Lwu
    | Sb | Sh | Sw | Sd
    | Beq | Bne | Blt | Bge | Bltu | Bgeu
    | Lui | Auipc | Jal | Jalr
    | Ecall | Ebreak | Csrrw | Csrrs | Csrrc | Csrrwi | Csrrsi | Csrrci

  function MnemonicOf(i: Instruction): Mnemonic {
    match i
    case ADD(_, _, _) => Add
    case SUB(_, _, _) => Sub
    case SLL(_, _, _) => Sll
    case SLT(_, _, _) => Slt
    case SLTU(_, _, _) => Sltu
    case XOR(_, _, _) => Xor
    case SRL(_, _, _) => Srl
    case SRA(_, _, _) => Sra
    case OR(_, _, _) => Or
    case AND(_, _, _) => And
    case MUL(_, _, _) => Mul
    case MULH(_, _, _) => Mulh
    case MULHSU(_, _, _) => Mulhsu
    case MULHU(_, _, _) => Mulhu
    case DIV(_, _, _) => Div
    case DIVU(_, _, _) => Divu
    case REM(_, _, _) => Rem
    case REMU(_, _, _) => Remu
    case ADDW(_, _, _) => Addw
    case SUBW(_, _, _) => Subw
    case SLLW(_, _, _) => Sllw
    case SRLW(_, _, _) => Srlw
    case SRAW(_, _, _) => Sraw
    case MULW(_, _, _) => Mulw
    case DIVW(_, _, _) => Divw
    case DIVUW(_, _, _) => Divuw
    case REMW(_, _, _) => Remw
    case REMUW(_, _, _) => Remuw
    case ADDI(_, _, _) => Addi
    case SLTI(_, _, _) => Slti
    case SLTIU(_, _, _) => Sltiu
    case XORI(_, _, _) => Xori
    case ORI(_, _, _) => Ori
    case ANDI(_, _, _) => Andi
    case SLLI(_, _, _) => Slli
    case SRLI(_, _, _) => Srli
    case SRAI(_, _, _) => Srai
    case ADDIW(_, _, _) => Addiw
    case SLLIW(_, _, _) => Slliw
    case SRLIW(_, _, _) => Srliw
    case SRAIW(_, _, _) => Sraiw
    case LB(_, _, _) => Lb
    case LH(_, _, _) => Lh
    case LW(_, _, _) => Lw
    case LBU(_, _, _) => Lbu
    case LHU(_, _, _) => Lhu
    case LD(_, _, _) => Ld
    case LWU(_, _, _) => Lwu
    case SB(_, _, _) => Sb
    case SH(_, _, _) => Sh
    case SW(_, _, _) => Sw
    case SD(_, _, _) => Sd
    case BEQ(_, _, _) => Beq
    case BNE(_, _, _) => Bne
    case BLT(_, _, _) => Blt
    case BGE(_, _, _) => Bge
    case BLTU(_, _, _) => Bltu
    case BGEU(_, _, _) => Bgeu
    case LUI(_, _) => Lui
    case AUIPC(_, _) => Auipc
    case JAL(_, _) => Jal
    case JALR(_, _, _) => Jalr
    case ECALL => Ecall
    case EBREAK => Ebreak
    case CSRRW(_, _, _) => Csrrw
    case CSRRS(_, _, _) => Csrrs
    case CSRRC(_, _, _) => Csrrc
    case CSRRWI(_, _, _) => Csrrwi
    case CSRRSI(_, _, _) => Csrrsi
    case CSRRCI(_, _, _) => Csrrci
  }

  /** The mnemonic of a decoding result, `None` for an error. */
  function Tag(r: Result<Instruction>): Option<Mnemonic> {
    if r.Ok? then Some(MnemonicOf(r.value)) else None
  }

  /** The instruction a word encodes, by mnemonic, as the opcode map of
      the RISC-V Unprivileged ISA (chapter 24, version 20191213) lists it
      for RV64IM and Zicsr: one row per major opcode, indexed by funct3
      and, where the map needs it, funct7. `None` for every unlisted
      encoding. */
  function Expected32(w: RawInstruction): Option<Mnemonic> {
    var op, f3, f7 := Opcode(w), Funct3(w), Funct7(w);
    if op == OP_REG then RegRow(f7, f3)
    else if op == OP_REG_32 then Reg32Row(f7, f3)
    // bit 30 tells SRAI from SRLI; the other upper bits are not examined
    else if op == OP_IMM then Some(ImmRow(f3, Field(w, 30, 1)))
    else if op == OP_IMM_32 then Imm32Row(f7, f3)
    else if op == OP_LOAD then LoadRow(f3)
    else if op == OP_STORE then StoreRow(f3)
    else if op == OP_BRANCH then BranchRow(f3)
    else if op == OP_LUI then Some(Lui)
    else if op == OP_AUIPC then Some(Auipc)
    else if op == OP_JAL then Some(Jal)
    else if op == OP_JALR then (if f3 == 0 then Some(Jalr) else None)
    else if op == OP_SYSTEM then SystemRow(f3, Field(w, 20, 12))
    else None
  }

  function RegRow(f7: nat, f3: nat): Option<Mnemonic>
    requires f3 < 8
  {
    if f7 == 0x00 then Some([Add, Sll, Slt, Sltu, Xor, Srl, Or, And][f3])
    else if f7 == 0x01 then Some([Mul, Mulh, Mulhsu, Mulhu, Div, Divu, Rem, Remu][f3])
    else if f7 == 0x20 then [Some(Sub), None, None, None, None, Some(Sra), None, None][f3]
    else None
  }

  function Reg32Row(f7: nat, f3: nat): Option<Mnemonic>
    requires f3 < 8
  {
    if f7 == 0x00 then [Some(Addw), Some(Sllw), None, None, None, Some(Srlw), None, None][f3]
    else if f7 == 0x01 then [Some(Mulw), None, None, None, Some(Divw), Some(Divuw), Some(Remw), Some(Remuw)][f3]
    else if f7 == 0x20 then [Some(Subw), None, None, None, None, Some(Sraw), None, None][f3]
    else None
  }

  function ImmRow(f3: nat, bit30: nat): Mnemonic
    requires f3 < 8
  {
    [Addi, Slli, Slti, Sltiu, Xori, if bit30 == 1 then Srai else Srli, Ori, Andi][f3]
  }

  function Imm32Row(f7: nat, f3: nat): Option<Mnemonic>
    requires f3 < 8
  {
    [Some(Addiw), Some(Slliw), None, None, None,
     if f7 == 0x00 then Some(Srliw) else if f7 == 0x20 then Some(Sraiw) else None,
     None, None][f3]
  }

  function LoadRow(f3: nat): Option<Mnemonic>
    requires f3 < 8
  {
    [Some(Lb), Some(Lh), Some(Lw), Some(Ld), Some(Lbu), Some(Lhu), Some(Lwu), None][f3]
  }

  function StoreRow(f3: nat): Option<Mnemonic>
    requires f3 < 8
  {
    [Some(Sb), Some(Sh), Some(Sw), Some(Sd), None, None, None, None][f3]
  }

  function BranchRow(f3: nat): Option<Mnemonic>
    requires f3 < 8
  {
    [Some(Beq), Some(Bne), None, None, Some(Blt), Some(Bge), Some(Bltu), Some(Bgeu)][f3]
  }

  /** SYSTEM with funct3 = 000 is told apart by its whole 12-bit field. */
  function SystemRow(f3: nat, funct12: nat): Option<Mnemonic>
    requires f3 < 8
  {
    if f3 == 0 then
      (if funct12 == 0 then Some(Ecall) else if funct12 == 1 then Some(Ebreak) else None)
    else [None, Some(Csrrw), Some(Csrrs), Some(Csrrc), None, Some(Csrrwi), Some(Csrrsi), Some(Csrrci)][f3]
  }

  /** Every word in the table decodes, every other word is rejected with
      the word itself as the error payload; no default instruction exists. */
  lemma DecodeAcceptsExactlyLegal(w: RawInstruction)
    ensures Decode(w).Ok? <==> Legal32(w)
    ensures !Legal32(w) ==> Decode(w) == Err(UnknownInstruction(w))
  {
  }

  /** The decoder picks the instruction the opcode map names: a word
      decodes exactly when the table lists it, and then to an instruction
      with that mnemonic. */
  lemma DecodeNamesInstruction(w: RawInstruction)
    ensures Expected32(w) == Tag(Decode(w))
  {
    var op := Opcode(w);
    if op == OP_REG || op == OP_REG_32 || op == OP_IMM || op == OP_IMM_32 {
      DecodeNamesArithmetic(w);
    } else if op == OP_LOAD || op == OP_STORE || op == OP_BRANCH || op == OP_JALR {
      DecodeNamesMemoryAndBranch(w);
    } else if op == OP_SYSTEM {
      DecodeNamesSystem(w);
    } else {
      DecodeNamesUpperAndJump(w);
    }
  }

  lemma DecodeNamesUpperAndJump(w: RawInstruction)
    requires Opcode(w) != OP_REG && Opcode(w) != OP_REG_32 && Opcode(w) != OP_IMM && Opcode(w) != OP_IMM_32
    requires Opcode(w) != OP_LOAD && Opcode(w) != OP_STORE && Opcode(w) != OP_BRANCH && Opcode(w) != OP_JALR
    requires Opcode(w) != OP_SYSTEM
    ensures Expected32(w) == Tag(Decode(w))
  {
    DecodeDispatch(w);
    var op := Opcode(w);
    if op == OP_LUI {
      assert MnemonicOf(LUI(Rd(w), ImmU(w))) == Lui;
    } else if op == OP_AUIPC {
      assert MnemonicOf(AUIPC(Rd(w), ImmU(w))) == Auipc;
    } else if op == OP_JAL {
      assert MnemonicOf(JAL(Rd(w), ImmJ(w))) == Jal;
    } else {
      assert !MajorOpcode(op);
    }
  }

  lemma DecodeNamesArithmetic(w: RawInstruction)
    requires Opcode(w) == OP_REG || Opcode(w) == OP_REG_32 || Opcode(w) == OP_IMM || Opcode(w) == OP_IMM_32
    ensures Expected32(w) == Tag(Decode(w))
  {
    DecodeDispatch(w);
    var op, f3 := Opcode(w), Funct3(w);
    if op == OP_REG {
      RegRowNames(w);
    } else if op == OP_REG_32 {
      if f3 < 4 {
        Reg32RowNamesLow(w);
      } else {
        Reg32RowNamesHigh(w);
      }
    } else if op == OP_IMM {
      if f3 < 4 {
        ImmRowNamesLow(w);
      } else {
        ImmRowNamesHigh(w);
      }
    } else if op == OP_IMM_32 {
      Imm32RowNames(w);
    }
  }

  lemma DecodeNamesMemoryAndBranch(w: RawInstruction)
    requires Opcode(w) == OP_LOAD || Opcode(w) == OP_STORE || Opcode(w) == OP_BRANCH || Opcode(w) == OP_JALR
    ensures Expected32(w) == Tag(Decode(w))
  {
    DecodeDispatch(w);
    var op, f3 := Opcode(w), Funct3(w);
    if op == OP_LOAD {
      if f3 < 4 {
        LoadRowNamesLow(w);
      } else {
        LoadRowNamesHigh(w);
      }
    } else if op == OP_STORE {
      if f3 < 4 {
        StoreRowNamesLow(w);
      } else {
        StoreRowNamesHigh(w);
      }
    } else if op == OP_BRANCH {
      if f3 < 4 {
        BranchRowNamesLow(w);
      } else {
        BranchRowNamesHigh(w);
      }
    } else if op == OP_JALR {
      JalrRowNames(w);
    }
  }

  lemma DecodeNamesSystem(w: RawInstruction)
    requires Opcode(w) == OP_SYSTEM
    ensures Expected32(w) == Tag(Decode(w))
  {
    DecodeDispatch(w);
    var f3 := Funct3(w);
    if f3 == 0 {
      SystemRowNamesEnvironment(w);
    } else if f3 < 4 {
      SystemRowNamesRegister(w);
    } else {
      SystemRowNamesImmediate(w);
    }
  }

  /** The twelve major opcodes of RV64IM and Zicsr. */
  predicate MajorOpcode(op: nat) {
    || op == OP_REG || op == OP_REG_32 || op == OP_IMM || op == OP_IMM_32
    || op == OP_LOAD || op == OP_STORE || op == OP_BRANCH
    || op == OP_LUI || op == OP_AUIPC || op == OP_JAL || op == OP_JALR || op == OP_SYSTEM
  }

  /** Both `Decode` and `Expected32` select by the major opcode alone. */
  lemma DecodeDispatch(w: RawInstruction)
    ensures Opcode(w) == OP_REG ==> Decode(w) == DecodeReg(w) && Expected32(w) == RegRow(Funct7(w), Funct3(w))
    ensures Opcode(w) == OP_REG_32 ==> Decode(w) == DecodeReg32(w) && Expected32(w) == Reg32Row(Funct7(w), Funct3(w))
    ensures Opcode(w) == OP_IMM ==> Decode(w) == DecodeImm(w) && Expected32(w) == Some(ImmRow(Funct3(w), Field(w, 30, 1)))
    ensures Opcode(w) == OP_IMM_32 ==> Decode(w) == DecodeImm32(w) && Expected32(w) == Imm32Row(Funct7(w), Funct3(w))
    ensures Opcode(w) == OP_LOAD ==> Decode(w) == DecodeLoad(w) && Expected32(w) == LoadRow(Funct3(w))
    ensures Opcode(w) == OP_STORE ==> Decode(w) == DecodeStore(w) && Expected32(w) == StoreRow(Funct3(w))
    ensures Opcode(w) == OP_BRANCH ==> Decode(w) == DecodeBranch(w) && Expected32(w) == BranchRow(Funct3(w))
    ensures Opcode(w) == OP_JALR ==> Decode(w) == DecodeJalr(w) && Expected32(w) == (if Funct3(w) == 0 then Some(Jalr) else None)
    ensures Opcode(w) == OP_SYSTEM ==> Decode(w) == DecodeSystem(w) && Expected32(w) == SystemRow(Funct3(w), Field(w, 20, 12))
    ensures Opcode(w) == OP_LUI ==> Decode(w) == Ok(LUI(Rd(w), ImmU(w))) && Expected32(w) == Some(Lui)
    ensures Opcode(w) == OP_AUIPC ==> Decode(w) == Ok(AUIPC(Rd(w), ImmU(w))) && Expected32(w) == Some(Auipc)
    ensures Opcode(w) == OP_JAL ==> Decode(w) == Ok(JAL(Rd(w), ImmJ(w))) && Expected32(w) == Some(Jal)
    ensures !MajorOpcode(Opcode(w)) ==>
              Decode(w).Err? && Expected32(w) == None
  {
  }

  // Each row of the table against the decoder for its opcode, split by
  // funct3 to keep every proof small.

  lemma RegRowNames(w: RawInstruction)
    ensures RegRow(Funct7(w), Funct3(w)) == Tag(DecodeReg(w))
  {
  }

  lemma Reg32RowNamesLow(w: RawInstruction)
    requires Funct3(w) < 4
    ensures Reg32Row(Funct7(w), Funct3(w)) == Tag(DecodeReg32(w))
  {
  }

  lemma Reg32RowNamesHigh(w: RawInstruction)
    requires Funct3(w) >= 4
    ensures Reg32Row(Funct7(w), Funct3(w)) == Tag(DecodeReg32(w))
  {
  }

  lemma ImmRowNamesLow(w: RawInstruction)
    requires Funct3(w) < 4
    ensures Some(ImmRow(Funct3(w), Field(w, 30, 1))) == Tag(DecodeImm(w))
  {
  }

  lemma ImmRowNamesHigh(w: RawInstruction)
    requires Funct3(w) >= 4
    ensures Some(ImmRow(Funct3(w), Field(w, 30, 1))) == Tag(DecodeImm(w))
  {
    ImmIBit10(w);
  }

  lemma Imm32RowNames(w: RawInstruction)
    ensures Imm32Row(Funct7(w), Funct3(w)) == Tag(DecodeImm32(w))
  {
  }

  lemma LoadRowNamesLow(w: RawInstruction)
    requires Funct3(w) < 4
    ensures LoadRow(Funct3(w)) == Tag(DecodeLoad(w))
  {
  }

  lemma LoadRowNamesHigh(w: RawInstruction)
    requires Funct3(w) >= 4
    ensures LoadRow(Funct3(w)) == Tag(DecodeLoad(w))
  {
  }

  lemma StoreRowNamesLow(w: RawInstruction)
    requires Funct3(w) < 4
    ensures StoreRow(Funct3(w)) == Tag(DecodeStore(w))
  {
  }

  lemma StoreRowNamesHigh(w: RawInstruction)
    requires Funct3(w) >= 4
    ensures StoreRow(Funct3(w)) == Tag(DecodeStore(w))
  {
  }

  lemma BranchRowNamesLow(w: RawInstruction)
    requires Funct3(w) < 4
    ensures BranchRow(Funct3(w)) == Tag(DecodeBranch(w))
  {
  }

  lemma BranchRowNamesHigh(w: RawInstruction)
    requires Funct3(w) >= 4
    ensures BranchRow(Funct3(w)) == Tag(DecodeBranch(w))
  {
  }

  lemma JalrRowNames(w: RawInstruction)
    ensures (if Funct3(w) == 0 then Some(Jalr) else None) == Tag(DecodeJalr(w))
  {
  }

  lemma SystemRowNamesEnvironment(w: RawInstruction)
    requires Funct3(w) == 0
    ensures SystemRow(Funct3(w), Field(w, 20, 12)) == Tag(DecodeSystem(w))
  {
  }

  lemma SystemRowNamesRegister(w: RawInstruction)
    requires 0 < Funct3(w) < 4
    ensures SystemRow(Funct3(w), Field(w, 20, 12)) == Tag(DecodeSystem(w))
  {
  }

  lemma SystemRowNamesImmediate(w: RawInstruction)
    requires Funct3(w) >= 4
    ensures SystemRow(Funct3(w), Field(w, 20, 12)) == Tag(DecodeSystem(w))
  {
  }

  /** The I-type immediate `(w as i32) >> 20` is bits 31:20 sign-extended
      from bit 31, hence within [-2048, 2047]. */
  lemma ImmIIsSignExtendedField(w: RawInstruction)
    ensures ImmI(w) == SignExtend(Field(w, 20, 12), 12)
    ensures -2048 <= ImmI(w) <= 2047
  {
  }

  /** The sign of the word read as i32: -1 when bit 31 is set, else 0. This
      is how the ISA describes the upper immediate bits ("inst[31]"). */
  function Sign(w: RawInstruction): (r: int)
    ensures r == -1 <==> w >= 0x8000_0000
    ensures r == 0 <==> w < 0x8000_0000
  {
    Signed32(w) / 0x8000_0000
  }

  /** The S-type offset is the arithmetic shift of the word by 25, which
      supplies imm[11:5] with the sign, joined to imm[4:0] = bits 11:7. */
  lemma ImmSIsSplitField(w: RawInstruction)
    ensures ImmS(w) == (Signed32(w) / 0x200_0000) * 0x20 + Field(w, 7, 5)
    ensures -2048 <= ImmS(w) <= 2047
  {
  }

  /** The B-type offset weighs each instruction bit as section 2.3 places
      it, is even and lies in [-4096, 4094]. */
  lemma ImmBIsBranchOffset(w: RawInstruction)
    ensures ImmB(w) == Sign(w) * 0x1000 + Field(w, 7, 1) * 0x800 + Field(w, 25, 6) * 0x20 + Field(w, 8, 4) * 2
    ensures ImmB(w) % 2 == 0
    ensures -4096 <= ImmB(w) <= 4094
  {
  }

  /** The J-type offset weighs each instruction bit as section 2.3 places
      it, is even and lies in [-2^20, 2^20 - 2]. */
  lemma ImmJIsJumpOffset(w: RawInstruction)
    ensures ImmJ(w) == Sign(w) * 0x10_0000 + Field(w, 12, 8) * 0x1000 + Field(w, 20, 1) * 0x800 + Field(w, 21, 10) * 2
    ensures ImmJ(w) % 2 == 0
    ensures -0x10_0000 <= ImmJ(w) <= 0x10_0000 - 2
  {
  }

  /** The U-type immediate is the word read as i32 with its low 12 bits
      cleared: a multiple of 4096 equal to bits 31:12 sign-extended. */
  lemma ImmUIsUpperBits(w: RawInstruction)
    ensures ImmU(w) == Signed32(w) - Field(w, 0, 12)
    ensures ImmU(w) % 0x1000 == 0
    ensures ImmU(w) == SignExtend(Field(w, 12, 20), 20) * 0x1000
  {
  }

  /** OP and OP-32 instructions take rd, rs1 and rs2 from bits 11:7, 19:15
      and 24:20. */
  lemma DecodeRegisterOperands(w: RawInstruction)
    requires Opcode(w) == OP_REG || Opcode(w) == OP_REG_32
    requires Decode(w).Ok?
    ensures var i := Decode(w).value;
      && (if Opcode(w) == OP_REG then i.IsRegReg() else i.IsRegRegWord())
      && Expected32(w) == Some(MnemonicOf(i))
      && i.rd == Field(w, 7, 5) && i.rs1 == Field(w, 15, 5) && i.rs2 == Field(w, 20, 5)
  {
    DecodeNamesInstruction(w);
  }

  /** Loads and JALR carry the I-type immediate as their offset. */
  lemma DecodeLoadJalrOperands(w: RawInstruction)
    requires Opcode(w) == OP_LOAD || Opcode(w) == OP_JALR
    requires Decode(w).Ok?
    ensures var i := Decode(w).value;
      && (i.IsLoad() || i.JALR?)
      && Expected32(w) == Some(MnemonicOf(i))
      && i.rd == Field(w, 7, 5) && i.rs1 == Field(w, 15, 5)
      && i.offset == SignExtend(Field(w, 20, 12), 12)
  {
    DecodeNamesInstruction(w);
    ImmIIsSignExtendedField(w);
  }

  /** The non-shift OP-IMM / OP-IMM-32 instructions carry the I-type
      immediate. */
  lemma DecodeImmediateOperands(w: RawInstruction)
    requires (Opcode(w) == OP_IMM && Funct3(w) != 1 && Funct3(w) != 5)
             || (Opcode(w) == OP_IMM_32 && Funct3(w) == 0)
    requires Decode(w).Ok?
    ensures var i := Decode(w).value;
      && (i.IsRegImm() || i.ADDIW?)
      && Expected32(w) == Some(MnemonicOf(i))
      && i.rd == Field(w, 7, 5) && i.rs1 == Field(w, 15, 5)
      && i.imm == SignExtend(Field(w, 20, 12), 12)
  {
    DecodeNamesInstruction(w);
    ImmIIsSignExtendedField(w);
  }

  /** Stores carry rs1, rs2 and the S-type offset. */
  lemma DecodeStoreOperands(w: RawInstruction)
    requires Opcode(w) == OP_STORE && Decode(w).Ok?
    ensures var i := Decode(w).value;
      && i.IsStore() && Expected32(w) == Some(MnemonicOf(i))
      && i.rs1 == Field(w, 15, 5) && i.rs2 == Field(w, 20, 5)
      && i.offset == (Signed32(w) / 0x200_0000) * 0x20 + Field(w, 7, 5)
  {
    DecodeNamesInstruction(w);
    ImmSIsSplitField(w);
  }

  /** Branches carry rs1, rs2 and the B-type offset: an even value within
      [-4096, 4094] assembled from the scattered immediate bits. */
  lemma DecodeBranchOperands(w: RawInstruction)
    requires Opcode(w) == OP_BRANCH && Decode(w).Ok?
    ensures var i := Decode(w).value;
      && i.IsBranch() && Expected32(w) == Some(MnemonicOf(i))
      && i.rs1 == Field(w, 15, 5) && i.rs2 == Field(w, 20, 5)
      && i.offset == Sign(w) * 0x1000 + Field(w, 7, 1) * 0x800 + Field(w, 25, 6) * 0x20 + Field(w, 8, 4) * 2
      && i.offset % 2 == 0 && -4096 <= i.offset <= 4094
  {
    DecodeNamesInstruction(w);
    ImmBIsBranchOffset(w);
  }

  /** LUI and AUIPC always decode, with a multiple of 4096 as immediate;
      JAL always decodes, with the J-type offset: an even value within
      [-2^20, 2^20 - 2] assembled from the scattered immediate bits. */
  lemma DecodeUpperAndJump(w: RawInstruction)
    requires Opcode(w) == OP_LUI || Opcode(w) == OP_AUIPC || Opcode(w) == OP_JAL
    ensures Decode(w).Ok?
    ensures var i := Decode(w).value;
      && i.rd == Field(w, 7, 5)
      && (Opcode(w) == OP_LUI ==> i.LUI? && i.imm == Signed32(w) - Field(w, 0, 12))
      && (Opcode(w) == OP_AUIPC ==> i.AUIPC? && i.imm == Signed32(w) - Field(w, 0, 12))
      && (Opcode(w) == OP_JAL ==> i.JAL? && i.offset % 2 == 0 && -0x10_0000 <= i.offset <= 0x10_0000 - 2)
      && (Opcode(w) == OP_JAL ==>
            i.offset == Sign(w) * 0x10_0000 + Field(w, 12, 8) * 0x1000 + Field(w, 20, 1) * 0x800 + Field(w, 21, 10) * 2)
      && Expected32(w) == Some(MnemonicOf(i))
  {
    ImmUIsUpperBits(w);
    ImmJIsJumpOffset(w);
  }

  /** Bit 10 of the I-type immediate, read as the source does through the
      64-bit pattern, is instruction bit 30. */
  lemma ImmIBit10(w: RawInstruction)
    ensures Field(ToU64(ImmI(w)), 10, 1) == Field(w, 30, 1)
  {
    ImmIIsSignExtendedField(w);
    var f := Field(w, 20, 12);
    assert f == w / 0x10_0000;
    assert Field(w, 30, 1) == (f / 0x400) % 2;
    if f < 0x800 {
      assert ToU64(ImmI(w)) == f;
    } else {
      assert ToU64(ImmI(w)) == TWO_64 - 0x1000 + f;
      assert (TWO_64 - 0x1000 + f) / 0x400 == TWO_64 / 0x400 - 4 + f / 0x400;
    }
  }

  /** OP-IMM funct3 = 001 is SLLI and funct3 = 101 is SRAI exactly when
      bit 30 is set, SRLI otherwise; the shift amount is the 6-bit field at
      bits 25:20. */
  lemma DecodeShiftImmediate(w: RawInstruction)
    requires Opcode(w) == OP_IMM && (Funct3(w) == 1 || Funct3(w) == 5)
    ensures Decode(w).Ok?
    ensures var i := Decode(w).value;
      && (Funct3(w) == 1 ==> i.SLLI?)
      && (Funct3(w) == 5 ==> (i.SRAI? <==> Field(w, 30, 1) == 1) && (i.SRLI? <==> Field(w, 30, 1) == 0))
      && i.rd == Field(w, 7, 5) && i.rs1 == Field(w, 15, 5) && i.shamt == Field(w, 20, 6)
  {
    ImmIBit10(w);
  }

  /** OP-IMM-32 funct3 = 101 decodes only with funct7 0000000 (SRLIW) or
      0100000 (SRAIW); the shift amount is the 5-bit field at bits 24:20. */
  lemma DecodeShiftImmediateWord(w: RawInstruction)
    requires Opcode(w) == OP_IMM_32 && (Funct3(w) == 1 || Funct3(w) == 5)
    ensures Decode(w).Ok? <==> Funct3(w) == 1 || Funct7(w) == 0x00 || Funct7(w) == 0x20
    ensures Decode(w).Ok? ==> var i := Decode(w).value;
      && (i.SLLIW? <==> Funct3(w) == 1)
      && (i.SRAIW? <==> Funct3(w) == 5 && Funct7(w) == 0x20)
      && i.rd == Field(w, 7, 5) && i.rs1 == Field(w, 15, 5) && i.wshamt == Field(w, 20, 5)
  {
  }

  /** SYSTEM: funct3 = 000 is ECALL or EBREAK for a 12-bit field of 0 or 1
      and an error otherwise; the six Zicsr forms take the CSR address from
      bits 31:20 and, for the immediate forms, the operand from bits 19:15. */
  lemma DecodeSystemOperands(w: RawInstruction)
    requires Opcode(w) == OP_SYSTEM
    ensures Funct3(w) == 0 ==>
      && (Decode(w) == Ok(ECALL) <==> Field(w, 20, 12) == 0)
      && (Decode(w) == Ok(EBREAK) <==> Field(w, 20, 12) == 1)
      && (Decode(w).Err? <==> Field(w, 20, 12) > 1)
    ensures Funct3(w) == 4 ==> Decode(w).Err?
    ensures Funct3(w) != 0 && Funct3(w) != 4 ==>
      && Decode(w).Ok?
      && var i := Decode(w).value;
      && (i.IsCsrReg() <==> Funct3(w) < 4)
      && (i.IsCsrImm() <==> Funct3(w) > 4)
      && i.rd == Field(w, 7, 5) && i.csr == Field(w, 20, 12)
      && (i.IsCsrReg() ==> i.rs1 == Field(w, 15, 5))
      && (i.IsCsrImm() ==> i.uimm == Field(w, 15, 5))
      && Expected32(w) == Some(MnemonicOf(i))
  {
    DecodeNamesInstruction(w);
  }
}
