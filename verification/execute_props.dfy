/**
 * What one `execute` step promises, stated on the value model of
 * `Semantics`: where the pc goes (including the fall-through when an
 * instruction jumps to itself), what the Zicsr instructions read and
 * write, when a load or store fails, what a word operation's result looks
 * like, and which parts of the machine each kind of instruction leaves
 * alone.
 */
module ExecuteProperties {
  import opened Types
  import opened Bits
  import opened Instructions
  import opened Alu
  import opened ByteMemory
  import opened SystemBus
  import opened CsrBank
  import opened Semantics

  // ---- the pc and the frame ----

  /** A step fails exactly when a load or store addresses memory below the
      window, with that address in the error. Only stores write memory,
      only Zicsr instructions write the CSR bank, and every instruction but
      a branch or jump leaves the pc at next_pc. */
  lemma ExecuteFrames(s: State, ctx: InstructionContext)
    requires s.Valid() && MemoryOk(s, ctx.instruction)
    ensures var r := Execute(s, ctx);
      (r.Err? <==> IsMemoryAccess(ctx.instruction) && AccessAddress(s, ctx.instruction) < MEMORY_BASE) &&
      (r.Err? ==> r.error == InvalidMemoryAccess(AccessAddress(s, ctx.instruction))) &&
      (r.Ok? && !ctx.instruction.IsStore() ==> r.value.mem == s.mem) &&
      (r.Ok? && !IsCsrAccess(ctx.instruction) ==> r.value.csrs == s.csrs) &&
      (r.Ok? && !IsControlTransfer(ctx.instruction) ==> r.value.pc == ctx.nextPc)
  {
  }

  /** A branch changes nothing but the pc: taken, it goes to pc + offset;
      not taken, to next_pc. */
  lemma BranchOutcome(s: State, ctx: InstructionContext)
    requires s.Valid() && ctx.instruction.IsBranch()
    ensures var inst := ctx.instruction;
      var taken := BranchCondition(inst)(ReadReg(s.regs, inst.rs1), ReadReg(s.regs, inst.rs2));
      var target := Add(s.pc, ImmToU64(inst.offset));
      Execute(s, ctx) == Ok(s.(pc := if taken && target != s.pc then target else ctx.nextPc))
  {
    var inst := ctx.instruction;
    assert inst.Kind() == BranchKind;
  }

  /** BEQ's condition is equality, BLT's the signed and BLTU's the unsigned
      order, and BNE, BGE and BGEU take exactly when their partners do
      not. */
  lemma BranchConditions(inst: Instruction, a: u64, b: u64)
    requires inst.IsBranch()
    ensures inst.BEQ? ==> (BranchCondition(inst)(a, b) <==> a == b)
    ensures inst.BNE? ==> (BranchCondition(inst)(a, b) <==> a != b)
    ensures inst.BLT? ==> (BranchCondition(inst)(a, b) <==> Signed64(a) < Signed64(b))
    ensures inst.BGE? ==> (BranchCondition(inst)(a, b) <==> !(Signed64(a) < Signed64(b)))
    ensures inst.BLTU? ==> (BranchCondition(inst)(a, b) <==> a < b)
    ensures inst.BGEU? ==> (BranchCondition(inst)(a, b) <==> !(a < b))
  {
  }

  /** JAL links next_pc into rd and jumps to pc + offset. */
  lemma JalLinks(s: State, ctx: InstructionContext)
    requires s.Valid() && ctx.instruction.JAL?
    ensures var target := Add(s.pc, ImmToU64(ctx.instruction.offset));
      Execute(s, ctx) == Ok(s.(regs := WriteReg(s.regs, ctx.instruction.rd, ctx.nextPc),
                                pc := if target != s.pc then target else ctx.nextPc))
  {
    assert ctx.instruction.Kind() == JumpKind;
  }

  /** JALR links next_pc into rd and jumps to rs1 + offset with bit 0
      cleared; the target is computed from rs1 before rd is written, so
      rd == rs1 jumps through the old value. The target is always even. */
  lemma JalrLinks(s: State, ctx: InstructionContext)
    requires s.Valid() && ctx.instruction.JALR?
    ensures var inst := ctx.instruction;
      var sum := Add(ReadReg(s.regs, inst.rs1), ImmToU64(inst.offset));
      var target := sum - sum % 2;
      Execute(s, ctx) == Ok(s.(regs := WriteReg(s.regs, inst.rd, ctx.nextPc),
                                pc := if target != s.pc then target else ctx.nextPc))
  {
    JalrPerforms(s, ctx);
  }

  /** The arm `execute` takes for JALR: a jump to the sum with bit 0
      cleared. */
  lemma JalrPerforms(s: State, ctx: InstructionContext)
    requires s.Valid() && ctx.instruction.JALR?
    ensures var inst := ctx.instruction;
      var sum := Add(ReadReg(s.regs, inst.rs1), ImmToU64(inst.offset));
      Perform(s, ctx) == Ok(Jump(s, ctx.nextPc, inst.rd, sum - sum % 2))
  {
    var inst := ctx.instruction;
    assert inst.Kind() == JumpRegisterKind;
    ClearLowBit(Add(ReadReg(s.regs, inst.rs1), ImmToU64(inst.offset)));
  }

  /** The pc update compares the pc before and after, so an instruction
      that jumps to its own address is indistinguishable from one that did
      not jump: `jal rd, 0` (an infinite loop on RISC-V) moves on to
      next_pc, still linking next_pc into rd. */
  lemma SelfJumpFallsThrough(s: State, rd: RegIdx, nextPc: u64)
    requires s.Valid()
    ensures Execute(s, InstructionContext(JAL(rd, 0), nextPc))
         == Ok(s.(regs := WriteReg(s.regs, rd, nextPc), pc := nextPc))
  {
    assert JAL(rd, 0).Kind() == JumpKind;
    JalLinks(s, InstructionContext(JAL(rd, 0), nextPc));
    assert Add(s.pc, ImmToU64(0)) == s.pc;
  }

  /** A taken branch with offset zero falls through in the same way. */
  lemma SelfBranchFallsThrough(s: State, rs: RegIdx, nextPc: u64)
    requires s.Valid()
    ensures Execute(s, InstructionContext(BEQ(rs, rs, 0), nextPc)) == Ok(s.(pc := nextPc))
  {
    BranchOutcome(s, InstructionContext(BEQ(rs, rs, 0), nextPc));
  }

  /** ECALL and EBREAK only move the pc on. */
  lemma SystemIsNoOp(s: State, ctx: InstructionContext)
    requires s.Valid() && (ctx.instruction.ECALL? || ctx.instruction.EBREAK?)
    ensures Execute(s, ctx) == Ok(s.(pc := ctx.nextPc))
  {
    if ctx.instruction.ECALL? {
      assert ctx.instruction.Kind() == SystemKind;
    } else {
      assert ctx.instruction.Kind() == SystemKind;
    }
  }

  // ---- Zicsr ----

  /** A Zicsr instruction never fails (every 12-bit address is in the bank):
      a step is its arm of `execute` followed by pc := next_pc. */
  lemma CsrNeverFails(s: State, ctx: InstructionContext)
    requires s.Valid() && IsCsrAccess(ctx.instruction)
    ensures PerformCsr(s, ctx.instruction).Ok?
    ensures Execute(s, ctx) == Ok(PerformCsr(s, ctx.instruction).value.(pc := ctx.nextPc))
  {
  }

  /** CSRRW and CSRRWI return the CSR's old value in rd (x0 drops it) and
      store the source, whatever rd is: the read is skipped for x0, the
      write never is. rd == rs1 stores the old rs1. */
  lemma CsrSwap(s: State, inst: Instruction)
    requires s.Valid() && (inst.CSRRW? || inst.CSRRWI?)
    ensures var src := if inst.CSRRW? then ReadReg(s.regs, inst.rs1) else inst.uimm;
      PerformCsr(s, inst) == Ok(s.(regs := WriteReg(s.regs, inst.rd, s.csrs[inst.csr]),
                                   csrs := s.csrs[inst.csr := src]))
  {
  }

  /** CSRRS and CSRRSI return the CSR's old value in rd and set the
      source's bits in it; with x0 or a zero immediate as the source they
      do not write the CSR at all. */
  lemma CsrSet(s: State, inst: Instruction)
    requires s.Valid() && (inst.CSRRS? || inst.CSRRSI?)
    ensures var src := if inst.CSRRS? then ReadReg(s.regs, inst.rs1) else inst.uimm;
      var skip := if inst.CSRRS? then inst.rs1 == 0 else inst.uimm == 0;
      PerformCsr(s, inst) == Ok(s.(regs := WriteReg(s.regs, inst.rd, s.csrs[inst.csr]),
                                   csrs := if skip then s.csrs else s.csrs[inst.csr := SetBits(s.csrs[inst.csr], src)]))
  {
  }

  /** CSRRC and CSRRCI return the CSR's old value in rd and clear the
      source's bits in it; with x0 or a zero immediate as the source they
      do not write the CSR at all. */
  lemma CsrClear(s: State, inst: Instruction)
    requires s.Valid() && (inst.CSRRC? || inst.CSRRCI?)
    ensures var src := if inst.CSRRC? then ReadReg(s.regs, inst.rs1) else inst.uimm;
      var skip := if inst.CSRRC? then inst.rs1 == 0 else inst.uimm == 0;
      PerformCsr(s, inst) == Ok(s.(regs := WriteReg(s.regs, inst.rd, s.csrs[inst.csr]),
                                   csrs := if skip then s.csrs else s.csrs[inst.csr := ClearBits(s.csrs[inst.csr], src)]))
  {
  }

  /** `csrr rd, csr` (CSRRS with x0 as source) is a pure read: the bank is
      untouched and only rd and pc change. */
  lemma CsrReadIsPure(s: State, rd: RegIdx, csr: CsrAddr, nextPc: u64)
    requires s.Valid()
    ensures Execute(s, InstructionContext(CSRRS(rd, 0, csr), nextPc))
         == Ok(s.(regs := WriteReg(s.regs, rd, s.csrs[csr]), pc := nextPc))
  {
    CsrNeverFails(s, InstructionContext(CSRRS(rd, 0, csr), nextPc));
    CsrSet(s, CSRRS(rd, 0, csr));
  }

  /** Skipping the write for x0 or a zero immediate cannot be observed:
      the bank ends exactly as if the source value, 0, had been set or
      cleared in the CSR. */
  lemma SkippedCsrWriteIsUnobservable(s: State, inst: Instruction)
    requires s.Valid()
    requires || ((inst.CSRRS? || inst.CSRRC?) && inst.rs1 == 0)
             || ((inst.CSRRSI? || inst.CSRRCI?) && inst.uimm == 0)
    ensures var prev := s.csrs[inst.csr];
      var written := if inst.CSRRS? || inst.CSRRSI? then SetBits(prev, 0) else ClearBits(prev, 0);
      PerformCsr(s, inst) == Ok(s.(regs := WriteReg(s.regs, inst.rd, prev),
                                   csrs := s.csrs[inst.csr := written]))
  {
    var prev := s.csrs[inst.csr];
    if inst.CSRRS? || inst.CSRRSI? {
      CsrSet(s, inst);
      SetNoBits(prev);
    } else {
      CsrClear(s, inst);
      ClearNoBits(prev);
    }
    assert s.csrs[inst.csr := prev] == s.csrs;
  }

  /** Repeating a CSRRS or CSRRSI whose source it does not overwrite leaves
      the bank as the first one did. */
  lemma CsrSetRepeated(s: State, inst: Instruction)
    requires s.Valid()
    requires inst.CSRRSI? || (inst.CSRRS? && inst.rs1 != inst.rd)
    ensures var once := PerformCsr(s, inst).value;
      PerformCsr(once, inst).value.csrs == once.csrs
  {
    var once := PerformCsr(s, inst).value;
    CsrSet(s, inst);
    CsrSet(once, inst);
    var src := if inst.CSRRS? then ReadReg(s.regs, inst.rs1) else inst.uimm;
    assert src == if inst.CSRRS? then ReadReg(once.regs, inst.rs1) else inst.uimm;
    SetBitsIdempotent(s.csrs[inst.csr], src);
  }

  // ---- loads and stores ----

  /** A load or store step is its arm of `execute`, followed by
      pc := next_pc when it succeeds. */
  lemma MemoryStep(s: State, ctx: InstructionContext)
    requires s.Valid() && IsMemoryAccess(ctx.instruction) && MemoryOk(s, ctx.instruction)
    ensures var r := PerformMemory(s, ctx.instruction);
      Execute(s, ctx) == if r.Err? then Err(r.error) else Ok(r.value.(pc := ctx.nextPc))
  {
  }

  /** A load reads `LoadWidth` bytes at rs1 + offset and writes them,
      extended as its opcode says, to rd; below the memory window it fails
      with the address and writes nothing. */
  lemma LoadSemantics(s: State, inst: Instruction)
    requires s.Valid() && inst.IsLoad() && MemoryOk(s, inst)
    ensures var addr := AccessAddress(s, inst);
      PerformMemory(s, inst) ==
        if addr < MEMORY_BASE then Err(InvalidMemoryAccess(addr))
        else Ok(s.(regs := WriteReg(s.regs, inst.rd, LoadExtension(inst)(Load(s.mem, addr, LoadWidth(inst)).value))))
  {
  }

  /** A store writes the low `StoreWidth` bytes of rs2 at rs1 + offset;
      below the memory window it fails with the address and writes
      nothing. */
  lemma StoreSemantics(s: State, inst: Instruction)
    requires s.Valid() && inst.IsStore() && MemoryOk(s, inst)
    ensures var addr := AccessAddress(s, inst);
      PerformMemory(s, inst) ==
        if addr < MEMORY_BASE then Err(InvalidMemoryAccess(addr))
        else Ok(s.(mem := Store(s.mem, addr, ReadReg(s.regs, inst.rs2), StoreWidth(inst)).value))
  {
  }

  /** A load after a successful store of the same width at the same
      address (same base register and offset) reads back the stored low
      bytes of rs2, extended as the load's opcode says. */
  lemma StoreThenLoadSameWidth(s: State, t: State, st: Instruction, ld: Instruction)
    requires s.Valid() && st.IsStore() && ld.IsLoad() && ld.rd != 0
    requires st.rs1 == ld.rs1 && st.offset == ld.offset && StoreWidth(st) == LoadWidth(ld)
    requires MemoryOk(s, st) && PerformMemory(s, st) == Ok(t)
    ensures t.Valid() && MemoryOk(t, ld)
    ensures PerformMemory(t, ld)
      == Ok(t.(regs := WriteReg(t.regs, ld.rd, LoadExtension(ld)(LowBytes(ReadReg(s.regs, st.rs2), StoreWidth(st))))))
  {
    var addr, v, w := AccessAddress(s, st), ReadReg(s.regs, st.rs2), StoreWidth(st);
    StoreSemantics(s, st);
    StoreThenLoad(s.mem, addr, v, w);
    assert AccessAddress(t, ld) == addr;
    LoadSemantics(t, ld);
  }

  /** In particular a doubleword stored with SD is read back unchanged by
      an LD from the same address. */
  lemma StoreThenLoadDoubleword(s: State, base: RegIdx, src: RegIdx, dst: RegIdx, offset: Imm)
    requires s.Valid() && dst != 0
    requires MemoryOk(s, SD(base, src, offset))
    requires PerformMemory(s, SD(base, src, offset)).Ok?
    ensures var t := PerformMemory(s, SD(base, src, offset)).value;
      MemoryOk(t, LD(dst, base, offset)) &&
      PerformMemory(t, LD(dst, base, offset)).Ok? &&
      ReadReg(PerformMemory(t, LD(dst, base, offset)).value.regs, dst) == ReadReg(s.regs, src)
  {
    var t := PerformMemory(s, SD(base, src, offset)).value;
    StoreThenLoadSameWidth(s, t, SD(base, src, offset), LD(dst, base, offset));
    LowBytesWhole(ReadReg(s.regs, src));
  }

  // ---- register operations ----

  /** A register-register or register-immediate step is its arm of
      `execute` followed by pc := next_pc; it never fails. */
  lemma ComputationalStep(s: State, ctx: InstructionContext)
    requires s.Valid() && IsComputational(ctx.instruction)
    ensures Execute(s, ctx) == Ok(PerformComputational(s, ctx.instruction).(pc := ctx.nextPc))
  {
  }

  /** The 32-bit result a word operation computes from the low halves of
      its sources. */
  function WordResult(s: State, inst: Instruction): i32
    requires s.Valid() && inst.IsWordOp()
  {
    var a := Low32(ReadReg(s.regs, inst.rs1));
    if inst.IsRegRegWord() then RegRegWordOp(inst)(a, Low32(ReadReg(s.regs, inst.rs2)))
    else if inst.ADDIW? then AddW(a, ImmToI32(inst.imm))
    else ShiftImmWordOp(inst)(a, ImmToI32(inst.wshamt))
  }

  /** A word operation writes its 32-bit result, sign-extended, to rd. */
  lemma WordStep(s: State, inst: Instruction)
    requires s.Valid() && inst.IsWordOp()
    ensures PerformComputational(s, inst).regs == WriteReg(s.regs, inst.rd, SignExtend32(WordResult(s, inst)))
  {
  }

  /** A word operation writes a value whose bits 63:31 are all copies of
      bit 31. */
  lemma WordResultSignExtended(s: State, inst: Instruction)
    requires s.Valid() && inst.IsWordOp()
    ensures IsSignExtended32(ReadReg(PerformComputational(s, inst).regs, inst.rd))
  {
    WordStep(s, inst);
    SignExtend32IsSignExtended(WordResult(s, inst));
  }

  /** A word operation reads only the low 32 bits of its sources: two
      machines that agree on them get the same result in rd. */
  lemma WordResultUsesLowHalf(s: State, s': State, inst: Instruction)
    requires s.Valid() && s'.Valid() && inst.IsWordOp()
    requires Low32(ReadReg(s.regs, inst.rs1)) == Low32(ReadReg(s'.regs, inst.rs1))
    requires inst.IsRegRegWord() ==> Low32(ReadReg(s.regs, inst.rs2)) == Low32(ReadReg(s'.regs, inst.rs2))
    ensures ReadReg(PerformComputational(s, inst).regs, inst.rd) == ReadReg(PerformComputational(s', inst).regs, inst.rd)
  {
    WordStep(s, inst);
    WordStep(s', inst);
    assert WordResult(s, inst) == WordResult(s', inst);
  }
}
