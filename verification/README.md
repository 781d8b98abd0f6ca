# RV64IM + Zicsr + C interpreter core, modelled in Dafny

This project models the core of a small sequential RISC-V emulator written in
Rust: the 32-bit and compressed (RVC) instruction decoders, the CPU's fetch,
decode and execute steps with their ALU closures, the 4096-entry CSR bank, the
`mstatus` WARL wrapper, the byte-addressed main memory and the bus that maps
addresses from `0x8000_0000` upward onto it.

Each source file keeps its own shape:

- `decode.dfy` and `compressed.dfy` hold the pure decoders (`src/cpu/decode.rs`).
  `decode_props.dfy` and `compressed_props.dfy` hold what the decoders promise:
  - which instruction each encoding names, checked against an opcode-map table
    (`Expected32`) written apart from the decoder;
  - the expansion of each compressed instruction;
  - immediate ranges and layouts, and operand fields;
  - rejection of every word that is not in the table.
- `memory.dfy`, `bus.dfy` and `csr.dfy` are classes over arrays.
  - `memory.dfy` has loops proved against the little-endian functions `LoadLE`,
    `StoreLE` and `Stored`.
  - `bus.dfy` forwards to memory and is proved against `Load` and `Store`.
  - `csr.dfy` has bounds-checked reads and unmasked writes.
- `mstatus.dfy` models `src/cpu/csr/mstatus.rs`.
  - The register is a `bv64` field of a class whose `Write` is proved against
    the value-level function `Written`.
  - The lemmas cover the write mask, the forced UXL/SXL fields, idempotence and
    the derived SD bit.
- `alu.dfy` models the closures of `execute` on unbounded integers.
  - Every 64- and 32-bit wrap-around is written out.
  - Rust's truncating division is defined separately from Dafny's Euclidean one.
- `semantics.dfy` states what one `execute` does, as a function on a value
  `State`.
  - Registers, pc, memory bytes and CSRs are all fields of that value.
  - The function is written arm by arm, grouped by the `op_*` helper each arm
    calls.
  - `execute_props.dfy` holds the properties of that function.
- `cpu.dfy` is the `Cpu` class.
  - It has a register array, a `pc` field, a bus and a CSR bank.
  - Each method is proved to move `Snapshot()` exactly as the matching
    `Semantics` function moves a value, so every lemma about `Semantics` holds of
    the class.

Machine integers are subset types of `int` (`u8` … `u64`, `i32`, `i64`, see
`types.dfy`). Bit operations on them are defined one bit at a time in
`bits.dfy`.

### How the code behaves

The model follows the code, including where the code differs from the design
description of the emulator:

- **`fetch` does not advance the pc.** The pc moves only at the end of
  `execute`.
- **The pc-advance rule is reproduced as written.** `execute` sets
  `pc := next_pc` whenever the instruction left `pc` equal to its old value
  (src/cpu.rs:351-354). A taken branch or jump whose target is its own address
  therefore falls through to `next_pc`. `SelfJumpFallsThrough` and
  `SelfBranchFallsThrough` state this.
- **The CSR bank has no special registers.** The hart-id and ISA addresses are
  plain storage.
- **The shift-immediate decoders do not check the unused immediate bits.**
  - SLLI, SRLI and SRAI do not validate the upper immediate bits; only bit 30
    selects SRAI.
  - SLLIW does not check funct7 either.
  - `DecodeShiftImmediate` and `DecodeShiftImmediateWord` state this.
  - The `& 0b111111` masking in the SLL/SRL/SRA closures is harmless, because a
    decoded shift amount is already below 64.
- **C.SRLI and C.SRAI OR bit 12 in twice.** The source computes
  `(bit12 << 5) | imm_shamt`, and `imm_shamt` already contains bit 12 as its
  bit 5, so this changes nothing.
- **C.ADDI4SPN keeps the source's reserved-encoding guard.** The guard tests
  rd', which is always 8..15, so it never fires. `DecodeCompressed` therefore
  decodes the all-zero halfword as `addi x8, x2, 0`, and `Cpu::decode` gives it
  next_pc = pc + 2. `DecodeCompressedAcceptsZero` and `ZeroHalfwordStep` state
  this. The evidently intended decoder, `Addi4spn`, is modelled beside it (see
  Findings).
- **Decoded fields are in range by type.** A decoded register index is below 32
  (`RegIdx`) and a decoded CSR address is below 4096 (`CsrAddr`). The decoders
  produce nothing else, and compressed register fields map to x8..x15 (`CReg`).

## Model

| member | source | states |
|---|---|---|
| Decoder.Decode | src/cpu/decode.rs:4-209 | every rejected word is reported as `UnknownInstruction` carrying the word itself |
| DecoderProperties.DecodeNamesInstruction | src/cpu/decode.rs:4-209 | for every word, the opcode-map table `Expected32` (opcode, funct3, funct7, bit 30 for SRAI, the 12-bit field for ECALL/EBREAK) names the mnemonic of the decoded instruction, and names nothing exactly when decoding fails |
| DecoderProperties.DecodeAcceptsExactlyLegal | src/cpu/decode.rs:12-208 | a word decodes iff its (opcode, funct3, funct7 / csr field) combination is one the table lists; any other word gives `Err(UnknownInstruction(w))`, never a default instruction |
| DecoderProperties.ImmIIsSignExtendedField | src/cpu/decode.rs:58 | the I-type immediate is bits 31:20 sign-extended from 12 bits, so it lies in [-2048, 2047] |
| DecoderProperties.ImmSIsSplitField | src/cpu/decode.rs:117-121 | the S-type offset is the signed bits 31:25 times 32 plus bits 11:7, in [-2048, 2047] |
| DecoderProperties.ImmBIsBranchOffset | src/cpu/decode.rs:137-143 | the B-type offset is sign·4096 + bit 7·2048 + bits 30:25·32 + bits 11:8·2, even and in [-4096, 4094] |
| DecoderProperties.ImmJIsJumpOffset | src/cpu/decode.rs:163-169 | the J-type offset is assembled from bits 31, 19:12, 20, 30:21, is even and lies in [-2^20, 2^20-2] |
| DecoderProperties.ImmUIsUpperBits | src/cpu/decode.rs:158-159 | the LUI/AUIPC immediate is the signed word with its low 12 bits cleared: a multiple of 4096 equal to bits 31:12 sign-extended, times 4096 |
| DecoderProperties.DecodeRegisterOperands | src/cpu/decode.rs:13-54 | OP and OP-32 words decode to the instruction the table names for their (funct7, funct3): ADD/SLL/SLT/SLTU/XOR/SRL/OR/AND for funct7 0, MUL…REMU for funct7 1, SUB/SRA for funct7 0x20 with funct3 0/5, and the W forms ADDW…REMUW likewise; rd, rs1, rs2 are bits 11:7, 19:15, 24:20 |
| DecoderProperties.DecodeLoadJalrOperands | src/cpu/decode.rs:96-112 | a decoded LOAD is LB, LH, LW, LD, LBU, LHU, LWU for funct3 0…6 (JALR, lines 173-181, for funct3 0); rd and rs1 are bits 11:7 and 19:15 and the offset is bits 31:20 sign-extended |
| DecoderProperties.DecodeImmediateOperands | src/cpu/decode.rs:57-82 | a decoded OP-IMM other than a shift is ADDI, SLTI, SLTIU, XORI, ORI, ANDI for funct3 0, 2, 3, 4, 6, 7, and OP-IMM-32 funct3 0 is ADDIW; rd, rs1 and the sign-extended I-type immediate come from the word |
| DecoderProperties.DecodeStoreOperands | src/cpu/decode.rs:115-133 | a decoded STORE is SB, SH, SW, SD for funct3 0…3; rs1 and rs2 come from the word and the offset is the split S-type immediate |
| DecoderProperties.DecodeBranchOperands | src/cpu/decode.rs:136-155 | a decoded BRANCH is BEQ, BNE, BLT, BGE, BLTU, BGEU for funct3 0, 1, 4, 5, 6, 7; rs1 and rs2 come from the word and the offset is sign·4096 + bit 7·2048 + bits 30:25·32 + bits 11:8·2, even and in [-4096, 4094] |
| DecoderProperties.DecodeUpperAndJump | src/cpu/decode.rs:157-172 | LUI, AUIPC and JAL always decode, to the instruction their opcode names; the LUI/AUIPC immediate is the upper bits of the word and the JAL offset is sign·2^20 + bits 19:12·4096 + bit 20·2048 + bits 30:21·2, even and in [-2^20, 2^20-2] |
| DecoderProperties.ImmIBit10 | src/cpu/decode.rs:68 | bit 10 of the I-type immediate is bit 30 of the word, which is what selects SRAI over SRLI |
| DecoderProperties.DecodeShiftImmediate | src/cpu/decode.rs:57-76 | OP-IMM with funct3 1 or 5 always decodes; funct3 5 gives SRAI iff bit 30 is set and SRLI otherwise; shamt is bits 25:20 |
| DecoderProperties.DecodeShiftImmediateWord | src/cpu/decode.rs:78-93 | SLLIW/SRLIW/SRAIW decode iff funct3 is 1 or funct7 is 0 or 0x20; SRAIW iff funct3 5 and funct7 0x20; shamt is bits 24:20 |
| DecoderProperties.DecodeSystemOperands | src/cpu/decode.rs:184-205 | SYSTEM funct3 0 gives ECALL for csr field 0, EBREAK for 1 and an error otherwise; funct3 4 is an error; funct3 1, 2, 3 give CSRRW, CSRRS, CSRRC and 5, 6, 7 give CSRRWI, CSRRSI, CSRRCI, with rd, rs1/uimm and the 12-bit CSR address from the word |
| CompressedDecoder.CReg | src/cpu/decode.rs:217 | a 3-bit compressed register field names one of x8..x15 |
| CompressedDecoder.DecodeCompressed | src/cpu/decode.rs:212-514 | every rejected halfword is reported as `UnknownInstruction` carrying the halfword |
| CompressedDecoder.DecodeQuadrant0 | src/cpu/decode.rs:222-281 | quadrant 0 rejections carry the halfword; C.ADDI4SPN is decoded by `Addi4spnAsWritten`, the source's guard on rd' |
| CompressedDecoder.DecodeQuadrant1 | src/cpu/decode.rs:282-424 | quadrant 1 rejections carry the halfword |
| CompressedDecoder.DecodeQuadrant2 | src/cpu/decode.rs:425-510 | quadrant 2 rejections carry the halfword |
| CompressedDecoder.Addi4spnAsWritten | src/cpu/decode.rs:224-233 | C.ADDI4SPN as written; a rejection carries the halfword |
| CompressedDecoder.Addi4spn | src/cpu/decode.rs:224-233 | C.ADDI4SPN with the reserved zero immediate rejected; a rejection carries the halfword |
| CompressedDecoderProperties.CompressedRejectsQuadrant3 | src/cpu/decode.rs:512 | a halfword whose low two bits are 11 is rejected |
| CompressedDecoderProperties.CompressedRejectsFloatingPoint | src/cpu/decode.rs:234-259 | C.FLD and C.FSD (and C.FLDSP, C.FSDSP at lines 437 and 491) are rejected |
| CompressedDecoderProperties.CompressedAddi16spLui | src/cpu/decode.rs:317-344 | rd 0 is rejected; C.ADDI16SP is rejected iff its immediate is zero and otherwise adds a non-zero multiple of 16 in [-512, 496] to x2; C.LUI is rejected iff its immediate is zero and otherwise loads a non-zero multiple of 4096 in [-2^17, 2^17-4096] |
| CompressedDecoderProperties.CompressedRejectsZeroRd | src/cpu/decode.rs:427-457 | C.SLLI, C.LWSP and C.LDSP (and C.ADDIW, C.LI at lines 302 and 311) with rd = 0 are rejected |
| CompressedDecoderProperties.CompressedRegisterBasedAccess | src/cpu/decode.rs:238-278 | C.LW/C.SW expand to LW/SW and C.LD/C.SD to LD/SD with rs1 = 8 + bits 9:7 and rd/rs2 = 8 + bits 4:2; the offset is uimm[5:3,2,6] (a multiple of 4 below 128) for words and uimm[5:3,7:6] (a multiple of 8 below 256) for doublewords |
| CompressedDecoderProperties.CompressedStackLoad | src/cpu/decode.rs:438-457 | C.LWSP/C.LDSP with rd ≠ 0 expand to LW/LD into rd (bits 11:7) from x2, with offset uimm[5,4:2,7:6] (a multiple of 4 below 256) or uimm[5,4:3,8:6] (a multiple of 8 below 512) |
| CompressedDecoderProperties.CompressedStackStore | src/cpu/decode.rs:492-507 | C.SWSP/C.SDSP expand to SW/SD to x2 with rs2 from bits 6:2 and offset uimm[5:2,7:6] (a multiple of 4 below 256) or uimm[5:3,8:6] (a multiple of 8 below 512) |
| CompressedDecoderProperties.CJumpOffsetRange | src/cpu/decode.rs:385-396 | the C.J offset is even and lies in [-2048, 2046] |
| CompressedDecoderProperties.CBranchOffsetRange | src/cpu/decode.rs:398-420 | the C.BEQZ/C.BNEZ offset is even and lies in [-256, 254] |
| CompressedDecoderProperties.CompressedControlTransfer | src/cpu/decode.rs:384-421 | C.J expands to JAL x0 with offset CJumpOffset; C.BEQZ/C.BNEZ expand to BEQ/BNE of rs1 = 8 + bits 9:7 against x0 with offset CBranchOffset |
| CompressedDecoderProperties.Addi4spnAsWrittenNeverRejects | src/cpu/decode.rs:225-226 | the reserved-encoding guard tests rd', which is at least 8, so it never rejects |
| CompressedDecoderProperties.Addi4spnAsWrittenAcceptsZero | src/cpu/decode.rs:224-233 | as written, the all-zero halfword decodes as `ADDI x8, x2, 0` |
| CompressedDecoderProperties.Addi4spnRejectsReserved | src/cpu/decode.rs:224-233 | the corrected C.ADDI4SPN rejects exactly the zero immediate and otherwise adds a positive multiple of 4 below 1024 to x2 into x8..x15 |
| CompressedDecoderProperties.Addi4spnCorrectionOnlyReserved | src/cpu/decode.rs:224-233 | the corrected and the as-written C.ADDI4SPN agree on every halfword with a non-zero immediate; on a zero immediate the corrected one rejects and the as-written one accepts |
| CompressedDecoderProperties.DecodeCompressedAddi4spn | src/cpu/decode.rs:224-233 | quadrant 0 funct3 0 decodes, as written, to ADDI rd', x2, nzuimm with the immediate bits 5:4, 9:6, 2, 3 taken from halfword bits 12:11, 10:7, 6, 5 |
| CompressedDecoderProperties.DecodeCompressedAcceptsZero | src/cpu/decode.rs:224-233 | the decoder decodes the all-zero halfword as `ADDI x8, x2, 0` |
| CompressedDecoderProperties.CImm6Layout | src/cpu/decode.rs:286-288 | the 6-bit compressed immediate is bit 12 followed by bits 6:2, and read signed it is -32·bit 12 + bits 6:2 |
| CompressedDecoderProperties.CompressedImmediateArithmetic | src/cpu/decode.rs:284-316 | C.ADDI expands to ADDI rd, rd, imm (rd = 0 gives ADDI x0, x0, 0), C.ADDIW to ADDIW rd, rd, imm and C.LI to ADDI rd, x0, imm, with the signed 6-bit immediate; C.ADDIW and C.LI with rd = 0 are rejected |
| CompressedDecoderProperties.CompressedShiftAndMask | src/cpu/decode.rs:345-368 | C.SRLI, C.SRAI expand to SRLI, SRAI rd', rd', shamt with the 6-bit shamt, and C.ANDI to ANDI rd', rd', imm with the signed 6-bit immediate |
| CompressedDecoderProperties.CompressedRegisterArithmetic | src/cpu/decode.rs:369-383 | C.SUB, C.XOR, C.OR, C.AND expand to SUB, XOR, OR, AND rd', rd', rs2'; C.SUBW, C.ADDW to SUBW, ADDW; the two reserved encodings with bit 12 set are rejected |
| CompressedDecoderProperties.CompressedShiftLeft | src/cpu/decode.rs:427-434 | C.SLLI expands to SLLI rd, rd, shamt with the 6-bit shamt; rd = 0 is rejected |
| CompressedDecoderProperties.CompressedJumpMoveAdd | src/cpu/decode.rs:458-488 | C.EBREAK is bit 12 with both register fields 0; otherwise rs1 = 0 is rejected; C.JR / C.JALR expand to JALR x0 / x1, rs1, 0 when rs2 = 0, and C.MV / C.ADD to ADD rd, x0 / rd, rs2 |
| Alu.TruncDivRem | src/cpu.rs:179 | Rust's signed division truncates: quotient·divisor + remainder = dividend, ,remainder, < ,divisor,, the remainder has the dividend's sign |
| Alu.Div | src/cpu.rs:171-181 | DIV by zero gives all ones; `i64::MIN / -1` gives the dividend |
| Alu.Divu | src/cpu.rs:182-188 | DIVU by zero gives all ones; otherwise the quotient is at most the dividend |
| Alu.Rem | src/cpu.rs:189-199 | REM by zero gives the dividend; `i64::MIN % -1` gives 0 |
| Alu.Remu | src/cpu.rs:200-206 | REMU by zero gives the dividend; otherwise the remainder is below the divisor |
| Alu.DivRemIdentity | src/cpu.rs:171-199 | for every pair, including the edge cases, divisor·DIV + REM equals the dividend modulo 2^64 |
| Alu.RemRoundsTowardZero | src/cpu.rs:189-199 | away from the edge cases, REM is smaller than the divisor in magnitude and has the dividend's sign |
| Alu.DivuRemuIdentity | src/cpu.rs:182-206 | divisor·DIVU + REMU equals the dividend modulo 2^64, zero divisor included |
| Alu.MulhuMulIsProduct | src/cpu.rs:170 | MULHU and MUL are the high and low halves of the unsigned 128-bit product |
| Alu.MulhMulIsProduct | src/cpu.rs:168 | MULH and MUL are the high and low halves of the signed product |
| Alu.MulhsuMulIsProduct | src/cpu.rs:169 | MULHSU and MUL are the high and low halves of the signed-by-unsigned product |
| Alu.DivW | src/cpu.rs:215-223 | DIVW by zero gives -1; `i32::MIN / -1` gives the dividend |
| Alu.DivuW | src/cpu.rs:224-232 | DIVUW by zero gives -1 (all ones) |
| Alu.RemW | src/cpu.rs:233-241 | REMW by zero gives the dividend; `i32::MIN % -1` gives 0 |
| Alu.RemuW | src/cpu.rs:242-250 | REMUW by zero gives the dividend |
| Alu.DivWRemWIdentity | src/cpu.rs:215-241 | divisor·DIVW + REMW equals the dividend modulo 2^32 |
| Alu.DivuWRemuWIdentity | src/cpu.rs:224-250 | on the u32 views, divisor·DIVUW + REMUW equals the dividend modulo 2^32 |
| Alu.SignExtendLoad | src/cpu.rs:268-270 | the LB/LH/LW extension keeps the low bytes and fills the rest with the sign bit |
| Alu.LowBytesOfSignExtension | src/cpu.rs:268-270 | sign-extending the low bytes and truncating again returns them |
| ByteMemory.LoadLE | src/memory.rs:14-21 | the value of `size` bytes is below 256^size |
| ByteMemory.Stored | src/memory.rs:24-28 | a write replaces exactly bytes addr..addr+size-1 with the little-endian bytes of the value; the length and every other byte are kept |
| ByteMemory.LoadLEAppend | src/memory.rs:17-19 | one more byte adds it at weight 256^i |
| ByteMemory.StoreLEByte | src/memory.rs:26 | byte i of the encoding is (v / 256^i) mod 256 |
| ByteMemory.LoadStoreLE | src/memory.rs:14-28 | reading back the `size` bytes written from v gives v mod 256^size |
| ByteMemory.StoreLoadLE | src/memory.rs:14-28 | writing back the value of a run of bytes reproduces those bytes |
| ByteMemory.WriteThenRead | src/memory.rs:14-28 | after a write, reading the same place returns the value truncated to the access width |
| ByteMemory.StoreDoublewordExample | src/memory.rs:24-28 | writing 0x0102030405060708 as eight bytes stores 0x08 first and 0x01 last |
| ByteMemory.Memory.constructor | src/memory.rs:7-11 | `size` bytes, all zero |
| ByteMemory.Memory.Read | src/memory.rs:14-21 | the loop returns the little-endian value of bytes addr..addr+size-1 |
| ByteMemory.Memory.Write | src/memory.rs:24-28 | the loop leaves the array equal to `Stored(old, addr, value, size)` |
| ByteMemory.OrByteAt | src/memory.rs:18 | OR-ing byte b shifted to bit 8i into a value below 256^i adds b·256^i |
| ByteMemory.ByteOf | src/memory.rs:26 | `(value >> 8i) & 0xff` is byte i of the little-endian encoding |
| SystemBus.Load | src/bus.rs:17-24 | a read fails with `InvalidMemoryAccess(addr)` iff addr < 0x8000_0000; otherwise the value fits in the access width |
| SystemBus.Store | src/bus.rs:27-35 | a write fails with `InvalidMemoryAccess(addr)` iff addr < 0x8000_0000; otherwise it keeps the memory length |
| SystemBus.WindowBoundary | src/bus.rs:18 | an access at 0x8000_0000 reads memory offset 0; reads and writes at 0x7FFF_FFFF fail |
| SystemBus.StoreThenLoad | src/bus.rs:17-35 | a read after a successful write to the same place returns the value truncated to the width |
| SystemBus.StoreKeepsDisjointLoad | src/bus.rs:27-35 | a write does not change a read of a disjoint range |
| SystemBus.LowBytesWhole | src/bus.rs:27-35 | an eight-byte write stores the whole value |
| SystemBus.Bus.constructor | src/bus.rs:10-14 | the bus owns the given memory |
| SystemBus.Bus.Read | src/bus.rs:17-24 | equals `Load` on the current memory and changes nothing |
| SystemBus.Bus.Write | src/bus.rs:27-35 | on success the memory becomes `Store(old, …)`; a rejected write leaves memory unchanged and returns the error |
| CsrBank.CsrRead | src/cpu/csr.rs:15-21 | fails with `InvalidCsrAccess(addr)` iff addr ≥ 4096, otherwise returns the stored value |
| CsrBank.SetNoBits | src/cpu/csr.rs:36-40 | OR-ing in zero leaves the value as it was |
| CsrBank.ClearNoBits | src/cpu/csr.rs:42-46 | clearing no bits leaves the value as it was |
| CsrBank.SetBitsIdempotent | src/cpu/csr.rs:36-40 | setting the same bits twice is setting them once |
| CsrBank.Csr.constructor | src/cpu/csr.rs:10-12 | 4096 entries, all zero |
| CsrBank.Csr.Read | src/cpu/csr.rs:15-21 | equals `CsrRead` on the bank and changes nothing |
| CsrBank.Csr.Write | src/cpu/csr.rs:23-27 | stores `val` unmasked at addr; every other entry is unchanged |
| CsrBank.Csr.ExecuteRw | src/cpu/csr.rs:30-34 | returns the old value and stores `val`; an address ≥ 4096 returns the error with the bank untouched |
| CsrBank.Csr.ExecuteRs | src/cpu/csr.rs:36-40 | returns the old value and stores old OR val; error case untouched |
| CsrBank.Csr.ExecuteRc | src/cpu/csr.rs:42-46 | returns the old value and stores old AND NOT val; error case untouched |
| CsrBank.Csr.ExecuteRwi | src/cpu/csr.rs:48-52 | returns the old value and stores the zero-extended immediate; error case untouched |
| CsrBank.Csr.ExecuteRsi | src/cpu/csr.rs:54-58 | returns the old value and sets the immediate's bits; error case untouched |
| CsrBank.Csr.ExecuteRci | src/cpu/csr.rs:60-64 | returns the old value and clears the immediate's bits; error case untouched |
| MstatusRegister.KeepsWith | src/cpu/csr/mstatus.rs:88-97 | under any mask, a write keeps every bit that is neither writable nor a forced XLEN field |
| MstatusRegister.SetsWith | src/cpu/csr/mstatus.rs:91 | under a mask clear of UXL/SXL, every writable bit takes `val`'s bit |
| MstatusRegister.TwiceWith | src/cpu/csr/mstatus.rs:87-101 | under such a mask, writing the same value twice equals writing it once |
| MstatusRegister.ForcesWith | src/cpu/csr/mstatus.rs:93-96 | on RV64, UXL and SXL read 0b10 after a write under any mask |
| MstatusRegister.KeepsPart | src/cpu/csr/mstatus.rs:88-97 | any group of bits inside the kept set keeps its old value |
| MstatusRegister.MaskExcludes | src/cpu/csr/mstatus.rs:121-134 | SD, XS, UXL and SXL are never writable |
| MstatusRegister.MaskHasFs | src/cpu/csr/mstatus.rs:126-128 | FS is in the mask iff the hart has an FPU |
| MstatusRegister.MaskHasVs | src/cpu/csr/mstatus.rs:129-131 | VS is in the mask iff the hart has the vector extension |
| MstatusRegister.MaskHasBase | src/cpu/csr/mstatus.rs:123-124 | SIE … TSR are always writable |
| MstatusRegister.ReadOnlyKept | src/cpu/csr/mstatus.rs:121-134 | SD and XS, and FS / VS when the extension is absent, are in the kept set |
| MstatusRegister.WriteKeepsUnmasked | src/cpu/csr/mstatus.rs:88-91 | every bit outside the mask (and outside UXL/SXL on RV64) keeps its old value |
| MstatusRegister.WriteKeepsReadOnly | src/cpu/csr/mstatus.rs:87-101 | a write never changes SD or XS, nor FS without an FPU, nor VS without the vector extension |
| MstatusRegister.WriteSetsMasked | src/cpu/csr/mstatus.rs:91 | every bit inside the mask equals `val`'s bit |
| MstatusRegister.WriteForcesXlen | src/cpu/csr/mstatus.rs:93-96 | on RV64, UXL and SXL are 0b10 after a write |
| MstatusRegister.WriteIdempotent | src/cpu/csr/mstatus.rs:87-101 | writing the same value with the same extensions twice leaves what one write leaves |
| MstatusRegister.ReadSummarisesDirty | src/cpu/csr/mstatus.rs:104-118 | the value read has bit 63 set iff FS, VS or XS is 0b11, and bits 62:0 equal the stored bits |
| MstatusRegister.SetSd | src/cpu/csr/mstatus.rs:113 | setting SD sets bit 63 and keeps bits 62:0 |
| MstatusRegister.ClearSd | src/cpu/csr/mstatus.rs:115 | clearing SD clears bit 63 and keeps bits 62:0 |
| MstatusRegister.Mstatus.constructor | src/cpu/csr/mstatus.rs:82-84 | the register holds the given value |
| MstatusRegister.Mstatus.Write | src/cpu/csr/mstatus.rs:87-101 | the stored value becomes `Written(old, val, ext)`, of which the lemmas above are proved |
| MstatusRegister.Mstatus.Read | src/cpu/csr/mstatus.rs:104-118 | the value has bit 63 set iff a context status is dirty and otherwise equals the stored bits; nothing changes |
| Semantics.RegisterFile | src/cpu.rs:28-42 | x0 reads 0, a write to x0 changes nothing, a write to r ≠ 0 is read back and every other register is unchanged |
| Semantics.RegReg | src/cpu.rs:66-73 | `op_rr` changes only the register file: pc, memory and CSRs are kept |
| Semantics.RegImm | src/cpu.rs:77-83 | `op_ri` changes only the register file |
| Semantics.RegRegWord | src/cpu.rs:87-95 | `op_rrw` changes only the register file |
| Semantics.RegImmWord | src/cpu.rs:99-107 | `op_riw` changes only the register file |
| Semantics.Branch | src/cpu.rs:111-120 | `op_branch` changes only the pc |
| Semantics.LoadOp | src/cpu.rs:124-132 | a load fails iff its address is below the memory window and otherwise keeps pc, memory and CSRs |
| Semantics.StoreOp | src/cpu.rs:136-140 | a store fails iff its address is below the memory window and otherwise changes only memory |
| Semantics.Jump | src/cpu.rs:144-147 | `op_jump` sets the pc to the target and keeps memory and CSRs |
| Semantics.PerformComputational | src/cpu.rs:156-266 | the ALU arms change only the register file |
| Semantics.PerformMemory | src/cpu.rs:268-282 | a load or store fails with `InvalidMemoryAccess(address)` iff its address is below the window; a load never changes memory |
| Semantics.PerformCsr | src/cpu.rs:310-347 | the CSR arms never fail and never touch pc or memory |
| Semantics.PerformOther | src/cpu.rs:292-309 | LUI, AUIPC, ECALL and EBREAK keep the pc; none of these arms touches memory or CSRs |
| Semantics.Perform | src/cpu.rs:154-349 | the match keeps the machine well-formed and the memory size |
| Semantics.Execute | src/cpu.rs:150-357 | `execute` keeps the machine well-formed and the memory size |
| ExecuteProperties.ExecuteFrames | src/cpu.rs:150-357 | `execute` fails iff the instruction is a load or store below the window, with that address; only stores change memory, only CSR instructions change CSRs, and every instruction other than a branch or jump leaves pc = next_pc |
| ExecuteProperties.BranchOutcome | src/cpu.rs:111-120 | a branch goes to pc + offset when its condition holds and the target differs from pc, and to next_pc otherwise; nothing else changes |
| ExecuteProperties.BranchConditions | src/cpu.rs:285-290 | BEQ, BNE compare for equality, BLT/BGE compare signed, BLTU/BGEU unsigned |
| ExecuteProperties.JalLinks | src/cpu.rs:297-300 | JAL writes next_pc to rd and jumps to pc + offset (falling through if that is pc) |
| ExecuteProperties.JalrPerforms | src/cpu.rs:301-305 | the JALR arm, before the pc update, links next_pc into rd and sets pc to rs1 + offset (wrapping) with bit 0 cleared, read from rs1 before rd is written |
| ExecuteProperties.JalrLinks | src/cpu.rs:301-305 | JALR writes next_pc to rd and jumps to (rs1 + offset) with bit 0 cleared (falling through if that is pc) |
| ExecuteProperties.SelfJumpFallsThrough | src/cpu.rs:351-354 | `JAL rd, 0` links and then continues at next_pc, not at itself |
| ExecuteProperties.SelfBranchFallsThrough | src/cpu.rs:351-354 | `BEQ rs, rs, 0` is taken but continues at next_pc |
| ExecuteProperties.SystemIsNoOp | src/cpu.rs:308-309 | ECALL and EBREAK only advance the pc |
| ExecuteProperties.CsrNeverFails | src/cpu.rs:310-347 | a CSR instruction never fails, because its address is below 4096, and then advances the pc |
| ExecuteProperties.CsrSwap | src/cpu.rs:310-314 | CSRRW/CSRRWI (lines 329-333) write the source to the CSR and its old value to rd |
| ExecuteProperties.CsrSet | src/cpu.rs:315-321 | CSRRS/CSRRSI (lines 334-340) write the old value to rd and set the source bits, leaving the CSR alone when rs1 = 0 or the immediate is 0 |
| ExecuteProperties.CsrClear | src/cpu.rs:322-328 | CSRRC/CSRRCI (lines 341-347) write the old value to rd and clear the source bits, leaving the CSR alone when rs1 = 0 or the immediate is 0 |
| ExecuteProperties.SkippedCsrWriteIsUnobservable | src/cpu.rs:315-328 | CSRRS/CSRRC with rs1 = x0 and CSRRSI/CSRRCI (lines 334-347) with a zero immediate, which skip the write, leave the bank exactly as an unsuppressed write of `SetBits(old, 0)` or `ClearBits(old, 0)` would |
| ExecuteProperties.CsrSetRepeated | src/cpu.rs:315-321 | repeating a CSRRS (whose rs1 is not its rd) or a CSRRSI (lines 334-340) leaves the bank as the first one did |
| ExecuteProperties.CsrReadIsPure | src/cpu.rs:315-321 | `CSRRS rd, x0, csr` reads the CSR into rd and changes no CSR |
| ExecuteProperties.MemoryStep | src/cpu.rs:268-282 | a load or store returns the bus error with no register or pc update, or its effect followed by pc = next_pc |
| ExecuteProperties.LoadSemantics | src/cpu.rs:124-132 | a load writes the extended bus value at rs1 + offset to rd |
| ExecuteProperties.StoreSemantics | src/cpu.rs:136-140 | a store writes the low bytes of rs2 at rs1 + offset |
| ExecuteProperties.StoreThenLoadSameWidth | src/cpu.rs:124-140 | a load after a store of the same width at the same address reads back the stored low bytes, extended |
| ExecuteProperties.StoreThenLoadDoubleword | src/cpu.rs:274-282 | LD after SD at the same address returns the stored register |
| ExecuteProperties.ComputationalStep | src/cpu.rs:156-266 | an ALU instruction changes only rd and advances the pc |
| ExecuteProperties.WordStep | src/cpu.rs:87-107 | a W-form writes the sign extension of a 32-bit result to rd |
| ExecuteProperties.WordResultSignExtended | src/cpu.rs:87-107 | every W-form result in rd is the sign extension of its low 32 bits |
| ExecuteProperties.WordResultUsesLowHalf | src/cpu.rs:87-107 | a W-form result depends only on the low 32 bits of its inputs |
| Processor.InstructionLength | src/cpu.rs:51 | the length is 4 iff the two low bits are 11, and 2 otherwise |
| Processor.FetchAt | src/cpu.rs:45-48 | the fetched word is the 32-bit little-endian value at pc, or `InvalidMemoryAccess(pc)` below the window |
| Processor.DecodeWord | src/cpu.rs:50-62 | words with low bits 11 go to the 32-bit decoder, others go with their low halfword to the compressed one |
| Processor.DecodeAt | src/cpu.rs:50-62 | decoding fails iff the chosen decoder does, with the word or halfword as payload; otherwise next_pc is pc + 2 for a compressed and pc + 4 for a full instruction |
| Processor.FetchesAddi | src/cpu.rs:45-48 | the bytes 93 00 50 00 at pc are fetched little-endian as the word 0x00500093 |
| Processor.DecodesAddi | src/cpu.rs:50-62 | the word 0x00500093 decodes to `ADDI x1, x0, 5` with next_pc = pc + 4 |
| Processor.ExecutesAddi | src/cpu.rs:150-357 | executing `ADDI x1, x0, 5` sets x1 to 5 and the pc to next_pc and changes nothing else |
| Processor.AddiStep | src/cpu.rs:45-62 | fetch, decode and execute chained: the bytes 93 00 50 00 at pc are fetched as 0x00500093, decoded as `ADDI x1, x0, 5` with next_pc = pc + 4, and executed to leave x1 = 5, pc + 4 and nothing else changed |
| Processor.DecodesZeroHalfword | src/cpu.rs:50-62 | the all-zero halfword decodes to `ADDI x8, x2, 0` with next_pc = pc + 2 |
| Processor.ExecutesMoveX2ToX8 | src/cpu.rs:150-357 | executing `ADDI x8, x2, 0` copies x2 into x8 and sets the pc to next_pc |
| Processor.ZeroHalfwordStep | src/cpu.rs:50-62 | decoding and executing the all-zero halfword copies x2 into x8 and advances the pc by 2, with no illegal-instruction error |
| Processor.Cpu.constructor | src/cpu.rs:18-25 | all registers zero, pc 0x8000_0000, a fresh all-zero CSR bank |
| Processor.Cpu.ReadRegister | src/cpu.rs:28-34 | x0 reads 0, other registers read their stored value |
| Processor.Cpu.WriteRegister | src/cpu.rs:36-42 | the register file becomes `WriteReg(old, index, value)`: x0 is never written |
| Processor.Cpu.Fetch | src/cpu.rs:45-48 | returns `FetchAt` of memory and pc and changes nothing, the pc included |
| Processor.Cpu.DecodeInstruction | src/cpu.rs:50-62 | returns `DecodeAt(pc, instruction)` |
| Processor.Cpu.OpRegReg | src/cpu.rs:66-73 | moves the machine as `RegReg` |
| Processor.Cpu.OpRegImm | src/cpu.rs:77-83 | moves the machine as `RegImm` |
| Processor.Cpu.OpRegRegWord | src/cpu.rs:87-95 | moves the machine as `RegRegWord` |
| Processor.Cpu.OpRegImmWord | src/cpu.rs:99-107 | moves the machine as `RegImmWord` |
| Processor.Cpu.OpBranch | src/cpu.rs:111-120 | moves the machine as `Branch` |
| Processor.Cpu.OpLoad | src/cpu.rs:124-132 | moves the machine as `LoadOp`; on a bus error nothing changes |
| Processor.Cpu.OpStore | src/cpu.rs:136-140 | moves the machine as `StoreOp`; on a bus error nothing changes |
| Processor.Cpu.OpJump | src/cpu.rs:144-147 | moves the machine as `Jump` |
| Processor.Cpu.ExecuteComputational | src/cpu.rs:156-266 | moves the machine as `PerformComputational` |
| Processor.Cpu.ExecuteMemory | src/cpu.rs:268-282 | moves the machine as `PerformMemory`; on a bus error it returns that error with nothing changed |
| Processor.Cpu.ExecuteCsrReg | src/cpu.rs:310-328 | moves the machine as `PerformCsr` for CSRRW, CSRRS, CSRRC |
| Processor.Cpu.ExecuteCsrImm | src/cpu.rs:329-347 | moves the machine as `PerformCsr` for CSRRWI, CSRRSI, CSRRCI |
| Processor.Cpu.ExecuteOther | src/cpu.rs:292-309 | moves the machine as `PerformOther` |
| Processor.Cpu.Execute | src/cpu.rs:150-357 | on success the machine becomes `Semantics.Execute` of the old one; on a bus error that error is returned and the machine is unchanged, so no register or pc update happens |

## Left out

- `src/main.rs` and the tests under `tests/` are drivers that parse ELF files, read files and print, so they are not modelled.
- `Cpu::cycle` (src/cpu.rs:359-376) is not modelled. It only chains fetch, decode and execute with `unwrap`, `panic!` and `println!`.
- The `Debug` implementation of `InstructionContext` is formatting only and is not modelled.
- The `InvalidMemoryAccess` payload is the address only, as in the source.
- Rust panics are `requires` clauses, not modelled behaviour:
  - Memory accesses must lie inside the byte array and be at most eight bytes wide. A wider access would shift by 64 bits or more. This is `Accessible` and `MemoryOk`.
  - `Csr::write` needs an address below 4096.
  - `Cpu::decode` needs `pc + 2` or `pc + 4` not to overflow.
  - A register index is at most 31.
- Processor.Cpu.ExecuteCsrReg: the `?` after the CSR read is not modelled as a return path. The address is a 12-bit field, so that read cannot fail, and `CsrNeverFails` proves it never does.
- Processor.Cpu.ExecuteCsrImm: the same holds for the immediate forms.
- Processor.Cpu.Execute: the single `match` of the source is dispatched by helper group, in the order `Semantics.Perform` uses. Each group's method covers exactly its arms.
- MstatusRegister.Mstatus.Write: the `&mut Self` it returns for chaining is not modelled.
- The `mstatus` wrapper is not connected to the CSR bank, as in the source, where `csr.rs` does not declare it as a module. Its field constants are modelled as `bv64` constants.
- ECALL and EBREAK do nothing in `execute` and are modelled so. Traps, privilege modes and the halt on EBREAK in `cycle` are not part of this core.

## Findings

| source | as written | input that shows it | evidently intended | confidence | as-written member | corrected member |
|---|---|---|---|---|---|---|
| src/cpu/decode.rs:225-226 | C.ADDI4SPN rejects when `rd == 0`, but rd is `to_register(..)`, which is always 8..15, so the reserved encoding with nzuimm = 0 (including the all-zero halfword, which the compressed ISA defines as illegal) decodes as `ADDI x8, x2, 0` | halfword 0x0000 | reject when nzuimm == 0 | high (not executed) | CompressedDecoderProperties.DecodeCompressedAcceptsZero | CompressedDecoderProperties.Addi4spnRejectsReserved |

`DecodeCompressed` and the rest of the model keep the decoder as written.
`Addi4spn` is the corrected C.ADDI4SPN. `Addi4spnCorrectionOnlyReserved` proves
that it differs from the as-written one only on the reserved encoding.
