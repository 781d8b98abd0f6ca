/**
 * The mstatus WARL wrapper (src/cpu/csr/mstatus.rs), after section 3.1.6 of
 * the RISC-V Privileged Architecture (version 20211203): a write changes
 * only the fields the hart implements, UXL and SXL are forced to 64-bit on
 * RV64, and a read derives the SD summary bit from FS, VS and XS.
 *
 * The register is a plain 64-bit pattern and every operation is a bitwise
 * expression, so this module works in `bv64`.
 */
module MstatusRegister {

  // Interrupt enables and their saved copies.
  const SIE: bv64 := 0x2  // bit 1
  const MIE: bv64 := 0x8  // bit 3
  const SPIE: bv64 := 0x20  // bit 5
  const MPIE: bv64 := 0x80  // bit 7
  // Previous privilege modes.
  const SPP: bv64 := 0x100  // bit 8
  const MPP: bv64 := 0x1800  // bits 12:11
  // Extension context status: vector, floating point, other.
  const VS: bv64 := 0x600  // bits 10:9
  const FS: bv64 := 0x6000  // bits 14:13
  const XS: bv64 := 0x1_8000  // bits 16:15
  // Memory and execution control.
  const MPRV: bv64 := 0x2_0000  // bit 17
  const SUM: bv64 := 0x4_0000  // bit 18
  const MXR: bv64 := 0x8_0000  // bit 19
  const TVM: bv64 := 0x10_0000  // bit 20
  const TW: bv64 := 0x20_0000  // bit 21
  const TSR: bv64 := 0x40_0000  // bit 22
  // User and supervisor XLEN.
  const UXL: bv64 := 0x3_0000_0000  // bits 33:32
  const SXL: bv64 := 0xC_0000_0000  // bits 35:34
  // State-dirty summary, read-only.
  const SD: bv64 := 0x8000_0000_0000_0000  // bit 63

  /** The bits every hart lets software write. */
  const BASE_WRITABLE: bv64 := SIE | MIE | SPIE | MPIE | SPP | MPP | MPRV | SUM | MXR | TVM | TW | TSR

  /** XLEN code 2 (64-bit) in the UXL and SXL fields. */
  const UXL_64: bv64 := 0x2_0000_0000  // 2 in bits 33:32
  const SXL_64: bv64 := 0x8_0000_0000  // 2 in bits 35:34

  /** The hart's optional features that decide which fields exist. */
  datatype Extensions = Extensions(hasFpu: bool, hasVector: bool, isRv64: bool)

  /** `make_write_mask`: the base bits, plus FS with an FPU and VS with the
      vector extension. */
  function MakeWriteMask(ext: Extensions): bv64 {
    var mask := BASE_WRITABLE;
    var mask := if ext.hasFpu then mask | FS else mask;
    if ext.hasVector then mask | VS else mask
  }

  /** `raw` with the bits of `mask` taken from `val`. */
  function Merge(raw: bv64, val: bv64, mask: bv64): bv64 {
    (raw & !mask) | (val & mask)
  }

  /** UXL and SXL set to 2 (64-bit), everything else kept. */
  function ForceXlen(x: bv64): bv64 {
    var x := (x & !UXL) | UXL_64;
    (x & !SXL) | SXL_64
  }

  /** A write under a given mask: the merge, then on RV64 the forced
      XLEN fields. */
  function WriteWith(raw: bv64, val: bv64, mask: bv64, isRv64: bool): bv64 {
    if isRv64 then ForceXlen(Merge(raw, val, mask)) else Merge(raw, val, mask)
  }

  /** The bits a write under `mask` keeps: neither writable nor forced. */
  function KeptWith(mask: bv64, isRv64: bool): bv64 {
    if isRv64 then !(mask | UXL | SXL) else !mask
  }

  /** The register after `write(val, ext)` on `raw`. */
  function Written(raw: bv64, val: bv64, ext: Extensions): bv64 {
    WriteWith(raw, val, MakeWriteMask(ext), ext.isRv64)
  }

  /** The bits a write keeps for the hart `ext`. */
  function Kept(ext: Extensions): bv64 {
    KeptWith(MakeWriteMask(ext), ext.isRv64)
  }

  /** FS, VS or XS reads Dirty (0b11). */
  predicate AnyDirty(raw: bv64) {
    raw & FS == FS || raw & VS == VS || raw & XS == XS
  }

  /** The value `read` returns for the stored pattern `raw`. */
  function ReadValue(raw: bv64): bv64 {
    var fsDirty := raw & FS == FS;
    var vsDirty := raw & VS == VS;
    var xsDirty := raw & XS == XS;
    if fsDirty || vsDirty || xsDirty then raw | SD else raw & !SD
  }

  // ---- a write under any mask ----
  //
  // Each lemma here is about plain bit-vector variables; the lemmas about
  // a hart's extensions below instantiate them with its write mask.

  /** A write keeps every bit outside the mask and the forced fields. */
  lemma KeepsWith(raw: bv64, val: bv64, mask: bv64, isRv64: bool)
    ensures WriteWith(raw, val, mask, isRv64) & KeptWith(mask, isRv64) == raw & KeptWith(mask, isRv64)
  {
  }

  /** A write sets the masked bits to the value's, when the mask leaves the
      forced fields alone. */
  lemma SetsWith(raw: bv64, val: bv64, mask: bv64, isRv64: bool)
    requires mask & (UXL | SXL) == 0
    ensures WriteWith(raw, val, mask, isRv64) & mask == val & mask
  {
  }

  /** Writing twice is writing once. */
  lemma TwiceWith(raw: bv64, val: bv64, mask: bv64, isRv64: bool)
    requires mask & (UXL | SXL) == 0
    ensures WriteWith(WriteWith(raw, val, mask, isRv64), val, mask, isRv64) == WriteWith(raw, val, mask, isRv64)
  {
  }

  /** On RV64 the XLEN fields read 2 after any write. */
  lemma ForcesWith(raw: bv64, val: bv64, mask: bv64)
    ensures WriteWith(raw, val, mask, true) & UXL == UXL_64
    ensures WriteWith(raw, val, mask, true) & SXL == SXL_64
  {
  }

  /** A write keeps any `part` of the kept bits. */
  lemma KeepsPart(raw: bv64, val: bv64, mask: bv64, isRv64: bool, part: bv64)
    requires part & KeptWith(mask, isRv64) == part
    ensures WriteWith(raw, val, mask, isRv64) & part == raw & part
  {
    var keep := KeptWith(mask, isRv64);
    KeepsWith(raw, val, mask, isRv64);
    Restrict(WriteWith(raw, val, mask, isRv64), raw, keep, part);
  }

  /** Equal under `keep` means equal on every bit set in `keep`, so also
      under any `part` of it. */
  lemma Restrict(w: bv64, r: bv64, keep: bv64, part: bv64)
    requires w & keep == r & keep
    requires part & keep == part
    ensures w & part == r & part
  {
  }

  // ---- the write mask of a hart ----

  /** The write mask never covers SD, XS, UXL or SXL. */
  lemma MaskExcludes(ext: Extensions)
    ensures MakeWriteMask(ext) & (SD | XS | UXL | SXL) == 0
  {
    if ext.hasFpu {
      if ext.hasVector {
        assert MakeWriteMask(ext) == BASE_WRITABLE | FS | VS;
      } else {
        assert MakeWriteMask(ext) == BASE_WRITABLE | FS;
      }
    } else {
      if ext.hasVector {
        assert MakeWriteMask(ext) == BASE_WRITABLE | VS;
      } else {
        assert MakeWriteMask(ext) == BASE_WRITABLE;
      }
    }
  }

  /** FS is in the mask exactly when the hart has an FPU. */
  lemma MaskHasFs(ext: Extensions)
    ensures MakeWriteMask(ext) & FS == (if ext.hasFpu then FS else 0)
  {
    if ext.hasFpu {
      if ext.hasVector {
        assert MakeWriteMask(ext) == BASE_WRITABLE | FS | VS;
      } else {
        assert MakeWriteMask(ext) == BASE_WRITABLE | FS;
      }
    } else {
      if ext.hasVector {
        assert MakeWriteMask(ext) == BASE_WRITABLE | VS;
      } else {
        assert MakeWriteMask(ext) == BASE_WRITABLE;
      }
    }
  }

  /** VS is in the mask exactly when the hart has the vector extension. */
  lemma MaskHasVs(ext: Extensions)
    ensures MakeWriteMask(ext) & VS == (if ext.hasVector then VS else 0)
  {
    if ext.hasFpu {
      if ext.hasVector {
        assert MakeWriteMask(ext) == BASE_WRITABLE | FS | VS;
      } else {
        assert MakeWriteMask(ext) == BASE_WRITABLE | FS;
      }
    } else {
      if ext.hasVector {
        assert MakeWriteMask(ext) == BASE_WRITABLE | VS;
      } else {
        assert MakeWriteMask(ext) == BASE_WRITABLE;
      }
    }
  }

  /** The base fields are writable on every hart. */
  lemma MaskHasBase(ext: Extensions)
    ensures MakeWriteMask(ext) & BASE_WRITABLE == BASE_WRITABLE
  {
    if ext.hasFpu {
      if ext.hasVector {
        assert MakeWriteMask(ext) == BASE_WRITABLE | FS | VS;
      } else {
        assert MakeWriteMask(ext) == BASE_WRITABLE | FS;
      }
    } else {
      if ext.hasVector {
        assert MakeWriteMask(ext) == BASE_WRITABLE | VS;
      } else {
        assert MakeWriteMask(ext) == BASE_WRITABLE;
      }
    }
  }

  /** SD and XS are always kept, FS without an FPU and VS without the
      vector extension. */
  lemma ReadOnlyKept(ext: Extensions)
    ensures SD & Kept(ext) == SD
    ensures XS & Kept(ext) == XS
    ensures !ext.hasFpu ==> FS & Kept(ext) == FS
    ensures !ext.hasVector ==> VS & Kept(ext) == VS
  {
    var f := if ext.isRv64 then UXL | SXL else 0;
    if ext.hasFpu {
      if ext.hasVector {
        assert Kept(ext) == !(BASE_WRITABLE | FS | VS | f);
      } else {
        assert Kept(ext) == !(BASE_WRITABLE | FS | f);
      }
    } else {
      if ext.hasVector {
        assert Kept(ext) == !(BASE_WRITABLE | VS | f);
      } else {
        assert Kept(ext) == !(BASE_WRITABLE | f);
      }
    }
  }

  // ---- what `write` promises ----

  /** Bits outside the write mask and the forced fields keep their old
      value. */
  lemma WriteKeepsUnmasked(raw: bv64, val: bv64, ext: Extensions)
    ensures Written(raw, val, ext) & Kept(ext) == raw & Kept(ext)
  {
    KeepsWith(raw, val, MakeWriteMask(ext), ext.isRv64);
  }

  /** In particular SD and XS are never written, and neither are FS without
      an FPU or VS without the vector extension. */
  lemma WriteKeepsReadOnly(raw: bv64, val: bv64, ext: Extensions)
    ensures Written(raw, val, ext) & SD == raw & SD
    ensures Written(raw, val, ext) & XS == raw & XS
    ensures !ext.hasFpu ==> Written(raw, val, ext) & FS == raw & FS
    ensures !ext.hasVector ==> Written(raw, val, ext) & VS == raw & VS
  {
    var mask := MakeWriteMask(ext);
    ReadOnlyKept(ext);
    KeepsPart(raw, val, mask, ext.isRv64, SD);
    KeepsPart(raw, val, mask, ext.isRv64, XS);
    if !ext.hasFpu {
      KeepsPart(raw, val, mask, ext.isRv64, FS);
    }
    if !ext.hasVector {
      KeepsPart(raw, val, mask, ext.isRv64, VS);
    }
  }

  /** The bits under the write mask take the written value. */
  lemma WriteSetsMasked(raw: bv64, val: bv64, ext: Extensions)
    ensures Written(raw, val, ext) & MakeWriteMask(ext) == val & MakeWriteMask(ext)
  {
    MaskExcludes(ext);
    SetsWith(raw, val, MakeWriteMask(ext), ext.isRv64);
  }

  /** On RV64 a write always leaves UXL and SXL holding 2 (64-bit). */
  lemma WriteForcesXlen(raw: bv64, val: bv64, ext: Extensions)
    requires ext.isRv64
    ensures Written(raw, val, ext) & UXL == UXL_64
    ensures Written(raw, val, ext) & SXL == SXL_64
  {
    ForcesWith(raw, val, MakeWriteMask(ext));
  }

  /** Writing the same value twice is writing it once. */
  lemma WriteIdempotent(raw: bv64, val: bv64, ext: Extensions)
    ensures Written(Written(raw, val, ext), val, ext) == Written(raw, val, ext)
  {
    MaskExcludes(ext);
    TwiceWith(raw, val, MakeWriteMask(ext), ext.isRv64);
  }

  /** A read reports SD set exactly when FS, VS or XS is Dirty, and every
      other bit as stored. */
  lemma ReadSummarisesDirty(raw: bv64)
    ensures ReadValue(raw) & SD != 0 <==> AnyDirty(raw)
    ensures ReadValue(raw) & !SD == raw & !SD
  {
    if AnyDirty(raw) {
      assert ReadValue(raw) == raw | SD;
      SetSd(raw);
    } else {
      assert ReadValue(raw) == raw & !SD;
      ClearSd(raw);
    }
  }

  lemma SetSd(raw: bv64)
    ensures (raw | SD) & SD != 0
    ensures (raw | SD) & !SD == raw & !SD
  {
    assert (raw | SD) & SD == SD;
  }

  lemma ClearSd(raw: bv64)
    ensures (raw & !SD) & SD == 0
    ensures (raw & !SD) & !SD == raw & !SD
  {
    assert (raw & !SD) & SD == 0;
  }

  /** The register wrapper. */
  class Mstatus {
    var raw: bv64

    /** `Mstatus::new(val)`: the pattern as given, unchecked. */
    constructor(val: bv64)
      ensures raw == val
    {
      raw := val;
    }

    /** `write`: merges the writable bits of `val` into the register and
        forces UXL/SXL on RV64. */
    method Write(val: bv64, ext: Extensions)
      modifies this
      ensures raw == Written(old(raw), val, ext)
    {
      var mask := MakeWriteMask(ext);
      var nextVal := (raw & !mask) | (val & mask);
      if ext.isRv64 {
        nextVal := (nextVal & !UXL) | UXL_64;
        nextVal := (nextVal & !SXL) | SXL_64;
      }
      raw := nextVal;
    }

    /** `read`: the stored pattern with SD recomputed from FS, VS and XS;
        reading changes nothing. */
    function Read(): (val: bv64)
      reads this
      ensures val & SD != 0 <==> AnyDirty(raw)
      ensures val & !SD == raw & !SD
    {
      ReadSummarisesDirty(raw);
      ReadValue(raw)
    }
  }
}
