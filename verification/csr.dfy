/**
 * The control and status register bank (src/cpu/csr.rs): 4096 plain u64
 * entries indexed by the 12-bit CSR address. Reads are bounds-checked,
 * writes are unmasked, and the six Zicsr read-modify-write helpers read
 * first, so an out-of-range address fails before anything is written.
 *
 * There are no special registers: every address in range is ordinary
 * storage, including the hart-id and ISA registers.
 */
module CsrBank {
  import opened Types
  import opened Bits

  /** Number of CSR addresses (2^12). */
  const CSR_COUNT: nat := 4096

  /** The value of CSR `addr` in `bank`, or the error for an address past
      the bank. */
  function CsrRead(bank: seq<u64>, addr: u16): (r: Result<u64>)
    requires |bank| == CSR_COUNT
    ensures r.Err? <==> addr >= CSR_COUNT
    ensures r.Err? ==> r.error == InvalidCsrAccess(addr)
    ensures r.Ok? ==> r.value == bank[addr]
  {
    if addr >= CSR_COUNT then Err(InvalidCsrAccess(addr)) else Ok(bank[addr])
  }

  /** CSRRS's new value: the bits of `val` set. */
  function SetBits(prev: u64, val: u64): u64 {
    Or64(prev, val)
  }

  /** CSRRC's new value: the bits of `val` cleared. */
  function ClearBits(prev: u64, val: u64): u64 {
    And64(prev, Not64(val))
  }

  /** Setting no bits leaves the value as it was: CSRRS with a zero operand
      stores back what it read. */
  lemma SetNoBits(prev: u64)
    ensures SetBits(prev, 0) == prev
  {
    OrZero(prev, 64);
    ModUnique(prev, Pow2(64), 0, prev);
  }

  /** Clearing no bits leaves the value as it was: CSRRC with a zero operand
      stores back what it read. */
  lemma ClearNoBits(prev: u64)
    ensures ClearBits(prev, 0) == prev
  {
    assert Not64(0) == Pow2(64) - 1;
    AndLowMask(prev, 64, 64);
    ModUnique(prev, Pow2(64), 0, prev);
  }

  /** Setting the same bits twice is setting them once, so repeating a
      CSRRS leaves the register as the first one did. */
  lemma SetBitsIdempotent(prev: u64, val: u64)
    ensures SetBits(SetBits(prev, val), val) == SetBits(prev, val)
  {
    OrBitsIdempotent(prev, val, 64);
  }

  lemma {:induction false} OrBitsIdempotent(a: nat, b: nat, n: nat)
    requires n <= 64
    ensures OrBits(OrBits(a, b, n), b, n) == OrBits(a, b, n)
  {
    if n > 0 {
      Pow2Double(n);
      OrBitsIdempotent(a / 2, b / 2, n - 1);
      var r := OrBits(a, b, n);
      assert r == (if a % 2 == 1 || b % 2 == 1 then 1 else 0) + 2 * OrBits(a / 2, b / 2, n - 1);
      assert r % 2 == (if a % 2 == 1 || b % 2 == 1 then 1 else 0);
      assert r / 2 == OrBits(a / 2, b / 2, n - 1);
    }
  }

  /** The 4096-entry bank. */
  class Csr {
    const data: array<u64>

    predicate Valid()
    {
      data.Length == CSR_COUNT
    }

    /** `Csr::new`: 4096 entries, all zero. */
    constructor()
      ensures Valid() && fresh(data)
      ensures forall k :: 0 <= k < CSR_COUNT ==> data[k] == 0
    {
      data := new u64[CSR_COUNT](_ => 0);
    }

    /** `read`: the stored value, or `InvalidCsrAccess(addr)` for an address
        past the bank. */
    method Read(addr: u16) returns (r: Result<u64>)
      requires Valid()
      ensures r == CsrRead(data[..], addr)
    {
      if addr >= data.Length {
        r := Err(InvalidCsrAccess(addr));
      } else {
        r := Ok(data[addr]);
      }
    }

    /** `write`: stores `val` unmasked. The source indexes without a check,
        so the address must be in range. */
    method Write(addr: u16, val: u64)
      requires Valid() && addr < CSR_COUNT
      modifies data
      ensures data[..] == old(data[..])[addr := val]
    {
      data[addr] := val;
    }

    /** `execute_rw`: returns the old value and stores `val`. */
    method ExecuteRw(addr: u16, val: u64) returns (r: Result<u64>)
      requires Valid()
      modifies data
      ensures addr >= CSR_COUNT ==> r == Err(InvalidCsrAccess(addr)) && data[..] == old(data[..])
      ensures addr < CSR_COUNT ==> r == Ok(old(data[addr])) && data[..] == old(data[..])[addr := val]
    {
      var oldVal :- Read(addr);
      Write(addr, val);
      r := Ok(oldVal);
    }

    /** `execute_rs`: returns the old value and sets the bits of `val`. */
    method ExecuteRs(addr: u16, val: u64) returns (r: Result<u64>)
      requires Valid()
      modifies data
      ensures addr >= CSR_COUNT ==> r == Err(InvalidCsrAccess(addr)) && data[..] == old(data[..])
      ensures addr < CSR_COUNT ==>
        r == Ok(old(data[addr])) && data[..] == old(data[..])[addr := SetBits(old(data[addr]), val)]
    {
      var oldVal :- Read(addr);
      Write(addr, Or64(oldVal, val));
      r := Ok(oldVal);
    }

    /** `execute_rc`: returns the old value and clears the bits of `val`. */
    method ExecuteRc(addr: u16, val: u64) returns (r: Result<u64>)
      requires Valid()
      modifies data
      ensures addr >= CSR_COUNT ==> r == Err(InvalidCsrAccess(addr)) && data[..] == old(data[..])
      ensures addr < CSR_COUNT ==>
        r == Ok(old(data[addr])) && data[..] == old(data[..])[addr := ClearBits(old(data[addr]), val)]
    {
      var oldVal :- Read(addr);
      Write(addr, And64(oldVal, Not64(val)));
      r := Ok(oldVal);
    }

    /** `execute_rwi`: returns the old value and stores the zero-extended
        immediate. */
    method ExecuteRwi(addr: u16, imm: u8) returns (r: Result<u64>)
      requires Valid()
      modifies data
      ensures addr >= CSR_COUNT ==> r == Err(InvalidCsrAccess(addr)) && data[..] == old(data[..])
      ensures addr < CSR_COUNT ==> r == Ok(old(data[addr])) && data[..] == old(data[..])[addr := imm]
    {
      var oldVal :- Read(addr);
      Write(addr, imm);
      r := Ok(oldVal);
    }

    /** `execute_rsi`: returns the old value and sets the immediate's bits. */
    method ExecuteRsi(addr: u16, imm: u8) returns (r: Result<u64>)
      requires Valid()
      modifies data
      ensures addr >= CSR_COUNT ==> r == Err(InvalidCsrAccess(addr)) && data[..] == old(data[..])
      ensures addr < CSR_COUNT ==>
        r == Ok(old(data[addr])) && data[..] == old(data[..])[addr := SetBits(old(data[addr]), imm)]
    {
      var oldVal :- Read(addr);
      Write(addr, Or64(oldVal, imm));
      r := Ok(oldVal);
    }

    /** `execute_rci`: returns the old value and clears the immediate's bits. */
    method ExecuteRci(addr: u16, imm: u8) returns (r: Result<u64>)
      requires Valid()
      modifies data
      ensures addr >= CSR_COUNT ==> r == Err(InvalidCsrAccess(addr)) && data[..] == old(data[..])
      ensures addr < CSR_COUNT ==>
        r == Ok(old(data[addr])) && data[..] == old(data[..])[addr := ClearBits(old(data[addr]), imm)]
    {
      var oldVal :- Read(addr);
      Write(addr, And64(oldVal, Not64(imm)));
      r := Ok(oldVal);
    }
  }
}
