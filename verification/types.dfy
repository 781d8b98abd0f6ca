/**
 * Machine integer widths, the shared error taxonomy and the result type
 * (src/types.rs). Every Rust integer type becomes a subset type of `int`,
 * so each width is stated by its range and every wrap-around is explicit.
 */
module Types {

  type u8 = x: int | 0 <= x < 0x100
  type u16 = x: int | 0 <= x < 0x1_0000
  type u32 = x: int | 0 <= x < 0x1_0000_0000
  type u64 = x: int | 0 <= x < 0x1_0000_0000_0000_0000
  type i32 = x: int | -0x8000_0000 <= x < 0x8000_0000
  type i64 = x: int | -0x8000_0000_0000_0000 <= x < 0x8000_0000_0000_0000

  /** Memory address. */
  type Address = u64
  /** A raw 32-bit instruction word. */
  type RawInstruction = u32
  /** A raw 16-bit compressed instruction. */
  type RawShortInstruction = u16
  /** Register index as carried by an instruction. The source stores a
      `u8`; every index the decoders produce is a 5-bit field, so the model
      narrows the type to the 32 registers that exist. */
  type RegIdx = x: int | 0 <= x < 32
  /** Immediate operand (Rust `i64`). */
  type Imm = i64
  /** Shift amount of a 64-bit shift (Rust `u32`, decoded from 6 bits). */
  type Shamt = x: int | 0 <= x < 64
  /** Shift amount of a 32-bit word shift (Rust `u32`, decoded from 5 bits). */
  type WordShamt = x: int | 0 <= x < 32
  /** CSR address as carried by an instruction (Rust `u16`, decoded from
      12 bits). */
  type CsrAddr = x: int | 0 <= x < 4096
  /** The 5-bit unsigned operand of CSRRWI, CSRRSI and CSRRCI (Rust `u8`). */
  type CsrImm = x: int | 0 <= x < 32

  /** Register width in bits. */
  const XLEN: nat := 64

  /** The error kinds every layer returns instead of panicking. */
  datatype Exception =
    | UnknownInstruction(raw: RawInstruction)
    | InvalidMemoryAccess(addr: Address)
    | InvalidCsrAccess(csr: u16)

  /** Rust's `Result<T, Exception>`; usable with `:-` as Rust uses `?`. */
  datatype Result<+T> = Ok(value: T) | Err(error: Exception) {
    predicate IsFailure() {
      Err?
    }

    function PropagateFailure<U>(): Result<U>
      requires Err?
    {
      Err(error)
    }

    function Extract(): T
      requires Ok?
    {
      value
    }
  }
}
