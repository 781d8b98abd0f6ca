/**
 * The system bus (src/bus.rs): addresses from 0x8000_0000 upward are main
 * memory, at offset `addr - 0x8000_0000`; nothing is mapped below, and an
 * access there fails with `InvalidMemoryAccess(addr)`.
 */
module SystemBus {
  import opened Types
  import opened ByteMemory

  /** The first address routed to main memory. */
  const MEMORY_BASE: u64 := 0x8000_0000

  /** What the source needs for an access not to panic: a routed access
      must lie inside memory and be at most eight bytes wide. Accesses below
      the window fail before memory is touched. */
  predicate Accessible(len: nat, addr: u64, size: nat) {
    addr >= MEMORY_BASE ==> addr - MEMORY_BASE + size <= len && size <= 8
  }

  /** The result of reading `size` bytes at `addr` from memory contents `mem`. */
  function Load(mem: seq<u8>, addr: u64, size: nat): (r: Result<u64>)
    requires Accessible(|mem|, addr, size)
    ensures r.Err? <==> addr < MEMORY_BASE
    ensures r.Err? ==> r.error == InvalidMemoryAccess(addr)
    ensures r.Ok? ==> r.value < Pow256(size)
  {
    if addr >= MEMORY_BASE then
      var offset := addr - MEMORY_BASE;
      Pow256AtMost(size);
      Ok(LoadLE(mem[offset..offset + size]))
    else
      Err(InvalidMemoryAccess(addr))
  }

  /** The memory contents after writing the `size` low bytes of `value` at
      `addr`, or the error of an unmapped address. */
  function Store(mem: seq<u8>, addr: u64, value: u64, size: nat): (r: Result<seq<u8>>)
    requires Accessible(|mem|, addr, size)
    ensures r.Err? <==> addr < MEMORY_BASE
    ensures r.Err? ==> r.error == InvalidMemoryAccess(addr)
    ensures r.Ok? ==> |r.value| == |mem|
  {
    if addr >= MEMORY_BASE then Ok(Stored(mem, addr - MEMORY_BASE, value, size))
    else Err(InvalidMemoryAccess(addr))
  }

  /** The window starts exactly at 0x8000_0000, which is memory offset 0;
      the address just below it is unmapped. */
  lemma WindowBoundary(mem: seq<u8>, size: nat)
    requires size <= |mem| && size <= 8
    ensures Load(mem, 0x8000_0000, size) == Ok(LoadLE(mem[0..size]))
    ensures Load(mem, 0x7FFF_FFFF, size) == Err(InvalidMemoryAccess(0x7FFF_FFFF))
    ensures Store(mem, 0x7FFF_FFFF, 0, size) == Err(InvalidMemoryAccess(0x7FFF_FFFF))
  {
  }

  /** The low `size` bytes of `value`: what a `size`-byte write stores. */
  function LowBytes(value: u64, size: nat): (r: u64)
    ensures r < Pow256(size)
  {
    ModAtMost(value, Pow256(size));
    value % Pow256(size)
  }

  lemma ModAtMost(a: nat, m: nat)
    requires m >= 1
    ensures a % m <= a
  {
    assert a == m * (a / m) + a % m;
    assert m * (a / m) >= 0;
  }

  /** An eight-byte write stores the whole value. */
  lemma LowBytesWhole(value: u64)
    ensures LowBytes(value, 8) == value
  {
    assert Pow256(8) == 0x1_0000_0000_0000_0000;
  }

  /** A bus read after a successful bus write to the same place returns the
      written value truncated to the access width. */
  lemma StoreThenLoad(mem: seq<u8>, addr: u64, value: u64, size: nat)
    requires Accessible(|mem|, addr, size)
    requires Store(mem, addr, value, size).Ok?
    ensures Load(Store(mem, addr, value, size).value, addr, size) == Ok(LowBytes(value, size))
  {
    WriteThenRead(mem, addr - MEMORY_BASE, value, size);
  }

  /** A write leaves every byte outside its own range as it was, so a read
      of a disjoint range returns what it returned before. */
  lemma StoreKeepsDisjointLoad(mem: seq<u8>, addr: u64, value: u64, size: nat, addr': u64, size': nat)
    requires Accessible(|mem|, addr, size) && Accessible(|mem|, addr', size')
    requires Store(mem, addr, value, size).Ok?
    requires addr' + size' <= addr || addr + size <= addr'
    ensures Load(Store(mem, addr, value, size).value, addr', size') == Load(mem, addr', size')
  {
    if addr' >= MEMORY_BASE {
      var m := Store(mem, addr, value, size).value;
      var o, o' := addr - MEMORY_BASE, addr' - MEMORY_BASE;
      assert m[o'..o' + size'] == mem[o'..o' + size'];
    }
  }

  /** The bus owns main memory. */
  class Bus {
    const memory: Memory

    /** `Bus::new`. */
    constructor(memory: Memory)
      ensures this.memory == memory
    {
      this.memory := memory;
    }

    /** `read`: a memory read at the translated offset, or the error for an
        unmapped address; nothing changes either way. */
    method Read(addr: u64, size: u64) returns (r: Result<u64>)
      requires Accessible(memory.data.Length, addr, size)
      ensures r == Load(memory.data[..], addr, size)
    {
      if addr >= MEMORY_BASE {
        var v := memory.Read(addr - MEMORY_BASE, size);
        r := Ok(v);
      } else {
        r := Err(InvalidMemoryAccess(addr));
      }
    }

    /** `write`: a memory write at the translated offset; a rejected write
        leaves memory unchanged. */
    method Write(addr: u64, value: u64, size: u64) returns (r: Result<()>)
      requires Accessible(memory.data.Length, addr, size)
      modifies memory.data
      ensures Store(old(memory.data[..]), addr, value, size).Ok? ==>
        r == Ok(()) && memory.data[..] == Store(old(memory.data[..]), addr, value, size).value
      ensures Store(old(memory.data[..]), addr, value, size).Err? ==>
        r == Err(InvalidMemoryAccess(addr)) && memory.data[..] == old(memory.data[..])
    {
      if addr >= MEMORY_BASE {
        memory.Write(addr - MEMORY_BASE, value, size);
        r := Ok(());
      } else {
        r := Err(InvalidMemoryAccess(addr));
      }
    }
  }
}
