/**
 * Main memory (src/memory.rs): a zero-initialised byte array with
 * little-endian multi-byte reads and writes of up to eight bytes.
 *
 * The byte array is specified on sequences: `LoadLE` is the value of a run
 * of bytes, least significant first, and `Stored` is the array after a
 * write. Their round trips are the lemmas below; the class's loops are
 * proved against them.
 */
module ByteMemory {
  import opened Types
  import opened Bits

  /** 256^n, the weight of byte n of a little-endian value. */
  function Pow256(n: nat): (r: nat)
    ensures r >= 1
  {
    if n == 0 then 1 else 256 * Pow256(n - 1)
  }

  /** Byte n of a 64-bit access starts at bit 8n. */
  lemma Pow256IsPow2(n: nat)
    requires n <= 8
    ensures Pow256(n) == Pow2(8 * n)
  {
    assert Pow256(1) == 0x100;
    assert Pow256(2) == 0x1_0000;
    assert Pow256(3) == 0x100_0000;
    assert Pow256(4) == 0x1_0000_0000;
    assert Pow256(5) == 0x100_0000_0000;
    assert Pow256(6) == 0x1_0000_0000_0000;
    assert Pow256(7) == 0x100_0000_0000_0000;
    assert Pow256(8) == 0x1_0000_0000_0000_0000;
  }

  /** An access of at most eight bytes holds a u64. */
  lemma Pow256AtMost(n: nat)
    requires n <= 8
    ensures Pow256(n) <= 0x1_0000_0000_0000_0000
  {
    Pow256IsPow2(n);
  }

  /** The little-endian value of a run of bytes: byte i weighs 256^i. */
  function LoadLE(bytes: seq<u8>): (r: nat)
    ensures r < Pow256(|bytes|)
  {
    if |bytes| == 0 then 0 else bytes[0] + 256 * LoadLE(bytes[1..])
  }

  /** The n little-endian bytes of v: byte i is `(v >> 8i) & 0xff`. */
  function StoreLE(v: nat, n: nat): (r: seq<u8>)
    ensures |r| == n
  {
    if n == 0 then [] else [v % 256] + StoreLE(v / 256, n - 1)
  }

  /** The memory after writing the n bytes of v at addr: bytes
      addr..addr+n-1 replaced, the length and every other byte kept. */
  function Stored(data: seq<u8>, addr: nat, v: nat, n: nat): (r: seq<u8>)
    requires addr + n <= |data|
    ensures |r| == |data|
    ensures r[addr..addr + n] == StoreLE(v, n)
    ensures forall k :: 0 <= k < |data| && !(addr <= k < addr + n) ==> r[k] == data[k]
  {
    data[..addr] + StoreLE(v, n) + data[addr + n..]
  }

  /** Appending a byte adds it at the next weight; this is what each
      iteration of the read loop does. */
  lemma {:induction false} LoadLEAppend(s: seq<u8>, b: u8)
    ensures LoadLE(s + [b]) == LoadLE(s) + b * Pow256(|s|)
  {
    if |s| == 0 {
      assert s + [b] == [b];
      assert [b][1..] == [];
    } else {
      assert (s + [b])[1..] == s[1..] + [b];
      LoadLEAppend(s[1..], b);
      assert 256 * (b * Pow256(|s| - 1)) == b * Pow256(|s|);
    }
  }

  /** Byte i of `StoreLE(v, n)` is bits 8i..8i+7 of v. */
  lemma {:induction false} StoreLEByte(v: nat, n: nat, i: nat)
    requires i < n
    ensures StoreLE(v, n)[i] == (v / Pow256(i)) % 256
  {
    if i > 0 {
      StoreLEByte(v / 256, n - 1, i - 1);
      DivDiv(v, 256, Pow256(i - 1));
    }
  }

  /** Dividing by a and then by b is dividing by a * b. */
  lemma DivDiv(v: nat, a: nat, b: nat)
    requires a >= 1 && b >= 1
    ensures (v / a) / b == v / (a * b)
  {
    var q1, r1 := v / a, v % a;
    var q2, r2 := q1 / b, q1 % b;
    assert v == a * q1 + r1;
    assert q1 == b * q2 + r2;
    assert a * q1 == (a * b) * q2 + a * r2 by {
      assert a * (b * q2 + r2) == a * (b * q2) + a * r2;
      assert a * (b * q2) == (a * b) * q2;
    }
    assert a * r2 + r1 < a * b by {
      assert a * b == a * (b - 1) + a;
      assert a * (b - 1) == a * r2 + a * (b - 1 - r2);
      MulNonNegative(a, b - 1 - r2);
    }
    ModUnique(v, a * b, q2, a * r2 + r1);
  }

  lemma MulNonNegative(x: nat, y: nat)
    ensures x * y >= 0
  {
  }

  /** v mod 256m splits into the low byte and (v / 256) mod m. */
  lemma ModSplit256(v: nat, m: nat)
    requires m >= 1
    ensures v % (256 * m) == v % 256 + 256 * ((v / 256) % m)
  {
    var q := (v / 256) / m;
    assert v == 256 * (v / 256) + v % 256;
    assert v / 256 == m * q + (v / 256) % m;
    assert v == (256 * m) * q + (v % 256 + 256 * ((v / 256) % m));
    ModUnique(v, 256 * m, q, v % 256 + 256 * ((v / 256) % m));
  }

  /** Round trip one way: reading back n written bytes yields v truncated
      to n bytes. */
  lemma {:induction false} LoadStoreLE(v: nat, n: nat)
    ensures LoadLE(StoreLE(v, n)) == v % Pow256(n)
  {
    if n > 0 {
      var s := StoreLE(v, n);
      assert s[1..] == StoreLE(v / 256, n - 1);
      LoadStoreLE(v / 256, n - 1);
      ModSplit256(v, Pow256(n - 1));
    }
  }

  /** Round trip the other way: writing the value of n bytes reproduces
      exactly those bytes. */
  lemma {:induction false} StoreLoadLE(s: seq<u8>)
    ensures StoreLE(LoadLE(s), |s|) == s
  {
    if |s| > 0 {
      var v := LoadLE(s);
      ModUnique(v, 256, LoadLE(s[1..]), s[0]);
      StoreLoadLE(s[1..]);
    }
  }

  /** Reading back what was just written at the same place yields the value
      truncated to the access width; memory elsewhere is untouched. */
  lemma WriteThenRead(data: seq<u8>, addr: nat, v: nat, n: nat)
    requires addr + n <= |data|
    ensures LoadLE(Stored(data, addr, v, n)[addr..addr + n]) == v % Pow256(n)
  {
    LoadStoreLE(v, n);
  }

  /** Writing 0x0102030405060708 as a doubleword stores its bytes least
      significant first: 0x08 at the lowest address, 0x01 at the highest. */
  lemma StoreDoublewordExample()
    ensures StoreLE(0x0102030405060708, 8) == [0x08, 0x07, 0x06, 0x05, 0x04, 0x03, 0x02, 0x01]
  {
  }

  /** A zero-initialised byte vector with little-endian access. The source
      indexes the vector without a check, so every access must lie inside
      it, and shifts by 64 bits or more are rejected, so an access is at
      most eight bytes wide. */
  class Memory {
    const data: array<u8>

    /** `Memory::new(size)`: `size` bytes, all zero. */
    constructor(size: nat)
      ensures data.Length == size
      ensures forall k :: 0 <= k < size ==> data[k] == 0
      ensures fresh(data)
    {
      data := new u8[size](_ => 0);
    }

    /** `read`: the little-endian value of bytes addr..addr+size-1. */
    method Read(addr: u64, size: u64) returns (value: u64)
      requires addr + size <= data.Length && size <= 8
      ensures value == LoadLE(data[addr..addr + size])
    {
      value := 0;
      var i: u64 := 0;
      while i < size
        invariant 0 <= i <= size
        invariant value == LoadLE(data[addr..addr + i])
      {
        var b := data[addr + i];
        OrByteAt(value, b, i);
        value := Or64(value, Shl64(b, i * 8));
        assert data[addr..addr + (i + 1)] == data[addr..addr + i] + [b];
        LoadLEAppend(data[addr..addr + i], b);
        i := i + 1;
      }
    }

    /** `write`: bytes addr..addr+size-1 become the little-endian bytes of
        value; nothing else changes. */
    method Write(addr: u64, value: u64, size: u64)
      requires addr + size <= data.Length && size <= 8
      modifies data
      ensures data[..] == Stored(old(data[..]), addr, value, size)
    {
      var i: u64 := 0;
      while i < size
        invariant 0 <= i <= size
        invariant data[..] == old(data[..])[..addr] + StoreLE(value, size)[..i] + old(data[..])[addr + i..]
      {
        ByteOf(value, size, i);
        data[addr + i] := And64(Shr64(value, i * 8), 0xff);
        assert StoreLE(value, size)[..i + 1] == StoreLE(value, size)[..i] + [StoreLE(value, size)[i]];
        i := i + 1;
      }
      assert StoreLE(value, size)[..size] == StoreLE(value, size);
    }
  }

  /** One step of the read loop: byte b shifted to bit 8i lands above
      every bit of a value below 256^i, so OR-ing it in adds it at weight
      256^i. */
  lemma OrByteAt(value: u64, b: u8, i: nat)
    requires i < 8 && value < Pow256(i)
    ensures Or64(value, Shl64(b, i * 8)) == value + b * Pow256(i)
  {
    var p := Pow256(i);
    Pow256IsPow2(i);
    Pow256AtMost(i + 1);
    MulLeft(b, 255, p);
    assert value + b * p < Pow256(i + 1);
    ModUnique(b * p, TWO_64, 0, b * p);
    MulMod(b, p);
    OrDisjoint(value, b * p, 8 * i, 64);
  }

  /** One step of the write loop: `(value >> 8i) & 0xff` is byte i of the
      little-endian encoding. */
  lemma ByteOf(value: u64, size: nat, i: nat)
    requires i < size <= 8
    ensures And64(Shr64(value, i * 8), 0xff) == StoreLE(value, size)[i]
  {
    Pow256IsPow2(i);
    AndLowMask(Shr64(value, i * 8), 8, 64);
    StoreLEByte(value, size, i);
  }

  lemma MulLeft(b: nat, c: nat, p: nat)
    requires b <= c
    ensures b * p <= c * p
  {
    assert c * p == b * p + (c - b) * p;
    MulNonNegative(c - b, p);
  }

  /** A multiple of m has no remainder modulo m. */
  lemma MulMod(b: nat, m: nat)
    requires m >= 1
    ensures (b * m) % m == 0
  {
    ModUnique(b * m, m, b, 0);
  }
}
