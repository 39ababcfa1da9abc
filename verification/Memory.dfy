/**
 The emulator's DRAM: a byte array that starts at physical address DRAM_BASE,
 and typed little-endian access to it.
 */
module Memory {
  import opened Bits

  const DRAM_BASE: nat := 0x8000_0000

  type Mem = seq<Byte>

  // Dram::is_valid_addr
  predicate InDram(m: Mem, addr: nat, len: nat) {
    DRAM_BASE <= addr && len <= |m| && addr - DRAM_BASE <= |m| - len
  }

  // The number whose little-endian bytes are b.
  function FromBytes(b: seq<Byte>): nat {
    if b == [] then 0 else b[0] + 0x100 * FromBytes(b[1..])
  }

  // The n low bytes of v, least significant first.
  function ToBytes(v: nat, n: nat): (b: seq<Byte>)
    ensures |b| == n
  {
    if n == 0 then [] else [v % 0x100] + ToBytes(v / 0x100, n - 1)
  }

  // Dram::read<T> with sizeof(T) == n
  function LoadLE(m: Mem, addr: nat, n: nat): nat
    requires InDram(m, addr, n)
  {
    FromBytes(m[addr - DRAM_BASE..addr - DRAM_BASE + n])
  }

  // Dram::write<T> with sizeof(T) == n, as a function from memory to memory
  function StoreLE(m: Mem, addr: nat, n: nat, v: nat): (r: Mem)
    requires InDram(m, addr, n)
    ensures |r| == |m|
  {
    StoreBytes(m, addr, ToBytes(v, n))
  }

  function StoreBytes(m: Mem, addr: nat, b: seq<Byte>): (r: Mem)
    requires InDram(m, addr, |b|)
    ensures |r| == |m|
    ensures r[addr - DRAM_BASE..addr - DRAM_BASE + |b|] == b
    ensures forall k :: 0 <= k < |m| && !(addr - DRAM_BASE <= k < addr - DRAM_BASE + |b|) ==> r[k] == m[k]
  {
    m[..addr - DRAM_BASE] + b + m[addr - DRAM_BASE + |b|..]
  }

  predicate Disjoint(a: nat, n: nat, b: nat, k: nat) {
    a + n <= b || b + k <= a
  }

  lemma {:induction false} FromToBytes(v: nat, n: nat)
    requires v < Pow2(8 * n)
    ensures FromBytes(ToBytes(v, n)) == v
  {
    if n > 0 {
      Pow2Add(8, 8 * (n - 1));
      assert ToBytes(v, n)[1..] == ToBytes(v / 0x100, n - 1);
      FromToBytes(v / 0x100, n - 1);
    }
  }

  lemma {:induction false} FromBytesBound(b: seq<Byte>)
    ensures FromBytes(b) < Pow2(8 * |b|)
  {
    if b != [] {
      FromBytesBound(b[1..]);
      var p := Pow2(8 * (|b| - 1));
      Pow2Add(8, 8 * (|b| - 1));
      assert Pow2(8) == 0x100;
      assert Pow2(8 * |b|) == 0x100 * p;
    }
  }

  lemma {:induction false} ToFromBytes(b: seq<Byte>)
    ensures ToBytes(FromBytes(b), |b|) == b
  {
    if b != [] {
      ToFromBytes(b[1..]);
      assert b == [b[0]] + b[1..];
      DivUnique(FromBytes(b), 0x100, FromBytes(b[1..]), b[0]);
    }
  }

  lemma AlignedApart(a: nat, b: nat)
    requires a % 8 == 0 && b % 8 == 0 && a != b
    ensures Disjoint(a, 8, b, 8)
  {
  }

  lemma LoadStoreSame(m: Mem, addr: nat, n: nat, v: nat)
    requires InDram(m, addr, n) && v < Pow2(8 * n)
    ensures LoadLE(StoreLE(m, addr, n, v), addr, n) == v
  {
    FromToBytes(v, n);
  }

  lemma LoadStoreOther(m: Mem, addr: nat, b: seq<Byte>, addr': nat, n': nat)
    requires InDram(m, addr, |b|) && InDram(m, addr', n')
    requires Disjoint(addr, |b|, addr', n')
    ensures LoadLE(StoreBytes(m, addr, b), addr', n') == LoadLE(m, addr', n')
  {
    var o := addr' - DRAM_BASE;
    assert StoreBytes(m, addr, b)[o..o + n'] == m[o..o + n'];
  }

  lemma DivDiv(x: nat, p: nat)
    requires p > 0
    ensures x / (0x100 * p) == x / 0x100 / p
  {
    var q, r := x / 0x100 / p, x / 0x100 % p;
    assert x / 0x100 == q * p + r;
    assert q * (0x100 * p) == 0x100 * (q * p);
    DivUnique(x, 0x100 * p, q, 0x100 * r + x % 0x100);
  }

  lemma NextByte(x: nat, k: nat)
    requires k > 0
    ensures x / Pow2(8 * k) == x / 0x100 / Pow2(8 * (k - 1))
  {
    Pow2Add(8, 8 * (k - 1));
    assert Pow2(8) == 0x100;
    DivDiv(x, Pow2(8 * (k - 1)));
  }

  lemma {:induction false} ByteOfBytes(b: seq<Byte>, k: nat)
    requires k < |b|
    ensures FromBytes(b) / Pow2(8 * k) % 0x100 == b[k]
  {
    hide Pow2;
    assert b == [b[0]] + b[1..];
    DivUnique(FromBytes(b), 0x100, FromBytes(b[1..]), b[0]);
    if k == 0 {
      SmallPowers();
    } else {
      NextByte(FromBytes(b), k);
      ByteOfBytes(b[1..], k - 1);
    }
  }

  lemma {:induction false} ByteOfNumber(v: nat, n: nat, k: nat)
    requires k < n
    ensures ToBytes(v, n)[k] == v / Pow2(8 * k) % 0x100
  {
    hide Pow2;
    if k == 0 {
      SmallPowers();
    } else {
      NextByte(v, k);
      ByteOfNumber(v / 0x100, n - 1, k - 1);
    }
  }

  // LITTLE ENDIAN: the bytes of a number lie from its address on, the lowest
  // first, in a memory that starts at 0x8000_0000.
  lemma LoadIsLittleEndian(m: Mem, addr: nat, n: nat, k: nat)
    requires InDram(m, addr, n) && k < n
    ensures 0x8000_0000 <= addr && addr + n <= 0x8000_0000 + |m|
    ensures LoadLE(m, addr, n) / Pow2(8 * k) % 0x100 == m[addr - 0x8000_0000 + k]
    ensures LoadLE(m, addr, n) < Pow2(8 * n)
  {
    hide FromBytes;
    ByteOfBytes(m[addr - DRAM_BASE..addr - DRAM_BASE + n], k);
    FromBytesBound(m[addr - DRAM_BASE..addr - DRAM_BASE + n]);
  }

  lemma StoreIsLittleEndian(m: Mem, addr: nat, n: nat, v: nat, k: nat)
    requires InDram(m, addr, n) && k < |m|
    ensures StoreLE(m, addr, n, v)[k] ==
      if addr - 0x8000_0000 <= k < addr - 0x8000_0000 + n then v / Pow2(8 * (k + 0x8000_0000 - addr)) % 0x100 else m[k]
  {
    hide Pow2, ToBytes;
    var o := addr - DRAM_BASE;
    if o <= k < o + n {
      ByteOfNumber(v, n, k - o);
      assert StoreLE(m, addr, n, v)[o..o + n][k - o] == ToBytes(v, n)[k - o];
    }
  }

  // The DRAM object, which the bus and the block device share.
  class Dram {
    const mem: array<Byte>

    constructor (size: nat)
      ensures fresh(mem) && mem.Length == size
      ensures forall k :: 0 <= k < size ==> mem[k] == 0
    {
      mem := new Byte[size](_ => 0);
    }

    predicate IsValidAddr(addr: nat, len: nat)
      reads mem
    {
      InDram(mem[..], addr, len)
    }

    method Read(addr: nat, n: nat) returns (v: nat)
      requires IsValidAddr(addr, n)
      ensures v == LoadLE(mem[..], addr, n)
    {
      var o := addr - DRAM_BASE;
      v := 0;
      var i := n;
      while i > 0
        invariant 0 <= i <= n
        invariant v == FromBytes(mem[o + i..o + n])
      {
        i := i - 1;
        assert mem[o + i..o + n] == [mem[o + i]] + mem[o + i + 1..o + n];
        v := mem[o + i] + 0x100 * v;
      }
      assert mem[..][o..o + n] == mem[o..o + n];
    }

    method Write(addr: nat, n: nat, v: nat)
      requires IsValidAddr(addr, n)
      modifies mem
      ensures mem[..] == StoreLE(old(mem[..]), addr, n, v)
    {
      WriteBytes(addr, ToBytes(v, n));
    }

    // Dram::write_bytes for a range it accepts
    method WriteBytes(addr: nat, b: seq<Byte>)
      requires IsValidAddr(addr, |b|)
      modifies mem
      ensures mem[..] == StoreBytes(old(mem[..]), addr, b)
    {
      var o := addr - DRAM_BASE;
      forall k | 0 <= k < |b| {
        mem[o + k] := b[k];
      }
    }
  }
}
