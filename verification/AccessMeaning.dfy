/**
 What loads, stores and fetches move, byte by byte: each byte of the access goes
 through the translation of its own address, lowest first.
 */
module AccessMeaning {
  import opened Bits
  import opened Memory
  import opened Traps
  import opened Sv39
  import opened Sv39Standard
  import opened Accesses
  import opened AccessLemmas
  import opened StoreLoad
  import opened FetchLemmas

  // LOAD: every byte of the loaded value is the byte of memory at the physical
  // address of its own virtual address, however the access is aligned.
  lemma LoadedBytes(m: Mem, r: Regs, pc: nat, addr: U64, n: nat, t: Access, k: nat)
    requires Size(n) && k < n && Read(m, r, pc, addr, n, t).result.Ok?
    ensures var l := Read(m, r, pc, addr, n, t);
      var w := Walk(l.mem, r, pc, (addr + k) % 0x1_0000_0000_0000_0000, t);
      && l.result.value < Pow2(8 * n) && |l.mem| == |m|
      && w.result.Ok? && 0x8000_0000 <= w.result.value < 0x8000_0000 + |m|
      && l.result.value / Pow2(8 * k) % 0x100 == l.mem[w.result.value - 0x8000_0000]
  {
    hide Walk, TranslateBytes, FromBytes, Pow2, LoadLE, AccessFault;
    if addr % n == 0 { ReadIsByteRead(m, r, pc, addr, n, t); }
    AllSettled(m, r, pc, addr, n, 0, t, k);
    var a := TranslateBytes(m, r, pc, addr, n, 0, t);
    var b := Gather(a.mem, a.result.value);
    assert a.result.value[k] in a.result.value;
    ByteOfBytes(b, k);
    FromBytesBound(b);
  }

  // STORE: once every byte is translated, byte k of the value goes to the
  // physical address of byte k, and no other byte of memory changes.
  lemma StoredBytes(m: Mem, r: Regs, pc: nat, addr: U64, n: nat, v: nat, k: nat)
    requires Size(n) && k < n && Write(m, r, pc, addr, n, v).result.Ok?
    ensures var s, a := Write(m, r, pc, addr, n, v), TranslateBytes(m, r, pc, addr, n, 0, Access.Store);
      var w := Walk(a.mem, r, pc, (addr + k) % 0x1_0000_0000_0000_0000, Access.Store);
      && |s.mem| == |a.mem| == |m| && a.result.Ok? && |a.result.value| == n
      && w.result == Ok(a.result.value[k]) && 0x8000_0000 <= w.result.value < 0x8000_0000 + |m|
      && s.mem[w.result.value - 0x8000_0000] == v / Pow2(8 * k) % 0x100
      && forall p: nat :: 0x8000_0000 <= p < 0x8000_0000 + |m| && p !in a.result.value ==>
           s.mem[p - 0x8000_0000] == a.mem[p - 0x8000_0000]
  {
    hide Walk, TranslateBytes, ToBytes, Pow2, StoreLE, AccessFault, Scatter;
    if addr % n == 0 { WriteIsByteWrite(m, r, pc, addr, n, v); }
    AllSettled(m, r, pc, addr, n, 0, Access.Store, k);
    AccessBytesDistinct(m, r, pc, addr, n, Access.Store);
    var a := TranslateBytes(m, r, pc, addr, n, 0, Access.Store);
    var pas := a.result.value;
    GatherScatter(a.mem, pas, ToBytes(v, n), k);
    ByteOfNumber(v, n, k);
    forall p: nat | 0x8000_0000 <= p < 0x8000_0000 + |m| && p !in pas
      ensures Scatter(a.mem, pas, ToBytes(v, n))[p - 0x8000_0000] == a.mem[p - 0x8000_0000]
    {
      ScatterOther(a.mem, pas, ToBytes(v, n), p);
    }
  }

  // The exception codes of an access: access fault and page fault
  function Codes(t: Access): (int, int) {
    match t
    case Fetch => (1, 12)
    case Load => (5, 13)
    case Store => (7, 15)
  }

  lemma WalkFault(m: Mem, r: Regs, pc: nat, va: U64, t: Access)
    requires Walk(m, r, pc, va, t).result.Raise?
    ensures var f := Walk(m, r, pc, va, t).result.trap;
      f.pc == pc && f.tval == va && (f.cause == Cause(false, Codes(t).0) || f.cause == Cause(false, Codes(t).1))
  {
    hide Walk;
    FailureRaises(m, r, pc, va, t);
  }

  // The bytewise access faults at one of its own addresses.
  lemma {:induction false} ByteFaults(m: Mem, r: Regs, pc: nat, addr: U64, n: nat, i: nat, t: Access)
    requires i <= n <= 8 && TranslateBytes(m, r, pc, addr, n, i, t).result.Raise?
    ensures var f := TranslateBytes(m, r, pc, addr, n, i, t).result.trap;
      && f.pc == pc && (f.cause == Cause(false, Codes(t).0) || f.cause == Cause(false, Codes(t).1))
      && (f.tval - addr) % 0x1_0000_0000_0000_0000 < n
    decreases n - i
  {
    hide Walk, InDram, Codes;
    var w := Walk(m, r, pc, Wrap(addr + i), t);
    if w.result.Raise? {
      WalkFault(m, r, pc, Wrap(addr + i), t);
      Ahead(addr, i);
    } else if !InDram(m, w.result.value, 1) {
      AccessCodes(pc, addr, t);
      Ahead(addr, 0);
    } else {
      ByteFaults(w.mem, r, pc, addr, n, i + 1, t);
    }
  }

  lemma Ahead(addr: U64, k: nat)
    requires k < 8
    ensures (Wrap(addr + k) - addr) % 0x1_0000_0000_0000_0000 == k && (addr - addr) % 0x1_0000_0000_0000_0000 == 0
  {
  }

  lemma AccessCodes(pc: nat, va: nat, t: Access)
    ensures AccessFault(pc, va, t) == Trap(pc, Cause(false, Codes(t).0), va)
  {
  }

  // FIRST FAULT: when the bytes before byte k translate into memory and byte k
  // does not, the access raises what byte k's translation raises, at that byte,
  // or an access fault at the address of the whole access.
  lemma {:induction false} FirstFault(m: Mem, r: Regs, pc: nat, addr: U64, n: nat, i: nat, t: Access, k: nat)
    requires i <= k < n && TranslateBytes(m, r, pc, addr, k, i, t).result.Ok?
    ensures var a := TranslateBytes(m, r, pc, addr, n, i, t);
      var w := Walk(TranslateBytes(m, r, pc, addr, k, i, t).mem, r, pc, (addr + k) % 0x1_0000_0000_0000_0000, t);
      && (w.result.Raise? ==> a.result == Raise(w.result.trap) && a.mem == w.mem)
      && (w.result.Ok? && !(0x8000_0000 <= w.result.value < 0x8000_0000 + |m|) ==>
           a.result == Raise(Trap(pc, Cause(false, Codes(t).0), addr)) && a.mem == w.mem)
    decreases k - i
  {
    hide Walk, Codes, AccessFault;
    if i == k {
      AccessCodes(pc, addr, t);
    } else {
      FirstFault(Walk(m, r, pc, Wrap(addr + i), t).mem, r, pc, addr, n, i + 1, t, k);
    }
  }

  // LOAD FAULT: why and where a load, or an AMO's read, raises.
  lemma LoadFaults(m: Mem, r: Regs, pc: nat, addr: U64, n: nat, t: Access)
    requires Size(n) && Read(m, r, pc, addr, n, t).result.Raise?
    ensures var f := Read(m, r, pc, addr, n, t).result.trap;
      && f.pc == pc && (f.cause == Cause(false, Codes(t).0) || f.cause == Cause(false, Codes(t).1))
      && (f.tval - addr) % 0x1_0000_0000_0000_0000 < n
      && (addr % n == 0 ==> f.tval == addr)
  {
    hide Walk, TranslateBytes, LoadLE, AccessFault, Codes, Gather, FromBytes;
    AccessCodes(pc, addr, t);
    if addr % n != 0 {
      ByteFaults(m, r, pc, addr, n, 0, t);
    } else if Walk(m, r, pc, addr, t).result.Raise? {
      WalkFault(m, r, pc, addr, t);
    }
  }

  lemma StoreFaults(m: Mem, r: Regs, pc: nat, addr: U64, n: nat, v: nat)
    requires Size(n) && Write(m, r, pc, addr, n, v).result.Raise?
    ensures var f := Write(m, r, pc, addr, n, v).result.trap;
      && f.pc == pc && (f.cause == Cause(false, 7) || f.cause == Cause(false, 15))
      && (f.tval - addr) % 0x1_0000_0000_0000_0000 < n
      && (addr % n == 0 ==> f.tval == addr)
  {
    hide Walk, TranslateBytes, StoreLE, AccessFault, Scatter, ToBytes;
    AccessCodes(pc, addr, Access.Store);
    if addr % n != 0 {
      ByteFaults(m, r, pc, addr, n, 0, Access.Store);
    } else if Walk(m, r, pc, addr, Access.Store).result.Raise? {
      WalkFault(m, r, pc, addr, Access.Store);
    }
  }

  // PROBE: what a store-conditional asks before it stores: the store translation
  // of its address, and one byte of memory there.
  lemma ProbeGives(m: Mem, r: Regs, pc: nat, addr: U64)
    ensures var p, w := ProbeStore(m, r, pc, addr), Walk(m, r, pc, addr, Access.Store);
      && p.mem == w.mem
      && (w.result.Raise? ==> p.result == Raise(w.result.trap))
      && (w.result.Ok? ==>
           p.result == if 0x8000_0000 <= w.result.value < 0x8000_0000 + |m| then Ok(())
                       else Raise(Trap(pc, Cause(false, 7), addr)))
  {
    hide Walk, AccessFault;
    AccessCodes(pc, addr, Access.Store);
  }

  // ----- Fetch ---------------------------------------------------------------------------------

  predicate HalfHeld(m: Mem, a: nat) { 0x8000_0000 <= a && a + 2 <= 0x8000_0000 + |m| }

  function Half(m: Mem, a: nat): int
    requires HalfHeld(m, a)
  {
    (m[a - 0x8000_0000] as int) + 0x100 * (m[a - 0x8000_0000 + 1] as int)
  }

  lemma HalfIs(m: Mem, a: nat)
    requires InDram(m, a, 2)
    ensures HalfHeld(m, a) && LoadLE(m, a, 2) == Half(m, a)
  {
    var o := a - DRAM_BASE;
    assert m[o..o + 2] == [m[o], m[o + 1]];
    TwoBytes(m[o], m[o + 1]);
  }

  // FETCH: the halfword at pc, which is the instruction unless its two low bits
  // are set, and then with the halfword at pc + 2 above it. Both are translated
  // on their own; the first that cannot be had raises at its own address.
  lemma FetchGives(m: Mem, r: Regs, pc: U64)
    requires pc % 2 == 0 && |m| % 0x1000 == 0
    ensures var lo := Walk(m, r, pc, pc, Access.Fetch);
      var hi := Walk(lo.mem, r, pc, (pc + 2) % 0x1_0000_0000_0000_0000, Access.Fetch);
      IFetch(m, r, pc) ==
        if lo.result.Raise? then Fetched(Raise(lo.result.trap), m)
        else if !HalfHeld(m, lo.result.value) then Fetched(Raise(Trap(pc, Cause(false, 1), pc)), lo.mem)
        else if Half(lo.mem, lo.result.value) % 4 != 3 then Fetched(Ok((Half(lo.mem, lo.result.value), 2)), lo.mem)
        else if hi.result.Raise? then Fetched(Raise(hi.result.trap), lo.mem)
        else if !HalfHeld(m, hi.result.value) then
          Fetched(Raise(Trap(pc, Cause(false, 1), (pc + 2) % 0x1_0000_0000_0000_0000)), hi.mem)
        else Fetched(Ok((Half(lo.mem, lo.result.value) + 0x1_0000 * Half(hi.mem, hi.result.value), 4)), hi.mem)
  {
    hide Walk, LoadLE, IFetch, Half;
    FetchIsParcelwise(m, r, pc);
    var lo := Walk(m, r, pc, pc, Access.Fetch);
    if lo.result.Raise? { FailureRaises(m, r, pc, pc, Access.Fetch); }
    if lo.result.Ok? && InDram(m, lo.result.value, 2) { HalfIs(lo.mem, lo.result.value); }
    var hi := Walk(lo.mem, r, pc, Wrap(pc + 2), Access.Fetch);
    if hi.result.Raise? { FailureRaises(lo.mem, r, pc, Wrap(pc + 2), Access.Fetch); }
    if hi.result.Ok? && InDram(m, hi.result.value, 2) { HalfIs(hi.mem, hi.result.value); }
  }
}
