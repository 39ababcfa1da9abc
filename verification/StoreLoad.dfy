/**
 A load after a store to the same address returns the stored value, and the
 second access of an AMO or SC cannot fault.
 */
module StoreLoad {
  import opened Bits
  import opened Memory
  import opened Sv39
  import opened Sv39Lemmas
  import opened Accesses
  import opened AccessLemmas

  // A translation that writes nothing keeps its outcome, and still writes
  // nothing, after any other translation.
  lemma SettledStays(m: Mem, r: Regs, pc: nat, va: U64, t: Access, r': Regs, pc': nat, va': U64, t': Access)
    requires Walk(m, r, pc, va, t).result.Ok? && Walk(m, r, pc, va, t).mem == m
    ensures var m' := Walk(m, r', pc', va', t').mem;
      Walk(m', r, pc, va, t) == Walked(Walk(m, r, pc, va, t).result, m')
  {
    hide FindLeaf, Permitted, PhysAddr, Bit;
    WalksDoNotInterfere(m, r', pc', va', t', r, pc, va, t);
    if Paged(r, t) {
      UpdatedLeaf(m, r, pc, va, t);
      LookupFacts(m, r.satp, Vpn(va));
      WalkKeepsLookups(m, r', pc', va', t', r.satp, Vpn(va));
      SameLookupMeansSame(Lookup39(m, r.satp, Vpn(va)),
                          Lookup39(Walk(m, r', pc', va', t').mem, r.satp, Vpn(va)), r, t, va);
    }
  }

  lemma {:induction false} SettledThrough(m: Mem, r: Regs, pc: nat, va: U64, t: Access,
                                          addr: U64, n: nat, i: nat, t': Access)
    requires i <= n
    requires Walk(m, r, pc, va, t).result.Ok? && Walk(m, r, pc, va, t).mem == m
    ensures var m' := TranslateBytes(m, r, pc, addr, n, i, t').mem;
      Walk(m', r, pc, va, t) == Walked(Walk(m, r, pc, va, t).result, m')
    decreases n - i
  {
    hide Walk, AccessFault, InDram;
    if i < n {
      SettledStays(m, r, pc, va, t, r, pc, Wrap(addr + i), t');
      SettledThrough(Walk(m, r, pc, Wrap(addr + i), t').mem, r, pc, va, t, addr, n, i + 1, t');
    }
  }

  // Once all bytes are translated, translating any of them again writes nothing.
  lemma {:induction false} AllSettled(m: Mem, r: Regs, pc: nat, addr: U64, n: nat, i: nat, t: Access, k: nat)
    requires i <= k < n && TranslateBytes(m, r, pc, addr, n, i, t).result.Ok?
    ensures var a := TranslateBytes(m, r, pc, addr, n, i, t);
      Walk(a.mem, r, pc, Wrap(addr + k), t) == Walked(Ok(a.result.value[k - i]), a.mem)
    decreases n - i
  {
    hide Walk, AccessFault, InDram;
    var w := Walk(m, r, pc, Wrap(addr + i), t);
    if k == i {
      WalkIdempotent(m, r, pc, Wrap(addr + i), t);
      SettledThrough(w.mem, r, pc, Wrap(addr + i), t, addr, n, i + 1, t);
    } else {
      AllSettled(w.mem, r, pc, addr, n, i + 1, t, k);
    }
  }

  // The store bytes at pas touch no entry on the path.
  predicate AvoidsAll(pas: seq<nat>, path: seq<nat>) {
    forall pa :: pa in pas ==> Avoids(pa, 1, path)
  }

  lemma {:induction false} ScatterFrame(m: Mem, pas: seq<nat>, b: seq<Byte>, satp: U64, vpn: nat)
    requires |pas| == |b| && AllInDram(m, pas) && AvoidsAll(pas, Path39(m, satp, vpn))
    ensures Lookup39(Scatter(m, pas, b), satp, vpn) == Lookup39(m, satp, vpn)
    decreases |pas|
  {
    hide Avoids, FindLeaf, Path;
    if pas != [] {
      var m' := StoreBytes(m, pas[0], [b[0]]);
      assert forall pa :: pa in pas[1..] ==> pa in pas;
      WalkFrame(m, pas[0], [b[0]], vpn, RootTable(satp), TopLevel());
      ScatterFrame(m', pas[1..], b[1..], satp, vpn);
    }
  }

  predicate Distinct(pas: seq<nat>) {
    forall i, j :: 0 <= i < j < |pas| ==> pas[i] != pas[j]
  }

  lemma {:induction false} ScatterOther(m: Mem, pas: seq<nat>, b: seq<Byte>, pa: nat)
    requires |pas| == |b| && AllInDram(m, pas) && InDram(m, pa, 1) && pa !in pas
    ensures ByteAt(Scatter(m, pas, b), pa) == ByteAt(m, pa)
    decreases |pas|
  {
    if pas != [] {
      assert forall q :: q in pas[1..] ==> q in pas;
      ScatterOther(StoreBytes(m, pas[0], [b[0]]), pas[1..], b[1..], pa);
    }
  }

  lemma {:induction false} GatherScatter(m: Mem, pas: seq<nat>, b: seq<Byte>, k: nat)
    requires |pas| == |b| && AllInDram(m, pas) && Distinct(pas) && k < |pas|
    ensures pas[k] in pas && ByteAt(Scatter(m, pas, b), pas[k]) == b[k]
    decreases |pas|
  {
    var m' := StoreBytes(m, pas[0], [b[0]]);
    assert forall q :: q in pas[1..] ==> q in pas;
    if k == 0 {
      ScatterOther(m', pas[1..], b[1..], pas[0]);
      assert m'[pas[0] - DRAM_BASE..pas[0] - DRAM_BASE + 1] == [b[0]];
    } else {
      GatherScatter(m', pas[1..], b[1..], k - 1);
    }
  }

  // Translation keeps the offset within a 4 KiB page.
  lemma WalkOffset(m: Mem, r: Regs, pc: nat, va: U64, t: Access)
    requires Walk(m, r, pc, va, t).result.Ok?
    ensures Walk(m, r, pc, va, t).result.value % 0x1000 == va % 0x1000
  {
    if Paged(r, t) {
      PhysAddrBound(m, r.satp, va);
    }
  }

  lemma WrapOffset(a: nat)
    ensures Wrap(a) % 0x1000 == a % 0x1000
  {
    ModMod(a, 0x1000, 0x10_0000_0000_0000);
  }

  lemma OffsetsDiffer(a: nat, i: nat, j: nat)
    requires i < j < 8
    ensures (a + i) % 0x1000 != (a + j) % 0x1000
  {
  }

  // The bytes of one access lie at distinct physical addresses, however the
  // pages map.
  lemma AccessBytesDistinct(m: Mem, r: Regs, pc: nat, addr: U64, n: nat, t: Access)
    requires n <= 8 && TranslateBytes(m, r, pc, addr, n, 0, t).result.Ok?
    ensures Distinct(TranslateBytes(m, r, pc, addr, n, 0, t).result.value)
  {
    hide Walk, TranslateBytes, Wrap;
    var a := TranslateBytes(m, r, pc, addr, n, 0, t);
    var pas := a.result.value;
    forall i, j | 0 <= i < j < |pas| ensures pas[i] != pas[j] {
      ByteOffset(m, r, pc, addr, n, t, i);
      ByteOffset(m, r, pc, addr, n, t, j);
      OffsetsDiffer(addr, i, j);
    }
  }

  lemma ByteOffset(m: Mem, r: Regs, pc: nat, addr: U64, n: nat, t: Access, k: nat)
    requires k < n && TranslateBytes(m, r, pc, addr, n, 0, t).result.Ok?
    ensures TranslateBytes(m, r, pc, addr, n, 0, t).result.value[k] % 0x1000 == (addr + k) % 0x1000
  {
    hide Walk, TranslateBytes, Wrap;
    var a := TranslateBytes(m, r, pc, addr, n, 0, t);
    AllSettled(m, r, pc, addr, n, 0, t, k);
    WalkOffset(a.mem, r, pc, Wrap(addr + k), t);
    WrapOffset(addr + k);
  }

  // The page-table entries that the walk for byte k of the access reads.
  function BytePath(m: Mem, r: Regs, addr: U64, k: nat): seq<nat> {
    Path39(m, r.satp, Vpn(Wrap(addr + k)))
  }

  // The stored bytes avoid the page-table entries behind the stored-to pages.
  predicate StoreAvoidsItsTables(m: Mem, r: Regs, pc: nat, addr: U64, n: nat) {
    var a := TranslateBytes(m, r, pc, addr, n, 0, Access.Store);
    a.result.Ok? && Paged(r, Access.Store) ==>
      forall k :: 0 <= k < n ==> AvoidsAll(a.result.value, BytePath(a.mem, r, addr, k))
  }

  lemma LoadSettledAfterStore(m: Mem, r: Regs, pc: nat, addr: U64, n: nat, b: seq<Byte>, k: nat)
    requires k < n && |b| == n && StoreAvoidsItsTables(m, r, pc, addr, n)
    requires TranslateBytes(m, r, pc, addr, n, 0, Access.Store).result.Ok?
    ensures var a := TranslateBytes(m, r, pc, addr, n, 0, Access.Store);
      Settled(Scatter(a.mem, a.result.value, b), r, pc, addr, a.result.value, k, Access.Load)
  {
    hide TranslateBytes, Scatter, FindLeaf, Bit, PhysAddr, Path;
    var a := TranslateBytes(m, r, pc, addr, n, 0, Access.Store);
    var va := Wrap(addr + k);
    AllSettled(m, r, pc, addr, n, 0, Access.Store, k);
    StoreImpliesLoad(a.mem, r, pc, va);
    if Paged(r, Access.Load) {
      assert AvoidsAll(a.result.value, BytePath(a.mem, r, addr, k));
      ScatterFrame(a.mem, a.result.value, b, r.satp, Vpn(va));
      UpdatedLeaf(a.mem, r, pc, va, Access.Load);
    }
  }

  // STORE THEN LOAD, for every address, size and alignment: a successful store
  // that avoids the page-table entries it uses makes the load succeed, return
  // the value, and write nothing.
  lemma StoreThenLoad(m: Mem, r: Regs, pc: nat, addr: U64, n: nat, v: nat)
    requires Size(n) && v < Pow2(8 * n)
    requires Write(m, r, pc, addr, n, v).result.Ok? && StoreAvoidsItsTables(m, r, pc, addr, n)
    ensures var m' := Write(m, r, pc, addr, n, v).mem;
      Read(m', r, pc, addr, n, Access.Load) == Loaded(Ok(v), m')
  {
    hide TranslateBytes, Scatter, FindLeaf, Bit, Walk, Write, Read, StoreAvoidsItsTables, Pow2, FromBytes, ToBytes;
    WriteIsByteWrite(m, r, pc, addr, n, v);
    var a := TranslateBytes(m, r, pc, addr, n, 0, Access.Store);
    var pas, b := a.result.value, ToBytes(v, n);
    var m' := Scatter(a.mem, pas, b);
    forall k | 0 <= k < n ensures Settled(m', r, pc, addr, pas, k, Access.Load) {
      LoadSettledAfterStore(m, r, pc, addr, n, b, k);
    }
    SettledTranslation(m', r, pc, addr, pas, 0, Access.Load);
    assert pas[0..] == pas;
    AccessBytesDistinct(m, r, pc, addr, n, Access.Store);
    forall k | 0 <= k < n ensures Gather(m', pas)[k] == b[k] {
      GatherScatter(a.mem, pas, b, k);
    }
    assert Gather(m', pas) == b;
    FromToBytes(v, n);
    ReadIsByteRead(m', r, pc, addr, n, Access.Load);
  }

  // AMO: after its load with store semantics, the store of any value to the
  // same aligned address succeeds and writes exactly the data.
  lemma AmoStoreCannotFault(m: Mem, r: Regs, pc: nat, addr: U64, n: nat, v: nat)
    requires Size(n) && addr % n == 0 && Read(m, r, pc, addr, n, Access.Store).result.Ok?
    ensures var m1 := Read(m, r, pc, addr, n, Access.Store).mem;
      var pa := Walk(m, r, pc, addr, Access.Store).result.value;
      Write(m1, r, pc, addr, n, v) == Stored(Ok(()), StoreLE(m1, pa, n, v))
  {
    hide Walk;
    WalkIdempotent(m, r, pc, addr, Access.Store);
  }

  // SC: a probe that succeeds on an aligned address makes the following store
  // succeed, when memory is a whole number of such words.
  lemma ProbedStoreCannotFault(m: Mem, r: Regs, pc: nat, addr: U64, n: nat, v: nat)
    requires Size(n) && addr % n == 0 && |m| % n == 0 && ProbeStore(m, r, pc, addr).result.Ok?
    ensures Write(ProbeStore(m, r, pc, addr).mem, r, pc, addr, n, v).result.Ok?
  {
    var w := Walk(m, r, pc, addr, Access.Store);
    WalkIdempotent(m, r, pc, addr, Access.Store);
    WalkOffset(m, r, pc, addr, Access.Store);
    WordFits(|m|, addr, w.result.value, n);
  }

  lemma WordFits(size: nat, addr: nat, pa: nat, n: nat)
    requires Size(n) && addr % n == 0 && size % n == 0 && pa % 0x1000 == addr % 0x1000
    requires DRAM_BASE <= pa < DRAM_BASE + size
    ensures pa + n <= DRAM_BASE + size
  {
    ModMod(addr, n, 0x1000 / n);
    ModMod(pa, n, 0x1000 / n);
    assert n * (0x1000 / n) == 0x1000;
    LastWord(size, pa, n);
  }

  lemma LastWord(size: nat, pa: nat, n: nat)
    requires Size(n) && pa % n == 0 && size % n == 0 && DRAM_BASE <= pa < DRAM_BASE + size
    ensures pa + n <= DRAM_BASE + size
  {
    if n == 2 { LastPair(size, pa); } else if n == 4 { LastQuad(size, pa); } else if n == 8 { LastOct(size, pa); }
  }

  lemma LastPair(size: nat, pa: nat)
    requires pa % 2 == 0 && size % 2 == 0 && pa < DRAM_BASE + size
    ensures pa + 2 <= DRAM_BASE + size
  {
  }

  lemma LastQuad(size: nat, pa: nat)
    requires pa % 4 == 0 && size % 4 == 0 && pa < DRAM_BASE + size
    ensures pa + 4 <= DRAM_BASE + size
  {
  }

  lemma LastOct(size: nat, pa: nat)
    requires pa % 8 == 0 && size % 8 == 0 && pa < DRAM_BASE + size
    ensures pa + 8 <= DRAM_BASE + size
  {
  }
}
