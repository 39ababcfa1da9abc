/**
 Properties of loads, stores, atomics and fetches over bare walks.
 */
module AccessLemmas {
  import opened Bits
  import opened Memory
  import opened Sv39
  import opened Sv39Lemmas
  import opened Accesses

  // ----- What a faulting or successful translation may write ---------------

  // b' is b with the A or D bit set, or both, or neither.
  ghost predicate AdSet(b: nat, b': nat) {
    forall k: nat :: (Bit(b, k) ==> Bit(b', k)) && (Bit(b', k) ==> Bit(b, k) || k == PTE_A || k == PTE_D)
  }

  // Memory changed in no byte but the first byte of aligned 8-byte entries, and
  // there only by setting A or D.
  ghost predicate OnlyAdBits(m: Mem, m': Mem) {
    |m'| == |m| &&
    forall k :: 0 <= k < |m| ==> m'[k] == m[k] || (k % 8 == 0 && AdSet(m[k], m'[k]))
  }

  lemma OnlyAdTransitive(m: Mem, m1: Mem, m2: Mem)
    requires OnlyAdBits(m, m1) && OnlyAdBits(m1, m2)
    ensures OnlyAdBits(m, m2)
  {
  }

  lemma BitOfLowByte(x: nat, k: nat)
    ensures Bit(x % 0x100, k) == (k < 8 && Bit(x, k))
  {
    assert Pow2(8) == 0x100;
    AndLowMask(x, 8);
    BitOfAnd(x, 0xFF, k);
    if k < 8 {
      assert Bit(0xFF, k);
    } else {
      HighBitsClear(0xFF, 8, k);
    }
  }

  lemma UpdateBytes(pte: nat, pte': nat)
    requires SameButAD(pte, pte')
    ensures AdSet(pte % 0x100, pte' % 0x100)
    ensures ToBytes(pte', 8)[1..] == ToBytes(pte, 8)[1..]
  {
    forall k: nat
      ensures Bit(pte % 0x100, k) ==> Bit(pte' % 0x100, k)
      ensures Bit(pte' % 0x100, k) ==> Bit(pte % 0x100, k) || k == PTE_A || k == PTE_D
    {
      BitOfLowByte(pte, k);
      BitOfLowByte(pte', k);
    }
    assert ToBytes(pte', 8)[1..] == ToBytes(pte' / 0x100, 7);
  }

  // A translation writes nothing, or sets A or D in one entry; one that faults
  // writes nothing.
  lemma WalkSetsOnlyAd(m: Mem, r: Regs, pc: nat, va: U64, t: Access)
    ensures OnlyAdBits(m, Walk(m, r, pc, va, t).mem)
    ensures Walk(m, r, pc, va, t).result.Raise? ==> Walk(m, r, pc, va, t).mem == m
  {
    hide FindLeaf, FromBytes, Bit;
    var w, l := Walk(m, r, pc, va, t), Lookup39(m, r.satp, Vpn(va));
    WalkEffect(m, r, pc, va, t);
    if w.mem != m {
      LookupFacts(m, r.satp, Vpn(va));
      UpdatedLookup(m, l, t, r.satp, Vpn(va));
      EntryUpdate(m, l.addr, UpdatedPte(t, l.pte));
    }
  }

  lemma EntryUpdate(m: Mem, p: nat, pte': nat)
    requires InDram(m, p, 8) && p % 8 == 0 && SameButAD(LoadLE(m, p, 8), pte')
    ensures OnlyAdBits(m, StoreLE(m, p, 8, pte'))
  {
    hide FromBytes, Bit;
    var o, pte := p - DRAM_BASE, LoadLE(m, p, 8);
    ToFromBytes(m[o..o + 8]);
    UpdateBytes(pte, pte');
    var m', old8, new8 := StoreLE(m, p, 8, pte'), m[o..o + 8], ToBytes(pte', 8);
    assert m'[o..o + 8] == new8 && old8 == ToBytes(pte, 8);
    forall k | 0 <= k < |m| ensures m'[k] == m[k] || (k % 8 == 0 && AdSet(m[k], m'[k])) {
      if o < k < o + 8 {
        assert m'[k] == new8[1..][k - o - 1] == old8[1..][k - o - 1] == m[k];
      } else if k == o {
        assert m'[k] == new8[0] && m[k] == old8[0];
      }
    }
  }

  lemma {:induction false} TranslationSetsOnlyAd(m: Mem, r: Regs, pc: nat, addr: U64, n: nat, i: nat, t: Access)
    requires i <= n
    ensures OnlyAdBits(m, TranslateBytes(m, r, pc, addr, n, i, t).mem)
    decreases n - i
  {
    hide Walk;
    if i < n {
      var w := Walk(m, r, pc, Wrap(addr + i), t);
      WalkSetsOnlyAd(m, r, pc, Wrap(addr + i), t);
      TranslationSetsOnlyAd(w.mem, r, pc, addr, n, i + 1, t);
      OnlyAdTransitive(m, w.mem, TranslateBytes(w.mem, r, pc, addr, n, i + 1, t).mem);
    }
  }

  // A store that traps, aligned or not, leaves every data byte as it was.
  lemma TrappedStoreWritesNoData(m: Mem, r: Regs, pc: nat, addr: U64, n: nat, v: nat)
    requires Size(n) && Write(m, r, pc, addr, n, v).result.Raise?
    ensures OnlyAdBits(m, Write(m, r, pc, addr, n, v).mem)
  {
    hide Walk;
    if addr % n == 0 {
      WalkSetsOnlyAd(m, r, pc, addr, Access.Store);
    } else {
      TranslationSetsOnlyAd(m, r, pc, addr, n, 0, Access.Store);
    }
  }

  // ----- The single-translation path is the byte-by-byte path --------------

  function Consecutive(pa: nat, n: nat): (s: seq<nat>)
    ensures |s| == n && forall k :: 0 <= k < n ==> s[k] == pa + k
  {
    seq(n, k requires 0 <= k < n => pa + k)
  }

  // Byte k of an aligned access never wraps and stays on the first byte's page.
  // An aligned access ends in the page it starts in.
  lemma AlignedRoom(addr: nat, n: nat)
    requires Size(n) && addr % n == 0
    ensures addr % 0x1000 + n <= 0x1000
  {
    if n == 2 {
      assert addr % 0x1000 % 2 == 0;
    } else if n == 4 {
      assert addr % 0x1000 % 4 == 0;
    } else if n == 8 {
      assert addr % 0x1000 % 8 == 0;
    }
  }

  lemma AlignedByte(addr: U64, n: nat, k: nat)
    requires Size(n) && addr % n == 0 && k < n
    ensures Wrap(addr + k) == addr + k && Vpn(addr + k) == Vpn(addr)
  {
    var o := addr % 0x1000;
    AlignedRoom(addr, n);
    DivUnique(addr + k, 0x1000, addr / 0x1000, o + k);
    assert addr / 0x1000 < 0x10_0000_0000_0000;
    ModSmall(addr + k, 0x1_0000_0000_0000_0000);
  }

  lemma AlignedWalks(m: Mem, r: Regs, pc: nat, addr: U64, n: nat, t: Access, k: nat)
    requires Size(n) && addr % n == 0 && k < n && Walk(m, r, pc, addr, t).result.Ok?
    ensures var w := Walk(m, r, pc, addr, t);
      Walk(w.mem, r, pc, Wrap(addr + k), t) == Walked(Ok(w.result.value + k), w.mem)
  {
    hide Walk;
    AlignedByte(addr, n, k);
    WalkIdempotent(m, r, pc, addr, t);
    SamePage(Walk(m, r, pc, addr, t).mem, r, pc, addr, addr + k, t);
  }

  // Byte k of the access translates to pas[k] with no memory effect.
  predicate Settled(m: Mem, r: Regs, pc: nat, addr: U64, pas: seq<nat>, k: nat, t: Access)
    requires k < |pas|
  {
    Walk(m, r, pc, Wrap(addr + k), t) == Walked(Ok(pas[k]), m)
  }

  lemma {:induction false} SettledTranslation(m: Mem, r: Regs, pc: nat, addr: U64, pas: seq<nat>, i: nat, t: Access)
    requires i <= |pas|
    requires forall k :: i <= k < |pas| ==> Settled(m, r, pc, addr, pas, k, t)
    ensures TranslateBytes(m, r, pc, addr, |pas|, i, t) ==
            if AllInDram(m, pas[i..]) then Addresses(Ok(pas[i..]), m)
            else Addresses(Raise(AccessFault(pc, addr, t)), m)
    decreases |pas| - i
  {
    hide Walk, AccessFault, InDram;
    if i < |pas| {
      assert Settled(m, r, pc, addr, pas, i, t);
      SettledTranslation(m, r, pc, addr, pas, i + 1, t);
      assert pas[i..] == [pas[i]] + pas[i + 1..];
    }
  }

  function AddressesFrom(w: Walked, pc: nat, addr: U64, n: nat, t: Access): Addresses {
    match w.result
    case Raise(trap) => Addresses(Raise(trap), w.mem)
    case Ok(pa) => if InDram(w.mem, pa, n) then Addresses(Ok(Consecutive(pa, n)), w.mem)
                   else Addresses(Raise(AccessFault(pc, addr, t)), w.mem)
  }

  lemma AlignedTranslation(m: Mem, r: Regs, pc: nat, addr: U64, n: nat, t: Access)
    requires Size(n) && addr % n == 0
    ensures TranslateBytes(m, r, pc, addr, n, 0, t) == AddressesFrom(Walk(m, r, pc, addr, t), pc, addr, n, t)
  {
    hide Walk, AccessFault;
    AlignedByte(addr, n, 0);
    var w := Walk(m, r, pc, addr, t);
    if w.result.Ok? {
      var pa := w.result.value;
      var pas := Consecutive(pa, n);
      forall k | 1 <= k < n ensures Settled(w.mem, r, pc, addr, pas, k, t) {
        AlignedWalks(m, r, pc, addr, n, t, k);
      }
      SettledTranslation(w.mem, r, pc, addr, pas, 1, t);
      assert pas == [pa] + pas[1..];
      ConsecutiveInDram(w.mem, pa, n);
    }
  }

  lemma StoreBytesSplit(m: Mem, pa: nat, b: seq<Byte>)
    requires InDram(m, pa, |b|) && b != []
    ensures StoreBytes(StoreBytes(m, pa, [b[0]]), pa + 1, b[1..]) == StoreBytes(m, pa, b)
  {
  }

  lemma ConsecutiveTail(m: Mem, pa: nat, n: nat)
    requires n > 0 && AllInDram(m, Consecutive(pa, n))
    ensures Consecutive(pa, n)[0] == pa && Consecutive(pa, n)[1..] == Consecutive(pa + 1, n - 1)
    ensures AllInDram(m, Consecutive(pa + 1, n - 1))
  {
    assert Consecutive(pa, n)[1..] == Consecutive(pa + 1, n - 1);
    assert forall a :: a in Consecutive(pa + 1, n - 1) ==> a in Consecutive(pa, n);
  }

  lemma StoreNothing(m: Mem, pa: nat)
    requires InDram(m, pa, 0)
    ensures StoreBytes(m, pa, []) == m
  {
  }

  lemma SameSizeInDram(m: Mem, m': Mem, pas: seq<nat>)
    requires AllInDram(m, pas) && |m'| == |m|
    ensures AllInDram(m', pas)
  {
  }

  lemma {:induction false} ScatterConsecutive(m: Mem, pa: nat, b: seq<Byte>)
    requires InDram(m, pa, |b|) && AllInDram(m, Consecutive(pa, |b|))
    ensures Scatter(m, Consecutive(pa, |b|), b) == StoreBytes(m, pa, b)
    decreases |b|
  {
    hide Consecutive, StoreBytes, AllInDram;
    if b == [] {
      StoreNothing(m, pa);
    } else {
      ConsecutiveTail(m, pa, |b|);
      StoreBytesSplit(m, pa, b);
      SameSizeInDram(m, StoreBytes(m, pa, [b[0]]), Consecutive(pa + 1, |b| - 1));
      ScatterConsecutive(StoreBytes(m, pa, [b[0]]), pa + 1, b[1..]);
    }
  }

  lemma ConsecutiveInDram(m: Mem, pa: nat, n: nat)
    requires n > 0
    ensures AllInDram(m, Consecutive(pa, n)) == InDram(m, pa, n)
  {
    var s := Consecutive(pa, n);
    assert s[0] == pa && s[n - 1] == pa + n - 1;
    assert s[0] in s && s[n - 1] in s;
  }

  lemma GatherConsecutive(m: Mem, pa: nat, n: nat)
    requires InDram(m, pa, n) && AllInDram(m, Consecutive(pa, n))
    ensures Gather(m, Consecutive(pa, n)) == m[pa - DRAM_BASE..pa - DRAM_BASE + n]
  {
  }

  // A load gives the same value, trap and memory whether the address is
  // translated once or byte by byte.
  lemma ReadIsByteRead(m: Mem, r: Regs, pc: nat, addr: U64, n: nat, t: Access)
    requires Size(n)
    ensures Read(m, r, pc, addr, n, t) == ByteRead(m, r, pc, addr, n, t)
  {
    hide Walk, AccessFault, TranslateBytes, FromBytes;
    if addr % n == 0 {
      AlignedTranslation(m, r, pc, addr, n, t);
      var w := Walk(m, r, pc, addr, t);
      if w.result.Ok? && InDram(m, w.result.value, n) {
        var pa := w.result.value;
        ConsecutiveInDram(w.mem, pa, n);
        GatherConsecutive(w.mem, pa, n);
      }
    }
  }

  lemma WriteIsByteWrite(m: Mem, r: Regs, pc: nat, addr: U64, n: nat, v: nat)
    requires Size(n)
    ensures Write(m, r, pc, addr, n, v) == ByteWrite(m, r, pc, addr, n, v)
  {
    hide Walk, AccessFault, TranslateBytes, ToBytes, StoreBytes, Scatter;
    if addr % n == 0 {
      AlignedTranslation(m, r, pc, addr, n, Access.Store);
      var w := Walk(m, r, pc, addr, Access.Store);
      if w.result.Ok? && InDram(m, w.result.value, n) {
        ConsecutiveInDram(w.mem, w.result.value, n);
        ScatterConsecutive(w.mem, w.result.value, ToBytes(v, n));
      }
    }
  }
}
