/**
 Properties of the plain Sv39 walk: where it lands, which memory it depends on,
 and why its own A/D writes never disturb it.
 */
module Sv39Lemmas {
  import opened Bits
  import opened Memory
  import opened Sv39

  // The addresses of the entries that the walk reads, in order.
  function Path(m: Mem, vpn: nat, table: nat, level: nat): seq<nat>
    decreases level
  {
    var p := PteAddr(table, vpn, level);
    if !InDram(m, p, 8) then [p]
    else
      match VisitPte(p, LoadLE(m, p, 8), level)
      case Stop(_) => [p]
      case Descend(next) => [p] + Path(m, vpn, next, level - 1)
  }

  function Path39(m: Mem, satp: U64, vpn: nat): seq<nat> {
    Path(m, vpn, RootTable(satp), TopLevel())
  }

  predicate Avoids(addr: nat, n: nat, path: seq<nat>) {
    forall k :: 0 <= k < |path| ==> Disjoint(addr, n, path[k], 8)
  }

  // A walk reads at most three entries, each aligned.
  lemma {:induction false} PathBound(m: Mem, vpn: nat, table: nat, level: nat)
    requires table % 8 == 0
    ensures 1 <= |Path(m, vpn, table, level)| <= level + 1
    ensures forall k :: 0 <= k < |Path(m, vpn, table, level)| ==> Path(m, vpn, table, level)[k] % 8 == 0
    decreases level
  {
    var p := PteAddr(table, vpn, level);
    if InDram(m, p, 8) {
      var v := VisitPte(p, LoadLE(m, p, 8), level);
      if v.Descend? {
        PathBound(m, vpn, v.table, level - 1);
      }
    }
  }

  // The walk depends on no memory outside its path.
  lemma {:induction false} WalkFrame(m: Mem, addr: nat, b: seq<Byte>, vpn: nat, table: nat, level: nat)
    requires InDram(m, addr, |b|)
    requires Avoids(addr, |b|, Path(m, vpn, table, level))
    ensures FindLeaf(StoreBytes(m, addr, b), vpn, table, level) == FindLeaf(m, vpn, table, level)
    ensures Path(StoreBytes(m, addr, b), vpn, table, level) == Path(m, vpn, table, level)
    decreases level
  {
    var p := PteAddr(table, vpn, level);
    var path := Path(m, vpn, table, level);
    assert path[0] == p;
    if InDram(m, p, 8) {
      LoadStoreOther(m, addr, b, p, 8);
      var v := VisitPte(p, LoadLE(m, p, 8), level);
      if v.Descend? {
        assert path[1..] == Path(m, vpn, v.table, level - 1);
        WalkFrame(m, addr, b, vpn, v.table, level - 1);
      }
    }
  }

  // A successful walk gives an address below 2^56 with the offset of va in its
  // 4 KiB page.
  lemma PhysAddrBound(m: Mem, satp: U64, va: U64)
    requires Lookup39(m, satp, Vpn(va)).Leaf?
    ensures var pa := PhysAddr(Lookup39(m, satp, Vpn(va)), va);
      pa < Pow2(56) && pa % 0x1000 == va % 0x1000
  {
    LookupFacts(m, satp, Vpn(va));
    LeafOffset(Lookup39(m, satp, Vpn(va)), va);
  }

  lemma LeafOffset(l: Lookup, va: nat)
    requires l.Leaf? && l.level <= 2 && AlignedLeaf(l.pte, l.level)
    ensures PhysAddr(l, va) < Pow2(56) && PhysAddr(l, va) % 0x1000 == va % 0x1000
  {
    Pow2Values();
    PageOffset(PtePpn(l.pte), va, if l.level == 0 then 1 else if l.level == 1 then 0x200 else 0x4_0000);
  }

  lemma PageOffset(ppn: nat, va: nat, pages: nat)
    requires pages in {1, 0x200, 0x4_0000} && ppn < 0x1000_0000_0000 && ppn % pages == 0
    ensures var pa := ppn * 0x1000 + va % (0x1000 * pages);
      pa < 0x100_0000_0000_0000 && pa % 0x1000 == va % 0x1000
  {
    ModMod(va, 0x1000, pages);
    var off := va % (0x1000 * pages);
    assert off < 0x1000 * pages;
    PageRoom(ppn, pages);
    DivUnique(ppn * 0x1000 + off, 0x1000, ppn + off / 0x1000, off % 0x1000);
  }

  lemma PageRoom(ppn: nat, pages: nat)
    requires pages in {1, 0x200, 0x4_0000} && ppn < 0x1000_0000_0000 && ppn % pages == 0
    ensures ppn + pages <= 0x1000_0000_0000
  {
  }

  // What an A/D update may do to an entry.
  ghost predicate SameButAD(pte: nat, pte': nat) {
    && (forall k: nat :: k != PTE_A && k != PTE_D ==> Bit(pte', k) == Bit(pte, k))
    && (Bit(pte, PTE_A) ==> Bit(pte', PTE_A)) && (Bit(pte, PTE_D) ==> Bit(pte', PTE_D))
    && pte' / 0x100 == pte / 0x100
  }

  lemma UpdateIsSameButAD(t: Access, pte: nat)
    requires pte < Pow2(64)
    ensures SameButAD(pte, UpdatedPte(t, pte)) && UpdatedPte(t, pte) < Pow2(64)
    ensures !NeedsUpdate(t, UpdatedPte(t, pte))
  {
    var q := SetBit(pte, PTE_A);
    SetBitBound(pte, PTE_A, 64);
    SetBitBound(q, PTE_D, 64);
    SetBitHighPart(pte, PTE_A, 8);
    SetBitHighPart(q, PTE_D, 8);
    assert Pow2(8) == 0x100;
    forall k: nat
      ensures Bit(q, k) == (k == PTE_A || Bit(pte, k))
      ensures Bit(SetBit(q, PTE_D), k) == (k == PTE_D || Bit(q, k))
    {
      BitOfSetBit(pte, PTE_A, k);
      BitOfSetBit(q, PTE_D, k);
    }
  }

  lemma SameButADVisit(p: nat, pte: nat, pte': nat, level: nat)
    requires SameButAD(pte, pte') && IsLeaf(pte)
    ensures Malformed(pte') == Malformed(pte) && IsLeaf(pte') && PtePpn(pte') == PtePpn(pte)
    ensures VisitPte(p, pte', level) ==
            (match VisitPte(p, pte, level) case Stop(Leaf(q, i, _)) => Stop(Leaf(q, i, pte')) case v => v)
  {
    assert pte' / 0x400 == pte / 0x400 by {
      assert pte / 0x400 == pte / 0x100 / 4 && pte' / 0x400 == pte' / 0x100 / 4;
    }
    assert pte' / 0x40_0000_0000_0000 == pte / 0x40_0000_0000_0000 by {
      assert pte / 0x40_0000_0000_0000 == pte / 0x100 / 0x4000_0000_0000;
      assert pte' / 0x40_0000_0000_0000 == pte' / 0x100 / 0x4000_0000_0000;
    }
  }

  // The lookup after entry p, a leaf, changed to pte'.
  function Redirect(l: Lookup, p: nat, pte': nat): Lookup {
    if l.Leaf? && l.addr == p then Leaf(p, l.level, pte') else l
  }

  lemma LoadAfterUpdate(m: Mem, p: nat, pte': nat, q: nat)
    requires InDram(m, p, 8) && p % 8 == 0 && InDram(m, q, 8) && q % 8 == 0 && pte' < Pow2(64)
    ensures LoadLE(StoreLE(m, p, 8, pte'), q, 8) == if q == p then pte' else LoadLE(m, q, 8)
  {
    if q == p {
      LoadStoreSame(m, p, 8, pte');
    } else {
      AlignedApart(p, q);
      LoadStoreOther(m, p, ToBytes(pte', 8), q, 8);
    }
  }

  // An A/D update leaves every walk as it was, except for the A and D bits of
  // the leaf it may share -- also when page tables map each other.
  lemma {:induction false} UpdateTransparent(m: Mem, p: nat, pte': nat, vpn: nat, table: nat, level: nat)
    requires InDram(m, p, 8) && p % 8 == 0 && table % 8 == 0
    requires IsLeaf(LoadLE(m, p, 8)) && SameButAD(LoadLE(m, p, 8), pte') && pte' < Pow2(64)
    ensures FindLeaf(StoreLE(m, p, 8, pte'), vpn, table, level) ==
            Redirect(FindLeaf(m, vpn, table, level), p, pte')
    decreases level
  {
    hide Bit, SetBit, Pow2, PtePpn, FromBytes, ToBytes;
    var m' := StoreLE(m, p, 8, pte');
    var q := PteAddr(table, vpn, level);
    if InDram(m, q, 8) {
      var v := VisitPte(q, LoadLE(m, q, 8), level);
      var v' := VisitPte(q, LoadLE(m', q, 8), level);
      LoadAfterUpdate(m, p, pte', q);
      if q == p {
        SameButADVisit(p, LoadLE(m, p, 8), pte', level);
      } else {
        assert v' == v;
        match v {
          case Descend(next) => UpdateTransparent(m, p, pte', vpn, next, level - 1);
          case Stop(l) =>
        }
      }
    }
  }

  // Two lookups that differ at most in the A and D bits of the leaf.
  ghost predicate SameLookup(l: Lookup, l': Lookup) {
    if l.Leaf? then l'.Leaf? && l'.addr == l.addr && l'.level == l.level && SameButAD(l.pte, l'.pte)
    else l' == l
  }

  lemma SameLookupMeansSame(l: Lookup, l': Lookup, r: Regs, t: Access, va: nat)
    requires l.Leaf? && SameLookup(l, l') && IsLeaf(l.pte)
    ensures PhysAddr(l', va) == PhysAddr(l, va) && Permitted(r, t, l'.pte) == Permitted(r, t, l.pte)
    ensures !NeedsUpdate(t, l.pte) ==> !NeedsUpdate(t, l'.pte)
  {
    SameButADVisit(l.addr, l.pte, l'.pte, l.level);
  }

  // A translation either leaves memory alone or updates the A/D bits of its leaf.
  lemma WalkEffect(m: Mem, r: Regs, pc: nat, va: U64, t: Access)
    ensures var w := Walk(m, r, pc, va, t); var l := Lookup39(m, r.satp, Vpn(va));
      w.mem == m || (l.Leaf? && InDram(m, l.addr, 8) && w.mem == StoreLE(m, l.addr, 8, UpdatedPte(t, l.pte)))
  {
    hide Bit, SetBit, Pow2, PtePpn, FromBytes, ToBytes, FindLeaf, PhysAddr, Permitted, NeedsUpdate,
      UpdatedPte, Canonical, Paged;
    if Lookup39(m, r.satp, Vpn(va)).Leaf? {
      LookupFacts(m, r.satp, Vpn(va));
    }
  }

  lemma UpdatedLookup(m: Mem, l: Lookup, t: Access, satp: U64, vpn: nat)
    requires l.Leaf? && InDram(m, l.addr, 8) && l.addr % 8 == 0 && l.pte == LoadLE(m, l.addr, 8)
    requires IsLeaf(l.pte) && l.pte < Pow2(64)
    ensures Lookup39(StoreLE(m, l.addr, 8, UpdatedPte(t, l.pte)), satp, vpn) ==
            Redirect(Lookup39(m, satp, vpn), l.addr, UpdatedPte(t, l.pte))
    ensures SameButAD(l.pte, UpdatedPte(t, l.pte)) && !NeedsUpdate(t, UpdatedPte(t, l.pte))
  {
    UpdateIsSameButAD(t, l.pte);
    UpdateTransparent(m, l.addr, UpdatedPte(t, l.pte), vpn, RootTable(satp), TopLevel());
  }

  // After any translation, every lookup -- of any page, from any root -- finds
  // the same leaf entry, with the same physical page and permissions.
  lemma WalkKeepsLookups(m: Mem, r: Regs, pc: nat, va: U64, t: Access, satp: U64, vpn: nat)
    ensures SameLookup(Lookup39(m, satp, vpn), Lookup39(Walk(m, r, pc, va, t).mem, satp, vpn))
  {
    WalkEffect(m, r, pc, va, t);
    var w, l, l2 := Walk(m, r, pc, va, t), Lookup39(m, r.satp, Vpn(va)), Lookup39(m, satp, vpn);
    if w.mem != m {
      LookupFacts(m, r.satp, Vpn(va));
      UpdatedLookup(m, l, t, satp, vpn);
      if l2.Leaf? {
        LookupFacts(m, satp, vpn);
      }
    }
  }

  // The access is refused only because its A or D bit is clear and the hart
  // does not update them (Svade).
  predicate RefusedForAD(m: Mem, r: Regs, va: U64, t: Access) {
    var l := Lookup39(m, r.satp, Vpn(va));
    Paged(r, t) && l.Leaf? && NeedsUpdate(t, l.pte) && !r.adue
  }

  // A/D updates are transparent: one translation changes the outcome of no
  // other, unless that one was refused for a clear A or D bit.
  lemma WalksDoNotInterfere(m: Mem, r: Regs, pc: nat, va: U64, t: Access,
                            r': Regs, pc': nat, va': U64, t': Access)
    requires !RefusedForAD(m, r', va', t')
    ensures Walk(Walk(m, r, pc, va, t).mem, r', pc', va', t').result == Walk(m, r', pc', va', t').result
  {
    hide Bit, SetBit, Pow2, PtePpn, FindLeaf, PhysAddr, FromBytes, ToBytes, StoreBytes, UpdatedPte, IsLeaf;
    var m1 := Walk(m, r, pc, va, t).mem;
    WalkKeepsLookups(m, r, pc, va, t, r'.satp, Vpn(va'));
    var l, l' := Lookup39(m, r'.satp, Vpn(va')), Lookup39(m1, r'.satp, Vpn(va'));
    if l.Leaf? {
      LookupFacts(m, r'.satp, Vpn(va'));
      SameLookupMeansSame(l, l', r', t', va');
    }
  }

  // Translating again gives the same address and writes nothing.
  lemma WalkIdempotent(m: Mem, r: Regs, pc: nat, va: U64, t: Access)
    requires Walk(m, r, pc, va, t).result.Ok?
    ensures var w := Walk(m, r, pc, va, t); Walk(w.mem, r, pc, va, t) == w
  {
    hide Bit, SetBit, Pow2, PtePpn, FindLeaf, PhysAddr, FromBytes, ToBytes, StoreBytes, UpdatedPte, IsLeaf;
    var w := Walk(m, r, pc, va, t);
    if Paged(r, t) {
      UpdatedLeaf(m, r, pc, va, t);
      WalkKeepsLookups(m, r, pc, va, t, r.satp, Vpn(va));
      LookupFacts(m, r.satp, Vpn(va));
      SameLookupMeansSame(Lookup39(m, r.satp, Vpn(va)), Lookup39(w.mem, r.satp, Vpn(va)), r, t, va);
    }
  }

  // After a successful translation the leaf has the bits the access needs.
  lemma UpdatedLeaf(m: Mem, r: Regs, pc: nat, va: U64, t: Access)
    requires Paged(r, t) && Walk(m, r, pc, va, t).result.Ok?
    ensures var l := Lookup39(Walk(m, r, pc, va, t).mem, r.satp, Vpn(va));
      l.Leaf? && !NeedsUpdate(t, l.pte)
  {
    var l := Lookup39(m, r.satp, Vpn(va));
    LookupFacts(m, r.satp, Vpn(va));
    UpdatedLookup(m, l, t, r.satp, Vpn(va));
  }

  // A page that a store may use, a load may use, at the same address and with
  // no further write: W without R is malformed, and A is set.
  lemma StoreImpliesLoad(m: Mem, r: Regs, pc: nat, va: U64)
    requires Walk(m, r, pc, va, Access.Store).result.Ok?
    ensures var w := Walk(m, r, pc, va, Access.Store); Walk(w.mem, r, pc, va, Access.Load) == w
  {
    hide Bit, SetBit, Pow2, PtePpn, FindLeaf, PhysAddr, FromBytes, ToBytes, StoreBytes, UpdatedPte, IsLeaf;
    var w := Walk(m, r, pc, va, Access.Store);
    if Paged(r, Access.Store) {
      UpdatedLeaf(m, r, pc, va, Access.Store);
      WalkKeepsLookups(m, r, pc, va, Access.Store, r.satp, Vpn(va));
      LookupFacts(m, r.satp, Vpn(va));
      SameLookupMeansSame(Lookup39(m, r.satp, Vpn(va)), Lookup39(w.mem, r.satp, Vpn(va)),
                          r, Access.Load, va);
    }
  }

  // Every page of a superpage finds the superpage's leaf.
  lemma {:induction false} SuperpageLookup(m: Mem, vpn: nat, vpn': nat, table: nat, level: nat)
    requires table % 8 == 0 && level <= 2 && FindLeaf(m, vpn, table, level).Leaf?
    requires var i := FindLeaf(m, vpn, table, level).level; vpn / Pow2(9 * i) == vpn' / Pow2(9 * i)
    ensures FindLeaf(m, vpn', table, level) == FindLeaf(m, vpn, table, level)
    decreases level
  {
    hide PteAddr, PtePpn, FromBytes, IsLeaf, Pow2, Malformed, AlignedLeaf;
    LeafFacts(m, vpn, table, level);
    SameIndex(vpn, vpn', FindLeaf(m, vpn, table, level).level, level, table);
    var p := PteAddr(table, vpn, level);
    var v := VisitPte(p, LoadLE(m, p, 8), level);
    if v.Descend? {
      SuperpageLookup(m, vpn, vpn', v.table, level - 1);
    }
  }

  // Page numbers that agree above a level index alike there and further up.
  lemma SameIndex(vpn: nat, vpn': nat, i: nat, level: nat, table: nat)
    requires i <= level <= 2 && vpn / Pow2(9 * i) == vpn' / Pow2(9 * i)
    ensures PteAddr(table, vpn, level) == PteAddr(table, vpn', level)
  {
    hide Pow2;
    LevelPages(i);
    LevelPages(level);
    Halvings(vpn);
    Halvings(vpn');
  }

  lemma LevelPages(level: nat)
    requires level <= 2
    ensures Pow2(9 * level) == if level == 0 then 1 else if level == 1 then 0x200 else 0x4_0000
  {
    Pow2Values();
  }

  lemma Halvings(x: nat)
    ensures x / 1 == x && x / 0x4_0000 == x / 0x200 / 0x200
  {
  }

  // Two accesses to one page agree on everything but the offset.
  lemma SamePage(m: Mem, r: Regs, pc: nat, va: U64, va': U64, t: Access)
    requires Vpn(va) == Vpn(va') && Walk(m, r, pc, va, t).result.Ok?
    ensures Walk(m, r, pc, va', t).result.Ok? && Walk(m, r, pc, va', t).mem == Walk(m, r, pc, va, t).mem
    ensures Walk(m, r, pc, va', t).result.value - va' == Walk(m, r, pc, va, t).result.value - va
  {
    hide Bit, SetBit, Pow2, PtePpn, FromBytes, ToBytes, FindLeaf, PhysAddr;
    if Paged(r, t) {
      LookupFacts(m, r.satp, Vpn(va));
      SameLeafOffsets(Lookup39(m, r.satp, Vpn(va)), va, va');
    }
  }

  lemma SameLeafOffsets(l: Lookup, va: nat, va': nat)
    requires l.Leaf? && l.level <= 2 && Vpn(va) == Vpn(va')
    ensures PhysAddr(l, va') - va' == PhysAddr(l, va) - va
  {
    Pow2Values();
    PageOffsets(va, va', if l.level == 0 then 1 else if l.level == 1 then 0x200 else 0x4_0000);
  }

  lemma PageOffsets(va: nat, va': nat, pages: nat)
    requires Vpn(va) == Vpn(va') && pages > 0
    ensures va % (0x1000 * pages) - va == va' % (0x1000 * pages) - va'
  {
    OffsetInLargePage(va, pages);
    OffsetInLargePage(va', pages);
  }

  lemma OffsetInLargePage(va: nat, pages: nat)
    requires pages > 0
    ensures va % (0x1000 * pages) == va % 0x1000 + 0x1000 * (Vpn(va) % pages)
  {
    var q, s := Vpn(va) / pages, Vpn(va) % pages;
    MulRegroup(q, 0x1000, pages, s);
    assert s + 1 <= pages;
    DivUnique(va, 0x1000 * pages, q, va % 0x1000 + 0x1000 * s);
  }
}
