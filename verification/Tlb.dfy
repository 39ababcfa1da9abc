/**
 The translation cache: what a cached translation does, when an entry agrees
 with memory, and that translation through an agreeing entry is the bare walk.
 */
module Tlb {
  import opened Bits
  import opened Memory
  import opened Sv39
  import opened Sv39Lemmas

  const TLB_ENTRIES: nat := 128

  type Ppn = x: int | 0 <= x < 0x1000_0000_0000

  datatype TlbEntry = TlbEntry(vpn: nat, ppn: Ppn, perm: nat, valid: bool, dirty: bool)

  const EMPTY: TlbEntry := TlbEntry(0, 0, 0, false, false)

  // R, W, X and U
  const PERM_MASK: nat := 0x1E

  function Slot(vpn: nat): (i: nat)
    ensures i < TLB_ENTRIES
  {
    vpn % TLB_ENTRIES
  }

  // The entry answers the access without a walk.
  predicate Hit(e: TlbEntry, vpn: nat, r: Regs, t: Access) {
    e.valid && e.vpn == vpn && Permitted(r, t, e.perm) && (t.Store? ==> e.dirty)
  }

  // The physical page of vpn under a leaf: the leaf's page, with the low page
  // number bits of the address when the leaf is a superpage.
  function LeafPpn(l: Lookup, vpn: nat): (ppn: Ppn)
    requires l.Leaf? && l.level <= 2 && AlignedLeaf(l.pte, l.level)
  {
    LeafRoom(l, vpn);
    PtePpn(l.pte) + vpn % Pow2(9 * l.level)
  }

  lemma LeafRoom(l: Lookup, vpn: nat)
    requires l.Leaf? && l.level <= 2 && AlignedLeaf(l.pte, l.level)
    ensures PtePpn(l.pte) + vpn % Pow2(9 * l.level) < 0x1000_0000_0000
  {
    hide Bit, SetBit;
    Pow2Values();
    PageRoom(PtePpn(l.pte), if l.level == 0 then 1 else if l.level == 1 then 0x200 else 0x4_0000);
  }

  function Fill(l: Lookup, vpn: nat): TlbEntry
    requires l.Leaf? && l.level <= 2 && AlignedLeaf(l.pte, l.level)
  {
    TlbEntry(vpn, LeafPpn(l, vpn), And(l.pte, PERM_MASK), true, Bit(l.pte, PTE_D))
  }

  datatype Cached = Cached(result: Result<nat>, mem: Mem, entry: TlbEntry)

  // One translation through the entry e of its slot, as MMU::translate does it.
  function CachedWalk(m: Mem, r: Regs, e: TlbEntry, pc: nat, va: U64, t: Access): (c: Cached)
    ensures |c.mem| == |m|
  {
    if !Paged(r, t) then Cached(Ok(va), m, e)
    else if Canonical(va) && Hit(e, Vpn(va), r, t) then
      Cached(Ok(e.ppn * 0x1000 + va % 0x1000), m, e)
    else
      var w := Walk(m, r, pc, va, t);
      if w.result.Raise? then Cached(w.result, m, e)
      else
        LookupFacts(m, r.satp, Vpn(va));
        Cached(w.result, w.mem, Fill(Lookup39(m, r.satp, Vpn(va)), Vpn(va)))
  }

  // A valid entry describes the leaf that memory holds now: the same page and
  // permissions, A set, and D set if the entry says dirty.
  predicate Agrees(m: Mem, satp: U64, e: TlbEntry) {
    e.valid ==>
      var l := Lookup39(m, satp, e.vpn);
      && l.Leaf? && l.level <= 2 && AlignedLeaf(l.pte, l.level)
      && e.ppn == LeafPpn(l, e.vpn)
      && e.perm == And(l.pte, PERM_MASK)
      && Bit(l.pte, PTE_A) && (e.dirty ==> Bit(l.pte, PTE_D))
  }

  lemma PermissionBits(r: Regs, t: Access, pte: nat)
    ensures Permitted(r, t, And(pte, PERM_MASK)) == Permitted(r, t, pte)
  {
    assert Bit(PERM_MASK, PTE_R) && Bit(PERM_MASK, PTE_W) && Bit(PERM_MASK, PTE_X) && Bit(PERM_MASK, PTE_U);
    BitOfAnd(pte, PERM_MASK, PTE_R);
    BitOfAnd(pte, PERM_MASK, PTE_W);
    BitOfAnd(pte, PERM_MASK, PTE_X);
    BitOfAnd(pte, PERM_MASK, PTE_U);
  }

  // The superpage composition of page number and offset is the address of the
  // standard: leaf.PPN * 4096 + va mod 2^(12 + 9i).
  lemma LeafPpnAddress(l: Lookup, va: nat)
    requires l.Leaf? && l.level <= 2 && AlignedLeaf(l.pte, l.level)
    ensures LeafPpn(l, Vpn(va)) * 0x1000 + va % 0x1000 == PhysAddr(l, va)
  {
    hide Bit, PtePpn, Pow2, And, IsLeaf;
    LevelSpan(l.level);
    OffsetInLargePage(va, Pow2(9 * l.level));
  }

  lemma LevelSpan(level: nat)
    ensures Pow2(12 + 9 * level) == 0x1000 * Pow2(9 * level)
  {
    Pow2Values();
    Pow2Add(12, 9 * level);
  }

  // A hit on an entry that agrees with memory is what the walk would do.
  lemma HitIsWalk(m: Mem, r: Regs, e: TlbEntry, pc: nat, va: U64, t: Access)
    requires Paged(r, t) && Canonical(va) && Hit(e, Vpn(va), r, t) && Agrees(m, r.satp, e)
    ensures Walk(m, r, pc, va, t) == Walked(Ok(e.ppn * 0x1000 + va % 0x1000), m)
  {
    hide Bit, SetBit, Pow2, FindLeaf, PtePpn, And;
    var l := Lookup39(m, r.satp, Vpn(va));
    PermissionBits(r, t, l.pte);
    LeafPpnAddress(l, va);
  }

  lemma SameLookupAgrees(m: Mem, m': Mem, satp: U64, e: TlbEntry)
    requires Agrees(m, satp, e)
    requires SameLookup(Lookup39(m, satp, e.vpn), Lookup39(m', satp, e.vpn))
    ensures Agrees(m', satp, e)
  {
    if e.valid {
      var l, l' := Lookup39(m, satp, e.vpn), Lookup39(m', satp, e.vpn);
      LookupFacts(m, satp, e.vpn);
      SameButADVisit(l.addr, l.pte, l'.pte, l.level);
      SamePermissionBits(l.pte, l'.pte);
    }
  }

  lemma SamePermissionBits(pte: nat, pte': nat)
    requires SameButAD(pte, pte')
    ensures And(pte', PERM_MASK) == And(pte, PERM_MASK)
  {
    assert !Bit(PERM_MASK, PTE_A) && !Bit(PERM_MASK, PTE_D);
    forall k: nat ensures Bit(And(pte', PERM_MASK), k) == Bit(And(pte, PERM_MASK), k) {
      BitOfAnd(pte, PERM_MASK, k);
      BitOfAnd(pte', PERM_MASK, k);
    }
    SameBits(And(pte', PERM_MASK), And(pte, PERM_MASK));
  }

  // No translation, whatever its outcome, makes an agreeing entry disagree.
  lemma WalkKeepsAgreement(m: Mem, r: Regs, e0: TlbEntry, pc: nat, va: U64, t: Access, e: TlbEntry)
    requires Agrees(m, r.satp, e)
    ensures Agrees(CachedWalk(m, r, e0, pc, va, t).mem, r.satp, e)
  {
    hide FindLeaf;
    WalkKeepsLookups(m, r, pc, va, t, r.satp, e.vpn);
    SameLookupAgrees(m, Walk(m, r, pc, va, t).mem, r.satp, e);
  }

  // The entry that a walk fills in agrees with the memory it leaves.
  lemma FilledEntryAgrees(m: Mem, r: Regs, pc: nat, va: U64, t: Access)
    requires Paged(r, t) && Walk(m, r, pc, va, t).result.Ok?
    requires Lookup39(m, r.satp, Vpn(va)).Leaf?
    requires var l := Lookup39(m, r.satp, Vpn(va)); l.level <= 2 && AlignedLeaf(l.pte, l.level)
    ensures Agrees(Walk(m, r, pc, va, t).mem, r.satp, Fill(Lookup39(m, r.satp, Vpn(va)), Vpn(va)))
  {
    hide FindLeaf, Walk, SetBit, And, Pow2, FromBytes, PtePpn, StoreBytes, Permitted, UpdatedPte, PhysAddr, IsLeaf;
    var l := Lookup39(m, r.satp, Vpn(va));
    var l' := Lookup39(Walk(m, r, pc, va, t).mem, r.satp, Vpn(va));
    LookupFacts(m, r.satp, Vpn(va));
    WalkKeepsLookups(m, r, pc, va, t, r.satp, Vpn(va));
    UpdatedLeaf(m, r, pc, va, t);
    SameButADVisit(l.addr, l.pte, l'.pte, l.level);
    SamePermissionBits(l.pte, l'.pte);
  }

  // The cached translation refines the walk wherever its slot agrees with memory.
  lemma CachedWalkIsWalk(m: Mem, r: Regs, e: TlbEntry, pc: nat, va: U64, t: Access)
    requires Paged(r, t) && e.valid && e.vpn == Vpn(va) ==> Agrees(m, r.satp, e)
    ensures CachedWalk(m, r, e, pc, va, t).result == Walk(m, r, pc, va, t).result
    ensures CachedWalk(m, r, e, pc, va, t).mem == Walk(m, r, pc, va, t).mem
  {
    hide FindLeaf;
    if Paged(r, t) && Canonical(va) && Hit(e, Vpn(va), r, t) {
      HitIsWalk(m, r, e, pc, va, t);
    }
  }
}
