/**
 Translation as section 4.3.2 of the RISC-V Privileged Architecture v1.12 words
 it, written out level by level on the bits of the entries, and the proof that
 the walk gives exactly this: which page is found, who may use it, which trap is
 raised otherwise, and what is written.
 */
module Sv39Standard {
  import opened Bits
  import opened Memory
  import opened Traps
  import opened Sv39
  import opened Tlb
  import opened TlbRuns

  // ----- The page-table walk ---------------------------------------------------------------

  // Not valid, or W without R, or one of bits 63..54 set.
  predicate Unusable(e: nat) { e % 2 == 0 || (e / 2 % 2 == 0 && e / 4 % 2 == 1) || e >= 0x40_0000_0000_0000 }

  // R or X
  predicate Maps(e: nat) { e / 2 % 2 == 1 || e / 8 % 2 == 1 }

  // U, A or D, which a pointer to the next table may not have
  predicate BadPointer(e: nat) { e / 16 % 2 == 1 || e / 64 % 2 == 1 || e / 128 % 2 == 1 }

  function Ppn(e: nat): nat { e / 0x400 % 0x1000_0000_0000 }

  predicate Held(m: Mem, p: nat) { 0x8000_0000 <= p && p + 8 <= 0x8000_0000 + |m| }

  function Root(m: Mem, satp: U64, va: U64): Lookup {
    var p := satp % 0x1000_0000_0000 * 0x1000 + va / 0x4000_0000 % 0x200 * 8;
    if !Held(m, p) then NoMemory
    else
      var e := LoadLE(m, p, 8);
      if Unusable(e) then NoPage
      else if Maps(e) then if Ppn(e) % 0x4_0000 == 0 then Leaf(p, 2, e) else NoPage
      else if BadPointer(e) then NoPage
      else Middle(m, Ppn(e), va)
  }

  function Middle(m: Mem, ppn: nat, va: U64): Lookup {
    var p := ppn * 0x1000 + va / 0x20_0000 % 0x200 * 8;
    if !Held(m, p) then NoMemory
    else
      var e := LoadLE(m, p, 8);
      if Unusable(e) then NoPage
      else if Maps(e) then if Ppn(e) % 0x200 == 0 then Leaf(p, 1, e) else NoPage
      else if BadPointer(e) then NoPage
      else Last(m, Ppn(e), va)
  }

  function Last(m: Mem, ppn: nat, va: U64): Lookup {
    var p := ppn * 0x1000 + va / 0x1000 % 0x200 * 8;
    if !Held(m, p) then NoMemory
    else
      var e := LoadLE(m, p, 8);
      if Unusable(e) || !Maps(e) then NoPage else Leaf(p, 0, e)
  }

  lemma BitsOf(e: nat)
    ensures Bit(e, 0) <==> e % 2 == 1
    ensures Bit(e, 1) <==> e / 2 % 2 == 1
    ensures Bit(e, 2) <==> e / 4 % 2 == 1
    ensures Bit(e, 3) <==> e / 8 % 2 == 1
    ensures Bit(e, 4) <==> e / 16 % 2 == 1
    ensures Bit(e, 6) <==> e / 64 % 2 == 1
    ensures Bit(e, 7) <==> e / 128 % 2 == 1
  {
    hide Bit, Pow2;
    SmallPowers();
    BitIs(e, 0);
    BitIs(e, 1);
    BitIs(e, 2);
    BitIs(e, 3);
    BitIs(e, 4);
    BitIs(e, 6);
    BitIs(e, 7);
  }

  lemma EntryIs(p: nat, e: nat, level: nat)
    requires level <= 2
    ensures VisitPte(p, e, level) ==
      if Unusable(e) then Stop(NoPage)
      else if Maps(e) then
        Stop(if Ppn(e) % (if level == 2 then 0x4_0000 else if level == 1 then 0x200 else 1) == 0
             then Leaf(p, level, e) else NoPage)
      else if BadPointer(e) || level == 0 then Stop(NoPage)
      else Descend(Ppn(e) * 0x1000)
  {
    hide Bit, Pow2;
    BitsOf(e);
    LevelSize(level);
    TopBits(e);
  }

  lemma TopBits(e: nat)
    ensures e / 0x40_0000_0000_0000 != 0 <==> e >= 0x40_0000_0000_0000
  {
  }

  lemma LevelSize(level: nat)
    requires level <= 2
    ensures Pow2(9 * level) == if level == 2 then 0x4_0000 else if level == 1 then 0x200 else 1
    ensures Pow2(12 + 9 * level) == if level == 2 then 0x4000_0000 else if level == 1 then 0x20_0000 else 0x1000
  {
    Pow2Values();
  }

  lemma EntryAddress(table: nat, va: U64, level: nat)
    requires level <= 2
    ensures PteAddr(table, Vpn(va), level) == table + 8 *
      (if level == 2 then va / 0x4000_0000 % 0x200 else if level == 1 then va / 0x20_0000 % 0x200
       else va / 0x1000 % 0x200)
  {
    hide Pow2;
    LevelSize(level);
    PageNumbers(va);
  }

  lemma PageNumbers(va: nat)
    ensures va / 0x1000 / 0x4_0000 == va / 0x4000_0000 && va / 0x1000 / 0x200 == va / 0x20_0000
    ensures va / 0x1000 / 1 == va / 0x1000
  {
  }

  // WALK: the search finds the leaf, or fails, as the three levels written out.
  lemma SearchIsStandard(m: Mem, satp: U64, va: U64)
    ensures Lookup39(m, satp, Vpn(va)) == Root(m, satp, va)
  {
    hide VisitPte, PteAddr, LoadLE, Vpn, Unusable, Maps, BadPointer, Ppn, Middle;
    var table := RootTable(satp);
    EntryAddress(table, va, 2);
    var p := PteAddr(table, Vpn(va), 2);
    if InDram(m, p, 8) {
      var e := LoadLE(m, p, 8);
      EntryIs(p, e, 2);
      MiddleIs(m, Ppn(e), va);
    }
  }

  lemma MiddleIs(m: Mem, ppn: nat, va: U64)
    ensures FindLeaf(m, Vpn(va), ppn * 0x1000, 1) == Middle(m, ppn, va)
  {
    hide VisitPte, PteAddr, LoadLE, Vpn, Unusable, Maps, BadPointer, Ppn, Last;
    EntryAddress(ppn * 0x1000, va, 1);
    var p := PteAddr(ppn * 0x1000, Vpn(va), 1);
    if InDram(m, p, 8) {
      var e := LoadLE(m, p, 8);
      EntryIs(p, e, 1);
      LastIs(m, Ppn(e), va);
    }
  }

  lemma LastIs(m: Mem, ppn: nat, va: U64)
    ensures FindLeaf(m, Vpn(va), ppn * 0x1000, 0) == Last(m, ppn, va)
  {
    hide VisitPte, PteAddr, LoadLE, Vpn, Unusable, Maps, BadPointer, Ppn;
    EntryAddress(ppn * 0x1000, va, 0);
    var p := PteAddr(ppn * 0x1000, Vpn(va), 0);
    if InDram(m, p, 8) {
      EntryIs(p, LoadLE(m, p, 8), 0);
    }
  }

  // ----- The translation -------------------------------------------------------------------

  // MPRV puts loads and stores at the level in MPP.
  function Level(r: Regs, t: Access): int { if t != Fetch && r.mprv then r.mpp else r.priv }

  // PERMISSION: a translated access succeeds iff its address is the sign
  // extension of 39 bits, a leaf maps it, U mode has a user page, S mode has a
  // supervisor page or with SUM a user page that it does not fetch from, the
  // entry has R (or with MXR X) for a load, W for a store, X for a fetch, and A,
  // for a store also D, is set or may be set.
  lemma TranslationSucceedsIff(m: Mem, r: Regs, pc: nat, va: U64, t: Access)
    requires Level(r, t) != 3 && r.satp / 0x1000_0000_0000_0000 != 0
    ensures var l := Root(m, r.satp, va);
      Walk(m, r, pc, va, t).result.Ok? <==>
        && (va / 0x40_0000_0000 == 0 || va / 0x40_0000_0000 == 0x3FF_FFFF)
        && l.Leaf?
        && (Level(r, t) == 0 ==> l.pte / 16 % 2 == 1)
        && (Level(r, t) == 1 && l.pte / 16 % 2 == 1 ==> r.sum && t != Fetch)
        && (t == Access.Load ==> l.pte / 2 % 2 == 1 || (r.mxr && l.pte / 8 % 2 == 1))
        && (t == Access.Store ==> l.pte / 4 % 2 == 1)
        && (t == Fetch ==> l.pte / 8 % 2 == 1)
        && (r.adue || (l.pte / 64 % 2 == 1 && (t == Access.Store ==> l.pte / 128 % 2 == 1)))
  {
    hide Bit, Root, FindLeaf, Vpn, PhysAddr, UpdatedPte, StoreLE, PageFault, AccessFault;
    SearchIsStandard(m, r.satp, va);
    HalvesOf(va);
    var l := Lookup39(m, r.satp, Vpn(va));
    if l.Leaf? { BitsOf(l.pte); }
  }

  lemma HalvesOf(va: U64)
    ensures Canonical(va) <==> va / 0x40_0000_0000 == 0 || va / 0x40_0000_0000 == 0x3FF_FFFF
  {
  }

  // Otherwise it is an access fault when a table lies outside memory, and a page
  // fault in every other case, at the address and with the code of the access.
  lemma FailureRaises(m: Mem, r: Regs, pc: nat, va: U64, t: Access)
    requires Walk(m, r, pc, va, t).result.Raise?
    ensures Level(r, t) != 3 && r.satp / 0x1000_0000_0000_0000 != 0
    ensures Walk(m, r, pc, va, t).mem == m
    ensures var outside := Root(m, r.satp, va) == NoMemory
                           && (va / 0x40_0000_0000 == 0 || va / 0x40_0000_0000 == 0x3FF_FFFF);
      Walk(m, r, pc, va, t).result.trap == Trap(pc, Cause(false,
        if t == Fetch then if outside then 1 else 12
        else if t == Access.Load then if outside then 5 else 13
        else if outside then 7 else 15), va)
  {
    hide Bit, Root, FindLeaf, Vpn, PhysAddr, UpdatedPte, StoreLE, Permitted, NeedsUpdate;
    SearchIsStandard(m, r.satp, va);
    HalvesOf(va);
  }

  // The address joins the page number of the leaf with the offset in its 4 KiB,
  // 2 MiB or 1 GiB page. The only write is to the leaf: A, for a store also D.
  lemma SuccessGives(m: Mem, r: Regs, pc: nat, va: U64, t: Access)
    requires Level(r, t) != 3 && r.satp / 0x1000_0000_0000_0000 != 0 && Walk(m, r, pc, va, t).result.Ok?
    ensures var w, l := Walk(m, r, pc, va, t), Root(m, r.satp, va);
      && l.Leaf? && l.level <= 2 && Held(m, l.addr)
      && w.result.value == l.pte / 0x400 % 0x1000_0000_0000 * 0x1000 +
           va % (if l.level == 2 then 0x4000_0000 else if l.level == 1 then 0x20_0000 else 0x1000)
      && var a := if l.pte / 64 % 2 == 0 then 64 else 0;
      var d := if t == Access.Store && l.pte / 128 % 2 == 0 then 128 else 0;
      w.mem == if a + d == 0 then m else StoreLE(m, l.addr, 8, l.pte + a + d)
  {
    hide Bit, SetBit, Root, FindLeaf, Vpn, StoreLE, Pow2, Permitted, PageFault, AccessFault, IsLeaf, Malformed;
    SearchIsStandard(m, r.satp, va);
    var l := Lookup39(m, r.satp, Vpn(va));
    LookupFacts(m, r.satp, Vpn(va));
    LevelSize(l.level);
    BitsOf(l.pte);
    UpdateAdds(l.pte, t);
  }

  lemma UpdateAdds(pte: nat, t: Access)
    ensures SetBit(pte, 6) == if pte / 64 % 2 == 0 then pte + 64 else pte
    ensures SetBit(SetBit(pte, 6), 7) == SetBit(pte, 6) + if pte / 128 % 2 == 0 then 128 else 0
  {
    hide SetBit, Pow2;
    SmallPowers();
    SetBitAdds(pte, 6);
    SetBitAdds(SetBit(pte, 6), 7);
    NextBitKept(pte);
  }

  lemma NextBitKept(pte: nat)
    ensures pte / 64 % 2 == 0 ==> (pte + 64) / 128 == pte / 128
  {
    if pte / 64 % 2 == 0 {
      var q := pte / 64 / 2;
      assert pte == 128 * q + pte % 64;
      DivUnique(pte, 128, q, pte % 64);
      DivUnique(pte + 64, 128, q, pte % 64 + 64);
    }
  }

  // ----- The cached translation --------------------------------------------------------------

  // HIT: what a TLB entry must hold to answer an access without a walk. Its
  // permission bits stand where the leaf has them.
  lemma HitIff(e: TlbEntry, vpn: nat, r: Regs, t: Access)
    ensures Hit(e, vpn, r, t) <==>
      && e.valid && e.vpn == vpn
      && (Level(r, t) == 0 ==> e.perm / 16 % 2 == 1)
      && (Level(r, t) == 1 && e.perm / 16 % 2 == 1 ==> r.sum && t != Fetch)
      && (t == Access.Load ==> e.perm / 2 % 2 == 1 || (r.mxr && e.perm / 8 % 2 == 1))
      && (t == Access.Store ==> e.perm / 4 % 2 == 1 && e.dirty)
      && (t == Fetch ==> e.perm / 8 % 2 == 1)
  {
    hide Bit;
    BitsOf(e.perm);
  }

  // After a walk the slot answers the same access, unless that was the store
  // that set D: its entry is filled from the leaf as it was before.
  lemma FilledSlotAnswers(m: Mem, r: Regs, e: TlbEntry, pc: nat, va: U64, t: Access)
    requires Level(r, t) != 3 && r.satp / 0x1000_0000_0000_0000 != 0
    requires Walk(m, r, pc, va, t).result.Ok? && !Hit(e, Vpn(va), r, t)
    ensures var l := Root(m, r.satp, va);
      && l.Leaf?
      && (Hit(CachedWalk(m, r, e, pc, va, t).entry, Vpn(va), r, t) <==>
          (t == Access.Store ==> l.pte / 128 % 2 == 1))
  {
    hide Bit, Root, FindLeaf, Vpn, StoreLE, Permitted, And, LeafPpn, IsLeaf, Malformed, PhysAddr;
    SearchIsStandard(m, r.satp, va);
    var l := Lookup39(m, r.satp, Vpn(va));
    LookupFacts(m, r.satp, Vpn(va));
    PermissionBits(r, t, l.pte);
    BitsOf(l.pte);
  }

  // ----- Without translation -------------------------------------------------------------------

  // Untranslated: M mode, or no translation in satp. Nothing is checked or written.
  lemma UntranslatedIs(m: Mem, r: Regs, pc: nat, va: U64, t: Access)
    requires Level(r, t) == 3 || r.satp / 0x1000_0000_0000_0000 == 0
    ensures Walk(m, r, pc, va, t) == Walked(Ok(va), m)
  {
  }

  // The modes that a write of satp may select are none and Sv39.
  lemma ModesAre(satp: U64)
    ensures SupportedMode(satp) <==> satp / 0x1000_0000_0000_0000 in {0, 8}
  {
  }

  // REGISTERS: a write of satp takes effect iff it selects one of these; mstatus,
  // menvcfg and the privilege reach the other registers one by one. Nothing else
  // changes them.
  lemma RegisterWrites(b: Bare, ev: Event)
    ensures var r' := BareStep(b, ev).0.regs;
      && (ev.WriteSatp? ==>
           r' == if ev.value / 0x1000_0000_0000_0000 in {0, 8} then b.regs.(satp := ev.value) else b.regs)
      && (ev.SetControl? ==> r' == Regs(ev.priv, ev.mprv, ev.mpp, ev.sum, ev.mxr, ev.adue, b.regs.satp))
      && (!ev.WriteSatp? && !ev.SetControl? ==> r' == b.regs)
  {
    hide Walk, SupportedMode;
    if ev.WriteSatp? { ModesAre(ev.value); }
  }
}
