/**
 The shift-and-mask expressions of MMU::translate, and the arithmetic they
 stand for in the plain walk.
 */
module MmuExpr {
  import opened Bits
  import opened Sv39
  import opened Tlb

  const PGMASK: nat := 0xFFF
  const WORD: nat := 0x1_0000_0000_0000_0000

  // static_cast<int64_t>(vaddr << 25) >> 25, as a 64-bit word
  function SignExtend39(va: U64): nat {
    var shifted := va * 0x200_0000 % WORD;
    shifted / 0x200_0000 + (if shifted >= 0x8000_0000_0000_0000 then WORD - 0x80_0000_0000 else 0)
  }

  // (vaddr >> (PGSHIFT + i * VPNBITS)) & ((1 << VPNBITS) - 1)
  function TableIndex(va: nat, level: nat): nat { And(Shr(va, 12 + 9 * level), 0x1FF) }

  // (pte >> 10) & ((1 << 44) - 1)
  function PpnField(pte: nat): nat { And(Shr(pte, 10), 0xFFF_FFFF_FFFF) }

  // (pte_ppn & ~mask) | (vpn & mask) with mask = (1 << (i * VPNBITS)) - 1
  function SuperpagePpn(ppn: nat, vpn: nat, level: nat): nat
    requires level <= 2
  {
    MaskFits(level);
    Or(And(ppn, WORD - Pow2(9 * level)), And(vpn, Pow2(9 * level) - 1))
  }

  // (ppn << PGSHIFT) | (vaddr & PGMASK)
  function ComposeAddress(ppn: nat, va: nat): nat { Or(ppn * 0x1000, And(va, PGMASK)) }

  lemma MaskFits(level: nat)
    requires level <= 2
    ensures Pow2(9 * level) <= WORD
  {
    Pow2Values();
  }

  // The sign extension of the low 39 bits is the address itself exactly for
  // canonical addresses.
  lemma SignExtendTest(va: U64)
    ensures SignExtend39(va) == va <==> Canonical(va)
  {
    var q, low := va / 0x80_0000_0000, va % 0x80_0000_0000;
    DivUnique(va * 0x200_0000, WORD, q, low * 0x200_0000);
    DivUnique(low * 0x200_0000, 0x200_0000, low, 0);
    assert q < 0x200_0000;
  }

  lemma {:induction false} ShrShr(x: nat, a: nat, b: nat)
    ensures Shr(Shr(x, a), b) == Shr(x, a + b)
  {
    if a > 0 {
      ShrShr(x / 2, a - 1, b);
    }
  }

  lemma PageNumber(va: nat)
    ensures Shr(va, 12) == Vpn(va)
  {
    Pow2Values();
    ShrIsDivision(va, 12);
  }

  lemma TableIndexIsVpnField(va: nat, level: nat)
    ensures TableIndex(va, level) == VpnField(Vpn(va), level)
  {
    hide Shr, And;
    Pow2Values();
    ShrShr(va, 12, 9 * level);
    PageNumber(va);
    ShrIsDivision(Vpn(va), 9 * level);
    AndLowMask(Shr(va, 12 + 9 * level), 9);
  }

  lemma PpnFieldIsPtePpn(pte: nat)
    ensures PpnField(pte) == PtePpn(pte)
  {
    hide Shr, And;
    Pow2Values();
    assert Pow2(10) == 0x400;
    ShrIsDivision(pte, 10);
    AndLowMask(Shr(pte, 10), 44);
  }

  lemma ReservedBits(pte: nat)
    ensures Shr(pte, 54) == pte / 0x40_0000_0000_0000
  {
    Pow2Values();
    ShrIsDivision(pte, 54);
  }

  lemma ComposeIsSum(ppn: nat, va: nat)
    ensures ComposeAddress(ppn, va) == ppn * 0x1000 + va % 0x1000
  {
    hide Or, And;
    Pow2Values();
    AndLowMask(va, 12);
    DivUnique(ppn * 0x1000, 0x1000, ppn, 0);
    OrDisjoint(ppn * 0x1000, va % 0x1000, 12);
  }

  // The mask-and-or of the superpage case is the leaf's page plus the low page
  // number bits of the address; at level 0 it is the leaf's page.
  lemma SuperpageIsLeafPpn(l: Lookup, vpn: nat)
    requires l.Leaf? && l.level <= 2 && AlignedLeaf(l.pte, l.level)
    ensures SuperpagePpn(PtePpn(l.pte), vpn, l.level) == LeafPpn(l, vpn)
    ensures l.level == 0 ==> LeafPpn(l, vpn) == PtePpn(l.pte)
  {
    hide Or, And, PtePpn, Bit;
    Pow2Values();
    var ppn, k := PtePpn(l.pte), 9 * l.level;
    PpnBound(l.pte);
    AndHighMask(ppn, k, 64);
    AndLowMask(vpn, k);
    OrDisjoint(ppn, vpn % Pow2(k), k);
  }

  lemma PpnBound(pte: nat)
    ensures PtePpn(pte) < 0x1000_0000_0000
  {
  }

  lemma SuperpageAlignment(pte: nat, level: nat)
    ensures And(PtePpn(pte), Pow2(9 * level) - 1) == 0 <==> AlignedLeaf(pte, level)
  {
    hide And, PtePpn;
    AndLowMask(PtePpn(pte), 9 * level);
  }

  lemma SlotIndex(vpn: nat)
    ensures And(vpn, TLB_ENTRIES - 1) == Slot(vpn)
  {
    assert Pow2(7) == 128;
    AndLowMask(vpn, 7);
  }
}
