/**
 The plain Sv39 walk: what one translation means when there is no TLB.

 `Walk` is a function of the memory, the registers the MMU reads, the virtual
 address and the access type.  It returns a physical address or a trap, and the
 memory after the A/D update, following section 4.3.2 of the RISC-V Privileged
 Architecture v1.12 with the checks in the order of MMU::translate.
 */
module Sv39 {
  import opened Bits
  import opened Memory
  import opened Traps

  datatype Access = Fetch | Load | Store

  datatype Result<+T> = Ok(value: T) | Raise(trap: Trap)

  // The hart state that a translation reads: the privilege level, the fields of
  // mstatus, menvcfg.ADUE and satp.
  datatype Regs = Regs(priv: Priv, mprv: bool, mpp: Priv, sum: bool, mxr: bool,
                       adue: bool, satp: U64)

  const PTE_V: nat := 0
  const PTE_R: nat := 1
  const PTE_W: nat := 2
  const PTE_X: nat := 3
  const PTE_U: nat := 4
  const PTE_A: nat := 6
  const PTE_D: nat := 7

  const BARE: nat := 0
  const SV39: nat := 8

  function SatpMode(satp: U64): nat { satp / 0x1000_0000_0000_0000 }
  function SatpPpn(satp: U64): nat { satp % 0x1000_0000_0000 }

  // The address of the table on page ppn.
  function TableAt(ppn: nat): (a: nat)
    ensures a % 8 == 0
  {
    DivUnique(ppn * 0x1000, 8, ppn * 0x200, 0);
    ppn * 0x1000
  }

  function RootTable(satp: U64): nat { TableAt(SatpPpn(satp)) }

  predicate SupportedMode(satp: U64) { SatpMode(satp) == BARE || SatpMode(satp) == SV39 }

  function PageFault(pc: nat, va: nat, t: Access): Trap {
    match t
    case Fetch => Trap(pc, INSTRUCTION_PAGE_FAULT, va)
    case Load => Trap(pc, LOAD_PAGE_FAULT, va)
    case Store => Trap(pc, STORE_PAGE_FAULT, va)
  }

  function AccessFault(pc: nat, va: nat, t: Access): Trap {
    match t
    case Fetch => Trap(pc, INSTRUCTION_ACCESS_FAULT, va)
    case Load => Trap(pc, LOAD_ACCESS_FAULT, va)
    case Store => Trap(pc, STORE_ACCESS_FAULT, va)
  }

  // Loads and stores use MPP when MPRV is set.
  function EffectivePriv(r: Regs, t: Access): Priv {
    if !t.Fetch? && r.mprv then r.mpp else r.priv
  }

  predicate Paged(r: Regs, t: Access) {
    EffectivePriv(r, t) != M_MODE && SatpMode(r.satp) != BARE
  }

  // Bits 63..39 of a translatable address equal bit 38.
  predicate Canonical(va: U64) {
    va < 0x40_0000_0000 || 0xFFFF_FFC0_0000_0000 <= va
  }

  function Vpn(va: nat): nat { va / 0x1000 }

  // The nine bits of the virtual page number that index the table at a level.
  function VpnField(vpn: nat, level: nat): nat { vpn / Pow2(9 * level) % 0x200 }

  function PteAddr(table: nat, vpn: nat, level: nat): (p: nat)
    ensures table % 8 == 0 ==> p % 8 == 0
  {
    table + VpnField(vpn, level) * 8
  }

  function PtePpn(pte: nat): nat { pte / 0x400 % 0x1000_0000_0000 }

  predicate IsLeaf(pte: nat) { Bit(pte, PTE_R) || Bit(pte, PTE_X) }

  // The page a leaf at this level maps is aligned to its size.
  predicate AlignedLeaf(pte: nat, level: nat) { PtePpn(pte) % Pow2(9 * level) == 0 }

  // The entry is not usable at any level: not valid, writable but not
  // readable, or with one of the ten high bits set.
  predicate Malformed(pte: nat) {
    !Bit(pte, PTE_V) || (!Bit(pte, PTE_R) && Bit(pte, PTE_W)) || pte / 0x40_0000_0000_0000 != 0
  }

  datatype Lookup =
    | NoPage                                   // ends in a page fault
    | NoMemory                                 // a table lies outside memory
    | Leaf(addr: nat, level: nat, pte: nat)

  // What the walk does with one table entry: it is the answer, or the address
  // of the next table.
  datatype Visit = Stop(lookup: Lookup) | Descend(table: nat)

  function VisitPte(p: nat, pte: nat, level: nat): (v: Visit)
    ensures v.Descend? ==> level > 0 && v.table % 8 == 0
  {
    if Malformed(pte) then Stop(NoPage)
    else if IsLeaf(pte) then
      Stop(if AlignedLeaf(pte, level) then Leaf(p, level, pte) else NoPage)
    else if Bit(pte, PTE_D) || Bit(pte, PTE_A) || Bit(pte, PTE_U) || level == 0 then Stop(NoPage)
    else Descend(TableAt(PtePpn(pte)))
  }

  // Descends from `table` to the leaf entry of page vpn.
  function FindLeaf(m: Mem, vpn: nat, table: nat, level: nat): Lookup
    decreases level
  {
    var p := PteAddr(table, vpn, level);
    if !InDram(m, p, 8) then NoMemory
    else
      match VisitPte(p, LoadLE(m, p, 8), level)
      case Stop(l) => l
      case Descend(next) => FindLeaf(m, vpn, next, level - 1)
  }

  // The leaf is an aligned entry that memory holds, at most `level` steps down.
  lemma {:induction false} LeafFacts(m: Mem, vpn: nat, table: nat, level: nat)
    requires table % 8 == 0 && FindLeaf(m, vpn, table, level).Leaf?
    ensures var l := FindLeaf(m, vpn, table, level);
      && l.addr % 8 == 0 && InDram(m, l.addr, 8) && l.pte == LoadLE(m, l.addr, 8)
      && l.level <= level && IsLeaf(l.pte) && !Malformed(l.pte)
      && AlignedLeaf(l.pte, l.level)
    decreases level
  {
    var p := PteAddr(table, vpn, level);
    var v := VisitPte(p, LoadLE(m, p, 8), level);
    if v.Descend? {
      LeafFacts(m, vpn, v.table, level - 1);
    }
  }

  // Sv39 has three levels of tables; the walk starts at level 2.
  function TopLevel(): nat { 2 }

  function Lookup39(m: Mem, satp: U64, vpn: nat): Lookup {
    FindLeaf(m, vpn, RootTable(satp), TopLevel())
  }

  lemma LookupFacts(m: Mem, satp: U64, vpn: nat)
    requires Lookup39(m, satp, vpn).Leaf?
    ensures var l := Lookup39(m, satp, vpn);
      && l.addr % 8 == 0 && InDram(m, l.addr, 8) && l.pte == LoadLE(m, l.addr, 8) && l.pte < Pow2(64)
      && l.level <= 2 && IsLeaf(l.pte) && !Malformed(l.pte)
      && AlignedLeaf(l.pte, l.level)
  {
    hide Bit, Pow2, PtePpn, FromBytes, FindLeaf, SatpPpn, IsLeaf, Malformed;
    LeafFacts(m, vpn, RootTable(satp), TopLevel());
    var l := Lookup39(m, satp, vpn);
    FromBytesBound(m[l.addr - DRAM_BASE..l.addr - DRAM_BASE + 8]);
  }

  // The user-page and R/W/X rules.  `perm` is a leaf entry or its permission bits.
  predicate Permitted(r: Regs, t: Access, perm: nat) {
    var priv := EffectivePriv(r, t);
    && (if Bit(perm, PTE_U) then !(priv == S_MODE && (t.Fetch? || !r.sum)) else priv != U_MODE)
    && match t {
         case Fetch => Bit(perm, PTE_X)
         case Load => Bit(perm, PTE_R) || (r.mxr && Bit(perm, PTE_X))
         case Store => Bit(perm, PTE_W)
       }
  }

  predicate NeedsUpdate(t: Access, pte: nat) {
    !Bit(pte, PTE_A) || (t.Store? && !Bit(pte, PTE_D))
  }

  function UpdatedPte(t: Access, pte: nat): nat {
    if t.Store? then SetBit(SetBit(pte, PTE_A), PTE_D) else SetBit(pte, PTE_A)
  }

  // leaf.PPN * 4096 plus the part of the address below the page's size.
  function PhysAddr(l: Lookup, va: nat): nat
    requires l.Leaf?
  {
    PtePpn(l.pte) * 0x1000 + va % Pow2(12 + 9 * l.level)
  }

  datatype Walked = Walked(result: Result<nat>, mem: Mem)

  function Walk(m: Mem, r: Regs, pc: nat, va: U64, t: Access): (w: Walked)
    ensures |w.mem| == |m|
  {
    if !Paged(r, t) then Walked(Ok(va), m)
    else if !Canonical(va) then Walked(Raise(PageFault(pc, va, t)), m)
    else
      match Lookup39(m, r.satp, Vpn(va))
      case NoPage => Walked(Raise(PageFault(pc, va, t)), m)
      case NoMemory => Walked(Raise(AccessFault(pc, va, t)), m)
      case Leaf(p, level, pte) =>
        LookupFacts(m, r.satp, Vpn(va));
        if !Permitted(r, t, pte) || (NeedsUpdate(t, pte) && !r.adue)
        then Walked(Raise(PageFault(pc, va, t)), m)
        else Walked(Ok(PhysAddr(Leaf(p, level, pte), va)),
                    if NeedsUpdate(t, pte) then StoreLE(m, p, 8, UpdatedPte(t, pte)) else m)
  }
}
