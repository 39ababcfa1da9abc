/**
 Whole runs of the cached MMU against a machine with no TLB.

 A run is any sequence of translations, physical stores (by the hart or by a
 device), satp writes, sfence.vma instructions and changes of privilege or of
 the mstatus and menvcfg fields that translation reads.
 */
module TlbRuns {
  import opened Bits
  import opened Memory
  import opened Sv39
  import opened Traps
  import opened Sv39Lemmas
  import opened Tlb

  datatype Event =
    | Translate(pc: nat, va: U64, t: Access)
    | PhysStore(addr: nat, data: seq<Byte>)
    | WriteSatp(value: U64)
    | SfenceAll
    | SfenceVaddr(va: U64)
    | SetControl(priv: Priv, mprv: bool, mpp: Priv, sum: bool, mxr: bool, adue: bool)

  type Entries = s: seq<TlbEntry> | |s| == TLB_ENTRIES witness seq(TLB_ENTRIES, _ => EMPTY)

  // The cached machine, and the bare one that the standard describes.
  datatype Machine = Machine(mem: Mem, regs: Regs, itlb: Entries, dtlb: Entries)
  datatype Bare = Bare(mem: Mem, regs: Regs)

  datatype Output = Silent | Translated(result: Result<nat>)

  function NoEntries(): Entries { seq(TLB_ENTRIES, _ => EMPTY) }

  function FlushAll(s: Machine): Machine { s.(itlb := NoEntries(), dtlb := NoEntries()) }

  function Invalidate(tlb: Entries, vpn: nat): Entries {
    var e := tlb[Slot(vpn)];
    if e.valid && e.vpn == vpn then tlb[Slot(vpn) := e.(valid := false)] else tlb
  }

  function FlushVaddr(s: Machine, va: nat): Machine {
    s.(itlb := Invalidate(s.itlb, Vpn(va)), dtlb := Invalidate(s.dtlb, Vpn(va)))
  }

  function TranslateStep(s: Machine, pc: nat, va: U64, t: Access): (Machine, Result<nat>) {
    var i := Slot(Vpn(va));
    if t.Fetch? then
      var c := CachedWalk(s.mem, s.regs, s.itlb[i], pc, va, t);
      (s.(mem := c.mem, itlb := s.itlb[i := c.entry]), c.result)
    else
      var c := CachedWalk(s.mem, s.regs, s.dtlb[i], pc, va, t);
      (s.(mem := c.mem, dtlb := s.dtlb[i := c.entry]), c.result)
  }

  function StorePhys(m: Mem, addr: nat, data: seq<Byte>): Mem {
    if InDram(m, addr, |data|) then StoreBytes(m, addr, data) else m
  }

  // A satp write with an unsupported mode, or that changes nothing, has no effect.
  predicate SatpChanges(r: Regs, value: U64) { r.satp != value && SupportedMode(value) }

  function Control(r: Regs, ev: Event): Regs
    requires ev.SetControl?
  {
    r.(priv := ev.priv, mprv := ev.mprv, mpp := ev.mpp, sum := ev.sum, mxr := ev.mxr, adue := ev.adue)
  }

  function Step(s: Machine, ev: Event): (Machine, Output) {
    match ev
    case Translate(pc, va, t) =>
      (TranslateStep(s, pc, va, t).0, Translated(TranslateStep(s, pc, va, t).1))
    case PhysStore(addr, data) => (s.(mem := StorePhys(s.mem, addr, data)), Silent)
    case WriteSatp(v) =>
      (if SatpChanges(s.regs, v) then FlushAll(s.(regs := s.regs.(satp := v))) else s, Silent)
    case SfenceAll => (FlushAll(s), Silent)
    case SfenceVaddr(va) => (FlushVaddr(s, va), Silent)
    case SetControl(_, _, _, _, _, _) => (s.(regs := Control(s.regs, ev)), Silent)
  }

  function BareStep(b: Bare, ev: Event): (Bare, Output) {
    match ev
    case Translate(pc, va, t) =>
      var w := Walk(b.mem, b.regs, pc, va, t);
      (b.(mem := w.mem), Translated(w.result))
    case PhysStore(addr, data) => (b.(mem := StorePhys(b.mem, addr, data)), Silent)
    case WriteSatp(v) => (if SatpChanges(b.regs, v) then b.(regs := b.regs.(satp := v)) else b, Silent)
    case SfenceAll => (b, Silent)
    case SfenceVaddr(va) => (b, Silent)
    case SetControl(_, _, _, _, _, _) => (b.(regs := Control(b.regs, ev)), Silent)
  }

  // The page numbers with a cached entry whose walk reads the stored bytes.
  function Touched(m: Mem, satp: U64, tlb: Entries, addr: nat, n: nat): set<nat> {
    set i | 0 <= i < TLB_ENTRIES && tlb[i].valid && !Avoids(addr, n, Path39(m, satp, tlb[i].vpn)) :: tlb[i].vpn
  }

  // The page numbers whose page-table entries changed since their last fence.
  function StaleAfter(s: Machine, stale: set<nat>, ev: Event): set<nat> {
    match ev
    case PhysStore(addr, data) =>
      if InDram(s.mem, addr, |data|) then
        stale + Touched(s.mem, s.regs.satp, s.itlb, addr, |data|)
              + Touched(s.mem, s.regs.satp, s.dtlb, addr, |data|)
      else stale
    case WriteSatp(v) => if SatpChanges(s.regs, v) then {} else stale
    case SfenceAll => {}
    case SfenceVaddr(va) => stale - {Vpn(va)}
    case _ => stale
  }

  // Every entry of a page that is not stale agrees with memory.
  predicate Fresh(m: Mem, satp: U64, tlb: Entries, stale: set<nat>) {
    forall i :: 0 <= i < TLB_ENTRIES && tlb[i].vpn !in stale ==> Agrees(m, satp, tlb[i])
  }

  predicate Coherent(s: Machine, stale: set<nat>) {
    Fresh(s.mem, s.regs.satp, s.itlb, stale) && Fresh(s.mem, s.regs.satp, s.dtlb, stale)
  }

  lemma FreshAfterWalk(s: Machine, stale: set<nat>, tlb: Entries, e0: TlbEntry, pc: nat, va: U64, t: Access)
    requires Fresh(s.mem, s.regs.satp, tlb, stale)
    ensures Fresh(CachedWalk(s.mem, s.regs, e0, pc, va, t).mem, s.regs.satp, tlb, stale)
  {
    hide CachedWalk, Agrees;
    forall i | 0 <= i < TLB_ENTRIES && tlb[i].vpn !in stale
      ensures Agrees(CachedWalk(s.mem, s.regs, e0, pc, va, t).mem, s.regs.satp, tlb[i])
    {
      WalkKeepsAgreement(s.mem, s.regs, e0, pc, va, t, tlb[i]);
    }
  }

  // The slot after a translation: either as it was, or filled and agreeing.
  lemma SlotAfterWalk(m: Mem, r: Regs, e: TlbEntry, pc: nat, va: U64, t: Access)
    ensures var c := CachedWalk(m, r, e, pc, va, t);
      c.entry == e || (c.entry.vpn == Vpn(va) && Agrees(c.mem, r.satp, c.entry))
  {
    hide Agrees, FindLeaf, Fill, Hit;
    var c := CachedWalk(m, r, e, pc, va, t);
    if c.entry != e {
      LookupFacts(m, r.satp, Vpn(va));
      FilledEntryAgrees(m, r, pc, va, t);
      FillIsForPage(Lookup39(m, r.satp, Vpn(va)), Vpn(va));
    }
  }

  lemma FillIsForPage(l: Lookup, vpn: nat)
    requires l.Leaf? && l.level <= 2 && AlignedLeaf(l.pte, l.level)
    ensures Fill(l, vpn).vpn == vpn
  {
  }

  lemma FreshAfterStore(m: Mem, satp: U64, tlb: Entries, stale: set<nat>, addr: nat, data: seq<Byte>)
    requires Fresh(m, satp, tlb, stale) && InDram(m, addr, |data|)
    ensures Fresh(StoreBytes(m, addr, data), satp, tlb, stale + Touched(m, satp, tlb, addr, |data|))
  {
    hide Avoids;
    var m', stale' := StoreBytes(m, addr, data), stale + Touched(m, satp, tlb, addr, |data|);
    forall i | 0 <= i < TLB_ENTRIES && tlb[i].vpn !in stale' ensures Agrees(m', satp, tlb[i]) {
      if tlb[i].valid {
        assert Avoids(addr, |data|, Path39(m, satp, tlb[i].vpn)) by {
          assert tlb[i].vpn !in Touched(m, satp, tlb, addr, |data|);
        }
        WalkFrame(m, addr, data, tlb[i].vpn, RootTable(satp), TopLevel());
        assert Lookup39(m', satp, tlb[i].vpn) == Lookup39(m, satp, tlb[i].vpn);
      }
    }
  }

  lemma FreshAfterInvalidate(m: Mem, satp: U64, tlb: Entries, stale: set<nat>, vpn: nat)
    requires Fresh(m, satp, tlb, stale)
    requires forall i :: 0 <= i < TLB_ENTRIES && tlb[i].valid ==> Slot(tlb[i].vpn) == i
    ensures Fresh(m, satp, Invalidate(tlb, vpn), stale - {vpn})
  {
    hide Agrees;
    var tlb' := Invalidate(tlb, vpn);
    forall i | 0 <= i < TLB_ENTRIES && tlb'[i].vpn !in stale - {vpn} ensures Agrees(m, satp, tlb'[i]) {
      if tlb'[i].valid {
        assert tlb'[i] == tlb[i] && tlb[i].vpn != vpn;
      } else {
        InvalidAgrees(m, satp, tlb'[i]);
      }
    }
  }

  lemma InvalidAgrees(m: Mem, satp: U64, e: TlbEntry)
    requires !e.valid
    ensures Agrees(m, satp, e)
  {
  }

  // Valid entries sit in the slot of their page number.
  predicate Placed(tlb: Entries) {
    forall i :: 0 <= i < TLB_ENTRIES && tlb[i].valid ==> Slot(tlb[i].vpn) == i
  }

  predicate Inv(s: Machine, stale: set<nat>) {
    Coherent(s, stale) && Placed(s.itlb) && Placed(s.dtlb)
  }

  lemma TranslateKeepsInv(s: Machine, stale: set<nat>, pc: nat, va: U64, t: Access)
    requires Inv(s, stale)
    ensures Inv(TranslateStep(s, pc, va, t).0, stale)
  {
    hide CachedWalk, Agrees, Slot;
    var i := Slot(Vpn(va));
    var e := if t.Fetch? then s.itlb[i] else s.dtlb[i];
    FreshAfterWalk(s, stale, s.itlb, e, pc, va, t);
    FreshAfterWalk(s, stale, s.dtlb, e, pc, va, t);
    SlotAfterWalk(s.mem, s.regs, e, pc, va, t);
  }

  lemma StepKeepsInv(s: Machine, stale: set<nat>, ev: Event)
    requires Inv(s, stale)
    ensures Inv(Step(s, ev).0, StaleAfter(s, stale, ev))
  {
    hide CachedWalk, Agrees, TranslateStep;
    match ev
    case Translate(pc, va, t) => TranslateKeepsInv(s, stale, pc, va, t);
    case PhysStore(addr, data) =>
      if InDram(s.mem, addr, |data|) {
        FreshAfterStore(s.mem, s.regs.satp, s.itlb, stale, addr, data);
        FreshAfterStore(s.mem, s.regs.satp, s.dtlb, stale, addr, data);
      }
    case SfenceVaddr(va) =>
      FreshAfterInvalidate(s.mem, s.regs.satp, s.itlb, stale, Vpn(va));
      FreshAfterInvalidate(s.mem, s.regs.satp, s.dtlb, stale, Vpn(va));
    case WriteSatp(v) => EmptyIsFresh(s.mem, v, {});
    case SfenceAll => EmptyIsFresh(s.mem, s.regs.satp, {});
    case SetControl(_, _, _, _, _, _) =>
  }

  lemma EmptyIsFresh(m: Mem, satp: U64, stale: set<nat>)
    ensures Fresh(m, satp, NoEntries(), stale) && Placed(NoEntries())
  {
  }

  function Run(s: Machine, events: seq<Event>): (Machine, seq<Output>)
    decreases |events|
  {
    if events == [] then (s, [])
    else
      var step := Step(s, events[0]);
      var rest := Run(step.0, events[1..]);
      (rest.0, [step.1] + rest.1)
  }

  function BareRun(b: Bare, events: seq<Event>): (Bare, seq<Output>)
    decreases |events|
  {
    if events == [] then (b, [])
    else
      var step := BareStep(b, events[0]);
      var rest := BareRun(step.0, events[1..]);
      (rest.0, [step.1] + rest.1)
  }

  // The contract of sfence.vma: no translation uses a page whose page-table
  // entries were stored to after they were cached, until a fence drops it.
  predicate Fenced(s: Machine, stale: set<nat>, events: seq<Event>)
    decreases |events|
  {
    events == [] ||
    (&& (events[0].Translate? && Paged(s.regs, events[0].t) ==> Vpn(events[0].va) !in stale)
     && Fenced(Step(s, events[0]).0, StaleAfter(s, stale, events[0]), events[1..]))
  }

  lemma StepIsBareStep(s: Machine, stale: set<nat>, ev: Event)
    requires Inv(s, stale) && Fenced(s, stale, [ev])
    ensures var s' := Step(s, ev); var b' := BareStep(Bare(s.mem, s.regs), ev);
      s'.1 == b'.1 && Bare(s'.0.mem, s'.0.regs) == b'.0
  {
    hide CachedWalk, Agrees, Walk, Slot;
    if ev.Translate? {
      var i := Slot(Vpn(ev.va));
      CachedWalkIsWalk(s.mem, s.regs, if ev.t.Fetch? then s.itlb[i] else s.dtlb[i], ev.pc, ev.va, ev.t);
    }
  }

  // THE REFINEMENT: in every fenced run the cached machine gives the outputs,
  // the memory and the registers of the bare walks.
  lemma {:induction false} CachedRunIsBareRun(s: Machine, stale: set<nat>, events: seq<Event>)
    requires Inv(s, stale) && Fenced(s, stale, events)
    ensures var c := Run(s, events); var b := BareRun(Bare(s.mem, s.regs), events);
      c.1 == b.1 && Bare(c.0.mem, c.0.regs) == b.0
    decreases |events|
  {
    hide Step, BareStep, StaleAfter, Inv;
    if events != [] {
      FencedHead(s, stale, events);
      StepIsBareStep(s, stale, events[0]);
      StepKeepsInv(s, stale, events[0]);
      CachedRunIsBareRun(Step(s, events[0]).0, StaleAfter(s, stale, events[0]), events[1..]);
    }
  }

  lemma FencedHead(s: Machine, stale: set<nat>, events: seq<Event>)
    requires events != [] && Fenced(s, stale, events)
    ensures Fenced(s, stale, [events[0]])
  {
    hide Step, StaleAfter;
  }

  // The stores of the run all avoid the page-table entries behind cached pages.
  predicate StoresAvoidLiveTables(s: Machine, events: seq<Event>)
    decreases |events|
  {
    events == [] ||
    (&& (events[0].PhysStore? && InDram(s.mem, events[0].addr, |events[0].data|) ==>
           && Touched(s.mem, s.regs.satp, s.itlb, events[0].addr, |events[0].data|) == {}
           && Touched(s.mem, s.regs.satp, s.dtlb, events[0].addr, |events[0].data|) == {})
     && StoresAvoidLiveTables(Step(s, events[0]).0, events[1..]))
  }

  // A run from a reset TLB whose stores leave live page tables alone needs no fence.
  lemma {:induction false} NoFenceNeeded(s: Machine, events: seq<Event>)
    requires StoresAvoidLiveTables(s, events)
    ensures Fenced(s, {}, events)
    decreases |events|
  {
    if events != [] {
      assert StaleAfter(s, {}, events[0]) == {};
      NoFenceNeeded(Step(s, events[0]).0, events[1..]);
    }
  }

  // From a reset TLB, a run whose stores leave live page tables alone is the run
  // of bare walks, through every change of satp, privilege and control bits and
  // with no fence at all.
  lemma ResetRunIsBareRun(b: Bare, events: seq<Event>)
    requires StoresAvoidLiveTables(Machine(b.mem, b.regs, NoEntries(), NoEntries()), events)
    ensures var c := Run(Machine(b.mem, b.regs, NoEntries(), NoEntries()), events);
      c.1 == BareRun(b, events).1 && Bare(c.0.mem, c.0.regs) == BareRun(b, events).0
  {
    var s := Machine(b.mem, b.regs, NoEntries(), NoEntries());
    EmptyIsFresh(b.mem, b.regs.satp, {});
    NoFenceNeeded(s, events);
    CachedRunIsBareRun(s, {}, events);
  }

  // After a store to page tables, a full fence restores agreement for every
  // page; a fence of one address does so for that 4 KiB page.
  lemma FenceRestores(s: Machine, stale: set<nat>, va: U64)
    requires Inv(s, stale)
    ensures Coherent(Step(s, SfenceAll).0, {})
    ensures Coherent(Step(s, SfenceVaddr(va)).0, stale - {Vpn(va)})
  {
    StepKeepsInv(s, stale, SfenceAll);
    StepKeepsInv(s, stale, SfenceVaddr(va));
  }

  // A fence of one address drops exactly the entries of its 4 KiB page: what
  // disagreed with memory for another page still does.
  lemma AddressFenceIsExact(s: Machine, stale: set<nat>, va: U64, i: nat)
    requires Inv(s, stale) && i < TLB_ENTRIES
    ensures var s' := Step(s, SfenceVaddr(va)).0;
      && s'.mem == s.mem && s'.regs == s.regs
      && s'.itlb[i] == Dropped(s.itlb[i], Vpn(va)) && s'.dtlb[i] == Dropped(s.dtlb[i], Vpn(va))
      && (s.itlb[i].vpn != Vpn(va) ==>
           (Agrees(s'.mem, s'.regs.satp, s'.itlb[i]) <==> Agrees(s.mem, s.regs.satp, s.itlb[i])))
      && (s.dtlb[i].vpn != Vpn(va) ==>
           (Agrees(s'.mem, s'.regs.satp, s'.dtlb[i]) <==> Agrees(s.mem, s.regs.satp, s.dtlb[i])))
  {
    hide Agrees, Coherent;
  }

  function Dropped(e: TlbEntry, vpn: nat): TlbEntry {
    if e.valid && e.vpn == vpn then e.(valid := false) else e
  }

  // Clearing the first byte of a leaf entry unmaps its page.
  lemma {:induction false} ZeroedLeaf(m: Mem, vpn: nat, table: nat, level: nat)
    requires table % 8 == 0 && FindLeaf(m, vpn, table, level).Leaf?
    requires InDram(m, FindLeaf(m, vpn, table, level).addr, 8)
    requires FindLeaf(m, vpn, table, level).addr % 8 == 0
    ensures FindLeaf(StoreBytes(m, FindLeaf(m, vpn, table, level).addr, [0]), vpn, table, level) == NoPage
    decreases level
  {
    hide PtePpn, FromBytes, IsLeaf;
    var p, q := FindLeaf(m, vpn, table, level).addr, PteAddr(table, vpn, level);
    var m' := StoreBytes(m, p, [0]);
    if q == p {
      ZeroedEntry(m, p);
    } else {
      AlignedApart(p, q);
      LoadStoreOther(m, p, [0], q, 8);
      ZeroedLeaf(m, vpn, VisitPte(q, LoadLE(m, q, 8), level).table, level - 1);
    }
  }

  lemma ZeroedEntry(m: Mem, p: nat)
    requires InDram(m, p, 8)
    ensures Malformed(LoadLE(StoreBytes(m, p, [0]), p, 8))
  {
    var m', o := StoreBytes(m, p, [0]), p - DRAM_BASE;
    assert m'[o..o + 1] == [0];
    assert m'[o..o + 8][0] == 0;
    assert LoadLE(m', p, 8) % 2 == 0;
  }

  // The fence is needed: after a store that unmaps a cached page, the unfenced
  // machine still translates where the bare walk faults -- for every machine
  // and every access that its TLB answers.
  lemma UnfencedChangeIsMissed(s: Machine, pc: nat, va: U64, t: Access)
    requires Inv(s, {}) && Paged(s.regs, t) && Canonical(va)
    requires Hit(if t.Fetch? then s.itlb[Slot(Vpn(va))] else s.dtlb[Slot(Vpn(va))], Vpn(va), s.regs, t)
    ensures var l := Lookup39(s.mem, s.regs.satp, Vpn(va));
      var s1 := Step(s, PhysStore(l.addr, [0])).0;
      && Vpn(va) in StaleAfter(s, {}, PhysStore(l.addr, [0]))
      && TranslateStep(s1, pc, va, t).1.Ok?
      && Walk(s1.mem, s1.regs, pc, va, t).result == Raise(PageFault(pc, va, t))
  {
    hide FindLeaf, Path, Agrees, Hit, PageFault, Touched, Slot, Walk, Paged, Canonical, Placed, StoreBytes;
    var i := Slot(Vpn(va));
    var e := if t.Fetch? then s.itlb[i] else s.dtlb[i];
    HitHasLeaf(s.mem, s.regs, e, va, t);
    var l := Lookup39(s.mem, s.regs.satp, Vpn(va));
    UnmappedFaults(s.mem, s.regs, pc, va, t);
    var ev := PhysStore(l.addr, [0]);
    StillAnswered(s, l.addr, pc, va, t);
    var s1 := Step(s, ev).0;
    StepKeepsInv(s, {}, ev);
    if Vpn(va) !in StaleAfter(s, {}, ev) {
      CachedWalkIsWalk(s1.mem, s1.regs, e, pc, va, t);
    }
  }

  lemma UnmappedFaults(m: Mem, r: Regs, pc: nat, va: U64, t: Access)
    requires Paged(r, t) && Lookup39(m, r.satp, Vpn(va)).Leaf?
    ensures var l := Lookup39(m, r.satp, Vpn(va));
      InDram(m, l.addr, 1) && Walk(StoreBytes(m, l.addr, [0]), r, pc, va, t).result == Raise(PageFault(pc, va, t))
  {
    hide FindLeaf, PageFault, Paged, Canonical, StoreBytes, Permitted, NeedsUpdate, UpdatedPte, PhysAddr, IsLeaf;
    hide AlignedLeaf, Malformed, LoadLE;
    LookupFacts(m, r.satp, Vpn(va));
    ZeroedLeaf(m, Vpn(va), RootTable(r.satp), TopLevel());
  }

  lemma StillAnswered(s: Machine, addr: nat, pc: nat, va: U64, t: Access)
    requires InDram(s.mem, addr, 1) && Paged(s.regs, t) && Canonical(va)
    requires Hit(if t.Fetch? then s.itlb[Slot(Vpn(va))] else s.dtlb[Slot(Vpn(va))], Vpn(va), s.regs, t)
    ensures TranslateStep(Step(s, PhysStore(addr, [0])).0, pc, va, t).1.Ok?
  {
    hide Hit, Walk, Paged, Canonical, Slot, StoreBytes;
  }

  // A translation after a fence of another page is the one before it.
  lemma NeighbourAnswered(s: Machine, fenced: U64, pc: nat, va: U64, t: Access)
    requires Vpn(fenced) != Vpn(va) && Paged(s.regs, t) && Canonical(va)
    requires Hit(if t.Fetch? then s.itlb[Slot(Vpn(va))] else s.dtlb[Slot(Vpn(va))], Vpn(va), s.regs, t)
    ensures TranslateStep(FlushVaddr(s, fenced), pc, va, t).1 == TranslateStep(s, pc, va, t).1
  {
    hide Walk, Paged, Permitted, Canonical, Slot;
  }

  // A fenced page is walked.
  lemma FencedMisses(s: Machine, fenced: U64, pc: nat, t: Access)
    requires Paged(s.regs, t)
    ensures TranslateStep(FlushVaddr(s, fenced), pc, fenced, t).1 == Walk(s.mem, s.regs, pc, fenced, t).result
  {
    hide Walk, Paged, Permitted, Canonical, Slot;
  }

  // A fence of one address of a superpage is not enough for its other pages:
  // after the superpage is unmapped and one of its addresses fenced, that page
  // faults as it should, but any other page of it that the TLB answered before
  // is still answered, and the bare walk faults.
  lemma SuperpageFenceMissesNeighbour(s: Machine, pc: nat, fenced: U64, va: U64, t: Access)
    requires Inv(s, {}) && Paged(s.regs, t) && Canonical(va) && Vpn(fenced) != Vpn(va)
    requires Hit(if t.Fetch? then s.itlb[Slot(Vpn(va))] else s.dtlb[Slot(Vpn(va))], Vpn(va), s.regs, t)
    requires var l := Lookup39(s.mem, s.regs.satp, Vpn(va));
      l.Leaf? && Vpn(fenced) / Pow2(9 * l.level) == Vpn(va) / Pow2(9 * l.level)
    ensures var store := PhysStore(Lookup39(s.mem, s.regs.satp, Vpn(va)).addr, [0]);
      var s1 := Step(s, store).0;
      var s2 := Step(s1, SfenceVaddr(fenced)).0;
      && Vpn(va) in StaleAfter(s1, StaleAfter(s, {}, store), SfenceVaddr(fenced))
      && TranslateStep(s2, pc, va, t).1.Ok?
      && Walk(s2.mem, s2.regs, pc, va, t).result == Raise(PageFault(pc, va, t))
      && TranslateStep(s2, pc, fenced, t).1 == Raise(PageFault(pc, fenced, t))
  {
    hide FindLeaf, Agrees, Hit, PageFault, Touched, Coherent, Pow2, SatpChanges, Walk, Paged, Canonical, StoreBytes;
    hide TranslateStep;
    UnfencedChangeIsMissed(s, pc, va, t);
    var l := Lookup39(s.mem, s.regs.satp, Vpn(va));
    SuperpageLookup(s.mem, Vpn(va), Vpn(fenced), RootTable(s.regs.satp), TopLevel());
    UnmappedFaults(s.mem, s.regs, pc, fenced, t);
    var s1 := Step(s, PhysStore(l.addr, [0])).0;
    NeighbourAnswered(s1, fenced, pc, va, t);
    FencedMisses(s1, fenced, pc, t);
  }

  lemma HitHasLeaf(m: Mem, r: Regs, e: TlbEntry, va: U64, t: Access)
    requires Hit(e, Vpn(va), r, t) && Agrees(m, r.satp, e)
    ensures Lookup39(m, r.satp, Vpn(va)).Leaf? && e.valid && e.vpn == Vpn(va)
  {
  }
}
