/**
 The MMU as the emulator implements it: two in-place TLB arrays, the walk loop
 that reads and updates page tables in DRAM, and the typed accesses on top.
 */
module MmuUnit {
  import opened Bits
  import opened Wrappers
  import opened Memory
  import opened Sv39
  import opened Traps
  import opened Sv39Lemmas
  import opened Tlb
  import opened TlbRuns
  import opened MmuExpr
  import opened Accesses
  import opened AccessLemmas
  import opened StoreLoad

  class Mmu {
    const dram: Dram
    const itlb: array<TlbEntry>
    const dtlb: array<TlbEntry>
    var regs: Regs

    ghost predicate Valid()
      reads this
    {
      && itlb.Length == TLB_ENTRIES && dtlb.Length == TLB_ENTRIES && itlb != dtlb
      && SupportedMode(regs.satp)
    }

    ghost function State(): Machine
      requires Valid()
      reads this, itlb, dtlb, dram.mem
    {
      Machine(dram.mem[..], regs, itlb[..], dtlb[..])
    }

    constructor (dram: Dram, regs: Regs)
      requires SupportedMode(regs.satp)
      ensures Valid() && fresh(itlb) && fresh(dtlb)
      ensures this.dram == dram && State() == Machine(dram.mem[..], regs, NoEntries(), NoEntries())
    {
      this.dram := dram;
      this.regs := regs;
      itlb := new TlbEntry[TLB_ENTRIES](_ => EMPTY);
      dtlb := new TlbEntry[TLB_ENTRIES](_ => EMPTY);
      new;
      assert itlb[..] == NoEntries() && dtlb[..] == NoEntries();
    }

    // The permission tests of a TLB hit, with the jumps to the walk as returns.
    method TryHit(entry: TlbEntry, vpn: nat, t: Access) returns (hit: bool)
      ensures hit == Hit(entry, vpn, regs, t)
    {
      var priv := regs.priv;
      if t != Access.Fetch && regs.mprv {
        priv := regs.mpp;
      }
      if !(entry.valid && entry.vpn == vpn) {
        return false;
      }
      if Bit(entry.perm, PTE_U) {
        if priv == S_MODE && (t == Access.Fetch || !regs.sum) {
          return false;
        }
      } else if priv == U_MODE {
        return false;
      }
      var allowed := false;
      match t {
        case Fetch => allowed := Bit(entry.perm, PTE_X);
        case Load => allowed := Bit(entry.perm, PTE_R) || (regs.mxr && Bit(entry.perm, PTE_X));
        case Store => allowed := Bit(entry.perm, PTE_W);
      }
      if !allowed {
        return false;
      }
      return !(t == Access.Store && !entry.dirty);
    }

    // The access needs a walk: it is paged, canonical, and its slot does not answer it.
    ghost predicate NeedsWalk(va: U64, t: Access, idx: nat)
      requires Valid()
      reads this, itlb, dtlb
    {
      && Paged(regs, t) && Canonical(va) && idx == Slot(Vpn(va))
      && !Hit(if t.Fetch? then itlb[idx] else dtlb[idx], Vpn(va), regs, t)
    }

    // The part of the walk after a leaf entry was read: superpage alignment,
    // permissions, the A/D update and the TLB fill.
    method UseLeaf(pc: nat, va: U64, t: Access, idx: nat, pteAddr: nat, level: nat, pte: nat) returns (res: Result<nat>)
      requires Valid() && NeedsWalk(va, t, idx)
      requires level <= 2 && IsLeaf(pte) && dram.IsValidAddr(pteAddr, 8)
      requires Stop(Lookup39(dram.mem[..], regs.satp, Vpn(va))) == VisitPte(pteAddr, pte, level) && !Malformed(pte)
      modifies itlb, dtlb, dram.mem
      ensures Valid()
      ensures State() == TranslateStep(old(State()), pc, va, t).0
      ensures res == TranslateStep(old(State()), pc, va, t).1
    {
      hide Bit, And, Or, Shr, SetBit, Pow2, FindLeaf, PtePpn, PpnField, FromBytes, ToBytes, Malformed, IsLeaf, Hit;
      hide PhysAddr, Permitted, Paged, Canonical, Vpn, StoreBytes, ComposeAddress, SuperpagePpn, PageFault;
      ghost var m0 := dram.mem[..];
      ghost var l := Lookup39(m0, regs.satp, Vpn(va));
      var ppn := PpnField(pte);
      PpnFieldIsPtePpn(pte);
      SuperpageAlignment(pte, level);
      if level > 0 && And(ppn, Pow2(9 * level) - 1) != 0 {
        return Raise(PageFault(pc, va, t));
      }
      LevelZeroAligned(pte);
      assert l == Leaf(pteAddr, level, pte);
      var ok := PermissionCheck(pte, t);
      if !ok {
        return Raise(PageFault(pc, va, t));
      }
      if !Bit(pte, PTE_A) || (t == Access.Store && !Bit(pte, PTE_D)) {
        if !regs.adue {
          return Raise(PageFault(pc, va, t));
        }
        var newPte := SetBit(pte, PTE_A);
        if t == Access.Store {
          newPte := SetBit(newPte, PTE_D);
        }
        dram.Write(pteAddr, 8, newPte);
      }
      PageNumber(va);
      SuperpageIsLeafPpn(l, Vpn(va));
      var finalPpn: Ppn := if level > 0 then SuperpagePpn(ppn, Shr(va, 12), level) else ppn;
      var filled := TlbEntry(Shr(va, 12), finalPpn, And(pte, PERM_MASK), true, Bit(pte, PTE_D));
      if t == Access.Fetch {
        itlb[idx] := filled;
      } else {
        dtlb[idx] := filled;
      }
      ComposeIsSum(finalPpn, va);
      LeafPpnAddress(l, va);
      return Ok(ComposeAddress(finalPpn, va));
    }

    lemma LevelZeroAligned(pte: nat)
      ensures AlignedLeaf(pte, 0)
    {
    }

    // The user-page and R/W/X tests on a leaf entry.
    method PermissionCheck(pte: nat, t: Access) returns (ok: bool)
      ensures ok == Permitted(regs, t, pte)
    {
      var priv := regs.priv;
      if t != Access.Fetch && regs.mprv {
        priv := regs.mpp;
      }
      var userPage := Bit(pte, PTE_U);
      var sMode := priv == S_MODE;
      if userPage {
        if sMode && (t == Access.Fetch || !regs.sum) {
          return false;
        }
      } else if priv == U_MODE {
        return false;
      }
      match t {
        case Fetch => ok := Bit(pte, PTE_X);
        case Load => ok := Bit(pte, PTE_R) || (regs.mxr && Bit(pte, PTE_X));
        case Store => ok := Bit(pte, PTE_W);
      }
    }

    // The walk of MMU::translate, from the label `miss`.
    method WalkTables(pc: nat, va: U64, t: Access, idx: nat) returns (res: Result<nat>)
      requires Valid() && NeedsWalk(va, t, idx)
      modifies itlb, dtlb, dram.mem
      ensures Valid()
      ensures State() == TranslateStep(old(State()), pc, va, t).0
      ensures res == TranslateStep(old(State()), pc, va, t).1
    {
      hide Bit, And, Or, Shr, SetBit, Pow2, PtePpn, PpnField, FromBytes, ToBytes, Hit, TableIndex, VpnField;
      ghost var m0 := dram.mem[..];
      var level: nat := 2;
      var a: nat := RootTable(regs.satp);
      while true
        invariant level <= 2 && dram.mem[..] == m0 && State() == old(State())
        invariant FindLeaf(m0, Vpn(va), a, level) == Lookup39(m0, regs.satp, Vpn(va))
        decreases level
      {
        TableIndexIsVpnField(va, level);
        var pteAddr := a + TableIndex(va, level) * 8;
        assert pteAddr == PteAddr(a, Vpn(va), level);
        if !dram.IsValidAddr(pteAddr, 8) {
          return Raise(AccessFault(pc, va, t));
        }
        var pte := dram.Read(pteAddr, 8);
        if !Bit(pte, PTE_V) || (!Bit(pte, PTE_R) && Bit(pte, PTE_W)) {
          return Raise(PageFault(pc, va, t));
        }
        ReservedBits(pte);
        if Shr(pte, 54) != 0 {
          return Raise(PageFault(pc, va, t));
        }
        var isLeaf := Bit(pte, PTE_R) || Bit(pte, PTE_X);
        if isLeaf {
          res := UseLeaf(pc, va, t, idx, pteAddr, level, pte);
          return;
        }
        if Bit(pte, PTE_D) || Bit(pte, PTE_A) || Bit(pte, PTE_U) || level == 0 {
          return Raise(PageFault(pc, va, t));
        }
        level := level - 1;
        PpnFieldIsPtePpn(pte);
        a := PpnField(pte) * 0x1000;
      }
    }

    // MMU::translate
    method Translate(pc: nat, va: U64, t: Access) returns (res: Result<nat>)
      requires Valid()
      modifies itlb, dtlb, dram.mem
      ensures Valid()
      ensures State() == TranslateStep(old(State()), pc, va, t).0
      ensures res == TranslateStep(old(State()), pc, va, t).1
    {
      hide And, Shr, Fill, FindLeaf, PageFault, SignExtend39, ComposeAddress, Permitted, Vpn, Slot;
      var priv := regs.priv;
      if t != Access.Fetch && regs.mprv {
        priv := regs.mpp;
      }
      var idx := And(Shr(va, 12), TLB_ENTRIES - 1);
      PageNumber(va);
      SlotIndex(Vpn(va));
      if priv == M_MODE || SatpMode(regs.satp) == BARE {
        return Ok(va);
      }
      SignExtendTest(va);
      if SignExtend39(va) != va {
        return Raise(PageFault(pc, va, t));
      }
      var entry := if t == Access.Fetch then itlb[idx] else dtlb[idx];
      var hit := TryHit(entry, Shr(va, 12), t);
      if hit {
        ComposeIsSum(entry.ppn, va);
        return Ok(ComposeAddress(entry.ppn, va));
      }
      res := WalkTables(pc, va, t, idx);
    }

    // Translation of a page whose entries agree with memory: the bare walk. The
    // pages in `stale` may have changed tables and await their fence.
    method TranslateCoherent(pc: nat, va: U64, t: Access, ghost stale: set<nat>) returns (res: Result<nat>)
      requires Valid() && Inv(State(), stale) && Fenced39(regs, stale, va, t)
      modifies itlb, dtlb, dram.mem
      ensures Valid() && Inv(State(), stale)
      ensures Walked(res, dram.mem[..]) == Walk(old(dram.mem[..]), regs, pc, va, t)
    {
      hide CachedWalk, Agrees, Walk, Slot;
      ghost var s := State();
      TranslateKeepsInv(s, stale, pc, va, t);
      var i := Slot(Vpn(va));
      CachedWalkIsWalk(s.mem, s.regs, if t.Fetch? then s.itlb[i] else s.dtlb[i], pc, va, t);
      res := Translate(pc, va, t);
    }

    // MMU::tlb_flush_all
    method TlbFlushAll()
      requires Valid()
      modifies itlb, dtlb
      ensures Valid() && State() == FlushAll(old(State()))
    {
      forall i | 0 <= i < itlb.Length {
        itlb[i] := EMPTY;
      }
      forall i | 0 <= i < dtlb.Length {
        dtlb[i] := EMPTY;
      }
      assert itlb[..] == NoEntries() && dtlb[..] == NoEntries();
    }

    // MMU::tlb_flush_vaddr
    method TlbFlushVaddr(va: U64)
      requires Valid()
      modifies itlb, dtlb
      ensures Valid() && State() == FlushVaddr(old(State()), va)
    {
      var vpn := Shr(va, 12);
      var idx := And(vpn, TLB_ENTRIES - 1);
      PageNumber(va);
      SlotIndex(vpn);
      if dtlb[idx].valid && dtlb[idx].vpn == vpn {
        dtlb[idx] := dtlb[idx].(valid := false);
      }
      if itlb[idx].valid && itlb[idx].vpn == vpn {
        itlb[idx] := itlb[idx].(valid := false);
      }
    }

    // SATP::write_unchecked
    method SatpWrite(v: U64)
      requires Valid()
      modifies this, itlb, dtlb
      ensures Valid() && State() == Step(old(State()), WriteSatp(v)).0
    {
      var mode := SatpMode(v);
      if regs.satp != v && (mode == BARE || mode == SV39) {
        regs := regs.(satp := v);
        TlbFlushAll();
      }
    }

    // MMU::read
    method Read(pc: nat, addr: U64, n: nat, t: Access, ghost stale: set<nat>) returns (res: Result<nat>)
      requires Valid() && Inv(State(), stale) && Size(n) && AllFenced(regs, stale, addr, n, t)
      modifies itlb, dtlb, dram.mem
      ensures Valid() && Inv(State(), stale)
      ensures Loaded(res, dram.mem[..]) == Accesses.Read(old(dram.mem[..]), regs, pc, addr, n, t)
    {
      hide Walk, AccessFault, FromBytes, Inv, TranslateBytes, State, Fenced39;
      FirstFenced(regs, stale, addr, n, t);
      if addr % n == 0 {
        var pa := TranslateCoherent(pc, addr, t, stale);
        if pa.Raise? {
          return pa;
        }
        if !dram.IsValidAddr(pa.value, n) {
          return Raise(AccessFault(pc, addr, t));
        }
        var v := dram.Read(pa.value, n);
        return Ok(v);
      }
      var trap, paddrs := TranslateEach(pc, addr, n, t, stale);
      if trap.Some? {
        return Raise(trap.value);
      }
      var bytes: seq<Byte> := [];
      for i := 0 to n
        invariant |bytes| == i && AllInDram(dram.mem[..], paddrs)
        invariant forall k :: 0 <= k < i ==> bytes[k] == ByteAt(dram.mem[..], paddrs[k])
      {
        assert paddrs[i] in paddrs;
        bytes := bytes + [dram.mem[paddrs[i] - DRAM_BASE]];
      }
      assert bytes == Gather(dram.mem[..], paddrs);
      return Ok(FromBytes(bytes));
    }

    // The first loop of the unaligned paths: every byte's address is translated
    // and checked before any data byte is touched.
    method TranslateEach(pc: nat, addr: U64, n: nat, t: Access, ghost stale: set<nat>)
      returns (trap: Option<Trap>, paddrs: seq<nat>)
      requires Valid() && Inv(State(), stale) && AllFenced(regs, stale, addr, n, t)
      modifies itlb, dtlb, dram.mem
      ensures Valid() && Inv(State(), stale)
      ensures TranslateBytes(old(dram.mem[..]), regs, pc, addr, n, 0, t) ==
              Addresses(if trap.Some? then Raise(trap.value) else Ok(paddrs), dram.mem[..])
      ensures trap.None? ==> |paddrs| == n && AllInDram(dram.mem[..], paddrs)
    {
      hide Walk, AccessFault, Inv, Fenced39;
      paddrs := [];
      ghost var m0 := dram.mem[..];
      AfterNone(TranslateBytes(m0, regs, pc, addr, n, 0, t));
      for i := 0 to n
        invariant Valid() && Inv(State(), stale) && |dram.mem[..]| == |m0| && |paddrs| == i
        invariant TranslateBytes(m0, regs, pc, addr, n, 0, t) ==
                  After(paddrs, TranslateBytes(dram.mem[..], regs, pc, addr, n, i, t))
      {
        assert FencedByte(regs, stale, addr, i, t);
        var pa := TranslateCoherent(pc, Wrap(addr + i), t, stale);
        if pa.Raise? {
          return Some(pa.trap), paddrs;
        }
        if !dram.IsValidAddr(pa.value, 1) {
          return Some(AccessFault(pc, addr, t)), paddrs;
        }
        AfterOne(paddrs, pa.value, TranslateBytes(dram.mem[..], regs, pc, addr, n, i + 1, t));
        paddrs := paddrs + [pa.value];
      }
      assert paddrs + [] == paddrs;
      return None, paddrs;
    }

    // The byte loop of a misaligned store
    method StoreEach(paddrs: seq<nat>, bytes: seq<Byte>)
      requires |paddrs| == |bytes| && AllInDram(dram.mem[..], paddrs)
      modifies dram.mem
      ensures dram.mem[..] == Scatter(old(dram.mem[..]), paddrs, bytes)
    {
      hide StoreBytes;
      ghost var m0 := dram.mem[..];
      for i := 0 to |paddrs|
        invariant |dram.mem[..]| == |m0| && AllInDram(dram.mem[..], paddrs) && AllInDram(dram.mem[..], paddrs[i..])
        invariant Scatter(dram.mem[..], paddrs[i..], bytes[i..]) == Scatter(m0, paddrs, bytes)
      {
        assert paddrs[i] in paddrs;
        assert paddrs[i..][1..] == paddrs[i + 1..] && bytes[i..][1..] == bytes[i + 1..];
        assert forall q :: q in paddrs[i + 1..] ==> q in paddrs;
        dram.WriteBytes(paddrs[i], [bytes[i]]);
      }
    }

    // MMU::write.  Afterwards the only further pages that may disagree are those
    // whose page-table entries the data bytes overwrote.
    method Write(pc: nat, addr: U64, n: nat, v: nat, ghost stale: set<nat>) returns (trap: Option<Trap>)
      requires Valid() && Inv(State(), stale) && Size(n) && AllFenced(regs, stale, addr, n, Access.Store)
      modifies itlb, dtlb, dram.mem
      ensures Valid()
      ensures Stored(if trap.Some? then Raise(trap.value) else Ok(()), dram.mem[..]) ==
              Accesses.Write(old(dram.mem[..]), regs, pc, addr, n, v)
      ensures var a := TranslateBytes(old(dram.mem[..]), regs, pc, addr, n, 0, Access.Store);
        var pas := if a.result.Ok? then a.result.value else [];
        Inv(State(), stale + Overwritten(a.mem, regs.satp, itlb[..], pas)
                           + Overwritten(a.mem, regs.satp, dtlb[..], pas))
    {
      hide Walk, AccessFault, FromBytes, Inv, StoreBytes, TranslateBytes, Fenced39, Overwritten, Scatter, AllFenced;
      FirstFenced(regs, stale, addr, n, Access.Store);
      ghost var m0 := dram.mem[..];
      ghost var a := TranslateBytes(m0, regs, pc, addr, n, 0, Access.Store);
      if addr % n == 0 {
        AlignedTranslation(m0, regs, pc, addr, n, Access.Store);
        var pa := TranslateCoherent(pc, addr, Access.Store, stale);
        if pa.Raise? {
          InvOverNothing(State(), stale);
          return Some(pa.trap);
        }
        if !dram.IsValidAddr(pa.value, n) {
          InvOverNothing(State(), stale);
          return Some(AccessFault(pc, addr, Access.Store));
        }
        ScatterConsecutive(dram.mem[..], pa.value, ToBytes(v, n));
        InvAfterScatter(State(), stale, a.result.value, ToBytes(v, n));
        dram.Write(pa.value, n, v);
        return None;
      }
      var fault, paddrs := TranslateEach(pc, addr, n, Access.Store, stale);
      if fault.Some? {
        InvOverNothing(State(), stale);
        return fault;
      }
      ghost var s1 := State();
      var bytes := ToBytes(v, n);
      StoreEach(paddrs, bytes);
      InvAfterScatter(s1, stale, paddrs, bytes);
      return None;
    }

    // MMU::probe_store
    method ProbeStore(pc: nat, addr: U64, ghost stale: set<nat>) returns (trap: Option<Trap>)
      requires Valid() && Inv(State(), stale) && Fenced39(regs, stale, addr, Access.Store)
      modifies itlb, dtlb, dram.mem
      ensures Valid() && Inv(State(), stale)
      ensures Stored(if trap.Some? then Raise(trap.value) else Ok(()), dram.mem[..]) ==
              Accesses.ProbeStore(old(dram.mem[..]), regs, pc, addr)
    {
      hide Walk, Inv;
      var pa := TranslateCoherent(pc, addr, Access.Store, stale);
      if pa.Raise? {
        return Some(pa.trap);
      }
      return if dram.IsValidAddr(pa.value, 1) then None else Some(AccessFault(pc, addr, Access.Store));
    }

    // MMU::ifetch: the instruction and its length.
    method IFetch(pc: U64, ghost stale: set<nat>) returns (res: Result<(nat, nat)>)
      requires Valid() && Inv(State(), stale)
      requires Fenced39(regs, stale, pc, Access.Fetch)
      requires SecondParcel(dram.mem[..], regs, pc) ==> Fenced39(regs, stale, Wrap(pc + 2), Access.Fetch)
      modifies itlb, dtlb, dram.mem
      ensures Valid() && Inv(State(), stale)
      ensures Fetched(res, dram.mem[..]) == Accesses.IFetch(old(dram.mem[..]), regs, pc)
    {
      hide Walk, AccessFault, FromBytes, Inv, Fenced39;
      var pa := TranslateCoherent(pc, pc, Access.Fetch, stale);
      if pa.Raise? {
        return Raise(pa.trap);
      }
      if !MayCrossPage(pc) {
        if !dram.IsValidAddr(pa.value, 4) {
          return Raise(AccessFault(pc, pc, Access.Fetch));
        }
        var insn := dram.Read(pa.value, 4);
        return Ok(if Compressed(insn) then (insn % 0x1_0000, 2) else (insn, 4));
      }
      if !dram.IsValidAddr(pa.value, 2) {
        return Raise(AccessFault(pc, pc, Access.Fetch));
      }
      var lo := dram.Read(pa.value, 2);
      if Compressed(lo) {
        return Ok((lo, 2));
      }
      pa := TranslateCoherent(pc, Wrap(pc + 2), Access.Fetch, stale);
      if pa.Raise? {
        return Raise(pa.trap);
      }
      if !dram.IsValidAddr(pa.value, 2) {
        return Raise(AccessFault(pc, Wrap(pc + 2), Access.Fetch));
      }
      var hi := dram.Read(pa.value, 2);
      return Ok((lo + 0x1_0000 * hi, 4));
    }
  }

  // The page of va, when the access translates it, has no fence outstanding.
  predicate Fenced39(r: Regs, stale: set<nat>, va: U64, t: Access) { Paged(r, t) ==> Vpn(va) !in stale }

  // The fetch goes on to translate pc + 2.
  predicate SecondParcel(m: Mem, r: Regs, pc: U64) {
    MayCrossPage(pc) && FetchParcel(m, r, pc, pc).result.Ok? && !Compressed(FetchParcel(m, r, pc, pc).result.value)
  }

  // Likewise the pages of all bytes of an access.
  predicate AllFenced(r: Regs, stale: set<nat>, addr: U64, n: nat, t: Access) {
    forall k: nat :: k < n ==> FencedByte(r, stale, addr, k, t)
  }

  predicate FencedByte(r: Regs, stale: set<nat>, addr: U64, k: nat, t: Access) {
    Fenced39(r, stale, Wrap(addr + k), t)
  }

  lemma FirstFenced(r: Regs, stale: set<nat>, addr: U64, n: nat, t: Access)
    requires AllFenced(r, stale, addr, n, t) && n > 0
    ensures Fenced39(r, stale, addr, t)
  {
    assert FencedByte(r, stale, addr, 0, t);
  }

  // The result of the whole loop when the first bytes translated to `done`.
  function After(done: seq<nat>, rest: Addresses): Addresses {
    match rest.result
    case Raise(_) => rest
    case Ok(pas) => Addresses(Ok(done + pas), rest.mem)
  }

  lemma AfterNone(rest: Addresses)
    ensures After([], rest) == rest
  {
    if rest.result.Ok? {
      assert [] + rest.result.value == rest.result.value;
    }
  }

  lemma AfterOne(done: seq<nat>, pa: nat, rest: Addresses)
    ensures After(done, After([pa], rest)) == After(done + [pa], rest)
  {
    if rest.result.Ok? {
      assert done + ([pa] + rest.result.value) == done + [pa] + rest.result.value;
    }
  }

  // The pages whose cached entry has page-table entries among the written bytes.
  function Overwritten(m: Mem, satp: U64, tlb: Entries, pas: seq<nat>): set<nat> {
    set i | 0 <= i < TLB_ENTRIES && tlb[i].valid && !AvoidsAll(pas, Path39(m, satp, tlb[i].vpn)) :: tlb[i].vpn
  }

  lemma InvOverNothing(s: Machine, stale: set<nat>)
    requires Inv(s, stale)
    ensures Inv(s, stale + Overwritten(s.mem, s.regs.satp, s.itlb, []) + Overwritten(s.mem, s.regs.satp, s.dtlb, []))
  {
  }

  lemma FreshAfterScatter(m: Mem, satp: U64, tlb: Entries, pas: seq<nat>, b: seq<Byte>, old_: set<nat>, stale: set<nat>)
    requires Fresh(m, satp, tlb, old_) && |pas| == |b| && AllInDram(m, pas)
    requires old_ + Overwritten(m, satp, tlb, pas) <= stale
    ensures Fresh(Scatter(m, pas, b), satp, tlb, stale)
  {
    hide AvoidsAll, Scatter, Path, FindLeaf;
    forall i | 0 <= i < TLB_ENTRIES && tlb[i].vpn !in stale ensures Agrees(Scatter(m, pas, b), satp, tlb[i]) {
      assert Agrees(m, satp, tlb[i]);
      if tlb[i].valid {
        assert tlb[i].vpn !in Overwritten(m, satp, tlb, pas);
        ScatterFrame(m, pas, b, satp, tlb[i].vpn);
      }
    }
  }

  lemma InvAfterScatter(s: Machine, old_: set<nat>, pas: seq<nat>, b: seq<Byte>)
    requires Inv(s, old_) && |pas| == |b| && AllInDram(s.mem, pas)
    ensures Inv(s.(mem := Scatter(s.mem, pas, b)),
                old_ + Overwritten(s.mem, s.regs.satp, s.itlb, pas) + Overwritten(s.mem, s.regs.satp, s.dtlb, pas))
  {
    hide Overwritten, Fresh;
    var stale := old_ + Overwritten(s.mem, s.regs.satp, s.itlb, pas) + Overwritten(s.mem, s.regs.satp, s.dtlb, pas);
    FreshAfterScatter(s.mem, s.regs.satp, s.itlb, pas, b, old_, stale);
    FreshAfterScatter(s.mem, s.regs.satp, s.dtlb, pas, b, old_, stale);
  }
}
