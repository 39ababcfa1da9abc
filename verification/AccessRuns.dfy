/**
 Runs of whole accesses: loads, stores, probes and fetches of every size and
 alignment, mixed with fences, satp writes and changes of the control bits.
 */
module AccessRuns {
  import opened Bits
  import opened Memory
  import opened Traps
  import opened Sv39
  import opened Sv39Lemmas
  import opened Tlb
  import opened TlbRuns
  import opened Accesses
  import opened StoreLoad
  import opened MmuUnit

  datatype Op =
    | DoRead(pc: nat, addr: U64, n: nat, t: Access)
    | DoWrite(pc: nat, addr: U64, n: nat, v: nat)
    | DoProbe(pc: nat, addr: U64)
    | DoFetch(at: U64)
    | FenceAll
    | FenceVaddr(va: U64)
    | SetSatp(value: U64)
    | SetBits(priv: Priv, mprv: bool, mpp: Priv, sum: bool, mxr: bool, adue: bool)

  datatype Answer =
    | Value(loaded: Result<nat>) | Written(stored: Result<()>) | Insn(fetched: Result<(nat, nat)>) | Quiet

  predicate Legal(op: Op) {
    match op
    case DoRead(_, _, n, _) => Size(n)
    case DoWrite(_, _, n, _) => Size(n)
    case _ => true
  }

  // What each operation does when there is no TLB.
  function BareAnswer(m: Mem, r: Regs, op: Op): Answer
    requires Legal(op)
  {
    match op
    case DoRead(pc, addr, n, t) => Value(Accesses.Read(m, r, pc, addr, n, t).result)
    case DoWrite(pc, addr, n, v) => Written(Accesses.Write(m, r, pc, addr, n, v).result)
    case DoProbe(pc, addr) => Written(Accesses.ProbeStore(m, r, pc, addr).result)
    case DoFetch(pc) => Insn(Accesses.IFetch(m, r, pc).result)
    case _ => Quiet
  }

  function BareMem(m: Mem, r: Regs, op: Op): Mem
    requires Legal(op)
  {
    match op
    case DoRead(pc, addr, n, t) => Accesses.Read(m, r, pc, addr, n, t).mem
    case DoWrite(pc, addr, n, v) => Accesses.Write(m, r, pc, addr, n, v).mem
    case DoProbe(pc, addr) => Accesses.ProbeStore(m, r, pc, addr).mem
    case DoFetch(pc) => Accesses.IFetch(m, r, pc).mem
    case _ => m
  }

  function BareRegs(r: Regs, op: Op): Regs {
    match op
    case SetSatp(v) => if SatpChanges(r, v) then r.(satp := v) else r
    case SetBits(priv, mprv, mpp, sum, mxr, adue) =>
      r.(priv := priv, mprv := mprv, mpp := mpp, sum := sum, mxr := mxr, adue := adue)
    case _ => r
  }

  predicate AllLegal(ops: seq<Op>) { forall op :: op in ops ==> Legal(op) }

  lemma LegalTail(ops: seq<Op>)
    requires ops != [] && AllLegal(ops)
    ensures Legal(ops[0]) && AllLegal(ops[1..])
  {
    assert ops[0] in ops && forall op :: op in ops[1..] ==> op in ops;
  }

  datatype History = History(answers: seq<Answer>, mem: Mem, regs: Regs)

  function BareAccesses(m: Mem, r: Regs, ops: seq<Op>): History
    requires AllLegal(ops)
    decreases |ops|
  {
    if ops == [] then History([], m, r)
    else
      LegalTail(ops);
      var rest := BareAccesses(BareMem(m, r, ops[0]), BareRegs(r, ops[0]), ops[1..]);
      History([BareAnswer(m, r, ops[0])] + rest.answers, rest.mem, rest.regs)
  }

  // The pages whose tables the bytes of a store hit, whether cached or not.
  ghost function TablesHit(m: Mem, r: Regs, op: Op): iset<nat> {
    match op
    case DoWrite(pc, addr, n, _) =>
      var a := TranslateBytes(m, r, pc, addr, n, 0, Access.Store);
      if a.result.Ok? then iset v: nat | !AvoidsAll(a.result.value, Path39(a.mem, r.satp, v)) else iset{}
    case _ => iset{}
  }

  ghost function Outstanding(m: Mem, r: Regs, due: iset<nat>, op: Op): iset<nat> {
    match op
    case FenceAll => iset{}
    case FenceVaddr(va) => due - iset{Vpn(va)}
    case SetSatp(v) => if SatpChanges(r, v) then iset{} else due
    case _ => due + TablesHit(m, r, op)
  }

  ghost predicate ByteClear(r: Regs, due: iset<nat>, addr: U64, k: nat, t: Access) {
    Paged(r, t) ==> Vpn(Wrap(addr + k)) !in due
  }

  // The operation translates no page with a fence outstanding.
  ghost predicate Clear(m: Mem, r: Regs, due: iset<nat>, op: Op) {
    match op
    case DoRead(_, addr, n, t) => forall k: nat :: k < n ==> ByteClear(r, due, addr, k, t)
    case DoWrite(_, addr, n, _) => forall k: nat :: k < n ==> ByteClear(r, due, addr, k, Access.Store)
    case DoProbe(_, addr) => ByteClear(r, due, addr, 0, Access.Store)
    case DoFetch(pc) =>
      ByteClear(r, due, pc, 0, Access.Fetch) && (SecondParcel(m, r, pc) ==> ByteClear(r, due, pc, 2, Access.Fetch))
    case _ => true
  }

  // The contract of sfence.vma, over the bare run: no access uses a page whose
  // tables were stored to since the last fence of that page.
  ghost predicate WellFenced(m: Mem, r: Regs, due: iset<nat>, ops: seq<Op>)
    requires AllLegal(ops)
    decreases |ops|
  {
    ops == [] ||
    (LegalTail(ops);
     && Clear(m, r, due, ops[0])
     && WellFenced(BareMem(m, r, ops[0]), BareRegs(r, ops[0]), Outstanding(m, r, due, ops[0]), ops[1..]))
  }

  ghost predicate Within(stale: set<nat>, due: iset<nat>) { forall v :: v in stale ==> v in due }

  lemma ClearByte(r: Regs, stale: set<nat>, due: iset<nat>, addr: U64, k: nat, t: Access)
    requires Within(stale, due) && ByteClear(r, due, addr, k, t)
    ensures Fenced39(r, stale, Wrap(addr + k), t)
  {
  }

  lemma ClearAll(r: Regs, stale: set<nat>, due: iset<nat>, addr: U64, n: nat, t: Access)
    requires Within(stale, due) && forall k: nat :: k < n ==> ByteClear(r, due, addr, k, t)
    ensures AllFenced(r, stale, addr, n, t)
  {
    hide Within, ByteClear, Fenced39;
    forall k: nat | k < n ensures FencedByte(r, stale, addr, k, t) {
      ClearByte(r, stale, due, addr, k, t);
    }
  }

  lemma HitTables(m: Mem, r: Regs, op: Op, tlb: Entries)
    requires op.DoWrite?
    ensures var a := TranslateBytes(m, r, op.pc, op.addr, op.n, 0, Access.Store);
      Within(Overwritten(a.mem, r.satp, tlb, if a.result.Ok? then a.result.value else []), TablesHit(m, r, op))
  {
    hide TranslateBytes, Path39;
  }

  lemma FlushKeepsInv(s: Machine, stale: set<nat>, va: U64)
    requires Inv(s, stale)
    ensures Inv(FlushAll(s), {}) && Inv(FlushVaddr(s, va), stale - {Vpn(va)})
  {
    hide Agrees;
    StepKeepsInv(s, stale, SfenceAll);
    StepKeepsInv(s, stale, SfenceVaddr(va));
  }

  // One operation on the object.
  method Perform(mmu: Mmu, op: Op, ghost stale: set<nat>, ghost due: iset<nat>)
      returns (a: Answer, ghost stale': set<nat>)
    requires mmu.Valid() && Inv(mmu.State(), stale) && Within(stale, due) && Legal(op)
    requires Clear(mmu.dram.mem[..], mmu.regs, due, op)
    modifies mmu, mmu.itlb, mmu.dtlb, mmu.dram.mem
    ensures mmu.Valid() && Inv(mmu.State(), stale')
    ensures Within(stale', Outstanding(old(mmu.dram.mem[..]), old(mmu.regs), due, op))
    ensures a == BareAnswer(old(mmu.dram.mem[..]), old(mmu.regs), op)
    ensures mmu.dram.mem[..] == BareMem(old(mmu.dram.mem[..]), old(mmu.regs), op)
    ensures mmu.regs == BareRegs(old(mmu.regs), op)
  {
    hide Inv, Walk, TranslateBytes, Fenced39, AllFenced, Overwritten, TablesHit, ByteClear;
    ghost var m, r, s := mmu.dram.mem[..], mmu.regs, mmu.State();
    stale' := stale;
    a := Quiet;
    match op {
      case DoRead(pc, addr, n, t) =>
        ClearAll(r, stale, due, addr, n, t);
        var v := mmu.Read(pc, addr, n, t, stale);
        a := Value(v);
      case DoWrite(pc, addr, n, v) =>
        ClearAll(r, stale, due, addr, n, Access.Store);
        var trap := mmu.Write(pc, addr, n, v, stale);
        a := Written(if trap.Some? then Raise(trap.value) else Ok(()));
        HitTables(m, r, op, mmu.itlb[..]);
        HitTables(m, r, op, mmu.dtlb[..]);
        ghost var b := TranslateBytes(m, r, pc, addr, n, 0, Access.Store);
        ghost var pas := if b.result.Ok? then b.result.value else [];
        stale' := stale + Overwritten(b.mem, r.satp, mmu.itlb[..], pas) + Overwritten(b.mem, r.satp, mmu.dtlb[..], pas);
      case DoProbe(pc, addr) =>
        ClearByte(r, stale, due, addr, 0, Access.Store);
        var trap := mmu.ProbeStore(pc, addr, stale);
        a := Written(if trap.Some? then Raise(trap.value) else Ok(()));
      case DoFetch(pc) =>
        ClearByte(r, stale, due, pc, 0, Access.Fetch);
        if SecondParcel(m, r, pc) { ClearByte(r, stale, due, pc, 2, Access.Fetch); }
        var v := mmu.IFetch(pc, stale);
        a := Insn(v);
      case FenceAll =>
        FlushKeepsInv(s, stale, 0);
        mmu.TlbFlushAll();
        stale' := {};
      case FenceVaddr(va) =>
        FlushKeepsInv(s, stale, va);
        mmu.TlbFlushVaddr(va);
        stale' := stale - {Vpn(va)};
      case SetSatp(v) =>
        StepKeepsInv(s, stale, WriteSatp(v));
        mmu.SatpWrite(v);
        stale' := StaleAfter(s, stale, WriteSatp(v));
      case SetBits(priv, mprv, mpp, sum, mxr, adue) =>
        StepKeepsInv(s, stale, SetControl(priv, mprv, mpp, sum, mxr, adue));
        mmu.regs := mmu.regs.(priv := priv, mprv := mprv, mpp := mpp, sum := sum, mxr := mxr, adue := adue);
    }
  }

  // THE REFINEMENT, for whole accesses: in every well-fenced run the MMU with its
  // TLBs answers every load, store, probe and fetch, and leaves memory and
  // registers, as bare walks do.
  method RunAccesses(mmu: Mmu, ops: seq<Op>) returns (answers: seq<Answer>)
    requires mmu.Valid() && Inv(mmu.State(), {}) && AllLegal(ops)
    requires WellFenced(mmu.dram.mem[..], mmu.regs, iset{}, ops)
    modifies mmu, mmu.itlb, mmu.dtlb, mmu.dram.mem
    ensures History(answers, mmu.dram.mem[..], mmu.regs) == BareAccesses(old(mmu.dram.mem[..]), old(mmu.regs), ops)
  {
    hide Inv, WellFenced, BareAccesses, Clear, Outstanding, BareAnswer, BareMem, BareRegs, Within;
    answers := [];
    ghost var stale: set<nat>, due: iset<nat> := {}, iset{};
    ghost var whole := BareAccesses(mmu.dram.mem[..], mmu.regs, ops);
    NothingDone(mmu.dram.mem[..], mmu.regs, ops);
    for i := 0 to |ops|
      invariant mmu.Valid() && Inv(mmu.State(), stale) && Within(stale, due) && AllLegal(ops[i..])
      invariant WellFenced(mmu.dram.mem[..], mmu.regs, due, ops[i..])
      invariant whole == Later(answers, BareAccesses(mmu.dram.mem[..], mmu.regs, ops[i..]))
    {
      LegalTail(ops[i..]);
      assert ops[i..][0] == ops[i] && ops[i..][1..] == ops[i + 1..];
      UnfoldRun(mmu.dram.mem[..], mmu.regs, due, ops[i..], answers);
      var a;
      ghost var m, r := mmu.dram.mem[..], mmu.regs;
      a, stale := Perform(mmu, ops[i], stale, due);
      due := Outstanding(m, r, due, ops[i]);
      answers := answers + [a];
    }
    assert ops[|ops|..] == [];
    Finished(mmu.dram.mem[..], mmu.regs, answers);
  }

  function Later(done: seq<Answer>, h: History): History { h.(answers := done + h.answers) }

  lemma NothingDone(m: Mem, r: Regs, ops: seq<Op>)
    requires AllLegal(ops)
    ensures Within({}, iset{}) && ops[0..] == ops
    ensures BareAccesses(m, r, ops) == Later([], BareAccesses(m, r, ops))
  {
    assert [] + BareAccesses(m, r, ops).answers == BareAccesses(m, r, ops).answers;
  }

  lemma Finished(m: Mem, r: Regs, done: seq<Answer>)
    ensures Later(done, BareAccesses(m, r, [])) == History(done, m, r)
  {
    assert done + [] == done;
  }

  lemma UnfoldRun(m: Mem, r: Regs, due: iset<nat>, ops: seq<Op>, done: seq<Answer>)
    requires ops != [] && AllLegal(ops) && WellFenced(m, r, due, ops)
    ensures Legal(ops[0]) && AllLegal(ops[1..]) && Clear(m, r, due, ops[0])
    ensures WellFenced(BareMem(m, r, ops[0]), BareRegs(r, ops[0]), Outstanding(m, r, due, ops[0]), ops[1..])
    ensures Later(done, BareAccesses(m, r, ops)) ==
      Later(done + [BareAnswer(m, r, ops[0])], BareAccesses(BareMem(m, r, ops[0]), BareRegs(r, ops[0]), ops[1..]))
  {
    hide Clear, Outstanding, BareMem, BareAnswer, BareRegs;
    LegalTail(ops);
    var rest := BareAccesses(BareMem(m, r, ops[0]), BareRegs(r, ops[0]), ops[1..]);
    assert done + ([BareAnswer(m, r, ops[0])] + rest.answers) == (done + [BareAnswer(m, r, ops[0])]) + rest.answers;
  }
}
