/**
 Runs of the trap machine, and the shared interrupt-pending word under
 interleaved device threads.
 */
module HartRuns {
  import opened Bits
  import opened HartModel
  import opened Traps
  import opened HartLemmas

  // ----- Runs of traps, returns, CSR writes and instructions -------------------

  datatype Event =
    | Take(trap: Trap)                 // an exception or interrupt
    | ExecMret
    | ExecSret
    | WriteMstatus(v: Word)
    | WriteSstatus(v: Word)
    | DirtyFp                          // a floating-point instruction sets FS
    | WriteMideleg(v: Word)
    | WriteMedeleg(v: Word)
    | WriteMie(v: Word)
    | WriteSie(v: Word)
    | WriteMtvec(a: nat)
    | WriteStvec(a: nat)
    | WriteMepc(a: nat)
    | WriteSepc(a: nat)
    | ChangeMip(mip: Word)
    | Advance(pc: nat)                 // any other instruction

  // A trap is raised at the current instruction; an instruction moves to an
  // even pc.
  predicate Possible(h: Hart, ev: Event) {
    match ev
    case Take(t) => t.pc == h.pc && IsCause(t.cause)
    case Advance(pc) => pc % 2 == 0
    case _ => true
  }

  function SieMask(): Word { {1, 5, 9} }

  function Apply(h: Hart, ev: Event): Hart {
    match ev
    case Take(t) => TrapEntry(h, t)
    case ExecMret => var o := Mret(h); if o.Done? then o.hart else h
    case ExecSret => var o := Sret(h); if o.Done? then o.hart else h
    case WriteMstatus(v) => h.(mstatus := MstatusWrite(h.mstatus, v))
    case WriteSstatus(v) => h.(mstatus := SstatusWrite(h.mstatus, v))
    case DirtyFp => h.(mstatus := MstatusWrite(h.mstatus, MstatusRead(h.mstatus) + FS))
    case WriteMideleg(v) => h.(mideleg := v * DELEGABLE)
    case WriteMedeleg(v) => h.(medeleg := v - MEDELEG_ZERO)
    case WriteMie(v) => h.(mie := v * INTERRUPTS)
    case WriteSie(v) => h.(mie := SieWrite(v))
    case WriteMtvec(a) => h.(mtvec := TvecWrite(a))
    case WriteStvec(a) => h.(stvec := TvecWrite(a))
    case WriteMepc(a) => h.(mepc := EpcWrite(h.mepc, a))
    case WriteSepc(a) => h.(sepc := EpcWrite(h.sepc, a))
    case ChangeMip(v) => h.(mip := v * INTERRUPTS)
    case Advance(pc) => h.(pc := pc)
  }

  lemma ApplyKeepsOk(h: Hart, ev: Event)
    requires HartOk(h) && Possible(h, ev)
    ensures HartOk(Apply(h, ev))
  {
    hide TrapEntry, Mret, Sret, MstatusWrite, SstatusWrite, MstatusRead, StatusOk, TvecWrite, EpcWrite;
    match ev
    case Take(t) => TrapKeepsOk(h, t);
    case ExecMret => ReturnKeepsOk(h);
    case ExecSret => ReturnKeepsOk(h);
    case WriteMstatus(v) => WriteKeepsStatusOk(h.mstatus, v);
    case WriteSstatus(v) => WriteKeepsStatusOk(h.mstatus, v);
    case DirtyFp => WriteKeepsStatusOk(h.mstatus, MstatusRead(h.mstatus) + FS);
    case _ =>
  }

  function Run(h: Hart, events: seq<Event>): Hart {
    if events == [] then h else Apply(Run(h, events[..|events| - 1]), events[|events| - 1])
  }

  ghost predicate Feasible(h: Hart, events: seq<Event>) {
    forall k :: 0 <= k < |events| ==> Possible(Run(h, events[..k]), events[k])
  }

  // SAFETY: in every run SD summarises FS, SXL and UXL say 64 bits, only the
  // delegable interrupts are delegated, and pc is even.
  lemma {:induction false} RunKeepsOk(h: Hart, events: seq<Event>)
    requires HartOk(h) && Feasible(h, events)
    ensures HartOk(Run(h, events))
    decreases |events|
  {
    hide HartOk, Possible, Apply;
    if events != [] {
      var n := |events| - 1;
      forall k | 0 <= k < n ensures Possible(Run(h, events[..n][..k]), events[..n][k]) {
        assert events[..n][..k] == events[..k];
      }
      RunKeepsOk(h, events[..n]);
      ApplyKeepsOk(Run(h, events[..n]), events[n]);
    }
  }

  // The registers after construction satisfy the invariant, so every run from
  // reset keeps it.
  lemma ResetOk(h: Hart, events: seq<Event>)
    requires h.mstatus == MSTATUS_RESET && h.mideleg == h.mie == h.mip == {} && h.pc % 2 == 0
    requires Feasible(h, events)
    ensures HartOk(Run(h, events))
  {
    assert HartOk(h);
    RunKeepsOk(h, events);
  }

  // ----- The interrupt-pending word under interleaving --------------------------

  const SSIP: nat := 1
  const STIP: nat := 5
  const SEIP: nat := 9

  // The bits a CSR write of mip changes: STIP is driven by stimecmp under STCE.
  function MipWritable(stce: bool): Word { if stce then {SSIP, SEIP} else {SSIP, SEIP, STIP} }

  // The value a CSR write computes from the word it loaded.
  function MipWritten(old_: Word, v: Word, stce: bool): Word {
    (old_ - MipWritable(stce)) + (v * MipWritable(stce))
  }

  // The hart is outside MIP::write_unchecked, or in its loop with a loaded word.
  datatype Phase = Idle | Writing(v: Word, loaded: Word)

  datatype Shared = Shared(mip: Word, stce: bool, phase: Phase)

  datatype Atom =
    | SetPending(mask: Word)     // fetch_or by a device thread
    | ClearPending(mask: Word)   // fetch_and by a device thread
    | Begin(v: Word)             // the hart enters a CSR write and loads the word
    | Swap(spurious: bool)       // compare_exchange_weak, which may fail spuriously
    | SetStce(on: bool)          // the hart writes menvcfg, between CSR writes

  predicate Succeeds(s: Shared, a: Atom) {
    a.Swap? && s.phase.Writing? && !a.spurious && s.mip == s.phase.loaded
  }

  function AtomStep(s: Shared, a: Atom): Shared {
    match a
    case SetPending(m) => s.(mip := s.mip + m * INTERRUPTS)
    case ClearPending(m) => s.(mip := s.mip - m)
    case Begin(v) => s.(phase := Writing(v, s.mip))
    case SetStce(on) => s.(stce := on)
    case Swap(_) =>
      if !s.phase.Writing? then s
      else if Succeeds(s, a) then s.(mip := MipWritten(s.phase.loaded, s.phase.v, s.stce), phase := Idle)
      else s.(phase := Writing(s.phase.v, s.mip))
  }

  function Interleave(s: Shared, atoms: seq<Atom>): Shared
    decreases |atoms|
  {
    if atoms == [] then s else Interleave(AtomStep(s, atoms[0]), atoms[1..])
  }

  // The same history with each CSR write as one indivisible step.
  datatype Whole = DeviceSet(mask: Word) | DeviceClear(mask: Word) | CsrWrite(v: Word, stce: bool)

  function WholeStep(mip: Word, w: Whole): Word {
    match w
    case DeviceSet(m) => mip + m * INTERRUPTS
    case DeviceClear(m) => mip - m
    case CsrWrite(v, stce) => MipWritten(mip, v, stce)
  }

  function Sequential(mip: Word, ws: seq<Whole>): Word
    decreases |ws|
  {
    if ws == [] then mip else Sequential(WholeStep(mip, ws[0]), ws[1..])
  }

  // Device steps in place, and each CSR write at its successful swap.
  function Linearised(s: Shared, atoms: seq<Atom>): seq<Whole>
    decreases |atoms|
  {
    if atoms == [] then []
    else
      var rest := Linearised(AtomStep(s, atoms[0]), atoms[1..]);
      match atoms[0]
      case SetPending(m) => [DeviceSet(m)] + rest
      case ClearPending(m) => [DeviceClear(m)] + rest
      case _ => if Succeeds(s, atoms[0]) then [CsrWrite(s.phase.v, s.stce)] + rest else rest
  }

  // ATOMICITY: under every interleaving, also with spurious failures, the word
  // ends as if each CSR write happened at once at its successful swap.
  lemma {:induction false} CsrWritesAreAtomic(s: Shared, atoms: seq<Atom>)
    ensures Interleave(s, atoms).mip == Sequential(s.mip, Linearised(s, atoms))
    decreases |atoms|
  {
    hide MipWritten, INTERRUPTS;
    if atoms != [] {
      CsrWritesAreAtomic(AtomStep(s, atoms[0]), atoms[1..]);
      var rest := Linearised(AtomStep(s, atoms[0]), atoms[1..]);
      var ws := Linearised(s, atoms);
      assert ws == rest || ws[1..] == rest;
    }
  }

  // What the device steps alone produce.
  function DeviceOnly(mip: Word, atoms: seq<Atom>): Word
    decreases |atoms|
  {
    if atoms == [] then mip
    else
      match atoms[0]
      case SetPending(m) => DeviceOnly(mip + m * INTERRUPTS, atoms[1..])
      case ClearPending(m) => DeviceOnly(mip - m, atoms[1..])
      case _ => DeviceOnly(mip, atoms[1..])
  }

  // STCE stays set: no step clears it.
  predicate KeepsStce(atoms: seq<Atom>) {
    forall a :: a in atoms && a.SetStce? ==> a.on
  }

  // DEVICE BITS: MSIP, MTIP and MEIP always are what the devices made them, and
  // so is STIP while STCE is set, whatever CSR writes interleave.
  lemma {:induction false} DeviceBitsAreDevices(s: Shared, mip: Word, atoms: seq<Atom>, bit: nat)
    requires bit !in {SSIP, SEIP} && (bit == STIP ==> s.stce && KeepsStce(atoms))
    requires bit in s.mip <==> bit in mip
    ensures bit in Interleave(s, atoms).mip <==> bit in DeviceOnly(mip, atoms)
    decreases |atoms|
  {
    if atoms != [] {
      var mip' := match atoms[0]
        case SetPending(m) => mip + m * INTERRUPTS
        case ClearPending(m) => mip - m
        case _ => mip;
      assert forall a :: a in atoms[1..] ==> a in atoms;
      assert atoms[0] in atoms;
      DeviceBitsAreDevices(AtomStep(s, atoms[0]), mip', atoms[1..], bit);
    }
  }

  // The values whose CSR write the hart has begun and not yet stored.
  function Unfinished(s: Shared): seq<Word> { if s.phase.Writing? then [s.phase.v] else [] }

  function Begun(atoms: seq<Atom>): seq<Word>
    decreases |atoms|
  {
    if atoms == [] then [] else (if atoms[0].Begin? then [atoms[0].v] else []) + Begun(atoms[1..])
  }

  function Stored(ws: seq<Whole>): seq<Word>
    decreases |ws|
  {
    if ws == [] then [] else (if ws[0].CsrWrite? then [ws[0].v] else []) + Stored(ws[1..])
  }

  // One hart: it begins a CSR write only after the previous one has ended.
  predicate Orderly(s: Shared, atoms: seq<Atom>)
    decreases |atoms|
  {
    atoms == [] || ((atoms[0].Begin? ==> s.phase.Idle?) && Orderly(AtomStep(s, atoms[0]), atoms[1..]))
  }

  function BegunBy(a: Atom): seq<Word> { if a.Begin? then [a.v] else [] }

  function StoredBy(s: Shared, a: Atom): seq<Word> { if Succeeds(s, a) then [s.phase.v] else [] }

  lemma OneAtom(s: Shared, a: Atom)
    requires a.Begin? ==> s.phase.Idle?
    ensures Unfinished(s) + BegunBy(a) == StoredBy(s, a) + Unfinished(AtomStep(s, a))
  {
    hide MipWritten, INTERRUPTS;
  }

  lemma LinearHead(s: Shared, atoms: seq<Atom>)
    requires atoms != []
    ensures Stored(Linearised(s, atoms)) ==
      StoredBy(s, atoms[0]) + Stored(Linearised(AtomStep(s, atoms[0]), atoms[1..]))
  {
    hide AtomStep;
    var rest, ws := Linearised(AtomStep(s, atoms[0]), atoms[1..]), Linearised(s, atoms);
    assert ws == rest || ws[1..] == rest;
  }

  // PROGRAM ORDER: the CSR writes of the atomic history are those the hart began,
  // in that order and each once; only the last may still be in its loop.
  lemma {:induction false} CsrWritesInProgramOrder(s: Shared, atoms: seq<Atom>)
    requires Orderly(s, atoms)
    ensures Unfinished(s) + Begun(atoms) == Stored(Linearised(s, atoms)) + Unfinished(Interleave(s, atoms))
    decreases |atoms|
  {
    hide AtomStep, Succeeds, Linearised, Stored, Unfinished;
    if atoms == [] {
      NoAtoms(s);
    } else {
      var s', a, later := AtomStep(s, atoms[0]), atoms[0], atoms[1..];
      CsrWritesInProgramOrder(s', later);
      OneAtom(s, a);
      LinearHead(s, atoms);
      assert Begun(atoms) == BegunBy(a) + Begun(later);
      Regroup(Unfinished(s), BegunBy(a), StoredBy(s, a), Unfinished(s'), Begun(later),
              Stored(Linearised(s', later)), Unfinished(Interleave(s', later)));
    }
  }

  lemma NoAtoms(s: Shared)
    ensures Unfinished(s) + Begun([]) == Stored(Linearised(s, [])) + Unfinished(Interleave(s, []))
  {
  }

  lemma Regroup(u: seq<Word>, b: seq<Word>, d: seq<Word>, u': seq<Word>, bs: seq<Word>, ds: seq<Word>, last: seq<Word>)
    requires u + b == d + u' && u' + bs == ds + last
    ensures u + (b + bs) == (d + ds) + last
  {
    assert u + (b + bs) == (u + b) + bs;
    assert (d + u') + bs == d + (u' + bs);
    assert d + (ds + last) == (d + ds) + last;
  }

  function SpuriousFailures(n: nat): seq<Atom> { seq(n, _ => Swap(true)) }

  lemma {:induction false} SpuriousThenReal(s: Shared, n: nat)
    requires s.phase.Writing? && s.phase.loaded == s.mip
    ensures Interleave(s, SpuriousFailures(n) + [Swap(false)])
         == s.(mip := MipWritten(s.mip, s.phase.v, s.stce), phase := Idle)
  {
    hide MipWritten;
    var atoms := SpuriousFailures(n) + [Swap(false)];
    if n > 0 {
      assert atoms[1..] == SpuriousFailures(n - 1) + [Swap(false)];
      SpuriousThenReal(s, n - 1);
    } else {
      assert atoms == [Swap(false)] && atoms[1..] == [];
    }
  }

  // A CSR write that no other thread disturbs ends at its first swap that is not
  // spurious, after any number of spurious failures.
  lemma UndisturbedSwapSucceeds(s: Shared, v: Word, n: nat)
    requires s.phase.Idle?
    ensures Interleave(s, [Begin(v)] + SpuriousFailures(n) + [Swap(false)])
         == s.(mip := MipWritten(s.mip, v, s.stce))
  {
    hide MipWritten;
    var atoms := [Begin(v)] + SpuriousFailures(n) + [Swap(false)];
    assert atoms[1..] == SpuriousFailures(n) + [Swap(false)];
    SpuriousThenReal(AtomStep(s, Begin(v)), n);
  }

  // ----- Writes through the S-mode views ----------------------------------------

  // SIP::write_unchecked forwards the masked value to the mip write.
  function SipWrite(mip: Word, v: Word, mideleg: Word, stce: bool): Word {
    MipWritten(mip, v * {SSIP} * mideleg, stce)
  }

  // The comment on sip says that STIP and SEIP are not written through it; the
  // forwarded value clears them, so they survive exactly when they are clear or
  // (STIP) hardware-driven.
  lemma SipWriteFrame(mip: Word, v: Word, mideleg: Word, stce: bool)
    ensures SipWrite(mip, v, mideleg, stce) * {STIP, SEIP} == mip * {STIP, SEIP} <==>
            SEIP !in mip && (stce || STIP !in mip)
    ensures SSIP in SipWrite(mip, v, mideleg, stce) <==> SSIP in v && SSIP in mideleg
  {
    var w := SipWrite(mip, v, mideleg, stce);
    assert SEIP !in w && (STIP in w <==> stce && STIP in mip);
    assert SEIP in mip * {STIP, SEIP} <==> SEIP in mip;
    assert STIP in mip * {STIP, SEIP} <==> STIP in mip;
    assert SEIP !in w * {STIP, SEIP};
    assert STIP in w * {STIP, SEIP} <==> STIP in w;
  }

  // A run from reset that loses an interrupt: the PLIC raises SEIP, and a sip
  // write of zero clears it although no device did.
  lemma SipWriteDropsExternal()
    ensures var s := Shared({}, false, Idle);
      var run := [SetPending({SEIP}), Begin({} * {SSIP} * DELEGABLE), Swap(false)];
      SEIP !in Interleave(s, run).mip && SEIP in DeviceOnly({}, run)
  {
    var s, a, b, c := Shared({}, false, Idle), SetPending({SEIP}), Begin({} * {SSIP} * DELEGABLE), Swap(false);
    var s1, s2 := AtomStep(s, a), AtomStep(AtomStep(s, a), b);
    assert [a, b, c][1..] == [b, c] && [b, c][1..] == [c] && [c][1..] == [];
    assert Interleave(s, [a, b, c]) == Interleave(s1, [b, c]);
    assert Interleave(s1, [b, c]) == Interleave(s2, [c]);
    assert Interleave(s2, [c]) == Interleave(AtomStep(s2, c), []);
    assert {} + {SEIP} * INTERRUPTS == {SEIP} * INTERRUPTS;
    assert DeviceOnly({}, [a, b, c]) == DeviceOnly({SEIP} * INTERRUPTS, [b, c]);
    assert DeviceOnly({SEIP} * INTERRUPTS, [b, c]) == DeviceOnly({SEIP} * INTERRUPTS, [c]);
    assert DeviceOnly({SEIP} * INTERRUPTS, [c]) == DeviceOnly({SEIP} * INTERRUPTS, []);
  }

  // SIE::write_unchecked forwards the masked value to the mie write.
  function SieWrite(v: Word): Word { v * SieMask() * INTERRUPTS }

  // A sie write sets the S-mode enables, and keeps the machine-level ones
  // exactly when none is set.
  lemma SieWriteFrame(mie: Word, v: Word)
    ensures SieWrite(v) * SieMask() == v * SieMask()
    ensures SieWrite(v) - SieMask() == mie - SieMask() <==> mie <= SieMask()
  {
    hide *;
    SieWritten(v);
    SieEnables(v, mie);
  }

  lemma TimerMasks()
    ensures {7} * INTERRUPTS == {7} && SieWrite({5}) == {5}
  {
    SieWritten({5});
    assert {5} * SieMask() == {5};
    hide SieWrite;
  }

  lemma MieWrites(h: Hart)
    ensures Apply(h, WriteMie({7})).mie == {7} && Apply(Apply(h, WriteMie({7})), WriteSie({5})).mie == {5}
  {
    hide INTERRUPTS, SieWrite, TrapEntry, Mret, Sret, MstatusWrite, SstatusWrite, TvecWrite, EpcWrite;
    TimerMasks();
  }

  // A run that loses an enable: mie enables the machine timer, and a sie write
  // for the supervisor timer drops it.
  lemma SieWriteDropsTimer(h: Hart)
    ensures 7 in Run(h, [WriteMie({7})]).mie && Run(h, [WriteMie({7}), WriteSie({5})]).mie == {5}
  {
    var a, b := WriteMie({7}), WriteSie({5});
    assert [a, b][..1] == [a] && [a][..0] == [];
    hide Apply;
    MieWrites(h);
    assert Run(h, [a]) == Apply(Run(h, []), a);
    assert Run(h, [a, b]) == Apply(Run(h, [a]), b);
  }

  lemma SieWritten(v: Word)
    ensures SieWrite(v) == v * SieMask()
  {
  }

  lemma SieEnables(v: Word, mie: Word)
    ensures v * SieMask() - SieMask() == mie - SieMask() <==> mie <= SieMask()
    ensures v * SieMask() * SieMask() == v * SieMask()
  {
    hide SieMask;
    assert v * SieMask() - SieMask() == {};
    if mie <= SieMask() {
      assert mie - SieMask() == {};
    } else {
      var k :| k in mie && k !in SieMask();
      assert k in mie - SieMask();
    }
  }

  // ----- How often the execution loop looks at interrupts ------------------------

  // ExecutionEngine::cpu_thread outside a WFI stall: a 16-bit iteration counter,
  // the flag that forces a check, and the hart.
  datatype Engine = Engine(i: U16, checkPending: bool, hart: Hart)

  predicate Checks(e: Engine) { e.i % 256 == 0 || e.checkPending }

  predicate Taken(e: Engine) { Checks(e) && CheckInterrupts(e.hart).Raise? }

  // One iteration takes an interrupt, or executes an instruction, whose effect
  // on the hart and on the flag is left open here.
  predicate NextIteration(e: Engine, e': Engine) {
    && e'.i == (e.i + 1) % 0x1_0000
    && (Taken(e) ==> e'.hart == TrapEntry(e.hart, CheckInterrupts(e.hart).trap) && !e'.checkPending)
  }

  predicate LoopRun(es: seq<Engine>) {
    forall k :: 0 < k < |es| ==> NextIteration(es[k - 1], es[k])
  }

  lemma CounterAdvances(e: Engine, e': Engine)
    requires NextIteration(e, e')
    ensures e'.i == (e.i + 1) % 0x1_0000
  {
    hide Taken, TrapEntry, CheckInterrupts;
  }

  lemma {:induction false} CounterAt(es: seq<Engine>, k: nat)
    requires LoopRun(es) && k < |es|
    ensures es[k].i == (es[0].i + k) % 0x1_0000
  {
    hide NextIteration;
    if k > 0 {
      CounterAt(es, k - 1);
      CounterAdvances(es[k - 1], es[k]);
    }
  }

  // BOUNDED LATENCY: if in 256 consecutive iterations some interrupt is always
  // deliverable, one of those iterations takes one, also across the wrap of the
  // counter.
  lemma InterruptTakenWithin256(es: seq<Engine>)
    requires LoopRun(es) && |es| >= 256
    requires forall k :: 0 <= k < 256 ==> HartOk(es[k].hart) && exists code: nat :: Deliverable(es[k].hart, code)
    ensures exists k :: 0 <= k < 256 && Taken(es[k])
  {
    hide Deliverable, CheckInterrupts, HartOk, NextIteration, LoopRun, EntersTestedMode;
    var k := (256 - es[0].i % 256) % 256;
    CounterAt(es, k);
    assert es[k].i % 256 == 0;
    InterruptGoesWhereEnabled(es[k].hart);
    assert Taken(es[k]);
  }
}
