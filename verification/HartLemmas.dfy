/**
 Traps and returns are inverse and nest, interrupts go where they were enabled,
 and the status word stays well formed in every run.
 */
module HartLemmas {
  import opened Bits
  import opened HartModel
  import opened Traps

  // ----- Status words across traps and returns --------------------------------

  lemma MstatusWriteKeepsOk(value: Word, v: Word)
    requires StatusOk(value)
    ensures StatusOk(MstatusWrite(value, v))
  {
    WrittenFields(value, v);
    SummaryOk((value - MSTATUS_WRITE) + v * MSTATUS_WRITE);
    hide StatusOk;
  }

  lemma WrittenFields(value: Word, v: Word)
    requires StatusOk(value)
    ensures var w := (value - MSTATUS_WRITE) + v * MSTATUS_WRITE;
      w <= MSTATUS_READ && w * UXL == {33} && w * SXL == {35}
  {
  }

  lemma SummaryOk(w: Word)
    requires w <= MSTATUS_READ && w * UXL == {33} && w * SXL == {35}
    ensures StatusOk(if FS <= w then w + {SD} else w - {SD})
  {
  }

  lemma WriteKeepsStatusOk(value: Word, v: Word)
    requires StatusOk(value)
    ensures StatusOk(MstatusWrite(value, v)) && StatusOk(SstatusWrite(value, v))
  {
    hide MstatusWrite, StatusOk, MstatusRead;
    MstatusWriteKeepsOk(value, v);
    MstatusWriteKeepsOk(value, (MstatusRead(value) - SSTATUS_WRITE) + (v * SSTATUS_WRITE));
  }

  // A sstatus write sets the S-mode fields to what was written, and no other
  // writable field.
  lemma SstatusWriteReach(value: Word, v: Word)
    requires StatusOk(value)
    ensures SstatusWrite(value, v) * MSTATUS_WRITE == value * (MSTATUS_WRITE - SSTATUS_WRITE) + v * SSTATUS_WRITE
  {
    MstatusWritten(value, (MstatusRead(value) - SSTATUS_WRITE) + (v * SSTATUS_WRITE));
  }

  lemma MstatusWritten(value: Word, v: Word)
    ensures MstatusWrite(value, v) * MSTATUS_WRITE == v * MSTATUS_WRITE
  {
  }

  lemma EnteredStatusOk(m: Word, priv: Priv)
    requires StatusOk(m)
    ensures StatusOk(MachineEntered(m, priv)) && StatusOk(SupervisorEntered(m, priv))
  {
    hide MstatusWrite, SstatusWrite, StatusOk, SupervisorEntryWord, MachineEntryWord, MstatusRead, SstatusRead;
    WriteKeepsStatusOk(m, MachineEntryWord(MstatusRead(m), priv));
    WriteKeepsStatusOk(m, SupervisorEntryWord(SstatusRead(m), priv));
  }

  // Entering M mode moves MIE to MPIE and the privilege to MPP, and changes no
  // other bit.
  lemma MachineEnteredIs(m: Word, priv: Priv)
    requires StatusOk(m)
    ensures MachineEntered(m, priv) == With(m, MPIE, MIE in m) - {MIE} - MPP + MppBits(priv)
  {
  }

  // Entering S mode moves SIE to SPIE and the privilege to SPP, and changes no
  // other bit.
  lemma SupervisorEnteredIs(m: Word, priv: Priv)
    requires StatusOk(m)
    ensures SupervisorEntered(m, priv) == With(With(m, SPIE, SIE in m), SPP, priv >= S_MODE) - {SIE}
  {
    EntryKeepsFs(m, priv);
    EntryBits(m, priv);
    SstatusWriteIs(m, SupervisorEntryWord(SstatusRead(m), priv));
    hide *;
  }

  lemma EntryKeepsFs(m: Word, priv: Priv)
    ensures SupervisorEntryWord(SstatusRead(m), priv) * FS == m * FS
  {
  }

  lemma EntryBits(m: Word, priv: Priv)
    requires StatusOk(m)
    ensures (m - SSTATUS_WRITE) + SupervisorEntryWord(SstatusRead(m), priv) * SSTATUS_WRITE
            == With(With(m, SPIE, SIE in m), SPP, priv >= S_MODE) - {SIE}
  {
  }

  // mret moves MPIE to MIE and clears MPRV when it leaves M mode.
  lemma MachineReturnedIs(g: Word)
    requires StatusOk(g)
    ensures MachineReturned(g) ==
            With(g, MIE, MPIE in g) + {MPIE} - MPP - (if MppField(g) != M_MODE then {MPRV} else {})
    ensures MppField(MstatusRead(g)) == MppField(g)
  {
  }

  lemma SupervisorReturnedIs(g: Word)
    requires StatusOk(g)
    ensures SupervisorReturned(g) == With(g, SIE, SPIE in g) + {SPIE} - {SPP, MPRV}
    ensures SppField(SstatusRead(g)) == SppField(g) && (TSR in MstatusRead(g) <==> TSR in g)
  {
    SretFields(g);
    SretWord(g);
    hide MstatusWrite, SstatusWrite, StatusOk;
    var w := (g - SSTATUS_WRITE) + SretView(g) * SSTATUS_WRITE;
    StatusReads(w);
    MstatusWriteIs(w, w - {MPRV});
  }

  // The sstatus word sret writes.
  function SretView(g: Word): Word { With(SstatusRead(g), SIE, SPIE in SstatusRead(g)) + {SPIE} - {SPP} }

  lemma SretFields(g: Word)
    requires StatusOk(g)
    ensures SppField(SstatusRead(g)) == SppField(g) && MstatusRead(g) == g
    ensures SretView(g) * FS == g * FS
  {
  }

  lemma SretWord(g: Word)
    requires StatusOk(g)
    ensures var w := (g - SSTATUS_WRITE) + SretView(g) * SSTATUS_WRITE;
      && SstatusWrite(g, SretView(g)) == w && StatusOk(w)
      && w == With(g, SIE, SPIE in g) + {SPIE} - {SPP}
  {
    SretFields(g);
    SretBits(g);
    hide MstatusWrite, SstatusWrite, StatusOk;
    WriteKeepsStatusOk(g, SretView(g));
    SstatusWriteIs(g, SretView(g));
  }

  lemma SretBits(g: Word)
    requires StatusOk(g)
    ensures (g - SSTATUS_WRITE) + SretView(g) * SSTATUS_WRITE == With(g, SIE, SPIE in g) + {SPIE} - {SPP}
  {
  }

  lemma StatusReads(g: Word)
    requires StatusOk(g)
    ensures MstatusRead(g) == g
  {
  }

  // A write that keeps FS changes the writable bits only.
  lemma MstatusWriteIs(g: Word, v: Word)
    requires StatusOk(g) && v * FS == g * FS
    ensures MstatusWrite(g, v) == (g - MSTATUS_WRITE) + v * MSTATUS_WRITE
  {
    hide StatusOk;
    FsKept(g, v);
    SdIs(g, v);
  }

  lemma FsKept(g: Word, v: Word)
    requires v * FS == g * FS
    ensures FS <= (g - MSTATUS_WRITE) + v * MSTATUS_WRITE <==> FS <= g
  {
    assert 13 in g * FS <==> 13 in g;
    assert 14 in g * FS <==> 14 in g;
    assert 13 in v * FS <==> 13 in v;
    assert 14 in v * FS <==> 14 in v;
  }

  lemma SdIs(g: Word, v: Word)
    requires StatusOk(g)
    ensures SD in (g - MSTATUS_WRITE) + v * MSTATUS_WRITE <==> FS <= g
  {
  }

  lemma SstatusWriteIs(g: Word, v: Word)
    requires StatusOk(g) && v * FS == g * FS
    ensures SstatusWrite(g, v) == (g - SSTATUS_WRITE) + v * SSTATUS_WRITE
  {
    hide MstatusWrite, StatusOk;
    StatusReads(g);
    MstatusWriteIs(g, (g - SSTATUS_WRITE) + v * SSTATUS_WRITE);
  }

  // After a trap into M mode and its mret the status is as before the trap,
  // except that MPIE is set, MPP is cleared, and MPRV is cleared on a return
  // below M.
  function AfterMachineTrap(m: Word, priv: Priv): Word {
    m + {MPIE} - MPP - (if priv != M_MODE then {MPRV} else {})
  }

  function AfterSupervisorTrap(m: Word): Word { m + {SPIE} - {SPP, MPRV} }

  lemma MachineStatusRoundTrip(m: Word, priv: Priv)
    requires StatusOk(m)
    ensures MachineReturned(MachineEntered(m, priv)) == AfterMachineTrap(m, priv)
    ensures MppField(MstatusRead(MachineEntered(m, priv))) == priv
    ensures StatusOk(AfterMachineTrap(m, priv))
  {
    hide MachineEntered, MachineReturned, MstatusRead, AfterMachineTrap, MppField, With, StatusOk, MppBits;
    MachineEnteredIs(m, priv);
    EnteredStatusOk(m, priv);
    MppRoundTrip(With(m, MPIE, MIE in m) - {MIE}, priv);
    MachineReturnedIs(MachineEntered(m, priv));
    MachineBitsRoundTrip(m, priv);
    AfterMachineTrapOk(m, priv);
  }

  lemma MppRoundTrip(m: Word, priv: Priv)
    ensures MppField(m - MPP + MppBits(priv)) == priv
  {
  }

  lemma MachineBitsRoundTrip(m: Word, priv: Priv)
    ensures var g := With(m, MPIE, MIE in m) - {MIE} - MPP + MppBits(priv);
      With(g, MIE, MPIE in g) + {MPIE} - MPP - (if priv != M_MODE then {MPRV} else {}) == AfterMachineTrap(m, priv)
  {
  }

  lemma AfterMachineTrapOk(m: Word, priv: Priv)
    requires StatusOk(m)
    ensures StatusOk(AfterMachineTrap(m, priv))
  {
  }

  lemma SupervisorStatusRoundTrip(m: Word, priv: Priv)
    requires StatusOk(m) && priv <= S_MODE
    ensures SupervisorReturned(SupervisorEntered(m, priv)) == AfterSupervisorTrap(m)
    ensures SppField(SstatusRead(SupervisorEntered(m, priv))) == priv
    ensures StatusOk(AfterSupervisorTrap(m))
    ensures TSR in MstatusRead(SupervisorEntered(m, priv)) <==> TSR in m
  {
    hide SupervisorEntered, SupervisorReturned, SstatusRead, MstatusRead;
    SupervisorEnteredIs(m, priv);
    EnteredStatusOk(m, priv);
    SupervisorReturnedIs(SupervisorEntered(m, priv));
  }

  // The S-mode stack survives a trap into M mode and its return.
  lemma NestedStatusRoundTrip(m: Word, priv: Priv)
    requires StatusOk(m) && priv <= S_MODE
    ensures AfterMachineTrap(SupervisorEntered(m, priv), S_MODE) == SupervisorEntered(AfterMachineTrap(m, S_MODE), priv)
  {
    hide SupervisorEntered, StatusOk;
    SupervisorEnteredIs(m, priv);
    MachineStatusRoundTrip(m, S_MODE);
    SupervisorEnteredIs(AfterMachineTrap(m, S_MODE), priv);
  }

  // ----- Trap entry -----------------------------------------------------------

  lemma VectorTargetEven(tvec: nat, cause: Cause)
    ensures VectorTarget(tvec, cause) % 2 == 0
  {
    var base := tvec - tvec % 4;
    DivUnique(base, 2, 2 * (tvec / 4), 0);
    var sum := base + 4 * cause.code;
    DivUnique(sum, 2, 2 * (tvec / 4) + 2 * cause.code, 0);
    ModMod(sum, 2, 0x8000_0000_0000_0000);
  }

  lemma TrapKeepsOk(h: Hart, t: Trap)
    requires HartOk(h)
    ensures HartOk(TrapEntry(h, t))
  {
    hide MachineEntered, SupervisorEntered, VectorTarget, StatusOk;
    EnteredStatusOk(h.mstatus, h.priv);
    VectorTargetEven(h.mtvec, t.cause);
    VectorTargetEven(h.stvec, t.cause);
  }

  lemma EpcReadEven(value: nat)
    ensures EpcRead(value) % 2 == 0
  {
  }

  lemma ReturnKeepsOk(h: Hart)
    requires HartOk(h)
    ensures Mret(h).Done? ==> HartOk(Mret(h).hart)
    ensures Sret(h).Done? ==> HartOk(Sret(h).hart)
  {
    hide MstatusWrite, SstatusWrite, StatusOk, MstatusRead, SstatusRead, With, MppField, SppField, EpcRead;
    EpcReadEven(h.mepc);
    EpcReadEven(h.sepc);
    var m := MstatusRead(h.mstatus);
    var m1 := if MppField(m) != M_MODE then m - {MPRV} else m;
    WriteKeepsStatusOk(h.mstatus, With(m1, MIE, MPIE in m1) + {MPIE} - MPP);
    var s := SstatusRead(h.mstatus);
    var w := SstatusWrite(h.mstatus, With(s, SIE, SPIE in s) + {SPIE} - {SPP});
    WriteKeepsStatusOk(h.mstatus, With(s, SIE, SPIE in s) + {SPIE} - {SPP});
    WriteKeepsStatusOk(w, MstatusRead(w) - {MPRV});
  }

  // No trap lowers the privilege.
  lemma TrapNeverLowersPrivilege(h: Hart, t: Trap)
    ensures TrapEntry(h, t).priv >= h.priv
  {
    hide MachineEntered, SupervisorEntered, VectorTarget;
  }

  // A trap writes the stack and the trap registers of the mode it enters, and
  // leaves those of the other mode alone.
  lemma TrapWritesOneMode(h: Hart, t: Trap)
    requires HartOk(h)
    ensures var h' := TrapEntry(h, t);
      if Delegated(h, t) then
        h'.mepc == h.mepc && h'.mcause == h.mcause && h'.mtval == h.mtval
        && h'.mstatus == With(With(h.mstatus, SPIE, SIE in h.mstatus), SPP, h.priv >= S_MODE) - {SIE}
      else
        h'.sepc == h.sepc && h'.scause == h.scause && h'.stval == h.stval
        && h'.mstatus == With(h.mstatus, MPIE, MIE in h.mstatus) - {MIE} - MPP + MppBits(h.priv)
  {
    hide SupervisorEntered, MachineEntered, VectorTarget, StatusOk, Delegated, With;
    SupervisorEnteredIs(h.mstatus, h.priv);
    MachineEnteredIs(h.mstatus, h.priv);
  }

  lemma EpcRoundTrip(value: nat, pc: nat)
    ensures EpcRead(EpcWrite(value, pc)) == pc - pc % 2
  {
  }

  // ----- Trap then return -----------------------------------------------------

  // INVERSE, M mode: for every handler that runs in M mode and leaves mepc and
  // mstatus alone, mret restores pc, privilege and MIE.
  lemma MachineTrapReturns(h: Hart, t: Trap, g: Hart)
    requires HartOk(h) && !Delegated(h, t) && t.pc % 2 == 0
    requires g.priv == M_MODE && g.mepc == TrapEntry(h, t).mepc && g.mstatus == TrapEntry(h, t).mstatus
    ensures Mret(g) ==
      Done(g.(pc := t.pc, priv := h.priv, mstatus := AfterMachineTrap(h.mstatus, h.priv)))
  {
    hide MachineEntered, SupervisorEntered, MachineReturned, AfterMachineTrap, VectorTarget, Delegated,
      EpcRead, EpcWrite, MppField, StatusOk, MstatusRead;
    EpcRoundTrip(h.mepc, t.pc);
    MachineStatusRoundTrip(h.mstatus, h.priv);
  }

  // INVERSE, S mode: likewise for sret, when TSR does not trap it.
  lemma SupervisorTrapReturns(h: Hart, t: Trap, g: Hart)
    requires HartOk(h) && Delegated(h, t) && t.pc % 2 == 0 && TSR !in h.mstatus
    requires g.priv == S_MODE && g.sepc == TrapEntry(h, t).sepc && g.mstatus == TrapEntry(h, t).mstatus
    ensures Sret(g) ==
      Done(g.(pc := t.pc, priv := h.priv, mstatus := AfterSupervisorTrap(h.mstatus)))
  {
    hide MachineEntered, SupervisorEntered, SupervisorReturned, AfterSupervisorTrap, VectorTarget,
      EpcRead, EpcWrite, SppField, StatusOk, MstatusRead, SstatusRead;
    EpcRoundTrip(h.sepc, t.pc);
    SupervisorStatusRoundTrip(h.mstatus, h.priv);
  }

  // NESTING: an M-mode trap inside an S-mode handler unwinds to the handler,
  // and the handler's sret still unwinds to the trapped program.
  lemma NestedTrapsUnwind(h: Hart, t1: Trap, s: Hart, t2: Trap, m: Hart, s': Hart)
    requires HartOk(h) && Delegated(h, t1) && t1.pc % 2 == 0 && TSR !in h.mstatus
    // the S-mode handler, when t2 strikes
    requires HartOk(s) && s.priv == S_MODE
    requires s.sepc == TrapEntry(h, t1).sepc && s.mstatus == TrapEntry(h, t1).mstatus
    requires !Delegated(s, t2) && t2.pc % 2 == 0
    // the M-mode handler, when it returns
    requires m.priv == M_MODE && m.sepc == TrapEntry(s, t2).sepc
    requires m.mepc == TrapEntry(s, t2).mepc && m.mstatus == TrapEntry(s, t2).mstatus
    // the S-mode handler again, when it returns
    requires Mret(m).Done? ==>
      s'.priv == S_MODE && s'.sepc == Mret(m).hart.sepc && s'.mstatus == Mret(m).hart.mstatus
    ensures Mret(m).Done? && Mret(m).hart.pc == t2.pc && Mret(m).hart.priv == S_MODE
    ensures Sret(s') ==
      Done(s'.(pc := t1.pc, priv := h.priv,
               mstatus := AfterSupervisorTrap(AfterMachineTrap(h.mstatus, S_MODE))))
  {
    hide MachineEntered, SupervisorEntered, SupervisorReturned, AfterMachineTrap, AfterSupervisorTrap, VectorTarget,
      EpcRead, EpcWrite, SppField, StatusOk, MstatusRead, SstatusRead, Mret;
    MachineTrapReturns(s, t2, m);
    EpcRoundTrip(h.sepc, t1.pc);
    MachineStatusRoundTrip(h.mstatus, S_MODE);
    NestedStatusRoundTrip(h.mstatus, h.priv);
    SupervisorStatusRoundTrip(AfterMachineTrap(h.mstatus, S_MODE), h.priv);
    TsrKept(h.mstatus);
  }

  lemma TsrKept(m: Word)
    ensures TSR in AfterMachineTrap(m, S_MODE) <==> TSR in m
  {
  }

  // ----- Interrupts -------------------------------------------------------------

  lemma {:induction false} FirstIsDeliverable(h: Hart, codes: seq<nat>)
    ensures var k := FirstDeliverable(h, codes);
      && (k < |codes| ==> Deliverable(h, codes[k]))
      && (forall j :: 0 <= j < k ==> !Deliverable(h, codes[j]))
  {
    hide Deliverable;
    if codes != [] && !Deliverable(h, codes[0]) {
      FirstIsDeliverable(h, codes[1..]);
      assert forall k :: 0 < k < |codes| ==> codes[k] == codes[1..][k - 1];
    }
  }

  // The trap for source `code` enters S mode when the source is delegated, and
  // M mode otherwise.
  predicate EntersTestedMode(h: Hart, code: nat) {
    var t := InterruptTrap(h, code);
    IsCause(t.cause) && TrapEntry(h, t).priv == (if code in h.mideleg then S_MODE else M_MODE)
  }

  // CHOICE AGREES WITH DELIVERY: an interrupt is raised exactly when some source
  // is deliverable; it is the first one in the fixed order, and the trap enters
  // the mode whose enable was tested.
  lemma InterruptGoesWhereEnabled(h: Hart)
    requires HartOk(h)
    ensures CheckInterrupts(h).NoInterrupt? <==> forall code: nat :: !Deliverable(h, code)
    ensures CheckInterrupts(h).Raise? ==>
      var k := FirstDeliverable(h, Priority());
      && k < 6 && Deliverable(h, Priority()[k])
      && (forall j :: 0 <= j < k ==> !Deliverable(h, Priority()[j]))
      && CheckInterrupts(h).trap == InterruptTrap(h, Priority()[k])
      && EntersTestedMode(h, Priority()[k])
  {
    hide Deliverable, FirstDeliverable, HartOk, EntersTestedMode;
    FirstIsDeliverable(h, Priority());
    var k := FirstDeliverable(h, Priority());
    if k < 6 {
      RaisedIsDelivered(h, Priority()[k]);
    } else {
      forall code: nat ensures !Deliverable(h, code) {
        OnlyListed(h, code);
      }
    }
  }

  lemma OnlyListed(h: Hart, code: nat)
    requires HartOk(h) && forall j :: 0 <= j < 6 ==> !Deliverable(h, Priority()[j])
    ensures !Deliverable(h, code)
  {
    var p := Priority();
    assert !Deliverable(h, p[0]) && !Deliverable(h, p[1]) && !Deliverable(h, p[2]);
    assert !Deliverable(h, p[3]) && !Deliverable(h, p[4]) && !Deliverable(h, p[5]);
  }

  lemma RaisedIsDelivered(h: Hart, code: nat)
    requires HartOk(h) && Deliverable(h, code)
    ensures EntersTestedMode(h, code)
  {
    hide StatusOk, SupervisorEntered, MachineEntered, VectorTarget;
  }

  // Right after an entry into M mode no interrupt can be raised, and right after
  // one into S mode no delegated one, whatever is pending or enabled by then.
  lemma QuietAfterEntry(h: Hart, t: Trap, g: Hart)
    requires HartOk(h) && g.priv == TrapEntry(h, t).priv && g.mstatus == TrapEntry(h, t).mstatus
    ensures g.priv == M_MODE ==> CheckInterrupts(g).NoInterrupt?
    ensures forall code: nat :: code in g.mideleg ==> !Deliverable(g, code)
  {
    hide FirstDeliverable, StatusOk, SupervisorEntered, MachineEntered, Delegated, VectorTarget;
    SupervisorEnteredIs(h.mstatus, h.priv);
    MachineEnteredIs(h.mstatus, h.priv);
    FirstIsDeliverable(g, Priority());
  }
}
