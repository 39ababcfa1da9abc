/**
 Where traps go and what they and the CSR writes leave, bit by bit and by
 number: the delegation of exceptions and interrupts, the vector, the stacked
 status bits, the returns, the choice among pending interrupts and the fields a
 CSR write reaches.
 */
module TrapRouting {
  import opened Bits
  import opened HartModel
  import opened HartLemmas
  import opened HartRuns
  import opened Traps

  // ----- Trap entry ------------------------------------------------------------------------

  // DELEGATION: below M mode an exception goes to S mode iff its bit of medeleg
  // is set, save the codes 11 and 16, an interrupt iff its bit of mideleg is.
  predicate ToSupervisor(h: Hart, t: Trap) {
    && h.priv <= 1
    && if t.cause.interrupt then t.cause.code in h.mideleg
       else t.cause.code in h.medeleg && t.cause.code != 11 && t.cause.code != 16
  }

  // Mode 1 of the vector register sends interrupt c to base + 4c, everything
  // else goes to the base.
  function Target(tvec: nat, c: Cause): nat {
    if c.interrupt && tvec % 4 == 1 then (tvec - 1 + 4 * c.code) % 0x1_0000_0000_0000_0000 else tvec - tvec % 4
  }

  lemma TrapGoesTo(h: Hart, t: Trap)
    ensures TrapEntry(h, t).priv == if ToSupervisor(h, t) then 1 else 3
    ensures ToSupervisor(h, t) ==> TrapEntry(h, t) == h.(priv := 1, pc := Target(h.stvec, t.cause),
      sepc := h.sepc % 2 + t.pc - t.pc % 2, scause := t.cause, stval := t.tval, mstatus := TrapEntry(h, t).mstatus)
    ensures !ToSupervisor(h, t) ==> TrapEntry(h, t) == h.(priv := 3, pc := Target(h.mtvec, t.cause),
      mepc := h.mepc % 2 + t.pc - t.pc % 2, mcause := t.cause, mtval := t.tval, mstatus := TrapEntry(h, t).mstatus)
  {
    hide SupervisorEntered, MachineEntered;
  }

  // The status bit k after a trap, for a status the hart can have: the S stack
  // is 1, 5 and 8, the M stack 3, 7 and 11 with 12.
  lemma TrapStacks(h: Hart, t: Trap, k: nat)
    requires StatusOk(h.mstatus)
    ensures k in TrapEntry(h, t).mstatus <==>
      if ToSupervisor(h, t) then
        if k == 1 then false else if k == 5 then 1 in h.mstatus else if k == 8 then h.priv >= 1 else k in h.mstatus
      else
        if k == 3 then false else if k == 7 then 3 in h.mstatus
        else if k == 11 then h.priv % 2 == 1 else if k == 12 then h.priv >= 2 else k in h.mstatus
  {
    hide StatusOk, SupervisorEntered, MachineEntered, VectorTarget, EpcWrite, Target;
    TrapGoesTo(h, t);
    SupervisorEnteredIs(h.mstatus, h.priv);
    MachineEnteredIs(h.mstatus, h.priv);
  }

  // What StatusOk asks, by number
  lemma StatusIs(m: Word)
    ensures StatusOk(m) <==>
      && m <= {1, 3, 5, 7, 8, 11, 12, 13, 14, 17, 18, 19, 20, 21, 22, 32, 33, 34, 35, 63}
      && 32 !in m && 33 in m && 34 !in m && 35 in m && (63 in m <==> 13 in m && 14 in m)
  {
    LengthFields(m);
    assert MSTATUS_READ == {1, 3, 5, 7, 8, 11, 12, 13, 14, 17, 18, 19, 20, 21, 22, 32, 33, 34, 35, 63};
  }

  lemma LengthFields(m: Word)
    ensures m * UXL == {33} <==> 32 !in m && 33 in m
    ensures m * SXL == {35} <==> 34 !in m && 35 in m
  {
    assert 33 in m * UXL <==> 33 in m;
    assert 32 in m * UXL <==> 32 in m;
    assert 35 in m * SXL <==> 35 in m;
    assert 34 in m * SXL <==> 34 in m;
  }

  // ----- Returns -----------------------------------------------------------------------------

  // mret is illegal outside M mode. It takes pc from mepc, the level from bits 11
  // and 12, bit 3 from bit 7, sets 7, clears 11 and 12, and clears 17 on a return
  // below M.
  lemma MretIs(h: Hart, k: nat)
    requires StatusOk(h.mstatus)
    ensures h.priv != 3 <==> Mret(h).Illegal?
    ensures h.priv == 3 ==>
      var p := (if 11 in h.mstatus then 1 else 0) + if 12 in h.mstatus then 2 else 0;
      && Mret(h).hart == h.(pc := h.mepc - h.mepc % 2, priv := p, mstatus := Mret(h).hart.mstatus)
      && (k in Mret(h).hart.mstatus <==>
           if k == 3 then 7 in h.mstatus else if k == 7 then true else if k == 11 || k == 12 then false
           else if k == 17 then 17 in h.mstatus && p == 3 else k in h.mstatus)
  {
    hide StatusOk, MachineReturned, MstatusRead;
    MachineReturnedIs(h.mstatus);
  }

  // sret is illegal in U mode, and in S mode when bit 22 is set. It takes pc from
  // sepc, the level from bit 8, bit 1 from bit 5, sets 5, and clears 8 and 17.
  lemma SretIs(h: Hart, k: nat)
    requires StatusOk(h.mstatus)
    ensures h.priv == 0 || (h.priv == 1 && 22 in h.mstatus) <==> Sret(h).Illegal?
    ensures Sret(h).Done? ==>
      && Sret(h).hart == h.(pc := h.sepc - h.sepc % 2, priv := if 8 in h.mstatus then 1 else 0,
                            mstatus := Sret(h).hart.mstatus)
      && (k in Sret(h).hart.mstatus <==>
           if k == 1 then 5 in h.mstatus else if k == 5 then true else if k == 8 || k == 17 then false
           else k in h.mstatus)
  {
    hide StatusOk, SupervisorReturned, MstatusRead, SstatusRead;
    SupervisorReturnedIs(h.mstatus);
  }

  // ----- The choice among interrupts -----------------------------------------------------------

  // Interrupt c is pending and enabled, and so is the mode that takes it: S mode
  // when it is delegated, M mode otherwise.
  predicate MayInterrupt(h: Hart, c: nat) {
    && c in h.mip && c in h.mie
    && if c in h.mideleg then h.priv == 0 || (h.priv == 1 && 1 in h.mstatus)
       else h.priv < 3 || 3 in h.mstatus
  }

  // The order is 11, 3, 7, 9, 1, 5: machine external, software, timer, then
  // supervisor external, software, timer.
  lemma InterruptIs(h: Hart)
    ensures CheckInterrupts(h) ==
      if MayInterrupt(h, 11) then Raise(Trap(h.pc, Cause(true, 11), 0))
      else if MayInterrupt(h, 3) then Raise(Trap(h.pc, Cause(true, 3), 0))
      else if MayInterrupt(h, 7) then Raise(Trap(h.pc, Cause(true, 7), 0))
      else if MayInterrupt(h, 9) then Raise(Trap(h.pc, Cause(true, 9), 0))
      else if MayInterrupt(h, 1) then Raise(Trap(h.pc, Cause(true, 1), 0))
      else if MayInterrupt(h, 5) then Raise(Trap(h.pc, Cause(true, 5), 0))
      else NoInterrupt
  {
    FirstIsDeliverable(h, Priority());
    DeliverableIs(h, 11);
    DeliverableIs(h, 3);
    DeliverableIs(h, 7);
    DeliverableIs(h, 9);
    DeliverableIs(h, 1);
    DeliverableIs(h, 5);
    hide Deliverable, MayInterrupt, FirstDeliverable;
    var p := Priority();
    assert p[0] == 11 && p[1] == 3 && p[2] == 7 && p[3] == 9 && p[4] == 1 && p[5] == 5;
  }

  lemma DeliverableIs(h: Hart, c: nat)
    ensures Deliverable(h, c) <==> MayInterrupt(h, c)
  {
  }

  // An iteration of the CPU loop takes one every 256 iterations, or when the flag
  // asks for it, if there is one.
  lemma TakenIs(e: Engine)
    ensures Taken(e) <==>
      && (e.i % 256 == 0 || e.checkPending)
      && (|| MayInterrupt(e.hart, 11) || MayInterrupt(e.hart, 3) || MayInterrupt(e.hart, 7)
          || MayInterrupt(e.hart, 9) || MayInterrupt(e.hart, 1) || MayInterrupt(e.hart, 5))
  {
    hide MayInterrupt, CheckInterrupts;
    InterruptIs(e.hart);
  }

  // ----- CSR writes --------------------------------------------------------------------------

  // Bit k of mstatus after a write: the writable bits are as written, bit 63 says
  // that FS is 3, and the others stay.
  lemma MstatusWriteGives(value: Word, v: Word, k: nat)
    ensures k in MstatusWrite(value, v) <==>
      if k in {1, 3, 5, 7, 8, 11, 12, 13, 14, 17, 18, 19, 20, 21, 22} then k in v
      else if k == 63 then 13 in v && 14 in v
      else k in value
  {
    Written(value, v, 13);
    Written(value, v, 14);
    Written(value, v, k);
    assert FS <= (value - MSTATUS_WRITE) + v * MSTATUS_WRITE <==>
      13 in (value - MSTATUS_WRITE) + v * MSTATUS_WRITE && 14 in (value - MSTATUS_WRITE) + v * MSTATUS_WRITE;
  }

  lemma Written(value: Word, v: Word, k: nat)
    ensures k in (value - MSTATUS_WRITE) + v * MSTATUS_WRITE <==>
      if k in {1, 3, 5, 7, 8, 11, 12, 13, 14, 17, 18, 19, 20, 21, 22} then k in v else k in value
  {
  }

  // Bit k of mstatus after a write of sstatus
  lemma SstatusWriteGives(m: Word, v: Word, k: nat)
    requires StatusOk(m)
    ensures k in SstatusWrite(m, v) <==>
      if k in {1, 5, 8, 13, 14, 18, 19} then k in v
      else if k == 63 then 13 in v && 14 in v
      else k in m
  {
    hide StatusOk, MstatusWrite;
    StatusReads(m);
    var w := (MstatusRead(m) - SSTATUS_WRITE) + (v * SSTATUS_WRITE);
    MstatusWriteGives(m, w, k);
    SupervisorPart(m, v, 13);
    SupervisorPart(m, v, 14);
    SupervisorPart(m, v, k);
  }

  lemma SupervisorPart(m: Word, v: Word, k: nat)
    ensures k in (m - SSTATUS_WRITE) + v * SSTATUS_WRITE <==>
      if k in {1, 5, 8, 13, 14, 18, 19} then k in v else k in m
  {
  }

  // What is read back
  lemma MstatusReadGives(m: Word, k: nat)
    ensures k in MstatusRead(m) <==>
      k in m && k in {1, 3, 5, 7, 8, 11, 12, 13, 14, 17, 18, 19, 20, 21, 22, 32, 33, 34, 35, 63}
  {
  }

  lemma SstatusReadGives(m: Word, k: nat)
    ensures k in SstatusRead(m) <==> k in m && k in {1, 5, 8, 13, 14, 18, 19, 32, 33, 63}
  {
    hide MstatusRead;
    MstatusReadGives(m, k);
  }

  // The writes of the other CSRs of the trap machine
  lemma DelegationWritesGive(h: Hart, v: Word)
    ensures Apply(h, WriteMideleg(v)) == h.(mideleg := v * {1, 5, 9})
    ensures Apply(h, WriteMedeleg(v)) == h.(medeleg := v - {11, 16})
  {
    hide TrapEntry, Mret, Sret, MstatusWrite, SstatusWrite, SieWrite, TvecWrite, EpcWrite;
  }

  lemma EnableWritesGive(h: Hart, v: Word)
    ensures Apply(h, WriteMie(v)) == h.(mie := v * {1, 3, 5, 7, 9, 11})
    ensures Apply(h, WriteSie(v)) == h.(mie := v * {1, 5, 9})
  {
    hide TrapEntry, Mret, Sret, MstatusWrite, SstatusWrite, SieWrite, TvecWrite, EpcWrite;
    SieWritten(v);
  }

  lemma VectorWrites(h: Hart, a: nat)
    ensures Apply(h, WriteMtvec(a)) == h.(mtvec := TvecWrite(a))
    ensures Apply(h, WriteStvec(a)) == h.(stvec := TvecWrite(a))
  {
    hide TrapEntry, Mret, Sret, MstatusWrite, SstatusWrite, SieWrite, TvecWrite, EpcWrite;
  }

  lemma EpcWrites(h: Hart, a: nat)
    ensures Apply(h, WriteMepc(a)) == h.(mepc := EpcWrite(h.mepc, a))
    ensures Apply(h, WriteSepc(a)) == h.(sepc := EpcWrite(h.sepc, a))
  {
    hide TrapEntry, Mret, Sret, MstatusWrite, SstatusWrite, SieWrite, TvecWrite, EpcWrite;
  }

  // A write of mtvec or stvec drops bit 1; a write of mepc or sepc keeps the
  // stored low bit, which no read shows.
  lemma AddressesAre(value: nat, a: nat)
    ensures TvecWrite(a) == if a / 2 % 2 == 1 then a - 2 else a
    ensures EpcWrite(value, a) == value % 2 + a - a % 2 && EpcRead(value) == value - value % 2
  {
    assert ClearBit(a, 1) == a % 2 + 2 * ClearBit(a / 2, 0);
  }

  // Bit k of mip after a CSR write: SSIP and SEIP as written, STIP too unless
  // stimecmp drives it, the others from the word the write replaced.
  lemma MipWriteGives(old_: Word, v: Word, stce: bool, k: nat)
    ensures k in MipWritten(old_, v, stce) <==>
      if k == 1 || k == 9 || (k == 5 && !stce) then k in v else k in old_
  {
  }

  // A write of sip reaches SSIP where that is delegated; it clears SEIP, and STIP
  // unless stimecmp drives it.
  lemma SipWriteGives(mip: Word, v: Word, mideleg: Word, stce: bool, k: nat)
    ensures k in SipWrite(mip, v, mideleg, stce) <==>
      if k == 1 then 1 in v && 1 in mideleg else if k == 9 || (k == 5 && !stce) then false else k in mip
  {
    hide MipWritten;
    MipWriteGives(mip, v * {1} * mideleg, stce, k);
  }

  // A floating-point instruction makes FS 3, with bit 63.
  lemma DirtyGives(h: Hart, k: nat)
    requires StatusOk(h.mstatus)
    ensures Apply(h, DirtyFp) == h.(mstatus := Apply(h, DirtyFp).mstatus)
    ensures k in Apply(h, DirtyFp).mstatus <==> k in {13, 14, 63} || k in h.mstatus
  {
    hide MstatusWrite, MstatusRead, StatusOk, TrapEntry, Mret, Sret, SstatusWrite, SieWrite, TvecWrite, EpcWrite;
    var v := MstatusRead(h.mstatus) + FS;
    assert FS == {13, 14};
    hide FS;
    StatusIs(h.mstatus);
    MstatusWriteGives(h.mstatus, v, k);
    MstatusReadGives(h.mstatus, k);
  }

  // Device threads reach the six interrupt bits, and only those.
  lemma DeviceStepsGive(s: Shared, m: Word, k: nat)
    ensures k in AtomStep(s, SetPending(m)).mip <==> k in s.mip || (k in m && k in {1, 3, 5, 7, 9, 11})
    ensures k in AtomStep(s, ClearPending(m)).mip <==> k in s.mip && k !in m
  {
    hide MipWritten;
  }
}
