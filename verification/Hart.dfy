/**
 The hart object: the trap entry, the returns and the interrupt check as they
 update its registers in place.
 */
module HartUnit {
  import opened HartModel
  import opened Traps
  import opened HartLemmas

  class HartCpu {
    var pc: nat
    var priv: Priv
    var mstatus: Word
    var medeleg: Word
    var mideleg: Word
    var mip: Word
    var mie: Word
    var mtvec: nat
    var mepc: nat
    var mcause: Cause
    var mtval: nat
    var stvec: nat
    var sepc: nat
    var scause: Cause
    var stval: nat
    var interruptCheckPending: bool

    constructor (resetPc: nat)
      requires resetPc % 2 == 0
      ensures State().pc == resetPc && State().priv == M_MODE && HartOk(State())
    {
      pc, priv, mstatus := resetPc, M_MODE, MSTATUS_RESET;
      medeleg, mideleg, mip, mie := {}, {}, {}, {};
      mtvec, mepc, mtval, stvec, sepc, stval := 0, 0, 0, 0, 0, 0;
      mcause, scause := Cause(false, 0), Cause(false, 0);
      interruptCheckPending := false;
    }

    ghost function State(): Hart
      reads this
    {
      Hart(pc, priv, mstatus, medeleg, mideleg, mip, mie, mtvec, mepc, mcause, mtval, stvec, sepc, scause, stval)
    }

    // Hart::handle_trap
    method HandleTrap(trap: Trap)
      modifies this
      ensures State() == TrapEntry(old(State()), trap)
      ensures interruptCheckPending == old(interruptCheckPending)
    {
      hide MstatusWrite, SstatusWrite, MstatusRead, SstatusRead, EpcWrite, VectorTarget, MachineEntered,
        SupervisorEntered;
      var target := M_MODE;
      if priv <= S_MODE {
        var mask := if trap.cause.interrupt then mideleg else medeleg - MEDELEG_ZERO;
        if trap.cause.code in mask {
          target := S_MODE;
        }
      }
      if target == S_MODE {
        EnterSupervisor(trap);
      } else {
        EnterMachine(trap);
      }
    }

    method EnterSupervisor(trap: Trap)
      modifies `sepc, `scause, `stval, `mstatus, `pc, `priv
      ensures sepc == EpcWrite(old(sepc), trap.pc) && scause == trap.cause && stval == trap.tval
      ensures mstatus == SupervisorEntered(old(mstatus), old(priv))
      ensures pc == VectorTarget(stvec, trap.cause) && priv == S_MODE
    {
      hide SstatusWrite, SstatusRead, EpcWrite;
      sepc := EpcWrite(sepc, trap.pc);
      scause := trap.cause;
      stval := trap.tval;
      var sstatus := SstatusRead(mstatus);
      if SIE in sstatus {
        sstatus := sstatus + {SPIE};
      } else {
        sstatus := sstatus - {SPIE};
      }
      if priv >= S_MODE {
        sstatus := sstatus + {SPP};
      } else {
        sstatus := sstatus - {SPP};
      }
      sstatus := sstatus - {SIE};
      mstatus := SstatusWrite(mstatus, sstatus);
      var base := stvec - stvec % 4;
      if trap.cause.interrupt && stvec % 4 == 1 {
        pc := (base + 4 * trap.cause.code) % 0x1_0000_0000_0000_0000;
      } else {
        pc := base;
      }
      priv := S_MODE;
    }

    method EnterMachine(trap: Trap)
      modifies `mepc, `mcause, `mtval, `mstatus, `pc, `priv
      ensures mepc == EpcWrite(old(mepc), trap.pc) && mcause == trap.cause && mtval == trap.tval
      ensures mstatus == MachineEntered(old(mstatus), old(priv))
      ensures pc == VectorTarget(mtvec, trap.cause) && priv == M_MODE
    {
      hide MstatusWrite, MstatusRead, EpcWrite, MppBits;
      mepc := EpcWrite(mepc, trap.pc);
      mcause := trap.cause;
      mtval := trap.tval;
      var m := MstatusRead(mstatus);
      if MIE in m {
        m := m + {MPIE};
      } else {
        m := m - {MPIE};
      }
      m := m - MPP;
      m := m + MppBits(priv);
      m := m - {MIE};
      mstatus := MstatusWrite(mstatus, m);
      var base := mtvec - mtvec % 4;
      if trap.cause.interrupt && mtvec % 4 == 1 {
        pc := (base + 4 * trap.cause.code) % 0x1_0000_0000_0000_0000;
      } else {
        pc := base;
      }
      priv := M_MODE;
    }

    // exec_mret; false when it raises an illegal-instruction trap instead.
    method ExecMret() returns (ok: bool)
      modifies this
      ensures (if ok then Done(State()) else Illegal) == Mret(old(State()))
      ensures !ok ==> State() == old(State())
      ensures interruptCheckPending
    {
      hide MstatusWrite, MstatusRead, EpcRead;
      interruptCheckPending := true;
      if priv != M_MODE {
        return false;
      }
      var m := MstatusRead(mstatus);
      pc := EpcRead(mepc);
      priv := MppField(m);
      if priv != M_MODE {
        m := m - {MPRV};
      }
      if MPIE in m {
        m := m + {MIE};
      } else {
        m := m - {MIE};
      }
      m := m + {MPIE};
      m := m - MPP;
      mstatus := MstatusWrite(mstatus, m);
      return true;
    }

    // exec_sret; false when it raises an illegal-instruction trap instead.
    method ExecSret() returns (ok: bool)
      modifies this
      ensures (if ok then Done(State()) else Illegal) == Sret(old(State()))
      ensures !ok ==> State() == old(State())
      ensures interruptCheckPending
    {
      hide MstatusWrite, SstatusWrite, MstatusRead, SstatusRead, EpcRead;
      interruptCheckPending := true;
      if priv == U_MODE || (priv == S_MODE && TSR in MstatusRead(mstatus)) {
        return false;
      }
      var s := SstatusRead(mstatus);
      pc := EpcRead(sepc);
      priv := SppField(s);
      if SPIE in s {
        s := s + {SIE};
      } else {
        s := s - {SIE};
      }
      s := s + {SPIE};
      s := s - {SPP};
      mstatus := SstatusWrite(mstatus, s);
      if priv != M_MODE {
        mstatus := MstatusWrite(mstatus, MstatusRead(mstatus) - {MPRV});
      }
      return true;
    }

    // Hart::check_interrupts: the trap it throws, if any.
    method CheckPending() returns (choice: Choice)
      requires HartOk(State())
      modifies this`interruptCheckPending
      ensures choice == CheckInterrupts(State())
      ensures !interruptCheckPending
    {
      interruptCheckPending := false;
      var pending := mip * mie;
      ghost var h := State();
      if pending == {} {
        forall code: nat ensures !Deliverable(h, code) {
          assert code !in pending;
        }
        InterruptGoesWhereEnabled(h);
        return NoInterrupt;
      }
      var mEnabled := priv < M_MODE || (priv == M_MODE && MIE in mstatus);
      var sEnabled := priv < S_MODE || (priv == S_MODE && SIE in mstatus);
      var prio := Priority();
      for i := 0 to |prio|
        invariant FirstDeliverable(h, prio) == i + FirstDeliverable(h, prio[i..])
      {
        var code := prio[i];
        assert prio[i..][0] == code && prio[i..][1..] == prio[i + 1..];
        if code !in pending {
          continue;
        }
        if code in mideleg {
          if sEnabled {
            return Raise(Trap(pc, Cause(true, code), 0));
          }
        } else {
          if mEnabled {
            return Raise(Trap(pc, Cause(true, code), 0));
          }
        }
      }
      return NoInterrupt;
    }
  }
}
