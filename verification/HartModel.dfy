/**
 The trap and interrupt state of a hart: privilege, pc and the CSRs that traps
 read and write.

 A status or interrupt word is the set of the positions of its one bits, so the
 masks of the CSR classes are sets: `x & m` is `x * m`, `x | m` is `x + m` and
 `x & ~m` is `x - m`.  Addresses are numbers.
 */
module HartModel {
  import opened Bits
  import opened Traps

  type Word = set<nat>

  // ----- mstatus and sstatus -------------------------------------------------

  const SIE: nat := 1
  const MIE: nat := 3
  const SPIE: nat := 5
  const MPIE: nat := 7
  const SPP: nat := 8
  const MPP: Word := {11, 12}
  const FS: Word := {13, 14}
  const MPRV: nat := 17
  const SUM: nat := 18
  const MXR: nat := 19
  const TVM: nat := 20
  const TW: nat := 21
  const TSR: nat := 22
  const UXL: Word := {32, 33}
  const SXL: Word := {34, 35}
  const SD: nat := 63

  const MSTATUS_WRITE: Word :=
    {MIE, MPIE, MPRV, SIE, SPIE, SPP, SUM, MXR, TVM, TW, TSR} + MPP + FS
  const MSTATUS_READ: Word := MSTATUS_WRITE + UXL + SXL + {SD}
  const SSTATUS_WRITE: Word := {SIE, SPIE, SPP, SUM, MXR} + FS
  const SSTATUS_READ: Word := SSTATUS_WRITE + UXL + {SD}

  function MstatusRead(value: Word): Word { value * MSTATUS_READ }

  // MSTATUS::write_unchecked
  function MstatusWrite(value: Word, v: Word): Word {
    var w := (value - MSTATUS_WRITE) + (v * MSTATUS_WRITE);
    if FS <= w then w + {SD} else w - {SD}
  }

  function SstatusRead(mstatus: Word): Word { MstatusRead(mstatus) * SSTATUS_READ }

  // SSTATUS::write_unchecked
  function SstatusWrite(mstatus: Word, v: Word): Word {
    MstatusWrite(mstatus, (MstatusRead(mstatus) - SSTATUS_WRITE) + (v * SSTATUS_WRITE))
  }

  // The reset value: UXL and SXL say 64 bits.
  const MSTATUS_RESET: Word := {33, 35}

  // What every reachable mstatus satisfies: only implemented bits, SXL and UXL
  // say 64 bits, and SD summarises FS.
  predicate StatusOk(m: Word) {
    && m <= MSTATUS_READ
    && m * UXL == {33} && m * SXL == {35}
    && (SD in m <==> FS <= m)
  }

  // ----- Other CSRs ------------------------------------------------------------

  // xepc never reads as odd; its hidden low bit is kept.
  function EpcRead(value: nat): nat { value - value % 2 }
  function EpcWrite(value: nat, v: nat): nat { value % 2 + (v - v % 2) }

  function TvecWrite(v: nat): nat { ClearBit(v, 1) }

  const MEDELEG_ZERO: Word := {11, 16}
  const DELEGABLE: Word := {1, 5, 9}                  // SSIP, STIP, SEIP
  const INTERRUPTS: Word := {1, 3, 5, 7, 9, 11}       // and MSIP, MTIP, MEIP

  // ----- Privilege -------------------------------------------------------------

  // static_cast<reg_t>(priv) << MPP_SHIFT
  function MppBits(p: Priv): Word {
    (if p % 2 == 1 then {11} else {}) + (if p >= 2 then {12} else {})
  }

  // (mstatus & MPP) >> MPP_SHIFT
  function MppField(m: Word): Priv {
    (if 11 in m then 1 else 0) + (if 12 in m then 2 else 0)
  }

  // (sstatus & SPP) >> SPP_SHIFT
  function SppField(s: Word): Priv { if SPP in s then S_MODE else U_MODE }

  // ----- Traps -----------------------------------------------------------------

  // The values of TrapCause other than the sentinel.
  predicate IsCause(c: Cause) {
    if c.interrupt then c.code in INTERRUPTS else c.code < 16 && c.code != 10 && c.code != 14
  }

  datatype Hart = Hart(pc: nat, priv: Priv, mstatus: Word,
                       medeleg: Word, mideleg: Word, mip: Word, mie: Word,
                       mtvec: nat, mepc: nat, mcause: Cause, mtval: nat,
                       stvec: nat, sepc: nat, scause: Cause, stval: nat)

  // The hart state that reset, CSR writes, traps and returns maintain.
  predicate HartOk(h: Hart) {
    StatusOk(h.mstatus) && h.mideleg <= DELEGABLE && h.mie <= INTERRUPTS && h.mip <= INTERRUPTS && h.pc % 2 == 0
  }

  // A trap is taken in S mode when it comes from S or U and is delegated.
  predicate Delegated(h: Hart, t: Trap) {
    h.priv <= S_MODE && t.cause.code in (if t.cause.interrupt then h.mideleg else h.medeleg - MEDELEG_ZERO)
  }

  // (tvec & ~3) + (code << 2) in vectored mode, in 64 bits
  function VectorTarget(tvec: nat, cause: Cause): nat {
    var base := tvec - tvec % 4;
    if cause.interrupt && tvec % 4 == 1 then (base + 4 * cause.code) % 0x1_0000_0000_0000_0000 else base
  }

  function With(x: Word, bit: nat, on: bool): Word { if on then x + {bit} else x - {bit} }

  // The words that a trap writes to sstatus or mstatus.
  function SupervisorEntryWord(s: Word, priv: Priv): Word {
    With(With(s, SPIE, SIE in s), SPP, priv >= S_MODE) - {SIE}
  }

  function MachineEntryWord(m: Word, priv: Priv): Word {
    (With(m, MPIE, MIE in m) - MPP + MppBits(priv)) - {MIE}
  }

  function SupervisorEntered(mstatus: Word, priv: Priv): Word {
    SstatusWrite(mstatus, SupervisorEntryWord(SstatusRead(mstatus), priv))
  }

  function MachineEntered(mstatus: Word, priv: Priv): Word {
    MstatusWrite(mstatus, MachineEntryWord(MstatusRead(mstatus), priv))
  }

  // Hart::handle_trap
  function TrapEntry(h: Hart, t: Trap): Hart {
    if Delegated(h, t) then
      h.(sepc := EpcWrite(h.sepc, t.pc), scause := t.cause, stval := t.tval,
         mstatus := SupervisorEntered(h.mstatus, h.priv), pc := VectorTarget(h.stvec, t.cause), priv := S_MODE)
    else
      h.(mepc := EpcWrite(h.mepc, t.pc), mcause := t.cause, mtval := t.tval,
         mstatus := MachineEntered(h.mstatus, h.priv), pc := VectorTarget(h.mtvec, t.cause), priv := M_MODE)
  }

  datatype Outcome = Done(hart: Hart) | Illegal

  function MachineReturned(mstatus: Word): Word {
    var m := MstatusRead(mstatus);
    var m1 := if MppField(m) != M_MODE then m - {MPRV} else m;
    MstatusWrite(mstatus, With(m1, MIE, MPIE in m1) + {MPIE} - MPP)
  }

  // exec_mret
  function Mret(h: Hart): Outcome {
    if h.priv != M_MODE then Illegal
    else
      Done(h.(pc := EpcRead(h.mepc), priv := MppField(MstatusRead(h.mstatus)),
              mstatus := MachineReturned(h.mstatus)))
  }

  function SupervisorReturned(mstatus: Word): Word {
    var s := SstatusRead(mstatus);
    var m := SstatusWrite(mstatus, With(s, SIE, SPIE in s) + {SPIE} - {SPP});
    if SppField(s) != M_MODE then MstatusWrite(m, MstatusRead(m) - {MPRV}) else m
  }

  predicate SretTraps(h: Hart) {
    h.priv == U_MODE || (h.priv == S_MODE && TSR in MstatusRead(h.mstatus))
  }

  // exec_sret
  function Sret(h: Hart): Outcome {
    if SretTraps(h) then Illegal
    else
      Done(h.(pc := EpcRead(h.sepc), priv := SppField(SstatusRead(h.mstatus)),
              mstatus := SupervisorReturned(h.mstatus)))
  }

  // ----- Interrupts --------------------------------------------------------------

  // The fixed order of check_interrupts: MEI, MSI, MTI, SEI, SSI, STI.
  function Priority(): seq<nat> { [11, 3, 7, 9, 1, 5] }

  // Interrupts taken in M mode (or, if not machine, in S mode) are enabled.
  predicate GloballyEnabled(h: Hart, machine: bool) {
    if machine then h.priv < M_MODE || (h.priv == M_MODE && MIE in h.mstatus)
    else h.priv < S_MODE || (h.priv == S_MODE && SIE in h.mstatus)
  }

  // The source is pending, locally enabled, and enabled in the mode that its
  // delegation selects.
  predicate Deliverable(h: Hart, code: nat) {
    code in h.mip && code in h.mie && GloballyEnabled(h, code !in h.mideleg)
  }

  datatype Choice = NoInterrupt | Raise(trap: Trap)

  // The position of the first deliverable source, or |codes|.
  function FirstDeliverable(h: Hart, codes: seq<nat>): (k: nat)
    ensures k <= |codes|
  {
    if codes == [] || Deliverable(h, codes[0]) then 0 else 1 + FirstDeliverable(h, codes[1..])
  }

  function InterruptTrap(h: Hart, code: nat): Trap { Trap(h.pc, Cause(true, code), 0) }

  // Hart::check_interrupts
  function CheckInterrupts(h: Hart): Choice {
    var k := FirstDeliverable(h, Priority());
    if k == 6 then NoInterrupt else Raise(InterruptTrap(h, Priority()[k]))
  }
}
