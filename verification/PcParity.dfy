/**
 Every instruction, trap and return leaves pc even, in runs that mix them.
 */
module PcParity {
  import opened Bits
  import opened RvcDecode
  import opened Rv64Table
  import opened Rv64Decode
  import opened RvcImm
  import opened Rvc
  import opened Rv64Words
  import opened HartModel
  import opened HartRuns
  import opened Memory
  import opened RvcMachine
  import opened Accesses
  import Sv39
  import opened Traps
  import M = MulDiv

  // Where an effect sends pc, for an instruction of `step` bytes at pc
  function NextPc(e: Effect, pc: U64, step: nat): U64 {
    match e
    case Goto(t) => t
    case GotoLink(t, _, _) => t
    case _ => Plus(pc, step)
  }

  lemma EvenPlus(pc: U64, imm: int)
    requires pc % 2 == 0 && imm % 2 == 0
    ensures Plus(pc, imm) % 2 == 0
  {
  }

  lemma EvenIsEven(a: U64)
    ensures Even(a) % 2 == 0
  {
  }

  lemma SextEven(x: nat, sign: nat)
    ensures Sext(2 * x, 2 * sign) % 2 == 0
  {
  }

  // The offsets of every 32-bit branch and jump are even.
  lemma OffsetsEven(w: U32)
    ensures Imm32(TB, w) % 2 == 0 && Imm32(TJ, w) % 2 == 0
  {
    hide Sext;
    var b := w / 0x8000_0000 * 0x800 + w / 128 % 2 * 0x400 + w / 0x200_0000 % 64 * 16 + w / 256 % 16;
    var j := w / 0x8000_0000 * 0x8_0000 + w / 0x1000 % 256 * 0x800 + w / 0x10_0000 % 2 * 0x400 + w / 0x20_0000 % 1024;
    assert Imm32(TB, w) == Sext(2 * b, 0x1000) && Imm32(TJ, w) == Sext(2 * j, 0x10_0000);
    SextEven(b, 0x800);
    SextEven(j, 0x8_0000);
  }

  lemma TargetsEven(d: Insn, r: Regs, pc: U64)
    requires pc % 2 == 0 && (InB(d.op) || d.op.JAL? ==> d.o.imm % 2 == 0)
    ensures NextPc(Execute32(d, r, pc, 4), pc, 4) % 2 == 0
  {
    hide Get, Plus, Minus, Half, Shl, ShrU, ShrS, AndU, OrU, XorU, Even, M.Sext32, M.Low, M.Word, M.Signed;
    EvenPlus(pc, 4);
    if d.o.imm % 2 == 0 { EvenPlus(pc, d.o.imm); }
    EvenIsEven(Plus(Get(r, d.o.rs1), d.o.imm));
  }

  // A 32-bit instruction at an even pc leaves pc even, whatever word it is:
  // every branch, jump and fall-through.
  lemma LongKeepsPcEven(w: U32, r: Regs, pc: U64)
    requires pc % 2 == 0
    ensures NextPc(Execute32(Decode32(w), r, pc, 4), pc, 4) % 2 == 0
  {
    hide OpOf, Imm32, Execute32, NextPc, TypeOf, InB;
    OffsetsEven(w);
    var op := OpOf(w);
    if InB(op) || op.JAL? {
      TypesB(op);
    }
    TargetsEven(Decode32(w), r, pc);
  }

  predicate ShortBranches(n: Name) { n == CJ || n == CBeqz || n == CBnez }

  predicate ShortJumps(n: Name) { ShortBranches(n) || n == CJr || n == CJalr }

  lemma StraightOn(n: Name, o: Operands, r: Regs, pc: U64)
    requires !ShortJumps(n)
    ensures !Execute16(n, o, r, pc).Goto? && !Execute16(n, o, r, pc).GotoLink?
  {
    hide Get, Plus, Minus, Half, Shl, ShrU, ShrS, AndU, OrU, XorU, Even, M.Low, M.Word;
  }

  lemma JumpsEven(n: Name, o: Operands, r: Regs, pc: U64)
    requires ShortJumps(n) && pc % 2 == 0 && (ShortBranches(n) ==> o.imm % 2 == 0)
    ensures NextPc(Execute16(n, o, r, pc), pc, 2) % 2 == 0
  {
    hide Get, Plus, Even;
    EvenPlus(pc, 2);
    if ShortBranches(n) { EvenPlus(pc, o.imm); }
    EvenIsEven(Get(r, o.rs1));
  }

  lemma ShortTargetsEven(n: Name, o: Operands, r: Regs, pc: U64)
    requires pc % 2 == 0 && (ShortBranches(n) ==> o.imm % 2 == 0)
    ensures NextPc(Execute16(n, o, r, pc), pc, 2) % 2 == 0
  {
    hide Execute16, ShortBranches, ShortJumps, Plus;
    if ShortJumps(n) {
      JumpsEven(n, o, r, pc);
    } else {
      EvenPlus(pc, 2);
      StraightOn(n, o, r, pc);
    }
  }

  lemma ShortOffsetEven(c: U16)
    ensures Reachable(FormatOf(NameOf(c)), c)
    ensures ShortBranches(NameOf(c)) ==> OperandsOf(FormatOf(NameOf(c)), c).imm % 2 == 0
  {
    hide *;
    DecodeIsTotal(c);
    BranchNames(c);
    OpsBranch(c);
    BranchMeanings(OperandsOf(FormatOf(NameOf(c)), c));
    BranchRange(c);
  }

  lemma BranchRange(c: U16)
    ensures RefJump(c) % 2 == 0 && (c / 8192 in {6, 7} ==> RefBranch(c) % 2 == 0)
  {
    JumpImmIs(c);
    if c / 8192 in {6, 7} { BranchImmIs(c); }
  }

  lemma BranchNames(c: U16)
    ensures NameOf(c) == CBeqz || NameOf(c) == CBnez ==> c / 8192 in {6, 7}
    ensures ShortBranches(NameOf(c)) ==> NameOf(c) == CJ || NameOf(c) == CBeqz || NameOf(c) == CBnez
  {
  }

  // So does a 16-bit one.
  lemma ShortKeepsPcEven(c: U16, r: Regs, pc: U64)
    requires pc % 2 == 0
    ensures NextPc(Step16(c, r, pc), pc, 2) % 2 == 0
  {
    hide NameOf, OperandsOf, FormatOf, Execute16, NextPc;
    ShortOffsetEven(c);
    ShortTargetsEven(NameOf(c), OperandsOf(FormatOf(NameOf(c)), c), r, pc);
  }

  // ----- Outcomes -------------------------------------------------------------------------------

  // Unless it traps, an instruction leaves pc at NextPc.
  lemma PerformedPc(e: Effect, m: Machine, r: Sv39.Regs, insn: nat, step: nat)
    ensures var o := Perform(e, m, r, insn, step);
      && (o.Next? ==> o.m.pc == NextPc(e, m.pc, step))
      && (o.Undescribed? ==> Plus(m.pc, step) == NextPc(e, m.pc, step))
  {
    hide Plus, Read, Accesses.Write;
  }

  predicate RaisedAt(t: Trap, pc: nat) { t.pc == pc && IsCause(t.cause) }

  lemma WalkTrap(m: Mem, r: Sv39.Regs, pc: nat, va: U64, t: Sv39.Access)
    ensures Sv39.Walk(m, r, pc, va, t).result.Raise? ==> RaisedAt(Sv39.Walk(m, r, pc, va, t).result.trap, pc)
    ensures RaisedAt(Sv39.AccessFault(pc, va, t), pc)
  {
    hide Sv39.FindLeaf, Sv39.Permitted, Sv39.NeedsUpdate, Sv39.UpdatedPte, StoreLE, Sv39.PhysAddr;
  }

  lemma {:induction false} BytesTrap(m: Mem, r: Sv39.Regs, pc: nat, addr: U64, n: nat, i: nat, t: Sv39.Access)
    requires i <= n
    ensures var a := TranslateBytes(m, r, pc, addr, n, i, t).result; a.Raise? ==> RaisedAt(a.trap, pc)
    decreases n - i
  {
    hide Sv39.Walk, Sv39.AccessFault, RaisedAt;
    if i < n {
      WalkTrap(m, r, pc, Wrap(addr + i), t);
      WalkTrap(m, r, pc, addr, t);
      BytesTrap(Sv39.Walk(m, r, pc, Wrap(addr + i), t).mem, r, pc, addr, n, i + 1, t);
    }
  }

  lemma ReadTrap(m: Mem, r: Sv39.Regs, pc: nat, addr: U64, n: nat)
    requires Size(n)
    ensures var l := Read(m, r, pc, addr, n, Sv39.Load).result; l.Raise? ==> RaisedAt(l.trap, pc)
  {
    hide Sv39.Walk, Sv39.AccessFault, RaisedAt, TranslateBytes, Gather, LoadLE;
    WalkTrap(m, r, pc, addr, Sv39.Load);
    BytesTrap(m, r, pc, addr, n, 0, Sv39.Load);
  }

  lemma WriteTrap(m: Mem, r: Sv39.Regs, pc: nat, addr: U64, n: nat, v: nat)
    requires Size(n)
    ensures var s := Accesses.Write(m, r, pc, addr, n, v).result; s.Raise? ==> RaisedAt(s.trap, pc)
  {
    hide Sv39.Walk, Sv39.AccessFault, RaisedAt, TranslateBytes, Scatter, StoreLE, ToBytes;
    WalkTrap(m, r, pc, addr, Sv39.Store);
    BytesTrap(m, r, pc, addr, n, 0, Sv39.Store);
  }

  // Every exception of an instruction, page and access faults of its load or
  // store included, is raised at the instruction's pc.
  lemma PerformedTrap(e: Effect, m: Machine, r: Sv39.Regs, insn: nat, step: nat)
    ensures var o := Perform(e, m, r, insn, step); o.Trapped? ==> RaisedAt(o.trap, m.pc)
  {
    hide Plus, Read, Accesses.Write;
    match e
    case LoadReg(_, addr, n) => ReadTrap(m.mem, r, m.pc, addr, n);
    case StoreReg(addr, n, v) => WriteTrap(m.mem, r, m.pc, addr, n, v);
    case LoadFp(_, addr, _) => ReadTrap(m.mem, r, m.pc, addr, 8);
    case StoreFp(addr, fs) => WriteTrap(m.mem, r, m.pc, addr, 8, m.fprs[fs]);
    case _ =>
  }

  // ----- Runs -----------------------------------------------------------------------------------

  // An instruction of either length on the machine it runs on (registers,
  // memory and translation state are any), or anything else that changes the
  // hart: an interrupt, the trap of an instruction not described here, a CSR
  // write.
  datatype Move =
    | Long(w: U32, m: Machine, r: Sv39.Regs)
    | Short(c: U16, m: Machine, r: Sv39.Regs)
    | Other(ev: Event)

  // The machine's pc is the hart's.
  predicate Modelled(h: Hart, mv: Move) {
    match mv
    case Long(w, m, _) => m.pc == h.pc && (OpOf(w).ECALL? ==> h.priv != 2)   // exec_ecall has no case for it
    case Short(_, m, _) => m.pc == h.pc
    case Other(ev) => !ev.Advance? && Possible(h, ev)
  }

  // What the outcome of an instruction at pc is to the trap machine
  function OutcomeEvent(o: RvcMachine.Outcome, pc: U64, step: nat): Event {
    match o
    case Next(m) => Advance(m.pc)
    case Trapped(trap, _) => Take(trap)
    case Undescribed => Advance(Plus(pc, step))
  }

  function EventOf(h: Hart, mv: Move): Event {
    match mv
    case Long(w, m, r) =>
      var d := Decode32(w);
      if d.op.MRET? then if Mret(h).Done? then ExecMret else Take(Trap(h.pc, ILLEGAL_INSTRUCTION, w))
      else if d.op.SRET? then if Sret(h).Done? then ExecSret else Take(Trap(h.pc, ILLEGAL_INSTRUCTION, w))
      else if d.op.ECALL? then Take(Trap(h.pc, Cause(false, 8 + h.priv), 0))
      else OutcomeEvent(Perform(Execute32(d, m.regs, m.pc, 4), m, r, w, 4), m.pc, 4)
    case Short(c, m, r) => OutcomeEvent(RunShort(c, m, r), m.pc, 2)
    case Other(ev) => ev
  }

  // Traps are raised at the current pc; nothing is asked of the instructions.
  ghost predicate Runnable(h: Hart, ms: seq<Move>)
    decreases |ms|
  {
    ms == [] || (Modelled(h, ms[0]) && Runnable(Apply(h, EventOf(h, ms[0])), ms[1..]))
  }

  ghost function RunMoves(h: Hart, ms: seq<Move>): Hart
    requires Runnable(h, ms)
    decreases |ms|
  {
    if ms == [] then h else RunMoves(Apply(h, EventOf(h, ms[0])), ms[1..])
  }

  // ECALL: the words of ecall, mret and sret. A call raises 8 plus the level, a
  // return out of place is an illegal instruction.
  lemma SystemEvents(h: Hart, m: Machine, r: Sv39.Regs)
    requires m.pc == h.pc
    ensures EventOf(h, Long(0x73, m, r)) == Take(Trap(h.pc, Cause(false, 8 + h.priv), 0))
    ensures EventOf(h, Long(0x3020_0073, m, r)) ==
      if Mret(h).Done? then ExecMret else Take(Trap(h.pc, Cause(false, 2), 0x3020_0073))
    ensures EventOf(h, Long(0x1020_0073, m, r)) ==
      if Sret(h).Done? then ExecSret else Take(Trap(h.pc, Cause(false, 2), 0x1020_0073))
  {
    hide OpOf, Mret, Sret, Perform, Execute32, Imm32, TypeOf;
    SystemOps(0x73);
    SystemOps(0x3020_0073);
    SystemOps(0x1020_0073);
  }

  lemma OutcomePossible(h: Hart, e: Effect, m: Machine, r: Sv39.Regs, insn: nat, step: nat)
    requires m.pc == h.pc && NextPc(e, m.pc, step) % 2 == 0
    ensures Possible(h, OutcomeEvent(Perform(e, m, r, insn, step), m.pc, step))
  {
    hide NextPc, Plus, Perform;
    PerformedPc(e, m, r, insn, step);
    PerformedTrap(e, m, r, insn, step);
  }

  lemma MovePossible(h: Hart, mv: Move)
    requires h.pc % 2 == 0 && Modelled(h, mv)
    ensures Possible(h, EventOf(h, mv))
  {
    hide NextPc, Execute32, Step16, Perform, OutcomeEvent, OpOf, Imm32, TypeOf, Mret, Sret;
    match mv {
      case Long(w, m, r) =>
        LongKeepsPcEven(w, m.regs, m.pc);
        OutcomePossible(h, Execute32(Decode32(w), m.regs, m.pc, 4), m, r, w, 4);
      case Short(c, m, r) =>
        ShortKeepsPcEven(c, m.regs, m.pc);
        OutcomePossible(h, Step16(c, m.regs, m.pc), m, r, c, 2);
      case Other(_) =>
    }
  }

  // Every run from an even pc keeps pc even, and with it the other invariants
  // of the trap machine, whatever words the instructions are.
  lemma {:induction false} PcStaysEven(h: Hart, ms: seq<Move>)
    requires HartOk(h) && Runnable(h, ms)
    ensures HartOk(RunMoves(h, ms)) && RunMoves(h, ms).pc % 2 == 0
    decreases |ms|
  {
    hide Apply, EventOf, Possible;
    if ms != [] {
      MovePossible(h, ms[0]);
      ApplyKeepsOk(h, EventOf(h, ms[0]));
      PcStaysEven(Apply(h, EventOf(h, ms[0])), ms[1..]);
    }
  }
}
