/**
 Instructions performed on a hart and its memory, and the theorem that a
 compressed instruction does what its expansion does, with the exact
 exceptions.
 */
module RvcMachine {
  import opened Bits
  import opened Wrappers
  import opened Memory
  import opened Traps
  import Sv39
  import opened Accesses
  import opened RvcDecode
  import opened RvcImm
  import opened Rv64Table
  import opened Rv64Map
  import opened Rv64Decode
  import opened Rvc
  import M = MulDiv

  // What an instruction can change: the register files, mstatus.FS, pc and memory.
  datatype Machine = Machine(regs: Regs, fprs: Regs, fs: Fs, pc: U64, mem: Mem)

  type Fs = x: nat | x < 4
  const OFF: Fs := 0
  const DIRTY: Fs := 3

  // What an instruction leads to. A trap keeps the registers; its translations
  // may have set A and D bits in memory.
  datatype Outcome = Next(m: Machine) | Trapped(trap: Trap, m: Machine) | Undescribed

  function Write(r: Regs, rd: Reg, v: U64): Regs { if rd == 0 then r else r[rd := v] }

  // sext(v, 32) of a loaded word
  function Loaded64(v: nat, n: nat): U64 { if n == 4 then M.Sext32(v % 0x1_0000_0000) else M.Word(v) }

  // fp_inst_prep
  function FpTrap(m: Machine, insn: nat): Outcome { Trapped(Trap(m.pc, ILLEGAL_INSTRUCTION, insn), m) }

  // The effect of an instruction of `step` bytes, with `insn` as fetched.
  // Translation reads the control registers, which no such instruction changes.
  function Perform(e: Effect, m: Machine, r: Sv39.Regs, insn: nat, step: nat): Outcome {
    var next := Plus(m.pc, step);
    match e
    case Keep => Next(m.(pc := next))
    case SetReg(rd, v) => Next(m.(regs := Write(m.regs, rd, v), pc := next))
    case LoadReg(rd, addr, n) =>
      var l := Read(m.mem, r, m.pc, addr, n, Sv39.Load);
      (match l.result
       case Raise(trap) => Trapped(trap, m.(mem := l.mem))
       case Ok(v) => Next(m.(regs := Write(m.regs, rd, Loaded64(v, n)), pc := next, mem := l.mem)))
    case StoreReg(addr, n, v) =>
      var s := Accesses.Write(m.mem, r, m.pc, addr, n, v);
      (match s.result
       case Raise(trap) => Trapped(trap, m.(mem := s.mem))
       case Ok(_) => Next(m.(pc := next, mem := s.mem)))
    case LoadFp(rd, addr, dirties) =>
      if m.fs == OFF then FpTrap(m, insn)
      else
        var l := Read(m.mem, r, m.pc, addr, 8, Sv39.Load);
        (match l.result
         case Raise(trap) => Trapped(trap, m.(mem := l.mem))
         case Ok(v) =>
           Next(m.(fprs := m.fprs[rd := M.Word(v)], fs := if dirties then DIRTY else m.fs, pc := next, mem := l.mem)))
    case StoreFp(addr, fs) =>
      if m.fs == OFF then FpTrap(m, insn)
      else
        var s := Accesses.Write(m.mem, r, m.pc, addr, 8, m.fprs[fs]);
        (match s.result
         case Raise(trap) => Trapped(trap, m.(mem := s.mem))
         case Ok(_) => Next(m.(pc := next, mem := s.mem)))
    case Goto(target) => Next(m.(pc := target))
    case GotoLink(target, rd, link) => Next(m.(regs := Write(m.regs, rd, link), pc := target))
    case Breakpoint => Trapped(Trap(m.pc, BREAKPOINT, m.pc), m)
    case Illegal => Trapped(Trap(m.pc, ILLEGAL_INSTRUCTION, insn), m)
    case Unmodelled => Undescribed
  }

  // ----- Compressed instructions and their expansions ---------------------------------------

  // Decoding and executing the 16-bit word
  function RunShort(c: U16, m: Machine, r: Sv39.Regs): Outcome { Perform(Step16(c, m.regs, m.pc), m, r, c, 2) }

  function ExpansionWord(c: U16): U32
    requires Expand(c).Some?
  {
    ExpansionFits(c);
    Encode(Expand(c).value)
  }

  // Decoding and executing the 32-bit word, with pc step and link 2
  function RunExpansion(c: U16, m: Machine, r: Sv39.Regs): Outcome
    requires Expand(c).Some?
  {
    var w := ExpansionWord(c);
    Perform(Execute32(Decode32(w), m.regs, m.pc, 2), m, r, w, 2)
  }

  // c.fld and c.fldsp, c.fsd and c.fsdsp
  predicate FpLoad(c: U16) { (c % 4 == 0 || c % 4 == 2) && c / 8192 == 1 }
  predicate FpStore(c: U16) { (c % 4 == 0 || c % 4 == 2) && c / 8192 == 5 }

  function FpAddress(c: U16, m: Machine): U64 {
    if c % 4 == 0 then Plus(Get(m.regs, HighReg(c)), RefDouble(c)) else Plus(Get(m.regs, 2), RefLdsp(c))
  }

  predicate LoadSucceeds(c: U16, m: Machine, r: Sv39.Regs) {
    Read(m.mem, r, m.pc, FpAddress(c, m), 8, Sv39.Load).result.Ok?
  }

  // When the two words lead to different outcomes: the tval of the exception
  // for FS off is the word itself, and only the 32-bit load makes FS dirty.
  predicate Differs(c: U16, m: Machine, r: Sv39.Regs) {
    || ((FpLoad(c) || FpStore(c)) && m.fs == OFF)
    || (FpLoad(c) && m.fs != OFF && m.fs != DIRTY && LoadSucceeds(c, m, r))
  }

  // An outcome with FS as it was
  function WithFs(o: Outcome, fs: Fs): Outcome { if o.Next? then Next(o.m.(fs := fs)) else o }

  // ----- The theorem ------------------------------------------------------------------------

  // What the effect of an operation can be
  lemma EffectKinds(a: Asm, regs: Regs, pc: U64)
    requires Encodes(a)
    ensures var e := RunAsm(a, regs, pc, 2);
      e != Illegal && e != Unmodelled && (e.LoadFp? <==> a.op.FLD?) && (e.StoreFp? <==> a.op.FSD?)
  {
    hide Get, Plus, Minus, Shl, ShrU, ShrS, AndU, OrU, XorU, Half, Even, M.Word, M.Low, M.Sext32, M.Signed;
  }

  lemma ExpansionKinds(c: U16)
    requires Expand(c).Some?
    ensures Encodes(Expand(c).value)
    ensures Expand(c).value.op.FLD? <==> FpLoad(c)
    ensures Expand(c).value.op.FSD? <==> FpStore(c)
  {
    hide Expand0, Expand1, Expand2, Encodes;
    Kinds0(c);
    Kinds1(c);
    Kinds2(c);
  }

  lemma Kinds0(c: U16)
    ensures Expand0(c).Some? ==> (Expand0(c).value.op.FLD? <==> c / 8192 == 1)
    ensures Expand0(c).Some? ==> (Expand0(c).value.op.FSD? <==> c / 8192 == 5)
    ensures Expand0(c).Some? ==> Encodes(Expand0(c).value)
  {
    hide RefAddi4spn, RefWord, RefDouble, Encodes;
    if Expand0(c).Some? { FitsWell0(c); }
  }

  lemma Kinds1(c: U16)
    ensures Expand1(c).Some? ==> !Expand1(c).value.op.FLD? && !Expand1(c).value.op.FSD?
    ensures Expand1(c).Some? ==> Encodes(Expand1(c).value)
  {
    hide RefImm6, RefAddi16sp, RefLui, RefBranch, RefJump, Signed6, Encodes;
    if Expand1(c).Some? { FitsWell1(c); }
  }

  lemma Kinds2(c: U16)
    ensures Expand2(c).Some? ==> (Expand2(c).value.op.FLD? <==> c / 8192 == 1)
    ensures Expand2(c).Some? ==> (Expand2(c).value.op.FSD? <==> c / 8192 == 5)
    ensures Expand2(c).Some? ==> Encodes(Expand2(c).value)
  {
    hide RefImm6, RefLwsp, RefLdsp, RefSwsp, RefSdsp, Encodes;
    if Expand2(c).Some? { FitsWell2(c); }
  }

  // The two words differ in their low bits.
  lemma WordsDiffer(c: U16)
    requires Expand(c).Some? && (FpLoad(c) || FpStore(c))
    ensures ExpansionWord(c) % 4 == 3 && c != ExpansionWord(c)
  {
    hide Expand, Encode, FpLoad, FpStore;
    ExpansionFits(c);
    ExpansionKinds(c);
    FpOpcode(Expand(c).value);
    assert c % 4 != 3 by { CompressedQuadrant(c); }
  }

  lemma CompressedQuadrant(c: U16)
    requires Expand(c).Some?
    ensures c % 4 != 3
  {
    hide Expand0, Expand1, Expand2;
  }

  lemma FpOpcode(a: Asm)
    requires CanEncode(a) && (a.op.FLD? || a.op.FSD?)
    ensures Encode(a) % 4 == 3
  {
    hide EncodeAs, Holds, CodeOf;
    var c := CodeOf(a.op).value;
    FpCodes(a.op);
    CodeFields(c.t, c.opcode, c.f3, c.f7, a);
    ModSplit(Encode(a), 4, 32, 128);
  }

  lemma FpCodes(op: Op)
    requires op.FLD? || op.FSD?
    ensures CodeOf(op).Some? && CodeOf(op).value.t != TN && CodeOf(op).value.t != TR4
    ensures CodeOf(op).value.opcode % 4 == 3
  {
    hide CodeOf;
    FldCode();
    FsdCode();
  }

  lemma FldCode()
    ensures CodeOf(FLD) == Some(Code(TI, LOAD_FP, 3, 0))
  {
    hide TypeOf;
  }

  lemma FsdCode()
    ensures CodeOf(FSD) == Some(Code(TS, STORE_FP, 3, 0))
  {
    hide TypeOf;
  }

  lemma FpAddressIs(c: U16, m: Machine)
    requires Expand(c).Some? && FpLoad(c)
    ensures var e := RunAsm(Expand(c).value, m.regs, m.pc, 2); e.LoadFp? && e.addr == FpAddress(c, m) && e.dirties
  {
    hide RefDouble, RefLdsp, Get, Plus, HighReg, LowReg, RdFull;
  }

  // Compressed execution preserves meaning: on every machine and under every
  // translation, a non-reserved 16-bit word leads to the same registers,
  // memory, pc, FS or trap as its expansion, unless Differs says otherwise.
  lemma CompressedIsExpansion(c: U16, m: Machine, r: Sv39.Regs)
    requires Expand(c).Some?
    ensures RunShort(c, m, r) == RunExpansion(c, m, r) <==> !Differs(c, m, r)
    ensures (FpLoad(c) || FpStore(c)) && m.fs == OFF ==>
      RunShort(c, m, r) == FpTrap(m, c) && RunExpansion(c, m, r) == FpTrap(m, ExpansionWord(c))
    ensures FpLoad(c) && m.fs != OFF ==> RunShort(c, m, r) == WithFs(RunExpansion(c, m, r), m.fs)
  {
    hide Expand, Encode, Decode32, Execute32, Step16, FpAddress, Read, Accesses.Write, RunAsm, Plus, FpLoad, FpStore;
    var a := Expand(c).value;
    ExpansionFits(c);
    CompressedEffect(c, m.regs, m.pc);
    EncodedRuns(a, m.regs, m.pc, 2);
    ExpansionKinds(c);
    EffectKinds(a, m.regs, m.pc);
    if FpLoad(c) || FpStore(c) { WordsDiffer(c); }
    if FpLoad(c) {
      FpAddressIs(c, m);
      LeavesFs(c, m.regs, m.pc);
    }
  }

  // exec_c_fld and exec_c_fldsp do not set FS.
  lemma LeavesFs(c: U16, regs: Regs, pc: U64)
    ensures Step16(c, regs, pc).LoadFp? ==> !Step16(c, regs, pc).dirties
  {
    DecodeIsTotal(c);
    hide NameOf, OperandsOf, FormatOf, Get, Plus, Minus, Half, Shl, ShrU, ShrS, AndU, OrU, XorU, Even, M.Low, M.Word;
  }

  // c.fsd f8, 0(x8) with FS off: the same exception, with another tval.
  lemma FsdTvalDiffers(m: Machine, r: Sv39.Regs)
    requires m.fs == OFF
    ensures Expand(0xA000) == Some(Asm(FSD, 0, 8, 8, 0)) && ExpansionWord(0xA000) == 0x84_3027
    ensures RunShort(0xA000, m, r) == Trapped(Trap(m.pc, ILLEGAL_INSTRUCTION, 0xA000), m)
    ensures RunExpansion(0xA000, m, r) == Trapped(Trap(m.pc, ILLEGAL_INSTRUCTION, 0x84_3027), m)
    ensures RunShort(0xA000, m, r) != RunExpansion(0xA000, m, r)
  {
    hide RunShort, RunExpansion, Encode;
    CompressedIsExpansion(0xA000, m, r);
    FsdWord();
  }

  lemma FsdWord()
    ensures Expand(0xA000) == Some(Asm(FSD, 0, 8, 8, 0)) && CanEncode(Asm(FSD, 0, 8, 8, 0))
    ensures Encode(Asm(FSD, 0, 8, 8, 0)) == 0x84_3027
  {
    hide Expand, CanEncode, Encode;
    FsdExpansion();
    FsdEncoding();
  }

  lemma FsdExpansion()
    ensures Expand(0xA000) == Some(Asm(FSD, 0, 8, 8, 0))
  {
  }

  lemma FsdEncoding()
    ensures CanEncode(Asm(FSD, 0, 8, 8, 0)) && Encode(Asm(FSD, 0, 8, 8, 0)) == 0x84_3027
  {
    hide CodeOf, TypeOf;
    FsdCode();
  }

  // c.fld f8, 0(x8) in M mode with FS clean: the load succeeds on both sides
  // and only the 32-bit one makes FS dirty.
  lemma FldKeepsFs(m: Machine, r: Sv39.Regs)
    requires m.fs == 2 && r.priv == M_MODE && !r.mprv
    requires Get(m.regs, 8) % 8 == 0 && InDram(m.mem, Get(m.regs, 8), 8)
    ensures Expand(0x2000) == Some(Asm(FLD, 8, 8, 0, 0))
    ensures RunShort(0x2000, m, r).Next? && RunShort(0x2000, m, r).m.fs == 2
    ensures RunExpansion(0x2000, m, r).Next? && RunExpansion(0x2000, m, r).m.fs == DIRTY
  {
    hide RunShort, RunExpansion, Get, Read;
    FldAddress(m);
    MachineLoad(m, r, Get(m.regs, 8));
    CompressedIsExpansion(0x2000, m, r);
    FldOutcome(m, r);
  }

  lemma FldAddress(m: Machine)
    ensures Expand(0x2000) == Some(Asm(FLD, 8, 8, 0, 0)) && FpAddress(0x2000, m) == Get(m.regs, 8)
  {
    hide Get;
  }

  lemma MachineLoad(m: Machine, r: Sv39.Regs, addr: U64)
    requires r.priv == M_MODE && !r.mprv && addr % 8 == 0 && InDram(m.mem, addr, 8)
    ensures Read(m.mem, r, m.pc, addr, 8, Sv39.Load).result.Ok?
  {
  }

  lemma FldOutcome(m: Machine, r: Sv39.Regs)
    requires m.fs != OFF && LoadSucceeds(0x2000, m, r)
    ensures RunExpansion(0x2000, m, r).Next? && RunExpansion(0x2000, m, r).m.fs == DIRTY
  {
    hide Encode, Decode32, Execute32, FpAddress, Read, RunAsm, Plus, Expand;
    FldAddress(m);
    ExpansionFits(0x2000);
    EncodedRuns(Expand(0x2000).value, m.regs, m.pc, 2);
    FpAddressIs(0x2000, m);
  }
}
