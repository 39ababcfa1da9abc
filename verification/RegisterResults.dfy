/**
 The value every integer instruction writes, the condition of every branch and
 the address of every access, as arithmetic and bits, and what performing them
 does to registers, pc and memory.
 */
module RegisterResults {
  import opened Bits
  import opened Memory
  import opened Traps
  import opened RvcDecode
  import opened Rv64Table
  import opened Rv64Decode
  import opened Rvc
  import opened RvcMachine
  import opened Accesses
  import Sv39
  import M = MulDiv

  // Register k as an operand: register 0 is 0.
  function X(r: Regs, k: nat): int
    requires k < 32
  {
    if k == 0 then 0 else r[k]
  }

  // A word as a signed number
  function Signed64(x: int): int { if x < 0x8000_0000_0000_0000 then x else x - 0x1_0000_0000_0000_0000 }

  // The instruction writes v, or nothing when its destination is register 0.
  predicate Writes(d: Insn, e: Effect, v: int) {
    e == if d.o.rd == 0 then Keep else SetReg(d.o.rd, v % 0x1_0000_0000_0000_0000)
  }

  // ----- Sums and differences ----------------------------------------------------------------

  lemma SumGives(d: Insn, r: Regs, pc: U64, step: nat)
    requires d.op.ADD? || d.op.ADDI? || d.op.SUB?
    ensures Writes(d, Execute32(d, r, pc, step), X(r, d.o.rs1) +
      if d.op.ADD? then X(r, d.o.rs2) else if d.op.SUB? then -X(r, d.o.rs2) else d.o.imm)
  {
  }

  // The W forms: the low 32 bits are those of the sum, and bits 63 to 31 are
  // equal.
  predicate Sign32(v: int) { v / 0x8000_0000 == 0 || v / 0x8000_0000 == 0x1_FFFF_FFFF }

  lemma HalfGives(x: U64)
    ensures Half(x) % 0x1_0000_0000 == x % 0x1_0000_0000 && Sign32(Half(x))
  {
    hide M.Sext32, Sign32;
    SextGives(x % 0x1_0000_0000);
  }

  lemma WideSumGives(d: Insn, r: Regs, pc: U64, step: nat)
    requires d.op.ADDW? || d.op.ADDIW? || d.op.SUBW?
    requires d.o.rd != 0
    ensures var e := Execute32(d, r, pc, step);
      && e.SetReg? && e.rd == d.o.rd && Sign32(e.v)
      && e.v % 0x1_0000_0000 == (X(r, d.o.rs1) +
           if d.op.ADDW? then X(r, d.o.rs2) else if d.op.SUBW? then -X(r, d.o.rs2) else d.o.imm) % 0x1_0000_0000
  {
    hide Half;
    var a, b := X(r, d.o.rs1), X(r, d.o.rs2);
    var s := a + if d.op.ADDW? then b else if d.op.SUBW? then -b else d.o.imm;
    HalfGives(M.Word(s));
    LowOfWord(s);
  }

  lemma LowOfWord(s: int)
    ensures s % 0x1_0000_0000_0000_0000 % 0x1_0000_0000 == s % 0x1_0000_0000
  {
  }

  // ----- Bits ----------------------------------------------------------------------------------

  lemma WordOfBits(x: U64, y: U64)
    ensures AndU(x, y) == And(x, y) && OrU(x, y) == Or(x, y) && XorU(x, y) == Or(x, y) - And(x, y) >= 0
  {
    hide And, Or, Pow2;
    AndBound(x, y);
    Pow2Values();
    OrBound(x, y, 64);
    BitOfXor(x, y, 0);
  }

  // and, or, xor and andi, bit by bit
  lemma LogicGives(d: Insn, r: Regs, pc: U64, step: nat, k: nat)
    requires d.op.AND_? || d.op.OR_? || d.op.XOR_? || d.op.ANDI?
    requires d.o.rd != 0
    ensures var e := Execute32(d, r, pc, step);
      var x := X(r, d.o.rs1);
      var y := if d.op.ANDI? then d.o.imm % 0x1_0000_0000_0000_0000 else X(r, d.o.rs2);
      && e.SetReg? && e.rd == d.o.rd
      && (Bit(e.v, k) <==>
           if d.op.OR_? then Bit(x, k) || Bit(y, k) else if d.op.XOR_? then Bit(x, k) != Bit(y, k)
           else Bit(x, k) && Bit(y, k))
  {
    hide And, Or, Bit, AndU, OrU, XorU;
    var x: U64 := X(r, d.o.rs1);
    var y: U64 := if d.op.ANDI? then d.o.imm % 0x1_0000_0000_0000_0000 else X(r, d.o.rs2);
    WordOfBits(x, y);
    BitOfAnd(x, y, k);
    BitOfOr(x, y, k);
    BitOfXor(x, y, k);
  }

  lemma ShlBits(x: U64, n: nat, k: nat)
    ensures Bit(Shl(x, n), k) <==> n <= k < 64 && Bit(x, k - n)
  {
    hide Bit, Pow2;
    Pow2Values();
    BitOfMod(x * Pow2(n), 64, k);
    BitOfProduct(x, n, k);
  }

  lemma ShrUBits(x: U64, n: nat, k: nat)
    ensures Bit(ShrU(x, n), k) <==> Bit(x, k + n)
  {
    hide Bit, Pow2;
    ShrIsDivision(x, n);
    BitOfShift(x, n, k);
    QuotientBound(x, Pow2(n));
  }

  lemma QuotientBound(x: nat, d: nat)
    requires d > 0
    ensures 0 <= x / d <= x
  {
    var q := x / d;
    assert x == q * d + x % d;
    M.MulMono(1, d, q);
  }

  lemma ShrSBits(x: U64, n: nat, k: nat)
    requires n < 64
    ensures Bit(ShrS(x, n), k) <==> k < 64 && Bit(x, if k + n < 64 then k + n else 63)
  {
    hide Bit, Pow2, ShrS;
    if x < 0x8000_0000_0000_0000 {
      PositiveShift(x, n, k);
    } else {
      NegativeShift(x, n, k);
    }
  }

  lemma PositiveShift(x: U64, n: nat, k: nat)
    requires n < 64 && x < 0x8000_0000_0000_0000
    ensures Bit(ShrS(x, n), k) <==> k < 64 && Bit(x, if k + n < 64 then k + n else 63)
  {
    hide Bit, Pow2;
    QuotientBound(x, Pow2(n));
    ShrIsDivision(x, n);
    BitOfShift(x, n, k);
    ShiftedTop(x, n, k);
  }

  lemma NegativeShift(x: U64, n: nat, k: nat)
    requires n < 64 && x >= 0x8000_0000_0000_0000
    ensures Bit(ShrS(x, n), k) <==> k < 64 && Bit(x, if k + n < 64 then k + n else 63)
  {
    hide Bit, Pow2, M.Signed, M.Word;
    Pow2Values();
    Pow2Add(n, 64 - n);
    var p, t := Pow2(n), Pow2(64 - n);
    QuotientBelow(x, p, t);
    SignedQuotient(x, p, t);
    BitOfOnes(x / p, 64 - n, 64, k);
    ShrIsDivision(x, n);
    BitOfShift(x, n, k);
    if k >= 64 - n { HighBitsClear(x / p, 64 - n, k); }
    TopBit(x);
    BitIs(x, 63);
  }

  // No bit of a word below 2^63 is set from 63 on.
  lemma ShiftedTop(x: U64, n: nat, k: nat)
    requires x < 0x8000_0000_0000_0000
    ensures k + n >= 63 ==> !Bit(x, k + n)
    ensures !Bit(x, 63)
  {
    hide Bit, Pow2;
    assert Pow2(63) == 0x8000_0000_0000_0000 by { Pow2Values(); Pow2Add(1, 63); SmallPowers(); }
    HighBitsClear(x, 63, 63);
    if k + n >= 63 { HighBitsClear(x, 63, k + n); }
  }

  lemma TopBit(x: U64)
    ensures Pow2(63) == 0x8000_0000_0000_0000
    ensures x / 0x8000_0000_0000_0000 % 2 == 1 <==> x >= 0x8000_0000_0000_0000
  {
    Pow2Values();
    Pow2Add(1, 63);
    SmallPowers();
  }

  lemma QuotientBelow(x: nat, p: nat, t: nat)
    requires p > 0 && x < p * t
    ensures x / p < t
  {
    var q := x / p;
    assert x == q * p + x % p;
    if q >= t {
      M.MulMono(t, q, p);
      assert false;
    }
  }

  lemma SignedQuotient(x: U64, p: nat, t: nat)
    requires p > 0 && p * t == 0x1_0000_0000_0000_0000 && x >= 0x8000_0000_0000_0000 && x / p < t
    ensures M.Word(M.Signed(x) / p) == x / p + 0x1_0000_0000_0000_0000 - t
  {
    var q, r := x / p, x % p;
    assert x == q * p + r;
    var s := M.Signed(x);
    assert s == x - 0x1_0000_0000_0000_0000;
    hide M.Signed;
    assert s == (q - t) * p + r by { assert (q - t) * p == q * p - t * p; }
    M.ModUnique(s, q - t, r, p);
    M.MulMono(1, p, t);
    M.ModUnique(q - t, -1, q - t + 0x1_0000_0000_0000_0000, 0x1_0000_0000_0000_0000);
  }

  // The shifts by the low six bits of the immediate or of rs2: zeros come in on
  // the left shift and the logical right shift, copies of bit 63 on the
  // arithmetic one.
  predicate ShiftsLeft(op: Op) { op.SLLI? || op == Other(SLL) }
  predicate ShiftsRight(op: Op) { op.SRLI? || op == Other(SRL) }
  predicate ShiftsSigned(op: Op) { op.SRAI? || op == Other(SRA) }

  lemma ShiftGives(d: Insn, r: Regs, pc: U64, step: nat, k: nat)
    requires ShiftsLeft(d.op) || ShiftsRight(d.op) || ShiftsSigned(d.op)
    requires d.o.rd != 0 && k < 64
    ensures var e, x := Execute32(d, r, pc, step), X(r, d.o.rs1);
      var n := if d.op.Other? then X(r, d.o.rs2) % 64 else d.o.imm % 64;
      && e.SetReg? && e.rd == d.o.rd
      && (Bit(e.v, k) <==>
           if ShiftsLeft(d.op) then k >= n && Bit(x, k - n)
           else if k + n < 64 then Bit(x, k + n)
           else ShiftsSigned(d.op) && Bit(x, 63))
  {
    hide Bit, Shl, ShrU, ShrS, Pow2;
    var x: U64, n := X(r, d.o.rs1), if d.op.Other? then X(r, d.o.rs2) % 64 else d.o.imm % 64;
    SixBits(d.o.imm);
    ShlBits(x, n, k);
    ShrUBits(x, n, k);
    ShrSBits(x, n, k);
    Pow2Values();
    if k + n >= 64 { HighBitsClear(x, 64, k + n); }
  }

  lemma SixBits(imm: int)
    ensures M.Word(imm) % 64 == imm % 64
  {
  }

  // lui: bits 31 to 12 of the immediate, sign-extended
  lemma LuiGives(d: Insn, r: Regs, pc: U64, step: nat)
    requires d.op.LUI? && d.o.rd != 0
    ensures var e := Execute32(d, r, pc, step);
      && e.SetReg? && e.rd == d.o.rd && Sign32(e.v)
      && e.v % 0x1_0000_0000 == d.o.imm % 0x1_0000_0000 / 0x1000 * 0x1000
  {
    hide M.Sext32;
    UpperBits(d.o.imm);
    SextGives(M.Word(d.o.imm) / 0x1000 % 0x10_0000 * 0x1000);
  }

  lemma UpperBits(imm: int)
    ensures M.Word(imm) / 0x1000 % 0x10_0000 * 0x1000 == imm % 0x1_0000_0000 / 0x1000 * 0x1000
  {
    LowOfWord(imm);
    var w := M.Word(imm);
    assert w % 0x1_0000_0000 == imm % 0x1_0000_0000;
    hide M.Word;
    ModSplit(w, 0x1000, 0x10_0000, 0x1_0000_0000);
    DivUnique(w % 0x1_0000_0000, 0x1000, w / 0x1000 % 0x10_0000, w % 0x1000);
  }

  lemma SextGives(x: U32)
    ensures M.Sext32(x) % 0x1_0000_0000 == x && Sign32(M.Sext32(x))
  {
    var v := M.Sext32(x);
    if x < 0x8000_0000 {
      assert v == x;
    } else {
      assert v == x + 0xFFFF_FFFF_0000_0000;
      hide M.Sext32;
      DivUnique(v, 0x1_0000_0000, 0xFFFF_FFFF, x);
      DivUnique(v, 0x8000_0000, 0x1_FFFF_FFFF, x - 0x8000_0000);
    }
  }

  // ----- Control ---------------------------------------------------------------------------------

  // The condition of each branch, on unsigned or signed operands
  predicate Taken(op: Op, a: int, b: int) {
    match op
    case BEQ => a == b
    case BNE => a != b
    case BLT => Signed64(a) < Signed64(b)
    case BGE => Signed64(a) >= Signed64(b)
    case BLTU => a < b
    case _ => a >= b
  }

  lemma BranchGives(d: Insn, r: Regs, pc: U64, step: nat)
    requires InB(d.op)
    ensures Execute32(d, r, pc, step) ==
      if Taken(d.op, X(r, d.o.rs1), X(r, d.o.rs2)) then Goto((pc + d.o.imm) % 0x1_0000_0000_0000_0000) else Keep
  {
  }

  // Jumps link the address of the next instruction, unless to register 0; jalr
  // drops the low bit of its target.
  lemma JumpGives(d: Insn, r: Regs, pc: U64, step: nat)
    requires d.op.JAL? || d.op.JALR?
    ensures var link := (pc + step) % 0x1_0000_0000_0000_0000;
      var sum := (X(r, d.o.rs1) + d.o.imm) % 0x1_0000_0000_0000_0000;
      var target := if d.op.JAL? then (pc + d.o.imm) % 0x1_0000_0000_0000_0000 else sum - sum % 2;
      Execute32(d, r, pc, step) == if d.o.rd == 0 then Goto(target) else GotoLink(target, d.o.rd, link)
  {
  }

  // ----- Accesses --------------------------------------------------------------------------------

  // Loads and stores go to rs1 plus the immediate; stores take the low bytes of
  // rs2, or the whole floating-point register.
  lemma AccessGives(d: Insn, r: Regs, pc: U64, step: nat)
    ensures var e, at := Execute32(d, r, pc, step), (X(r, d.o.rs1) + d.o.imm) % 0x1_0000_0000_0000_0000;
      && (d.op.LW? ==> e == LoadReg(d.o.rd, at, 4)) && (d.op.LD? ==> e == LoadReg(d.o.rd, at, 8))
      && (d.op.SW? ==> e == StoreReg(at, 4, X(r, d.o.rs2) % 0x1_0000_0000))
      && (d.op.SD? ==> e == StoreReg(at, 8, X(r, d.o.rs2)))
      && (d.op.FLD? ==> e == LoadFp(d.o.rd, at, true)) && (d.op.FSD? ==> e == StoreFp(at, d.o.rs2))
      && (d.op.EBREAK? ==> e == Breakpoint) && (d.op.INV? ==> e == Illegal)
  {
    hide AndU, OrU, XorU, Half, Shl, ShrU, ShrS, Minus;
  }

  // PERFORMED: the destination is written and pc steps or jumps; nothing else
  // changes.
  lemma PerformGives(e: Effect, m: Machine, r: Sv39.Regs, insn: nat, step: nat)
    ensures var o, next := Perform(e, m, r, insn, step), (m.pc + step) % 0x1_0000_0000_0000_0000;
      && (e.Keep? ==> o == Next(m.(pc := next)))
      && (e.SetReg? && e.rd != 0 ==> o == Next(m.(regs := m.regs[e.rd := e.v], pc := next)))
      && (e.Goto? ==> o == Next(m.(pc := e.target)))
      && (e.GotoLink? && e.rd != 0 ==> o == Next(m.(regs := m.regs[e.rd := e.link], pc := e.target)))
      && (e.Breakpoint? ==> o == Trapped(Trap(m.pc, Cause(false, 3), m.pc), m))
      && (e.Illegal? ==> o == Trapped(Trap(m.pc, Cause(false, 2), insn), m))
  {
    hide Read, Accesses.Write;
  }

  // The register after a load of n bytes of value x
  predicate Landed(v: int, x: nat, n: Width) {
    if n == 8 then v == x % 0x1_0000_0000_0000_0000 else v % 0x1_0000_0000 == x % 0x1_0000_0000 && Sign32(v)
  }

  // A load writes what memory holds, sign-extended from bit 31 when it is 4 bytes
  // wide; a trap leaves the registers alone.
  lemma LoadGives(m: Machine, r: Sv39.Regs, rd: Reg, addr: U64, n: Width, insn: nat, step: nat)
    ensures var o, l := Perform(LoadReg(rd, addr, n), m, r, insn, step), Read(m.mem, r, m.pc, addr, n, Sv39.Load);
      && (l.result.Raise? ==> o == Trapped(l.result.trap, m.(mem := l.mem)))
      && (l.result.Ok? ==>
           && o.Next? && o.m == m.(regs := o.m.regs, pc := (m.pc + step) % 0x1_0000_0000_0000_0000, mem := l.mem)
           && (rd == 0 ==> o.m.regs == m.regs)
           && (rd != 0 ==> o.m.regs == m.regs[rd := o.m.regs[rd]] && Landed(o.m.regs[rd], l.result.value, n)))
  {
    hide Read, M.Sext32;
    var l := Read(m.mem, r, m.pc, addr, n, Sv39.Load);
    if l.result.Ok? { SextGives(l.result.value % 0x1_0000_0000); }
  }

  // A store changes memory and pc; the floating-point accesses trap with FS 0,
  // move the whole register, and a load makes FS 3 when it marks it.
  lemma StoreGives(m: Machine, r: Sv39.Regs, addr: U64, n: Width, v: U64, insn: nat, step: nat)
    ensures var o, s := Perform(StoreReg(addr, n, v), m, r, insn, step), Accesses.Write(m.mem, r, m.pc, addr, n, v);
      o == if s.result.Raise? then Trapped(s.result.trap, m.(mem := s.mem))
           else Next(m.(pc := (m.pc + step) % 0x1_0000_0000_0000_0000, mem := s.mem))
  {
    hide Accesses.Write;
  }

  lemma FpGives(m: Machine, r: Sv39.Regs, f: Reg, addr: U64, dirties: bool, insn: nat, step: nat)
    ensures var illegal := Trapped(Trap(m.pc, Cause(false, 2), insn), m);
      var next := (m.pc + step) % 0x1_0000_0000_0000_0000;
      var l, s := Read(m.mem, r, m.pc, addr, 8, Sv39.Load), Accesses.Write(m.mem, r, m.pc, addr, 8, m.fprs[f]);
      && Perform(LoadFp(f, addr, dirties), m, r, insn, step) ==
           (if m.fs == 0 then illegal
            else if l.result.Raise? then Trapped(l.result.trap, m.(mem := l.mem))
            else Next(m.(fprs := m.fprs[f := l.result.value % 0x1_0000_0000_0000_0000],
                         fs := if dirties then 3 else m.fs, pc := next, mem := l.mem)))
      && Perform(StoreFp(addr, f), m, r, insn, step) ==
           (if m.fs == 0 then illegal
            else if s.result.Raise? then Trapped(s.result.trap, m.(mem := s.mem))
            else Next(m.(pc := next, mem := s.mem)))
  {
    hide Read, Accesses.Write;
  }

  // The signed reading of words and halves that multiplication and division use
  lemma SignedReads(x: U64)
    ensures M.Signed(x) == Signed64(x)
    ensures M.Signed32(x % 0x1_0000_0000) ==
      var l := x % 0x1_0000_0000; if l < 0x8000_0000 then l else l - 0x1_0000_0000
  {
  }
}
