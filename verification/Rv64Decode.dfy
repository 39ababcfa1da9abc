/**
 Operands of 32-bit instructions, and the encodings of the ISA manual that
 decoding inverts.
 */
module Rv64Decode {
  import opened Bits
  import opened Wrappers
  import opened RvcDecode
  import opened Rv64Table
  import opened Rv64Map

  // decode_operand_32; the immediate of a type without one is 0 here.
  function Imm32(t: Type, w: U32): int {
    match t
    case TI => Sext(w / 0x10_0000, 0x800)
    case TU => Sext(w / 0x1000, 0x8_0000) * 0x1000
    case TS => Sext(w / 0x200_0000, 0x40) * 32 + w / 128 % 32
    case TJ => Sext(w / 0x8000_0000 * 0x10_0000 + w / 0x1000 % 256 * 0x1000
                    + w / 0x10_0000 % 2 * 0x800 + w / 0x20_0000 % 1024 * 2, 0x10_0000)
    case TB => Sext(w / 0x8000_0000 * 0x1000 + w / 128 % 2 * 0x800
                    + w / 0x200_0000 % 64 * 32 + w / 256 % 16 * 2, 0x1000)
    case TR | TR4 | TN => 0
  }

  datatype Insn = Insn(op: Op, o: Operands)

  function Decode32(w: U32): Insn {
    var op := OpOf(w);
    Insn(op, Operands(w / 128 % 32, w / 0x8000 % 32, w / 0x10_0000 % 32, Imm32(TypeOf(op), w)))
  }

  // ----- Encoding ---------------------------------------------------------------------------------

  // An assembly instruction; a shift has its amount in imm.
  datatype Asm = Asm(op: Op, rd: Reg, rs1: Reg, rs2: Reg, imm: int)

  // Chapter 24 of the Unprivileged ISA: what an encoding fixes of format, opcode,
  // funct3 and funct7. The integer instructions, the CSR instructions, and all
  // loads and stores but the atomics.
  datatype Code = Code(t: Type, opcode: nat, f3: nat, f7: nat)

  // A shift has its amount in imm; bit 10 marks the arithmetic ones.
  predicate Shift64(op: Op) { op.SLLI? || op.SRLI? || op.SRAI? }
  predicate Shift32(op: Op) { op == Other(SLLIW) || op == Other(SRLIW) || op == Other(SRAIW) }
  predicate Arithmetic(op: Op) { op.SRAI? || op == Other(SRAIW) }

  predicate IsPrivileged(op: Op) { op.EBREAK? || op.ECALL? || op.MRET? || op.SRET? || op == Other(WFI) }

  // Register-register, by word size. The contract of each group says that the map
  // undoes it.
  function RegisterCode(op: Op): (r: Option<Code>)
    ensures r.Some? ==> var c := r.value;
      c.t == TypeOf(op) == TR && c.opcode == OP && c.f3 < 8 && c.f7 < 128 && op == RegMap(c.f3, c.f7)
  {
    match op
    case ADD => Some(Code(TR, OP, 0, 0))
    case SUB => Some(Code(TR, OP, 0, 0x20))
    case XOR_ => Some(Code(TR, OP, 4, 0))
    case OR_ => Some(Code(TR, OP, 6, 0))
    case AND_ => Some(Code(TR, OP, 7, 0))
    case _ => None
  }

  function ShiftCode(op: Op): (r: Option<Code>)
    ensures r.Some? ==> var c := r.value;
      c.t == TypeOf(op) == TR && c.opcode == OP && c.f3 < 8 && c.f7 < 128 && op == RegMap(c.f3, c.f7)
  {
    match op
    case Other(SLL) => Some(Code(TR, OP, 1, 0))
    case Other(SLT) => Some(Code(TR, OP, 2, 0))
    case Other(SLTU) => Some(Code(TR, OP, 3, 0))
    case Other(SRL) => Some(Code(TR, OP, 5, 0))
    case Other(SRA) => Some(Code(TR, OP, 5, 0x20))
    case _ => None
  }

  function MultiplyCode(op: Op): (r: Option<Code>)
    ensures r.Some? ==> var c := r.value;
      c.t == TypeOf(op) == TR && c.opcode == OP && c.f3 < 8 && c.f7 < 128 && op == RegMap(c.f3, c.f7)
  {
    match op
    case Other(MUL) => Some(Code(TR, OP, 0, 1))
    case Other(MULH) => Some(Code(TR, OP, 1, 1))
    case Other(MULHSU) => Some(Code(TR, OP, 2, 1))
    case Other(MULHU) => Some(Code(TR, OP, 3, 1))
    case Other(DIV) => Some(Code(TR, OP, 4, 1))
    case Other(DIVU) => Some(Code(TR, OP, 5, 1))
    case Other(REM) => Some(Code(TR, OP, 6, 1))
    case Other(REMU) => Some(Code(TR, OP, 7, 1))
    case _ => None
  }

  function RegisterCode32(op: Op): (r: Option<Code>)
    ensures r.Some? ==> var c := r.value;
      c.t == TypeOf(op) == TR && c.opcode == OP_32 && c.f3 < 8 && c.f7 < 128 && op == Reg32Map(c.f3, c.f7)
  {
    match op
    case ADDW => Some(Code(TR, OP_32, 0, 0))
    case SUBW => Some(Code(TR, OP_32, 0, 0x20))
    case Other(SLLW) => Some(Code(TR, OP_32, 1, 0))
    case Other(SRLW) => Some(Code(TR, OP_32, 5, 0))
    case Other(SRAW) => Some(Code(TR, OP_32, 5, 0x20))
    case _ => None
  }

  function MultiplyCode32(op: Op): (r: Option<Code>)
    ensures r.Some? ==> var c := r.value;
      c.t == TypeOf(op) == TR && c.opcode == OP_32 && c.f3 < 8 && c.f7 < 128 && op == Reg32Map(c.f3, c.f7)
  {
    match op
    case Other(MULW) => Some(Code(TR, OP_32, 0, 1))
    case Other(DIVW) => Some(Code(TR, OP_32, 4, 1))
    case Other(DIVUW) => Some(Code(TR, OP_32, 5, 1))
    case Other(REMW) => Some(Code(TR, OP_32, 6, 1))
    case Other(REMUW) => Some(Code(TR, OP_32, 7, 1))
    case _ => None
  }

  // Register-immediate
  function ImmediateCode(op: Op): (r: Option<Code>)
    ensures r.Some? ==> var c := r.value;
      c.t == TypeOf(op) == TI && c.opcode == OP_IMM && c.f3 < 8 && op == ImmMap(c.f3, c.f7 / 2)
      && c.f7 == (if Arithmetic(op) then 0x20 else 0) && (c.f3 == 1 || c.f3 == 5 ==> Shift64(op))
  {
    match op
    case ADDI => Some(Code(TI, OP_IMM, 0, 0))
    case SLLI => Some(Code(TI, OP_IMM, 1, 0))
    case Other(SLTI) => Some(Code(TI, OP_IMM, 2, 0))
    case Other(SLTIU) => Some(Code(TI, OP_IMM, 3, 0))
    case Other(XORI) => Some(Code(TI, OP_IMM, 4, 0))
    case SRLI => Some(Code(TI, OP_IMM, 5, 0))
    case SRAI => Some(Code(TI, OP_IMM, 5, 0x20))
    case Other(ORI) => Some(Code(TI, OP_IMM, 6, 0))
    case ANDI => Some(Code(TI, OP_IMM, 7, 0))
    case _ => None
  }

  function ImmediateCode32(op: Op): (r: Option<Code>)
    ensures r.Some? ==> var c := r.value;
      c.t == TypeOf(op) == TI && c.opcode == OP_IMM_32 && c.f3 < 8 && op == Imm32Map(c.f3, c.f7)
      && c.f7 == (if Arithmetic(op) then 0x20 else 0) && (c.f3 == 1 || c.f3 == 5 ==> Shift32(op))
  {
    match op
    case ADDIW => Some(Code(TI, OP_IMM_32, 0, 0))
    case Other(SLLIW) => Some(Code(TI, OP_IMM_32, 1, 0))
    case Other(SRLIW) => Some(Code(TI, OP_IMM_32, 5, 0))
    case Other(SRAIW) => Some(Code(TI, OP_IMM_32, 5, 0x20))
    case _ => None
  }

  // Loads and stores
  function LoadCode(op: Op): (r: Option<Code>)
    ensures r.Some? ==> var c := r.value;
      c.t == TypeOf(op) == TI && c.opcode == LOAD && c.f3 < 8 && c.f7 == 0 && op == LoadMap(c.f3)
  {
    match op
    case Other(LB) => Some(Code(TI, LOAD, 0, 0))
    case Other(LH) => Some(Code(TI, LOAD, 1, 0))
    case LW => Some(Code(TI, LOAD, 2, 0))
    case LD => Some(Code(TI, LOAD, 3, 0))
    case Other(LBU) => Some(Code(TI, LOAD, 4, 0))
    case Other(LHU) => Some(Code(TI, LOAD, 5, 0))
    case Other(LWU) => Some(Code(TI, LOAD, 6, 0))
    case _ => None
  }

  function StoreCode(op: Op): (r: Option<Code>)
    ensures r.Some? ==> var c := r.value;
      c.t == TypeOf(op) == TS && c.opcode == STORE && c.f3 < 8 && c.f7 == 0 && op == StoreMap(c.f3)
  {
    match op
    case Other(SB) => Some(Code(TS, STORE, 0, 0))
    case Other(SH) => Some(Code(TS, STORE, 1, 0))
    case SW => Some(Code(TS, STORE, 2, 0))
    case SD => Some(Code(TS, STORE, 3, 0))
    case _ => None
  }

  // Branches
  function BranchCode(op: Op): (r: Option<Code>)
    ensures r.Some? ==> var c := r.value;
      c.t == TypeOf(op) == TB && c.opcode == BRANCH && c.f3 < 8 && c.f7 == 0 && op == BranchMap(c.f3)
  {
    match op
    case BEQ => Some(Code(TB, BRANCH, 0, 0))
    case BNE => Some(Code(TB, BRANCH, 1, 0))
    case BLT => Some(Code(TB, BRANCH, 4, 0))
    case BGE => Some(Code(TB, BRANCH, 5, 0))
    case BLTU => Some(Code(TB, BRANCH, 6, 0))
    case BGEU => Some(Code(TB, BRANCH, 7, 0))
    case _ => None
  }

  function FloatLoadCode(op: Op): (r: Option<Code>)
    ensures r.Some? ==> var c := r.value;
      c.t == TypeOf(op) == TI && c.opcode == LOAD_FP && c.f3 < 8 && c.f7 == 0 && op == FloatMap(LOAD_FP, c.f3)
  {
    match op
    case Other(FLW) => Some(Code(TI, LOAD_FP, 2, 0))
    case FLD => Some(Code(TI, LOAD_FP, 3, 0))
    case _ => None
  }

  function FloatStoreCode(op: Op): (r: Option<Code>)
    ensures r.Some? ==> var c := r.value;
      c.t == TypeOf(op) == TS && c.opcode == STORE_FP && c.f3 < 8 && c.f7 == 0 && op == FloatMap(STORE_FP, c.f3)
  {
    match op
    case Other(FSW) => Some(Code(TS, STORE_FP, 2, 0))
    case FSD => Some(Code(TS, STORE_FP, 3, 0))
    case _ => None
  }

  // Fences and jalr
  function FenceCode(op: Op): (r: Option<Code>)
    ensures r.Some? ==> var c := r.value;
      c.t == TypeOf(op) == TI && c.f3 < 8 && c.f7 == 0 && op == FenceMap(c.opcode, c.f3)
      && (c.opcode == MISC_MEM || c.opcode == JALR_OP)
  {
    match op
    case Other(FENCE) => Some(Code(TI, MISC_MEM, 0, 0))
    case Other(FENCE_I) => Some(Code(TI, MISC_MEM, 1, 0))
    case JALR => Some(Code(TI, JALR_OP, 0, 0))
    case _ => None
  }

  // jal and the upper immediates
  function UpperCode(op: Op): (r: Option<Code>)
    ensures r.Some? ==> var c := r.value;
      c.t == TypeOf(op) && (c.t == TU || c.t == TJ) && c.f3 == c.f7 == 0 && op == UpperMap(c.opcode)
      && (c.opcode == JAL_OP || c.opcode == LUI_OP || c.opcode == AUIPC_OP)
  {
    match op
    case JAL => Some(Code(TJ, JAL_OP, 0, 0))
    case LUI => Some(Code(TU, LUI_OP, 0, 0))
    case Other(AUIPC) => Some(Code(TU, AUIPC_OP, 0, 0))
    case _ => None
  }

  // CSR and privileged instructions
  function SystemCode(op: Op): (r: Option<Code>)
    ensures r.Some? ==> var c := r.value;
      c.opcode == SYSTEM && c.f3 < 8 && c.f7 == 0 && c.t == TypeOf(op) && (c.t == TI || c.t == TN)
      && (c.t == TI ==> c.f3 != 0 && op == CsrMap(c.f3)) && (c.t == TN ==> IsPrivileged(op))
  {
    match op
    case Other(CSRRW) => Some(Code(TI, SYSTEM, 1, 0))
    case Other(CSRRS) => Some(Code(TI, SYSTEM, 2, 0))
    case Other(CSRRC) => Some(Code(TI, SYSTEM, 3, 0))
    case Other(CSRRWI) => Some(Code(TI, SYSTEM, 5, 0))
    case Other(CSRRSI) => Some(Code(TI, SYSTEM, 6, 0))
    case Other(CSRRCI) => Some(Code(TI, SYSTEM, 7, 0))
    case EBREAK => Some(Code(TN, SYSTEM, 0, 0))
    case ECALL => Some(Code(TN, SYSTEM, 0, 0))
    case MRET => Some(Code(TN, SYSTEM, 0, 0))
    case SRET => Some(Code(TN, SYSTEM, 0, 0))
    case Other(WFI) => Some(Code(TN, SYSTEM, 0, 0))
    case _ => None
  }

  function FirstCode(a: Option<Code>, b: Option<Code>): Option<Code> { if a.Some? then a else b }

  // The type of the operation, and fields that fit
  predicate Proper(op: Op, r: Option<Code>) {
    r.Some? ==> r.value.t == TypeOf(op) && r.value.opcode < 128 && r.value.f3 < 8 && r.value.f7 < 128
  }

  function ArithmeticCode(op: Op): (r: Option<Code>)
    ensures Proper(op, r)
  {
    hide RegisterCode, ShiftCode, RegisterCode32, ImmediateCode, ImmediateCode32, MultiplyCode, MultiplyCode32;
    hide TypeOf, RegMap, Reg32Map, ImmMap, Imm32Map, Arithmetic, Shift64, Shift32;
    FirstCode(RegisterCode(op), FirstCode(ShiftCode(op), FirstCode(MultiplyCode(op), FirstCode(RegisterCode32(op),
      FirstCode(MultiplyCode32(op), FirstCode(ImmediateCode(op), ImmediateCode32(op)))))))
  }

  function MemoryCode(op: Op): (r: Option<Code>)
    ensures Proper(op, r)
  {
    hide LoadCode, StoreCode, FloatLoadCode, FloatStoreCode, FenceCode, TypeOf, LoadMap, StoreMap, FloatMap, FenceMap;
    FirstCode(LoadCode(op), FirstCode(StoreCode(op), FirstCode(FloatLoadCode(op), FirstCode(FloatStoreCode(op),
      FenceCode(op)))))
  }

  function CodeOf(op: Op): (r: Option<Code>)
    ensures r.Some? ==> r.value.t == TypeOf(op) && r.value.opcode < 128 && r.value.f3 < 8 && r.value.f7 < 128
  {
    hide ArithmeticCode, MemoryCode, BranchCode, UpperCode, SystemCode, TypeOf, BranchMap, UpperMap, CsrMap;
    FirstCode(ArithmeticCode(op), FirstCode(MemoryCode(op), FirstCode(BranchCode(op), FirstCode(UpperCode(op),
      SystemCode(op)))))
  }

  // The immediates each encoding can hold.
  predicate CanEncode(a: Asm) {
    var c := CodeOf(a.op);
    c.Some? && Holds(c.value.t, a.op, a.imm)
  }

  predicate Holds(t: Type, op: Op, imm: int) {
    match t
    case TI =>
      if Shift64(op) then 0 <= imm < 64 else if Shift32(op) then 0 <= imm < 32 else -0x800 <= imm < 0x800
    case TS => -0x800 <= imm < 0x800
    case TB => -0x1000 <= imm < 0x1000 && imm % 2 == 0
    case TU => -0x8000_0000 <= imm < 0x8000_0000 && imm % 0x1000 == 0
    case TJ => -0x10_0000 <= imm < 0x10_0000 && imm % 2 == 0
    case TR | TR4 | TN => true
  }

  // Cutting a field in two.
  lemma ModSplit(y: nat, a: nat, b: nat, p: nat)
    requires a > 0 && b > 0 && p == a * b
    ensures p > 0
    ensures y / p == y / a / b && y % p == y / a % b * a + y % a
    ensures y % p / a == y / a % b && y % p % a == y % a
  {
    var q, r := y / a, y % a;
    var s, t := q / b, q % b;
    Euclid(y, a);
    Euclid(q, b);
    Assemble(q, a, b, s, t, r);
    Cuts(y, a, b, p, s, t, r);
  }

  lemma Euclid(y: nat, d: nat)
    requires d > 0
    ensures y == y / d * d + y % d && 0 <= y % d < d && 0 <= y / d
  {
  }

  lemma Assemble(q: nat, a: nat, b: nat, s: nat, t: nat, r: nat)
    requires q == s * b + t
    ensures q * a + r == s * (a * b) + (t * a + r)
  {
    MulRegroup(s, a, b, t);
  }

  lemma Cuts(y: nat, a: nat, b: nat, p: nat, s: nat, t: nat, r: nat)
    requires a > 0 && b > 0 && p == a * b && y == s * p + (t * a + r) && t < b && r < a
    ensures p > 0 && y / p == s && y % p == t * a + r && (t * a + r) / a == t && (t * a + r) % a == r
  {
    MulGap(t, b, a);
    assert b * a == p;
    DivUnique(y, p, s, t * a + r);
    DivUnique(t * a + r, a, t, r);
  }

  lemma SplitPair(q: nat, r: nat, d: nat)
    requires r < d
    ensures (q * d + r) / d == q && (q * d + r) % d == r
  {
    DivUnique(q * d + r, d, q, r);
  }

  // The six fields every format is cut into.
  function Word(f7: nat, rs2: nat, rs1: nat, f3: nat, rd: nat, op: nat): (w: U32)
    requires f7 < 128 && rs2 < 32 && rs1 < 32 && f3 < 8 && rd < 32 && op < 128
    ensures w % 128 == op && w / 128 % 32 == rd && w / 0x1000 % 8 == f3
    ensures w / 0x8000 % 32 == rs1 && w / 0x10_0000 % 32 == rs2 && w / 0x200_0000 == f7
  {
    var a := f7 * 32 + rs2;
    var b := a * 32 + rs1;
    var c := b * 8 + f3;
    var d := c * 32 + rd;
    var w := d * 128 + op;
    WordCuts(w, a, b, c, d, f7, rs2, rs1, f3, rd, op);
    w
  }

  lemma WordCuts(w: nat, a: nat, b: nat, c: nat, d: nat, f7: nat, rs2: nat, rs1: nat, f3: nat, rd: nat, op: nat)
    requires f7 < 128 && rs2 < 32 && rs1 < 32 && f3 < 8 && rd < 32 && op < 128
    requires w == d * 128 + op && d == c * 32 + rd && c == b * 8 + f3 && b == a * 32 + rs1 && a == f7 * 32 + rs2
    ensures w < 0x1_0000_0000 && w % 128 == op && w / 128 % 32 == rd && w / 0x1000 % 8 == f3
    ensures w / 0x8000 % 32 == rs1 && w / 0x10_0000 % 32 == rs2 && w / 0x200_0000 == f7
  {
    SplitPair(d, op, 128);
    SplitPair(c, rd, 32);
    SplitPair(b, f3, 8);
    SplitPair(a, rs1, 32);
    SplitPair(f7, rs2, 32);
    ModSplit(w, 128, 32, 4096);
    ModSplit(w, 0x1000, 8, 0x8000);
    ModSplit(w, 0x8000, 32, 0x10_0000);
    ModSplit(w, 0x10_0000, 32, 0x200_0000);
  }

  // The instructions without fields: their upper twelve bits
  function PrivilegedCode(op: Op): (u: nat)
    ensures u < 0x1000
  {
    match op case ECALL => 0 case SRET => 0x102 case MRET => 0x302 case Other(WFI) => 0x105 case _ => 1
  }

  function Privileged(op: Op): U32 { Word(PrivilegedCode(op) / 32, PrivilegedCode(op) % 32, 0, 0, 0, SYSTEM) }

  // The formats of section 2.3 of the Unprivileged ISA
  function Encode(a: Asm): U32
    requires CanEncode(a)
  {
    var c := CodeOf(a.op).value;
    EncodeAs(c.t, c.opcode, c.f3, c.f7, a)
  }

  function EncodeAs(t: Type, op: nat, f3: nat, f7: nat, a: Asm): U32
    requires op < 128 && f3 < 8 && f7 < 128 && Holds(t, a.op, a.imm)
  {
    match t
    case TR => Word(f7, a.rs2, a.rs1, f3, a.rd, op)
    case TI =>
      var u := if Arithmetic(a.op) then a.imm % 0x400 + 0x400 else a.imm % 0x1000;
      Word(u / 32, u % 32, a.rs1, f3, a.rd, op)
    case TS =>
      var u := a.imm % 0x1000;
      Word(u / 32, a.rs2, a.rs1, f3, u % 32, op)
    case TB =>
      var u := a.imm % 0x2000;
      Word(u / 0x1000 * 64 + u / 32 % 64, a.rs2, a.rs1, f3, u / 2 % 16 * 2 + u / 0x800 % 2, op)
    case TU =>
      var u := a.imm % 0x1_0000_0000 / 0x1000;
      Word(u / 0x2000, u / 0x100 % 32, u / 8 % 32, u % 8, a.rd, op)
    case TJ =>
      var u := a.imm % 0x20_0000;
      Word(u / 0x10_0000 * 64 + u / 32 % 64, u / 2 % 16 * 2 + u / 0x800 % 2, u / 0x8000 % 32, u / 0x1000 % 8, a.rd, op)
    case TR4 | TN => Privileged(a.op)
  }

  // ----- Decoding inverts encoding ----------------------------------------------------------------

  // The opcode, funct3 and funct7 an encoding stores
  lemma CodeFields(t: Type, op: nat, f3: nat, f7: nat, a: Asm)
    requires op < 128 && f3 < 8 && f7 < 128 && Holds(t, a.op, a.imm)
    ensures var w := EncodeAs(t, op, f3, f7, a);
      && (t != TR4 && t != TN ==> w % 128 == op)
      && (t == TR || t == TI || t == TS || t == TB ==> F3(w) == f3)
      && (t == TR ==> F7(w) == f7)
  {
    hide Word, Holds;
  }

  lemma PrivilegedWord(f3: nat, f7: nat, a: Asm)
    requires f3 < 8 && f7 < 128
    ensures EncodeAs(TN, SYSTEM, f3, f7, a) == Privileged(a.op) && Privileged(a.op) % 128 == SYSTEM
  {
  }

  // funct6 and funct7 matter only to the shifts.
  lemma OtherImmediates(f3: nat, f6: nat, f7: nat)
    requires f3 != 1 && f3 != 5
    ensures ImmMap(f3, f6) == ImmMap(f3, 0) && Imm32Map(f3, f7) == Imm32Map(f3, 0)
  {
  }

  // Encoding is undone by the map.
  lemma MapOf(a: Asm)
    requires CanEncode(a)
    ensures OpcodeMap(Encode(a)) == a.op
  {
    hide CodeOf, Encode, OpcodeMap, Holds;
    var c := CodeOf(a.op).value;
    if c.opcode == OP_IMM || c.opcode == OP_IMM_32 {
      MapOfImmediate(a);
    } else if c.t == TN {
      MapOfPrivileged(a);
    } else {
      MapOfOther(a);
    }
  }

  lemma MapOfImmediate(a: Asm)
    requires CanEncode(a) && CodeOf(a.op).value.opcode in {OP_IMM, OP_IMM_32}
    ensures OpcodeMap(Encode(a)) == a.op
  {
    hide EncodeAs, Holds, RegisterCode, RegisterCode32, ImmediateCode, ImmediateCode32, LoadCode, StoreCode;
    hide BranchCode, ShiftCode, MultiplyCode32;
    hide FloatLoadCode, FloatStoreCode, FenceCode, MultiplyCode, UpperCode, SystemCode, RegMap, Reg32Map;
    hide ImmMap, Imm32Map, LoadMap;
    hide StoreMap, BranchMap, FloatMap, FenceMap;
    hide UpperMap, CsrMap, PrivilegedMap, Shift64, Shift32, Arithmetic, Privileged, IsPrivileged;
    var c, w := CodeOf(a.op).value, Encode(a);
    CodeFields(c.t, c.opcode, c.f3, c.f7, a);
    IFields(c.opcode, c.f3, c.f7, a);
    if c.f3 != 1 && c.f3 != 5 {
      OtherImmediates(c.f3, w / 0x400_0000, w / 0x200_0000);
      OtherImmediates(c.f3, c.f7 / 2, c.f7);
    }
  }

  lemma MapOfPrivileged(a: Asm)
    requires CanEncode(a) && CodeOf(a.op).value.t == TN
    ensures OpcodeMap(Encode(a)) == a.op
  {
    hide EncodeAs, Holds, RegisterCode, RegisterCode32, ImmediateCode, ImmediateCode32, LoadCode, StoreCode;
    hide BranchCode, ShiftCode, MultiplyCode32;
    hide FloatLoadCode, FloatStoreCode, FenceCode, MultiplyCode, UpperCode, SystemCode, RegMap, Reg32Map;
    hide ImmMap, Imm32Map, LoadMap;
    hide StoreMap, BranchMap, FloatMap, FenceMap;
    hide UpperMap, CsrMap, PrivilegedMap, Shift64, Shift32, Arithmetic, Privileged, IsPrivileged;
    var c := CodeOf(a.op).value;
    CodeFields(c.t, c.opcode, c.f3, c.f7, a);
    PrivilegedWord(c.f3, c.f7, a);
    PrivilegedTrip(a.op);
  }

  lemma MapOfOther(a: Asm)
    requires CanEncode(a) && CodeOf(a.op).value.opcode !in {OP_IMM, OP_IMM_32} && CodeOf(a.op).value.t != TN
    ensures OpcodeMap(Encode(a)) == a.op
  {
    hide EncodeAs, Holds, RegisterCode, RegisterCode32, ImmediateCode, ImmediateCode32, LoadCode, StoreCode;
    hide BranchCode, ShiftCode, MultiplyCode32;
    hide FloatLoadCode, FloatStoreCode, FenceCode, MultiplyCode, UpperCode, SystemCode, RegMap, Reg32Map;
    hide ImmMap, Imm32Map, LoadMap;
    hide StoreMap, BranchMap, FloatMap, FenceMap;
    hide UpperMap, CsrMap, PrivilegedMap, Shift64, Shift32, Arithmetic, Privileged, IsPrivileged;
    var c := CodeOf(a.op).value;
    CodeFields(c.t, c.opcode, c.f3, c.f7, a);
  }

  lemma PrivilegedTrip(op: Op)
    requires IsPrivileged(op)
    ensures Privileged(op) % 128 == SYSTEM && SystemMap(Privileged(op)) == op
  {
    hide Word, CsrMap, IsPrivileged, PrivilegedCode;
    PrivilegedCodes(op);
  }

  lemma PrivilegedCodes(op: Op)
    requires IsPrivileged(op)
    ensures var u := PrivilegedCode(op);
      op == if u == 0 then ECALL else if u == 1 then EBREAK else if u == 0x102 then SRET
        else if u == 0x105 then Other(WFI) else MRET
    ensures var u := PrivilegedCode(op); u == 0 || u == 1 || u == 0x102 || u == 0x105 || u == 0x302
  {
  }

  lemma IFields(op: nat, f3: nat, f7: nat, a: Asm)
    requires op < 128 && f3 < 8 && f7 < 128 && Holds(TI, a.op, a.imm)
    ensures var w := EncodeAs(TI, op, f3, f7, a);
      && w / 0x10_0000 == (if Arithmetic(a.op) then a.imm % 0x400 + 0x400 else a.imm % 0x1000)
      && (Shift64(a.op) ==> w / 0x400_0000 == if Arithmetic(a.op) then 0x10 else 0)
      && (Shift32(a.op) ==> w / 0x200_0000 == if Arithmetic(a.op) then 0x20 else 0)
  {
    hide Word, Holds, Shift64, Shift32, Arithmetic;
    var w := EncodeAs(TI, op, f3, f7, a);
    var u := if Arithmetic(a.op) then a.imm % 0x400 + 0x400 else a.imm % 0x1000;
    UpperTwelve(w, u);
    ShiftFields(a.op, a.imm, u);
  }

  lemma UpperTwelve(w: U32, u: nat)
    requires u < 0x1000 && w / 0x200_0000 == u / 32 && w / 0x10_0000 % 32 == u % 32
    ensures w / 0x10_0000 == u && w / 0x400_0000 == u / 64
  {
    ModSplit(w, 0x10_0000, 32, 0x200_0000);
    ModSplit(w, 0x10_0000, 64, 0x400_0000);
  }

  lemma ShiftFields(op: Op, imm: int, u: nat)
    requires Holds(TI, op, imm) && u == if Arithmetic(op) then imm % 0x400 + 0x400 else imm % 0x1000
    ensures Shift64(op) ==> u / 64 == if Arithmetic(op) then 0x10 else 0
    ensures Shift32(op) ==> u / 32 == if Arithmetic(op) then 0x20 else 0
  {
  }

  lemma ImmI(op: nat, f3: nat, f7: nat, a: Asm)
    requires op < 128 && f3 < 8 && f7 < 128 && Holds(TI, a.op, a.imm)
    ensures Imm32(TI, EncodeAs(TI, op, f3, f7, a)) == if Arithmetic(a.op) then a.imm + 0x400 else a.imm
  {
    hide EncodeAs;
    IFields(op, f3, f7, a);
    SextMod12(a.imm);
  }

  lemma SextMod12(imm: int)
    requires -0x800 <= imm < 0x800
    ensures Sext(imm % 0x1000, 0x800) == imm && (0 <= imm < 64 ==> Sext(imm + 0x400, 0x800) == imm + 0x400)
  {
  }

  lemma ImmS(op: nat, f3: nat, f7: nat, a: Asm)
    requires op < 128 && f3 < 8 && f7 < 128 && Holds(TS, a.op, a.imm)
    ensures Imm32(TS, EncodeAs(TS, op, f3, f7, a)) == a.imm
  {
    hide Word;
  }

  // The fields of the formats whose immediate is scattered.
  lemma EncodedB(op: nat, f3: nat, f7: nat, a: Asm)
    requires op < 128 && f3 < 8 && f7 < 128 && Holds(TB, a.op, a.imm)
    ensures var w, u := EncodeAs(TB, op, f3, f7, a), a.imm % 0x2000;
      && w / 0x200_0000 == u / 0x1000 * 64 + u / 32 % 64 && w / 128 % 32 == u / 2 % 16 * 2 + u / 0x800 % 2
      && -0x1000 <= a.imm < 0x1000 && a.imm % 2 == 0
  {
    hide Word;
  }

  lemma EncodedJ(op: nat, f3: nat, f7: nat, a: Asm)
    requires op < 128 && f3 < 8 && f7 < 128 && Holds(TJ, a.op, a.imm)
    ensures var w, u := EncodeAs(TJ, op, f3, f7, a), a.imm % 0x20_0000;
      && w / 0x200_0000 == u / 0x10_0000 * 64 + u / 32 % 64
      && w / 0x10_0000 % 32 == u / 2 % 16 * 2 + u / 0x800 % 2
      && w / 0x8000 % 32 == u / 0x8000 % 32 && w / 0x1000 % 8 == u / 0x1000 % 8
      && -0x10_0000 <= a.imm < 0x10_0000 && a.imm % 2 == 0
  {
    hide Word;
  }

  lemma EncodedU(op: nat, f3: nat, f7: nat, a: Asm)
    requires op < 128 && f3 < 8 && f7 < 128 && Holds(TU, a.op, a.imm)
    ensures var w, u := EncodeAs(TU, op, f3, f7, a), a.imm % 0x1_0000_0000 / 0x1000;
      && w / 0x200_0000 == u / 0x2000 && w / 0x10_0000 % 32 == u / 0x100 % 32
      && w / 0x8000 % 32 == u / 8 % 32 && w / 0x1000 % 8 == u % 8
      && -0x8000_0000 <= a.imm < 0x8000_0000 && a.imm % 0x1000 == 0
  {
    hide Word;
  }

  lemma ImmU(op: nat, f3: nat, f7: nat, a: Asm)
    requires op < 128 && f3 < 8 && f7 < 128 && Holds(TU, a.op, a.imm)
    ensures Imm32(TU, EncodeAs(TU, op, f3, f7, a)) == a.imm
  {
    hide EncodeAs, Holds;
    EncodedU(op, f3, f7, a);
    TopTwenty(EncodeAs(TU, op, f3, f7, a));
    UpperBits(a.imm % 0x1_0000_0000 / 0x1000);
    SignedTop(a.imm);
  }

  lemma SignedTop(imm: int)
    requires -0x8000_0000 <= imm < 0x8000_0000 && imm % 0x1000 == 0
    ensures Sext(imm % 0x1_0000_0000 / 0x1000, 0x8_0000) * 0x1000 == imm
  {
  }

  lemma UpperBits(u: nat)
    ensures u == u / 0x2000 * 0x2000 + u / 0x100 % 32 * 0x100 + u / 8 % 32 * 8 + u % 8
  {
    ModSplit(u, 8, 32, 256);
    ModSplit(u, 0x100, 32, 8192);
  }

  lemma TopTwenty(w: U32)
    ensures w / 0x1000 == w / 0x200_0000 * 0x2000 + w / 0x10_0000 % 32 * 0x100 + w / 0x8000 % 32 * 8 + w / 0x1000 % 8
  {
    UpperBits(w / 0x1000);
    ModSplit(w, 0x1000, 8, 0x8000);
    ModSplit(w, 0x1000, 0x100, 0x10_0000);
    ModSplit(w, 0x1000, 0x2000, 0x200_0000);
  }

  lemma ImmB(op: nat, f3: nat, f7: nat, a: Asm)
    requires op < 128 && f3 < 8 && f7 < 128 && Holds(TB, a.op, a.imm)
    ensures Imm32(TB, EncodeAs(TB, op, f3, f7, a)) == a.imm
  {
    hide EncodeAs, Holds, Imm32, Sext;
    EncodedB(op, f3, f7, a);
    EvenMod13(a.imm);
    BranchImm(EncodeAs(TB, op, f3, f7, a), a.imm % 0x2000);
    SextMod13(a.imm);
  }

  lemma EvenMod13(imm: int)
    requires imm % 2 == 0
    ensures imm % 0x2000 % 2 == 0
  {
    assert imm == imm / 0x2000 * 0x2000 + imm % 0x2000;
  }

  lemma EvenMod21(imm: int)
    requires imm % 2 == 0
    ensures imm % 0x20_0000 % 2 == 0
  {
    assert imm == imm / 0x20_0000 * 0x20_0000 + imm % 0x20_0000;
  }

  lemma SextMod13(imm: int)
    requires -0x1000 <= imm < 0x1000
    ensures Sext(imm % 0x2000, 0x1000) == imm
  {
  }

  lemma SextMod21(imm: int)
    requires -0x10_0000 <= imm < 0x10_0000
    ensures Sext(imm % 0x20_0000, 0x10_0000) == imm
  {
  }

  lemma BranchImm(w: U32, u: nat)
    requires u < 0x2000 && u % 2 == 0
    requires w / 0x200_0000 == u / 0x1000 * 64 + u / 32 % 64 && w / 128 % 32 == u / 2 % 16 * 2 + u / 0x800 % 2
    ensures Imm32(TB, w) == Sext(u, 0x1000)
  {
    BranchFields(w);
    SplitPair(u / 0x1000, u / 32 % 64, 64);
    SplitPair(u / 2 % 16, u / 0x800 % 2, 2);
    BranchBits(u);
    hide Sext;
    BranchJoin(w / 0x8000_0000, w / 128 % 2, w / 0x200_0000 % 64, w / 256 % 16, u);
  }

  lemma BranchJoin(a: nat, b: nat, c: nat, d: nat, u: nat)
    requires u == u / 0x1000 * 0x1000 + u / 0x800 % 2 * 0x800 + u / 32 % 64 * 32 + u / 2 % 16 * 2
    requires a == u / 0x1000 && b == u / 0x800 % 2 && c == u / 32 % 64 && d == u / 2 % 16
    ensures a * 0x1000 + b * 0x800 + c * 32 + d * 2 == u
  {
  }

  lemma BranchFields(w: U32)
    ensures w / 0x8000_0000 == w / 0x200_0000 / 64
    ensures w / 128 % 2 == w / 128 % 32 % 2 && w / 256 % 16 == w / 128 % 32 / 2
  {
    ModSplit(w, 0x200_0000, 64, 0x8000_0000);
    ModSplit(w / 128, 2, 16, 32);
    ModSplit(w, 128, 2, 256);
  }

  lemma BranchBits(u: nat)
    requires u < 0x2000 && u % 2 == 0
    ensures u / 0x1000 * 0x1000 + u / 0x800 % 2 * 0x800 + u / 32 % 64 * 32 + u / 2 % 16 * 2 == u
  {
    ModSplit(u, 2, 16, 32);
    ModSplit(u, 32, 64, 2048);
    ModSplit(u, 0x800, 2, 4096);
  }

  lemma ImmJ(op: nat, f3: nat, f7: nat, a: Asm)
    requires op < 128 && f3 < 8 && f7 < 128 && Holds(TJ, a.op, a.imm)
    ensures Imm32(TJ, EncodeAs(TJ, op, f3, f7, a)) == a.imm
  {
    hide EncodeAs, Holds, Imm32, Sext;
    EncodedJ(op, f3, f7, a);
    EvenMod21(a.imm);
    JumpImm(EncodeAs(TJ, op, f3, f7, a), a.imm % 0x20_0000);
    SextMod21(a.imm);
  }

  lemma JumpImm(w: U32, u: nat)
    requires u < 0x20_0000 && u % 2 == 0
    requires w / 0x200_0000 == u / 0x10_0000 * 64 + u / 32 % 64 && w / 0x10_0000 % 32 == u / 2 % 16 * 2 + u / 0x800 % 2
    requires w / 0x8000 % 32 == u / 0x8000 % 32 && w / 0x1000 % 8 == u / 0x1000 % 8
    ensures Imm32(TJ, w) == Sext(u, 0x10_0000)
  {
    JumpFields(w);
    SplitPair(u / 0x10_0000, u / 32 % 64, 64);
    SplitPair(u / 2 % 16, u / 0x800 % 2, 2);
    JumpBits(u);
    hide Sext;
    JumpJoin(w / 0x8000_0000, w / 0x1000 % 256, w / 0x10_0000 % 2, w / 0x20_0000 % 1024, u);
  }

  lemma JumpJoin(a: nat, b: nat, c: nat, d: nat, u: nat)
    requires u == u / 0x10_0000 * 0x10_0000 + (u / 0x8000 % 32 * 8 + u / 0x1000 % 8) * 0x1000
      + u / 0x800 % 2 * 0x800 + (u / 32 % 64 * 16 + u / 2 % 16) * 2
    requires a == u / 0x10_0000 && b == u / 0x8000 % 32 * 8 + u / 0x1000 % 8 && c == u / 0x800 % 2
    requires d == u / 32 % 64 * 16 + u / 2 % 16
    ensures a * 0x10_0000 + b * 0x1000 + c * 0x800 + d * 2 == u
  {
  }

  lemma JumpFields(w: U32)
    ensures w / 0x8000_0000 == w / 0x200_0000 / 64
    ensures w / 0x1000 % 256 == w / 0x8000 % 32 * 8 + w / 0x1000 % 8
    ensures w / 0x10_0000 % 2 == w / 0x10_0000 % 32 % 2
    ensures w / 0x20_0000 % 1024 == w / 0x200_0000 % 64 * 16 + w / 0x10_0000 % 32 / 2
  {
    ModSplit(w, 0x200_0000, 64, 0x8000_0000);
    ModSplit(w / 0x1000, 8, 32, 256);
    ModSplit(w, 0x1000, 8, 0x8000);
    ModSplit(w / 0x10_0000, 2, 16, 32);
    ModSplit(w, 0x10_0000, 2, 0x20_0000);
    ModSplit(w / 0x20_0000, 16, 64, 1024);
    ModSplit(w, 0x20_0000, 16, 0x200_0000);
  }

  lemma JumpBits(u: nat)
    requires u < 0x20_0000 && u % 2 == 0
    ensures u / 0x10_0000 * 0x10_0000 + (u / 0x8000 % 32 * 8 + u / 0x1000 % 8) * 0x1000
      + u / 0x800 % 2 * 0x800 + (u / 32 % 64 * 16 + u / 2 % 16) * 2 == u
  {
    ModSplit(u, 2, 16, 32);
    ModSplit(u, 32, 64, 2048);
    ModSplit(u, 0x800, 2, 4096);
    ModSplit(u, 0x1000, 8, 0x8000);
    ModSplit(u, 0x8000, 32, 0x10_0000);
  }

  // What an execute function reads of the decoded fields
  predicate Reads(t: Type, d: Operands, a: Asm) {
    && (t == TR || t == TI || t == TU || t == TJ ==> d.rd == a.rd)
    && (t == TR || t == TI || t == TS || t == TB ==> d.rs1 == a.rs1)
    && (t == TR || t == TS || t == TB ==> d.rs2 == a.rs2)
    && (t != TR && t != TR4 && t != TN ==> d.imm == if t == TI && Arithmetic(a.op) then a.imm + 0x400 else a.imm)
  }

  // The format fixes where the fields are read.
  lemma FieldsRoundTrip(t: Type, op: nat, f3: nat, f7: nat, a: Asm)
    requires op < 128 && f3 < 8 && f7 < 128 && Holds(t, a.op, a.imm)
    ensures var w := EncodeAs(t, op, f3, f7, a);
      Reads(t, Operands(w / 128 % 32, w / 0x8000 % 32, w / 0x10_0000 % 32, Imm32(t, w)), a)
  {
    hide Imm32, Word, Arithmetic, Holds;
    match t {
      case TI => ImmI(op, f3, f7, a);
      case TS => ImmS(op, f3, f7, a);
      case TB => ImmB(op, f3, f7, a);
      case TU => ImmU(op, f3, f7, a);
      case TJ => ImmJ(op, f3, f7, a);
      case TR | TR4 | TN =>
    }
  }

  // Decoding an encoded instruction gives back its operation, the registers
  // its format has and its immediate; bit 10 of the immediate marks srai and
  // sraiw.
  lemma DecodeInvertsEncode(a: Asm)
    requires CanEncode(a)
    ensures var d := Decode32(Encode(a)); d.op == a.op && Reads(TypeOf(a.op), d.o, a)
  {
    hide OpOf, Imm32, EncodeAs, CodeOf, Holds, TypeOf, Reads, OpcodeMap;
    TableIsMap(Encode(a));
    MapOf(a);
    var c := CodeOf(a.op).value;
    FieldsRoundTrip(c.t, c.opcode, c.f3, c.f7, a);
  }
}
