/**
 Execution of compressed instructions against the 32-bit instructions they
 expand to. An execute function is described by its effect on the hart: which
 register it writes, which access it asks of the MMU, where it jumps.
 */
module Rvc {
  import opened Bits
  import opened Wrappers
  import opened RvcDecode
  import opened Rv64Table
  import opened Rv64Map
  import opened Rv64Decode
  import opened RvcImm
  import M = MulDiv

  type Regs = r: seq<U64> | |r| == 32 witness seq(32, _ => 0)

  // RegisterFile::read: register 0 reads as zero.
  function Get(r: Regs, i: Reg): U64 { if i == 0 then 0 else r[i] }

  type Width = n: nat | n == 4 || n == 8 witness 4

  datatype Effect =
    | Keep
    | SetReg(rd: Reg, v: U64)
    | LoadReg(rd: Reg, addr: U64, n: Width)          // sign-extending
    | StoreReg(addr: U64, n: Width, v: U64)
    | LoadFp(rd: Reg, addr: U64, dirties: bool)      // after the FS check
    | StoreFp(addr: U64, fs: Reg)                    // after the FS check
    | Goto(target: U64)
    | GotoLink(target: U64, rd: Reg, link: U64)
    | Breakpoint
    | Illegal
    | Unmodelled

  // RegisterFile::write drops a write to register 0.
  function Set(rd: Reg, v: U64): (e: Effect)
    ensures !e.LoadFp?
  {
    if rd == 0 then Keep else SetReg(rd, v)
  }

  function Jump(target: U64, rd: Reg, link: U64): (e: Effect)
    ensures !e.LoadFp?
  {
    if rd == 0 then Goto(target) else GotoLink(target, rd, link)
  }

  // 64-bit operations on register values; immediates convert modulo 2^64.
  function Plus(a: U64, b: int): U64 { M.Word(a + b) }
  function Minus(a: U64, b: U64): U64 { M.Word(a - b) }
  function Even(a: U64): U64 { a - a % 2 }
  function Shl(a: U64, n: nat): U64 { M.Word(a * Pow2(n)) }
  function ShrU(a: U64, n: nat): U64 { M.Word(a / Pow2(n)) }
  function ShrS(a: U64, n: nat): U64 { M.Word(M.Signed(a) / Pow2(n)) }
  function AndU(a: U64, b: U64): U64 { M.Word(And(a, b)) }
  function OrU(a: U64, b: U64): U64 { M.Word(Or(a, b)) }
  function XorU(a: U64, b: U64): U64 { M.Word(Or(a, b) - And(a, b)) }
  function Half(a: U64): U64 { M.Sext32(M.Low(a)) }

  // sll, srl and sra
  function RegisterShift(row: RowName, rd: Reg, a: U64, b: U64): (e: Effect)
    ensures !e.LoadFp? && !e.Goto? && !e.GotoLink?
  {
    match row
    case SLL => Set(rd, Shl(a, b % 64))
    case SRL => Set(rd, ShrU(a, b % 64))
    case SRA => Set(rd, ShrS(a, b % 64))
    case _ => Unmodelled
  }

  // The 32-bit execute functions; `step` is the instruction's length, which a
  // link register adds to pc.
  function Execute32(d: Insn, r: Regs, pc: U64, step: nat): Effect {
    var rd, a, b, imm := d.o.rd, Get(r, d.o.rs1), Get(r, d.o.rs2), d.o.imm;
    match d.op
    case ADD => Set(rd, Plus(a, b))
    case ADDI => Set(rd, Plus(a, imm))
    case ADDIW => Set(rd, Half(Plus(a, imm)))
    case ADDW => Set(rd, Half(Plus(a, b)))
    case AND_ => Set(rd, AndU(a, b))
    case ANDI => Set(rd, AndU(a, M.Word(imm)))
    case BEQ => if a == b then Goto(Plus(pc, imm)) else Keep
    case BNE => if a != b then Goto(Plus(pc, imm)) else Keep
    case BLT => if M.Signed(a) < M.Signed(b) then Goto(Plus(pc, imm)) else Keep
    case BGE => if M.Signed(a) >= M.Signed(b) then Goto(Plus(pc, imm)) else Keep
    case BLTU => if a < b then Goto(Plus(pc, imm)) else Keep
    case BGEU => if a >= b then Goto(Plus(pc, imm)) else Keep
    case JAL => Jump(Plus(pc, imm), rd, Plus(pc, step))
    case JALR => Jump(Even(Plus(a, imm)), rd, Plus(pc, step))
    case LD => LoadReg(rd, Plus(a, imm), 8)
    case LW => LoadReg(rd, Plus(a, imm), 4)
    case LUI => Set(rd, M.Sext32(M.Word(imm) / 0x1000 % 0x10_0000 * 0x1000))
    case OR_ => Set(rd, OrU(a, b))
    case SD => StoreReg(Plus(a, imm), 8, b)
    case SW => StoreReg(Plus(a, imm), 4, M.Low(b))
    case SLLI => Set(rd, Shl(a, M.Word(imm) % 64))
    case SRAI => Set(rd, ShrS(a, M.Word(imm) % 64))
    case SRLI => Set(rd, ShrU(a, M.Word(imm) % 64))
    case SUB => Set(rd, Minus(a, b))
    case SUBW => Set(rd, Half(Minus(a, b)))
    case XOR_ => Set(rd, XorU(a, b))
    case EBREAK => Breakpoint
    case FLD => LoadFp(rd, Plus(a, imm), true)
    case FSD => StoreFp(Plus(a, imm), d.o.rs2)
    case INV => Illegal
    case Other(row) => RegisterShift(row, rd, a, b)
    case _ => Unmodelled
  }

  // The exec_c_* functions; exec_c_fld and exec_c_fldsp leave FS as it is.
  function Execute16(n: Name, o: Operands, r: Regs, pc: U64): Effect {
    var rd, imm := o.rd, o.imm;
    match n
    case CNop => Keep
    case CAddi => Set(rd, Plus(Get(r, rd), imm))
    case CAddiw => Set(rd, Half(Plus(Get(r, rd), imm)))
    case CLi => Set(rd, M.Word(imm))
    case CAddi16sp => if imm == 0 then Illegal else Set(2, Plus(Get(r, 2), imm))
    case CLui => if rd == 2 || imm == 0 then Illegal else Set(rd, M.Word(imm))
    case CSrli => Set(rd, ShrU(Get(r, rd), M.Word(imm)))
    case CSrai => Set(rd, ShrS(Get(r, rd), M.Word(imm)))
    case CAndi => Set(rd, AndU(Get(r, rd), M.Word(imm)))
    case CSub => Set(rd, Minus(Get(r, rd), Get(r, o.rs2)))
    case CXor => Set(rd, XorU(Get(r, rd), Get(r, o.rs2)))
    case COr => Set(rd, OrU(Get(r, rd), Get(r, o.rs2)))
    case CAnd => Set(rd, AndU(Get(r, rd), Get(r, o.rs2)))
    case CSubw => Set(rd, Half(Minus(Get(r, rd), Get(r, o.rs2))))
    case CAddw => Set(rd, Half(Plus(Get(r, rd), Get(r, o.rs2))))
    case CJ => Goto(Plus(pc, imm))
    case CBeqz => if Get(r, o.rs1) == 0 then Goto(Plus(pc, imm)) else Keep
    case CBnez => if Get(r, o.rs1) != 0 then Goto(Plus(pc, imm)) else Keep
    case CAddi4spn => if imm == 0 then Illegal else Set(rd, Plus(Get(r, 2), imm))
    case CLw => LoadReg(rd, Plus(Get(r, o.rs1), imm), 4)
    case CLd => LoadReg(rd, Plus(Get(r, o.rs1), imm), 8)
    case CFld => LoadFp(rd, Plus(Get(r, o.rs1), imm), false)
    case CFsd => StoreFp(Plus(Get(r, o.rs1), imm), o.rs2)
    case CSw => StoreReg(Plus(Get(r, o.rs1), imm), 4, M.Low(Get(r, o.rs2)))
    case CSd => StoreReg(Plus(Get(r, o.rs1), imm), 8, Get(r, o.rs2))
    case CSlli => Set(rd, Shl(Get(r, rd), M.Word(imm)))
    case CLwsp => if rd == 0 then Illegal else LoadReg(rd, Plus(Get(r, 2), imm), 4)
    case CLdsp => if rd == 0 then Illegal else LoadReg(rd, Plus(Get(r, 2), imm), 8)
    case CJr => if o.rs1 == 0 then Illegal else Goto(Even(Get(r, o.rs1)))
    case CMv => if o.rs2 == 0 then Illegal else Set(rd, Get(r, o.rs2))
    case CEbreak => Breakpoint
    case CJalr => if o.rs1 == 0 then Illegal else GotoLink(Even(Get(r, o.rs1)), 1, Plus(pc, 2))
    case CAdd => Set(rd, Plus(Get(r, rd), Get(r, o.rs2)))
    case CFldsp => LoadFp(rd, Plus(Get(r, 2), imm), false)
    case CFsdsp => StoreFp(Plus(Get(r, 2), imm), o.rs2)
    case CSwsp => StoreReg(Plus(Get(r, 2), imm), 4, M.Low(Get(r, o.rs2)))
    case CSdsp => StoreReg(Plus(Get(r, 2), imm), 8, Get(r, o.rs2))
    case CInv | Inv => Illegal
  }

  // Fetched as a 16-bit instruction: Decoder::decode, then the execute function
  function Step16(c: U16, r: Regs, pc: U64): Effect {
    DecodeIsTotal(c);
    Execute16(NameOf(c), OperandsOf(FormatOf(NameOf(c)), c), r, pc)
  }

  // ----- The expansion of the ISA manual ------------------------------------------------------

  function RdFull(c: U16): Reg { c / 128 % 32 }
  function Rs2Full(c: U16): Reg { c / 4 % 32 }
  function LowReg(c: U16): Reg { c / 4 % 8 + 8 }
  function HighReg(c: U16): Reg { c / 128 % 8 + 8 }
  function Signed6(c: U16): int { Sext(RefImm6(c), 32) }

  // Quadrant 0
  function Expand0(c: U16): Option<Asm> {
    match c / 8192
    case 0 => if RefAddi4spn(c) == 0 then None else Some(Asm(ADDI, LowReg(c), 2, 0, RefAddi4spn(c)))
    case 1 => Some(Asm(FLD, LowReg(c), HighReg(c), 0, RefDouble(c)))
    case 2 => Some(Asm(LW, LowReg(c), HighReg(c), 0, RefWord(c)))
    case 3 => Some(Asm(LD, LowReg(c), HighReg(c), 0, RefDouble(c)))
    case 5 => Some(Asm(FSD, 0, HighReg(c), LowReg(c), RefDouble(c)))
    case 6 => Some(Asm(SW, 0, HighReg(c), LowReg(c), RefWord(c)))
    case 7 => Some(Asm(SD, 0, HighReg(c), LowReg(c), RefDouble(c)))
    case _ => None
  }

  function ExpandAlu(c: U16): Option<Asm> {
    var x, y := HighReg(c), LowReg(c);
    if c / 4096 % 2 == 0 then
      match c / 32 % 4
      case 0 => Some(Asm(SUB, x, x, y, 0))
      case 1 => Some(Asm(XOR_, x, x, y, 0))
      case 2 => Some(Asm(OR_, x, x, y, 0))
      case _ => Some(Asm(AND_, x, x, y, 0))
    else if c / 32 % 4 == 0 then Some(Asm(SUBW, x, x, y, 0))
    else if c / 32 % 4 == 1 then Some(Asm(ADDW, x, x, y, 0))
    else None
  }

  // Quadrant 1
  function Expand1(c: U16): Option<Asm> {
    var rd := RdFull(c);
    match c / 8192
    case 0 => Some(Asm(ADDI, rd, rd, 0, Signed6(c)))
    case 1 => if rd == 0 then None else Some(Asm(ADDIW, rd, rd, 0, Signed6(c)))
    case 2 => Some(Asm(ADDI, rd, 0, 0, Signed6(c)))
    case 3 =>
      if RefImm6(c) == 0 then None
      else if rd == 2 then Some(Asm(ADDI, 2, 2, 0, RefAddi16sp(c)))
      else Some(Asm(LUI, rd, 0, 0, RefLui(c)))
    case 4 =>
      (match c / 1024 % 4
       case 0 => Some(Asm(SRLI, HighReg(c), HighReg(c), 0, RefImm6(c)))
       case 1 => Some(Asm(SRAI, HighReg(c), HighReg(c), 0, RefImm6(c)))
       case 2 => Some(Asm(ANDI, HighReg(c), HighReg(c), 0, Signed6(c)))
       case _ => ExpandAlu(c))
    case 5 => Some(Asm(JAL, 0, 0, 0, RefJump(c)))
    case 6 => Some(Asm(BEQ, 0, HighReg(c), 0, RefBranch(c)))
    case _ => Some(Asm(BNE, 0, HighReg(c), 0, RefBranch(c)))
  }

  // Quadrant 2
  function Expand2(c: U16): Option<Asm> {
    var rd, rs2 := RdFull(c), Rs2Full(c);
    match c / 8192
    case 0 => Some(Asm(SLLI, rd, rd, 0, RefImm6(c)))
    case 1 => Some(Asm(FLD, rd, 2, 0, RefLdsp(c)))
    case 2 => if rd == 0 then None else Some(Asm(LW, rd, 2, 0, RefLwsp(c)))
    case 3 => if rd == 0 then None else Some(Asm(LD, rd, 2, 0, RefLdsp(c)))
    case 4 =>
      if c / 4096 % 2 == 0 then
        if rs2 != 0 then Some(Asm(ADD, rd, 0, rs2, 0))
        else if rd == 0 then None else Some(Asm(JALR, 0, rd, 0, 0))
      else if rs2 != 0 then Some(Asm(ADD, rd, rd, rs2, 0))
      else if rd == 0 then Some(Asm(EBREAK, 0, 0, 0, 0)) else Some(Asm(JALR, 1, rd, 0, 0))
    case 5 => Some(Asm(FSD, 0, 2, rs2, RefSdsp(c)))
    case 6 => Some(Asm(SW, 0, 2, rs2, RefSwsp(c)))
    case 7 => Some(Asm(SD, 0, 2, rs2, RefSdsp(c)))
    case _ => None
  }

  // The instruction of chapter 16 of the Unprivileged ISA that c abbreviates.
  // None: reserved.
  function Expand(c: U16): Option<Asm> {
    if c % 4 == 0 then Expand0(c) else if c % 4 == 1 then Expand1(c) else if c % 4 == 2 then Expand2(c) else None
  }

  lemma Signed6Range(c: U16)
    ensures -32 <= Signed6(c) < 32 && RefImm6(c) < 64
  {
    Imm6Is(c);
    hide RefImm6;
  }

  // The operations that have an effect here, by format
  predicate InR(op: Op) {
    op.ADD? || op.ADDW? || op.AND_? || op.OR_? || op.SUB? || op.SUBW? || op.XOR_?
  }
  predicate InI(op: Op) {
    op.ADDI? || op.ADDIW? || op.ANDI? || op.JALR? || op.LD? || op.LW? || op.FLD?
  }
  predicate InShift(op: Op) { op.SLLI? || op.SRAI? || op.SRLI? }
  predicate InB(op: Op) { op.BEQ? || op.BNE? || op.BLT? || op.BGE? || op.BLTU? || op.BGEU? }
  predicate InS(op: Op) { op.SD? || op.SW? || op.FSD? }

  lemma TypesR(op: Op)
    requires InR(op)
    ensures TypeOf(op) == TR
  {
  }

  lemma TypesI(op: Op)
    requires InI(op)
    ensures TypeOf(op) == TI && !Arithmetic(op)
  {
  }

  lemma TypesShift(op: Op)
    requires InShift(op)
    ensures TypeOf(op) == TI && Shift64(op)
  {
  }

  lemma TypesB(op: Op)
    requires InB(op) || InS(op) || op.LUI? || op.JAL?
    ensures TypeOf(op) == if InB(op) then TB else if InS(op) then TS else if op.LUI? then TU else TJ
  {
  }

  // The immediates of an operation with an effect, by its format
  predicate Encodes(a: Asm) {
    || InR(a.op)
    || (InI(a.op) && -0x800 <= a.imm < 0x800)
    || (InShift(a.op) && 0 <= a.imm < 64)
    || (InS(a.op) && -0x800 <= a.imm < 0x800)
    || (InB(a.op) && -0x1000 <= a.imm < 0x1000 && a.imm % 2 == 0)
    || (a.op.LUI? && -0x8000_0000 <= a.imm < 0x8000_0000 && a.imm % 0x1000 == 0)
    || (a.op.JAL? && -0x10_0000 <= a.imm < 0x10_0000 && a.imm % 2 == 0)
    || a.op.EBREAK?
  }

  lemma PlainRegister(op: Op)
    requires InR(op) && !op.ADDW? && !op.SUBW?
    ensures RegisterCode(op).Some?
  {
    hide RegMap, TypeOf;
  }

  lemma PlainRegister32(op: Op)
    requires op.ADDW? || op.SUBW?
    ensures RegisterCode32(op).Some?
  {
    hide Reg32Map, TypeOf;
  }

  lemma CodedRegister(op: Op)
    requires InR(op)
    ensures CodeOf(op).Some?
  {
    hide MemoryCode, BranchCode, UpperCode, SystemCode, MultiplyCode, ShiftCode, MultiplyCode32, ImmediateCode;
    hide RegMap, Reg32Map, ImmMap, Imm32Map, TypeOf, ImmediateCode32, RegisterCode, RegisterCode32, InR;
    if op.ADDW? || op.SUBW? {
      PlainRegister32(op);
    } else {
      PlainRegister(op);
    }
  }

  lemma ShortCode(op: Op)
    requires InShift(op) || op.ADDI? || op.ANDI?
    ensures ImmediateCode(op).Some?
  {
    hide ImmMap, TypeOf, Arithmetic, Shift64;
  }

  lemma ShortCode32(op: Op)
    requires op.ADDIW?
    ensures ImmediateCode32(op).Some?
  {
    hide Imm32Map, TypeOf, Arithmetic, Shift32;
  }

  lemma CodedShort(op: Op)
    requires InShift(op) || op.ADDI? || op.ADDIW? || op.ANDI?
    ensures CodeOf(op).Some?
  {
    hide MemoryCode, BranchCode, UpperCode, SystemCode, MultiplyCode, ShiftCode, MultiplyCode32, RegisterCode;
    hide RegMap, Reg32Map, ImmMap, Imm32Map, TypeOf, RegisterCode32, ImmediateCode, ImmediateCode32, InShift;
    if op.ADDIW? {
      ShortCode32(op);
    } else {
      ShortCode(op);
    }
  }

  lemma CodedArithmetic(op: Op)
    requires InR(op) || InShift(op) || op.ADDI? || op.ADDIW? || op.ANDI?
    ensures CodeOf(op).Some?
  {
    hide CodeOf, InR, InShift;
    if InR(op) {
      CodedRegister(op);
    } else {
      CodedShort(op);
    }
  }

  lemma CodedLoad(op: Op)
    requires op.LD? || op.LW? || op.FLD? || op.JALR?
    ensures CodeOf(op).Some?
  {
    hide ArithmeticCode, BranchCode, UpperCode, SystemCode, StoreCode, FloatStoreCode;
    hide LoadMap, StoreMap, FloatMap, FenceMap, TypeOf;
  }

  lemma CodedStore(op: Op)
    requires InS(op)
    ensures CodeOf(op).Some?
  {
    hide ArithmeticCode, BranchCode, UpperCode, SystemCode, LoadCode, FloatLoadCode, FenceCode;
    hide LoadMap, StoreMap, FloatMap, FenceMap, TypeOf;
  }

  lemma CodedMemory(op: Op)
    requires op.LD? || op.LW? || op.FLD? || op.JALR? || InS(op)
    ensures CodeOf(op).Some?
  {
    hide CodeOf, InS;
    if InS(op) {
      CodedStore(op);
    } else {
      CodedLoad(op);
    }
  }

  lemma CodedControl(op: Op)
    requires InB(op) || op.LUI? || op.JAL? || op.EBREAK?
    ensures CodeOf(op).Some?
  {
    hide ArithmeticCode, MemoryCode, BranchMap, UpperMap, TypeOf, CsrMap;
  }

  lemma PlainIsNoShift(op: Op)
    requires InI(op)
    ensures !Shift64(op) && !Shift32(op)
  {
  }

  lemma EncodesFits(a: Asm)
    requires Encodes(a)
    ensures CanEncode(a)
  {
    hide CodeOf, TypeOf, InR, InI, InS, InB, InShift;
    GroupsApart(a.op);
    if InR(a.op) {
      CodedArithmetic(a.op);
      TypesR(a.op);
    } else if InI(a.op) {
      CodedImmediate(a.op);
      TypesI(a.op);
      PlainIsNoShift(a.op);
    } else if InShift(a.op) {
      CodedArithmetic(a.op);
      TypesShift(a.op);
    } else if InS(a.op) {
      CodedMemory(a.op);
      TypesB(a.op);
    } else if a.op.EBREAK? {
      CodedControl(a.op);
      assert TypeOf(EBREAK) == TN by { EbreakType(); }
    } else {
      CodedControl(a.op);
      TypesB(a.op);
    }
  }

  lemma EbreakType()
    ensures TypeOf(EBREAK) == TN
  {
  }

  lemma CodedImmediate(op: Op)
    requires InI(op)
    ensures CodeOf(op).Some?
  {
    hide CodeOf;
    if op.ADDI? || op.ADDIW? || op.ANDI? { CodedArithmetic(op); } else { CodedMemory(op); }
  }

  lemma GroupsApart(op: Op)
    ensures InR(op) ==> !InI(op) && !InShift(op) && !InB(op) && !InS(op)
    ensures InI(op) ==> !InShift(op) && !InB(op) && !InS(op)
    ensures InShift(op) ==> !InB(op) && !InS(op)
    ensures InS(op) ==> !InB(op)
    ensures op.LUI? || op.JAL? || op.EBREAK? ==> !InR(op) && !InI(op) && !InShift(op) && !InB(op) && !InS(op)
  {
  }

  lemma FitsUpper(a: Asm)
    requires CanEncode(a) && a.op.LUI?
    ensures Holds(TU, LUI, a.imm)
  {
    hide CodeOf, TypeOf, Holds, InB, InS;
    TypesB(LUI);
    GroupsApart(LUI);
  }

  lemma FitsShift(a: Asm)
    requires CanEncode(a) && InShift(a.op)
    ensures 0 <= a.imm < 64
  {
    hide CodeOf, TypeOf, InShift;
    TypesShift(a.op);
  }

  // Every expansion has an encoding.
  lemma ExpansionFits(c: U16)
    requires Expand(c).Some?
    ensures CanEncode(Expand(c).value)
  {
    hide Expand0, Expand1, Expand2, CanEncode, Encodes;
    if c % 4 == 0 { FitsWell0(c); } else if c % 4 == 1 { FitsWell1(c); } else { FitsWell2(c); }
    EncodesFits(Expand(c).value);
  }

  lemma FitsWell0(c: U16)
    requires Expand0(c).Some?
    ensures Encodes(Expand0(c).value)
  {
    hide RefAddi4spn, RefWord, RefDouble;
    StackImms(c);
    RegImms(c);
  }

  lemma FitsWell1(c: U16)
    requires Expand1(c).Some?
    ensures Encodes(Expand1(c).value)
  {
    hide RefImm6, RefAddi16sp, RefLui, RefBranch, RefJump, Signed6, ExpandAlu;
    Signed6Range(c);
    if c / 8192 == 3 {
      Addi16spImm(c);
      LuiImm(c);
    } else if c / 8192 == 4 {
      if ExpandAlu(c).Some? { AluFits(c); }
    } else if c / 8192 == 5 {
      JumpImmIs(c);
    } else if c / 8192 >= 6 {
      BranchImmIs(c);
    }
  }

  lemma AluFits(c: U16)
    requires ExpandAlu(c).Some?
    ensures InR(ExpandAlu(c).value.op)
  {
  }

  lemma FitsWell2(c: U16)
    requires Expand2(c).Some?
    ensures Encodes(Expand2(c).value)
  {
    hide RefImm6, RefLwsp, RefLdsp, RefSwsp, RefSdsp;
    Signed6Range(c);
    StackImms(c);
  }

  // ----- The theorem -------------------------------------------------------------------------

  function RunAsm(a: Asm, r: Regs, pc: U64, step: nat): Effect {
    Execute32(Insn(a.op, Operands(a.rd, a.rs1, a.rs2, a.imm)), r, pc, step)
  }

  // Executing the encoding of an assembly instruction does what it says.
  lemma EncodedRuns(a: Asm, r: Regs, pc: U64, step: nat)
    requires CanEncode(a)
    ensures Execute32(Decode32(Encode(a)), r, pc, step) == RunAsm(a, r, pc, step)
  {
    hide *;
    DecodeInvertsEncode(a);
    SameEffect(Decode32(Encode(a)), a, r, pc, step);
  }

  lemma SameR(d: Insn, e: Insn, r: Regs, pc: U64, step: nat)
    requires d.op == e.op && (InR(d.op) || InS(d.op))
    requires d.o.rs1 == e.o.rs1 && d.o.rs2 == e.o.rs2
    requires InR(d.op) ==> d.o.rd == e.o.rd
    requires InS(d.op) ==> d.o.imm == e.o.imm
    ensures Execute32(d, r, pc, step) == Execute32(e, r, pc, step)
  {
    hide Get, Plus, Minus, AndU, OrU, XorU, Half, Set, M.Low;
  }

  lemma SameI(d: Insn, e: Insn, r: Regs, pc: U64, step: nat)
    requires d.op == e.op && (InI(d.op) || InB(d.op))
    requires d.o.rs1 == e.o.rs1 && d.o.imm == e.o.imm
    requires InI(d.op) ==> d.o.rd == e.o.rd
    requires InB(d.op) ==> d.o.rs2 == e.o.rs2
    ensures Execute32(d, r, pc, step) == Execute32(e, r, pc, step)
  {
    hide Get, Plus, AndU, Half, Even, Set, Jump, M.Word, M.Signed;
  }

  lemma SameShift(d: Insn, e: Insn, r: Regs, pc: U64, step: nat)
    requires d.op == e.op && (InShift(d.op) || d.op.LUI? || d.op.JAL?) && d.o.rd == e.o.rd
    requires InShift(d.op) ==> d.o.rs1 == e.o.rs1 && M.Word(d.o.imm) % 64 == M.Word(e.o.imm) % 64
    requires d.op.LUI? || d.op.JAL? ==> d.o.imm == e.o.imm
    ensures Execute32(d, r, pc, step) == Execute32(e, r, pc, step)
  {
    hide Get, Plus, Shl, ShrU, ShrS, Set, Jump, M.Word, M.Sext32;
  }

  lemma SameRest(d: Insn, e: Insn, r: Regs, pc: U64, step: nat)
    requires d.op == e.op && !InR(d.op) && !InI(d.op) && !InShift(d.op) && !InB(d.op) && !InS(d.op)
    requires !d.op.LUI? && !d.op.JAL? && !InShiftR(d.op)
    ensures Execute32(d, r, pc, step) == Execute32(e, r, pc, step)
  {
    hide Get, Plus, Minus, Shl, ShrU, ShrS, AndU, OrU, XorU, Half, Even, Set, Jump, M.Word, M.Low, M.Sext32, M.Signed;
  }

  predicate InShiftR(op: Op) { op == Other(SLL) || op == Other(SRL) || op == Other(SRA) }

  lemma SameShiftR(d: Insn, a: Asm, r: Regs, pc: U64, step: nat)
    requires d.op == a.op && InShiftR(a.op) && Reads(TypeOf(a.op), d.o, a)
    ensures Execute32(d, r, pc, step) == RunAsm(a, r, pc, step)
  {
    hide Get, Plus, Minus, Shl, ShrU, ShrS, AndU, OrU, XorU, Half, Even, Set, Jump, M.Word, M.Low, M.Sext32, M.Signed;
  }

  lemma SameEffect(d: Insn, a: Asm, r: Regs, pc: U64, step: nat)
    requires d.op == a.op && Reads(TypeOf(a.op), d.o, a) && CanEncode(a)
    ensures Execute32(d, r, pc, step) == RunAsm(a, r, pc, step)
  {
    hide CodeOf, CanEncode, Execute32, TypeOf, InR, InI, InShift, InB, InS, InShiftR, M.Word, Arithmetic;
    var e := Insn(a.op, Operands(a.rd, a.rs1, a.rs2, a.imm));
    GroupsApart(a.op);
    if InR(a.op) {
      TypesR(a.op);
      SameR(d, e, r, pc, step);
    } else if InI(a.op) {
      TypesI(a.op);
      SameI(d, e, r, pc, step);
    } else if InShift(a.op) {
      TypesShift(a.op);
      ShiftRange(a);
      SameShift(d, e, r, pc, step);
    } else if InB(a.op) || InS(a.op) || a.op.LUI? || a.op.JAL? {
      TypesB(a.op);
      if InB(a.op) {
        SameI(d, e, r, pc, step);
      } else if InS(a.op) {
        SameR(d, e, r, pc, step);
      } else {
        SameShift(d, e, r, pc, step);
      }
    } else if InShiftR(a.op) {
      SameShiftR(d, a, r, pc, step);
    } else {
      SameRest(d, e, r, pc, step);
    }
  }

  lemma ShiftRange(a: Asm)
    requires InShift(a.op) && CanEncode(a)
    ensures M.Word(a.imm + 0x400) % 64 == M.Word(a.imm) % 64
  {
    hide CodeOf;
    TypesShift(a.op);
    ShiftAmount(a.imm);
  }

  lemma ShiftAmount(imm: int)
    requires 0 <= imm < 64
    ensures M.Word(imm + 0x400) % 64 == imm && M.Word(imm) % 64 == imm && M.Word(imm) == imm
  {
  }

  // The effect with FS set to dirty, as the 32-bit floating-point load does
  function Dirtied(e: Effect): Effect { if e.LoadFp? then e.(dirties := true) else e }

  // The row each non-reserved word selects.
  lemma Names0(c: U16)
    requires c % 4 == 0
    ensures c / 8192 == 0 && c != 0 ==> NameOf(c) == CAddi4spn
    ensures c / 8192 == 1 ==> NameOf(c) == CFld
    ensures c / 8192 == 2 ==> NameOf(c) == CLw
    ensures c / 8192 == 3 ==> NameOf(c) == CLd
    ensures c / 8192 == 5 ==> NameOf(c) == CFsd
    ensures c / 8192 == 6 ==> NameOf(c) == CSw
    ensures c / 8192 == 7 ==> NameOf(c) == CSd
  {
  }

  lemma Names1(c: U16)
    requires c % 4 == 1
    ensures c / 8192 == 0 ==> NameOf(c) == if RdFull(c) == 0 then CNop else CAddi
    ensures c / 8192 == 1 ==> NameOf(c) == CAddiw
    ensures c / 8192 == 2 ==> NameOf(c) == CLi
    ensures c / 8192 == 3 ==> NameOf(c) == if RdFull(c) == 2 then CAddi16sp else CLui
    ensures c / 8192 == 5 ==> NameOf(c) == CJ
    ensures c / 8192 == 6 ==> NameOf(c) == CBeqz
    ensures c / 8192 == 7 ==> NameOf(c) == CBnez
    ensures c / 8192 == 4 && c / 1024 % 4 == 0 ==> NameOf(c) == CSrli
    ensures c / 8192 == 4 && c / 1024 % 4 == 1 ==> NameOf(c) == CSrai
    ensures c / 8192 == 4 && c / 1024 % 4 == 2 ==> NameOf(c) == CAndi
  {
  }

  lemma NamesAlu0(c: U16)
    requires c % 4 == 1 && c / 1024 == 0x23
    ensures c / 8192 == 4 && c / 4096 % 2 == 0 && c / 1024 % 4 == 3
    ensures NameOf(c) ==
      if c / 32 % 4 == 0 then CSub else if c / 32 % 4 == 1 then CXor else if c / 32 % 4 == 2 then COr else CAnd
  {
  }

  lemma NamesAlu1(c: U16)
    requires c % 4 == 1 && c / 1024 == 0x27
    ensures c / 8192 == 4 && c / 4096 % 2 == 1 && c / 1024 % 4 == 3
    ensures c / 32 % 4 == 0 ==> NameOf(c) == CSubw
    ensures c / 32 % 4 == 1 ==> NameOf(c) == CAddw
  {
  }

  lemma Names2(c: U16)
    requires c % 4 == 2
    ensures c / 8192 == 0 ==> NameOf(c) == CSlli
    ensures c / 8192 == 1 ==> NameOf(c) == CFldsp
    ensures c / 8192 == 2 ==> NameOf(c) == CLwsp
    ensures c / 8192 == 3 ==> NameOf(c) == CLdsp
    ensures c / 8192 == 5 ==> NameOf(c) == CFsdsp
    ensures c / 8192 == 6 ==> NameOf(c) == CSwsp
    ensures c / 8192 == 7 ==> NameOf(c) == CSdsp
  {
  }

  lemma LowWord(c: U16)
    requires c % 4 == 2
    ensures Rs2Full(c) == 0 <==> c % 128 == 2
    ensures c == c / 4096 * 4096 + RdFull(c) * 128 + c % 128
  {
    ModSplit(c, 4, 32, 128);
    ModSplit(c, 128, 32, 4096);
  }

  lemma NamesReg(c: U16)
    requires c % 4 == 2 && c / 8192 == 4
    ensures NameOf(c) == if Funct4Zero(c, 8) then CJr else if Funct4(c, 8) then CMv
      else if Exactly(c, 0x9002) then CEbreak else if Funct4Zero(c, 9) then CJalr
      else if Funct4(c, 9) then CAdd else Inv
  {
  }

  lemma NamesReg8(c: U16)
    requires c % 4 == 2 && c / 4096 == 8
    ensures NameOf(c) == if Rs2Full(c) == 0 then CJr else CMv
  {
    LowWord(c);
    assert c / 8192 == 4;
    hide NameOf, Funct4, Funct4Zero, Exactly, Rs2Full, RdFull;
    NamesReg(c);
  }

  lemma NamesReg9(c: U16)
    requires c % 4 == 2 && c / 4096 == 9
    ensures NameOf(c) == (if Rs2Full(c) != 0 then CAdd else if RdFull(c) == 0 then CEbreak else CJalr)
  {
    LowWord(c);
    assert c / 8192 == 4;
    hide NameOf, Funct4, Funct4Zero, Exactly, Rs2Full, RdFull;
    NamesReg(c);
  }

  // ----- Execution: what each execute function does, as one 32-bit instruction

  function Meaning(n: Name, o: Operands): Option<Asm> {
    var rd, x, y, imm := o.rd, o.rs1, o.rs2, o.imm;
    match n
    case CNop | CAddi => Some(Asm(ADDI, rd, rd, 0, imm))
    case CAddiw => Some(Asm(ADDIW, rd, rd, 0, imm))
    case CLi => Some(Asm(ADDI, rd, 0, 0, imm))
    case CAddi16sp => if imm == 0 then None else Some(Asm(ADDI, 2, 2, 0, imm))
    case CLui => if rd == 2 || imm == 0 then None else Some(Asm(LUI, rd, 0, 0, imm))
    case CSrli => Some(Asm(SRLI, rd, rd, 0, imm))
    case CSrai => Some(Asm(SRAI, rd, rd, 0, imm))
    case CAndi => Some(Asm(ANDI, rd, rd, 0, imm))
    case CSub => Some(Asm(SUB, rd, rd, y, 0))
    case CXor => Some(Asm(XOR_, rd, rd, y, 0))
    case COr => Some(Asm(OR_, rd, rd, y, 0))
    case CAnd => Some(Asm(AND_, rd, rd, y, 0))
    case CSubw => Some(Asm(SUBW, rd, rd, y, 0))
    case CAddw => Some(Asm(ADDW, rd, rd, y, 0))
    case CJ => Some(Asm(JAL, 0, 0, 0, imm))
    case CBeqz => Some(Asm(BEQ, 0, x, 0, imm))
    case CBnez => Some(Asm(BNE, 0, x, 0, imm))
    case CAddi4spn => if imm == 0 then None else Some(Asm(ADDI, rd, 2, 0, imm))
    case CLw => Some(Asm(LW, rd, x, 0, imm))
    case CLd => Some(Asm(LD, rd, x, 0, imm))
    case CFld => Some(Asm(FLD, rd, x, 0, imm))
    case CFsd => Some(Asm(FSD, 0, x, y, imm))
    case CSw => Some(Asm(SW, 0, x, y, imm))
    case CSd => Some(Asm(SD, 0, x, y, imm))
    case CSlli => Some(Asm(SLLI, rd, rd, 0, imm))
    case CLwsp => if rd == 0 then None else Some(Asm(LW, rd, 2, 0, imm))
    case CLdsp => if rd == 0 then None else Some(Asm(LD, rd, 2, 0, imm))
    case CJr => if x == 0 then None else Some(Asm(JALR, 0, x, 0, 0))
    case CMv => if y == 0 then None else Some(Asm(ADD, rd, 0, y, 0))
    case CEbreak => Some(Asm(EBREAK, 0, 0, 0, 0))
    case CJalr => if x == 0 then None else Some(Asm(JALR, 1, x, 0, 0))
    case CAdd => Some(Asm(ADD, rd, rd, y, 0))
    case CFldsp => Some(Asm(FLD, rd, 2, 0, imm))
    case CFsdsp => Some(Asm(FSD, 0, 2, y, imm))
    case CSwsp => Some(Asm(SW, 0, 2, y, imm))
    case CSdsp => Some(Asm(SD, 0, 2, y, imm))
    case CInv | Inv => None
  }

  lemma UpperValue(imm: int)
    requires -0x8000_0000 <= imm < 0x8000_0000 && imm % 0x1000 == 0
    ensures M.Sext32(M.Word(imm) / 0x1000 % 0x10_0000 * 0x1000) == M.Word(imm)
  {
    var u := imm % 0x1_0000_0000;
    assert M.Word(imm) % 0x1_0000_0000 == u;
    ModSplit(M.Word(imm), 0x1000, 0x10_0000, 0x1_0000_0000);
    assert u % 0x1000 == 0 && M.Word(imm) % 0x1000 == 0;
    assert M.Word(imm) / 0x1000 % 0x10_0000 * 0x1000 == u;
    assert M.Signed32(u) == imm;
  }

  lemma PlusZero(a: U64)
    ensures Plus(0, a) == a && Plus(a, 0) == a && M.Word(a) == a
  {
  }

  lemma FromZero(imm: int)
    ensures Plus(0, imm) == M.Word(imm)
  {
  }

  lemma ZeroReads(r: Regs)
    ensures Get(r, 0) == 0
  {
  }

  lemma ImmRuns(n: Name, o: Operands, r: Regs, pc: U64)
    requires n == CNop || n == CAddi || n == CAddiw || n == CLi || n == CAndi
    requires Meaning(n, o).Some? && (n == CNop ==> o.rd == 0)
    ensures Dirtied(Execute16(n, o, r, pc)) == RunAsm(Meaning(n, o).value, r, pc, 2)
  {
    hide Plus, AndU, Half, Get, M.Word;
    FromZero(o.imm);
    ZeroReads(r);
  }

  lemma AluRuns(n: Name, o: Operands, r: Regs, pc: U64)
    requires n == CSub || n == CXor || n == COr || n == CAnd
    ensures Meaning(n, o).Some? && Dirtied(Execute16(n, o, r, pc)) == RunAsm(Meaning(n, o).value, r, pc, 2)
  {
    hide Minus, AndU, OrU, XorU, Get, Set;
  }

  lemma RegisterRuns(n: Name, o: Operands, r: Regs, pc: U64)
    requires n == CSubw || n == CAddw || n == CMv || n == CAdd
    requires Meaning(n, o).Some?
    ensures Dirtied(Execute16(n, o, r, pc)) == RunAsm(Meaning(n, o).value, r, pc, 2)
  {
    hide Plus, Minus, Half, Get, Set, M.Word;
    PlusZero(Get(r, o.rs2));
    ZeroReads(r);
  }

  lemma UpperRuns(n: Name, o: Operands, r: Regs, pc: U64)
    requires n == CLui || n == CAddi16sp || n == CAddi4spn
    requires Meaning(n, o).Some? && (n == CLui ==> Holds(TU, LUI, o.imm))
    ensures Dirtied(Execute16(n, o, r, pc)) == RunAsm(Meaning(n, o).value, r, pc, 2)
  {
    if n == CLui { UpperValue(o.imm); }
    hide Plus, Get, M.Word, M.Sext32;
  }

  lemma ShiftRuns(n: Name, o: Operands, r: Regs, pc: U64)
    requires n == CSrli || n == CSrai || n == CSlli
    requires 0 <= o.imm < 64
    ensures Meaning(n, o).Some? && Dirtied(Execute16(n, o, r, pc)) == RunAsm(Meaning(n, o).value, r, pc, 2)
  {
    ShiftAmount(o.imm);
    hide Shl, ShrU, ShrS, Get, M.Word;
  }

  lemma ControlRuns(n: Name, o: Operands, r: Regs, pc: U64)
    requires n == CJ || n == CBeqz || n == CBnez || n == CJr || n == CJalr || n == CEbreak
    requires Meaning(n, o).Some?
    ensures Dirtied(Execute16(n, o, r, pc)) == RunAsm(Meaning(n, o).value, r, pc, 2)
  {
    PlusZero(Get(r, o.rs1));
    assert Get(r, 0) == 0;
    hide Plus, Even, Get;
  }

  lemma LoadRuns(n: Name, o: Operands, r: Regs, pc: U64)
    requires n == CFld || n == CLw || n == CLd || n == CFldsp || n == CLwsp || n == CLdsp
    requires Meaning(n, o).Some?
    ensures Dirtied(Execute16(n, o, r, pc)) == RunAsm(Meaning(n, o).value, r, pc, 2)
  {
    hide Plus, Get;
  }

  lemma StackStoreRuns(n: Name, o: Operands, r: Regs, pc: U64)
    requires n == CFsdsp || n == CSwsp || n == CSdsp
    ensures Meaning(n, o).Some? && Dirtied(Execute16(n, o, r, pc)) == RunAsm(Meaning(n, o).value, r, pc, 2)
  {
    hide Plus, Get, M.Low;
  }

  lemma StoreRuns(n: Name, o: Operands, r: Regs, pc: U64)
    requires n == CFsd || n == CSw || n == CSd
    ensures Meaning(n, o).Some? && Dirtied(Execute16(n, o, r, pc)) == RunAsm(Meaning(n, o).value, r, pc, 2)
  {
    hide Plus, Get, M.Low;
  }

  lemma ShiftOps()
    ensures InShift(SLLI) && InShift(SRLI) && InShift(SRAI)
  {
  }

  lemma MeaningRuns(n: Name, o: Operands, r: Regs, pc: U64)
    requires Meaning(n, o).Some? && CanEncode(Meaning(n, o).value) && (n == CNop ==> o.rd == 0)
    ensures Dirtied(Execute16(n, o, r, pc)) == RunAsm(Meaning(n, o).value, r, pc, 2)
  {
    hide CanEncode, Execute16, RunAsm, Holds, InShift;
    match n {
      case CNop | CAddi | CAddiw | CLi | CAndi => ImmRuns(n, o, r, pc);
      case CSub | CXor | COr | CAnd => AluRuns(n, o, r, pc);
      case CSubw | CAddw | CMv | CAdd => RegisterRuns(n, o, r, pc);
      case CLui =>
        FitsUpper(Meaning(n, o).value);
        UpperRuns(n, o, r, pc);
      case CAddi16sp | CAddi4spn => UpperRuns(n, o, r, pc);
      case CSrli | CSrai | CSlli =>
        ShiftOps();
        FitsShift(Meaning(n, o).value);
        ShiftRuns(n, o, r, pc);
      case CJ | CBeqz | CBnez | CJr | CJalr | CEbreak => ControlRuns(n, o, r, pc);
      case CFld | CLw | CLd | CFldsp | CLwsp | CLdsp => LoadRuns(n, o, r, pc);
      case CFsd | CSw | CSd => StoreRuns(n, o, r, pc);
      case CFsdsp | CSwsp | CSdsp => StackStoreRuns(n, o, r, pc);
      case CInv | Inv =>
    }
  }

  // ----- Decoding: the table and the operand fields give the expansion

  predicate Decodes(c: U16, a: Asm) {
    DecodeIsTotal(c);
    Meaning(NameOf(c), OperandsOf(FormatOf(NameOf(c)), c)) == Some(a)
  }

  // What is left once the row is known.
  lemma DecodesBy(c: U16, n: Name, f: Format, a: Asm)
    requires NameOf(c) == n && FormatOf(n) == f && Reachable(f, c)
    requires Meaning(n, OperandsOf(f, c)) == Some(a)
    ensures Decodes(c, a)
  {
    hide NameOf, Meaning, OperandsOf;
  }

  // The operand fields by format, with the immediates of the manual
  lemma OpsMemory(c: U16)
    ensures Reachable(FCL, c) ==>
      OperandsOf(FCL, c) == Operands(LowReg(c), HighReg(c), 0, if c / 8192 == 2 then RefWord(c) else RefDouble(c))
    ensures Reachable(FCS, c) ==>
      OperandsOf(FCS, c) == Operands(0, HighReg(c), LowReg(c), if c / 8192 == 6 then RefWord(c) else RefDouble(c))
    ensures c / 8192 in {1, 2, 3} ==> Reachable(FCL, c)
    ensures c / 8192 in {5, 6, 7} ==> Reachable(FCS, c)
  {
    RegImms(c);
    hide ImmWord, ImmDouble, RefWord, RefDouble;
  }

  lemma OpsStack(c: U16)
    ensures OperandsOf(FCIW, c) == Operands(LowReg(c), 2, 0, RefAddi4spn(c))
    ensures c / 8192 in {5, 6, 7} ==>
      OperandsOf(FCSS, c) == Operands(0, 2, Rs2Full(c), if c / 8192 == 6 then RefSwsp(c) else RefSdsp(c))
    ensures c % 4 == 2 && c / 8192 in {0, 1, 2, 3} ==>
      OperandsOf(FCI, c) == Operands(RdFull(c), RdFull(c), 0,
        if c / 8192 == 0 then RefImm6(c) else if c / 8192 == 2 then RefLwsp(c) else RefLdsp(c))
  {
    StackImms(c);
    Imm6Is(c);
    hide ImmCIW, Imm6, RefImm6, RefAddi4spn, RefSwsp, RefSdsp, RefLwsp, RefLdsp;
  }

  lemma OpsImm(c: U16)
    requires c % 4 == 1
    ensures c / 8192 in {0, 1, 2} ==> OperandsOf(FCI, c) == Operands(RdFull(c), RdFull(c), 0, Signed6(c))
    ensures c / 8192 == 3 ==>
      OperandsOf(FCI, c) == Operands(RdFull(c), RdFull(c), 0,
        if RdFull(c) == 2 then RefAddi16sp(c) else if RdFull(c) == 0 then Signed6(c) else RefLui(c))
  {
    Imm6Is(c);
    Addi16spImm(c);
    LuiImm(c);
    hide Imm6, RefImm6, RefAddi16sp, RefLui, Sext;
  }

  lemma OpsRegister(c: U16)
    ensures OperandsOf(FCA, c) == Operands(HighReg(c), HighReg(c), LowReg(c), 0)
    ensures OperandsOf(FCR, c) == Operands(RdFull(c), RdFull(c), Rs2Full(c), 0)
  {
  }

  lemma OpsBranch(c: U16)
    ensures OperandsOf(FCJ, c) == Operands(0, 0, 0, RefJump(c))
    ensures c / 8192 in {6, 7} ==> OperandsOf(FCB, c) == Operands(HighReg(c), HighReg(c), 0, RefBranch(c))
  {
    JumpImmIs(c);
    if c / 8192 % 8 != 4 { BranchImmIs(c); }
    hide ImmCB, RefBranch, RefJump, ImmCJ;
  }

  lemma OpsShift(c: U16)
    ensures c / 8192 == 4 ==>
      OperandsOf(FCB, c) == Operands(HighReg(c), HighReg(c), 0, if c / 1024 % 4 == 2 then Signed6(c) else RefImm6(c))
  {
    Imm6Is(c);
    hide Imm6, RefImm6, Sext;
  }

  // The meanings, unfolded
  lemma LoadMeanings(o: Operands)
    ensures Meaning(CFld, o) == Some(Asm(FLD, o.rd, o.rs1, 0, o.imm)) && FormatOf(CFld) == FCL
    ensures Meaning(CLw, o) == Some(Asm(LW, o.rd, o.rs1, 0, o.imm)) && FormatOf(CLw) == FCL
    ensures Meaning(CLd, o) == Some(Asm(LD, o.rd, o.rs1, 0, o.imm)) && FormatOf(CLd) == FCL
    ensures o.imm != 0 ==> Meaning(CAddi4spn, o) == Some(Asm(ADDI, o.rd, 2, 0, o.imm))
    ensures FormatOf(CAddi4spn) == FCIW
  {
  }

  lemma StoreMeanings(o: Operands)
    ensures Meaning(CFsd, o) == Some(Asm(FSD, 0, o.rs1, o.rs2, o.imm)) && FormatOf(CFsd) == FCS
    ensures Meaning(CSw, o) == Some(Asm(SW, 0, o.rs1, o.rs2, o.imm)) && FormatOf(CSw) == FCS
    ensures Meaning(CSd, o) == Some(Asm(SD, 0, o.rs1, o.rs2, o.imm)) && FormatOf(CSd) == FCS
  {
  }

  lemma StackLoadMeanings(o: Operands)
    ensures o.rd != 0 ==> Meaning(CLwsp, o) == Some(Asm(LW, o.rd, 2, 0, o.imm))
    ensures o.rd != 0 ==> Meaning(CLdsp, o) == Some(Asm(LD, o.rd, 2, 0, o.imm))
    ensures Meaning(CFldsp, o) == Some(Asm(FLD, o.rd, 2, 0, o.imm)) && FormatOf(CFldsp) == FCI
    ensures FormatOf(CLwsp) == FCI && FormatOf(CLdsp) == FCI
    ensures Meaning(CSlli, o) == Some(Asm(SLLI, o.rd, o.rd, 0, o.imm)) && FormatOf(CSlli) == FCI
  {
  }

  lemma StackStoreMeanings(o: Operands)
    ensures Meaning(CFsdsp, o) == Some(Asm(FSD, 0, 2, o.rs2, o.imm)) && FormatOf(CFsdsp) == FCSS
    ensures Meaning(CSwsp, o) == Some(Asm(SW, 0, 2, o.rs2, o.imm)) && FormatOf(CSwsp) == FCSS
    ensures Meaning(CSdsp, o) == Some(Asm(SD, 0, 2, o.rs2, o.imm)) && FormatOf(CSdsp) == FCSS
  {
  }

  lemma ImmMeanings(o: Operands)
    ensures Meaning(CNop, o) == Some(Asm(ADDI, o.rd, o.rd, 0, o.imm)) && FormatOf(CNop) == FCI
    ensures Meaning(CAddi, o) == Some(Asm(ADDI, o.rd, o.rd, 0, o.imm)) && FormatOf(CAddi) == FCI
    ensures Meaning(CAddiw, o) == Some(Asm(ADDIW, o.rd, o.rd, 0, o.imm)) && FormatOf(CAddiw) == FCI
    ensures Meaning(CLi, o) == Some(Asm(ADDI, o.rd, 0, 0, o.imm)) && FormatOf(CLi) == FCI
    ensures o.imm != 0 ==> Meaning(CAddi16sp, o) == Some(Asm(ADDI, 2, 2, 0, o.imm))
    ensures o.imm != 0 && o.rd != 2 ==> Meaning(CLui, o) == Some(Asm(LUI, o.rd, 0, 0, o.imm))
    ensures FormatOf(CAddi16sp) == FCI && FormatOf(CLui) == FCI
  {
  }

  lemma BranchMeanings(o: Operands)
    ensures Meaning(CSrli, o) == Some(Asm(SRLI, o.rd, o.rd, 0, o.imm)) && FormatOf(CSrli) == FCB
    ensures Meaning(CSrai, o) == Some(Asm(SRAI, o.rd, o.rd, 0, o.imm)) && FormatOf(CSrai) == FCB
    ensures Meaning(CAndi, o) == Some(Asm(ANDI, o.rd, o.rd, 0, o.imm)) && FormatOf(CAndi) == FCB
    ensures Meaning(CJ, o) == Some(Asm(JAL, 0, 0, 0, o.imm)) && FormatOf(CJ) == FCJ
    ensures Meaning(CBeqz, o) == Some(Asm(BEQ, 0, o.rs1, 0, o.imm)) && FormatOf(CBeqz) == FCB
    ensures Meaning(CBnez, o) == Some(Asm(BNE, 0, o.rs1, 0, o.imm)) && FormatOf(CBnez) == FCB
  {
  }

  lemma AluMeanings(o: Operands)
    ensures Meaning(CSub, o) == Some(Asm(SUB, o.rd, o.rd, o.rs2, 0)) && FormatOf(CSub) == FCA
    ensures Meaning(CXor, o) == Some(Asm(XOR_, o.rd, o.rd, o.rs2, 0)) && FormatOf(CXor) == FCA
    ensures Meaning(COr, o) == Some(Asm(OR_, o.rd, o.rd, o.rs2, 0)) && FormatOf(COr) == FCA
    ensures Meaning(CAnd, o) == Some(Asm(AND_, o.rd, o.rd, o.rs2, 0)) && FormatOf(CAnd) == FCA
    ensures Meaning(CSubw, o) == Some(Asm(SUBW, o.rd, o.rd, o.rs2, 0)) && FormatOf(CSubw) == FCA
    ensures Meaning(CAddw, o) == Some(Asm(ADDW, o.rd, o.rd, o.rs2, 0)) && FormatOf(CAddw) == FCA
  {
  }

  lemma RegisterMeanings(o: Operands)
    ensures o.rs1 != 0 ==> Meaning(CJr, o) == Some(Asm(JALR, 0, o.rs1, 0, 0))
    ensures o.rs1 != 0 ==> Meaning(CJalr, o) == Some(Asm(JALR, 1, o.rs1, 0, 0))
    ensures o.rs2 != 0 ==> Meaning(CMv, o) == Some(Asm(ADD, o.rd, 0, o.rs2, 0))
    ensures Meaning(CAdd, o) == Some(Asm(ADD, o.rd, o.rd, o.rs2, 0)) && FormatOf(CAdd) == FCR
    ensures Meaning(CEbreak, o) == Some(Asm(EBREAK, 0, 0, 0, 0)) && FormatOf(CEbreak) == FCR
    ensures FormatOf(CJr) == FCR && FormatOf(CJalr) == FCR && FormatOf(CMv) == FCR
  {
  }

  lemma OtherReachable(c: U16, f: Format)
    requires f != FCL && f != FCS
    ensures Reachable(f, c)
  {
  }

  lemma Decodes0(c: U16)
    requires c % 4 == 0
    ensures c / 8192 == 0 && RefAddi4spn(c) != 0 ==> Decodes(c, Asm(ADDI, LowReg(c), 2, 0, RefAddi4spn(c)))
    ensures c / 8192 == 1 ==> Decodes(c, Asm(FLD, LowReg(c), HighReg(c), 0, RefDouble(c)))
    ensures c / 8192 == 2 ==> Decodes(c, Asm(LW, LowReg(c), HighReg(c), 0, RefWord(c)))
    ensures c / 8192 == 3 ==> Decodes(c, Asm(LD, LowReg(c), HighReg(c), 0, RefDouble(c)))
    ensures c / 8192 == 5 ==> Decodes(c, Asm(FSD, 0, HighReg(c), LowReg(c), RefDouble(c)))
    ensures c / 8192 == 6 ==> Decodes(c, Asm(SW, 0, HighReg(c), LowReg(c), RefWord(c)))
    ensures c / 8192 == 7 ==> Decodes(c, Asm(SD, 0, HighReg(c), LowReg(c), RefDouble(c)))
  {
    hide *;
    NonzeroWord(c);
    Names0(c);
    OpsMemory(c);
    OpsStack(c);
    OtherReachable(c, FCIW);
    if c / 8192 == 0 && RefAddi4spn(c) != 0 {
      LoadMeanings(OperandsOf(FCIW, c));
      DecodesBy(c, CAddi4spn, FCIW, Asm(ADDI, LowReg(c), 2, 0, RefAddi4spn(c)));
    }
    if c / 8192 in {1, 2, 3} {
      LoadMeanings(OperandsOf(FCL, c));
      if c / 8192 == 1 {
        DecodesBy(c, CFld, FCL, Asm(FLD, LowReg(c), HighReg(c), 0, RefDouble(c)));
      } else if c / 8192 == 2 {
        DecodesBy(c, CLw, FCL, Asm(LW, LowReg(c), HighReg(c), 0, RefWord(c)));
      } else {
        DecodesBy(c, CLd, FCL, Asm(LD, LowReg(c), HighReg(c), 0, RefDouble(c)));
      }
    }
    if c / 8192 in {5, 6, 7} {
      StoreMeanings(OperandsOf(FCS, c));
      if c / 8192 == 5 {
        DecodesBy(c, CFsd, FCS, Asm(FSD, 0, HighReg(c), LowReg(c), RefDouble(c)));
      } else if c / 8192 == 6 {
        DecodesBy(c, CSw, FCS, Asm(SW, 0, HighReg(c), LowReg(c), RefWord(c)));
      } else {
        DecodesBy(c, CSd, FCS, Asm(SD, 0, HighReg(c), LowReg(c), RefDouble(c)));
      }
    }
  }

  lemma NonzeroWord(c: U16)
    ensures RefAddi4spn(c) != 0 ==> c != 0
  {
  }

  lemma Decodes1(c: U16)
    requires c % 4 == 1
    ensures c / 8192 == 0 ==> Decodes(c, Asm(ADDI, RdFull(c), RdFull(c), 0, Signed6(c)))
    ensures c / 8192 == 1 ==> Decodes(c, Asm(ADDIW, RdFull(c), RdFull(c), 0, Signed6(c)))
    ensures c / 8192 == 2 ==> Decodes(c, Asm(ADDI, RdFull(c), 0, 0, Signed6(c)))
    ensures c / 8192 == 3 && RdFull(c) == 2 && RefImm6(c) != 0 ==> Decodes(c, Asm(ADDI, 2, 2, 0, RefAddi16sp(c)))
    ensures c / 8192 == 3 && RdFull(c) != 2 && RdFull(c) != 0 && RefImm6(c) != 0 ==>
      Decodes(c, Asm(LUI, RdFull(c), 0, 0, RefLui(c)))
  {
    hide *;
    Names1(c);
    OpsImm(c);
    OtherReachable(c, FCI);
    ImmMeanings(OperandsOf(FCI, c));
    ZeroImms(c);
    if c / 8192 == 0 {
      DecodesBy(c, if RdFull(c) == 0 then CNop else CAddi, FCI, Asm(ADDI, RdFull(c), RdFull(c), 0, Signed6(c)));
    } else if c / 8192 == 1 {
      DecodesBy(c, CAddiw, FCI, Asm(ADDIW, RdFull(c), RdFull(c), 0, Signed6(c)));
    } else if c / 8192 == 2 {
      DecodesBy(c, CLi, FCI, Asm(ADDI, RdFull(c), 0, 0, Signed6(c)));
    } else if c / 8192 == 3 && RefImm6(c) != 0 && RdFull(c) == 2 {
      DecodesBy(c, CAddi16sp, FCI, Asm(ADDI, 2, 2, 0, RefAddi16sp(c)));
    } else if c / 8192 == 3 && RefImm6(c) != 0 && RdFull(c) != 0 {
      DecodesBy(c, CLui, FCI, Asm(LUI, RdFull(c), 0, 0, RefLui(c)));
    }
  }

  // The scattered immediates vanish together with their bits.
  lemma ZeroImms(c: U16)
    ensures RefImm6(c) != 0 ==> RefAddi16sp(c) != 0 && RefLui(c) != 0
  {
    BitValues(c);
    hide B;
  }

  lemma Decodes1Branch(c: U16)
    requires c % 4 == 1
    ensures c / 8192 == 4 && c / 1024 % 4 == 0 ==> Decodes(c, Asm(SRLI, HighReg(c), HighReg(c), 0, RefImm6(c)))
    ensures c / 8192 == 4 && c / 1024 % 4 == 1 ==> Decodes(c, Asm(SRAI, HighReg(c), HighReg(c), 0, RefImm6(c)))
    ensures c / 8192 == 4 && c / 1024 % 4 == 2 ==> Decodes(c, Asm(ANDI, HighReg(c), HighReg(c), 0, Signed6(c)))
    ensures c / 8192 == 5 ==> Decodes(c, Asm(JAL, 0, 0, 0, RefJump(c)))
    ensures c / 8192 == 6 ==> Decodes(c, Asm(BEQ, 0, HighReg(c), 0, RefBranch(c)))
    ensures c / 8192 == 7 ==> Decodes(c, Asm(BNE, 0, HighReg(c), 0, RefBranch(c)))
  {
    hide *;
    Names1(c);
    OpsBranch(c);
    OpsShift(c);
    OtherReachable(c, FCB);
    OtherReachable(c, FCJ);
    BranchMeanings(OperandsOf(FCB, c));
    BranchMeanings(OperandsOf(FCJ, c));
    if c / 8192 == 4 && c / 1024 % 4 == 0 {
      DecodesBy(c, CSrli, FCB, Asm(SRLI, HighReg(c), HighReg(c), 0, RefImm6(c)));
    } else if c / 8192 == 4 && c / 1024 % 4 == 1 {
      DecodesBy(c, CSrai, FCB, Asm(SRAI, HighReg(c), HighReg(c), 0, RefImm6(c)));
    } else if c / 8192 == 4 && c / 1024 % 4 == 2 {
      DecodesBy(c, CAndi, FCB, Asm(ANDI, HighReg(c), HighReg(c), 0, Signed6(c)));
    } else if c / 8192 == 5 {
      DecodesBy(c, CJ, FCJ, Asm(JAL, 0, 0, 0, RefJump(c)));
    } else if c / 8192 == 6 {
      DecodesBy(c, CBeqz, FCB, Asm(BEQ, 0, HighReg(c), 0, RefBranch(c)));
    } else if c / 8192 == 7 {
      DecodesBy(c, CBnez, FCB, Asm(BNE, 0, HighReg(c), 0, RefBranch(c)));
    }
  }

  lemma DecodesAlu(c: U16)
    requires c % 4 == 1 && c / 8192 == 4 && c / 1024 % 4 == 3 && ExpandAlu(c).Some?
    ensures Decodes(c, ExpandAlu(c).value)
  {
    AluFields(c);
    OpsRegister(c);
    OtherReachable(c, FCA);
    AluMeanings(OperandsOf(FCA, c));
    if c / 4096 % 2 == 0 { NamesAlu0(c); } else { NamesAlu1(c); }
    hide Decodes, NameOf, FormatOf, Meaning, OperandsOf, Reachable, HighReg, LowReg;
    DecodesBy(c, NameOf(c), FCA, ExpandAlu(c).value);
  }

  lemma AluFields(c: U16)
    requires c / 8192 == 4 && c / 1024 % 4 == 3
    ensures c / 4096 % 2 == 0 ==> c / 1024 == 0x23
    ensures c / 4096 % 2 == 1 ==> c / 1024 == 0x27
  {
    ModSplit(c, 1024, 4, 4096);
    ModSplit(c, 4096, 2, 8192);
    assert c / 1024 == c / 4096 * 4 + 3;
  }

  lemma Decodes2(c: U16)
    requires c % 4 == 2
    ensures c / 8192 == 0 ==> Decodes(c, Asm(SLLI, RdFull(c), RdFull(c), 0, RefImm6(c)))
    ensures c / 8192 == 1 ==> Decodes(c, Asm(FLD, RdFull(c), 2, 0, RefLdsp(c)))
    ensures c / 8192 == 2 && RdFull(c) != 0 ==> Decodes(c, Asm(LW, RdFull(c), 2, 0, RefLwsp(c)))
    ensures c / 8192 == 3 && RdFull(c) != 0 ==> Decodes(c, Asm(LD, RdFull(c), 2, 0, RefLdsp(c)))
    ensures c / 8192 == 5 ==> Decodes(c, Asm(FSD, 0, 2, Rs2Full(c), RefSdsp(c)))
    ensures c / 8192 == 6 ==> Decodes(c, Asm(SW, 0, 2, Rs2Full(c), RefSwsp(c)))
    ensures c / 8192 == 7 ==> Decodes(c, Asm(SD, 0, 2, Rs2Full(c), RefSdsp(c)))
  {
    hide *;
    Names2(c);
    OpsStack(c);
    OtherReachable(c, FCI);
    OtherReachable(c, FCSS);
    StackLoadMeanings(OperandsOf(FCI, c));
    StackStoreMeanings(OperandsOf(FCSS, c));
    if c / 8192 == 0 {
      DecodesBy(c, CSlli, FCI, Asm(SLLI, RdFull(c), RdFull(c), 0, RefImm6(c)));
    } else if c / 8192 == 1 {
      DecodesBy(c, CFldsp, FCI, Asm(FLD, RdFull(c), 2, 0, RefLdsp(c)));
    } else if c / 8192 == 2 && RdFull(c) != 0 {
      DecodesBy(c, CLwsp, FCI, Asm(LW, RdFull(c), 2, 0, RefLwsp(c)));
    } else if c / 8192 == 3 && RdFull(c) != 0 {
      DecodesBy(c, CLdsp, FCI, Asm(LD, RdFull(c), 2, 0, RefLdsp(c)));
    } else if c / 8192 == 5 {
      DecodesBy(c, CFsdsp, FCSS, Asm(FSD, 0, 2, Rs2Full(c), RefSdsp(c)));
    } else if c / 8192 == 6 {
      DecodesBy(c, CSwsp, FCSS, Asm(SW, 0, 2, Rs2Full(c), RefSwsp(c)));
    } else if c / 8192 == 7 {
      DecodesBy(c, CSdsp, FCSS, Asm(SD, 0, 2, Rs2Full(c), RefSdsp(c)));
    }
  }

  lemma Decodes2Register(c: U16)
    requires c % 4 == 2 && c / 8192 == 4
    ensures c / 4096 % 2 == 0 && Rs2Full(c) != 0 ==> Decodes(c, Asm(ADD, RdFull(c), 0, Rs2Full(c), 0))
    ensures c / 4096 % 2 == 0 && Rs2Full(c) == 0 && RdFull(c) != 0 ==> Decodes(c, Asm(JALR, 0, RdFull(c), 0, 0))
    ensures c / 4096 % 2 == 1 && Rs2Full(c) != 0 ==> Decodes(c, Asm(ADD, RdFull(c), RdFull(c), Rs2Full(c), 0))
    ensures c / 4096 % 2 == 1 && Rs2Full(c) == 0 && RdFull(c) == 0 ==> Decodes(c, Asm(EBREAK, 0, 0, 0, 0))
    ensures c / 4096 % 2 == 1 && Rs2Full(c) == 0 && RdFull(c) != 0 ==> Decodes(c, Asm(JALR, 1, RdFull(c), 0, 0))
  {
    hide *;
    Funct4Of(c);
    OpsRegister(c);
    OtherReachable(c, FCR);
    RegisterMeanings(OperandsOf(FCR, c));
    if c / 4096 % 2 == 0 {
      NamesReg8(c);
      if Rs2Full(c) != 0 {
        DecodesBy(c, CMv, FCR, Asm(ADD, RdFull(c), 0, Rs2Full(c), 0));
      } else if RdFull(c) != 0 {
        DecodesBy(c, CJr, FCR, Asm(JALR, 0, RdFull(c), 0, 0));
      }
    } else {
      NamesReg9(c);
      if Rs2Full(c) != 0 {
        DecodesBy(c, CAdd, FCR, Asm(ADD, RdFull(c), RdFull(c), Rs2Full(c), 0));
      } else if RdFull(c) == 0 {
        DecodesBy(c, CEbreak, FCR, Asm(EBREAK, 0, 0, 0, 0));
      } else {
        DecodesBy(c, CJalr, FCR, Asm(JALR, 1, RdFull(c), 0, 0));
      }
    }
  }

  lemma Funct4Of(c: U16)
    requires c / 8192 == 4
    ensures c / 4096 % 2 == 0 ==> c / 4096 == 8
    ensures c / 4096 % 2 == 1 ==> c / 4096 == 9
  {
  }

  // c.lui with rd == 0 is a hint whose immediate the decoder reads differently;
  // it writes nothing either way.
  predicate LuiHint(c: U16) { c % 4 == 1 && c / 8192 == 3 && RdFull(c) == 0 && RefImm6(c) != 0 }

  lemma DecodesExpansion(c: U16)
    requires Expand(c).Some? && !LuiHint(c)
    ensures Decodes(c, Expand(c).value)
  {
    hide Decodes, RefImm6, RefAddi16sp, RefLui, RefLwsp, RefLdsp, RefSwsp, RefSdsp, RefAddi4spn, RefWord, RefDouble,
         RefBranch, RefJump, Signed6, RdFull, Rs2Full, LowReg, HighReg, ExpandAlu;
    if c % 4 == 0 {
      Decodes0(c);
    } else if c % 4 == 1 {
      Decodes1(c);
      Decodes1Branch(c);
      if c / 8192 == 4 && c / 1024 % 4 == 3 { DecodesAlu(c); }
    } else {
      Decodes2(c);
      if c / 8192 == 4 { Decodes2Register(c); }
    }
  }

  // The effect of a non-reserved 16-bit word is that of the encoding of its
  // expansion, with pc step and link 2 instead of 4; only the loads to
  // floating-point registers leave FS as it is.
  lemma CompressedEffect(c: U16, r: Regs, pc: U64)
    requires Expand(c).Some?
    ensures CanEncode(Expand(c).value)
    ensures Dirtied(Step16(c, r, pc)) == Execute32(Decode32(Encode(Expand(c).value)), r, pc, 2)
  {
    hide Expand, CanEncode, Encode, Decode32, Execute32, Execute16, RunAsm, Meaning, NameOf, OperandsOf, FormatOf;
    hide LuiHint;
    ExpansionFits(c);
    EncodedRuns(Expand(c).value, r, pc, 2);
    DecodeIsTotal(c);
    if LuiHint(c) {
      HintRuns(c, r, pc);
    } else {
      DecodesExpansion(c);
      NopRegister(c);
      MeaningRuns(NameOf(c), OperandsOf(FormatOf(NameOf(c)), c), r, pc);
    }
  }

  lemma NopRegister(c: U16)
    ensures Reachable(FormatOf(NameOf(c)), c)
    ensures NameOf(c) == CNop ==> OperandsOf(FormatOf(NameOf(c)), c).rd == 0
  {
    DecodeIsTotal(c);
    hide Reachable, ImmCI;
  }

  lemma HintRuns(c: U16, r: Regs, pc: U64)
    requires LuiHint(c)
    ensures Expand(c).Some? && NameOf(c) == CLui
    ensures Step16(c, r, pc) == Keep == RunAsm(Expand(c).value, r, pc, 2)
  {
    Names1(c);
    OpsImm(c);
    DecodeIsTotal(c);
    Imm6Is(c);
    NonzeroSext(RefImm6(c));
    hide NameOf, RefImm6, Sext, RefLui, ImmCI;
  }

  lemma NonzeroSext(x: nat)
    ensures x != 0 && x < 64 ==> Sext(x, 32) != 0
  {
  }
}
