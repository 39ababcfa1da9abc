/**
 The opcode map of chapter 24 of the Unprivileged ISA, and the proof that the
 first-match table is that map.
 */
module Rv64Map {
  import opened Bits
  import opened Wrappers
  import opened Rv64Table

  function F3(w: U32): nat { w / 0x1000 % 8 }
  function F7(w: U32): nat { w / 0x200_0000 }
  function Rs2(w: U32): nat { w / 0x10_0000 % 32 }

  function LoadMap(f3: nat): Op {
    match f3 case 0 => Other(LB) case 1 => Other(LH) case 2 => LW case 3 => LD case 4 => Other(LBU)
      case 5 => Other(LHU) case 6 => Other(LWU) case _ => INV
  }

  function StoreMap(f3: nat): Op {
    match f3 case 0 => Other(SB) case 1 => Other(SH) case 2 => SW case 3 => SD case _ => INV
  }

  function BranchMap(f3: nat): Op {
    match f3 case 0 => BEQ case 1 => BNE case 4 => BLT case 5 => BGE case 6 => BLTU case 7 => BGEU case _ => INV
  }

  function ImmMap(f3: nat, f6: nat): Op {
    match f3
    case 0 => ADDI
    case 1 => if f6 == 0 then SLLI else INV
    case 2 => Other(SLTI)
    case 3 => Other(SLTIU)
    case 4 => Other(XORI)
    case 5 => if f6 == 0 then SRLI else if f6 == 0x10 then SRAI else INV
    case 6 => Other(ORI)
    case 7 => ANDI
    case _ => INV
  }

  function Imm32Map(f3: nat, f7: nat): Op {
    match f3
    case 0 => ADDIW
    case 1 => if f7 == 0 then Other(SLLIW) else INV
    case 5 => if f7 == 0 then Other(SRLIW) else if f7 == 0x20 then Other(SRAIW) else INV
    case _ => INV
  }

  function RegMap(f3: nat, f7: nat): Op {
    if f7 == 0 then
      match f3
      case 0 => ADD case 1 => Other(SLL) case 2 => Other(SLT) case 3 => Other(SLTU)
      case 4 => XOR_ case 5 => Other(SRL) case 6 => OR_ case 7 => AND_ case _ => INV
    else if f7 == 1 then
      match f3
      case 0 => Other(MUL) case 1 => Other(MULH) case 2 => Other(MULHSU) case 3 => Other(MULHU)
      case 4 => Other(DIV) case 5 => Other(DIVU) case 6 => Other(REM) case 7 => Other(REMU) case _ => INV
    else if f7 == 0x20 then
      match f3 case 0 => SUB case 5 => Other(SRA) case _ => INV
    else INV
  }

  function Reg32Map(f3: nat, f7: nat): Op {
    if f7 == 0 then
      match f3 case 0 => ADDW case 1 => Other(SLLW) case 5 => Other(SRLW) case _ => INV
    else if f7 == 1 then
      match f3 case 0 => Other(MULW) case 4 => Other(DIVW) case 5 => Other(DIVUW) case 6 => Other(REMW)
        case 7 => Other(REMUW) case _ => INV
    else if f7 == 0x20 then
      match f3 case 0 => SUBW case 5 => Other(SRAW) case _ => INV
    else INV
  }

  // funct3 zero; every field is fixed except in sfence.vma.
  function PrivilegedMap(w: U32): Op {
    if w / 128 % 32 != 0 then INV
    else if F7(w) == 9 then Other(SFENCE_VMA)
    else if w / 0x8000 % 32 != 0 then INV
    else
      match F7(w)
      case 0 => if Rs2(w) == 0 then ECALL else if Rs2(w) == 1 then EBREAK else INV
      case 8 => if Rs2(w) == 2 then SRET else if Rs2(w) == 5 then Other(WFI) else INV
      case 0x18 => if Rs2(w) == 2 then MRET else INV
      case _ => INV
  }

  function CsrMap(f3: nat): Op {
    match f3
    case 1 => Other(CSRRW) case 2 => Other(CSRRS) case 3 => Other(CSRRC) case 5 => Other(CSRRWI)
    case 6 => Other(CSRRSI) case 7 => Other(CSRRCI)
    case _ => INV
  }

  function SystemMap(w: U32): Op { if F3(w) == 0 then PrivilegedMap(w) else CsrMap(F3(w)) }

  function AmoMap(f5: nat, f3: nat, rs2: nat): Op {
    if f3 == 2 then
      match f5
      case 0 => Other(AMOADD_W) case 1 => Other(AMOSWAP_W) case 2 => if rs2 == 0 then Other(LR_W) else INV
      case 3 => Other(SC_W) case 4 => Other(AMOXOR_W) case 8 => Other(AMOOR_W) case 12 => Other(AMOAND_W)
      case 16 => Other(AMOMIN_W)
      case 20 => Other(AMOMAX_W) case 24 => Other(AMOMINU_W) case 28 => Other(AMOMAXU_W) case _ => INV
    else if f3 == 3 then
      match f5
      case 0 => Other(AMOADD_D) case 1 => Other(AMOSWAP_D) case 2 => if rs2 == 0 then Other(LR_D) else INV
      case 3 => Other(SC_D) case 4 => Other(AMOXOR_D) case 8 => Other(AMOOR_D) case 12 => Other(AMOAND_D)
      case 16 => Other(AMOMIN_D)
      case 20 => Other(AMOMAX_D) case 24 => Other(AMOMINU_D) case 28 => Other(AMOMAXU_D) case _ => INV
    else INV
  }

  // Single precision has even funct7, double the next odd value.
  function SingleMap(f7: nat, rs2: nat, f3: nat): Op {
    match f7
    case 0x00 => Other(FADD_S) case 0x04 => Other(FSUB_S) case 0x08 => Other(FMUL_S) case 0x0C => Other(FDIV_S)
    case 0x10 => if f3 == 0 then Other(FSGNJ_S) else if f3 == 1 then Other(FSGNJN_S)
                 else if f3 == 2 then Other(FSGNJX_S) else INV
    case 0x14 => if f3 == 0 then Other(FMIN_S) else if f3 == 1 then Other(FMAX_S) else INV
    case 0x20 => if rs2 == 1 then Other(FCVT_S_D) else INV
    case 0x2C => if rs2 == 0 then Other(FSQRT_S) else INV
    case 0x50 => if f3 == 0 then Other(FLE_S) else if f3 == 1 then Other(FLT_S)
                 else if f3 == 2 then Other(FEQ_S) else INV
    case 0x60 => if rs2 == 0 then Other(FCVT_W_S) else if rs2 == 1 then Other(FCVT_WU_S)
                 else if rs2 == 2 then Other(FCVT_L_S) else if rs2 == 3 then Other(FCVT_LU_S) else INV
    case 0x68 => if rs2 == 0 then Other(FCVT_S_W) else if rs2 == 1 then Other(FCVT_S_WU)
                 else if rs2 == 2 then Other(FCVT_S_L) else if rs2 == 3 then Other(FCVT_S_LU) else INV
    case 0x70 => if rs2 != 0 then INV else if f3 == 0 then Other(FMV_X_W) else if f3 == 1 then Other(FCLASS_S) else INV
    case 0x78 => if rs2 == 0 && f3 == 0 then Other(FMV_W_X) else INV
    case _ => INV
  }

  function DoubleMap(f7: nat, rs2: nat, f3: nat): Op {
    match f7
    case 0x01 => Other(FADD_D) case 0x05 => Other(FSUB_D) case 0x09 => Other(FMUL_D) case 0x0D => Other(FDIV_D)
    case 0x11 => if f3 == 0 then Other(FSGNJ_D) else if f3 == 1 then Other(FSGNJN_D)
                 else if f3 == 2 then Other(FSGNJX_D) else INV
    case 0x15 => if f3 == 0 then Other(FMIN_D) else if f3 == 1 then Other(FMAX_D) else INV
    case 0x21 => if rs2 == 0 then Other(FCVT_D_S) else INV
    case 0x2D => if rs2 == 0 then Other(FSQRT_D) else INV
    case 0x51 => if f3 == 0 then Other(FLE_D) else if f3 == 1 then Other(FLT_D)
                 else if f3 == 2 then Other(FEQ_D) else INV
    case 0x61 => if rs2 == 0 then Other(FCVT_W_D) else if rs2 == 1 then Other(FCVT_WU_D)
                 else if rs2 == 2 then Other(FCVT_L_D) else if rs2 == 3 then Other(FCVT_LU_D) else INV
    case 0x69 => if rs2 == 0 then Other(FCVT_D_W) else if rs2 == 1 then Other(FCVT_D_WU)
                 else if rs2 == 2 then Other(FCVT_D_L) else if rs2 == 3 then Other(FCVT_D_LU) else INV
    case 0x71 => if rs2 != 0 then INV else if f3 == 0 then Other(FMV_X_D) else if f3 == 1 then Other(FCLASS_D) else INV
    case 0x79 => if rs2 == 0 && f3 == 0 then Other(FMV_D_X) else INV
    case _ => INV
  }

  function FusedMap(w: U32, single: Op, double: Op): Op {
    if F7(w) % 4 == 0 then single else if F7(w) % 4 == 1 then double else INV
  }

  // Floating-point loads and stores
  function FloatMap(op: nat, f3: nat): Op {
    if op == LOAD_FP then if f3 == 2 then Other(FLW) else if f3 == 3 then FLD else INV
    else if f3 == 2 then Other(FSW) else if f3 == 3 then FSD else INV
  }

  // Fences and jalr
  function FenceMap(op: nat, f3: nat): Op {
    if op == MISC_MEM then if f3 == 0 then Other(FENCE) else if f3 == 1 then Other(FENCE_I) else INV
    else if op == JALR_OP then if f3 == 0 then JALR else INV
    else INV
  }

  // The opcodes without funct3
  function UpperMap(op: nat): Op {
    if op == JAL_OP then JAL else if op == LUI_OP then LUI else if op == AUIPC_OP then Other(AUIPC) else INV
  }

  // The memory and integer opcodes
  function IntegerMap(w: U32): Op {
    var op, f3, f7 := w % 128, F3(w), F7(w);
    if op == OP_IMM then ImmMap(f3, w / 0x400_0000)
    else if op == OP_IMM_32 then Imm32Map(f3, f7)
    else if op == OP then RegMap(f3, f7)
    else if op == OP_32 then Reg32Map(f3, f7)
    else if op == LOAD then LoadMap(f3)
    else if op == STORE then StoreMap(f3)
    else if op == BRANCH then BranchMap(f3)
    else if op == JAL_OP || op == LUI_OP || op == AUIPC_OP then UpperMap(op)
    else if op == LOAD_FP || op == STORE_FP then FloatMap(op, f3)
    else FenceMap(op, f3)
  }

  function OpcodeMap(w: U32): Op {
    var op := w % 128;
    if op == SYSTEM then SystemMap(w)
    else if op == AMO then AmoMap(w / 0x800_0000, F3(w), Rs2(w))
    else if op == OP_FP then
      if F7(w) % 2 == 0 then SingleMap(F7(w), Rs2(w), F3(w)) else DoubleMap(F7(w), Rs2(w), F3(w))
    else if op == MADD then FusedMap(w, Other(FMADD_S), Other(FMADD_D))
    else if op == MSUB then FusedMap(w, Other(FMSUB_S), Other(FMSUB_D))
    else if op == NMSUB then FusedMap(w, Other(FNMSUB_S), Other(FNMSUB_D))
    else if op == NMADD then FusedMap(w, Other(FNMADD_S), Other(FNMADD_D))
    else IntegerMap(w)
  }

  // ----- Rows of one extension match none of another's words ---------------------------------

  predicate FpOpcode(op: nat) { op == OP_FP || op == MADD || op == MSUB || op == NMSUB || op == NMADD }

  lemma MulDivSkips(w: U32)
    requires (w % 128 != OP && w % 128 != OP_32) || F7(w) != 1
    ensures MulDivRows(w) == None
  {
  }

  lemma AtomicSkips(w: U32)
    requires w % 128 != AMO
    ensures AtomicRows(w) == None
  {
  }

  lemma FloatSkips(w: U32)
    requires !FpOpcode(w % 128) && w % 128 != LOAD_FP && w % 128 != STORE_FP
    ensures SingleRows(w) == None && DoubleRows(w) == None
  {
  }

  function Found(op: Op): Option<Op> { if op == INV then None else Some(op) }

  // ----- The table is the map, opcode by opcode -----------------------------------------------

  lemma MulDivBase(w: U32)
    requires (w % 128 == OP || w % 128 == OP_32) && F7(w) == 1
    ensures BaseRows(w) == None
  {
  }

  lemma MulDivMap(w: U32)
    requires (w % 128 == OP || w % 128 == OP_32) && F7(w) == 1
    ensures MulDivRows(w) == Found(if w % 128 == OP then RegMap(F3(w), F7(w)) else Reg32Map(F3(w), F7(w)))
  {
  }

  lemma RegisterRows(w: U32)
    requires w % 128 == OP && F7(w) != 1
    ensures BaseRows(w) == Found(RegMap(F3(w), F7(w)))
  {
  }

  lemma RegisterRows32(w: U32)
    requires w % 128 == OP_32 && F7(w) != 1
    ensures BaseRows(w) == Found(Reg32Map(F3(w), F7(w)))
  {
  }

  lemma SystemRows(w: U32)
    requires w % 128 == SYSTEM
    ensures BaseRows(w) == Found(SystemMap(w))
  {
  }

  lemma MemoryRows(w: U32)
    requires w % 128 == LOAD || w % 128 == STORE || w % 128 == MISC_MEM
    ensures BaseRows(w) == Found(IntegerMap(w))
  {
    hide RegMap, Reg32Map, ImmMap, Imm32Map, BranchMap;
  }

  lemma ImmediateRows(w: U32)
    requires w % 128 == OP_IMM
    ensures BaseRows(w) == Found(ImmMap(F3(w), w / 0x400_0000))
  {
  }

  lemma ImmediateRows32(w: U32)
    requires w % 128 == OP_IMM_32
    ensures BaseRows(w) == Found(Imm32Map(F3(w), F7(w)))
  {
  }

  lemma ControlRows(w: U32)
    requires w % 128 == BRANCH || w % 128 == JAL_OP || w % 128 == JALR_OP || w % 128 == AUIPC_OP || w % 128 == LUI_OP
    ensures BaseRows(w) == Found(IntegerMap(w))
  {
    hide RegMap, Reg32Map, ImmMap, Imm32Map, LoadMap, StoreMap;
  }

  predicate BaseOpcode(op: nat) {
    || op == OP || op == OP_32 || op == SYSTEM || op == LOAD || op == STORE || op == MISC_MEM || op == OP_IMM
    || op == OP_IMM_32 || op == BRANCH || op == JAL_OP || op == JALR_OP || op == AUIPC_OP || op == LUI_OP
  }

  lemma NoBase(w: U32)
    requires !BaseOpcode(w % 128)
    ensures BaseRows(w) == None
  {
  }

  lemma AtomicMap(w: U32)
    requires w % 128 == AMO
    ensures AtomicRows(w) == Found(AmoMap(w / 0x800_0000, F3(w), Rs2(w)))
  {
    hide AtomicRows, AmoMap;
    if w / 0x800_0000 < 16 {
      if F3(w) == 2 { AtomicWords(w); } else { AtomicDoubles(w); }
    } else {
      if F3(w) == 2 { AtomicWordExtremes(w); } else { AtomicDoubleExtremes(w); }
    }
  }

  lemma AtomicWords(w: U32)
    requires w % 128 == AMO && F3(w) == 2 && w / 0x800_0000 < 16
    ensures AtomicRows(w) == Found(AmoMap(w / 0x800_0000, 2, Rs2(w)))
  {
  }

  lemma AtomicDoubles(w: U32)
    requires w % 128 == AMO && F3(w) != 2 && w / 0x800_0000 < 16
    ensures AtomicRows(w) == Found(AmoMap(w / 0x800_0000, F3(w), Rs2(w)))
  {
  }

  // The minimum and maximum operations
  lemma AtomicWordExtremes(w: U32)
    requires w % 128 == AMO && F3(w) == 2 && w / 0x800_0000 >= 16
    ensures AtomicRows(w) == Found(AmoMap(w / 0x800_0000, 2, Rs2(w)))
  {
  }

  lemma AtomicDoubleExtremes(w: U32)
    requires w % 128 == AMO && F3(w) != 2 && w / 0x800_0000 >= 16
    ensures AtomicRows(w) == Found(AmoMap(w / 0x800_0000, F3(w), Rs2(w)))
  {
  }

  // The computational floating-point rows, one format at a time

  lemma SingleRowsMap(w: U32)
    requires w % 128 == OP_FP && F7(w) % 2 == 0 && F7(w) != 0x20
    ensures SingleRows(w) == Found(SingleMap(F7(w), Rs2(w), F3(w)))
  {
    hide SingleRows, SingleMap;
    if F7(w) < 0x10 {
      SingleArithmetic(w);
    } else if F7(w) < 0x20 {
      SingleSelections(w);
    } else if F7(w) < 0x60 {
      SingleComparisons(w);
    } else if F7(w) < 0x68 {
      SingleToInteger(w);
    } else if F7(w) < 0x70 {
      SingleFromInteger(w);
    } else {
      SingleMoves(w);
    }
  }

  lemma SingleToInteger(w: U32)
    requires w % 128 == OP_FP && F7(w) % 2 == 0 && 0x60 <= F7(w) < 0x68
    ensures SingleRows(w) == Found(SingleMap(F7(w), Rs2(w), F3(w)))
  {
  }

  lemma SingleFromInteger(w: U32)
    requires w % 128 == OP_FP && F7(w) % 2 == 0 && 0x68 <= F7(w) < 0x70
    ensures SingleRows(w) == Found(SingleMap(F7(w), Rs2(w), F3(w)))
  {
  }

  lemma SingleMoves(w: U32)
    requires w % 128 == OP_FP && F7(w) % 2 == 0 && 0x70 <= F7(w)
    ensures SingleRows(w) == Found(SingleMap(F7(w), Rs2(w), F3(w)))
  {
  }

  lemma SingleArithmetic(w: U32)
    requires w % 128 == OP_FP && F7(w) % 2 == 0 && F7(w) < 0x10
    ensures SingleRows(w) == Found(SingleMap(F7(w), Rs2(w), F3(w)))
  {
  }

  lemma SingleSelections(w: U32)
    requires w % 128 == OP_FP && F7(w) % 2 == 0 && 0x10 <= F7(w) < 0x20
    ensures SingleRows(w) == Found(SingleMap(F7(w), Rs2(w), F3(w)))
  {
  }

  lemma SingleComparisons(w: U32)
    requires w % 128 == OP_FP && F7(w) % 2 == 0 && 0x20 <= F7(w) < 0x60 && F7(w) != 0x20
    ensures SingleRows(w) == Found(SingleMap(F7(w), Rs2(w), F3(w)))
  {
  }

  lemma DoubleRowsMap(w: U32)
    requires w % 128 == OP_FP && F7(w) % 2 == 1
    ensures DoubleRows(w) == Found(DoubleMap(F7(w), Rs2(w), F3(w)))
  {
    hide DoubleRows, DoubleMap;
    if F7(w) < 0x10 {
      DoubleArithmetic(w);
    } else if F7(w) < 0x20 {
      DoubleSelections(w);
    } else if F7(w) < 0x60 {
      DoubleComparisons(w);
    } else if F7(w) < 0x68 {
      DoubleToInteger(w);
    } else if F7(w) < 0x70 {
      DoubleFromInteger(w);
    } else {
      DoubleMoves(w);
    }
  }

  lemma DoubleToInteger(w: U32)
    requires w % 128 == OP_FP && F7(w) % 2 == 1 && 0x60 <= F7(w) < 0x68
    ensures DoubleRows(w) == Found(DoubleMap(F7(w), Rs2(w), F3(w)))
  {
  }

  lemma DoubleFromInteger(w: U32)
    requires w % 128 == OP_FP && F7(w) % 2 == 1 && 0x68 <= F7(w) < 0x70
    ensures DoubleRows(w) == Found(DoubleMap(F7(w), Rs2(w), F3(w)))
  {
  }

  lemma DoubleMoves(w: U32)
    requires w % 128 == OP_FP && F7(w) % 2 == 1 && 0x70 <= F7(w)
    ensures DoubleRows(w) == Found(DoubleMap(F7(w), Rs2(w), F3(w)))
  {
  }

  lemma DoubleArithmetic(w: U32)
    requires w % 128 == OP_FP && F7(w) % 2 == 1 && F7(w) < 0x10
    ensures DoubleRows(w) == Found(DoubleMap(F7(w), Rs2(w), F3(w)))
  {
  }

  lemma DoubleSelections(w: U32)
    requires w % 128 == OP_FP && F7(w) % 2 == 1 && 0x10 <= F7(w) < 0x20
    ensures DoubleRows(w) == Found(DoubleMap(F7(w), Rs2(w), F3(w)))
  {
  }

  lemma DoubleComparisons(w: U32)
    requires w % 128 == OP_FP && F7(w) % 2 == 1 && 0x20 <= F7(w) < 0x60
    ensures DoubleRows(w) == Found(DoubleMap(F7(w), Rs2(w), F3(w)))
  {
  }

  // A row of the other format matches only for fcvt.s.d, whose funct7 is even.
  lemma OtherFormat(w: U32)
    requires w % 128 == OP_FP
    ensures F7(w) % 2 == 1 || F7(w) == 0x20 ==> SingleRows(w) == None
    ensures F7(w) % 2 == 0 ==> DoubleRows(w) == if F7(w) == 0x20 && Rs2(w) == 1 then Some(Other(FCVT_S_D)) else None
  {
  }

  lemma FusedRows(w: U32)
    requires w % 128 == MADD || w % 128 == MSUB || w % 128 == NMSUB || w % 128 == NMADD
    ensures First(SingleRows(w), DoubleRows(w)) == Found(OpcodeMap(w))
  {
    hide SingleMap, DoubleMap, AmoMap, SystemMap, IntegerMap;
  }

  lemma FpMemoryRows(w: U32)
    requires w % 128 == LOAD_FP || w % 128 == STORE_FP
    ensures First(SingleRows(w), DoubleRows(w)) == Found(IntegerMap(w))
  {
  }

  lemma UnusedOpcode(w: U32)
    requires !BaseOpcode(w % 128) && !FpOpcode(w % 128) && w % 128 != AMO && w % 128 != LOAD_FP && w % 128 != STORE_FP
    ensures OpcodeMap(w) == INV
  {
  }

  // The first-match scan of the 160 rows selects what the opcode map assigns.
  lemma TableIsMap(w: U32)
    ensures OpOf(w) == OpcodeMap(w)
  {
    hide BaseRows, MulDivRows, AtomicRows, SingleRows, DoubleRows;
    hide RegMap, Reg32Map, ImmMap, Imm32Map, SystemMap, AmoMap, DoubleMap;
    var op := w % 128;
    if op != AMO { AtomicSkips(w); } else { AtomicMap(w); }
    if op == OP || op == OP_32 {
      if F7(w) == 1 {
        MulDivBase(w);
        MulDivMap(w);
      } else {
        MulDivSkips(w);
        if op == OP { RegisterRows(w); } else { RegisterRows32(w); }
      }
    } else {
      MulDivSkips(w);
    }
    if !FpOpcode(op) && op != LOAD_FP && op != STORE_FP { FloatSkips(w); }
    if !BaseOpcode(op) { NoBase(w); }
    if op == SYSTEM {
      SystemRows(w);
    } else if op == LOAD || op == STORE || op == MISC_MEM {
      MemoryRows(w);
    } else if op == OP_IMM {
      ImmediateRows(w);
    } else if op == OP_IMM_32 {
      ImmediateRows32(w);
    } else if op == BRANCH || op == JAL_OP || op == JALR_OP || op == AUIPC_OP || op == LUI_OP {
      ControlRows(w);
    } else if op == OP_FP {
      OtherFormat(w);
      if F7(w) % 2 == 1 { DoubleRowsMap(w); } else if F7(w) != 0x20 { SingleRowsMap(w); }
    } else if op == LOAD_FP || op == STORE_FP {
      FpMemoryRows(w);
    } else if op == MADD || op == MSUB || op == NMSUB || op == NMADD {
      FusedRows(w);
    } else if op != OP && op != OP_32 && op != AMO {
      UnusedOpcode(w);
    }
  }
}
