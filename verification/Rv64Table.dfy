/**
 The table of 32-bit instructions: every row of the source, in its order, by the
 fields its pattern fixes.
 */
module Rv64Table {
  import opened Bits
  import opened Wrappers

  // ----- The shapes of the rows -----------------------------------------------------------

  // "fffffff ????? ????? ggg ????? ooooo oo"
  predicate RowR(w: U32, op: nat, f3: nat, f7: nat) {
    w % 128 == op && w / 0x1000 % 8 == f3 && w / 0x200_0000 == f7
  }

  // "ffffff? ????? ????? ggg ????? ooooo oo"
  predicate RowShift(w: U32, op: nat, f3: nat, f6: nat) {
    w % 128 == op && w / 0x1000 % 8 == f3 && w / 0x400_0000 == f6
  }

  // "??????? ????? ????? ggg ????? ooooo oo"
  predicate RowI(w: U32, op: nat, f3: nat) { w % 128 == op && w / 0x1000 % 8 == f3 }

  // "??????? ????? ????? ??? ????? ooooo oo"
  predicate RowU(w: U32, op: nat) { w % 128 == op }

  // "fffff?? ????? ????? ggg ????? 01011 11", and with rs2 zero
  predicate RowAmo(w: U32, f5: nat, f3: nat) {
    w % 128 == AMO && w / 0x1000 % 8 == f3 && w / 0x800_0000 == f5
  }
  predicate RowLr(w: U32, f5: nat, f3: nat) { RowAmo(w, f5, f3) && w / 0x10_0000 % 32 == 0 }

  // "fffffff ????? ????? ??? ????? 10100 11", and with rs2 or rs2 and funct3 fixed
  predicate RowFp(w: U32, f7: nat) { w % 128 == OP_FP && w / 0x200_0000 == f7 }
  predicate RowFpRs2(w: U32, f7: nat, rs2: nat) { RowFp(w, f7) && w / 0x10_0000 % 32 == rs2 }
  predicate RowFpFull(w: U32, f7: nat, rs2: nat, f3: nat) { RowFpRs2(w, f7, rs2) && w / 0x1000 % 8 == f3 }

  // "?????mm ????? ????? ??? ????? ooooo oo"
  predicate RowFma(w: U32, op: nat, fmt: nat) { w % 128 == op && w / 0x200_0000 % 4 == fmt }

  // "fffffff ????? ????? 000 00000 11100 11", and with rs2 fixed and rs1 zero
  predicate RowFence(w: U32, f7: nat) {
    w % 128 == SYSTEM && w / 0x1000 % 8 == 0 && w / 128 % 32 == 0 && w / 0x200_0000 == f7
  }
  predicate RowSystem(w: U32, f7: nat, rs2: nat) {
    RowFence(w, f7) && w / 0x8000 % 32 == 0 && w / 0x10_0000 % 32 == rs2
  }

  // ----- The table ----------------------------------------------------------------------------

  const LOAD: nat := 0x03
  const LOAD_FP: nat := 0x07
  const MISC_MEM: nat := 0x0F
  const OP_IMM: nat := 0x13
  const AUIPC_OP: nat := 0x17
  const OP_IMM_32: nat := 0x1B
  const STORE: nat := 0x23
  const STORE_FP: nat := 0x27
  const AMO: nat := 0x2F
  const OP: nat := 0x33
  const LUI_OP: nat := 0x37
  const OP_32: nat := 0x3B
  const MADD: nat := 0x43
  const MSUB: nat := 0x47
  const NMSUB: nat := 0x4B
  const NMADD: nat := 0x4F
  const OP_FP: nat := 0x53
  const BRANCH: nat := 0x63
  const JALR_OP: nat := 0x67
  const JAL_OP: nat := 0x6F
  const SYSTEM: nat := 0x73

  // Instructions whose execution is not described further
  datatype RowName =
    | AUIPC | FENCE | FENCE_I | LB | LBU | LH | LHU | LWU | ORI | SB | SH | SLL | SLLIW | SLLW | SLT | SLTI
    | SLTIU | SLTU | SRA | SRAIW | SRAW | SRL | SRLIW | SRLW | XORI | CSRRC | CSRRCI | CSRRS | CSRRSI | CSRRW
    | CSRRWI | SFENCE_VMA | WFI | DIV | DIVU | DIVUW | DIVW | MUL | MULH | MULHSU | MULHU | MULW | REM | REMU
    | REMUW | REMW | LR_D | LR_W | SC_D | SC_W | AMOADD_D | AMOADD_W | AMOAND_D | AMOAND_W | AMOOR_D | AMOOR_W
    | AMOXOR_D | AMOXOR_W | AMOMAX_D | AMOMAX_W | AMOMAXU_D | AMOMAXU_W | AMOMIN_D | AMOMIN_W | AMOMINU_D
    | AMOMINU_W | AMOSWAP_D | AMOSWAP_W | FLW | FSW | FADD_S | FSUB_S | FMUL_S | FDIV_S | FSQRT_S | FSGNJ_S
    | FSGNJN_S | FSGNJX_S | FMIN_S | FMAX_S | FCVT_W_S | FCVT_WU_S | FCVT_L_S | FCVT_LU_S | FCVT_S_W | FCVT_S_WU
    | FCVT_S_L | FCVT_S_LU | FMV_X_W | FMV_W_X | FCLASS_S | FEQ_S | FLT_S | FLE_S | FMADD_S | FMSUB_S | FNMSUB_S
    | FNMADD_S | FADD_D | FSUB_D | FMUL_D | FDIV_D | FSQRT_D | FSGNJ_D | FSGNJN_D | FSGNJX_D | FMIN_D | FMAX_D
    | FCVT_W_D | FCVT_WU_D | FCVT_L_D | FCVT_LU_D | FCVT_D_W | FCVT_D_WU | FCVT_D_L | FCVT_D_LU | FCVT_S_D
    | FCVT_D_S | FMV_X_D | FMV_D_X | FCLASS_D | FEQ_D | FLT_D | FLE_D | FMADD_D | FMSUB_D | FNMSUB_D | FNMADD_D

  datatype Op =
    | ADD | ADDI | ADDIW | ADDW | AND_ | ANDI | BEQ | BNE | BLT | BGE | BLTU | BGEU | JAL | JALR | LD | LUI | LW
    | OR_ | SD | SLLI | SRAI | SRLI | SUB | SUBW | SW | XOR_ | EBREAK | ECALL | MRET | SRET | FLD | FSD
    | INV
    | Other(row: RowName)

  // The rows in the source's order, in blocks
  function BaseRows1(w: U32): Option<Op> {
    if RowR(w, OP, 0, 0) then Some(ADD)
    else if RowI(w, OP_IMM, 0) then Some(ADDI)
    else if RowI(w, OP_IMM_32, 0) then Some(ADDIW)
    else if RowR(w, OP_32, 0, 0) then Some(ADDW)
    else if RowR(w, OP, 7, 0) then Some(AND_)
    else if RowI(w, OP_IMM, 7) then Some(ANDI)
    else if RowU(w, AUIPC_OP) then Some(Other(AUIPC))
    else if RowI(w, BRANCH, 0) then Some(BEQ)
    else if RowI(w, BRANCH, 5) then Some(BGE)
    else None
  }

  function BaseRows2(w: U32): Option<Op> {
    if RowI(w, BRANCH, 7) then Some(BGEU)
    else if RowI(w, BRANCH, 4) then Some(BLT)
    else if RowI(w, BRANCH, 6) then Some(BLTU)
    else if RowI(w, BRANCH, 1) then Some(BNE)
    else if RowI(w, MISC_MEM, 0) then Some(Other(FENCE))
    else if RowI(w, MISC_MEM, 1) then Some(Other(FENCE_I))
    else if RowU(w, JAL_OP) then Some(JAL)
    else if RowI(w, JALR_OP, 0) then Some(JALR)
    else if RowI(w, LOAD, 0) then Some(Other(LB))
    else None
  }

  function BaseRows3(w: U32): Option<Op> {
    if RowI(w, LOAD, 4) then Some(Other(LBU))
    else if RowI(w, LOAD, 3) then Some(LD)
    else if RowI(w, LOAD, 1) then Some(Other(LH))
    else if RowI(w, LOAD, 5) then Some(Other(LHU))
    else if RowU(w, LUI_OP) then Some(LUI)
    else if RowI(w, LOAD, 2) then Some(LW)
    else if RowI(w, LOAD, 6) then Some(Other(LWU))
    else if RowR(w, OP, 6, 0) then Some(OR_)
    else if RowI(w, OP_IMM, 6) then Some(Other(ORI))
    else None
  }

  function BaseRows4(w: U32): Option<Op> {
    if RowI(w, STORE, 0) then Some(Other(SB))
    else if RowI(w, STORE, 3) then Some(SD)
    else if RowI(w, STORE, 1) then Some(Other(SH))
    else if RowR(w, OP, 1, 0) then Some(Other(SLL))
    else if RowShift(w, OP_IMM, 1, 0) then Some(SLLI)
    else if RowR(w, OP_IMM_32, 1, 0) then Some(Other(SLLIW))
    else if RowR(w, OP_32, 1, 0) then Some(Other(SLLW))
    else if RowR(w, OP, 2, 0) then Some(Other(SLT))
    else if RowI(w, OP_IMM, 2) then Some(Other(SLTI))
    else None
  }

  function BaseRows5(w: U32): Option<Op> {
    if RowI(w, OP_IMM, 3) then Some(Other(SLTIU))
    else if RowR(w, OP, 3, 0) then Some(Other(SLTU))
    else if RowR(w, OP, 5, 0x20) then Some(Other(SRA))
    else if RowShift(w, OP_IMM, 5, 0x10) then Some(SRAI)
    else if RowR(w, OP_IMM_32, 5, 0x20) then Some(Other(SRAIW))
    else if RowR(w, OP_32, 5, 0x20) then Some(Other(SRAW))
    else if RowR(w, OP, 5, 0) then Some(Other(SRL))
    else if RowShift(w, OP_IMM, 5, 0) then Some(SRLI)
    else if RowR(w, OP_IMM_32, 5, 0) then Some(Other(SRLIW))
    else None
  }

  function BaseRows6(w: U32): Option<Op> {
    if RowR(w, OP_32, 5, 0) then Some(Other(SRLW))
    else if RowR(w, OP, 0, 0x20) then Some(SUB)
    else if RowR(w, OP_32, 0, 0x20) then Some(SUBW)
    else if RowI(w, STORE, 2) then Some(SW)
    else if RowR(w, OP, 4, 0) then Some(XOR_)
    else if RowI(w, OP_IMM, 4) then Some(Other(XORI))
    else if RowI(w, SYSTEM, 3) then Some(Other(CSRRC))
    else if RowI(w, SYSTEM, 7) then Some(Other(CSRRCI))
    else if RowI(w, SYSTEM, 2) then Some(Other(CSRRS))
    else None
  }

  function BaseRows7(w: U32): Option<Op> {
    if RowI(w, SYSTEM, 6) then Some(Other(CSRRSI))
    else if RowI(w, SYSTEM, 1) then Some(Other(CSRRW))
    else if RowI(w, SYSTEM, 5) then Some(Other(CSRRWI))
    else if RowSystem(w, 0, 1) then Some(EBREAK)
    else if RowSystem(w, 0, 0) then Some(ECALL)
    else if RowSystem(w, 0x18, 2) then Some(MRET)
    else if RowFence(w, 9) then Some(Other(SFENCE_VMA))
    else if RowSystem(w, 8, 2) then Some(SRET)
    else if RowSystem(w, 8, 5) then Some(Other(WFI))
    else None
  }

  function MulDivRows1(w: U32): Option<Op> {
    if RowR(w, OP, 4, 1) then Some(Other(DIV))
    else if RowR(w, OP, 5, 1) then Some(Other(DIVU))
    else if RowR(w, OP_32, 5, 1) then Some(Other(DIVUW))
    else if RowR(w, OP_32, 4, 1) then Some(Other(DIVW))
    else if RowR(w, OP, 0, 1) then Some(Other(MUL))
    else if RowR(w, OP, 1, 1) then Some(Other(MULH))
    else None
  }

  function MulDivRows2(w: U32): Option<Op> {
    if RowR(w, OP, 2, 1) then Some(Other(MULHSU))
    else if RowR(w, OP, 3, 1) then Some(Other(MULHU))
    else if RowR(w, OP_32, 0, 1) then Some(Other(MULW))
    else if RowR(w, OP, 6, 1) then Some(Other(REM))
    else if RowR(w, OP, 7, 1) then Some(Other(REMU))
    else if RowR(w, OP_32, 7, 1) then Some(Other(REMUW))
    else if RowR(w, OP_32, 6, 1) then Some(Other(REMW))
    else None
  }

  function AtomicRows1(w: U32): Option<Op> {
    if RowLr(w, 2, 3) then Some(Other(LR_D))
    else if RowLr(w, 2, 2) then Some(Other(LR_W))
    else if RowAmo(w, 3, 3) then Some(Other(SC_D))
    else if RowAmo(w, 3, 2) then Some(Other(SC_W))
    else if RowAmo(w, 0, 3) then Some(Other(AMOADD_D))
    else if RowAmo(w, 0, 2) then Some(Other(AMOADD_W))
    else if RowAmo(w, 0xC, 3) then Some(Other(AMOAND_D))
    else None
  }

  function AtomicRows2(w: U32): Option<Op> {
    if RowAmo(w, 0xC, 2) then Some(Other(AMOAND_W))
    else if RowAmo(w, 8, 3) then Some(Other(AMOOR_D))
    else if RowAmo(w, 8, 2) then Some(Other(AMOOR_W))
    else if RowAmo(w, 4, 3) then Some(Other(AMOXOR_D))
    else if RowAmo(w, 4, 2) then Some(Other(AMOXOR_W))
    else if RowAmo(w, 0x14, 3) then Some(Other(AMOMAX_D))
    else if RowAmo(w, 0x14, 2) then Some(Other(AMOMAX_W))
    else None
  }

  function AtomicRows3(w: U32): Option<Op> {
    if RowAmo(w, 0x1C, 3) then Some(Other(AMOMAXU_D))
    else if RowAmo(w, 0x1C, 2) then Some(Other(AMOMAXU_W))
    else if RowAmo(w, 0x10, 3) then Some(Other(AMOMIN_D))
    else if RowAmo(w, 0x10, 2) then Some(Other(AMOMIN_W))
    else if RowAmo(w, 0x18, 3) then Some(Other(AMOMINU_D))
    else if RowAmo(w, 0x18, 2) then Some(Other(AMOMINU_W))
    else if RowAmo(w, 1, 3) then Some(Other(AMOSWAP_D))
    else if RowAmo(w, 1, 2) then Some(Other(AMOSWAP_W))
    else None
  }

  function SingleRows1(w: U32): Option<Op> {
    if RowI(w, LOAD_FP, 2) then Some(Other(FLW))
    else if RowI(w, STORE_FP, 2) then Some(Other(FSW))
    else if RowFp(w, 0) then Some(Other(FADD_S))
    else if RowFp(w, 4) then Some(Other(FSUB_S))
    else if RowFp(w, 8) then Some(Other(FMUL_S))
    else if RowFp(w, 0xC) then Some(Other(FDIV_S))
    else if RowFpRs2(w, 0x2C, 0) then Some(Other(FSQRT_S))
    else None
  }

  function SingleRows2(w: U32): Option<Op> {
    if RowR(w, OP_FP, 0, 0x10) then Some(Other(FSGNJ_S))
    else if RowR(w, OP_FP, 1, 0x10) then Some(Other(FSGNJN_S))
    else if RowR(w, OP_FP, 2, 0x10) then Some(Other(FSGNJX_S))
    else if RowR(w, OP_FP, 0, 0x14) then Some(Other(FMIN_S))
    else if RowR(w, OP_FP, 1, 0x14) then Some(Other(FMAX_S))
    else if RowFpRs2(w, 0x60, 0) then Some(Other(FCVT_W_S))
    else if RowFpRs2(w, 0x60, 1) then Some(Other(FCVT_WU_S))
    else if RowFpRs2(w, 0x60, 2) then Some(Other(FCVT_L_S))
    else None
  }

  function SingleRows3(w: U32): Option<Op> {
    if RowFpRs2(w, 0x60, 3) then Some(Other(FCVT_LU_S))
    else if RowFpRs2(w, 0x68, 0) then Some(Other(FCVT_S_W))
    else if RowFpRs2(w, 0x68, 1) then Some(Other(FCVT_S_WU))
    else if RowFpRs2(w, 0x68, 2) then Some(Other(FCVT_S_L))
    else if RowFpRs2(w, 0x68, 3) then Some(Other(FCVT_S_LU))
    else if RowFpFull(w, 0x70, 0, 0) then Some(Other(FMV_X_W))
    else if RowFpFull(w, 0x78, 0, 0) then Some(Other(FMV_W_X))
    else None
  }

  function SingleRows4(w: U32): Option<Op> {
    if RowFpFull(w, 0x70, 0, 1) then Some(Other(FCLASS_S))
    else if RowR(w, OP_FP, 2, 0x50) then Some(Other(FEQ_S))
    else if RowR(w, OP_FP, 1, 0x50) then Some(Other(FLT_S))
    else if RowR(w, OP_FP, 0, 0x50) then Some(Other(FLE_S))
    else if RowFma(w, MADD, 0) then Some(Other(FMADD_S))
    else if RowFma(w, MSUB, 0) then Some(Other(FMSUB_S))
    else if RowFma(w, NMSUB, 0) then Some(Other(FNMSUB_S))
    else if RowFma(w, NMADD, 0) then Some(Other(FNMADD_S))
    else None
  }

  function DoubleRows1(w: U32): Option<Op> {
    if RowI(w, LOAD_FP, 3) then Some(FLD)
    else if RowI(w, STORE_FP, 3) then Some(FSD)
    else if RowFp(w, 1) then Some(Other(FADD_D))
    else if RowFp(w, 5) then Some(Other(FSUB_D))
    else if RowFp(w, 9) then Some(Other(FMUL_D))
    else if RowFp(w, 0xD) then Some(Other(FDIV_D))
    else if RowFpRs2(w, 0x2D, 0) then Some(Other(FSQRT_D))
    else if RowR(w, OP_FP, 0, 0x11) then Some(Other(FSGNJ_D))
    else None
  }

  function DoubleRows2(w: U32): Option<Op> {
    if RowR(w, OP_FP, 1, 0x11) then Some(Other(FSGNJN_D))
    else if RowR(w, OP_FP, 2, 0x11) then Some(Other(FSGNJX_D))
    else if RowR(w, OP_FP, 0, 0x15) then Some(Other(FMIN_D))
    else if RowR(w, OP_FP, 1, 0x15) then Some(Other(FMAX_D))
    else if RowFpRs2(w, 0x61, 0) then Some(Other(FCVT_W_D))
    else if RowFpRs2(w, 0x61, 1) then Some(Other(FCVT_WU_D))
    else if RowFpRs2(w, 0x61, 2) then Some(Other(FCVT_L_D))
    else if RowFpRs2(w, 0x61, 3) then Some(Other(FCVT_LU_D))
    else None
  }

  function DoubleRows3(w: U32): Option<Op> {
    if RowFpRs2(w, 0x69, 0) then Some(Other(FCVT_D_W))
    else if RowFpRs2(w, 0x69, 1) then Some(Other(FCVT_D_WU))
    else if RowFpRs2(w, 0x69, 2) then Some(Other(FCVT_D_L))
    else if RowFpRs2(w, 0x69, 3) then Some(Other(FCVT_D_LU))
    else if RowFpRs2(w, 0x20, 1) then Some(Other(FCVT_S_D))
    else if RowFpRs2(w, 0x21, 0) then Some(Other(FCVT_D_S))
    else if RowFpFull(w, 0x71, 0, 0) then Some(Other(FMV_X_D))
    else if RowFpFull(w, 0x79, 0, 0) then Some(Other(FMV_D_X))
    else None
  }

  function DoubleRows4(w: U32): Option<Op> {
    if RowFpFull(w, 0x71, 0, 1) then Some(Other(FCLASS_D))
    else if RowR(w, OP_FP, 2, 0x51) then Some(Other(FEQ_D))
    else if RowR(w, OP_FP, 1, 0x51) then Some(Other(FLT_D))
    else if RowR(w, OP_FP, 0, 0x51) then Some(Other(FLE_D))
    else if RowFma(w, MADD, 1) then Some(Other(FMADD_D))
    else if RowFma(w, MSUB, 1) then Some(Other(FMSUB_D))
    else if RowFma(w, NMSUB, 1) then Some(Other(FNMSUB_D))
    else if RowFma(w, NMADD, 1) then Some(Other(FNMADD_D))
    else None
  }

  function First(a: Option<Op>, b: Option<Op>): Option<Op> { if a.Some? then a else b }

  function BaseRows(w: U32): Option<Op> {
    First(First(BaseRows1(w), First(BaseRows2(w), First(BaseRows3(w), BaseRows4(w)))),
          First(BaseRows5(w), First(BaseRows6(w), BaseRows7(w))))
  }

  function MulDivRows(w: U32): Option<Op> {
    First(MulDivRows1(w), MulDivRows2(w))
  }

  function AtomicRows(w: U32): Option<Op> {
    First(AtomicRows1(w), First(AtomicRows2(w), AtomicRows3(w)))
  }

  function SingleRows(w: U32): Option<Op> {
    First(SingleRows1(w), First(SingleRows2(w), First(SingleRows3(w), SingleRows4(w))))
  }

  function DoubleRows(w: U32): Option<Op> {
    First(DoubleRows1(w), First(DoubleRows2(w), First(DoubleRows3(w), DoubleRows4(w))))
  }

  // The first row of the table that matches; the last row matches every word.
  function OpOf(w: U32): Op {
    var o := First(BaseRows(w), First(MulDivRows(w), First(AtomicRows(w), First(SingleRows(w), DoubleRows(w)))));
    if o.Some? then o.value else INV
  }

  datatype Type = TR | TI | TS | TB | TU | TJ | TR4 | TN

  function TypeOf(op: Op): Type {
    match op
    case ADDI | ADDIW | ANDI | JALR | LD | LW | SLLI | SRAI | SRLI | FLD => TI
    case SD | SW | FSD => TS
    case BEQ | BNE | BLT | BGE | BLTU | BGEU => TB
    case LUI => TU
    case JAL => TJ
    case EBREAK | ECALL | MRET | SRET | INV => TN
    case ADD | ADDW | AND_ | OR_ | SUB | SUBW | XOR_ => TR
    case Other(row) => RowType(row)
  }

  function RowType(row: RowName): Type {
    match row
    case FENCE | FENCE_I | LB | LBU | LH | LHU | LWU | ORI | SLLIW | SLTI | SLTIU | SRAIW | SRLIW | XORI | CSRRC
         | CSRRCI | CSRRS | CSRRSI | CSRRW | CSRRWI | FLW => TI
    case SB | SH | FSW => TS
    case AUIPC => TU
    case FMADD_S | FMSUB_S | FNMSUB_S | FNMADD_S | FMADD_D | FMSUB_D | FNMSUB_D | FNMADD_D => TR4
    case WFI => TN
    case _ => TR
  }
}
