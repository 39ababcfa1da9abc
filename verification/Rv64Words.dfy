/**
 Decoding by number: the words that select each operation, the fields of its
 operands, one word of every compressed instruction with what it abbreviates,
 and the reserved words.
 */
module Rv64Words {
  import opened Bits
  import opened Wrappers
  import opened Rv64Table
  import opened Rv64Decode
  import opened Rv64Map
  import opened RvcDecode
  import opened RvcImm
  import opened Rvc
  import opened RvcMachine

  // ----- 32-bit words --------------------------------------------------------------------------

  lemma RegisterOps(w: U32)
    requires w % 128 == 0x33
    ensures var op, f3, f7 := OpOf(w), w / 0x1000 % 8, w / 0x200_0000;
      && (op == ADD <==> f3 == 0 && f7 == 0) && (op == SUB <==> f3 == 0 && f7 == 0x20)
      && (op == XOR_ <==> f3 == 4 && f7 == 0) && (op == OR_ <==> f3 == 6 && f7 == 0)
      && (op == AND_ <==> f3 == 7 && f7 == 0)
      && (op == Other(SLL) <==> f3 == 1 && f7 == 0) && (op == Other(SRL) <==> f3 == 5 && f7 == 0)
      && (op == Other(SRA) <==> f3 == 5 && f7 == 0x20)
      && (op == Other(MUL) <==> f3 == 0 && f7 == 1) && (op == Other(MULH) <==> f3 == 1 && f7 == 1)
      && (op == Other(MULHSU) <==> f3 == 2 && f7 == 1) && (op == Other(MULHU) <==> f3 == 3 && f7 == 1)
      && (op == Other(DIV) <==> f3 == 4 && f7 == 1) && (op == Other(DIVU) <==> f3 == 5 && f7 == 1)
      && (op == Other(REM) <==> f3 == 6 && f7 == 1) && (op == Other(REMU) <==> f3 == 7 && f7 == 1)
  {
    hide OpOf, SystemMap, AmoMap, SingleMap, DoubleMap, FusedMap, ImmMap, Imm32Map, Reg32Map, LoadMap, StoreMap,
         BranchMap, UpperMap, FloatMap, FenceMap;
    TableIsMap(w);
  }

  lemma WideOps(w: U32)
    requires w % 128 == 0x3B
    ensures var op, f3, f7 := OpOf(w), w / 0x1000 % 8, w / 0x200_0000;
      && (op == ADDW <==> f3 == 0 && f7 == 0) && (op == SUBW <==> f3 == 0 && f7 == 0x20)
      && (op == Other(MULW) <==> f3 == 0 && f7 == 1)
      && (op == Other(DIVW) <==> f3 == 4 && f7 == 1) && (op == Other(DIVUW) <==> f3 == 5 && f7 == 1)
      && (op == Other(REMW) <==> f3 == 6 && f7 == 1) && (op == Other(REMUW) <==> f3 == 7 && f7 == 1)
  {
    hide OpOf, SystemMap, AmoMap, SingleMap, DoubleMap, FusedMap, ImmMap, Imm32Map, RegMap, LoadMap, StoreMap,
         BranchMap, UpperMap, FloatMap, FenceMap;
    TableIsMap(w);
  }

  lemma ImmediateOps(w: U32)
    ensures var op, f3, f6 := OpOf(w), w / 0x1000 % 8, w / 0x400_0000;
      && (w % 128 == 0x13 ==>
           && (op == ADDI <==> f3 == 0) && (op == ANDI <==> f3 == 7) && (op == SLLI <==> f3 == 1 && f6 == 0)
           && (op == SRLI <==> f3 == 5 && f6 == 0) && (op == SRAI <==> f3 == 5 && f6 == 0x10))
      && (w % 128 == 0x1B ==> (op == ADDIW <==> f3 == 0))
  {
    hide OpOf, SystemMap, AmoMap, SingleMap, DoubleMap, FusedMap, RegMap, Reg32Map, LoadMap, StoreMap, BranchMap,
         UpperMap, FloatMap, FenceMap;
    TableIsMap(w);
  }

  lemma MemoryOps(w: U32)
    ensures var op, f3 := OpOf(w), w / 0x1000 % 8;
      && (w % 128 == 0x03 ==> (op == LW <==> f3 == 2) && (op == LD <==> f3 == 3))
      && (w % 128 == 0x23 ==> (op == SW <==> f3 == 2) && (op == SD <==> f3 == 3))
      && (w % 128 == 0x07 ==> (op == FLD <==> f3 == 3))
      && (w % 128 == 0x27 ==> (op == FSD <==> f3 == 3))
  {
    hide OpOf, SystemMap, AmoMap, SingleMap, DoubleMap, FusedMap, RegMap, Reg32Map, ImmMap, Imm32Map, BranchMap,
         UpperMap, FenceMap;
    TableIsMap(w);
  }

  lemma ControlOps(w: U32)
    ensures var op, f3 := OpOf(w), w / 0x1000 % 8;
      && (w % 128 == 0x63 ==>
           && (op == BEQ <==> f3 == 0) && (op == BNE <==> f3 == 1) && (op == BLT <==> f3 == 4)
           && (op == BGE <==> f3 == 5) && (op == BLTU <==> f3 == 6) && (op == BGEU <==> f3 == 7))
      && (w % 128 == 0x6F ==> op == JAL) && (w % 128 == 0x37 ==> op == LUI)
      && (w % 128 == 0x67 ==> (op == JALR <==> f3 == 0))
  {
    hide OpOf, SystemMap, AmoMap, SingleMap, DoubleMap, FusedMap, RegMap, Reg32Map, ImmMap, Imm32Map, LoadMap,
         StoreMap, FloatMap;
    TableIsMap(w);
  }

  lemma SystemOps(w: U32)
    requires w % 128 == 0x73
    ensures OpOf(w) == ECALL <==> w == 0x73
    ensures OpOf(w) == EBREAK <==> w == 0x10_0073
    ensures OpOf(w) == SRET <==> w == 0x1020_0073
    ensures OpOf(w) == MRET <==> w == 0x3020_0073
  {
    hide OpOf, AmoMap, SingleMap, DoubleMap, FusedMap, IntegerMap, F3, F7, Rs2;
    TableIsMap(w);
    FixedWord(w);
    SystemFields();
  }

  // The word that the fields of an instruction make up
  lemma FixedWord(w: U32)
    ensures w == F7(w) * 0x200_0000 + Rs2(w) * 0x10_0000 + w / 0x8000 % 32 * 0x8000 + F3(w) * 0x1000
      + w / 128 % 32 * 128 + w % 128
  {
    ModSplit(w, 128, 32, 0x1000);
    ModSplit(w, 0x1000, 8, 0x8000);
    ModSplit(w, 0x8000, 32, 0x10_0000);
    ModSplit(w, 0x10_0000, 32, 0x200_0000);
    Euclid(w, 0x200_0000);
  }

  lemma SystemFields()
    ensures F3(0x73) == F7(0x73) == Rs2(0x73) == 0
    ensures F3(0x10_0073) == F7(0x10_0073) == 0 && Rs2(0x10_0073) == 1
    ensures F3(0x1020_0073) == 0 && F7(0x1020_0073) == 8 && Rs2(0x1020_0073) == 2
    ensures F3(0x3020_0073) == 0 && F7(0x3020_0073) == 0x18 && Rs2(0x3020_0073) == 2
  {
  }

  // The registers, and the immediate of a word of each type
  lemma OperandsAre(w: U32)
    ensures Decode32(w).op == OpOf(w)
    ensures var o := Decode32(w).o;
      && o.rd == w / 0x80 % 32 && o.rs1 == w / 0x8000 % 32 && o.rs2 == w / 0x10_0000 % 32
      && o.imm == Imm32(TypeOf(OpOf(w)), w)
    ensures Imm32(TI, 0xFF55_8513) == -11 && Imm32(TS, 0x0AC5_B423) == 168    // addi a0, a1, -11; sd a2, 168(a1)
    ensures Imm32(TB, 0xFA04_85E3) == -86 && Imm32(TJ, 0xAABF_F06F) == -1366  // beq s1, x0, .-86; j .-1366
    ensures Imm32(TU, 0xFFFF_52B7) == -0xB000                                 // lui t0, 0xFFFF5
  {
    hide OpOf, TypeOf;
  }

  // ----- 16-bit words --------------------------------------------------------------------------

  lemma LoadWords()
    ensures Expand(0x3544) == Some(Asm(FLD, 9, 10, 0, 168))  // c.fld f9, 168(x10)
    ensures Expand(0x4964) == Some(Asm(LW, 9, 10, 0, 84))  // c.lw x9, 84(x10)
    ensures Expand(0x7544) == Some(Asm(LD, 9, 10, 0, 168))  // c.ld x9, 168(x10)
  {
    hide RefImm6, RefAddi16sp, RefLui, RefLwsp, RefLdsp, RefSwsp, RefSdsp, RefAddi4spn, RefWord, RefDouble,
         RefBranch, RefJump;
    RegImms(0x3544);
    RegImms(0x4964);
    RegImms(0x7544);
  }

  lemma StoreWords()
    ensures Expand(0xB544) == Some(Asm(FSD, 0, 10, 9, 168))  // c.fsd f9, 168(x10)
    ensures Expand(0xC964) == Some(Asm(SW, 0, 10, 9, 84))  // c.sw x9, 84(x10)
    ensures Expand(0xF544) == Some(Asm(SD, 0, 10, 9, 168))  // c.sd x9, 168(x10)
  {
    hide RefImm6, RefAddi16sp, RefLui, RefLwsp, RefLdsp, RefSwsp, RefSdsp, RefAddi4spn, RefWord, RefDouble,
         RefBranch, RefJump;
    RegImms(0xB544);
    RegImms(0xC964);
    RegImms(0xF544);
  }

  lemma ImmediateWords()
    ensures Expand(0x02E0) == Some(Asm(ADDI, 8, 2, 0, 332))  // c.addi4spn x8, sp, 0x14C
    ensures Expand(0x12D5) == Some(Asm(ADDI, 5, 5, 0, -11))  // c.addi x5, -11
    ensures Expand(0x32D5) == Some(Asm(ADDIW, 5, 5, 0, -11))  // c.addiw x5, -11
    ensures Expand(0x52D5) == Some(Asm(ADDI, 5, 0, 0, -11))  // c.li x5, -11
  {
    hide RefImm6, RefAddi16sp, RefLui, RefLwsp, RefLdsp, RefSwsp, RefSdsp, RefAddi4spn, RefWord, RefDouble,
         RefBranch, RefJump;
    StackImms(0x02E0);
    Imm6Is(0x12D5);
    Imm6Is(0x32D5);
    Imm6Is(0x52D5);
  }

  lemma UpperWords()
    ensures Expand(0x714D) == Some(Asm(ADDI, 2, 2, 0, -336))  // c.addi16sp -0x150
    ensures Expand(0x72D5) == Some(Asm(LUI, 5, 0, 0, -45056))  // c.lui x5, -11
  {
    hide RefImm6, RefAddi16sp, RefLui, RefLwsp, RefLdsp, RefSwsp, RefSdsp, RefAddi4spn, RefWord, RefDouble,
         RefBranch, RefJump;
    Addi16spImm(0x714D);
    Imm6Is(0x714D);
    LuiImm(0x72D5);
    Imm6Is(0x72D5);
  }

  lemma ShiftWords()
    ensures Expand(0x9095) == Some(Asm(SRLI, 9, 9, 0, 37))  // c.srli x9, 37
    ensures Expand(0x9495) == Some(Asm(SRAI, 9, 9, 0, 37))  // c.srai x9, 37
    ensures Expand(0x98D5) == Some(Asm(ANDI, 9, 9, 0, -11))  // c.andi x9, -11
    ensures Expand(0x1296) == Some(Asm(SLLI, 5, 5, 0, 37))  // c.slli x5, 37
  {
    hide RefImm6, RefAddi16sp, RefLui, RefLwsp, RefLdsp, RefSwsp, RefSdsp, RefAddi4spn, RefWord, RefDouble,
         RefBranch, RefJump;
    Imm6Is(0x9095);
    Imm6Is(0x9495);
    Imm6Is(0x98D5);
    Imm6Is(0x1296);
  }

  lemma RegisterWords()
    ensures Expand(0x8C05) == Some(Asm(SUB, 8, 8, 9, 0))  // c.sub x8, x9
    ensures Expand(0x8C25) == Some(Asm(XOR_, 8, 8, 9, 0))  // c.xor x8, x9
    ensures Expand(0x8C45) == Some(Asm(OR_, 8, 8, 9, 0))  // c.or x8, x9
    ensures Expand(0x8C65) == Some(Asm(AND_, 8, 8, 9, 0))  // c.and x8, x9
    ensures Expand(0x9C05) == Some(Asm(SUBW, 8, 8, 9, 0))  // c.subw x8, x9
    ensures Expand(0x9C25) == Some(Asm(ADDW, 8, 8, 9, 0))  // c.addw x8, x9
  {
    hide RefImm6, RefAddi16sp, RefLui, RefLwsp, RefLdsp, RefSwsp, RefSdsp, RefAddi4spn, RefWord, RefDouble,
         RefBranch, RefJump;
  }

  lemma JumpWords()
    ensures Expand(0xB46D) == Some(Asm(JAL, 0, 0, 0, -1366))  // c.j -1366
    ensures Expand(0x8282) == Some(Asm(JALR, 0, 5, 0, 0))  // c.jr x5
    ensures Expand(0x9282) == Some(Asm(JALR, 1, 5, 0, 0))  // c.jalr x5
  {
    hide RefImm6, RefAddi16sp, RefLui, RefLwsp, RefLdsp, RefSwsp, RefSdsp, RefAddi4spn, RefWord, RefDouble,
         RefBranch, RefJump;
    JumpImmIs(0xB46D);
  }

  lemma EqualWords()
    ensures Expand(0xD4CD) == Some(Asm(BEQ, 0, 9, 0, -86))  // c.beqz x9, -86
  {
    hide RefImm6, RefAddi16sp, RefLui, RefLwsp, RefLdsp, RefSwsp, RefSdsp, RefAddi4spn, RefWord, RefDouble,
         RefBranch, RefJump;
    BranchImmIs(0xD4CD);
  }

  lemma UnequalWords()
    ensures Expand(0xF4CD) == Some(Asm(BNE, 0, 9, 0, -86))  // c.bnez x9, -86
  {
    hide RefImm6, RefAddi16sp, RefLui, RefLwsp, RefLdsp, RefSwsp, RefSdsp, RefAddi4spn, RefWord, RefDouble,
         RefBranch, RefJump;
    BranchImmIs(0xF4CD);
  }

  lemma StackLoadWords()
    ensures Expand(0x32B2) == Some(Asm(FLD, 5, 2, 0, 296))  // c.fldsp f5, 296(sp)
    ensures Expand(0x72B2) == Some(Asm(LD, 5, 2, 0, 296))  // c.ldsp x5, 296(sp)
  {
    hide RefImm6, RefAddi16sp, RefLui, RefLwsp, RefLdsp, RefSwsp, RefSdsp, RefAddi4spn, RefWord, RefDouble,
         RefBranch, RefJump, ImmCIW;
    StackImms(0x32B2);
    StackImms(0x72B2);
  }

  lemma StackWordWords()
    ensures Expand(0x42DA) == Some(Asm(LW, 5, 2, 0, 148))  // c.lwsp x5, 148(sp)
    ensures Expand(0xCB26) == Some(Asm(SW, 0, 2, 9, 148))  // c.swsp x9, 148(sp)
  {
    hide RefImm6, RefAddi16sp, RefLui, RefLwsp, RefLdsp, RefSwsp, RefSdsp, RefAddi4spn, RefWord, RefDouble,
         RefBranch, RefJump, ImmCIW;
    StackImms(0x42DA);
    StackImms(0xCB26);
  }

  lemma StackStoreWords()
    ensures Expand(0xB626) == Some(Asm(FSD, 0, 2, 9, 296))  // c.fsdsp f9, 296(sp)
    ensures Expand(0xF626) == Some(Asm(SD, 0, 2, 9, 296))  // c.sdsp x9, 296(sp)
  {
    hide RefImm6, RefAddi16sp, RefLui, RefLwsp, RefLdsp, RefSwsp, RefSdsp, RefAddi4spn, RefWord, RefDouble,
         RefBranch, RefJump, ImmCIW;
    StackImms(0xB626);
    StackImms(0xF626);
  }

  lemma MoveWords()
    ensures Expand(0x82A6) == Some(Asm(ADD, 5, 0, 9, 0))  // c.mv x5, x9
    ensures Expand(0x9002) == Some(Asm(EBREAK, 0, 0, 0, 0))  // c.ebreak
    ensures Expand(0x92A6) == Some(Asm(ADD, 5, 5, 9, 0))  // c.add x5, x9
  {
    hide RefImm6, RefAddi16sp, RefLui, RefLwsp, RefLdsp, RefSwsp, RefSdsp, RefAddi4spn, RefWord, RefDouble,
         RefBranch, RefJump;
  }

  // RESERVED: a reserved 16-bit word is illegal, but for c.addiw to register 0,
  // which does nothing; no other word is.
  lemma ReservedIsIllegal(c: U16, r: Regs, pc: U64)
    requires c % 4 != 3
    ensures Step16(c, r, pc).Illegal? <==> Expand(c) == None && !(c % 4 == 1 && c / 8192 == 1)
    ensures Expand(c) == None && c % 4 == 1 && c / 8192 == 1 ==> Step16(c, r, pc) == Keep
  {
    hide Step16, Expand0, Expand1, Expand2, RunAsm, Execute32, Decode32, Encode, CanEncode, Encodes;
    if Expand(c).Some? {
      CompressedEffect(c, r, pc);
      EncodedRuns(Expand(c).value, r, pc, 2);
      ExpansionKinds(c);
      EffectKinds(Expand(c).value, r, pc);
    } else if c % 4 == 0 {
      Reserved0(c, r, pc);
    } else if c % 4 == 1 {
      Reserved1(c, r, pc);
    } else {
      Reserved2(c, r, pc);
    }
  }

  lemma Reserved0(c: U16, r: Regs, pc: U64)
    requires c % 4 == 0 && Expand0(c) == None
    ensures Step16(c, r, pc).Illegal?
  {
    ReservedNames(c);
    OpsStack(c);
    DecodeIsTotal(c);
    hide NameOf, OperandsOf, RefAddi4spn, RefWord, RefDouble;
  }

  lemma ReservedNames(c: U16)
    ensures c % 4 == 0 && c / 8192 == 0 ==> NameOf(c) == CInv || NameOf(c) == CAddi4spn
    ensures c % 4 == 0 && c / 8192 == 4 ==> NameOf(c) == Inv
  {
  }

  lemma ReservedAluNames(c: U16)
    requires c % 4 == 1 && c / 1024 == 0x27 && c / 32 % 4 >= 2
    ensures NameOf(c) == Inv
  {
  }

  lemma Reserved1(c: U16, r: Regs, pc: U64)
    requires c % 4 == 1 && Expand1(c) == None
    ensures if c / 8192 == 1 then Step16(c, r, pc) == Keep else Step16(c, r, pc).Illegal?
  {
    DecodeIsTotal(c);
    hide Step16, RefImm6, RefAddi16sp, RefLui, RefBranch, RefJump, Signed6, ExpandAlu;
    if c / 8192 == 4 {
      ReservedAlu(c, r, pc);
    } else {
      ReservedImmediate(c, r, pc);
    }
  }

  lemma ReservedAlu(c: U16, r: Regs, pc: U64)
    requires c % 4 == 1 && c / 8192 == 4 && c / 1024 % 4 == 3 && ExpandAlu(c) == None
    ensures Step16(c, r, pc).Illegal?
  {
    DecodeIsTotal(c);
    hide NameOf, OperandsOf;
    assert c / 1024 == 0x27;
    ReservedAluNames(c);
  }

  lemma ZeroFields(c: U16)
    ensures RefImm6(c) == 0 ==> RefAddi16sp(c) == 0 && RefLui(c) == 0 && Signed6(c) == 0
  {
    BitValues(c);
    hide B;
  }

  lemma ReservedImmediate(c: U16, r: Regs, pc: U64)
    requires c % 4 == 1 && ((c / 8192 == 1 && RdFull(c) == 0) || (c / 8192 == 3 && RefImm6(c) == 0))
    ensures if c / 8192 == 1 then Step16(c, r, pc) == Keep else Step16(c, r, pc).Illegal?
  {
    Names1(c);
    DecodeIsTotal(c);
    OpsImm(c);
    ZeroFields(c);
    hide NameOf, OperandsOf, RefImm6, RefAddi16sp, RefLui, Signed6, Half, Plus, Get;
  }

  lemma Reserved2(c: U16, r: Regs, pc: U64)
    requires c % 4 == 2 && Expand2(c) == None
    ensures Step16(c, r, pc).Illegal?
  {
    hide Step16, RefImm6, RefLwsp, RefLdsp, RefSwsp, RefSdsp;
    if c / 8192 == 4 {
      FourthBit(c);
      ReservedJump(c, r, pc);
    } else {
      ReservedLoad(c, r, pc);
    }
  }

  lemma ReservedJump(c: U16, r: Regs, pc: U64)
    requires c % 4 == 2 && c / 4096 == 8 && RdFull(c) == Rs2Full(c) == 0
    ensures Step16(c, r, pc).Illegal?
  {
    DecodeIsTotal(c);
    OpsRegister(c);
    hide NameOf, OperandsOf, RdFull, Rs2Full, Get, Even;
    NamesReg8(c);
  }

  lemma ReservedLoad(c: U16, r: Regs, pc: U64)
    requires c % 4 == 2 && c / 8192 in {2, 3} && RdFull(c) == 0
    ensures Step16(c, r, pc).Illegal?
  {
    DecodeIsTotal(c);
    OpsStack(c);
    hide NameOf, OperandsOf, RefImm6, RefLwsp, RefLdsp, RefSwsp, RefSdsp, RdFull, Rs2Full, Get;
    Names2(c);
  }

  lemma FourthBit(c: U16)
    requires c / 8192 == 4 && c / 4096 % 2 == 0
    ensures c / 4096 == 8
  {
  }
}
