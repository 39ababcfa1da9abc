/**
 Decoder::decode: the scan of the pattern tables, and the operand fields filled
 in place, each proved to give the fields of RvcDecode and Rv64Decode.
 */
module DecoderUnit {
  import opened Bits
  import opened Wrappers
  import opened Patterns
  import opened Spelling
  import opened RvcDecode
  import opened Rv64Table
  import opened Rv64Decode
  import opened OperandExpr

  // ----- The rows by the groups of their patterns -----------------------------------------------

  lemma Parts16Are(w: U16)
    ensures var x := Cut16(w);
      && w % 4 == x.op && w / 8192 == x.f3 && w / 1024 % 4 == x.b10 && w / 32 % 4 == x.b5
      && w / 128 % 32 == x.b10 * 8 + x.b7 && w % 128 == x.b5 * 32 + x.b2 * 4 + x.op
      && w / 4096 == x.f3 * 2 + x.b12 && w / 1024 == x.f3 * 8 + x.b12 * 4 + x.b10
      && w == x.f3 * 8192 + x.b12 * 4096 + x.b10 * 1024 + x.b7 * 128 + x.b5 * 32 + x.b2 * 4 + x.op
      && x.b12 < 2 && x.b10 < 4 && x.b7 < 8 && x.b5 < 4 && x.b2 < 8 && x.op < 4
  {
    ModSplit(w / 128, 8, 4, 32);
    ModSplit(w, 128, 8, 1024);
    ModSplit(w, 4, 8, 32);
    ModSplit(w, 32, 4, 128);
    ModSplit(w, 4096, 2, 8192);
    ModSplit(w, 1024, 4, 4096);
  }

  // What each shape of 16-bit row asks of the groups
  lemma RowsByParts16(w: U16)
    ensures forall op, f3 :: Funct3(w, op, f3) <==> Cut16(w).op == op && Cut16(w).f3 == f3
    ensures forall f3, rd :: Funct3Rd(w, f3, rd) <==>
      Cut16(w).op == 1 && Cut16(w).f3 == f3 && Cut16(w).b10 * 8 + Cut16(w).b7 == rd
    ensures forall f2 :: Funct2(w, f2) <==> Cut16(w).op == 1 && Cut16(w).f3 == 4 && Cut16(w).b10 == f2
    ensures forall f6, f2 :: Funct6(w, f6, f2) <==>
      Cut16(w).op == 1 && Cut16(w).f3 * 8 + Cut16(w).b12 * 4 + Cut16(w).b10 == f6 && Cut16(w).b5 == f2
    ensures forall f4 :: Funct4(w, f4) <==> Cut16(w).op == 2 && Cut16(w).f3 * 2 + Cut16(w).b12 == f4
    ensures forall f4 :: Funct4Zero(w, f4) <==>
      Cut16(w).op == 2 && Cut16(w).f3 * 2 + Cut16(w).b12 == f4 && Cut16(w).b5 == 0 && Cut16(w).b2 == 0
    ensures Cut16(w).b12 < 2 && Cut16(w).b10 < 4 && Cut16(w).b7 < 8
  {
    hide Cut16;
    Parts16Are(w);
  }

  lemma ExactByParts16(w: U16)
    ensures Exactly(w, 0) <==> Cut16(w) == Parts16(0, 0, 0, 0, 0, 0, 0)
    ensures Exactly(w, 0x9002) <==> Cut16(w) == Parts16(4, 1, 0, 0, 0, 0, 2)
  {
    hide Cut16;
    Parts16Are(w);
  }

  lemma Parts32Are(w: U32)
    ensures var x := Cut32(w);
      && w % 128 == x.op5 * 4 + x.op2 && w / 0x1000 % 8 == x.f3 && w / 0x10_0000 % 32 == x.rs2
      && w / 0x8000 % 32 == x.rs1 && w / 128 % 32 == x.rd && w / 0x200_0000 == x.f5 * 4 + x.b26 * 2 + x.b25
      && w / 0x400_0000 == x.f5 * 2 + x.b26 && w / 0x800_0000 == x.f5 && w / 0x200_0000 % 4 == x.b26 * 2 + x.b25
      && x.op5 < 32 && x.op2 < 4 && x.b26 < 2 && x.b25 < 2
  {
    ModSplit(w, 4, 32, 128);
    ModSplit(w, 0x200_0000, 2, 0x400_0000);
    ModSplit(w, 0x400_0000, 2, 0x800_0000);
    ModSplit(w / 0x200_0000, 2, 2, 4);
  }

  // What each shape of 32-bit row asks of the groups
  predicate OpIs(x: Parts32, op: nat) { x.op5 == op / 4 && x.op2 == op % 4 }
  predicate TopIs(x: Parts32, f7: nat) { x.f5 == f7 / 4 && x.b26 == f7 / 2 % 2 && x.b25 == f7 % 2 }

  lemma FieldsByParts32(w: U32, v: nat)
    ensures w % 128 == v <==> OpIs(Cut32(w), v)
    ensures w / 0x200_0000 == v <==> TopIs(Cut32(w), v)
    ensures w / 0x400_0000 == v <==> Cut32(w).f5 == v / 2 && Cut32(w).b26 == v % 2
    ensures w / 0x200_0000 % 4 == v <==> Cut32(w).b26 == v / 2 && Cut32(w).b25 == v % 2
    ensures w / 0x800_0000 == Cut32(w).f5 && w / 0x1000 % 8 == Cut32(w).f3 && w / 0x10_0000 % 32 == Cut32(w).rs2
    ensures w / 0x8000 % 32 == Cut32(w).rs1 && w / 128 % 32 == Cut32(w).rd
  {
    hide Cut32;
    Parts32Are(w);
    QuotientSplit(v);
  }

  lemma QuotientSplit(v: nat)
    ensures v == v / 4 * 4 + v % 4 == v / 2 * 2 + v % 2 && v % 4 == v / 2 % 2 * 2 + v % 2
    ensures v / 2 == v / 4 * 2 + v / 2 % 2
  {
  }

  lemma RowsByParts32(w: U32)
    ensures forall op, f3, f7 :: RowR(w, op, f3, f7) <==> var x := Cut32(w); OpIs(x, op) && x.f3 == f3 && TopIs(x, f7)
    ensures forall op, f3, f6: nat :: RowShift(w, op, f3, f6) <==>
      var x := Cut32(w); OpIs(x, op) && x.f3 == f3 && x.f5 == f6 / 2 && x.b26 == f6 % 2
    ensures forall op, f3 :: RowI(w, op, f3) <==> OpIs(Cut32(w), op) && Cut32(w).f3 == f3
    ensures forall op :: RowU(w, op) <==> OpIs(Cut32(w), op)
    ensures forall op, fmt: nat :: RowFma(w, op, fmt) <==>
      OpIs(Cut32(w), op) && Cut32(w).b26 == fmt / 2 && Cut32(w).b25 == fmt % 2
  {
    hide Cut32, OpIs, TopIs;
    forall v: nat ensures w % 128 == v <==> OpIs(Cut32(w), v) { FieldsByParts32(w, v); }
    forall v: nat ensures w / 0x200_0000 == v <==> TopIs(Cut32(w), v) { FieldsByParts32(w, v); }
    FieldsByParts32(w, 0);
    forall op, f3, f6: nat
      ensures RowShift(w, op, f3, f6) <==>
        var x := Cut32(w); OpIs(x, op) && x.f3 == f3 && x.f5 == f6 / 2 && x.b26 == f6 % 2
    {
      FieldsByParts32(w, f6);
    }
    forall op, fmt: nat
      ensures RowFma(w, op, fmt) <==> OpIs(Cut32(w), op) && Cut32(w).b26 == fmt / 2 && Cut32(w).b25 == fmt % 2
    {
      FieldsByParts32(w, fmt);
    }
  }

  lemma MoreRowsByParts32(w: U32)
    ensures forall f5, f3 :: RowAmo(w, f5, f3) <==> var x := Cut32(w); OpIs(x, AMO) && x.f3 == f3 && x.f5 == f5
    ensures forall f5, f3 :: RowLr(w, f5, f3) <==>
      var x := Cut32(w); OpIs(x, AMO) && x.f3 == f3 && x.f5 == f5 && x.rs2 == 0
    ensures forall f7 :: RowFp(w, f7) <==> OpIs(Cut32(w), OP_FP) && TopIs(Cut32(w), f7)
    ensures forall f7, rs2 :: RowFpRs2(w, f7, rs2) <==>
      var x := Cut32(w); OpIs(x, OP_FP) && TopIs(x, f7) && x.rs2 == rs2
    ensures forall f7, rs2, f3 :: RowFpFull(w, f7, rs2, f3) <==>
      var x := Cut32(w); OpIs(x, OP_FP) && TopIs(x, f7) && x.rs2 == rs2 && x.f3 == f3
    ensures forall f7 :: RowFence(w, f7) <==>
      var x := Cut32(w); OpIs(x, SYSTEM) && x.f3 == 0 && x.rd == 0 && TopIs(x, f7)
    ensures forall f7, rs2 :: RowSystem(w, f7, rs2) <==>
      var x := Cut32(w); OpIs(x, SYSTEM) && x.f3 == 0 && x.rd == 0 && TopIs(x, f7) && x.rs1 == 0 && x.rs2 == rs2
  {
    hide Cut32, OpIs, TopIs;
    FieldsByParts32(w, AMO);
    FieldsByParts32(w, OP_FP);
    FieldsByParts32(w, SYSTEM);
    forall v: nat ensures w / 0x200_0000 == v <==> TopIs(Cut32(w), v) { FieldsByParts32(w, v); }
  }

  predicate Is2(s: string, g: Group) { Uniform2(s) && Value2(s) == g }
  predicate Is3(s: string, g: Group) { Uniform3(s) && Value3(s) == g }
  predicate Is5(s: string, g: Group) { Uniform5(s) && Value5(s) == g }

  predicate Is7(s: string, f5: Group, b26: Group, b25: Group) { Uniform7(s) && Value7(s) == Head(f5, b26, b25) }

  // The groups that the 32-bit patterns are written with
  lemma Literals()
    ensures Is3("000", Val(0)) && Is3("001", Val(1)) && Is3("010", Val(2)) && Is3("011", Val(3)) && Is3("100", Val(4))
    ensures Is3("101", Val(5)) && Is3("110", Val(6)) && Is3("111", Val(7)) && Is3("???", Any)
    ensures Is5("00000", Val(0)) && Is5("00001", Val(1)) && Is5("00010", Val(2)) && Is5("00011", Val(3))
    ensures Is5("00100", Val(4)) && Is5("00101", Val(5)) && Is5("00110", Val(6)) && Is5("01000", Val(8))
    ensures Is5("01001", Val(9)) && Is5("01011", Val(11)) && Is5("01100", Val(12))
    ensures Is5("01101", Val(13)) && Is5("01110", Val(14)) && Is5("10000", Val(16)) && Is5("10001", Val(17))
    ensures Is5("10010", Val(18)) && Is5("10011", Val(19)) && Is5("10100", Val(20)) && Is5("11000", Val(24))
    ensures Is5("11001", Val(25)) && Is5("11011", Val(27)) && Is5("11100", Val(28)) && Is5("?????", Any)
    ensures Is2("11", Val(3)) && Is2("??", Any)
    ensures Is7("0000000", Val(0), Val(0), Val(0)) && Is7("0000001", Val(0), Val(0), Val(1))
    ensures Is7("000000?", Val(0), Val(0), Any) && Is7("00000??", Val(0), Any, Any)
    ensures Is7("0000100", Val(1), Val(0), Val(0)) && Is7("0000101", Val(1), Val(0), Val(1))
    ensures Is7("00001??", Val(1), Any, Any) && Is7("0001000", Val(2), Val(0), Val(0))
    ensures Is7("0001001", Val(2), Val(0), Val(1)) && Is7("00010??", Val(2), Any, Any)
    ensures Is7("0001100", Val(3), Val(0), Val(0)) && Is7("0001101", Val(3), Val(0), Val(1))
    ensures Is7("00011??", Val(3), Any, Any) && Is7("0010000", Val(4), Val(0), Val(0))
    ensures Is7("0010001", Val(4), Val(0), Val(1)) && Is7("00100??", Val(4), Any, Any)
    ensures Is7("0010100", Val(5), Val(0), Val(0)) && Is7("0010101", Val(5), Val(0), Val(1))
    ensures Is7("0011000", Val(6), Val(0), Val(0)) && Is7("0100000", Val(8), Val(0), Val(0))
    ensures Is7("0100001", Val(8), Val(0), Val(1)) && Is7("010000?", Val(8), Val(0), Any)
    ensures Is7("01000??", Val(8), Any, Any) && Is7("0101100", Val(11), Val(0), Val(0))
    ensures Is7("0101101", Val(11), Val(0), Val(1)) && Is7("01100??", Val(12), Any, Any)
    ensures Is7("10000??", Val(16), Any, Any) && Is7("1010000", Val(20), Val(0), Val(0))
    ensures Is7("1010001", Val(20), Val(0), Val(1)) && Is7("10100??", Val(20), Any, Any)
    ensures Is7("1100000", Val(24), Val(0), Val(0)) && Is7("1100001", Val(24), Val(0), Val(1))
    ensures Is7("11000??", Val(24), Any, Any) && Is7("1101000", Val(26), Val(0), Val(0))
    ensures Is7("1101001", Val(26), Val(0), Val(1)) && Is7("1110000", Val(28), Val(0), Val(0))
    ensures Is7("1110001", Val(28), Val(0), Val(1)) && Is7("11100??", Val(28), Any, Any)
    ensures Is7("1111000", Val(30), Val(0), Val(0)) && Is7("1111001", Val(30), Val(0), Val(1))
    ensures Is7("?????00", Any, Val(0), Val(0)) && Is7("?????01", Any, Val(0), Val(1))
    ensures Is7("???????", Any, Any, Any)
  {
    hide Is2, Is3, Is5, Is7;
    Literals3();
    LowLiterals5();
    HighLiterals5();
    Literals7();
  }

  lemma Literals3()
    ensures Is3("000", Val(0)) && Is3("001", Val(1)) && Is3("010", Val(2)) && Is3("011", Val(3)) && Is3("100", Val(4))
    ensures Is3("101", Val(5)) && Is3("110", Val(6)) && Is3("111", Val(7)) && Is3("???", Any)
    ensures Is2("11", Val(3)) && Is2("??", Any)
  {
  }

  lemma LowLiterals5()
    ensures Is5("00000", Val(0)) && Is5("00001", Val(1)) && Is5("00010", Val(2)) && Is5("00011", Val(3))
    ensures Is5("00100", Val(4)) && Is5("00101", Val(5)) && Is5("00110", Val(6)) && Is5("01000", Val(8))
    ensures Is5("01001", Val(9)) && Is5("01011", Val(11)) && Is5("01100", Val(12))
  {
  }

  lemma HighLiterals5()
    ensures Is5("01101", Val(13)) && Is5("01110", Val(14)) && Is5("10000", Val(16)) && Is5("10001", Val(17))
    ensures Is5("10010", Val(18)) && Is5("10011", Val(19)) && Is5("10100", Val(20)) && Is5("11000", Val(24))
    ensures Is5("11001", Val(25)) && Is5("11011", Val(27)) && Is5("11100", Val(28)) && Is5("?????", Any)
  {
  }

  lemma Literals7()
    ensures Is7("0000000", Val(0), Val(0), Val(0)) && Is7("0000001", Val(0), Val(0), Val(1))
    ensures Is7("000000?", Val(0), Val(0), Any) && Is7("00000??", Val(0), Any, Any)
    ensures Is7("0000100", Val(1), Val(0), Val(0)) && Is7("0000101", Val(1), Val(0), Val(1))
    ensures Is7("00001??", Val(1), Any, Any) && Is7("0001000", Val(2), Val(0), Val(0))
    ensures Is7("0001001", Val(2), Val(0), Val(1)) && Is7("00010??", Val(2), Any, Any)
    ensures Is7("0001100", Val(3), Val(0), Val(0)) && Is7("0001101", Val(3), Val(0), Val(1))
    ensures Is7("00011??", Val(3), Any, Any) && Is7("0010000", Val(4), Val(0), Val(0))
    ensures Is7("0010001", Val(4), Val(0), Val(1)) && Is7("00100??", Val(4), Any, Any)
    ensures Is7("0010100", Val(5), Val(0), Val(0)) && Is7("0010101", Val(5), Val(0), Val(1))
    ensures Is7("0011000", Val(6), Val(0), Val(0)) && Is7("0100000", Val(8), Val(0), Val(0))
    ensures Is7("0100001", Val(8), Val(0), Val(1)) && Is7("010000?", Val(8), Val(0), Any)
    ensures Is7("01000??", Val(8), Any, Any) && Is7("0101100", Val(11), Val(0), Val(0))
    ensures Is7("0101101", Val(11), Val(0), Val(1)) && Is7("01100??", Val(12), Any, Any)
    ensures Is7("10000??", Val(16), Any, Any) && Is7("1010000", Val(20), Val(0), Val(0))
    ensures Is7("1010001", Val(20), Val(0), Val(1)) && Is7("10100??", Val(20), Any, Any)
    ensures Is7("1100000", Val(24), Val(0), Val(0)) && Is7("1100001", Val(24), Val(0), Val(1))
    ensures Is7("11000??", Val(24), Any, Any) && Is7("1101000", Val(26), Val(0), Val(0))
    ensures Is7("1101001", Val(26), Val(0), Val(1)) && Is7("1110000", Val(28), Val(0), Val(0))
    ensures Is7("1110001", Val(28), Val(0), Val(1)) && Is7("11100??", Val(28), Any, Any)
    ensures Is7("1111000", Val(30), Val(0), Val(0)) && Is7("1111001", Val(30), Val(0), Val(1))
    ensures Is7("?????00", Any, Val(0), Val(0)) && Is7("?????01", Any, Val(0), Val(1))
    ensures Is7("???????", Any, Any, Any)
  {
  }

  lemma PartsOfCB(i: U16)
    ensures Field(i, 9, 7) == i / 128 % 8 && Field(i, 15, 13) == i / 8192 % 8 && Field(i, 11, 10) == i / 1024 % 4
    ensures ImmCB(i) ==
      if Field(i, 15, 13) == 4 then
        if Field(i, 11, 10) == 2 then SextShift(Imm6Expr(i), 6) else Imm6Expr(i)
      else SextShift(BranchExpr(i), 9)
  {
    hide Field, Imm6Expr, BranchExpr, SextShift, Sext;
    Fields16Are(i);
    WideFields16Are(i);
    Imm6ExprIs(i);
    SignedImmediates(i);
  }

  class DecodedInsn {
    const insn: U32
    var rs1: Reg
    var rs2: Reg
    var rd: Reg
    var imm: int

    constructor (word: U32)
      ensures insn == word && rs1 == rs2 == rd == 0 && imm == 0
    {
      insn, rs1, rs2, rd, imm := word, 0, 0, 0, 0;
    }

    ghost function Fields(): Operands
      reads this
    {
      Operands(rd, rs1, rs2, imm)
    }

    // ----- The 16-bit table -----------------------------------------------------------------------

    // INSTPAT on a pattern given by the groups between its blanks
    method Test16(a: string, b: string, c: string) returns (r: bool)
      requires insn < 0x1_0000 && Layout16(a, b, c)
      ensures r <==> Fields16(a, b, c, Cut16(insn))
    {
      hide Strip, Matches, Fits, Fields16, Joined16, Run1, Run2, Run3, Cut16;
      var d := ParsePattern(Joined16(a, b, c));
      r := And(Shr(insn, d.shift), d.mask) == d.key;
      assert r <==> Accepts(d, insn);
      Written16(a, b, c, insn);
    }

    // The rows without free positions
    method TestCInv() returns (r: bool)
      requires insn < 0x1_0000
      ensures r <==> Exactly(insn, 0)
    {
      hide Cut16, Exactly;
      ExactByParts16(insn);
      r := Test16("000", "00000000000", "00");
    }

    method TestCEbreak() returns (r: bool)
      requires insn < 0x1_0000
      ensures r <==> Exactly(insn, 0x9002)
    {
      hide Cut16, Exactly;
      ExactByParts16(insn);
      r := Test16("100", "10000000000", "10");
    }

    // The last row, whose positions are all free
    method TestInv16() returns (r: bool)
      requires insn < 0x1_0000
      ensures r
    {
      hide Cut16;
      r := Test16("???", "???????????", "??");
    }

    method ScanImmRows() returns (n: Option<Name>)
      requires insn < 0x1_0000
      ensures n == ImmRows(insn)
    {
      hide Cut16, Funct3, Funct3Rd, Funct2, Funct6, Funct4, Funct4Zero, Exactly;
      RowsByParts16(insn);
      var b := Test16("000", "?00000?????", "01");
      if b { return Some(CNop); }
      b := Test16("000", "???????????", "01");
      if b { return Some(CAddi); }
      b := Test16("001", "???????????", "01");
      if b { return Some(CAddiw); }
      b := Test16("010", "???????????", "01");
      if b { return Some(CLi); }
      b := Test16("011", "?00010?????", "01");
      if b { return Some(CAddi16sp); }
      b := Test16("011", "???????????", "01");
      if b { return Some(CLui); }
      b := Test16("100", "?00????????", "01");
      if b { return Some(CSrli); }
      b := Test16("100", "?01????????", "01");
      if b { return Some(CSrai); }
      b := Test16("100", "?10????????", "01");
      if b { return Some(CAndi); }
      n := None;
    }

    method ScanAluRows() returns (n: Option<Name>)
      requires insn < 0x1_0000
      ensures n == AluRows(insn)
    {
      hide Cut16, Funct3, Funct3Rd, Funct2, Funct6, Funct4, Funct4Zero, Exactly;
      RowsByParts16(insn);
      var b := Test16("100", "011???00???", "01");
      if b { return Some(CSub); }
      b := Test16("100", "011???01???", "01");
      if b { return Some(CXor); }
      b := Test16("100", "011???10???", "01");
      if b { return Some(COr); }
      b := Test16("100", "011???11???", "01");
      if b { return Some(CAnd); }
      b := Test16("100", "111???00???", "01");
      if b { return Some(CSubw); }
      b := Test16("100", "111???01???", "01");
      if b { return Some(CAddw); }
      b := Test16("101", "???????????", "01");
      if b { return Some(CJ); }
      b := Test16("110", "???????????", "01");
      if b { return Some(CBeqz); }
      b := Test16("111", "???????????", "01");
      if b { return Some(CBnez); }
      n := None;
    }

    method ScanMemoryRows() returns (n: Option<Name>)
      requires insn < 0x1_0000
      ensures n == MemoryRows(insn)
    {
      hide Cut16, Funct3, Funct3Rd, Funct2, Funct6, Funct4, Funct4Zero, Exactly;
      RowsByParts16(insn);
      var b := TestCInv();
      if b { return Some(CInv); }
      b := Test16("000", "???????????", "00");
      if b { return Some(CAddi4spn); }
      b := Test16("001", "???????????", "00");
      if b { return Some(CFld); }
      b := Test16("010", "???????????", "00");
      if b { return Some(CLw); }
      b := Test16("011", "???????????", "00");
      if b { return Some(CLd); }
      b := Test16("101", "???????????", "00");
      if b { return Some(CFsd); }
      b := Test16("110", "???????????", "00");
      if b { return Some(CSw); }
      b := Test16("111", "???????????", "00");
      if b { return Some(CSd); }
      n := None;
    }

    method ScanStackRows() returns (n: Option<Name>)
      requires insn < 0x1_0000
      ensures n == StackRows(insn)
    {
      hide Cut16, Funct3, Funct3Rd, Funct2, Funct6, Funct4, Funct4Zero, Exactly;
      RowsByParts16(insn);
      var b := Test16("000", "???????????", "10");
      if b { return Some(CSlli); }
      b := Test16("001", "???????????", "10");
      if b { return Some(CFldsp); }
      b := Test16("010", "???????????", "10");
      if b { return Some(CLwsp); }
      b := Test16("011", "???????????", "10");
      if b { return Some(CLdsp); }
      b := Test16("100", "0?????00000", "10");
      assert b <==> Funct4Zero(insn, 8);
      if b { return Some(CJr); }
      b := Test16("100", "0??????????", "10");
      if b { return Some(CMv); }
      n := None;
    }

    method ScanRegisterRows() returns (n: Option<Name>)
      requires insn < 0x1_0000
      ensures n == RegisterRows(insn)
    {
      hide Cut16, Funct3, Funct3Rd, Funct2, Funct6, Funct4, Funct4Zero, Exactly;
      RowsByParts16(insn);
      var b := TestCEbreak();
      if b { return Some(CEbreak); }
      b := Test16("100", "1?????00000", "10");
      assert b <==> Funct4Zero(insn, 9);
      if b { return Some(CJalr); }
      b := Test16("100", "1??????????", "10");
      if b { return Some(CAdd); }
      b := Test16("101", "???????????", "10");
      if b { return Some(CFsdsp); }
      b := Test16("110", "???????????", "10");
      if b { return Some(CSwsp); }
      b := Test16("111", "???????????", "10");
      if b { return Some(CSdsp); }
      n := None;
    }

    // ----- 16-bit operands ------------------------------------------------------------------------

    // The CI arm
    method FillCI(i: U16)
      modifies this
      ensures Fields() == Operands(i / 128 % 32, i / 128 % 32, old(rs2), ImmCI(i))
    {
      hide Field, Imm6Expr, Addi16spExpr, LuiExpr, LwspExpr, LdspExpr, SextShift, Sext;
      WideFields16Are(i);
      rd := Field(i, 11, 7);
      rs1 := rd;
      var funct3, opcode := Field(i, 15, 13), Field(i, 1, 0);
      SignedImmediates(i);
      Imm6ExprIs(i);
      LwspExprIs(i);
      LdspExprIs(i);
      if opcode == 1 {
        if funct3 == 0 || funct3 == 1 || funct3 == 2 {
          imm := SextShift(Imm6Expr(i), 6);
        } else if funct3 == 3 {
          if rd == 2 {
            imm := SextShift(Addi16spExpr(i), 10);
          } else if rd != 0 {
            imm := SextShift(LuiExpr(i), 18);
          } else {
            imm := SextShift(Imm6Expr(i), 6);
          }
        } else {
          imm := SextShift(Imm6Expr(i), 6);
        }
      } else if opcode == 2 {
        if funct3 == 0 {
          imm := Imm6Expr(i);
        } else if funct3 == 2 {
          imm := LwspExpr(i);
        } else if funct3 == 3 || funct3 == 1 {
          imm := LdspExpr(i);
        } else {
          imm := SextShift(Imm6Expr(i), 6);
        }
      } else {
        imm := SextShift(Imm6Expr(i), 6);
      }
    }

    method FillCSS(i: U16)
      modifies this
      ensures Fields() == Operands(old(rd), 2, i / 4 % 32, if i / 8192 in {5, 6, 7} then ImmCSS(i) else old(imm))
    {
      hide Field, SwspExpr, SdspExpr;
      WideFields16Are(i);
      SwspExprIs(i);
      SdspExprIs(i);
      rs1, rs2 := 2, Field(i, 6, 2);
      var funct3 := Field(i, 15, 13);
      if funct3 == 6 {
        imm := SwspExpr(i);
      } else if funct3 == 7 || funct3 == 5 {
        imm := SdspExpr(i);
      }
    }

    // The CL and CS arms; the third branch of each is never reached.
    method FillCL(i: U16)
      requires Reachable(FCL, i)
      modifies this
      ensures Fields() == OperandsOf(FCL, i).(rs2 := old(rs2))
    {
      hide Field, WordExpr, DoubleExpr, ImmWord, ImmDouble;
      WideFields16Are(i);
      WordExprIs(i);
      DoubleExprIs(i);
      rd, rs1 := Field(i, 4, 2) + 8, Field(i, 9, 7) + 8;
      var funct3 := Field(i, 15, 13);
      if funct3 == 2 {
        imm := WordExpr(i);
      } else if funct3 == 1 || funct3 == 3 {
        imm := DoubleExpr(i);
      } else {
        assert false;
      }
    }

    method FillCS(i: U16)
      requires Reachable(FCS, i)
      modifies this
      ensures Fields() == OperandsOf(FCS, i).(rd := old(rd))
    {
      hide Field, WordExpr, DoubleExpr, ImmWord, ImmDouble;
      WideFields16Are(i);
      WordExprIs(i);
      DoubleExprIs(i);
      rs1, rs2 := Field(i, 9, 7) + 8, Field(i, 4, 2) + 8;
      var funct3 := Field(i, 15, 13);
      if funct3 == 6 {
        imm := WordExpr(i);
      } else if funct3 == 5 || funct3 == 7 {
        imm := DoubleExpr(i);
      } else {
        assert false;
      }
    }

    method FillCB(i: U16)
      modifies this
      ensures Fields() == Operands(i / 128 % 8 + 8, i / 128 % 8 + 8, old(rs2), ImmCB(i))
    {
      hide Field, Imm6Expr, BranchExpr, SextShift, ImmCB;
      PartsOfCB(i);
      rd := Field(i, 9, 7) + 8;
      rs1 := rd;
      var funct3 := Field(i, 15, 13);
      if funct3 == 4 {
        var raw := Imm6Expr(i);
        imm := if Field(i, 11, 10) == 2 then SextShift(raw, 6) else raw;
      } else {
        imm := SextShift(BranchExpr(i), 9);
      }
    }

    // Decoder::decode_operand_16 on a fresh instruction
    method DecodeOperand16(f: Format, i: U16)
      requires Reachable(f, i) && Fields() == Operands(0, 0, 0, 0)
      modifies this
      ensures Fields() == OperandsOf(f, i)
    {
      hide ImmCI, ImmCIW, ImmWord, ImmDouble, ImmCB, ImmCJ, Field, Addi4spnExpr, JumpExpr, SextShift;
      WideFields16Are(i);
      match f {
        case FCR =>
          rd := Field(i, 11, 7);
          rs1, rs2 := rd, Field(i, 6, 2);
        case FCI => FillCI(i);
        case FCSS => FillCSS(i);
        case FCIW =>
          Addi4spnExprIs(i);
          rd, rs1, imm := Field(i, 4, 2) + 8, 2, Addi4spnExpr(i);
        case FCL => FillCL(i);
        case FCS => FillCS(i);
        case FCA =>
          rd := Field(i, 9, 7) + 8;
          rs1, rs2 := rd, Field(i, 4, 2) + 8;
        case FCB => FillCB(i);
        case FCJ =>
          SignedImmediates(i);
          imm := SextShift(JumpExpr(i), 12);
        case FN =>
      }
    }

    // Decoder::decode for a 16-bit word: every word decodes.
    method Decode16() returns (n: Name)
      requires insn < 0x1_0000 && Fields() == Operands(0, 0, 0, 0)
      modifies this
      ensures n == NameOf(insn)
      ensures Reachable(FormatOf(n), insn) && Fields() == OperandsOf(FormatOf(n), insn)
    {
      hide ImmRows, AluRows, MemoryRows, StackRows, RegisterRows, FormatOf, Reachable, OperandsOf;
      DecodeIsTotal(insn);
      var row := ScanImmRows();
      if row.None? { row := ScanAluRows(); }
      if row.None? { row := ScanMemoryRows(); }
      if row.None? { row := ScanStackRows(); }
      if row.None? { row := ScanRegisterRows(); }
      if row.None? {
        var b := TestInv16();
        if b { row := Some(Inv); }
      }
      n := row.value;   // std::unreachable() otherwise
      DecodeOperand16(FormatOf(n), insn);
    }

    // ----- The 32-bit table -----------------------------------------------------------------------

    method Test32(a: string, b: string, c: string, d: string, e: string, f: string, g: string) returns (r: bool)
      requires Layout32(a, b, c, d, e, f, g)
      ensures r <==> Fields32(a, b, c, d, e, f, g, Cut32(insn))
    {
      hide Strip, Matches, Fits, Fields32, Joined32, Run1, Run2, Run3, Run5, Cut32;
      var p := ParsePattern(Joined32(a, b, c, d, e, f, g));
      r := And(Shr(insn, p.shift), p.mask) == p.key;
      assert r <==> Accepts(p, insn);
      Written32(a, b, c, d, e, f, g, insn);
    }

    // A row that fixes every field
    method TestSystem(a: string, b: string, ghost f5: nat, ghost b26: nat, ghost b25: nat, ghost rs2: nat)
        returns (r: bool)
      requires Is7(a, Val(f5), Val(b26), Val(b25)) && Is5(b, Val(rs2)) && b26 < 2 && b25 < 2
      ensures r <==> RowSystem(insn, f5 * 4 + b26 * 2 + b25, rs2)
    {
      hide Cut32, RowSystem, Uniform2, Uniform3, Uniform5, Uniform7, Value2, Value3, Value5, Value7;
      Literals();
      r := Test32(a, b, "00000", "000", "00000", "11100", "11");
      MoreRowsByParts32(insn);
    }

    method TestInv32() returns (r: bool)
      ensures r
    {
      hide Cut32, Uniform2, Uniform3, Uniform5, Uniform7, Value2, Value3, Value5, Value7;
      Literals();
      r := Test32("???????", "?????", "?????", "???", "?????", "?????", "??");
    }

    method ScanBaseRows1() returns (o: Option<Op>)
      ensures o == BaseRows1(insn)
    {
      hide Cut32, Uniform2, Uniform3, Uniform5, Uniform7, Value2, Value3, Value5, Value7, RowI, RowR, RowU;
      Literals();
      RowsByParts32(insn);
      var b := Test32("0000000", "?????", "?????", "000", "?????", "01100", "11");
      if b { return Some(ADD); }
      b := Test32("???????", "?????", "?????", "000", "?????", "00100", "11");
      if b { return Some(ADDI); }
      b := Test32("???????", "?????", "?????", "000", "?????", "00110", "11");
      if b { return Some(ADDIW); }
      b := Test32("0000000", "?????", "?????", "000", "?????", "01110", "11");
      if b { return Some(ADDW); }
      b := Test32("0000000", "?????", "?????", "111", "?????", "01100", "11");
      if b { return Some(AND_); }
      b := Test32("???????", "?????", "?????", "111", "?????", "00100", "11");
      if b { return Some(ANDI); }
      b := Test32("???????", "?????", "?????", "???", "?????", "00101", "11");
      if b { return Some(Other(AUIPC)); }
      b := Test32("???????", "?????", "?????", "000", "?????", "11000", "11");
      if b { return Some(BEQ); }
      b := Test32("???????", "?????", "?????", "101", "?????", "11000", "11");
      if b { return Some(BGE); }
      o := None;
    }

    method ScanBaseRows2() returns (o: Option<Op>)
      ensures o == BaseRows2(insn)
    {
      hide Cut32, Uniform2, Uniform3, Uniform5, Uniform7, Value2, Value3, Value5, Value7, RowI, RowU;
      Literals();
      RowsByParts32(insn);
      var b := Test32("???????", "?????", "?????", "111", "?????", "11000", "11");
      if b { return Some(BGEU); }
      b := Test32("???????", "?????", "?????", "100", "?????", "11000", "11");
      if b { return Some(BLT); }
      b := Test32("???????", "?????", "?????", "110", "?????", "11000", "11");
      if b { return Some(BLTU); }
      b := Test32("???????", "?????", "?????", "001", "?????", "11000", "11");
      if b { return Some(BNE); }
      b := Test32("???????", "?????", "?????", "000", "?????", "00011", "11");
      if b { return Some(Other(FENCE)); }
      b := Test32("???????", "?????", "?????", "001", "?????", "00011", "11");
      if b { return Some(Other(FENCE_I)); }
      b := Test32("???????", "?????", "?????", "???", "?????", "11011", "11");
      if b { return Some(JAL); }
      b := Test32("???????", "?????", "?????", "000", "?????", "11001", "11");
      if b { return Some(JALR); }
      b := Test32("???????", "?????", "?????", "000", "?????", "00000", "11");
      if b { return Some(Other(LB)); }
      o := None;
    }

    method ScanBaseRows3() returns (o: Option<Op>)
      ensures o == BaseRows3(insn)
    {
      hide Cut32, Uniform2, Uniform3, Uniform5, Uniform7, Value2, Value3, Value5, Value7, RowI, RowR, RowU;
      Literals();
      RowsByParts32(insn);
      var b := Test32("???????", "?????", "?????", "100", "?????", "00000", "11");
      if b { return Some(Other(LBU)); }
      b := Test32("???????", "?????", "?????", "011", "?????", "00000", "11");
      if b { return Some(LD); }
      b := Test32("???????", "?????", "?????", "001", "?????", "00000", "11");
      if b { return Some(Other(LH)); }
      b := Test32("???????", "?????", "?????", "101", "?????", "00000", "11");
      if b { return Some(Other(LHU)); }
      b := Test32("???????", "?????", "?????", "???", "?????", "01101", "11");
      if b { return Some(LUI); }
      b := Test32("???????", "?????", "?????", "010", "?????", "00000", "11");
      if b { return Some(LW); }
      b := Test32("???????", "?????", "?????", "110", "?????", "00000", "11");
      if b { return Some(Other(LWU)); }
      b := Test32("0000000", "?????", "?????", "110", "?????", "01100", "11");
      if b { return Some(OR_); }
      b := Test32("???????", "?????", "?????", "110", "?????", "00100", "11");
      if b { return Some(Other(ORI)); }
      o := None;
    }

    method ScanBaseRows4() returns (o: Option<Op>)
      ensures o == BaseRows4(insn)
    {
      hide Cut32, Uniform2, Uniform3, Uniform5, Uniform7, Value2, Value3, Value5, Value7, RowI, RowR, RowShift;
      Literals();
      RowsByParts32(insn);
      var b := Test32("???????", "?????", "?????", "000", "?????", "01000", "11");
      if b { return Some(Other(SB)); }
      b := Test32("???????", "?????", "?????", "011", "?????", "01000", "11");
      if b { return Some(SD); }
      b := Test32("???????", "?????", "?????", "001", "?????", "01000", "11");
      if b { return Some(Other(SH)); }
      b := Test32("0000000", "?????", "?????", "001", "?????", "01100", "11");
      if b { return Some(Other(SLL)); }
      b := Test32("000000?", "?????", "?????", "001", "?????", "00100", "11");
      if b { return Some(SLLI); }
      b := Test32("0000000", "?????", "?????", "001", "?????", "00110", "11");
      if b { return Some(Other(SLLIW)); }
      b := Test32("0000000", "?????", "?????", "001", "?????", "01110", "11");
      if b { return Some(Other(SLLW)); }
      b := Test32("0000000", "?????", "?????", "010", "?????", "01100", "11");
      if b { return Some(Other(SLT)); }
      b := Test32("???????", "?????", "?????", "010", "?????", "00100", "11");
      if b { return Some(Other(SLTI)); }
      o := None;
    }

    method ScanBaseRows5() returns (o: Option<Op>)
      ensures o == BaseRows5(insn)
    {
      hide Cut32, Uniform2, Uniform3, Uniform5, Uniform7, Value2, Value3, Value5, Value7, RowI, RowR, RowShift;
      Literals();
      RowsByParts32(insn);
      var b := Test32("???????", "?????", "?????", "011", "?????", "00100", "11");
      if b { return Some(Other(SLTIU)); }
      b := Test32("0000000", "?????", "?????", "011", "?????", "01100", "11");
      if b { return Some(Other(SLTU)); }
      b := Test32("0100000", "?????", "?????", "101", "?????", "01100", "11");
      if b { return Some(Other(SRA)); }
      b := Test32("010000?", "?????", "?????", "101", "?????", "00100", "11");
      if b { return Some(SRAI); }
      b := Test32("0100000", "?????", "?????", "101", "?????", "00110", "11");
      if b { return Some(Other(SRAIW)); }
      b := Test32("0100000", "?????", "?????", "101", "?????", "01110", "11");
      if b { return Some(Other(SRAW)); }
      b := Test32("0000000", "?????", "?????", "101", "?????", "01100", "11");
      if b { return Some(Other(SRL)); }
      b := Test32("000000?", "?????", "?????", "101", "?????", "00100", "11");
      if b { return Some(SRLI); }
      b := Test32("0000000", "?????", "?????", "101", "?????", "00110", "11");
      if b { return Some(Other(SRLIW)); }
      o := None;
    }

    method ScanBaseRows6() returns (o: Option<Op>)
      ensures o == BaseRows6(insn)
    {
      hide Cut32, Uniform2, Uniform3, Uniform5, Uniform7, Value2, Value3, Value5, Value7, RowI, RowR;
      Literals();
      RowsByParts32(insn);
      var b := Test32("0000000", "?????", "?????", "101", "?????", "01110", "11");
      if b { return Some(Other(SRLW)); }
      b := Test32("0100000", "?????", "?????", "000", "?????", "01100", "11");
      if b { return Some(SUB); }
      b := Test32("0100000", "?????", "?????", "000", "?????", "01110", "11");
      if b { return Some(SUBW); }
      b := Test32("???????", "?????", "?????", "010", "?????", "01000", "11");
      if b { return Some(SW); }
      b := Test32("0000000", "?????", "?????", "100", "?????", "01100", "11");
      if b { return Some(XOR_); }
      b := Test32("???????", "?????", "?????", "100", "?????", "00100", "11");
      if b { return Some(Other(XORI)); }
      b := Test32("???????", "?????", "?????", "011", "?????", "11100", "11");
      if b { return Some(Other(CSRRC)); }
      b := Test32("???????", "?????", "?????", "111", "?????", "11100", "11");
      if b { return Some(Other(CSRRCI)); }
      b := Test32("???????", "?????", "?????", "010", "?????", "11100", "11");
      if b { return Some(Other(CSRRS)); }
      o := None;
    }

    method ScanBaseRows7() returns (o: Option<Op>)
      ensures o == BaseRows7(insn)
    {
      hide Cut32, Uniform2, Uniform3, Uniform5, Uniform7, Value2, Value3, Value5, Value7, RowFence, RowI, RowSystem;
      Literals();
      RowsByParts32(insn);
      MoreRowsByParts32(insn);
      var b := Test32("???????", "?????", "?????", "110", "?????", "11100", "11");
      if b { return Some(Other(CSRRSI)); }
      b := Test32("???????", "?????", "?????", "001", "?????", "11100", "11");
      if b { return Some(Other(CSRRW)); }
      b := Test32("???????", "?????", "?????", "101", "?????", "11100", "11");
      if b { return Some(Other(CSRRWI)); }
      b := TestSystem("0000000", "00001", 0, 0, 0, 1);
      if b { return Some(EBREAK); }
      b := TestSystem("0000000", "00000", 0, 0, 0, 0);
      if b { return Some(ECALL); }
      b := TestSystem("0011000", "00010", 6, 0, 0, 2);
      if b { return Some(MRET); }
      b := Test32("0001001", "?????", "?????", "000", "00000", "11100", "11");
      assert b <==> RowFence(insn, 9);
      if b { return Some(Other(SFENCE_VMA)); }
      b := TestSystem("0001000", "00010", 2, 0, 0, 2);
      if b { return Some(SRET); }
      b := TestSystem("0001000", "00101", 2, 0, 0, 5);
      if b { return Some(Other(WFI)); }
      o := None;
    }

    method ScanMulDivRows1() returns (o: Option<Op>)
      ensures o == MulDivRows1(insn)
    {
      hide Cut32, Uniform2, Uniform3, Uniform5, Uniform7, Value2, Value3, Value5, Value7, RowR;
      Literals();
      RowsByParts32(insn);
      var b := Test32("0000001", "?????", "?????", "100", "?????", "01100", "11");
      if b { return Some(Other(DIV)); }
      b := Test32("0000001", "?????", "?????", "101", "?????", "01100", "11");
      if b { return Some(Other(DIVU)); }
      b := Test32("0000001", "?????", "?????", "101", "?????", "01110", "11");
      if b { return Some(Other(DIVUW)); }
      b := Test32("0000001", "?????", "?????", "100", "?????", "01110", "11");
      if b { return Some(Other(DIVW)); }
      b := Test32("0000001", "?????", "?????", "000", "?????", "01100", "11");
      if b { return Some(Other(MUL)); }
      b := Test32("0000001", "?????", "?????", "001", "?????", "01100", "11");
      if b { return Some(Other(MULH)); }
      o := None;
    }

    method ScanMulDivRows2() returns (o: Option<Op>)
      ensures o == MulDivRows2(insn)
    {
      hide Cut32, Uniform2, Uniform3, Uniform5, Uniform7, Value2, Value3, Value5, Value7, RowR;
      Literals();
      RowsByParts32(insn);
      var b := Test32("0000001", "?????", "?????", "010", "?????", "01100", "11");
      if b { return Some(Other(MULHSU)); }
      b := Test32("0000001", "?????", "?????", "011", "?????", "01100", "11");
      if b { return Some(Other(MULHU)); }
      b := Test32("0000001", "?????", "?????", "000", "?????", "01110", "11");
      if b { return Some(Other(MULW)); }
      b := Test32("0000001", "?????", "?????", "110", "?????", "01100", "11");
      if b { return Some(Other(REM)); }
      b := Test32("0000001", "?????", "?????", "111", "?????", "01100", "11");
      if b { return Some(Other(REMU)); }
      b := Test32("0000001", "?????", "?????", "111", "?????", "01110", "11");
      if b { return Some(Other(REMUW)); }
      b := Test32("0000001", "?????", "?????", "110", "?????", "01110", "11");
      if b { return Some(Other(REMW)); }
      o := None;
    }

    method ScanAtomicRows1() returns (o: Option<Op>)
      ensures o == AtomicRows1(insn)
    {
      hide Cut32, Uniform2, Uniform3, Uniform5, Uniform7, Value2, Value3, Value5, Value7, RowAmo, RowLr;
      Literals();
      MoreRowsByParts32(insn);
      var b := Test32("00010??", "00000", "?????", "011", "?????", "01011", "11");
      if b { return Some(Other(LR_D)); }
      b := Test32("00010??", "00000", "?????", "010", "?????", "01011", "11");
      if b { return Some(Other(LR_W)); }
      b := Test32("00011??", "?????", "?????", "011", "?????", "01011", "11");
      if b { return Some(Other(SC_D)); }
      b := Test32("00011??", "?????", "?????", "010", "?????", "01011", "11");
      if b { return Some(Other(SC_W)); }
      b := Test32("00000??", "?????", "?????", "011", "?????", "01011", "11");
      if b { return Some(Other(AMOADD_D)); }
      b := Test32("00000??", "?????", "?????", "010", "?????", "01011", "11");
      if b { return Some(Other(AMOADD_W)); }
      b := Test32("01100??", "?????", "?????", "011", "?????", "01011", "11");
      if b { return Some(Other(AMOAND_D)); }
      o := None;
    }

    method ScanAtomicRows2() returns (o: Option<Op>)
      ensures o == AtomicRows2(insn)
    {
      hide Cut32, Uniform2, Uniform3, Uniform5, Uniform7, Value2, Value3, Value5, Value7, RowAmo;
      Literals();
      MoreRowsByParts32(insn);
      var b := Test32("01100??", "?????", "?????", "010", "?????", "01011", "11");
      if b { return Some(Other(AMOAND_W)); }
      b := Test32("01000??", "?????", "?????", "011", "?????", "01011", "11");
      if b { return Some(Other(AMOOR_D)); }
      b := Test32("01000??", "?????", "?????", "010", "?????", "01011", "11");
      if b { return Some(Other(AMOOR_W)); }
      b := Test32("00100??", "?????", "?????", "011", "?????", "01011", "11");
      if b { return Some(Other(AMOXOR_D)); }
      b := Test32("00100??", "?????", "?????", "010", "?????", "01011", "11");
      if b { return Some(Other(AMOXOR_W)); }
      b := Test32("10100??", "?????", "?????", "011", "?????", "01011", "11");
      if b { return Some(Other(AMOMAX_D)); }
      b := Test32("10100??", "?????", "?????", "010", "?????", "01011", "11");
      if b { return Some(Other(AMOMAX_W)); }
      o := None;
    }

    method ScanAtomicRows3() returns (o: Option<Op>)
      ensures o == AtomicRows3(insn)
    {
      hide Cut32, Uniform2, Uniform3, Uniform5, Uniform7, Value2, Value3, Value5, Value7, RowAmo;
      Literals();
      MoreRowsByParts32(insn);
      var b := Test32("11100??", "?????", "?????", "011", "?????", "01011", "11");
      if b { return Some(Other(AMOMAXU_D)); }
      b := Test32("11100??", "?????", "?????", "010", "?????", "01011", "11");
      if b { return Some(Other(AMOMAXU_W)); }
      b := Test32("10000??", "?????", "?????", "011", "?????", "01011", "11");
      if b { return Some(Other(AMOMIN_D)); }
      b := Test32("10000??", "?????", "?????", "010", "?????", "01011", "11");
      if b { return Some(Other(AMOMIN_W)); }
      b := Test32("11000??", "?????", "?????", "011", "?????", "01011", "11");
      if b { return Some(Other(AMOMINU_D)); }
      b := Test32("11000??", "?????", "?????", "010", "?????", "01011", "11");
      if b { return Some(Other(AMOMINU_W)); }
      b := Test32("00001??", "?????", "?????", "011", "?????", "01011", "11");
      if b { return Some(Other(AMOSWAP_D)); }
      b := Test32("00001??", "?????", "?????", "010", "?????", "01011", "11");
      if b { return Some(Other(AMOSWAP_W)); }
      o := None;
    }

    method ScanSingleRows1() returns (o: Option<Op>)
      ensures o == SingleRows1(insn)
    {
      hide Cut32, Uniform2, Uniform3, Uniform5, Uniform7, Value2, Value3, Value5, Value7, RowFp, RowFpRs2, RowI;
      Literals();
      RowsByParts32(insn);
      MoreRowsByParts32(insn);
      var b := Test32("???????", "?????", "?????", "010", "?????", "00001", "11");
      if b { return Some(Other(FLW)); }
      b := Test32("???????", "?????", "?????", "010", "?????", "01001", "11");
      if b { return Some(Other(FSW)); }
      b := Test32("0000000", "?????", "?????", "???", "?????", "10100", "11");
      if b { return Some(Other(FADD_S)); }
      b := Test32("0000100", "?????", "?????", "???", "?????", "10100", "11");
      if b { return Some(Other(FSUB_S)); }
      b := Test32("0001000", "?????", "?????", "???", "?????", "10100", "11");
      if b { return Some(Other(FMUL_S)); }
      b := Test32("0001100", "?????", "?????", "???", "?????", "10100", "11");
      if b { return Some(Other(FDIV_S)); }
      b := Test32("0101100", "00000", "?????", "???", "?????", "10100", "11");
      if b { return Some(Other(FSQRT_S)); }
      o := None;
    }

    method ScanSingleRows2() returns (o: Option<Op>)
      ensures o == SingleRows2(insn)
    {
      hide Cut32, Uniform2, Uniform3, Uniform5, Uniform7, Value2, Value3, Value5, Value7, RowFpRs2, RowR;
      Literals();
      RowsByParts32(insn);
      MoreRowsByParts32(insn);
      var b := Test32("0010000", "?????", "?????", "000", "?????", "10100", "11");
      if b { return Some(Other(FSGNJ_S)); }
      b := Test32("0010000", "?????", "?????", "001", "?????", "10100", "11");
      if b { return Some(Other(FSGNJN_S)); }
      b := Test32("0010000", "?????", "?????", "010", "?????", "10100", "11");
      if b { return Some(Other(FSGNJX_S)); }
      b := Test32("0010100", "?????", "?????", "000", "?????", "10100", "11");
      if b { return Some(Other(FMIN_S)); }
      b := Test32("0010100", "?????", "?????", "001", "?????", "10100", "11");
      if b { return Some(Other(FMAX_S)); }
      b := Test32("1100000", "00000", "?????", "???", "?????", "10100", "11");
      if b { return Some(Other(FCVT_W_S)); }
      b := Test32("1100000", "00001", "?????", "???", "?????", "10100", "11");
      if b { return Some(Other(FCVT_WU_S)); }
      b := Test32("1100000", "00010", "?????", "???", "?????", "10100", "11");
      if b { return Some(Other(FCVT_L_S)); }
      o := None;
    }

    method ScanSingleRows3() returns (o: Option<Op>)
      ensures o == SingleRows3(insn)
    {
      hide Cut32, Uniform2, Uniform3, Uniform5, Uniform7, Value2, Value3, Value5, Value7, RowFpFull, RowFpRs2;
      Literals();
      MoreRowsByParts32(insn);
      var b := Test32("1100000", "00011", "?????", "???", "?????", "10100", "11");
      if b { return Some(Other(FCVT_LU_S)); }
      b := Test32("1101000", "00000", "?????", "???", "?????", "10100", "11");
      if b { return Some(Other(FCVT_S_W)); }
      b := Test32("1101000", "00001", "?????", "???", "?????", "10100", "11");
      if b { return Some(Other(FCVT_S_WU)); }
      b := Test32("1101000", "00010", "?????", "???", "?????", "10100", "11");
      if b { return Some(Other(FCVT_S_L)); }
      b := Test32("1101000", "00011", "?????", "???", "?????", "10100", "11");
      if b { return Some(Other(FCVT_S_LU)); }
      b := Test32("1110000", "00000", "?????", "000", "?????", "10100", "11");
      if b { return Some(Other(FMV_X_W)); }
      b := Test32("1111000", "00000", "?????", "000", "?????", "10100", "11");
      if b { return Some(Other(FMV_W_X)); }
      o := None;
    }

    method ScanSingleRows4() returns (o: Option<Op>)
      ensures o == SingleRows4(insn)
    {
      hide Cut32, Uniform2, Uniform3, Uniform5, Uniform7, Value2, Value3, Value5, Value7, RowFma, RowFpFull, RowR;
      Literals();
      RowsByParts32(insn);
      MoreRowsByParts32(insn);
      var b := Test32("1110000", "00000", "?????", "001", "?????", "10100", "11");
      if b { return Some(Other(FCLASS_S)); }
      b := Test32("1010000", "?????", "?????", "010", "?????", "10100", "11");
      if b { return Some(Other(FEQ_S)); }
      b := Test32("1010000", "?????", "?????", "001", "?????", "10100", "11");
      if b { return Some(Other(FLT_S)); }
      b := Test32("1010000", "?????", "?????", "000", "?????", "10100", "11");
      if b { return Some(Other(FLE_S)); }
      b := Test32("?????00", "?????", "?????", "???", "?????", "10000", "11");
      if b { return Some(Other(FMADD_S)); }
      b := Test32("?????00", "?????", "?????", "???", "?????", "10001", "11");
      if b { return Some(Other(FMSUB_S)); }
      b := Test32("?????00", "?????", "?????", "???", "?????", "10010", "11");
      if b { return Some(Other(FNMSUB_S)); }
      b := Test32("?????00", "?????", "?????", "???", "?????", "10011", "11");
      if b { return Some(Other(FNMADD_S)); }
      o := None;
    }

    method ScanDoubleRows1() returns (o: Option<Op>)
      ensures o == DoubleRows1(insn)
    {
      hide Cut32, Uniform2, Uniform3, Uniform5, Uniform7, Value2, Value3, Value5, Value7;
      hide RowFp, RowFpRs2, RowI, RowR;
      Literals();
      RowsByParts32(insn);
      MoreRowsByParts32(insn);
      var b := Test32("???????", "?????", "?????", "011", "?????", "00001", "11");
      if b { return Some(FLD); }
      b := Test32("???????", "?????", "?????", "011", "?????", "01001", "11");
      if b { return Some(FSD); }
      b := Test32("0000001", "?????", "?????", "???", "?????", "10100", "11");
      if b { return Some(Other(FADD_D)); }
      b := Test32("0000101", "?????", "?????", "???", "?????", "10100", "11");
      if b { return Some(Other(FSUB_D)); }
      b := Test32("0001001", "?????", "?????", "???", "?????", "10100", "11");
      if b { return Some(Other(FMUL_D)); }
      b := Test32("0001101", "?????", "?????", "???", "?????", "10100", "11");
      if b { return Some(Other(FDIV_D)); }
      b := Test32("0101101", "00000", "?????", "???", "?????", "10100", "11");
      if b { return Some(Other(FSQRT_D)); }
      b := Test32("0010001", "?????", "?????", "000", "?????", "10100", "11");
      if b { return Some(Other(FSGNJ_D)); }
      o := None;
    }

    method ScanDoubleRows2() returns (o: Option<Op>)
      ensures o == DoubleRows2(insn)
    {
      hide Cut32, Uniform2, Uniform3, Uniform5, Uniform7, Value2, Value3, Value5, Value7, RowFpRs2, RowR;
      Literals();
      RowsByParts32(insn);
      MoreRowsByParts32(insn);
      var b := Test32("0010001", "?????", "?????", "001", "?????", "10100", "11");
      if b { return Some(Other(FSGNJN_D)); }
      b := Test32("0010001", "?????", "?????", "010", "?????", "10100", "11");
      if b { return Some(Other(FSGNJX_D)); }
      b := Test32("0010101", "?????", "?????", "000", "?????", "10100", "11");
      if b { return Some(Other(FMIN_D)); }
      b := Test32("0010101", "?????", "?????", "001", "?????", "10100", "11");
      if b { return Some(Other(FMAX_D)); }
      b := Test32("1100001", "00000", "?????", "???", "?????", "10100", "11");
      if b { return Some(Other(FCVT_W_D)); }
      b := Test32("1100001", "00001", "?????", "???", "?????", "10100", "11");
      if b { return Some(Other(FCVT_WU_D)); }
      b := Test32("1100001", "00010", "?????", "???", "?????", "10100", "11");
      if b { return Some(Other(FCVT_L_D)); }
      b := Test32("1100001", "00011", "?????", "???", "?????", "10100", "11");
      if b { return Some(Other(FCVT_LU_D)); }
      o := None;
    }

    method ScanDoubleRows3() returns (o: Option<Op>)
      ensures o == DoubleRows3(insn)
    {
      hide Cut32, Uniform2, Uniform3, Uniform5, Uniform7, Value2, Value3, Value5, Value7, RowFpFull, RowFpRs2;
      Literals();
      MoreRowsByParts32(insn);
      var b := Test32("1101001", "00000", "?????", "???", "?????", "10100", "11");
      if b { return Some(Other(FCVT_D_W)); }
      b := Test32("1101001", "00001", "?????", "???", "?????", "10100", "11");
      if b { return Some(Other(FCVT_D_WU)); }
      b := Test32("1101001", "00010", "?????", "???", "?????", "10100", "11");
      if b { return Some(Other(FCVT_D_L)); }
      b := Test32("1101001", "00011", "?????", "???", "?????", "10100", "11");
      if b { return Some(Other(FCVT_D_LU)); }
      b := Test32("0100000", "00001", "?????", "???", "?????", "10100", "11");
      if b { return Some(Other(FCVT_S_D)); }
      b := Test32("0100001", "00000", "?????", "???", "?????", "10100", "11");
      if b { return Some(Other(FCVT_D_S)); }
      b := Test32("1110001", "00000", "?????", "000", "?????", "10100", "11");
      if b { return Some(Other(FMV_X_D)); }
      b := Test32("1111001", "00000", "?????", "000", "?????", "10100", "11");
      if b { return Some(Other(FMV_D_X)); }
      o := None;
    }

    method ScanDoubleRows4() returns (o: Option<Op>)
      ensures o == DoubleRows4(insn)
    {
      hide Cut32, Uniform2, Uniform3, Uniform5, Uniform7, Value2, Value3, Value5, Value7, RowFma, RowFpFull, RowR;
      Literals();
      RowsByParts32(insn);
      MoreRowsByParts32(insn);
      var b := Test32("1110001", "00000", "?????", "001", "?????", "10100", "11");
      if b { return Some(Other(FCLASS_D)); }
      b := Test32("1010001", "?????", "?????", "010", "?????", "10100", "11");
      if b { return Some(Other(FEQ_D)); }
      b := Test32("1010001", "?????", "?????", "001", "?????", "10100", "11");
      if b { return Some(Other(FLT_D)); }
      b := Test32("1010001", "?????", "?????", "000", "?????", "10100", "11");
      if b { return Some(Other(FLE_D)); }
      b := Test32("?????01", "?????", "?????", "???", "?????", "10000", "11");
      if b { return Some(Other(FMADD_D)); }
      b := Test32("?????01", "?????", "?????", "???", "?????", "10001", "11");
      if b { return Some(Other(FMSUB_D)); }
      b := Test32("?????01", "?????", "?????", "???", "?????", "10010", "11");
      if b { return Some(Other(FNMSUB_D)); }
      b := Test32("?????01", "?????", "?????", "???", "?????", "10011", "11");
      if b { return Some(Other(FNMADD_D)); }
      o := None;
    }

    method ScanBaseRows() returns (o: Option<Op>)
      ensures o == BaseRows(insn)
    {
      hide BaseRows1, BaseRows2, BaseRows3, BaseRows4, BaseRows5, BaseRows6, BaseRows7;
      o := ScanBaseRows1();
      if o.None? { o := ScanBaseRows2(); }
      if o.None? { o := ScanBaseRows3(); }
      if o.None? { o := ScanBaseRows4(); }
      if o.None? { o := ScanBaseRows5(); }
      if o.None? { o := ScanBaseRows6(); }
      if o.None? { o := ScanBaseRows7(); }
    }

    method ScanMulDivRows() returns (o: Option<Op>)
      ensures o == MulDivRows(insn)
    {
      hide MulDivRows1, MulDivRows2;
      o := ScanMulDivRows1();
      if o.None? { o := ScanMulDivRows2(); }
    }

    method ScanAtomicRows() returns (o: Option<Op>)
      ensures o == AtomicRows(insn)
    {
      hide AtomicRows1, AtomicRows2, AtomicRows3;
      o := ScanAtomicRows1();
      if o.None? { o := ScanAtomicRows2(); }
      if o.None? { o := ScanAtomicRows3(); }
    }

    method ScanSingleRows() returns (o: Option<Op>)
      ensures o == SingleRows(insn)
    {
      hide SingleRows1, SingleRows2, SingleRows3, SingleRows4;
      o := ScanSingleRows1();
      if o.None? { o := ScanSingleRows2(); }
      if o.None? { o := ScanSingleRows3(); }
      if o.None? { o := ScanSingleRows4(); }
    }

    method ScanDoubleRows() returns (o: Option<Op>)
      ensures o == DoubleRows(insn)
    {
      hide DoubleRows1, DoubleRows2, DoubleRows3, DoubleRows4;
      o := ScanDoubleRows1();
      if o.None? { o := ScanDoubleRows2(); }
      if o.None? { o := ScanDoubleRows3(); }
      if o.None? { o := ScanDoubleRows4(); }
    }

    // Decoder::decode_operand_32 on a fresh instruction
    method DecodeOperand32(t: Type)
      requires Fields() == Operands(0, 0, 0, 0)
      modifies this
      ensures Fields() == Operands(insn / 128 % 32, insn / 0x8000 % 32, insn / 0x10_0000 % 32, Imm32(t, insn))
    {
      hide Field, SextShift, JumpExpr32, BranchExpr32, StoreExpr;
      Fields32Are(insn);
      ImmediatesAre32(insn);
      StoreIs(insn);
      rs1, rs2, rd := Field(insn, 19, 15), Field(insn, 24, 20), Field(insn, 11, 7);
      match t {
        case TI => imm := SextShift(Field(insn, 31, 20), 12);
        case TU => imm := SextShift(Field(insn, 31, 12), 20) * 0x1000;
        case TS => imm := StoreExpr(insn);
        case TJ => imm := SextShift(JumpExpr32(insn), 21);
        case TB => imm := SextShift(BranchExpr32(insn), 13);
        case TR | TR4 | TN =>
      }
    }

    // Decoder::decode for a 32-bit word
    method Decode32Bit() returns (op: Op)
      requires Fields() == Operands(0, 0, 0, 0)
      modifies this
      ensures Insn(op, Fields()) == Decode32(insn)
    {
      hide BaseRows, MulDivRows, AtomicRows, SingleRows, DoubleRows, TypeOf, Imm32;
      var row := ScanBaseRows();
      if row.None? { row := ScanMulDivRows(); }
      if row.None? { row := ScanAtomicRows(); }
      if row.None? { row := ScanSingleRows(); }
      if row.None? { row := ScanDoubleRows(); }
      if row.None? {
        var b := TestInv32();
        if b { row := Some(INV); }
      }
      op := row.value;   // std::unreachable() otherwise
      DecodeOperand32(TypeOf(op));
    }
  }
}
