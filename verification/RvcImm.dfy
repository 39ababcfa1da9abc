/**
 The immediates of the compressed formats bit by bit, as the tables of chapter
 16 of the Unprivileged ISA place them, and the decoder's field expressions
 proved equal to them.
 */
module RvcImm {
  import opened Bits
  import MulDiv
  import opened RvcDecode
  import opened Rv64Decode

  // 2^k for the instruction bits that carry immediates
  function Unit(k: nat): (u: nat)
    ensures u > 0
  {
    if k == 2 then 4 else if k == 3 then 8 else if k == 4 then 16 else if k == 5 then 32
    else if k == 6 then 64 else if k == 7 then 128 else if k == 8 then 256 else if k == 9 then 512
    else if k == 10 then 1024 else if k == 11 then 2048 else if k == 12 then 4096 else 8192
  }

  // Instruction bit k
  function B(c: U16, k: nat): nat { c / Unit(k) % 2 }

  // imm[5] at 12 and imm[4:0] at 6:2
  function RefImm6(c: U16): nat {
    B(c, 12) * 32 + B(c, 6) * 16 + B(c, 5) * 8 + B(c, 4) * 4 + B(c, 3) * 2 + B(c, 2)
  }

  // nzimm[9|4|6|8:7|5]
  function RefAddi16sp(c: U16): int {
    Sext(B(c, 12) * 512 + B(c, 6) * 16 + B(c, 5) * 64 + B(c, 4) * 256 + B(c, 3) * 128 + B(c, 2) * 32, 512)
  }

  // nzimm[17|16:12]
  function RefLui(c: U16): int {
    Sext(B(c, 12) * 0x2_0000 + B(c, 6) * 0x1_0000 + B(c, 5) * 0x8000 + B(c, 4) * 0x4000
         + B(c, 3) * 0x2000 + B(c, 2) * 0x1000, 0x2_0000)
  }

  // uimm[5|4:2|7:6]
  function RefLwsp(c: U16): int {
    B(c, 12) * 32 + B(c, 6) * 16 + B(c, 5) * 8 + B(c, 4) * 4 + B(c, 3) * 128 + B(c, 2) * 64
  }

  // uimm[5|4:3|8:6]
  function RefLdsp(c: U16): int {
    B(c, 12) * 32 + B(c, 6) * 16 + B(c, 5) * 8 + B(c, 4) * 256 + B(c, 3) * 128 + B(c, 2) * 64
  }

  // uimm[5:2|7:6] at 12:7
  function RefSwsp(c: U16): int {
    B(c, 12) * 32 + B(c, 11) * 16 + B(c, 10) * 8 + B(c, 9) * 4 + B(c, 8) * 128 + B(c, 7) * 64
  }

  // uimm[5:3|8:6] at 12:7
  function RefSdsp(c: U16): int {
    B(c, 12) * 32 + B(c, 11) * 16 + B(c, 10) * 8 + B(c, 9) * 256 + B(c, 8) * 128 + B(c, 7) * 64
  }

  // nzuimm[5:4|9:6|2|3] at 12:5
  function RefAddi4spn(c: U16): int {
    B(c, 12) * 32 + B(c, 11) * 16 + B(c, 10) * 512 + B(c, 9) * 256 + B(c, 8) * 128 + B(c, 7) * 64
    + B(c, 6) * 4 + B(c, 5) * 8
  }

  // uimm[5:3] at 12:10, uimm[2|6] at 6:5
  function RefWord(c: U16): int {
    B(c, 12) * 32 + B(c, 11) * 16 + B(c, 10) * 8 + B(c, 6) * 4 + B(c, 5) * 64
  }

  // uimm[5:3] at 12:10, uimm[7:6] at 6:5
  function RefDouble(c: U16): int {
    B(c, 12) * 32 + B(c, 11) * 16 + B(c, 10) * 8 + B(c, 6) * 128 + B(c, 5) * 64
  }

  // offset[8|4:3] at 12:10, offset[7:6|2:1|5] at 6:2
  function RefBranch(c: U16): int {
    Sext(B(c, 12) * 256 + B(c, 11) * 16 + B(c, 10) * 8 + B(c, 6) * 128 + B(c, 5) * 64
         + B(c, 4) * 4 + B(c, 3) * 2 + B(c, 2) * 32, 256)
  }

  // offset[11|4|9:8|10|6|7|3:1|5] at 12:2
  function RefJump(c: U16): int {
    Sext(B(c, 12) * 2048 + B(c, 11) * 16 + B(c, 10) * 512 + B(c, 9) * 256 + B(c, 8) * 1024 + B(c, 7) * 64
         + B(c, 6) * 128 + B(c, 5) * 8 + B(c, 4) * 4 + B(c, 3) * 2 + B(c, 2) * 32, 2048)
  }

  // The lowest bit of a field.
  lemma Peel(c: nat, d: nat, n: nat)
    requires d > 0 && n > 0
    ensures c / d % (2 * n) == c / (2 * d) % n * 2 + c / d % 2
  {
    ModSplit(c / d, 2, n, 2 * n);
    ModSplit(c, d, 2, 2 * d);
  }

  lemma LowFields(c: U16)
    ensures c / 4 % 32 == B(c, 2) + 2 * B(c, 3) + 4 * B(c, 4) + 8 * B(c, 5) + 16 * B(c, 6)
    ensures c / 4 % 4 == B(c, 2) + 2 * B(c, 3) && c / 4 % 8 == B(c, 2) + 2 * B(c, 3) + 4 * B(c, 4)
    ensures c / 8 % 4 == B(c, 3) + 2 * B(c, 4) && c / 8 % 8 == B(c, 3) + 2 * B(c, 4) + 4 * B(c, 5)
    ensures c / 16 % 8 == B(c, 4) + 2 * B(c, 5) + 4 * B(c, 6) && c / 32 % 4 == B(c, 5) + 2 * B(c, 6)
  {
    Peel(c, 4, 16);
    Peel(c, 4, 2);
    Peel(c, 4, 4);
    Peel(c, 8, 8);
    Peel(c, 8, 2);
    Peel(c, 8, 4);
    Peel(c, 16, 4);
    Peel(c, 16, 2);
    Peel(c, 32, 2);
  }

  lemma HighFields(c: U16)
    ensures c / 128 % 4 == B(c, 7) + 2 * B(c, 8) && c / 128 % 8 == B(c, 7) + 2 * B(c, 8) + 4 * B(c, 9)
    ensures c / 128 % 16 == B(c, 7) + 2 * B(c, 8) + 4 * B(c, 9) + 8 * B(c, 10)
    ensures c / 512 % 4 == B(c, 9) + 2 * B(c, 10)
    ensures c / 512 % 16 == B(c, 9) + 2 * B(c, 10) + 4 * B(c, 11) + 8 * B(c, 12)
    ensures c / 1024 % 4 == B(c, 10) + 2 * B(c, 11)
    ensures c / 1024 % 8 == B(c, 10) + 2 * B(c, 11) + 4 * B(c, 12) && c / 2048 % 4 == B(c, 11) + 2 * B(c, 12)
  {
    Peel(c, 128, 2);
    Peel(c, 128, 4);
    Peel(c, 128, 8);
    Peel(c, 256, 2);
    Peel(c, 256, 4);
    Peel(c, 512, 2);
    Peel(c, 512, 8);
    Peel(c, 1024, 4);
    Peel(c, 1024, 2);
    Peel(c, 2048, 2);
  }

  lemma BitValues(c: U16)
    ensures B(c, 2) == c / 4 % 2 && B(c, 5) == c / 32 % 2 && B(c, 6) == c / 64 % 2 && B(c, 7) == c / 128 % 2
    ensures B(c, 8) == c / 256 % 2 && B(c, 11) == c / 2048 % 2 && B(c, 12) == c / 4096 % 2
    ensures forall k: nat {:trigger B(c, k)} :: B(c, k) < 2
  {
  }

  lemma Imm6Is(c: U16)
    ensures Imm6(c) == RefImm6(c) < 64
  {
    LowFields(c);
    BitValues(c);
    hide B;
  }

  lemma StackImms(c: U16)
    ensures c / 4 % 4 * 64 + c / 4096 % 2 * 32 + c / 16 % 8 * 4 == RefLwsp(c)
    ensures c / 4 % 8 * 64 + c / 4096 % 2 * 32 + c / 32 % 4 * 8 == RefLdsp(c)
    ensures c / 128 % 4 * 64 + c / 512 % 16 * 4 == RefSwsp(c) && c / 128 % 8 * 64 + c / 1024 % 8 * 8 == RefSdsp(c)
    ensures ImmCIW(c) == RefAddi4spn(c) < 1024 && RefLwsp(c) < 512 && RefLdsp(c) < 512
    ensures RefSwsp(c) < 512 && RefSdsp(c) < 512
  {
    LowFields(c);
    HighFields(c);
    BitValues(c);
    hide B;
  }

  lemma RegImms(c: U16)
    ensures ImmWord(c) == RefWord(c) < 256 && ImmDouble(c) == RefDouble(c) < 256
  {
    LowFields(c);
    HighFields(c);
    BitValues(c);
    hide B;
  }

  // A signed immediate of an even or page multiple below 2 * sign
  lemma SextBounds(x: nat, sign: nat, m: nat, q: nat)
    requires 0 < m && x == q * m && x < 2 * sign && sign % m == 0
    ensures 0 <= Sext(x, sign) + sign < 2 * sign && Sext(x, sign) % m == 0
  {
    var s := sign / m;
    assert sign == s * m;
    if x < sign {
      DivUnique(x, m, q, 0);
    } else {
      assert Sext(x, sign) == (q - 2 * s) * m;
      MulDiv.ModUnique((q - 2 * s) * m, q - 2 * s, 0, m);
    }
  }

  lemma Addi16spImm(c: U16)
    ensures Sext(c / 4096 % 2 * 512 + c / 8 % 4 * 128 + c / 32 % 2 * 64 + c / 4 % 2 * 32 + c / 64 % 2 * 16, 512)
         == RefAddi16sp(c)
    ensures -512 <= RefAddi16sp(c) < 512
  {
    LowFields(c);
    BitValues(c);
    hide B;
  }

  lemma LuiImm(c: U16)
    ensures Sext(c / 4096 % 2 * 0x2_0000 + c / 4 % 32 * 4096, 0x2_0000) == RefLui(c)
    ensures -0x2_0000 <= RefLui(c) < 0x2_0000 && RefLui(c) % 0x1000 == 0
  {
    LowFields(c);
    BitValues(c);
    var x, y := c / 4096 % 2, c / 4 % 32;
    hide B;
    assert RefLui(c) == Sext(x * 0x2_0000 + y * 4096, 0x2_0000) by { hide Sext; }
    SextBounds(x * 0x2_0000 + y * 4096, 0x2_0000, 0x1000, x * 32 + y);
  }

  lemma BranchImmIs(c: U16)
    requires c / 8192 % 8 != 4
    ensures ImmCB(c) == RefBranch(c) && -256 <= RefBranch(c) < 256 && RefBranch(c) % 2 == 0
  {
    LowFields(c);
    HighFields(c);
    BitValues(c);
    hide B, Sext;
    var x, y, z, v, w := c / 4096 % 2, c / 32 % 4, c / 4 % 2, c / 1024 % 4, c / 8 % 4;
    var sum := x * 256 + y * 64 + z * 32 + v * 8 + w * 2;
    assert ImmCB(c) == Sext(sum, 256);
    assert RefBranch(c) == Sext(sum, 256);
    SextBounds(sum, 256, 2, x * 128 + y * 32 + z * 16 + v * 4 + w);
  }

  lemma JumpImmIs(c: U16)
    ensures ImmCJ(c) == RefJump(c) && -2048 <= RefJump(c) < 2048 && RefJump(c) % 2 == 0
  {
    LowFields(c);
    HighFields(c);
    BitValues(c);
    hide B, Sext;
    var t := c / 4096 % 2 * 1024 + c / 2048 % 2 * 8 + c / 512 % 4 * 128 + c / 256 % 2 * 512
      + c / 128 % 2 * 32 + c / 64 % 2 * 64 + c / 8 % 8 + c / 4 % 2 * 16;
    assert ImmCJ(c) == Sext(2 * t, 2048);
    assert RefJump(c) == Sext(2 * t, 2048);
    SextBounds(2 * t, 2048, 2, t);
  }
}
