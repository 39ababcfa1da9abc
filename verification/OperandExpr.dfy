/**
 The shift-and-mask expressions of the operand decoders, and the field
 arithmetic they stand for.
 */
module OperandExpr {
  import opened Bits
  import opened RvcDecode
  import opened Rv64Table
  import opened Rv64Decode
  import M = MulDiv

  // bits(x, hi, lo): (x >> lo) & ((1 << (hi - lo + 1)) - 1)
  function Field(x: nat, hi: nat, lo: nat): nat
    requires lo <= hi
  {
    And(Shr(x, lo), Pow2(hi - lo + 1) - 1)
  }

  // x << n, for the fields here, which stay within the word
  function Lsl(x: nat, n: nat): nat { x * Pow2(n) }

  // sext(x, len): static_cast<int64_t>(x << (64 - len)) >> (64 - len)
  function SextShift(x: nat, len: nat): int
    requires len <= 64
  {
    M.Signed(M.Word(x * Pow2(64 - len))) / Pow2(64 - len)
  }

  lemma FieldIs(x: nat, hi: nat, lo: nat, d: nat, m: nat)
    requires lo <= hi && d == Pow2(lo) && m == Pow2(hi - lo + 1)
    ensures Field(x, hi, lo) == x / d % m && Field(x, hi, lo) < m
  {
    hide And, Shr, Pow2;
    ShrIsDivision(x, lo);
    AndLowMask(Shr(x, lo), hi - lo + 1);
  }

  // Or-ing a field into places that are clear adds it.
  lemma {:induction false} OrField(x: nat, f: nat, k: nat, n: nat)
    requires f < Pow2(n) && x / Pow2(k) % Pow2(n) == 0
    ensures Or(x, f * Pow2(k)) == x + f * Pow2(k)
    decreases k
  {
    hide Or;
    if k == 0 {
      OrDisjoint(x, f, n);
    } else {
      var y := f * Pow2(k - 1);
      assert f * Pow2(k) == 2 * y;
      ShiftStep(x, k);
      OrField(x / 2, f, k - 1, n);
      OrStep(x, 2 * y);
    }
  }

  lemma OrAt(x: nat, f: nat, k: nat, n: nat, d: nat, m: nat)
    requires d == Pow2(k) && m == Pow2(n) && f < m && x / d % m == 0
    ensures Lsl(f, k) == f * d && Or(x, Lsl(f, k)) == x + f * d
  {
    hide Or, Pow2;
    OrField(x, f, k, n);
  }

  lemma SextIs(x: nat, len: nat, p: nat)
    requires 0 < len < 64 && p == Pow2(len - 1) && x < 2 * p
    ensures SextShift(x, len) == Sext(x, p)
  {
    hide Pow2;
    var d := Pow2(64 - len);
    Pow2Add(len - 1, 64 - len);
    Pow2Sixtythree();
    assert Pow2(len - 1 + (64 - len)) == p * d;
    Stretch(x, p, d);
  }

  lemma Pow2Sixtythree()
    ensures Pow2(63) == 0x8000_0000_0000_0000
  {
    Pow2Values();
    assert Pow2(64) == 2 * Pow2(63);
  }

  lemma Stretch(x: nat, p: nat, d: nat)
    requires d > 0 && p * d == 0x8000_0000_0000_0000 && x < 2 * p
    ensures M.Signed(M.Word(x * d)) / d == Sext(x, p)
  {
    Scale(x, p, d);
    if x < p {
      FloorScaled(x, d);
    } else {
      assert x * d - 2 * (p * d) == (x - 2 * p) * d;
      FloorScaled(x - 2 * p, d);
    }
  }

  lemma Scale(x: nat, p: nat, d: nat)
    requires d > 0 && x < 2 * p
    ensures x * d < 2 * (p * d) && (x < p <==> x * d < p * d)
  {
    MulGap(x, 2 * p, d);
    if x < p { MulGap(x, p, d); } else if p < x { MulGap(p, x, d); }
  }

  lemma FloorScaled(q: int, d: nat)
    requires d > 0
    ensures q * d / d == q
  {
    var t := q * d / d;
    assert q * d == t * d + q * d % d;
    if t < q {
      assert (q - t) * d == q * d - t * d;
      AtLeastOne(q - t, d);
    } else if q < t {
      assert (t - q) * d == t * d - q * d;
      AtLeastOne(t - q, d);
    }
  }

  lemma AtLeastOne(a: nat, d: nat)
    requires a > 0
    ensures a * d >= d
  {
    assert a * d == (a - 1) * d + d;
  }

  // ----- 16-bit formats ---------------------------------------------------------------------

  // bits(i, 12, 12) << 5 | bits(i, 6, 2)
  function Imm6Expr(i: U16): nat { Or(Lsl(Field(i, 12, 12), 5), Field(i, 6, 2)) }

  function Addi16spExpr(i: U16): nat {
    Or(Or(Or(Or(Lsl(Field(i, 12, 12), 9), Lsl(Field(i, 4, 3), 7)), Lsl(Field(i, 5, 5), 6)), Lsl(Field(i, 2, 2), 5)),
       Lsl(Field(i, 6, 6), 4))
  }

  function LuiExpr(i: U16): nat { Or(Lsl(Field(i, 12, 12), 17), Lsl(Field(i, 6, 2), 12)) }

  function LwspExpr(i: U16): nat {
    Or(Or(Lsl(Field(i, 3, 2), 6), Lsl(Field(i, 12, 12), 5)), Lsl(Field(i, 6, 4), 2))
  }

  function LdspExpr(i: U16): nat {
    Or(Or(Lsl(Field(i, 4, 2), 6), Lsl(Field(i, 12, 12), 5)), Lsl(Field(i, 6, 5), 3))
  }

  function SwspExpr(i: U16): nat { Or(Lsl(Field(i, 8, 7), 6), Lsl(Field(i, 12, 9), 2)) }
  function SdspExpr(i: U16): nat { Or(Lsl(Field(i, 9, 7), 6), Lsl(Field(i, 12, 10), 3)) }

  function Addi4spnExpr(i: U16): nat {
    Or(Or(Or(Lsl(Field(i, 10, 7), 6), Lsl(Field(i, 12, 11), 4)), Lsl(Field(i, 5, 5), 3)), Lsl(Field(i, 6, 6), 2))
  }

  function WordExpr(i: U16): nat {
    Or(Or(Lsl(Field(i, 5, 5), 6), Lsl(Field(i, 12, 10), 3)), Lsl(Field(i, 6, 6), 2))
  }
  function DoubleExpr(i: U16): nat { Or(Lsl(Field(i, 6, 5), 6), Lsl(Field(i, 12, 10), 3)) }

  function BranchExpr(i: U16): nat {
    Or(Or(Or(Or(Lsl(Field(i, 12, 12), 8), Lsl(Field(i, 6, 5), 6)), Lsl(Field(i, 2, 2), 5)), Lsl(Field(i, 11, 10), 3)),
       Lsl(Field(i, 4, 3), 1))
  }

  function JumpExpr(i: U16): nat {
    Or(Or(Or(Or(Or(Or(Or(Lsl(Field(i, 12, 12), 11), Lsl(Field(i, 11, 11), 4)), Lsl(Field(i, 10, 9), 8)),
      Lsl(Field(i, 8, 8), 10)), Lsl(Field(i, 7, 7), 6)), Lsl(Field(i, 6, 6), 7)), Lsl(Field(i, 5, 3), 1)),
      Lsl(Field(i, 2, 2), 5))
  }

  // The fields the 16-bit expressions take
  lemma Fields16Are(i: U16)
    ensures Field(i, 12, 12) == i / 4096 % 2 && Field(i, 11, 11) == i / 2048 % 2 && Field(i, 8, 8) == i / 256 % 2
    ensures Field(i, 7, 7) == i / 128 % 2 && Field(i, 6, 6) == i / 64 % 2 && Field(i, 5, 5) == i / 32 % 2
    ensures Field(i, 2, 2) == i / 4 % 2
    ensures Field(i, 12, 11) == i / 2048 % 4 && Field(i, 11, 10) == i / 1024 % 4 && Field(i, 10, 9) == i / 512 % 4
    ensures Field(i, 8, 7) == i / 128 % 4 && Field(i, 6, 5) == i / 32 % 4 && Field(i, 4, 3) == i / 8 % 4
    ensures Field(i, 3, 2) == i / 4 % 4
  {
    hide Field, Pow2;
    SmallPowers();
    FieldIs(i, 12, 12, 4096, 2);
    FieldIs(i, 11, 11, 2048, 2);
    FieldIs(i, 8, 8, 256, 2);
    FieldIs(i, 7, 7, 128, 2);
    FieldIs(i, 6, 6, 64, 2);
    FieldIs(i, 5, 5, 32, 2);
    FieldIs(i, 2, 2, 4, 2);
    FieldIs(i, 12, 11, 2048, 4);
    FieldIs(i, 11, 10, 1024, 4);
    FieldIs(i, 10, 9, 512, 4);
    FieldIs(i, 8, 7, 128, 4);
    FieldIs(i, 6, 5, 32, 4);
    FieldIs(i, 4, 3, 8, 4);
    FieldIs(i, 3, 2, 4, 4);
  }

  lemma WideFields16Are(i: U16)
    ensures Field(i, 12, 10) == i / 1024 % 8 && Field(i, 9, 7) == i / 128 % 8 && Field(i, 6, 4) == i / 16 % 8
    ensures Field(i, 5, 3) == i / 8 % 8 && Field(i, 4, 2) == i / 4 % 8 && Field(i, 15, 13) == i / 8192 % 8
    ensures Field(i, 12, 9) == i / 512 % 16 && Field(i, 10, 7) == i / 128 % 16
    ensures Field(i, 6, 2) == i / 4 % 32 && Field(i, 11, 7) == i / 128 % 32 && Field(i, 1, 0) == i % 4
  {
    hide Field, Pow2;
    SmallPowers();
    FieldIs(i, 12, 10, 1024, 8);
    FieldIs(i, 9, 7, 128, 8);
    FieldIs(i, 6, 4, 16, 8);
    FieldIs(i, 5, 3, 8, 8);
    FieldIs(i, 4, 2, 4, 8);
    FieldIs(i, 15, 13, 8192, 8);
    FieldIs(i, 12, 9, 512, 16);
    FieldIs(i, 10, 7, 128, 16);
    FieldIs(i, 6, 2, 4, 32);
    FieldIs(i, 11, 7, 128, 32);
    FieldIs(i, 1, 0, 1, 4);
  }

  lemma ShiftedZero(f: nat, k: nat, d: nat)
    requires d == Pow2(k)
    ensures Lsl(f, k) == f * d
  {
  }

  // Each immediate expression is the sum of its fields.
  lemma OrLow(x: nat, f: nat, n: nat, m: nat)
    requires m == Pow2(n) && f < m && x % m == 0
    ensures Or(x, f) == x + f
  {
    hide Pow2;
    OrDisjoint(x, f, n);
  }

  lemma Imm6ExprIs(i: U16)
    ensures Imm6Expr(i) == Imm6(i)
  {
    hide Field, Pow2, Or, Lsl;
    SmallPowers();
    Fields16Are(i);
    WideFields16Are(i);
    ShiftedZero(i / 4096 % 2, 5, 32);
    OrLow(i / 4096 % 2 * 32, i / 4 % 32, 5, 32);
  }

  lemma Addi16spSum(a: nat, b: nat, c: nat, d: nat, e: nat)
    requires a < 2 && b < 4 && c < 2 && d < 2 && e < 2
    ensures Or(Or(Or(Or(Lsl(a, 9), Lsl(b, 7)), Lsl(c, 6)), Lsl(d, 5)), Lsl(e, 4))
      == a * 512 + b * 128 + c * 64 + d * 32 + e * 16
  {
    hide Pow2, Or, Lsl;
    SmallPowers();
    ShiftedZero(a, 9, 512);
    OrAt(a * 512, b, 7, 2, 128, 4);
    OrAt(a * 512 + b * 128, c, 6, 1, 64, 2);
    OrAt(a * 512 + b * 128 + c * 64, d, 5, 1, 32, 2);
    OrAt(a * 512 + b * 128 + c * 64 + d * 32, e, 4, 1, 16, 2);
  }

  lemma Addi16spExprIs(i: U16)
    ensures Addi16spExpr(i) == i / 4096 % 2 * 512 + i / 8 % 4 * 128 + i / 32 % 2 * 64 + i / 4 % 2 * 32
      + i / 64 % 2 * 16
  {
    hide Field, Pow2, Or, Lsl;
    Fields16Are(i);
    WideFields16Are(i);
    Addi16spSum(i / 4096 % 2, i / 8 % 4, i / 32 % 2, i / 4 % 2, i / 64 % 2);
  }

  lemma LuiExprIs(i: U16)
    ensures LuiExpr(i) == i / 4096 % 2 * 0x2_0000 + i / 4 % 32 * 4096
  {
    hide Field, Pow2, Or, Lsl;
    SmallPowers();
    Fields16Are(i);
    WideFields16Are(i);
    ShiftedZero(i / 4096 % 2, 17, 0x2_0000);
    OrAt(i / 4096 % 2 * 0x2_0000, i / 4 % 32, 12, 5, 4096, 32);
  }

  lemma LwspSum(a: nat, b: nat, c: nat)
    requires a < 4 && b < 2 && c < 8
    ensures Or(Or(Lsl(a, 6), Lsl(b, 5)), Lsl(c, 2))
      == a * 64 + b * 32 + c * 4
  {
    hide Pow2, Or, Lsl;
    SmallPowers();
    ShiftedZero(a, 6, 64);
    OrAt(a * 64, b, 5, 1, 32, 2);
    OrAt(a * 64 + b * 32, c, 2, 3, 4, 8);
  }

  lemma LwspExprIs(i: U16)
    ensures LwspExpr(i) == i / 4 % 4 * 64 + i / 4096 % 2 * 32 + i / 16 % 8 * 4
  {
    hide Field, Pow2, Or, Lsl;
    Fields16Are(i);
    WideFields16Are(i);
    LwspSum(i / 4 % 4, i / 4096 % 2, i / 16 % 8);
  }

  lemma LdspSum(a: nat, b: nat, c: nat)
    requires a < 8 && b < 2 && c < 4
    ensures Or(Or(Lsl(a, 6), Lsl(b, 5)), Lsl(c, 3))
      == a * 64 + b * 32 + c * 8
  {
    hide Pow2, Or, Lsl;
    SmallPowers();
    ShiftedZero(a, 6, 64);
    OrAt(a * 64, b, 5, 1, 32, 2);
    OrAt(a * 64 + b * 32, c, 3, 2, 8, 4);
  }

  lemma LdspExprIs(i: U16)
    ensures LdspExpr(i) == i / 4 % 8 * 64 + i / 4096 % 2 * 32 + i / 32 % 4 * 8
  {
    hide Field, Pow2, Or, Lsl;
    Fields16Are(i);
    WideFields16Are(i);
    LdspSum(i / 4 % 8, i / 4096 % 2, i / 32 % 4);
  }

  lemma SwspExprIs(i: U16)
    ensures SwspExpr(i) == i / 128 % 4 * 64 + i / 512 % 16 * 4
  {
    hide Field, Pow2, Or, Lsl;
    SmallPowers();
    Fields16Are(i);
    WideFields16Are(i);
    ShiftedZero(i / 128 % 4, 6, 64);
    OrAt(i / 128 % 4 * 64, i / 512 % 16, 2, 4, 4, 16);
  }

  lemma SdspExprIs(i: U16)
    ensures SdspExpr(i) == i / 128 % 8 * 64 + i / 1024 % 8 * 8
  {
    hide Field, Pow2, Or, Lsl;
    SmallPowers();
    Fields16Are(i);
    WideFields16Are(i);
    ShiftedZero(i / 128 % 8, 6, 64);
    OrAt(i / 128 % 8 * 64, i / 1024 % 8, 3, 3, 8, 8);
  }

  lemma Addi4spnSum(a: nat, b: nat, c: nat, d: nat)
    requires a < 16 && b < 4 && c < 2 && d < 2
    ensures Or(Or(Or(Lsl(a, 6), Lsl(b, 4)), Lsl(c, 3)), Lsl(d, 2))
      == a * 64 + b * 16 + c * 8 + d * 4
  {
    hide Pow2, Or, Lsl;
    SmallPowers();
    ShiftedZero(a, 6, 64);
    OrAt(a * 64, b, 4, 2, 16, 4);
    OrAt(a * 64 + b * 16, c, 3, 1, 8, 2);
    OrAt(a * 64 + b * 16 + c * 8, d, 2, 1, 4, 2);
  }

  lemma Addi4spnExprIs(i: U16)
    ensures Addi4spnExpr(i) == ImmCIW(i)
  {
    hide Field, Pow2, Or, Lsl;
    Fields16Are(i);
    WideFields16Are(i);
    Addi4spnSum(i / 128 % 16, i / 2048 % 4, i / 32 % 2, i / 64 % 2);
  }

  lemma WordSum(a: nat, b: nat, c: nat)
    requires a < 2 && b < 8 && c < 2
    ensures Or(Or(Lsl(a, 6), Lsl(b, 3)), Lsl(c, 2))
      == a * 64 + b * 8 + c * 4
  {
    hide Pow2, Or, Lsl;
    SmallPowers();
    ShiftedZero(a, 6, 64);
    OrAt(a * 64, b, 3, 3, 8, 8);
    OrAt(a * 64 + b * 8, c, 2, 1, 4, 2);
  }

  lemma WordExprIs(i: U16)
    ensures WordExpr(i) == ImmWord(i)
  {
    hide Field, Pow2, Or, Lsl;
    Fields16Are(i);
    WideFields16Are(i);
    WordSum(i / 32 % 2, i / 1024 % 8, i / 64 % 2);
  }

  lemma DoubleExprIs(i: U16)
    ensures DoubleExpr(i) == ImmDouble(i)
  {
    hide Field, Pow2, Or, Lsl;
    SmallPowers();
    Fields16Are(i);
    WideFields16Are(i);
    ShiftedZero(i / 32 % 4, 6, 64);
    OrAt(i / 32 % 4 * 64, i / 1024 % 8, 3, 3, 8, 8);
  }

  lemma BranchSum(a: nat, b: nat, c: nat, d: nat, e: nat)
    requires a < 2 && b < 4 && c < 2 && d < 4 && e < 4
    ensures Or(Or(Or(Or(Lsl(a, 8), Lsl(b, 6)), Lsl(c, 5)), Lsl(d, 3)), Lsl(e, 1))
      == a * 256 + b * 64 + c * 32 + d * 8 + e * 2
  {
    hide Pow2, Or, Lsl;
    SmallPowers();
    ShiftedZero(a, 8, 256);
    OrAt(a * 256, b, 6, 2, 64, 4);
    OrAt(a * 256 + b * 64, c, 5, 1, 32, 2);
    OrAt(a * 256 + b * 64 + c * 32, d, 3, 2, 8, 4);
    OrAt(a * 256 + b * 64 + c * 32 + d * 8, e, 1, 2, 2, 4);
  }

  lemma BranchExprIs(i: U16)
    ensures BranchExpr(i) == i / 4096 % 2 * 256 + i / 32 % 4 * 64 + i / 4 % 2 * 32 + i / 1024 % 4 * 8
      + i / 8 % 4 * 2
  {
    hide Field, Pow2, Or, Lsl;
    Fields16Are(i);
    WideFields16Are(i);
    BranchSum(i / 4096 % 2, i / 32 % 4, i / 4 % 2, i / 1024 % 4, i / 8 % 4);
  }

  // The same with the rest of the word given around the field
  lemma OrInto(q: nat, low: nat, f: nat, k: nat, n: nat, d: nat, m: nat)
    requires d == Pow2(k) && m == Pow2(n) && f < m && low < d
    ensures Or(q * (d * m) + low, Lsl(f, k)) == q * (d * m) + low + f * d
  {
    hide Or, Lsl, Pow2;
    var x := q * (d * m) + low;
    assert q * (d * m) == q * m * d;
    DivUnique(x, d, q * m, low);
    DivUnique(q * m, m, q, 0);
    OrAt(x, f, k, n, d, m);
  }

  lemma JumpSum(a: nat, b: nat, c: nat, d: nat, e: nat, f: nat, g: nat, h: nat)
    requires a < 2 && b < 2 && c < 4 && d < 2 && e < 2 && f < 2 && g < 8 && h < 2
    ensures Or(Or(Or(Or(Or(Or(Or(Lsl(a, 11), Lsl(b, 4)), Lsl(c, 8)), Lsl(d, 10)), Lsl(e, 6)), Lsl(f, 7)), Lsl(g, 1)),
               Lsl(h, 5))
      == a * 2048 + b * 16 + c * 256 + d * 1024 + e * 64 + f * 128 + g * 2 + h * 32
  {
    hide Pow2, Or, Lsl;
    SmallPowers();
    ShiftedZero(a, 11, 2048);
    OrInto(a * 64, 0, b, 4, 1, 16, 2);
    OrInto(a * 2, b * 16, c, 8, 2, 256, 4);
    OrInto(a, b * 16 + c * 256, d, 10, 1, 1024, 2);
    OrInto(a * 16 + d * 8 + c * 2, b * 16, e, 6, 1, 64, 2);
    OrInto(a * 8 + d * 4 + c, b * 16 + e * 64, f, 7, 1, 128, 2);
    OrInto(a * 128 + d * 64 + c * 16 + f * 8 + e * 4 + b, 0, g, 1, 3, 2, 8);
    OrInto(a * 32 + d * 16 + c * 4 + f * 2 + e, b * 16 + g * 2, h, 5, 1, 32, 2);
  }

  lemma JumpExprIs(i: U16)
    ensures JumpExpr(i) == i / 4096 % 2 * 2048 + i / 2048 % 2 * 16 + i / 512 % 4 * 256 + i / 256 % 2 * 1024
      + i / 128 % 2 * 64 + i / 64 % 2 * 128 + i / 8 % 8 * 2 + i / 4 % 2 * 32
  {
    hide Field, Pow2, Or, Lsl;
    Fields16Are(i);
    WideFields16Are(i);
    JumpSum(i / 4096 % 2, i / 2048 % 2, i / 512 % 4, i / 256 % 2, i / 128 % 2, i / 64 % 2, i / 8 % 8, i / 4 % 2);
  }

  // The sign-extended immediates
  lemma SignedImmediates(i: U16)
    ensures SextShift(Imm6Expr(i), 6) == Sext(Imm6(i), 32)
    ensures SextShift(Addi16spExpr(i), 10)
      == Sext(i / 4096 % 2 * 512 + i / 8 % 4 * 128 + i / 32 % 2 * 64 + i / 4 % 2 * 32 + i / 64 % 2 * 16, 512)
    ensures SextShift(LuiExpr(i), 18) == Sext(i / 4096 % 2 * 0x2_0000 + i / 4 % 32 * 4096, 0x2_0000)
    ensures SextShift(BranchExpr(i), 9)
      == Sext(i / 4096 % 2 * 256 + i / 32 % 4 * 64 + i / 4 % 2 * 32 + i / 1024 % 4 * 8 + i / 8 % 4 * 2, 256)
    ensures SextShift(JumpExpr(i), 12) == ImmCJ(i)
  {
    hide Field, Pow2, Imm6Expr, Addi16spExpr, LuiExpr, BranchExpr, JumpExpr, SextShift, Sext;
    SmallPowers();
    Imm6ExprIs(i);
    Addi16spExprIs(i);
    LuiExprIs(i);
    BranchExprIs(i);
    JumpExprIs(i);
    SextIs(Imm6Expr(i), 6, 32);
    SextIs(Addi16spExpr(i), 10, 512);
    SextIs(LuiExpr(i), 18, 0x2_0000);
    SextIs(BranchExpr(i), 9, 256);
    SextIs(JumpExpr(i), 12, 2048);
  }

  // ----- 32-bit formats ---------------------------------------------------------------------

  // sext(bits(w, 31, 25), 7) << 5 | bits(w, 11, 7), in 64 bits
  function StoreExpr(w: U32): int {
    M.Signed(Or(M.Word(SextShift(Field(w, 31, 25), 7) * 32), Field(w, 11, 7)) % M.W64)
  }

  function JumpExpr32(w: U32): nat {
    Or(Or(Or(Lsl(Field(w, 31, 31), 20), Lsl(Field(w, 19, 12), 12)), Lsl(Field(w, 20, 20), 11)),
       Lsl(Field(w, 30, 21), 1))
  }

  function BranchExpr32(w: U32): nat {
    Or(Or(Or(Lsl(Field(w, 31, 31), 12), Lsl(Field(w, 7, 7), 11)), Lsl(Field(w, 30, 25), 5)), Lsl(Field(w, 11, 8), 1))
  }

  lemma Powers32()
    ensures Pow2(20) == 0x10_0000 && Pow2(21) == 0x20_0000 && Pow2(25) == 0x200_0000 && Pow2(31) == 0x8000_0000
    ensures Pow2(15) == 0x8000 && Pow2(19) == 0x8_0000
  {
    Pow2Values();
    assert Pow2(21) == 2 * Pow2(20) && Pow2(20) == 2 * Pow2(19) && Pow2(32) == 2 * Pow2(31);
    Pow2Add(21, 4);
    Pow2Add(12, 3);
  }

  // The fields the 32-bit expressions take
  lemma Fields32Are(w: U32)
    ensures Field(w, 19, 15) == w / 0x8000 % 32 && Field(w, 24, 20) == w / 0x10_0000 % 32
    ensures Field(w, 11, 7) == w / 128 % 32 && Field(w, 31, 20) == w / 0x10_0000
    ensures Field(w, 31, 12) == w / 0x1000 && Field(w, 31, 25) == w / 0x200_0000
  {
    hide Field, Pow2;
    SmallPowers();
    Powers32();
    FieldIs(w, 19, 15, 0x8000, 32);
    FieldIs(w, 24, 20, 0x10_0000, 32);
    FieldIs(w, 11, 7, 128, 32);
    FieldIs(w, 31, 20, 0x10_0000, 0x1000);
    FieldIs(w, 31, 12, 0x1000, 0x10_0000);
    FieldIs(w, 31, 25, 0x200_0000, 128);
  }

  lemma ScatteredFields32Are(w: U32)
    ensures Field(w, 31, 31) == w / 0x8000_0000 && Field(w, 19, 12) == w / 0x1000 % 256
    ensures Field(w, 20, 20) == w / 0x10_0000 % 2 && Field(w, 30, 21) == w / 0x20_0000 % 1024
    ensures Field(w, 7, 7) == w / 128 % 2 && Field(w, 30, 25) == w / 0x200_0000 % 64 && Field(w, 11, 8) == w / 256 % 16
  {
    hide Field, Pow2;
    SmallPowers();
    Powers32();
    FieldIs(w, 31, 31, 0x8000_0000, 2);
    FieldIs(w, 19, 12, 0x1000, 256);
    FieldIs(w, 20, 20, 0x10_0000, 2);
    FieldIs(w, 30, 21, 0x20_0000, 1024);
    FieldIs(w, 7, 7, 128, 2);
    FieldIs(w, 30, 25, 0x200_0000, 64);
    FieldIs(w, 11, 8, 256, 16);
  }

  lemma JumpSum32(a: nat, b: nat, c: nat, d: nat)
    requires a < 2 && b < 256 && c < 2 && d < 1024
    ensures Or(Or(Or(Lsl(a, 20), Lsl(b, 12)), Lsl(c, 11)), Lsl(d, 1)) == a * 0x10_0000 + b * 0x1000 + c * 0x800 + d * 2
  {
    hide Pow2, Or, Lsl;
    SmallPowers();
    Powers32();
    ShiftedZero(a, 20, 0x10_0000);
    OrInto(a, 0, b, 12, 8, 0x1000, 256);
    OrInto(a * 256 + b, 0, c, 11, 1, 0x800, 2);
    OrInto(a * 512 + b * 2 + c, 0, d, 1, 10, 2, 1024);
  }

  lemma BranchSum32(a: nat, b: nat, c: nat, d: nat)
    requires a < 2 && b < 2 && c < 64 && d < 16
    ensures Or(Or(Or(Lsl(a, 12), Lsl(b, 11)), Lsl(c, 5)), Lsl(d, 1)) == a * 0x1000 + b * 0x800 + c * 32 + d * 2
  {
    hide Pow2, Or, Lsl;
    SmallPowers();
    ShiftedZero(a, 12, 0x1000);
    OrInto(a, 0, b, 11, 1, 0x800, 2);
    OrInto(a * 2 + b, 0, c, 5, 6, 32, 64);
    OrInto(a * 128 + b * 64 + c, 0, d, 1, 4, 2, 16);
  }

  // decode_operand_32, format by format
  lemma ImmediatesAre32(w: U32)
    ensures SextShift(Field(w, 31, 20), 12) == Imm32(TI, w)
    ensures SextShift(Field(w, 31, 12), 20) * 0x1000 == Imm32(TU, w)
    ensures SextShift(JumpExpr32(w), 21) == Imm32(TJ, w)
    ensures SextShift(BranchExpr32(w), 13) == Imm32(TB, w)
  {
    hide Field, Pow2, Or, Lsl, SextShift, Sext;
    SmallPowers();
    Powers32();
    Fields32Are(w);
    ScatteredFields32Are(w);
    JumpSum32(w / 0x8000_0000, w / 0x1000 % 256, w / 0x10_0000 % 2, w / 0x20_0000 % 1024);
    BranchSum32(w / 0x8000_0000, w / 128 % 2, w / 0x200_0000 % 64, w / 256 % 16);
    SextIs(w / 0x10_0000, 12, 0x800);
    SextIs(w / 0x1000, 20, 0x8_0000);
    SextIs(JumpExpr32(w), 21, 0x10_0000);
    SextIs(BranchExpr32(w), 13, 0x1000);
  }

  lemma StoreIs(w: U32)
    ensures StoreExpr(w) == Imm32(TS, w)
  {
    hide Field, Pow2, Or, SextShift;
    SmallPowers();
    Fields32Are(w);
    SextIs(w / 0x200_0000, 7, 64);
    StoreOr(w / 0x200_0000, w / 128 % 32);
  }

  lemma StoreOr(x: nat, f: nat)
    requires x < 128 && f < 32
    ensures M.Signed(Or(M.Word(Sext(x, 64) * 32), f) % M.W64) == Sext(x, 64) * 32 + f
  {
    hide Or;
    SmallPowers();
    var y := M.Word(Sext(x, 64) * 32);
    assert y == if x < 64 then x * 32 else M.W64 + (x - 128) * 32;
    OrLow(y, f, 5, 32);
  }
}
