/**
 Machine words as natural numbers.

 A word of the emulator is a `nat` below a power of two; `Bit(x, k)` is bit `k`
 of `x`, and the C++ expressions on words become `SetBit` (`x |= 1 << k`),
 `ClearBit` (`x &= ~(1 << k)`), `And`, `Or`, `Shr` (`x >> s`) and multiplication
 by a power of two (`x << s`).  The lemmas say what those
 operations do to the bits and to the numbers.
 */
module Bits {

  type Byte = x: int | 0 <= x < 0x100
  type U16 = x: int | 0 <= x < 0x1_0000
  type U32 = x: int | 0 <= x < 0x1_0000_0000
  type U64 = x: int | 0 <= x < 0x1_0000_0000_0000_0000

  // Addresses are 64 bits wide and wrap.
  function Wrap(a: nat): U64 { a % 0x1_0000_0000_0000_0000 }

  function Pow2(k: nat): (r: nat)
    ensures r > 0
  {
    if k == 0 then 1 else 2 * Pow2(k - 1)
  }

  predicate Bit(x: nat, k: nat) {
    if k == 0 then x % 2 == 1 else Bit(x / 2, k - 1)
  }

  function SetBit(x: nat, k: nat): nat {
    if k == 0 then x - x % 2 + 1 else x % 2 + 2 * SetBit(x / 2, k - 1)
  }

  function ClearBit(x: nat, k: nat): nat {
    if k == 0 then x - x % 2 else x % 2 + 2 * ClearBit(x / 2, k - 1)
  }

  function And(x: nat, y: nat): nat {
    if x == 0 || y == 0 then 0 else (x % 2) * (y % 2) + 2 * And(x / 2, y / 2)
  }

  function Or(x: nat, y: nat): nat {
    if x == 0 then y else if y == 0 then x
    else (if x % 2 == 1 || y % 2 == 1 then 1 else 0) + 2 * Or(x / 2, y / 2)
  }

  // x >> s
  function Shr(x: nat, s: nat): nat {
    if s == 0 then x else Shr(x / 2, s - 1)
  }

  lemma {:induction false} BitOfZero(k: nat)
    ensures !Bit(0, k)
  {
    if k > 0 {
      BitOfZero(k - 1);
    }
  }

  // One binary digit on top of the rest.
  lemma Digit(x: nat, q: nat, d: nat)
    requires x == d + 2 * q && d < 2
    ensures x % 2 == d && x / 2 == q
  {
  }

  lemma SetBitStep(x: nat, j: nat)
    ensures SetBit(x, j) % 2 == (if j == 0 then 1 else x % 2)
    ensures SetBit(x, j) / 2 == if j == 0 then x / 2 else SetBit(x / 2, j - 1)
  {
    Digit(SetBit(x, j), if j == 0 then x / 2 else SetBit(x / 2, j - 1), if j == 0 then 1 else x % 2);
  }

  lemma ClearBitStep(x: nat, j: nat)
    ensures ClearBit(x, j) % 2 == (if j == 0 then 0 else x % 2)
    ensures ClearBit(x, j) / 2 == if j == 0 then x / 2 else ClearBit(x / 2, j - 1)
  {
    Digit(ClearBit(x, j), if j == 0 then x / 2 else ClearBit(x / 2, j - 1), if j == 0 then 0 else x % 2);
  }

  lemma AndStep(x: nat, y: nat)
    ensures And(x, y) % 2 == (if x % 2 == 1 && y % 2 == 1 then 1 else 0)
    ensures And(x, y) / 2 == And(x / 2, y / 2)
  {
    if x > 0 && y > 0 {
      Digit(And(x, y), And(x / 2, y / 2), if x % 2 == 1 && y % 2 == 1 then 1 else 0);
    }
  }

  lemma OrStep(x: nat, y: nat)
    ensures Or(x, y) % 2 == (if x % 2 == 1 || y % 2 == 1 then 1 else 0)
    ensures Or(x, y) / 2 == Or(x / 2, y / 2)
  {
    if x > 0 && y > 0 {
      Digit(Or(x, y), Or(x / 2, y / 2), if x % 2 == 1 || y % 2 == 1 then 1 else 0);
    }
  }

  lemma {:induction false} BitOfSetBit(x: nat, j: nat, k: nat)
    ensures Bit(SetBit(x, j), k) == (j == k || Bit(x, k))
  {
    hide SetBit;
    SetBitStep(x, j);
    if j > 0 && k > 0 {
      BitOfSetBit(x / 2, j - 1, k - 1);
    }
  }

  lemma {:induction false} BitOfClearBit(x: nat, j: nat, k: nat)
    ensures Bit(ClearBit(x, j), k) == (j != k && Bit(x, k))
  {
    hide ClearBit;
    ClearBitStep(x, j);
    if j > 0 && k > 0 {
      BitOfClearBit(x / 2, j - 1, k - 1);
    }
  }

  lemma {:induction false} BitOfAnd(x: nat, y: nat, k: nat)
    ensures Bit(And(x, y), k) == (Bit(x, k) && Bit(y, k))
  {
    hide And;
    AndStep(x, y);
    if k > 0 {
      BitOfAnd(x / 2, y / 2, k - 1);
    }
  }

  lemma {:induction false} BitOfOr(x: nat, y: nat, k: nat)
    ensures Bit(Or(x, y), k) == (Bit(x, k) || Bit(y, k))
  {
    hide Or;
    OrStep(x, y);
    if k > 0 {
      BitOfOr(x / 2, y / 2, k - 1);
    }
  }

  // Two words with the same bits are the same word.
  lemma {:induction false} SameBits(x: nat, y: nat)
    requires forall k: nat :: Bit(x, k) == Bit(y, k)
    ensures x == y
    decreases x + y
  {
    assert Bit(x, 0) == Bit(y, 0);
    if x != 0 || y != 0 {
      forall k: nat ensures Bit(x / 2, k) == Bit(y / 2, k) {
        assert Bit(x, k + 1) == Bit(y, k + 1);
      }
      SameBits(x / 2, y / 2);
    }
  }

  // A word of n bits has no bit at n or above.
  lemma {:induction false} HighBitsClear(x: nat, n: nat, k: nat)
    requires x < Pow2(n) && n <= k
    ensures !Bit(x, k)
  {
    if n == 0 {
      BitOfZero(k);
    } else {
      HighBitsClear(x / 2, n - 1, k - 1);
    }
  }

  lemma {:induction false} SetBitBound(x: nat, k: nat, n: nat)
    requires x < Pow2(n) && k < n
    ensures SetBit(x, k) < Pow2(n)
  {
    if k > 0 {
      SetBitBound(x / 2, k - 1, n - 1);
    }
  }

  lemma {:induction false} ClearBitBound(x: nat, k: nat)
    ensures ClearBit(x, k) <= x
  {
    if k > 0 {
      ClearBitBound(x / 2, k - 1);
    }
  }

  lemma {:induction false} AndBound(x: nat, y: nat)
    ensures And(x, y) <= x && And(x, y) <= y
  {
    if x != 0 && y != 0 {
      AndBound(x / 2, y / 2);
      assert (x % 2) * (y % 2) <= x % 2 && (x % 2) * (y % 2) <= y % 2;
    }
  }

  lemma {:induction false} Pow2Add(a: nat, b: nat)
    ensures Pow2(a + b) == Pow2(a) * Pow2(b)
  {
    if a > 0 {
      Pow2Add(a - 1, b);
    }
  }

  lemma Pow2Seeds()
    ensures Pow2(3) == 8 && Pow2(9) == 0x200 && Pow2(10) == 0x400 && Pow2(14) == 0x4000
  {
    Pow2Add(9, 1);
    Pow2Add(9, 5);
  }

  lemma Pow2Values()
    ensures Pow2(9) == 0x200 && Pow2(12) == 0x1000 && Pow2(18) == 0x4_0000 && Pow2(21) == 0x20_0000
    ensures Pow2(30) == 0x4000_0000 && Pow2(44) == 0x1000_0000_0000 && Pow2(54) == 0x40_0000_0000_0000
    ensures Pow2(32) == 0x1_0000_0000
    ensures Pow2(56) == 0x100_0000_0000_0000 && Pow2(64) == 0x1_0000_0000_0000_0000
  {
    hide Pow2;
    Pow2Seeds();
    Pow2Add(9, 3);
    Pow2Add(9, 9);
    Pow2Add(12, 9);
    Pow2Add(12, 18);
    Pow2Add(14, 18);
    Pow2Add(14, 30);
    Pow2Add(10, 44);
    Pow2Add(12, 44);
    Pow2Add(32, 32);
  }

  lemma SmallPowers()
    ensures Pow2(0) == 1 && Pow2(1) == 2 && Pow2(2) == 4 && Pow2(3) == 8 && Pow2(4) == 16 && Pow2(5) == 32
    ensures Pow2(6) == 64 && Pow2(7) == 128 && Pow2(8) == 256 && Pow2(9) == 512 && Pow2(10) == 1024
    ensures Pow2(11) == 2048 && Pow2(12) == 4096 && Pow2(13) == 8192 && Pow2(17) == 0x2_0000
  {
    Pow2Values();
    Pow2Add(9, 4);
    Pow2Add(9, 8);
  }

  lemma MulRegroup(q: nat, a: nat, b: nat, s: nat)
    ensures (q * b + s) * a == q * (a * b) + s * a
  {
    assert q * (a * b) == q * b * a;
  }

  lemma ModMod(x: nat, a: nat, b: nat)
    requires a > 0 && b > 0
    ensures x % (a * b) % a == x % a
  {
    var q, r := x / (a * b), x % (a * b);
    MulRegroup(q, a, b, r / a);
    DivUnique(x, a, q * b + r / a, r % a);
  }

  // x >> k, one place at a time.
  lemma {:induction false} ShiftStep(x: nat, k: nat)
    requires k > 0
    ensures x / Pow2(k) == (x / 2) / Pow2(k - 1)
  {
    var p := Pow2(k - 1);
    var q := (x / 2) / p;
    var r := (x / 2) % p;
    assert x / 2 == q * p + r;
    assert x == q * (2 * p) + (2 * r + x % 2);
    assert 2 * r + x % 2 < 2 * p;
    DivUnique(x, 2 * p, q, 2 * r + x % 2);
  }

  lemma {:induction false} DivUnique(x: nat, d: nat, q: nat, r: nat)
    requires d > 0 && x == q * d + r && r < d
    ensures x / d == q && x % d == r
  {
    assert x == (x / d) * d + x % d;
    MulGap(x / d, q, d);
    MulGap(q, x / d, d);
  }

  lemma {:induction false} MulGap(a: nat, b: nat, d: nat)
    ensures a < b ==> a * d + d <= b * d
    decreases b
  {
    if a + 1 < b {
      MulGap(a, b - 1, d);
    }
    assert b * d == (b - 1) * d + d;
  }

  lemma {:induction false} ShrIsDivision(x: nat, s: nat)
    ensures Shr(x, s) == x / Pow2(s)
  {
    if s > 0 {
      ShiftStep(x, s);
      ShrIsDivision(x / 2, s - 1);
    }
  }

  lemma {:induction false} BitOfShift(x: nat, s: nat, k: nat)
    ensures Bit(Shr(x, s), k) == Bit(x, s + k)
    decreases s
  {
    if s > 0 {
      BitOfShift(x / 2, s - 1, k);
    }
  }

  // Setting bit k does not move the part of the word above k.
  // Bit k is the k-th binary digit.
  lemma {:induction false} BitIs(x: nat, k: nat)
    ensures Bit(x, k) <==> x / Pow2(k) % 2 == 1
  {
    if k > 0 {
      ShiftStep(x, k);
      BitIs(x / 2, k - 1);
    }
  }

  lemma {:induction false} SetBitAdds(x: nat, k: nat)
    ensures SetBit(x, k) == if x / Pow2(k) % 2 == 1 then x else x + Pow2(k)
  {
    if k > 0 {
      ShiftStep(x, k);
      SetBitAdds(x / 2, k - 1);
    }
  }

  lemma {:induction false} SetBitHighPart(x: nat, k: nat, s: nat)
    requires k < s
    ensures SetBit(x, k) / Pow2(s) == x / Pow2(s)
  {
    ShiftStep(x, s);
    ShiftStep(SetBit(x, k), s);
    if k == 0 {
      assert SetBit(x, k) / 2 == x / 2;
    } else {
      assert SetBit(x, k) / 2 == SetBit(x / 2, k - 1);
      SetBitHighPart(x / 2, k - 1, s - 1);
    }
  }

  // x % 2^k, one place at a time.
  lemma {:induction false} ModStep(x: nat, k: nat)
    requires k > 0
    ensures x % Pow2(k) == x % 2 + 2 * ((x / 2) % Pow2(k - 1))
  {
    var p := Pow2(k - 1);
    var q := (x / 2) / p;
    var r := (x / 2) % p;
    assert x == q * (2 * p) + (2 * r + x % 2);
    DivUnique(x, 2 * p, q, 2 * r + x % 2);
  }

  // x & (2^k - 1) is the remainder modulo 2^k.
  lemma {:induction false} AndLowMask(x: nat, k: nat)
    ensures And(x, Pow2(k) - 1) == x % Pow2(k)
  {
    if k > 0 {
      hide And;
      ModStep(x, k);
      Digit(Pow2(k) - 1, Pow2(k - 1) - 1, 1);
      AndStep(x, Pow2(k) - 1);
      AndLowMask(x / 2, k - 1);
    }
  }

  // For an n-bit x, x & ~(2^k - 1) drops the remainder modulo 2^k.
  lemma {:induction false} AndHighMask(x: nat, k: nat, n: nat)
    requires k <= n && x < Pow2(n)
    ensures Pow2(k) <= Pow2(n)
    ensures And(x, Pow2(n) - Pow2(k)) == x - x % Pow2(k)
    decreases n
  {
    if k > 0 {
      ModStep(x, k);
      hide And;
      AndHighMask(x / 2, k - 1, n - 1);
      Digit(Pow2(n) - Pow2(k), Pow2(n - 1) - Pow2(k - 1), 0);
      AndStep(x, Pow2(n) - Pow2(k));
    } else {
      AndLowMask(x, n);
      ModSmall(x, Pow2(n));
    }
  }

  lemma ModSmall(x: nat, d: nat)
    requires x < d
    ensures x % d == x && x / d == 0
  {
    DivUnique(x, d, 0, x);
  }

  // Or of a multiple of 2^k and a number below 2^k is their sum.
  lemma {:induction false} OrDisjoint(x: nat, y: nat, k: nat)
    requires x % Pow2(k) == 0 && y < Pow2(k)
    ensures Or(x, y) == x + y
  {
    if k > 0 && x > 0 && y > 0 {
      ModStep(x, k);
      OrDisjoint(x / 2, y / 2, k - 1);
    }
  }

  // ----- Bits of sums and products of powers ---------------------------------------------------

  lemma {:induction false} OrBound(x: nat, y: nat, n: nat)
    requires x < Pow2(n) && y < Pow2(n)
    ensures Or(x, y) < Pow2(n)
  {
    if n > 0 && x > 0 && y > 0 {
      OrBound(x / 2, y / 2, n - 1);
    }
  }

  // Exclusive or, as the difference of or and and
  lemma {:induction false} BitOfXor(x: nat, y: nat, k: nat)
    ensures And(x, y) <= Or(x, y)
    ensures Bit(Or(x, y) - And(x, y), k) <==> Bit(x, k) != Bit(y, k)
    decreases x
  {
    if x == 0 || y == 0 {
      BitOfZero(k);
    } else {
      BitOfXor(x / 2, y / 2, if k > 0 then k - 1 else 0);
      Digit(Or(x, y) - And(x, y), Or(x / 2, y / 2) - And(x / 2, y / 2), if x % 2 != y % 2 then 1 else 0);
    }
  }

  lemma {:induction false} BitOfMod(x: nat, n: nat, k: nat)
    ensures Bit(x % Pow2(n), k) <==> k < n && Bit(x, k)
  {
    if n == 0 {
      BitOfZero(k);
    } else {
      ModStep(x, n);
      Digit(x % Pow2(n), x / 2 % Pow2(n - 1), x % 2);
      if k > 0 { BitOfMod(x / 2, n - 1, k - 1); }
    }
  }

  lemma {:induction false} BitOfProduct(x: nat, n: nat, k: nat)
    ensures Bit(x * Pow2(n), k) <==> k >= n && Bit(x, k - n)
  {
    if n > 0 {
      var y := x * Pow2(n - 1);
      assert x * Pow2(n) == 2 * y;
      Digit(2 * y, y, 0);
      if k > 0 { BitOfProduct(x, n - 1, k - 1); }
    } else {
      assert x * Pow2(0) == x;
    }
  }

  // q with the ones of bits j to w - 1 put above it
  lemma {:induction false} BitOfOnes(q: nat, j: nat, w: nat, k: nat)
    requires j <= w && q < Pow2(j)
    ensures Pow2(j) <= Pow2(w)
    ensures Bit(q + Pow2(w) - Pow2(j), k) <==> j <= k < w || Bit(q, k)
    decreases w
  {
    if w > 0 {
      var k' := if k > 0 then k - 1 else 0;
      if j > 0 {
        BitOfOnes(q / 2, j - 1, w - 1, k');
        Digit(q + Pow2(w) - Pow2(j), q / 2 + Pow2(w - 1) - Pow2(j - 1), q % 2);
      } else {
        BitOfOnes(0, 0, w - 1, k');
        Digit(Pow2(w) - 1, Pow2(w - 1) - 1, 1);
      }
    }
    BitOfZero(k);
  }
}
