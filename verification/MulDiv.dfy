/**
 The M extension: products and quotients of 64-bit words as the C++ expressions
 compute them, and what they mean as integers.
 */
module MulDiv {
  import opened Bits

  const W64: nat := 0x1_0000_0000_0000_0000
  const W32: nat := 0x1_0000_0000

  // static_cast<int64_t>, static_cast<int32_t> and back
  function Signed(x: U64): int { if x < 0x8000_0000_0000_0000 then x else x - W64 }
  function Signed32(x: U32): int { if x < 0x8000_0000 then x else x - W32 }
  function Word(v: int): U64 { v % W64 }
  function Low(x: U64): U32 { x % W32 }

  // sext(v, 32) as a register value
  function Sext32(x: U32): U64 { Word(Signed32(x)) }

  // C++ division rounds toward zero.
  function TruncDiv(a: int, b: int): int
    requires b != 0
  {
    if a >= 0 then if b > 0 then a / b else -(a / -b)
    else if b > 0 then -(-a / b) else -a / -b
  }

  function TruncRem(a: int, b: int): int
    requires b != 0
  {
    a - b * TruncDiv(a, b)
  }

  const MIN64: int := -0x8000_0000_0000_0000
  const MIN32: int := -0x8000_0000

  // ----- The instructions ----------------------------------------------------------------

  function Mul(x: U64, y: U64): U64 { x * y % W64 }

  // >> on __int128_t rounds down.
  function Mulh(x: U64, y: U64): U64 { Word(Signed(x) * Signed(y) / W64) }

  // The product of __int128_t and __uint128_t is a __uint128_t.
  function Mulhsu(x: U64, y: U64): U64 { Signed(x) * y % (W64 * W64) / W64 % W64 }

  function Mulhu(x: U64, y: U64): U64 { x * y / W64 % W64 }

  function Mulw(x: U64, y: U64): U64 { Sext32(Low(Mul(x, y))) }

  function Div(x: U64, y: U64): U64 {
    if y == 0 then W64 - 1
    else if Signed(x) == MIN64 && Signed(y) == -1 then x
    else Word(TruncDiv(Signed(x), Signed(y)))
  }

  function Rem(x: U64, y: U64): U64 {
    if y == 0 then x
    else if Signed(x) == MIN64 && Signed(y) == -1 then 0
    else Word(TruncRem(Signed(x), Signed(y)))
  }

  function Divu(x: U64, y: U64): U64 { if y == 0 then W64 - 1 else x / y }

  function Remu(x: U64, y: U64): U64 { if y == 0 then x else x % y }

  function Divw(x: U64, y: U64): U64 {
    if Low(y) == 0 then W64 - 1
    else if Signed32(Low(x)) == MIN32 && Signed32(Low(y)) == -1 then Sext32(Low(x))
    else Word(TruncDiv(Signed32(Low(x)), Signed32(Low(y))))
  }

  function Remw(x: U64, y: U64): U64 {
    if Low(y) == 0 then Sext32(Low(x))
    else if Signed32(Low(x)) == MIN32 && Signed32(Low(y)) == -1 then 0
    else Word(TruncRem(Signed32(Low(x)), Signed32(Low(y))))
  }

  function Divuw(x: U64, y: U64): U64 { if Low(y) == 0 then W64 - 1 else Sext32(Low(x) / Low(y)) }

  function Remuw(x: U64, y: U64): U64 { if Low(y) == 0 then Sext32(Low(x)) else Sext32(Low(x) % Low(y)) }

  // ----- Arithmetic ------------------------------------------------------------------------

  lemma ModUnique(v: int, q: int, r: nat, d: nat)
    requires d > 0 && v == q * d + r && r < d
    ensures v % d == r && v / d == q
  {
    var q', r' := v / d, v % d;
    assert v == q' * d + r';
    NoMultipleBetween(q - q', d, r' - r) by {
      assert (q - q') * d == q * d - q' * d;
    }
  }

  lemma NoMultipleBetween(k: int, d: int, r: int)
    requires d > 0 && k * d == r && -d < r < d
    ensures k == 0
  {
    if k >= 1 {
      MulMono(1, k, d);
      assert false;
    } else if k <= -1 {
      MulMono(1, -k, d);
      assert false;
    }
  }

  lemma MulMono(a: int, b: int, c: int)
    requires a <= b && 0 <= c
    ensures a * c <= b * c
  {
    assert b * c == a * c + (b - a) * c;
  }

  // Congruence modulo d.
  lemma SameMod(v: int, w: int, k: int, d: nat)
    requires d > 0 && v == w + k * d
    ensures v % d == w % d
  {
    ModUnique(v, w / d + k, w % d, d);
  }

  lemma SignedIs(x: U64)
    ensures exists k: int :: Signed(x) == x + k * W64 && (k == 0 || k == -1)
    ensures -0x8000_0000_0000_0000 <= Signed(x) < 0x8000_0000_0000_0000
    ensures Word(Signed(x)) == x
  {
    if x < 0x8000_0000_0000_0000 {
      assert Signed(x) == x + 0 * W64;
    } else {
      assert Signed(x) == x + (-1) * W64;
    }
  }

  lemma SignedOfWord(v: int)
    requires -0x8000_0000_0000_0000 <= v < 0x8000_0000_0000_0000
    ensures Signed(Word(v)) == v
  {
  }

  lemma MulModLeft(a: int, b: int, k: int, y: int, d: nat)
    requires d > 0 && a == b + k * d
    ensures a * y % d == b * y % d
  {
    assert a * y == b * y + (k * y) * d;
    SameMod(a * y, b * y, k * y, d);
  }

  // The low word of a product does not depend on the signs.
  lemma LowProduct(x: U64, y: U64)
    ensures Signed(x) * Signed(y) % W64 == Mul(x, y)
    ensures Signed(x) * y % W64 == Mul(x, y)
  {
    SignedIs(x);
    SignedIs(y);
    var k: int :| Signed(x) == x + k * W64 && (k == 0 || k == -1);
    var j: int :| Signed(y) == y + j * W64 && (j == 0 || j == -1);
    MulModLeft(Signed(x), x, k, y, W64);
    MulModLeft(Signed(y), y, j, Signed(x), W64);
    assert Signed(x) * Signed(y) == Signed(y) * Signed(x) && Signed(x) * y == y * Signed(x);
  }

  // ----- Products ----------------------------------------------------------------------------

  // A 128-bit value from its halves.
  lemma FromHalves(p: int)
    requires -(W64 * W64 / 2) <= p < W64 * W64 / 2
    ensures Signed(Word(p / W64)) == p / W64 && p == p / W64 * W64 + p % W64
  {
    SignedOfWord(p / W64);
  }

  lemma ProductBound(a: int, b: int, m: int, n: int)
    requires -m <= a <= m && -n <= b <= n
    ensures -(m * n) <= a * b <= m * n
  {
    var x, y := if a < 0 then -a else a, if b < 0 then -b else b;
    assert x * y <= m * y by { MulMono(x, m, y); }
    assert y * m <= n * m by { MulMono(y, n, m); }
    assert a * b == x * y || a * b == -(x * y);
  }

  // mulh and mul hold the signed product, for all operands.
  lemma MulhMulIsProduct(x: U64, y: U64)
    ensures Signed(Mulh(x, y)) * W64 + Mul(x, y) == Signed(x) * Signed(y)
  {
    SignedIs(x);
    SignedIs(y);
    var p := Signed(x) * Signed(y);
    ProductBound(Signed(x), Signed(y), 0x8000_0000_0000_0000, 0x8000_0000_0000_0000);
    FromHalves(p);
    LowProduct(x, y);
    assert p % W64 == Mul(x, y);
  }

  // mulhu and mul hold the unsigned product.
  lemma MulhuMulIsProduct(x: U64, y: U64)
    ensures Mulhu(x, y) * W64 + Mul(x, y) == x * y
  {
    WordProduct(x, y);
    HighBound(x * y);
    assert Mulhu(x, y) == x * y / W64 % W64 && Mul(x, y) == x * y % W64;
    hide Mulhu, Mul;
  }

  lemma WordProduct(x: U64, y: U64)
    ensures 0 <= x * y <= (W64 - 1) * (W64 - 1)
  {
    MulMono(0, x, y);
    MulMono(x, W64 - 1, y);
    MulMono(y, W64 - 1, W64 - 1);
  }

  lemma HighBound(p: nat)
    requires p <= (W64 - 1) * (W64 - 1)
    ensures p / W64 % W64 * W64 + p % W64 == p
  {
    assert p / W64 < W64;
  }

  // mulhsu and mul hold the product of a signed and an unsigned operand, though
  // the code multiplies and shifts as unsigned 128-bit words.
  lemma MulhsuMulIsProduct(x: U64, y: U64)
    ensures Signed(Mulhsu(x, y)) * W64 + Mul(x, y) == Signed(x) * y
  {
    SignedIs(x);
    var p := Signed(x) * y;
    ProductBound(Signed(x), y, 0x8000_0000_0000_0000, W64 - 1);
    LowProduct(x, y);
    assert Mulhsu(x, y) == p % (W64 * W64) / W64 % W64;
    hide Mulhsu, Mul, Signed, Word;
    FromHalves(p);
    HighOfWide(p);
  }

  // Dropping to 128 bits unsigned does not change the upper word.
  lemma HighOfWide(p: int)
    requires -(W64 * W64 / 2) <= p < W64 * W64 / 2
    ensures p % (W64 * W64) / W64 % W64 == Word(p / W64)
  {
    var h, l := p / W64, p % W64;
    var wide: nat := if p < 0 then p + W64 * W64 else p;
    SameMod(p, wide, if p < 0 then -1 else 0, W64 * W64);
    assert p % (W64 * W64) == wide;
    ModUnique(wide, if p < 0 then h + W64 else h, l, W64);
    SameMod(wide / W64, h, if p < 0 then 1 else 0, W64);
  }

  // mulw is the low half of the product of the low halves.
  lemma MulwIsLowProduct(x: U64, y: U64)
    ensures Low(Mulw(x, y)) == Low(x) * Low(y) % W32
    ensures Mulw(x, y) == Sext32(Low(Mulw(x, y)))
  {
    LowOfSext(Low(Mul(x, y)));
    var p := x * y;
    assert p % W64 % W32 == p % W32 by {
      assert p == p / W64 * W64 + p % W64;
      assert W64 == W32 * W32;
      assert p % W64 == p + -(p / W64 * W32) * W32;
      SameMod(p % W64, p, -(p / W64 * W32), W32);
    }
    assert x == Low(x) + x / W32 * W32 && y == Low(y) + y / W32 * W32;
    MulModLeft(x, Low(x), x / W32, y, W32);
    MulModLeft(y, Low(y), y / W32, Low(x), W32);
    assert Low(x) * y == y * Low(x) && Low(y) * Low(x) == Low(x) * Low(y);
  }

  lemma LowOfSext(v: U32)
    ensures Low(Sext32(v)) == v
  {
  }

  // ----- Quotients -----------------------------------------------------------------------------

  function Abs(v: int): (r: int)
    ensures r >= 0 && (v != 0 ==> r > 0)
  {
    if v < 0 then -v else v
  }

  lemma TruncShape(a: int, b: int)
    requires b != 0
    ensures TruncDiv(a, b) == if (a >= 0) == (b > 0) then Abs(a) / Abs(b) else -(Abs(a) / Abs(b))
  {
  }

  lemma TimesSign(b: int, q: int, s: int)
    requires s == q || s == -q
    ensures b * s == if (b > 0) == (s == q) then Abs(b) * q else -(Abs(b) * q)
  {
    if b > 0 {
      if s != q { assert b * s == -(b * q); }
    } else {
      if s == q { assert b * s == -(-b * q); } else { assert b * s == -b * q; }
    }
  }

  lemma AbsDivision(m: nat, n: nat)
    requires n > 0
    ensures m == n * (m / n) + m % n && n * (m / n) >= 0 && m % n < n && m / n <= m && (n > 1 && m > 0 ==> m / n < m)
  {
    var q := m / n;
    assert m == n * q + m % n;
    if n > 1 { MulMono(2, n, q); } else { assert n * q == q; }
  }

  lemma TruncTimes(a: int, b: int)
    requires b != 0
    ensures b * TruncDiv(a, b) == if a >= 0 then Abs(b) * (Abs(a) / Abs(b)) else -(Abs(b) * (Abs(a) / Abs(b)))
  {
    hide TruncDiv;
    TruncShape(a, b);
    var q := Abs(a) / Abs(b);
    TimesSign(b, q, if (a >= 0) == (b > 0) then q else -q);
  }

  // The remainder is smaller than the divisor and has the sign of the dividend.
  lemma TruncRemIs(a: int, b: int)
    requires b != 0
    ensures a == b * TruncDiv(a, b) + TruncRem(a, b)
    ensures a >= 0 ==> 0 <= TruncRem(a, b) < Abs(b)
    ensures a <= 0 ==> -Abs(b) < TruncRem(a, b) <= 0
  {
    hide TruncDiv, Abs;
    TruncTimes(a, b);
    AbsDivision(Abs(a), Abs(b));
    RemainderOf(a, b * TruncDiv(a, b), Abs(b), Abs(b) * (Abs(a) / Abs(b)), Abs(a) % Abs(b));
  }

  lemma RemainderOf(a: int, p: int, n: int, whole: int, r: int)
    requires Abs(a) == whole + r && 0 <= r < n && whole >= 0 && p == if a >= 0 then whole else -whole
    ensures a >= 0 ==> a - p == r
    ensures a <= 0 ==> a - p == -r
  {
  }

  lemma TruncDivBound(a: int, b: int, m: int)
    requires b != 0 && -m <= a < m && !(a == -m && b == -1)
    ensures -m <= TruncDiv(a, b) < m
  {
    hide TruncDiv, Abs;
    TruncShape(a, b);
    AbsDivision(Abs(a), Abs(b));
    QuotientBound(a, b, m, Abs(a) / Abs(b));
  }

  lemma QuotientBound(a: int, b: int, m: int, q: int)
    requires b != 0 && -m <= a < m && !(a == -m && b == -1)
    requires 0 <= q <= Abs(a) && (Abs(b) > 1 && Abs(a) > 0 ==> q < Abs(a))
    ensures -m <= (if (a >= 0) == (b > 0) then q else -q) < m
  {
  }

  predicate Overflows(x: U64, y: U64) { Signed(x) == MIN64 && Signed(y) == -1 }

  // div and rem: for every operand pair the dividend is divisor times quotient
  // plus remainder modulo 2^64; for a nonzero divisor it is so exactly, the
  // remainder smaller than the divisor and of the dividend's sign, except for
  // the one overflowing quotient.
  lemma DivRem(x: U64, y: U64)
    ensures (y * Div(x, y) + Rem(x, y)) % W64 == x
    ensures y != 0 && !Overflows(x, y) ==> Signed(x) == Signed(y) * Signed(Div(x, y)) + Signed(Rem(x, y))
    ensures y != 0 && Signed(x) >= 0 ==> 0 <= Signed(Rem(x, y)) < Abs(Signed(y))
    ensures y != 0 && Signed(x) <= 0 ==> -Abs(Signed(y)) < Signed(Rem(x, y)) <= 0
    ensures Overflows(x, y) ==> Div(x, y) == x && Rem(x, y) == 0
    ensures y == 0 ==> Signed(Div(x, y)) == -1 && Rem(x, y) == x
  {
    if y == 0 {
    } else if Overflows(x, y) {
      Overflow(x);
      assert y == W64 - 1;
    } else {
      DivRemExact(x, y);
      hide Div, Rem;
      Congruent(x, y, Div(x, y), Rem(x, y));
    }
  }

  lemma DivRemExact(x: U64, y: U64)
    requires y != 0 && !Overflows(x, y)
    ensures Signed(x) == Signed(y) * Signed(Div(x, y)) + Signed(Rem(x, y))
    ensures Signed(x) >= 0 ==> 0 <= Signed(Rem(x, y)) < Abs(Signed(y))
    ensures Signed(x) <= 0 ==> -Abs(Signed(y)) < Signed(Rem(x, y)) <= 0
  {
    SignedIs(x);
    SignedIs(y);
    var a, b := Signed(x), Signed(y);
    assert b != 0 && Div(x, y) == Word(TruncDiv(a, b)) && Rem(x, y) == Word(TruncRem(a, b));
    hide TruncDiv, TruncRem, Div, Rem, Signed, Word;
    TruncRemIs(a, b);
    TruncDivBound(a, b, 0x8000_0000_0000_0000);
    SignedOfWord(TruncDiv(a, b));
    SignedOfWord(TruncRem(a, b));
  }

  lemma Overflow(x: U64)
    requires x == 0x8000_0000_0000_0000
    ensures (W64 - 1) * x % W64 == x
  {
    assert (W64 - 1) * x == 0x7FFF_FFFF_FFFF_FFFF * W64 + x;
    ModUnique((W64 - 1) * x, 0x7FFF_FFFF_FFFF_FFFF, x, W64);
  }

  // A signed identity holds of the words modulo 2^64.
  lemma Congruent(x: U64, y: U64, q: U64, r: U64)
    requires Signed(x) == Signed(y) * Signed(q) + Signed(r)
    ensures (y * q + r) % W64 == x
  {
    SignedIs(x);
    SignedIs(r);
    LowProduct(y, q);
    var p := Signed(y) * Signed(q);
    var k: int :| Signed(r) == r + k * W64 && (k == 0 || k == -1);
    assert p == p / W64 * W64 + p % W64 && y * q == y * q / W64 * W64 + y * q % W64;
    var n := p / W64 - y * q / W64;
    assert p == y * q + n * W64;
    SameMod(Signed(x), y * q + r, n + k, W64);
  }

  // divu and remu
  lemma DivuRemu(x: U64, y: U64)
    ensures (y * Divu(x, y) + Remu(x, y)) % W64 == x
    ensures y != 0 ==> x == y * Divu(x, y) + Remu(x, y) && Remu(x, y) < y
    ensures y == 0 ==> Divu(x, y) == W64 - 1 && Remu(x, y) == x
  {
    if y != 0 { AbsDivision(x, y); }
  }

  // ----- The W forms ------------------------------------------------------------------------------

  predicate IsSext32(r: U64) { r == Sext32(Low(r)) }

  lemma WordOf32(v: int)
    requires MIN32 <= v < 0x8000_0000
    ensures IsSext32(Word(v)) && Signed32(Low(Word(v))) == v && Low(Word(v)) == v % W32
  {
    if v < 0 {
      ModUnique(v, -1, v + W64, W64);
      ModUnique(v + W64, W32 - 1, v + W32, W32);
      ModUnique(v, -1, v + W32, W32);
    } else {
      ModUnique(v, 0, v, W64);
      ModUnique(v, 0, v, W32);
    }
    hide Word, Low;
    WordIs(v);
  }

  lemma WordIs(v: int)
    ensures Word(v) == v % W64 && Low(Word(v)) == v % W64 % W32
  {
  }

  lemma SextIs32(v: U32)
    ensures IsSext32(Sext32(v)) && Low(Sext32(v)) == v
  {
    WordOf32(Signed32(v));
  }

  lemma Signed32Is(x: U32)
    ensures MIN32 <= Signed32(x) < 0x8000_0000
    ensures exists k: int :: Signed32(x) == x + k * W32 && (k == 0 || k == -1)
  {
    if x < 0x8000_0000 { assert Signed32(x) == x + 0 * W32; } else { assert Signed32(x) == x + (-1) * W32; }
  }

  lemma Congruent32(x: U32, y: U32, q: U32, r: U32)
    requires Signed32(x) == Signed32(y) * Signed32(q) + Signed32(r)
    ensures (y * q + r) % W32 == x
  {
    hide Signed32;
    Signed32Is(x);
    Signed32Is(y);
    Signed32Is(q);
    Signed32Is(r);
    var i: int :| Signed32(x) == x + i * W32 && (i == 0 || i == -1);
    var j: int :| Signed32(y) == y + j * W32 && (j == 0 || j == -1);
    var k: int :| Signed32(q) == q + k * W32 && (k == 0 || k == -1);
    var l: int :| Signed32(r) == r + l * W32 && (l == 0 || l == -1);
    Expand32(y, q, j, k);
    var n := j * q + k * y + j * k * W32;
    assert y * q + r == x + (i - n - l) * W32;
    SameMod(y * q + r, x, i - n - l, W32);
  }

  lemma Expand32(y: int, q: int, j: int, k: int)
    ensures (y + j * W32) * (q + k * W32) == y * q + (j * q + k * y + j * k * W32) * W32
  {
  }

  predicate OverflowsW(x: U64, y: U64) { Signed32(Low(x)) == MIN32 && Signed32(Low(y)) == -1 }

  // divw and remw: the same identity on the low words, modulo 2^32, with every
  // result sign-extended.
  lemma DivwRemw(x: U64, y: U64)
    ensures IsSext32(Divw(x, y)) && IsSext32(Remw(x, y))
    ensures (Low(y) * Low(Divw(x, y)) + Low(Remw(x, y))) % W32 == Low(x)
    ensures Low(y) != 0 && !OverflowsW(x, y) ==>
      Signed32(Low(x)) == Signed32(Low(y)) * Signed32(Low(Divw(x, y))) + Signed32(Low(Remw(x, y)))
    ensures Low(y) != 0 && Signed32(Low(x)) >= 0 ==> 0 <= Signed32(Low(Remw(x, y))) < Abs(Signed32(Low(y)))
    ensures Low(y) != 0 && Signed32(Low(x)) <= 0 ==> -Abs(Signed32(Low(y))) < Signed32(Low(Remw(x, y))) <= 0
    ensures Low(y) == 0 ==> Signed(Divw(x, y)) == -1 && Low(Remw(x, y)) == Low(x)
  {
    if Low(y) == 0 || OverflowsW(x, y) {
      DivwSpecial(x, y);
    } else {
      DivwRemwExact(x, y);
      hide Divw, Remw, IsSext32, Low;
      Congruent32(Low(x), Low(y), Low(Divw(x, y)), Low(Remw(x, y)));
    }
  }

  lemma DivwSpecial(x: U64, y: U64)
    requires Low(y) == 0 || OverflowsW(x, y)
    ensures IsSext32(Divw(x, y)) && IsSext32(Remw(x, y))
    ensures (Low(y) * Low(Divw(x, y)) + Low(Remw(x, y))) % W32 == Low(x)
    ensures Low(y) == 0 ==> Signed(Divw(x, y)) == -1 && Low(Remw(x, y)) == Low(x)
    ensures Low(y) != 0 ==> Low(Remw(x, y)) == 0
  {
    SextIs32(Low(x));
    if Low(y) == 0 {
      assert Divw(x, y) == W64 - 1 && Remw(x, y) == Sext32(Low(x));
      AllOnes();
      hide Divw, Remw, Sext32, IsSext32, Low, Signed;
      ZeroTimes(Low(y), Low(Divw(x, y)), Low(x));
    } else {
      assert Divw(x, y) == Sext32(Low(x)) && Remw(x, y) == 0;
      assert Low(y) == W32 - 1 && Low(x) == 0x8000_0000 && IsSext32(0) && Low(0) == 0;
      hide Divw, Remw, Sext32, IsSext32, Low;
      OverflowW(Low(x));
    }
  }

  lemma AllOnes()
    ensures IsSext32(W64 - 1) && Signed(W64 - 1) == -1
  {
  }

  lemma ZeroTimes(z: U32, q: U32, r: U32)
    requires z == 0
    ensures (z * q + r) % W32 == r
  {
    assert z * q == 0;
  }

  lemma OverflowW(x: U32)
    requires x == 0x8000_0000
    ensures (W32 - 1) * x % W32 == x
  {
    assert (W32 - 1) * x == 0x7FFF_FFFF * W32 + x;
    ModUnique((W32 - 1) * x, 0x7FFF_FFFF, x, W32);
  }

  lemma DivwRemwExact(x: U64, y: U64)
    requires Low(y) != 0 && !OverflowsW(x, y)
    ensures IsSext32(Divw(x, y)) && IsSext32(Remw(x, y))
    ensures Signed32(Low(x)) == Signed32(Low(y)) * Signed32(Low(Divw(x, y))) + Signed32(Low(Remw(x, y)))
    ensures Signed32(Low(x)) >= 0 ==> 0 <= Signed32(Low(Remw(x, y))) < Abs(Signed32(Low(y)))
    ensures Signed32(Low(x)) <= 0 ==> -Abs(Signed32(Low(y))) < Signed32(Low(Remw(x, y))) <= 0
  {
    var a, b := Signed32(Low(x)), Signed32(Low(y));
    Signed32Is(Low(x));
    Signed32Is(Low(y));
    assert b != 0 && Divw(x, y) == Word(TruncDiv(a, b)) && Remw(x, y) == Word(TruncRem(a, b));
    hide TruncDiv, TruncRem, Divw, Remw, Signed32, Word, Low, IsSext32;
    TruncRemIs(a, b);
    TruncDivBound(a, b, 0x8000_0000);
    WordOf32(TruncDiv(a, b));
    WordOf32(TruncRem(a, b));
  }

  // divuw and remuw
  lemma DivuwRemuw(x: U64, y: U64)
    ensures IsSext32(Divuw(x, y)) && IsSext32(Remuw(x, y))
    ensures (Low(y) * Low(Divuw(x, y)) + Low(Remuw(x, y))) % W32 == Low(x)
    ensures Low(y) != 0 ==>
      Low(x) == Low(y) * Low(Divuw(x, y)) + Low(Remuw(x, y)) && Low(Remuw(x, y)) < Low(y)
    ensures Low(y) == 0 ==> Divuw(x, y) == W64 - 1 && Low(Remuw(x, y)) == Low(x)
  {
    var a, b := Low(x), Low(y);
    SextIs32(a);
    if b != 0 {
      AbsDivision(a, b);
      assert Divuw(x, y) == Sext32(a / b) && Remuw(x, y) == Sext32(a % b);
      SextIs32(a / b);
      SextIs32(a % b);
      hide Divuw, Remuw, Sext32, IsSext32, Low;
    }
  }
}
