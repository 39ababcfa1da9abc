/**
 The decoder's bit patterns: strings of '0', '1' and '?' with blanks between,
 parsed to a key, a mask and a shift.
 */
module Patterns {
  import opened Bits

  datatype Pattern = Pattern(key: nat, mask: nat, shift: nat)

  // The symbols of a pattern.
  function Strip(s: string): (r: string)
    ensures |r| <= |s|
  {
    if s == [] then [] else Strip(s[..|s| - 1]) + if s[|s| - 1] == ' ' then [] else [s[|s| - 1]]
  }

  // A symbol agrees with a bit of the word.
  predicate Agrees(c: char, bit: bool) { c == '?' || (c == '1') == bit }

  // Position by position, the last symbol against bit 0.
  predicate Matches(p: string, w: nat) {
    forall k: nat :: k < |p| ==> Agrees(p[|p| - 1 - k], Bit(w, k))
  }

  // What the three accumulators hold after the symbols p.
  function Key(p: string): nat {
    if p == [] then 0 else 2 * Key(p[..|p| - 1]) + if p[|p| - 1] == '1' then 1 else 0
  }

  function Mask(p: string): nat {
    if p == [] then 0 else 2 * Mask(p[..|p| - 1]) + if p[|p| - 1] == '?' then 0 else 1
  }

  function Trailing(p: string): (n: nat)
    ensures n <= |p|
  {
    if p == [] || p[|p| - 1] != '?' then 0 else Trailing(p[..|p| - 1]) + 1
  }

  // The test of INSTPAT
  predicate Accepts(d: Pattern, w: nat) { And(Shr(w, d.shift), d.mask) == d.key }

  function Parsed(p: string): Pattern {
    Pattern(Shr(Key(p), Trailing(p)), Shr(Mask(p), Trailing(p)), Trailing(p))
  }

  lemma {:induction false} AccumulatorBound(p: string)
    ensures Key(p) < Pow2(|p|) && Mask(p) < Pow2(|p|)
  {
    if p != [] { AccumulatorBound(p[..|p| - 1]); }
  }

  lemma {:induction false} Pow2Mono(m: nat, n: nat)
    requires m <= n
    ensures Pow2(m) <= Pow2(n)
  {
    if m < n { Pow2Mono(m, n - 1); }
  }

  // parse_pattern, on 64-bit words; the shift must stay below the word width.
  method ParsePattern(pattern: string) returns (d: Pattern)
    requires |Strip(pattern)| <= 64 && Trailing(Strip(pattern)) < 64
    ensures d == Parsed(Strip(pattern))
    ensures forall w: nat :: Accepts(d, w) <==> Matches(Strip(pattern), w)
  {
    hide Strip, Key, Mask, Trailing, Shr, And, Matches, Pow2;
    var key, mask: nat, shift: nat := 0, 0, 0;
    NoSymbols(pattern);
    for i := 0 to |pattern|
      invariant |Strip(pattern[..i])| <= |Strip(pattern)|
      invariant key == Key(Strip(pattern[..i])) && mask == Mask(Strip(pattern[..i]))
      invariant shift == Trailing(Strip(pattern[..i]))
    {
      AddSymbol(pattern, i);
      StripPrefix(pattern, i + 1);
      var c := pattern[i];
      if c != ' ' {
        key := (2 * key + if c == '1' then 1 else 0) % 0x1_0000_0000_0000_0000;
        mask := (2 * mask + if c == '?' then 0 else 1) % 0x1_0000_0000_0000_0000;
        shift := if c == '?' then shift + 1 else 0;
      }
    }
    assert pattern[..|pattern|] == pattern;
    d := Pattern(Shr(key, shift), Shr(mask, shift), shift);
    forall w: nat ensures Accepts(d, w) <==> Matches(Strip(pattern), w) {
      ParsedIsMatch(Strip(pattern), w);
    }
  }

  lemma NoSymbols(s: string)
    ensures Strip(s[..0]) == [] && Key([]) == 0 && Mask([]) == 0 && Trailing([]) == 0
  {
  }

  // One turn of the loop.
  lemma AddSymbol(s: string, i: nat)
    requires i < |s|
    ensures s[i] == ' ' ==> Strip(s[..i + 1]) == Strip(s[..i])
    ensures s[i] != ' ' ==> |Strip(s[..i + 1])| == |Strip(s[..i])| + 1
    ensures var p := Strip(s[..i]);
      s[i] != ' ' && |p| < 64 ==>
        && Key(Strip(s[..i + 1])) == (2 * Key(p) + if s[i] == '1' then 1 else 0) % 0x1_0000_0000_0000_0000
        && Mask(Strip(s[..i + 1])) == (2 * Mask(p) + if s[i] == '?' then 0 else 1) % 0x1_0000_0000_0000_0000
        && Trailing(Strip(s[..i + 1])) == if s[i] == '?' then Trailing(p) + 1 else 0
  {
    assert s[..i + 1][..i] == s[..i];
    var p := Strip(s[..i]);
    if s[i] != ' ' {
      assert Strip(s[..i + 1]) == p + [s[i]];
      assert (p + [s[i]])[..|p|] == p;
      if |p| < 64 { NoOverflow(p, s[i]); }
    }
  }

  lemma NoOverflow(p: string, c: char)
    requires |p| < 64
    ensures 2 * Key(p) + 1 < 0x1_0000_0000_0000_0000 && 2 * Mask(p) + 1 < 0x1_0000_0000_0000_0000
  {
    AccumulatorBound(p);
    Pow2Mono(|p|, 63);
    assert 2 * Pow2(63) == Pow2(64);
    Pow2Values();
  }

  lemma {:induction false} StripPrefix(s: string, n: nat)
    requires n <= |s|
    ensures |Strip(s[..n])| <= |Strip(s)|
    decreases |s| - n
  {
    if n == |s| {
      assert s[..n] == s;
    } else {
      StripPrefix(s, n + 1);
      assert s[..n + 1][..n] == s[..n];
    }
  }

  // Splitting off the last symbol.
  lemma MatchesStep(p: string, w: nat)
    requires p != []
    ensures Matches(p, w) <==> Agrees(p[|p| - 1], w % 2 == 1) && Matches(p[..|p| - 1], w / 2)
  {
    var q := p[..|p| - 1];
    if Matches(p, w) {
      assert Agrees(p[|p| - 1 - 0], Bit(w, 0));
      forall k: nat | k < |q| ensures Agrees(q[|q| - 1 - k], Bit(w / 2, k)) {
        assert Agrees(p[|p| - 1 - (k + 1)], Bit(w, k + 1));
      }
    }
    if Agrees(p[|p| - 1], w % 2 == 1) && Matches(q, w / 2) {
      forall k: nat | k < |p| ensures Agrees(p[|p| - 1 - k], Bit(w, k)) {
        if k > 0 { assert Agrees(q[|q| - 1 - (k - 1)], Bit(w / 2, k - 1)); }
      }
    }
  }

  // The unshifted test.
  lemma {:induction false} MaskedIsMatch(p: string, w: nat)
    ensures And(w, Mask(p)) == Key(p) <==> Matches(p, w)
    decreases |p|
  {
    hide Matches, And;
    if p == [] {
      EmptyMatch(w);
    } else {
      MatchesStep(p, w);
      MaskedIsMatch(p[..|p| - 1], w / 2);
      AndStep(w, Mask(p));
      var a := And(w, Mask(p));
      assert a == 2 * (a / 2) + a % 2;
    }
  }

  lemma EmptyMatch(w: nat)
    ensures Matches([], w) && And(w, 0) == 0
  {
  }

  // The key, mask and shift test accepts a word exactly when every '0' and '1'
  // of the pattern agrees with the word's bit at its position.
  lemma {:induction false} ParsedIsMatch(p: string, w: nat)
    ensures Accepts(Parsed(p), w) <==> Matches(p, w)
    decreases |p|
  {
    hide Matches, And, Key, Mask;
    if p == [] || p[|p| - 1] != '?' {
      MaskedIsMatch(p, w);
    } else {
      var q := p[..|p| - 1];
      MatchesStep(p, w);
      ParsedIsMatch(q, w / 2);
      AccumulatorStep(p);
    }
  }

  lemma AccumulatorStep(p: string)
    requires p != [] && p[|p| - 1] == '?'
    ensures Key(p) / 2 == Key(p[..|p| - 1]) && Mask(p) / 2 == Mask(p[..|p| - 1])
  {
  }

  // ----- Patterns by their groups ---------------------------------------------------------

  // A pattern from its low end: n fixed symbols holding v, or n free ones.
  datatype Row = Top | Fixed(v: nat, n: nat, above: Row) | Free(n: nat, above: Row)

  predicate WellFormed(r: Row) {
    match r
    case Top => true
    case Fixed(v, n, above) => v < Pow2(n) && WellFormed(above)
    case Free(_, above) => WellFormed(above)
  }

  function Digits(v: nat, n: nat): (s: string)
    ensures |s| == n
  {
    if n == 0 then [] else Digits(v / 2, n - 1) + [if v % 2 == 1 then '1' else '0']
  }

  function Blanks(n: nat): (s: string)
    ensures |s| == n
  {
    if n == 0 then [] else Blanks(n - 1) + ['?']
  }

  // The symbols of the pattern.
  function Text(r: Row): string {
    match r
    case Top => []
    case Fixed(v, n, above) => Text(above) + Digits(v, n)
    case Free(n, above) => Text(above) + Blanks(n)
  }

  // The n low bits of a word
  function Low(w: nat, n: nat): (l: nat)
    ensures l == w % Pow2(n)
  {
    LowStep(w, if n == 0 then 1 else Pow2(n - 1));
    if n == 0 then 0 else w % 2 + 2 * Low(w / 2, n - 1)
  }

  // The word without its n low bits
  function High(w: nat, n: nat): (h: nat)
    ensures h == w / Pow2(n)
  {
    ShrIsDivision(w, n);
    Shr(w, n)
  }

  // The fields of the word hold the fixed values.
  predicate Test(r: Row, w: nat) {
    match r
    case Top => true
    case Fixed(v, n, above) => Low(w, n) == v && Test(above, High(w, n))
    case Free(n, above) => Test(above, High(w, n))
  }

  lemma {:induction false} MatchesBlanks(p: string, n: nat, w: nat)
    ensures Matches(p + Blanks(n), w) <==> Matches(p, Shr(w, n))
    decreases n
  {
    hide Matches;
    if n == 0 {
      assert p + Blanks(0) == p;
    } else {
      var s := p + Blanks(n);
      assert s[..|s| - 1] == p + Blanks(n - 1);
      MatchesStep(s, w);
      MatchesBlanks(p, n - 1, w / 2);
    }
  }

  lemma {:induction false} MatchesDigits(p: string, v: nat, n: nat, w: nat)
    requires v < Pow2(n)
    ensures Matches(p + Digits(v, n), w) <==> Low(w, n) == v && Matches(p, Shr(w, n))
    decreases n
  {
    hide Matches;
    if n == 0 {
      assert p + Digits(v, 0) == p;
    } else {
      var s := p + Digits(v, n);
      assert s[..|s| - 1] == p + Digits(v / 2, n - 1);
      MatchesStep(s, w);
      MatchesDigits(p, v / 2, n - 1, w / 2);
    }
  }

  lemma LowStep(w: nat, d: nat)
    requires d > 0
    ensures w % (2 * d) == w % 2 + 2 * (w / 2 % d)
  {
    var q, r := w / 2 / d, w / 2 % d;
    assert w / 2 == q * d + r;
    assert w == q * (2 * d) + (2 * r + w % 2);
    DivUnique(w, 2 * d, q, 2 * r + w % 2);
  }

  // INSTPAT on a pattern tests exactly the fields its fixed groups name.
  lemma {:induction false} RowIsTest(r: Row, w: nat)
    requires WellFormed(r)
    ensures Accepts(Parsed(Text(r)), w) <==> Test(r, w)
  {
    hide Accepts, Parsed, Matches;
    TextIsTest(r, w);
    ParsedIsMatch(Text(r), w);
  }

  lemma {:induction false} TextIsTest(r: Row, w: nat)
    requires WellFormed(r)
    ensures Matches(Text(r), w) <==> Test(r, w)
    decreases r
  {
    hide Pow2, Digits, Blanks;
    match r {
      case Top => EmptyMatch(w);
      case Fixed(v, n, above) =>
        hide Matches;
        MatchesDigits(Text(above), v, n, w);
        TextIsTest(above, High(w, n));
      case Free(n, above) =>
        hide Matches;
        MatchesBlanks(Text(above), n, w);
        TextIsTest(above, High(w, n));
    }
  }
}
