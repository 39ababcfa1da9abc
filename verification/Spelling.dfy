/**
 Patterns as the decoder tables write them: what the test on a written pattern
 says about the fields of the word.
 */
module Spelling {
  import opened Bits
  import opened Patterns

  // A run of symbols that is all binary digits or all free
  datatype Group = Val(v: nat) | Any

  predicate Fits(g: Group, field: nat) { g.Val? ==> field == g.v }

  predicate Digit01(c: char) { c == '0' || c == '1' }
  function One(c: char): nat { if c == '1' then 1 else 0 }

  predicate Run1(a: char) { a == '?' || Digit01(a) }
  predicate Run2(a: char, b: char) { (a == b == '?') || (Digit01(a) && Digit01(b)) }
  predicate Run3(a: char, b: char, c: char) { (a == b == c == '?') || (Digit01(a) && Digit01(b) && Digit01(c)) }
  predicate Run5(a: char, b: char, c: char, d: char, e: char) {
    (a == b == c == d == e == '?') || (Digit01(a) && Digit01(b) && Digit01(c) && Digit01(d) && Digit01(e))
  }

  function Read1(a: char): Group { if a == '?' then Any else Val(One(a)) }
  function Read2(a: char, b: char): Group { if a == '?' then Any else Val(2 * One(a) + One(b)) }
  function Read3(a: char, b: char, c: char): Group {
    if a == '?' then Any else Val(4 * One(a) + 2 * One(b) + One(c))
  }
  function Read5(a: char, b: char, c: char, d: char, e: char): Group {
    if a == '?' then Any else Val(16 * One(a) + 8 * One(b) + 4 * One(c) + 2 * One(d) + One(e))
  }

  // The row with a group below the row above
  function Over(g: Group, n: nat, above: Row): Row {
    match g
    case Val(v) => Fixed(v, n, above)
    case Any => Free(n, above)
  }

  // t spells the row; so does t + s when s spells the group put below it.
  predicate Spells(t: string, r: Row) { WellFormed(r) && t == Text(r) }

  lemma OneSymbol(v: nat, n: nat, c: char)
    requires n > 0 && Digit01(c)
    ensures Digits(2 * v + One(c), n) == Digits(v, n - 1) + [c]
    ensures Blanks(n) == Blanks(n - 1) + ['?'] && Digits(v, 0) == [] == Blanks(0)
  {
    assert (2 * v + One(c)) / 2 == v;
  }

  lemma Group1(t: string, above: Row, a: char)
    requires Spells(t, above) && Run1(a)
    ensures Spells(t + [a], Over(Read1(a), 1, above))
  {
    hide Text, Digits, Blanks, WellFormed;
    OneSymbol(0, 1, if a == '?' then '0' else a);
    TextOver(Read1(a), 1, above);
  }

  lemma Group2(t: string, above: Row, a: char, b: char)
    requires Spells(t, above) && Run2(a, b)
    ensures Spells(t + [a, b], Over(Read2(a, b), 2, above))
  {
    hide Text, Digits, Blanks, WellFormed;
    Symbols2(a, b);
    TextOver(Read2(a, b), 2, above);
  }

  lemma Group3(t: string, above: Row, a: char, b: char, c: char)
    requires Spells(t, above) && Run3(a, b, c)
    ensures Spells(t + [a, b, c], Over(Read3(a, b, c), 3, above))
  {
    hide Text, Digits, Blanks, WellFormed;
    Symbols3(a, b, c);
    TextOver(Read3(a, b, c), 3, above);
  }

  lemma Group5(t: string, above: Row, a: char, b: char, c: char, d: char, e: char)
    requires Spells(t, above) && Run5(a, b, c, d, e)
    ensures Spells(t + [a, b, c, d, e], Over(Read5(a, b, c, d, e), 5, above))
  {
    hide Text, Digits, Blanks, WellFormed;
    Symbols5(a, b, c, d, e);
    TextOver(Read5(a, b, c, d, e), 5, above);
  }

  lemma Symbols2(a: char, b: char)
    ensures a == b == '?' ==> Blanks(2) == [a, b]
    ensures Digit01(a) && Digit01(b) ==> Digits(2 * One(a) + One(b), 2) == [a, b]
  {
    hide Digits, Blanks;
    OneSymbol(0, 1, if Digit01(a) then a else '0');
    OneSymbol(One(a), 2, if Digit01(b) then b else '0');
  }

  lemma Symbols3(a: char, b: char, c: char)
    ensures a == b == c == '?' ==> Blanks(3) == [a, b, c]
    ensures Digit01(a) && Digit01(b) && Digit01(c) ==> Digits(4 * One(a) + 2 * One(b) + One(c), 3) == [a, b, c]
  {
    hide Digits, Blanks;
    Symbols2(a, b);
    OneSymbol(2 * One(a) + One(b), 3, if Digit01(c) then c else '0');
  }

  lemma Symbols5(a: char, b: char, c: char, d: char, e: char)
    ensures a == b == c == d == e == '?' ==> Blanks(5) == [a, b, c, d, e]
    ensures Digit01(a) && Digit01(b) && Digit01(c) && Digit01(d) && Digit01(e) ==>
      Digits(16 * One(a) + 8 * One(b) + 4 * One(c) + 2 * One(d) + One(e), 5) == [a, b, c, d, e]
  {
    hide Digits, Blanks;
    Symbols3(a, b, c);
    OneSymbol(4 * One(a) + 2 * One(b) + One(c), 4, if Digit01(d) then d else '0');
    OneSymbol(8 * One(a) + 4 * One(b) + 2 * One(c) + One(d), 5, if Digit01(e) then e else '0');
  }

  function Symbols(g: Group, n: nat): string {
    match g
    case Val(v) => Digits(v, n)
    case Any => Blanks(n)
  }

  lemma TextOver(g: Group, n: nat, above: Row)
    requires n == 1 || n == 2 || n == 3 || n == 5
    ensures Text(Over(g, n, above)) == Text(above) + Symbols(g, n)
    ensures WellFormed(Over(g, n, above)) <==> WellFormed(above) && (g.Val? ==> g.v < Pow2(n))
    ensures Pow2(1) == 2 && Pow2(2) == 4 && Pow2(3) == 8 && Pow2(5) == 32
  {
    hide Digits, Blanks, Pow2;
    SmallPowers();
  }

  // The test on a group: its field, and the rest of the word
  lemma TestOver(g: Group, n: nat, d: nat, above: Row, w: nat, h: nat)
    requires d > 0 && d == Pow2(n) && h == w / d
    ensures Test(Over(g, n, above), w) <==> Fits(g, w % d) && Test(above, h)
  {
    hide Pow2;
  }

  // Removing blanks symbol by symbol
  lemma StripNext(p: string, i: nat)
    requires i < |p|
    ensures Strip(p[..i + 1]) == Strip(p[..i]) + if p[i] == ' ' then [] else [p[i]]
  {
    assert p[..i + 1][..i] == p[..i] && p[..i + 1][i] == p[i];
  }

  lemma StripBlank(p: string, i: nat)
    requires i < |p| && p[i] == ' '
    ensures Strip(p[..i + 1]) == Strip(p[..i])
  {
    hide Strip;
    StripNext(p, i);
  }

  lemma Strip1(p: string, i: nat, above: Row)
    requires i + 1 <= |p| && Run1(p[i]) && Spells(Strip(p[..i]), above)
    ensures Spells(Strip(p[..i + 1]), Over(Read1(p[i]), 1, above))
  {
    hide Strip, Spells, Over, Read1;
    StripNext(p, i);
    Group1(Strip(p[..i]), above, p[i]);
  }

  lemma Strip2(p: string, i: nat, above: Row)
    requires i + 2 <= |p| && Run2(p[i], p[i + 1]) && Spells(Strip(p[..i]), above)
    ensures Spells(Strip(p[..i + 2]), Over(Read2(p[i], p[i + 1]), 2, above))
  {
    hide Strip, Spells, Over, Read2;
    StripNext(p, i);
    StripNext(p, i + 1);
    assert Strip(p[..i + 2]) == Strip(p[..i]) + [p[i], p[i + 1]];
    Group2(Strip(p[..i]), above, p[i], p[i + 1]);
  }

  lemma Strip3(p: string, i: nat, above: Row)
    requires i + 3 <= |p| && Run3(p[i], p[i + 1], p[i + 2]) && Spells(Strip(p[..i]), above)
    ensures Spells(Strip(p[..i + 3]), Over(Read3(p[i], p[i + 1], p[i + 2]), 3, above))
  {
    hide Strip, Spells, Over, Read3;
    StripNext(p, i);
    StripNext(p, i + 1);
    StripNext(p, i + 2);
    assert Strip(p[..i + 3]) == Strip(p[..i]) + [p[i], p[i + 1], p[i + 2]];
    Group3(Strip(p[..i]), above, p[i], p[i + 1], p[i + 2]);
  }

  lemma Strip5(p: string, i: nat, above: Row)
    requires i + 5 <= |p| && Run5(p[i], p[i + 1], p[i + 2], p[i + 3], p[i + 4]) && Spells(Strip(p[..i]), above)
    ensures Spells(Strip(p[..i + 5]), Over(Read5(p[i], p[i + 1], p[i + 2], p[i + 3], p[i + 4]), 5, above))
  {
    hide Strip, Spells, Over, Read5;
    StripNext(p, i);
    StripNext(p, i + 1);
    StripNext(p, i + 2);
    StripNext(p, i + 3);
    StripNext(p, i + 4);
    assert Strip(p[..i + 5]) == Strip(p[..i]) + [p[i], p[i + 1], p[i + 2], p[i + 3], p[i + 4]];
    Group5(Strip(p[..i]), above, p[i], p[i + 1], p[i + 2], p[i + 3], p[i + 4]);
  }

  // ----- 16-bit patterns, given by the groups between the blanks -----------------------------

  predicate Layout16(a: string, b: string, c: string) {
    && |a| == 3 && Run3(a[0], a[1], a[2]) && |b| == 11 && Run1(b[0]) && Run2(b[1], b[2]) && Run3(b[3], b[4], b[5])
    && Run2(b[6], b[7]) && Run3(b[8], b[9], b[10]) && |c| == 2 && Run2(c[0], c[1])
  }

  // The fields that the groups of a pattern compare
  datatype Parts16 = Parts16(f3: nat, b12: nat, b10: nat, b7: nat, b5: nat, b2: nat, op: nat)

  function Cut16(w: U16): Parts16 {
    Parts16(w / 8192, w / 4096 % 2, w / 1024 % 4, w / 128 % 8, w / 32 % 4, w / 4 % 8, w % 4)
  }

  predicate Fields16(a: string, b: string, c: string, x: Parts16)
    requires |a| == 3 && |b| == 11 && |c| == 2
  {
    && Fits(Read3(a[0], a[1], a[2]), x.f3) && Fits(Read1(b[0]), x.b12) && Fits(Read2(b[1], b[2]), x.b10)
    && Fits(Read3(b[3], b[4], b[5]), x.b7) && Fits(Read2(b[6], b[7]), x.b5) && Fits(Read3(b[8], b[9], b[10]), x.b2)
    && Fits(Read2(c[0], c[1]), x.op)
  }

  function Joined16(a: string, b: string, c: string): (p: string)
    ensures |p| == |a| + |b| + |c| + 2
  {
    a + " " + b + " " + c
  }

  lemma Joined16Groups(a: string, b: string, c: string)
    requires |a| == 3 && |b| == 11 && |c| == 2
    ensures var p := Joined16(a, b, c);
      p[0..3] == a && p[3] == ' ' && p[4..15] == b && p[15] == ' ' && p[16..18] == c
      && p[4] == b[0] && p[5..7] == b[1..3] && p[7..10] == b[3..6] && p[10..12] == b[6..8] && p[12..15] == b[8..11]
  {
  }

  lemma TopSpelled(p: string)
    ensures Spells(Strip(p[..0]), Top) && p[..|p|] == p
  {
  }

  lemma SmallGroups(w: nat)
    ensures Pow2(1) == 2 && Pow2(2) == 4 && Pow2(3) == 8 && Pow2(5) == 32
    ensures w / 4 / 8 == w / 32 && w / 32 / 4 == w / 128 && w / 128 / 8 == w / 1024 && w / 1024 / 4 == w / 4096
    ensures w / 4096 / 2 == w / 8192 && w / 4 / 32 == w / 128 && w / 128 / 32 == w / 4096 && w / 4096 / 8 == w / 0x8000
    ensures w / 0x8000 / 32 == w / 0x10_0000 && w / 0x10_0000 / 32 == w / 0x200_0000
    ensures w / 0x200_0000 / 2 == w / 0x400_0000 && w / 0x400_0000 / 2 == w / 0x800_0000
  {
    SmallPowers();
  }

  // The test on a written 16-bit pattern compares the fields of its groups.
  lemma Written16(a: string, b: string, c: string, w: U16)
    requires Layout16(a, b, c)
    ensures Matches(Strip(Joined16(a, b, c)), w) <==> Fields16(a, b, c, Cut16(w))
  {
    hide Strip, Matches, Over, Read1, Read2, Read3, Test, WellFormed, Text, Run1, Run2, Run3, Pow2, Fits;
    hide Joined16, Spells;
    var p := Joined16(a, b, c);
    var g2, g5, g7 := Read2(c[0], c[1]), Read3(b[8], b[9], b[10]), Read2(b[6], b[7]);
    var g10, g12 := Read3(b[3], b[4], b[5]), Read2(b[1], b[2]);
    var g13, g16 := Read1(b[0]), Read3(a[0], a[1], a[2]);
    var r16 := Over(g16, 3, Top);
    var r13 := Over(g13, 1, r16);
    var r12 := Over(g12, 2, r13);
    var r10 := Over(g10, 3, r12);
    var r7 := Over(g7, 2, r10);
    var r5 := Over(g5, 3, r7);
    var r2 := Over(g2, 2, r5);
    assert Spells(Strip(p), r2) by {
      Joined16Groups(a, b, c);
      TopSpelled(p);
      StripGroup(p, 0, a, g16, Top);
      StripBlank(p, 3);
      Strip1(p, 4, r16);
      assert b[1..3][0] == b[1] && b[1..3][1] == b[2];
      StripGroup(p, 5, b[1..3], g12, r13);
      assert b[3..6][0] == b[3] && b[3..6][1] == b[4] && b[3..6][2] == b[5];
      StripGroup(p, 7, b[3..6], g10, r12);
      assert b[6..8][0] == b[6] && b[6..8][1] == b[7];
      StripGroup(p, 10, b[6..8], g7, r10);
      assert b[8..11][0] == b[8] && b[8..11][1] == b[9] && b[8..11][2] == b[10];
      StripGroup(p, 12, b[8..11], g5, r7);
      StripBlank(p, 15);
      StripGroup(p, 16, c, g2, r5);
    }
    SpelledTest(Strip(p), r2, w);
    SmallGroups(w);
    TestOver(g2, 2, 4, r5, w, w / 4);
    TestOver(g5, 3, 8, r7, w / 4, w / 32);
    TestOver(g7, 2, 4, r10, w / 32, w / 128);
    TestOver(g10, 3, 8, r12, w / 128, w / 1024);
    TestOver(g12, 2, 4, r13, w / 1024, w / 4096);
    TestOver(g13, 1, 2, r16, w / 4096, w / 8192);
    TestOver(g16, 3, 8, Top, w / 8192, w / 8192 / 8);
    TestTop(w / 8192 / 8);
    assert w / 8192 < 8;
  }

  lemma TestTop(w: nat)
    ensures Test(Top, w)
  {
  }

  // ----- 32-bit patterns, given by the groups between the blanks -----------------------------

  predicate Layout32(a: string, b: string, c: string, d: string, e: string, f: string, g: string) {
    && Uniform7(a) && Uniform5(b) && Uniform5(c) && Uniform3(d) && Uniform5(e) && Uniform5(f) && Uniform2(g)
  }

  // Whole groups
  predicate Uniform2(s: string): (u: bool)
    ensures u ==> |s| == 2
  {
    |s| == 2 && Run2(s[0], s[1])
  }
  predicate Uniform3(s: string): (u: bool)
    ensures u ==> |s| == 3
  {
    |s| == 3 && Run3(s[0], s[1], s[2])
  }
  predicate Uniform5(s: string): (u: bool)
    ensures u ==> |s| == 5
  {
    |s| == 5 && Run5(s[0], s[1], s[2], s[3], s[4])
  }

  // The first group, which may stop being fixed after five or six symbols
  predicate Uniform7(s: string): (u: bool)
    ensures u ==> |s| == 7
  {
    |s| == 7 && Run5(s[0], s[1], s[2], s[3], s[4]) && Run1(s[5]) && Run1(s[6])
  }

  function Value2(s: string): Group
    requires |s| == 2
  {
    Read2(s[0], s[1])
  }
  function Value3(s: string): Group
    requires |s| == 3
  {
    Read3(s[0], s[1], s[2])
  }
  function Value5(s: string): Group
    requires |s| == 5
  {
    Read5(s[0], s[1], s[2], s[3], s[4])
  }

  datatype Head = Head(f5: Group, b26: Group, b25: Group)

  function Value7(s: string): Head
    requires |s| == 7
  {
    Head(Read5(s[0], s[1], s[2], s[3], s[4]), Read1(s[5]), Read1(s[6]))
  }

  datatype Parts32 = Parts32(f5: nat, b26: nat, b25: nat, rs2: nat, rs1: nat, f3: nat, rd: nat, op5: nat, op2: nat)

  function Cut32(w: U32): Parts32 {
    Parts32(w / 0x800_0000, w / 0x400_0000 % 2, w / 0x200_0000 % 2, w / 0x10_0000 % 32, w / 0x8000 % 32,
            w / 0x1000 % 8, w / 128 % 32, w / 4 % 32, w % 4)
  }

  predicate Fields32(a: string, b: string, c: string, d: string, e: string, f: string, g: string, x: Parts32)
    requires |a| == 7 && |b| == |c| == |e| == |f| == 5 && |d| == 3 && |g| == 2
  {
    && Fits(Value7(a).f5, x.f5) && Fits(Value7(a).b26, x.b26) && Fits(Value7(a).b25, x.b25)
    && Fits(Value5(b), x.rs2) && Fits(Value5(c), x.rs1) && Fits(Value3(d), x.f3) && Fits(Value5(e), x.rd)
    && Fits(Value5(f), x.op5) && Fits(Value2(g), x.op2)
  }

  function Joined32(a: string, b: string, c: string, d: string, e: string, f: string, g: string): (p: string)
    ensures |p| == |a| + |b| + |c| + |d| + |e| + |f| + |g| + 6
  {
    a + " " + b + " " + c + " " + d + " " + e + " " + f + " " + g
  }

  // A group of the joined pattern
  lemma StripGroup(p: string, i: nat, s: string, g: Group, above: Row)
    requires i + |s| <= |p| && p[i..i + |s|] == s && Spells(Strip(p[..i]), above)
    requires |s| == 2 || |s| == 3 || |s| == 5
    requires |s| == 2 ==> Run2(s[0], s[1]) && g == Read2(s[0], s[1])
    requires |s| == 3 ==> Run3(s[0], s[1], s[2]) && g == Read3(s[0], s[1], s[2])
    requires |s| == 5 ==> Run5(s[0], s[1], s[2], s[3], s[4]) && g == Read5(s[0], s[1], s[2], s[3], s[4])
    ensures Spells(Strip(p[..i + |s|]), Over(g, |s|, above))
  {
    hide *;
    assert forall k :: 0 <= k < |s| ==> p[i + k] == p[i..i + |s|][k] == s[k];
    assert p[i] == s[0] by { assert p[i + 0] == s[0]; }
    if |s| == 2 {
      Strip2(p, i, above);
    } else if |s| == 3 {
      Strip3(p, i, above);
    } else {
      Strip5(p, i, above);
    }
  }

  lemma Joined32Low(a: string, b: string, c: string, d: string, e: string, f: string, g: string)
    requires |a| == 7 && |b| == |c| == |e| == |f| == 5 && |d| == 3 && |g| == 2
    ensures var p := Joined32(a, b, c, d, e, f, g);
      && |p| == 38 && p[7] == p[13] == p[19] == ' ' && p[0..5] == a[0..5] && p[5] == a[5] && p[6] == a[6]
      && p[8..13] == b && p[14..19] == c
  {
  }

  lemma Joined32High(a: string, b: string, c: string, d: string, e: string, f: string, g: string)
    requires |a| == 7 && |b| == |c| == |e| == |f| == 5 && |d| == 3 && |g| == 2
    ensures var p := Joined32(a, b, c, d, e, f, g);
      && |p| == 38 && p[23] == p[29] == p[35] == ' ' && p[20..23] == d && p[24..29] == e && p[30..35] == f
      && p[36..38] == g
  {
  }

  // The row that a 32-bit pattern spells
  function Row32(a: string, b: string, c: string, d: string, e: string, f: string, g: string): Row
    requires |a| == 7 && |b| == |c| == |e| == |f| == 5 && |d| == 3 && |g| == 2
  {
    var high := Over(Read1(a[6]), 1, Over(Read1(a[5]), 1, Over(Read5(a[0], a[1], a[2], a[3], a[4]), 5, Top)));
    Over(Value2(g), 2, Over(Value5(f), 5, Over(Value5(e), 5, Over(Value3(d), 3, Over(Value5(c), 5,
      Over(Value5(b), 5, high))))))
  }

  lemma Spelled32(a: string, b: string, c: string, d: string, e: string, f: string, g: string)
    requires Layout32(a, b, c, d, e, f, g)
    ensures Spells(Strip(Joined32(a, b, c, d, e, f, g)), Row32(a, b, c, d, e, f, g))
  {
    hide Strip, Over, Read1, Read2, Read3, Read5, Run1, Run2, Run3, Run5, Joined32, Spells;
    var p := Joined32(a, b, c, d, e, f, g);
    var g0 := Read5(a[0], a[1], a[2], a[3], a[4]);
    var r0 := Over(g0, 5, Top);
    var r1 := Over(Read1(a[5]), 1, r0);
    var r2 := Over(Read1(a[6]), 1, r1);
    var r3 := Over(Value5(b), 5, r2);
    var r4 := Over(Value5(c), 5, r3);
    var r5 := Over(Value3(d), 3, r4);
    var r6 := Over(Value5(e), 5, r5);
    var r7 := Over(Value5(f), 5, r6);
    Joined32Low(a, b, c, d, e, f, g);
    Joined32High(a, b, c, d, e, f, g);
    TopSpelled(p);
    assert a[0..5][0] == a[0] && a[0..5][1] == a[1] && a[0..5][2] == a[2] && a[0..5][3] == a[3] && a[0..5][4] == a[4];
    StripGroup(p, 0, a[0..5], g0, Top);
    Strip1(p, 5, r0);
    Strip1(p, 6, r1);
    StripBlank(p, 7);
    StripGroup(p, 8, b, Value5(b), r2);
    StripBlank(p, 13);
    StripGroup(p, 14, c, Value5(c), r3);
    StripBlank(p, 19);
    StripGroup(p, 20, d, Value3(d), r4);
    StripBlank(p, 23);
    StripGroup(p, 24, e, Value5(e), r5);
    StripBlank(p, 29);
    StripGroup(p, 30, f, Value5(f), r6);
    StripBlank(p, 35);
    StripGroup(p, 36, g, Value2(g), r7);
  }

  lemma RowTest32(a: string, b: string, c: string, d: string, e: string, f: string, g: string, w: U32)
    requires |a| == 7 && |b| == |c| == |e| == |f| == 5 && |d| == 3 && |g| == 2
    ensures Test(Row32(a, b, c, d, e, f, g), w) <==> Fields32(a, b, c, d, e, f, g, Cut32(w))
  {
    hide Over, Read1, Read5, Value2, Value3, Value5, Test, Pow2, Fits;
    var g0, g1, g2 := Read5(a[0], a[1], a[2], a[3], a[4]), Read1(a[5]), Read1(a[6]);
    var r0 := Over(g0, 5, Top);
    var r1 := Over(g1, 1, r0);
    var r2 := Over(g2, 1, r1);
    var r3 := Over(Value5(b), 5, r2);
    var r4 := Over(Value5(c), 5, r3);
    var r5 := Over(Value3(d), 3, r4);
    var r6 := Over(Value5(e), 5, r5);
    var r7 := Over(Value5(f), 5, r6);
    SmallGroups(w);
    TestOver(Value2(g), 2, 4, r7, w, w / 4);
    TestOver(Value5(f), 5, 32, r6, w / 4, w / 128);
    TestOver(Value5(e), 5, 32, r5, w / 128, w / 4096);
    TestOver(Value3(d), 3, 8, r4, w / 4096, w / 0x8000);
    TestOver(Value5(c), 5, 32, r3, w / 0x8000, w / 0x10_0000);
    TestOver(Value5(b), 5, 32, r2, w / 0x10_0000, w / 0x200_0000);
    TestOver(g2, 1, 2, r1, w / 0x200_0000, w / 0x400_0000);
    TestOver(g1, 1, 2, r0, w / 0x400_0000, w / 0x800_0000);
    TestOver(g0, 5, 32, Top, w / 0x800_0000, w / 0x800_0000 / 32);
    TestTop(w / 0x800_0000 / 32);
    assert w / 0x800_0000 < 32;
  }

  // The test on a written 32-bit pattern compares the fields of its groups.
  lemma Written32(a: string, b: string, c: string, d: string, e: string, f: string, g: string, w: U32)
    requires Layout32(a, b, c, d, e, f, g)
    ensures Matches(Strip(Joined32(a, b, c, d, e, f, g)), w) <==> Fields32(a, b, c, d, e, f, g, Cut32(w))
  {
    hide Strip, Matches, Row32, Test, Fields32, Cut32, Joined32, Spells;
    Spelled32(a, b, c, d, e, f, g);
    SpelledTest(Strip(Joined32(a, b, c, d, e, f, g)), Row32(a, b, c, d, e, f, g), w);
    RowTest32(a, b, c, d, e, f, g, w);
  }

  lemma SpelledTest(t: string, r: Row, w: nat)
    requires Spells(t, r)
    ensures Matches(t, w) <==> Test(r, w)
  {
    TextIsTest(r, w);
  }
}
