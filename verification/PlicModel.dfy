/**
 The PLIC as a state machine on values: bit-packed enable, pending and claimed
 words per context, priorities latched when a source becomes pending, and the
 interrupt line that each context last drove.
 */
module PlicModel {
  import opened Bits

  const MAX_IDS: nat := 1024
  const WORDS: nat := 32

  type Words = s: seq<U32> | |s| == WORDS witness seq(WORDS, _ => 0)
  type Prios = s: seq<Byte> | |s| == MAX_IDS witness seq(MAX_IDS, _ => 0)

  predicate Has(w: Words, id: nat)
    requires id < MAX_IDS
  {
    Bit(w[id / 32], id % 32)
  }

  function Put(w: Words, id: nat): Words
    requires id < MAX_IDS
  {
    SetBitU32(w[id / 32], id % 32);
    w[id / 32 := SetBit(w[id / 32], id % 32)]
  }

  function Drop(w: Words, id: nat): Words
    requires id < MAX_IDS
  {
    ClearBitBound(w[id / 32], id % 32);
    w[id / 32 := ClearBit(w[id / 32], id % 32)]
  }

  lemma SetBitU32(x: U32, k: nat)
    requires k < 32
    ensures SetBit(x, k) < 0x1_0000_0000
  {
    hide Pow2, SetBit;
    Pow2Values();
    SetBitBound(x, k, 32);
  }

  lemma HasPut(w: Words, id: nat, k: nat)
    requires id < MAX_IDS && k < MAX_IDS
    ensures Has(Put(w, id), k) == (k == id || Has(w, k))
  {
    BitOfSetBit(w[id / 32], id % 32, k % 32);
  }

  lemma HasDrop(w: Words, id: nat, k: nat)
    requires id < MAX_IDS && k < MAX_IDS
    ensures Has(Drop(w, id), k) == (k != id && Has(w, k))
  {
    BitOfClearBit(w[id / 32], id % 32, k % 32);
  }

  // Two word arrays with the same ids are the same array.
  lemma SameIds(v: Words, w: Words)
    requires forall id :: 0 <= id < MAX_IDS ==> Has(v, id) == Has(w, id)
    ensures v == w
  {
    hide Pow2, Bit;
    Pow2Values();
    forall i | 0 <= i < WORDS ensures v[i] == w[i] {
      forall k: nat ensures Bit(v[i], k) == Bit(w[i], k) {
        if k < 32 {
          assert Has(v, 32 * i + k) == Has(w, 32 * i + k);
          assert (32 * i + k) / 32 == i && (32 * i + k) % 32 == k;
        } else {
          HighBitsClear(v[i], 32, k);
          HighBitsClear(w[i], 32, k);
        }
      }
      SameBits(v[i], w[i]);
    }
  }

  datatype Ctx = Ctx(threshold: Byte, enable: Words, pending: Words, prio: Prios, claimed: Words, line: bool)

  datatype Plic = Plic(numIds: nat, level: Words, priority: Prios, ctxs: seq<Ctx>)

  // ----- The best pending source -------------------------------------------

  predicate Eligible(c: Ctx, id: nat)
    requires id < MAX_IDS
  {
    Has(c.pending, id) && !Has(c.claimed, id)
  }

  // The scan of context_best_pending over the ids below n.
  function Scan(c: Ctx, n: nat): (b: nat)
    requires n <= MAX_IDS
    ensures b == 0 || b < n
  {
    if n == 0 then 0
    else
      var b := Scan(c, n - 1);
      if Eligible(c, n - 1) && (b == 0 || c.prio[b] < c.prio[n - 1]) then n - 1 else b
  }

  function Best(c: Ctx, numIds: nat): (b: nat)
    requires numIds <= MAX_IDS
    ensures b == 0 || b < numIds
  {
    var b := Scan(c, numIds);
    if b == 0 || c.prio[b] <= c.threshold then 0 else b
  }

  // The sources a claim may return.
  predicate Ready(c: Ctx, numIds: nat, id: nat)
    requires numIds <= MAX_IDS
  {
    0 < id < numIds && Eligible(c, id) && c.prio[id] > c.threshold
  }

  // a is claimed before b: higher latched priority, or equal and lower id.
  predicate Before(c: Ctx, a: nat, b: nat)
    requires a < MAX_IDS && b < MAX_IDS
  {
    c.prio[a] > c.prio[b] || (c.prio[a] == c.prio[b] && a < b)
  }

  lemma {:induction false} ScanIsTop(c: Ctx, n: nat, id: nat)
    requires n <= MAX_IDS && 0 < id < n && Eligible(c, id)
    ensures var b := Scan(c, n); 0 < b < n && Eligible(c, b) && (b == id || Before(c, b, id))
  {
    if id < n - 1 {
      ScanIsTop(c, n - 1, id);
    } else if Scan(c, n - 1) != 0 {
      ScanIsEligible(c, n - 1);
    }
  }

  lemma {:induction false} ScanIsEligible(c: Ctx, n: nat)
    requires n <= MAX_IDS && Scan(c, n) != 0
    ensures Eligible(c, Scan(c, n))
  {
    if !(Eligible(c, n - 1) && Scan(c, n) == n - 1) {
      ScanIsEligible(c, n - 1);
    }
  }

  // BEST: the result is a ready source, ahead of every other ready source, and
  // is 0 exactly when there is none.
  lemma BestIsTop(c: Ctx, numIds: nat)
    requires numIds <= MAX_IDS
    ensures var b := Best(c, numIds);
      && (b != 0 ==> Ready(c, numIds, b))
      && (b == 0 <==> forall id :: 0 < id < numIds ==> !Ready(c, numIds, id))
      && (forall id :: 0 < id < numIds && Ready(c, numIds, id) && id != b ==> Before(c, b, id))
  {
    var b := Best(c, numIds);
    if b != 0 {
      ScanIsEligible(c, numIds);
      assert Ready(c, numIds, b);
    }
    forall id | 0 < id < numIds && Ready(c, numIds, id) ensures b != 0 && (id == b || Before(c, b, id)) {
      ScanIsTop(c, numIds, id);
    }
  }

  // ----- Operations ----------------------------------------------------------

  // context_update
  function Updated(c: Ctx, numIds: nat): Ctx
    requires numIds <= MAX_IDS
  {
    c.(line := Best(c, numIds) != 0)
  }

  function Raised(c: Ctx, id: nat, p: Byte): Ctx
    requires id < MAX_IDS
  {
    c.(pending := Put(c.pending, id), prio := c.prio[id := p])
  }

  function Lowered(c: Ctx, id: nat): Ctx
    requires id < MAX_IDS
  {
    c.(pending := Drop(c.pending, id), prio := c.prio[id := 0], claimed := Drop(c.claimed, id))
  }

  predicate Shape(s: Plic) { 1 <= s.numIds <= MAX_IDS && |s.ctxs| == 2 }

  function NumWords(numIds: nat): nat { (numIds + 31) / 32 }

  // The context that takes a level change: the first, from k on, that enables id.
  function Taker(ctxs: seq<Ctx>, id: nat, k: nat): (i: nat)
    requires id < MAX_IDS && k <= |ctxs|
    ensures k <= i <= |ctxs|
    decreases |ctxs| - k
  {
    if k == |ctxs| || Has(ctxs[k].enable, id) then k else Taker(ctxs, id, k + 1)
  }

  // Plic::set_interrupt_level
  function SetLevel(s: Plic, id: nat, lvl: bool): Plic
    requires Shape(s)
  {
    if id == 0 || s.numIds <= id then s
    else
      var s1 := s.(level := if lvl then Put(s.level, id) else Drop(s.level, id));
      var k := Taker(s.ctxs, id, 0);
      if k == |s.ctxs| then s1
      else
        var c := s.ctxs[k];
        var c1 := if lvl then Raised(c, id, s.priority[id]) else Lowered(c, id);
        s1.(ctxs := s.ctxs[k := Updated(c1, s.numIds)])
  }

  // Plic::context_claim
  function Claimed(c: Ctx, numIds: nat): Ctx
    requires numIds <= MAX_IDS
  {
    var b := Best(c, numIds);
    Updated(if b == 0 then c else c.(claimed := Put(c.claimed, b)), numIds)
  }

  // A write of `id` to a context's claim register.
  function Completed(c: Ctx, numIds: nat, id: nat): Ctx
    requires numIds <= MAX_IDS
  {
    if id < numIds && Has(c.enable, id) then Updated(c.(claimed := Drop(c.claimed, id)), numIds) else c
  }

  // Bit k of an enable word went from old_ to new_.
  function ToggleOne(s: Plic, c: Ctx, w: nat, old_: U32, new_: U32, k: nat): Ctx
    requires w < WORDS && k < 32
  {
    var id := 32 * w + k;
    if Bit(old_, k) == Bit(new_, k) then c
    else if Bit(new_, k) && Bit(s.level[w], k) then Raised(c, id, s.priority[id])
    else if !Bit(new_, k) then Lowered(c, id)
    else c
  }

  // The context after the first n bits of an enable word changed.
  function Toggled(s: Plic, c: Ctx, w: nat, old_: U32, new_: U32, n: nat): Ctx
    requires w < WORDS && n <= 32
  {
    if n == 0 then c else ToggleOne(s, Toggled(s, c, w, old_, new_, n - 1), w, old_, new_, n - 1)
  }

  function EnableWord(w: nat, val: U32): U32 {
    ClearBitBound(val, 0);
    if w == 0 then ClearBit(val, 0) else val
  }

  // Plic::context_enable_write of word w
  function EnableWrite(s: Plic, c: Ctx, w: nat, val: U32): Ctx
    requires Shape(s)
  {
    if w >= NumWords(s.numIds) then c
    else
      var new_ := EnableWord(w, val);
      Updated(Toggled(s, c.(enable := c.enable[w := new_]), w, c.enable[w], new_, 32), s.numIds)
  }

  // The operations that change the PLIC: a device moving its line, and register
  // accesses (reading the claim register claims).
  datatype Op =
    | Level(id: nat, lvl: bool)
    | WritePriority(id: nat, val: U32)
    | WriteEnable(ctx: nat, w: nat, val: U32)
    | WriteThreshold(ctx: nat, val: U32)
    | Claim(ctx: nat)
    | Complete(ctx: nat, id: nat)

  function Apply(s: Plic, op: Op): Plic
    requires Shape(s)
  {
    match op
    case Level(id, lvl) => SetLevel(s, id, lvl)
    case WritePriority(id, val) =>
      if 0 < id < s.numIds then s.(priority := s.priority[id := val % 16]) else s
    case WriteEnable(k, w, val) =>
      if k < |s.ctxs| then s.(ctxs := s.ctxs[k := EnableWrite(s, s.ctxs[k], w, val)]) else s
    case WriteThreshold(k, val) =>
      if k < |s.ctxs| then s.(ctxs := s.ctxs[k := Updated(s.ctxs[k].(threshold := val % 16), s.numIds)]) else s
    case Claim(k) =>
      if k < |s.ctxs| then s.(ctxs := s.ctxs[k := Claimed(s.ctxs[k], s.numIds)]) else s
    case Complete(k, id) =>
      if k < |s.ctxs| then s.(ctxs := s.ctxs[k := Completed(s.ctxs[k], s.numIds, id)]) else s
  }

  function Run(s: Plic, ops: seq<Op>): (r: Plic)
    requires Shape(s)
    ensures Shape(r) && r.numIds == s.numIds
    decreases |ops|
  {
    if ops == [] then s else Run(Apply(s, ops[0]), ops[1..])
  }

  function NoWords(): Words { seq(WORDS, _ => 0) }
  function NoPrios(): Prios { seq(MAX_IDS, _ => 0) }
  function ResetCtx(): Ctx { Ctx(0, NoWords(), NoWords(), NoPrios(), NoWords(), false) }

  function Reset(numIds: nat): Plic { Plic(numIds, NoWords(), NoPrios(), [ResetCtx(), ResetCtx()]) }
}
