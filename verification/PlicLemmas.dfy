/**
 What every run of PLIC operations keeps, and the claim and completion protocol.
 */
module PlicLemmas {
  import opened Bits
  import opened PlicModel

  // ----- The invariant -------------------------------------------------------

  // In a context: claimed sources are pending, pending sources are enabled and
  // exist, the latched priority of a source that is not pending is 0, source 0
  // is never enabled, and the line is up exactly when some source is ready.
  ghost predicate CtxInv(c: Ctx, numIds: nat)
    requires numIds <= MAX_IDS
  {
    && (forall id :: 0 <= id < MAX_IDS ==> IdInv(c, numIds, id))
    && (c.line <==> exists id :: 0 < id < numIds && Ready(c, numIds, id))
  }

  predicate IdInv(c: Ctx, numIds: nat, id: nat)
    requires id < MAX_IDS
  {
    && (Has(c.claimed, id) ==> Has(c.pending, id))
    && (Has(c.pending, id) ==> Has(c.enable, id) && 0 < id < numIds)
    && (!Has(c.pending, id) ==> c.prio[id] == 0)
    && (Has(c.enable, id) ==> id != 0)
  }

  predicate LevelsExist(s: Plic) {
    forall id :: 0 <= id < MAX_IDS && Has(s.level, id) ==> 0 < id < s.numIds
  }

  // A context whose pending bits are its enabled sources that are asserted.
  predicate Tracks(c: Ctx, level: Words) {
    forall id :: 0 <= id < MAX_IDS ==> Has(c.pending, id) == (Has(c.enable, id) && Has(level, id))
  }

  ghost predicate Inv(s: Plic) {
    && Shape(s) && LevelsExist(s)
    && CtxInv(s.ctxs[0], s.numIds) && CtxInv(s.ctxs[1], s.numIds)
    && Tracks(s.ctxs[0], s.level)
  }

  lemma UpdatedLine(c: Ctx, numIds: nat)
    requires numIds <= MAX_IDS
    requires forall id :: 0 <= id < MAX_IDS ==> IdInv(c, numIds, id)
    ensures CtxInv(Updated(c, numIds), numIds)
  {
    hide Has, Best;
    var c' := Updated(c, numIds);
    BestIsTop(c, numIds);
    forall id | 0 <= id < MAX_IDS ensures IdInv(c', numIds, id) {
      assert IdInv(c, numIds, id);
    }
    forall id | 0 < id < numIds ensures Ready(c', numIds, id) == Ready(c, numIds, id) {
    }
  }

  // ----- The effect of an enable write on each source ------------------------

  predicate Flipped(old_: U32, new_: U32, w: nat, id: nat, n: nat) {
    id / 32 == w && id % 32 < n && Bit(old_, id % 32) != Bit(new_, id % 32)
  }

  lemma {:induction false} ToggledSource(s: Plic, c: Ctx, w: nat, old_: U32, new_: U32, n: nat, id: nat)
    requires w < WORDS && n <= 32 && id < MAX_IDS
    ensures var c' := Toggled(s, c, w, old_, new_, n);
      && c'.enable == c.enable && c'.threshold == c.threshold && c'.line == c.line
      && (!Flipped(old_, new_, w, id, n) ==>
            Has(c'.pending, id) == Has(c.pending, id) && Has(c'.claimed, id) == Has(c.claimed, id)
            && c'.prio[id] == c.prio[id])
      && (Flipped(old_, new_, w, id, n) && !Bit(new_, id % 32) ==>
            !Has(c'.pending, id) && !Has(c'.claimed, id) && c'.prio[id] == 0)
      && (Flipped(old_, new_, w, id, n) && Bit(new_, id % 32) ==>
            Has(c'.claimed, id) == Has(c.claimed, id)
            && Has(c'.pending, id) == (Has(s.level, id) || Has(c.pending, id))
            && c'.prio[id] == (if Has(s.level, id) then s.priority[id] else c.prio[id]))
    decreases n
  {
    if n > 0 {
      hide Has, Bit, ToggleOne;
      ToggledSource(s, c, w, old_, new_, n - 1, id);
      ToggleOneSource(s, Toggled(s, c, w, old_, new_, n - 1), w, old_, new_, n - 1, id);
      assert Flipped(old_, new_, w, id, n) <==>
             Flipped(old_, new_, w, id, n - 1) || (id == 32 * w + n - 1 && Bit(old_, n - 1) != Bit(new_, n - 1));
    }
  }

  lemma ToggleOneSource(s: Plic, c: Ctx, w: nat, old_: U32, new_: U32, k: nat, id: nat)
    requires w < WORDS && k < 32 && id < MAX_IDS
    ensures var c' := ToggleOne(s, c, w, old_, new_, k); var flip := Bit(old_, k) != Bit(new_, k);
      && c'.enable == c.enable && c'.threshold == c.threshold && c'.line == c.line
      && (!(flip && id == 32 * w + k) ==>
            Has(c'.pending, id) == Has(c.pending, id) && Has(c'.claimed, id) == Has(c.claimed, id)
            && c'.prio[id] == c.prio[id])
      && (flip && id == 32 * w + k && !Bit(new_, k) ==>
            !Has(c'.pending, id) && !Has(c'.claimed, id) && c'.prio[id] == 0)
      && (flip && id == 32 * w + k && Bit(new_, k) ==>
            Has(c'.claimed, id) == Has(c.claimed, id)
            && Has(c'.pending, id) == (Has(s.level, id) || Has(c.pending, id))
            && c'.prio[id] == (if Has(s.level, id) then s.priority[id] else c.prio[id]))
  {
    hide Has, Put, Drop, Bit;
    HasPut(c.pending, 32 * w + k, id);
    HasDrop(c.pending, 32 * w + k, id);
    HasDrop(c.claimed, 32 * w + k, id);
    HasIsBit(s.level, w, k);
  }

  lemma HasIsBit(ws: Words, w: nat, k: nat)
    requires w < WORDS && k < 32
    ensures Has(ws, 32 * w + k) == Bit(ws[w], k)
  {
  }

  lemma EnabledAfterWrite(c: Ctx, w: nat, val: U32, id: nat)
    requires w < WORDS && id < MAX_IDS
    ensures var e := c.enable[w := EnableWord(w, val)];
      && (id / 32 == w ==> Has(e, id) == Bit(EnableWord(w, val), id % 32))
      && (id / 32 != w ==> Has(e, id) == Has(c.enable, id))
      && (w == 0 ==> !Has(e, 0))
  {
    BitOfClearBit(val, 0, 0);
  }

  lemma EnableWriteKeeps(s: Plic, c: Ctx, w: nat, val: U32)
    requires Shape(s) && LevelsExist(s) && CtxInv(c, s.numIds)
    ensures CtxInv(EnableWrite(s, c, w, val), s.numIds)
    ensures Tracks(c, s.level) ==> Tracks(EnableWrite(s, c, w, val), s.level)
  {
    hide Has, Bit, Best, Toggled, EnableWord, Ready;
    if w < NumWords(s.numIds) {
      var new_ := EnableWord(w, val);
      var c0 := c.(enable := c.enable[w := new_]);
      var c1 := Toggled(s, c0, w, c.enable[w], new_, 32);
      forall id | 0 <= id < MAX_IDS
        ensures IdInv(c1, s.numIds, id)
        ensures Tracks(c, s.level) ==> Has(c1.pending, id) == (Has(c1.enable, id) && Has(s.level, id))
      {
        assert IdInv(c, s.numIds, id) && IdInv(c, s.numIds, 0);
        ToggledSource(s, c0, w, c.enable[w], new_, 32, id);
        EnabledAfterWrite(c, w, val, id);
        EnabledAfterWrite(c, w, val, 0);
        if id / 32 == w {
          HasIsBit(c.enable, w, id % 32);
        }
      }
      UpdatedLine(c1, s.numIds);
    }
  }

  // ----- The other operations -----------------------------------------------

  lemma RaisedKeeps(c: Ctx, numIds: nat, id: nat, p: Byte)
    requires numIds <= MAX_IDS && 0 < id < numIds && CtxInv(c, numIds) && Has(c.enable, id)
    ensures CtxInv(Updated(Raised(c, id, p), numIds), numIds)
  {
    hide Has, Put, Best, Ready;
    forall k | 0 <= k < MAX_IDS ensures IdInv(Raised(c, id, p), numIds, k) {
      assert IdInv(c, numIds, k);
      HasPut(c.pending, id, k);
    }
    UpdatedLine(Raised(c, id, p), numIds);
  }

  lemma LoweredKeeps(c: Ctx, numIds: nat, id: nat)
    requires numIds <= MAX_IDS && id < MAX_IDS && CtxInv(c, numIds)
    ensures CtxInv(Updated(Lowered(c, id), numIds), numIds)
  {
    hide Has, Drop, Best, Ready;
    forall k | 0 <= k < MAX_IDS ensures IdInv(Lowered(c, id), numIds, k) {
      assert IdInv(c, numIds, k);
      HasDrop(c.pending, id, k);
      HasDrop(c.claimed, id, k);
    }
    UpdatedLine(Lowered(c, id), numIds);
  }

  lemma ClaimedKeeps(c: Ctx, numIds: nat)
    requires numIds <= MAX_IDS && CtxInv(c, numIds)
    ensures CtxInv(Claimed(c, numIds), numIds)
  {
    hide Has, Put;
    var b := Best(c, numIds);
    BestIsTop(c, numIds);
    var c1 := if b == 0 then c else c.(claimed := Put(c.claimed, b));
    forall k | 0 <= k < MAX_IDS ensures IdInv(c1, numIds, k) {
      assert IdInv(c, numIds, k);
      if b != 0 {
        HasPut(c.claimed, b, k);
      }
    }
    UpdatedLine(c1, numIds);
  }

  lemma CompletedKeeps(c: Ctx, numIds: nat, id: nat)
    requires numIds <= MAX_IDS && CtxInv(c, numIds)
    ensures CtxInv(Completed(c, numIds, id), numIds)
  {
    hide Has, Drop, Best, Ready;
    if id < numIds && Has(c.enable, id) {
      var c1 := c.(claimed := Drop(c.claimed, id));
      forall k | 0 <= k < MAX_IDS ensures IdInv(c1, numIds, k) {
        assert IdInv(c, numIds, k);
        HasDrop(c.claimed, id, k);
      }
      UpdatedLine(c1, numIds);
    }
  }

  lemma ThresholdKeeps(c: Ctx, numIds: nat, t: Byte)
    requires numIds <= MAX_IDS && CtxInv(c, numIds)
    ensures CtxInv(Updated(c.(threshold := t), numIds), numIds)
  {
    hide Has, Best, Ready;
    var c1 := c.(threshold := t);
    forall k | 0 <= k < MAX_IDS ensures IdInv(c1, numIds, k) {
      assert IdInv(c, numIds, k);
    }
    UpdatedLine(c1, numIds);
  }

  // A level change keeps a context's tracking if the context takes the change,
  // or does not enable the source.
  lemma LevelTracks(s: Plic, id: nat, lvl: bool, k: nat)
    requires Shape(s) && 0 < id < s.numIds && k < 2 && Tracks(s.ctxs[k], s.level)
    requires Taker(s.ctxs, id, 0) == k || !Has(s.ctxs[k].enable, id)
    ensures var s' := SetLevel(s, id, lvl); Tracks(s'.ctxs[k], s'.level)
  {
    hide Has, Put, Drop, Best, Taker;
    var s' := SetLevel(s, id, lvl);
    TakerEnables(s.ctxs, id, 0);
    forall j | 0 <= j < MAX_IDS
      ensures Has(s'.ctxs[k].pending, j) == (Has(s'.ctxs[k].enable, j) && Has(s'.level, j))
    {
      HasPut(s.level, id, j);
      HasDrop(s.level, id, j);
      HasPut(s.ctxs[k].pending, id, j);
      HasDrop(s.ctxs[k].pending, id, j);
    }
  }

  lemma {:induction false} TakerEnables(ctxs: seq<Ctx>, id: nat, k: nat)
    requires id < MAX_IDS && k <= |ctxs|
    ensures var i := Taker(ctxs, id, k);
      (i < |ctxs| ==> Has(ctxs[i].enable, id)) && forall j :: k <= j < i ==> !Has(ctxs[j].enable, id)
    decreases |ctxs| - k
  {
    if !(k == |ctxs| || Has(ctxs[k].enable, id)) {
      TakerEnables(ctxs, id, k + 1);
    }
  }

  lemma SetLevelKeeps(s: Plic, id: nat, lvl: bool)
    requires Inv(s)
    ensures Inv(SetLevel(s, id, lvl))
  {
    hide Has, Put, Drop, Best, Taker, CtxInv;
    if 0 < id < s.numIds {
      var s', k := SetLevel(s, id, lvl), Taker(s.ctxs, id, 0);
      TakerEnables(s.ctxs, id, 0);
      forall j | 0 <= j < MAX_IDS && Has(s'.level, j) ensures 0 < j < s'.numIds {
        HasPut(s.level, id, j);
        HasDrop(s.level, id, j);
      }
      LevelTracks(s, id, lvl, 0);
      if k < 2 {
        if lvl {
          RaisedKeeps(s.ctxs[k], s.numIds, id, s.priority[id]);
        } else {
          LoweredKeeps(s.ctxs[k], s.numIds, id);
        }
      }
    }
  }

  // Claims, completions and thresholds touch neither enable nor pending bits.
  lemma SameTracking(c: Ctx, c': Ctx, level: Words)
    requires Tracks(c, level) && c'.pending == c.pending && c'.enable == c.enable
    ensures Tracks(c', level)
  {
  }

  lemma ApplyKeepsInv(s: Plic, op: Op)
    requires Inv(s)
    ensures Inv(Apply(s, op))
  {
    hide CtxInv, EnableWrite, SetLevel, Best, Tracks, LevelsExist;
    match op
    case Level(id, lvl) => SetLevelKeeps(s, id, lvl);
    case WritePriority(id, val) => LevelsKept(s, Apply(s, op));
    case WriteEnable(k, w, val) =>
      if k < 2 {
        EnableWriteKeeps(s, s.ctxs[k], w, val);
      }
      LevelsKept(s, Apply(s, op));
    case WriteThreshold(k, val) =>
      if k < 2 {
        ThresholdKeeps(s.ctxs[k], s.numIds, val % 16);
        if k == 0 { SameTracking(s.ctxs[0], Apply(s, op).ctxs[0], s.level); }
      }
      LevelsKept(s, Apply(s, op));
    case Claim(k) =>
      if k < 2 {
        ClaimedKeeps(s.ctxs[k], s.numIds);
        if k == 0 { SameTracking(s.ctxs[0], Apply(s, op).ctxs[0], s.level); }
      }
      LevelsKept(s, Apply(s, op));
    case Complete(k, id) =>
      if k < 2 {
        CompletedKeeps(s.ctxs[k], s.numIds, id);
        if k == 0 { SameTracking(s.ctxs[0], Apply(s, op).ctxs[0], s.level); }
      }
      LevelsKept(s, Apply(s, op));
  }

  lemma LevelsKept(s: Plic, s': Plic)
    requires LevelsExist(s) && s'.level == s.level && s'.numIds == s.numIds
    ensures LevelsExist(s')
  {
  }

  // SAFETY: in every state of every run from reset, the invariant holds.
  lemma {:induction false} RunKeepsInv(s: Plic, ops: seq<Op>)
    requires Inv(s)
    ensures Inv(Run(s, ops))
    decreases |ops|
  {
    hide Inv, Apply;
    InvShape(s);
    if ops != [] {
      ApplyKeepsInv(s, ops[0]);
      RunKeepsInv(Apply(s, ops[0]), ops[1..]);
    }
  }

  lemma InvShape(s: Plic)
    requires Inv(s)
    ensures Shape(s)
  {
  }

  lemma ResetInv(numIds: nat)
    requires 1 <= numIds <= MAX_IDS
    ensures Inv(Reset(numIds))
  {
    forall k: nat ensures !Bit(0, k) {
      BitOfZero(k);
    }
    assert forall id :: 0 <= id < MAX_IDS ==> !Has(NoWords(), id);
  }

  // ----- Word form of the tracking of context 0 ------------------------------

  // In context 0 each pending word is the enable word and the level word.
  lemma PendingIsEnableAndLevel(s: Plic, w: nat)
    requires Inv(s) && w < WORDS
    ensures s.ctxs[0].pending[w] == And(s.ctxs[0].enable[w], s.level[w])
  {
    hide CtxInv, And, Bit, Pow2;
    var p, e, l := s.ctxs[0].pending, s.ctxs[0].enable, s.level;
    forall k: nat ensures Bit(p[w], k) == Bit(And(e[w], l[w]), k) {
      BitOfAnd(e[w], l[w], k);
      if k < 32 {
        assert Has(p, 32 * w + k) == (Has(e, 32 * w + k) && Has(l, 32 * w + k));
        HasIsBit(p, w, k);
        HasIsBit(e, w, k);
        HasIsBit(l, w, k);
      } else {
        Pow2Values();
        HighBitsClear(p[w], 32, k);
        HighBitsClear(e[w], 32, k);
      }
    }
    SameBits(p[w], And(e[w], l[w]));
  }

  // ----- The second context --------------------------------------------------

  // A level change reaches the first enabling context only, so the pending bits
  // of context 1 keep tracking its enabled sources exactly when the source that
  // moves is not enabled by both contexts.
  lemma SecondContextTracks(s: Plic, id: nat, lvl: bool)
    requires Inv(s) && 0 < id < s.numIds && Tracks(s.ctxs[1], s.level)
    ensures var s' := SetLevel(s, id, lvl);
      Tracks(s'.ctxs[1], s'.level) <==>
      !(Has(s.ctxs[0].enable, id) && Has(s.ctxs[1].enable, id) && Has(s.level, id) != lvl)
  {
    hide Has, Put, Drop, Best, CtxInv;
    var s', k := SetLevel(s, id, lvl), Taker(s.ctxs, id, 0);
    TakerEnables(s.ctxs, id, 0);
    if k == 0 && Has(s.ctxs[1].enable, id) {
      assert s'.ctxs[1] == s.ctxs[1];
      forall j | 0 <= j < MAX_IDS ensures Has(s'.level, j) == (if j == id then lvl else Has(s.level, j)) {
        HasPut(s.level, id, j);
        HasDrop(s.level, id, j);
      }
      assert Has(s.ctxs[1].pending, id) == Has(s.level, id);
    } else {
      LevelTracks(s, id, lvl, 1);
    }
  }

  // The operation moves no source that both contexts enable.
  predicate NotShared(s: Plic, op: Op)
    requires Shape(s)
  {
    op.Level? && 0 < op.id < s.numIds && Has(s.level, op.id) != op.lvl ==>
      !(Has(s.ctxs[0].enable, op.id) && Has(s.ctxs[1].enable, op.id))
  }

  predicate NeverShared(s: Plic, ops: seq<Op>)
    requires Shape(s)
    decreases |ops|
  {
    ops == [] || (NotShared(s, ops[0]) && NeverShared(Apply(s, ops[0]), ops[1..]))
  }

  lemma SecondContextStep(s: Plic, op: Op)
    requires Inv(s) && Tracks(s.ctxs[1], s.level) && NotShared(s, op)
    ensures var s' := Apply(s, op); Tracks(s'.ctxs[1], s'.level)
  {
    hide Has, EnableWrite, SetLevel, Best, Tracks, CtxInv;
    var s' := Apply(s, op);
    match op
    case Level(id, lvl) => if 0 < id < s.numIds { SecondContextTracks(s, id, lvl); } else { LevelOfNone(s, id, lvl); }
    case WriteEnable(k, w, val) => if k == 1 { EnableWriteKeeps(s, s.ctxs[1], w, val); }
    case _ => SameTracking(s.ctxs[1], s'.ctxs[1], s.level);
  }

  lemma LevelOfNone(s: Plic, id: nat, lvl: bool)
    requires Shape(s) && !(0 < id < s.numIds)
    ensures SetLevel(s, id, lvl) == s
  {
  }

  lemma {:induction false} SecondContextRun(s: Plic, ops: seq<Op>)
    requires Inv(s) && Tracks(s.ctxs[1], s.level) && NeverShared(s, ops)
    ensures var r := Run(s, ops); Tracks(r.ctxs[1], r.level)
    decreases |ops|
  {
    hide Inv, Apply, Tracks, NotShared;
    InvShape(s);
    if ops != [] {
      ApplyKeepsInv(s, ops[0]);
      SecondContextStep(s, ops[0]);
      SecondContextRun(Apply(s, ops[0]), ops[1..]);
    }
  }

  // ----- Claim and completion -------------------------------------------------

  function ReadySet(c: Ctx, numIds: nat): set<nat>
    requires numIds <= MAX_IDS
  {
    set id | 0 < id < numIds && Ready(c, numIds, id)
  }

  // A claim takes the best source out of the ready set and changes nothing else.
  lemma ClaimTakesBest(c: Ctx, numIds: nat)
    requires numIds <= MAX_IDS
    ensures var c' := Claimed(c, numIds);
      && ReadySet(c', numIds) == ReadySet(c, numIds) - {Best(c, numIds)}
      && c'.prio == c.prio && c'.pending == c.pending && c'.enable == c.enable && c'.threshold == c.threshold
      && (c'.line <==> ReadySet(c', numIds) != {})
  {
    hide Has, Put, Best;
    var b, c' := Best(c, numIds), Claimed(c, numIds);
    BestIsTop(c, numIds);
    BestIsTop(c', numIds);
    forall id | 0 < id < numIds ensures Ready(c', numIds, id) == (Ready(c, numIds, id) && id != b) {
      if b != 0 {
        HasPut(c.claimed, b, id);
      }
    }
    var c1 := if b == 0 then c else c.(claimed := Put(c.claimed, b));
    SameBest(c1, c', numIds);
    assert c'.line == (Best(c', numIds) != 0);
    if Best(c', numIds) != 0 {
      assert Best(c', numIds) in ReadySet(c', numIds);
    }
  }

  // The line itself does not affect the choice.
  lemma SameBest(c: Ctx, c': Ctx, numIds: nat)
    requires numIds <= MAX_IDS && c' == c.(line := c'.line)
    ensures Best(c', numIds) == Best(c, numIds)
  {
    SameScan(c, c', numIds);
  }

  lemma {:induction false} SameScan(c: Ctx, c': Ctx, n: nat)
    requires n <= MAX_IDS && c' == c.(line := c'.line)
    ensures Scan(c', n) == Scan(c, n)
  {
    if n > 0 {
      SameScan(c, c', n - 1);
    }
  }

  // The results of k claims in a row, and the context after them.
  function Drained(c: Ctx, numIds: nat, k: nat): (Ctx, seq<nat>)
    requires numIds <= MAX_IDS
    decreases k
  {
    if k == 0 then (c, [])
    else
      var rest := Drained(Claimed(c, numIds), numIds, k - 1);
      (rest.0, [Best(c, numIds)] + rest.1)
  }

  // DRAIN: claims with nothing between them return every ready source once, in
  // order of latched priority and then id; the line drops with the last one,
  // and the next claim returns 0.
  lemma {:induction false} DrainInOrder(c: Ctx, numIds: nat)
    requires numIds <= MAX_IDS
    ensures var n := |ReadySet(c, numIds)|; var d := Drained(c, numIds, n);
      && |d.1| == n
      && (forall id :: id in ReadySet(c, numIds) <==> id in d.1)
      && (forall i :: 0 <= i < n ==> 0 < d.1[i] < numIds)
      && (forall i, j :: 0 <= i < j < n ==> Before(c, d.1[i], d.1[j]))
      && ReadySet(d.0, numIds) == {} && Best(d.0, numIds) == 0
      && (n > 0 ==> !d.0.line)
    decreases |ReadySet(c, numIds)|
  {
    hide Best, Claimed, Ready, Before;
    var r := ReadySet(c, numIds);
    if r != {} {
      var b, c' := Best(c, numIds), Claimed(c, numIds);
      BestLeads(c, numIds);
      ClaimTakesBest(c, numIds);
      DrainInOrder(c', numIds);
      var d' := Drained(c', numIds, |r| - 1);
      assert Drained(c, numIds, |r|) == (d'.0, [b] + d'.1);
      SameOrder(c, c');
      Prepend(c, b, d'.1, r);
    } else {
      NothingReady(c, numIds);
    }
  }

  lemma BestLeads(c: Ctx, numIds: nat)
    requires numIds <= MAX_IDS && ReadySet(c, numIds) != {}
    ensures Best(c, numIds) in ReadySet(c, numIds)
    ensures forall id :: id in ReadySet(c, numIds) - {Best(c, numIds)} ==> Before(c, Best(c, numIds), id)
  {
    hide Best, Ready;
    BestIsTop(c, numIds);
    var id :| id in ReadySet(c, numIds);
    assert Ready(c, numIds, id);
  }

  lemma SameOrder(c: Ctx, c': Ctx)
    requires c'.prio == c.prio
    ensures forall x: nat, y: nat | x < MAX_IDS && y < MAX_IDS :: Before(c', x, y) <==> Before(c, x, y)
  {
  }

  // An enumeration in order, with a first element that comes before all of it.
  lemma Prepend(c: Ctx, b: nat, ids: seq<nat>, r: set<nat>)
    requires b in r && b < MAX_IDS && forall i :: 0 <= i < |ids| ==> ids[i] < MAX_IDS
    requires forall id :: id in r - {b} <==> id in ids
    requires forall id :: id in r - {b} ==> id < MAX_IDS && Before(c, b, id)
    requires forall i, j :: 0 <= i < j < |ids| ==> Before(c, ids[i], ids[j])
    ensures forall id :: id in r <==> id in [b] + ids
    ensures var all := [b] + ids;
      && (forall i :: 0 <= i < |all| ==> all[i] < MAX_IDS)
      && (forall i, j :: 0 <= i < j < |all| ==> Before(c, all[i], all[j]))
  {
    hide Before;
    var all := [b] + ids;
    forall i, j | 0 <= i < j < |all| ensures Before(c, all[i], all[j]) {
      assert all[j] == ids[j - 1];
      if i == 0 {
        assert ids[j - 1] in ids;
      } else {
        assert all[i] == ids[i - 1];
      }
    }
  }

  lemma NothingReady(c: Ctx, numIds: nat)
    requires numIds <= MAX_IDS && ReadySet(c, numIds) == {}
    ensures Best(c, numIds) == 0
  {
    hide Ready, Best;
    BestIsTop(c, numIds);
    assert Best(c, numIds) !in ReadySet(c, numIds);
  }

  // Completing the source just claimed undoes the claim.
  lemma CompleteUndoesClaim(c: Ctx, numIds: nat)
    requires numIds <= MAX_IDS && CtxInv(c, numIds) && Best(c, numIds) != 0
    ensures Completed(Claimed(c, numIds), numIds, Best(c, numIds)) == c
  {
    hide Has, Put, Drop, Best;
    var b, c' := Best(c, numIds), Claimed(c, numIds);
    BestIsTop(c, numIds);
    assert IdInv(c, numIds, b);
    var claimed := Drop(Put(c.claimed, b), b);
    forall id | 0 <= id < MAX_IDS ensures Has(claimed, id) == Has(c.claimed, id) {
      HasPut(c.claimed, b, id);
      HasDrop(Put(c.claimed, b), b, id);
    }
    SameIds(claimed, c.claimed);
    var c2 := c'.(claimed := claimed);
    SameBest(c, c2, numIds);
    LineIsBest(c, numIds);
  }

  lemma LineIsBest(c: Ctx, numIds: nat)
    requires numIds <= MAX_IDS && CtxInv(c, numIds)
    ensures c.line == (Best(c, numIds) != 0)
  {
    hide Ready, Best;
    BestIsTop(c, numIds);
  }

  // The operations that may take a source out of a context's claimed set: its
  // completion, its line dropping, and a write of its enable word.
  predicate Releases(op: Op, k: nat, id: nat) {
    match op
    case Complete(j, i) => j == k && i == id
    case Level(i, lvl) => i == id && !lvl
    case WriteEnable(j, w, _) => j == k && w == id / 32
    case _ => false
  }

  lemma ClaimedStays(s: Plic, op: Op, k: nat, id: nat)
    requires Shape(s) && k < 2 && id < MAX_IDS && Has(s.ctxs[k].claimed, id) && !Releases(op, k, id)
    ensures Has(Apply(s, op).ctxs[k].claimed, id)
  {
    hide Has, Put, Drop, Best, Taker, Toggled;
    match op
    case Level(i, lvl) => if i < MAX_IDS { HasDrop(s.ctxs[k].claimed, i, id); }
    case Claim(j) => HasPut(s.ctxs[k].claimed, Best(s.ctxs[k], s.numIds), id);
    case Complete(j, i) => if i < MAX_IDS { HasDrop(s.ctxs[k].claimed, i, id); }
    case WriteEnable(j, w, val) =>
      if j == k && w < NumWords(s.numIds) {
        var c := s.ctxs[k];
        var new_ := EnableWord(w, val);
        ToggledSource(s, c.(enable := c.enable[w := new_]), w, c.enable[w], new_, 32, id);
      }
    case _ =>
  }

  // EXCLUSION: a source that a context claimed is not returned to it again
  // before one of the releasing operations.
  lemma {:induction false} NoSecondClaim(s: Plic, ops: seq<Op>, k: nat, id: nat)
    requires Inv(s) && k < 2 && 0 < id < MAX_IDS && Has(s.ctxs[k].claimed, id)
    requires forall i :: 0 <= i < |ops| ==> !Releases(ops[i], k, id)
    ensures Best(Run(s, ops).ctxs[k], s.numIds) != id
    decreases |ops|
  {
    hide Inv, Apply, Has, Best, Ready, Releases;
    InvShape(s);
    if ops == [] {
      BestIsTop(s.ctxs[k], s.numIds);
      ReadyNotClaimed(s.ctxs[k], s.numIds, id);
    } else {
      ClaimedStays(s, ops[0], k, id);
      ApplyKeepsInv(s, ops[0]);
      forall i | 0 <= i < |ops| - 1 ensures !Releases(ops[1..][i], k, id) {
        assert ops[1..][i] == ops[i + 1];
      }
      NoSecondClaim(Apply(s, ops[0]), ops[1..], k, id);
    }
  }

  lemma ReadyNotClaimed(c: Ctx, numIds: nat, id: nat)
    requires numIds <= MAX_IDS && id < MAX_IDS && Has(c.claimed, id)
    ensures !Ready(c, numIds, id)
  {
  }

  // A run in which context 1 misses an asserted, enabled source: both contexts
  // enable source 1, and the level change stops at context 0.
  lemma SharedSourceIsMissed()
    ensures var s := Run(Reset(32), [WriteEnable(0, 0, 2), WriteEnable(1, 0, 2), Level(1, true)]);
      Inv(s) && !Tracks(s.ctxs[1], s.level)
  {
    hide Has, Inv, EnableWrite, SetLevel, Tracks, Reset;
    var a, b, c := WriteEnable(0, 0, 2), WriteEnable(1, 0, 2), Level(1, true);
    var s0 := Reset(32);
    ResetInv(32);
    ResetTracks(32);
    InvShape(s0);
    var s1 := Apply(s0, a);
    ApplyKeepsInv(s0, a);
    var s2 := Apply(s1, b);
    ApplyKeepsInv(s1, b);
    ApplyKeepsInv(s2, c);
    SecondContextStep(s0, a);
    SecondContextStep(s1, b);
    EnablesSourceOne(s0, s0.ctxs[0]);
    EnablesSourceOne(s1, s1.ctxs[1]);
    SecondContextTracks(s2, 1, true);
    assert [a, b, c][1..] == [b, c] && [b, c][1..] == [c] && [c][1..] == [];
    assert Run(s2, [c]) == Apply(s2, c);
    assert Run(s1, [b, c]) == Run(s2, [c]);
    assert Run(s0, [a, b, c]) == Run(s1, [b, c]);
  }

  lemma ResetTracks(numIds: nat)
    requires 1 <= numIds <= MAX_IDS
    ensures Tracks(Reset(numIds).ctxs[1], Reset(numIds).level) && !Has(Reset(numIds).level, 1)
    ensures Reset(numIds).numIds == numIds
  {
    forall k: nat ensures !Bit(0, k) {
      BitOfZero(k);
    }
  }

  lemma EnablesSourceOne(s: Plic, c: Ctx)
    requires Shape(s) && NumWords(s.numIds) > 0
    ensures Has(EnableWrite(s, c, 0, 2).enable, 1)
  {
    hide Has, Best, Bit;
    var new_ := EnableWord(0, 2);
    EnabledAfterWrite(c, 0, 2, 1);
    BitOfClearBit(2, 0, 1);
    assert Bit(2, 1) by { TwoHasBitOne(); }
    ToggledSource(s, c.(enable := c.enable[0 := new_]), 0, c.enable[0], new_, 32, 1);
  }

  lemma TwoHasBitOne()
    ensures Bit(2, 1)
  {
  }
}
