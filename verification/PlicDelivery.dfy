/**
 Interrupt delivery through the PLIC, by number: which bits and latched
 priorities each operation leaves, when a context's line is up, which source a
 claim returns, and that a rising source gets through.
 */
module PlicDelivery {
  import opened Bits
  import opened PlicModel
  import opened PlicLemmas

  // Bit id of a word array
  predicate On(w: Words, id: nat)
    requires id < 1024
  {
    w[id / 32] / Pow2(id % 32) % 2 == 1
  }

  lemma HasIs(w: Words, id: nat)
    requires id < 1024
    ensures Has(w, id) <==> On(w, id)
  {
    BitIs(w[id / 32], id % 32);
  }

  // The context would interrupt for id: pending, not claimed, and its latched
  // priority above the threshold.
  predicate Waiting(c: Ctx, id: nat)
    requires id < 1024
  {
    On(c.pending, id) && !On(c.claimed, id) && c.prio[id] > c.threshold
  }

  lemma WaitingIs(c: Ctx, numIds: nat, id: nat)
    requires 0 < id < numIds <= 1024
    ensures Ready(c, numIds, id) <==> Waiting(c, id)
  {
    hide On, Has;
    HasIs(c.pending, id);
    HasIs(c.claimed, id);
  }

  ghost predicate LineUp(c: Ctx, numIds: nat)
    requires numIds <= 1024
  {
    exists id :: 0 < id < numIds && Waiting(c, id)
  }

  // CLAIM: the source with the greatest latched priority among those that wait,
  // the lowest number on ties, and 0 when none waits.
  lemma ClaimReturns(c: Ctx, numIds: nat)
    requires numIds <= 1024
    ensures var b := Best(c, numIds);
      && (b == 0 <==> !LineUp(c, numIds))
      && (b != 0 ==> 0 < b < numIds && Waiting(c, b))
      && forall id :: 0 < id < numIds && Waiting(c, id) && id != b ==>
           c.prio[id] < c.prio[b] || (c.prio[id] == c.prio[b] && b < id)
  {
    hide Best, Waiting, Ready;
    BestIsTop(c, numIds);
    forall id | 0 < id < numIds ensures Ready(c, numIds, id) <==> Waiting(c, id) {
      WaitingIs(c, numIds, id);
    }
  }

  lemma UpdatedIs(c: Ctx, numIds: nat)
    requires numIds <= 1024
    ensures Updated(c, numIds) == c.(line := Updated(c, numIds).line)
    ensures Updated(c, numIds).line <==> LineUp(Updated(c, numIds), numIds)
  {
    hide Best, LineUp;
    ClaimReturns(c, numIds);
    SameWaiting(c, Updated(c, numIds), numIds);
  }

  lemma SameWaiting(c: Ctx, c': Ctx, numIds: nat)
    requires numIds <= 1024 && c' == c.(line := c'.line)
    ensures LineUp(c', numIds) <==> LineUp(c, numIds)
  {
    assert forall id :: 0 < id < numIds ==> (Waiting(c', id) <==> Waiting(c, id));
  }

  // The context that takes a level change of id: 0 if it enables id, else 1.
  predicate Takes(s: Plic, id: nat, k: nat)
    requires |s.ctxs| == 2 && id < 1024 && k < 2
  {
    On(s.ctxs[k].enable, id) && (k == 0 || !On(s.ctxs[0].enable, id))
  }

  lemma TakerIs(s: Plic, id: nat, k: nat)
    requires Shape(s) && id < 1024 && k < 2
    ensures Takes(s, id, k) <==> Taker(s.ctxs, id, 0) == k
  {
    hide On, Has;
    HasIs(s.ctxs[0].enable, id);
    HasIs(s.ctxs[1].enable, id);
    TakerEnables(s.ctxs, id, 0);
  }

  // Source j of a context before and after, but for a change of id alone
  predicate SameSource(c: Ctx, c': Ctx, j: nat)
    requires j < 1024
  {
    (On(c'.pending, j) <==> On(c.pending, j)) && (On(c'.claimed, j) <==> On(c.claimed, j)) && c'.prio[j] == c.prio[j]
  }

  // LEVEL: a rising source becomes pending in the taking context, with the value
  // of its priority register latched; a falling one is cleared there. The line
  // follows. Nothing else changes.
  lemma LevelGives(s: Plic, id: nat, lvl: bool, k: nat, j: nat)
    requires Shape(s) && 0 < id < s.numIds && k < 2 && j < 1024
    ensures var s' := Apply(s, Level(id, lvl));
      var c, c' := s.ctxs[k], s'.ctxs[k];
      && s'.numIds == s.numIds && s'.priority == s.priority
      && (On(s'.level, j) <==> if j == id then lvl else On(s.level, j))
      && c'.enable == c.enable && c'.threshold == c.threshold
      && (!Takes(s, id, k) ==> c' == c)
      && (Takes(s, id, k) ==>
           && (On(c'.pending, id) <==> lvl) && c'.prio[id] == (if lvl then s.priority[id] else 0)
           && (On(c'.claimed, id) <==> lvl && On(c.claimed, id))
           && (j != id ==> SameSource(c, c', j))
           && (c'.line <==> LineUp(c', s.numIds)))
  {
    hide On, Has, Put, Drop, Updated, Takes, LineUp, Taker;
    var c := s.ctxs[k];
    TakerIs(s, id, k);
    LevelBit(s.level, id, j);
    if Takes(s, id, k) {
      var c1 := if lvl then Raised(c, id, s.priority[id]) else Lowered(c, id);
      UpdatedIs(c1, s.numIds);
      LevelBit(c.pending, id, j);
      LevelBit(c.pending, id, id);
      LevelBit(c.claimed, id, j);
      LevelBit(c.claimed, id, id);
    }
  }

  lemma LevelBit(w: Words, id: nat, j: nat)
    requires id < 1024 && j < 1024
    ensures On(Put(w, id), j) <==> j == id || On(w, j)
    ensures On(Drop(w, id), j) <==> j != id && On(w, j)
  {
    hide On, Has, Put, Drop;
    HasIs(w, j);
    HasIs(Put(w, id), j);
    HasIs(Drop(w, id), j);
    HasPut(w, id, j);
    HasDrop(w, id, j);
  }

  // DELIVERY: in every reachable state, when a device raises a source that the
  // taking context has not claimed and whose priority register exceeds the
  // threshold, the line goes up, and the next claim returns that source or one
  // ahead of it.
  lemma RaisedSourceIsDelivered(s: Plic, id: nat, k: nat)
    requires Inv(s) && 0 < id < s.numIds && k < 2 && Takes(s, id, k)
    requires !On(s.ctxs[k].claimed, id) && s.priority[id] > s.ctxs[k].threshold
    ensures var s' := Apply(s, Level(id, true));
      var c' := s'.ctxs[k];
      var b := Best(c', s.numIds);
      && c'.line && 0 < b < s.numIds && Waiting(c', b)
      && (b == id || c'.prio[b] > s.priority[id] || (c'.prio[b] == s.priority[id] && b < id))
  {
    hide On, Inv, Takes, Best, Put, Drop, Updated, Taker;
    InvShape(s);
    LevelGives(s, id, true, k, id);
    var c' := Apply(s, Level(id, true)).ctxs[k];
    assert Waiting(c', id);
    ClaimReturns(c', s.numIds);
  }

  // A claim marks the source it returns, and nothing else of it.
  lemma ClaimGives(s: Plic, k: nat, j: nat)
    requires Shape(s) && k < 2 && j < 1024
    ensures var s' := Apply(s, Claim(k));
      var c, c', b := s.ctxs[k], s'.ctxs[k], Best(s.ctxs[k], s.numIds);
      && s' == s.(ctxs := s'.ctxs) && s'.ctxs[1 - k] == s.ctxs[1 - k]
      && c' == c.(claimed := c'.claimed, line := c'.line)
      && (On(c'.claimed, j) <==> On(c.claimed, j) || (b != 0 && j == b))
      && (c'.line <==> LineUp(c', s.numIds))
  {
    hide On, Has, Put, Updated, LineUp, Best;
    var c, b := s.ctxs[k], Best(s.ctxs[k], s.numIds);
    UpdatedIs(if b == 0 then c else c.(claimed := Put(c.claimed, b)), s.numIds);
    LevelBit(c.claimed, b, j);
  }

  // A completion releases its source, if the context enables it.
  lemma CompleteGives(s: Plic, k: nat, id: nat, j: nat)
    requires Shape(s) && k < 2 && j < 1024
    ensures var s' := Apply(s, Complete(k, id));
      var c, c' := s.ctxs[k], s'.ctxs[k];
      && s' == s.(ctxs := s'.ctxs) && s'.ctxs[1 - k] == s.ctxs[1 - k]
      && if id < s.numIds && On(c.enable, id) then
           && c' == c.(claimed := c'.claimed, line := c'.line)
           && (On(c'.claimed, j) <==> j != id && On(c.claimed, j))
           && (c'.line <==> LineUp(c', s.numIds))
         else c' == c
  {
    hide On, Has, Drop, Updated, LineUp;
    var c := s.ctxs[k];
    if id < s.numIds {
      HasIs(c.enable, id);
      UpdatedIs(c.(claimed := Drop(c.claimed, id)), s.numIds);
      LevelBit(c.claimed, id, j);
    }
  }

  // Priorities and thresholds have four bits. A priority write reaches no source
  // that is already pending; a threshold write moves the line at once.
  lemma RegistersGive(s: Plic, id: nat, k: nat, val: U32)
    requires Shape(s) && k < 2
    ensures Apply(s, WritePriority(id, val)) ==
      if 0 < id < s.numIds then s.(priority := s.priority[id := val % 16]) else s
    ensures var s' := Apply(s, WriteThreshold(k, val));
      && s' == s.(ctxs := s'.ctxs) && s'.ctxs[1 - k] == s.ctxs[1 - k]
      && s'.ctxs[k] == s.ctxs[k].(threshold := val % 16, line := s'.ctxs[k].line)
      && (s'.ctxs[k].line <==> LineUp(s'.ctxs[k], s.numIds))
  {
    hide Updated, LineUp;
    UpdatedIs(s.ctxs[k].(threshold := val % 16), s.numIds);
  }

  // ENABLE: writing word w sets the enable bits of sources 32w to 32w + 31, never
  // that of source 0. A source newly enabled while its line is high becomes
  // pending with its priority register latched; one newly disabled is cleared.
  lemma EnableGives(s: Plic, k: nat, w: nat, val: U32, j: nat)
    requires Shape(s) && k < 2 && w < (s.numIds + 31) / 32 && j < 1024
    ensures var s' := Apply(s, WriteEnable(k, w, val));
      var c, c' := s.ctxs[k], s'.ctxs[k];
      var was, now := On(c.enable, j), On(c'.enable, j);
      && s' == s.(ctxs := s'.ctxs) && s'.ctxs[1 - k] == s.ctxs[1 - k] && c'.threshold == c.threshold
      && (now <==> if j == 0 && w == 0 then false else if j / 32 == w then val / Pow2(j % 32) % 2 == 1 else was)
      && (was == now ==> SameSource(c, c', j))
      && (was && !now ==> !On(c'.pending, j) && !On(c'.claimed, j) && c'.prio[j] == 0)
      && (!was && now ==>
           && (On(c'.claimed, j) <==> On(c.claimed, j))
           && (On(c'.pending, j) <==> On(s.level, j) || On(c.pending, j))
           && c'.prio[j] == (if On(s.level, j) then s.priority[j] else c.prio[j]))
      && (c'.line <==> LineUp(c', s.numIds))
  {
    hide On, Has, Bit, Updated, LineUp, Toggled, EnableWord, Pow2;
    var c, new_ := s.ctxs[k], EnableWord(w, val);
    var c0 := c.(enable := c.enable[w := new_]);
    var c1 := Toggled(s, c0, w, c.enable[w], new_, 32);
    UpdatedIs(c1, s.numIds);
    ToggledSource(s, c0, w, c.enable[w], new_, 32, j);
    EnabledAfterWrite(c, w, val, j);
    HasIs(c.enable, j);
    HasIs(c0.enable, j);
    HasIs(c.pending, j);
    HasIs(c1.pending, j);
    HasIs(c.claimed, j);
    HasIs(c1.claimed, j);
    HasIs(s.level, j);
    if j / 32 == w {
      HasIsBit(c.enable, w, j % 32);
      WrittenBit(w, val, j);
    }
  }

  lemma WrittenBit(w: nat, val: U32, j: nat)
    requires j / 32 == w
    ensures Bit(EnableWord(w, val), j % 32) <==> j != 0 && val / Pow2(j % 32) % 2 == 1
  {
    hide Bit, Pow2, ClearBit;
    BitIs(val, j % 32);
    BitOfClearBit(val, 0, j % 32);
  }

  // At the start every bit is clear, every priority 0 and both lines are down.
  lemma ResetIs(numIds: nat, k: nat, j: nat)
    requires numIds <= 1024 && k < 2 && j < 1024
    ensures var s := Reset(numIds);
      && s.numIds == numIds && |s.ctxs| == 2 && s.priority[j] == 0 && !On(s.level, j)
      && var c := s.ctxs[k];
      !On(c.enable, j) && !On(c.pending, j) && !On(c.claimed, j) && c.prio[j] == 0 && c.threshold == 0 && !c.line
  {
    hide Pow2;
    ZeroDivided(Pow2(j % 32));
  }

  lemma ZeroDivided(d: nat)
    requires d > 0
    ensures 0 / d % 2 == 0
  {
  }
}
