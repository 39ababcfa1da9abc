/**
 The PLIC device: contexts with in-place word arrays, the nested search loop, and
 the register accesses, each proved to be its operation of PlicModel.
 */
module PlicUnit {
  import opened Bits
  import opened PlicModel
  import opened PlicLemmas

  class Context {
    const enable: array<U32>
    const pending: array<U32>
    const pendingPriority: array<Byte>
    const claimed: array<U32>
    var threshold: Byte
    var line: bool   // the level last driven on MEIP or SEIP

    constructor ()
      ensures Valid() && fresh(Arrays()) && View() == ResetCtx()
    {
      enable := new U32[WORDS](_ => 0);
      pending := new U32[WORDS](_ => 0);
      pendingPriority := new Byte[MAX_IDS](_ => 0);
      claimed := new U32[WORDS](_ => 0);
      threshold, line := 0, false;
      new;
      assert enable[..] == NoWords() && pending[..] == NoWords() && claimed[..] == NoWords();
      assert pendingPriority[..] == NoPrios();
    }

    ghost function Arrays(): set<object> {
      {enable as object, pending as object, pendingPriority as object, claimed as object}
    }

    ghost predicate Valid() {
      && enable.Length == WORDS && pending.Length == WORDS && claimed.Length == WORDS
      && pendingPriority.Length == MAX_IDS
      && enable != pending && enable != claimed && pending != claimed
    }

    ghost function View(): Ctx
      requires Valid()
      reads this, enable, pending, pendingPriority, claimed
    {
      Ctx(threshold, enable[..], pending[..], pendingPriority[..], claimed[..], line)
    }

    // Plic::context_best_pending
    method BestPending(numIds: nat) returns (best: nat)
      requires Valid() && 1 <= numIds <= MAX_IDS
      ensures best == Best(View(), numIds)
    {
      hide Bit, Scan, Has, Eligible;
      var bestPrio: Byte := 0;
      best := 0;
      ghost var c := View();
      var words := NumWords(numIds);
      ScanStart(c, numIds);
      for i := 0 to words
        invariant best == Scan(c, Clip(32 * i, numIds))
        invariant best < MAX_IDS && (best != 0 ==> bestPrio == c.prio[best])
      {
        if pending[i] == 0 {
          EmptyWord(c, i, numIds, 32);
          continue;
        }
        for j := 0 to 32
          invariant best == Scan(c, Clip(32 * i + j, numIds))
          invariant best < MAX_IDS && (best != 0 ==> bestPrio == c.prio[best])
        {
          var id := 32 * i + j;
          ScanNext(c, i, j, numIds);
          if numIds <= id || !Bit(pending[i], j) || Bit(claimed[i], j) {
            continue;
          }
          if best == 0 || bestPrio < pendingPriority[id] {
            best := id;
            bestPrio := pendingPriority[id];
          }
        }
      }
      ScanEnd(c, numIds);
      if best == 0 || bestPrio <= threshold {
        return 0;
      }
    }

    // Plic::context_update
    method Update(numIds: nat)
      requires Valid() && 1 <= numIds <= MAX_IDS
      modifies this`line
      ensures View() == Updated(old(View()), numIds)
    {
      var best := BestPending(numIds);
      line := best != 0;
    }

    // Plic::context_claim
    method ClaimBest(numIds: nat) returns (best: nat)
      requires Valid() && 1 <= numIds <= MAX_IDS
      modifies this`line, claimed
      ensures best == Best(old(View()), numIds)
      ensures View() == Claimed(old(View()), numIds)
    {
      best := BestPending(numIds);
      if best != 0 {
        SetBitU32(claimed[best / 32], best % 32);
        claimed[best / 32] := SetBit(claimed[best / 32], best % 32);
      }
      Update(numIds);
    }

    // The enable write, given the PLIC's level and priority arrays.
    method WriteEnableWord(w: nat, val: U32, level: array<U32>, priority: array<Byte>, numIds: nat,
                           ghost s: PlicModel.Plic)
      requires Valid() && Shape(s) && numIds == s.numIds && level[..] == s.level && priority[..] == s.priority
      requires (level as object) !in Arrays() && (priority as object) !in Arrays()
      modifies this, Arrays()
      ensures View() == EnableWrite(s, old(View()), w, val)
    {
      hide Bit, EnableWord, ToggleOne, Updated;
      if w >= NumWords(numIds) {
        return;
      }
      var was: U32 := enable[w];
      var now := EnableWord(w, val);
      enable[w] := now;
      ghost var c1 := View();
      for i := 0 to 32
        invariant View() == Toggled(s, c1, w, was, now, i)
        invariant level[..] == s.level && priority[..] == s.priority
      {
        ToggleBit(w, was, now, i, level, priority, s);
      }
      Update(numIds);
    }

    // The body of the loop over the bits of an enable word.
    method ToggleBit(w: nat, was: U32, now: U32, i: nat, level: array<U32>, priority: array<Byte>,
                     ghost s: PlicModel.Plic)
      requires Valid() && w < WORDS && i < 32 && level[..] == s.level && priority[..] == s.priority
      requires (level as object) !in Arrays() && (priority as object) !in Arrays()
      modifies Arrays()
      ensures View() == ToggleOne(s, old(View()), w, was, now, i)
    {
      hide Bit, SetBit, ClearBit;
      var id := 32 * w + i;
      var prio := priority[id];
      if Bit(was, i) == Bit(now, i) {
        return;
      }
      assert id / 32 == w && id % 32 == i;
      if Bit(now, i) && Bit(level[w], i) {
        SetBitU32(pending[w], i);
        pending[w] := SetBit(pending[w], i);
        pendingPriority[id] := prio;
      } else if !Bit(now, i) {
        ClearBitBound(pending[w], i);
        ClearBitBound(claimed[w], i);
        pending[w] := ClearBit(pending[w], i);
        pendingPriority[id] := 0;
        claimed[w] := ClearBit(claimed[w], i);
      }
    }

    // The level of a source enabled here moved.
    method Release(id: nat)
      requires Valid() && id < MAX_IDS
      modifies claimed
      ensures View() == old(View()).(claimed := Drop(old(claimed[..]), id))
    {
      ClearBitBound(claimed[id / 32], id % 32);
      claimed[id / 32] := ClearBit(claimed[id / 32], id % 32);
    }

    method TakeLevel(id: nat, lvl: bool, prio: Byte, numIds: nat)
      requires Valid() && 0 < id < numIds <= MAX_IDS
      modifies this`line, pending, pendingPriority, claimed
      ensures View() == Updated(if lvl then Raised(old(View()), id, prio) else Lowered(old(View()), id), numIds)
    {
      var w, k := id / 32, id % 32;
      if lvl {
        SetBitU32(pending[w], k);
        pending[w] := SetBit(pending[w], k);
        pendingPriority[id] := prio;
      } else {
        ClearBitBound(pending[w], k);
        ClearBitBound(claimed[w], k);
        pending[w] := ClearBit(pending[w], k);
        pendingPriority[id] := 0;
        claimed[w] := ClearBit(claimed[w], k);
      }
      Update(numIds);
    }
  }

  class Plic {
    const numIds: nat
    const contexts: seq<Context>
    const priority: array<Byte>
    const level: array<U32>

    ghost predicate Valid()
    {
      && 1 <= numIds <= MAX_IDS && |contexts| == 2
      && contexts[0].Valid() && contexts[1].Valid() && contexts[0] != contexts[1]
      && contexts[0].Arrays() !! contexts[1].Arrays()
      && priority.Length == MAX_IDS && level.Length == WORDS
      && forall k :: 0 <= k < 2 ==>
           (priority as object) !in contexts[k].Arrays() && (level as object) !in contexts[k].Arrays()
    }

    ghost function Repr(): set<object>
      requires Valid()
    {
      contexts[0].Arrays() + contexts[1].Arrays() + {contexts[0], contexts[1]} + {priority as object, level}
    }

    ghost function State(): PlicModel.Plic
      requires Valid()
      reads Repr()
    {
      PlicModel.Plic(numIds, level[..], priority[..], [contexts[0].View(), contexts[1].View()])
    }

    // ndev sources, numbered from 1
    constructor (ndev: nat)
      requires ndev < MAX_IDS
      ensures Valid() && fresh(Repr())
      ensures State() == Reset(ndev + 1)
    {
      numIds := ndev + 1;
      var m := new Context();
      var s := new Context();
      contexts := [m, s];
      priority := new Byte[MAX_IDS](_ => 0);
      level := new U32[WORDS](_ => 0);
      new;
      assert priority[..] == NoPrios() && level[..] == NoWords();
    }

    // Plic::set_interrupt_level
    method MoveLevel(id: nat, lvl: bool)
      requires Valid() && id < numIds
      modifies level
      ensures State() == old(State()).(level := if lvl then Put(old(level[..]), id) else Drop(old(level[..]), id))
    {
      var w, k := id / 32, id % 32;
      if lvl {
        SetBitU32(level[w], k);
        level[w] := SetBit(level[w], k);
      } else {
        ClearBitBound(level[w], k);
        level[w] := ClearBit(level[w], k);
      }
    }

    method SetInterruptLevel(id: nat, lvl: bool)
      requires Valid()
      modifies Repr()
      ensures State() == SetLevel(old(State()), id, lvl)
    {
      hide Updated, Raised, Lowered, Put, Drop, Bit;
      if id == 0 || numIds <= id {
        return;
      }
      var prio, w, k := priority[id], id / 32, id % 32;
      MoveLevel(id, lvl);
      ghost var s1 := State();
      for i := 0 to 2
        invariant State() == s1
        invariant Taker(s1.ctxs, id, 0) == Taker(s1.ctxs, id, i)
      {
        assert Has(s1.ctxs[i].enable, id) == Bit(contexts[i].enable[w], k);
        if Bit(contexts[i].enable[w], k) {
          contexts[i].TakeLevel(id, lvl, prio, numIds);
          break;
        }
      }
    }

    // Plic::priority_write of register `id`
    method PriorityWrite(id: nat, val: U32)
      requires Valid()
      modifies priority
      ensures State() == Apply(old(State()), WritePriority(id, val))
    {
      if 0 < id < numIds {
        priority[id] := val % 16;
      }
    }

    // Plic::context_enable_write of word w
    method EnableWordWrite(ctx: nat, w: nat, val: U32)
      requires Valid() && ctx < 2
      modifies contexts[ctx], contexts[ctx].Arrays()
      ensures State() == Apply(old(State()), WriteEnable(ctx, w, val))
    {
      hide EnableWrite;
      contexts[ctx].WriteEnableWord(w, val, level, priority, numIds, State());
    }

    // A read of the claim register.
    method ClaimRead(ctx: nat) returns (id: nat)
      requires Valid() && ctx < 2
      modifies contexts[ctx], contexts[ctx].Arrays()
      ensures State() == Apply(old(State()), Claim(ctx))
      ensures id == Best(old(State().ctxs[ctx]), numIds)
    {
      id := contexts[ctx].ClaimBest(numIds);
    }

    // Plic::context_write; max_prio_ is 15, so a masked threshold is never refused.
    method ContextWrite(ctx: nat, offset: nat, val: U32) returns (ok: bool)
      requires Valid() && ctx < 2
      modifies contexts[ctx], contexts[ctx].Arrays()
      ensures ok == (offset == 0 || offset == 4)
      ensures State() ==
        if offset == 0 then Apply(old(State()), WriteThreshold(ctx, val))
        else if offset == 4 then Apply(old(State()), Complete(ctx, val))
        else old(State())
    {
      hide Bit, Drop, Updated;
      var update := false;
      ok := true;
      var c := contexts[ctx];
      if offset == CONTEXT_THRESHOLD {
        var v := val % 16;
        if v <= MAX_PRIO {
          c.threshold := v;
          update := true;
        } else {
          ok := false;
        }
      } else if offset == CONTEXT_CLAIM {
        if val < numIds && Bit(c.enable[val / 32], val % 32) {
          c.Release(val);
          update := true;
        }
      } else {
        ok := false;
      }
      if update {
        c.Update(numIds);
      }
    }
  }

  const CONTEXT_THRESHOLD: nat := 0
  const CONTEXT_CLAIM: nat := 4
  const MAX_PRIO: nat := 15

  lemma ScanStart(c: Ctx, numIds: nat)
    ensures Scan(c, Clip(0, numIds)) == 0
  {
  }

  lemma ScanEnd(c: Ctx, numIds: nat)
    ensures Clip(32 * NumWords(numIds), numIds) == numIds
  {
  }

  // One step of the inner loop.
  lemma ScanNext(c: Ctx, i: nat, j: nat, numIds: nat)
    requires i < WORDS && j < 32 && numIds <= MAX_IDS
    ensures var id := 32 * i + j; var b := Scan(c, Clip(id, numIds));
      Scan(c, Clip(id + 1, numIds)) ==
      if numIds > id && Bit(c.pending[i], j) && !Bit(c.claimed[i], j) && (b == 0 || c.prio[b] < c.prio[id])
      then id else b
  {
    hide Has, Bit;
    HasIsBit(c.pending, i, j);
    HasIsBit(c.claimed, i, j);
  }

  function Clip(k: nat, numIds: nat): nat { if k <= numIds then k else numIds }

  // A word with no pending bit changes nothing in the scan.
  lemma {:induction false} EmptyWord(c: Ctx, i: nat, numIds: nat, n: nat)
    requires i < WORDS && numIds <= MAX_IDS && n <= 32 && c.pending[i] == 0
    ensures Scan(c, Clip(32 * i + n, numIds)) == Scan(c, Clip(32 * i, numIds))
  {
    if n > 0 {
      EmptyWord(c, i, numIds, n - 1);
      BitOfZero(n - 1);
      HasIsBit(c.pending, i, n - 1);
    }
  }
}
