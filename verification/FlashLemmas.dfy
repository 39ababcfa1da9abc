/** What a run of the flash's write-cycle machine does to the storage. */
module FlashLemmas {
  import opened Bits
  import opened Memory
  import opened FlashModel

  // ----- Which steps touch the storage ---------------------------------------------

  predicate Erases(f: Flash, a: Access) { f.wcycle == 0 && a.value % 0x100 in {0x20, 0x28} }

  predicate Programs(f: Flash) { f.wcycle == 1 && f.cmd in {0x10, 0x40} }

  predicate Commits(f: Flash, a: Access) {
    f.wcycle == 3 && a.value % 0x100 == 0xD0 && !Bit(f.status, ERROR)
  }

  // The byte at storage address p after one bus write of the data in a.
  function After(a: Access, p: nat, old_: Byte): Byte
  {
    if a.offset <= p < a.offset + a.size then ToBytes(a.value, a.size)[p - a.offset] else old_
  }

  // In every reachable state: an erase clears its sector at once, whatever the
  // next write confirms; a program changes the addressed bytes; a confirmed
  // block write installs the window; no other write changes a byte.
  lemma StorageEffect(f: Flash, a: Access, p: nat)
    requires Inv(f) && Fits(f, a) && p < |f.storage|
    ensures |Write(f, a).storage| == |f.storage|
    ensures Write(f, a).storage[p] ==
      if Erases(f, a) then if p / f.sectorLen == a.offset / f.sectorLen then 0xFF else f.storage[p]
      else if Programs(f) then After(a, p, f.storage[p])
      else if Commits(f, a) && f.blkOffset != NO_BLOCK && f.blkOffset <= p < f.blkOffset + BLOCK
        then f.blk[p - f.blkOffset]
      else f.storage[p]
  {
    hide SetStatus, BlockStart, ToBytes;
    if f.wcycle == 0 {
      SectorFits(f, a.offset);
      InSector(f.sectorLen, a.offset, p);
    }
    BlockFits(f, a.offset);
  }

  lemma InSector(s: nat, offset: nat, p: nat)
    requires s > 0
    ensures offset - offset % s <= p < offset - offset % s + s <==> p / s == offset / s
  {
    var q, r := offset / s, p / s;
    assert offset == q * s + offset % s && p == r * s + p % s;
    if r < q { MulGap(r, q, s); }
    if q < r { MulGap(q, r, s); }
  }

  // ----- The buffered block write ----------------------------------------------------

  // The byte at p after the data writes ws in order.
  function AfterAll(ws: seq<Access>, p: nat, old_: Byte): Byte
    decreases |ws|
  {
    if ws == [] then old_ else AfterAll(ws[1..], p, After(ws[0], p, old_))
  }

  predicate Inside(base: int, a: Access) { base <= a.offset && a.offset + a.size <= base + BLOCK }

  predicate AllInside(base: int, ws: seq<Access>) { forall a :: a in ws ==> Inside(base, a) }

  lemma SplitInside(base: int, ws: seq<Access>)
    requires ws != []
    ensures AllInside(base, ws) <==> Inside(base, ws[0]) && AllInside(base, ws[1..])
  {
    assert forall a :: a in ws <==> a == ws[0] || a in ws[1..];
  }

  // The data phase with a live window.
  predicate Staging(f: Flash) { Inv(f) && f.wcycle == 2 && f.blkOffset != NO_BLOCK }

  lemma StatusBits(x: Byte, bit: nat, k: nat)
    requires bit < 8 && k < 8
    ensures Bit(SetStatus(x, bit), k) == (k == bit || Bit(x, k))
  {
    BitOfSetBit(x, bit, k);
  }

  lemma StagedWrite(f: Flash, a: Access)
    requires Staging(f) && Fits(f, a)
    ensures var g := Write(f, a);
      && Inv(g) && g.storage == f.storage && g.blkOffset == f.blkOffset
      && g.wcycle == (if f.counter == 0 then 3 else 2)
      && g.counter == (if f.counter == 0 then 0 else f.counter - 1)
      && Bit(g.status, ERROR) == (Bit(f.status, ERROR) || !Inside(f.blkOffset, a))
    ensures Inside(f.blkOffset, a) ==> forall k :: 0 <= k < BLOCK ==>
      Write(f, a).blk[k] == After(a, f.blkOffset + k, f.blk[k])
    ensures !Inside(f.blkOffset, a) ==> Write(f, a).blk == f.blk
  {
    hide SetStatus, ToBytes;
    WriteKeepsInv(f, a);
    StatusBits(f.status, ERROR, ERROR);
    StatusBits(f.status, READY, ERROR);
    StatusBits(SetStatus(f.status, ERROR), READY, ERROR);
  }

  // The data phase from a live window: for up to counter + 1 writes nothing
  // reaches the storage, and the phase ends with exactly the last of them. The
  // error bit collects every write outside the window; while there is none the
  // buffer holds the old window with the writes laid over it in order.
  lemma {:induction false} DataPhase(f: Flash, ws: seq<Access>)
    requires Staging(f) && AllFit(f, ws) && |ws| <= f.counter + 1
    ensures var g := Run(f, ws);
      && g.storage == f.storage && g.blkOffset == f.blkOffset
      && g.wcycle == (if |ws| == f.counter + 1 then 3 else 2)
      && Bit(g.status, ERROR) == (Bit(f.status, ERROR) || !AllInside(f.blkOffset, ws))
    ensures AllInside(f.blkOffset, ws) ==> forall k :: 0 <= k < BLOCK ==>
      Run(f, ws).blk[k] == AfterAll(ws, f.blkOffset + k, f.blk[k])
    decreases |ws|
  {
    hide Write, Inside, After;
    if ws != [] {
      var g := Write(f, ws[0]);
      StagedWrite(f, ws[0]);
      SplitInside(f.blkOffset, ws);
      TailFits(f, g, ws);
      if f.counter == 0 {
        assert ws[1..] == [];
      } else {
        DataPhase(g, ws[1..]);
      }
    }
  }

  lemma {:induction false} RunAppend(f: Flash, us: seq<Access>, vs: seq<Access>)
    requires Inv(f) && AllFit(f, us) && AllFit(f, vs)
    ensures AllFit(f, us + vs) && AllFit(Run(f, us), vs)
    ensures Run(f, us + vs) == Run(Run(f, us), vs)
    decreases |us|
  {
    hide Write, Shape, Fits;
    assert AllFit(f, us + vs);
    FitsKept(f, Run(f, us), vs);
    if us == [] {
      assert us + vs == vs;
    } else {
      var g := Write(f, us[0]);
      WriteKeepsInv(f, us[0]);
      TailFits(f, g, us);
      FitsKept(f, g, vs);
      assert (us + vs)[1..] == us[1..] + vs;
      RunAppend(g, us[1..], vs);
    }
  }

  lemma FitsKept(f: Flash, g: Flash, ws: seq<Access>)
    requires AllFit(f, ws) && |g.storage| == |f.storage|
    ensures AllFit(g, ws)
  {
  }

  lemma OneStep(f: Flash, a: Access)
    requires Inv(f) && Fits(f, a)
    ensures Run(f, [a]) == Write(f, a)
  {
    hide Write, Shape;
    WriteKeepsInv(f, a);
    assert [a][1..] == [];
  }

  // Command and count of a block write.
  predicate Opens(e: Access, n: Access) { e.value % 0x100 == 0xE8 && n.value % 0x1_0000 >= 1 }

  function Count(n: Access): nat { n.value % 0x1_0000 }

  lemma Opening(f: Flash, e: Access, n: Access)
    requires Inv(f) && f.wcycle == 0 && AllFit(f, [e, n]) && e.value % 0x100 == 0xE8
    ensures var g := Run(f, [e, n]);
      && g.storage == f.storage && g.wcycle == 2 && g.counter == Count(n) && g.blkOffset == NO_BLOCK
      && Bit(g.status, ERROR) == Bit(f.status, ERROR)
  {
    assert e in [e, n] && n in [e, n];
    var h := Write(f, e);
    assert h.storage == f.storage && h.wcycle == 1 && h.cmd == 0xE8 && h.blkOffset == NO_BLOCK
      && Bit(h.status, ERROR) == Bit(f.status, ERROR) by {
      hide SetStatus;
      StatusBits(f.status, READY, ERROR);
    }
    WriteKeepsInv(f, e);
    assert [e, n][1..] == [n];
    hide Shape, Command, SetStatus;
    OneStep(h, n);
  }

  // The first data write of a nonzero count opens the window around its own
  // offset; it then counts like any other data write.
  lemma FirstData(f: Flash, a: Access)
    requires Inv(f) && f.wcycle == 2 && f.blkOffset == NO_BLOCK && f.counter >= 1 && Fits(f, a)
    ensures var g := StartBlock(f, a.offset);
      && Staging(g) && Fits(g, a) && Write(f, a) == Write(g, a)
  {
    hide SetStatus, ToBytes, DataWrite;
    BlockFits(f, a.offset);
  }

  // The byte a commit leaves at p.
  function Flushed(f: Flash, p: nat): Byte
    requires Shape(f) && p < |f.storage|
  {
    if f.blkOffset != NO_BLOCK && f.blkOffset <= p < f.blkOffset + BLOCK then f.blk[p - f.blkOffset] else f.storage[p]
  }

  lemma Confirming(f: Flash, a: Access)
    requires Inv(f) && f.wcycle == 3 && Fits(f, a)
    ensures var g := Write(f, a);
      && g.wcycle == 0 && g.blkOffset == NO_BLOCK
      && (Commits(f, a) ==> forall p :: 0 <= p < |f.storage| ==> g.storage[p] == Flushed(f, p))
      && (!Commits(f, a) ==> g.storage == f.storage && g.readMode)
  {
    hide SetStatus;
  }

  // A byte outside the window is outside every write inside it.
  lemma {:induction false} OutsideUntouched(base: int, ws: seq<Access>, p: nat, b: Byte)
    requires AllInside(base, ws) && !(base <= p < base + BLOCK)
    ensures AfterAll(ws, p, b) == b
    decreases |ws|
  {
    if ws != [] {
      SplitInside(base, ws);
      OutsideUntouched(base, ws[1..], p, b);
    }
  }

  // The buffer holds the old window with the writes laid over it.
  predicate WindowIs(h: Flash, ws: seq<Access>, s: seq<Byte>)
    requires Shape(h) && |s| == |h.storage|
  {
    forall p: nat :: 0 <= h.blkOffset <= p < h.blkOffset + BLOCK ==>
      h.blk[p - h.blkOffset] == AfterAll(ws, p, s[p])
  }

  lemma ByAddress(f: Flash, g: Flash, h: Flash, ws: seq<Access>)
    requires Shape(f) && Shape(g) && Shape(h) && |h.storage| == |f.storage| == |g.storage|
    requires g.blkOffset == h.blkOffset != NO_BLOCK
    requires forall k :: 0 <= k < BLOCK ==> g.blk[k] == f.storage[g.blkOffset + k]
    requires forall k :: 0 <= k < BLOCK ==> h.blk[k] == AfterAll(ws, g.blkOffset + k, g.blk[k])
    ensures WindowIs(h, ws, f.storage)
  {
    hide AfterAll;
    forall p: nat | 0 <= h.blkOffset <= p < h.blkOffset + BLOCK
      ensures h.blk[p - h.blkOffset] == AfterAll(ws, p, f.storage[p])
    {
      var k := p - h.blkOffset;
      assert p == g.blkOffset + k && g.blk[k] == f.storage[g.blkOffset + k];
    }
  }

  // The whole data phase from the count on.
  lemma DataPhaseFrom(f: Flash, ws: seq<Access>)
    requires Inv(f) && f.wcycle == 2 && f.blkOffset == NO_BLOCK && f.counter >= 1
    requires ws != [] && |ws| <= f.counter + 1 && AllFit(f, ws)
    ensures var g, base := Run(f, ws), BlockStart(ws[0].offset);
      && g.storage == f.storage && g.blkOffset == base && base + BLOCK <= |f.storage|
      && g.wcycle == (if |ws| == f.counter + 1 then 3 else 2)
      && Bit(g.status, ERROR) == (Bit(f.status, ERROR) || !AllInside(base, ws))
      && (AllInside(base, ws) ==> WindowIs(g, ws, f.storage))
  {
    hide Write, Inside, After, AfterAll, Shape;
    FirstData(f, ws[0]);
    BlockFits(f, ws[0].offset);
    var g := StartBlock(f, ws[0].offset);
    FitsKept(f, g, ws);
    DataPhase(g, ws);
    assert Run(f, ws) == Run(g, ws);
    if AllInside(BlockStart(ws[0].offset), ws) {
      ByAddress(f, g, Run(f, ws), ws);
    }
  }

  // The machine before the confirmation.
  lemma Staged(f: Flash, e: Access, n: Access, ws: seq<Access>)
    requires Inv(f) && f.wcycle == 0 && Opens(e, n) && |ws| == Count(n) + 1
    requires AllFit(f, [e, n] + ws)
    ensures var h, base := Run(f, [e, n] + ws), BlockStart(ws[0].offset);
      && h.storage == f.storage && h.wcycle == 3 && h.blkOffset == base && base + BLOCK <= |f.storage|
      && Bit(h.status, ERROR) == (Bit(f.status, ERROR) || !AllInside(base, ws))
      && (AllInside(base, ws) ==> WindowIs(h, ws, f.storage))
  {
    hide Write, Inside, After, AfterAll, Shape, AllInside, BlockStart, WindowIs;
    var all := [e, n] + ws;
    assert e in all && n in all && forall a :: a in ws ==> a in all;
    assert AllFit(f, [e, n]) && AllFit(f, ws);
    Opening(f, e, n);
    var g := Run(f, [e, n]);
    RunAppend(f, [e, n], ws);
    DataPhaseFrom(g, ws);
  }

  lemma Settle(h: Flash, ws: seq<Access>, k: Access)
    requires Inv(h) && h.wcycle == 3 && h.blkOffset != NO_BLOCK && Fits(h, k)
    requires Commits(h, k) && AllInside(h.blkOffset, ws) && WindowIs(h, ws, h.storage)
    ensures forall p :: 0 <= p < |h.storage| ==> Write(h, k).storage[p] == AfterAll(ws, p, h.storage[p])
  {
    hide Write, Inside, After, AfterAll, AllInside, Commits;
    Confirming(h, k);
    WriteKeepsInv(h, k);
    forall p | 0 <= p < |h.storage| ensures Write(h, k).storage[p] == AfterAll(ws, p, h.storage[p]) {
      if !(h.blkOffset <= p < h.blkOffset + BLOCK) {
        OutsideUntouched(h.blkOffset, ws, p, h.storage[p]);
      }
    }
  }

  // The block-write transaction, from any reachable state between commands: a
  // command 0xE8, a count c >= 1, exactly c + 1 data writes, a confirmation. It
  // is all or nothing: with 0xD0, no error pending and every data write inside
  // the block of the first one, each byte of the storage is what the data
  // writes in order make of it; otherwise no byte changes and the array is back
  // in read mode.
  lemma BlockWriteIsAtomic(f: Flash, e: Access, n: Access, ws: seq<Access>, k: Access)
    requires Inv(f) && f.wcycle == 0 && Opens(e, n) && |ws| == Count(n) + 1
    requires AllFit(f, [e, n] + ws + [k])
    ensures var r := Run(f, [e, n] + ws + [k]);
      var done := k.value % 0x100 == 0xD0 && !Bit(f.status, ERROR) && AllInside(BlockStart(ws[0].offset), ws);
      && r.wcycle == 0 && r.blkOffset == NO_BLOCK
      && (done ==> forall p :: 0 <= p < |f.storage| ==> r.storage[p] == AfterAll(ws, p, f.storage[p]))
      && (!done ==> r.storage == f.storage && r.readMode)
  {
    hide Write, Inside, After, AfterAll, Shape, AllInside, BlockStart, WindowIs, Run;
    var all := [e, n] + ws + [k];
    assert k in all && forall a :: a in [e, n] + ws ==> a in all;
    assert AllFit(f, [e, n] + ws) && AllFit(f, [k]);
    Staged(f, e, n, ws);
    var h := Run(f, [e, n] + ws);
    RunAppend(f, [e, n] + ws, [k]);
    OneStep(h, k);
    Confirming(h, k);
    if Commits(h, k) {
      Settle(h, ws, k);
    }
  }

  // A count of zero opens no window: its one data write raises the error bit,
  // so no confirmation can commit and no byte ever changes.
  lemma ZeroCountNeverCommits(f: Flash, e: Access, n: Access, a: Access, k: Access)
    requires Inv(f) && f.wcycle == 0 && e.value % 0x100 == 0xE8 && Count(n) == 0 && AllFit(f, [e, n] + [a] + [k])
    ensures var r := Run(f, [e, n] + [a] + [k]);
      r.storage == f.storage && r.wcycle == 0 && r.readMode && Bit(r.status, ERROR)
  {
    hide Write, Shape;
    var all := [e, n] + [a] + [k];
    assert e in all && n in all && a in all && k in all;
    Opening(f, e, n);
    var g := Run(f, [e, n]);
    RunAppend(f, [e, n], [a]);
    OneStep(g, a);
    UnopenedData(g, a);
    var h := Run(g, [a]);
    RunAppend(f, [e, n] + [a], [k]);
    OneStep(h, k);
    Confirming(h, k);
    ErrorIsSticky(h, k);
  }

  lemma UnopenedData(f: Flash, a: Access)
    requires Inv(f) && Fits(f, a) && f.wcycle == 2 && f.blkOffset == NO_BLOCK && f.counter == 0
    ensures var g := Write(f, a); g.storage == f.storage && g.wcycle == 3 && Bit(g.status, ERROR)
  {
    hide SetStatus;
    StatusBits(f.status, ERROR, ERROR);
    StatusBits(SetStatus(f.status, ERROR), READY, ERROR);
  }

  // Two writes that erase a sector without confirmation: the second one decides
  // only whether the flash returns to array reads, the sector is gone with the
  // first.
  lemma UnconfirmedErase(f: Flash, a: Access, b: Access, p: nat)
    requires Inv(f) && f.wcycle == 0 && a.value % 0x100 in {0x20, 0x28} && AllFit(f, [a] + [b]) && p < |f.storage|
    ensures var r := Run(f, [a] + [b]);
      && r.storage[p] == (if p / f.sectorLen == a.offset / f.sectorLen then 0xFF else f.storage[p])
      && r.wcycle == 0 && (r.readMode <==> b.value % 0x100 != 0xD0)
  {
    hide Write, Shape, Fits;
    assert [a] + [b] == [a, b] && a in [a] + [b] && b in [a] + [b];
    RunAppend(f, [a], [b]);
    OneStep(f, a);
    var g := Run(f, [a]);
    OneStep(g, b);
    StorageEffect(f, a, p);
    ErasingCycle(f, a);
    ErasedOperand(g, b);
  }

  lemma ErasingCycle(f: Flash, a: Access)
    requires Inv(f) && Fits(f, a) && f.wcycle == 0 && a.value % 0x100 in {0x20, 0x28}
    ensures var g := Write(f, a); g.wcycle == 1 && g.cmd in {0x20, 0x28} && !g.readMode
  {
    hide SetStatus, SectorStart;
  }

  lemma ErasedOperand(g: Flash, b: Access)
    requires Inv(g) && Fits(g, b) && g.wcycle == 1 && g.cmd in {0x20, 0x28} && !g.readMode
    ensures var r := Write(g, b); r.storage == g.storage && r.wcycle == 0 && (r.readMode <==> b.value % 0x100 != 0xD0)
  {
    hide SetStatus;
  }

  // An error is sticky: only the clear-status command takes it away.
  lemma ErrorIsSticky(f: Flash, a: Access)
    requires Inv(f) && Fits(f, a) && Bit(f.status, ERROR)
    ensures Bit(Write(f, a).status, ERROR) <==> !(f.wcycle == 0 && a.value % 0x100 == 0x50)
  {
    hide SetStatus, BlockStart, ToBytes, SectorStart;
    StatusBits(f.status, ERROR, ERROR);
    StatusBits(f.status, READY, ERROR);
    StatusBits(SetStatus(f.status, ERROR), READY, ERROR);
    BitOfZero(ERROR);
    if f.wcycle == 0 { SectorFits(f, a.offset); }
    BlockFits(f, a.offset);
  }
}
