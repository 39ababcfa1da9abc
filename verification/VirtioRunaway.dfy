/**
 What the guard of the notification lets through: a driver whose index has
 wrapped is served for every entry of the 16-bit distance, far more than the
 queue holds.
 */
module VirtioRunaway {
  import opened Bits
  import opened Memory
  import opened VirtioModel
  import opened VirtioRing

  // The chain at k is a flush request, its header apart from everything that
  // serving it writes.
  predicate Flush(m: Mem, q: Queue, k: U16) {
    && ChainPlaced(m, q, k)
    && var c := ReadChain(m, q.desc, k);
    && FlagsOk(c) && InDram(m, c.head.addr, 16) && InDram(m, c.tail.addr, 1)
    && Field(m, c.head.addr, 4) == T_FLUSH
    && Disjoint(c.data.addr, c.data.len, c.head.addr, 16) && Disjoint(c.tail.addr, 1, c.head.addr, 16)
    && Disjoint(q.used, 4 + 8 * q.num, c.head.addr, 16)
  }

  // Every slot of the available ring offers that chain.
  predicate Offered(m: Mem, q: Queue, k: U16) {
    Placed(m, q) && Flush(m, q, k) && forall s: nat :: s < q.num ==> RingHead(m, q, s) == k
  }

  lemma OfferedHead(m: Mem, q: Queue, k: U16)
    requires Offered(m, q, k)
    ensures Head(m, q, 0) == k
  {
    hide Flush, RingHead;
  }

  lemma FlushReplied(d: Dev, q: Queue, k: U16)
    requires Flush(d.mem, q, k)
    ensures Request(d, q.desc, k).Replied?
  {
    hide ReadChain, FlagsOk, Field, ChainPlaced, Disjoint, CapacityOf;
  }

  lemma FlushServed(d: Dev, i: nat, u: U16, k: U16)
    requires Ok(d) && i < QUEUES && Offered(d.mem, d.queues[i], k)
    ensures ServeOne(d, i, u).Served?
  {
    hide Flush, Request, Head, Deliver, RingAddr, RingHead, Placed, SetFail, InDram;
    var q := d.queues[i];
    OfferedHead(d.mem, q, k);
    HeadIs(d.mem, q);
    FlushReplied(d, q, k);
    var r := Request(d, q.desc, k);
    PlacedSize(d.mem, r.mem, q);
    DeliverIs(d.(mem := r.mem, disk := r.disk), i, u, k, r.len);
    PlacedNum(d.mem, q);
  }

  lemma PlacedNum(m: Mem, q: Queue)
    requires Placed(m, q)
    ensures q.num > 0 && InDram(m, q.avail, 4 + 2 * q.num) && InDram(m, q.avail, 4) && InDram(m, q.used, 4)
  {
  }

  // Serving the flush leaves it on offer.
  lemma OfferKept(d: Dev, i: nat, u: U16, k: U16)
    requires Ok(d) && i < QUEUES && Offered(d.mem, d.queues[i], k) && ServeOne(d, i, u).Served?
    ensures Offered(ServeOne(d, i, u).d.mem, Stepped(d.queues[i]), k)
  {
    hide Flush, ServeOne, Head, RingHead, Placed, Undisturbed, TurnSlots, TurnLen, ChainPlaced, Stepped;
    var q := d.queues[i];
    OfferedHead(d.mem, q, k);
    FlushPlaced(d.mem, q, k);
    Turn(d, i, u);
    var m' := ServeOne(d, i, u).d.mem;
    PlacedStep(d.mem, m', q);
    PlacedNum(m', Stepped(q));
    SteppedNum(q);
    HeaderKept(d, i, u, k);
    FlushKept(d.mem, m', q, k);
    forall s: nat | s < q.num ensures RingHead(m', Stepped(q), s) == k {
      RingKept(d.mem, m', q, s);
    }
  }

  lemma SteppedNum(q: Queue)
    ensures Stepped(q).num == q.num
  {
  }

  lemma FlushPlaced(m: Mem, q: Queue, k: U16)
    requires Flush(m, q, k)
    ensures ChainPlaced(m, q, k) && ReadChain(m, q.desc, k).Chain?
  {
    hide ReadChain, FlagsOk, Field, Disjoint;
  }

  lemma RingKept(m: Mem, m': Mem, q: Queue, s: nat)
    requires Placed(m, q) && Undisturbed(m, m', q) && s < q.num
    ensures InDram(m', q.avail, 4 + 2 * q.num) && RingHead(m', Stepped(q), s) == RingHead(m, q, s)
  {
    hide Field, Placed;
    PlacedNum(m, q);
    RingInside(q, s);
    SameField(m, m', q.avail, 4 + 2 * q.num, q.avail + 4 + 2 * s, 2);
  }

  lemma HeaderKept(d: Dev, i: nat, u: U16, k: U16)
    requires Ok(d) && i < QUEUES && Placed(d.mem, d.queues[i]) && Flush(d.mem, d.queues[i], k)
    requires Head(d.mem, d.queues[i], 0) == k && ServeOne(d, i, u).Served?
    ensures var c := ReadChain(d.mem, d.queues[i].desc, k);
      c.Chain? && Same(d.mem, ServeOne(d, i, u).d.mem, c.head.addr, 16)
  {
    hide Request, Head, Deliver, ServeOne, Same, UsedElem, FlagsOk, Field, ReadChain, Placed, ChainPlaced, SlotAt;
    var q := d.queues[i];
    var c := ReadChain(d.mem, q.desc, k);
    var r := Request(d, q.desc, k);
    FlushPlaced(d.mem, q, k);
    ServeOneIs(d, i, u);
    RequestFrame(d, q.desc, k, c.head.addr, 16);
    PlacedSize(d.mem, r.mem, q);
    DeliverIs(d.(mem := r.mem, disk := r.disk), i, u, k, r.len);
    SlotInside(r.mem, q, u % q.num);
    var a := SlotAt(q, u % q.num);
    ElementKeeps(r.mem, a, k, r.len, c.head.addr, 16);
    SameTrans(d.mem, r.mem, UsedElem(r.mem, a, k, r.len), c.head.addr, 16);
  }

  lemma SlotInside(m: Mem, q: Queue, s: nat)
    requires Placed(m, q) && s < q.num
    ensures q.used <= SlotAt(q, s) && SlotAt(q, s) + 8 <= q.used + (4 + 8 * q.num)
  {
  }

  lemma FlushKept(m: Mem, m': Mem, q: Queue, k: U16)
    requires Placed(m, q) && Flush(m, q, k) && Undisturbed(m, m', q)
    requires var c := ReadChain(m, q.desc, k); c.Chain? && Same(m, m', c.head.addr, 16)
    ensures Flush(m', Stepped(q), k)
  {
    hide ReadChain, FlagsOk, Field, Disjoint, Placed, ChainPlaced, Same;
    ChainStep(m, m', q, k);
    var c := ReadChain(m, q.desc, k);
    SameField(m, m', c.head.addr, 16, c.head.addr, 4);
    UndisturbedSize(m, m', q);
  }

  lemma UndisturbedSize(m: Mem, m': Mem, q: Queue)
    requires Undisturbed(m, m', q)
    ensures |m'| == |m|
  {
  }

  // The loop serves the flush once per index step, however many there are.
  lemma {:induction false} LoopCompletes(d: Dev, i: nat, newAvail: U16, u: U16, k: U16)
    requires Ok(d) && i < QUEUES && Offered(d.mem, d.queues[i], k)
    ensures Loop(d, i, newAvail, u).Complete?
    decreases Dist(d.queues[i].lastAvail, newAvail)
  {
    hide Offered, ServeOne, Dist, Next16;
    if d.queues[i].lastAvail != newAvail {
      FlushServed(d, i, u, k);
      ServedShape(d, i, u);
      OfferKept(d, i, u, k);
      DistNext(d.queues[i].lastAvail, newAvail);
      LoopCompletes(ServeOne(d, i, u).d, i, newAvail, Next16(u), k);
    }
  }

  // A notification whose index has wrapped past last_avail goes through with
  // any number of entries outstanding: used.idx moves by all of them.
  lemma WrappedNotifyIsServed(d: Dev, i: nat, k: U16)
    requires Ok(d) && i < QUEUES && Bit(d.status, DRIVER_OK) && !Bit(d.status, NEEDS_RESET) && d.queues[i].ready
    requires Offered(d.mem, d.queues[i], k) && InDram(d.mem, d.queues[i].avail, 4)
    requires Field(d.mem, d.queues[i].avail + 2, 2) < d.queues[i].lastAvail
    ensures var q := d.queues[i];
      && InDram(d.mem, q.used, 4) && Notify(d, i).Finished?
      && var e, n := Notify(d, i).d, Dist(q.lastAvail, Field(d.mem, q.avail + 2, 2));
      && |e.mem| == |d.mem| && n > 0
      && Field(e.mem, q.used + 2, 2) == (Field(d.mem, q.used + 2, 2) + n) % 0x1_0000
  {
    hide Loop, Field, Bit, Publish, SetFail, Placed, Flush, RingHead;
    var q := d.queues[i];
    PlacedNum(d.mem, q);
    LoopCompletes(d, i, Field(d.mem, q.avail + 2, 2), Field(d.mem, q.used + 2, 2), k);
    NotifyAdvances(d, i);
  }

  // ----- A device of this kind ------------------------------------------------------------

  // A memory of one page: three descriptors at 0, the available ring at 0x100
  // with index 5, the used ring at 0x200 with index 0, the header of a flush at
  // 0x300, a data buffer at 0x400 and a status byte at 0x500.
  function RunawayByte(k: nat): Byte {
    match k
    case 1 => 0x03 case 3 => 0x80 case 8 => 0x10 case 12 => 1 case 14 => 1
    case 17 => 0x04 case 19 => 0x80 case 24 => 0x10 case 28 => 1 case 30 => 2
    case 33 => 0x05 case 35 => 0x80 case 40 => 1 case 44 => 2
    case 0x102 => 5
    case 0x300 => 4
    case _ => 0
  }

  function RunawayMem(): (m: Mem)
    ensures |m| == 0x1000 && forall k :: 0 <= k < 0x1000 ==> m[k] == RunawayByte(k)
  {
    seq(0x1000, k requires 0 <= k => RunawayByte(k))
  }

  // Four entries, last_avail 10
  function RunawayQueue(): Queue {
    Queue(4, DRAM_BASE, DRAM_BASE + 0x100, DRAM_BASE + 0x200, 10, true)
  }

  function RunawayDev(): Dev {
    Dev(RunawayMem(), [], [RunawayQueue(), Queue(0, 0, 0, 0, 0, false)], 0, 4, 0, false, 0, 0, 0, 0, seq(68, _ => 0))
  }

  function Pair(m: Mem, o: nat): nat
    requires o + 2 <= |m|
  {
    (m[o] as nat) + 0x100 * (m[o + 1] as nat)
  }

  function Word4(m: Mem, o: nat): nat
    requires o + 4 <= |m|
  {
    Pair(m, o) + 0x1_0000 * Pair(m, o + 2)
  }

  lemma Peel(m: Mem, o: nat, n: nat)
    requires n > 0 && o + n <= |m|
    ensures FromBytes(m[o..o + n]) == m[o] + 0x100 * FromBytes(m[o + 1..o + n])
  {
    assert m[o..o + n][1..] == m[o + 1..o + n];
  }

  lemma PairAt(m: Mem, o: nat)
    requires o + 2 <= |m|
    ensures InDram(m, DRAM_BASE + o, 2) && Field(m, DRAM_BASE + o, 2) == Pair(m, o)
  {
    Peel(m, o, 2);
    Peel(m, o + 1, 1);
    assert FromBytes(m[o + 2..o + 2]) == 0;
  }

  lemma WordAt(m: Mem, o: nat)
    requires o + 4 <= |m|
    ensures InDram(m, DRAM_BASE + o, 4)
    ensures Field(m, DRAM_BASE + o, 4) == Word4(m, o)
  {
    hide FromBytes;
    Peel(m, o, 4);
    Peel(m, o + 1, 3);
    Peel(m, o + 2, 2);
    Peel(m, o + 3, 1);
    NoBytes(m, o + 4);
  }

  lemma NoBytes(m: Mem, o: nat)
    requires o <= |m|
    ensures FromBytes(m[o..o]) == 0
  {
  }

  lemma LongAt(m: Mem, o: nat)
    requires o + 8 <= |m| && m[o + 4] == m[o + 5] == m[o + 6] == m[o + 7] == 0
    ensures InDram(m, DRAM_BASE + o, 8) && Field(m, DRAM_BASE + o, 8) == Word4(m, o)
  {
    hide FromBytes;
    Peel(m, o, 8);
    Peel(m, o + 1, 7);
    Peel(m, o + 2, 6);
    Peel(m, o + 3, 5);
    Peel(m, o + 4, 4);
    Peel(m, o + 5, 3);
    Peel(m, o + 6, 2);
    Peel(m, o + 7, 1);
    NoBytes(m, o + 8);
  }

  lemma DescAt(m: Mem, k: U16, addr: U64, len: U32, flags: U16, next: U16)
    requires 16 * k + 16 <= |m| == 0x1000
    requires var o := 16 * k;
      && m[o + 4] == m[o + 5] == m[o + 6] == m[o + 7] == 0
      && addr == Word4(m, o) && len == Word4(m, o + 8) && flags == Pair(m, o + 12) && next == Pair(m, o + 14)
    ensures InDram(m, DescAddr(DRAM_BASE, k), 16) && DescAddr(DRAM_BASE, k) == DRAM_BASE + 16 * k
    ensures ReadDesc(m, DescAddr(DRAM_BASE, k)) == Desc(addr, len, flags, next)
  {
    hide Field, Pair, Word4;
    var o := 16 * k;
    LongAt(m, o);
    WordAt(m, o + 8);
    PairAt(m, o + 12);
    PairAt(m, o + 14);
  }

  lemma RunawayChain()
    ensures ReadChain(RunawayMem(), DRAM_BASE, 0) ==
      Chain(Desc(DRAM_BASE + 0x300, 16, 1, 1), Desc(DRAM_BASE + 0x400, 16, 1, 2), Desc(DRAM_BASE + 0x500, 1, 2, 0))
  {
    hide ReadDesc, DescAddr;
    var m := RunawayMem();
    DescAt(m, 0, DRAM_BASE + 0x300, 16, 1, 1);
    DescAt(m, 1, DRAM_BASE + 0x400, 16, 1, 2);
    DescAt(m, 2, DRAM_BASE + 0x500, 1, 2, 0);
  }

  lemma RunawayPlaced()
    ensures Placed(RunawayMem(), RunawayQueue())
    ensures Flush(RunawayMem(), RunawayQueue(), 0)
  {
    hide ReadChain, Field;
    RunawayChain();
    WordAt(RunawayMem(), 0x300);
  }

  lemma RunawayOffered()
    ensures Offered(RunawayMem(), RunawayQueue(), 0)
  {
    hide Flush, Field;
    RunawayPlaced();
    var m := RunawayMem();
    forall s: nat | s < 4 ensures RingHead(m, RunawayQueue(), s) == 0 {
      PairAt(m, 0x104 + 2 * s);
    }
  }

  // Four entries and 65531 outstanding: the notification serves them all.
  lemma WrappedIndexIsLetThrough()
    ensures var d := RunawayDev();
      && Ok(d) && InDram(d.mem, d.queues[0].avail, 4) && InDram(d.mem, d.queues[0].used, 4)
      && d.queues[0].num == 4 && Dist(d.queues[0].lastAvail, Field(d.mem, d.queues[0].avail + 2, 2)) == 65531
      && Field(d.mem, d.queues[0].used + 2, 2) == 0
      && Notify(d, 0).Finished? && |Notify(d, 0).d.mem| == |d.mem|
      && Field(Notify(d, 0).d.mem, d.queues[0].used + 2, 2) == 65531
  {
    hide Notify, Field, Offered, RunawayByte;
    var d := RunawayDev();
    RunawayOffered();
    RunawayIndexes();
    assert Bit(4, DRIVER_OK) && !Bit(4, NEEDS_RESET);
    WrappedNotifyIsServed(d, 0, 0);
  }

  lemma RunawayIndexes()
    ensures InDram(RunawayMem(), DRAM_BASE + 0x102, 2) && Field(RunawayMem(), DRAM_BASE + 0x102, 2) == 5
    ensures InDram(RunawayMem(), DRAM_BASE + 0x202, 2) && Field(RunawayMem(), DRAM_BASE + 0x202, 2) == 0
  {
    hide Field;
    PairAt(RunawayMem(), 0x102);
    PairAt(RunawayMem(), 0x202);
  }
}
