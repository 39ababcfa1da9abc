/**
 Conservation on the rings: a notification consumes every available entry once
 and in order, and publishes exactly as many used elements.
 */
module VirtioRing {
  import opened Bits
  import opened Memory
  import opened VirtioModel

  // ----- The index words ----------------------------------------------------------------

  // A notification that finishes has consumed all entries the driver had made
  // available and moved used.idx by exactly their number, both modulo 2^16;
  // with no entry it changes nothing.  This needs no care of the driver's.
  lemma NotifyAdvances(d: Dev, i: nat)
    requires Ok(d) && i < QUEUES && !Bit(d.status, NEEDS_RESET) && Notify(d, i).Finished?
    ensures var q, e := d.queues[i], Notify(d, i).d;
      InDram(d.mem, q.avail, 4) && Ok(e) && |e.mem| == |d.mem|
      && var n := Dist(q.lastAvail, Field(d.mem, q.avail + 2, 2));
      && e.queues == d.queues[i := q.(lastAvail := Field(d.mem, q.avail + 2, 2))]
      && (n == 0 ==> e == d)
      && (n > 0 ==>
        (InDram(d.mem, q.used, 4)
         && Field(e.mem, q.used + 2, 2) == (Field(d.mem, q.used + 2, 2) + n) % 0x1_0000))
  {
    hide Loop, Field, StoreLE;
    var q := d.queues[i];
    var newAvail := Field(d.mem, q.avail + 2, 2);
    if q.lastAvail == newAvail {
      assert d.queues == d.queues[i := q.(lastAvail := newAvail)];
    } else {
      var usedIdx := Field(d.mem, q.used + 2, 2);
      LoopShape(d, i, newAvail, usedIdx);
      var l := Loop(d, i, newAvail, usedIdx);
      FieldStored(l.d.mem, q.used + 2, l.usedIdx);
    }
  }

  lemma FieldStored(m: Mem, addr: nat, v: U16)
    requires InDram(m, addr, 2)
    ensures Field(StoreLE(m, addr, 2, v), addr, 2) == v
  {
    assert Pow2(16) == 0x1_0000 by { Pow2Add(8, 8); assert Pow2(8) == 0x100; }
    LoadStoreSame(m, addr, 2, v);
  }

  // The guard against a driver that runs ahead compares promoted integers. It
  // lets a notification through with more than `num` entries outstanding
  // exactly when the 16-bit index has wrapped past last_avail.
  lemma GuardIsExactUnlessWrapped(q: Queue, newAvail: U16)
    requires q.num <= QUEUE_NUM_MAX
    ensures (TooFar(q, newAvail) <==> Dist(q.lastAvail, newAvail) > q.num)
      <==> !(newAvail < q.lastAvail && Dist(q.lastAvail, newAvail) > q.num)
    ensures TooFar(q, newAvail) ==> Dist(q.lastAvail, newAvail) > q.num
  {
  }

  // ----- A well-placed queue ----------------------------------------------------------------

  function Slice(m: Mem, addr: nat, n: nat): seq<Byte>
    requires InDram(m, addr, n)
  {
    m[addr - DRAM_BASE..addr - DRAM_BASE + n]
  }

  predicate Same(m: Mem, m': Mem, addr: nat, n: nat) {
    |m| == |m'| && InDram(m, addr, n) && Slice(m, addr, n) == Slice(m', addr, n)
  }

  // What the driver sets up: a power-of-two queue whose three areas lie in
  // memory, the used ring apart from the two the device only reads.
  predicate Placed(m: Mem, q: Queue) {
    && 0 < q.num <= QUEUE_NUM_MAX && 0x1_0000 % q.num == 0 && |m| < 0x8000_0000_0000_0000
    && InDram(m, q.avail, 4 + 2 * q.num) && InDram(m, q.used, 4 + 8 * q.num) && InDram(m, q.desc, 16 * q.num)
    && Disjoint(q.used, 4 + 8 * q.num, q.avail, 4 + 2 * q.num)
    && Disjoint(q.used, 4 + 8 * q.num, q.desc, 16 * q.num)
  }

  predicate Clear(q: Queue, addr: nat, n: nat) {
    && Disjoint(addr, n, q.avail, 4 + 2 * q.num)
    && Disjoint(addr, n, q.used, 4 + 8 * q.num)
    && Disjoint(addr, n, q.desc, 16 * q.num)
  }

  // A chain inside the table whose data and status buffers avoid the queue.
  predicate ChainPlaced(m: Mem, q: Queue, k: U16) {
    k < q.num
    && var c := ReadChain(m, q.desc, k);
    c.Chain? && c.head.next < q.num && c.data.next < q.num
    && Clear(q, c.data.addr, c.data.len) && Clear(q, c.tail.addr, 1)
  }

  function SlotOf(q: Queue, idx: nat, k: nat): nat
    requires q.num > 0
  {
    (idx + k) % q.num
  }

  // The s-th entry of the available ring, and of the used ring.
  function RingHead(m: Mem, q: Queue, s: nat): U16
    requires s < q.num && InDram(m, q.avail, 4 + 2 * q.num)
  {
    Field(m, q.avail + 4 + 2 * s, 2)
  }

  function SlotAt(q: Queue, s: nat): nat { q.used + 4 + 8 * s }

  function UsedHead(m: Mem, q: Queue, s: nat): U32
    requires s < q.num && InDram(m, q.used, 4 + 8 * q.num)
  {
    Field(m, SlotAt(q, s), 4)
  }

  function UsedLen(m: Mem, q: Queue, s: nat): U32
    requires s < q.num && InDram(m, q.used, 4 + 8 * q.num)
  {
    Field(m, SlotAt(q, s) + 4, 4)
  }

  predicate SlotKept(m: Mem, m': Mem, q: Queue, s: nat)
    requires s < q.num && InDram(m, q.used, 4 + 8 * q.num) && |m'| == |m|
  {
    UsedHead(m', q, s) == UsedHead(m, q, s) && UsedLen(m', q, s) == UsedLen(m, q, s)
  }

  // The k-th entry outstanding.
  function Head(m: Mem, q: Queue, k: nat): U16
    requires Placed(m, q)
  {
    RingHead(m, q, SlotOf(q, q.lastAvail, k))
  }

  predicate Pending(m: Mem, q: Queue, n: nat)
    requires Placed(m, q)
  {
    forall k :: 0 <= k < n ==> ChainPlaced(m, q, Head(m, q, k))
  }

  // The three areas the loop must not disturb.
  predicate Undisturbed(m: Mem, m': Mem, q: Queue) {
    Same(m, m', q.avail, 4 + 2 * q.num) && Same(m, m', q.desc, 16 * q.num)
  }

  // ----- Frames ---------------------------------------------------------------------------

  lemma StoreKeeps(m: Mem, addr: nat, b: seq<Byte>, a: nat, n: nat)
    requires InDram(m, addr, |b|) && InDram(m, a, n) && Disjoint(addr, |b|, a, n)
    ensures Same(m, StoreBytes(m, addr, b), a, n)
  {
  }

  lemma SameTrans(m0: Mem, m1: Mem, m2: Mem, a: nat, n: nat)
    requires Same(m0, m1, a, n) && Same(m1, m2, a, n)
    ensures Same(m0, m2, a, n)
  {
  }

  lemma SubSlice(m: Mem, o: nat, n: nat, x: nat, k: nat)
    requires o + n <= |m| && x + k <= n
    ensures m[o..o + n][x..x + k] == m[o + x..o + x + k]
  {
    var t, l := m[o..o + n], m[o + x..o + x + k];
    forall j | 0 <= j < k ensures t[x..x + k][j] == l[j] {
      assert t[x + j] == m[o + (x + j)];
    }
  }

  lemma SameField(m: Mem, m': Mem, a: nat, n: nat, addr: nat, k: nat)
    requires Same(m, m', a, n) && a <= addr && addr + k <= a + n && (k == 2 || k == 4 || k == 8)
    ensures InDram(m, addr, k) && InDram(m', addr, k) && Field(m', addr, k) == Field(m, addr, k)
  {
    var x := addr - a;
    SubSlice(m, a - DRAM_BASE, n, x, k);
    SubSlice(m', a - DRAM_BASE, n, x, k);
  }

  lemma SameDesc(m: Mem, m': Mem, q: Queue, k: U16)
    requires Placed(m, q) && Same(m, m', q.desc, 16 * q.num) && k < q.num
    ensures DescAddr(q.desc, k) == q.desc + 16 * k && InDram(m, DescAddr(q.desc, k), 16)
    ensures InDram(m', DescAddr(q.desc, k), 16)
    ensures ReadDesc(m', DescAddr(q.desc, k)) == ReadDesc(m, DescAddr(q.desc, k))
  {
    var a := q.desc + 16 * k;
    assert a + 16 <= q.desc + 16 * q.num;
    hide Same, Field;
    SameField(m, m', q.desc, 16 * q.num, a, 8);
    SameField(m, m', q.desc, 16 * q.num, a + 8, 4);
    SameField(m, m', q.desc, 16 * q.num, a + 12, 2);
    SameField(m, m', q.desc, 16 * q.num, a + 14, 2);
    DescInDram(m, q, k);
    DescInDram(m', q, k);
  }

  lemma DescInDram(m: Mem, q: Queue, k: U16)
    requires 0 < q.num && |m| < 0x8000_0000_0000_0000 && InDram(m, q.desc, 16 * q.num) && k < q.num
    ensures DescAddr(q.desc, k) == q.desc + 16 * k && InDram(m, DescAddr(q.desc, k), 16)
  {
  }

  lemma ChainKept(m: Mem, m': Mem, q: Queue, k: U16)
    requires Placed(m, q) && Same(m, m', q.desc, 16 * q.num) && ChainPlaced(m, q, k)
    ensures ReadChain(m', q.desc, k) == ReadChain(m, q.desc, k) && ChainPlaced(m', q, k)
  {
    hide Same, ReadDesc, DescAddr, Placed, Clear, InDram;
    SameDesc(m, m', q, k);
    var c := ReadChain(m, q.desc, k);
    SameDesc(m, m', q, c.head.next);
    SameDesc(m, m', q, c.data.next);
  }

  // The data transfer of a request stays inside its data buffer.
  lemma TransferFrame(d: Dev, kind: nat, sector: U64, b: Desc, a: nat, n: nat)
    requires DoTransfer(d, kind, sector, b).Moved? && InDram(d.mem, a, n) && Disjoint(b.addr, b.len, a, n)
    ensures Same(d.mem, DoTransfer(d, kind, sector, b).mem, a, n)
  {
    hide InDisk, BeyondCapacity, Bit, Wrap;
    if kind == T_IN && InDram(d.mem, b.addr, b.len) && InDisk(d.disk, sector, b.len) {
      var offset := Wrap(sector * SECTOR);
      assert offset + b.len <= |d.disk| by { InDiskRange(d.disk, sector, b.len); }
      StoreKeeps(d.mem, b.addr, d.disk[offset..offset + b.len], a, n);
    } else if kind == T_GET_ID {
      var k := if b.len < 10 then b.len else 10;
      if InDram(d.mem, b.addr, k) {
        StoreKeeps(d.mem, b.addr, Serial()[..k], a, n);
      }
    }
  }

  lemma InDiskRange(disk: seq<Byte>, sector: U64, len: U32)
    requires InDisk(disk, sector, len)
    ensures Wrap(sector * SECTOR) + len <= |disk|
  {
  }

  // Whatever a request writes to memory lies in its data buffer or is its
  // status byte.
  lemma RequestFrame(d: Dev, table: U64, k: U16, a: nat, n: nat)
    requires Request(d, table, k).Replied? && InDram(d.mem, a, n)
    requires var c := ReadChain(d.mem, table, k);
      c.Chain? && Disjoint(c.data.addr, c.data.len, a, n) && Disjoint(c.tail.addr, 1, a, n)
    ensures Same(d.mem, Request(d, table, k).mem, a, n)
  {
    hide ReadChain, FlagsOk, DoTransfer, Field;
    var c := ReadChain(d.mem, table, k);
    var kind, sector := Field(d.mem, c.head.addr, 4), Field(d.mem, c.head.addr + 8, 8);
    TransferFrame(d, kind, sector, c.data, a, n);
    var t := DoTransfer(d, kind, sector, c.data);
    StoreKeeps(t.mem, c.tail.addr, [t.status], a, n);
    SameTrans(d.mem, t.mem, Request(d, table, k).mem, a, n);
  }

  // ----- Slots ------------------------------------------------------------------------------

  lemma SlotShift(n: nat, idx: U16, k: nat)
    requires 0 < n && 0x1_0000 % n == 0
    ensures (Next16(idx) + k) % n == (idx + (k + 1)) % n
  {
    var t := 0x1_0000 / n;
    if idx + 1 == 0x1_0000 {
      var q, r := k / n, k % n;
      assert k == q * n + r;
      assert idx + (k + 1) == t * n + q * n + r == (t + q) * n + r;
      DivUnique(idx + (k + 1), n, t + q, r);
    }
  }

  lemma Slot0(n: nat, idx: nat)
    requires 0 < n
    ensures (idx + 0) % n == idx % n
  {
  }

  lemma SlotsApart(n: nat, idx: nat, j: nat)
    requires 0 < j < n
    ensures (idx + j) % n != idx % n
  {
    var q, r := idx / n, idx % n;
    assert idx == q * n + r;
    if r + j < n {
      DivUnique(idx + j, n, q, r + j);
    } else {
      assert idx + j == (q + 1) * n + (r + j - n);
      DivUnique(idx + j, n, q + 1, r + j - n);
    }
  }

  lemma ElementReads(m: Mem, a: nat, head: U16, len: U32)
    requires InDram(m, a, 8)
    ensures var m' := UsedElem(m, a, head, len); Field(m', a, 4) == head && Field(m', a + 4, 4) == len
  {
    hide Field, LoadLE, Pow2, FromBytes, ToBytes, StoreBytes;
    FourBytes();
    var m1 := StoreLE(m, a, 4, head);
    LoadStoreSame(m, a, 4, head);
    LoadStoreSame(m1, a + 4, 4, len);
    LoadStoreOther(m1, a + 4, ToBytes(len, 4), a, 4);
  }

  lemma FourBytes()
    ensures Pow2(8 * 4) == 0x1_0000_0000
  {
    Pow2Values();
  }

  lemma ElementKeeps(m: Mem, a: nat, head: U16, len: U32, b: nat, n: nat)
    requires InDram(m, a, 8) && InDram(m, b, n) && Disjoint(a, 8, b, n)
    ensures Same(m, UsedElem(m, a, head, len), b, n)
  {
    var m1 := StoreLE(m, a, 4, head);
    StoreKeeps(m, a, ToBytes(head, 4), b, n);
    StoreKeeps(m1, a + 4, ToBytes(len, 4), b, n);
    SameTrans(m, m1, UsedElem(m, a, head, len), b, n);
  }

  lemma SlotInDram(m: Mem, q: Queue, s: nat)
    requires Placed(m, q) && s < q.num
    ensures InDram(m, SlotAt(q, s), 8)
    ensures Disjoint(SlotAt(q, s), 8, q.avail, 4 + 2 * q.num)
    ensures Disjoint(SlotAt(q, s), 8, q.desc, 16 * q.num)
    ensures Disjoint(SlotAt(q, s), 8, q.used, 4) && InDram(m, q.used, 4)
    ensures InDram(m, q.avail, 4 + 2 * q.num) && InDram(m, q.desc, 16 * q.num)
  {
  }

  // Writing one used element keeps everything else of the queue.
  lemma ElementHeld(m: Mem, q: Queue, s: nat, head: U16, len: U32)
    requires Placed(m, q) && s < q.num && InDram(m, SlotAt(q, s), 8)
    ensures UsedHead(UsedElem(m, SlotAt(q, s), head, len), q, s) == head
    ensures UsedLen(UsedElem(m, SlotAt(q, s), head, len), q, s) == len
  {
    hide UsedElem, Field, SlotAt;
    ElementReads(m, SlotAt(q, s), head, len);
  }

  lemma ElementWritten(m: Mem, q: Queue, s: nat, head: U16, len: U32)
    requires Placed(m, q) && s < q.num && InDram(m, SlotAt(q, s), 8)
    ensures Same(m, UsedElem(m, SlotAt(q, s), head, len), q.avail, 4 + 2 * q.num)
    ensures Same(m, UsedElem(m, SlotAt(q, s), head, len), q.desc, 16 * q.num)
    ensures Same(m, UsedElem(m, SlotAt(q, s), head, len), q.used, 4)
  {
    hide *;
    SlotInDram(m, q, s);
    var a := SlotAt(q, s);
    ElementKeeps(m, a, head, len, q.avail, 4 + 2 * q.num);
    ElementKeeps(m, a, head, len, q.desc, 16 * q.num);
    ElementKeeps(m, a, head, len, q.used, 4);
  }

  lemma OtherSlot(m: Mem, q: Queue, s: nat, t: nat, head: U16, len: U32)
    requires Placed(m, q) && s < q.num && t < q.num && t != s && InDram(m, SlotAt(q, s), 8)
    ensures SlotKept(m, UsedElem(m, SlotAt(q, s), head, len), q, t)
  {
    hide UsedElem, Same, Field, Placed, SlotAt;
    var a, b := SlotAt(q, s), SlotAt(q, t);
    var m' := UsedElem(m, a, head, len);
    SlotInDram(m, q, t);
    UsedInDram(m, q);
    SlotsDisjoint(q, s, t);
    ElementKeeps(m, a, head, len, b, 8);
    SameField(m, m', b, 8, b, 4);
    SameField(m, m', b, 8, b + 4, 4);
  }

  lemma SlotsDisjoint(q: Queue, s: nat, t: nat)
    requires s != t
    ensures Disjoint(SlotAt(q, s), 8, SlotAt(q, t), 8)
  {
  }

  lemma SlotAddrIs(m: Mem, q: Queue, idx: U16)
    requires Placed(m, q)
    ensures idx % q.num < q.num && SlotAddr(q, idx) == SlotAt(q, idx % q.num)
    ensures RingAddr(q, idx) == q.avail + 4 + 2 * (idx % q.num) && InDram(m, RingAddr(q, idx), 2)
  {
  }

  // ----- One turn of the loop --------------------------------------------------------------

  // The length a used element may report for the chain at k.
  predicate LenOf(m: Mem, q: Queue, k: U16, len: U32) {
    var c := ReadChain(m, q.desc, k);
    c.Chain? && (len == 0 || len == c.data.len)
  }

  // The length that the request of this turn returns
  function TurnLen(d: Dev, i: nat): U32
    requires i < |d.queues| && Placed(d.mem, d.queues[i])
  {
    var r := Request(d, d.queues[i].desc, Head(d.mem, d.queues[i], 0));
    if r.Replied? then r.len else 0
  }

  // The length a request reports is 0 or that of its data buffer.
  lemma RequestLen(d: Dev, q: Queue, k: U16)
    requires Request(d, q.desc, k).Replied?
    ensures LenOf(d.mem, q, k, Request(d, q.desc, k).len)
  {
  }

  lemma DeliverIs(d: Dev, i: nat, usedIdx: U16, head: U16, len: U32)
    requires Ok(d) && i < QUEUES && Placed(d.mem, d.queues[i])
    ensures var q := d.queues[i];
      && usedIdx % q.num < q.num && InDram(d.mem, SlotAt(q, usedIdx % q.num), 8)
      && Deliver(d, i, usedIdx, head, len).Served?
      && Deliver(d, i, usedIdx, head, len).d.mem == UsedElem(d.mem, SlotAt(q, usedIdx % q.num), head, len)
  {
    var q := d.queues[i];
    SlotAddrIs(d.mem, q, usedIdx);
    SlotInDram(d.mem, q, usedIdx % q.num);
    hide UsedElem, SlotAddr, SlotAt, InDram;
  }

  lemma HeadIs(m: Mem, q: Queue)
    requires Placed(m, q)
    ensures InDram(m, RingAddr(q, q.lastAvail), 2) && Head(m, q, 0) == Field(m, RingAddr(q, q.lastAvail), 2)
  {
    SlotAddrIs(m, q, q.lastAvail);
    hide RingAddr, Field;
    Slot0(q.num, q.lastAvail);
  }

  lemma ServeOneIs(d: Dev, i: nat, usedIdx: U16)
    requires Ok(d) && i < QUEUES && Placed(d.mem, d.queues[i]) && ServeOne(d, i, usedIdx).Served?
    ensures var r := Request(d, d.queues[i].desc, Head(d.mem, d.queues[i], 0));
      r.Replied? && ServeOne(d, i, usedIdx) ==
        Deliver(d.(mem := r.mem, disk := r.disk), i, usedIdx, Head(d.mem, d.queues[i], 0), r.len)
  {
    HeadIs(d.mem, d.queues[i]);
    hide Request, RingAddr, InDram, Head, SetFail, Field, Deliver;
  }

  // The used ring seen through a frame that covers it.
  lemma SameSlots(m: Mem, m': Mem, q: Queue, t: nat)
    requires Placed(m, q) && Same(m, m', q.used, 4 + 8 * q.num) && t < q.num
    ensures SlotKept(m, m', q, t)
  {
    var a := SlotAt(q, t);
    assert q.used <= a && a + 8 <= q.used + (4 + 8 * q.num);
    hide Same, Field, Placed, SlotAt;
    SameField(m, m', q.used, 4 + 8 * q.num, a, 4);
    SameField(m, m', q.used, 4 + 8 * q.num, a + 4, 4);
  }

  lemma SameStart(m: Mem, m': Mem, a: nat, n: nat, k: nat)
    requires Same(m, m', a, n) && k <= n
    ensures Same(m, m', a, k)
  {
    SubSlice(m, a - DRAM_BASE, n, 0, k);
    SubSlice(m', a - DRAM_BASE, n, 0, k);
  }

  lemma RequestKeepsQueue(d: Dev, q: Queue, k: U16)
    requires Placed(d.mem, q) && ChainPlaced(d.mem, q, k) && Request(d, q.desc, k).Replied?
    ensures var m' := Request(d, q.desc, k).mem;
      && Undisturbed(d.mem, m', q) && Same(d.mem, m', q.used, 4 + 8 * q.num)
      && Placed(m', q) && Same(d.mem, m', q.used, 4)
  {
    var c := ReadChain(d.mem, q.desc, k);
    hide ReadChain, Request, Same, InDram, Disjoint;
    RequestFrame(d, q.desc, k, q.avail, 4 + 2 * q.num);
    RequestFrame(d, q.desc, k, q.desc, 16 * q.num);
    RequestFrame(d, q.desc, k, q.used, 4 + 8 * q.num);
    SameStart(d.mem, Request(d, q.desc, k).mem, q.used, 4 + 8 * q.num, 4);
    PlacedSize(d.mem, Request(d, q.desc, k).mem, q);
  }

  lemma PlacedSize(m: Mem, m': Mem, q: Queue)
    requires Placed(m, q) && |m'| == |m|
    ensures Placed(m', q)
  {
  }

  lemma UndisturbedTrans(m0: Mem, m1: Mem, m2: Mem, q: Queue)
    requires Undisturbed(m0, m1, q)
    requires Same(m1, m2, q.avail, 4 + 2 * q.num) && Same(m1, m2, q.desc, 16 * q.num)
    ensures Undisturbed(m0, m2, q)
  {
    hide Same;
    SameTrans(m0, m1, m2, q.avail, 4 + 2 * q.num);
    SameTrans(m0, m1, m2, q.desc, 16 * q.num);
  }

  // One turn of the loop: the next used slot receives the next available head,
  // and nothing else of the queue changes.
  lemma Turn(d: Dev, i: nat, u: U16)
    requires Ok(d) && i < QUEUES && Placed(d.mem, d.queues[i]) && ServeOne(d, i, u).Served?
    requires ChainPlaced(d.mem, d.queues[i], Head(d.mem, d.queues[i], 0))
    ensures var q, m' := d.queues[i], ServeOne(d, i, u).d.mem;
      && Placed(m', q) && Undisturbed(d.mem, m', q) && Same(d.mem, m', q.used, 4)
      && TurnSlots(d.mem, m', q, u, TurnLen(d, i))
  {
    hide Request, Head, Deliver, ServeOne, Same, UsedElem, ChainPlaced, LenOf, UsedHead, UsedLen, SlotAt, SlotKept,
         InDram, Placed, Undisturbed, TurnSlots, ReadChain;
    var q, head := d.queues[i], Head(d.mem, d.queues[i], 0);
    UsedInDram(d.mem, q);
    var r := Request(d, q.desc, head);
    ServeOneIs(d, i, u);
    RequestLen(d, q, head);
    RequestKeepsQueue(d, q, head);
    DeliverIs(d.(mem := r.mem, disk := r.disk), i, u, head, r.len);
    var s := u % q.num;
    var m' := UsedElem(r.mem, SlotAt(q, s), head, r.len);
    ElementWritten(r.mem, q, s, head, r.len);
    PlacedSize(r.mem, m', q);
    UndisturbedTrans(d.mem, r.mem, m', q);
    SameTrans(d.mem, r.mem, m', q.used, 4);
    ElementSlots(d.mem, r.mem, q, u, r.len);
  }

  // The used ring after one turn.
  predicate TurnSlots(m: Mem, m': Mem, q: Queue, u: U16, len: U32)
    requires Placed(m, q) && |m'| == |m|
  {
    && UsedHead(m', q, u % q.num) == Head(m, q, 0)
    && UsedLen(m', q, u % q.num) == len && LenOf(m, q, Head(m, q, 0), len)
    && forall t: nat :: t < q.num && t != u % q.num ==> SlotKept(m, m', q, t)
  }

  lemma ElementSlots(m: Mem, m1: Mem, q: Queue, u: U16, len: U32)
    requires Placed(m, q) && Same(m, m1, q.used, 4 + 8 * q.num) && Placed(m1, q)
    requires |m1| == |m| && LenOf(m, q, Head(m, q, 0), len) && InDram(m1, SlotAt(q, u % q.num), 8)
    ensures TurnSlots(m, UsedElem(m1, SlotAt(q, u % q.num), Head(m, q, 0), len), q, u, len)
  {
    hide Head, LenOf, UsedElem, Same, InDram, SlotAt, SlotKept, UsedHead, UsedLen, ReadChain, RingHead, Disjoint, Wrap;
    var s, head := u % q.num, Head(m, q, 0);
    var m' := UsedElem(m1, SlotAt(q, s), head, len);
    ElementHeld(m1, q, s, head, len);
    forall t: nat | t < q.num && t != s ensures SlotKept(m, m', q, t) {
      SameSlots(m, m1, q, t);
      OtherSlot(m1, q, s, t, head, len);
      KeptTrans(m, m1, m', q, t);
    }
  }

  lemma KeptTrans(m0: Mem, m1: Mem, m2: Mem, q: Queue, t: nat)
    requires t < q.num && InDram(m0, q.used, 4 + 8 * q.num) && |m0| == |m1| == |m2|
    requires SlotKept(m0, m1, q, t) && SlotKept(m1, m2, q, t)
    ensures SlotKept(m0, m2, q, t)
  {
  }

  // ----- The whole loop ---------------------------------------------------------------------

  // The lengths that the requests of the loop return, turn by turn
  function Lens(d: Dev, i: nat, newAvail: U16, u: U16): (lens: seq<U32>)
    requires Ok(d) && i < QUEUES && Placed(d.mem, d.queues[i])
    ensures Loop(d, i, newAvail, u).Complete? ==> |lens| == Dist(d.queues[i].lastAvail, newAvail)
    decreases Dist(d.queues[i].lastAvail, newAvail)
  {
    hide Placed, ServeOne, Dist, Next16, TurnLen;
    if d.queues[i].lastAvail == newAvail then
      DistZero(newAvail);
      []
    else
      var s := ServeOne(d, i, u);
      if s.Stop? then []
      else
        ServedShape(d, i, u);
        DistNext(d.queues[i].lastAvail, newAvail);
        PlacedServed(d, s.d, i);
        [TurnLen(d, i)] + Lens(s.d, i, newAvail, Next16(u))
  }

  lemma DistZero(x: U16)
    ensures Dist(x, x) == 0
  {
  }

  lemma PlacedServed(d: Dev, e: Dev, i: nat)
    requires i < |d.queues| && Placed(d.mem, d.queues[i]) && |e.mem| == |d.mem| && |e.queues| == |d.queues|
    requires e.queues[i] == Stepped(d.queues[i])
    ensures Placed(e.mem, e.queues[i])
  {
  }

  // The k-th element published from used index u on names the k-th entry that
  // was outstanding, with that length; it is 0 or that of the data buffer.
  predicate SlotDone(m: Mem, m': Mem, q: Queue, u: U16, k: nat, len: U32)
    requires Placed(m, q) && |m'| == |m|
  {
    && UsedHead(m', q, SlotOf(q, u, k)) == Head(m, q, k)
    && UsedLen(m', q, SlotOf(q, u, k)) == len && LenOf(m, q, Head(m, q, k), len)
  }

  predicate Outside(q: Queue, u: U16, n: nat, t: nat)
    requires q.num > 0
  {
    forall k :: 0 <= k < n ==> SlotOf(q, u, k) != t
  }

  function Stepped(q: Queue): Queue { q.(lastAvail := Next16(q.lastAvail)) }

  lemma HeadShift(m: Mem, m': Mem, q: Queue, k: nat)
    requires Placed(m, q) && Undisturbed(m, m', q)
    ensures Placed(m', Stepped(q)) && Head(m', Stepped(q), k) == Head(m, q, k + 1)
  {
    SlotStep(m, q, q.lastAvail, k);
    PlacedStep(m, m', q);
    var s := SlotOf(q, q.lastAvail, k + 1);
    RingInside(q, s);
    hide Field, Same, SlotOf, Next16, Placed, InDram;
    SameField(m, m', q.avail, 4 + 2 * q.num, q.avail + 4 + 2 * s, 2);
  }

  lemma RingInside(q: Queue, s: nat)
    requires s < q.num
    ensures q.avail + 4 + 2 * s + 2 <= q.avail + (4 + 2 * q.num)
  {
  }

  lemma PlacedStep(m: Mem, m': Mem, q: Queue)
    requires Placed(m, q) && |m'| == |m|
    ensures Placed(m', Stepped(q))
  {
  }

  lemma SlotStep(m: Mem, q: Queue, u: U16, k: nat)
    requires Placed(m, q)
    ensures SlotOf(Stepped(q), Next16(u), k) == SlotOf(q, u, k + 1) < q.num
  {
    SlotShift(q.num, u, k);
  }

  lemma ChainStep(m: Mem, m': Mem, q: Queue, k: U16)
    requires Placed(m, q) && Undisturbed(m, m', q) && ChainPlaced(m, q, k)
    ensures ReadChain(m', Stepped(q).desc, k) == ReadChain(m, q.desc, k) && ChainPlaced(m', Stepped(q), k)
  {
    ChainKept(m, m', q, k);
    hide ReadChain, Same, Disjoint;
  }

  lemma PendingShift(m: Mem, m': Mem, q: Queue, n: nat)
    requires Placed(m, q) && Undisturbed(m, m', q) && n > 0 && Pending(m, q, n)
    ensures Placed(m', Stepped(q)) && Pending(m', Stepped(q), n - 1)
  {
    PlacedStep(m, m', q);
    hide Head, ReadChain, Same, InDram, Placed, ChainPlaced, Undisturbed, Stepped;
    forall k | 0 <= k < n - 1 ensures ChainPlaced(m', Stepped(q), Head(m', Stepped(q), k)) {
      HeadShift(m, m', q, k);
      ChainStep(m, m', q, Head(m, q, k + 1));
    }
  }

  lemma SteppedSlots(m: Mem, q: Queue, s: nat)
    requires s < q.num && InDram(m, q.used, 4 + 8 * q.num)
    ensures UsedHead(m, Stepped(q), s) == UsedHead(m, q, s) && UsedLen(m, Stepped(q), s) == UsedLen(m, q, s)
  {
  }

  lemma DoneShift(m: Mem, m1: Mem, m2: Mem, q: Queue, u: U16, k: nat, len: U32)
    requires Placed(m, q) && Undisturbed(m, m1, q) && |m2| == |m| && Placed(m1, Stepped(q))
    requires SlotDone(m1, m2, Stepped(q), Next16(u), k, len) && ChainPlaced(m, q, Head(m, q, k + 1))
    ensures SlotDone(m, m2, q, u, k + 1, len)
  {
    hide Head, ReadChain, Same, InDram, Field, ChainPlaced, Placed, UsedHead, UsedLen, SlotOf, Next16, Stepped;
    hide Undisturbed;
    HeadShift(m, m1, q, k);
    SlotStep(m, q, u, k);
    ChainStep(m, m1, q, Head(m, q, k + 1));
    PlacedSize(m, m2, q);
    UsedInDram(m2, q);
    SteppedSlots(m2, q, SlotOf(q, u, k + 1));
  }

  lemma UsedInDram(m: Mem, q: Queue)
    requires Placed(m, q)
    ensures InDram(m, q.used, 4 + 8 * q.num) && q.num > 0
  {
  }

  lemma OutsideShift(q: Queue, u: U16, n: nat, t: nat)
    requires 0 < n <= q.num && 0x1_0000 % q.num == 0
    ensures Outside(q, u, n, t) ==> t != u % q.num && Outside(Stepped(q), Next16(u), n - 1, t)
    ensures Outside(Stepped(q), Next16(u), n - 1, u % q.num)
  {
    Slot0(q.num, u);
    assert SlotOf(q, u, 0) == u % q.num;
    forall k | 0 <= k < n - 1
      ensures SlotOf(Stepped(q), Next16(u), k) == SlotOf(q, u, k + 1) != u % q.num
    {
      SlotShift(q.num, u, k);
      SlotsApart(q.num, u, k + 1);
    }
  }

  // A loop that completes leaves, slot by slot, exactly the heads that were
  // outstanding, in order, with the lengths their requests returned; every other
  // slot, used.flags and used.idx, the available ring and the descriptor table
  // are as they were.
  lemma {:induction false} LoopSlots(d: Dev, i: nat, newAvail: U16, u: U16, n: nat)
    requires Ok(d) && i < QUEUES && Placed(d.mem, d.queues[i])
    requires n == Dist(d.queues[i].lastAvail, newAvail) <= d.queues[i].num && Pending(d.mem, d.queues[i], n)
    requires Loop(d, i, newAvail, u).Complete?
    ensures var q, m' := d.queues[i], Loop(d, i, newAvail, u).d.mem;
      && Placed(m', q) && |m'| == |d.mem| && Undisturbed(d.mem, m', q) && Same(d.mem, m', q.used, 4)
      && RingIs(d.mem, m', q, u, Lens(d, i, newAvail, u))
    decreases n
  {
    hide ServeOne, Head, Same, ChainPlaced, Placed, Undisturbed, TurnSlots, Next16, RingIs, Dist, TurnLen;
    var q := d.queues[i];
    if q.lastAvail == newAvail {
      Nothing(d.mem, q, u, n, newAvail);
    } else {
      DistNext(q.lastAvail, newAvail);
      FirstPending(d.mem, q, n);
      Turn(d, i, u);
      ServedShape(d, i, u);
      var e := ServeOne(d, i, u).d;
      PendingShift(d.mem, e.mem, q, n);
      LoopSlots(e, i, newAvail, Next16(u), n - 1);
      PlacedServed(d, e, i);
      RingGrows(d.mem, e.mem, Loop(d, i, newAvail, u).d.mem, q, u, TurnLen(d, i), Lens(e, i, newAvail, Next16(u)));
    }
  }

  lemma FirstPending(m: Mem, q: Queue, n: nat)
    requires Placed(m, q) && n > 0 && Pending(m, q, n)
    ensures ChainPlaced(m, q, Head(m, q, 0))
  {
  }

  // The used ring after one published element per length.
  predicate RingIs(m: Mem, m': Mem, q: Queue, u: U16, lens: seq<U32>)
    requires Placed(m, q) && |m'| == |m|
  {
    && (forall k: nat :: k < |lens| ==> SlotDone(m, m', q, u, k, lens[k]))
    && (forall t: nat :: t < q.num && Outside(q, u, |lens|, t) ==> SlotKept(m, m', q, t))
  }

  lemma Nothing(m: Mem, q: Queue, u: U16, n: nat, newAvail: U16)
    requires Placed(m, q) && q.lastAvail == newAvail && n == Dist(q.lastAvail, newAvail)
    ensures n == 0 && Undisturbed(m, m, q) && Same(m, m, q.used, 4) && RingIs(m, m, q, u, [])
  {
  }

  lemma RingGrows(m: Mem, m1: Mem, m2: Mem, q: Queue, u: U16, len: U32, lens: seq<U32>)
    requires Placed(m, q) && Undisturbed(m, m1, q) && |lens| < q.num && Pending(m, q, |lens| + 1)
    requires Same(m, m1, q.used, 4) && Placed(m1, q) && TurnSlots(m, m1, q, u, len)
    requires Placed(m1, Stepped(q)) && Placed(m2, Stepped(q)) && |m2| == |m1| == |m|
    requires Undisturbed(m1, m2, Stepped(q)) && Same(m1, m2, q.used, 4)
    requires RingIs(m1, m2, Stepped(q), Next16(u), lens)
    ensures Placed(m2, q) && Undisturbed(m, m2, q) && Same(m, m2, q.used, 4) && RingIs(m, m2, q, u, [len] + lens)
  {
    hide *;
    SameTrans(m, m1, m2, q.used, 4);
    PlacedSize(m, m2, q);
    SteppedUndisturbed(m, m1, m2, q);
    RingHeads(m, m1, m2, q, u, len, lens);
    RingRest(m, m1, m2, q, u, len, lens);
    RingIntro(m, m2, q, u, [len] + lens);
  }

  lemma SteppedUndisturbed(m: Mem, m1: Mem, m2: Mem, q: Queue)
    requires Undisturbed(m, m1, q) && Undisturbed(m1, m2, Stepped(q))
    ensures Undisturbed(m, m2, q)
  {
    UndisturbedTrans(m, m1, m2, q);
  }

  lemma RingIntro(m: Mem, m': Mem, q: Queue, u: U16, lens: seq<U32>)
    requires Placed(m, q) && |m'| == |m|
    requires forall k: nat :: k < |lens| ==> SlotDone(m, m', q, u, k, lens[k])
    requires forall t: nat :: t < q.num && Outside(q, u, |lens|, t) ==> SlotKept(m, m', q, t)
    ensures RingIs(m, m', q, u, lens)
  {
  }

  // The slot of this turn is outside those of the later turns.
  lemma FirstSlot(m: Mem, m1: Mem, m2: Mem, q: Queue, u: U16, len: U32, lens: seq<U32>)
    requires Placed(m, q) && |lens| < q.num && |m1| == |m| == |m2| && Placed(m1, Stepped(q))
    requires TurnSlots(m, m1, q, u, len) && RingIs(m1, m2, Stepped(q), Next16(u), lens)
    ensures SlotDone(m, m2, q, u, 0, len)
  {
    hide Head, LenOf, ReadChain, Same, InDram, Next16, UsedHead, UsedLen, SlotDone;
    Slot0(q.num, u);
    OutsideShift(q, u, |lens| + 1, u % q.num);
    assert SlotKept(m1, m2, Stepped(q), u % q.num);
    UsedInDram(m, q);
    PlacedSize(m, m1, q);
    PlacedSize(m, m2, q);
    UsedInDram(m1, q);
    UsedInDram(m2, q);
    SteppedSlots(m1, q, u % q.num);
    SteppedSlots(m2, q, u % q.num);
    DoneIntro(m, m2, q, u, 0, len);
  }

  lemma DoneIntro(m: Mem, m': Mem, q: Queue, u: U16, k: nat, len: U32)
    requires Placed(m, q) && |m'| == |m|
    requires UsedHead(m', q, SlotOf(q, u, k)) == Head(m, q, k)
    requires UsedLen(m', q, SlotOf(q, u, k)) == len && LenOf(m, q, Head(m, q, k), len)
    ensures SlotDone(m, m', q, u, k, len)
  {
  }

  lemma RingHeads(m: Mem, m1: Mem, m2: Mem, q: Queue, u: U16, len: U32, lens: seq<U32>)
    requires Placed(m, q) && Undisturbed(m, m1, q) && |lens| < q.num && Pending(m, q, |lens| + 1)
    requires |m1| == |m| == |m2| && Placed(m1, Stepped(q))
    requires TurnSlots(m, m1, q, u, len) && RingIs(m1, m2, Stepped(q), Next16(u), lens)
    ensures forall k: nat :: k < |lens| + 1 ==> SlotDone(m, m2, q, u, k, ([len] + lens)[k])
  {
    hide Head, Same, ChainPlaced, Placed, Undisturbed, TurnSlots, Next16, SlotDone, SlotKept, Outside, Stepped;
    forall k: nat | k < |lens| + 1 ensures SlotDone(m, m2, q, u, k, ([len] + lens)[k]) {
      if k == 0 {
        FirstSlot(m, m1, m2, q, u, len, lens);
      } else {
        assert SlotDone(m1, m2, Stepped(q), Next16(u), k - 1, lens[k - 1]);
        DoneShift(m, m1, m2, q, u, k - 1, lens[k - 1]);
      }
    }
  }

  lemma RingRest(m: Mem, m1: Mem, m2: Mem, q: Queue, u: U16, len: U32, lens: seq<U32>)
    requires Placed(m, q) && |lens| < q.num && |m1| == |m| == |m2| && Placed(m1, Stepped(q))
    requires TurnSlots(m, m1, q, u, len) && RingIs(m1, m2, Stepped(q), Next16(u), lens)
    ensures forall t: nat :: t < q.num && Outside(q, u, |lens| + 1, t) ==> SlotKept(m, m2, q, t)
  {
    forall t: nat | t < q.num && Outside(q, u, |lens| + 1, t) ensures SlotKept(m, m2, q, t) {
      RestSlot(m, m1, m2, q, u, len, lens, t);
    }
  }

  lemma RestSlot(m: Mem, m1: Mem, m2: Mem, q: Queue, u: U16, len: U32, lens: seq<U32>, t: nat)
    requires Placed(m, q) && |lens| < q.num && |m1| == |m| == |m2| && Placed(m1, Stepped(q))
    requires TurnSlots(m, m1, q, u, len) && RingIs(m1, m2, Stepped(q), Next16(u), lens)
    requires t < q.num && Outside(q, u, |lens| + 1, t)
    ensures SlotKept(m, m2, q, t)
  {
    hide Head, LenOf, ReadChain, Same, InDram, Next16, UsedHead, UsedLen, SlotDone, Outside;
    OutsideShift(q, u, |lens| + 1, t);
    UsedInDram(m, q);
    PlacedSize(m, m1, q);
    PlacedSize(m, m2, q);
    UsedInDram(m1, q);
    UsedInDram(m2, q);
    SteppedSlots(m1, q, t);
    SteppedSlots(m2, q, t);
    assert SlotKept(m1, m2, Stepped(q), t);
    assert SlotKept(m, m1, q, t);
  }

  // ----- The whole notification ---------------------------------------------------------------

  lemma PublishKeeps(d: Dev, i: nat, u: U16, m: Mem, q: Queue, start: U16, lens: seq<U32>)
    requires Ok(d) && i < QUEUES && Placed(d.mem, q) && Placed(m, q) && |d.mem| == |m|
    requires d.queues[i].used == q.used && d.queues[i].avail == q.avail
    requires InDram(d.mem, q.used, 4) && InDram(d.mem, q.avail, 4)
    requires Undisturbed(m, d.mem, q) && RingIs(m, d.mem, q, start, lens)
    ensures |Publish(d, i, u).mem| == |m|
    ensures Undisturbed(m, Publish(d, i, u).mem, q) && RingIs(m, Publish(d, i, u).mem, q, start, lens)
  {
    hide Same, Placed, Undisturbed, SlotDone, SlotKept, InDram, ToBytes, Field, Outside, StoreBytes;
    var b := ToBytes(u, 2);
    IdxApart(d.mem, q);
    UsedInDram(d.mem, q);
    var m' := StoreBytes(d.mem, q.used + 2, b);
    assert |b| == 2;
    IdxApart(m, q);
    StoreKeeps(d.mem, q.used + 2, b, q.avail, 4 + 2 * q.num);
    StoreKeeps(d.mem, q.used + 2, b, q.desc, 16 * q.num);
    UndisturbedTrans(m, d.mem, m', q);
    forall t: nat | t < q.num ensures SlotKept(d.mem, m', q, t) {
      IdxSlot(d.mem, q, b, t);
    }
    UsedInDram(m, q);
    forall k: nat | k < |lens| ensures SlotDone(m, m', q, start, k, lens[k]) {
      SlotOfBound(q, start, k);
      DoneKept(m, d.mem, m', q, start, k, lens[k]);
    }
    forall t: nat | t < q.num && Outside(q, start, |lens|, t) ensures SlotKept(m, m', q, t) {
      KeptTrans(m, d.mem, m', q, t);
    }
  }

  lemma SlotOfBound(q: Queue, u: U16, k: nat)
    requires q.num > 0
    ensures SlotOf(q, u, k) < q.num
  {
  }

  lemma DoneKept(m: Mem, m1: Mem, m2: Mem, q: Queue, u: U16, k: nat, len: U32)
    requires Placed(m, q) && |m| == |m1| == |m2| && SlotDone(m, m1, q, u, k, len)
    requires SlotOf(q, u, k) < q.num && InDram(m1, q.used, 4 + 8 * q.num) && SlotKept(m1, m2, q, SlotOf(q, u, k))
    ensures SlotDone(m, m2, q, u, k, len)
  {
    hide Head, LenOf, UsedHead, UsedLen, Placed, Field;
  }

  lemma IdxApart(m: Mem, q: Queue)
    requires Placed(m, q)
    ensures InDram(m, q.used + 2, 2) && InDram(m, q.avail, 4 + 2 * q.num) && InDram(m, q.desc, 16 * q.num)
    ensures Disjoint(q.used + 2, 2, q.avail, 4 + 2 * q.num) && Disjoint(q.used + 2, 2, q.desc, 16 * q.num)
  {
  }

  lemma IdxSlot(m: Mem, q: Queue, b: seq<Byte>, t: nat)
    requires Placed(m, q) && |b| == 2 && InDram(m, q.used + 2, 2) && t < q.num
    ensures SlotKept(m, StoreBytes(m, q.used + 2, b), q, t)
  {
    SlotInDram(m, q, t);
    var a, m' := SlotAt(q, t), StoreBytes(m, q.used + 2, b);
    assert q.used + 4 <= a;
    hide StoreBytes, Same, Field, SlotAt;
    StoreKeeps(m, q.used + 2, b, a, 8);
    SameField(m, m', a, 8, a, 4);
    SameField(m, m', a, 8, a + 4, 4);
  }

  lemma NoLens(d: Dev, i: nat, newAvail: U16, u: U16)
    requires Ok(d) && i < QUEUES && Placed(d.mem, d.queues[i]) && d.queues[i].lastAvail == newAvail
    ensures Lens(d, i, newAvail, u) == []
  {
  }

  // Conservation. For a well-placed queue and a driver no more than the queue
  // size ahead modulo 2^16, a notification that ends without set_fail has moved
  // last_avail to avail.idx and used.idx by the distance between them, and the
  // k-th newly used element names the k-th available head with the length that
  // the k-th request returned.
  lemma NotifyConserves(d: Dev, i: nat, n: nat)
    requires Ok(d) && i < QUEUES && !Bit(d.status, NEEDS_RESET) && Placed(d.mem, d.queues[i])
    requires InDram(d.mem, d.queues[i].avail, 4) && InDram(d.mem, d.queues[i].used, 4)
    requires n == Dist(d.queues[i].lastAvail, Field(d.mem, d.queues[i].avail + 2, 2)) <= d.queues[i].num
    requires Pending(d.mem, d.queues[i], n) && Notify(d, i).Finished?
    ensures var q, e := d.queues[i], Notify(d, i).d;
      var u := Field(d.mem, q.used + 2, 2);
      && |e.mem| == |d.mem|
      && e.queues == d.queues[i := q.(lastAvail := Field(d.mem, q.avail + 2, 2))]
      && Field(e.mem, q.used + 2, 2) == (u + n) % 0x1_0000
      && Undisturbed(d.mem, e.mem, q)
      && |Lens(d, i, Field(d.mem, q.avail + 2, 2), u)| == n
      && RingIs(d.mem, e.mem, q, u, Lens(d, i, Field(d.mem, q.avail + 2, 2), u))
  {
    hide Loop, Lens, Field, Placed, Pending, Undisturbed, RingIs, Publish, Same, Dist, Deliver, Request;
    NotifyAdvances(d, i);
    var q := d.queues[i];
    var newAvail, u := Field(d.mem, q.avail + 2, 2), Field(d.mem, q.used + 2, 2);
    if q.lastAvail == newAvail {
      Nothing(d.mem, q, u, n, newAvail);
      NoLens(d, i, newAvail, u);
    } else {
      LoopShape(d, i, newAvail, u);
      LoopSlots(d, i, newAvail, u, n);
      var l := Loop(d, i, newAvail, u);
      PublishKeeps(l.d, i, l.usedIdx, d.mem, q, u, Lens(d, i, newAvail, u));
    }
  }

  // ----- Failure ---------------------------------------------------------------------------

  // A notification that fails, or that an exception leaves, has not moved
  // used.idx, whatever requests it had already served.
  lemma {:induction false} LoopBroken(d: Dev, i: nat, newAvail: U16, u: U16, n: nat)
    requires Ok(d) && i < QUEUES && Placed(d.mem, d.queues[i])
    requires n == Dist(d.queues[i].lastAvail, newAvail) <= d.queues[i].num && Pending(d.mem, d.queues[i], n)
    requires Loop(d, i, newAvail, u).Broken? && !Loop(d, i, newAvail, u).o.Crashed?
    ensures var o := Loop(d, i, newAvail, u).o;
      && Same(d.mem, o.d.mem, d.queues[i].used, 4)
      && (o.Failed? ==> Bit(o.d.status, NEEDS_RESET))
    decreases n
  {
    hide ServeOne, Head, Same, ChainPlaced, Placed, Undisturbed, TurnSlots, Next16, Dist;
    var q := d.queues[i];
    DistNext(q.lastAvail, newAvail);
    PositiveDist(q.lastAvail, newAvail);
    FirstPending(d.mem, q, n);
    if ServeOne(d, i, u).Stop? {
      StopKeeps(d, i, u);
    } else {
      Turn(d, i, u);
      ServedShape(d, i, u);
      var e := ServeOne(d, i, u).d;
      PendingShift(d.mem, e.mem, q, n);
      LoopBroken(e, i, newAvail, Next16(u), n - 1);
      SameTrans(d.mem, e.mem, Loop(d, i, newAvail, u).o.d.mem, q.used, 4);
    }
  }

  lemma PositiveDist(x: U16, y: U16)
    requires x != y
    ensures Dist(x, y) > 0
  {
  }

  lemma SetFailNeedsReset(d: Dev)
    ensures Bit(SetFail(d).status, NEEDS_RESET) && SetFail(d).mem == d.mem && SetFail(d).disk == d.disk
  {
    BitOfSetBit(d.status, NEEDS_RESET, NEEDS_RESET);
  }

  lemma StopKeeps(d: Dev, i: nat, u: U16)
    requires Ok(d) && i < QUEUES && Placed(d.mem, d.queues[i])
    requires ServeOne(d, i, u).Stop? && !ServeOne(d, i, u).o.Crashed?
    ensures var o := ServeOne(d, i, u).o;
      && Same(d.mem, o.d.mem, d.queues[i].used, 4)
      && (o.Failed? ==> Bit(o.d.status, NEEDS_RESET))
  {
    HeadIs(d.mem, d.queues[i]);
    SetFailNeedsReset(d);
    SetFailNeedsReset(SetFail(d));
    var q, head := d.queues[i], Field(d.mem, RingAddr(d.queues[i], d.queues[i].lastAvail), 2);
    var r := Request(d, q.desc, head);
    if r.Replied? {
      PlacedSize(d.mem, r.mem, q);
      DeliverIs(d.(mem := r.mem, disk := r.disk), i, u, head, r.len);
    }
    hide Request, RingAddr, Head, SetFail, Field, Deliver, Bit;
  }

  lemma FailureKeepsUsedIdx(d: Dev, i: nat, n: nat)
    requires Ok(d) && i < QUEUES && Placed(d.mem, d.queues[i])
    requires InDram(d.mem, d.queues[i].avail, 4) && InDram(d.mem, d.queues[i].used, 4)
    requires n == Dist(d.queues[i].lastAvail, Field(d.mem, d.queues[i].avail + 2, 2)) <= d.queues[i].num
    requires Pending(d.mem, d.queues[i], n) && !Notify(d, i).Finished? && !Notify(d, i).Crashed?
    ensures var e := Notify(d, i).d;
      && |e.mem| == |d.mem| && InDram(d.mem, d.queues[i].used + 2, 2)
      && Field(e.mem, d.queues[i].used + 2, 2) == Field(d.mem, d.queues[i].used + 2, 2)
      && (Notify(d, i).Failed? ==> Bit(e.status, NEEDS_RESET))
  {
    hide Loop, Field, Placed, Pending, Undisturbed, Publish, Dist, SetFail;
    SetFailNeedsReset(d);
    var q := d.queues[i];
    var newAvail, u := Field(d.mem, q.avail + 2, 2), Field(d.mem, q.used + 2, 2);
    var l := Loop(d, i, newAvail, u);
    if !Bit(d.status, NEEDS_RESET) && Notify(d, i).d.mem != d.mem {
      assert l.Broken? && Notify(d, i) == l.o;
    }
    if l.Broken? && Notify(d, i) == l.o {
      LoopBroken(d, i, newAvail, u, n);
      SameField(d.mem, l.o.d.mem, q.used, 4, q.used + 2, 2);
    }
  }
}
