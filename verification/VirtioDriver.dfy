/**
 The device as the driver meets it: registers by offset and value, the rings as
 they lie in memory, and what a notification publishes.
 */
module VirtioDriver {
  import opened Bits
  import opened Memory
  import opened VirtioModel
  import opened VirtioRing
  import opened VirtioLemmas
  import opened VirtioRequests

  // ----- Status and failure ------------------------------------------------------------------

  lemma StatusBits(x: nat)
    ensures Bit(x, 2) <==> x / 4 % 2 == 1
    ensures Bit(x, 6) <==> x / 64 % 2 == 1
    ensures SetBit(x, 0) == (if x % 2 == 1 then x else x + 1)
    ensures SetBit(x, 1) == (if x / 2 % 2 == 1 then x else x + 2)
    ensures SetBit(x, 6) == (if x / 64 % 2 == 1 then x else x + 64)
  {
    hide Bit, SetBit, Pow2;
    SmallPowers();
    BitIs(x, 2);
    BitIs(x, 6);
    SetBitAdds(x, 0);
    SetBitAdds(x, 1);
    SetBitAdds(x, 6);
  }

  // A failure sets bit 64 of the status and, for a live driver (bit 4), the
  // configuration interrupt, bit 2, with the line.
  lemma FailureSets(d: Dev)
    ensures var live := d.status / 4 % 2 == 1;
      SetFail(d) == d.(status := if d.status / 64 % 2 == 1 then d.status else d.status + 64,
                       intr := if live && d.intr / 2 % 2 == 0 then d.intr + 2 else d.intr,
                       irq := live || d.irq)
  {
    hide Bit, SetBit;
    StatusBits(d.status);
    StatusBits(d.intr);
    StatusBits(SetBit(d.status, 6));
    LiveKept(d.status);
  }

  lemma LiveKept(x: nat)
    ensures x / 64 % 2 == 0 ==> (x + 64) / 4 % 2 == x / 4 % 2
  {
    DivUnique(x + 64, 4, x / 4 + 16, x % 4);
  }

  // ----- Registers -------------------------------------------------------------------------------

  // A four-byte write of a register, for a device that carries on
  function Wrote(d: Dev, offset: nat, v: U32): Dev
    requires Ok(d)
  {
    var o := WriteAt(d, offset, 4, v).1;
    if o.Crashed? then d else o.d
  }

  // The low and the high half of an address
  lemma HalvesAre(x: U64, v: U32)
    ensures WithHalf(x, false, v) == x / 0x1_0000_0000 * 0x1_0000_0000 + v
    ensures WithHalf(x, true, v) == x % 0x1_0000_0000 + 0x1_0000_0000 * (v as int)
  {
  }

  // The selection of a queue, and the size of the selected one
  lemma SelectionAndSize(d: Dev, v: U32)
    requires Ok(d)
    ensures Wrote(d, 0x030, v) == if v < 2 then d.(queueSel := v) else SetFail(d)
    ensures Wrote(d, 0x038, v) ==
      if 0 < v <= 1024 then WithQueue(d, d.queues[d.queueSel].(num := v)) else SetFail(d)
  {
    hide SetFail, WithQueue;
  }

  // The addresses of its descriptors, available ring and used ring
  lemma LowHalves(d: Dev, v: U32)
    requires Ok(d)
    ensures var q := d.queues[d.queueSel];
      && Wrote(d, 0x080, v) == WithQueue(d, q.(desc := WithHalf(q.desc, false, v)))
      && Wrote(d, 0x090, v) == WithQueue(d, q.(avail := WithHalf(q.avail, false, v)))
      && Wrote(d, 0x0A0, v) == WithQueue(d, q.(used := WithHalf(q.used, false, v)))
  {
    hide SetFail, WithQueue, WithHalf;
  }

  lemma HighHalves(d: Dev, v: U32)
    requires Ok(d)
    ensures var q := d.queues[d.queueSel];
      && Wrote(d, 0x084, v) == WithQueue(d, q.(desc := WithHalf(q.desc, true, v)))
      && Wrote(d, 0x094, v) == WithQueue(d, q.(avail := WithHalf(q.avail, true, v)))
      && Wrote(d, 0x0A4, v) == WithQueue(d, q.(used := WithHalf(q.used, true, v)))
  {
    hide SetFail, WithQueue, WithHalf;
  }

  // Making a queue ready takes the driver's current index as the next to serve.
  lemma QueueBecomesReady(d: Dev, v: U32)
    requires Ok(d)
    ensures var q, on := d.queues[d.queueSel], v % 2 == 1;
      var a := (q.avail + 2) % 0x1_0000_0000_0000_0000;
      Wrote(d, 0x044, v) == WithQueue(d, q.(ready := on,
        lastAvail := if on && Within(d.mem, a, 2) then LoadLE(d.mem, a, 2) % 0x1_0000 else q.lastAvail))
  {
    hide LoadLE;
  }

  lemma {:induction false} KeepsUnacknowledged(x: nat, v: nat, k: nat)
    ensures Bit(AndNot(x, v), k) <==> Bit(x, k) && !Bit(v, k)
  {
    if x == 0 {
      BitOfZero(k);
    } else {
      Digit(AndNot(x, v), AndNot(x / 2, v / 2), if x % 2 == 1 && v % 2 == 0 then 1 else 0);
      if k > 0 { KeepsUnacknowledged(x / 2, v / 2, k - 1); }
    }
  }

  // An acknowledgement clears the interrupt bits it names, and the line with the
  // last of them.
  lemma Acknowledge(d: Dev, v: U32, k: nat)
    requires Ok(d)
    ensures var e := Wrote(d, 0x064, v);
      && e == d.(intr := e.intr, irq := e.irq)
      && (e.intr / Pow2(k) % 2 == 1 <==> d.intr / Pow2(k) % 2 == 1 && v / Pow2(k) % 2 == 0)
      && (e.irq <==> d.irq && e.intr != 0)
  {
    hide Bit, AndNot, Pow2;
    KeepsUnacknowledged(d.intr, v, k);
    BitIs(AndNot(d.intr, v), k);
    BitIs(d.intr, k);
    BitIs(v, k);
  }

  // Status bits accumulate; writing 0 resets all but memory, disk, offered
  // features, capacity and the line. The block size in the configuration is 512.
  lemma StatusRegister(d: Dev, v: U32, k: nat)
    requires Ok(d)
    ensures var e := Wrote(d, 0x070, v);
      if v != 0 then
        && e == d.(status := e.status)
        && (e.status / Pow2(k) % 2 == 1 <==> d.status / Pow2(k) % 2 == 1 || v / Pow2(k) % 2 == 1)
      else
        && e == d.(queueSel := 0, status := 0, intr := 0, deviceSel := 0, driverSel := 0, driverFeatures := 0,
                   queues := [Queue(0, 0, 0, 0, 0, false), Queue(0, 0, 0, 0, 0, false)], config := e.config)
        && e.config[..8] == d.config[..8] && e.config[20..24] == [0, 2, 0, 0]
        && (8 <= k < 68 && !(20 <= k < 24) ==> e.config[k] == 0)
  {
    hide Bit, Or, Pow2;
    if v != 0 {
      BitOfOr(d.status, v, k);
      BitIs(Or(d.status, v), k);
      BitIs(d.status, k);
      BitIs(v, k);
    } else {
      var c := ResetConfig(d.config);
      assert c[20..24] == SectorBytes();
    }
  }

  // The feature registers, and the configuration space from 0x100 on, which
  // takes any size; below it only four-byte writes are accepted.
  lemma FeatureRegisters(d: Dev, at: nat, n: nat, v: U32)
    requires Ok(d)
    ensures Wrote(d, 0x014, v) == d.(deviceSel := v) && Wrote(d, 0x024, v) == d.(driverSel := v)
    ensures Wrote(d, 0x020, v) == if d.driverSel == 0 then d.(driverFeatures := v) else d
    ensures WriteAt(d, 0x050, 4, v) == (true, Notify(d, v))
    ensures at < 0x100 && n != 4 ==> WriteAt(d, at, n, v) == (false, Finished(d))
  {
    hide Notify, SetFail;
  }

  lemma ConfigurationSpace(d: Dev, at: nat, n: nat, v: U32, i: nat)
    requires Ok(d) && i < 68
    ensures var w := WriteAt(d, 0x100 + at, n, v);
      && w.0 && w.1.Finished? && w.1.d == d.(config := w.1.d.config)
      && w.1.d.config[i] == if at <= i < at + n <= 68 then v / Pow2(8 * (i - at)) % 0x100 else d.config[i]
  {
    hide Notify, ToBytes, Pow2, SetFail;
    if at <= i < at + n <= 68 { ByteOfNumber(v, n, i - at); }
  }

  // ----- Notification ------------------------------------------------------------------------------

  // What is checked before the loop runs, in order
  lemma NotifyChecks(d: Dev, i: nat)
    requires Ok(d)
    ensures Notify(d, i) ==
      if i >= 2 then Failed(SetFail(d))
      else if d.status / 64 % 2 == 1 then Finished(d)
      else if d.status / 4 % 2 == 0 || !d.queues[i].ready || !Within(d.mem, d.queues[i].avail, 4) then
        Failed(SetFail(d))
      else
        var q := d.queues[i];
        var idx := LoadLE(d.mem, q.avail + 2, 2) % 0x1_0000;
        if idx - q.lastAvail > q.num % 0x1_0000 then Failed(SetFail(d))
        else if idx == q.lastAvail then Finished(d)
        else if !Within(d.mem, q.used, 4) then Failed(SetFail(d))
        else ServeAvailable(d, i, idx)
  {
    hide Bit, SetFail, ServeAvailable, LoadLE;
    StatusBits(d.status);
  }

  // d after a publication, up to memory, disk and last_avail: bit 1 of the
  // interrupt status and the line, unless bit 0 of the available ring's flags
  // asks for no interrupt.
  predicate Interrupted(d: Dev, e: Dev, q: Queue) {
    && |e.mem| == |d.mem| && Within(e.mem, q.avail, 4)
    && var quiet := LoadLE(e.mem, q.avail, 2) % 2 == 1;
    && e.intr == (if quiet || d.intr % 2 == 1 then d.intr else d.intr + 1)
    && (e.irq <==> d.irq || !quiet)
    && e == d.(mem := e.mem, disk := e.disk, intr := e.intr, irq := e.irq, queues := e.queues)
  }

  lemma PublishInterrupts(d: Dev, i: nat, u: U16)
    requires Ok(d) && i < 2 && InDram(d.mem, d.queues[i].used, 4) && InDram(d.mem, d.queues[i].avail, 4)
    ensures Interrupted(d, Publish(d, i, u), d.queues[i])
  {
    hide Bit, SetBit, LoadLE, StoreLE;
    var q := d.queues[i];
    var m := StoreLE(d.mem, q.used + 2, 2, u);
    assert Field(m, q.avail, 2) == LoadLE(m, q.avail, 2);
    hide Field;
    StatusBits(d.intr);
    FlagsAre(Field(m, q.avail, 2));
  }

  // INTERRUPT: so does every notification that has served something.
  lemma NotifyInterrupts(d: Dev, i: nat)
    requires Ok(d) && i < 2 && Notify(d, i).Finished?
    ensures Notify(d, i).d != d ==> Interrupted(d, Notify(d, i).d, d.queues[i])
  {
    hide Interrupted, Bit, Loop, Field, SetFail, TooFar, Publish;
    var q := d.queues[i];
    if Notify(d, i).d != d {
      var idx, u := Field(d.mem, q.avail + 2, 2), Field(d.mem, q.used + 2, 2);
      LoopShape(d, i, idx, u);
      var l := Loop(d, i, idx, u);
      PublishInterrupts(l.d, i, l.usedIdx);
      Carried(d, l.d, Publish(l.d, i, l.usedIdx), q, l.d.queues[i]);
    }
  }

  lemma Carried(d: Dev, d1: Dev, e: Dev, q: Queue, q1: Queue)
    requires d1 == d.(mem := d1.mem, disk := d1.disk, queues := d1.queues) && |d1.mem| == |d.mem| && q1.avail == q.avail
    requires Interrupted(d1, e, q1)
    ensures Interrupted(d, e, q)
  {
    hide LoadLE;
  }

  // Used element k counted from index u, at used + 4 + 8 * slot, holds the
  // available head k counted from last_avail, at avail + 4 + 2 * slot, and len.
  predicate ElementIs(m: Mem, m': Mem, q: Queue, u: nat, k: nat, len: nat) {
    && q.num > 0 && |m'| == |m|
    && var from, to := q.avail + 4 + 2 * ((q.lastAvail + k) % q.num), q.used + 4 + 8 * ((u + k) % q.num);
    && Within(m, from, 2) && Within(m, to, 8)
    && LoadLE(m', to, 4) == LoadLE(m, from, 2) && LoadLE(m', to + 4, 4) == len
  }

  lemma DoneIsElement(m: Mem, m': Mem, q: Queue, u: U16, k: nat, len: U32)
    requires Placed(m, q) && |m'| == |m| && SlotDone(m, m', q, u, k, len)
    ensures ElementIs(m, m', q, u, k, len)
  {
    hide LoadLE, LenOf, ReadChain;
    var s, t := (q.lastAvail + k) % q.num, (u + k) % q.num;
    RingInside(q, s);
    SlotInDram(m, q, t);
  }

  // One element for each length
  predicate ElementsAre(m: Mem, m': Mem, q: Queue, u: nat, lens: seq<U32>) {
    forall k: nat :: k < |lens| ==> ElementIs(m, m', q, u, k, lens[k])
  }

  lemma RingIsElements(m: Mem, m': Mem, q: Queue, u: U16, lens: seq<U32>)
    requires Placed(m, q) && |m'| == |m| && RingIs(m, m', q, u, lens)
    ensures ElementsAre(m, m', q, u, lens)
  {
    hide Placed, SlotDone, ElementIs, SlotKept, Outside;
    forall k: nat | k < |lens| ensures ElementIs(m, m', q, u, k, lens[k]) {
      DoneIsElement(m, m', q, u, k, lens[k]);
    }
  }

  // RINGS: for a well-placed queue and a driver within bounds, every outstanding
  // entry is published so, with the length that its request returned.
  lemma NotifyPublishes(d: Dev, i: nat, n: nat)
    requires Ok(d) && i < QUEUES && !Bit(d.status, NEEDS_RESET) && Placed(d.mem, d.queues[i])
    requires InDram(d.mem, d.queues[i].avail, 4) && InDram(d.mem, d.queues[i].used, 4)
    requires n == Dist(d.queues[i].lastAvail, Field(d.mem, d.queues[i].avail + 2, 2)) <= d.queues[i].num
    requires Pending(d.mem, d.queues[i], n) && Notify(d, i).Finished?
    ensures var q := d.queues[i];
      var u := Field(d.mem, q.used + 2, 2);
      && |Lens(d, i, Field(d.mem, q.avail + 2, 2), u)| == n
      && ElementsAre(d.mem, Notify(d, i).d.mem, q, u, Lens(d, i, Field(d.mem, q.avail + 2, 2), u))
  {
    hide Bit, Notify, Lens, Field, Pending, Undisturbed, RingIs, ElementsAre, Placed, Dist, LoadLE, ElementIs;
    hide SlotDone, SlotKept, Outside, Head, ChainPlaced, Same, Loop, ServeOne, Request;
    NotifyConserves(d, i, n);
    var q := d.queues[i];
    var u, idx := Field(d.mem, q.used + 2, 2), Field(d.mem, q.avail + 2, 2);
    RingIsElements(d.mem, Notify(d, i).d.mem, q, u, Lens(d, i, idx, u));
  }
}
