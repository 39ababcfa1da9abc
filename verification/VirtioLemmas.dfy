/**
 Requests against the disk, and the device over runs of register writes with
 guest stores between them.
 */
module VirtioLemmas {
  import opened Bits
  import opened Memory
  import opened VirtioModel

  // ----- The disk ---------------------------------------------------------------------

  // A transfer on an in-range sector with its buffer in memory.
  predicate CanTransfer(m: Mem, disk: seq<Byte>, capacity: U64, sector: U64, b: Desc) {
    !BeyondCapacity(capacity, sector) && InDisk(disk, sector, b.len) && InDram(m, b.addr, b.len)
  }

  // A sector write followed by a sector read into any buffer of the same length
  // returns the bytes written, and neither touches the rest of disk or memory.
  lemma ReadBackWrites(m: Mem, disk: seq<Byte>, capacity: U64, sector: U64, src: Desc, m2: Mem, dst: Desc)
    requires CanTransfer(m, disk, capacity, sector, src) && dst.len == src.len && InDram(m2, dst.addr, dst.len)
    ensures var w := WriteSectors(m, disk, capacity, sector, src);
      w.Moved? && w.status == S_OK && w.mem == m && |w.disk| == |disk|
      && var r := ReadSectors(m2, w.disk, capacity, sector, dst);
      r.Moved? && r.status == S_OK && r.disk == w.disk && |r.mem| == |m2|
      && r.mem[dst.addr - DRAM_BASE..dst.addr - DRAM_BASE + dst.len]
         == m[src.addr - DRAM_BASE..src.addr - DRAM_BASE + src.len]
      && (forall k :: 0 <= k < |m2| && !(dst.addr - DRAM_BASE <= k < dst.addr - DRAM_BASE + dst.len) ==>
           r.mem[k] == m2[k])
  {
    hide Wrap, BeyondCapacity;
    var offset := Wrap(sector * SECTOR);
    var bytes := m[src.addr - DRAM_BASE..src.addr - DRAM_BASE + src.len];
    OverwriteHolds(disk, offset, bytes);
  }

  lemma OverwriteHolds(s: seq<Byte>, at: nat, b: seq<Byte>)
    requires at + |b| <= |s|
    ensures Overwrite(s, at, b)[at..at + |b|] == b
    ensures forall k :: 0 <= k < |s| && !(at <= k < at + |b|) ==> Overwrite(s, at, b)[k] == s[k]
  {
  }

  // A write changes only its own byte range of the disk.
  lemma WriteFrame(m: Mem, disk: seq<Byte>, capacity: U64, sector: U64, b: Desc, k: nat)
    requires k < |disk| && WriteSectors(m, disk, capacity, sector, b).Moved?
    requires !(Wrap(sector * SECTOR) <= k < Wrap(sector * SECTOR) + b.len)
    ensures var t := WriteSectors(m, disk, capacity, sector, b); |t.disk| == |disk| && t.disk[k] == disk[k]
  {
    hide Wrap, BeyondCapacity;
    if CanTransfer(m, disk, capacity, sector, b) {
      OverwriteHolds(disk, Wrap(sector * SECTOR), m[b.addr - DRAM_BASE..b.addr - DRAM_BASE + b.len]);
    }
  }

  // The device can only change the disk by a write request it accepted: every
  // other request leaves it as it was.
  lemma OnlyWritesChangeDisk(d: Dev, kind: nat, sector: U64, b: Desc)
    requires DoTransfer(d, kind, sector, b).Moved?
    ensures DoTransfer(d, kind, sector, b).disk != d.disk ==>
      && kind == T_OUT && !Bit(b.flags, WRITE) && !Bit(d.features, READ_ONLY)
      && CanTransfer(d.mem, d.disk, CapacityOf(d.config), sector, b) && DoTransfer(d, kind, sector, b).mem == d.mem
  {
    hide Wrap, Bit;
  }

  // ----- Runs of register writes and guest stores -----------------------------------------

  // The runs go on after an exception left the handler. In the emulator it ends
  // there, because Bus::write and Device::write are noexcept: what holds over
  // these runs holds over those.
  function After(o: Outcome, d: Dev): Dev { if o.Crashed? then d else o.d }

  // What the driver does: a register write, or a store to memory (its rings,
  // descriptors and buffers included).
  datatype Event = RegisterWrite(r: Register) | GuestStore(addr: nat, data: seq<Byte>)

  function StoreGuest(m: Mem, addr: nat, data: seq<Byte>): Mem {
    if InDram(m, addr, |data|) then StoreBytes(m, addr, data) else m
  }

  function Step(d: Dev, ev: Event): (e: Dev)
    requires Ok(d)
    ensures Ok(e)
  {
    match ev
    case RegisterWrite(r) =>
      RegisterOk(d, r);
      After(WriteRegister(d, r), d)
    case GuestStore(addr, data) => d.(mem := StoreGuest(d.mem, addr, data))
  }

  function Run(d: Dev, evs: seq<Event>): (e: Dev)
    requires Ok(d)
    ensures Ok(e)
    decreases |evs|
  {
    if evs == [] then d else Run(Step(d, evs[0]), evs[1..])
  }

  predicate NoReset(evs: seq<Event>) { forall ev :: ev in evs ==> ev != RegisterWrite(Status(0)) }

  // The line is up exactly while an interrupt bit is set.
  predicate LineTracks(d: Dev) { d.irq <==> d.intr != 0 }

  predicate Sane(d: Dev) { Ok(d) && forall q :: q in d.queues ==> q.num <= QUEUE_NUM_MAX }

  lemma SetBitNonzero(x: nat, k: nat)
    ensures SetBit(x, k) > 0
  {
    BitOfSetBit(x, k, k);
    BitOfZero(k);
  }

  lemma SetFailLine(d: Dev)
    requires LineTracks(d)
    ensures LineTracks(SetFail(d))
  {
    SetBitNonzero(d.intr, CONF_CHANGE);
    hide SetBit, Bit;
  }

  // Up to the publication, a notification touches the line only through set_fail.
  lemma ServeOneLine(d: Dev, i: nat, u: U16)
    requires Ok(d) && i < QUEUES && LineTracks(d)
    ensures var s := ServeOne(d, i, u);
      && (s.Served? ==> LineTracks(s.d))
      && (s.Stop? && !s.o.Crashed? ==> LineTracks(s.o.d))
  {
    SetFailLine(d);
    SetFailLine(SetFail(d));
    if d.queues[i].num > 0 && InDram(d.mem, RingAddr(d.queues[i], d.queues[i].lastAvail), 2) {
      var r := Request(d, d.queues[i].desc, Field(d.mem, RingAddr(d.queues[i], d.queues[i].lastAvail), 2));
      if r.Replied? { SetFailLine(d.(mem := r.mem, disk := r.disk)); }
    }
    hide SetFail, Request, Field, UsedElem, RingAddr, SlotAddr;
  }

  lemma {:induction false} LoopLine(d: Dev, i: nat, newAvail: U16, u: U16)
    requires Ok(d) && i < QUEUES && LineTracks(d)
    ensures var l := Loop(d, i, newAvail, u);
      && (l.Complete? ==> LineTracks(l.d))
      && (l.Broken? && !l.o.Crashed? ==> LineTracks(l.o.d))
    decreases Dist(d.queues[i].lastAvail, newAvail)
  {
    hide ServeOne, LineTracks, Dist, Next16;
    if d.queues[i].lastAvail != newAvail {
      ServeOneLine(d, i, u);
      if ServeOne(d, i, u).Served? {
        ServedShape(d, i, u);
        DistNext(d.queues[i].lastAvail, newAvail);
        LoopLine(ServeOne(d, i, u).d, i, newAvail, Next16(u));
      }
    }
  }

  lemma PublishLine(d: Dev, i: nat, u: U16)
    requires Ok(d) && i < QUEUES && LineTracks(d)
    requires InDram(d.mem, d.queues[i].used, 4) && InDram(d.mem, d.queues[i].avail, 4)
    ensures LineTracks(Publish(d, i, u))
  {
    SetBitNonzero(d.intr, USED_RING);
    hide SetBit, Field, Bit, StoreLE;
  }

  lemma NotifyLine(d: Dev, i: nat)
    requires Ok(d) && LineTracks(d) && !Notify(d, i).Crashed?
    ensures LineTracks(Notify(d, i).d)
  {
    hide LineTracks, Loop, Field, Publish, SetFail, Bit, SetBit, Dist, LoadLE, TooFar;
    SetFailLine(d);
    if i < QUEUES && InDram(d.mem, d.queues[i].avail, 4) && InDram(d.mem, d.queues[i].used, 4) {
      var newAvail, u := Field(d.mem, d.queues[i].avail + 2, 2), Field(d.mem, d.queues[i].used + 2, 2);
      LoopLine(d, i, newAvail, u);
      var l := Loop(d, i, newAvail, u);
      if l.Complete? {
        LoopShape(d, i, newAvail, u);
        PublishLine(l.d, i, l.usedIdx);
      }
    }
  }

  // Over every register write the interrupt line tracks the interrupt bits,
  // except that a device reset clears the bits without lowering the line.
  lemma LineTracksUnlessReset(d: Dev, r: Register)
    requires Ok(d) && LineTracks(d) && !WriteRegister(d, r).Crashed?
    ensures LineTracks(WriteRegister(d, r).d) <==> !(r == Status(0) && d.irq)
  {
    SetFailLine(d);
    if r.QueueNotify? { NotifyLine(d, r.v); }
    hide Notify, SetFail, Field, InDram, Wrap, Or;
  }

  // A run that leaves the line up with no interrupt bit set: after DRIVER_OK a
  // refused queue size raises the interrupt, and a reset clears only the bits.
  lemma ResetLeavesLineUp(d: Dev)
    requires Ok(d) && d.status == 0 && d.intr == 0 && !d.irq
    ensures var e := Run(d, [RegisterWrite(Status(4)), RegisterWrite(QueueNum(0)), RegisterWrite(Status(0))]);
      e.irq && e.intr == 0
  {
    hide WriteRegister;
    var a, b, c := RegisterWrite(Status(4)), RegisterWrite(QueueNum(0)), RegisterWrite(Status(0));
    assert [a, b, c][1..] == [b, c] && [b, c][1..] == [c] && [c][1..] == [];
    var d1 := Step(d, a);
    var d2 := Step(d1, b);
    DriverOk(d);
    RefusedSize(d1);
    ResetWrite(d2);
    assert Run(d, [a, b, c]) == Run(d1, [b, c]) == Run(d2, [c]) == Run(Step(d2, c), []);
  }

  lemma DriverOk(d: Dev)
    requires Ok(d) && d.status == 0
    ensures WriteRegister(d, Status(4)) == Finished(d.(status := 4))
  {
  }

  lemma RefusedSize(d: Dev)
    requires Ok(d) && d.status == 4
    ensures WriteRegister(d, QueueNum(0)).Failed? && WriteRegister(d, QueueNum(0)).d.irq
  {
    assert Bit(4, DRIVER_OK);
    BitOfSetBit(4, NEEDS_RESET, DRIVER_OK);
  }

  lemma ResetWrite(d: Dev)
    requires Ok(d)
    ensures var o := WriteRegister(d, Status(0)); o.Finished? && o.d.irq == d.irq && o.d.intr == 0
  {
  }

  // ----- Failure is final until a reset -----------------------------------------------------

  lemma NotifyOk(d: Dev, i: nat)
    requires Ok(d) && !Notify(d, i).Crashed?
    ensures Ok(Notify(d, i).d)
  {
    hide Loop, Field, Bit, SetBit, StoreLE;
    if i < QUEUES && InDram(d.mem, d.queues[i].avail, 4) && InDram(d.mem, d.queues[i].used, 4) {
      var newAvail, u := Field(d.mem, d.queues[i].avail + 2, 2), Field(d.mem, d.queues[i].used + 2, 2);
      var l := Loop(d, i, newAvail, u);
      LoopOk(d, i, newAvail, u);
      if l.Complete? { LoopShape(d, i, newAvail, u); }
    }
  }

  lemma {:induction false} LoopOk(d: Dev, i: nat, newAvail: U16, u: U16)
    requires Ok(d) && i < QUEUES
    ensures var l := Loop(d, i, newAvail, u); l.Broken? && !l.o.Crashed? ==> Ok(l.o.d)
    decreases Dist(d.queues[i].lastAvail, newAvail)
  {
    hide Dist, Next16, Request, Field, InDram, Bit, SetBit, UsedElem, RingAddr, SlotAddr;
    if d.queues[i].lastAvail != newAvail && ServeOne(d, i, u).Served? {
      ServedShape(d, i, u);
      DistNext(d.queues[i].lastAvail, newAvail);
      LoopOk(ServeOne(d, i, u).d, i, newAvail, Next16(u));
    }
  }

  lemma RegisterOk(d: Dev, r: Register)
    requires Ok(d)
    ensures Ok(After(WriteRegister(d, r), d))
  {
    if r.QueueNotify? && !Notify(d, r.v).Crashed? { NotifyOk(d, r.v); }
    hide Notify, Bit, SetBit, Field, InDram, Wrap, Or;
  }

  // An eight-byte write is two four-byte writes; an exception ends it.
  function WriteTwice(d: Dev, offset: nat, low: U32, high: U32): Outcome
    requires Ok(d)
  {
    var r := RegisterAt(offset, 4, low);
    RegisterOk(d, r);
    var o := WriteRegister(d, r);
    if o.Thrown? || o.Crashed? then o else WriteRegister(o.d, RegisterAt(offset + 4, 4, high))
  }

  lemma FailedWrite(d: Dev, r: Register)
    requires Ok(d) && Bit(d.status, NEEDS_RESET) && r != Status(0)
    ensures var e := After(WriteRegister(d, r), d);
      Bit(e.status, NEEDS_RESET) && e.mem == d.mem && e.disk == d.disk
  {
    BitOfSetBit(d.status, NEEDS_RESET, NEEDS_RESET);
    if r.Status? { BitOfOr(d.status, r.v, NEEDS_RESET); }
    hide Loop, Bit, SetBit, Or, Field, InDram, Wrap;
  }

  // Memory after the guest's own stores
  function GuestMemory(m: Mem, evs: seq<Event>): Mem
    decreases |evs|
  {
    if evs == [] then m
    else if evs[0].RegisterWrite? then GuestMemory(m, evs[1..])
    else GuestMemory(StoreGuest(m, evs[0].addr, evs[0].data), evs[1..])
  }

  // After a failure the device writes neither guest memory nor disk, whatever
  // registers the driver writes and whatever it stores, until it is reset.
  lemma {:induction false} FailedDeviceIsInert(d: Dev, evs: seq<Event>)
    requires Ok(d) && Bit(d.status, NEEDS_RESET) && NoReset(evs)
    ensures var e := Run(d, evs);
      Bit(e.status, NEEDS_RESET) && e.mem == GuestMemory(d.mem, evs) && e.disk == d.disk
    decreases |evs|
  {
    hide WriteRegister, Bit, StoreGuest;
    if evs != [] {
      assert evs[0] in evs && forall ev :: ev in evs[1..] ==> ev in evs;
      if evs[0].RegisterWrite? { FailedWrite(d, evs[0].r); }
      FailedDeviceIsInert(Step(d, evs[0]), evs[1..]);
    }
  }

  // The queue sizes the registers accept keep the guard's 16-bit cast exact.
  lemma {:induction false} QueueSizesStaySane(d: Dev, evs: seq<Event>)
    requires Sane(d)
    ensures Sane(Run(d, evs))
    decreases |evs|
  {
    hide WriteRegister, StoreGuest;
    if evs != [] {
      if evs[0].RegisterWrite? { RegisterSane(d, evs[0].r); }
      QueueSizesStaySane(Step(d, evs[0]), evs[1..]);
    }
  }

  lemma ServeOneSane(d: Dev, i: nat, u: U16)
    requires Sane(d) && i < QUEUES
    ensures var s := ServeOne(d, i, u);
      (s.Served? ==> Sane(s.d)) && (s.Stop? && !s.o.Crashed? ==> Sane(s.o.d))
  {
    hide Next16, Request, Field, InDram, Bit, SetBit, UsedElem, RingAddr, SlotAddr;
  }

  lemma {:induction false} LoopSane(d: Dev, i: nat, newAvail: U16, u: U16)
    requires Sane(d) && i < QUEUES
    ensures var l := Loop(d, i, newAvail, u);
      (l.Complete? ==> Sane(l.d)) && (l.Broken? && !l.o.Crashed? ==> Sane(l.o.d))
    decreases Dist(d.queues[i].lastAvail, newAvail)
  {
    hide Dist, Next16, ServeOne;
    if d.queues[i].lastAvail != newAvail {
      ServeOneSane(d, i, u);
      if ServeOne(d, i, u).Served? {
        ServedShape(d, i, u);
        DistNext(d.queues[i].lastAvail, newAvail);
        LoopSane(ServeOne(d, i, u).d, i, newAvail, Next16(u));
      }
    }
  }

  lemma NotifySane(d: Dev, i: nat)
    requires Sane(d) && !Notify(d, i).Crashed?
    ensures Sane(Notify(d, i).d)
  {
    hide Loop, Field, Bit, SetBit, StoreLE;
    if i < QUEUES && InDram(d.mem, d.queues[i].avail, 4) && InDram(d.mem, d.queues[i].used, 4) {
      var newAvail, u := Field(d.mem, d.queues[i].avail + 2, 2), Field(d.mem, d.queues[i].used + 2, 2);
      LoopSane(d, i, newAvail, u);
      if Loop(d, i, newAvail, u).Complete? { LoopShape(d, i, newAvail, u); }
    }
  }

  lemma RegisterSane(d: Dev, r: Register)
    requires Sane(d)
    ensures Sane(After(WriteRegister(d, r), d))
  {
    if r.QueueNotify? && !Notify(d, r.v).Crashed? { NotifySane(d, r.v); }
    hide Notify, Bit, SetBit, Field, InDram, Wrap, Or, WithHalf;
  }

  // The line tracks the interrupt bits over every run without a reset.
  lemma {:induction false} LineTracksWithoutReset(d: Dev, evs: seq<Event>)
    requires Ok(d) && LineTracks(d) && NoReset(evs)
    ensures LineTracks(Run(d, evs))
    decreases |evs|
  {
    hide WriteRegister, StoreGuest;
    if evs != [] {
      assert evs[0] in evs && forall ev :: ev in evs[1..] ==> ev in evs;
      var ev := evs[0];
      if ev.RegisterWrite? && !WriteRegister(d, ev.r).Crashed? { LineTracksUnlessReset(d, ev.r); }
      LineTracksWithoutReset(Step(d, ev), evs[1..]);
    }
  }
}
