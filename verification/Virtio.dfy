/**
 The block device object: registers, queues and disk updated in place next to
 the shared DRAM, each method proved to be its operation of VirtioModel.
 */
module VirtioUnit {
  import opened Bits
  import opened Memory
  import opened VirtioModel
  import opened VirtioLemmas

  // How a handler ends: normally, through set_fail, by an exception, or in
  // behaviour C++ leaves undefined.
  datatype End = Normal | Fail | Exception | Crash

  class VirtioBlk {
    const dram: Dram
    const disk: array<Byte>
    const queues: array<Queue>
    const features: nat
    const config: array<Byte>
    var deviceSel: U32
    var driverSel: U32
    var driverFeatures: U32
    var queueSel: nat
    var status: nat
    var intr: nat
    var irq: bool

    constructor (dram_: Dram, disk_: array<Byte>)
      requires 0 < disk_.Length < 0x8000_0000_0000_0000 && disk_ != dram_.mem
      ensures Valid() && fresh(queues) && fresh(config) && dram == dram_ && disk == disk_
      ensures View() == Dev(dram_.mem[..], disk_[..], [Queue(0, 0, 0, 0, 0, false), Queue(0, 0, 0, 0, 0, false)],
                            0, 0, 0, false, 0, 0, 0, 0, FirstConfig(disk_.Length))
      ensures CapacityOf(View().config) == (disk_.Length - 1) / SECTOR + 1
    {
      dram, disk := dram_, disk_;
      queues := new Queue[QUEUES](_ => Queue(0, 0, 0, 0, 0, false));
      var c := FirstConfig(disk_.Length);
      config := new Byte[68](k requires 0 <= k < 68 => c[k]);
      features, deviceSel, driverSel, driverFeatures := 0, 0, 0, 0;
      queueSel, status, intr, irq := 0, 0, 0, false;
      new;
      assert config[..] == c;
      FirstCapacity(disk_.Length);
    }

    ghost function View(): Dev
      requires config.Length == 68
      reads this, dram.mem, disk, queues, config
    {
      Dev(dram.mem[..], disk[..], queues[..], queueSel, status, intr, irq, features,
          deviceSel, driverSel, driverFeatures, config[..])
    }

    ghost predicate Valid()
      reads this, dram.mem, disk, queues, config
    {
      config.Length == 68 && disk != dram.mem && config != disk && config != dram.mem && Ok(View())
    }

    // VirtioBlk::set_fail
    method SetNeedsReset()
      requires config.Length == 68
      modifies this`status, this`intr, this`irq
      ensures View() == SetFail(old(View()))
    {
      status := SetBit(status, NEEDS_RESET);
      if Bit(status, DRIVER_OK) {
        intr, irq := SetBit(intr, CONF_CHANGE), true;
      }
    }

    // VirtioBlk::update_status
    method StatusWrite(v: U32)
      requires Valid()
      modifies this, queues, config
      ensures Valid() && View() == UpdateStatus(old(View()), v)
    {
      hide Or, ResetConfig;
      status := Or(status, v);
      if v == 0 {
        deviceSel, driverSel, driverFeatures := 0, 0, 0;
        queueSel, status, intr := 0, 0, 0;
        ResetQueues();
        WriteConfig(ResetConfig(config[..]));
      }
    }

    method ResetQueues()
      requires queues.Length == QUEUES
      modifies queues
      ensures queues[..] == seq(QUEUES, _ => Queue(0, 0, 0, 0, 0, false))
    {
      for i := 0 to QUEUES
        invariant forall j :: 0 <= j < i ==> queues[j] == Queue(0, 0, 0, 0, 0, false)
      {
        queues[i] := Queue(0, 0, 0, 0, 0, false);
      }
    }

    method WriteConfig(c: Config)
      requires config.Length == 68
      modifies config
      ensures config[..] == c
    {
      forall k | 0 <= k < 68 { config[k] := c[k]; }
    }

    // VirtioBlk::read_handler
    method ReadHandler(sector: U64, addr: U64, len: U32) returns (ok: bool, threw: bool)
      requires Valid()
      modifies dram.mem
      ensures ok == (InDisk(disk[..], sector, len) && !threw)
      ensures threw == (InDisk(disk[..], sector, len) && !InDram(old(dram.mem[..]), addr, len))
      ensures !ok ==> dram.mem[..] == old(dram.mem[..])
      ensures ok ==>
        dram.mem[..] == StoreBytes(old(dram.mem[..]), addr, disk[Wrap(sector * SECTOR)..Wrap(sector * SECTOR) + len])
    {
      var offset := Wrap(sector * SECTOR);
      if offset >= disk.Length || offset + len > disk.Length { return false, false; }
      if !dram.IsValidAddr(addr, len) { return false, true; }
      dram.WriteBytes(addr, disk[offset..offset + len]);
      return true, false;
    }

    // VirtioBlk::write_handler
    method WriteHandler(sector: U64, addr: U64, len: U32) returns (ok: bool, threw: bool)
      requires Valid()
      modifies disk
      ensures ok == (InDisk(old(disk[..]), sector, len) && !threw)
      ensures threw == (InDisk(old(disk[..]), sector, len) && !InDram(dram.mem[..], addr, len))
      ensures !ok ==> disk[..] == old(disk[..])
      ensures ok ==>
        (disk[..] == Overwrite(old(disk[..]), Wrap(sector * SECTOR),
                               dram.mem[..][addr - DRAM_BASE..addr - DRAM_BASE + len]))
    {
      var offset := Wrap(sector * SECTOR);
      if offset >= disk.Length || offset + len > disk.Length { return false, false; }
      if !dram.IsValidAddr(addr, len) { return false, true; }
      var buffer := dram.mem[addr - DRAM_BASE..addr - DRAM_BASE + len];
      forall k | 0 <= k < len { disk[offset + k] := buffer[k]; }
      assert disk[..] == Overwrite(old(disk[..]), offset, buffer);
      assert buffer == dram.mem[..][addr - DRAM_BASE..addr - DRAM_BASE + len];
      return true, false;
    }

    method ReadDescriptor(addr: nat) returns (b: Desc)
      requires InDram(dram.mem[..], addr, 16)
      ensures b == ReadDesc(dram.mem[..], addr)
    {
      var a := ReadField(addr, 8);
      var len := ReadField(addr + 8, 4);
      var flags := ReadField(addr + 12, 2);
      var next := ReadField(addr + 14, 2);
      b := Desc(a, len, flags, next);
    }

    method ReadField(addr: nat, n: nat) returns (v: nat)
      requires InDram(dram.mem[..], addr, n) && (n == 2 || n == 4 || n == 8)
      ensures v == Field(dram.mem[..], addr, n)
    {
      v := dram.Read(addr, n);
    }

    // The loop over vq_desc in desc_handler
    method ReadThree(table: U64, first: U16) returns (c: Chain)
      ensures c == ReadChain(dram.mem[..], table, first)
    {
      hide ReadDesc, DescAddr, InDram;
      ghost var m := dram.mem[..];
      var descs: seq<Desc> := [];
      var k := first;
      for i := 0 to 3
        invariant |descs| == i
        invariant i == 0 ==> k == first
        invariant i >= 1 ==> InDram(m, DescAddr(table, first), 16) && descs[0] == ReadDesc(m, DescAddr(table, first))
        invariant i >= 1 ==> (i == 1 ==> k == descs[0].next)
        invariant i >= 2 ==> InDram(m, DescAddr(table, descs[0].next), 16)
        invariant i >= 2 ==> descs[1] == ReadDesc(m, DescAddr(table, descs[0].next)) && (i == 2 ==> k == descs[1].next)
        invariant i >= 3 ==> InDram(m, DescAddr(table, descs[1].next), 16)
        invariant i >= 3 ==> descs[2] == ReadDesc(m, DescAddr(table, descs[1].next))
      {
        if !dram.IsValidAddr(DescAddr(table, k), 16) { return NoChain; }
        var b := ReadDescriptor(DescAddr(table, k));
        descs := descs + [b];
        k := b.next;
      }
      c := Chain(descs[0], descs[1], descs[2]);
    }

    // The arms of the switch over the request type

    method ServeIn(sector: U64, b: Desc) returns (end: End, s: Byte)
      requires Valid()
      modifies dram.mem
      ensures TransferDone(ReadSectors(old(dram.mem[..]), disk[..], CapacityOf(config[..]), sector, b), end, s,
                           dram.mem[..], disk[..])
      ensures end != Normal ==> dram.mem[..] == old(dram.mem[..])
    {
      hide Wrap, BeyondCapacity, InDram, InDisk, Bit;
      if BeyondCapacity(CapacityOf(config[..]), sector) { return Normal, S_IOERR; }
      var ok, threw := ReadHandler(sector, b.addr, b.len);
      end, s := if threw then Exception else Normal, if ok then S_OK else S_IOERR;
    }

    method ServeOut(sector: U64, b: Desc) returns (end: End, s: Byte)
      requires Valid()
      modifies disk
      ensures TransferDone(WriteSectors(dram.mem[..], old(disk[..]), CapacityOf(config[..]), sector, b), end, s,
                           dram.mem[..], disk[..])
      ensures end != Normal ==> disk[..] == old(disk[..])
    {
      hide Wrap, BeyondCapacity, InDram, InDisk, Bit;
      if BeyondCapacity(CapacityOf(config[..]), sector) { return Normal, S_IOERR; }
      var ok, threw := WriteHandler(sector, b.addr, b.len);
      end, s := if threw then Exception else Normal, if ok then S_OK else S_IOERR;
    }

    method ServeId(b: Desc) returns (end: End, s: Byte)
      requires Valid()
      modifies dram.mem
      ensures TransferDone(GetId(old(dram.mem[..]), disk[..], b), end, s, dram.mem[..], disk[..])
      ensures end != Normal ==> dram.mem[..] == old(dram.mem[..])
    {
      var n := if b.len < 10 then b.len else 10;
      if !dram.IsValidAddr(b.addr, n) { return Exception, S_OK; }
      dram.WriteBytes(b.addr, Serial()[..n]);
      return Normal, S_OK;
    }

    method Serve(kind: nat, sector: U64, b: Desc) returns (end: End, s: Byte)
      requires Valid()
      modifies dram.mem, disk
      ensures Valid()
      ensures TransferDone(DoTransfer(old(View()), kind, sector, b), end, s, dram.mem[..], disk[..])
      ensures end != Normal ==> dram.mem[..] == old(dram.mem[..]) && disk[..] == old(disk[..])
    {
      hide Bit, ReadSectors, WriteSectors, GetId;
      if kind == T_IN {
        if !Bit(b.flags, WRITE) { return Fail, S_OK; }
        end, s := ServeIn(sector, b);
      } else if kind == T_OUT {
        if Bit(b.flags, WRITE) { return Fail, S_OK; }
        if Bit(features, READ_ONLY) { return Normal, S_IOERR; }
        end, s := ServeOut(sector, b);
      } else if kind == T_FLUSH {
        end, s := Normal, S_OK;
      } else if kind == T_GET_ID {
        if !Bit(b.flags, WRITE) { return Fail, S_OK; }
        end, s := ServeId(b);
      } else {
        end, s := Normal, S_UNSUPP;
      }
    }

    // VirtioBlk::desc_handler
    method DescHandler(table: U64, first: U16) returns (end: End, len: U32)
      requires Valid()
      modifies this`status, this`intr, this`irq, dram.mem, disk
      ensures Valid()
      ensures var r := Request(old(View()), table, first);
        && end == EndOf(r)
        && (r.Replied? ==> View() == old(View()).(mem := r.mem, disk := r.disk) && len == r.len)
        && (r.Refused? ==> View() == SetFail(old(View())))
        && (r.Threw? ==> View() == old(View()))
    {
      hide ReadChain, DoTransfer, Field, SetFail, Bit, StoreBytes, FromBytes, LoadLE;
      len := 0;
      var c := ReadThree(table, first);
      if !FlagsOk(c) || !dram.IsValidAddr(c.head.addr, 16) {
        SetNeedsReset();
        FailShape(old(View()));
        return Fail, len;
      }
      var kind := ReadField(c.head.addr, 4);
      var sector := ReadField(c.head.addr + 8, 8);
      var e, s := Serve(kind, sector, c.data);
      if e == Fail {
        SetNeedsReset();
        FailShape(old(View()));
        return Fail, len;
      }
      if e == Exception { return Exception, len; }
      if !dram.IsValidAddr(c.tail.addr, 1) { return Crash, len; }
      dram.WriteBytes(c.tail.addr, [s]);
      return Normal, if s == S_OK then c.data.len else 0;
    }

    // The body of the loop in queue_notify_handler
    method ServeNext(i: nat, usedIdx: U16) returns (end: End)
      requires Valid() && i < QUEUES
      modifies this`status, this`intr, this`irq, dram.mem, disk, queues
      ensures Valid()
      ensures var r := ServeOne(old(View()), i, usedIdx);
        && (end == Normal <==> r.Served?)
        && (r.Served? ==> View() == r.d)
        && (r.Stop? ==> EndIs(r.o, end, View()))
    {
      hide Request, Field, SetFail, InDram, RingAddr, SlotAddr, Next16;
      ghost var d := View();
      var q := queues[i];
      if q.num == 0 { return Crash; }
      if !dram.IsValidAddr(RingAddr(q, q.lastAvail), 2) {
        SetNeedsReset();
        FailShape(d);
        return Fail;
      }
      var head := ReadField(RingAddr(q, q.lastAvail), 2);
      var len;
      end, len := DescHandler(q.desc, head);
      if end == Fail { SetNeedsReset(); FailShape(d); FailShape(SetFail(d)); return; }
      if end != Normal { return; }
      end := Hand(i, usedIdx, head, len);
    }

    method Hand(i: nat, usedIdx: U16, head: U16, len: U32) returns (end: End)
      requires Valid() && i < QUEUES && queues[i].num > 0
      modifies this`status, this`intr, this`irq, dram.mem, queues
      ensures Valid()
      ensures var r := Deliver(old(View()), i, usedIdx, head, len);
        && (end == Normal <==> r.Served?)
        && (r.Served? ==> View() == r.d)
        && (r.Stop? ==> EndIs(r.o, end, View()))
    {
      hide SetFail, SlotAddr, Next16, StoreLE;
      ghost var d := View();
      var q := queues[i];
      var a: nat := SlotAddr(q, usedIdx);
      if !dram.IsValidAddr(a, 8) {
        SetNeedsReset();
        FailShape(d);
        return Fail;
      }
      dram.Write(a, 4, head);
      dram.Write(a + 4, 4, len);
      queues[i] := q.(lastAvail := Next16(q.lastAvail));
      end := Normal;
    }

    // VirtioBlk::queue_notify_handler
    method QueueNotifyHandler(index: nat) returns (end: End)
      requires Valid()
      modifies this`status, this`intr, this`irq, dram.mem, disk, queues
      ensures Valid()
      ensures EndIs(Notify(old(View()), index), end, View())
    {
      hide SetFail, Field, TooFar, Bit, VirtioModel.ServeAvailable;
      ghost var d := View();
      FailShape(d);
      if index >= QUEUES { SetNeedsReset(); return Fail; }
      if Bit(status, NEEDS_RESET) { return Normal; }
      if !Bit(status, DRIVER_OK) || !queues[index].ready || !dram.IsValidAddr(queues[index].avail, 4) {
        SetNeedsReset();
        return Fail;
      }
      var newAvail := ReadField(queues[index].avail + 2, 2);
      if TooFar(queues[index], newAvail) { SetNeedsReset(); return Fail; }
      if queues[index].lastAvail == newAvail { return Normal; }
      if !dram.IsValidAddr(queues[index].used, 4) { SetNeedsReset(); return Fail; }
      end := ServeAvailable(index, newAvail);
    }

    // The handler from its loop on
    method ServeAvailable(i: nat, newAvail: U16) returns (end: End)
      requires Valid() && i < QUEUES
      requires InDram(dram.mem[..], queues[i].used, 4) && InDram(dram.mem[..], queues[i].avail, 4)
      modifies this`status, this`intr, this`irq, dram.mem, disk, queues
      ensures Valid()
      ensures EndIs(VirtioModel.ServeAvailable(old(View()), i, newAvail), end, View())
    {
      hide ServeOne, Field, Publish, Next16, Dist, Bit, Loop, SetFail;
      ghost var d := View();
      var first := ReadField(queues[i].used + 2, 2);
      var usedIdx;
      end, usedIdx := ServeAll(i, newAvail, first);
      if end != Normal { return; }
      LoopShape(d, i, newAvail, first);
      Finish(i, usedIdx);
    }

    // The loop of queue_notify_handler
    method ServeAll(i: nat, newAvail: U16, first: U16) returns (end: End, usedIdx: U16)
      requires Valid() && i < QUEUES
      modifies this`status, this`intr, this`irq, dram.mem, disk, queues
      ensures Valid()
      ensures var l := Loop(old(View()), i, newAvail, first);
        && (end == Normal <==> l.Complete?)
        && (l.Complete? ==> View() == l.d && usedIdx == l.usedIdx)
        && (l.Broken? ==> EndIs(l.o, end, View()))
    {
      hide ServeOne, Next16, Dist;
      usedIdx := first;
      ghost var l := Loop(View(), i, newAvail, first);
      while queues[i].lastAvail != newAvail
        invariant Valid() && l == Loop(View(), i, newAvail, usedIdx)
        decreases Dist(queues[i].lastAvail, newAvail)
      {
        ghost var d := View();
        end := ServeNext(i, usedIdx);
        if end != Normal { return; }
        ServedShape(d, i, usedIdx);
        DistNext(d.queues[i].lastAvail, newAvail);
        usedIdx := Next16(usedIdx);
      }
      end := Normal;
    }

    // The end of queue_notify_handler: the used index and the interrupt
    method Finish(i: nat, usedIdx: U16)
      requires Valid() && i < QUEUES
      requires InDram(dram.mem[..], queues[i].used, 4) && InDram(dram.mem[..], queues[i].avail, 4)
      modifies this`intr, this`irq, dram.mem
      ensures Valid() && View() == Publish(old(View()), i, usedIdx)
    {
      hide Field, StoreLE, Bit, SetBit;
      dram.Write(queues[i].used + 2, 2, usedIdx);
      var flags := ReadField(queues[i].avail, 2);
      if !Bit(flags, 0) {
        intr, irq := SetBit(intr, USED_RING), true;
      }
    }

    // A write of the configuration space, when it fits
    method WriteConfigBytes(at: nat, b: seq<Byte>)
      requires config.Length == 68
      modifies config
      ensures config[..] == if at + |b| <= 68 then Overwrite(old(config[..]), at, b) else old(config[..])
    {
      if at + |b| <= 68 {
        forall k | 0 <= k < |b| { config[at + k] := b[k]; }
        assert config[..] == Overwrite(old(config[..]), at, b);
      }
    }

    // The arms of queue selection and of the selected queue
    method QueueRegisterWrite(r: Register) returns (end: End)
      requires Valid() && OfQueue(r)
      modifies this`queueSel, this`status, this`intr, this`irq, queues
      ensures Valid()
      ensures EndIs(WriteRegister(old(View()), r), end, View())
    {
      hide SetFail, Notify, UpdateStatus, Field, InDram, Wrap, WithHalf, ToBytes, Overwrite, AndNot, ConfigWrite;
      FailShape(View());
      var q := queues[queueSel];
      end := Normal;
      match r {
        case QueueSel(v) =>
          if v < QUEUES { queueSel := v; } else { SetNeedsReset(); end := Fail; }
        case QueueNum(v) =>
          if 0 < v <= QUEUE_NUM_MAX { queues[queueSel] := q.(num := v); } else { SetNeedsReset(); end := Fail; }
        case QueueReady(v) =>
          queues[queueSel] := q.(ready := v % 2 == 1);
          if v % 2 == 1 && dram.IsValidAddr(Wrap(q.avail + 2), 2) {
            var idx := ReadField(Wrap(q.avail + 2), 2);
            queues[queueSel] := queues[queueSel].(lastAvail := idx);
          }
        case QueueDesc(high, v) => queues[queueSel] := q.(desc := WithHalf(q.desc, high, v));
        case QueueDriver(high, v) => queues[queueSel] := q.(avail := WithHalf(q.avail, high, v));
        case QueueDevice(high, v) => queues[queueSel] := q.(used := WithHalf(q.used, high, v));
      }
    }

    // The switch of VirtioBlk::write_internal
    method RegisterWrite(r: Register) returns (end: End)
      requires Valid()
      modifies this, dram.mem, disk, queues, config
      ensures Valid()
      ensures EndIs(WriteRegister(old(View()), r), end, View())
    {
      hide SetFail, Notify, UpdateStatus, Field, InDram, Wrap, WithHalf, ToBytes, Overwrite, AndNot;
      end := Normal;
      match r {
        case QueueSel(_) | QueueNum(_) | QueueReady(_) | QueueDesc(_, _) | QueueDriver(_, _) | QueueDevice(_, _) =>
          end := QueueRegisterWrite(r);
        case QueueNotify(v) => end := QueueNotifyHandler(v);
        case InterruptAck(v) =>
          intr := AndNot(intr, v);
          if intr == 0 { irq := false; }
        case Status(v) => StatusWrite(v);
        case DeviceFeaturesSel(v) => deviceSel := v;
        case DriverFeatures(v) => if driverSel == 0 { driverFeatures := v; }
        case DriverFeaturesSel(v) => driverSel := v;
        case ConfigSpace(at, n, v) => WriteConfigBytes(at, ToBytes(v, n));
        case NoRegister =>
      }
    }

    // VirtioBlk::write_internal for one, two or four bytes
    method WriteSmall(offset: nat, size: nat, value: U32) returns (accepted: bool, end: End)
      requires Valid()
      modifies this, dram.mem, disk, queues, config
      ensures Valid()
      ensures var w := WriteAt(old(View()), offset, size, value); accepted == w.0 && EndIs(w.1, end, View())
    {
      hide WriteRegister, RegisterAt, Ok;
      if offset < CONFIG_SPACE && size != 4 { return false, Normal; }
      end := RegisterWrite(RegisterAt(offset, size, value));
      accepted := true;
    }

    // VirtioBlk::write_internal for eight bytes: both halves, unless the first throws
    method WriteInternal(offset: nat, size: nat, value: U64) returns (accepted: bool, end: End)
      requires Valid() && (size == 1 || size == 2 || size == 4 || size == 8)
      modifies this, dram.mem, disk, queues, config
      ensures Valid()
      ensures size != 8 ==>
        (var w := WriteAt(old(View()), offset, size, value % 0x1_0000_0000); accepted == w.0 && EndIs(w.1, end, View()))
      ensures size == 8 ==>
        (var w := WriteTwice(old(View()), offset, value % 0x1_0000_0000, value / 0x1_0000_0000);
         accepted && EndIs(w, end, View()))
    {
      hide WriteRegister, RegisterAt, Ok;
      if size == 8 {
        accepted, end := WriteSmall(offset, 4, value % 0x1_0000_0000);
        if end == Exception || end == Crash { return; }
        accepted, end := WriteSmall(offset + 4, 4, value / 0x1_0000_0000);
      } else {
        accepted, end := WriteSmall(offset, size, value % 0x1_0000_0000);
      }
    }
  }

  // The configuration space after open_disk
  function FirstConfig(n: nat): Config
    requires 0 < n < 0x8000_0000_0000_0000
  {
    ToBytes((n - 1) / SECTOR + 1, 8) + seq(12, _ => 0) + SectorBytes() + seq(36, _ => 0) + ToBytes(n, 8)
  }

  lemma FirstCapacity(n: nat)
    requires 0 < n < 0x8000_0000_0000_0000
    ensures CapacityOf(FirstConfig(n)) == (n - 1) / SECTOR + 1
  {
    var c := ToBytes((n - 1) / SECTOR + 1, 8);
    assert FirstConfig(n)[..8] == c;
    Pow2Values();
    FromToBytes((n - 1) / SECTOR + 1, 8);
  }

  // A handler has ended as o says, with the device at d.
  // A register of the selected queue, or the selection
  predicate OfQueue(r: Register) {
    r.QueueSel? || r.QueueNum? || r.QueueReady? || r.QueueDesc? || r.QueueDriver? || r.QueueDevice?
  }

  predicate EndIs(o: Outcome, end: End, d: Dev) {
    match o
    case Finished(e) => end == Normal && d == e
    case Failed(e) => end == Fail && d == e
    case Thrown(e) => end == Exception && d == e
    case Crashed => end == Crash
  }

  // A transfer has ended as t says.
  predicate TransferDone(t: Transfer, end: End, s: Byte, m: Mem, disk: seq<Byte>) {
    && end == (if t.Moved? then Normal else if t.Refuse? then Fail else Exception)
    && (t.Moved? ==> m == t.mem && disk == t.disk && s == t.status)
  }

  function EndOf(r: Reply): End {
    match r
    case Replied(_, _, _) => Normal
    case Refused => Fail
    case Threw => Exception
    case Undefined => Crash
  }

  lemma FailShape(d: Dev)
    requires Ok(d)
    ensures Ok(SetFail(d))
  {
  }
}
