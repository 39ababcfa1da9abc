/**
 The VirtIO block device on values: descriptor chains in guest memory, the two
 rings of a queue, one request, and the notification loop over the available
 ring.
 */
module VirtioModel {
  import opened Bits
  import opened Memory

  // status and interrupt bits
  const DRIVER_OK: nat := 2
  const NEEDS_RESET: nat := 6
  const USED_RING: nat := 0
  const CONF_CHANGE: nat := 1
  const NEXT: nat := 0    // descriptor flags
  const WRITE: nat := 1
  const READ_ONLY: nat := 5

  const SECTOR: nat := 512
  const QUEUE_NUM_MAX: nat := 1024
  const QUEUES: nat := 2
  const CONFIG_SPACE: nat := 0x100

  const T_IN: nat := 0
  const T_OUT: nat := 1
  const T_FLUSH: nat := 4
  const T_GET_ID: nat := 8

  const S_OK: Byte := 0
  const S_IOERR: Byte := 1
  const S_UNSUPP: Byte := 2

  function Serial(): seq<Byte> { [0x53, 0x45, 0x52, 0x49, 0x41, 0x4C, 0x30, 0x30, 0x30, 0x31] }

  datatype Queue = Queue(num: U32, desc: U64, avail: U64, used: U64, lastAvail: U16, ready: bool)

  // The configuration space, packed: capacity first, blk_size at 20, disk_size
  // at 60.
  type Config = c: seq<Byte> | |c| == 68 witness seq(68, _ => 0)

  function CapacityOf(c: Config): U64 {
    FromBytesBound(c[..8]);
    Pow2Values();
    FromBytes(c[..8])
  }

  // The bytes of blk_size
  function SectorBytes(): seq<Byte> { [0x00, 0x02, 0x00, 0x00] }

  datatype Dev = Dev(
    mem: Mem, disk: seq<Byte>, queues: seq<Queue>, queueSel: nat,
    status: nat, intr: nat, irq: bool, features: nat,
    deviceSel: U32, driverSel: U32, driverFeatures: U32, config: Config)

  predicate Ok(d: Dev) {
    |d.queues| == QUEUES && d.queueSel < QUEUES && |d.disk| < 0x8000_0000_0000_0000
  }

  function Next16(x: U16): U16 { (x + 1) % 0x1_0000 }

  // How far the 16-bit index `to` is ahead of `from`.
  function Dist(from: U16, to: U16): nat { (to - from) % 0x1_0000 }

  // VirtioBlk::set_fail
  function SetFail(d: Dev): Dev {
    var e := d.(status := SetBit(d.status, NEEDS_RESET));
    if Bit(e.status, DRIVER_OK) then e.(intr := SetBit(d.intr, CONF_CHANGE), irq := true) else e
  }

  // ----- One request ------------------------------------------------------------------

  datatype Desc = Desc(addr: U64, len: U32, flags: U16, next: U16)

  function DescAddr(table: U64, k: U16): U64 { Wrap(table + 16 * k) }

  lemma FieldBound(m: Mem, addr: nat, n: nat)
    requires InDram(m, addr, n)
    ensures n == 2 ==> LoadLE(m, addr, n) < 0x1_0000
    ensures n == 4 ==> LoadLE(m, addr, n) < 0x1_0000_0000
    ensures n == 8 ==> LoadLE(m, addr, n) < 0x1_0000_0000_0000_0000
  {
    hide FromBytes, Pow2;
    FromBytesBound(m[addr - DRAM_BASE..addr - DRAM_BASE + n]);
    FieldPowers();
  }

  lemma FieldPowers()
    ensures Pow2(16) == 0x1_0000 && Pow2(32) == 0x1_0000_0000 && Pow2(64) == 0x1_0000_0000_0000_0000
  {
    Pow2Values();
    Pow2Add(9, 7);
  }

  function Field(m: Mem, addr: nat, n: nat): (r: nat)
    requires InDram(m, addr, n) && (n == 2 || n == 4 || n == 8)
    ensures r == LoadLE(m, addr, n)
    ensures n == 2 ==> r < 0x1_0000
    ensures n == 4 ==> r < 0x1_0000_0000
    ensures n == 8 ==> r < 0x1_0000_0000_0000_0000
  {
    hide LoadLE;
    FieldBound(m, addr, n);
    LoadLE(m, addr, n)
  }

  function ReadDesc(m: Mem, addr: nat): Desc
    requires InDram(m, addr, 16)
  {
    Desc(Field(m, addr, 8), Field(m, addr + 8, 4), Field(m, addr + 12, 2), Field(m, addr + 14, 2))
  }

  datatype Chain = Chain(head: Desc, data: Desc, tail: Desc) | NoChain

  // The three descriptors reached from k, when all lie in memory.
  function ReadChain(m: Mem, table: U64, k: U16): Chain {
    if !InDram(m, DescAddr(table, k), 16) then NoChain else
    var d0 := ReadDesc(m, DescAddr(table, k));
    if !InDram(m, DescAddr(table, d0.next), 16) then NoChain else
    var d1 := ReadDesc(m, DescAddr(table, d0.next));
    if !InDram(m, DescAddr(table, d1.next), 16) then NoChain else
    Chain(d0, d1, ReadDesc(m, DescAddr(table, d1.next)))
  }

  predicate FlagsOk(c: Chain) {
    && c.Chain?
    && Bit(c.head.flags, NEXT) && Bit(c.data.flags, NEXT) && !Bit(c.tail.flags, NEXT)
    && !Bit(c.head.flags, WRITE) && Bit(c.tail.flags, WRITE)
  }

  // The sector range test of read_handler and write_handler
  predicate InDisk(disk: seq<Byte>, sector: U64, len: U32) {
    var offset := Wrap(sector * SECTOR);
    offset < |disk| && offset + len <= |disk|
  }

  // The driver's sector is beyond the capacity: sector > capacity - 1.
  predicate BeyondCapacity(capacity: U64, sector: U64) {
    sector > (if capacity == 0 then 0xFFFF_FFFF_FFFF_FFFF else capacity - 1)
  }

  // The data transfer of a request.
  datatype Transfer = Moved(mem: Mem, disk: seq<Byte>, status: Byte) | Refuse | Throw

  function ReadSectors(m: Mem, disk: seq<Byte>, capacity: U64, sector: U64, b: Desc): Transfer {
    if BeyondCapacity(capacity, sector) || !InDisk(disk, sector, b.len) then Moved(m, disk, S_IOERR)
    else if !InDram(m, b.addr, b.len) then Throw
    else
      var offset := Wrap(sector * SECTOR);
      Moved(StoreBytes(m, b.addr, disk[offset..offset + b.len]), disk, S_OK)
  }

  function Overwrite(s: seq<Byte>, at: nat, b: seq<Byte>): (r: seq<Byte>)
    requires at + |b| <= |s|
    ensures |r| == |s|
  {
    s[..at] + b + s[at + |b|..]
  }

  function WriteSectors(m: Mem, disk: seq<Byte>, capacity: U64, sector: U64, b: Desc): Transfer {
    if BeyondCapacity(capacity, sector) || !InDisk(disk, sector, b.len) then Moved(m, disk, S_IOERR)
    else if !InDram(m, b.addr, b.len) then Throw
    else
      var offset := Wrap(sector * SECTOR);
      Moved(m, Overwrite(disk, offset, m[b.addr - DRAM_BASE..b.addr - DRAM_BASE + b.len]), S_OK)
  }

  function GetId(m: Mem, disk: seq<Byte>, b: Desc): Transfer {
    var n := if b.len < 10 then b.len else 10;
    if !InDram(m, b.addr, n) then Throw else Moved(StoreBytes(m, b.addr, Serial()[..n]), disk, S_OK)
  }

  function DoTransfer(d: Dev, kind: nat, sector: U64, b: Desc): (t: Transfer)
    ensures t.Moved? ==> |t.mem| == |d.mem| && |t.disk| == |d.disk|
  {
    if kind == T_IN then
      if Bit(b.flags, WRITE) then ReadSectors(d.mem, d.disk, CapacityOf(d.config), sector, b) else Refuse
    else if kind == T_OUT then
      if Bit(b.flags, WRITE) then Refuse
      else if Bit(d.features, READ_ONLY) then Moved(d.mem, d.disk, S_IOERR)
      else WriteSectors(d.mem, d.disk, CapacityOf(d.config), sector, b)
    else if kind == T_FLUSH then Moved(d.mem, d.disk, S_OK)
    else if kind == T_GET_ID then
      if Bit(b.flags, WRITE) then GetId(d.mem, d.disk, b) else Refuse
    else Moved(d.mem, d.disk, S_UNSUPP)
  }

  // A reply, a protocol error, an exception of Dram, or a status byte written
  // outside memory without a check.
  datatype Reply = Replied(mem: Mem, disk: seq<Byte>, len: U32) | Refused | Threw | Undefined

  // VirtioBlk::desc_handler
  function Request(d: Dev, table: U64, k: U16): (r: Reply)
    ensures r.Replied? ==> |r.mem| == |d.mem| && |r.disk| == |d.disk|
  {
    var c := ReadChain(d.mem, table, k);
    if !FlagsOk(c) || !InDram(d.mem, c.head.addr, 16) then Refused else
    var t := DoTransfer(d, Field(d.mem, c.head.addr, 4), Field(d.mem, c.head.addr + 8, 8), c.data);
    if t.Refuse? then Refused
    else if t.Throw? then Threw
    else if !InDram(t.mem, c.tail.addr, 1) then Undefined
    else Replied(StoreBytes(t.mem, c.tail.addr, [t.status]), t.disk, if t.status == S_OK then c.data.len else 0)
  }

  // ----- The notification -------------------------------------------------------------

  datatype Outcome =
    | Finished(d: Dev)
    | Failed(d: Dev)     // set_fail was called
    | Thrown(d: Dev)     // an exception left the handler, which ends the emulator
    | Crashed            // division by zero, or a write outside memory

  function RingAddr(q: Queue, idx: U16): U64
    requires q.num > 0
  {
    Wrap(q.avail + 4 + 2 * (idx % q.num))
  }

  function SlotAddr(q: Queue, idx: U16): U64
    requires q.num > 0
  {
    Wrap(q.used + 4 + 8 * (idx % q.num))
  }

  // The head and length stored in a used element.
  function UsedElem(m: Mem, addr: nat, head: U16, len: U32): (r: Mem)
    requires InDram(m, addr, 8)
    ensures |r| == |m|
  {
    StoreLE(StoreLE(m, addr, 4, head), addr + 4, 4, len)
  }

  datatype Iteration = Served(d: Dev) | Stop(o: Outcome)

  // The used element of a request, and the step of last_avail
  function Deliver(d: Dev, i: nat, usedIdx: U16, head: U16, len: U32): (r: Iteration)
    requires Ok(d) && i < QUEUES && d.queues[i].num > 0
    ensures r.Stop? ==> r.o.Failed?
    ensures r.Served? ==> |r.d.mem| == |d.mem|
  {
    var q := d.queues[i];
    if !InDram(d.mem, SlotAddr(q, usedIdx), 8) then Stop(Failed(SetFail(d)))
    else Served(d.(mem := UsedElem(d.mem, SlotAddr(q, usedIdx), head, len),
                   queues := d.queues[i := q.(lastAvail := Next16(q.lastAvail))]))
  }

  // One turn of the loop of queue_notify_handler, up to the two increments.
  function ServeOne(d: Dev, i: nat, usedIdx: U16): (r: Iteration)
    requires Ok(d) && i < QUEUES
    ensures r.Stop? ==> !r.o.Finished?
  {
    var q := d.queues[i];
    if q.num == 0 then Stop(Crashed)
    else if !InDram(d.mem, RingAddr(q, q.lastAvail), 2) then Stop(Failed(SetFail(d)))
    else
      var head := Field(d.mem, RingAddr(q, q.lastAvail), 2);
      var r := Request(d, q.desc, head);
      match r
      case Refused => Stop(Failed(SetFail(SetFail(d))))
      case Threw => Stop(Thrown(d))
      case Undefined => Stop(Crashed)
      case Replied(mem, disk, len) => Deliver(d.(mem := mem, disk := disk), i, usedIdx, head, len)
  }

  datatype LoopEnd = Complete(d: Dev, usedIdx: U16) | Broken(o: Outcome)

  lemma DistNext(from: U16, to: U16)
    requires from != to
    ensures Dist(Next16(from), to) == Dist(from, to) - 1
  {
  }

  lemma DistSame(x: U16, u: U16)
    ensures (u + Dist(x, x)) % 0x1_0000 == u
  {
  }

  lemma UsedAhead(u: U16, n: nat)
    requires n > 0
    ensures (Next16(u) + (n - 1)) % 0x1_0000 == (u + n) % 0x1_0000
  {
  }

  // The loop, which ends for every value the driver may have left in avail.idx.
  function Loop(d: Dev, i: nat, newAvail: U16, usedIdx: U16): (r: LoopEnd)
    requires Ok(d) && i < QUEUES
    ensures r.Broken? ==> !r.o.Finished?
    decreases Dist(d.queues[i].lastAvail, newAvail)
  {
    if d.queues[i].lastAvail == newAvail then Complete(d, usedIdx)
    else
      var s := ServeOne(d, i, usedIdx);
      if s.Stop? then Broken(s.o)
      else
        ServedShape(d, i, usedIdx);
        DistNext(d.queues[i].lastAvail, newAvail);
        Loop(s.d, i, newAvail, Next16(usedIdx))
  }

  lemma ServedShape(d: Dev, i: nat, usedIdx: U16)
    requires Ok(d) && i < QUEUES && ServeOne(d, i, usedIdx).Served?
    ensures var e := ServeOne(d, i, usedIdx).d;
      && Ok(e) && |e.mem| == |d.mem| && |e.disk| == |d.disk|
      && e == d.(mem := e.mem, disk := e.disk,
                 queues := d.queues[i := d.queues[i].(lastAvail := Next16(d.queues[i].lastAvail))])
  {
    hide Request, UsedElem, SetFail, InDram, Field, RingAddr, SlotAddr, Next16;
  }

  // The test `new_avail_idx - last_avail > queue_num`, on promoted integers.
  predicate TooFar(q: Queue, newAvail: U16) { newAvail - q.lastAvail > q.num % 0x1_0000 }

  // The rest of queue_notify_handler after the loop
  function Publish(d: Dev, i: nat, usedIdx: U16): Dev
    requires Ok(d) && i < QUEUES
    requires InDram(d.mem, d.queues[i].used, 4) && InDram(d.mem, d.queues[i].avail, 4)
  {
    var q := d.queues[i];
    var e := d.(mem := StoreLE(d.mem, q.used + 2, 2, usedIdx));
    if Bit(Field(e.mem, q.avail, 2), 0) then e else e.(intr := SetBit(d.intr, USED_RING), irq := true)
  }

  // queue_notify_handler from its loop on
  function ServeAvailable(d: Dev, i: nat, newAvail: U16): Outcome
    requires Ok(d) && i < QUEUES
    requires InDram(d.mem, d.queues[i].used, 4) && InDram(d.mem, d.queues[i].avail, 4)
  {
    var usedIdx := Field(d.mem, d.queues[i].used + 2, 2);
    match Loop(d, i, newAvail, usedIdx)
    case Broken(o) => o
    case Complete(e, last) =>
      LoopShape(d, i, newAvail, usedIdx);
      Finished(Publish(e, i, last))
  }

  // VirtioBlk::queue_notify_handler
  function Notify(d: Dev, index: nat): Outcome
    requires Ok(d)
  {
    if index >= QUEUES then Failed(SetFail(d))
    else if Bit(d.status, NEEDS_RESET) then Finished(d)
    else
      var q := d.queues[index];
      if !Bit(d.status, DRIVER_OK) || !q.ready || !InDram(d.mem, q.avail, 4) then Failed(SetFail(d))
      else
        var newAvail := Field(d.mem, q.avail + 2, 2);
        if TooFar(q, newAvail) then Failed(SetFail(d))
        else if q.lastAvail == newAvail then Finished(d)
        else if !InDram(d.mem, q.used, 4) then Failed(SetFail(d))
        else
          ServeAvailable(d, index, newAvail)
  }

  // A loop that completes has caught up with newAvail and stepped the used
  // index once per available entry; the rest of the device is as before.
  lemma {:induction false} LoopShape(d: Dev, i: nat, newAvail: U16, usedIdx: U16)
    requires Ok(d) && i < QUEUES && Loop(d, i, newAvail, usedIdx).Complete?
    ensures var l := Loop(d, i, newAvail, usedIdx);
      && Ok(l.d) && |l.d.mem| == |d.mem| && |l.d.disk| == |d.disk|
      && l.d == d.(mem := l.d.mem, disk := l.d.disk, queues := d.queues[i := d.queues[i].(lastAvail := newAvail)])
      && l.usedIdx == (usedIdx + Dist(d.queues[i].lastAvail, newAvail)) % 0x1_0000
    decreases Dist(d.queues[i].lastAvail, newAvail)
  {
    hide ServeOne, Dist, Next16;
    if d.queues[i].lastAvail == newAvail {
      DistSame(newAvail, usedIdx);
    } else {
      ServedShape(d, i, usedIdx);
      DistNext(d.queues[i].lastAvail, newAvail);
      UsedAhead(usedIdx, Dist(d.queues[i].lastAvail, newAvail));
      LoopShape(ServeOne(d, i, usedIdx).d, i, newAvail, Next16(usedIdx));
    }
  }

  // ----- The registers --------------------------------------------

  datatype Register =
    | QueueSel(v: U32) | QueueNum(v: U32) | QueueReady(v: U32)
    | QueueDesc(high: bool, v: U32) | QueueDriver(high: bool, v: U32) | QueueDevice(high: bool, v: U32)
    | QueueNotify(v: U32) | InterruptAck(v: U32) | Status(v: U32)
    | DeviceFeaturesSel(v: U32) | DriverFeatures(v: U32) | DriverFeaturesSel(v: U32)
    | ConfigSpace(at: nat, n: nat, v: U32)   // n bytes from at on
    | NoRegister

  function WithQueue(d: Dev, q: Queue): Dev
    requires Ok(d)
  {
    d.(queues := d.queues[d.queueSel := q])
  }

  // x & ~v
  function AndNot(x: nat, v: nat): nat {
    if x == 0 then 0 else (if x % 2 == 1 && v % 2 == 0 then 1 else 0) + 2 * AndNot(x / 2, v / 2)
  }

  // One half of a 64-bit address register
  function WithHalf(x: U64, high: bool, v: U32): U64 {
    if high then x % 0x1_0000_0000 + 0x1_0000_0000 * (v as int)
    else x / 0x1_0000_0000 * 0x1_0000_0000 + v
  }

  // A reset keeps the capacity, sets blk_size and clears the rest, disk_size included.
  function ResetConfig(c: Config): Config {
    c[..8] + seq(12, _ => 0) + SectorBytes() + seq(44, _ => 0)
  }

  function ConfigWrite(c: Config, at: nat, n: nat, v: U32): Config {
    if at + n <= 68 then Overwrite(c, at, ToBytes(v, n)) else c
  }

  // VirtioBlk::update_status
  function UpdateStatus(d: Dev, v: U32): Dev
    requires Ok(d)
  {
    if v == 0 then
      d.(queueSel := 0, status := 0, intr := 0, queues := seq(QUEUES, _ => Queue(0, 0, 0, 0, 0, false)),
         deviceSel := 0, driverSel := 0, driverFeatures := 0, config := ResetConfig(d.config))
    else d.(status := Or(d.status, v))
  }

  // The register at an offset
  function RegisterAt(offset: nat, size: nat, v: U32): Register {
    match offset
    case 0x014 => DeviceFeaturesSel(v)
    case 0x020 => DriverFeatures(v)
    case 0x024 => DriverFeaturesSel(v)
    case 0x030 => QueueSel(v)
    case 0x038 => QueueNum(v)
    case 0x044 => QueueReady(v)
    case 0x050 => QueueNotify(v)
    case 0x064 => InterruptAck(v)
    case 0x070 => Status(v)
    case 0x080 => QueueDesc(false, v)
    case 0x084 => QueueDesc(true, v)
    case 0x090 => QueueDriver(false, v)
    case 0x094 => QueueDriver(true, v)
    case 0x0A0 => QueueDevice(false, v)
    case 0x0A4 => QueueDevice(true, v)
    case _ => if offset >= CONFIG_SPACE then ConfigSpace(offset - CONFIG_SPACE, size, v) else NoRegister
  }

  // VirtioBlk::write_internal for one, two or four bytes: refused, or the
  // outcome of the register write
  function WriteAt(d: Dev, offset: nat, size: nat, value: U32): (bool, Outcome)
    requires Ok(d)
  {
    if offset < CONFIG_SPACE && size != 4 then (false, Finished(d))
    else (true, WriteRegister(d, RegisterAt(offset, size, value)))
  }

  // The switch of VirtioBlk::write_internal
  function WriteRegister(d: Dev, r: Register): Outcome
    requires Ok(d)
  {
    var q := d.queues[d.queueSel];
    match r
    case QueueSel(v) => if v < QUEUES then Finished(d.(queueSel := v)) else Failed(SetFail(d))
    case QueueNum(v) =>
      if 0 < v <= QUEUE_NUM_MAX then Finished(WithQueue(d, q.(num := v))) else Failed(SetFail(d))
    case QueueReady(v) =>
      if v % 2 == 1 && InDram(d.mem, Wrap(q.avail + 2), 2)
      then Finished(WithQueue(d, q.(ready := true, lastAvail := Field(d.mem, Wrap(q.avail + 2), 2))))
      else Finished(WithQueue(d, q.(ready := v % 2 == 1)))
    case QueueDesc(high, v) => Finished(WithQueue(d, q.(desc := WithHalf(q.desc, high, v))))
    case QueueDriver(high, v) => Finished(WithQueue(d, q.(avail := WithHalf(q.avail, high, v))))
    case QueueDevice(high, v) => Finished(WithQueue(d, q.(used := WithHalf(q.used, high, v))))
    case QueueNotify(v) => Notify(d, v)
    case InterruptAck(v) =>
      var e := d.(intr := AndNot(d.intr, v));
      Finished(if e.intr == 0 then e.(irq := false) else e)
    case Status(v) => Finished(UpdateStatus(d, v))
    case DeviceFeaturesSel(v) => Finished(d.(deviceSel := v))
    case DriverFeatures(v) => Finished(if d.driverSel == 0 then d.(driverFeatures := v) else d)
    case DriverFeaturesSel(v) => Finished(d.(driverSel := v))
    case ConfigSpace(at, n, v) => Finished(d.(config := ConfigWrite(d.config, at, n, v)))
    case NoRegister => Finished(d)
  }
}
