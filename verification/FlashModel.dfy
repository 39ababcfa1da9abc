/**
 The CFI parallel flash as a state machine on values: the write-cycle machine,
 the staged block buffer, and what each write does to the storage.
 */
module FlashModel {
  import opened Bits
  import opened Memory

  const BLOCK: nat := 0x1000   // two devices of 2^11 bytes each
  const NO_BLOCK: int := -1
  const READY: nat := 7        // status bits
  const ERROR: nat := 4

  datatype Flash = Flash(
    storage: seq<Byte>, sectorLen: nat,
    wcycle: nat, cmd: Byte, status: Byte, counter: nat,
    blk: seq<Byte>, blkOffset: int, readMode: bool)

  // The geometry the constructor sets up: whole sectors of whole write blocks.
  predicate Shape(f: Flash) {
    && |f.blk| == BLOCK && f.sectorLen > 0
    && |f.storage| % f.sectorLen == 0 && |f.storage| % BLOCK == 0 && |f.storage| < 0x1_0000_0000
    && (f.blkOffset == NO_BLOCK || (0 <= f.blkOffset && f.blkOffset + BLOCK <= |f.storage|))
  }

  // A bus write inside the device.
  type Width = n: nat | n <= 8

  datatype Access = Access(offset: nat, size: Width, value: U32)

  predicate Fits(f: Flash, a: Access) {
    (a.size == 1 || a.size == 2 || a.size == 4) && a.offset + a.size <= |f.storage|
  }

  function Replace(s: seq<Byte>, at: nat, b: seq<Byte>): (r: seq<Byte>)
    requires at + |b| <= |s|
    ensures |r| == |s|
    ensures forall k :: 0 <= k < |s| ==> r[k] == if at <= k < at + |b| then b[k - at] else s[k]
  {
    s[..at] + b + s[at + |b|..]
  }

  function SetStatus(x: Byte, bit: nat): Byte
    requires bit < 8
  {
    assert Pow2(8) == 0x100;
    SetBitBound(x, bit, 8);
    SetBit(x, bit)
  }

  // The label mode_read_array
  function ReadArray(f: Flash): Flash { f.(readMode := true, wcycle := 0, cmd := 0) }

  function SectorStart(f: Flash, offset: nat): nat
    requires Shape(f)
  {
    offset - offset % f.sectorLen
  }

  lemma WholeSectors(n: nat, s: nat, offset: nat)
    requires s > 0 && n % s == 0 && offset < n
    ensures 0 <= offset - offset % s && offset - offset % s + s <= n
  {
    var q, m := offset / s, n / s;
    assert offset == q * s + offset % s && n == m * s;
    if m <= q {
      MulGap(m, q + 1, s);
      assert false;
    }
    MulGap(q, m, s);
  }

  lemma SectorFits(f: Flash, offset: nat)
    requires Shape(f) && offset < |f.storage|
    ensures SectorStart(f, offset) + f.sectorLen <= |f.storage|
  {
    WholeSectors(|f.storage|, f.sectorLen, offset);
  }

  function Erased(n: nat): seq<Byte> { seq(n, _ => 0xFF) }

  // The erase of the sector holding offset
  function Erase(f: Flash, offset: nat): Flash
    requires Shape(f) && offset < |f.storage|
  {
    SectorFits(f, offset);
    f.(storage := Replace(f.storage, SectorStart(f, offset), Erased(f.sectorLen)))
  }

  // PFlashCFI01::data_write
  function DataWrite(f: Flash, a: Access): Flash
    requires Shape(f) && Fits(f, a)
  {
    var bytes := ToBytes(a.value, a.size);
    if f.blkOffset != NO_BLOCK then
      if a.offset < f.blkOffset || a.offset + a.size > f.blkOffset + BLOCK
      then f.(status := SetStatus(f.status, ERROR))
      else f.(blk := Replace(f.blk, a.offset - f.blkOffset, bytes))
    else f.(storage := Replace(f.storage, a.offset, bytes))
  }

  function BlockStart(offset: nat): nat { offset - offset % BLOCK }

  lemma BlockFits(f: Flash, offset: nat)
    requires Shape(f) && offset < |f.storage|
    ensures BlockStart(offset) + BLOCK <= |f.storage|
  {
  }

  // PFlashCFI01::blk_write_start
  function StartBlock(f: Flash, offset: nat): Flash
    requires Shape(f) && offset < |f.storage|
  {
    BlockFits(f, offset);
    var b := BlockStart(offset);
    f.(blkOffset := b, blk := f.storage[b..b + BLOCK])
  }

  // PFlashCFI01::blk_write_flush
  function FlushBlock(f: Flash): Flash
    requires Shape(f)
  {
    if f.blkOffset == NO_BLOCK then f
    else f.(storage := Replace(f.storage, f.blkOffset, f.blk), blkOffset := NO_BLOCK)
  }

  function Ready(f: Flash): Flash { f.(status := SetStatus(f.status, READY)) }

  // Write cycle 0: a command.
  function Command(f: Flash, a: Access): Flash
    requires Shape(f) && Fits(f, a)
  {
    var cmd := a.value % 0x100;
    var g := f.(readMode := false);
    if cmd == 0x20 || cmd == 0x28 then Ready(Erase(g, a.offset).(wcycle := 1, cmd := cmd))
    else if cmd == 0x50 then ReadArray(g.(status := 0))
    else if cmd == 0x70 || cmd == 0x90 then g.(cmd := cmd)
    else if cmd == 0xE8 then Ready(g.(wcycle := 1, cmd := cmd))
    else if cmd == 0x10 || cmd == 0x40 || cmd == 0x60 || cmd == 0x98 then g.(wcycle := 1, cmd := cmd)
    else ReadArray(g)
  }

  // Write cycle 1: the operand of the command.
  function Operand(f: Flash, a: Access): Flash
    requires Shape(f) && Fits(f, a)
  {
    var cmd := a.value % 0x100;
    if f.cmd == 0x10 || f.cmd == 0x40 then Ready(DataWrite(f, a)).(wcycle := 0)
    else if f.cmd == 0x20 || f.cmd == 0x28 then
      if cmd == 0xD0 then Ready(f.(wcycle := 0)) else ReadArray(f)
    else if f.cmd == 0xE8 then f.(counter := a.value % 0x1_0000, wcycle := 2)
    else if f.cmd == 0x60 then
      if cmd == 0xD0 || cmd == 0x01 then Ready(f.(wcycle := 0)) else if cmd == 0xFF then ReadArray(f) else f
    else if f.cmd == 0x98 then if cmd == 0xFF then ReadArray(f) else f
    else ReadArray(f)
  }

  // Write cycle 2: a buffered data write.
  function Buffered(f: Flash, a: Access): Flash
    requires Shape(f) && Fits(f, a)
  {
    if f.cmd != 0xE8 then ReadArray(f)
    else
      var g := if f.blkOffset == NO_BLOCK && f.counter > 0 then StartBlock(f, a.offset) else f;
      var h := if g.blkOffset != NO_BLOCK then DataWrite(g, a) else g.(status := SetStatus(g.status, ERROR));
      var k := Ready(h);
      if k.counter == 0 then k.(wcycle := 3) else k.(counter := k.counter - 1)
  }

  // Write cycle 3: the confirmation.
  function Confirm(f: Flash, a: Access): Flash
    requires Shape(f) && Fits(f, a)
  {
    if f.cmd == 0xE8 && a.value % 0x100 == 0xD0 && !Bit(f.status, ERROR) then Ready(FlushBlock(f).(wcycle := 0))
    else ReadArray(f.(blkOffset := NO_BLOCK))
  }

  // PFlashCFI01::write_internal for sizes up to 4
  function Write(f: Flash, a: Access): Flash
    requires Shape(f) && Fits(f, a)
  {
    if f.wcycle == 0 then Command(f, a)
    else if f.wcycle == 1 then Operand(f, a)
    else if f.wcycle == 2 then Buffered(f, a)
    else if f.wcycle == 3 then Confirm(f, a)
    else ReadArray(f)
  }

  // ----- The invariant -----------------------------------------------------------

  // The commands that can be current.
  predicate KnownCommand(cmd: Byte) {
    cmd in {0x10, 0x20, 0x28, 0x40, 0x60, 0x70, 0x90, 0x98, 0xE8}
  }

  // A live block buffer belongs to a buffered write in its data or confirm
  // cycle, and read mode is the state with no command.
  predicate Inv(f: Flash) {
    && Shape(f)
    && f.wcycle <= 3
    && (if f.readMode then f.cmd == 0 && f.wcycle == 0 else KnownCommand(f.cmd))
    && (f.wcycle >= 2 ==> f.cmd == 0xE8)
    && (f.blkOffset != NO_BLOCK ==> f.cmd == 0xE8 && f.wcycle >= 2)
  }

  lemma WriteKeepsInv(f: Flash, a: Access)
    requires Inv(f) && Fits(f, a)
    ensures Inv(Write(f, a)) && |Write(f, a).storage| == |f.storage| && Write(f, a).sectorLen == f.sectorLen
  {
    hide SetStatus, SectorStart, BlockStart, ToBytes;
    if f.wcycle == 0 {
      SectorFits(f, a.offset);
    }
    BlockFits(f, a.offset);
  }

  predicate AllFit(f: Flash, ws: seq<Access>) {
    forall a :: a in ws ==> Fits(f, a)
  }

  // A read leaves the state alone, so a run is a sequence of writes.
  function Run(f: Flash, ws: seq<Access>): (r: Flash)
    requires Inv(f) && AllFit(f, ws)
    ensures Inv(r) && |r.storage| == |f.storage| && r.sectorLen == f.sectorLen
    decreases |ws|
  {
    if ws == [] then f
    else
      WriteKeepsInv(f, ws[0]);
      TailFits(f, Write(f, ws[0]), ws);
      Run(Write(f, ws[0]), ws[1..])
  }

  lemma TailFits(f: Flash, g: Flash, ws: seq<Access>)
    requires ws != [] && AllFit(f, ws) && |g.storage| == |f.storage|
    ensures AllFit(g, ws[1..])
  {
    assert forall a :: a in ws[1..] ==> a in ws;
  }
}
