/**
 What a request of each type does, byte by byte: the chain as it lies in memory,
 the header, the transfer, the status byte and the reported length.
 */
module VirtioRequests {
  import opened Bits
  import opened Memory
  import opened VirtioModel

  // ----- The chain in memory -----------------------------------------------------------------

  predicate Within(m: Mem, a: nat, n: nat) { 0x8000_0000 <= a && a + n <= 0x8000_0000 + |m| }

  lemma WithinIs(m: Mem, a: nat, n: nat)
    ensures InDram(m, a, n) <==> Within(m, a, n)
  {
  }

  function At(table: U64, k: U16): nat { (table + 16 * k) % 0x1_0000_0000_0000_0000 }

  // Descriptor k: address, length, flags and next at offsets 0, 8, 12 and 14 of
  // its 16 bytes.
  predicate DescIs(m: Mem, table: U64, k: U16, d: Desc) {
    && Within(m, At(table, k), 16)
    && LoadLE(m, At(table, k), 8) == d.addr && LoadLE(m, At(table, k) + 8, 4) == d.len
    && LoadLE(m, At(table, k) + 12, 2) == d.flags && LoadLE(m, At(table, k) + 14, 2) == d.next
  }

  // The three descriptors of a request, linked by their next fields
  predicate ChainIs(m: Mem, table: U64, k: U16, head: Desc, data: Desc, tail: Desc) {
    DescIs(m, table, k, head) && DescIs(m, table, head.next, data) && DescIs(m, table, data.next, tail)
  }

  lemma ChainRead(m: Mem, table: U64, k: U16, head: Desc, data: Desc, tail: Desc)
    ensures ReadChain(m, table, k) == Chain(head, data, tail) <==> ChainIs(m, table, k, head, data, tail)
  {
    hide Field, LoadLE, DescAddr, At;
    DescRead(m, table, k);
    DescRead(m, table, head.next);
    DescRead(m, table, data.next);
  }

  lemma DescRead(m: Mem, table: U64, k: U16)
    ensures DescAddr(table, k) == At(table, k)
    ensures InDram(m, DescAddr(table, k), 16) <==> Within(m, At(table, k), 16)
  {
  }

  // Flag bit 0 links to the next descriptor, bit 1 lets the device write. The
  // header is read, the status byte written.
  predicate Linked(head: Desc, data: Desc, tail: Desc) {
    && head.flags % 2 == 1 && data.flags % 2 == 1 && tail.flags % 2 == 0
    && head.flags / 2 % 2 == 0 && tail.flags / 2 % 2 == 1
  }

  predicate DeviceWrites(b: Desc) { b.flags / 2 % 2 == 1 }

  lemma FlagsAre(flags: U16)
    ensures Bit(flags, 0) <==> flags % 2 == 1
    ensures Bit(flags, 1) <==> flags / 2 % 2 == 1
  {
    assert Bit(flags, 1) <==> Bit(flags / 2, 0);
  }

  // A request that the device takes up: its chain, its header in memory, and the
  // type and sector at offsets 0 and 8 of the header.
  predicate Asked(m: Mem, table: U64, k: U16, kind: nat, sector: nat, head: Desc, data: Desc, tail: Desc) {
    && ChainIs(m, table, k, head, data, tail) && Linked(head, data, tail)
    && Within(m, head.addr, 16) && LoadLE(m, head.addr, 4) == kind && LoadLE(m, head.addr + 8, 8) == sector
  }

  lemma AskedIs(d: Dev, table: U64, k: U16, kind: nat, sector: nat, head: Desc, data: Desc, tail: Desc)
    requires Asked(d.mem, table, k, kind, sector, head, data, tail)
    ensures kind < 0x1_0000_0000 && sector < 0x1_0000_0000_0000_0000
    ensures var t := DoTransfer(d, kind, sector, data);
      Request(d, table, k) ==
        if t.Refuse? then Refused else if t.Throw? then Threw
        else if !Within(d.mem, tail.addr, 1) then Undefined
        else Replied(StoreBytes(t.mem, tail.addr, [t.status]), t.disk, if t.status == 0 then data.len else 0)
  {
    hide LoadLE, DoTransfer, ReadChain, ChainIs, Bit;
    ChainRead(d.mem, table, k, head, data, tail);
    FlagsAre(head.flags);
    FlagsAre(data.flags);
    FlagsAre(tail.flags);
    assert Field(d.mem, head.addr, 4) == kind && Field(d.mem, head.addr + 8, 8) == sector;
  }

  // A chain that is cut short, wrongly linked, or whose header lies outside
  // memory is refused.
  lemma MalformedIsRefused(d: Dev, table: U64, k: U16)
    requires forall head, data, tail :: ChainIs(d.mem, table, k, head, data, tail) ==>
      !Linked(head, data, tail) || !Within(d.mem, head.addr, 16)
    ensures Request(d, table, k).Refused?
  {
    hide LoadLE, DoTransfer, ReadChain, ChainIs, Bit;
    var c := ReadChain(d.mem, table, k);
    if c.Chain? {
      ChainRead(d.mem, table, k, c.head, c.data, c.tail);
      FlagsAre(c.head.flags);
      FlagsAre(c.data.flags);
      FlagsAre(c.tail.flags);
      WithinIs(d.mem, c.head.addr, 16);
    }
  }

  // ----- The transfers -------------------------------------------------------------------------

  // The sector is past the capacity, unless that is 0, or the transfer leaves the
  // disk file.
  predicate OutOfRange(d: Dev, sector: nat, len: nat) {
    || (FromBytes(d.config[..8]) != 0 && sector >= FromBytes(d.config[..8]))
    || sector * 512 % 0x1_0000_0000_0000_0000 >= |d.disk|
    || sector * 512 % 0x1_0000_0000_0000_0000 + len > |d.disk|
  }

  lemma RangeIs(d: Dev, sector: U64, len: U32)
    ensures OutOfRange(d, sector, len) <==> BeyondCapacity(CapacityOf(d.config), sector) || !InDisk(d.disk, sector, len)
  {
    hide FromBytes;
    assert CapacityOf(d.config) == FromBytes(d.config[..8]);
  }

  // Memory after a request: the status byte, which wins over the data.
  predicate MemoryIs(d: Dev, m': Mem, tail: Desc, status: Byte, addr: nat, bytes: seq<Byte>)
    requires |m'| == |d.mem|
  {
    forall i :: 0 <= i < |m'| ==>
      m'[i] == if i == tail.addr - 0x8000_0000 then status
               else if addr - 0x8000_0000 <= i < addr - 0x8000_0000 + |bytes| then bytes[i - (addr - 0x8000_0000)]
               else d.mem[i]
  }

  lemma StatusStored(d: Dev, tail: Desc, status: Byte, addr: nat, bytes: seq<Byte>)
    requires InDram(d.mem, addr, |bytes|) && InDram(d.mem, tail.addr, 1)
    ensures MemoryIs(d, StoreBytes(StoreBytes(d.mem, addr, bytes), tail.addr, [status]), tail, status, addr, bytes)
  {
    hide StoreBytes;
    BytesStored(d.mem, addr, bytes);
    BytesStored(StoreBytes(d.mem, addr, bytes), tail.addr, [status]);
  }

  lemma BytesStored(m: Mem, addr: nat, b: seq<Byte>)
    requires InDram(m, addr, |b|)
    ensures forall i :: 0 <= i < |m| ==>
      StoreBytes(m, addr, b)[i] ==
        if addr - 0x8000_0000 <= i < addr - 0x8000_0000 + |b| then b[i - (addr - 0x8000_0000)] else m[i]
  {
    var o := addr - DRAM_BASE;
    var m' := StoreBytes(m, addr, b);
    hide StoreBytes;
    forall i | 0 <= i < |m| ensures m'[i] == if o <= i < o + |b| then b[i - o] else m[i] {
      if o <= i < o + |b| {
        assert m'[o..o + |b|][i - o] == b[i - o];
      }
    }
  }

  lemma OnlyStatus(d: Dev, tail: Desc, status: Byte)
    requires InDram(d.mem, tail.addr, 1)
    ensures MemoryIs(d, StoreBytes(d.mem, tail.addr, [status]), tail, status, 0x8000_0000, [])
  {
    hide StoreBytes;
    BytesStored(d.mem, tail.addr, [status]);
  }

  // TYPE 0, READ: the disk from byte 512 * sector on goes to the data buffer,
  // status 0, and the length of the buffer is reported; out of range, status 1
  // and length 0. The disk stays. The buffer must be one the device may write.
  lemma ReadRequest(d: Dev, table: U64, k: U16, sector: nat, head: Desc, data: Desc, tail: Desc)
    requires Asked(d.mem, table, k, 0, sector, head, data, tail)
    ensures var r, at := Request(d, table, k), sector * 512 % 0x1_0000_0000_0000_0000;
      if !DeviceWrites(data) then r.Refused?
      else if OutOfRange(d, sector, data.len) then
        if !Within(d.mem, tail.addr, 1) then r.Undefined?
        else r.Replied? && r.disk == d.disk && r.len == 0 && |r.mem| == |d.mem|
             && MemoryIs(d, r.mem, tail, 1, 0x8000_0000, [])
      else if !Within(d.mem, data.addr, data.len) then r.Threw?
      else if !Within(d.mem, tail.addr, 1) then r.Undefined?
      else r.Replied? && r.disk == d.disk && r.len == data.len && |r.mem| == |d.mem|
           && MemoryIs(d, r.mem, tail, 0, data.addr, d.disk[at..at + data.len])
  {
    hide Asked, Request, OutOfRange, DoTransfer, MemoryIs, StoreBytes;
    AskedIs(d, table, k, 0, sector, head, data, tail);
    ReadMoves(d, sector, data);
    if Within(d.mem, tail.addr, 1) {
      OnlyStatus(d, tail, 1);
      if !OutOfRange(d, sector, data.len) && Within(d.mem, data.addr, data.len) {
        StatusStored(d, tail, 0, data.addr, DiskRange(d, sector, data.len));
      }
    }
  }

  lemma ReadMoves(d: Dev, sector: U64, data: Desc)
    ensures DoTransfer(d, 0, sector, data) ==
      if !DeviceWrites(data) then Refuse
      else if OutOfRange(d, sector, data.len) then Moved(d.mem, d.disk, 1)
      else if !Within(d.mem, data.addr, data.len) then Throw
      else Moved(StoreBytes(d.mem, data.addr, DiskRange(d, sector, data.len)), d.disk, 0)
  {
    hide OutOfRange, BeyondCapacity, InDisk, CapacityOf, Bit, StoreBytes, Wrap;
    FlagsAre(data.flags);
    RangeIs(d, sector, data.len);
    if !OutOfRange(d, sector, data.len) { RangeFits(d, sector, data.len); }
  }

  function DiskRange(d: Dev, sector: U64, len: U32): (b: seq<Byte>)
    requires !OutOfRange(d, sector, len)
    ensures |b| == len
  {
    var at := sector * 512 % 0x1_0000_0000_0000_0000;
    d.disk[at..at + len]
  }

  lemma RangeFits(d: Dev, sector: U64, len: U32)
    requires !OutOfRange(d, sector, len)
    ensures Wrap(sector * SECTOR) == sector * 512 % 0x1_0000_0000_0000_0000
    ensures Wrap(sector * SECTOR) + len <= |d.disk|
  {
  }

  // TYPE 1, WRITE: the data buffer goes to the disk from byte 512 * sector on,
  // status 0, length of the buffer; out of range, or with feature bit 5 (read
  // only), status 1 and length 0. Memory changes by the status byte only. The
  // buffer must be one the device may not write.
  lemma WriteRequest(d: Dev, table: U64, k: U16, sector: nat, head: Desc, data: Desc, tail: Desc)
    requires Asked(d.mem, table, k, 1, sector, head, data, tail)
    ensures var r, at := Request(d, table, k), sector * 512 % 0x1_0000_0000_0000_0000;
      if DeviceWrites(data) then r.Refused?
      else if d.features / 32 % 2 == 1 || OutOfRange(d, sector, data.len) then
        if !Within(d.mem, tail.addr, 1) then r.Undefined?
        else r.Replied? && r.disk == d.disk && r.len == 0 && |r.mem| == |d.mem|
             && MemoryIs(d, r.mem, tail, 1, 0x8000_0000, [])
      else if !Within(d.mem, data.addr, data.len) then r.Threw?
      else if !Within(d.mem, tail.addr, 1) then r.Undefined?
      else r.Replied? && r.len == data.len && |r.mem| == |d.mem| && |r.disk| == |d.disk|
           && MemoryIs(d, r.mem, tail, 0, 0x8000_0000, [])
           && forall i :: 0 <= i < |r.disk| ==>
                r.disk[i] == if at <= i < at + data.len then d.mem[data.addr - 0x8000_0000 + (i - at)] else d.disk[i]
  {
    hide Asked, Request, OutOfRange, DoTransfer, MemoryIs, StoreBytes, Overwrite;
    AskedIs(d, table, k, 1, sector, head, data, tail);
    WriteMoves(d, sector, data);
    if Within(d.mem, tail.addr, 1) {
      OnlyStatus(d, tail, 1);
      OnlyStatus(d, tail, 0);
      if !OutOfRange(d, sector, data.len) && Within(d.mem, data.addr, data.len) {
        BufferOnDisk(d, sector, data);
      }
    }
  }

  function Buffer(m: Mem, b: Desc): seq<Byte>
    requires Within(m, b.addr, b.len)
  {
    m[b.addr - 0x8000_0000..b.addr - 0x8000_0000 + b.len]
  }

  lemma WriteMoves(d: Dev, sector: U64, data: Desc)
    ensures OutOfRange(d, sector, data.len)
            || sector * 512 % 0x1_0000_0000_0000_0000 + data.len <= |d.disk|
    ensures DoTransfer(d, 1, sector, data) ==
      if DeviceWrites(data) then Refuse
      else if d.features / 32 % 2 == 1 || OutOfRange(d, sector, data.len) then Moved(d.mem, d.disk, 1)
      else if !Within(d.mem, data.addr, data.len) then Throw
      else Moved(d.mem, Overwrite(d.disk, sector * 512 % 0x1_0000_0000_0000_0000, Buffer(d.mem, data)), 0)
  {
    hide BeyondCapacity, InDisk, CapacityOf, Bit, StoreBytes, Wrap, Overwrite, FromBytes;
    FlagsAre(data.flags);
    FeatureIs(d.features);
    RangeIs(d, sector, data.len);
    if !OutOfRange(d, sector, data.len) { RangeFits(d, sector, data.len); }
  }

  lemma BufferOnDisk(d: Dev, sector: U64, data: Desc)
    requires !OutOfRange(d, sector, data.len) && Within(d.mem, data.addr, data.len)
    ensures var at := sector * 512 % 0x1_0000_0000_0000_0000;
      && at + data.len <= |d.disk|
      && forall i :: 0 <= i < |d.disk| ==>
           Overwrite(d.disk, at, Buffer(d.mem, data))[i] ==
             if at <= i < at + data.len then d.mem[data.addr - 0x8000_0000 + (i - at)] else d.disk[i]
  {
    hide FromBytes, Overwrite;
    OverwrittenIs(d.disk, sector * 512 % 0x1_0000_0000_0000_0000, Buffer(d.mem, data));
  }

  lemma FeatureIs(features: nat)
    ensures Bit(features, READ_ONLY) <==> features / 32 % 2 == 1
  {
    hide Bit, Pow2;
    SmallPowers();
    BitIs(features, 5);
  }

  lemma OverwrittenIs(s: seq<Byte>, at: nat, b: seq<Byte>)
    requires at + |b| <= |s|
    ensures forall i :: 0 <= i < |s| ==> Overwrite(s, at, b)[i] == if at <= i < at + |b| then b[i - at] else s[i]
  {
  }

  // TYPE 4, FLUSH: only the status byte, 0.
  lemma FlushRequest(d: Dev, table: U64, k: U16, sector: nat, head: Desc, data: Desc, tail: Desc)
    requires Asked(d.mem, table, k, 4, sector, head, data, tail)
    ensures var r := Request(d, table, k);
      if !Within(d.mem, tail.addr, 1) then r.Undefined?
      else r.Replied? && r.disk == d.disk && r.len == data.len && |r.mem| == |d.mem|
           && MemoryIs(d, r.mem, tail, 0, 0x8000_0000, [])
  {
    hide Asked, Request, MemoryIs, CapacityOf, Bit, StoreBytes;
    AskedIs(d, table, k, 4, sector, head, data, tail);
    if Within(d.mem, tail.addr, 1) { OnlyStatus(d, tail, 0); }
  }

  // TYPE 8, IDENTIFY: "SERIAL0001", or as much of it as the buffer holds.
  lemma IdRequest(d: Dev, table: U64, k: U16, sector: nat, head: Desc, data: Desc, tail: Desc)
    requires Asked(d.mem, table, k, 8, sector, head, data, tail)
    ensures var r, n := Request(d, table, k), if data.len < 10 then data.len else 10;
      if !DeviceWrites(data) then r.Refused?
      else if !Within(d.mem, data.addr, n) then r.Threw?
      else if !Within(d.mem, tail.addr, 1) then r.Undefined?
      else r.Replied? && r.disk == d.disk && r.len == data.len && |r.mem| == |d.mem|
           && MemoryIs(d, r.mem, tail, 0, data.addr,
                [0x53, 0x45, 0x52, 0x49, 0x41, 0x4C, 0x30, 0x30, 0x30, 0x31][..n])
  {
    hide Asked, Request, MemoryIs, CapacityOf, Bit, StoreBytes;
    AskedIs(d, table, k, 8, sector, head, data, tail);
    FlagsAre(data.flags);
    var n := if data.len < 10 then data.len else 10;
    if Within(d.mem, data.addr, n) && Within(d.mem, tail.addr, 1) {
      StatusStored(d, tail, 0, data.addr, Serial()[..n]);
    }
  }

  // ANY OTHER TYPE: status 2, length 0.
  lemma UnknownRequest(d: Dev, table: U64, k: U16, kind: nat, sector: nat, head: Desc, data: Desc, tail: Desc)
    requires Asked(d.mem, table, k, kind, sector, head, data, tail) && kind != 0 && kind != 1 && kind != 4 && kind != 8
    ensures var r := Request(d, table, k);
      if !Within(d.mem, tail.addr, 1) then r.Undefined?
      else r.Replied? && r.disk == d.disk && r.len == 0 && |r.mem| == |d.mem|
           && MemoryIs(d, r.mem, tail, 2, 0x8000_0000, [])
  {
    hide Asked, Request, MemoryIs, CapacityOf, Bit, StoreBytes;
    AskedIs(d, table, k, kind, sector, head, data, tail);
    if Within(d.mem, tail.addr, 1) { OnlyStatus(d, tail, 2); }
  }
}
