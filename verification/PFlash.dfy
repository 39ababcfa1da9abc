/**
 The flash device: its fields and its storage and block buffer updated in place,
 each method proved to be its step of FlashModel.
 */
module PFlashUnit {
  import opened Bits
  import opened Memory
  import opened FlashModel
  import opened FlashLemmas

  const MANUFACTURER: U16 := 0x89
  const DEVICE_ID: U16 := 0x18
  const CFI_TABLE_SIZE: nat := 0x52

  // Both 16-bit devices of the bank answer alike.
  function Doubled(x: U16): U32 { x + 0x1_0000 * x }

  // PFlashCFI01::device_id_query
  function DeviceIdQuery(offset: nat): U32 {
    if offset / 4 % 0x100 == 0 then Doubled(MANUFACTURER)
    else if offset / 4 % 0x100 == 1 then Doubled(DEVICE_ID)
    else 0
  }

  // PFlashCFI01::cfi_query
  function CfiQuery(table: seq<Byte>, offset: nat): U32 {
    if offset / 4 < CFI_TABLE_SIZE && offset / 4 < |table| then Doubled(table[offset / 4]) else 0
  }

  // What a read of up to four bytes returns: array data in read mode, else the
  // answer of the current command.
  function ReadValue(f: Flash, table: seq<Byte>, offset: nat, size: nat): U32
    requires Inv(f) && (size == 1 || size == 2 || size == 4) && offset + size <= |f.storage|
  {
    if f.readMode then
      FromBytesBound(f.storage[offset..offset + size]);
      Narrow(size);
      FromBytes(f.storage[offset..offset + size])
    else if f.cmd == 0x90 then DeviceIdQuery(offset)
    else if f.cmd == 0x98 then CfiQuery(table, offset)
    else if size == 4 then Doubled(f.status) else f.status
  }

  lemma Narrow(size: nat)
    requires size <= 4
    ensures Pow2(8 * size) <= 0x1_0000_0000
  {
    hide Pow2;
    SmallPowers();
    Pow2Values();
    Pow2Add(8, 8);
    Pow2Add(12, 12);
    assert 8 * size in {0, 8, 16, 24, 32};
  }

  class PFlash {
    const storage: array<Byte>
    const blk: array<Byte>
    const table: array<Byte>
    const sectorLen: nat
    var wcycle: nat
    var cmd: Byte
    var status: Byte
    var counter: nat
    var blkOffset: int
    var readMode: bool

    constructor (sectorLength: nat, blocks: nat, cfi: array<Byte>)
      requires sectorLength > 0 && sectorLength * blocks % sectorLength == 0
      requires sectorLength * blocks % BLOCK == 0 && sectorLength * blocks < 0x1_0000_0000
      ensures Valid() && fresh(storage) && fresh(blk) && table == cfi
      ensures View().storage == Erased(sectorLength * blocks) && View().readMode && View().status == 0x80
    {
      storage := new Byte[sectorLength * blocks](_ => 0xFF);
      blk := new Byte[BLOCK](_ => 0);
      table := cfi;
      sectorLen := sectorLength;
      wcycle, cmd, status, counter, blkOffset, readMode := 0, 0, 0x80, 0, NO_BLOCK, true;
    }

    ghost function View(): Flash
      reads this, storage, blk
    {
      Flash(storage[..], sectorLen, wcycle, cmd, status, counter, blk[..], blkOffset, readMode)
    }

    ghost predicate Valid()
      reads this, storage, blk
    {
      storage != blk && Inv(View())
    }

    method ModeReadArray()
      modifies this
      ensures View() == ReadArray(old(View()))
    {
      readMode, wcycle, cmd := true, 0, 0;
    }

    // PFlashCFI01::data_write
    method DataWriteBytes(offset: nat, value: U32, width: nat)
      requires storage != blk && Shape(View()) && width <= 8 && Fits(View(), Access(offset, width, value))
      modifies this`status, storage, blk
      ensures View() == DataWrite(old(View()), Access(offset, width, value))
    {
      ghost var f := View();
      var bytes := ToBytes(value, width);
      if blkOffset != NO_BLOCK {
        if offset < blkOffset || offset + width > blkOffset + BLOCK {
          status := SetStatus(status, ERROR);
          return;
        }
        forall k | 0 <= k < width { blk[offset - blkOffset + k] := bytes[k]; }
        assert blk[..] == Replace(f.blk, offset - blkOffset, bytes);
      } else {
        forall k | 0 <= k < width { storage[offset + k] := bytes[k]; }
        assert storage[..] == Replace(f.storage, offset, bytes);
      }
    }

    // PFlashCFI01::blk_write_start
    method BlkWriteStart(offset: nat)
      requires storage != blk && Shape(View()) && offset < storage.Length
      modifies this`blkOffset, blk
      ensures View() == StartBlock(old(View()), offset) && Shape(View())
    {
      BlockFits(View(), offset);
      blkOffset := offset - offset % BLOCK;
      forall k | 0 <= k < BLOCK { blk[k] := storage[blkOffset + k]; }
      assert blk[..] == storage[blkOffset..blkOffset + BLOCK];
    }

    // PFlashCFI01::blk_write_flush
    method BlkWriteFlush()
      requires storage != blk && Shape(View())
      modifies this`blkOffset, storage
      ensures View() == FlushBlock(old(View()))
    {
      if blkOffset == NO_BLOCK { return; }
      ghost var f := View();
      forall k | 0 <= k < BLOCK { storage[blkOffset + k] := blk[k]; }
      assert storage[..] == Replace(f.storage, blkOffset, f.blk);
      blkOffset := NO_BLOCK;
    }

    // PFlashCFI01::blk_write_abort
    method BlkWriteAbort()
      modifies this`blkOffset
      ensures View() == old(View()).(blkOffset := NO_BLOCK)
    {
      blkOffset := NO_BLOCK;
    }

    // The sector erase of write cycle 0
    method EraseSector(offset: nat)
      requires storage != blk && Shape(View()) && offset < storage.Length
      modifies storage
      ensures View() == Erase(old(View()), offset)
    {
      ghost var f := View();
      SectorFits(f, offset);
      var start := offset - offset % sectorLen;
      forall k | 0 <= k < sectorLen { storage[start + k] := 0xFF; }
      assert storage[..] == Replace(f.storage, start, Erased(sectorLen));
    }

    // PFlashCFI01::write_internal for sizes up to four, one method for each
    // write cycle

    method CommandCycle(offset: nat, size: nat, value: U32)
      requires storage != blk && Shape(View()) && wcycle == 0 && size <= 8 && Fits(View(), Access(offset, size, value))
      modifies this, storage
      ensures View() == Command(old(View()), Access(offset, size, value))
    {
      hide SetStatus, Erase;
      var op := value % 0x100;
      readMode := false;
      if op == 0x20 || op == 0x28 {
        EraseSector(offset);
        status := SetStatus(status, READY);
      } else if op == 0x50 {
        status := 0;
        ModeReadArray();
        return;
      } else if op == 0x70 || op == 0x90 {
        cmd := op;
        return;
      } else if op == 0xE8 {
        status := SetStatus(status, READY);
      } else if op != 0x10 && op != 0x40 && op != 0x60 && op != 0x98 {
        ModeReadArray();
        return;
      }
      wcycle, cmd := 1, op;
    }

    method OperandCycle(offset: nat, size: nat, value: U32)
      requires storage != blk && Shape(View()) && wcycle == 1 && size <= 8 && Fits(View(), Access(offset, size, value))
      modifies this, storage, blk
      ensures View() == Operand(old(View()), Access(offset, size, value))
    {
      hide DataWrite, SetStatus, Shape;
      var op := value % 0x100;
      if cmd == 0x10 || cmd == 0x40 {
        DataWriteBytes(offset, value, size);
        status, wcycle := SetStatus(status, READY), 0;
      } else if cmd == 0x20 || cmd == 0x28 {
        if op == 0xD0 {
          wcycle, status := 0, SetStatus(status, READY);
        } else {
          ModeReadArray();
        }
      } else if cmd == 0xE8 {
        counter, wcycle := value % 0x1_0000, 2;
      } else if cmd == 0x60 {
        if op == 0xD0 || op == 0x01 {
          wcycle, status := 0, SetStatus(status, READY);
        } else if op == 0xFF {
          ModeReadArray();
        }
      } else if cmd == 0x98 {
        if op == 0xFF { ModeReadArray(); }
      } else {
        ModeReadArray();
      }
    }

    method BufferedCycle(offset: nat, size: nat, value: U32)
      requires storage != blk && Shape(View()) && wcycle == 2 && size <= 8 && Fits(View(), Access(offset, size, value))
      modifies this, storage, blk
      ensures View() == Buffered(old(View()), Access(offset, size, value))
    {
      hide DataWrite, SetStatus, BlockStart;
      if cmd == 0xE8 {
        if blkOffset == NO_BLOCK && counter > 0 { BlkWriteStart(offset); }
        if blkOffset != NO_BLOCK {
          DataWriteBytes(offset, value, size);
        } else {
          status := SetStatus(status, ERROR);
        }
        status := SetStatus(status, READY);
        if counter == 0 { wcycle := 3; } else { counter := counter - 1; }
      } else {
        ModeReadArray();
      }
    }

    method ConfirmCycle(offset: nat, size: nat, value: U32)
      requires storage != blk && Shape(View()) && wcycle == 3 && size <= 8 && Fits(View(), Access(offset, size, value))
      modifies this, storage
      ensures View() == Confirm(old(View()), Access(offset, size, value))
    {
      hide FlushBlock, SetStatus, Shape, Bit;
      if cmd == 0xE8 && value % 0x100 == 0xD0 && !Bit(status, ERROR) {
        BlkWriteFlush();
        wcycle, status := 0, SetStatus(status, READY);
      } else {
        BlkWriteAbort();
        ModeReadArray();
      }
    }

    method WriteCycle(offset: nat, size: nat, value: U32)
      requires Valid() && size <= 8 && Fits(View(), Access(offset, size, value))
      modifies this, storage, blk
      ensures Valid() && View() == Write(old(View()), Access(offset, size, value))
    {
      hide Command, Operand, Buffered, Confirm;
      WriteKeepsInv(View(), Access(offset, size, value));
      if wcycle == 0 {
        CommandCycle(offset, size, value);
      } else if wcycle == 1 {
        OperandCycle(offset, size, value);
      } else if wcycle == 2 {
        BufferedCycle(offset, size, value);
      } else {
        ConfirmCycle(offset, size, value);
      }
    }

    // PFlashCFI01::write_internal: an eight-byte write is two cycles.
    method WriteInternal(offset: nat, size: nat, value: U64)
      requires Valid() && (size == 1 || size == 2 || size == 4 || size == 8) && offset + size <= storage.Length
      modifies this, storage, blk
      ensures Valid()
      ensures View() == Run(old(View()), Cycles(offset, size, value))
    {
      hide Write, Shape;
      ghost var f := View();
      CyclesRun(f, offset, size, value);
      if size == 8 {
        WriteCycle(offset, 4, value % 0x1_0000_0000);
        WriteCycle(offset + 4, 4, value / 0x1_0000_0000);
      } else {
        WriteCycle(offset, size, value % 0x1_0000_0000);
      }
    }

    // PFlashCFI01::read_internal for sizes up to four; the arm for an unknown
    // command cannot be reached.
    method ReadCycle(offset: nat, size: nat) returns (r: U32)
      requires Valid() && (size == 1 || size == 2 || size == 4) && offset + size <= storage.Length
      ensures r == ReadValue(View(), table[..], offset, size)
    {
      if readMode {
        FromBytesBound(storage[offset..offset + size]);
        Narrow(size);
        return FromBytes(storage[offset..offset + size]);
      }
      if cmd in {0x10, 0x20, 0x28, 0x40, 0x60, 0x70, 0xE8} {
        r := status;
        if size > 2 { r := r + 0x1_0000 * status; }
      } else if cmd == 0x90 {
        r := DeviceIdQuery(offset);
      } else if cmd == 0x98 {
        r := CfiQuery(table[..], offset);
      } else {
        assert false;
      }
    }

    // PFlashCFI01::read_internal
    method ReadInternal(offset: nat, size: nat) returns (r: U64)
      requires Valid() && (size == 1 || size == 2 || size == 4 || size == 8) && offset + size <= storage.Length
      ensures size < 8 ==> r == ReadValue(View(), table[..], offset, size)
      ensures size == 8 ==> r % 0x1_0000_0000 == ReadValue(View(), table[..], offset, 4)
      ensures size == 8 ==> r / 0x1_0000_0000 == ReadValue(View(), table[..], offset + 4, 4)
    {
      if size == 8 {
        var lo := ReadCycle(offset, 4);
        var hi := ReadCycle(offset + 4, 4);
        var high: int := hi;
        assert high < 0x1_0000_0000;
        r := 0x1_0000_0000 * high + lo;
      } else {
        r := ReadCycle(offset, size);
      }
    }
  }

  // The write cycles of one bus write.
  function Cycles(offset: nat, size: nat, value: U64): seq<Access>
    requires size <= 8
  {
    if size == 8 then
      [Access(offset, 4, value % 0x1_0000_0000), Access(offset + 4, 4, value / 0x1_0000_0000)]
    else [Access(offset, size, value % 0x1_0000_0000)]
  }

  lemma CyclesRun(f: Flash, offset: nat, size: nat, value: U64)
    requires Inv(f) && (size == 1 || size == 2 || size == 4 || size == 8) && offset + size <= |f.storage|
    ensures var cs := Cycles(offset, size, value);
      && AllFit(f, cs) && Inv(Write(f, cs[0])) && |Write(f, cs[0]).storage| == |f.storage|
      && Run(f, cs) == if size == 8 then Write(Write(f, cs[0]), cs[1]) else Write(f, cs[0])
  {
    hide Write, Shape;
    var cs := Cycles(offset, size, value);
    WriteKeepsInv(f, cs[0]);
    OneStep(f, cs[0]);
    if size == 8 {
      var g := Write(f, cs[0]);
      OneStep(g, cs[1]);
      RunAppend(f, [cs[0]], [cs[1]]);
      assert cs == [cs[0]] + [cs[1]];
    } else {
      assert cs == [cs[0]];
    }
  }
}
