/**
 The flash as its driver sees it: the command and confirmation values, the status
 bits, and what reads answer after each command.
 */
module FlashAnswers {
  import opened Bits
  import opened Memory
  import opened FlashModel
  import opened FlashLemmas
  import opened PFlashUnit

  // Status bit 0x80, ready, and 0x10, programming error
  function Readied(s: int): int { if s / 128 % 2 == 1 then s else s + 128 }
  function Faulted(s: int): int { if s / 16 % 2 == 1 then s else s + 16 }

  lemma StatusAre(s: Byte)
    ensures SetStatus(s, 7) == Readied(s) && SetStatus(s, 4) == Faulted(s) && (Bit(s, 4) <==> s / 16 % 2 == 1)
  {
    hide Bit, SetBit, Pow2;
    SmallPowers();
    SetBitAdds(s, 7);
    SetBitAdds(s, 4);
    BitIs(s, 4);
  }

  // ----- The write cycles ------------------------------------------------------------------

  // COMMAND: which commands expect an operand, which leave array mode, and what
  // they do to the status.
  lemma CommandGives(f: Flash, a: Access)
    requires Inv(f) && Fits(f, a) && f.wcycle == 0
    ensures var g, c := Write(f, a), a.value % 0x100;
      && (g.readMode <==> c !in {0x10, 0x20, 0x28, 0x40, 0x60, 0x70, 0x90, 0x98, 0xE8})
      && g.wcycle == (if c in {0x10, 0x20, 0x28, 0x40, 0x60, 0x98, 0xE8} then 1 else 0)
      && g.cmd == (if g.readMode then 0 else c)
      && g.status == (if c == 0x50 then 0 else if c in {0x20, 0x28, 0xE8} then Readied(f.status) else f.status)
      && g.blkOffset == f.blkOffset == -1
  {
    hide SetStatus, SectorStart, Readied;
    StatusAre(f.status);
  }

  // OPERAND: programs take one data write, an erase its confirmation, a block
  // write the count minus one in 16 bits, and lock and query commands end with
  // their own values.
  lemma OperandGives(f: Flash, a: Access)
    requires Inv(f) && Fits(f, a) && f.wcycle == 1
    ensures var g, v := Write(f, a), a.value % 0x100;
      var ends := if f.cmd in {0x10, 0x40} then false
                  else if f.cmd in {0x20, 0x28} then v != 0xD0
                  else f.cmd in {0x60, 0x98} && v == 0xFF;
      var done := f.cmd in {0x10, 0x40} || (f.cmd in {0x20, 0x28} && v == 0xD0)
                  || (f.cmd == 0x60 && v in {0x01, 0xD0});
      && (f.cmd in {0x10, 0x20, 0x28, 0x40, 0x60, 0x98, 0xE8} ==>
           && (g.readMode <==> ends)
           && g.wcycle == (if ends || done then 0 else if f.cmd == 0xE8 then 2 else 1)
           && g.cmd == (if ends then 0 else f.cmd)
           && g.status == (if done then Readied(f.status) else f.status))
      && (f.cmd == 0xE8 ==> g.counter == a.value % 0x1_0000)
  {
    hide SetStatus, Readied, ToBytes;
    StatusAre(f.status);
  }

  // PROGRAM: the operand of a program command is what lands in the storage, its
  // lowest byte first.
  lemma ProgramGives(f: Flash, a: Access, p: nat)
    requires Inv(f) && Fits(f, a) && f.wcycle == 1 && f.cmd in {0x10, 0x40} && p < |f.storage|
    ensures Write(f, a).storage[p] ==
      if a.offset <= p < a.offset + a.size then a.value / Pow2(8 * (p - a.offset)) % 0x100 else f.storage[p]
  {
    hide Write, Shape, ToBytes, Pow2;
    StorageEffect(f, a, p);
    if a.offset <= p < a.offset + a.size { ByteOfNumber(a.value, a.size, p - a.offset); }
  }

  // BUFFER: the window opens at the first data write of a nonzero count, on the
  // 4 KiB block of its address; a write outside it, or with no window, is an
  // error. The count ends the phase.
  lemma BufferedGives(f: Flash, a: Access)
    requires Inv(f) && Fits(f, a) && f.wcycle == 2
    ensures var g := Write(f, a);
      var open := if f.blkOffset == -1 && f.counter > 0 then a.offset / 0x1000 * 0x1000 else f.blkOffset;
      var bad := open == -1 || a.offset < open || a.offset + a.size > open + 0x1000;
      && g.cmd == 0xE8 && !g.readMode && g.blkOffset == open
      && g.wcycle == (if f.counter == 0 then 3 else 2)
      && g.counter == (if f.counter == 0 then 0 else f.counter - 1)
      && g.status == Readied(if bad then Faulted(f.status) else f.status)
  {
    hide SetStatus, Readied, Faulted, ToBytes;
    StatusAre(f.status);
    StatusAre(SetStatus(f.status, 4));
    BlockBase(a.offset);
  }

  lemma BlockBase(x: nat)
    ensures x - x % 0x1000 == x / 0x1000 * 0x1000
  {
  }

  // CONFIRMATION: 0xD0 with the error bit clear installs the window, anything
  // else drops it.
  lemma ConfirmGives(f: Flash, a: Access, p: nat)
    requires Inv(f) && Fits(f, a) && f.wcycle == 3 && p < |f.storage|
    ensures var g := Write(f, a);
      var good := a.value % 0x100 == 0xD0 && f.status / 16 % 2 == 0;
      && g.wcycle == 0 && g.blkOffset == -1 && (g.readMode <==> !good) && g.cmd == (if good then 0xE8 else 0)
      && g.status == (if good then Readied(f.status) else f.status)
      && g.storage[p] == if good && f.blkOffset != -1 && f.blkOffset <= p < f.blkOffset + 0x1000
                         then f.blk[p - f.blkOffset] else f.storage[p]
  {
    hide SetStatus, Readied, Bit;
    StatusAre(f.status);
  }

  // ----- Reads -----------------------------------------------------------------------------

  // READ: array data in array mode; under command 0x90 the identifiers 0x89 and
  // 0x18 at words 0 and 1; under 0x98 the query table, a byte for each word;
  // otherwise the status. Both devices of the bank answer.
  lemma ReadGives(f: Flash, table: seq<Byte>, offset: nat, size: nat, k: nat)
    requires Inv(f) && (size == 1 || size == 2 || size == 4) && offset + size <= |f.storage| && k < size
    ensures var v, word := ReadValue(f, table, offset, size), offset / 4;
      && (f.readMode ==> v / Pow2(8 * k) % 0x100 == f.storage[offset + k] && v < Pow2(8 * size))
      && (f.cmd == 0x90 ==>
           v == if word % 0x100 == 0 then 0x89_0089 else if word % 0x100 == 1 then 0x18_0018 else 0)
      && (f.cmd == 0x98 ==> v == if word < 0x52 && word < |table| then 0x1_0001 * (table[word] as int) else 0)
      && (f.cmd in {0x10, 0x20, 0x28, 0x40, 0x60, 0x70, 0xE8} ==>
           v == if size == 4 then f.status * 0x1_0001 else f.status)
  {
    hide FromBytes, Pow2;
    if f.readMode {
      ByteOfBytes(f.storage[offset..offset + size], k);
      FromBytesBound(f.storage[offset..offset + size]);
    }
  }

  // ANSWERS: what a read returns right after a command in cycle 0. Command 0x70
  // shows the status, 0x90 the identifiers, 0x98 the table, 0xFF the array.
  lemma CommandIsAnswered(f: Flash, a: Access, table: seq<Byte>, offset: nat)
    requires Inv(f) && Fits(f, a) && f.wcycle == 0 && offset + 4 <= |f.storage|
    ensures var g, c := Write(f, a), a.value % 0x100;
      && Inv(g) && |g.storage| == |f.storage|
      && var v := ReadValue(g, table, offset, 4);
      && (c == 0x70 ==> v == f.status * 0x1_0001)
      && (c == 0x90 && offset < 4 ==> v == 0x89_0089)
      && (c == 0x90 && 4 <= offset < 8 ==> v == 0x18_0018)
      && (c == 0x98 && offset / 4 < 0x52 && offset / 4 < |table| ==> v == 0x1_0001 * (table[offset / 4] as int))
      && (c == 0xFF ==>
           && v % 0x100 == f.storage[offset] && v / 0x100 % 0x100 == f.storage[offset + 1]
           && v / 0x1_0000 % 0x100 == f.storage[offset + 2] && v / 0x100_0000 == f.storage[offset + 3])
  {
    hide Write, ReadValue, Pow2, Shape;
    var g := Write(f, a);
    WriteKeepsInv(f, a);
    CommandGives(f, a);
    ReadGives(g, table, offset, 4, 0);
    ReadGives(g, table, offset, 4, 1);
    ReadGives(g, table, offset, 4, 2);
    ReadGives(g, table, offset, 4, 3);
    FourBytePowers();
    if a.value % 0x100 == 0xFF {
      StorageEffect(f, a, offset);
      StorageEffect(f, a, offset + 1);
      StorageEffect(f, a, offset + 2);
      StorageEffect(f, a, offset + 3);
      TopByte(ReadValue(g, table, offset, 4));
    }
  }

  lemma FourBytePowers()
    ensures Pow2(0) == 1 && Pow2(8) == 0x100 && Pow2(16) == 0x1_0000 && Pow2(24) == 0x100_0000
    ensures Pow2(32) == 0x1_0000_0000
  {
    hide Pow2;
    SmallPowers();
    Pow2Values();
    Pow2Add(8, 8);
    Pow2Add(12, 12);
  }

  lemma TopByte(v: nat)
    requires v < 0x1_0000_0000
    ensures v / 0x100_0000 % 0x100 == v / 0x100_0000
  {
  }
}
