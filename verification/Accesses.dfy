/**
 Loads, stores, atomics and instruction fetches of the hart, over bare walks.

 `ByteRead` and `ByteWrite` translate every byte on its own; `Read` and `Write`
 are the two-path forms of MMU::read and MMU::write, with a single translation
 for an aligned access.
 */
module Accesses {
  import opened Bits
  import opened Memory
  import opened Sv39

  predicate Size(n: nat) { n == 1 || n == 2 || n == 4 || n == 8 }

  predicate AllInDram(m: Mem, pas: seq<nat>) { forall pa :: pa in pas ==> InDram(m, pa, 1) }

  datatype Addresses = Addresses(result: Result<seq<nat>>, mem: Mem)

  // The physical addresses of bytes i, i + 1, ..., n - 1 of the access.
  function TranslateBytes(m: Mem, r: Regs, pc: nat, addr: U64, n: nat, i: nat, t: Access): (a: Addresses)
    requires i <= n
    ensures |a.mem| == |m|
    ensures a.result.Ok? ==> |a.result.value| == n - i
    ensures a.result.Ok? ==> AllInDram(m, a.result.value)
    decreases n - i
  {
    if i == n then Addresses(Ok([]), m)
    else
      var w := Walk(m, r, pc, Wrap(addr + i), t);
      match w.result
      case Raise(trap) => Addresses(Raise(trap), w.mem)
      case Ok(pa) =>
        if !InDram(m, pa, 1) then Addresses(Raise(AccessFault(pc, addr, t)), w.mem)
        else
          var rest := TranslateBytes(w.mem, r, pc, addr, n, i + 1, t);
          match rest.result
          case Raise(_) => rest
          case Ok(pas) => Addresses(Ok([pa] + pas), rest.mem)
  }

  function ByteAt(m: Mem, pa: nat): Byte
    requires InDram(m, pa, 1)
  {
    m[pa - DRAM_BASE]
  }

  function Gather(m: Mem, pas: seq<nat>): (b: seq<Byte>)
    requires AllInDram(m, pas)
    ensures |b| == |pas|
    ensures forall k :: 0 <= k < |pas| ==> b[k] == ByteAt(m, pas[k])
  {
    seq(|pas|, k requires 0 <= k < |pas| => ByteAt(m, pas[k]))
  }

  // Writes the bytes one by one.
  function Scatter(m: Mem, pas: seq<nat>, b: seq<Byte>): (r: Mem)
    requires |pas| == |b|
    requires AllInDram(m, pas)
    ensures |r| == |m|
    decreases |pas|
  {
    if pas == [] then m
    else
      var m' := StoreBytes(m, pas[0], [b[0]]);
      assert forall pa :: pa in pas[1..] ==> pa in pas;
      Scatter(m', pas[1..], b[1..])
  }

  datatype Loaded = Loaded(result: Result<nat>, mem: Mem)
  datatype Stored = Stored(result: Result<()>, mem: Mem)

  function ByteRead(m: Mem, r: Regs, pc: nat, addr: U64, n: nat, t: Access): Loaded {
    var a := TranslateBytes(m, r, pc, addr, n, 0, t);
    match a.result
    case Raise(trap) => Loaded(Raise(trap), a.mem)
    case Ok(pas) => Loaded(Ok(FromBytes(Gather(a.mem, pas))), a.mem)
  }

  function ByteWrite(m: Mem, r: Regs, pc: nat, addr: U64, n: nat, v: nat): Stored {
    var a := TranslateBytes(m, r, pc, addr, n, 0, Access.Store);
    match a.result
    case Raise(trap) => Stored(Raise(trap), a.mem)
    case Ok(pas) => Stored(Ok(()), Scatter(a.mem, pas, ToBytes(v, n)))
  }

  // MMU::read<T>; an AMO reads with access type Store.
  function Read(m: Mem, r: Regs, pc: nat, addr: U64, n: nat, t: Access): Loaded
    requires Size(n)
  {
    if addr % n == 0 then
      var w := Walk(m, r, pc, addr, t);
      match w.result
      case Raise(trap) => Loaded(Raise(trap), w.mem)
      case Ok(pa) =>
        Loaded(if InDram(m, pa, n) then Ok(LoadLE(w.mem, pa, n)) else Raise(AccessFault(pc, addr, t)), w.mem)
    else ByteRead(m, r, pc, addr, n, t)
  }

  // MMU::write<T>
  function Write(m: Mem, r: Regs, pc: nat, addr: U64, n: nat, v: nat): Stored
    requires Size(n)
  {
    if addr % n == 0 then
      var w := Walk(m, r, pc, addr, Access.Store);
      match w.result
      case Raise(trap) => Stored(Raise(trap), w.mem)
      case Ok(pa) =>
        if InDram(m, pa, n) then Stored(Ok(()), StoreLE(w.mem, pa, n, v))
        else Stored(Raise(AccessFault(pc, addr, Access.Store)), w.mem)
    else ByteWrite(m, r, pc, addr, n, v)
  }

  // MMU::probe_store
  function ProbeStore(m: Mem, r: Regs, pc: nat, addr: U64): Stored {
    var w := Walk(m, r, pc, addr, Access.Store);
    match w.result
    case Raise(trap) => Stored(Raise(trap), w.mem)
    case Ok(pa) => Stored(if InDram(m, pa, 1) then Ok(()) else Raise(AccessFault(pc, addr, Access.Store)), w.mem)
  }

  datatype Fetched = Fetched(result: Result<(nat, nat)>, mem: Mem)

  predicate Compressed(insn: nat) { insn % 4 < 3 }

  predicate MayCrossPage(pc: nat) { pc % 0x1000 == 0xFFE }

  // One instruction parcel, under its own translation.
  function FetchParcel(m: Mem, r: Regs, pc: nat, va: U64): Loaded {
    var w := Walk(m, r, pc, va, Fetch);
    match w.result
    case Raise(trap) => Loaded(Raise(trap), w.mem)
    case Ok(pa) =>
      Loaded(if InDram(m, pa, 2) then Ok(LoadLE(w.mem, pa, 2)) else Raise(AccessFault(pc, va, Fetch)), w.mem)
  }

  // Fetching one or two parcels: the instruction and its length in bytes.
  function FetchByParcels(m: Mem, r: Regs, pc: U64): Fetched {
    var lo := FetchParcel(m, r, pc, pc);
    match lo.result
    case Raise(trap) => Fetched(Raise(trap), lo.mem)
    case Ok(h) =>
      if Compressed(h) then Fetched(Ok((h, 2)), lo.mem)
      else
        var hi := FetchParcel(lo.mem, r, pc, Wrap(pc + 2));
        match hi.result
        case Raise(trap) => Fetched(Raise(trap), hi.mem)
        case Ok(h') => Fetched(Ok((h + 0x1_0000 * h', 4)), hi.mem)
  }

  // MMU::ifetch
  function IFetch(m: Mem, r: Regs, pc: U64): Fetched {
    if MayCrossPage(pc) then FetchByParcels(m, r, pc)
    else
      var w := Walk(m, r, pc, pc, Fetch);
      match w.result
      case Raise(trap) => Fetched(Raise(trap), w.mem)
      case Ok(pa) =>
        if !InDram(m, pa, 4) then Fetched(Raise(AccessFault(pc, pc, Fetch)), w.mem)
        else
          var insn := LoadLE(w.mem, pa, 4);
          Fetched(Ok(if Compressed(insn) then (insn % 0x1_0000, 2) else (insn, 4)), w.mem)
  }
}
