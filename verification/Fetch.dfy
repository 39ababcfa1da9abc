/**
 Instruction fetch equals fetching one or two parcels, each translated on its own.
 */
module FetchLemmas {
  import opened Bits
  import opened Memory
  import opened Sv39
  import opened Sv39Lemmas
  import opened Accesses
  import opened StoreLoad

  // For an even pc, the test on the page offset says exactly when a 4-byte
  // instruction would leave the page.
  lemma CrossTestExact(pc: U64)
    requires pc % 2 == 0
    ensures MayCrossPage(pc) <==> Vpn(pc) != Vpn(pc + 3)
  {
    var q, o := pc / 0x1000, pc % 0x1000;
    if o <= 0xFFC {
      DivUnique(pc + 3, 0x1000, q, o + 3);
    } else {
      ModMod(pc, 2, 0x800);
      DivUnique(pc + 3, 0x1000, q + 1, o + 3 - 0x1000);
    }
  }

  lemma FourBytes(m: Mem, pa: nat)
    requires InDram(m, pa, 4)
    ensures InDram(m, pa, 2) && InDram(m, pa + 2, 2)
    ensures LoadLE(m, pa, 4) == LoadLE(m, pa, 2) + 0x1_0000 * LoadLE(m, pa + 2, 2)
    ensures LoadLE(m, pa, 2) < 0x1_0000
  {
    var b := m[pa - DRAM_BASE..pa - DRAM_BASE + 4];
    var lo, hi := m[pa - DRAM_BASE..pa - DRAM_BASE + 2], m[pa - DRAM_BASE + 2..pa - DRAM_BASE + 4];
    assert b == [b[0], b[1], b[2], b[3]] && lo == [b[0], b[1]] && hi == [b[2], b[3]];
    TwoBytes(b[0], b[1]);
    TwoBytes(b[2], b[3]);
    assert b[1..] == [b[1], b[2], b[3]] && b[1..][1..] == hi;
    assert FromBytes(b) == b[0] + 0x100 * (b[1] + 0x100 * FromBytes(hi));
  }

  lemma TwoBytes(x: Byte, y: Byte)
    ensures FromBytes([x, y]) == x + 0x100 * y
  {
    assert [x, y][1..] == [y] && [y][1..] == [];
    assert FromBytes([y]) == y;
  }

  // A page of memory is wholly inside DRAM or wholly outside it.
  lemma PageInDram(m: Mem, pa: nat)
    requires |m| % 0x1000 == 0 && pa % 0x1000 <= 0xFFC
    ensures InDram(m, pa, 2) == InDram(m, pa, 4) == InDram(m, pa + 2, 2)
  {
    var d := pa - DRAM_BASE;
    if d >= 0 {
      assert DRAM_BASE % 0x1000 == 0;
      assert |m| == |m| / 0x1000 * 0x1000 && d % 0x1000 == pa % 0x1000;
      if d / 0x1000 < |m| / 0x1000 {
        assert d + 4 <= |m|;
      }
    } else {
      assert pa + 2 < DRAM_BASE;
    }
  }

  // The single 4-byte read within a page gives what two parcel fetches give.
  lemma SamePageFetch(m: Mem, r: Regs, pc: U64)
    requires pc % 0x1000 <= 0xFFC && |m| % 0x1000 == 0
    requires Walk(m, r, pc, pc, Access.Fetch).result.Ok?
    requires InDram(m, Walk(m, r, pc, pc, Access.Fetch).result.value, 4)
    ensures IFetch(m, r, pc) == FetchByParcels(m, r, pc)
  {
    hide Walk, FromBytes;
    var w := Walk(m, r, pc, pc, Access.Fetch);
    var pa := w.result.value;
    WalkIdempotent(m, r, pc, pc, Access.Fetch);
    DivUnique(pc + 2, 0x1000, pc / 0x1000, pc % 0x1000 + 2);
    assert pc / 0x1000 < 0x10_0000_0000_0000;
    ModSmall(pc + 2, 0x1_0000_0000_0000_0000);
    SamePage(w.mem, r, pc, pc, pc + 2, Access.Fetch);
    FourBytes(w.mem, pa);
    var lo, hi := LoadLE(w.mem, pa, 2), LoadLE(w.mem, pa + 2, 2);
    JoinParcels(lo, hi);
  }

  lemma JoinParcels(lo: nat, hi: nat)
    requires lo < 0x1_0000
    ensures (lo + 0x1_0000 * hi) % 4 == lo % 4 && (lo + 0x1_0000 * hi) % 0x1_0000 == lo
  {
    DivUnique(lo + 0x1_0000 * hi, 0x1_0000, hi, lo);
    DivUnique(lo + 0x1_0000 * hi, 4, lo / 4 + 0x4000 * hi, lo % 4);
  }

  // FETCH: at every even pc, over DRAM of whole pages, MMU::ifetch gives the
  // instruction, length, trap and memory of fetching parcel by parcel.
  lemma FetchIsParcelwise(m: Mem, r: Regs, pc: U64)
    requires pc % 2 == 0 && |m| % 0x1000 == 0
    ensures IFetch(m, r, pc) == FetchByParcels(m, r, pc)
  {
    hide Walk, FromBytes;
    if !MayCrossPage(pc) {
      ModMod(pc, 2, 0x800);
      assert pc % 0x1000 <= 0xFFC;
      var w := Walk(m, r, pc, pc, Access.Fetch);
      if w.result.Ok? {
        WalkOffset(m, r, pc, pc, Access.Fetch);
        PageInDram(m, w.result.value);
        if InDram(m, w.result.value, 4) {
          SamePageFetch(m, r, pc);
        }
      }
    }
  }
}
