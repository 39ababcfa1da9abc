# uemu-ng: a verified model of the emulator's core

uemu-ng emulates an RV64GC system. This project models the four state machines
that the rest of the emulator leans on, and two pieces of the instruction path,
and proves what they promise.

- **MMU and TLB.** A bare Sv39 walk (`Sv39`) with Svade/Svadu updates of the A
  and D bits is the reference. `Tlb` and `TlbRuns` add the two direct-mapped
  TLBs and whole runs of translations, stores, `satp` writes, fences and changes
  of privilege, SUM, MXR, MPRV and ADUE. `Accesses`, `StoreLoad` and `Fetch`
  build loads, stores, AMOs, SC probes and fetches from translations.
  `Sv39Standard` and `AccessMeaning` say in the bits of the entries and the
  bytes of memory what all of these answer. `Mmu` is the class, with the TLB
  arrays and the memory updated in place; `AccessRuns` runs whole accesses on
  it, page-table stores and fences among them.
- **PLIC.** `PlicModel` and `PlicLemmas` give the claim/complete protocol and
  its runs, `PlicDelivery` which interrupts get through; `Plic` is the class over
  bit-packed word arrays.
- **Hart traps and interrupts.** `HartModel`, `HartLemmas` and `HartRuns` cover
  trap entry and return, interrupt selection, the lock-free interrupt-pending
  word and the 256-step window of the CPU loop; `TrapRouting` says by number where
  each trap goes and what it and the CSR writes leave; `Hart` is the class.
- **Decoding and execution.** `Patterns` is the pattern parser and `Spelling`
  what it makes of the patterns as written. `RvcDecode` and `Rv64Table` are the
  two first-match tables, all rows in the source's order, and `Rv64Map` the
  opcode map that the 32-bit one equals. `Decoder` is the class that scans the
  written patterns and fills a decoded instruction, with the operand expressions
  of `OperandExpr`. `Rv64Decode`, `RvcImm`, `Rvc` and `RvcMachine` set the
  compressed instructions against their expansions, down to registers, memory,
  FS and traps; `Rv64Words` and `RegisterResults` say which words select which
  operation and what each writes. `PcParity` is the parity of pc over runs,
  `MulDiv` the M extension.
- **Devices.** `FlashModel`, `FlashLemmas`, `FlashAnswers` and `PFlash` are the
  CFI flash; `VirtioModel`, `VirtioRing`, `VirtioRunaway`, `VirtioLemmas` and
  `Virtio` the VirtIO block device, with `VirtioRequests` and `VirtioDriver` for
  what its driver sees.

Each class method is proved equal to a step of the functional model beside it,
and the properties are proved of that model. The modules that say what a driver,
a program or a device sees (`Sv39Standard`, `AccessMeaning`, `TrapRouting`,
`PlicDelivery`, `Rv64Words`, `RegisterResults`, `FlashAnswers`, `VirtioRequests`,
`VirtioDriver`) state it with the numbers of the standards, not with the model's
constants and operations. Words are numbers below a power of
two (`Bits`), or, for the status words of the hart, sets of bit positions.
Memory is the byte sequence of the DRAM (`Memory`); `Traps` has the privilege
levels, causes and traps, `Wrappers` the option type. C++ shifts, masks and
wrap-around are written out, and `MmuExpr` shows the MMU's mask expressions to
be the arithmetic of the standard.

Where the code and its text differ, the model follows the code:

- A level change of an interrupt source stops at the first context that enables
  it (`src/device/plic.cpp:53-66`). `PlicLemmas.SharedSourceIsMissed` gives a run
  in which context 1 misses an asserted source, `PlicLemmas.SecondContextTracks`
  the exact condition under which it does not.
- The comment at `include/core/hart.hpp:927-929` says STIP and SEIP are not
  written through `sip`; the forwarded value clears them
  (`HartRuns.SipWriteFrame`, and `HartRuns.SipWriteDropsExternal` for a run that
  loses an interrupt). A write of `sie` likewise drops the machine-level enables
  (`HartRuns.SieWriteFrame`, `HartRuns.SieWriteDropsTimer`).
- The VirtIO guard against a driver that runs ahead compares promoted integers
  (`src/device/virtio_blk.cpp:279-283`); it lets a wrapped index through, and
  `VirtioRing.GuardIsExactUnlessWrapped` says exactly when.
  `VirtioRunaway.WrappedIndexIsLetThrough` is a queue of four entries for which
  a notification publishes 65531 used elements.
- A VirtIO reset clears the interrupt bits without lowering the line
  (`src/device/virtio_blk.cpp:94-117`); `VirtioLemmas.LineTracksUnlessReset` has
  this as the only exception, `VirtioLemmas.ResetLeavesLineUp` a run that shows it.
- An exception that leaves a VirtIO handler ends the emulator, because
  `Bus::write` and `Device::write` are noexcept (`include/core/bus.hpp:86`,
  `include/device/device.hpp:68`). The runs of `VirtioLemmas` go on after it:
  they include every run of the emulator, so what holds over them holds there.
- A compressed instruction does not always do what its expansion does. With FS
  off, `c.fsd`, `c.fsdsp`, `c.fld` and `c.fldsp` trap with the 16-bit word in tval
  (`src/core/execute.cpp:49-54`), and `c.fld` and `c.fldsp` leave FS as it is
  where `fld` makes it dirty (`src/core/execute.cpp:874-879`, `:1142-1166`).
  `RvcMachine.CompressedIsExpansion` has these as the only exceptions,
  `RvcMachine.FsdTvalDiffers` and `RvcMachine.FldKeepsFs` a word for each.
- `c.addiw` to register 0 is reserved in the standard; the code executes it as
  nothing (`src/core/execute.cpp:1104`). `Rv64Words.ReservedIsIllegal` has it as
  the only reserved word that is not illegal.
- The flash erases a sector at the first write of the command, before its
  confirmation (`src/device/pflash_cfi01.cpp:184-189`); see
  `FlashLemmas.StorageEffect`, and `FlashLemmas.UnconfirmedErase` for the run.
- `sfence.vma` with an address drops the entry of one 4 KiB page
  (`include/core/mmu.hpp:192-201`), also when the address lies in a superpage,
  although the standard's fence is about the leaf entry, which all pages of the
  superpage share. `TlbRuns.SuperpageFenceMissesNeighbour` shows another page of
  it still answered, on every machine whose TLB holds one.
- A TLB entry filled by a store that sets D keeps `dirty` clear
  (`include/core/mmu.hpp:430`), so agreement of an entry with memory is "dirty
  implies D", not equality.

## Model

| member | source | states |
|---|---|---|
| Sv39Lemmas.PathBound | include/core/mmu.hpp:333-368 | a walk ends after at most three entry reads, all at aligned addresses, whatever the tables hold |
| Sv39Lemmas.WalkFrame | include/core/mmu.hpp:333-368 | a write outside the entries a walk visits leaves the walk as it was |
| Sv39Lemmas.PhysAddrBound | include/core/mmu.hpp:370-432 | every successful paged translation is below 2^56 and keeps the offset in the 4 KiB page; the superpage offset above it is Tlb.LeafPpnAddress |
| Sv39Lemmas.UpdateTransparent | include/core/mmu.hpp:399-411 | setting A or D in one leaf changes no walk except for the A/D bits of a leaf it shares, also with tables that map each other |
| Sv39Lemmas.WalkKeepsLookups | include/core/mmu.hpp:356-411 | after any translation every lookup, of any page from any root, finds the same page and permissions |
| Sv39Lemmas.WalksDoNotInterfere | include/core/mmu.hpp:356-411 | one translation changes the outcome of another only if that one was refused for a clear A or D bit; what succeeded still succeeds at the same address |
| Sv39Lemmas.WalkIdempotent | include/core/mmu.hpp:399-432 | repeating a successful translation gives the same address and writes nothing |
| Sv39Lemmas.StoreImpliesLoad | include/core/mmu.hpp:377-411 | a page that may be stored to may be loaded from, at the same address, with no further table write |
| Sv39Lemmas.SuperpageLookup | include/core/mmu.hpp:333-368 | every page of a superpage finds the superpage's leaf |
| Sv39Lemmas.SamePage | include/core/mmu.hpp:266-437 | two accesses to one 4 KiB page agree on outcome and memory, and differ in address by their offsets |
| MmuExpr.SignExtendTest | include/core/mmu.hpp:288-292 | the shift-and-compare test accepts exactly the canonical Sv39 addresses |
| MmuExpr.SuperpageIsLeafPpn | include/core/mmu.hpp:414-425 | the superpage mask-or composition is the page number of the standard at every level |
| Tlb.LeafPpnAddress | include/core/mmu.hpp:413-432 | the cached page number with the page offset is the address the standard prescribes for a superpage |
| Tlb.HitIsWalk | include/core/mmu.hpp:297-326 | a hit on an entry that agrees with memory returns what the walk would, and the walk would write nothing |
| Tlb.CachedWalkIsWalk | include/core/mmu.hpp:297-432 | translation through an agreeing slot has the result and memory effect of the bare walk, hit or miss |
| Tlb.WalkKeepsAgreement | include/core/mmu.hpp:356-432 | no translation, whatever its outcome, makes an agreeing entry disagree |
| Tlb.FilledEntryAgrees | include/core/mmu.hpp:427-431 | the entry a walk fills in agrees with the memory the walk leaves |
| TlbRuns.StepKeepsInv | include/core/mmu.hpp:187-437 | every event keeps every valid entry outside the stale set in agreement with the current leaf entry |
| TlbRuns.CachedRunIsBareRun | include/core/mmu.hpp:187-437 | in every run whose changed pages are fenced before use, the cached machine and the bare walks give the same outputs, memory and registers |
| TlbRuns.NoFenceNeeded | include/core/mmu.hpp:266-437 | a run from an empty TLB whose stores avoid live page tables needs no fence, through any changes of satp, privilege, SUM, MXR, MPRV and ADUE |
| TlbRuns.ResetRunIsBareRun | include/core/mmu.hpp:266-433 | from empty TLBs, a run whose stores leave live tables alone is the run of bare walks in outputs, memory and registers, with no fence at all |
| TlbRuns.FenceRestores | include/core/mmu.hpp:187-201 | a full fence restores agreement for every page, a fence of one address for that 4 KiB page |
| TlbRuns.AddressFenceIsExact | include/core/mmu.hpp:192-201 | a fence of one address drops the entries of its 4 KiB page from both TLBs and no other: an entry of another page that disagreed with memory still does |
| TlbRuns.UnfencedChangeIsMissed | include/core/mmu.hpp:297-326 | without the fence a cached page stays translated after its leaf is cleared, where the bare walk faults |
| TlbRuns.SuperpageFenceMissesNeighbour | include/core/mmu.hpp:192-201 | after a superpage is unmapped and one of its addresses fenced, that page faults, and every other page of it that the TLB held is still translated where the bare walk faults |
| AccessLemmas.WalkSetsOnlyAd | include/core/mmu.hpp:399-411 | a translation writes nothing but A/D bits of one entry, and nothing at all when it faults |
| AccessLemmas.TrappedStoreWritesNoData | include/core/mmu.hpp:94-130 | a store that traps, aligned or not, leaves every data byte as it was |
| AccessLemmas.ReadIsByteRead | include/core/mmu.hpp:50-90 | the single translation of an aligned load gives the value, trap and memory of translating byte by byte |
| AccessLemmas.WriteIsByteWrite | include/core/mmu.hpp:94-130 | likewise for an aligned store |
| StoreLoad.AccessBytesDistinct | include/core/mmu.hpp:109-118 | the bytes of one access lie at distinct physical addresses, however its pages map |
| StoreLoad.StoreThenLoad | include/core/mmu.hpp:50-130 | for every address, size and alignment, a load after a successful store that avoids the entries it uses succeeds, returns the stored value and writes nothing |
| StoreLoad.AmoStoreCannotFault | src/core/execute.cpp:498-652 | after the load of an AMO its store to the same address cannot fault and writes only the data |
| StoreLoad.ProbedStoreCannotFault | src/core/execute.cpp:476-496 | after a successful probe the store of an SC cannot fault |
| FetchLemmas.CrossTestExact | include/core/mmu.hpp:231-233 | for an even pc the page-offset test holds exactly when a 4-byte instruction leaves the page |
| FetchLemmas.FetchIsParcelwise | include/core/mmu.hpp:145-185 | at every even pc, over a DRAM of whole pages, the fetch equals fetching one or two halfwords each under its own translation, in instruction, length, trap and memory |
| MmuUnit.Mmu.TryHit | include/core/mmu.hpp:301-326 | the jumps of the hit path accept exactly the usable entries; Sv39Standard.HitIff says which |
| MmuUnit.Mmu.UseLeaf | include/core/mmu.hpp:370-432 | checks, A/D update, fill and address of a leaf are those of the model; Sv39Standard.TranslationSucceedsIff says whom they let through |
| MmuUnit.Mmu.WalkTables | include/core/mmu.hpp:328-432 | the loop is the recursive walk, with the fill of the slot |
| MmuUnit.Mmu.Translate | include/core/mmu.hpp:266-437 | the result, memory and TLB arrays after the call are those of the cached translation; Sv39Standard says what that is |
| MmuUnit.Mmu.TranslateCoherent | include/core/mmu.hpp:266-437 | while only pages in a stale set may disagree with memory, a call for a page outside it is the bare walk and adds no stale page |
| MmuUnit.Mmu.TlbFlushAll | include/core/mmu.hpp:187-190 | every entry is invalid afterwards and every page agrees |
| MmuUnit.Mmu.TlbFlushVaddr | include/core/mmu.hpp:192-201 | exactly the matching entries of the slot are dropped, in both TLBs |
| MmuUnit.Mmu.SatpWrite | src/core/hart.cpp:84-91 | the new root takes effect with no entry of the old one left |
| MmuUnit.Mmu.Read | include/core/mmu.hpp:50-90 | the two-path load is the model's, over bare walks, when the accessed pages are not stale, whatever other pages are; no page becomes stale |
| MmuUnit.Mmu.Write | include/core/mmu.hpp:94-130 | likewise the two-path store; afterwards the only further stale pages are those whose table entries the data overwrote |
| MmuUnit.Mmu.ProbeStore | include/core/mmu.hpp:136-141 | likewise the probe: it faults exactly as a store of its first byte would and writes no data |
| MmuUnit.Mmu.IFetch | include/core/mmu.hpp:145-185 | likewise the fetch of one or two parcels |
| AccessRuns.RunAccesses | include/core/mmu.hpp:50-201 | in every run of loads, stores, probes, fetches, fences, satp writes and control changes that fences a page before using it again after its tables were written, the MMU with its TLBs answers and leaves memory and registers as bare accesses do |
| AccessRuns.Perform | include/core/mmu.hpp:50-201 | one operation of such a run: its bare answer, memory and registers, and which pages are stale afterwards |
| Sv39Standard.SearchIsStandard | include/core/mmu.hpp:333-375 | the search through the tables is the three levels of the standard written out on the bits of the entries |
| Sv39Standard.TranslationSucceedsIff | include/core/mmu.hpp:356-411 | a paged translation succeeds iff the address is canonical, a leaf maps it, U mode finds U set, S mode finds U clear or SUM set and no fetch, R or MXR with X allows a load, W a store, X a fetch, and A and D are set or may be |
| Sv39Standard.FailureRaises | include/core/mmu.hpp:235-264 | any other translation raises, at the address: cause 1, 5 or 7 when a table lies outside memory, otherwise 12, 13 or 15, and writes nothing |
| Sv39Standard.SuccessGives | include/core/mmu.hpp:399-432 | the physical address joins the page number of the leaf with the offset in its 4 KiB, 2 MiB or 1 GiB page; the only write sets A, and D for a store |
| Sv39Standard.HitIff | include/core/mmu.hpp:301-326 | the TLB entry answers iff its page, its permission bits, its D bit and the privilege allow the access, bit by bit |
| Sv39Standard.FilledSlotAnswers | include/core/mmu.hpp:427-432 | after a walk the slot answers the same access, save for a store that has just set D |
| Sv39Standard.UntranslatedIs | include/core/mmu.hpp:267-284 | in M mode, MPRV with MPP counted in, and with satp mode 0 every address is its own translation |
| Sv39Standard.RegisterWrites | src/core/hart.cpp:84-91 | a satp write is installed iff its mode is 0 or 8; each control field reaches its own register and nothing else changes them |
| AccessMeaning.LoadedBytes | include/core/mmu.hpp:50-90 | byte k of a loaded value is the byte of memory where address + k translates to, aligned or not |
| AccessMeaning.StoredBytes | include/core/mmu.hpp:94-130 | a store puts byte k of its value where address + k translates to, and changes no other byte the translations left |
| AccessMeaning.FirstFault | include/core/mmu.hpp:63-118 | a misaligned access raises what the translation of its first byte that has none raises, there, or an access fault at its own address |
| AccessMeaning.LoadFaults | include/core/mmu.hpp:50-90 | a failed load raises cause 5 or 13 (an AMO read 7 or 15) at its pc with an address in its range, its own if aligned |
| AccessMeaning.StoreFaults | include/core/mmu.hpp:94-130 | a failed store raises cause 7 or 15, likewise |
| AccessMeaning.ProbeGives | include/core/mmu.hpp:131-141 | the probe succeeds iff the store translation does and its byte lies in memory, and raises 7 otherwise |
| AccessMeaning.FetchGives | include/core/mmu.hpp:145-185 | the fetch in halfwords: length 2 unless the low two bits are set, the second halfword above the first, the fault of the first that cannot be had at its own address |
| PlicLemmas.RunKeepsInv | src/device/plic.cpp:38-303 | in every state of every run: claimed within pending within enabled, priority 0 when not pending, no id 0 and no id beyond the last, the line up iff some pending unclaimed source is above the threshold |
| PlicLemmas.ResetInv | src/device/plic.cpp:30-36 | the state after construction satisfies that invariant |
| PlicLemmas.PendingIsEnableAndLevel | src/device/plic.cpp:38-67 | in context 0 each pending word is the enable word and the level word |
| PlicLemmas.SecondContextTracks | src/device/plic.cpp:53-66 | context 1 keeps tracking its sources iff the source that moves is not enabled by both contexts |
| PlicLemmas.SecondContextRun | src/device/plic.cpp:53-66 | with disjoint enables context 1 tracks its sources throughout every run |
| PlicLemmas.SharedSourceIsMissed | src/device/plic.cpp:53-66 | a run in which context 1 misses an asserted source it enables |
| PlicLemmas.ClaimTakesBest | src/device/plic.cpp:183-193 | a claim takes the source of greatest priority, lowest id on ties, and changes nothing else of the context |
| PlicLemmas.DrainInOrder | src/device/plic.cpp:148-193 | successive claims return every ready source once, by priority then id, then 0; the line drops with the last |
| PlicLemmas.CompleteUndoesClaim | src/device/plic.cpp:273-303 | completing the source just claimed restores the context, line included |
| PlicLemmas.NoSecondClaim | src/device/plic.cpp:148-193 | a claimed source is not returned again before a releasing operation, over every run in between |
| PlicUnit.Context.BestPending | src/device/plic.cpp:148-174 | the nested search over packed words finds the model's best source |
| PlicUnit.Context.WriteEnableWord | src/device/plic.cpp:233-263 | the bit loop toggles pending, priority and claimed bits as the model says, for every source of the word |
| PlicUnit.Plic.SetInterruptLevel | src/device/plic.cpp:38-67 | levels, contexts and lines afterwards are the model's, which PlicDelivery.LevelGives spells out |
| PlicUnit.Plic.EnableWordWrite | src/device/plic.cpp:233-263 | as above for an enable write through the device |
| PlicUnit.Plic.ClaimRead | src/device/plic.cpp:265-271 | a claim read returns and takes the model's best source |
| PlicUnit.Plic.ContextWrite | src/device/plic.cpp:273-303 | threshold and completion writes are the model's, refused exactly where the code refuses |
| PlicDelivery.ClaimReturns | src/device/plic.cpp:148-174 | a claim returns the greatest latched priority above the threshold among pending unclaimed sources, lowest id on ties, and 0 iff there is none |
| PlicDelivery.LevelGives | src/device/plic.cpp:38-67 | a rising source becomes pending in the first context that enables it with its priority register latched, a falling one is cleared there, the line follows, and nothing else changes |
| PlicDelivery.RaisedSourceIsDelivered | src/device/plic.cpp:38-67 | from every reachable state a raised source whose priority register exceeds the threshold puts the line up, and the next claim returns it or one ahead of it |
| PlicDelivery.ClaimGives | src/device/plic.cpp:183-193 | a claim marks the source it returns and nothing else; the line follows |
| PlicDelivery.CompleteGives | src/device/plic.cpp:273-303 | a completion releases its source iff the context enables it, and nothing else; the line follows |
| PlicDelivery.EnableGives | src/device/plic.cpp:233-263 | source by source, what an enable write leaves: a source enabled while its line is high becomes pending with its register latched, a disabled one is cleared |
| PlicDelivery.RegistersGive | src/device/plic.cpp:204-211 | priorities and thresholds keep four bits; a priority write reaches no pending source |
| PlicDelivery.ResetIs | src/device/plic.cpp:30-36 | after construction every bit is clear, every priority 0 and both lines are down |
| PlicUnit.Plic.PriorityWrite | src/device/plic.cpp:204-211 | the register write is the model's |
| HartLemmas.SstatusWriteReach | include/core/hart.hpp:885-889 | a write of sstatus sets the S fields to what was written and no other writable field |
| HartLemmas.MachineEnteredIs | src/core/hart.cpp:227-257 | entering M moves MIE to MPIE and the privilege to MPP, and changes no other bit |
| HartLemmas.SupervisorEnteredIs | src/core/hart.cpp:196-226 | entering S moves SIE to SPIE and the privilege to SPP, and changes no other bit |
| HartLemmas.MachineTrapReturns | src/core/hart.cpp:175-257 | for every M handler that leaves mepc and mstatus alone, mret restores pc, privilege and MIE |
| HartLemmas.SupervisorTrapReturns | src/core/execute.cpp:305-337 | likewise for sret when TSR does not trap it |
| HartLemmas.NestedTrapsUnwind | src/core/execute.cpp:268-337 | a trap into M inside an S handler unwinds to the handler, and the handler's sret to the program |
| HartLemmas.TrapNeverLowersPrivilege | src/core/hart.cpp:175-194 | no trap lowers the privilege |
| HartLemmas.TrapWritesOneMode | src/core/hart.cpp:175-257 | a trap leaves the stack and trap registers of the mode it does not enter alone |
| HartLemmas.InterruptGoesWhereEnabled | src/core/hart.cpp:259-306 | an interrupt is raised iff some source is deliverable; it is the first in the code's order and enters the mode whose enable was tested |
| HartLemmas.QuietAfterEntry | src/core/hart.cpp:259-306 | after an entry into M none can be raised, after one into S no delegated one |
| HartRuns.RunKeepsOk | include/core/hart.hpp:448-457 | in every run SD = (FS == 3), SXL = UXL = 2, only delegable interrupts are delegated, pc is even |
| HartRuns.ResetOk | include/core/hart.hpp:448-457 | that invariant holds over every feasible run from the register values after construction |
| HartRuns.CsrWritesAreAtomic | include/core/hart.hpp:589-610 | under every interleaving with device threads, spurious failures included, the pending word ends as if each CSR write happened at once at its successful swap |
| HartRuns.CsrWritesInProgramOrder | include/core/hart.hpp:589-602 | the CSR writes of that sequential history are the values the hart began to write, in program order and each once, the last possibly still in its loop |
| HartRuns.DeviceBitsAreDevices | include/core/hart.hpp:589-610 | MSIP, MTIP and MEIP, and STIP while STCE is set, are always what the devices alone made them |
| HartRuns.UndisturbedSwapSucceeds | include/core/hart.hpp:589-602 | a CSR write no thread disturbs ends at its first real swap, after any number of spurious failures, with the value it was to write |
| HartRuns.SipWriteFrame | include/core/hart.hpp:926-931 | the exact condition under which a sip write keeps STIP and SEIP |
| HartRuns.SipWriteDropsExternal | include/core/hart.hpp:926-931 | a run in which a sip write clears a pending external interrupt that no device cleared |
| HartRuns.SieWriteFrame | include/core/hart.hpp:958-960 | the exact condition under which a sie write keeps the machine-level enables |
| HartRuns.SieWriteDropsTimer | include/core/hart.hpp:958-960 | a run in which a sie write drops the machine timer enable |
| HartRuns.InterruptTakenWithin256 | src/execution_engine.cpp:119-136 | if some interrupt stays deliverable for 256 iterations, one of them takes an interrupt, across the wrap of the counter |
| HartUnit.HartCpu.HandleTrap | src/core/hart.cpp:175-257 | the step-by-step register updates are the model's trap entry, which TrapRouting.TrapGoesTo and TrapStacks spell out |
| HartUnit.HartCpu.ExecMret | src/core/execute.cpp:268-292 | the register updates are the model's return, or the illegal-instruction case |
| HartUnit.HartCpu.ExecSret | src/core/execute.cpp:305-337 | as above for sret |
| HartUnit.HartCpu.CheckPending | src/core/hart.cpp:259-306 | the loop over the priority table raises the model's choice and clears the flag |
| TrapRouting.TrapGoesTo | src/core/hart.cpp:186-257 | an exception from S or U goes to S iff its bit of medeleg is set and it is neither 11 nor 16, an interrupt iff its bit of mideleg is, all else to M; pc, epc, cause and tval of the entered mode, direct and vectored, every other register kept |
| TrapRouting.TrapStacks | src/core/hart.cpp:201-245 | each bit of the status after a trap |
| TrapRouting.MretIs | src/core/execute.cpp:268-292 | mret is illegal below M; else its pc, privilege and each bit of the status |
| TrapRouting.SretIs | src/core/execute.cpp:305-337 | sret is illegal in U, and in S under TSR; else its pc, privilege and each bit of the status |
| TrapRouting.InterruptIs | src/core/hart.cpp:259-306 | the interrupt raised is the first deliverable of 11, 3, 7, 9, 1, 5, with deliverability by the bits of mip, mie, mideleg, the privilege and the status |
| TrapRouting.TakenIs | src/execution_engine.cpp:119-136 | an iteration takes an interrupt iff its count is a multiple of 256 or the flag is set, and one is deliverable |
| TrapRouting.MstatusWriteGives | include/core/hart.hpp:448-457 | each bit of mstatus after a write |
| TrapRouting.SstatusReadGives | include/core/hart.hpp:881-883 | the bits of mstatus that a read of sstatus shows |
| TrapRouting.SstatusWriteGives | include/core/hart.hpp:885-889 | each bit of mstatus after a write of sstatus |
| TrapRouting.MipWriteGives | include/core/hart.hpp:589-602 | each bit of mip after a CSR write: SSIP and SEIP as written, STIP too unless STCE |
| TrapRouting.SipWriteGives | include/core/hart.hpp:926-931 | each bit of mip after a write of sip |
| TrapRouting.DelegationWritesGive | include/core/hart.hpp:503-543 | mideleg keeps bits 1, 5 and 9 of what is written, medeleg all but 11 and 16 |
| TrapRouting.EnableWritesGive | include/core/hart.hpp:651 | mie keeps the six interrupt bits, a write of sie bits 1, 5 and 9 |
| TrapRouting.VectorWrites | include/core/hart.hpp:483-491 | each vector write reaches its own register |
| TrapRouting.EpcWrites | include/core/hart.hpp:792-798 | each epc write reaches its own register |
| TrapRouting.AddressesAre | include/core/hart.hpp:483 | a vector drops bit 1; an epc keeps its stored low bit, which no read shows |
| TrapRouting.DeviceStepsGive | include/core/hart.hpp:604-610 | devices set only the six interrupt bits and clear what they name |
| TrapRouting.DirtyGives | src/core/execute.cpp:69-73 | a floating-point instruction sets FS and SD and no other bit |
| PcParity.LongKeepsPcEven | src/core/decoder.cpp:314-339 | any 32-bit word at an even pc leaves pc even, all six branches, jal and jalr included |
| PcParity.ShortKeepsPcEven | src/core/decoder.cpp:438-460 | so does any 16-bit word |
| PcParity.PerformedTrap | include/core/mmu.hpp:50-130 | every exception of a performed instruction, the page and access faults of its load or store included, is raised at its own pc with a cause of the standard |
| PcParity.SystemEvents | src/core/execute.cpp:254-337 | the word 0x73 raises 8 plus the privilege with tval 0, and mret and sret out of place raise cause 2 with their own word |
| PcParity.PcStaysEven | src/execution_engine.cpp:119-170 | pc stays even in every run of arbitrary 16- and 32-bit words performed on any registers, memory and translation state, their exceptions, page faults included, and returns, interrupts and CSR changes |
| Patterns.ParsePattern | src/core/decoder.cpp:33-52 | for every pattern of up to 64 symbols, 64 free ones apart, the shift/mask/key test accepts a word iff every '0' and '1' agrees with the bit at its position |
| Patterns.ParsedIsMatch | src/core/decoder.cpp:33-64 | the same for the accumulators' values after any symbols, by induction on the pattern |
| Patterns.RowIsTest | src/core/decoder.cpp:60-72 | a pattern written as groups of fixed and free symbols tests exactly those fields |
| Spelling.Written16 | src/core/decoder.cpp:250-264 | the test of a 16-bit pattern as written, blanks included, compares exactly the fields of its digit groups with the word |
| Spelling.Written32 | src/core/decoder.cpp:60-74 | the same for the 32-bit patterns |
| RvcDecode.DecodeIsTotal | src/core/decoder.cpp:247-311 | every 16-bit word selects a row, and no operand arm marked unreachable is reached |
| Rv64Map.TableIsMap | src/core/decoder.cpp:76-247 | for every word the first match among all 160 rows of the 32-bit table is what the manual's opcode map assigns |
| Rv64Decode.DecodeInvertsEncode | src/core/decoder.cpp:314-339 | with the whole first-match table, decoding the manual's encoding of any RV64I, M or Zicsr instruction or floating-point load or store gives back operation, registers and immediate, for every value |
| Rv64Words.RegisterOps | src/core/decoder.cpp:76-247 | the words of opcode 0x33 that select each operation, by funct3 and funct7, M extension included |
| Rv64Words.WideOps | src/core/decoder.cpp:76-247 | likewise opcode 0x3B |
| Rv64Words.ImmediateOps | src/core/decoder.cpp:76-247 | likewise the immediate operations |
| Rv64Words.MemoryOps | src/core/decoder.cpp:76-247 | likewise loads and stores |
| Rv64Words.ControlOps | src/core/decoder.cpp:76-247 | likewise branches, jumps and lui |
| Rv64Words.SystemOps | src/core/decoder.cpp:76-247 | ecall, ebreak, sret and mret are one word each |
| Rv64Words.OperandsAre | src/core/decoder.cpp:314-339 | the register fields of every word, and the immediate of one known word of each type |
| Rv64Words.RegisterWords | src/core/execute.cpp:1121-1126 | the assembled words of c.sub, c.xor, c.or, c.and, c.subw and c.addw abbreviate those operations; the lemmas beside it do the same for a word of every other compressed instruction |
| Rv64Words.LoadWords | src/core/execute.cpp:1142-1154 | known words of c.fld, c.lw and c.ld |
| Rv64Words.StoreWords | src/core/execute.cpp:1102-1211 | of c.fsd, c.sw and c.sd |
| Rv64Words.ImmediateWords | src/core/execute.cpp:1102-1211 | of c.addi4spn, c.addi, c.addiw and c.li |
| Rv64Words.UpperWords | src/core/execute.cpp:1106-1117 | of c.addi16sp and c.lui |
| Rv64Words.ShiftWords | src/core/execute.cpp:1118-1120 | of c.srli, c.srai, c.andi and c.slli |
| Rv64Words.JumpWords | src/core/execute.cpp:1102-1211 | of c.j, c.jr and c.jalr |
| Rv64Words.EqualWords | src/core/execute.cpp:1102-1211 | of c.beqz |
| Rv64Words.UnequalWords | src/core/execute.cpp:1102-1211 | of c.bnez |
| Rv64Words.StackLoadWords | src/core/execute.cpp:1102-1211 | of c.fldsp and c.ldsp |
| Rv64Words.StackWordWords | src/core/execute.cpp:1102-1211 | of c.lwsp and c.swsp |
| Rv64Words.StackStoreWords | src/core/execute.cpp:1102-1211 | of c.fsdsp and c.sdsp |
| Rv64Words.MoveWords | src/core/execute.cpp:1102-1211 | of c.mv, c.add and c.ebreak |
| Rv64Words.ReservedIsIllegal | src/core/execute.cpp:1102-1211 | a 16-bit word is illegal iff the standard reserves it, c.addiw to register 0 apart, which does nothing |
| RvcImm.StackImms | src/core/decoder.cpp:371-407 | the scattered stack immediates are those of the manual's tables, bit by bit |
| RvcImm.RegImms | src/core/decoder.cpp:408-433 | likewise the register-based load and store offsets |
| RvcImm.BranchImmIs | src/core/decoder.cpp:438-453 | the branch offset is the manual's, in range and even |
| RvcImm.JumpImmIs | src/core/decoder.cpp:454-460 | the jump offset is the manual's, in range and even |
| OperandExpr.SignedImmediates | src/core/decoder.cpp:341-460 | the shift, mask, or and sign-shift expressions of the signed 16-bit immediates are the sums of their sign-extended fields |
| OperandExpr.ImmediatesAre32 | src/core/decoder.cpp:314-339 | the same for the I, U, J and B immediates |
| OperandExpr.StoreIs | src/core/decoder.cpp:322-324 | the or of a possibly negative 64-bit word with the low field is the S immediate |
| Rvc.CompressedEffect | src/core/execute.cpp:1102-1211 | decoding and executing any non-reserved 16-bit word asks for the same register write, access, jump or trap as its 32-bit expansion with pc step and link 2, but for the FS update of the floating-point loads; RegisterResults says what the values are |
| RvcMachine.CompressedIsExpansion | src/core/execute.cpp:1102-1211 | for every register file, memory, FS, pc and translation state, the outcome (registers, memory, FS, pc, or trap and memory) equals that of the expansion iff the word is no floating-point access with FS off, and no floating-point load that succeeds with FS initial or clean; what differs then is exactly tval, or FS |
| RvcMachine.FsdTvalDiffers | src/core/execute.cpp:1155-1158 | c.fsd f8, 0(x8) with FS off: the two exceptions and their tval |
| RvcMachine.FldKeepsFs | src/core/execute.cpp:1142-1146 | c.fld f8, 0(x8) with FS clean: both loads succeed and only the expansion makes FS dirty |
| RegisterResults.SumGives | src/core/execute.cpp:98-199 | add, addi and sub write the sum or difference modulo 2^64, or nothing to register 0 |
| RegisterResults.WideSumGives | src/core/execute.cpp:100-200 | addw, addiw and subw: the low 32 bits are those of the sum or difference, bits 63 to 31 are equal |
| RegisterResults.LogicGives | src/core/execute.cpp:102-170 | and, or, xor and andi bit by bit |
| RegisterResults.ShiftGives | src/core/execute.cpp:175-195 | slli, srli, srai, sll, srl and sra bit by bit, by the low six bits of the immediate or of rs2: zeros come in, or copies of bit 63 |
| RegisterResults.LuiGives | src/core/execute.cpp:161 | lui writes bits 31 to 12 of the immediate, sign-extended |
| RegisterResults.BranchGives | src/core/execute.cpp:105-130 | each branch is taken on its own comparison, signed or unsigned, and goes to pc plus the offset |
| RegisterResults.JumpGives | src/core/execute.cpp:131-142 | jal and jalr: target and link |
| RegisterResults.LoadGives | src/core/execute.cpp:153-169 | a performed load writes what memory answers, lw sign-extended from bit 31; a trap keeps the registers |
| RegisterResults.AccessGives | src/core/execute.cpp:153-175 | loads and stores go to rs1 plus the immediate; sw takes the low half of rs2, sd and fsd all of their register |
| RegisterResults.StoreGives | src/core/execute.cpp:173-175 | a performed store steps pc and leaves the memory the store leaves, or traps |
| RegisterResults.FpGives | src/core/execute.cpp:874-879 | floating-point loads and stores trap with cause 2 when FS is 0, and a load makes FS 3 when it marks it |
| RegisterResults.SignedReads | src/core/execute.cpp:357-434 | the signed reading of words and halves that multiplication and division use |
| RegisterResults.PerformGives | src/core/execute.cpp:98-200 | performing a write, a jump or a breakpoint changes exactly the destination and pc, or raises its cause |
| DecoderUnit.DecodedInsn.DecodeOperand16 | src/core/decoder.cpp:341-464 | the shift-and-mask assignments fill in the operands of the format, and the unreachable arms are not reached |
| DecoderUnit.DecodedInsn.Decode16 | src/core/decoder.cpp:250-312 | the scan that parses each written pattern in turn ends at the table's row for the word, for every word, the last pattern of free symbols included, and fills in its operands |
| DecoderUnit.DecodedInsn.Decode32Bit | src/core/decoder.cpp:54-248 | likewise the scan of the 160 written 32-bit patterns |
| DecoderUnit.DecodedInsn.DecodeOperand32 | src/core/decoder.cpp:314-339 | the shift-and-mask assignments give the registers and the immediate of the type |
| MulDiv.MulhMulIsProduct | src/core/execute.cpp:391-394 | mulh * 2^64 + mul is the signed product, for all operands |
| MulDiv.MulhsuMulIsProduct | src/core/execute.cpp:395-397 | mulhsu * 2^64 + mul is the signed-by-unsigned product, though the code multiplies unsigned |
| MulDiv.MulhuMulIsProduct | src/core/execute.cpp:398-399 | mulhu * 2^64 + mul is the unsigned product |
| MulDiv.MulwIsLowProduct | src/core/execute.cpp:400 | mulw is the sign-extended low half of the product of the low halves |
| MulDiv.DivRem | src/core/execute.cpp:357-410 | divisor * quotient + remainder is the dividend modulo 2^64 for all operands, exactly and with the required size and sign of remainder for a nonzero divisor, save the overflow |
| MulDiv.DivuRemu | src/core/execute.cpp:367-416 | the unsigned form, division by zero included |
| MulDiv.DivwRemw | src/core/execute.cpp:381-434 | the signed W form modulo 2^32, every result sign-extended |
| MulDiv.DivuwRemuw | src/core/execute.cpp:373-424 | the unsigned W form |
| FlashModel.WriteKeepsInv | src/device/pflash_cfi01.cpp:166-288 | every write keeps: a live block offset implies command 0xE8 and write cycle 2 or 3, and outside read mode the command is a known one |
| FlashLemmas.StorageEffect | src/device/pflash_cfi01.cpp:178-287 | byte by byte, what any write does to the storage: only an erase, a program operand and a confirmed block write change it |
| FlashLemmas.UnconfirmedErase | src/device/pflash_cfi01.cpp:178-239 | from every reachable state that awaits a command, an erase command and any second write leave the sector erased and every other byte as it was; the second write decides only whether array reads resume |
| FlashLemmas.DataPhase | src/device/pflash_cfi01.cpp:241-260 | for up to count + 1 buffered writes no storage byte changes, the phase ends with exactly the last, and the error bit collects every write outside the window |
| FlashLemmas.BlockWriteIsAtomic | src/device/pflash_cfi01.cpp:178-287 | a whole block-write transaction is all or nothing: confirmed without error it leaves every byte as the data writes in order make it, otherwise no byte changes |
| FlashLemmas.ZeroCountNeverCommits | src/device/pflash_cfi01.cpp:241-260 | a count of zero never commits |
| FlashLemmas.ErrorIsSticky | src/device/pflash_cfi01.cpp:178-287 | only the clear-status command removes the error bit |
| PFlashUnit.PFlash.DataWriteBytes | src/device/pflash_cfi01.cpp:333-356 | the bytes land in the buffer or the storage, or the error bit is set |
| PFlashUnit.PFlash.WriteCycle | src/device/pflash_cfi01.cpp:166-288 | the fields and both arrays after a write are the model's |
| PFlashUnit.PFlash.WriteInternal | src/device/pflash_cfi01.cpp:166-169 | an eight-byte write is a run of two cycles |
| PFlashUnit.PFlash.ReadCycle | src/device/pflash_cfi01.cpp:105-164 | a read returns array data, status, identifier or query data by state; the arm for unknown commands is unreachable |
| PFlashUnit.PFlash.ReadInternal | src/device/pflash_cfi01.cpp:105-116 | an eight-byte read joins two |
| FlashAnswers.CommandGives | src/device/pflash_cfi01.cpp:178-203 | which command values expect an operand, leave array mode or touch the status |
| FlashAnswers.OperandGives | src/device/pflash_cfi01.cpp:204-240 | what ends or confirms each command in its second cycle |
| FlashAnswers.ProgramGives | src/device/pflash_cfi01.cpp:204-212 | the operand of a program command lands in the storage, lowest byte first, and nothing else changes |
| FlashAnswers.BufferedGives | src/device/pflash_cfi01.cpp:241-260 | the window a buffered write opens, the error it may raise and the end of the phase |
| FlashAnswers.ConfirmGives | src/device/pflash_cfi01.cpp:262-287 | 0xD0 without an error installs the window, anything else drops it |
| FlashAnswers.ReadGives | src/device/pflash_cfi01.cpp:105-164 | a read gives array bytes, the identifiers 0x89 and 0x18, the query table or the status, by command and word |
| FlashAnswers.CommandIsAnswered | src/device/pflash_cfi01.cpp:105-203 | what the read right after each command returns |
| VirtioModel.LoopShape | src/device/virtio_blk.cpp:301-331 | the notify loop, which terminates by the 16-bit distance, ends with last_avail at the index read and one used step per entry |
| VirtioRing.NotifyAdvances | src/device/virtio_blk.cpp:276-341 | a notification that finishes moves last_avail to avail.idx and used.idx by exactly their distance modulo 2^16, whatever the driver wrote |
| VirtioRing.GuardIsExactUnlessWrapped | src/device/virtio_blk.cpp:279-283 | the guard agrees with the true distance iff the index has not wrapped while too far, and never refuses a driver within bounds |
| VirtioRunaway.WrappedNotifyIsServed | src/device/virtio_blk.cpp:279-341 | with an index that has wrapped past last_avail, a queue that keeps a flush on offer in every slot is served for the whole 16-bit distance, however small it is: the notification finishes and used.idx moves by all of it |
| VirtioRunaway.WrappedIndexIsLetThrough | src/device/virtio_blk.cpp:279-283 | a device with a queue of 4 entries and 65531 outstanding passes the guard, and its notification moves used.idx from 0 to 65531 |
| VirtioRing.RequestFrame | src/device/virtio_blk.cpp:157-248 | a request writes memory only in its data buffer and status byte |
| VirtioRing.LoopSlots | src/device/virtio_blk.cpp:301-331 | slot by slot, the used ring after the loop: the outstanding heads in order, each with the length its request returned, every other slot, the rings' other words and the descriptors untouched |
| VirtioRing.NotifyConserves | src/device/virtio_blk.cpp:250-341 | for a well-placed queue and a driver within bounds, both indices advance by the distance and the k-th new used element holds the k-th available head and the length the k-th request returned, which is 0 or that of its data buffer |
| VirtioRing.FailureKeepsUsedIdx | src/device/virtio_blk.cpp:250-341 | a notification that fails or throws has not moved used.idx, and a failure leaves the device needing reset |
| VirtioLemmas.ReadBackWrites | src/device/virtio_blk.cpp:119-155 | reading a sector back returns the bytes written and touches nothing else |
| VirtioLemmas.WriteFrame | src/device/virtio_blk.cpp:139-155 | a sector write changes only its own range of the disk |
| VirtioLemmas.OnlyWritesChangeDisk | src/device/virtio_blk.cpp:203-243 | only an accepted write request on a writable device changes the disk |
| VirtioLemmas.LineTracksUnlessReset | src/device/virtio_blk.cpp:83-117 | over every register write the line is up iff an interrupt bit is set, except exactly at a reset while it is up |
| VirtioLemmas.ResetLeavesLineUp | src/device/virtio_blk.cpp:94-117 | a run from reset that ends with the line up and no interrupt bit set |
| VirtioLemmas.LineTracksWithoutReset | src/device/virtio_blk.cpp:397-478 | the same over whole runs of register writes and guest stores without a reset |
| VirtioLemmas.FailedDeviceIsInert | src/device/virtio_blk.cpp:250-262 | after a failure and until a reset, over every run of register writes and guest stores, the disk does not change and memory changes by the guest's own stores only |
| VirtioLemmas.QueueSizesStaySane | src/device/virtio_blk.cpp:420-425 | over every run of register writes and guest stores queue sizes stay within the maximum, so the guard's 16-bit cast is exact |
| VirtioUnit.VirtioBlk.SetNeedsReset | src/device/virtio_blk.cpp:83-92 | status, interrupt bits and line after set_fail |
| VirtioDriver.FailureSets | src/device/virtio_blk.cpp:83-92 | a failure sets status bit 64 and, for a live driver, interrupt bit 2 with the line |
| VirtioUnit.VirtioBlk.StatusWrite | src/device/virtio_blk.cpp:94-117 | the reset of all queues in place, or the accumulated status |
| VirtioUnit.VirtioBlk.ReadHandler | src/device/virtio_blk.cpp:119-137 | memory holds the disk's bytes exactly when range and buffer allow |
| VirtioUnit.VirtioBlk.WriteHandler | src/device/virtio_blk.cpp:139-155 | the disk holds memory's bytes exactly when range and buffer allow |
| VirtioUnit.VirtioBlk.DescHandler | src/device/virtio_blk.cpp:157-248 | chain walk, checks, transfer and status byte are the model's request, which VirtioRequests spells out by type |
| VirtioRequests.ReadRequest | src/device/virtio_blk.cpp:203-213 | a request of type 0 puts the disk from byte 512 * sector on in the data buffer, 0 in the status byte and reports the buffer length; out of range only status 1 |
| VirtioRequests.WriteRequest | src/device/virtio_blk.cpp:214-226 | type 1 puts the buffer in that disk range; read-only or out of range only status 1 |
| VirtioRequests.FlushRequest | src/device/virtio_blk.cpp:227 | type 4 changes only the status byte |
| VirtioRequests.IdRequest | src/device/virtio_blk.cpp:228-239 | type 8 writes SERIAL0001, or as much as the buffer holds |
| VirtioRequests.UnknownRequest | src/device/virtio_blk.cpp:240-245 | any other type answers 2 and length 0 |
| VirtioRequests.MalformedIsRefused | src/device/virtio_blk.cpp:157-200 | a chain that is cut short, wrongly linked or without a readable header is refused |
| VirtioUnit.VirtioBlk.QueueNotifyHandler | src/device/virtio_blk.cpp:250-341 | the handler, loop included, is the model's notification in every outcome |
| VirtioDriver.NotifyChecks | src/device/virtio_blk.cpp:250-299 | the checks before the loop, in order and by number, with what each leads to |
| VirtioDriver.NotifyInterrupts | src/device/virtio_blk.cpp:334-341 | a notification that serves anything sets interrupt bit 0 and the line, unless bit 0 of the available flags is set |
| VirtioDriver.NotifyPublishes | src/device/virtio_blk.cpp:301-331 | every outstanding head, read at avail + 4 + 2 * slot, is published at used + 4 + 8 * slot with the length its request returned |
| VirtioUnit.VirtioBlk.RegisterWrite | src/device/virtio_blk.cpp:407-483 | every arm of the switch, feature registers and configuration space included, is the model's register write |
| VirtioDriver.SelectionAndSize | src/device/virtio_blk.cpp:414-425 | queue selection and size by offset and bound |
| VirtioDriver.LowHalves | src/device/virtio_blk.cpp:435-461 | the low halves of the ring addresses by offset |
| VirtioDriver.HighHalves | src/device/virtio_blk.cpp:435-461 | the high halves likewise |
| VirtioDriver.HalvesAre | src/device/virtio_blk.cpp:435-461 | each half of an address is replaced, the other kept |
| VirtioDriver.FeatureRegisters | src/device/virtio_blk.cpp:402-413 | the feature registers by offset, and the refusal of other sizes below 0x100 |
| VirtioDriver.QueueBecomesReady | src/device/virtio_blk.cpp:426-434 | a queue made ready starts at the index the driver has published |
| VirtioDriver.Acknowledge | src/device/virtio_blk.cpp:463-467 | an acknowledgement clears the bits it names, and the line with the last |
| VirtioDriver.StatusRegister | src/device/virtio_blk.cpp:94-117 | status bits accumulate, and 0 resets all but memory, disk, features, capacity and line |
| VirtioDriver.ConfigurationSpace | src/device/virtio_blk.cpp:469-478 | byte by byte, what a write of the configuration space leaves |
| VirtioUnit.VirtioBlk.WriteInternal | src/device/virtio_blk.cpp:397-483 | sizes are checked, offsets mapped to registers, and an eight-byte write does both halves in order unless the first throws |
| Memory.LoadStoreSame | include/core/dram.hpp:53-63 | a typed read after a typed write of the same address and width returns the value |
| Memory.LoadStoreOther | include/core/dram.hpp:53-63 | a write leaves reads of disjoint ranges alone |
| Memory.LoadIsLittleEndian | include/core/dram.hpp:53-63 | byte k of a value read is the byte of memory k places on |
| Memory.StoreIsLittleEndian | include/core/dram.hpp:53-63 | a write puts byte k of its value k places on and changes nothing else |

## Left out

- Rv64Decode.DecodeInvertsEncode: has no encodings for the atomics, for floating-point arithmetic and for sfence.vma, whose free fields (aq, rl, rm, rs3) no operand here holds; `Rv64Map.TableIsMap` covers their rows.
- PcParity.PcStaysEven: an instruction without a described effect steps pc by its length, or traps, in any run; an ecall from the privilege value 2, which `exec_ecall` marks unreachable, does not occur.
- Patterns.ParsePattern: leaves out a pattern of 64 free symbols, whose shift by 64 is undefined in the source; no row has one.
- Execution of the instructions that no compressed one expands to, other than branches, the shifts by register, the M extension, ecall and the returns.
- Floating-point arithmetic and its rounding modes; loads and stores of floating-point registers are modelled.
- The pattern strings of the two tables are written group by group, as the blanks in the source divide them, and joined before they are parsed.
- FetchLemmas.FetchIsParcelwise: asks for a DRAM of whole pages, because the fetch checks four bytes where a compressed instruction has two; `src/main.cpp:59` builds no other size.
- AccessMeaning.FetchGives: asks for the same.
- StoreLoad.ProbedStoreCannotFault: asks for a memory of whole words, because the probe checks one byte and the store its full width.
- Devices on the bus: loads, stores, walks and fetches see DRAM only; `add_device` and its overlap check (`include/core/bus.hpp`) would add easy members.
- The LR/SC reservation itself: an SC is modelled from its probe on, AMO arithmetic as an arbitrary stored value.
- Legalisation of MPP: the code does none, so privilege is kept as two bits.
- Interrupt order by destination mode: the code has one fixed order, which is the one proved.
- The PLIC's register decoding, its 8-byte split and the reads of pending, enable and priority registers.
- The WFI wait, mcycle and minstret of the CPU loop.
- Sector lengths of the flash: the masks of the source round down for powers of two, the model rounds down for any length; file loading is left out.
- VirtIO: reads of registers, and the file behind the disk, which is a byte sequence whose reads and writes succeed in range. A status byte outside memory and a queue size of zero are undefined in the source and an outcome of their own here.
- CLINT, RTC, UART, framebuffer, event, random and battery devices, the user interface, ELF loading and the command line.
