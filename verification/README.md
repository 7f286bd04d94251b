# PondMerge, modelled in Dafny

PondMerge is an allocator for one caller-supplied zone of memory. The zone is cut into segments;
pools own windows of adjacent segments; each pool is tiled by boundary-tagged blocks whose free
members hang in TLSF-style bins. Objects are reached through generation-checked references, so the
allocator may slide them: `compact` packs one pool, `merge` joins two adjacent pools, `split` cuts one
in two. This project models that code and proves that all of it keeps one invariant, that no
relocation loses a word, and that over any sequence of calls the allocator behaves like a plain map
from references to contents.

`dafny verify dfyconfig.toml` checks the whole project.

## How the state is modelled

- **Zone.** `GlobalState.zone` is an `array<u32>` indexed by byte offset; the code only ever touches
  4-aligned words. Addresses are zone offsets, and 0 stands for the null address of a free slot. One
  minimal block of padding follows the zone, so an audit of damaged links may read a link field
  behind the last header.
- **Pools and descriptors** are arrays of records that the methods update in place, as the structs are
  embedded by value in the C++ tables. Flags are sets, bitmaps are sequences of bits, `u16`/`u32`
  fields are bounded and their wrap-around is written out.
- **Abstraction.** A ghost `Lay` per pool maps block starts to (size, live slot | free | slack). `Inv`
  (State.dfy) ties zone words, bins, bitmaps, live lists, counters, windows, pool slots and the
  free-slot stack together; `GlobalState.Valid()` is `Inv` plus the live count.
- **Scratch arrays** (`s_plan`, `s_upper`, `s_barriers`, `s_slots`, `s_ord_key`, `s_free_off`) are
  arrays or sequences local to a call. Locked regions are atomic steps.

## Layers

| files | what they hold |
|---|---|
| Base, Lists, SizeClass, Bins | constants, size classes, the two-level bins with their linked lists in the zone words |
| Layout, BoundaryTags, PoolHeap | tilings, the prev_size chain, the block halves of alloc and free |
| Objects, State, Init, Refs | descriptors, live lists, free-slot stack, the global invariant, init, reference checks |
| AllocOp, FreeOp | `alloc` and `free` |
| Sort, Collect, Precheck, Blocks, Finalize | sorting, enumeration, audit and the layout rebuild shared by all maintenance |
| Moves, Plan, Relocate, CompactOp, CompactProps | the copy primitive, move order, packing plan, `compact`, its budgets and target |
| SplitPlan, SplitOp, Audit, MergeOp | `split`, the bin audit, `merge` |
| Sweep, Validate | the one-pass coverage sweep and `validate` |
| Pools, Advice | pool lifetime, borrows, `analyze_compaction` |
| Runs, RunsLink, Generations | interleaved borrow protocol, slot reuse, conservation |
| Survival, Calls, ObjectStore | objects across any sequence of calls, and the refinement of a store of contents |
| Placement, Composition, Quiescence | where split and merge put every object, split undone by merge, maintenance of paused pools |
| Lifecycle, CallSteps | every call as a step in the life of every slot, and as a run of the borrow machine |
| Scenarios | concrete runs of calls to the states behind the findings |

## Findings

Where code and documentation part, the model follows the code; each point has its exact condition and a concrete input.

- **Size classes can wrap.** The 32-bit product in `sl_index` keeps classes ordered exactly for the
  configurations in which it fits; the combinations SL_COUNT/FL_MAX of 8/31, 16/30 and 16/31 satisfy the static
  assertions of `pm_config.h` and break the order (`LegalConfigMonotoneIff`, `WrappedPair`). The
  defaults 4/24 are safe, and the rest of the model uses them.
- **A targeted compaction can report a target that alloc refuses.** `compact_impl` rounds the target in 32 bits, so
  it agrees with the block size of `alloc` exactly below 2^32 - 15 (`TargetNeedExact`). After a compaction that
  reports its target met, with a free slot, an allocation of the requested size succeeds if and only if that size is below
  2^32 - 15 (`CompactThenAlloc`); 0xFFFFFFF1 is a size whose target is always met (`WrappedTarget`).
- **The free-block bound in the comment at src/core.cpp:961-972 is too small.** Slack runs can separate free blocks,
  as docs/AUDIT_LEDGER.md:155-157 says: create, four allocs, a free, a split and two more frees leave a pool with
  two free blocks and no live one (`SlackScenario`). The bound is live + slack runs + 1 (`FreeCount`). `validate` therefore
  refuses a consistent pool exactly when it has more than PM_MAX_OBJECTS + 1 free blocks
  (`ValidatePool`; `RefusedScenario` builds such a pool for a table of one slot), which needs more live objects and
  slack runs than PM_MAX_OBJECTS (`ValidateId`).
- **Budgets stop at blocks that would not move.** The comment at src/core.cpp:1016-1017 says that the budget ends the plan
  before the move that would exceed it; the test at src/core.cpp:1099-1102 runs before the question whether the
  block moves at all. Code and comment plan the same exactly when every block that is in its packed place, not
  served by the target and larger than the rest of the budget comes behind a block at which both stop
  (`BudgetAgreesIff`). After three allocs and a free, a budget of 16 bytes moves nothing although one block of 16 bytes
  could move (`BudgetScenario`).
- **The lower side of a split never refuses**, although the header speaks of either side; only the upper side can
  (`SplitExact`, `PlanSplit`). For the upper side the status is NoSpace only when it holds no pin.

## Model

| member | source | states |
|---|---|---|
| SizeClass.ClassExact | src/core.cpp:110-120 | In a configuration whose product fits, fl is the floor of log2 and sl the exact linear subdivision of that power of two. |
| SizeClass.ClassMonotone | src/core.cpp:110-120 | The pair (fl, sl) is lexicographically monotone in the size. |
| SizeClass.LegalConfigMonotoneIff | include/pondmerge/pm_config.h:56-63 | Among the configurations the static assertions allow, classes are ordered if and only if the 32-bit product fits; names the three that fail. |
| SizeClass.WrappedPair | src/core.cpp:116-120 | A concrete pair of sizes whose classes are out of order in each failing configuration. |
| SizeClass.BinMonotone | src/core.cpp:182-183 | With the default parameters a larger block never lies in a lower bin. |
| Bins.PushKeepsInv | src/core.cpp:122-133 | Pushing a block adds exactly it to the bin of its size and keeps links, membership and both bitmaps consistent, for all bins. |
| Bins.BinsInsert | src/core.cpp:122-133 | The in-place insertion has that effect and writes link words of free blocks only. |
| Bins.UnlinkKeepsInv | src/core.cpp:135-147 | Unlinking a block from head, middle or tail removes exactly it and keeps all bins consistent, bitmap clearing included. |
| Bins.BinsRemove | src/core.cpp:135-147 | The in-place removal has that effect and writes link words of free blocks only. |
| Bins.WalkBin | src/core.cpp:171-178 | The walk of one bin finds its first fit or proves there is none; on consistent bins the hop cap and the offset screen never refuse. |
| Bins.BinsFind | src/core.cpp:149-191 | A miss if and only if no binned block is large enough; a hit is the first fit of the lowest bin that holds one. |
| Layout.CoversOnce | src/core.cpp:2603-2608 | In a tiling every byte of the window lies in exactly one block. |
| Layout.Accounting | src/core.cpp:2814-2818 | Live, free and slack bytes add up to the capacity. |
| Layout.FreeCount | src/core.cpp:961-972 | Free blocks are at most live blocks plus slack runs plus one, the bound that replaces the comment's. |
| BoundaryTags.PrevSizeMeaning | src/core.cpp:734-746 | A non-zero prev_size leads to the physical predecessor, which is not slack; zero means pool start or slack before. |
| BoundaryTags.AllocKeepsLayout | src/core.cpp:1583-1604 | Splitting or absorbing the remainder keeps tiling, headers, prev_size chain and coalescing. |
| BoundaryTags.AllocFreeMap | src/core.cpp:1576-1593 | The free blocks afterwards are the old ones without the carved one, plus the remainder if it holds a minimal block. |
| BoundaryTags.MergeMembers | src/core.cpp:1709-1727 | The stretch that free merges holds the freed block and its free neighbours and nothing else. |
| BoundaryTags.FreeKeepsLayout | src/core.cpp:1709-1734 | Two-sided coalescing keeps the whole layout invariant, so no two free blocks touch. |
| BoundaryTags.FreeFreeMap | src/core.cpp:1714-1732 | The free blocks afterwards: absorbed neighbours gone, one merged block in. |
| BoundaryTags.AllocFreeRestores | src/core.cpp:1709-1734 | alloc followed at once by free of that block restores the very layout. |
| PoolHeap.CarveBlock | src/core.cpp:1576-1604 | The block half of alloc on the zone words: new layout and bins agree, live payloads and everything outside the window stay. |
| PoolHeap.FreeBlockBinned | src/core.cpp:621-650 | The O(1) link proof accepts every binned block of a consistent pool. |
| PoolHeap.VerifyNeighbours | src/core.cpp:1658-1689 | The read-only proof of free never reports corruption on a consistent pool. |
| PoolHeap.ReleaseBlock | src/core.cpp:1709-1734 | The block half of free on the zone words: coalesced layout, consistent bins, other payloads and the outside untouched. |
| Objects.PushOrder | src/core.cpp:284-294 | Appending at the head keeps the doubly linked live list well formed and duplicate-free. |
| Objects.UnlinkOrder | src/core.cpp:261-267 | Unlinking any node keeps the list, without exactly that node. |
| Objects.SlotPop | src/core.cpp:472-478 | Taking a slot pops exactly the top of the free-slot stack. |
| Objects.SlotPush | src/core.cpp:480-484 | Releasing a slot pushes exactly it. |
| State.GlobalState.constructor | src/core.cpp:1218-1234 | A fresh allocator satisfies the invariant: all pools Empty and zero, all slots on the stack. |
| Init.InitZone | src/core.cpp:1194-1235 | The status, argument by argument: InvalidAlignment for an unaligned zone, a segment size that is no power of two or below 1024, or a zone below one segment; NoSpace for too many segments or a zone of 2^24 bytes and more; otherwise the new state is valid. |
| Init.PowerOfTwoIs | src/core.cpp:1202 | The bit test accepts exactly the powers of two. |
| Refs.CheckRefMeaning | src/core.cpp:521-574 | On a consistent allocator the status is decided, in this order, by slot and generation (InvalidRef), pool hint (PoolChanged), pool state (Busy), alignment being a power of two up to 8 (InvalidAlignment), range (InvalidRef) and address (InvalidAlignment); it is never CorruptMetadata. |
| Refs.AlignmentAccepted | src/core.cpp:564-566 | An access alignment is accepted if and only if it is a power of two not above 8. |
| Refs.RootGranted | src/core.cpp:564-574 | A current reference to the start of an object is granted every access within its size under every accepted alignment, 8 included. |
| Refs.CheckRefSafe | src/core.cpp:521-574 | On arbitrary metadata a granted access lies inside the payload of a live, aligned block that lies in its pool's window and in the zone, and both list links name table slots. |
| AllocOp.SlotAlloc | src/core.cpp:472-478 | In place: pops the free-slot stack or reports that it is empty. |
| AllocOp.OrderAppend | src/core.cpp:284-294 | In place: links the descriptor before the old head, nothing else changes. |
| AllocOp.BinsBitmapConsistent | src/core.cpp:1450-1479 | The diagnosis of a refused allocation accepts every consistent pool, so exhaustion reads NoSpace. |
| AllocOp.AllocLocate | src/core.cpp:1530-1560 | Search, diagnosis and window re-proof together succeed exactly when a large enough free block exists. |
| AllocOp.AllocCommit | src/core.cpp:1562-1627 | The part that cannot fail: new descriptor, list, bins, counters and layout, invariant kept. |
| AllocOp.AllocKeepsInv | src/core.cpp:1562-1627 | The global invariant after the commit. |
| AllocOp.Alloc | src/core.cpp:1484-1628 | The status on arguments, pool state, free slots and free blocks: Ok if and only if the request is well formed, the pool runs, a slot is free and some free block holds header and payload. Refusals change nothing; success states the whole new descriptor, pool record and layout, and PINNED is set exactly if PINNED, DMA or EXTERNAL was requested, every other flag as requested. |
| AllocOp.FitsMeans | src/core.cpp:1515-1523 | A free block meets the rounded need exactly if it holds size + 8 bytes, and it is then below the size limit. |
| FreeOp.OrderUnlink | src/core.cpp:261-267 | In place: the neighbours' links bypass the slot, nothing else changes. |
| FreeOp.FreeBytes | src/core.cpp:1737-1738 | Freeing takes exactly the block's size off the live bytes and leaves slack alone. |
| FreeOp.FreeCommit | src/core.cpp:1652-1748 | Verification, coalescing, unlinking and slot release keep the invariant. |
| FreeOp.FreeKeepsInv | src/core.cpp:1709-1748 | The global invariant after free. |
| FreeOp.FreeObject | src/core.cpp:1638-1749 | The exact status for every reference, in fields of the descriptor and its pool, never CorruptMetadata; success coalesces both sides, bumps the generation and changes no other object; refusals change nothing. |
| FreeOp.AllocThenFree | src/core.cpp:1484-1749 | alloc followed at once by free succeeds and restores the pool's layout with its free blocks, the live list and the slot stack. |
| Sort.HeapSort | src/core.cpp:302-328 | Heapsort sorts the prefix in place by any strict total order and permutes it. |
| Sort.SortU32Asc | src/core.cpp:332-353 | The same for numbers. |
| Sort.SortPackedKeys | src/core.cpp:392-410 | The ascending and descending shortcuts and heapsort all give the ascending permutation. |
| Collect.PackedOrder | src/core.cpp:443-458 | Sorted packed keys unpack to the address-sorted permutation of the slots as long as offsets stay below 2^24. |
| Collect.SortSlots | src/core.cpp:446-462 | Both sorting paths deliver the address-sorted permutation. |
| Collect.CollectLiveSorted | src/core.cpp:425-469 | Ok means a well-linked, duplicate-free live list of this pool and its address-sorted permutation; every well-formed list with distinct addresses is accepted. |
| Precheck.PrecheckPool | src/core.cpp:669-732 | On any metadata Ok if and only if the window fits the zone and some address order of the live list passes every check; a consistent pool always passes. |
| Precheck.AuditSpelled | src/core.cpp:688-731 | The audit on fields and words: live slots in address order, blocks of legal shape inside the window, header words that equal their sizes, no overlap, number and bytes as the record says. |
| Precheck.PoolAudits | src/core.cpp:652-663 | The blocks of a consistent pool, in address order, are disjoint, inside the window and agree with their headers. |
| Blocks.CanonFullLive | src/core.cpp:839-870 | The rebuilt layout's live blocks are exactly the given blocks. |
| Blocks.GapIsFreeFull | src/core.cpp:849-856 | Every gap of at least a minimal block becomes one free block. |
| Finalize.FinalizeLayout | src/core.cpp:831-894 | The rebuild leaves the canonical layout of the blocks inside the range with correct tags, bins and counters, and keeps every payload word and the outside. |
| Moves.MoveBlock | src/core.cpp:51-78 | An overlapping copy in either direction delivers every source word and changes nothing outside the destination. |
| Moves.RunStep | src/core.cpp:1116-1125 | One move of a safe order: done blocks are in place, all others still intact at their source. |
| Moves.RunDone | src/core.cpp:1116-1125 | After a safe run every block's words are at its destination and nothing outside the window changed. |
| Moves.RunAscending | src/core.cpp:1116-1125 | The ascending loop performs the run on zone and descriptors. |
| Moves.RunDescending | src/core.cpp:2502-2510 | So does the descending loop. |
| Plan.CursorBehind | src/core.cpp:2265-2268 | The packed cursor never passes the next block's own start, nor the end of the window. |
| Plan.PlanIsTotal | src/core.cpp:1075-1088 | Hence no pinned block and no window end is in the way: the PinnedConflict and NoSpace branches cannot fire. |
| Plan.NextBarrier | src/core.cpp:1078-1081 | The barrier index always names the next pinned block. |
| Plan.LeftwardSafe | src/core.cpp:2299-2302 | Ascending leftward packing, cut anywhere, never destroys an unmoved source. |
| Plan.MoversPrefix | src/core.cpp:1013-1019 | The moves of a shorter cut are a prefix of those of a longer one, to the same places. |
| Plan.BudgetAgreesIff | src/core.cpp:1016-1017 | Against the plan that the comment describes, the code stops no later, and at the same place if and only if no block in place comes up short before a block at which both stop; the condition speaks of blocks, destinations and limits only. |
| Plan.BudgetStopsInPlace | src/core.cpp:1099-1110 | Two blocks and a budget where the two plans differ. |
| Plan.ScanBudget | src/core.cpp:1099-1102 | The plan never exceeds its byte or object budget, and a met cut really reaches the target. |
| Plan.ScanIsFirst | src/core.cpp:1087-1102 | The cut is the first movable block at which a gap at or above the cursor holds the target or the budgets leave too little, and it counts as met exactly in the first case. |
| Plan.ScanUnlimited | src/core.cpp:1030-1040 | Without a request the scan runs to the end. |
| Plan.TargetIsFree | src/core.cpp:1089-1098 | When the cut was made for the target, the rebuilt layout holds a free block of that size. |
| Plan.SecondCompactMovesNothing | src/core.cpp:1103-1110 | Packing a packed sequence moves nothing. |
| Plan.PinFreeTail | src/core.cpp:1071-1112 | Without pins the packed layout has one non-live run, at the end. |
| Relocate.PayloadComposed | src/core.cpp:1115-1128 | Moves followed by the rebuild still deliver every payload word. |
| Relocate.RebuiltObjs | src/core.cpp:1126-1128 | Relocated descriptors and the rebuilt layout agree again. |
| CompactOp.SuffixHoles | src/core.cpp:1048-1068 | The suffix array holds the largest original hole at or after each block. |
| CompactOp.PlanCompact | src/core.cpp:1030-1113 | The planning loop returns the declarative cut and exactly the movers before it; only a malformed alignment is refused. |
| CompactOp.RelocatedFields | src/core.cpp:1121-1122 | A relocation changes address and address epoch only. |
| CompactOp.CompactImpl | src/core.cpp:988-1138 | On any metadata CorruptMetadata exactly when the audit fails, and a refusal before the first write; on a consistent pool the only refusals are an open borrow and a malformed alignment, and success leaves layout, payloads, descriptors and counters of the cut. |
| CompactOp.CompactKeepsInv | src/core.cpp:2155-2167 | The global invariant after the commit. |
| CompactOp.Compact | src/core.cpp:2127-2170 | On arbitrary metadata a refused call leaves everything but at most a Running-to-Paused change, and CorruptMetadata comes exactly from a failed audit. On a consistent allocator the status is stated on pool record and request, and success leaves a consistent pool with all payloads at their planned places; budgets are kept, and a plan that stops short of the end without meeting its target stops at a movable block whose move would break one of them. |
| CompactOp.BudgetsKept | tests/model.cpp:338-364 | objects_moved and bytes_moved never exceed the request's caps, and the caps are spent: where the plan stops unmet, the next movable block exceeds max_move_bytes or max_move_objects is reached. |
| CompactProps.TargetNeedExact | src/core.cpp:1036 | The target equals the block size of alloc if and only if the size is below 2^32 - 15. |
| CompactProps.WrappedTarget | src/core.cpp:1036-1043 | A concrete size whose target is vacuously met and which alloc refuses. |
| CompactProps.TargetServed | include/pondmerge/pondmerge.hpp:297-308 | A met target means the pool then holds a free block that alloc can use. |
| CompactProps.CompactThenAlloc | include/pondmerge/pondmerge.hpp:297-308 | compact with a met target followed at once by alloc, a slot being free: alloc succeeds if and only if the size is below 2^32 - 15. |
| CompactProps.PackedPlaces | src/core.cpp:1069-1122 | Pinned blocks and blocks behind the cut keep their descriptor; any other block starts where its predecessor now ends, the first at the window's start; exactly the blocks with a new address get the next epoch. |
| CompactProps.TargetMissed | src/core.cpp:1023-1026 | When the plan stops on a budget with the target unmet, no free block at or above the packed part of the rebuilt pool can hold the target. |
| CompactProps.PackedInNeed | src/core.cpp:1084-1097 | A block is packed only while neither the gap in front of it nor any gap behind it or a later block can hold the target. |
| CompactProps.CountsExact | src/core.cpp:1115-1131 | objects_moved and bytes_moved are the number and the block bytes of exactly the descriptors whose address changed. |
| CompactProps.NotMoved | src/core.cpp:1016-1019 | Pinned blocks, blocks behind the cut and foreign objects keep their whole descriptor; everybody keeps generation and flags. |
| CompactProps.PartialIsPrefix | src/core.cpp:1013-1019 | A partial compaction moves what the full one moves first, and leaves later blocks at their addresses. |
| CompactProps.BlocksUnique | src/core.cpp:412-416 | A pool has only one address-ordered list of blocks. |
| CompactProps.SecondFullCompact | src/core.cpp:1103-1110 | A second full compaction moves nothing and leaves layout and table as they were. |
| CompactProps.PinFreeOneRun | src/core.cpp:1071-1112 | A full compaction of a pin-free pool leaves all free space in one tail run. |
| SplitPlan.LowerPrefix | src/core.cpp:2429-2432 | In address order the lower blocks are a prefix. |
| SplitPlan.StackFitsIff | src/core.cpp:2423-2481 | The plan fits at every step exactly when the upper blocks before the first upper pin fit below it. |
| SplitPlan.SplitExact | src/core.cpp:2423-2481 | The plan succeeds if and only if no pinned block crosses the boundary and the upper blocks stack up below each successive pin and the pool end; a refusal is PinnedConflict if the upper side holds a pin and NoSpace if not. |
| SplitPlan.CrossingConflict | src/core.cpp:2433-2437 | A pinned block across the boundary always gives PinnedConflict. |
| SplitPlan.RightIsPrefix | src/core.cpp:2471-2476 | Rightward entries form a prefix that ends before the first upper pin. |
| SplitPlan.SplitOrderSafe | src/core.cpp:2494-2500 | In the order rightward descending, leftward ascending, lower side ascending, no write reaches an unmoved source or a pinned block. |
| SplitPlan.SplitPlacement | src/core.cpp:2423-2481 | Where sources and destinations lie: lower blocks end up below the boundary, upper ones above, in order. |
| SplitPlan.SplitPlanOk | src/core.cpp:2483-2528 | A fitting plan is a safe run over the whole window. |
| SplitOp.PlanSplit | src/core.cpp:2416-2481 | The two-cursor loop returns the declarative verdict, both plans and the length of the rightward prefix. |
| SplitOp.ExecuteSplit | src/core.cpp:2501-2528 | The three loops carry out the run and cannot fail. |
| SplitOp.RelinkHalves | src/core.cpp:2541-2557 | The straight appends thread one well-formed list per side and relabel exactly the upper objects. |
| SplitOp.SplitFields | src/core.cpp:2506-2557 | A split changes address, address epoch, pool and links only. |
| SplitOp.SplitImpl | src/core.cpp:2403-2567 | On any metadata CorruptMetadata exactly when the audit fails, and a refusal before the first write; on a consistent pool the plan's verdict decides, and success leaves two consistent halves. |
| SplitOp.SplitKeepsInv | src/core.cpp:2558-2574 | The global invariant after the publish. |
| SplitOp.Split | src/core.cpp:2371-2587 | On arbitrary metadata with zeroed Empty slots any refusal, after arming too, restores everything including the claimed slot; on a consistent allocator the status is stated on pool table and argument, Running and Paused alike, up to the plan's verdict, and success partitions objects, bytes and segments with all payloads at their new places. |
| Placement.SplitPlaces | src/core.cpp:2423-2481 | A block goes to the new pool exactly if it ended above the boundary; pins keep address and epoch; every other block gets the next epoch and starts where its predecessor on its side now ends, the first one at its side's first segment. |
| Audit.AuditList | src/core.cpp:770-801 | The bounded walk of one bin accepts exactly the sound lists. |
| Audit.AuditPoolBins | src/core.cpp:755-811 | On any metadata Ok means every bin is soundly linked, sized and reflected in both bitmaps, and the total is the sum of the sizes; sound bins are accepted. |
| Audit.NodeSpelled | src/core.cpp:772-806 | The test of one bin node on the words of the zone: tag, size, class, both links answered by the blocks they name, prev_size. |
| Audit.PoolBinsAudited | src/core.cpp:748-754 | The bins of a consistent pool pass. |
| MergeOp.PlanMerge | src/core.cpp:2269-2296 | The planning loop never refuses and gives every block its packed place. |
| MergeOp.AuditPair | src/core.cpp:2243-2252 | The double audit, lower pool first, changes nothing on any metadata and passes on consistent pools. |
| MergeOp.JointYields | src/core.cpp:2237-2242 | Concatenating the two audited arrays gives one address-ordered array over the joint window. |
| MergeOp.ExecuteMerge | src/core.cpp:2304-2319 | The move loop delivers all blocks and re-labels exactly the source's objects. |
| MergeOp.ThreadList | src/core.cpp:2320-2330 | The target's list is rebuilt from the plan array. |
| MergeOp.MergeFields | src/core.cpp:2304-2329 | A merge changes address, address epoch, pool and links only. |
| MergeOp.MergeImpl | src/core.cpp:2218-2340 | On any metadata a refusal comes before the first write; on consistent pools there is none. |
| MergeOp.MergeKeepsInv | src/core.cpp:2342-2347 | The global invariant after the publish. |
| MergeOp.Merge | src/core.cpp:2181-2358 | On arbitrary metadata a refusal, before or after arming, leaves everything as it was; on a consistent allocator the status is stated on pool numbers, states, borrow counts and segment numbers, a source above or below its target alike, and success leaves one joint pool and a zeroed source slot. |
| Placement.MergePlaces | src/core.cpp:2265-2327 | Every block belongs to the target; pins stay, every other block starts where its predecessor now ends, the first one at the lower pool's first segment; the epoch goes on once for a new address and once for a new pool. |
| Composition.SplitThenMerge | src/core.cpp:2209-2212 | A successful split followed at once by a merge of the halves, in either direction: Ok, one pool over the old window with the old objects, payloads and counts, the other slot zeroed. |
| Quiescence.SplitPaused | src/core.cpp:576-584 | Split gives the same status, and on Ok the same objects, layouts, live lists and records, on a state and on that state after pause; a refusal leaves each as it was. |
| Quiescence.CompactPaused | src/core.cpp:576-584 | The same for compact, its report of the target included. |
| Quiescence.MergePaused | src/core.cpp:576-584 | The same for merge, whichever of its two pools are paused. |
| Sweep.LinearSweep | src/core.cpp:2737-2806 | The merge sweep accepts exactly along a tiling of the window, up to a double count that the byte sum excludes. |
| Sweep.HintStep | src/core.cpp:2754-2802 | Along a tiling the sweep never meets a reason to refuse. |
| Sweep.SweepTail | src/core.cpp:2810-2812 | A short tail closes the tiling. |
| Validate.CheckLive | src/core.cpp:2652-2671 | Phase 1 accepts exactly ordered, disjoint blocks that agree with their headers and prev_size chain. |
| Validate.LiveSpelled | src/core.cpp:2652-2671 | The test of one live block on descriptor fields and zone words. |
| Validate.AuditCoverage | src/core.cpp:2675-2823 | Bins, sweep and reconciliation accept exactly the pools whose blocks tile the window. |
| Validate.ValidatePool | src/core.cpp:2616-2824 | On arbitrary metadata Ok if and only if a sound picture of the pool exists; on a consistent pool Ok if and only if its free blocks fit the scratch array. |
| Validate.AcceptedDisjoint | src/core.cpp:2603-2608 | In an accepted pool live and binned blocks are pairwise disjoint. |
| Validate.AcceptedGap | src/core.cpp:2603-2605 | In an accepted pool every uncovered stretch is shorter than a minimal block. |
| Validate.PoolSound | src/core.cpp:2598-2615 | The picture of a consistent pool is sound. |
| Validate.SlackBound | src/core.cpp:961-972 | The free-block bound for every consistent pool. |
| Validate.ValidateId | src/core.cpp:2616-2824 | Every pool of a consistent allocator with live objects plus slack runs within the table size is accepted. |
| Pools.MarkUsed | src/core.cpp:1281-1293 | The used array marks exactly the segments of existing pools. |
| Pools.FindRun | src/core.cpp:1294-1302 | Finds the lowest free run of that length, or proves there is none. |
| Pools.CreatePool | src/core.cpp:1267-1324 | Succeeds if and only if a free run and an Empty slot exist; takes the first of each; the new pool is Running, unborrowed and one free block. |
| Pools.FreeRunMeans | src/core.cpp:1281-1303 | A run of segments is free exactly if it overlaps the window of no existing pool. |
| Pools.DestroyPool | src/core.cpp:1326-1338 | An object-less pool becomes a zeroed slot; otherwise nothing changes. |
| Pools.Pause | src/core.cpp:1340-1353 | Exact status and the one state flip. |
| Pools.Resume | src/core.cpp:1355-1365 | Exact status and the one state flip. |
| Pools.BorrowBegin | src/core.cpp:1766-1784 | The status on the fields of reference, descriptor and pool, check by check; on the start of an object every accepted alignment succeeds; on success both counters go up and the current address is returned. |
| Pools.BorrowEnd | src/core.cpp:1786-1827 | Both counters go down exactly for a matching token; any other token changes nothing. |
| Pools.BorrowKeepsInv | src/core.cpp:1766-1816 | A matched change of both counters keeps the invariant, the sum included. |
| Advice.LargestFree | src/core.cpp:1384-1418 | The bounded walk never gives up on a consistent pool and returns the largest free block. |
| Advice.SimulatePacking | src/core.cpp:1973-1988 | The simulation counts exactly the movers of a full compaction and their bytes. |
| Advice.Analyze | src/core.cpp:1856-2078 | InvalidRequest exactly for size 0, a size above 2^24 - 16, or an alignment that is no power of two up to 8; which other verdict class a call gives; the estimate, the largest block and "fits now" are exact. |
| Advice.AnalyzeThenCompact | src/core.cpp:2062-2074 | A full compaction right after an unblocked analysis moves as many objects and bytes as announced. |
| Advice.EstimateExact | src/core.cpp:1956-1963 | The estimate of any address-ordered listing equals the counters the compaction reports. |
| Runs.StepKeeps | src/core.cpp:1766-1816 | Every atomic step (begin, end, pause, resume, arm, commit, object and pool lifetime) keeps the counter invariant. |
| Runs.RunKeeps | src/core.cpp:1766-1816 | So does every interleaving. |
| Runs.CountsAgree | src/core.cpp:2136-2151 | In every reachable state borrow_count is the sum over the pool's objects, and a pool under maintenance has none. |
| Runs.BorrowPinsAddress | src/core.cpp:1340-1347 | While a holder keeps its borrow, its object stays live at the address it was given. |
| Runs.EndEnabled | src/core.cpp:1799-1812 | A holder can always end its own borrow. |
| RunsLink.AllocatorCounts | src/core.cpp:1773-1774 | A consistent allocator satisfies the step machine's counter invariant. |
| RunsLink.AllocatorSysInv | src/core.cpp:1766-1816 | Every consistent state whose holders match the descriptors' counts satisfies the run invariant, so a run can start there. |
| RunsLink.FreshMatching | src/core.cpp:1228-1231 | A fresh allocator matches without holders. |
| RunsLink.BeginRefines | src/core.cpp:1766-1784 | A successful borrow_begin is the machine's begin step. |
| RunsLink.EndRefines | src/core.cpp:1786-1816 | A matching borrow_end is the machine's end step. |
| Generations.BumpedIs | src/core.cpp:489-500 | n bumps from zero give (n - 1) mod 65535 + 1. |
| Generations.LiveGeneration | src/core.cpp:1562-1564 | The k-th live generation of a slot is (2k mod 65535) + 1. |
| Generations.LifeGeneration | src/core.cpp:1743 | After any history of a slot its generation counts the bumps of its allocations and frees. |
| Generations.SameGeneration | src/core.cpp:489-500 | Two live generations coincide if and only if their numbers differ by a multiple of 65535. |
| Generations.StaleReference | src/core.cpp:525-528 | A stale reference matches its slot again exactly after a multiple of 65535 further allocations. |
| Generations.SlotsPartitioned | src/core.cpp:472-484 | Every slot is exactly once on the free stack or in exactly one pool's list. |
| Generations.PoolConserves | src/core.cpp:2814-2820 | Used, binned free and slack bytes of every pool make up its capacity. |
| Lifecycle.CallAges | src/core.cpp:1562-1564 | Every call of the allocator leads every slot one step on in its life: only alloc and free bump a generation or change liveness, and only of their own slot. |
| Lifecycle.SlotLives | src/core.cpp:489-500 | Along any sequence of calls from init every slot lives a life of the two-bump automaton. |
| Lifecycle.ReferenceCurrent | src/core.cpp:525-528 | A reference handed out by alloc matches its slot in a later state, the slot being live, exactly when a multiple of 65535 allocations of the slot have followed. |
| Lifecycle.StaleRefused | src/core.cpp:525-528 | After a free of its object and fewer than 65535 further allocations of the slot, a reference checks as InvalidRef whatever access it asks for. |
| Lifecycle.UnnamedSurvives | tests/model.cpp:439-443 | An object survives any run in which no call frees, writes or borrows it. |
| Lifecycle.PinnedStays | src/core.cpp:1510 | Along any sequence of calls an object that was allocated with PINNED, DMA or EXTERNAL stays live, pinned and at its address until a call frees it. |
| CallSteps.CompactIsRun | src/core.cpp:2136-2167 | A successful compact is the machine's arming, then relocations, then the publishing. |
| CallSteps.MergeIsRun | src/core.cpp:2194-2347 | A successful merge arms both pools, relocates into the target, and publishes the emptied source and the target. |
| CallSteps.SplitIsRun | src/core.cpp:2382-2574 | A successful split arms source and claimed slot, relocates, and publishes both halves. |
| CallSteps.CompactBack | src/core.cpp:2160-2166 | A compact refused after arming publishes the entry state and is back where it started. |
| CallSteps.MergeBack | src/core.cpp:2350-2357 | So is a refused merge. |
| CallSteps.SplitBack | src/core.cpp:2579-2586 | So is a refused split, the claimed slot being Empty again. |
| CallSteps.AllocIsStep | src/core.cpp:1562-1627 | A successful alloc is the machine's alloc step. |
| CallSteps.FreeIsStep | src/core.cpp:1709-1748 | A successful free is the machine's free step. |
| CallSteps.BeginIsStep | src/core.cpp:1766-1784 | A successful begin of a fresh holder is the begin step, and holders and counts still match. |
| CallSteps.EndIsStep | src/core.cpp:1786-1816 | A successful end is the end step of the holder that ends, and holders and counts still match. |
| CallSteps.PoolCallIsStep | src/core.cpp:1267-1365 | create_pool, destroy_pool, pause and resume are at most one step each. |
| CallSteps.RefusedIsRun | src/core.cpp:2142-2153 | A refused call takes no step, but for a compaction that met an open borrow and left the pool Paused. |
| CallSteps.CallIsRun | src/core.cpp:1766-1816 | Every call leads from one abstract state to the next by steps of the machine. |
| CallSteps.HistoryIsRun | src/core.cpp:1766-1816 | So does every sequence of calls, from a state that satisfies the run invariant. |
| Scenarios.BudgetScenario | src/core.cpp:1099-1110 | From init, three allocs, a free and a compaction with a budget of 16 bytes: nothing moves, though a block of 16 bytes could. |
| Scenarios.SplitScenario | src/core.cpp:2423-2481 | From init, a split that stacks a crossing block 8 bytes below a pin leaves a slack run between the two. |
| Scenarios.SlackScenario | src/core.cpp:961-972 | From there, two frees leave two free blocks, one slack run and no live block. |
| Scenarios.RefusedScenario | src/core.cpp:2743-2747 | A consistent pool with three free blocks and a table of one slot, which validate answers with CorruptMetadata. |
| Survival.ObjectsApart | src/core.cpp:2598-2608 | Live objects never overlap, in one pool or across pools. |
| Survival.AllocSurvives | src/core.cpp:1562-1618 | alloc leaves every other object and every payload word in place. |
| Survival.FreeSurvives | src/core.cpp:1709-1747 | free leaves every other object and every payload word in place. |
| Survival.CompactSurvives | src/core.cpp:1115-1128 | Every object survives a compaction with identity and payload, wherever it went. |
| Survival.MergeSurvives | src/core.cpp:2299-2340 | Every object of any pool survives a merge. |
| Survival.SplitSurvives | src/core.cpp:2483-2567 | Every object of any pool survives a split. |
| Survival.CreateSurvives | src/core.cpp:1281-1319 | A fresh pool overwrites no object. |
| Survival.BorrowedElsewhere | src/core.cpp:2146-2150 | A borrowed object lies in no pool that maintenance accepts. |
| ObjectStore.WriteKeepsInv | include/pondmerge/pondmerge.hpp:473-505 | A client's store inside a live payload keeps the whole invariant. |
| ObjectStore.ReadWord | include/pondmerge/pondmerge.hpp:561-569 | A scoped access reads the current word and gives its borrow back. |
| ObjectStore.WriteWord | include/pondmerge/pondmerge.hpp:561-569 | A scoped access changes one word and gives its borrow back. |
| ObjectStore.WriteStore | include/pondmerge/pondmerge.hpp:473-505 | Such a store updates one word of one object of the abstract store and disturbs no other object. |
| ObjectStore.AllocStore | src/core.cpp:1484-1628 | alloc adds one fresh object to the abstract store. |
| ObjectStore.FreeStore | src/core.cpp:1638-1749 | free removes one. |
| ObjectStore.BorrowStore | src/core.cpp:1766-1816 | Borrowing changes one count of the abstract store; while it is positive the address stands. |
| ObjectStore.Perform | tests/model.cpp:3-20 | One call of any kind: invariant kept, reply and state agree with the abstract store, every other object survives and borrowed ones do not move. |
| ObjectStore.Drive | tests/model.cpp:3-20 | Any sequence of calls: the allocator stays consistent and answers like the abstract store. |
| ObjectStore.DriveFresh | tests/model.cpp:257-279 | The same from init on. |
| ObjectStore.WordStays | tests/model.cpp:439-443 | In the abstract store a word keeps its value until a call overwrites it. |
| ObjectStore.ReadYourWrite | tests/model.cpp:326-327 | A read returns the last value written to the same word, whatever was compacted, merged, split, allocated or freed in between. |
| ObjectStore.AddressStays | src/core.cpp:1340-1347 | As long as some borrow of an object is open the object stays live at one address. |
| ObjectStore.SameAddress | src/core.cpp:1766-1784 | Overlapping borrows of one object are given the same object address. |

## Left out

- Bins.BinsFind: bins are modelled with the default parameters, 4 second-level classes and a ceiling of 2^24; other configurations are covered by the size-class lemmas only.
- PoolHeap.FreeBlockBinned: says that consistent pools pass; what it still rejects on damaged metadata is not stated.
- PoolHeap.VerifyNeighbours: the same.
- AllocOp.BinsBitmapConsistent: the same.
- Advice.LargestFree: the same; its give-up paths are in the body and shown dead on consistent pools.
- FreeOp.FreeObject: takes destroy_fn as null; destroy callbacks, set_destroy_fn and the second verification after a callback are not modelled.
- AllocOp.Alloc: leaves out the zero fill of PM_ZERO_INIT; the out-of-pool re-proof is modelled but cannot fire on a consistent allocator.
- Validate.ValidatePool: assumes the window lies inside the zone with one minimal block of padding behind it; with other geometry the code reads outside the model's zone.
- Moves.MoveBlock: leaves out the fallback to memmove for unaligned arguments; alignment is an invariant of the model.
- Advice.Analyze: leaves out the fragmentation thresholds and the slack-dependent verdict, which the source documents as an estimate; "Analyzed" stands for the verdicts that differ only by them.
- Pools.BorrowBegin: counters are unbounded; wrap-around after 2^32 open borrows is not modelled.
- Quiescence.SplitPaused: compares layouts, and with them the free blocks, but not the order of blocks inside one bin.
- Quiescence.CompactPaused: the same.
- Quiescence.MergePaused: the same.
- Scenarios.RefusedScenario: builds the refused pool word by word; that calls alone reach it is not shown.
- Real locks, SMP memory order, DMA and ISR holders: locked regions are atomic steps, alloc and free single-owner steps.
- deinit, the NotInitialized refusals and double init: an allocator object exists only after a successful init.
- poll_compaction_advice and its change cache, threshold accessors, the Debug owner gate: field comparisons only.
- High-water and timing statistics, metadata sizes, debug aborts and messages.
- Typed pointers, placement templates, relocatability traits and move construction of pm_access: object-lifetime questions of C++; ReadWord and WriteWord model the scope of one access.
- Benchmarks, drivers, fuzz target, demos and their plumbing.
