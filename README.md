# jlight, modelled in Dafny

jlight is a small language toolchain written in Rust. This project models the parts of it that do sequential bookkeeping:

- **Register allocation** (`jlight-vm/regalloc.rs`): the allocator's data structures and the linear-scan loop.
  - The data structures are sets, index ranges, bit-packed registers, instruction points, live-range fragments and sorted fragment vectors, and the register universe with its sanity check.
  - The linear-scan loop keeps intervals in active, inactive and handled sets.
- **Bytecode and compilation**:
  - jlight-vm's instruction set (register usage, renaming, branch targets);
  - basic blocks, and the `BytecodeFunction` framework that slices a flat vector into blocks;
  - the code generator's `Context` in `src/codegen.rs`, and the AST predicates.
- **Three virtual machines**:
  - **jlight VM** (`jlight-vm/src/runtime`, modules `Jlight*`, `StringPool`): objects with prototype chains, contexts and threads, the interpreter and the tracing interpreter, array builtins, and the global state.
  - **Machine** (`src/`, modules `Jlightc*`, `ProcessStatus`, `Safepoint`): tagged-integer object pointers, object values, contexts, processes with mailboxes, the hash conversion, and the machine's `run` loop.
  - **waffle VM** (`vm/`, modules `Waffle*`, `NanBox`, `ArithProfile`, `VmHeap`, `VmState`): NaN-boxed values, cells, execution contexts, processes, the interpreter, the arithmetic profile, and the bump-pointer spaces and permanent heap.
- **Immix-style heap bookkeeping** (`src/heap`, `src/chunk.rs`, modules `Heap*`, `Chunks`): bytemaps, block lists, the global block pool, histograms, buckets and the local allocator.

## How the source is modelled

- **Files and modules.** Each core source file becomes one module. Code the repository repeats verbatim is modelled once:
  - the NaN-boxing of `vm/src/runtime/value.rs` and `jlight-vm/src/runtime/value.rs`;
  - `ProcessStatus` and `RescheduleRights` in `src/process.rs` and `vm/src/runtime/process.rs`;
  - `nof_parallel_worker_threads` in both `state.rs` files.
- **Pure code and stateful code.**
  - Pure code becomes functions and lemmas.
  - Structures updated in place become classes whose methods state their whole new state.
  - Loops become methods with invariants, proved against a specification function.
- **Heaps.** Object heaps are Dafny objects, so aliasing through pointers is kept.
- **Prototype chains.** A walk up a prototype chain, or up a chain of calling contexts, takes the chain as a ghost argument. This is because the source would loop forever on a cyclic chain.
- **Panics.**
  - A panic the source reaches on bad input (an `unwrap` of `None`, an out-of-range index, an overlap in the register allocator) is a `Failure`, a `None` or a `false` result, so its condition is stated and proved.
  - Where a panic can only follow from misuse by the caller, its absence is a precondition.
- **Machine integers.**
  - Machine integers are written out where they matter: `u8`…`u64`, `i32` and `i64` casts with wrap-around, and `u32` overflow checks.
  - NaN-boxed words are `bv64`.
- **Outside state as parameters.** The processor count, OS page size, addresses and the truth of a value (`to_boolean`) are parameters.
- **Ghost arguments.** Ghost arguments only carry the chains and footprints the proofs need.

The repository's own description presents a Lisp-style interpreter, with a reader, environments and an evaluator. None of that is in the source modelled here, and this model follows the code.

Where a source function is wrong in a way its authors evidently did not intend, the model keeps two things (see "## Findings"):

- the function **as written**, with a lemma that exhibits the discrepancy;
- a **corrected** version, with the intended property proved.

## Model

| member | source | states |
|---|---|---|
| RegallocSet.Set.Empty | jlight-vm/regalloc.rs/lib/src/data_structures.rs:43-45 | the new set holds nothing |
| RegallocSet.Set.Unit | jlight-vm/regalloc.rs/lib/src/data_structures.rs:47-51 | the new set holds exactly the item |
| RegallocSet.Set.Two | jlight-vm/regalloc.rs/lib/src/data_structures.rs:53-58 | the new set holds exactly the two items |
| RegallocSet.Set.FromVec | jlight-vm/regalloc.rs/lib/src/data_structures.rs:115-121 | a fresh set holding exactly the elements of the vector |
| RegallocSet.Set.Insert | jlight-vm/regalloc.rs/lib/src/data_structures.rs:64-66 | the item is added and nothing else changes |
| RegallocSet.Set.Intersect | jlight-vm/regalloc.rs/lib/src/data_structures.rs:76-84 | the set keeps exactly the items also in the other set |
| RegallocSet.Set.Union | jlight-vm/regalloc.rs/lib/src/data_structures.rs:86-90 | every item of the other set is added and nothing else |
| RegallocSet.Set.Remove | jlight-vm/regalloc.rs/lib/src/data_structures.rs:92-96 | every item of the other set is removed and nothing else |
| RegallocRegs.Plus | jlight-vm/regalloc.rs/lib/src/data_structures.rs:354-356 | adding then taking away the offset gives the index back |
| RegallocRegs.Minus | jlight-vm/regalloc.rs/lib/src/data_structures.rs:358-360 | panics exactly when the offset exceeds the index, and otherwise adding the offset back gives the index |
| RegallocRegs.MyRange.First | jlight-vm/regalloc.rs/lib/src/data_structures.rs:209-212 | panics exactly on an empty range; otherwise an index inside the range whose predecessor is outside |
| RegallocRegs.MyRange.Last | jlight-vm/regalloc.rs/lib/src/data_structures.rs:214-217 | panics exactly on an empty range; otherwise an index inside the range whose successor is outside |
| RegallocRegs.NewRange | jlight-vm/regalloc.rs/lib/src/data_structures.rs:201-203 | the range starts at the given index and has the given length |
| RegallocRegs.DotDot | jlight-vm/regalloc.rs/lib/src/data_structures.rs:362-365 | panics exactly when the end lies below the start, and otherwise the range holds exactly the indices from `ix` up to, but excluding, `lastPlus1` |
| RegallocRegs.MyIterator.constructor | jlight-vm/regalloc.rs/lib/src/data_structures.rs:194-196 | a fresh iterator has the whole range still to yield, in order |
| RegallocRegs.MyIterator.Next | jlight-vm/regalloc.rs/lib/src/data_structures.rs:234-242 | an exhausted iterator yields none and stays put; otherwise it yields the next index and that index is used up |
| RegallocRegs.ContainsIffYielded | jlight-vm/regalloc.rs/lib/src/data_structures.rs:223-243 | `contains` holds exactly of the indices a fresh iterator yields |
| RegallocRegs.RcToU32 | jlight-vm/regalloc.rs/lib/src/data_structures.rs:435-443 | every register class maps below `NUM_REG_CLASSES` |
| RegallocRegs.RcFromU32 | jlight-vm/regalloc.rs/lib/src/data_structures.rs:449-458 | succeeds exactly below `NUM_REG_CLASSES` and is then the inverse of `rc_to_u32` |
| RegallocRegs.RegClassRoundTrip | jlight-vm/regalloc.rs/lib/src/data_structures.rs:435-458 | `rc_from_u32(rc_to_u32(rc))` gives `rc` back |
| RegallocRegs.GetHwEncoding | jlight-vm/regalloc.rs/lib/src/data_structures.rs:539-545 | succeeds exactly on a real register |
| RegallocRegs.NewReal | jlight-vm/regalloc.rs/lib/src/data_structures.rs:513-519 | the register is real and its class, index and hardware encoding read back as given |
| RegallocRegs.NewVirtual | jlight-vm/regalloc.rs/lib/src/data_structures.rs:520-526 | panics exactly when the index does not fit in 28 bits; otherwise a virtual register whose class and index read back and which has no hardware encoding |
| RegallocRegs.NewVirtualInjective | jlight-vm/regalloc.rs/lib/src/data_structures.rs:520-538 | two virtual registers are equal only when built from the same class and index |
| RegallocRegs.ToRealReg | jlight-vm/regalloc.rs/lib/src/data_structures.rs:575-581 | succeeds exactly on a real register, and leaves it as it is |
| RegallocRegs.ToVirtualReg | jlight-vm/regalloc.rs/lib/src/data_structures.rs:608-614 | succeeds exactly on a virtual register, and leaves it as it is |
| RegallocRegs.ApplyDefsOrUses | jlight-vm/regalloc.rs/lib/src/data_structures.rs:636-645 | a real register is kept; a virtual one is replaced by its mapping, which is real, and panics exactly when it has none |
| RegallocRegs.ApplyMods | jlight-vm/regalloc.rs/lib/src/data_structures.rs:649-670 | a real register is kept; a virtual one succeeds exactly when both maps hold it with the same register, and then becomes that register |
| RegallocRegs.RoundUp | jlight-vm/regalloc.rs/lib/src/data_structures.rs:689-692 | panics exactly when the slot count is zero; otherwise the smallest multiple of it at or above the slot |
| RegallocRegs.RoundUpBounds | jlight-vm/regalloc.rs/lib/src/data_structures.rs:689-692 | the rounded value is a multiple of the count, at or above the slot and less than one count above it |
| RegallocRegs.Inc | jlight-vm/regalloc.rs/lib/src/data_structures.rs:693-695 | the slot grows by the count |
| RegallocFrags.Convert | jlight-vm/regalloc.rs/lib/src/data_structures.rs:910-917 | each point kind maps to one of four ranks |
| RegallocFrags.CmpPoints | jlight-vm/regalloc.rs/lib/src/data_structures.rs:945-957 | instruction points compare as their linear positions (instruction first, then reload, use, def, spill), and are equal only when identical |
| RegallocFrags.MinMaxBound | jlight-vm/regalloc.rs/lib/src/data_structures.rs:975-982 | `min_value` and `max_value` bound every instruction point, and every other point is strictly above `min_value` |
| RegallocFrags.NewRangeFrag | jlight-vm/regalloc.rs/lib/src/data_structures.rs:1079-1100 | panics on an empty block; otherwise keeps the given bounds and block, and the kind says whether the fragment starts at the block's first use and whether it ends at the block's last def |
| RegallocFrags.CmpFragsMirror | jlight-vm/regalloc.rs/lib/src/data_structures.rs:1105-1116 | `Less` and `Greater` are mirror images, and `Equal` and `None` are symmetric |
| RegallocFrags.OverlapIffCommonPoint | jlight-vm/regalloc.rs/lib/src/data_structures.rs:1105-1121 | two well-formed fragments the comparator leaves unordered or equal are exactly those that share an instruction point |
| RegallocFrags.LessTrans | jlight-vm/regalloc.rs/lib/src/data_structures.rs:1105-1116 | fragments strictly before one another chain |
| RegallocFrags.CmpFragsExamples | jlight-vm/regalloc.rs/lib/src/data_structures.rs:1486-1553 | the comparator's unit-test cases: point fragments at 3u, 3d and 4u, partial overlaps and containment |
| RegallocSorted.SortedIncreasing | jlight-vm/regalloc.rs/lib/src/data_structures.rs:1150-1163 | over well-formed fragments, `check`'s neighbour test makes every fragment strictly before every later one |
| RegallocSorted.MergeHead | jlight-vm/regalloc.rs/lib/src/data_structures.rs:1198-1239 | the merged vector has the length of both inputs and starts with the head of one of them |
| RegallocSorted.MergeContents | jlight-vm/regalloc.rs/lib/src/data_structures.rs:1198-1239 | the merged vector holds exactly the fragments of both inputs |
| RegallocSorted.MergeSorted | jlight-vm/regalloc.rs/lib/src/data_structures.rs:1198-1239 | merging two sorted vectors gives a sorted one, so `add`'s closing `check` never fails |
| RegallocSorted.MergeFailsIffOverlap | jlight-vm/regalloc.rs/lib/src/data_structures.rs:1198-1239 | over well-formed fragments, `add` panics exactly when some fragment of one vector overlaps some fragment of the other |
| RegallocSorted.DelKeepsSurvivors | jlight-vm/regalloc.rs/lib/src/data_structures.rs:1273-1309 | a successful `del` keeps exactly the fragments that equal none of the deleted ones, in their order |
| RegallocSorted.SurvivorsSorted | jlight-vm/regalloc.rs/lib/src/data_structures.rs:1273-1309 | what `del` keeps stays sorted and comes from the original vector, so its closing `check` never fails |
| RegallocSorted.DelFailsIffPartialOverlap | jlight-vm/regalloc.rs/lib/src/data_structures.rs:1273-1309 | over well-formed fragments, `del` panics exactly when some fragment partially overlaps a deleted one |
| RegallocSorted.InsertFragSorted | jlight-vm/regalloc.rs/lib/src/data_structures.rs:1165-1181 | inserting a fragment into a sorted vector keeps it sorted and adds exactly that fragment |
| RegallocSorted.InsertFragFailsIffOverlap | jlight-vm/regalloc.rs/lib/src/data_structures.rs:1165-1181 | inserting fails exactly when the new fragment overlaps one already in the vector |
| RegallocSorted.SortFragsSorted | jlight-vm/regalloc.rs/lib/src/data_structures.rs:1165-1181 | a successful sort is a sorted permutation of its input |
| RegallocSorted.SortFragsFailsIffOverlap | jlight-vm/regalloc.rs/lib/src/data_structures.rs:1165-1181 | over well-formed fragments, `new` panics exactly when two entries of the input overlap |
| RegallocSorted.MergeIxs | jlight-vm/regalloc.rs/lib/src/data_structures.rs:1198-1239 | the three loops of `add` build the vector the `Merge` walk gives, or report the panic |
| RegallocSorted.DelIxs | jlight-vm/regalloc.rs/lib/src/data_structures.rs:1273-1309 | the loops of `del` build the vector the `DelWalk` walk gives, or report the panic |
| RegallocSorted.SortedRangeFragIxs.Check | jlight-vm/regalloc.rs/lib/src/data_structures.rs:1150-1163 | succeeds exactly when each fragment is strictly before the next |
| RegallocSorted.SortedRangeFragIxs.New | jlight-vm/regalloc.rs/lib/src/data_structures.rs:1165-1181 | succeeds exactly when the sort succeeds, and then gives a fresh sorted vector that is a permutation of the input |
| RegallocSorted.SortedRangeFragIxs.Unit | jlight-vm/regalloc.rs/lib/src/data_structures.rs:1183-1190 | a fresh sorted vector holding the one fragment |
| RegallocSorted.SortedRangeFragIxs.Add | jlight-vm/regalloc.rs/lib/src/data_structures.rs:1198-1239 | succeeds exactly when the merge does, and then holds the merged sorted vector; otherwise nothing changes |
| RegallocSorted.SortedRangeFragIxs.CanAdd | jlight-vm/regalloc.rs/lib/src/data_structures.rs:1241-1271 | `true` exactly where `add` would not panic |
| RegallocSorted.SortedRangeFragIxs.Del | jlight-vm/regalloc.rs/lib/src/data_structures.rs:1273-1309 | succeeds exactly when the deletion walk does, and then holds its sorted result; otherwise nothing changes |
| RegallocSorted.SortedRangeFragIxs.CanAddIfWeFirstDel | jlight-vm/regalloc.rs/lib/src/data_structures.rs:1311-1320 | panics exactly where deleting from the copy would, and otherwise says whether the fragments could be added to what the deletion leaves |
| RegallocSorted.TestEnv | jlight-vm/regalloc.rs/lib/src/data_structures.rs:1409-1481 | the test's eleven well-formed fragments |
| RegallocSorted.TestEnvOrders | jlight-vm/regalloc.rs/lib/src/data_structures.rs:1456-1481 | the fragments the `add` and `del` tests use are strictly ordered by their index |
| RegallocSorted.MergeTestCases | jlight-vm/regalloc.rs/lib/src/data_structures.rs:1570-1610 | the `add` and `can_add` test cases: disjoint vectors merge in order and a vector cannot be added to itself |
| RegallocSorted.DelTestCases | jlight-vm/regalloc.rs/lib/src/data_structures.rs:1617-1636 | the `del` test cases where nothing or everything is removed |
| RegallocSorted.DelSomeTestCases | jlight-vm/regalloc.rs/lib/src/data_structures.rs:1638-1648 | the `del` test cases that remove some fragments |
| RegallocSorted.DelThenAddTestCases | jlight-vm/regalloc.rs/lib/src/data_structures.rs:1650-1664 | the `can_add_if_we_first_del` test cases |
| RegallocSorted.NewTestCases | jlight-vm/regalloc.rs/lib/src/data_structures.rs:1562-1568 | construction panics on a duplicate fragment and on two overlapping ones, and sorts fragments given out of order (where the test comment expects a panic, the code sorts) |
| RegallocSorted.InsertFrag | jlight-vm/regalloc.rs/lib/src/data_structures.rs:1170-1178 | a successful insertion yields a vector one longer whose indices all name fragments |
| RegallocSorted.SortFrags | jlight-vm/regalloc.rs/lib/src/data_structures.rs:1165-1181 | a successful sort keeps the length and names only fragments of the environment |
| RegallocUniverse.AddVisited | jlight-vm/regalloc.rs/lib/src/data_structures.rs:813-819 | a scan that continues counts the group's registers on top of what the later groups visit |
| RegallocUniverse.CheckIsSane | jlight-vm/regalloc.rs/lib/src/data_structures.rs:756-832 | accepts exactly the universes the check as written accepts |
| RegallocUniverse.CheckIndices | jlight-vm/regalloc.rs/lib/src/data_structures.rs:765-782 | accepts exactly when there are at most 256 registers, no more allocable ones than registers, and each register is real with its index equal to its slot |
| RegallocUniverse.MarkUsedClasses | jlight-vm/regalloc.rs/lib/src/data_structures.rs:785-794 | marks exactly the classes of the allocable registers, and fails where a register's class is undefined |
| RegallocUniverse.ScanGroups | jlight-vm/regalloc.rs/lib/src/data_structures.rs:800-826 | accepts exactly when every group lists registers of its own class, used classes are exactly those with a group, and the groups visit `allocable` registers in all |
| RegallocUniverse.ScanGroup | jlight-vm/regalloc.rs/lib/src/data_structures.rs:813-819 | reports whether every register of the group has the group's class, and counts the group's slots |
| RegallocUniverse.CheckIsSaneCorrected | jlight-vm/regalloc.rs/lib/src/data_structures.rs:756-832 | accepts exactly the universes whose groups also stay within the allocable prefix |
| RegallocUniverse.IntervalCard | jlight-vm/regalloc.rs/lib/src/data_structures.rs:813-819 | the slots from `a` up to `b` number `b - a` |
| RegallocUniverse.ClassRangeFacts | jlight-vm/regalloc.rs/lib/src/data_structures.rs:800-823 | a group the scan passes holds registers of its class only, one per slot it visits |
| RegallocUniverse.ScanCovered | jlight-vm/regalloc.rs/lib/src/data_structures.rs:800-826 | a successful scan visits each covered slot once, and each covered slot holds a register of its group's class |
| RegallocUniverse.SaneGroupsPartition | jlight-vm/regalloc.rs/lib/src/data_structures.rs:783-826 | over a sane universe, an allocable register lies in the group of a class exactly when it is of that class |
| RegallocUniverse.PrefixCovered | jlight-vm/regalloc.rs/lib/src/data_structures.rs:783-826 | every allocable slot of a sane universe lies in the group of its own class |
| RegallocUniverse.AllocableCovered | jlight-vm/regalloc.rs/lib/src/data_structures.rs:783-826 | in a sane universe the groups cover exactly the allocable prefix |
| RegallocUniverse.CoveredInPrefix | jlight-vm/regalloc.rs/lib/src/data_structures.rs:783-826 | when every group stays within the allocable prefix, so do the covered slots |
| RegallocUniverse.CoveringGroup | jlight-vm/regalloc.rs/lib/src/data_structures.rs:800-823 | a covered slot lies in a group and holds a register of that group's class |
| RegallocUniverse.SlidGroupUniverse | jlight-vm/regalloc.rs/lib/src/data_structures.rs:756-832 | a well-shaped universe of three registers, two of them allocable |
| RegallocUniverse.AsWrittenAcceptsSlidGroup | jlight-vm/regalloc.rs/lib/src/data_structures.rs:800-826 | the check as written accepts a universe whose only group leaves out allocable slot 0 and takes in non-allocable slot 2 |
| LinearScan.FixedReg | jlight-vm/regalloc.rs/lib/src/linear_scan.rs:59-65 | a register exactly for a fixed interval, and then the one it holds |
| LinearScan.CoversIff | jlight-vm/regalloc.rs/lib/src/linear_scan.rs:109-116 | `covers` holds exactly when some fragment of the interval contains the point |
| LinearScan.CoveredWithinBounds | jlight-vm/regalloc.rs/lib/src/linear_scan.rs:66-116 | a covered point lies between the interval's start and end points |
| LinearScan.SortedSpan | jlight-vm/regalloc.rs/lib/src/linear_scan.rs:66-71 | a point of any fragment of a sorted list lies between the first fragment's start and the last fragment's end |
| LinearScan.BetweenOrdered | jlight-vm/regalloc.rs/lib/src/linear_scan.rs:66-71 | a point of a fragment lies between the start of an earlier fragment and the end of a later one |
| LinearScan.IntersectionNoneIffMergeable | jlight-vm/regalloc.rs/lib/src/linear_scan.rs:118-155 | `intersects_with` finds nothing exactly where the sorted-fragment merge of the two lists succeeds |
| LinearScan.IntersectionNoneIffDisjoint | jlight-vm/regalloc.rs/lib/src/linear_scan.rs:118-155 | on sorted lists, `intersects_with` finds nothing exactly when no fragment of one overlaps a fragment of the other |
| LinearScan.IntersectionIsCommonPoint | jlight-vm/regalloc.rs/lib/src/linear_scan.rs:118-155 | a point `intersects_with` returns lies in a fragment of each list |
| LinearScan.IntersectsWith | jlight-vm/regalloc.rs/lib/src/linear_scan.rs:118-155 | the two-index loop returns the intersection the list definition gives |
| LinearScan.ClassifyMeaning | jlight-vm/regalloc.rs/lib/src/linear_scan.rs:176-202 | an interval goes to handled exactly when it ends before the start, to active exactly when it covers the start, and to inactive otherwise |
| LinearScan.Filter | jlight-vm/regalloc.rs/lib/src/linear_scan.rs:176-202 | the ids kept for a destination are ids of intervals |
| LinearScan.FilterMembers | jlight-vm/regalloc.rs/lib/src/linear_scan.rs:176-202 | an id goes to a destination exactly when it was listed and is classified there |
| LinearScan.FilterPartition | jlight-vm/regalloc.rs/lib/src/linear_scan.rs:176-202 | the three destinations together hold the listed ids, none lost or duplicated |
| LinearScan.SplitSnoc | jlight-vm/regalloc.rs/lib/src/linear_scan.rs:176-202 | sending one more id to one destination keeps the three-way split |
| LinearScan.UpdateKeepsIds | jlight-vm/regalloc.rs/lib/src/linear_scan.rs:167-209 | `update_state` as a whole loses and duplicates no id among active, inactive and handled |
| LinearScan.FilterSnoc | jlight-vm/regalloc.rs/lib/src/linear_scan.rs:176-202 | the ids kept from one more id are those kept before, plus that id when it is classified there |
| LinearScan.Index | jlight-vm/regalloc.rs/lib/src/linear_scan.rs:343-345 | the entry index exists exactly when the register lies within the mapping's range, and then points at that register's slot |
| LinearScan.MappingFindsGroup | jlight-vm/regalloc.rs/lib/src/linear_scan.rs:318-345 | over a sane universe, the mapping of a class holds every register of that class's group, and `index` finds each one with the default value |
| LinearScan.WithDefault | jlight-vm/regalloc.rs/lib/src/linear_scan.rs:318-334 | the loop builds the mapping the group definition gives |
| LinearScan.IndexSameRegs | jlight-vm/regalloc.rs/lib/src/linear_scan.rs:343-345 | `index` depends only on the offset and the registers, not the values |
| LinearScan.BlockActiveMeaning | jlight-vm/regalloc.rs/lib/src/linear_scan.rs:224-230 | the active loop only lowers entries to the minimum point, and lowers the entry of every register a same-class active interval holds |
| LinearScan.LowerInactiveMeaning | jlight-vm/regalloc.rs/lib/src/linear_scan.rs:232-248 | the inactive loop never raises an entry, and leaves every same-class inactive register's entry no later than where that interval meets the current one |
| LinearScan.BlockActiveLoop | jlight-vm/regalloc.rs/lib/src/linear_scan.rs:224-230 | the loop computes what `BlockActive` describes |
| LinearScan.LowerInactiveLoop | jlight-vm/regalloc.rs/lib/src/linear_scan.rs:232-248 | the loop computes what `LowerInactive` describes |
| LinearScan.Pick | jlight-vm/regalloc.rs/lib/src/linear_scan.rs:259-268 | a chosen register is an entry of the mapping |
| LinearScan.PickFirstGreatest | jlight-vm/regalloc.rs/lib/src/linear_scan.rs:259-268 | nothing is chosen exactly when every entry is the minimum point; otherwise the chosen entry is the first one of greatest free-until point |
| LinearScan.PickLoop | jlight-vm/regalloc.rs/lib/src/linear_scan.rs:259-268 | the choice loop returns `Pick` |
| LinearScan.SolutionMeaning | jlight-vm/regalloc.rs/lib/src/linear_scan.rs:250-269 | a fixed interval gets its own register exactly when it starts before that register's free-until point; a virtual one gets the first greatest entry, or nothing when all are blocked |
| LinearScan.AllocateMeaning | jlight-vm/regalloc.rs/lib/src/linear_scan.rs:211-294 | `try_allocate_reg` changes only the current interval and keeps its fragments and kind; `true` means the interval then holds a register free until after it ends |
| LinearScan.InsertByStart | jlight-vm/regalloc.rs/lib/src/linear_scan.rs:373-373 | inserting keeps every element well formed and adds exactly the new one |
| LinearScan.SortByStart | jlight-vm/regalloc.rs/lib/src/linear_scan.rs:373-373 | sorting keeps every element well formed |
| LinearScan.InsertKeepsBound | jlight-vm/regalloc.rs/lib/src/linear_scan.rs:373-373 | inserting an element with a start no later than a bound keeps every start within the bound |
| LinearScan.OrderedSnoc | jlight-vm/regalloc.rs/lib/src/linear_scan.rs:373-373 | appending an element no earlier than all the others keeps the sequence ordered by start |
| LinearScan.InsertByStartOrdered | jlight-vm/regalloc.rs/lib/src/linear_scan.rs:373-373 | inserting into an ordered sequence keeps it ordered by start |
| LinearScan.SortByStartMeaning | jlight-vm/regalloc.rs/lib/src/linear_scan.rs:373-373 | the result is ordered by start point and is a permutation of the input |
| LinearScan.SortByStartOrdered | jlight-vm/regalloc.rs/lib/src/linear_scan.rs:373-373 | the result is ordered by start point |
| LinearScan.SortByStartPerm | jlight-vm/regalloc.rs/lib/src/linear_scan.rs:373-373 | the result is a permutation of the input |
| LinearScan.Kinds | jlight-vm/regalloc.rs/lib/src/linear_scan.rs:365-372 | one interval kind per real range and per virtual range |
| LinearScan.NewIntervals | jlight-vm/regalloc.rs/lib/src/linear_scan.rs:361-382 | one well-formed interval per real and virtual range |
| LinearScan.NewIntervalsMeaning | jlight-vm/regalloc.rs/lib/src/linear_scan.rs:361-382 | interval ids follow start points, and every real and virtual range becomes exactly one interval |
| LinearScan.NewIntervalsKinds | jlight-vm/regalloc.rs/lib/src/linear_scan.rs:373-379 | the interval with id `i` carries the `i`-th kind of the sorted sequence |
| LinearScan.Down | jlight-vm/regalloc.rs/lib/src/linear_scan.rs:424-425 | the ids from the last interval down to a bound, one each, in reverse order |
| LinearScan.Upto | jlight-vm/regalloc.rs/lib/src/linear_scan.rs:378-378 | the ids `0` to `n - 1` in order |
| LinearScan.Partition | jlight-vm/regalloc.rs/lib/src/linear_scan.rs:176-202 | one loop of `update_state` splits its ids into the three `Filter`s |
| LinearScan.PushKeepsIds | jlight-vm/regalloc.rs/lib/src/linear_scan.rs:475-477 | making one more id active adds exactly it to the ids held |
| LinearScan.State.New | jlight-vm/regalloc.rs/lib/src/linear_scan.rs:421-436 | `unhandled` holds every id in reverse order and the other lists are empty |
| LinearScan.State.NextUnhandled | jlight-vm/regalloc.rs/lib/src/linear_scan.rs:447-449 | pops the last unhandled id, or none when there is none, and changes nothing else |
| LinearScan.State.UpdateState | jlight-vm/regalloc.rs/lib/src/linear_scan.rs:167-209 | active, inactive and handled become what the classification at the current start gives, in order |
| LinearScan.State.TryAllocateReg | jlight-vm/regalloc.rs/lib/src/linear_scan.rs:211-294 | the outcome and the intervals afterwards are those `Allocate` describes; a panic leaves the intervals unchanged |
| LinearScan.State.AllocateOrBlock | jlight-vm/regalloc.rs/lib/src/linear_scan.rs:471-473 | success means the interval then holds a register and no other interval changed; otherwise the unimplemented blocked allocation panics |
| LinearScan.State.Step | jlight-vm/regalloc.rs/lib/src/linear_scan.rs:466-478 | nothing left means `false` and no change; otherwise the popped interval ends with a register and is added to the ids held |
| LinearScan.State.PushActive | jlight-vm/regalloc.rs/lib/src/linear_scan.rs:475-477 | the id joins the back of `active` and nothing else changes |
| LinearScan.State.Activate | jlight-vm/regalloc.rs/lib/src/linear_scan.rs:469-477 | the interval then holds a register, no other interval changed, and it is added to the ids held |
| LinearScan.State.Run | jlight-vm/regalloc.rs/lib/src/linear_scan.rs:466-478 | when the loop completes, every interval holds a register and sits in exactly one of active, inactive and handled |
| BytecodeInsns.GetTargets | jlight-vm/src/bytecode/instructions.rs:69-79 | a terminator jumps to at most two blocks |
| BytecodeInsns.TargetsOfJumps | jlight-vm/src/bytecode/instructions.rs:69-79 | exactly the four jumps have targets: one for each single-target jump, two (true target first) for `ConditionalGoto` |
| BytecodeInsns.WithRegFieldsMeaning | jlight-vm/src/bytecode/instructions.rs:211-335 | replacing an instruction's register operands sets exactly them, undoing it with the old operands restores the instruction, and its targets do not change |
| BytecodeInsns.MkReg | jlight-vm/src/bytecode/instructions.rs:62-66 | the `vreg!` register is a virtual `I64` register with the same number before allocation (panicking past 28 bits) and a real one numbered modulo 256 after |
| BytecodeInsns.UsageSucceeds | jlight-vm/src/bytecode/instructions.rs:81-209 | `get_reg_usage` panics exactly when it runs before allocation and some operand does not fit in a virtual register number |
| BytecodeInsns.UsageMembers | jlight-vm/src/bytecode/instructions.rs:81-209 | a register is in the defined, used or modified set exactly when some operand with that role names it |
| BytecodeInsns.BinaryUsage | jlight-vm/src/bytecode/instructions.rs:81-209 | the three-register operations define their first register and use the other two |
| BytecodeInsns.StoreUsage | jlight-vm/src/bytecode/instructions.rs:81-209 | `Store` modifies its object register and uses its key and value registers |
| BytecodeInsns.NoRegisterUsage | jlight-vm/src/bytecode/instructions.rs:81-209 | a bare `Return` and a `Goto` mention no register |
| BytecodeInsns.MakeEnvUsage | jlight-vm/src/bytecode/instructions.rs:81-209 | `MakeEnv` modifies its function register and nothing else |
| BytecodeInsns.MapOne | jlight-vm/src/bytecode/instructions.rs:211-335 | one operand's rewrite succeeds exactly when it names a virtual register the map covers, and then gives that real register's index (below 256) |
| BytecodeInsns.MapAllSucceeds | jlight-vm/src/bytecode/instructions.rs:211-335 | rewriting the operands fails exactly when one operand's lookup fails |
| BytecodeInsns.MapAllEach | jlight-vm/src/bytecode/instructions.rs:211-335 | each rewritten operand is the index its own map gives it |
| BytecodeInsns.MapRegsMeaning | jlight-vm/src/bytecode/instructions.rs:211-335 | `map_regs_d_u` succeeds exactly when every lookup does; each register operand then holds the real register its role's map assigns, and nothing else in the instruction changes |
| BytecodeInsns.StoreUReportedDefined | jlight-vm/src/bytecode/instructions.rs:132-134 | `StoreU`'s register, which the rewrite maps through the use-map, is reported as defined and not used |
| BytecodeInsns.CorrectedRolesAgree | jlight-vm/src/bytecode/instructions.rs:81-335 | with `StoreU` reported as used, every operand's role agrees with the map it is rewritten through, and usage of every other instruction is unchanged |
| BytecodeBlock.RedirectMeaning | jlight-vm/src/bytecode/block.rs:15-58 | a terminator is redirected exactly when `from` is among its targets; the result jumps to `to` wherever it jumped to `from`, keeps the other target, its kind and its register |
| BytecodeBlock.BranchTargetsAgree | jlight-vm/src/bytecode/block.rs:60-74 | `branch_targets` panics exactly when a non-empty block ends in neither a jump nor a `Return`, and otherwise lists the same targets as `get_targets` of the terminator |
| BytecodeBlock.BasicBlock.Join | jlight-vm/src/bytecode/block.rs:8-13 | the block loses its last instruction (if any) and gains the other block's instructions in order |
| BytecodeBlock.BasicBlock.TryReplaceBranchTargets | jlight-vm/src/bytecode/block.rs:15-58 | the result is true exactly when the block is non-empty and its terminator targets `from`; then only the terminator changes, to its redirected form, else nothing changes |
| BytecodeBlock.JoinTakesTerminator | jlight-vm/src/bytecode/block.rs:8-74 | after a join with a non-empty block, the joined block branches where the appended block branched |
| BytecodeBlock.RedirectTargets | jlight-vm/src/bytecode/block.rs:15-74 | after a successful redirect the block's branch targets are the old terminator's targets with `from` replaced by `to` |
| BytecodeBlock.BasicBlock.constructor | jlight-vm/src/bytecode/block.rs:2-5 | a block holds exactly the given instructions |
| BytecodeFramework.TiledSlices | jlight-vm/src/bytecode/framework.rs:65-84 | when the blocks recorded by `block` tile the instructions, `to_basic_blocks` succeeds and concatenating its slices gives back every instruction in order |
| BytecodeFramework.BlockKeepsTiled | jlight-vm/src/bytecode/framework.rs:78-84 | appending a block of `m` instructions after `n` keeps the blocks tiling the instructions while the lengths fit in 32 bits |
| BytecodeFramework.RelaidTiled | jlight-vm/src/bytecode/framework.rs:86-100 | after `update_from_alloc` the blocks keep their labels and order, and with the first starting at 0 they tile the new instructions |
| BytecodeFramework.SpillReloadPair | jlight-vm/src/bytecode/framework.rs:192-199 | the spill `gen_spill` makes reads the register and the reload `gen_reload` makes writes the same register back |
| BytecodeFramework.GenMoveIsMove | jlight-vm/src/bytecode/framework.rs:177-203 | `is_move` recognises what `gen_move` generates, with the destination and source registers in that order |
| BytecodeFramework.GetSpillslotSize | jlight-vm/src/bytecode/framework.rs:187-190 | every value occupies exactly one spill slot |
| BytecodeFramework.BytecodeFunction.constructor | jlight-vm/src/bytecode/framework.rs:42-50 | a new function has no blocks, no instructions, no stack positions, no virtual registers and an empty spill stack |
| BytecodeFramework.BytecodeFunction.NewVirtReg | jlight-vm/src/bytecode/framework.rs:51-55 | returns the count of registers made so far, cast to `u32`, and increments that count; nothing else changes |
| BytecodeFramework.BytecodeFunction.Spill | jlight-vm/src/bytecode/framework.rs:57-64 | the slot's real position is its number above the spill area so far, it is recorded in the position map and the stack grows by one |
| BytecodeFramework.BytecodeFunction.AddBlock | jlight-vm/src/bytecode/framework.rs:78-84 | the block's instructions are appended and a block starting at the old instruction count with their number is recorded |
| BytecodeFramework.BytecodeFunction.ToBasicBlocks | jlight-vm/src/bytecode/framework.rs:65-76 | the result is the per-block slicing, which fails exactly when a block runs past the instructions (see `SlicesMeaning`) |
| BytecodeFramework.SlicesMeaning | jlight-vm/src/bytecode/framework.rs:65-76 | slicing succeeds exactly when every block lies within the instructions, and then yields each block's own instructions |
| BytecodeFramework.BytecodeFunction.UpdateFromAlloc | jlight-vm/src/bytecode/framework.rs:86-100 | the allocated instructions replace the old ones; the call succeeds exactly when the target map gives every block a start and no negative length, and then each block gets its new start and length |
| BytecodeFramework.BytecodeFunction.IsRet | jlight-vm/src/bytecode/framework.rs:108-113 | succeeds exactly for an index inside the instructions, and is then true exactly for a `Return` |
| BytecodeFramework.BytecodeFunction.BlockInsns | jlight-vm/src/bytecode/framework.rs:146-148 | succeeds exactly for an existing block whose end fits in 32 bits, and then gives the block's first instruction and length |
| BytecodeFramework.BlockSuccsOfBlock | jlight-vm/src/bytecode/framework.rs:150-153 | a non-empty block within the instructions has as successors the branch targets of its last instruction |
| BytecodeFramework.BytecodeFunction.MapRegs | jlight-vm/src/bytecode/framework.rs:164-175 | raises the mapped flag and rewrites the instruction with the allocation's pre- and post-maps; nothing else changes |
| BytecodeFramework.BytecodeFunction.BlockSuccs | jlight-vm/src/bytecode/framework.rs:150-153 | succeeds exactly for an existing non-empty block that lies within the instructions, and then gives at most two successors, the targets of the block's last instruction |
| BytecodeFramework.BytecodeFunction.GetRegs | jlight-vm/src/bytecode/framework.rs:155-163 | the usage `get_reg_usage` reports as written: it panics exactly when it runs before allocation on an operand past 28 bits, and after allocation it reports only real registers |
| BytecodeFramework.MappedRegsAreReal | jlight-vm/src/bytecode/framework.rs:155-163 | once registers are mapped, every register the as-written `get_reg_usage` reports as defined, used or modified is real |
| BytecodeFramework.UniverseSane | jlight-vm/src/bytecode/framework.rs:215-240 | the universe of real `I64` registers numbered in order passes `check_is_sane` and is well shaped |
| BytecodeFramework.MakeUniverse | jlight-vm/src/bytecode/framework.rs:215-240 | `make_universe` builds exactly that universe with 48 registers |
| Codegen.InternMeaning | src/codegen.rs:159-170 | interning keeps every key mapped to a table slot holding it; afterwards the key is known under the id it was answered, and a new key gets the next slot |
| Codegen.InternKeepsIds | src/codegen.rs:159-170 | interning never changes the id of a key that was already known |
| Codegen.Globals.constructor | src/codegen.rs:756-783 | a module starts with no globals and an empty table |
| Codegen.NextLabelFresh | src/codegen.rs:83-87 | the name `new_empty_label` hands out next is not yet taken, and taking it adds exactly that name |
| Codegen.Context.constructor | src/codegen.rs:756-783 | a fresh context has one empty block, which is current, no locals, labels or enclosing loops, and register 33 next |
| Codegen.Context.NewEmptyLabel | src/codegen.rs:83-87 | the label is the decimal of the label count, was not in the table, and is added unbound; nothing else changes |
| Codegen.Context.LabelHere | src/codegen.rs:88-90 | an unknown label panics and changes nothing; a known one is bound to the current block |
| Codegen.Context.Lci | src/codegen.rs:95-101 | none exactly outside every loop, otherwise the innermost loop |
| Codegen.Context.NewReg | src/codegen.rs:102-106 | hands out the counter and advances it by one; the `u16` overflow once the counter is at its maximum is a panic that changes nothing |
| Codegen.Context.MoveForward | src/codegen.rs:107-114 | appends an empty block numbered by its position and makes it current |
| Codegen.Context.Write | src/codegen.rs:182-184 | the instruction is appended to the current block and every other block is unchanged |
| Codegen.Context.WriteJump | src/codegen.rs:116-136 | outside a loop it panics; inside one it appends a branch to the innermost loop's break (or continue) block and opens a new current block |
| Codegen.Context.GlobalId | src/codegen.rs:159-170 | answers the key's id (and `false`, or the new id for an unknown key) and leaves the tables interned as `Intern` describes |
| Codegen.Context.GlobalId2 | src/codegen.rs:172-181 | gives the same answer as `global` without changing the tables |
| Codegen.Context.CompileConstInt | src/codegen.rs:402-406 | a fresh register is loaded with the integer truncated to `i32` at the end of the current block, or the register overflow panics and nothing is written |
| Codegen.Context.CompileEmptyBlock | src/codegen.rs:373-378 | a fresh register is loaded with null at the end of the current block, or the register overflow panics and nothing is written |
| Codegen.Context.WithLci | src/codegen.rs:138-147 | the loop stack is the same after the body as before, also when the body panics |
| Codegen.Context.Scoped | src/codegen.rs:149-158 | the local-variable map and the loop stack are the same after the body as before, also when the body panics |
| Ast.ShapeTests | src/ast.rs:61-85 | `is_access` and `is_binop` recognise exactly their constructors, a comparison is a binary operation narrowed to the six comparison operators, and no expression is both an access and a binary operation |
| Ast.ArithmeticIsNoComparison | src/ast.rs:76-85 | a binary operation with an arithmetic or logical operator passes `is_binop` and fails `is_binop_cmp` |
| Ints.AsI32 | src/codegen.rs:164-164 | `as i32` agrees with the source value modulo 2^32 and is the value itself when it fits |
| Ints.AsU32 | src/codegen.rs:89-89 | `as u32` agrees with the source value modulo 2^32 and is the value itself when it fits |
| Ints.AsI64 | src/object.rs:560-560 | `as i64` agrees with the source value modulo 2^64 and is the value itself when it fits |
| Ints.AsU64 | src/object.rs:539-539 | `as u64` agrees with the source value modulo 2^64 and is the value itself when it fits |
| Ints.Decimal | src/codegen.rs:84-84 | the decimal rendering is non-empty, one digit long exactly below ten, and ends in the last digit |
| Ints.DecimalInjective | src/codegen.rs:83-87 | distinct counters render to distinct decimal strings, so generated label names never collide |
| Ints.Hex | src/runtime/machine.rs:145-145 | the alternate hexadecimal format renders `0x` followed by at least one digit and ends in the last hexadecimal digit |
| Ints.HexDigitsValue | src/runtime/machine.rs:145-145 | the digits `#x` prints read back as the number, and the first digit is `0` exactly for zero |
| Ints.HexRoundTrip | src/runtime/machine.rs:145-145 | after the `0x` prefix the printed digits read back as the number, with no leading zero |
| RegisterFile.Swapped | vm/src/interpreter/context.rs:54-58 | exchanging two registers keeps the register file's size |
| RegisterFile.SwappedMeaning | vm/src/interpreter/context.rs:54-58 | each of the two values moves to the other slot, no other slot changes, and a second exchange undoes the first |
| RegisterFile.Filter | jlight-vm/src/runtime/threads.rs:100-100 | `retain` never lengthens the list |
| RegisterFile.FilterMembers | jlight-vm/src/runtime/threads.rs:100-100 | exactly the elements that pass the test survive |
| RegisterFile.FilterAppend | jlight-vm/src/runtime/threads.rs:92-103 | filtering a concatenation filters each part |
| RegisterFile.FilterAllPass | jlight-vm/src/runtime/threads.rs:92-103 | filtering a list whose elements all pass keeps it whole |
| RegisterFile.Reversed | vm/src/heap/space.rs:84-87 | the list back to front: position j holds the element j places from the end, as moving every page from the back of one list to the back of another leaves them |
| RegisterFile.ReversedCons | vm/src/heap/space.rs:84-87 | moving one more element from the back appends it |
| RegisterFile.ReversedFirst | vm/src/interpreter/mod.rs:235-235 | after reversing the frames, the first one comes last |
| StringPool.AgreeMeaning | jlight-vm/src/runtime/string_pool.rs:112-115 | while the map and the vector agree, distinct strings have distinct names and the names in use are exactly the vector's indices |
| StringPool.Interner.constructor | jlight-vm/src/runtime/string_pool.rs:119-126 | a new interner is empty and its tables agree |
| StringPool.Interner.Intern | jlight-vm/src/runtime/string_pool.rs:128-142 | a known string keeps its name and nothing changes; a new one gets the next index and is appended and recorded; either way the name reads back as the string and the tables still agree |
| StringPool.Interner.Str | jlight-vm/src/runtime/string_pool.rs:144-147 | panics exactly on a name past the vector, and otherwise returns the string stored there |
| StringPool.Interner.RoundTrip | jlight-vm/src/runtime/string_pool.rs:128-147 | interning and reading back gives the string again, and interning it again gives the same name without growing the tables |
| JlightObject.NumberPtr | jlight-vm/src/runtime/object.rs:264-268 | a tagged number is an odd, non-zero word |
| JlightObject.NumberRoundTrip | jlight-vm/src/runtime/object.rs:264-298 | `number_value` reads back the low 63 bits of the float's bits: the bits survive exactly when the sign bit is clear, so a negative number loses its sign |
| JlightObject.Object.constructor | jlight-vm/src/runtime/object.rs:342-349 | the object has the given value and prototype and no attribute map |
| JlightObject.Object.TakeValue | jlight-vm/src/runtime/object.rs:37-46 | the value moves out and `None` is left, which owns nothing native; prototype and attributes are untouched |
| JlightObject.Object.Prototype | jlight-vm/src/runtime/object.rs:375-381 | a null prototype reads as none, any other as itself |
| JlightObject.Object.TakePrototype | jlight-vm/src/runtime/object.rs:384-394 | returns the previous prototype (none when it was null) and leaves it null; nothing else changes |
| JlightObject.Object.LookupInSelf | jlight-vm/src/runtime/object.rs:553-559 | some value exactly when the object has an attribute map holding the name, and then that value |
| JlightObject.Object.AddAttribute | jlight-vm/src/runtime/object.rs:546-550 | the map is created if missing and then maps the name to the value, which the object's own lookup reads back; the other entries stay |
| JlightObject.Object.RemoveAttribute | jlight-vm/src/runtime/object.rs:397-403 | returns the entry the object's own lookup would have found and removes only it; an object without a map keeps none |
| JlightObject.LookupInMeaning | jlight-vm/src/runtime/object.rs:431-455 | the lookup answers none exactly when no object on the prototype chain has the attribute, and otherwise the attribute of the first one that has it |
| JlightObject.LookupAttribute | jlight-vm/src/runtime/object.rs:431-455 | the object's own attribute, else the first ancestor's, as `LookupIn` describes |
| JlightObject.PointerLookupAttribute | jlight-vm/src/runtime/object.rs:150-156 | a null pointer panics; a tagged number looks the name up from the number prototype and an object from itself |
| JlightObject.IsKindOf | jlight-vm/src/runtime/object.rs:128-140 | a null pointer panics; otherwise the answer is true exactly when the other pointer is among the prototypes reached from the pointer |
| JlightObject.IsFalseCases | jlight-vm/src/runtime/object.rs:89-103 | null and the nil prototype are false, `true` never is, and among tagged numbers only zero is |
| JlightObject.ArrayToString | jlight-vm/src/runtime/object.rs:223-236 | an array prints as `[`, its element strings separated by `,`, and `]` |
| JlightObject.AsString | jlight-vm/src/runtime/object.rs:203-212 | succeeds exactly on a reference to a string object, and then gives its string |
| JlightValue.IsKindOf | jlight-vm/src/runtime/value.rs:346-358 | true exactly when the other value is one of the prototypes reached from the value |
| JlightValue.DispatchAsWrittenIsCell | jlight-vm/src/runtime/value.rs:221-223 | with `is_cell` as written every value, booleans and numbers included, is looked up as a cell |
| JlightValue.DispatchCorrected | jlight-vm/src/runtime/value.rs:367-377 | with the corrected cell test booleans are looked up in the boolean prototype, numbers in the number prototype, null and undefined nowhere, and exactly the cells in themselves |
| JlightContext.Context.constructor | jlight-vm/src/runtime/context.rs:32-49 | a new context is at instruction 0 with base 0, all its registers null, an empty stack and no upvalues, a null `this`, no return register, no module and no parent |
| JlightContext.Context.SetRegister | jlight-vm/src/runtime/context.rs:81-83 | exactly the one register changes, and `get_register` then reads the value back. An index past the registers is a `Failure` (the source's out-of-bounds panic), and nothing changes then. |
| JlightContext.Context.Move | jlight-vm/src/runtime/context.rs:89-91 | `to` receives `from`'s value, `from` keeps it, and no other register changes. An index past the registers is a `Failure` (the source's out-of-bounds panic), and nothing changes then. |
| JlightContext.Context.SwapRegisters | jlight-vm/src/runtime/context.rs:93-98 | it fails exactly when either index lies past the 48 registers (the panic of `get_register`), with nothing changed, and otherwise the registers become what the as-written swap gives, which `SwapAsWrittenChangesNothing` shows is the old registers |
| JlightContext.SwapAsWrittenChangesNothing | jlight-vm/src/runtime/context.rs:93-98 | as written the swap leaves every register as it was, which differs from a swap whenever the two registers hold different values |
| JlightContext.Context.SwapRegistersCorrected | jlight-vm/src/runtime/context.rs:93-98 | it fails exactly when either index lies past the registers, with nothing changed, and otherwise the two registers exchange their values and no other register changes |
| JlightContext.ChainRoot | jlight-vm/src/runtime/context.rs:15-28 | a context of a chain has no parent exactly when it is the root |
| JlightContext.EachPointer | jlight-vm/src/runtime/context.rs:51-79 | the pointers reported are those of the context, then those of each caller in turn |
| JlightContext.RegistersReported | jlight-vm/src/runtime/context.rs:51-79 | every non-null register of every context in the chain is reported |
| JlightThreads.JThread.constructor | jlight-vm/src/runtime/threads.rs:21-27 | a new thread runs a single fresh context without parent |
| JlightThreads.JThread.PushContext | jlight-vm/src/runtime/threads.rs:45-53 | the context becomes current with the previous one as its parent, extending the chain of callers |
| JlightThreads.JThread.PopContext | jlight-vm/src/runtime/threads.rs:35-43 | at the root nothing changes and the result is true; otherwise the parent becomes current, the popped context is detached, and the result is false |
| JlightThreads.JThread.EachPointer | jlight-vm/src/runtime/threads.rs:63-66 | the pointers of the current context and then of each caller |
| JlightThreads.PushThenPop | jlight-vm/src/runtime/threads.rs:35-53 | pushing a context and popping it again is not at the root and leaves the thread in its previous context with its callers intact |
| JlightThreads.Threads.constructor | jlight-vm/src/runtime/threads.rs:78-83 | no thread is attached |
| JlightThreads.Threads.AttachThread | jlight-vm/src/runtime/threads.rs:92-95 | the thread is appended |
| JlightThreads.Threads.DetachCurrentThread | jlight-vm/src/runtime/threads.rs:97-103 | every entry that is the current thread is removed and the others stay, in order |
| JlightThreads.AttachThenDetach | jlight-vm/src/runtime/threads.rs:92-103 | attaching a thread that was not attached and detaching it again restores the list |
| JlightInterpreter.PopNMeaning | jlight-vm/src/runtime/interpreter.rs:124-131 | popping `n` arguments takes the top `min(n, |stack|)` entries, the last pushed first, supplies nil for each missing one, and leaves the rest of the stack |
| JlightInterpreter.PushThenPop | jlight-vm/src/runtime/interpreter.rs:209-216 | a `Pop` undoes a `Push`: it yields the pushed value and restores the stack |
| JlightInterpreter.ExtendedMeaning | jlight-vm/src/runtime/interpreter.rs:346-394 | padding an array for `Load`/`Store` at `idx` makes it reach `idx`, keeps every element, fills the new slots with nil, and a second access at the same index pads nothing more |
| JlightInterpreter.Interpreter.constructor | jlight-vm/src/runtime/interpreter.rs:33-38 | the interpreter starts on the thread's current context at position 0 |
| JlightInterpreter.Interpreter.ResetContextAsWritten | jlight-vm/src/runtime/interpreter.rs:33-38 | the first `reset_context!` of `run` loads the block index into the instruction index and the instruction index into the block index |
| JlightInterpreter.Interpreter.ResetContext | jlight-vm/src/runtime/interpreter.rs:10-16 | the position becomes the current context's saved instruction and block indices |
| JlightInterpreter.SuspendAndResume | jlight-vm/src/runtime/interpreter.rs:10-38 | a suspended context resumes where it was left through `reset_context!`, but with the two indices exchanged through `run`'s first one |
| JlightInterpreter.Interpreter.SaveContext | jlight-vm/src/runtime/interpreter.rs:18-24 | entering a context first saves the current position in the context being left |
| JlightInterpreter.Interpreter.Push | jlight-vm/src/runtime/interpreter.rs:209-212 | the register's value goes on top of the stack; the upvalues are untouched |
| JlightInterpreter.Interpreter.Pop | jlight-vm/src/runtime/interpreter.rs:213-216 | the register receives the top of the stack, or nil when it is empty, and the stack loses its top |
| JlightInterpreter.Interpreter.PopArguments | jlight-vm/src/runtime/interpreter.rs:124-131 | the arguments are the `argc` values popped with the nil default, in the order popped |
| JlightInterpreter.Interpreter.EnterCall | jlight-vm/src/runtime/interpreter.rs:184-194 | on the cold bytecode path, with the arguments popped as interpreter.rs:125-131 pops them: a fresh context becomes current with the caller as parent, the popped arguments as its stack, the return register, the function's upvalues and its module's globals (so the collector's root walk reports them), and otherwise the fields of a new context: 48 null registers, a null `this`, `bp` 0, no terminate-on-return; the caller's position is saved and execution starts at instruction 0 of block 0 |
| JlightInterpreter.Interpreter.LoadElement | jlight-vm/src/runtime/interpreter.rs:346-362 | an array read at a numeric index first pads the array with nil to reach the index, then the register receives that element |
| JlightInterpreter.Interpreter.StoreElement | jlight-vm/src/runtime/interpreter.rs:370-385 | an array write at a numeric index pads the array with nil to reach the index, then writes the value there |
| JlightInterpreter.Interpreter.Grow | jlight-vm/src/runtime/interpreter.rs:352-357 | the pad loop leaves the array padded with nil so that the index lies inside it |
| JlightInterpreter.Interpreter.LoadAttribute | jlight-vm/src/runtime/interpreter.rs:363-368 | succeeds exactly when the key is a string object, and then the register receives the first value found for that string along the prototype chain, or nil; otherwise the `as_string` unwrap panics and no register changes |
| JlightInterpreter.Interpreter.StoreAttribute | jlight-vm/src/runtime/interpreter.rs:386-393 | succeeds exactly when the key is a string object, and then the object has the value under that string itself; otherwise it panics and the attributes are untouched; the prototype and value never change |
| JlightInterpreter.Interpreter.LoadU | jlight-vm/src/runtime/interpreter.rs:410-416 | succeeds exactly when the upvalue exists, and then the register receives it; a missing upvalue panics and no register changes |
| JlightInterpreter.Interpreter.StoreU | jlight-vm/src/runtime/interpreter.rs:417-420 | succeeds exactly when the upvalue exists, and then it receives the register's value; otherwise it panics and the upvalues are untouched; the stack never changes |
| JlightInterpreter.Interpreter.LoadStack | jlight-vm/src/runtime/interpreter.rs:421-424 | succeeds exactly when the stack slot exists, and then the register receives it; otherwise it panics and no register changes |
| JlightInterpreter.Interpreter.StoreStack | jlight-vm/src/runtime/interpreter.rs:425-428 | succeeds exactly when the stack slot exists, and then it receives the register's value; otherwise it panics and the stack is untouched; the upvalues never change |
| JlightInterpreter.Interpreter.Goto | jlight-vm/src/runtime/interpreter.rs:440-443 | execution moves to the first instruction of the block |
| JlightInterpreter.Interpreter.ConditionalGoto | jlight-vm/src/runtime/interpreter.rs:429-439 | execution moves to the start of the false block when the value is false and of the true block otherwise |
| JlightInterpreter.Interpreter.GotoIfFalse | jlight-vm/src/runtime/interpreter.rs:444-449 | the block changes to the target exactly when the value is false; the instruction index is kept |
| JlightInterpreter.Interpreter.GotoIfTrue | jlight-vm/src/runtime/interpreter.rs:450-455 | the block changes to the target exactly when the value is not false; the instruction index is kept |
| JlightInterpreter.Interpreter.MakeEnv | jlight-vm/src/runtime/interpreter.rs:456-469 | the function's upvalues become the `size` values popped, the last pushed first, and the stack loses them |
| JlightInterpreter.Interpreter.Return | jlight-vm/src/runtime/interpreter.rs:55-81 | a terminating context ends the run with the value (nil when none); otherwise the caller's return register receives the value, the context is popped, and the run ends with nil at the root or resumes the caller where it was saved |
| JlightInterpreter.Interpreter.BoolAnd | jlight-vm/src/runtime/interpreter.rs:859-865 | the register receives a fresh boolean, true exactly when neither operand is false; no other register changes |
| JlightInterpreter.Interpreter.BoolOr | jlight-vm/src/runtime/interpreter.rs:866-872 | the register receives a fresh boolean, true exactly when either operand is not false; no other register changes |
| JlightTracing.TraceInfo.constructor | jlight-vm/src/runtime/fusion/tracing_interpreter.rs:109-116 | a new trace has one empty block per code block, nothing complete, no invocation, and records into block 0 |
| JlightTracing.TraceInfo.Write | jlight-vm/src/runtime/fusion/tracing_interpreter.rs:58-66 | the instruction is appended to the current block unless that block is complete, so that block has then recorded something; nothing else changes, and a trace whose every block has recorded something (`complete()`) stays so |
| JlightTracing.TraceInfo.MoveForward | jlight-vm/src/runtime/fusion/tracing_interpreter.rs:68-70 | recording moves to the next block; the trace is untouched |
| JlightTracing.TraceInfo.Goto | jlight-vm/src/runtime/fusion/tracing_interpreter.rs:72-75 | the block being left becomes complete and recording moves to the target |
| JlightTracing.TraceInfo.TraceGoto | jlight-vm/src/runtime/fusion/tracing_interpreter.rs:644-649 | the jump is recorded in the block it leaves (unless already complete), which then becomes complete, and recording moves to the target |
| JlightTracing.TraceInfo.WriteAfterGoto | jlight-vm/src/runtime/fusion/tracing_interpreter.rs:58-75 | a block, once left by a jump, records nothing more |
| JlightTracing.SubRecordedAsMul | jlight-vm/src/runtime/fusion/tracing_interpreter.rs:731-764 | as written a traced subtraction records the same instructions as a traced multiplication, with no `SubF` |
| JlightTracing.CorrectedRecordDistinguishes | jlight-vm/src/runtime/fusion/tracing_interpreter.rs:682-797 | with `Sub` recording `SubF`, each numeric operation records two number guards and then its own opcode, so different operations record differently |
| JlightTracing.RecordNumeric | jlight-vm/src/runtime/fusion/tracing_interpreter.rs:731-740 | recording a numeric operation on two tagged numbers appends the corrected record to the current block unless it is complete |
| JlightTracing.AllLeftIffEveryBlock | jlight-vm/src/runtime/fusion/tracing_interpreter.rs:158-166 | when every block left by a jump is a block of the function, the flag `run_tracing` returns holds exactly when every block has been left |
| JlightArrayBuiltins.ArrayInit | jlight-vm/src/runtime/builtins/array.rs:3-19 | an array receiver gets every argument appended in order, any other receiver becomes an array of the arguments; the receiver is returned and its prototype and attributes are untouched |
| JlightArrayBuiltins.ArrayLength | jlight-vm/src/runtime/builtins/array.rs:21-31 | succeeds exactly for an array receiver, with its number of elements, and otherwise fails with "Not an array" |
| JlightArrayBuiltins.InitThenLength | jlight-vm/src/runtime/builtins/array.rs:3-31 | after `init`, `length` counts the old elements and the arguments, or only the arguments when the receiver was not an array |
| JlightState.GcSetting.constructor | jlight-vm/src/runtime/state.rs:20-20 | at start-up no collector type is chosen |
| JlightState.GcSetting.InitGc | jlight-vm/src/runtime/state.rs:22-30 | the type is set while none is chosen; a second choice fails (a panic in the source) and keeps the first |
| JlightState.BuildGc | jlight-vm/src/runtime/state.rs:45-57 | with no type chosen Ieiunium is chosen first; a parallel collector gets the default worker count for the processors, Ieiunium a 2 GiB heap, and the other types fail as not implemented |
| JlightState.BuildTwice | jlight-vm/src/runtime/state.rs:45-57 | building twice builds the same collector, the default chosen by the first build being kept, and a parallel collector has at least two workers |
| JlightState.Statics | jlight-vm/src/runtime/state.rs:96-127 | the static variable "Thread" holds the thread prototype |
| JlightState.State.constructor | jlight-vm/src/runtime/state.rs:75-94 | before `init_prototypes` every prototype is the null value and there is no static variable |
| JlightState.State.InitPrototypes | jlight-vm/src/runtime/state.rs:96-127 | each prototype takes its allocated value and the static variables map the eight names to theirs |
| JlightState.State.EachPointer | jlight-vm/src/runtime/state.rs:128-140 | eight prototypes are reported first, in field order, then exactly the values of the static variables, one per variable |
| JlightState.StaticNames | jlight-vm/src/runtime/state.rs:96-127 | `init_prototypes` installs eight static variables under eight distinct names |
| JlightState.EveryPrototypeIsRoot | jlight-vm/src/runtime/state.rs:96-140 | all nine prototypes are roots: the thread prototype, not among the eight reported directly, is the value of the static "Thread" |
| JlightcObject.IntegerRaw | src/object.rs:520-524 | a tagged integer's word has the integer bit set |
| JlightcObject.IntegerValueOf | src/object.rs:558-566 | `integer_value` of a tagged integer lies between `MIN_INTEGER` and `MAX_INTEGER` |
| JlightcObject.IntegerRoundTrip | src/object.rs:520-566 | a tagged integer gives its value back exactly when `integer_too_large` is false; a value too large or too small comes back shifted by 2^63 |
| JlightcObject.UnsignedAgrees | src/object.rs:532-545 | an unsigned value is too large exactly when it is too large as a signed one |
| JlightcObject.NarrowIntegerMeaning | src/object.rs:56-72 | a narrow getter fails exactly when there is no integer or it lies outside the target type, and otherwise returns it unchanged |
| JlightcObject.Integer | src/object.rs:520-524 | `integer` gives a tagged integer |
| JlightcObject.IntegersAreNotNull | src/object.rs:597-599 | a tagged integer is never null: its word is not zero |
| JlightcObject.Object.constructor | src/object.rs:159-165 | the object has the given value and prototype, no attribute map, and is not remembered |
| JlightcObject.Object.MarkAsRemembered | src/object.rs:385-387 | the object is then remembered |
| JlightcObject.Object.Prototype | src/object.rs:173-179 | a null prototype reads as none, any other as itself |
| JlightcObject.Object.TakePrototype | src/object.rs:182-192 | returns the previous prototype (none when null) and leaves it null; nothing else changes |
| JlightcObject.Object.LookupInSelf | src/object.rs:265-271 | some value exactly when the object has an attribute map holding the name, and then that value |
| JlightcObject.Object.AddAttribute | src/object.rs:252-284 | the map is created if missing and then maps the name to the value, which the object's own lookup reads back; creating the map clears the remembered bit, an existing map keeps it |
| JlightcObject.Object.AddAttributeCorrected | src/object.rs:298-304 | the insertion with the remembered bit inherited, as `take` treats it: the object stays remembered exactly when it was |
| JlightcObject.FirstAttributeForgetsRemembered | src/object.rs:252-284 | a remembered object without attributes is no longer remembered after its first attribute as written, and still is with the corrected insertion |
| JlightcObject.Object.RemoveAttribute | src/object.rs:195-201 | returns the entry the object's own lookup would have found and removes only it; an object without a map keeps none |
| JlightcObject.TaggedIntegerQueries | src/object.rs:654-692 | a tagged integer is a number, not a string nor a big integer, and has no attribute names |
| JlightcObject.LookupInMeaning | src/object.rs:226-250 | the lookup finds an attribute exactly when some object on the prototype chain has it, and then it is that of the first such object |
| JlightcObject.LookupAttribute | src/object.rs:226-250 | the object's own attribute, else the first ancestor's, as `LookupIn` describes |
| JlightcObject.PointerLookupAttribute | src/object.rs:634-640 | a null pointer panics; a tagged integer looks the name up from the number prototype and an object from itself |
| JlightcObject.IsKindOf | src/object.rs:706-718 | a null pointer panics; otherwise true exactly when the other pointer is among the prototypes reached from the pointer |
| JlightcObjectValue.NameRoundTrip | src/object_value.rs:201-216 | the type name of a value reads back to the value's variant, so `name` loses nothing about the variant |
| JlightcObjectValue.NameDeterminesKind | src/object_value.rs:201-216 | two values share a type name exactly when they are of the same variant |
| JlightcObjectValue.AccessorsMatchTests | src/object_value.rs:35-200 | each `as_*` accessor succeeds exactly when the matching `is_*` test holds, and fails with an error otherwise |
| JlightcObjectValue.AccessorsReturnPayload | src/object_value.rs:88-141 | a successful accessor returns the payload that rebuilds the same value |
| JlightcObjectValue.Classification | src/object_value.rs:35-181 | `is_some` is the negation of `is_none`; the immutable values are exactly those named Number, String or BigInteger; every value but `None` is deallocated natively |
| JlightcObjectValue.ValueSlot.Take | src/object_value.rs:164-166 | returns the old value and leaves `None`, which owns no native data |
| JlightcHasher.ConvertHashRange | src/hasher.rs:58-68 | `convert_hash` always gives a value within `i64` (never `i64::MIN`), keeps the order of the words, and sends both `i64::MAX` and the next word to 0 |
| JlightcHasher.ConvertHashTestValues | src/hasher.rs:125-133 | `convert_hash` gives the values the unit test expects for `u64::MAX`, `i64::MAX`, 0, 1 and 2 |
| JlightcHasher.Hasher.constructor | src/hasher.rs:18-24 | a new hasher has the given keys and nothing written |
| JlightcHasher.Hasher.WriteInteger | src/hasher.rs:26-28 | the integer is appended to what the hasher has been fed |
| JlightcHasher.Hasher.WriteUnsignedInteger | src/hasher.rs:30-32 | the unsigned integer is appended to what the hasher has been fed |
| JlightcHasher.Hasher.WriteFloat | src/hasher.rs:34-38 | the float's bits, converted by `convert_hash`, are fed as an integer |
| JlightcHasher.Hasher.WriteBigint | src/hasher.rs:40-42 | the big integer is appended to what the hasher has been fed |
| JlightcHasher.Hasher.WriteString | src/hasher.rs:44-46 | the string is appended to what the hasher has been fed |
| JlightcHasher.Hasher.ToHash | src/hasher.rs:48-52 | the result is the converted keyed hash of everything fed, and lies within `i64` |
| JlightcHasher.Hasher.Reset | src/hasher.rs:54-56 | the hasher forgets everything fed and keeps its keys |
| JlightcHasher.HashTwice | src/hasher.rs:78-122 | hashing, resetting and hashing the same input again gives the same hash, which is the converted keyed hash of that one input alone, so the reset forgets earlier writes |
| JlightcContext.Context.constructor | src/context.rs:7-21 | a new context has 128 null registers, an empty stack, no upvalues and no parent |
| JlightcContext.Context.SetRegister | src/context.rs:31-33 | an index within the 128 registers changes exactly that register, which then reads back the value; any other index panics and nothing changes |
| JlightcContext.Context.EachPointer | src/context.rs:24-29 | every register, null ones included, is reported once, in register order |
| JlightcContext.ChainRoot | src/context.rs:7-21 | a context of a chain has no parent exactly when it is the root |
| JlightcProcess.Mailbox.constructor | src/process.rs:253-257 | a new mailbox holds no messages |
| JlightcProcess.Mailbox.Send | src/process.rs:259-261 | the message joins the back of the queue, which then has messages |
| JlightcProcess.Mailbox.Receive | src/process.rs:263-265 | an empty mailbox yields none and stays empty; otherwise the oldest message is removed and returned |
| JlightcProcess.Mailbox.EachPointer | src/process.rs:267-274 | every queued message is visited, oldest first |
| JlightcProcess.ReceiveAll | src/process.rs:259-265 | receiving until empty yields exactly the messages in the order they were sent |
| JlightcProcess.Process.constructor | src/process.rs:57-63 | a new process runs the given context, is unpinned, has no catch entries, an empty mailbox and a normal status |
| JlightcProcess.Process.PushContext | src/process.rs:112-120 | the new context becomes current with the old one as its parent, and the chain of contexts grows by it |
| JlightcProcess.Process.PopContext | src/process.rs:126-136 | reports the top when the chain has one context and leaves it; otherwise the parent becomes current and the popped context is unlinked |
| JlightcProcess.Process.SetThreadId | src/process.rs:191-193 | the process is pinned to the given thread |
| JlightcProcess.Process.UnsetThreadId | src/process.rs:195-197 | the process is not pinned |
| JlightcProcess.PinThenUnpin | src/process.rs:187-201 | pinning then unpinning makes `is_pinned` true then false and changes neither the context nor the catch entries |
| ProcessStatus.UpdateBits | src/process.rs:342-347 | the bits of the mask are all set when enabling and all cleared otherwise; every other bit keeps its value |
| ProcessStatus.FlagsIndependent | src/process.rs:318-351 | updating one of the main, blocking and terminated flags sets or clears it and leaves each other flag as it was |
| ProcessStatus.Status.constructor | src/process.rs:312-316 | a new status is normal: neither main, blocking nor terminated |
| ProcessStatus.Status.Update | src/process.rs:342-347 | the new bits are `UpdateBits` of the old ones |
| ProcessStatus.Status.SetMain | src/process.rs:318-320 | the process is main; blocking and terminated are unchanged |
| ProcessStatus.Status.SetBlocking | src/process.rs:326-328 | blocking becomes the given flag; main and terminated are unchanged |
| ProcessStatus.Status.SetTerminated | src/process.rs:334-336 | the process is terminated; main and blocking are unchanged |
| ProcessStatus.RightsQueries | src/process.rs:32-46 | rights that report a timeout are acquired, they fail exactly in the `Failed` case, and plain acquisition is `Acquired` |
| Safepoint.Reduce | src/runtime/machine.rs:73-88 | the run carries on exactly when no collection is requested and reductions are left, and then spends one; an exhausted budget reschedules the process |
| Safepoint.BudgetLasts | src/runtime/machine.rs:73-88 | a budget of `n` reductions lets a process pass exactly `n` safepoints before it is rescheduled |
| JlightcMachine.AsWrittenKeepsIndex | src/runtime/machine.rs:165-171 | as written, running through a block from its start moves on to the next block with the instruction index equal to the block's length instead of 0 |
| JlightcMachine.FallThroughSkipsNextBlock | src/runtime/machine.rs:165-171 | two one-instruction blocks: after block 0 the position is instruction 1 of block 1, past that block's end |
| JlightcMachine.CorrectedWalksBlock | src/runtime/machine.rs:165-171 | with the corrected fetch the instructions of a block are fetched in order from its start, and after the last one the next block starts at instruction 0 |
| JlightcMachine.Throw | src/runtime/machine.rs:133-150 | with a catch entry the most recent one is popped and the current context resumes at its block with the value in its register; without one, contexts are popped up to the root and the error names the process |
| JlightcMachine.Machine.constructor | src/runtime/machine.rs:152-163 | `run` starts with the configured reductions at the current context's saved position |
| JlightcMachine.Machine.ResetContext | src/runtime/machine.rs:11-17 | the position becomes the current context's saved instruction and block indices |
| JlightcMachine.Machine.Fetch | src/runtime/machine.rs:165-171 | panics exactly when the instruction index lies past the block, without moving; otherwise the instruction index grows by one, and the block index grows exactly when the new instruction index reaches the block length, as `Advance` describes |
| JlightcMachine.Machine.Move | src/runtime/machine.rs:181-183 | `to` receives `from`'s value and no other register changes. An index past the registers is a `Failure` (the source's out-of-bounds panic), and nothing changes then. |
| JlightcMachine.Machine.CatchBlock | src/runtime/machine.rs:184-189 | a catch entry for the register, resuming at the block, is pushed onto the process's entries |
| JlightcMachine.Machine.Goto | src/runtime/machine.rs:190-192 | the block index becomes the target and the instruction index is kept |
| JlightcMachine.Machine.SafepointAndReduce | src/runtime/machine.rs:73-88 | `run` returns exactly when a collection is requested or the reductions are spent; otherwise one reduction is used |
| JlightcMachine.Machine.Return | src/runtime/machine.rs:193-210 | a terminating context ends the run; otherwise the caller's return register receives the value, the context is popped, and the run ends at the root or resumes the caller where it was saved after a safepoint |
| NanBox.EqIsIdentity | vm/src/runtime/value.rs:240-244 | two values are equal exactly when their raw words are |
| NanBox.NewIntRoundTrip | vm/src/runtime/value.rs:89-180 | an `i32` comes back from `new_int` unchanged and reads as an `i32` number, not a double, a boolean, null, undefined or empty |
| NanBox.EmptyIsNull | vm/src/runtime/value.rs:73-108 | `empty()` is null, and a value is empty exactly when it is null |
| NanBox.IsBoolMeaning | vm/src/runtime/value.rs:123-125 | `is_bool` holds exactly of the words `VALUE_FALSE` and `VALUE_TRUE` |
| NanBox.IsNullOrUndefinedMeaning | vm/src/runtime/value.rs:127-129 | `is_null_or_undefined` holds exactly of the words `VALUE_NULL` and `VALUE_UNDEFINED` |
| NanBox.NumberKinds | vm/src/runtime/value.rs:135-145 | every `i32` is a number, and a number is an `i32` or a double but not both |
| NanBox.IsCellAlwaysHolds | vm/src/runtime/value.rs:131-133 | as written, `is_cell` holds of every value |
| NanBox.IsCellAcceptsImmediates | vm/src/runtime/value.rs:131-133 | as written, the integer 5 and `true` pass for cells |
| NanBox.CellsAreNotImmediates | vm/src/runtime/value.rs:131-133 | with the intended test, a cell is no number, boolean, null or undefined, and none of those is a cell |
| NanBox.TrueTagReadsAsNull | vm/src/runtime/value.rs:230-238 | as written, the `True` tag converts to the word of `VALUE_NULL`, which reads as null and not as a boolean, and `False` is not a boolean either |
| NanBox.CorrectedTagsClassify | vm/src/runtime/value.rs:230-238 | with the intended mapping, the boolean tags give booleans, `Null` and `Undefined` give null or undefined, no tag gives a number, a cell or the empty value, and distinct tags give distinct values |
| NanBox.SignBitMacro | vm/src/runtime/value.rs:183-190 | the `signbit!` macro is false exactly for a number below zero, the opposite of a sign-bit test |
| NanBox.TryConvertAlwaysRejects | vm/src/runtime/value.rs:194-218 | as written, `try_convert_to_i52` returns `NOT_INT52` for every input, because its two range checks are `>= 2^51` and `< 2^51` |
| NanBox.SignTestRejectsNonNegative | vm/src/runtime/value.rs:183-208 | the sign test as written (bitwise `!` of the word, then the inverted macro) fires for every number not below zero, except the word -1 |
| NanBox.ToBitsInRangeOnlyForTiny | vm/src/runtime/value.rs:202-218 | the word `to_bits() as i64` lies in the 52-bit range only for zero and the subnormals, or for negative NaNs and minus infinity; 1.0's word is out of range |
| NanBox.TryConvertCorrectedAccepts | vm/src/runtime/value.rs:194-218 | the intended conversion, on the number's integer value, accepts a finite number equal to that integer exactly when the integer fits in 52 bits and the number is not a negative zero, and then returns the integer |
| NanBox.CorrectedSignTestRefusesOnlyNegativeZero | vm/src/runtime/value.rs:206-208 | among exact, finite, in-range numbers the intended sign test refuses exactly a zero with the sign bit set; 0.0 converts to 0 and -1.0 to -1 |
| NanBox.IsAnyInt | vm/src/runtime/value.rs:169-177 | every `i32` is an integer, a non-number never is, and a double is one exactly when it converts to 52 bits |
| NanBox.AnyIntIsInt32AsWritten | vm/src/runtime/value.rs:165-218 | with the conversion as written, `is_any_int` holds of exactly the `i32` values |
| ArithProfile.WithSetsOwnBit | vm/src/bytecode/arithprofile.rs:42-52 | each of `with_int32`, `with_number`, `with_non_number` sets its own flag and keeps every other bit |
| ArithProfile.OnlyMeansSaw | vm/src/bytecode/arithprofile.rs:22-36 | `is_only_int32` implies `saw_int32` and neither other flag, likewise for numbers; a fresh type given one flag is "only" that flag |
| ArithProfile.IsEmptyAsWritten | vm/src/bytecode/arithprofile.rs:38-40 | `is_empty` as written holds exactly of the byte 0xFF: the empty type is not empty and the type with every bit set is |
| ArithProfile.IsEmptyCorrectedMeaning | vm/src/bytecode/arithprofile.rs:18-52 | the intended `is_empty` holds of `empty()`, implies no flag was seen, and fails after any `with_*` |
| ArithProfile.WithoutNonNumberAsWritten | vm/src/bytecode/arithprofile.rs:54-56 | `without_non_number` as written keeps the `NON_NUMBER` bit as it was and sets every other bit, so `INT32` and `NUMBER` appear |
| ArithProfile.WithoutNonNumberCorrectedUndoes | vm/src/bytecode/arithprofile.rs:50-56 | the intended `without_non_number` clears `NON_NUMBER`, keeps the other bits, and undoes `with_non_number` on a type without it |
| ArithProfile.ObservedResultsAreTheFlags | vm/src/bytecode/arithprofile.rs:63-90 | `observed_results` is below 64, equals the word masked by the six result flags, and is the word itself when the word is below 64 |
| WaffleCell.SetPermanent | vm/src/runtime/cell.rs:334-336 | the pointer is then permanent |
| WaffleCell.EqIgnoresTag | vm/src/runtime/cell.rs:538-542 | pointer equality ignores the permanent tag and is symmetric and transitive |
| WaffleCell.MaskFacts | vm/src/runtime/cell.rs:302-320 | setting or clearing the mark or the soft-mark bit makes it read back so and leaves the other bit as it was |
| WaffleCell.WithBit | vm/src/runtime/cell.rs:302-320 | the new tag has the bit set exactly when asked and keeps the other mark bit |
| WaffleCell.GenerationSaturates | vm/src/runtime/cell.rs:282-287 | repeated increments raise a young generation one step at a time up to `MIN_OLD_SPACE_GENERATION` and never move an older one |
| WaffleCell.Cell.constructor | vm/src/runtime/cell.rs:82-102 | a new cell has the given value and prototype, no attribute map, no mark bits, generation 0 and colour white |
| WaffleCell.Cell.LookupInSelf | vm/src/runtime/cell.rs:209-215 | some value exactly when the cell has an attribute map holding the name, and then that value |
| WaffleCell.Cell.AddAttribute | vm/src/runtime/cell.rs:112-143 | the map is allocated if missing and then maps the name to the value, which the cell's own lookup reads back; allocating the map stores a fresh tag, clearing the mark and soft-mark bits, while an existing map keeps its tag; nothing else changes |
| WaffleCell.Cell.RemoveAttribute | vm/src/runtime/cell.rs:176-182 | returns what the cell's own lookup would have found and removes only that name; a cell without a map keeps none |
| WaffleCell.Cell.TakePrototype | vm/src/runtime/cell.rs:171-173 | returns the prototype and leaves none; nothing else changes |
| WaffleCell.Cell.IncrementGeneration | vm/src/runtime/cell.rs:282-287 | the generation grows by one while below `MIN_OLD_SPACE_GENERATION`; nothing else changes |
| WaffleCell.Cell.SetColor | vm/src/runtime/cell.rs:297-300 | returns the previous colour and stores the new one; nothing else changes |
| WaffleCell.Cell.Mark | vm/src/runtime/cell.rs:302-308 | the cell is marked exactly when asked, and the soft mark is unchanged |
| WaffleCell.Cell.SoftMark | vm/src/runtime/cell.rs:314-320 | the cell is soft-marked exactly when asked, and the mark is unchanged |
| WaffleCell.IsFalseCases | vm/src/runtime/cell.rs:393-406 | exactly the null pointer and the cells holding `false` are false |
| WaffleCell.ChainEnds | vm/src/runtime/cell.rs:217-244 | the only cell of a prototype chain without a parent is the last one |
| WaffleCell.LookupInMeaning | vm/src/runtime/cell.rs:217-244 | the lookup finds an attribute exactly when some cell on the chain has it, and then it is that of the first such cell |
| WaffleCell.LookupAttribute | vm/src/runtime/cell.rs:217-244 | the loop returns the chain lookup `LookupIn` |
| WaffleCell.PointerLookupAttribute | vm/src/runtime/cell.rs:369-379 | fails exactly on the null pointer, and otherwise returns the chain lookup |
| WaffleContext.Context.constructor | vm/src/interpreter/context.rs:28-44 | a new context has 48 registers, all undefined, an empty stack and no globals, no parent, both indices at zero and a null function |
| WaffleContext.Context.SetRegister | vm/src/interpreter/context.rs:46-48 | only the named register changes, and it then reads back the value written. An index past the registers is a `Failure` (the source's out-of-bounds panic), and nothing changes then. |
| WaffleContext.Context.MoveRegisters | vm/src/interpreter/context.rs:54-58 | the two registers exchange their values and every other register keeps its own. An index past the registers is a `Failure` (the source's out-of-bounds panic), and nothing changes then. |
| WaffleContext.ChainRoot | vm/src/interpreter/context.rs:96-108 | along a chain of callers, a context has no parent exactly when it is the last one |
| WaffleContext.Trace | vm/src/interpreter/context.rs:60-85 | the collector is handed, context by context from the current one to the root, the values its cell test accepts from the registers, the stack and the globals, and then the running function |
| WaffleContext.TraceReportsImmediates | vm/src/interpreter/context.rs:60-85 | with the cell test as written, every register, stack entry and global is reported, numbers, booleans and undefined included |
| WaffleContext.CorrectedTraceReportsCells | vm/src/interpreter/context.rs:60-85 | with the corrected cell test, each reported value is a cell, never a number, boolean, null or undefined |
| WaffleContext.CollectContexts | vm/src/interpreter/context.rs:93-109 | iterating from a context yields it and then each caller in turn, ending after the root |
| WaffleContext.Context.CopyOf | vm/src/util/ptr.rs:83-87 | a context moved into a new allocation holds exactly what the original held, registers in storage of their own |
| WaffleContext.Context.ReplaceWithNew | vm/src/util/ptr.rs:95-97 | `replace(Context::new())` returns a new context with all the old contents and leaves this one in the state `Context::new` makes |
| WaffleContext.UpTo | vm/src/interpreter/context.rs:96-108 | the callers still reached once a context loses its parent: the chain up to and including that context, or the whole chain when it is not on it |
| WaffleProcess.Process.constructor | vm/src/runtime/process.rs:54-87 | a process starts in the given context, with no catch table, no thread and the normal status |
| WaffleProcess.Process.PushContext | vm/src/runtime/process.rs:113-121 | the pushed context becomes current and the previous one its parent, so the callers still form a chain ending at the root |
| WaffleProcess.Process.PopContext | vm/src/runtime/process.rs:98-111 | the result is true exactly when the current context has no parent, and then nothing changes; otherwise the parent becomes current, detached from the popped context, and the rest of the chain stays intact |
| WaffleProcess.Process.SetThreadId | vm/src/runtime/process.rs:217-219 | the thread id then reads back as the given id |
| WaffleProcess.Process.UnsetThreadId | vm/src/runtime/process.rs:221-223 | the thread id then reads as none |
| WaffleProcess.Process.SetTerminated | vm/src/runtime/process.rs:210-212 | the process is then terminated, and whether it is main or blocking is unchanged |
| WaffleInterpreter.Retained | vm/src/interpreter/mod.rs:206-210 | clearing never adds a table |
| WaffleInterpreter.RetainedMeaning | vm/src/interpreter/mod.rs:206-210 | a table is kept exactly when it was there and its context is shallower than the exiting one |
| WaffleInterpreter.RetainedAppend | vm/src/interpreter/mod.rs:206-210 | clearing keeps the kept tables in their order: a table installed by a shallower context stays at its place, one of the exiting context or deeper goes |
| WaffleInterpreter.NumberedSnoc | vm/src/interpreter/mod.rs:238-240 | for any way of rendering a numbered line, one more frame appends its line, numbered after all the others |
| WaffleInterpreter.NumberedLinesSnoc | vm/src/interpreter/mod.rs:238-240 | one more frame adds one more line, numbered after all the others |
| WaffleInterpreter.PanicReportRootFirst | vm/src/interpreter/mod.rs:223-248 | the report lists the root context first, as frame 0 |
| WaffleInterpreter.PanicReportCurrentLast | vm/src/interpreter/mod.rs:223-248 | the report lists the current context last, under the largest number |
| WaffleInterpreter.RuntimePanic | vm/src/interpreter/mod.rs:223-248 | the text printed is the header, one numbered line per context from the root to the current one, then the line naming the process and the message |
| WaffleInterpreter.NumberFrames | vm/src/interpreter/mod.rs:238-240 | the lines built frame by frame are the numbered lines of all frames, from 0 |
| WaffleInterpreter.Interpreter.constructor | vm/src/interpreter/mod.rs:73-78 | `run` starts with 1000 reductions at the position saved in the current context |
| WaffleInterpreter.Interpreter.ResetContext | vm/src/interpreter/mod.rs:15-21 | the block and instruction positions are reloaded from the current context |
| WaffleInterpreter.Interpreter.SafepointAndReduce | vm/src/interpreter/mod.rs:57-70 | `run` returns null exactly when a collection is requested or no reduction is left; otherwise one reduction is spent |
| WaffleInterpreter.Interpreter.Push | vm/src/interpreter/mod.rs:125-128 | the register's value goes on top of the stack and nothing else on it changes. An index past the registers is a `Failure` (the source's out-of-bounds panic), and nothing changes then. |
| WaffleInterpreter.Interpreter.Pop | vm/src/interpreter/mod.rs:129-132 | the top of the stack moves into the register; on an empty stack the register becomes undefined and the stack stays empty. An index past the registers is a `Failure` (the source's out-of-bounds panic), and nothing changes then. |
| WaffleInterpreter.Interpreter.Branch | vm/src/interpreter/mod.rs:133-133 | execution continues at the start position of the named block |
| WaffleInterpreter.Interpreter.ConditionalBranch | vm/src/interpreter/mod.rs:134-141 | the next block is the true target exactly when the register's value is truthy, else the false target. An index past the registers is a `Failure` (the source's out-of-bounds panic), and the block stays then. |
| WaffleInterpreter.Interpreter.MakeEnv | vm/src/interpreter/mod.rs:142-177 | `count` values leave the stack and become the function's upvalues, the last one pushed first |
| WaffleInterpreter.Interpreter.ClearCatchTables | vm/src/interpreter/mod.rs:206-210 | only the tables of contexts shallower than the exiting one remain |
| WaffleInterpreter.Interpreter.Return | vm/src/interpreter/mod.rs:85-101 | the returning context's catch tables are cleared; a terminating or top context returns the register's value (or null) from `run`, otherwise the caller resumes at its saved position and `run` continues exactly when the safepoint lets it, returning null otherwise |
| WaffleInterpreter.MoveOutForCatch | vm/src/interpreter/mod.rs:196-198 | the table's context is left as `Context::new()` makes one, and the fresh copy holds its former registers with the value in the table's register, its stack, globals, function and instruction index, and resumes at the table's block; a table register past the registers fails, after the context was emptied |
| WaffleInterpreter.Catch | vm/src/interpreter/mod.rs:196-201 | the copy is pushed on the current context and the result is the empty value, and what stays linked is the chain up to the emptied context; on the out-of-bounds panic of `set_register` (vm/src/interpreter/context.rs:46-48) nothing is pushed and the chain is still linked up to the emptied context |
| WaffleInterpreter.Throw | vm/src/interpreter/mod.rs:194-205 | without a catch table the value is the error and nothing changes; with one, the last table is removed, its context is left as `Context::new()` makes one, and a new context holding that context's former registers (with the value in the table's register), stack, globals, function and instruction index, resuming at the table's block, is pushed on the current one; what stays linked is the chain up to the emptied context. It fails exactly when the table's register lies past the registers, the out-of-bounds panic of `set_register`, and then nothing is pushed |
| WaffleInterpreter.CaughtByCallerAsWritten | vm/src/interpreter/mod.rs:194-205 | a catch table held by the caller of the throwing function: the handler runs in a copy pushed on the thrower, not in the catching context, which is emptied and loses its own caller |
| WaffleInterpreter.ThrowCorrected | vm/src/interpreter/mod.rs:194-205 | the intended throw: the contexts above the catching one are unwound, the catching context itself takes the value and resumes at the table's block, and it and its callers stay a chain; a table register past the registers fails with the table removed and nothing else changed |
| VmHeap.Units | vm/src/heap/space.rs:40-40 | the fewest units of the given size that cover the bytes |
| VmHeap.AlignUp | vm/src/heap/space.rs:40-40 | the size rounded up to a whole number of OS pages: at least the size and less than one page more |
| VmHeap.Page.constructor | vm/src/heap/space.rs:108-119 | a new page starts empty: its top is its data and its limit lies `size` bytes further |
| VmHeap.Fits | vm/src/heap/space.rs:56-56 | one flag per page, set exactly when the page has room for the request |
| VmHeap.Pick | vm/src/heap/space.rs:53-64 | a page the backward search settles on is at or above the lowest index it can reach and has room |
| VmHeap.PickMeaning | vm/src/heap/space.rs:53-64 | the search settles on nothing exactly when no reachable page has room, and otherwise on the last one that has |
| VmHeap.EvenBytes | vm/src/heap/space.rs:49-49 | the reserved size is even, and an odd request grows by one byte |
| VmHeap.Last | vm/src/heap/space.rs:88-88 | the back of a list is none exactly when the list is empty, and otherwise its last page |
| VmHeap.ReversedTotal | vm/src/heap/space.rs:84-87 | reversing the pages keeps their total size |
| VmHeap.Space.constructor | vm/src/heap/space.rs:17-33 | one fresh, empty page is current, nothing is counted yet and the limit is zero |
| VmHeap.Space.ComputeSizeLimit | vm/src/heap/space.rs:35-37 | the limit is twice the counted size |
| VmHeap.Space.AddPage | vm/src/heap/space.rs:39-46 | a fresh page of the page-aligned size joins the back of the list, becomes current, and its size is counted |
| VmHeap.Space.Search | vm/src/heap/space.rs:53-64 | the backward walk passes only pages without room and stops on the first page from the back that has room, or runs out at the front page |
| VmHeap.Space.FindPage | vm/src/heap/space.rs:52-72 | as written: settles on the last page with room other than the front one; when there is none, adds a page and requests a collection exactly when the size is over the limit |
| VmHeap.Space.FindPageCorrected | vm/src/heap/space.rs:52-72 | the front page is searched too, so a page is added only when no page has room |
| VmHeap.Space.Allocate | vm/src/heap/space.rs:48-80 | as written: a request that fits in the current page is placed there, otherwise on the page `FindPage` settles on; the address returned has room for the even size and no other page moves |
| VmHeap.Space.AllocateCorrected | vm/src/heap/space.rs:48-80 | as `Allocate`, but a collection is requested only when no page had room for the request |
| VmHeap.Space.Clear | vm/src/heap/space.rs:93-96 | the size is zero and every page is dropped |
| VmHeap.Space.Swap | vm/src/heap/space.rs:82-91 | as written: the loop never runs, so no page moves and the final unwrap on an empty list panics |
| VmHeap.Space.SwapCorrected | vm/src/heap/space.rs:82-91 | every page of the other space moves here, in reverse order, and its size is counted; the other space is left without pages |
| VmHeap.FirstPageSkipped | vm/src/heap/space.rs:53-71 | with room only in the front page of two, the search as written finds nothing while the corrected one finds the front page |
| VmHeap.PermanentHeap.constructor | vm/src/heap/mod.rs:87-92 | a fresh, empty space and no cells allocated |
| VmHeap.PermanentHeap.Allocate | vm/src/heap/mod.rs:96-110 | the cell is placed in the space and recorded as a permanent pointer |
| VmHeap.PermanentHeap.AllocateEmpty | vm/src/heap/mod.rs:93-95 | a fresh permanent cell with no value and no prototype is recorded |
| VmHeap.LowerChar | vm/src/heap/mod.rs:41-41 | an ASCII capital becomes its small letter and any other character is kept |
| VmHeap.ToLower | vm/src/heap/mod.rs:41-41 | each character is lower-cased in place |
| VmHeap.LowerIdempotent | vm/src/heap/mod.rs:41-41 | lower-casing twice is lower-casing once |
| VmHeap.Parse | vm/src/heap/mod.rs:43-50 | no spelling gives `IncrementalMarkCompact` |
| VmHeap.FromStr | vm/src/heap/mod.rs:40-51 | no name gives `IncrementalMarkCompact`, and an unknown name fails with the message quoting it in lower case |
| VmHeap.FromStrIgnoresCase | vm/src/heap/mod.rs:40-51 | a name and its lower-cased form parse alike |
| VmHeap.NameIsLower | vm/src/heap/mod.rs:25-36 | the variant names are in lower case |
| VmHeap.NameRoundTrip | vm/src/heap/mod.rs:25-51 | every variant but `IncrementalMarkCompact` parses back from its name; that one's name is refused |
| VmHeap.OtherSpellings | vm/src/heap/mod.rs:43-50 | the other spellings parse too, in any case |
| VmState.State.constructor | vm/src/runtime/state.rs:9-24 | a state over the given permanent heap and function prototype; the rest of `State::new` is unimplemented |
| VmState.State.AllocateNativeFn | vm/src/runtime/state.rs:63-87 | a new permanent cell holds a native function with the given name and argument count, no upvalues and no code, its prototype is the function prototype, and it is recorded among the permanent cells |
| WorkerThreads.Count | jlight-vm/src/runtime/state.rs:33-43 | up to the switch point a pool gets at least two threads and at least one per processor; beyond it, at least the switch point |
| WorkerThreads.UpToSwitchPoint | jlight-vm/src/runtime/state.rs:33-43 | up to the switch point the count is two exactly when there are at most two processors, and from two processors on it is the processor count |
| WorkerThreads.AtMostProcessors | jlight-vm/src/runtime/state.rs:33-43 | with a ratio of at most one the pool never has more threads than processors, except that fewer than two processors still get two |
| WorkerThreads.AtLeastTwo | jlight-vm/src/runtime/state.rs:33-43 | with a switch point of at least two, every pool has at least two threads |
| WorkerThreads.DefaultCount | jlight-vm/src/runtime/state.rs:51-51 | the collector's pool (ratio 5/8, switch point 8) has between two threads and one per processor, eight plus five eighths of the further processors beyond eight, and 13 threads for 16 processors |
| WorkerThreads.SingleProcessorBeyondSwitchPoint | vm/src/runtime/state.rs:27-37 | the promise of two threads for one processor holds only up to the switch point: with a switch point of 0, one processor gets none |
| HeapMap.CountZeroIffClear | src/heap/map.rs:63-73 | no entry is counted exactly when every entry is zero |
| HeapMap.WordPositive | src/heap/map.rs:41-61 | a word read from the map is positive exactly when one of its bytes is |
| HeapMap.NextMarkValue | src/heap/map.rs:98-104 | the toggle turns 1 into 2 and anything else into 1 |
| HeapMap.SwapTwice | src/heap/map.rs:98-104 | toggling the mark value twice gives it back |
| HeapMap.Bytemap.ObjectMap | src/heap/map.rs:78-84 | a new object map has `n` zero entries |
| HeapMap.Bytemap.LineMap | src/heap/map.rs:89-96 | a new line map has `n` zero entries and mark value 1 |
| HeapMap.Bytemap.MarkValue | src/heap/map.rs:21-23 | 1 for an object map and the current value for a line map |
| HeapMap.Bytemap.Set | src/heap/map.rs:26-28 | the entry takes the mark value, is then set, and the others are unchanged |
| HeapMap.Bytemap.Unset | src/heap/map.rs:31-33 | the entry becomes zero, is then not set, and the others are unchanged |
| HeapMap.Bytemap.IsEmpty | src/heap/map.rs:41-61 | reading a whole number of words, the map is reported empty exactly when every entry is zero |
| HeapMap.Bytemap.Len | src/heap/map.rs:63-73 | the number of non-zero entries |
| HeapMap.Bytemap.Reset | src/heap/map.rs:129-155 | every entry becomes zero |
| HeapMap.Bytemap.SwapMarkValue | src/heap/map.rs:98-104 | the line map's mark value toggles between 1 and 2 and always changes |
| HeapMap.Bytemap.ResetPreviousMarks | src/heap/map.rs:107-115 | entries holding the current mark value stay and every other entry is cleared |
| HeapMap.EmptyIffNoMarks | src/heap/map.rs:41-73 | `is_empty` and `len` agree: a map is empty exactly when it counts no set entry |
| HeapMap.NewCycleClearsLines | src/heap/map.rs:98-115 | after swapping the mark value and resetting the previous marks, no line marked in the previous cycle is set |
| HeapBlockList.BlockList.constructor | src/heap/block_list.rs:28-30 | a new list has no blocks and is well formed |
| HeapBlockList.BlockList.Head | src/heap/block_list.rs:71-77 | null exactly for an empty list, otherwise the first block |
| HeapBlockList.BlockList.Push | src/heap/block_list.rs:33-39 | the block goes at the end, the previous last block links to it, and a null-terminated chain stays one |
| HeapBlockList.BlockList.Pop | src/heap/block_list.rs:42-50 | an empty list gives none; otherwise the last block comes off and the new last block links nowhere |
| HeapBlockList.BlockList.Append | src/heap/block_list.rs:53-59 | the other list's blocks follow this list's in order, the other list is left empty, and two chains join into one |
| HeapBlockList.BlockList.Drain | src/heap/block_list.rs:89-97 | the list is emptied and its blocks are handed out in order, each with its link cleared |
| HeapBlockList.Walk | src/heap/block_list.rs:109-136 | following the links from the first block of a chain visits exactly the chain, in order |
| HeapBlockList.WalkList | src/heap/block_list.rs:81-83 | a list whose last block links nowhere is walked from its head in list order |
| HeapGlobalAllocator.GlobalAllocator.constructor | src/heap/global_allocator.rs:14-18 | a new pool holds no blocks |
| HeapGlobalAllocator.GlobalAllocator.RequestBlock | src/heap/global_allocator.rs:21-27 | the block added last leaves the pool and is returned; from an empty pool a fresh block with a single hole is made instead |
| HeapGlobalAllocator.GlobalAllocator.AddBlock | src/heap/global_allocator.rs:30-32 | the block joins the end of the pool |
| HeapGlobalAllocator.GlobalAllocator.AddBlocks | src/heap/global_allocator.rs:35-39 | every block of the list joins the pool, in order, and the list is left empty |
| HeapGlobalAllocator.ReturnThenRequest | src/heap/global_allocator.rs:21-32 | a block handed back to the pool is the block the next request gets, and the pool is as before |
| HeapHistograms.Histogram.constructor | src/heap/histograms.rs:17-21 | a new histogram has the requested number of bins, all zero |
| HeapHistograms.Histogram.Increment | src/heap/histograms.rs:27-31 | bin `index` grows by the value and every other bin keeps its count |
| HeapHistograms.Histogram.Get | src/heap/histograms.rs:37-46 | reads back the count of an existing bin |
| HeapHistograms.Histogram.Reset | src/heap/histograms.rs:49-51 | every bin is zero again and the number of bins is kept |
| HeapHistograms.Histograms.constructor | src/heap/histograms.rs:67-72 | the available histogram has `MAX_HOLES + 1` zero bins and the marked one `LINES_PER_BLOCK + 1`, in separate storage |
| HeapHistograms.Histograms.Reset | src/heap/histograms.rs:74-77 | both histograms are zeroed and keep their sizes |
| Chunks.Chunk.constructor | src/chunk.rs:26-45 | a new chunk has the requested capacity, every value zero, and is null exactly when the capacity is 0 |
| Chunks.Chunk.Reset | src/chunk.rs:51-59 | after `reset` every value is zero, whatever was stored before |
| Chunks.Chunk.Put | src/chunk.rs:80-84 | writing at an offset below the length changes that value alone, and `index` then reads it back |
| HeapBucket.KeptReleasedPartition | src/heap/bucket.rs:156-208 | every drained block is either kept or released, none both and none lost: the two lists together are a permutation of the bucket's blocks |
| HeapBucket.AddAvailableTotal | src/heap/bucket.rs:215-227 | counting the blocks into the available-lines histogram grows its total by exactly the available lines counted |
| HeapBucket.ScanMeaning | src/heap/bucket.rs:236-248 | the bin search gives 0 exactly when no line is available or the top bin is below `MINIMUM_BIN`; otherwise a bin between `MINIMUM_BIN` and the top, past every bin above which the lines still available exceeded the lines required, and where that stopped holding or `MINIMUM_BIN` was reached |
| HeapBucket.Bucket.constructor | src/heap/bucket.rs:45-47 | a new bucket has age 0, no blocks and no current block |
| HeapBucket.Bucket.WithAge | src/heap/bucket.rs:49-56 | the bucket has the given `i8` age, no blocks and no current block |
| HeapBucket.Bucket.ResetAge | src/heap/bucket.rs:58-60 | the age becomes 0 |
| HeapBucket.Bucket.IncrementAge | src/heap/bucket.rs:62-64 | the age grows by one, below the `i8` maximum |
| HeapBucket.Bucket.CurrentBlock | src/heap/bucket.rs:66-74 | none exactly when the current-block pointer is null, otherwise that block |
| HeapBucket.Bucket.HasCurrentBlock | src/heap/bucket.rs:76-78 | holds exactly when the current-block pointer is not null |
| HeapBucket.Bucket.SetCurrentBlock | src/heap/bucket.rs:80-82 | the current block becomes the given one |
| HeapBucket.Bucket.AddBlock | src/heap/bucket.rs:84-89 | the block is appended to the bucket's list and becomes the current block |
| HeapBucket.Bucket.ResetCurrentBlock | src/heap/bucket.rs:91-93 | the current block becomes the head of the list, and there is one exactly when the list is not empty |
| HeapBucket.Bucket.ReclaimBlocks | src/heap/bucket.rs:156-208 | the bucket keeps exactly its blocks with a line in use, in order, the empty ones are appended to the global pool in order, the result counts the kept blocks, and allocation restarts at the head |
| HeapBucket.Bucket.DrainAndSort | src/heap/bucket.rs:156-208 | draining and dealing out the blocks leaves the kept blocks in the bucket and the empty ones in the release list, both in order |
| HeapBucket.Bucket.PrepareForCollection | src/heap/bucket.rs:211-258 | with evacuation each block with at least `MINIMUM_BIN` holes adds its available lines to its hole count's bin; then exactly the blocks with at least the bin search's minimum bin of holes are marked fragmented, and no other block changes |
| HeapBucket.Bucket.CountAvailable | src/heap/bucket.rs:215-234 | the counted lines are the available lines of the counted blocks, and the histogram is updated with them |
| HeapBucket.Bucket.MarkFragmented | src/heap/bucket.rs:250-256 | exactly the blocks with at least the minimum bin's holes become fragmented; the others keep their flag |
| HeapBucket.FragmentationThreshold | src/heap/bucket.rs:236-248 | the loop computes the bin search, which is 0 exactly when the search never starts and otherwise lies between `MINIMUM_BIN` and the top bin |
| HeapBucket.Kept | src/heap/bucket.rs:170-201 | only drained blocks with a line in use are kept, never more than were drained |
| HeapBucket.Released | src/heap/bucket.rs:170-201 | only drained blocks with no line in use are released, never more than were drained |
| HeapBucket.Bucket.SortBlocks | src/heap/bucket.rs:170-201 | the drained blocks with a line in use go back into the bucket in order and are counted, and the empty ones go, in order, to the list to release |
| HeapBucket.Bucket.SortOne | src/heap/bucket.rs:170-199 | one drained block joins the bucket exactly when it has a line in use, and the list to release otherwise, extending both lists as the whole loop's specification says |
| HeapLocalAllocator.RotationCloses | src/heap/local_allocator.rs:208-220 | aging the young buckets once leads from one reachable age triple to another |
| HeapLocalAllocator.RotationHasOneEden | src/heap/local_allocator.rs:63-67 | in every reachable age triple exactly one young bucket has age 0 |
| HeapLocalAllocator.RotationPeriod | src/heap/local_allocator.rs:208-220 | once every young bucket has a non-negative age, each returns to its age every three steps |
| HeapLocalAllocator.GenerationConfig.constructor | src/heap/local_allocator.rs:72-73 | a generation starts with its threshold and no allocations counted |
| HeapLocalAllocator.GenerationConfig.IncrementAllocations | src/heap/local_allocator.rs:184-205 | the allocation counter grows by one |
| HeapLocalAllocator.LocalAllocator.constructor | src/heap/local_allocator.rs:60-78 | young ages 0, -1 and -2 with eden at 0, a mature bucket of age `MATURE`, both evacuate flags false, an empty remembered set and no allocations counted |
| HeapLocalAllocator.LocalAllocator.IncrementYoungAges | src/heap/local_allocator.rs:208-220 | the oldest young bucket goes back to age 0 and every other one ages by one; afterwards `eden_index` names the only bucket of age 0 |
| HeapLocalAllocator.PrepareBucket | src/heap/bucket.rs:211-258 | one bucket's preparation, block by block: the bins grow by the bucket's available lines, and a block gains the fragmented flag exactly when it belongs to the bucket and the threshold found from the grown bins selects it; no flag is cleared |
| HeapLocalAllocator.LocalAllocator.PrepareYoung | src/heap/local_allocator.rs:106-112 | the young buckets are prepared in order: the young bins are the old ones plus each bucket's available lines in turn, each block's flag is set exactly when a bucket holding it selects it by that bucket's own threshold, and the result says whether a young bucket is at the oldest young age |
| HeapLocalAllocator.LocalAllocator.PrepareMature | src/heap/local_allocator.rs:114-116 | the mature bucket is prepared against the mature bins, with the same bins and flags as for one young bucket |
| HeapLocalAllocator.LocalAllocator.PrepareForCollection | src/heap/local_allocator.rs:103-124 | the allocator stays valid; objects are to be moved exactly when young evacuation is set, some young bucket is at the oldest young age, or a mature collection has mature evacuation set; the young bins end as the old bins plus every young bucket's available lines, the mature bins change only in a mature collection, and a block's fragmented flag ends set exactly when it was set or a young bucket holding it (or, in a mature collection, the mature bucket) selects it by its threshold |
| HeapLocalAllocator.LocalAllocator.RememberObject | src/heap/local_allocator.rs:222-230 | an object already remembered is left alone; otherwise it is marked remembered and joins the set once |
| HeapLocalAllocator.LocalAllocator.AllocateEden | src/heap/local_allocator.rs:184-193 | the young allocation counter grows exactly when the eden bucket had to request a new block |
| HeapLocalAllocator.LocalAllocator.AllocateMature | src/heap/local_allocator.rs:195-205 | the mature allocation counter grows exactly when the mature bucket had to request a new block |
| HeapLocalAllocator.RememberTwice | src/heap/local_allocator.rs:222-230 | remembering an object twice leaves the remembered set as remembering it once does |

## Left out

- Floating point: the interpreters' `Add`/`Sub`/`Mul`/`Div`, comparisons, `Not` through `floor`, `LoadNumber`, `new_double`/`as_double`/`to_number`, and `to_boolean` on numbers. Where an instruction needs the truth of a value, it is a parameter. The tracing model records numeric instructions without computing them.
- Garbage collectors (`jlight-vm/src/heap/*` collectors, `vm/src/heap/copy.rs`, `gc.rs`, `freelist_alloc.rs`, `cms/*`, `src/heap/global.rs`, `copy_object.rs`, `permament.rs`): they walk raw memory and are not part of this model.
- Concurrency and scheduling: the schedulers, parking, `safepoint`/`stop_the_world`, `suspend_*`, `acquire_rescheduling_rights`, thread builtins, cross-thread messaging in `vm/src/runtime/process_functions.rs`, and the CAS retry loop of `Bucket::allocate` (`src/heap/bucket.rs:101-148`). Atomics are plain fields, so memory orderings are not modelled.
- Raw-pointer and reference-counting wrappers (`util/ptr.rs`, `util/rc.rs`, `src/sync/arc.rs`) and object marking through block headers. A pointer is a Dafny reference, and a `Chunk` is an array.
- I/O and foreign code:
  - every `main.rs`, the I/O builtins, and `ModuleRegistry::find_path`;
  - `eprintln!` of the panic report (the report's text is modelled);
  - `finalize`, `module_from_ctx` and `disassemble_module` in `src/codegen.rs`;
  - the `AHasher` calls (the raw hash is a parameter);
  - `num_cpus::get` (the processor count is a parameter);
  - `page_size` and `commit` (the page size and the committed address are parameters).
- Unimplemented code: `split_at` and `allocate_blocked_reg` in linear scan (modelled as `Failure` results), `run_function`, the threaded interpreter, `State::new` in `vm/src/runtime/state.rs`, and `intern_string` in `src/state.rs`.
  - `VmState.State.constructor` only records the permanent heap and the function prototype.
  - The source's `State::new` asks for a permanent heap of `2 & 1024 * 1024` bytes, which is 0.
- `Set::to_vec`: its sort needs an order on the element type, which the generic set does not have.
- The edit-stream preparation at the end of linear scan's `run` (`linear_scan.rs:480-505`) is not modelled. The model stops at the allocation loop.
- `src/heap/mem.rs` (`align_usize`) is not part of this model: `VmHeap.AlignUp` states the rounding it performs. `src/heap/block.rs` is not part of this model either: a block's line counts are parameters of `HeapBucket` and `HeapHistograms`.
- Native function pointers: `VmState.State.AllocateNativeFn` records the name and argument count only.
- `NanBox.TryConvertCorrectedAccepts`: the floating-point facts about the number (NaN, infinite, equal to its integer value, sign bit set) are flags, and the integer value `number as i64` is a parameter. Floating point is not modelled, so the flags are not tied to one another. `NanBox.TryConvertAlwaysRejects` likewise takes the word and the `bits as f64 == number` and `< 0.0` tests as parameters. `NanBox.Bits` gives the word's IEEE 754 layout.
- `VmHeap.ToLower`: only ASCII letters are lowered; Rust's `to_lowercase` also folds other scripts.
- `HeapHistograms.Histogram.Increment`: the `u32` bins are unbounded, so an overflowing increment is not modelled.
- `WorkerThreads.Count`: requires `den > 0` (the source divides by it), and `usize` arithmetic is unbounded.
- `RegallocRegs.RoundUp`, `RegallocRegs.Inc`, `RegallocRegs.Plus`, `RegallocRegs.NewRange`: require that the `u32` result does not overflow, where the source would panic in a debug build.
- `JlightArrayBuiltins.ArrayInit`: requires a non-null receiver, which the source dereferences unchecked.
- `JlightArrayBuiltins.ArrayLength`: returns the length as a natural number rather than as the `f64` the source boxes.
- `WaffleInterpreter.Interpreter.MakeEnv`: requires enough values on the stack, a register index below the 48 registers, and a function cell in that register. The source panics otherwise.
- `JlightInterpreter.Interpreter.MakeEnv`: likewise requires enough stack values, a register index in range, and an object in that register.
- `JlightContext.Context.Register`: the register index is required to be below the 48 registers; the source indexes a fixed array and panics past it. The context's own `SetRegister`/`Move` model that panic as a `Failure`.
- `WaffleContext.Context.Register`: the register index is required to be below the 48 registers; `get_register` indexes a fixed array and panics past it. The operations that can be handed a bad index (`SetRegister`, `MoveRegisters`, the interpreter's `Push`, `Pop`, `ConditionalBranch` and `Throw`) check it first and model that panic as a `Failure`.
- `JlightcContext.Context.Register`: the register index is required to be below the 128 registers; `get_register` indexes a fixed array and panics past it. `SetRegister` and the machine's `Move` model that panic as a `Failure`.
- `JlightInterpreter.Interpreter.EnterCall`: only the cold bytecode call is modelled. Left out are the called function's `hotness += 1` (jlight-vm/src/runtime/interpreter.rs:163, 188), the path at `hotness >= 10` that runs the tracing interpreter and writes the return register unless the trace is complete (interpreter.rs:139-181), the native-function call (interpreter.rs:196-202), and `unimplemented!()` on a tagged number or a non-function in the function register (interpreter.rs:133-134, 204). A `FunctionValue` marked native is entered as bytecode here. The new context's `code` and `function` (interpreter.rs:185-186) are not kept, because the model has no basic blocks behind a function value; the module is kept only as its globals, the part `each_pointer` reads. Hotness lives in the function object, which the model keeps as a value, and a native function is foreign code.
- `JlightInterpreter.ReturnedValue`: the register index is required to be below the 48 registers; the source indexes a fixed array and panics past it. The context's own `SetRegister`/`Move` model that panic as a `Failure`.
- `JlightInterpreter.Interpreter.Push`: the register index is required to be below the 48 registers; the source indexes a fixed array and panics past it. The context's own `SetRegister`/`Move` model that panic as a `Failure`.
- `JlightInterpreter.Interpreter.Pop`: the register index is required to be below the 48 registers; the source indexes a fixed array and panics past it. The context's own `SetRegister`/`Move` model that panic as a `Failure`.
- `JlightInterpreter.Interpreter.LoadElement`: the register index is required to be below the 48 registers; the source indexes a fixed array and panics past it. The context's own `SetRegister`/`Move` model that panic as a `Failure`.
- `JlightInterpreter.Interpreter.StoreElement`: the register index is required to be below the 48 registers; the source indexes a fixed array and panics past it. The context's own `SetRegister`/`Move` model that panic as a `Failure`.
- `JlightInterpreter.Interpreter.LoadAttribute`: the register index is required to be below the 48 registers; the source indexes a fixed array and panics past it. The context's own `SetRegister`/`Move` model that panic as a `Failure`.
- `JlightInterpreter.Interpreter.StoreAttribute`: the register index is required to be below the 48 registers; the source indexes a fixed array and panics past it. The context's own `SetRegister`/`Move` model that panic as a `Failure`.
- `JlightInterpreter.Interpreter.LoadU`: the register index is required to be below the 48 registers; the source indexes a fixed array and panics past it. The context's own `SetRegister`/`Move` model that panic as a `Failure`.
- `JlightInterpreter.Interpreter.StoreU`: the register index is required to be below the 48 registers; the source indexes a fixed array and panics past it. The context's own `SetRegister`/`Move` model that panic as a `Failure`.
- `JlightInterpreter.Interpreter.LoadStack`: the register index is required to be below the 48 registers; the source indexes a fixed array and panics past it. The context's own `SetRegister`/`Move` model that panic as a `Failure`.
- `JlightInterpreter.Interpreter.StoreStack`: the register index is required to be below the 48 registers; the source indexes a fixed array and panics past it. The context's own `SetRegister`/`Move` model that panic as a `Failure`.
- `JlightInterpreter.Interpreter.GotoIfTrue`: the register index is required to be below the 48 registers; the source indexes a fixed array and panics past it. The context's own `SetRegister`/`Move` model that panic as a `Failure`.
- `JlightInterpreter.Interpreter.GotoIfFalse`: the register index is required to be below the 48 registers; the source indexes a fixed array and panics past it. The context's own `SetRegister`/`Move` model that panic as a `Failure`.
- `JlightInterpreter.Interpreter.ConditionalGoto`: the register index is required to be below the 48 registers; the source indexes a fixed array and panics past it. The context's own `SetRegister`/`Move` model that panic as a `Failure`.
- `JlightInterpreter.Interpreter.BoolAnd`: the register index is required to be below the 48 registers; the source indexes a fixed array and panics past it. The context's own `SetRegister`/`Move` model that panic as a `Failure`.
- `JlightInterpreter.Interpreter.BoolOr`: the register index is required to be below the 48 registers; the source indexes a fixed array and panics past it. The context's own `SetRegister`/`Move` model that panic as a `Failure`.
- `JlightInterpreter.Interpreter.Return`: the register index is required to be below the 48 registers; the source indexes a fixed array and panics past it. The context's own `SetRegister`/`Move` model that panic as a `Failure`.
- `JlightcMachine.Throw`: the register index is required to be below the 128 registers; the source indexes a fixed array and panics past it. The context's own `SetRegister`/`Move` model that panic as a `Failure`.
- `JlightcMachine.Machine.Return`: the register index is required to be below the 128 registers; the source indexes a fixed array and panics past it. The context's own `SetRegister`/`Move` model that panic as a `Failure`.
- `WaffleInterpreter.Interpreter.Return`: the register index is required to be below the 48 registers; the source indexes a fixed array and panics past it. The context's own `SetRegister`/`Move` model that panic as a `Failure`.

## Findings

| source | as written | input that shows it | evidently intended | confidence | as-written member | corrected member |
|---|---|---|---|---|---|---|
| jlight-vm/regalloc.rs/lib/src/data_structures.rs:800-826 | `check_is_sane` counts the registers each class group covers, but it never checks that a group lies inside the allocable prefix | three `I32` registers, two of them allocable, and the `I32` group claimed to be slots 1 and 2: the check accepts, yet allocable slot 0 is in no group and non-allocable slot 2 is in one | every group lies within the allocable registers, so the groups partition them | not executed | RegallocUniverse.AsWrittenAcceptsSlidGroup | RegallocUniverse.CheckIsSaneCorrected |
| jlight-vm/src/bytecode/instructions.rs:132-134 | `get_reg_usage` reports `StoreU`'s register as defined, while `map_regs_d_u` rewrites it through the use-map and the interpreter only reads it | `StoreU(r, u)` for any virtual `r`: usage is `{def: r}`, and the operand is rewritten as a use | the register is reported as used, so every operand's role agrees with its rewrite | not executed | BytecodeInsns.StoreUReportedDefined | BytecodeInsns.CorrectedRolesAgree |
| vm/src/runtime/value.rs:131-133 | `is_cell` is `!(raw & NOT_CELL_MASK) != 0`: Rust's `!` is a bitwise NOT applied before the comparison, so the test holds of every word | the integer 5 and `true` both pass `is_cell` | no bit of the mask is set: `(raw & NOT_CELL_MASK) == 0` | not executed | NanBox.IsCellAcceptsImmediates | NanBox.CellsAreNotImmediates |
| vm/src/runtime/value.rs:230-238 | `From<VTag>` stores the tag's ordinal, which does not match the tag constants | `VTag::True` (ordinal 2) becomes the word of `VALUE_NULL` and reads as null; `False` (3) is not a boolean | each tag maps to its constant (`VALUE_TRUE`, `VALUE_FALSE`, `VALUE_NULL`, `VALUE_UNDEFINED`) | not executed | NanBox.TrueTagReadsAsNull | NanBox.CorrectedTagsClassify |
| vm/src/runtime/value.rs:210-215 | the range checks of `try_convert_to_i52` are `>= 2^51` and then `< 2^51`, so every number is rejected | 0.0 returns `NOT_INT52` | the lower bound is `-2^51`, so every integer that fits in 52 bits passes the range checks | not executed | NanBox.TryConvertAlwaysRejects | NanBox.TryConvertCorrectedAccepts |
| vm/src/runtime/value.rs:183-208 | the negative-zero test is `!as_int64 != 0 && signbit!(number)`: `!` on an `i64` is the bitwise complement, and `signbit!` is true for numbers not below zero, so the test fires for every non-negative number | 0.0, 1.0 and 2.0 are all refused by this test alone | refuse only a zero whose sign bit is set: `as_int64 == 0 && number.is_sign_negative()` | not executed | NanBox.SignTestRejectsNonNegative | NanBox.CorrectedSignTestRefusesOnlyNegativeZero |
| vm/src/runtime/value.rs:202 | `as_int64` is `number.to_bits() as i64`, the number's bit pattern rather than its integer value | 1.0 gives the word `0x3FF0_0000_0000_0000`, far outside the 52-bit range, so it would be refused even with the range checks corrected | `number as i64`, the integer value of the number | not executed | NanBox.ToBitsInRangeOnlyForTiny | NanBox.TryConvertCorrectedAccepts |
| vm/src/bytecode/arithprofile.rs:38-40 | `is_empty` is `!self.bits == 0`, true only when every bit is set | `ObservedType::empty()` is not empty; the byte 0xFF is | `self.bits == 0` | not executed | ArithProfile.IsEmptyAsWritten | ArithProfile.IsEmptyCorrectedMeaning |
| vm/src/bytecode/arithprofile.rs:54-56 | `without_non_number` ORs in `!NON_NUMBER`: it sets every other bit and keeps `NON_NUMBER` | `empty().with_non_number().without_non_number()` still saw a non-number, and has gained `INT32` and `NUMBER` | AND with `!NON_NUMBER`, clearing that bit alone | not executed | ArithProfile.WithoutNonNumberAsWritten | ArithProfile.WithoutNonNumberCorrectedUndoes |
| jlight-vm/src/runtime/context.rs:93-98 | `swap_registers` writes register `to` twice, the second time with its own saved value, and never writes `from`, so nothing is exchanged | registers 0 and 1 holding different values keep them | the two registers exchange their values | not executed | JlightContext.SwapAsWrittenChangesNothing | JlightContext.Context.SwapRegistersCorrected |
| jlight-vm/src/runtime/fusion/tracing_interpreter.rs:731-764 | for two tagged numbers, the traced `Sub` records a `MulF` instruction | a traced `Sub(2, 0, 1)` and a traced `Mul(2, 0, 1)` record the same instructions | `Sub` records `SubF` | not executed | JlightTracing.SubRecordedAsMul | JlightTracing.CorrectedRecordDistinguishes |
| jlight-vm/src/runtime/interpreter.rs:33-38 | `run` invokes `reset_context!(thread, context, bindex, index)` with the two position variables exchanged | a context saved at instruction 3 of block 1 resumes at instruction 1 of block 3 | `reset_context!(thread, context, index, bindex)`, as at every other site | not executed | JlightInterpreter.SuspendAndResume | JlightInterpreter.Interpreter.ResetContext |
| src/runtime/machine.rs:165-171 | after the last instruction of a block, the fetch moves to the next block but keeps the instruction index | two one-instruction blocks: after block 0 the position is instruction 1 of block 1, past its end | moving to the next block resets the instruction index to 0 | not executed | JlightcMachine.FallThroughSkipsNextBlock | JlightcMachine.CorrectedWalksBlock |
| vm/src/heap/space.rs:53-71 | the backward page search stops as soon as `next_back` returns none, before trying the front page, so `head` is none even when that page has room | two pages, the front one with room and the current one full: a third page is added and a collection may be requested | the front page is tried too, and a page is added only when no page has room | not executed | VmHeap.FirstPageSkipped | VmHeap.Space.AllocateCorrected |
| vm/src/heap/space.rs:82-91 | `swap` loops while its own page list is non-empty, right after clearing it, so no page moves; the final `unwrap` on the empty list then panics | any two spaces: `swap` panics with every page still in the other space | loop while the other space has pages, moving each one over | not executed | VmHeap.Space.Swap | VmHeap.Space.SwapCorrected |
| vm/src/interpreter/mod.rs:194-205 | `throw` takes the catching context's contents out with `replace(Context::new())` and pushes them as a new context on top of the current one | a function with a `try` calls one that throws: the handler runs in a copy above the thrower, the catching context is left empty without a parent, so its own caller is lost and returning through the thrower reaches an empty context | the contexts above the catching one are unwound and the handler runs in the catching context itself, its callers kept | not executed | WaffleInterpreter.CaughtByCallerAsWritten | WaffleInterpreter.ThrowCorrected |
| src/object.rs:252-284 | the remembered bit is a tag bit of the attribute-map pointer, and `set_attributes_map` stores a freshly tagged pointer when the first attribute is added | an object remembered while it has no attributes, then given one: it reads as not remembered, so it can enter the remembered set twice | the remembered bit survives, as `take` (src/object.rs:302-303) takes care it does | not executed | JlightcObject.FirstAttributeForgetsRemembered | JlightcObject.Object.AddAttributeCorrected |
