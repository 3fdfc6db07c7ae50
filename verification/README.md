# klox: layered heap, concurrent collector, compiler

klox runs Lox programs on a heap, a value stack, call frames and tables that are all kept
in three layers: A is written by the main thread, B and C are frozen. A collection shifts
the layers down, a second thread marks and condenses what B and C hold while the program
keeps running on a new A, and the main thread later swaps the condensed layer in. This
project models that machinery, and beside it the single-pass compiler with its bytecode
loop, and proves what the design promises.

The files, from the bottom up:

- `Routes`, `Collisions`, `TrieShape`, `StructMap`, `StructMapCompare`, `LayerMerge`: the
  array-mapped trie `structmap_amt` as a class whose methods overwrite entries in place. It
  refines a map, its shape depends on the keys alone, `compare` is a total order, and the
  nodes that a merge of two layers needs are bounded by what was tracked at insertion.
- `Allocation`: the same bound in bytes, down to headers and alignment, up to the size that
  is reserved for condensing the object table.
- `Layers`, `ObjTable`: the three-layer object table.
- `Objects`, `Graph`, `Marking`, `FrozenLeaves`: heap objects, what they mention, and the
  marking loop.
- `Collector`, `CollectorInvariant` and the files of its proof (`CollectorFrames`,
  `CollectorProgram`, `CollectorThread`, `CollectorCopying`, `CollectorHandover`), then
  `CollectorTheorems` and `Reclamation`: the two threads as one state machine, beside a
  plain machine that keeps one record per object and never collects. `ProgramEffects`: what
  the program's own steps do to what it reads, and what it holds.
- `LayeredSeq`, `TriArray`, `CallFrames`, `Tables`: the value stack, the call frames with
  their cached pointers, and the globals, as classes over layered arrays and trees.
- `CollectedCalls`: runs of calls and returns on these stacks, with collections anywhere.
- `World`, `WorldEffects`: heap, stack, frames and globals together, against a machine
  without layers, and each move on its own.
- `RequestProtocol`: how the threads hand requests and responses over, by address.
- `Upvalues`: the list of open upvalues, and captured variables as cells.
- `Pratt`: the precedence parser of expressions, against the grammar it accepts.
- `Lox`, `Bytecode`, `Emission`, `Compiler`, `CompiledExpressions`, `CompiledLoops`,
  `CompiledStatements`, `CompiledPrograms`, `CompiledScripts`: a tree evaluator, the
  interpreter loop, the code of each construct, the back-patching compiler class that emits
  it, and the proof that running the code has the effect of the tree. `Declarations`: which
  scripts are rejected. `ScriptResults`: what compiled scripts print.

Conventions. Offsets are naturals and the allocation cursor only moves up; a reclaimed
address is one below a bound. Threads are interleaved atomic steps. Addresses, callbacks,
value comparison, number formats, object layouts and map iteration order are parameters.
`History` holds variables of the proof that no step reads.

Where the code and its comments differ, the model follows the code. Three places matter.
The collector grays the values of globals in C that B masks, and the fields of a C record
that B overrides, so such values live one cycle longer; the model carries them (`hidden`,
`Mentions`). `>=` and `<=` are compiled as negated `<` and `>`, so they hold when an
operand is not a number in the IEEE sense; the evaluator says the same. The size estimate
for an allocation charges its header as if it were aligned to a word, so it is an upper
bound exactly for alignments up to a word (`Allocation.EstimateCovers`).

## Model

| member | source | states |
|---|---|---|
| Routes.Separation | c/structmap_amt.h:327-383 | two different keys below 2^62 cannot agree on all their slots: they part before the key bits run out and within 63 levels, for any first-level and level width, so the descent of an insertion ends |
| StructMap.ShiftIsSlot | c/structmap_amt.h:355-371 | the shift-and-mask of the descent picks the slot of the key at that depth, and never shifts by 64 or more |
| StructMap.ModificationFits | c/structmap_amt.h:85-89 | an insertion into any key set creates at most MODIFICATION_MAX_NODES nodes |
| Collisions.FreshNodesAreSpine | c/structmap_amt.h:327-383 | the nodes an insertion creates are a contiguous run along the new key's route, from the depth it shared before to the depth it shares afterwards |
| Collisions.MaxCoversMergedLayers | c/cb_integration.cpp:386-391 | the larger of the collision counts against B and against C covers the collisions with the two layers merged |
| Collisions.MergeBound | c/cb_integration.cpp:377-395 | for every sequence of insertions into A against layers that together hold fixed keys: the merge of A with them needs no more nodes than both have plus the accumulated additional collision nodes, although each insertion adds only what exceeds its own new nodes |
| Collisions.ReservationSuffices | c/cb_integration.cpp:432-450 | the same for whatever subset of the merged keys a collection keeps |
| Collisions.NodeCountMonotone | c/structmap_amt.h:117-129 | fewer keys never need more nodes |
| TrieShape.CanonicalEntry | c/structmap_amt.h:307-401 | a position is EMPTY, ITEM or NODE exactly when no key, one key or at least two keys pass it |
| TrieShape.SameKeysSameLayout | c/structmap_amt.h:307-401 | two tries with the same keys have the same layout at every position and the same number of nodes, whatever the order of insertion |
| StructMap.CountOfKeys | c/structmap_amt.h:117-121 | node_count is a function of the stored keys |
| StructMap.Amt.constructor | c/structmap_amt.h:229-243 | a new map is empty and has no nodes |
| StructMap.Amt.Lookup | c/structmap_amt.h:161-190 | finds exactly the stored value of a stored key |
| StructMap.Amt.ContainsKey | c/structmap_amt.h:198-204 | is true exactly for stored keys |
| StructMap.Amt.Insert | c/structmap_amt.h:306-401 | stores the pair and changes nothing else in the map; node_count grows by exactly the collision nodes of the key, the external size by the value's size |
| StructMap.Amt.PushDown | c/structmap_amt.h:346-372 | moves a colliding item one level down into a new node, and lets the entry point to that node |
| StructMap.Amt.WouldCollideNodeCount | c/structmap_amt.h:206-218 | equals exactly the number of nodes that inserting the key would allocate, and is at most MODIFICATION_MAX_NODES |
| StructMap.Amt.WouldCollideSlowpath | c/structmap_amt.h:403-452 | the same for the walk down the nodes |
| StructMap.Amt.Traverse | c/structmap_amt.h:489-519 | visits each stored pair exactly once |
| StructMap.Amt.TraverseNode | c/structmap_amt.h:454-487 | visits exactly the pairs below a node, each once |
| StructMap.Amt.NodeAlloc | c/structmap_amt.h:245-276 | adds one node of empty entries and counts it |
| StructMapCompare.CompareNode | c/structmap_amt.h:522-573 | the recursive comparison of two nodes computes the order of the maps below that position |
| StructMapCompare.CompareMaps | c/structmap_amt.h:575-624 | compare computes an order that is defined on the two maps alone |
| StructMapCompare.CompareEntries | c/structmap_amt.h:522-573 | nodes come before empty slots and those before items; of two items the smaller key comes first, and of equal keys the smaller value |
| StructMapCompare.FirstDifferenceDecides | c/structmap_amt.h:522-573 | the lowest slot in which two nodes differ decides |
| StructMapCompare.SmallMaps | c/structmap_amt.h:575-624 | on maps of one pair: having none comes first, within a slot the smaller key or value does, across slots the lower slot decides |
| StructMapCompare.CompareZero | c/structmap_amt.h:521-624 | the result is 0 exactly when both maps have the same keys with equal values |
| StructMapCompare.CompareAntisymmetric | c/structmap_amt.h:521-624 | swapping the operands flips the sign, if value_cmp does |
| StructMapCompare.CompareTransitive | c/structmap_amt.h:521-624 | the order is transitive, and strict where a step is, if value_cmp is antisymmetric and transitive |
| LayerMerge.CopyEntries | c/memory.cpp:730-786 | the clone of a methods or fields map is the same map with the same number of nodes |
| LayerMerge.MergeUnderneath | c/cb_integration.cpp:1195-1267 | merging C's entries into the condensed B gives B overriding C and the node count of the union, although the map asked about masking is the one that grows |
| Allocation.BlockFits | c/memory.cpp:111-127 | the header and the block lie inside the space that the cursor passes, the block at its alignment |
| Allocation.EstimateCovers | c/cb_integration.cpp:139-216 | the per-allocation estimate is an upper bound at every cursor if and only if the alignment is at most that of a word |
| Allocation.EstimatesCover | c/structmap_amt.h:124-129 | any sequence of objects, arrays and nodes, in any order, advances the cursor by at most the sum of the estimates |
| Allocation.EstimatesPermute | c/structmap_amt.h:124-129 | the estimates add up to the same whatever the order of the requests |
| Allocation.CloneFits | c/memory.cpp:468-623 | cloning any object, side arrays and map nodes included, takes at most its klox_Obj_external_size |
| Allocation.CloneHoldsEverything | c/memory.cpp:468-623 | and at least what the object consists of: the record, each element of each side array, each node of its map |
| Allocation.MergeGrowth | c/cb_integration.cpp:1423-1488 | what C adds to B's map is covered by C's own size and the collisions tracked for that map |
| Allocation.KeptIsAskedFor | c/cb_integration.cpp:1281-1563 | condensing allocates a clone of every kept record that is not masked, and the nodes that each merge of two maps adds |
| Allocation.TotalCovers | c/cb_integration.cpp:139-153 | the total that a layer tracks, by whole sizes at insertions and by growth in place, is never less than the sizes of the records it holds |
| Allocation.ReservedBytesSuffice | c/cb_integration.cpp:432-450 | with B and C built by any changes and any ids kept, whatever the order in which clones, nodes of merged maps and nodes of the table are allocated, the cursor stays within objtable_consolidation_size of where it started; and before every allocation there is room for what an insertion into either kind of map sets aside |
| Layers.EncodingIsFaithful | c/cb_integration.h:47-49 | offset and flag share one word without loss, and 0 means invalidated only |
| Layers.TombstoneDoesNotMask | c/cb_integration.cpp:453-465 | invalidating an id in A uncovers what B or C has for it and touches no other id |
| Layers.ShiftKeepsResolution | c/cb_integration.cpp:410-429 | the freeze changes no resolution when C was empty |
| ObjTable.Table.Lookup | c/cb_integration.cpp:453-465 | the first layer with an offset for the id decides |
| ObjTable.Table.AddAt | c/cb_integration.cpp:365-396 | inserts into A and adds the larger of the collisions with B and C, less the nodes the insertion created, or nothing |
| ObjTable.Table.Add | c/cb_integration.cpp:398-407 | a new id each time |
| ObjTable.Table.Invalidate | c/cb_integration.cpp:500-503 | records a tombstone in A |
| ObjTable.Table.Freeze | c/cb_integration.cpp:409-429 | shifts the layers, snapshots the collision count, and keeps every resolution |
| ObjTable.Table.ConsolidationNodes | c/cb_integration.cpp:432-450 | the nodes reserved cover the condensed table over any subset of the keys of B and C |
| ObjTable.Table.Integrate | c/memory.cpp:1375-1382 | B becomes the condensed layer and C is blank |
| Objects.OverAssociates | c/vm.cpp:447-461 | reading A over B over C does not depend on which two layers are combined first |
| Objects.DerivedIsNeutral | c/memory.cpp:468-623 | a derived record, on top of the record it came from, changes nothing that is read |
| Objects.EditCommutes | c/vm.cpp:463-521 | writing a field, a method or the superclass into the top layer writes it into the object as a whole |
| Objects.CascadeReadsTheView | c/vm.cpp:447-461 | looking a field or method up layer by layer finds what the layers read together hold |
| Objects.RefsHold | c/memory.cpp:287-379 | the references of a record include, place by place, everything that the record holds |
| Graph.ClosureIsLeast | c/memory.cpp:190-205 | the ids reachable from the roots are the least closed set that contains them |
| Marking.Marker.GrayObject | c/memory.cpp:190-205 | nil and dark ids are left alone; another id becomes dark, is pushed once, and fits |
| Marking.Marker.GrayObjectLeaves | c/memory.cpp:287-379 | every id the object mentions is dark afterwards and no other becomes so |
| Marking.Marker.Mark | c/cb_integration.cpp:1864-1870 | marking ends, with dark equal to the ids reachable from the roots, each of them pushed exactly once, in a stack as large as their number |
| FrozenLeaves.LeavesMention | c/memory.cpp:287-379 | the ids visited for an object, case by case, are those that its topmost frozen record mentions and the entries of a class's or instance's backing record in C |
| FrozenLeaves.MarkFrozen | c/cb_integration.cpp:1864-1870 | marking over the frozen records ends with dark equal to what the roots reach; every root is dark, and for every dark id each field, method, superclass, upvalue, constant, receiver and so on of its topmost frozen record, and of a class's or instance's backing record in C |
| CollectorInvariant.InitiallyInv | c/vm.cpp:379-401 | the initial state satisfies the invariant |
| CollectorProgram.AllocKeepsInv | c/object.cpp:33-61 | an allocation keeps the invariant, collection or not |
| CollectorProgram.ReviveKeepsInv | c/table.cpp:192-251 | finding an interned string that nothing else reaches keeps it: its record survives, and the temporary string pays for it in the counts |
| CollectorProgram.MutateKeepsInv | c/cb_integration.cpp:511-551 | a write through resolveAsMutableLayer, in place or to a derived layer, does to the object what it does to the plain machine's |
| CollectorProgram.RetargetKeepsInv | c/vm.h:53-82 | changing the stack, frames or globals within what is reachable keeps it |
| CollectorThread.GrayRootKeepsInv | c/cb_integration.cpp:1809-1862 | graying a frozen root keeps it |
| CollectorThread.GrayLeavesKeepsInv | c/cb_integration.cpp:1864-1870 | popping a gray object and graying its leaves keeps it |
| CollectorThread.MarkingEnds | c/cb_integration.cpp:1864-1870 | with an empty gray list the dark set is exactly what was reachable at the freeze |
| CollectorThread.ProgramFrame | c/cb_integration.cpp:1763-2129 | a step of the collector thread changes nothing that the program reads, nor what its request describes |
| CollectorFrames.CollectionFrame | c/memory.cpp:1144-1160 | a step of the program changes nothing that the collector thread reads or has produced |
| CollectorCopying.RoomForClone | c/cb_integration.cpp:1282-1376 | there is always a place left in the reserved region for the next clone |
| CollectorCopying.CopyBKeepsInv | c/cb_integration.cpp:1281-1376 | copying a B record keeps it: tombstones are skipped, dark records cloned, undark ones cloned with the flag and put on the white list |
| CollectorCopying.CopyCKeepsInv | c/cb_integration.cpp:1378-1563 | so does each case for a C record: dropped when undark and flagged, merged under B's clone, masked, or cloned |
| CollectorHandover.FrozenReach | c/memory.cpp:788-864 | at a freeze, what the frozen records reach is within what the counts have budgeted for |
| CollectorHandover.FreezeKeepsInv | c/memory.cpp:1066-1344 | shifting the layers and reserving regions keeps it |
| CollectorHandover.MergedReadsTheSame | c/cb_integration.cpp:1423-1488 | reading A over (B over C) condensed is reading A over B over C |
| CollectorHandover.IntegratedRecs | c/memory.cpp:1346-1382 | after integration every id that matters has its A record over its condensed record, and no other |
| CollectorHandover.IntegrateKeepsInv | c/memory.cpp:1346-1511 | integrating the response, freeing the white list and reclaiming space keeps the invariant |
| CollectorTheorems.StepKeepsInv | c/cb_integration.cpp:1763-2129 | every step of either thread keeps the invariant |
| CollectorTheorems.CollectionIsInvisible | c/memory.cpp:788-1511 | after any interleaving of the two threads, every object the program can reach reads, A over B over C, as in a machine that took the program's steps alone and never collects |
| CollectorTheorems.CollectorStepsChangeNothing | c/memory.cpp:1346-1511 | no freeze, marking, copying or integration step changes what any reachable id reads as |
| CollectorTheorems.LookupReadsTheObject | c/vm.cpp:447-461 | a field or method looked up through the three layers is the one that the object has |
| ProgramEffects.FieldIsSet | c/vm.cpp:463-521 | setting a field of any instance the program can reach may always be done; afterwards the layered lookup finds the value, every other field reads as before, and so does every other object |
| ProgramEffects.MethodIsSet | c/vm.cpp:539-597 | the same for a method of a class |
| ProgramEffects.SuperclassIsSet | c/cb_integration.cpp:511-551 | a write to the superclass of a class, through its mutable layer, changes it and neither the name nor a method, nor any other object |
| ProgramEffects.ObjectIsReplaced | c/cb_integration.cpp:511-551 | a closure, function, upvalue or bound method that is written to reads as it was written, and no other object changes |
| ProgramEffects.ObjectIsNew | c/object.cpp:33-61 | a new object reads as it was made under an id of its own, and every other object stays |
| ProgramEffects.StringIsFound | c/table.cpp:192-251 | an interned string found again reads as the string asked for and is rooted |
| ProgramEffects.LiveHolds | c/memory.cpp:287-379 | what the program can reach includes, place by place, everything that a reachable object holds |
| CollectorTheorems.GrayFits | c/memory.cpp:1082-1111 | the dark set and the gray list never outgrow preserved plus new objects |
| CollectorTheorems.DarkIsReachable | c/cb_integration.cpp:1809-1870 | after marking, dark is what the frozen roots reach through frozen records, a C backing included |
| CollectorTheorems.ThreadStepsGetCloser | c/cb_integration.cpp:1763-2129 | each step of the collector thread strictly shortens what is left of the collection |
| CollectorTheorems.ProgramStepsKeepDistance | c/cb_integration.cpp:1763-2129 | the program's steps in between leave that distance as it is |
| CollectorTheorems.ThreadCanStep | c/cb_integration.cpp:1864-1936 | until there is a response the collector thread is never stuck |
| Reclamation.FreeWhiteList | c/memory.cpp:1462-1470 | the freeing loop, reading each link through the table as it then is, visits every newly white id once, invalidates exactly those, and stops |
| Reclamation.IntegrationOutcome | c/cb_integration.cpp:1281-1521 | what becomes of an id: dark ones are kept and cleared of the flag; undark ones are kept flagged under a tombstone and still resolve; undark ones that carry the flag resolve no longer |
| Reclamation.TwoCycles | c/cb_integration.cpp:1400-1412 | an id undark in one cycle still resolves after it, and after the next cycle resolves unflagged if dark then, or not at all, whatever the program does in between |
| Reclamation.NothingDangles | c/memory.cpp:1472-1494 | every offset the table resolves to is in memory, before and after the space below the bound is given back |
| Reclamation.SpaceIsReclaimed | c/memory.cpp:1472-1494 | integration gives back everything below the bound, and nothing above it |
| Reclamation.FrozenLayersAreClean | c/cb_integration.cpp:1297-1400 | the frozen B has no flags and the frozen C no invalidated ids, as the copying passes assert |
| RequestProtocol.ExactlyOnce | c/cb_integration.cpp:1040-1158 | over all interleavings requests are processed and integrated in order, each once, and at most one is under way |
| RequestProtocol.ResponseIsCurrent | c/cb_integration.cpp:1071-1094 | both loads of the response see the same one, and it answers the current request |
| RequestProtocol.SnapshotIsStable | c/cb_integration.cpp:1097-1158 | the request that the collector works on is never replaced under it |
| RequestProtocol.NoticedIffFreshAddress | c/memory.cpp:1120-1125 | a request is noticed if and only if its address differs from the last processed one |
| RequestProtocol.Progress | c/cb_integration.cpp:1097-1158 | until a request is integrated one of the threads has a step that brings it closer |
| RequestProtocol.Drains | c/cb_integration.cpp:1040-1158 | from every reachable state the request under way can be brought to its integration |
| TriArray.Tri.At | c/vm.cpp:77-100 | any index reads the element of the one logical sequence |
| TriArray.Tri.Peek | c/vm.h:44-50 | counts from the top |
| TriArray.Tri.Set | c/vm.cpp:78-100 | a write at or above the base of A changes that element only |
| TriArray.Tri.Push | c/vm.h:63-71 | appends |
| TriArray.Tri.DiscardN | c/vm.h:52-61 | drops the top n, and takes the base of A down with the depth |
| TriArray.Tri.Pop | c/vm.h:73-80 | removes and returns the last element |
| TriArray.Tri.Freeze | c/memory.cpp:798-813 | shifting the layers keeps the sequence |
| TriArray.Tri.Request | c/memory.cpp:1201-1217 | what the request records describes the whole sequence |
| TriArray.Tri.Condense | c/cb_integration.cpp:1938-1963 | the two copying loops produce the frozen sequence from the frozen arrays alone |
| TriArray.Tri.Integrate | c/memory.cpp:1384-1392 | swapping a condensed array in keeps the sequence whenever that array holds what still lies below A: also after pops that took the base below B's, and after a reset |
| TriArray.Tri.MakeMutable | c/vm.cpp:240-246 | the overlapping downward shift keeps every element and makes those from the index on contiguous in A |
| LayeredSeq.DiscardedContents | c/vm.h:52-61 | popping below the base drops exactly the popped elements, although frozen layers still hold them |
| CallFrames.Vm.GetLocal | c/vm.cpp:976-980 | the cached slots pointer reads the frame's slot in the whole stack |
| CallFrames.Vm.SetLocal | c/vm.cpp:982-986 | and writes it |
| CallFrames.Vm.Advance | c/vm.cpp:1137-1155 | a jump moves the current activation's offset and nothing else |
| CallFrames.Vm.FetchCurrentFrame | c/vm.cpp:175-238 | the current frame ends up in A with its pointers re-derived when its epoch is stale |
| CallFrames.Vm.EnsureCurrentFrameIsMutable | c/vm.cpp:175-248 | afterwards the current frame and its slots are in A and its caches match the table; no value and no activation has changed |
| CallFrames.Vm.Call | c/vm.cpp:413-445 | enters the callee's frame over callee and arguments and leaves the frozen layers as they are, or fails on arity or depth and resets both stacks |
| CallFrames.Vm.ResetStacks | c/vm.cpp:333-337 | a runtime error leaves both stacks empty and unlayered |
| CallFrames.Vm.LeaveFrame | c/vm.cpp:250-255 | the caller becomes current and mutable |
| CallFrames.Vm.TakeResult | c/vm.cpp:1240-1250 | the stack shrinks to its depth before the call and takes the result |
| CallFrames.Vm.Return | c/vm.cpp:1203-1251 | removes one activation and leaves its result to the caller; its second copy into A never happens, as the frame is mutable by then |
| CallFrames.Vm.Freeze | c/memory.cpp:1336-1341 | after a freeze and its recovery the same values and activations, ready to run |
| CallFrames.Vm.RecacheCurrent | c/memory.cpp:1435-1445 | the current frame's pointers follow the new table and its distance from the code's start stays |
| CallFrames.Vm.Integrate | c/memory.cpp:1362-1445 | swapping condensed stacks and a new table in keeps values and activations, with the caches right again, as long as they hold what lies below A and the table has the functions being run |
| CallFrames.CondenseFrames | c/cb_integration.cpp:1976-2042 | the condensed frames are the frozen ones with their pointers moved |
| CollectedCalls.Session.Execute | c/vm.cpp:921-1251 | any sequence of pushes, pops, local reads and writes, jumps, calls, returns, new functions and runtime errors, with freeze, condensation and integration anywhere between, ends ready with the values and activations of a machine that took the program's steps alone |
| CollectedCalls.CollectionsDropOut | c/memory.cpp:1066-1511 | taking the collector's steps out of such a run leaves a run of the program with the same outcome |
| CollectedCalls.Session.Freeze | c/memory.cpp:1066-1344 | freezing and recording the request, in the middle of a program, changes no value and no activation |
| CollectedCalls.Session.Condense | c/cb_integration.cpp:1938-2042 | the response is made from the request alone and stays what the freeze found, whatever the program does |
| CollectedCalls.Session.Integrate | c/memory.cpp:1362-1445 | the response may be swapped in after any calls, returns and runtime errors since the freeze |
| Tables.Table.Lookup | c/table.cpp:62-86 | reads the table as one map, tombstones hiding what is beneath |
| Tables.Table.Set | c/table.cpp:88-114 | sets the key and answers whether it was new |
| Tables.Table.Delete | c/table.cpp:116-135 | removes the key, whatever the layers beneath hold |
| Tables.Table.Assign | c/vm.cpp:1009-1019 | assigning to an undefined variable fails and leaves the table reading as before |
| Tables.Table.AddAll | c/table.cpp:142-190 | adds exactly what the other table reads as, although stale values and tombstones are written on the way |
| Tables.Table.Freeze | c/memory.cpp:849-864 | shifting the layers keeps every value |
| Tables.Condense | c/cb_integration.cpp:1675-1739 | the two traversals produce B over C, tombstones included |
| Tables.Table.Integrate | c/memory.cpp:1453-1457 | swapping the condensed tree in keeps every value, after any writes to A |
| World.MoveKeepsInv | c/memory.cpp:788-1511 | every move of the program, the main thread and the collector thread keeps heap, stack, frames and globals together in step with the plain machine |
| World.NothingShows | README.md:31-56 | whatever the interleaving, the stack, the frames, the globals and every object they reach read as in a machine with one stack, one frame list, one table and one record per object; every object on the stack, in a frame, among the globals or pinned is there to be read |
| WorldEffects.StackMovesDo | c/vm.h:44-82 | each move does to the stack, read through its layers, what its name says; the collector's moves do nothing to it |
| WorldEffects.CallMovesDo | c/vm.cpp:250-255 | the same for the frames |
| WorldEffects.GlobalMovesDo | c/table.cpp:62-135 | and for the globals, name by name, and the pinned ids |
| WorldEffects.FreezeLeavesRoots | c/cb_integration.cpp:1813-1862 | a freeze leaves to be grayed every id on the stack, in a frame, pinned, or a key or value of the globals, masked or not |
| WorldEffects.HeldMayBeUsed | c/vm.h:63-82 | whatever is on the stack may be pushed again, stored, bound to a name or called |
| WorldEffects.CollectionsMayHappen | c/memory.cpp:1066-1125 | a collection may start whenever none is outstanding, and be integrated once everything is condensed |
| World.MovesRespond | c/cb_integration.cpp:1938-2126 | what has been condensed stays right until it is integrated |
| World.RootsStayLive | c/cb_integration.cpp:1809-1862 | the program never roots an id that it could not reach |
| Upvalues.OnePerSlot | c/vm.cpp:776-798 | at most one open upvalue per stack slot |
| Upvalues.Machine.Capture | c/vm.cpp:766-817 | returns the open upvalue of that slot, or inserts a new one in order when there is none |
| Upvalues.Machine.Seek | c/vm.cpp:773-788 | the walk stops at the first upvalue at or below the slot |
| Upvalues.Machine.CloseUpvalues | c/vm.cpp:819-848 | closes exactly the upvalues at or above the index, each with its variable's value, leaves every other as it was and the list in order, and every closure sees what it saw |
| Upvalues.Machine.Leave | c/vm.cpp:1197-1215 | closing and then popping changes no variable that any closure sees |
| Upvalues.Machine.GetUpvalue | c/vm.cpp:1021-1030 | reads the captured variable, open or closed |
| Upvalues.Machine.SetUpvalue | c/vm.cpp:1032-1041 | writes the captured variable and no other |
| Upvalues.Machine.SetLocal | c/vm.cpp:982-986 | an assignment to a local is seen by every closure that captured it |
| Bytecode.OpRoundTrip | c/chunk.h:8-46 | instruction bytes decode to what was encoded |
| Bytecode.StepShortAt | c/vm.cpp:883-884 | the two operand bytes of a jump decode to the distance that was emitted, up to 65535 |
| Pratt.ParsePrecedence | c/compiler.cpp:714-734 | the token-consuming loop with its rules reads the expression that the recursive reading defines, and refuses where that does |
| Pratt.ReadsTheGrammar | c/compiler.cpp:672-734 | at every precedence the compiler asks for, tokens are accepted, with a given meaning and rest, if and only if they are a phrase of the layered grammar with that meaning, followed by what cannot belong to it |
| Pratt.OneMeaning | c/compiler.cpp:672-712 | the grammar, in which `and` and `or` lean to the right and the other operators to the left, is unambiguous: the same tokens never have two meanings |
| Pratt.OperatorsRead | c/compiler.cpp:491-615 | what each infix and prefix token means, its operands in order |
| Pratt.TighterGroupsFirst | c/compiler.cpp:672-712 | of `or`, `and`, equality, comparison, terms and factors each binds tighter than those before it; `or` and `and` lean to the right, the others to the left |
| Pratt.UnaryFirst | c/compiler.cpp:672-712 | unary operators bind tighter than every infix one, parentheses tighter still |
| Pratt.AssignmentLast | c/compiler.cpp:600-640 | an assignment takes in everything to its right, leans to the right, and is refused unless its target is a lone variable |
| Pratt.RoundTrip | c/compiler.cpp:473-734 | every expression written down with the parentheses its place needs is read back as it was meant |
| CompiledExpressions.ResolvesAlike | c/compiler.cpp:320-334 | a local's index at compile time is its slot at run time, unless it is read in its own initializer |
| CompiledExpressions.NegatedApply | c/compiler.cpp:500-506 | the negated comparisons mean what the evaluator says |
| CompiledExpressions.ExprRuns | c/compiler.cpp:473-613 | the code of an expression, wherever it stands, evaluates it on top of the stack, or fails as it does |
| CompiledExpressions.AndRuns | c/compiler.cpp:473-489 | the jump of `and` skips the right operand exactly when the left is falsey |
| CompiledExpressions.OrRuns | c/compiler.cpp:558-581 | the two jumps of `or` keep a truthy left operand and else evaluate the right |
| CompiledLoops.TestRuns | c/compiler.cpp:910-921 | a loop's test leads to its body or to its end |
| CompiledLoops.StepRuns | c/compiler.cpp:923-948 | from the end of the body the code goes through the step back to the test |
| CompiledStatements.StmtKeepsLocals | c/compiler.cpp:289-303 | a statement leaves the compiler's locals as it found them |
| CompiledStatements.PopsRun | c/compiler.cpp:289-303 | leaving a scope pops its bindings |
| CompiledPrograms.IfRuns | c/compiler.cpp:958-978 | exactly one branch of `if` runs, and the condition is gone afterwards |
| CompiledPrograms.LoopRuns | c/compiler.cpp:1004-1023 | `while` and `for` go round as the tree does |
| CompiledPrograms.LocalRuns | c/compiler.cpp:863-874 | a local's value stays where its initializer left it, which is its slot |
| CompiledPrograms.StmtRuns | c/compiler.cpp:882-1083 | the code of any statement has the effect of its tree |
| CompiledScripts.CompiledScriptRuns | c/compiler.cpp:1085-1104 | a script compiled without error finishes or fails with the globals and output of the tree evaluator, and does not stop while the tree has not ended |
| CompiledScripts.StoppedScriptsAreMeant | c/vm.cpp:921-1251 | and whenever the run of a compiled script stops, the tree ends with the same outcome |
| ScriptResults.NumbersCompute | c/vm.cpp:1091-1117 | compiled and run, each operator on numbers prints its result, operands in order |
| ScriptResults.OthersCompute | c/vm.cpp:1091-1117 | strings are joined in order, any values compared, and every other operand is a runtime error |
| ScriptResults.UnaryComputes | c/vm.cpp:1119-1130 | exactly nil and false are false; exactly numbers can be negated |
| ScriptResults.ShortCircuits | c/compiler.cpp:473-581 | `and` and `or` give the operand they should and do not evaluate the other |
| ScriptResults.BranchesRun | c/compiler.cpp:958-978 | `if` runs its first branch unless the condition is nil or false, and else its second |
| ScriptResults.ForLoopsRun | c/compiler.cpp:882-956 | a `for` loop tests, runs its body, then its step, and tests again, and its variable is gone afterwards |
| ScriptResults.GlobalsRun | c/vm.cpp:994-1007 | statements run in order and a global keeps its value |
| ScriptResults.UndefinedGlobalsErr | c/vm.cpp:988-1019 | reading or assigning an undefined global is a runtime error |
| ScriptResults.SumInBytes | c/chunk.h:8-46 | a script to the byte, operands by index and the operator behind them |
| ScriptResults.LogicInBytes | c/compiler.cpp:193-238 | and one with a jump, the high byte of its distance first |
| Declarations.TakenMeans | c/compiler.cpp:397-431 | a name is taken exactly when some local has it and no shallower initialized local lies above |
| Declarations.NotYet | c/compiler.cpp:320-334 | an expression that mentions the local being declared is rejected |
| Declarations.FaultyScriptsAreRejected | c/compiler.cpp:397-431 | no script compiles in which a scope declares a name twice or a local's initializer mentions the local |
| Declarations.TwiceInABlock | c/compiler.cpp:417-427 | the same spelled out for two declarations of one name anywhere in one block, wherever the block stands |
| Compiler.Compiler.EmitJump | c/compiler.cpp:193-198 | emits the instruction and a placeholder |
| Compiler.Compiler.PatchJump | c/compiler.cpp:228-238 | overwrites the placeholder with the distance to the end of the code, and reports an error exactly beyond 65535 |
| Compiler.Compiler.EmitLoop | c/compiler.cpp:180-188 | emits the distance back to the start, with the same limit |
| Compiler.Compiler.MakeConstant | c/compiler.cpp:211-219 | appends the constant and answers its index, or 0 and an error when there are 256 already |
| Compiler.Compiler.ResolveLocal | c/compiler.cpp:320-334 | finds the most nested local of that name, with an error when it is not initialized |
| Compiler.Compiler.DeclareVariable | c/compiler.cpp:397-431 | adds a local, and reports an error exactly when there are 256 already or a local of that name with no shallower one above it |
| Compiler.Compiler.EndScope | c/compiler.cpp:289-303 | drops the deeper locals and pops each |
| Compiler.Compiler.AndExpression | c/compiler.cpp:473-489 | patching in place gives the code of `and` |
| Compiler.Compiler.OrExpression | c/compiler.cpp:558-581 | patching in place gives the code of `or` |
| Compiler.Compiler.Expression | c/compiler.cpp:473-672 | emits exactly the expression's code and constants, and reports exactly its errors |
| Compiler.Compiler.IfStatement | c/compiler.cpp:958-978 | patching in place gives the code of `if` |
| Compiler.Compiler.WhileStatement | c/compiler.cpp:1004-1023 | patching in place gives the code of `while` |
| Compiler.Compiler.ForLoop | c/compiler.cpp:909-953 | patching in place, the exit last, gives the code of `for` |
| Compiler.Compiler.VarDeclaration | c/compiler.cpp:863-874 | a global is defined by name, a local by leaving its value on the stack |
| Compiler.Compiler.Statement | c/compiler.cpp:1065-1083 | emits exactly the statement's code, and reports exactly its errors |
| Compiler.Compiler.CompileScript | c/compiler.cpp:1085-1104 | answers the chunk if and only if no error was reported, and none for a script with a scope that declares a name twice or a local whose initializer mentions it |

## Left out

- Upvalues.Machine.SetUpvalue: writes to the logical stack; a write through OP_SET_UPVALUE to a slot below the base of A goes to a frozen layer in the source and is not modelled.
- CollectorCopying.CopyCKeepsInv: for an undark id with records in both B and C the source uses the flagged offset as an address; the contents of that clone are left open.
- StructMap.Amt.Insert: for keys above 0, as object ids are; value words are opaque, so an encoding of a value that clashes with the entry's tags is not modelled.
- Collisions.MergeBound: for layers that hold the same keys at the merge as when the insertions were tracked; a collection in between that drops keys is outside it.
- Collisions.ReservationSuffices: under the same condition on the keys beneath.
- ObjTable.Table.ConsolidationNodes: under the same condition on the keys beneath.
- Allocation.ReservedBytesSuffice: under the same condition on the keys beneath, for the table and for each map; the record layouts are parameters, with alignments up to a word.
- Marking.Marker.GrayObjectLeaves: takes the leaves of an object as a list; FrozenLeaves.LeavesMention says which list it is.
- CollectedCalls.Session.Execute: instructions do not reach below their frame's slots, a script is called alone on the stack and a collection starts while one runs, as compiled code and interpret see to.
- CompiledScripts.CompiledScriptRuns: for scripts without functions, classes and calls, from syntax trees; expressions are parsed from tokens in Pratt, but scanning, the parsing of statements, panic mode and line numbers are not modelled.
- CompiledScripts.StoppedScriptsAreMeant: for the same scripts.
- Compiler.Compiler.Expression: without calls, properties, upvalues, `this` and `super`.
- Compiler.Compiler.Statement: without `return`, functions and classes, and from a syntax tree in place of tokens.
- Compiler.Compiler.CompileScript: for the same scripts, from syntax trees.
- Compiler.Compiler.EndScope: no local is captured in these scripts, so none has to be closed.
- Pratt.ReadsTheGrammar: for expressions without calls, properties, `this` and `super`, which it refuses.
- De-duplication during condensation: it compares a single layer of an object and its order on functions is not antisymmetric; only the cloning path is modelled.
- The cb library: ring wrap-around, resizing, rewriting of registered pointers, mprotect and the search trees inside the tables; trees are maps and offsets grow without bound.
- PIN_SCOPE and values held only by C variables: the program's roots are the stack, frames, open upvalues, globals and initString.
- Uniqueness of interned strings across cycles, and the comparison of global names by contents: names are ids.
- Collection during compilation, which grays the whole table in the source, and the compiler's own roots.
- OP_INHERIT copies only the superclass's topmost layer; what a subclass inherits is not stated.
- Calls, closures and methods in the compiled subset; their stack discipline is in CallFrames, CollectedCalls and Upvalues, the last on its own.
- Stack overflow of the value stack, which the source does not check.
- Runtime error messages, printing, tracing, timing, natives, file input and the command line: input and output only.
