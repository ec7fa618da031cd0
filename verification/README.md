# Open MPI OPAL base layer: a verified model

This project models the hardest parts of the OPAL base layer of Open MPI and of its example TCP transport in Dafny, and proves properties of the models for all inputs, all runs and all reachable states:

* the datatype engine: building type maps with `opal_datatype_add`, committing and optimising descriptions, the whole-pass copy engine and the resumable pack engine;
* the lock-free FIFO and both lock-free LIFOs, for any number of threads and every interleaving;
* the red-black tree, with sentinel, parent links and both fix-up loops;
* the open-addressing hash table with cluster repair and growth, and the two-level process table built on it;
* the example TCP transport: simultaneous connect, the receive framing with its cache, the send queue, and the exhaustive interface assignment;
* Dijkstra on the adjacency-list graph, tree serialisation, and list splicing.

## How to read it

| file | what it holds |
|---|---|
| `Offsets.dfy`, `Description.dfy`, `Walk.dfy` | byte-offset sequences; flat descriptions and the nested programs they encode; the stack machine both engines run |
| `Rewrite.dfy`, `Optimize.dfy`, `OptimizeLimits.dfy` | what the optimiser makes of a description, as a function, and what that function keeps; the optimiser and commit; inputs beyond its limits |
| `Packing.dfy`, `Pack.dfy` | what packing puts into any sequence of buffers, as a function, on any description; the pack engine and its convertor |
| `Copy.dfy`, `Committed.dfy` | the copy engine; commit followed by either engine |
| `TypeAdd.dfy`, `Build.dfy` | adding a type to a type under construction; types built by any sequence of such calls, then committed and used |
| `History.dfy`, `Threads.dfy`, `Pointers.dfy`, `Fifo.dfy`, `CountedLifo.dfy`, `LockedLifo.dfy` | sequential histories, what the machines share, and one state machine per lock-free structure |
| `RbShape.dfy`, `RbBalance.dfy`, `RbSteps.dfy`, `RbInsert.dfy`, `RbDelete.dfy`, `RbTree.dfy` | trees and zippers spelled out in a cell store, balance, rotations, the two fix-ups, the tree |
| `HashSlots.dfy`, `HashTable.dfy`, `ProcTable.dfy` | probing and repair on slot sequences; the table on an array; the two-level table and its iterator |
| `Bytes.dfy`, `Handshake.dfy`, `Framing.dfy`, `Sending.dfy`, `Transport.dfy`, `Assignment.dfy` | the TCP transport |
| `ShortestPaths.dfy`, `TreeSerial.dfy`, `ListSplice.dfy` | graph, tree and list |
| `Wrappers.dfy` | `Option` |

The meaning of a description is `Offs(prog, marker)`: the byte offsets it transfers, in order. With `marker` a loop flagged contiguous is read through its end marker, as the copy engine and the fast path of the pack engine do; without it the loop body is walked. `Consistent` says that the two readings agree. `Opt` is the optimised description and `FillAll` the run of the pack engine over a sequence of buffers; the imperative optimiser and pack engine are proved to compute exactly these, and the main theorems are about them.

The lock-free structures are state machines with one transition per memory access of the source. `Do` performs a step of one thread; a ghost log records an event at the step where an operation takes effect. `Correct` is the linearizability statement: for every run the log replays on the sequential collection, each thread sees exactly its own part of the log, and the links in memory spell the abstract collection. `Answering` matches every call with one answer of its kind, and `AloneCall` says that a thread left alone returns within a stated number of steps with what the sequential operation does.

Sockets, memory, threads and callers appear as parameters: how many bytes each `readv` or `writev` moves, the spare fragment taken from the free list, the node taken from the free list of the tree, whether memory for a new or larger hash table is granted, the item codec of the tree, comparison and hash functions, which thread moves next, and when a `connect` completes.

## What does not hold, and exactly when it does

* The optimiser reckons the end of a pending entry from its size alone, so an entry with gaps that later bytes "touch" loses its gaps. The optimised description transfers the original bytes if and only if no entry is squeezed (`Rewrite.OptRewrites`, `Squeezes`); `OptimizeLimits.SqueezeLoses` is an input where it does not, and `Build.BuildGapped` builds it by calls of `opal_datatype_add`, whose one-entry short cut is where such entries come from (`LeavesGaps`). A copy of the committed type is right if and only if the bytes taken are the same set (`Copy.CopyExact`).
* When the first iteration of a gapped loop is folded into the bytes before it and at least three iterations remain, the kept loop has a moved end marker and an unmoved body. The two readings agree if and only if nothing is folded (`Folds`). A committed type is packed right for all memories and all sequences of buffers if and only if it is neither squeezed nor folded (`Committed.PackExact`); `OptimizeLimits.FoldBreaksResume` makes two pack calls of which the second receives the bytes at 4 where those at 12 are due.
* The one-entry short cut of `opal_datatype_add` multiplies the count of the entry. The type map is the old one followed by the copies if and only if not `Collapses`: the entry has several elements, several copies are added, and its extent is not zero. `Build.CollapseSeen` adds a resized type twice and gets 0, 1, 2, 3 where 0, 1, 1, 2 is due.
* An empty SEND frame is handed to the callback with the segment length of an earlier frame. A delivery is right if and only if the frame has a payload or that length is 0 (`Framing.RightExactly`); `Framing.LeftoverSeen` is a stream where it is wrong.
* `opal_hash_table_set_value_*` stores the entry before it grows the table. If growth fails the entry stays, an error is returned, and the table keeps a free slot, which every search needs to end, if and only if another one was left (`HashTable.HashTable.Set`); in `HashTable.FullAtOnce` the first entry takes the only slot.
* `opal_proc_table_set_value` releases a new inner table when entering it in the outer table reports an error, although the entry is there. No released table stays entered if and only if the outer table could grow or need not, the job was known, or no inner table could be made (`ProcTable.ProcTable.Set`); `ProcTable.DanglingSeen` is a call that leaves one.
* The 32-bit sum in `opal_graph_dijkstra` is the sum meant, for all distances, if and only if the weight is at most 0x80000000 (`ShortestPaths.ImprovesExactly`). The distances are right for every order of ties if and only if there is no heavy edge: u is no further than v, u can be reached at its distance without v, and 32 bits do not hold that distance and the weight of the edge (`ShortestPaths.DijkstraExact`). Reachability without v matters only where an edge has weight 0 (`ShortestPaths.HeavyWhenPositive`, and `ShortestPaths.FreeNotHeavy` for a graph where it does). `ShortestPaths.HeavySeen` runs the code on a graph where it is wrong in every order.
* The comment on `opal_fifo_push_atomic` promises that the returned item tells whether the FIFO was empty. The code returns the previous tail, which is the ghost if and only if the queue is empty and no pop is still settling (`Fifo.PushReports`); `Fifo.StaleTailSeen` is a run in which a push to an empty queue finds an item at the tail.
* The comment in `opal_datatype_add` says that any negative extent means the default one; the code tests for -1 only, and so does the model.

## Model

| member | source | states |
|---|---|---|
| Rewrite.OptRewrites | opal/datatype/opal_datatype_optimize.c:44-253 | for every description with no empty entry whose contiguous loops are what they claim, nested to any depth: the optimised description is no longer, transfers as many bytes, the same bytes in the same order exactly when no entry is squeezed, and its loop bodies agree with their end markers exactly when no first iteration is folded |
| Optimize.OptimizeShort | opal/datatype/opal_datatype_optimize.c:44-253 | the optimiser, with its stack, its pending run and its patched markers, writes exactly that description |
| Rewrite.SqueezeExact | opal/datatype/opal_datatype_optimize.c:207-242 | taking an entry with gaps for one without changes the byte sequence exactly when the condition checked on the description says so, through all loops |
| Optimize.DataEntry | opal/datatype/opal_datatype_optimize.c:207-242 | a data entry either extends the pending run by exactly its bytes or starts a new run after the old one is written out |
| Optimize.FullLoop | opal/datatype/opal_datatype_optimize.c:106-121 | a contiguous loop without gaps becomes one run of bytes that ends where the last iteration ends |
| Optimize.GappedLoop | opal/datatype/opal_datatype_optimize.c:121-166 | what is written for a contiguous loop with gaps, with or without merging its first iteration |
| Rewrite.GapOutFacts | opal/datatype/opal_datatype_optimize.c:121-166 | that output transfers the pending run followed by all iterations, and is consistent unless four or more iterations were folded |
| Rewrite.SmallItem | opal/datatype/opal_datatype_optimize.c:177-196 | what replaces a small loop transfers the bytes of the loop |
| Description.GetFirstNonLoop | opal/datatype/opal_datatype_internal.h:461-472 | the first data entry below any number of nested loop starts is found, and its displacement is where the type begins |
| Optimize.Commit | opal/datatype/opal_datatype_optimize.c:255-308 | both descriptions end in a marker with the size and the displacement of the first byte, an empty type gets no optimised description, and the optimised one is a rewriting of the original |
| OptimizeLimits.SqueezeLoses | opal/datatype/opal_datatype_optimize.c:210-217 | a description whose optimised form transfers bytes 0, 1, 2 in place of 0, 4, 2 |
| OptimizeLimits.RegularKept | opal/datatype/opal_datatype_optimize.c:207-242 | a description without gapped entries is never squeezed |
| OptimizeLimits.FoldBreaksResume | opal/datatype/opal_datatype_optimize.c:156-165 | two pack calls on one committed type: the second receives the bytes at 4 where those at 12 are due |
| Walk.EndOfLoop | opal/datatype/opal_datatype_pack.c:325-355 | the end-marker step of the engines keeps the stack aligned with the description, transfers nothing and leaves exactly what was still due |
| Walk.Control | opal/datatype/opal_datatype_copy.h:205-247 | the same for entering and ending loops of either kind, with a measure that shrinks at each step |
| Copy.PredefinedData | opal/datatype/opal_datatype_copy.h:36-77 | the elements of an entry are copied byte for byte, nothing else in the destination changes, and the remaining length drops by their size |
| Copy.ContiguousLoop | opal/datatype/opal_datatype_copy.h:79-113 | the same for all iterations of a contiguous loop |
| Copy.CopyWalk | opal/datatype/opal_datatype_copy.h:176-249 | walking the description with the explicit stack copies exactly the bytes of count elements and ends with no length left |
| Copy.CopyContent | opal/datatype/opal_datatype_copy.h:115-249 | so do the contiguous and the contiguous-with-gaps paths |
| Copy.CopyExact | opal/datatype/opal_datatype_copy.h:115-249 | copying one byte sequence is as good as copying another, for all buffers, exactly when both are the same set of bytes |
| Pack.PackPredefined | opal/datatype/opal_datatype_pack.h:29-73 | as many whole elements as fit are packed; if some are left, less space than one element is |
| Pack.PackContiguousLoop | opal/datatype/opal_datatype_pack.h:75-102 | as many whole iterations as fit are packed |
| Pack.Turn | opal/datatype/opal_datatype_pack.c:312-377 | one turn packs what the turn of the specification packs and stands where that stands, on any description |
| Packing.FillAllSplit | opal/datatype/opal_datatype_pack.c:295-395 | a run over some buffers and then others is the run over all of them, so how buffers are spread over calls makes no difference |
| Packing.AllRight | opal/datatype/opal_datatype_pack.c:270-395 | on a description whose two readings agree, every sequence of buffers receives a prefix of the one-shot sequence, and all of it when packing is done |
| Packing.BothReadings | opal/datatype/opal_datatype_pack.c:357-375 | on any description some buffers make the engine read every loop through its end marker and others make it read every loop through its body |
| Pack.FillBuffer | opal/datatype/opal_datatype_pack.c:310-380 | one buffer receives what the specification puts in it; unless everything is packed it is full up to less than one basic element |
| Pack.FillBuffers | opal/datatype/opal_datatype_pack.c:309-384 | so do several buffers in a row, and the saved position resumes where they end |
| Pack.Convertor.constructor | opal/datatype/opal_convertor.c:376-405 | the initial stack stands for the start of packing count elements of any description, folded ones included |
| Pack.Convertor.Pack | opal/datatype/opal_datatype_pack.c:270-395 | for any buffers a call packs the bytes of the specified run, counts them in bConverted, fills every buffer but for less than an element, and returns 1 exactly when packing is done |
| Pack.PackRun | opal/datatype/opal_datatype_pack.c:270-395 | any sequence of calls packs what their buffers would receive in one run |
| Committed.Prepare | opal/datatype/opal_datatype_copy.h:183-187 | the description the engines walk is a rewriting of the one that was built |
| Committed.CopyCommitted | opal/datatype/opal_datatype_copy.h:115-249 | commit followed by copy transfers the bytes as the optimiser takes them, which are those of the type map that was built when both are the same set, as for every type no entry of which is squeezed |
| Committed.PackExact | opal/datatype/opal_datatype_pack.c:270-395 | a committed type is packed right, for all memories and all sequences of buffers, exactly when it is neither squeezed nor folded |
| Committed.PackCommitted | opal/datatype/opal_convertor.c:500-512 | commit followed by any sequence of pack calls, on any type, packs what the run on the optimised description packs; for a type neither squeezed nor folded that is a prefix of the type map that was built, and all of it once a call returns 1 |
| TypeAdd.Datatype.constructor | opal/datatype/opal_datatype_create.c:31-58 | a new type is empty and can be added to |
| TypeAdd.Datatype.Add | opal/datatype/opal_datatype_add.c:103-375 | the new type map is the old one followed by count shifted copies exactly when the short cut does not collapse, and then the size counts its bytes, the true bounds are its least byte and one past its greatest, contiguous means one ascending interval without gaps, and bounds enclose the bytes; the new bounds, alignment and user flags for data, markers and zero counts |
| TypeAdd.ExtentUsed | opal/datatype/opal_datatype_add.c:122-122 | an extent is used as given, and -1 stands for that of the added type |
| TypeAdd.MarkersPrevail | opal/datatype/opal_datatype_add.c:124-149 | of any sequence of lower markers the least prevails, of upper ones the greatest, and nothing else changes |
| TypeAdd.GrownElements | opal/datatype/opal_datatype_add.c:255-366 | nbElems stays the number of basic elements the description stands for |
| TypeAdd.PieceDescribes | opal/datatype/opal_datatype_add.c:281-348 | the entries written describe the copies exactly when not collapsed, and have gaps exactly when the short cut leaves them |
| TypeAdd.UpdateBounds | opal/datatype/opal_datatype_add.c:189-232 | how user bounds prevail, and that an upper bound nobody set is raised to the alignment and by less than one alignment unit |
| TypeAdd.SpanOf | opal/datatype/opal_datatype_add.c:160-173 | the bounds of all copies, for positive and negative extents |
| TypeAdd.CopiesReach | opal/datatype/opal_datatype_add.c:160-173 | those bounds are the least beginning and the greatest end of any copy |
| TypeAdd.StillEnclosing | opal/datatype/opal_datatype_add.c:160-232 | bounds and true bounds so computed enclose the bytes of the result |
| TypeAdd.Collapse | opal/datatype/opal_datatype_add.c:312-317 | multiplying the count of an entry equals repeating it exactly when it has one element, is repeated once, or does not advance |
| TypeAdd.NewEntries | opal/datatype/opal_datatype_add.c:281-348 | the three ways of writing write exactly those entries |
| TypeAdd.LoopEntries | opal/datatype/opal_datatype_add.c:318-346 | copying and shifting the entries of the added type inside a new loop writes the shifted description in a loop |
| TypeAdd.ShiftOffs | opal/datatype/opal_datatype_add.c:331-340 | shifting every displacement of a description shifts its byte sequence |
| TypeAdd.Appended | opal/datatype/opal_datatype_add.c:255-366 | the fields computed for the result agree with its type map |
| Build.AddAll | opal/datatype/opal_datatype_add.c:103-375 | any sequence of calls that neither collapse nor leave gaps composes the type map |
| Build.CopyBuilt | opal/datatype/opal_datatype_copy.h:115-249 | committed and copied, such a type transfers exactly the type map that was composed |
| Build.BuildGapped | opal/datatype/opal_datatype_add.c:312-317 | calls that build the description which is squeezed |
| Build.CollapseSeen | opal/datatype/opal_datatype_add.c:312-317 | calls that build a type map of 0, 1, 2, 3 where 0, 1, 1, 2 is due |
| History.InOrder | opal/class/opal_fifo.h:81-178 | items leave a first-in first-out history in the order they were added, each once |
| History.Conserved | opal/class/opal_lifo.h:111-157 | whatever is taken or left in a history was added, each as often as it was added |
| Fifo.StepInv | opal/class/opal_fifo.h:85-178 | every step of every thread keeps the shape of the links, the ends, and what each other thread relies on, including the window where head is the ghost and tail is not |
| Fifo.StepLinearized | opal/class/opal_fifo.h:85-178 | every step keeps the log a correct sequential history that explains what each thread has seen |
| Fifo.Correct | opal/class/opal_fifo.h:85-178 | for any number of threads and any run: push takes effect at the tail update, pop at the head update, NULL is returned only at a moment when the queue is empty, and items leave in push order exactly once |
| Fifo.Answering | opal/class/opal_fifo.h:85-178 | in every run a thread has exactly one answer for each call but the one it is in, a push its own item added and a pop an item taken or none there |
| Fifo.AloneEnds | opal/class/opal_fifo.h:92-178 | from every reachable state a thread that is left alone returns within 12 steps |
| Fifo.AloneCall | opal/class/opal_fifo.h:85-178 | a call made when nobody is operating returns, alone, within 9 steps and does to the queue what the sequential operation does |
| Fifo.PushThenPop | opal/class/opal_fifo.h:85-178 | push and then pop, alone: what comes back is the first of the queue with the item at its end |
| Fifo.Quiescent | opal/class/opal_fifo.h:85-178 | when no operation is under way head, tail and links describe the queue completely |
| Fifo.CasGuards | opal/class/opal_fifo.h:133-142 | when the compare-and-set of a pop finds the head unchanged the queue is not empty and that item is its first |
| Fifo.PushReports | opal/class/opal_fifo.h:81-111 | the returned item is the ghost exactly when the queue is empty and no pop is settling |
| Fifo.StaleTailSeen | opal/class/opal_fifo.h:81-178 | a run of three threads after which a push to an empty queue has found an item at the tail |
| CountedLifo.StepSafe | opal/class/opal_lifo.h:115-157 | every step keeps the stack of links and what each other thread relies on; a successful pop installs the true successor |
| CountedLifo.StepLinearized | opal/class/opal_lifo.h:115-157 | every step keeps the log a correct last-in first-out history |
| CountedLifo.Correct | opal/class/opal_lifo.h:115-157 | for any number of threads and any run the counted-pointer LIFO is linearizable, and every item is popped at most as often as it was pushed |
| CountedLifo.Answering | opal/class/opal_lifo.h:115-157 | in every run a thread has exactly one answer of the right kind for each call but the one it is in |
| CountedLifo.AloneEnds | opal/class/opal_lifo.h:115-157 | from every reachable state a thread that is left alone returns within 8 steps |
| CountedLifo.AloneCall | opal/class/opal_lifo.h:115-157 | a call made when nobody is operating returns, alone, within 5 steps and does to the stack what the sequential operation does |
| CountedLifo.PushThenPop | opal/class/opal_lifo.h:115-157 | push and then pop, alone, gives the item back and leaves the stack as it was |
| LockedLifo.StepSafe | opal/class/opal_lifo.h:165-264 | every step keeps the stack of links, and that an item is locked while a thread holds it |
| LockedLifo.StepLinearized | opal/class/opal_lifo.h:165-264 | every step keeps the log a correct last-in first-out history |
| LockedLifo.Correct | opal/class/opal_lifo.h:165-264 | for any number of threads and any run the item_free variant is linearizable without a counter, and every item is popped at most as often as it was pushed |
| LockedLifo.Answering | opal/class/opal_lifo.h:165-264 | in every run a thread has exactly one answer of the right kind for each call but the one it is in |
| LockedLifo.StepOwned | opal/class/opal_lifo.h:165-264 | in every step: an item on the stack is locked only while an operation that is still to unlock it holds it |
| LockedLifo.AloneEnds | opal/class/opal_lifo.h:165-264 | from every reachable state a thread that is left alone returns within 9 steps |
| LockedLifo.AloneCall | opal/class/opal_lifo.h:165-264 | a call made when nobody is operating returns, alone, within 5 steps and does to the stack what the sequential operation does |
| LockedLifo.PushThenPop | opal/class/opal_lifo.h:165-264 | push and then pop, alone, gives the item back and leaves the stack as it was |
| RbSteps.Rotate | opal/class/opal_rb_tree.c:483-536 | both rotations, in a store of cells with parent links and sentinels, turn the tree at a node into the rotated one and leave everything around it linked |
| RbInsert.Settle | opal/class/opal_rb_tree.c:150-158 | the black-uncle case ends the violation and keeps the contents |
| RbInsert.Fixup | opal/class/opal_rb_tree.c:142-178 | the recolour-and-rotate loop ends, with no red node below a red one, equal black heights and the same contents |
| RbDelete.BlackSibling | opal/class/opal_rb_tree.c:362-369 | a red sibling is lifted so that the new sibling is black, keeping what is missing |
| RbDelete.MoveUp | opal/class/opal_rb_tree.c:370-372 | with two black nephews the missing black moves up one level |
| RbDelete.Supply | opal/class/opal_rb_tree.c:373-385 | otherwise the missing black is supplied and the whole tree is red-black again |
| RbDelete.Fixup | opal/class/opal_rb_tree.c:357-416 | the loop ends, also when the cached root is no longer the root, with a red-black tree of the same contents |
| RbTree.FindNode | opal/class/opal_rb_tree.c:206-223 | the node found has an equal key; if none is found everything to the left is smaller and everything to the right larger |
| RbTree.Attach | opal/class/opal_rb_tree.c:324-354 | the new red node goes where everything before it is smaller and nothing after it is |
| RbTree.Successor | opal/class/opal_rb_tree.c:297-318 | the first node of the right subtree is found |
| RbTree.Splice | opal/class/opal_rb_tree.c:243-259 | a node with at most one child is replaced by it, with parent links, the sentinel included |
| RbTree.DeleteHere | opal/class/opal_rb_tree.c:237-272 | removing a node with at most one child removes its entry only and keeps the tree red-black |
| RbTree.DeleteBelow | opal/class/opal_rb_tree.c:237-272 | removing a node by copying its successor into it does so too |
| RbTree.RedBlackTree.constructor | opal/class/opal_rb_tree.c:81-116 | sentinels and empty contents |
| RbTree.RedBlackTree.Find | opal/class/opal_rb_tree.c:183-201 | a value with an equal key is found if there is one |
| RbTree.RedBlackTree.Insert | opal/class/opal_rb_tree.c:120-180 | for every key, duplicates included, exactly the given pair joins the in-order contents, before all equal keys, and all tree invariants hold; without a node nothing changes |
| RbTree.RedBlackTree.Delete | opal/class/opal_rb_tree.c:226-273 | exactly one entry with an equal key leaves the in-order contents, one node is freed, and all tree invariants hold; if there is none, nothing changes |
| HashSlots.NotFound | opal/class/opal_hash_table.c:353-364 | a probe from the home slot that meets a free slot proves the key absent |
| HashSlots.MovedDown | opal/class/opal_hash_table.c:291-312 | moving a misplaced element to the first free slot on its way repairs it without opening a gap for any other, across wrap-around |
| HashSlots.Repaired | opal/class/opal_hash_table.c:291-312 | when the scan meets a free slot every element can be reached from its home slot |
| HashSlots.FreeSlot | opal/class/opal_hash_table.c:161-179 | a table with fewer entries than slots has a free slot |
| HashTable.RoundUp | opal/class/opal_hash_table.c:152-156 | the rounded capacity is the next number that is 1 modulo 30 |
| HashTable.Capacity | opal/class/opal_hash_table.c:161-252 | the capacity is the base scaled and rounded up, larger than the base, and the trigger stays below it |
| HashTable.Rehash | opal/class/opal_hash_table.c:225-248 | every entry of the old table is in the new one, reachable, and nothing else is |
| HashTable.FindPlace | opal/class/opal_hash_table.c:298-311 | the first free slot on the way from the home slot, or the element's own |
| HashTable.RepairOne | opal/class/opal_hash_table.c:291-312 | one turn of the repair loop extends the repaired stretch by one slot and keeps the map |
| HashTable.Repair | opal/class/opal_hash_table.c:263-315 | the repair loop ends at a free slot, with no element lost or duplicated and all reachable |
| HashTable.HashTable.constructor | opal/class/opal_hash_table.c:161-179 | an empty table with a free slot for any estimate, of exactly the rounded capacity |
| HashTable.HashTable.Probe | opal/class/opal_hash_table.c:353-364 | every search ends, at the key's slot or at a free slot |
| HashTable.HashTable.Get | opal/class/opal_hash_table.c:333-366 | the value the map holds, or not found |
| HashTable.HashTable.Set | opal/class/opal_hash_table.c:369-413 | the map gains exactly this entry, whether or not growth succeeds; the result says whether it did; a free slot is left exactly when memory was granted, the key was known, or one more was free; the table grows exactly when a new entry reaches the trigger and memory is granted |
| HashTable.FullAtOnce | opal/class/opal_hash_table.c:369-413 | a table whose only slot is taken by the first entry when memory to grow is refused |
| HashTable.HashTable.Grow | opal/class/opal_hash_table.c:208-256 | the same map in a table of exactly the grown capacity, with its trigger |
| HashTable.HashTable.RemoveAt | opal/class/opal_hash_table.c:263-315 | exactly the entry of that slot leaves the map |
| HashTable.HashTable.Remove | opal/class/opal_hash_table.c:416-447 | exactly this key leaves the map, and success is reported exactly when it was there |
| HashTable.HashTable.RemoveAll | opal/class/opal_hash_table.c:189-205 | the map is empty |
| HashTable.NextUsed | opal/class/opal_hash_table.c:758-773 | the first used slot from a position on |
| ProcTable.ProcTable.constructor | opal/class/opal_hash_table.c:873-880 | no name is present |
| ProcTable.ProcTable.Get | opal/class/opal_hash_table.c:904-914 | the value of the name, or not found |
| ProcTable.ProcTable.Set | opal/class/opal_hash_table.c:916-936 | with any memory granted or refused: when the value is stored, and then exactly this name changes; what is returned; when a released inner table stays entered; and exactly when the table stays usable |
| ProcTable.DanglingSeen | opal/class/opal_hash_table.c:929-931 | a call after which a released inner table is still entered |
| ProcTable.ProcTable.Remove | opal/class/opal_hash_table.c:938-951 | exactly this name leaves, the result says whether it was there, and no inner table is left empty |
| ProcTable.NextKey | opal/class/opal_hash_table.c:969-993 | the next occupied place in the order of slots, none skipped |
| ProcTable.FirstFrom | opal/class/opal_hash_table.c:953-967 | the first occupied place from an outer slot on |
| ProcTable.VisitAll | opal/class/opal_hash_table.c:953-993 | iterating visits each name of the table exactly once and nothing else |
| Handshake.Decision | contrib/build-mca-comps-outside-of-tree/btl_tcp2_endpoint.c:338-381 | in every reachable state the process with the larger name accepts an incoming connection, the other exactly when it has none |
| Handshake.StepInv | contrib/build-mca-comps-outside-of-tree/btl_tcp2_endpoint.c:338-405 | every step of either side keeps the invariant between sockets, phases and the fate of each connection |
| Handshake.OneConnection | contrib/build-mca-comps-outside-of-tree/btl_tcp2_endpoint.c:531-685 | in every run with distinct names, if one endpoint is connected the other uses the same connection |
| Handshake.StaysConnected | contrib/build-mca-comps-outside-of-tree/btl_tcp2_endpoint.c:338-405 | no later step takes a connected endpoint off its connection |
| Handshake.SmallerWins | contrib/build-mca-comps-outside-of-tree/btl_tcp2_endpoint.c:338-381 | a connection opened by the process with the smaller name is never rejected and is the one it uses |
| Handshake.Nearer | contrib/build-mca-comps-outside-of-tree/btl_tcp2_endpoint.c:338-405 | every handler but the one that opens a connection lowers a measure of the state, so only finitely many run between two attempts |
| Handshake.EndsJoined | contrib/build-mca-comps-outside-of-tree/btl_tcp2_endpoint.c:338-685 | in every run with distinct names in which a process has started to connect, when no handler can run any more both endpoints are connected by one connection |
| Handshake.CanJoin | contrib/build-mca-comps-outside-of-tree/btl_tcp2_endpoint.c:338-685 | that end can be reached from wherever the handshake has got, within the measure |
| Framing.ParseFlat | contrib/build-mca-comps-outside-of-tree/btl_tcp2_frag.c:149-285 | the simple parse of concatenated frames is their payloads followed by the parse of the rest |
| Framing.ReadV | contrib/build-mca-comps-outside-of-tree/btl_tcp2_frag.c:187-240 | one readv moves as many bytes as offered, wanted and cacheable, and loses or reorders none |
| Framing.Uncache | contrib/build-mca-comps-outside-of-tree/btl_tcp2_frag.c:158-183 | bytes from the cache come first and in order, and a payload is left in place exactly when all of it is there |
| Framing.FragRecv | contrib/build-mca-comps-outside-of-tree/btl_tcp2_frag.c:149-285 | for any amounts read, the fragment is one complete frame, whose payload is unchanged in the cache if it was not copied, or waits for more with an empty cache; fragment, cache and network together hold the same bytes as before; and both passes read what they are offered |
| Framing.Drain | contrib/build-mca-comps-outside-of-tree/btl_tcp2_endpoint.c:706-735 | the handler consumes complete frames until no byte is cached, delivers each once and in order, from the cache where it was left in place, loses no byte, and takes from the socket at least what the first read is offered |
| Framing.Endpoint.Handle | contrib/build-mca-comps-outside-of-tree/btl_tcp2_endpoint.c:658-735 | over any calls and any chunking, what was delivered is what the frames received so far call for, the cache is empty whenever the handler returns, and a call that may read something takes something |
| Framing.Endpoint.SameAsParse | contrib/build-mca-comps-outside-of-tree/btl_tcp2_frag.c:149-285 | at every moment the deliveries match the simple header-then-body parse of the bytes taken from the stream |
| Framing.ReceiveAll | contrib/build-mca-comps-outside-of-tree/btl_tcp2_endpoint.c:658-735 | calls in which something is read end with the whole stream read and the deliveries of its simple parse |
| Framing.RightExactly | contrib/build-mca-comps-outside-of-tree/btl_tcp2_frag.c:243-262 | a delivery is the frame's payload exactly when the payload is not empty or the segment was left with length 0 |
| Framing.LeftoverSeen | contrib/build-mca-comps-outside-of-tree/btl_tcp2_frag.c:243-262 | a stream of two frames whose empty second one is delivered with length 1 |
| Sending.Advance | contrib/build-mca-comps-outside-of-tree/btl_tcp2_frag.c:131-146 | after a partial write the vectors hold exactly the bytes not written, and are all gone exactly when everything was |
| Sending.FragSend | contrib/build-mca-comps-outside-of-tree/btl_tcp2_frag.c:101-147 | the wire grows by exactly the bytes that leave the fragment, as many as writev takes, and done means all of them |
| Sending.Sender.constructor | contrib/build-mca-comps-outside-of-tree/btl_tcp2_endpoint.c:69-88 | nothing submitted, nothing sent |
| Sending.Sender.Connect | contrib/build-mca-comps-outside-of-tree/btl_tcp2_endpoint.c:413-432 | connecting promotes the first queued fragment and keeps order and content |
| Sending.Sender.Submit | contrib/build-mca-comps-outside-of-tree/btl_tcp2_endpoint.c:238-282 | a fragment submitted before or after the connection is sent after all earlier ones, written at once exactly when it has priority and nothing is before it, and completed at once exactly when writev then takes all of it |
| Sending.Sender.Handle | contrib/build-mca-comps-outside-of-tree/btl_tcp2_endpoint.c:760-803 | for any partial writes the wire stays a prefix of the submitted bytes in order, each fragment is completed once and in order, and an idle endpoint has sent everything; a call that may write something makes progress, and one in which writev takes everything leaves nothing |
| Sending.SendAll | contrib/build-mca-comps-outside-of-tree/btl_tcp2_endpoint.c:760-803 | calls in which something is written end with everything submitted on the wire and complete |
| Transport.Delivered | contrib/build-mca-comps-outside-of-tree/btl_tcp2_endpoint.c:658-803 | once the sender is idle and the receiver has read the wire, the receiver has been given one delivery per submitted frame, in order, matching its payload, and each frame was completed once |
| Transport.Transfer | contrib/build-mca-comps-outside-of-tree/btl_tcp2_endpoint.c:658-803 | whatever was submitted and whatever each writev and readv moves, as long as it is something: the peer is given every fragment, in order |
| Assignment.ScoreExact | contrib/build-mca-comps-outside-of-tree/btl_tcp2_proc.c:174-189 | the score counts the pairs of positive weight and adds up their weights |
| Assignment.Rate | contrib/build-mca-comps-outside-of-tree/btl_tcp2_proc.c:174-189 | the loop computes that score |
| Assignment.Search.Evaluate | contrib/build-mca-comps-outside-of-tree/btl_tcp2_proc.c:174-204 | the best assignment so far is kept, by cardinality and then by weight |
| Assignment.Search.Visit | contrib/build-mca-comps-outside-of-tree/btl_tcp2_proc.c:206-220 | every completion of the partial assignment is evaluated and the array is restored |
| Assignment.Search.Run | contrib/build-mca-comps-outside-of-tree/btl_tcp2_proc.c:590-594 | for every size every permutation is evaluated and the array is zero again |
| Assignment.Optimal | contrib/build-mca-comps-outside-of-tree/btl_tcp2_proc.c:174-220 | what is left is a permutation, and none joins more pairs of positive weight, or as many with a larger total |
| ShortestPaths.ImprovesExactly | opal/class/opal_graph.c:739-741 | the 32-bit comparison is the one meant, for all distances, exactly when the weight is at most 0x80000000 |
| ShortestPaths.AdjacentExact | opal/class/opal_graph.c:408-429 | the weight between two vertices is 0 for the same one, that of the first edge in the list that leads there, and infinity without one |
| ShortestPaths.Outside | opal/class/opal_graph.c:722-745 | no path to an unsettled vertex is shorter than the least waiting distance |
| ShortestPaths.Settle | opal/class/opal_graph.c:722-745 | no path to any waiting vertex is shorter than the first waiting distance |
| ShortestPaths.NoWrap | opal/class/opal_graph.c:722-745 | a wrong distance from a sum that wrapped is never made good |
| ShortestPaths.LightGood | opal/class/opal_graph.c:722-745 | without a heavy edge every run has right distances for what is settled, after every turn and in every order of ties |
| ShortestPaths.HeavyWrong | opal/class/opal_graph.c:722-745 | with a heavy edge some order of ties ends with a wrong distance |
| ShortestPaths.DijkstraExact | opal/class/opal_graph.c:722-745 | every order of ties gives right distances exactly when there is no heavy edge |
| ShortestPaths.HeavyWhenPositive | opal/class/opal_graph.c:736-741 | without edges of weight 0 an edge is heavy exactly when its start is no further than its end and the sum leaves 32 bits |
| ShortestPaths.FreeNotHeavy | opal/class/opal_graph.c:736-741 | a graph with an edge of weight 0 where that condition alone would be too strict |
| ShortestPaths.BothWays | opal/class/opal_graph.c:736-741 | heavy edges both ways between vertices equally far make every run wrong |
| ShortestPaths.RelaxAll | opal/class/opal_graph.c:730-742 | one relaxation of all waiting vertices, settled ones untouched |
| ShortestPaths.Dijkstra | opal/class/opal_graph.c:677-754 | for every graph the answer is that of a run, with every vertex but the source once; without a heavy edge nearest first, each with the smaller of infinity and its least path weight; an unknown source reports nothing |
| ShortestPaths.HeavySeen | opal/class/opal_graph.c:677-754 | a call on a graph where two vertices no path reaches are not both reported as such, in any order of ties |
| TreeSerial.AddToBuffer | opal/class/opal_tree.c:402-445 | the bracketed form of an item, its subtree and, below the top level, its later siblings is appended |
| TreeSerial.Serialize | opal/class/opal_tree.c:450-465 | only the subtree of the start item is written, and the end mark follows |
| TreeSerial.AddChild | opal/class/opal_tree.c:184-217 | the child becomes the last one of its parent, all sibling and parent links of all items are sound, and the count rises by one |
| TreeSerial.ReadItem | opal/class/opal_tree.c:467-515 | parsing one item appends a subtree equal in shape, order and data and consumes exactly its part of the stream |
| TreeSerial.Deserialize | opal/class/opal_tree.c:520-530 | for every tree and every codec that round-trips: parsing the stream under a parent appends one equal subtree, consumes exactly the stream, and raises the count by its size |
| TreeSerial.Copy | opal/class/opal_tree.c:557-570 | serialising and parsing under another parent copies the subtree |
| ListSplice.Transfer | opal/class/opal_list.c:166-193 | the link changes of a transfer, none if the range already stands before the position |
| ListSplice.WithinRing | opal/class/opal_list.c:166-193 | moving a range within a ring gives the ring with the range moved, linked both ways |
| ListSplice.BetweenRings | opal/class/opal_list.c:166-193 | moving a range to another ring gives two rings, linked both ways |
| ListSplice.SplicedSound | opal/class/opal_list.c:212-234 | all lists, also those not involved, are sound rings with the spliced contents |
| ListSplice.Count | opal/class/opal_list.c:219-226 | the counting loop ends with the length of the range |
| ListSplice.Lists.Join | opal/class/opal_list.c:197-208 | all items of the other list go before the position, it is left empty, and stored lengths are right |
| ListSplice.Lists.Splice | opal/class/opal_list.c:212-234 | for a valid range and a position outside it, in the same or another list: contents are the spliced sequences, both rings are sound, and stored lengths are right |

## Left out

- Pack.Convertor.Pack: does not model the stores through iovec pointers; a buffer is the sequence of bytes put in it, and the user memory is a function from displacements to bytes.
- Fifo.Correct: does not model weak memory ordering, torn 128-bit reads or wrap-around of the counter; each access of the source is one atomic step.
- CountedLifo.Correct: does not model weak memory ordering or wrap-around of the counter.
- LockedLifo.Correct: does not model weak memory ordering or the pause between retries.
- Progress of threads that disturb one another, which depends on the scheduler; a thread left alone is shown to return.
- Handshake.OneConnection: does not model failed sockets, the failed state or a close by the user; the only closes are those of accept and reject.
- Framing.Endpoint.Handle: does not model PUT and GET frames, socket errors, or a free list without fragments.
- Sending.Sender.Handle: does not model socket errors and reconnection with a half-sent fragment.
- TreeSerial.Deserialize: does not model streams that are no serialised tree, nor errors of the buffer.
- TypeAdd.Datatype.Add: does not model overflow of 32-bit counts and of size_t; displacements stay between the initial true bounds, which the source takes from the limits of long.
- ProcTable.ProcTable.Set: inner tables are values held in the outer table, so no aliasing between them is modelled; a released one is a name in a ghost set.
- RbTree.RedBlackTree.Insert: does not model the free list itself; a node is given or not, and nodes are cells of a store rather than heap objects.
- ListSplice.Lists.Splice: does not model the debug reference counts; items are numbered and links are maps, so aliasing is equality of numbers.
- ShortestPaths.Dijkstra: does not model `qsort` itself; any order that sorts by distance will do, and the model sorts by insertion.
- Unpack and position functions, so no pack and unpack round trip; checksums; NULL-buffer and contiguous variants of pack; heterogeneous conversion; the overlapping copy path.
- The optimiser's type counts and the capacity of its stack; the `btypes` array of a datatype.
- The FIFO for machines without a 128-bit compare-and-set, the LIFO with load-linked and store-conditional, and the single-threaded versions, which are the sequential histories.
- `opal_rb_tree_destroy`, traversal and searching with another comparison; they would add easy members.
- Ownership of pointer keys, key-type checks of debug builds, and `opal_proc_table_remove_all`.
- Removing tree items and subtrees, comparing trees, and searching in descendants.
- Graph construction and removal, `opal_graph_spf`, and duplication.
- List insertion by index and sorting.
- The fallback assignment for many interfaces, address comparison, and everything else in the interface set-up.
- MCA parameters, the event library, locks, the modex, and the remaining classes of the base layer.
