# A verified model of PathArmor's LBR analyser and kernel module

PathArmor protects a program by checking the CPU's last-branch record (LBR) against the
program's control-flow graph (CFG). This project models its three parts in Dafny.

**The analyser.** A graph of basic blocks and typed edges is simplified once: internal edges are
hidden and replaced by fastpaths (`Collapse`, `Simplify`). Edges that turn out to be allowed are
added to the simplified graph (`LateEdges`). For each LBR a forward search looks for
a walk whose visible edges are the recorded ones (`PathSearch`, `Validation`,
`Analyser`, `MatchingLoses`). A static backward
search enumerates all LBR states that can precede a library call, window by window
(`StaticPaths`, `CycleCut`, `Scheduling`, `StaticSearch`), and keeps them in an indexed set (`StateSet`). The
call/return matching of the two searches is compared in `CallMatching`. `LbrCleanup` is the
in-place clean-up of the circular LBR before validation.

**The kernel module.** One LBR per CPU is shared by many processes through a slot cache, and
library, callback and signal frames save return addresses and LBR images on bounded stacks
(`Lbr`, `SlotTable`, `KernelSteps`). `PrivateMachine` is what this should look like: every process
has its own LBR and its own stack of frames. `StackTables` and `Refinement` prove the refinement
over whole runs; `RecordingInvariant` and `FrameNesting` derive when branches are recorded and what
an exit brings back; `KernelCode` is the code, with its loops over arrays.

**The validator and the daemon.** `Validator` is the mutex, semaphore and digest-cache protocol as
interleaved steps.

## Results in short

* Collapsing never adds behaviour, and it preserves behaviour for every start block and every
  record if and only if no block is stranded, that is, outside the collapsed functions, robbed of
  its internal edges by a neighbour's search, and in need of them to reach another block's visible
  edge. Such a block loses a record (`Collapse.StrandedLoses`). Visible edges added afterwards keep
  this so if and only if each starts at a block that was an exit or that no other collapsed block
  reaches.
* The forward search accepts only realisable records, and the cap on visits per edge loses nothing.
  It accepts all realisable records when call/return matching is compiled out, and also with matching
  when the record holds no return and all call sites have fall-through blocks. With matching and
  returns in the record, a walk that no other return and no other way to the next record disturbs is
  accepted if and only if its calls and returns match; a disturbed one can be rejected although they
  match (`MatchingLoses`).
  Composed: searching the simplified graph decides realisability in the original graph.
* The static search terminates and stores exactly the states recorded by the legal backward paths
  from the blocks within reach, which it schedules breadth first, each with its least shift. Legal
  paths are the genuine ones (connected, consistent, ending for the first time) without a direct
  cycle. Cutting direct cycles loses no state when no direct cycle contains a call; the comment in
  the source claims it without that condition, and a directly recursive function is a counterexample
  (`CycleCut.RecursionLosesState`).
* The backward level-counting scan and the forward stack replay accept the same paths.
* Over every run of branches, library calls, callbacks, signals, context switches, forks and exits
  within the array sizes, the kernel module gives the replies of the private machine, and every process
  finds the branches of its own LBR, up to the flag bits. The sizes are exact: a save loses the LBR
  if and only if the cache is full, an enter or a fork kills if and only if a stack or an array is
  full, and an exit kills if and only if no frame of its kind is open.
* From boot, recording is on exactly in target code in every state along a run, if and only if every
  library return of the run goes back to target code.
* In every interleaving of all tasks, each exit yields the return address of its matching enter, also
  in children forked in between, and leaving a callback or signal frame brings back the LBR of the
  enter. Leaving a library call finds the LBR of the call if no branch was recorded in library code
  meanwhile; otherwise its top has moved by the number of those branches.
* In every interleaving of validators and daemon at most one request is outstanding, each validator
  gets the answer for its own LBR, none leaves without an answer or a remembered digest, some step is
  always possible, and the lock is released at the
  latest by the ninth step that is not an arrival.
* The digest cache forgets everything when it wraps: after n insertions a lookup matches exactly the
  last n mod 512. Digests of LBRs that the daemon called invalid (0) or unsupported (2) are cached
  like valid ones, as in the code.

The graph is a value: outgoing and incoming edges per block, in the order in which the source's
pointer sets iterate, which is arbitrary. A new edge is put at an arbitrary place. `find_bb`-based
lookups are maps. `hide` statements inside proofs only keep definitions away from the solver.

## Model

| member | source | states |
|---|---|---|
| ControlFlow.RecordedKinds | dyninst-static/lbr_analysis.C:158-201 | of the fifteen kinds of edges exactly the indirect jumps, returns and calls are recorded; direct calls are the only recorded direct ones |
| PathSearch.Searcher.TrackCallstack | dyninst-static/lbr_analysis.C:1353-1402 | calls push their fall-through block, returns pop and compare, a missing fall-through aborts, unrolling pops for calls only; nothing happens when matching is compiled out |
| PathSearch.Searcher.PathExists | dyninst-static/lbr_analysis.C:1405-1497 | a success leaves in the path a walk of non-hidden edges that shows exactly the remaining records, whatever the tracker pruned; a failure restores path and visit counts and, when the tracker is compiled out or harmless (no return in the record, all call sites with fall-throughs), means no walk within the cap exists; no abort if all call sites have fall-throughs; the outcome is that of the search as a function; terminates on every graph |
| PathSearch.Searcher.TryEdge | dyninst-static/lbr_analysis.C:1442-1488 | the same for the walks through one outgoing edge |
| PathSearch.PathBound | dyninst-static/lbr_analysis.C:1433-1440 | with visits capped, paths are bounded by the cap times the number of edges: the termination measure |
| PathSearch.Multiplicity | dyninst-static/lbr_analysis.C:1433-1437 | in a path without internal loops an edge occurs at most once per gap between visible edges |
| PathSearch.CutLoops | dyninst-static/lbr_analysis.C:1433-1437 | every matching walk has a matching walk without internal loops |
| PathSearch.CapLosesNothing | dyninst-static/lbr_analysis.C:1433-1437 | a walk showing the records exists iff one exists that enters no edge more than LBR_SIZE times |
| Validation.ValidatePath | dyninst-static/lbr_analysis.C:2061-2073 | acceptance means the records are realisable; without matching, or without returns in the record and with fall-throughs for all call sites, iff; with matching, an undisturbed walk is accepted if its calls and returns match, with fall-throughs only then, and aborts if it returns from a call without one |
| Validation.Follow | dyninst-static/lbr_analysis.C:1442-1495 | from any call stack, the search along an undisturbed walk comes to what the straight replay of the walk comes to |
| Validation.DeadTry | dyninst-static/lbr_analysis.C:1466-1470 | a tried edge that leads neither to a return nor to the next record is given up with the call stack as it was |
| Validation.TriedReturn | dyninst-static/lbr_analysis.C:1369-1398 | giving up a matched return takes it once more: the call below is popped if it returns to the same block, and a missing fall-through aborts |
| MatchingLoses.RejectsConsistentRecord | dyninst-static/lbr_analysis.C:1459-1473 | with matching, a record with a walk that replays without mismatch is rejected, because giving up a tried return pops the call stack again |
| CallMatching.ScanMeaning | dyninst-static/lbr_analysis.C:1014-1043 | the level-counting scan passes iff the return that closes the call, if any, goes to the fall-through block |
| CallMatching.ReplayMeaning | dyninst-static/lbr_analysis.C:1369-1398 | a straight replay from any stack goes through iff all calls pass the scan and the unmatched returns agree with the stack |
| CallMatching.VerdictMeaning | dyninst-static/lbr_analysis.C:1369-1402 | a return is refused iff the innermost call goes on elsewhere, aborts iff that call has no fall-through, and pops it iff neither; calls push and unroll to a pop; other edges do nothing |
| CallMatching.ScanAgreesWithReplay | dyninst-static/lbr_analysis.C:1005-1047 | every call of a path passes the backward scan iff the forward replay from an empty stack neither mismatches nor aborts; calls without fall-through included |
| CallMatching.UndoExact | dyninst-static/lbr_analysis.C:1369-1398 | undoing an accepted edge restores the call stack iff the edge is not a return that popped it |
| Collapse.CollapsedSound | dyninst-static/lbr_analysis.C:2324-2415 | every walk of the collapsed graph has a walk of the original graph with the same visible edges |
| Collapse.CollapsedComplete | dyninst-static/lbr_analysis.C:2324-2415 | without stranded blocks, every walk of the original graph has a collapsed one with the same visible edges |
| Collapse.StrandedLoses | dyninst-static/lbr_analysis.C:2398-2409 | a stranded block cannot show any more the visible edges of the other blocks it reached, each of which it showed before |
| Collapse.StrandedExample | dyninst-static/lbr_analysis.C:2335-2343 | a stub outside the collapsed functions on the way to an indirect call is stranded, and every collapse of the graph loses that call from it |
| Collapse.CollapsePreserves | dyninst-static/lbr_analysis.C:2324-2435 | behaviour of all start blocks is preserved iff no block is stranded; nothing is ever added |
| Collapse.AllInternalCollapsed | dyninst-static/lbr_analysis.C:2335-2343 | if every block with an internal edge belongs to a collapsed function, none is stranded |
| Simplify.Cfg.AddEdge | dyninst-static/arms_cfg.c:481-500 | exactly one more edge, filed under its source and its target; all else unchanged |
| Simplify.Cfg.CreateFastpath | dyninst-static/lbr_analysis.C:2305-2321 | exactly one new fastpath edge, filed under its source and its target; all else unchanged |
| Simplify.Cfg.AddExit | dyninst-static/lbr_analysis.C:2383-2397 | each exit is recorded once, with a fastpath to it unless it is the start block itself |
| Simplify.Cfg.VisitEdge | dyninst-static/lbr_analysis.C:2377-2410 | an exit edge makes its block an exit, an internal edge ends up hidden and its target seen |
| Simplify.Cfg.VisitBlock | dyninst-static/lbr_analysis.C:2356-2411 | a dequeued block ends up collapsed for the current root and its internal successors seen |
| Simplify.Cfg.CollapseBlock | dyninst-static/lbr_analysis.C:2348-2412 | the breadth-first search terminates and collapses everything its block reaches, keeping what was collapsed before |
| Simplify.Cfg.CollapseFunction | dyninst-static/lbr_analysis.C:2324-2415 | all blocks of the function are collapsed, unless it is a PLT stub or a library dummy |
| Simplify.Cfg.SimplifyCfg | dyninst-static/lbr_analysis.C:2418-2435 | exactly the internal edges reached from blocks of functions that are neither PLT stubs nor library dummies are hidden, those blocks get fastpaths to exactly the dead ends and recorded exits they reach, and the graph behaves as before iff no block is stranded |
| Simplify.CollapsedIsSimplified | dyninst-static/lbr_analysis.C:2335-2410 | the same, edge by edge, of every collapsed graph |
| Analyser.SimplifyAndValidate | dyninst-static/lbr_analysis_pass.C:287-456 | acceptance on the simplified graph with the late edges means realisable in the original graph with them; iff, when the tracker is harmless, all late edges start at ready blocks and none is stranded |
| LateEdges.ExtensionPreserves | dyninst-static/lbr_analysis.C:1951-1972 | after adding visible edges to both graphs the simplified one behaves as the original one iff every new edge starts at a former exit or at a block no other collapsed block reaches, and none is stranded; it never shows more |
| LateEdges.UnreadyLoses | dyninst-static/lbr_analysis.C:1951-1953 | otherwise a collapsed block that reaches the source cannot show the new edge |
| StateSet.CompareMeaning | dyninst-static/lbr_analysis.C:282-296 | the comparison is negative iff the first differing byte is smaller |
| StateSet.CompareOrder | dyninst-static/lbr_analysis.C:282-296 | digest comparison is antisymmetric and zero exactly on equal digests |
| StateSet.CompareTrans | dyninst-static/lbr_analysis.C:282-296 | digest comparison is transitive |
| StateSet.LbrStateSet.AppendState | dyninst-static/lbr_analysis.C:526-539 | the vector grows by a fresh copy of the state and the index stays in agreement |
| StateSet.SwapRemoveDrops | dyninst-static/lbr_analysis.C:542-564 | removing drops exactly that entry, puts the last one in its place and leaves the others |
| StateSet.LbrStateSet.DeleteState | dyninst-static/lbr_analysis.C:542-564 | in range, one state is dropped from vector and index, the last one taking its place; out of range nothing changes |
| StateSet.LbrStateSet.FindState | dyninst-static/lbr_analysis.C:597-612 | the indexed lookup finds an equal state iff the vector holds one |
| StateSet.LbrStateSet.Store | dyninst-static/lbr_analysis.C:867-888 | new states are added, known and empty ones ignored; states stay pairwise different |
| StateSet.LbrStateSet.BubbleDown | dyninst-static/lbr_analysis.C:637-644 | one round brings the least digest of the tail to its front, permuting the tail only |
| StateSet.LbrStateSet.SortByHash | dyninst-static/lbr_analysis.C:630-646 | the vector is permuted so that no digest compares greater than a later one |
| StaticPaths.CompletionMeaning | dyninst-static/lbr_analysis.C:1156-1245 | the search ends on a path iff it is connected, not hidden after its first edge, replays without call/return mismatch, fills the window or reaches a block without incoming edges for the first time at its end, and repeats no edge over direct edges only |
| CycleCut.CutCycles | dyninst-static/lbr_analysis.C:1183-1195 | if no direct cycle contains a call, every genuine path, cycles included, has one without direct cycles with the same state and the same last edge |
| CycleCut.CutLosesNothing | dyninst-static/lbr_analysis.C:1183-1195 | if no direct cycle contains a call, the states found are those of all genuine paths |
| CycleCut.RecursionLosesState | dyninst-static/lbr_analysis.C:1183-1195 | a directly recursive function has a genuine path whose state the search never finds |
| StaticPaths.DirectSuffixBound | dyninst-static/lbr_analysis.C:1183-1195 | direct edges since the last indirect one never repeat, and the window is never exceeded: the termination measure |
| StaticPaths.CompletionStep | dyninst-static/lbr_analysis.C:1220-1235 | the paths that complete a non-final path are those that complete it with one more incoming edge |
| Scheduling.LeastShift | dyninst-static/lbr_analysis.C:890-935 | exactly the blocks some in-range number of hops from an entry are scheduled, each with its least number |
| Scheduling.ChainIsWalk | dyninst-static/lbr_analysis.C:1211-1218 | a block k hops away has a path to an entry block with exactly k * (window - 1) indirect edges |
| Scheduling.ScheduleBound | dyninst-static/lbr_analysis.C:905-916 | the schedule is never longer than the number of entry blocks and edge targets, so the search ends |
| StaticSearch.Search.EdgeIsTraversable | dyninst-static/lbr_analysis.C:1005-1047 | the loop with its level counter decides the scan of the reversed path |
| StaticSearch.Search.IsDirectCycle | dyninst-static/lbr_analysis.C:1057-1092 | for an edge on the path the loop stops inside the vector and decides whether the edge lies after the last indirect one |
| StaticSearch.Search.Push | dyninst-static/lbr_analysis.C:1197-1205 | the LBR prefix is the indirect part of the path and never overruns, counts are multiplicities |
| StaticSearch.Search.Pop | dyninst-static/lbr_analysis.C:1237-1242 | undoes a push |
| StaticSearch.Search.ScheduleNode | dyninst-static/lbr_analysis.C:905-916 | a block is queued once, last, with the current shift; scheduled blocks keep theirs |
| StaticSearch.Search.Finish | dyninst-static/lbr_analysis.C:1211-1223 | ending on a path stores its state and schedules its next root, keeping the books exact |
| StaticSearch.Search.SearchInboundEdges | dyninst-static/lbr_analysis.C:1156-1245 | the search ends on exactly the paths completing the current one, restores the path, and terminates on every graph |
| StaticSearch.Search.SearchAll | dyninst-static/lbr_analysis.C:1225-1234 | the loop over the incoming edges, skipping hidden and untraversable ones, ends on exactly the paths completing the current one |
| StaticSearch.Search.NextNode | dyninst-static/lbr_analysis.C:924-935 | roots leave the queue in order of shift, and no queued shift exceeds the next by more than one |
| StaticSearch.Search.Run | dyninst-static/lbr_analysis.C:1271-1276 | the loop ends, with every scheduled block searched once under its shift plus one |
| StaticSearch.GetFuncLbrStates | dyninst-static/lbr_analysis.C:1248-1291 | the states found are exactly the non-empty ones of paths that are connected, consistent and without direct repeats, and that fill the window or reach a block without incoming edges for the first time at their end, from blocks k hops from an entry with k = 0 or 1 + k * (window - 1) < LBR_SIZE; each once |
| LbrCleanup.CleanResume | dyninst-static/lbr_analysis.C:1535-1546 | cleaning a record whose first part is already clean gives the clean record, also when the target is zero |
| LbrCleanup.CleanMeaning | dyninst-static/lbr_analysis.C:1500-1524 | a clean record holds at its end one entry for every position with another target, in order, and is empty before |
| LbrCleanup.LbrBuffer.ShiftIn | dyninst-static/lbr_analysis.C:1515-1520 | the slots before the removed one move up by one and the first becomes empty |
| LbrCleanup.LbrBuffer.MoveBlocks | dyninst-static/lbr_analysis.C:1500-1524 | the buffer is clean, or it gave up at the wrap with exactly the part before it clean; unrolled buffers never give up |
| LbrCleanup.LbrBuffer.Unroll | dyninst-static/lbr_analysis.C:1541-1545 | the copy has the same entries from oldest to newest and does not wrap |
| LbrCleanup.LbrBuffer.RollUp | dyninst-static/lbr_analysis.C:1547-1550 | the buffer takes over the entries of the copy in order |
| LbrCleanup.LbrBuffer.RemoveLibEnterEdges | dyninst-static/lbr_analysis.C:1527-1552 | always succeeds; oldest to newest there are empty entries and then the entries with another target, in order |
| Lbr.LbrFromMeaning | lkm/lbr.h:88-93 | the three flag bits become copies of bit 60, the address stays, and a second application changes nothing |
| Lbr.NormalShows | lkm/lbr.c:131-143 | an image read from the registers has every source address below bit 61, copies of bit 60 above, and all else unchanged |
| Lbr.NormalAgrees | lkm/lbr.c:131-143 | two register states are read alike iff they hold the same branches |
| Lbr.NormalIdempotent | lkm/lbr.c:131-143 | reading a written-back image gives the same image |
| Lbr.BranchAppends | lkm/lbr.h:29-55 | while recording, a branch becomes the newest entry and pushes out the oldest |
| Lbr.HashIndex | lkm/lbr.c:311-315 | the wrapped unsigned index counts backwards what the analyser counts forwards |
| Lbr.HashInput | lkm/lbr.c:301-321 | the digest reads source and target of the entries from the top backwards, newest to oldest, independent of the rotation of the buffer |
| SlotTable.FreeSlot | lkm/lbr.c:212-235 | there is a free slot exactly while there are fewer owners than slots |
| KernelSteps.SigStartView | lkm/armor.c:286-296 | a handler starts with one entry, the call to it, and records iff it lies strictly between start and end of the target's code |
| KernelSteps.PushPop | lkm/lbr.c:451-490 | a pop brings back what was pushed; a full push and an empty pop kill and change nothing |
| StackTables.FindEntryHolds | lkm/armor.c:223-245 | with room, a process finds its slot with its stacks, and a new slot has empty ones |
| StackTables.LibInitHolds | lkm/armor.c:246-258 | exactly the entering process gains a return address; no kill |
| StackTables.CbkInitHolds | lkm/armor.c:259-275 | exactly the entering process gains a return address and an image; no kill |
| StackTables.SigInitHolds | lkm/armor.c:276-284 | exactly the entering process gains an image; no kill |
| StackTables.LibExitHolds | lkm/armor.c:299-317 | the innermost address comes back, and the slot is freed exactly when the stack is empty |
| StackTables.CbkExitHolds | lkm/armor.c:318-336 | the innermost address and image come back together, and the slot is freed exactly when both stacks are empty |
| StackTables.SigExitHolds | lkm/armor.c:337-352 | the innermost image comes back, and the slot is freed exactly when the stack is empty |
| StackTables.CopyEntryHolds | lkm/armor.c:445-508 | a child gets a copy of its parent's stacks of each kind and nobody else changes |
| StackTables.WipeEntryHolds | lkm/armor.c:557-596 | the dead process's slot is freed and emptied, the others stay |
| Refinement.LibEnterInStep | lkm/armor.c:999-1015 | entering a library call matches pushing a private library frame and switching recording off |
| Refinement.LibReturnInStep | lkm/armor.c:1018-1038 | leaving it matches popping that frame, with the same return address, and switching recording on |
| Refinement.CbkEnterInStep | lkm/armor.c:1163-1176 | entering a callback matches saving the private LBR in a frame and starting with a flushed one |
| Refinement.CbkReturnInStep | lkm/armor.c:1179-1199 | leaving it matches restoring the private LBR, with the same return address |
| Refinement.SigEnterInStep | lkm/armor.c:361-390 | delivering a signal matches saving the private LBR and starting the handler's |
| Refinement.SigReturnInStep | lkm/armor.c:393-407 | returning from it matches restoring the private LBR |
| Refinement.SchedOutInStep | lkm/lbr.c:202-254 | a process switched out keeps its private LBR in one cache slot |
| Refinement.SchedInInStep | lkm/lbr.c:257-293 | a process switched in finds its private LBR in the registers and frees its slot |
| Refinement.ForkInStep | lkm/armor.c:416-555 | a child starts with its parent's private LBR and frames |
| Refinement.ExitInStep | lkm/armor.c:599-654 | a dying process leaves its CPU without a trace in the cache |
| Refinement.ReapInStep | lkm/armor.c:557-596 | the deferred clean-up removes the frames of a dead process only |
| Refinement.EveryActionInStep | lkm/armor.c:986-1331 | every enabled action keeps kernel module and private machine in correspondence, with equal replies |
| Refinement.RunsRefine | lkm/lbr.c:202-293 | over every run and interleaving the replies (return addresses, images, kills) are those of private LBRs and private stacks, and registers and cache slots hold the branches of the private LBRs |
| Refinement.ValidateReads | lkm/lbr.c:340-342 | a validation reads the branches of the private LBR |
| Refinement.RegistersAfter | lkm/armor.c:259-297 | per event: branches are appended while recording, library calls only switch recording, callbacks start empty and recording, handlers with the call to them; nothing else changes |
| Refinement.BootSimulates | lkm/armor.c:1108-1128 | the initialised module corresponds to one process with a flushed, enabled LBR |
| Refinement.SchedOutExact | lkm/lbr.c:212-235 | a context switch keeps the correspondence iff the cache has a free slot, and never kills |
| Refinement.SwitchedOutIsSilent | lkm/lbr.c:237-249 | after a context switch other processes leave no branches in the registers |
| Refinement.LostLbrStaysLost | lkm/lbr.c:257-290 | a process without a cache slot goes on with the registers as it finds them |
| Refinement.EnterKillsExactly | lkm/armor.c:223-297 | entering a frame kills iff the stack is full or all slots are taken |
| Refinement.ExitKillsExactly | lkm/armor.c:299-352 | leaving a frame kills iff the process has no open frame of that kind; then it yields zero, pops nothing and writes back no image |
| Refinement.KilledEnter | lkm/armor.c:223-258 | a killed library enter changes no table if the stack was full, and exactly slot 0 of another process if no slot was left |
| Refinement.ForkKillsExactly | lkm/armor.c:445-546 | a fork kills iff one of the arrays has no slot for the child |
| Refinement.ArraysOk | lkm/armor.c:108-116 | nobody owns two slots of an array, running processes own no cache slot and waiting ones do, free slots are empty, callback stacks are equally deep |
| RecordingInvariant.PrivateStepTracks | lkm/armor.c:999-1038 | every event keeps recording and saved images in agreement with the open frames, except a library return to other than target code |
| RecordingInvariant.HandlerExample | lkm/armor.c:1018-1038 | a library call from a signal handler outside the target leaves recording on in that handler |
| RecordingInvariant.RecordingExact | lkm/armor.c:999-1038 | from boot: in every state along a run recording is on for a running process, and will be again for a waiting one, exactly when its innermost frame is target code, iff every library return of the run goes back to target code |
| FrameNesting.ExitUndoesEnter | lkm/armor.c:246-352 | after any run of all tasks, an exit in the process that entered, or in a child forked inside, replies the return address of the matching enter without a kill, and for callback and signal frames the registers show the LBR of the enter |
| FrameNesting.LibReturnFindsCall | lkm/armor.c:999-1038 | after any run of all tasks, the top of the LBR at a library return is that of the call moved by the branches recorded in library code; for fewer than LBR_SIZE of them the LBR is that of the call, recording on, iff there were none |
| FrameNesting.HomeRunsLeakNothing | lkm/armor.c:999-1038 | none are recorded if library returns go back to target code |
| FrameNesting.NestedLibraryLeaks | lkm/armor.c:1018-1038 | a library call made by a library function makes the next branch of that function recorded |
| KernelCode.GetLbr | lkm/lbr.c:131-143 | every source keeps its address below bit 61 with copies of bit 60 above; targets, top, select and debug are as in the registers |
| KernelCode.FlushLbr | lkm/lbr.c:118-128 | all entries and the top are zero, select stays, and recording is on iff asked |
| KernelCode.FindCacheEntryInit | lkm/armor.c:223-245 | one pass finds the slot of the process, else claims the first free one, else answers slot 0 with a kill |
| KernelCode.DoCbkExit | lkm/armor.c:318-336 | the loop frees the slot at depth one and pops image and address of the first match |
| KernelCode.DoCopyEntry | lkm/armor.c:445-508 | the loop copies from the last match into the child's slot |
| KernelCode.DoSaveLbr | lkm/lbr.c:202-235 | the first free slot takes owner and image; a full cache changes nothing |
| KernelCode.DoRestoreLbr | lkm/lbr.c:257-279 | the owner's image comes back and its slot is freed; without one nothing changes |
| KernelCode.Module.constructor | lkm/armor.c:1108-1128 | all arrays zeroed and the LBR empty and enabled: a booted state |
| KernelCode.Module.Perform | lkm/armor.c:986-1331 | every action on arrays and registers is the step that the refinement is about |
| Validator.Lookup | lkm/lbr.c:357-366 | the loop hits iff the digest is among the matchable ones |
| Validator.InsertHolds | lkm/lbr.c:426-427 | after n insertions the cache matches exactly the last n mod JIT_CACHE_SIZE, pairwise different, with the index in bounds |
| Validator.StepKeepsInv | lkm/lbr.c:349-435 | every step of any validator and of the daemon keeps the protocol invariant |
| Validator.ProtocolSafe | lkm/lbr.c:349-435 | in every state of every interleaving: at most one request outstanding, a woken validator finds the answer for its own LBR, answers are taken once and in order, cached digests were answered before |
| Validator.NobodyPassesUnchecked | lkm/lbr.c:357-435 | in every run a validator leaves either with a digest among the remembered ones at its lookup, or with the answer for its own LBR; on a miss it posts its request, wakes the daemon and waits, in this order |
| Validator.NeverStuck | lkm/armor.c:64-85 | while a validator is not idle, some validator or the daemon can go on |
| Validator.RankDecreases | lkm/lbr.c:349-435 | every step but an arrival and taking the free lock brings the unlock nearer |
| Validator.LockReleased | lkm/lbr.c:349-435 | in every run at most eight steps other than arrivals happen while the lock is held without a break |

## Left out

- Validation.ValidatePath: with call/return matching compiled in and returns in the record, walks that other returns or other ways to the next record disturb are covered by soundness and by the outcome as a function only, because the search undoes its call stack for calls only (`CallMatching.UndoExact`) and so can reject a realisable record (`MatchingLoses.RejectsConsistentRecord`).
- StateSet.LbrStateSet.DeleteState: an index equal to the length passes the source's range check and reads out of bounds; the model requires another index.
- Refinement.ForkInStep: the deferred clean-up keeps a raw process pointer; the model assumes that a child does not get the address of a dead process before that is cleaned up.
- The cycle signature of `is_direct_cycle` is taken as non-zero, so a detected direct cycle always cuts the path.
- `get_fallthrough_bb` probes fifteen addresses; here it is a map from a block to at most one block.
- `jit_validate_lbr` before its search: address normalisation, PLT/GOT patching, and the heuristics that decide which edges to add; what adding them does to the simplified graph is modelled.
- Building the CFG (`arms_cfg.c`, `arms_bb.c`, `arms_edge.c` beyond edge kinds and edge insertion, and everything driven by Dyninst or LLVM), which would only add lookups and set updates.
- Selection of library functions by name in `get_func_lbr_states`; edge blacklisting and `break_direct_cycle`, which the search never uses; SEARCH_DEPTH, which is 0.
- Time-outs of the validator and `disable_jit`, which is read before the lock is taken.
- Races inside one enter or exit; enter, exit, context switch and fork are atomic steps here.
- Suspending and waking the supervision of a process around `execve`.
- The digest function, which is any function of its input, and reading and writing state files.
- Kernel plumbing: probes, hooks, ioctl copying, statistics, user-space wrappers.
- `lbr-state.h` is not part of this model; LBR_ENTRIES is 16, as LBR_SIZE.
