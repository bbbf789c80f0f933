# Verified models of the toolkit's algorithmic cores

This project models the parts of the C toolkit that do not depend on I/O and proves what they promise.
Each module follows one source file or one protocol; data that the source updates in place is updated in
place here too.  Memory is a map from addresses to cells wherever stale links, sharing or freeing matter.

| files | what they model |
|---|---|
| `Wrappers.dfy`, `Sequences.dfy`, `Trees.dfy`, `Orders.dfy` | optional values, lists, trees with a focus, in-order sequences, search orders |
| `RbShape.dfy`, `RbTrees.dfy` | the intrusive red-black tree of `common/rb_tree.c`: parent links, rotations, both fix-up loops, the splice with its XOR colour swaps, walks over stale links |
| `Bits.dfy`, `BstShape.dfy`, `BstRetries.dfy`, `BstTables.dfy`, `BstIterators.dfy` | the binary search tree of `common/bst.c`: Day-Stout-Warren rebalancing in place, removal, teardown, the stack iterators under interleaved changes, and exactly when their rebalance-and-retry ends |
| `TimerModel.dfy`, `TimerProofs.dfy`, `TimerSignals.dfy`, `TimerFirings.dfy`, `TimerCalls.dfy` | the timer engine of `timer/timer.c` as a step relation over its mutex-held regions, any number of threads and callers; the signals that wake the inspector; when it fires, what that does to a destroy, and what each step does to a timer |
| `AsyncModel.dfy`, `AsyncProofs.dfy`, `AsyncEvents.dfy` | asynchronous requests of `ipc/ipc_server.c` as a state machine with explicit memory; use after free, double free and failing asserts are faults |
| `Topics.dfy` | topic masks, nodes and buckets of `ipc/ipc_server.c` |
| `Recycling.dfy`, `MemPool.dfy` | the slab allocator of `memory-pool/mem_pool.c`, on top of the red-black tree object itself, with recycle lists threaded through chunk memory |
| `Frames.dfy`, `Framing.dfy` | the message format, `find_msg` of `ipc/ipc_base.c` and the subscriber loop of `ipc/ipc_client.c` on a fixed byte buffer |
| `Bitmaps.dfy`, `Barriers.dfy` | word bitmaps of `include/generic_bit.h` and `common/generic_bit.c`; the ack and vote rounds of `sample/mc-daemon` |
| `GclText.dfy`, `GclLines.dfy`, `Gcl.dfy` | the configuration parser and printer of `common/gcl.c`, and what a file says read line by line |

How the models are set up:

- Addresses are natural numbers, 0 is NULL.  A fix-up loop carries a ghost tree and a ghost context (the way
  up to the root), so each step says how the whole tree changed.
- Words are numbers below a power of two; `&`, `|`, `~` and shifts are defined bit by bit in `Bits.dfy`.
- A 64-bit little-endian machine is assumed where sizes or byte order matter (message headers, bitmaps,
  stock headers).  Overlapping `memcpy` calls are modelled as moves.
- In the timer model one step is one stretch under the mutex; waiting, woken and running threads are states,
  and a step may come between any two.  `timer_add` is not used on a timer whose delete is still waiting, nor,
  by any thread, while the callback of a timer that deleted itself still runs, because `timer/timer.c:558` clears all flags.
- The timer engine and the asynchronous requests are protocols of several threads; they are state machines on
  values, one step per stretch of a thread, and every claim is about all interleavings of steps.
- In the request model the main loop and each worker are threads; addresses of freed objects are reused at
  will.  A handler may pass one request to `ipc_async_execute` as often as it likes.

What the code does differently from what one would expect; each point is stated by a member named here:

- The iterators rebalance and start again when the stack is too small.  Balancing is a function of the in-order
  sequence, so a second rebalance changes nothing and the call goes round for ever.  Exactly when a call ends is
  `BstRetries.FindEnds`, `InsertEnds`, `NextEnds` and `PrevEnds`; on every tree with a given order, searches and
  insertions end exactly below 2^max_height nodes and steps exactly below 2^(max_height+1)
  (`BstRetries.FindAlwaysEnds`, `InsertAlwaysEnds`, `NextAlwaysEnds`, `PrevAlwaysEnds`; concrete tables in
  `StuckSearch` and `StuckSteps`).
- `mem_pool_alloc` cuts the quotient to an int, and its guard admits an index equal to the number of slots: exactly
  which sizes are refused or get a chunk that is large enough is `MemPool.ServedExactly`; inputs that are not are in
  `MemPool.PastTheSlots`, `CutQuotient` and `WideSteps`.
- `timer_mod` of a timer that is not mounted, while the inspector waits for a timer to come, does not signal it: the
  timer is slept past (`TimerSignals.StepAlert`, `MissedSleeps`, and a whole run in `MissedRun`).
- A timer put off by `timer_mod` while the inspector waits for it fires early if the wait has run out: exactly then
  (`TimerFirings.NeverEarly`, and a run in `EarlyRun`).
- A wait that runs out after `timer_destroy` has set DESTROY overwrites it (`TimerFirings.DestroyKept`, a run in
  `UndoneRun`); the base then works on, and the destroy never returns (`TimerFirings.DestroyHangs`).
- A request passed on several times from one handler is answered several times, as often as its clones finish on an
  open connection (`AsyncProofs.RepliesCounted`, `ExecutedOften`).
- After a failed clone `ipc_async_execute` leaves the cookie pending without a message, so that every later
  call on that connection is refused until its release (`AsyncProofs.FailedCloneSticks`); the release callback is
  then called with a NULL message, although ipc_async_execute had failed (`AsyncProofs.BareCallbacks`).
- A topic of no bit passes `topic_check` and is published to the bucket of bit 0 (`Topics.Broker.Publish`).
- When a subscriber leaves, the waiter of the resume round is judged by the reboot round's bitmap; it can be
  woken early or not at all (`Barriers.ResumeAtRelease`, `ResumeMisled`, `ResumeUnheard`).
- A system subscriber without the guard topic counts in the full bitmap, but its acks and votes are refused
  (`Barriers.Daemon.Ack`, `Barriers.Daemon.Vote`): while it stays, no waiter of a sleep, reboot or vote round that it
  was there to see begin is signalled (`Barriers.Daemon.Replay`).
- `ascend` clears every value but the last one (`Gcl.Table.Ascend`).  A value already there is kept by the parser,
  except that a last line without a newline replaces the value of its item (`GclText.ValueKept`, `GclText.Unterminated`).
  A value is written without quotes, so it is restored exactly if it is plain (`GclLines.ReadBack`).
- An unknown key is forgotten together with its '=': a known key in the place of its value is then set
  (`GclText.UnknownThenKnown`).

## Model

| member | source | states |
|---|---|---|
| `RbTrees.RbTree.RotateLeft` | common/rb_tree.c:48-84 | the rotated tree stands where the old one stood, with all parent links, below any context; nothing else in memory changes |
| `RbTrees.RbTree.RotateRight` | common/rb_tree.c:85-122 | the mirror image |
| `RbTrees.RbTree.InsertColor` | common/rb_tree.c:123-229 | from any tree whose only fault is a red node under a red parent, the loop ends with a red-black tree of the same nodes in the same order |
| `RbShape.GrandparentInMemory` | common/rb_tree.c:129-131 | a red parent has a parent, so the grandparent is never NULL |
| `RbTrees.RbTree.PushRedUp` | common/rb_tree.c:142-148 | with a red uncle the one fault moves up to the grandparent |
| `RbTrees.RbTree.RotateUpRight` | common/rb_tree.c:158-177 | with a black uncle at most two rotations remove the fault, on one side |
| `RbTrees.RbTree.RotateUpLeft` | common/rb_tree.c:205-224 | and on the other |
| `RbTrees.RbTree.Insert` | common/rb_tree.c:230-251 | exactly the new node is added, in sorted position, or the equal node is returned and nothing changes; the result is a red-black tree |
| `RbTrees.RbTree.Attach` | common/rb_tree.c:242-248 | linking a red leaf at the place the search reached inserts it there |
| `RbTrees.RbTree.Descend` | common/rb_tree.c:235-241 | the search for the place ends at an equal node or at the only place that keeps the order |
| `RbShape.RedBlackHeight` | common/rb_tree.c:230-251 | the height is at most 2 log2(n+1) |
| `RbShape.SiblingInMemory` | common/rb_tree.c:269-271 | in the removal fix-up the sibling is never NULL and the test `parent->left == node` picks the right side, also for a NULL node |
| `RbShape.RedSiblingNephews` | common/rb_tree.c:272-287 | a red sibling has two children, and they are black |
| `RbShape.NephewsInMemory` | common/rb_tree.c:296-318 | the nephews that exist can be read, with their colours |
| `RbTrees.RbTree.LowerLeft` | common/rb_tree.c:281-287 | a red sibling on the right is rotated away, and the deficit stays where it is |
| `RbTrees.RbTree.LowerRight` | common/rb_tree.c:347-353 | the mirror image |
| `RbTrees.RbTree.RedSiblings` | common/rb_tree.c:296-301 | with black nephews the sibling turns red and nothing else changes |
| `RbTrees.RbTree.SwapColours` | common/rb_tree.c:329-331 | three XORs swap two colours |
| `RbTrees.RbTree.StraightenLeft` | common/rb_tree.c:313-318 | a red inner nephew becomes the sibling |
| `RbTrees.RbTree.StraightenRight` | common/rb_tree.c:379-384 | the mirror image |
| `RbTrees.RbTree.SettleLeft` | common/rb_tree.c:329-335 | with a red outer nephew one rotation removes the deficit for good |
| `RbTrees.RbTree.SettleRight` | common/rb_tree.c:395-401 | the mirror image |
| `RbTrees.RbTree.FixLeft` | common/rb_tree.c:270-335 | one pass ends the fix-up or moves the deficit one level up |
| `RbTrees.RbTree.FixRight` | common/rb_tree.c:336-402 | the mirror image |
| `RbTrees.RbTree.RemoveColor` | common/rb_tree.c:253-406 | a tree short of one black below the focus becomes a red-black tree of the same nodes in the same order; the loop ends |
| `RbTrees.RbTree.LeftmostRight` | common/rb_tree.c:416-418 | the replacement is the in-order successor and has no left child |
| `RbTrees.RbTree.TakeOver` | common/rb_tree.c:419-453 | the successor takes the removed node's place, whether or not it is its child |
| `RbTrees.RbTree.RemoveOuter` | common/rb_tree.c:460-469 | a node with at most one child is bypassed |
| `RbTrees.RbTree.RemoveInner` | common/rb_tree.c:416-457 | a node with two children is spliced out and the colours swapped |
| `RbTrees.RbTree.Remove` | common/rb_tree.c:407-475 | the in-order sequence loses exactly that node; red-black invariants, parent links and the count hold; the removed node's own links keep their last values |
| `RbTrees.RbTree.Search` | common/rb_tree.c:476-490 | finds a node the searcher accepts, if any node of the tree is accepted |
| `RbTrees.RbTree.First` | common/rb_tree.c:491-501 | the head of the in-order sequence, or NULL |
| `RbTrees.RbTree.Last` | common/rb_tree.c:502-512 | its last element, or NULL |
| `RbTrees.RbTree.Next` | common/rb_tree.c:513-526 | the in-order successor; for a minimum already removed, the new minimum |
| `RbTrees.RbTree.Prev` | common/rb_tree.c:529-541 | the in-order predecessor |
| `RbTrees.RbTree.Enumerate` | common/rb_tree.c:491-526 | first followed by next visits exactly the in-order sequence |
| `RbShape.RemovedMinimum` | common/rb_tree.c:407-475 | the stale links of a removed minimum lead to the new minimum |
| `RbTrees.RbTree.RemoveFirst` | common/rb_tree.c:407-475 | removing the minimum drops the head of the order, whatever rotations follow, and leaves its links usable |
| `RbTrees.RbTree.Expire` | co/co_core.c:216-230 | one pass removes exactly the due nodes while the walk goes on from removed ones |
| `Bits.Fhs` | common/generic_bit.c:5-13 | the number of bits: the power of two above the argument |
| `Bits.TopBit` | common/bst.c:239-272 | clearing low bits leaves the highest one |
| `BstTables.BstTable.constructor` | common/bst.c:61-77 | an empty table of the given height; no other memory changes |
| `BstTables.BstTable.Search` | common/bst.c:80-97 | finds a node the searcher accepts, if there is one |
| `BstTables.BstTable.Insert` | common/bst.c:99-117 | exactly the new node is added in sorted position, or the equal one is returned; every iterator stays usable |
| `BstTables.BstTable.Remove` | common/bst.c:119-160 | the in-order sequence loses exactly that node; iterators on other nodes stay usable |
| `BstTables.BstTable.SpliceOut` | common/bst.c:119-160 | the leftmost node of the right subtree takes the removed node's place |
| `BstTables.BstTable.Delete` | common/bst.c:162-199 | the same for a node found by searching |
| `BstTables.BstTable.SlantLeft` | common/bst.c:201-222 | any tree becomes a left spine in the same order |
| `BstTables.BstTable.SlantLeftBack` | common/bst.c:223-238 | exactly `count` rotations along the spine; none dereferences NULL |
| `BstShape.CompressFringe` | common/bst.c:239-272 | one pass over 2^j-1 spine nodes whose subtrees have height at most H leaves half of them, with height at most H+1 |
| `BstTables.BstTable.SlantBack` | common/bst.c:239-272 | a spine becomes a tree of height fhs(n) in the same order |
| `BstTables.BstTable.Balance` | common/bst.c:273-286 | same order, height exactly fhs(n), and the result depends on the order alone; below 2^(max_height+1) nodes every iterator stays usable |
| `BstShape.HeightAtLeast` | common/bst.c:273-286 | no tree of n nodes is lower than fhs(n) |
| `BstTables.BstTable.Destroy` | common/bst.c:287-320 | the teardown frees every node once, in order, and nothing else |
| `BstIterators.BstIterator.constructor` | common/bst.c:339-354 | a new iterator selects nothing |
| `BstIterators.BstIterator.Refresh` | common/bst.c:321-336 | the stack is the path to the node again; it fits, and both asserts hold |
| `BstIterators.BstIterator.First` | common/bst.c:366-388 | the first node; the table is rebalanced once, exactly if the stack is too small for the way there |
| `BstIterators.BstIterator.Last` | common/bst.c:389-408 | the last node |
| `BstIterators.BstIterator.Next` | common/bst.c:481-524 | the successor in the current tree after any interleaving of inserts, removals of other nodes and rebalances; one rebalance exactly if the stack is too small |
| `BstIterators.BstIterator.Prev` | common/bst.c:525-565 | the predecessor, likewise |
| `BstIterators.BstIterator.Find` | common/bst.c:415-449 | finds the node if there is one and selects it; one rebalance exactly if the stack is too small, and other iterators stay usable |
| `BstIterators.BstIterator.Insert` | common/bst.c:450-480 | inserts in sorted position or selects the equal node; other iterators stay usable |
| `BstShape.TracksInsert` | common/bst.c:99-117 | a leaf insert, which bumps no generation, leaves every iterator's stack right |
| `BstShape.TracksRemove` | common/bst.c:119-160 | removing another node leaves an iterator usable: its node comes no deeper |
| `BstShape.TracksBalance` | common/bst.c:273-286 | a rebalance leaves every iterator usable if fewer than 2^(max_height+1) nodes are there |
| `BstIterators.BstIterator.FindOnce` | common/bst.c:415-442 | one call up to its retry: it asks for one exactly if the search pushes more nodes than the stack holds |
| `BstIterators.BstIterator.InsertOnce` | common/bst.c:450-476 | the same for the insertion |
| `BstIterators.BstIterator.NextOnce` | common/bst.c:481-519 | the same for the step forward |
| `BstIterators.BstIterator.PrevOnce` | common/bst.c:525-565 | the same for the step back |
| `BstRetries.RebuiltIs` | common/bst.c:273-286 | the balanced tree keeps the order, has the least height, and is left alone by another rebalance |
| `BstRetries.FindEndsMeans` | common/bst.c:433-436 | the search ends within some number of calls exactly if it ends within two |
| `BstRetries.NextEndsMeans` | common/bst.c:492-502 | the same for the step forward, whose refresh must reach the node again |
| `BstRetries.PrevEndsMeans` | common/bst.c:535-548 | the same for the step back |
| `BstRetries.FindAlwaysEnds` | common/bst.c:415-442 | searches end on every tree with an order exactly if it has fewer than 2^max_height nodes |
| `BstRetries.InsertAlwaysEnds` | common/bst.c:450-476 | the same for insertions of new nodes |
| `BstRetries.NextAlwaysEnds` | common/bst.c:481-519 | steps forward end on every tree with an order exactly if it has fewer than 2^(max_height+1) nodes |
| `BstRetries.PrevAlwaysEnds` | common/bst.c:525-565 | the same for steps back |
| `BstRetries.StuckSearch` | common/bst.c:433-436 | two nodes and a stack of one entry: a search that no number of calls ends |
| `BstRetries.StuckSteps` | common/bst.c:492-502 | two nodes and no stack: steps that no number of calls ends |
| `BstRetries.LuckyTree` | common/bst.c:415-442 | a tree of 2^max_height nodes on which every search still ends, because it is not balanced |
| `BstIterators.WalkBalanced` | uapi/uapi_server.c:122-133 | a table made with height fhs(n) or more and balanced is walked in order without one more rebalance |
| `TimerProofs.InsertSucceeds` | timer/timer.c:179-192 | the unchecked rb_insert always inserts: keys stay distinct |
| `TimerProofs.SearchFinds` | timer/timer.c:201-204 | a timer is found exactly if it is mounted |
| `TimerProofs.StepSafe` | timer/timer.c:179-410 | every step of every thread and caller keeps the invariant of flags, tree, list, threads and deleters |
| `TimerProofs.RunSafe` | timer/timer.c:179-410 | hence every reachable state has it |
| `TimerProofs.TimersConsistent` | timer/timer.c:260-339 | in every reachable state: mounted exactly in the tree, pending exactly once on the list, never pending and executing, at most one thread in a callback |
| `TimerProofs.BlockedDeleter` | timer/timer.c:213-259 | a blocked deleter not yet notified has WAITING set and its timer queued or running, and the cleanup wakes it |
| `TimerProofs.DeleteReturnsQuiet` | timer/timer.c:579-607 | a delete that waited returns with the timer not mounted, pending or executing |
| `TimerProofs.DeleteAtOnceQuiet` | timer/timer.c:579-607 | so does one that did not wait, unless it is the callback's own |
| `TimerProofs.QuietStays` | timer/timer.c:341-643 | no inspector, executor, modify or second delete step re-arms the timer |
| `TimerProofs.QuietUntilAdd` | timer/timer.c:539-643 | no thread runs the callback until the next add, over any run |
| `TimerProofs.QueueNotStranded` | timer/timer.c:327-339 | queueing a timer leaves an executor on its way to it, whatever the pool looks like |
| `TimerProofs.StepPool` | timer/timer.c:278-339 | every step keeps the counters right and an executor busy while timers are queued |
| `TimerProofs.NeverStranded` | timer/timer.c:278-339 | in every reachable state before a destroy no pending timer is stranded, also when an executor times out meanwhile |
| `TimerSignals.StepAlert` | timer/timer.c:354-390 | every step leaves nothing mounted that expires before the time an unsignalled inspector sleeps until, exactly if it is not a timer_mod during the wait for a timer |
| `TimerSignals.NeverSleptPast` | timer/timer.c:354-643 | hence over any run up to such a timer_mod |
| `TimerSignals.AddAlert` | timer/timer.c:567-571 | timer_add signals whenever it must |
| `TimerSignals.ModifyAlert` | timer/timer.c:634-636 | timer_mod signals whenever it must, except then |
| `TimerSignals.MissedSleeps` | timer/timer.c:625-636 | after it the timer is mounted and the inspector waits without a deadline and unsignalled |
| `TimerSignals.StaysAsleep` | timer/timer.c:357-361 | only a timer_add, a destroy or a wake-up without a signal gets it out of that |
| `TimerSignals.MissedRun` | timer/timer.c:613-643 | a run from the start in which a fired one-shot timer is re-armed and missed |
| `TimerFirings.FiresMeans` | timer/timer.c:391-405 | whichever way the inspector comes to line 392, the same lines run |
| `TimerCalls.FiringDoes` | timer/timer.c:391-405 | a firing leaves a timer in the tree exactly if it is cyclic, due one interval later; a busy one is left alone, a threaded one queued last, any other one run by the inspector; no other timer changes |
| `TimerFirings.OnlyByFiring` | timer/timer.c:260-643 | no other step of any thread or caller gets a timer queued or running |
| `TimerFirings.WaitHistory` | timer/timer.c:366-391 | the expiry of the timer waited for is the deadline, or what the last timer_mod since the wait began made of it |
| `TimerFirings.NeverEarly` | timer/timer.c:362-391 | over any run a timer fires at or after its expiry, exactly if it is not a timed-out wait during which timer_mod last put the timer off beyond now |
| `TimerFirings.EarlyRun` | timer/timer.c:375-393 | a run from the start in which a timer due at 9 fires at 5 |
| `TimerFirings.DestroyKept` | timer/timer.c:389-393 | a step overwrites DESTROY exactly if a timed wait runs out for a timer still there, which is also the only firing then |
| `TimerFirings.DestroyLasts` | timer/timer.c:354-393 | over any run a destroy lasts exactly as long as no timed wait runs out |
| `TimerFirings.DestroyQuiet` | timer/timer.c:354-393 | and while it lasts no timer fires |
| `TimerFirings.DestroyHangs` | timer/timer.c:521-526 | once it is overwritten the inspector never exits, so the wait for the threads never ends, unless somebody destroys again |
| `TimerFirings.UndoneRun` | timer/timer.c:389-405 | a run from the start in which DESTROY is overwritten and the base then takes a new timer |
| `TimerCalls.FiresFirst` | timer/timer.c:355-364 | at the top of its loop the inspector fires the timer due first, of several the one armed first |
| `TimerCalls.KeepsBeat` | timer/timer.c:391-396 | over any run from its add a cyclic timer that is neither deleted nor modified stays mounted, and its expiry moves by one interval with each firing |
| `TimerCalls.CyclicStays` | timer/timer.c:391-396 | it stays mounted up to its delete, modified or not |
| `TimerCalls.OneShot` | timer/timer.c:391-396 | a one-shot timer that fires does not fire again until it is re-armed |
| `TimerCalls.AddDoes` | timer/timer.c:539-577 | timer_add succeeds exactly on a working base for a timer not active, and arms it with the options, interval and expiry asked for |
| `TimerCalls.ModifyDoes` | timer/timer.c:613-643 | timer_mod succeeds exactly on a working base for an active timer, and changes only interval, expiry and mounting |
| `TimerCalls.DeleteDoes` | timer/timer.c:579-607 | timer_del succeeds exactly on a working base for an active timer; it waits exactly while the timer is busy, unless it is the callback's own |
| `TimerCalls.DeleterDoes` | timer/timer.c:230-236 | a woken deleter returns exactly if the timer is not busy |
| `TimerCalls.CallbackEnds` | timer/timer.c:240-259 | the end of a callback wakes all who wait for the timer and completes its own delete |
| `TimerCalls.DestroyDoes` | timer/timer.c:505-526 | timer_destroy sets the phase and wakes every waiting executor, exactly on a working base |
| `TimerCalls.ExpiredInTurn` | timer/timer.c:312-337 | expired timers are run first in, first out |
| `TimerCalls.LeavesIf` | timer/timer.c:289-323 | an executor leaves exactly in a destroy, or timed out with nothing queued and the pool above its minimum |
| `TimerCalls.WaitsHow` | timer/timer.c:292-308 | an executor with nothing to do waits with a limit exactly if the pool is above its minimum and lets it linger |
| `TimerCalls.PoolBounded` | timer/timer.c:327-339 | in every reachable state the pool is within its maximum |
| `AsyncProofs.StepKeeps` | ipc/ipc_server.c:222-459 | every step of main loop and workers keeps ownership, queue, replies and callbacks consistent |
| `AsyncProofs.RunSafe` | ipc/ipc_server.c:222-459 | over every run: no use after free, no double free, no failing assert; a request has exactly one reply for each time it was served on an open connection, if it asked for replies; each successful execute led to its function or to a discarded clone with its release callback, or is queued |
| `AsyncProofs.RepliesCounted` | ipc/ipc_server.c:222-244 | a request that was passed on is answered exactly as often as its clones finished on an open connection, if it asked for it |
| `AsyncProofs.OnceEach` | ipc/ipc_server.c:222-459 | a request passed on at most once is replied to exactly once if it asked, was served and its connection was open, and never otherwise; its function starts or its release callback is called, once |
| `AsyncProofs.ExecuteKeeps` | ipc/ipc_server.c:367-417 | ipc_async_execute keeps the invariant, whether it queues a clone, fails to make one, or refuses |
| `AsyncProofs.ReturnKeeps` | ipc/ipc_server.c:699-713 | ipc_handler_invoke after the handler keeps it: a synchronous reply goes out only if the request was not passed on |
| `AsyncProofs.ReleaseKeeps` | ipc/ipc_server.c:435-459 | ipc_async_release keeps it in each state of the cookie, the executing one included |
| `AsyncProofs.CloseKeeps` | ipc/ipc_server.c:748-807 | freeing the connection keeps it: no cookie points to the connection any more |
| `AsyncProofs.PickKeeps` | ipc/ipc_server.c:289-298 | a worker taking the first queued request keeps it |
| `AsyncProofs.FinishKeeps` | ipc/ipc_server.c:222-244 | ipc_async_cleanup keeps it: it answers and frees the message, or frees message and cookie of a released connection |
| `AsyncProofs.NoLeak` | ipc/ipc_server.c:222-459 | once all connections are gone and no worker is busy, nothing is allocated |
| `AsyncProofs.OneInFlight` | ipc/ipc_server.c:389-392 | a connection has at most one request in flight |
| `AsyncProofs.AllEnd` | ipc/ipc_server.c:245-308 | when queue and workers are empty every request is over, with one end for each clone, or one if it was never passed on |
| `AsyncProofs.EndsOnce` | ipc/ipc_server.c:222-459 | a request that is over stays over: no step gives it another clone, end or reply |
| `AsyncProofs.RepliesToOpen` | ipc/ipc_server.c:229-236 | every reply goes to the request's own connection while it is open, never after its release |
| `AsyncProofs.FailedCloneSticks` | ipc/ipc_server.c:397-402 | after a failed clone the cookie stays busy until its connection is released |
| `AsyncProofs.BareCallbacks` | ipc/ipc_server.c:440-448 | the release callback is called with a NULL message, once, exactly for released connections whose clone failed with a callback given |
| `AsyncProofs.ExecutedOften` | ipc/ipc_server.c:367-417 | for every n a run in which one handler passes its request on n times, with n replies |
| `AsyncEvents.BindDoes` | ipc/ipc_server.c:1876-1900 | a connection gets its cookie exactly if it has none and malloc does not fail |
| `AsyncEvents.ExecuteDoes` | ipc/ipc_server.c:389-417 | ipc_async_execute accepts exactly with an idle cookie and a clone, which is queued last; with an idle cookie and no clone the failure is recorded; otherwise nothing happens |
| `AsyncEvents.ReturnDoes` | ipc/ipc_server.c:695-714 | a request that was not passed on ends with its handler, answered exactly if it is served and asked for it |
| `AsyncEvents.ReleaseRunning` | ipc/ipc_server.c:450-453 | a cookie that a worker has is left to the worker |
| `AsyncEvents.ReleaseIdle` | ipc/ipc_server.c:442-449 | a cookie without a clone is freed, and nothing else happens to requests |
| `AsyncEvents.ReleaseWaiting` | ipc/ipc_server.c:440-449 | a queued cookie is freed with its clone, and its release callback called if it was given |
| `AsyncEvents.PickDoes` | ipc/ipc_server.c:289-298 | a worker gets the cookie that was queued first |
| `AsyncEvents.FinishDoes` | ipc/ipc_server.c:222-244 | the clone is freed, and the cookie too exactly if its connection was released |
| `AsyncEvents.FinishAnswers` | ipc/ipc_server.c:229-236 | the worker answers exactly if the connection is open and a reply was asked for |
| `AsyncEvents.FaultMeans` | ipc/ipc_server.c:222-459 | a fault is recorded exactly for a use or free of what is not allocated, or a failing assert |
| `AsyncEvents.InTurn` | ipc/ipc_server.c:289-298 | over any run, as long as an earlier request is queued a later one is not picked |
| `AsyncEvents.CanRest` | ipc/ipc_server.c:245-308 | every run can be brought to rest, so no request gets stuck |
| `Bits.BitIndex` | ipc/ipc_server.c:469-478 | the highest set bit |
| `Bits.BitCount` | ipc/ipc_server.c:482-490 | the number of set bits |
| `Topics.Broker.Register` | ipc/ipc_server.c:1020-1064 | a mask without topics is refused; otherwise a peer with one unset node per bit is added and no bucket changes |
| `Topics.Broker.Sync` | ipc/ipc_server.c:599-612 | the peer's node of each of its bits, and no other, is appended to that bit's bucket |
| `Topics.Broker.LinkNodes` | ipc/ipc_server.c:605-610 | the loop over the mask stays within nodes and buckets |
| `Topics.Broker.Release` | ipc/ipc_server.c:764-787 | exactly the peer's nodes leave the buckets, whether it was synchronised or not |
| `Topics.NodeOfTopic` | ipc/ipc_server.c:1700-1704 | node[bit_count(mask & (topic-1))] is the peer's one node in the topic's bucket |
| `Topics.OneBucket` | ipc/ipc_server.c:599-612 | a node hangs in one bucket only |
| `Topics.SubscribersAre` | ipc/ipc_server.c:719-726 | the receivers of a bucket are the synchronised subscribers of its bit, each once, in the order in which they synchronised |
| `Topics.TopicCheckIs` | ipc/ipc_base.h:91-94 | topic_check accepts exactly the topics of one bit or none |
| `Topics.FirstNamedFrom` | ipc/ipc_server.c:727-737 | the first peer of a list with the identity, or none |
| `Topics.Broker.Broadcast` | ipc/ipc_server.c:719-726 | every synchronised subscriber of the bit, in the order of synchronising |
| `Topics.Broker.Unicast` | ipc/ipc_server.c:727-737 | the first of them with the identity |
| `Topics.Broker.Publish` | ipc/ipc_server.c:883-912 | refused exactly for several bits or by the filter; otherwise the above for the topic's bit, or for bit 0 if it has none |
| `Topics.Broker.Notify` | ipc/ipc_server.c:1694-1704 | accepted exactly for a single topic that the peer subscribed to, once it is synchronised |
| `MemPool.Pool.FindStock` | memory-pool/mem_pool.c:48-62 | the search by address in the tree finds exactly the stock that a scan of all stocks would |
| `MemPool.AddrSearchDescends` | memory-pool/mem_pool.c:39-62 | the interval comparison steers the search in any tree of disjoint stocks |
| `MemPool.Pool.StockAlloc` | memory-pool/mem_pool.c:77-99 | a new stock is disjoint from the others, listed as free and in the tree |
| `MemPool.Pool.ChunkAlloc` | memory-pool/mem_pool.c:120-148 | fails exactly with no stock to take from and no room for one; otherwise the chunk is the last recycled or next fresh one of the first free stock, was not live and now is; no other chunk changes |
| `MemPool.Pool.PickChunk` | memory-pool/mem_pool.c:129-138 | the head of the recycle list if there is one, else the next fresh chunk; the assert is not reached |
| `MemPool.Pool.PopFree` | memory-pool/mem_pool.c:129-138 | the list in chunk memory loses its head and stays the stock's list |
| `MemPool.Pool.PushFree` | memory-pool/mem_pool.c:149-164 | a freed chunk becomes the head, its link written into its own bytes |
| `MemPool.Pool.Scribble` | memory-pool/mem_pool.c:22-25 | whatever the owner of a live chunk writes there, all recycle lists stay what they are |
| `MemPool.NotRecycled` | memory-pool/mem_pool.c:129-164 | a live chunk is on no recycle list and shares no byte with a link |
| `Recycling.RecycleLists.Take` | memory-pool/mem_pool.c:129-132 | the first chunk leaves, and its link is the rest of the list |
| `Recycling.RecycleLists.Put` | memory-pool/mem_pool.c:149-164 | a chunk goes in front; no other list changes |
| `MemPool.Pool.ChunkFree` | memory-pool/mem_pool.c:149-180 | exactly the freed chunk stops being live; its stock is released exactly if that was its last live chunk and another stock of the slot has chunks left |
| `MemPool.Pool.Release` | memory-pool/mem_pool.c:167-178 | a stock is released only with no live chunk |
| `MemPool.LiveInside` | memory-pool/mem_pool.c:120-148 | a live chunk lies inside its stock, beyond the header |
| `MemPool.LiveDisjoint` | memory-pool/mem_pool.c:120-148 | live chunks are pairwise disjoint, across all slots |
| `MemPool.LiveCount` | memory-pool/mem_pool.c:73-76 | index - recycnt is the number of live chunks |
| `MemPool.UnusedMeansNoneLive` | memory-pool/mem_pool.c:166-171 | recycnt equals index exactly if no chunk is live |
| `MemPool.ExhaustedMeansAllLive` | memory-pool/mem_pool.c:73-76 | a stock is exhausted exactly if all its chunks are live |
| `MemPool.Pool.SlotInit` | memory-pool/mem_pool.c:100-119 | a slot starts with aligned chunks and one stock |
| `MemPool.Pool.PoolAlloc` | memory-pool/mem_pool.c:313-324 | NULL exactly if the cut quotient is above the number of slots or its slot has no chunk and no room; otherwise a new live chunk of that slot, large enough exactly if the size is served |
| `MemPool.GuardAdmits` | memory-pool/mem_pool.c:315-321 | the index past the slots is used exactly if the quotient, cut to 32 bits, is their number |
| `MemPool.ServedExactly` | memory-pool/mem_pool.c:313-324 | a size is refused or gets a chunk that is large enough exactly under a condition on size, start, step and number of slots |
| `MemPool.ServedUncut` | memory-pool/mem_pool.c:313-324 | with steps no larger than the first size plus one, only a cut quotient or the index past the slots can spoil it |
| `MemPool.PastTheSlots` | memory-pool/mem_pool.c:316-321 | a size that indexes past the slots |
| `MemPool.CutQuotient` | memory-pool/mem_pool.c:315 | a size whose quotient is cut to 0 |
| `MemPool.WideSteps` | memory-pool/mem_pool.c:276-278 | a size served with a smaller chunk because steps exceed the first size |
| `Frames.MessagesSplit` | ipc/ipc_base.c:79-147 | the messages of a stream do not depend on where it is cut |
| `Frames.MessagesWhole` | ipc/ipc_base.c:79-147 | cutting into messages loses no byte |
| `Frames.SentReceived` | ipc/ipc_base.h:95-128 | what ipc_notify_pack and send_msg write is read back as the same notifications |
| `Frames.WantedIs` | ipc/ipc_client.c:555-557 | the two tests accept exactly the topics that are one bit of the subscriber's mask |
| `Framing.IpcBuf.constructor` | ipc/ipc_base.c:262-278 | room for a header and the payload, rounded up to the alignment |
| `Framing.IpcBuf.TakeToken` | ipc/ipc_base.c:62-69 | the token is taken off in place if it is there, and nothing else changes |
| `Framing.IpcBuf.Compact` | ipc/ipc_base.c:138-146 | moving an unfinished message down keeps it and makes room |
| `Framing.IpcBuf.Place` | ipc/ipc_base.c:109-133 | the message handed over is intact and aligned; what follows it is untouched |
| `Framing.IpcBuf.FindMsg` | ipc/ipc_base.c:79-147 | the first friendly message without its token, with the rest pending; or none, with nothing lost |
| `Framing.Subscriber.Process` | ipc/ipc_client.c:540-569 | the handler is called for exactly the whole friendly messages whose topic is one bit of the mask; the rest stays, and the buffer is not full |
| `Framing.Subscriber.Receive` | ipc/ipc_client.c:586-592 | the calls made are those of all bytes received so far |
| `Framing.Subscriber.Run` | ipc/ipc_client.c:582-593 | for every stream and every way of cutting it, exactly its calls in order; recv is never asked for zero bytes |
| `Framing.Converse` | ipc/ipc_client.c:540-593 | every notification sent for a subscribed topic arrives once, in order, with its payload, and no other |
| `Bitmaps.SetBit` | include/generic_bit.h:11-17 | in place: the members gain exactly that number |
| `Bitmaps.WithBitIs` | include/generic_bit.h:11-17 | its members gain exactly that number |
| `Bitmaps.ClearBit` | include/generic_bit.h:19-25 | in place: the members lose exactly that number |
| `Bitmaps.WithoutBitIs` | include/generic_bit.h:19-25 | its members lose exactly that number |
| `Bitmaps.SameMembers` | sample/mc-daemon/mc_base.h:187 | memcmp finds two bitmaps equal exactly if they have the same members |
| `Bitmaps.FirstBitZero` | common/generic_bit.c:14-35 | the least clear bit; skipping words, bytes and bits stays inside the array if a bit is clear |
| `Barriers.Daemon.IndexAlloc` | sample/mc-daemon/mc_core.c:58-65 | the least index no subscriber holds, below the maximum |
| `Barriers.Daemon.Register` | sample/mc-daemon/mc_core.c:745-808 | refused at the maximum; otherwise the subscriber gets the least free index and joins every round as if it had answered, signalling nobody |
| `Barriers.Daemon.Release` | sample/mc-daemon/mc_core.c:821-878 | the subscriber leaves every round and gives its index back; waiters are signalled exactly if everybody left has answered |
| `Barriers.Daemon.Ack` | sample/mc-daemon/mc_system.c:165-207 | the subscriber has answered; the waiter goes on waiting and is signalled exactly if it was the last, in all three rounds; no other round changes |
| `Barriers.Daemon.Vote` | sample/mc-daemon/mc_system.c:257-300 | the same for votes, with the noes recorded |
| `Barriers.Daemon.BeginSync` | sample/mc-daemon/mc_system.c:9-29 | a round starts with no answers and waits unless nobody is registered |
| `Barriers.Daemon.EndSync` | sample/mc-daemon/mc_system.c:25-36 | without a time-out every registered system subscriber has answered or joined since the round began |
| `Barriers.Daemon.BeginVote` | sample/mc-daemon/mc_system.c:38-59 | a vote starts with everybody in favour |
| `Barriers.Daemon.EndVote` | sample/mc-daemon/mc_system.c:53-64 | approved exactly if nobody registered has voted no since the vote began |
| `Barriers.Subsets` | sample/mc-daemon/mc_core.c:792-802 | in every state all bitmaps are parts of the full one, and set indices are as many as subscribers |
| `Barriers.FullMeans` | sample/mc-daemon/mc_base.h:187 | a bitmap equals the full one exactly if everybody is in it |
| `Barriers.ResumeAtRelease` | sample/mc-daemon/mc_core.c:841-844 | on a release the resume waiter is signalled exactly if the others have answered the reboot round |
| `Barriers.ResumeMisled` | sample/mc-daemon/mc_core.c:841-844 | a state in which it is signalled with an answer missing |
| `Barriers.ResumeUnheard` | sample/mc-daemon/mc_core.c:841-844 | a state in which it is not signalled although all who stay have answered |
| `Barriers.Daemon.Replay` | sample/mc-daemon/mc_system.c:165-300 | over any run of registrations, releases, answers, votes and waiters: while a system subscriber without the guard topic stays, no waiter of a sleep, reboot or vote round it is missing in is signalled |
| `Barriers.Daemon.ReplayWait` | sample/mc-daemon/mc_system.c:165-300 | over any run a waiter waits until it comes back, and is signalled exactly if everybody registered has answered, or voted |
| `Gcl.Table.Ascend` | common/gcl.c:19-33 | accepts exactly strictly ascending keys; clears all values but the last, or those before the first bad key |
| `Gcl.Table.Search` | common/gcl.c:34-52 | halving finds what a look at every item would |
| `Gcl.Table.Get` | common/gcl.c:75-81 | the value of the key, or its default |
| `Gcl.Table.Set` | common/gcl.c:53-74 | afterwards the key has that value and every other key its old one |
| `Gcl.Table.Reset` | common/gcl.c:250-273 | back to the default, with nothing else changed |
| `GclText.FeedSplit` | common/gcl.c:106-224 | reading two pieces is reading the whole |
| `GclText.FirstStays` | common/gcl.c:192-220 | up to the end of the file a value that is there stays |
| `GclText.ValueKept` | common/gcl.c:192-236 | over the whole file it is replaced exactly if the last line has no newline and has led to its item |
| `GclText.Unterminated` | common/gcl.c:225-236 | a file of one unterminated line that replaces a value, and would not with the newline |
| `Gcl.Loader.Step` | common/gcl.c:111-221 | one turn of the loop; the token stays within its buffer |
| `Gcl.Loader.Piece` | common/gcl.c:109-222 | the loop over one piece ends: turns that consume nothing lead on |
| `Gcl.Init` | common/gcl.c:82-240 | the table is what the lines of the whole text say, however fread cuts it; errors for bad order and a missing file |
| `GclLines.LoadedIs` | common/gcl.c:106-236 | for every text and table the parser's states assign exactly what its lines say: the first known key before a separator gets the characters that count after it |
| `GclLines.SpacedLine` | common/gcl.c:113-170 | `key = value # note` sets the key to the value, with any white space around the two |
| `GclLines.ReadBack` | common/gcl.c:290 | a value printed in a line and read back is itself again exactly if it is plain |
| `GclLines.LessIs` | common/gcl.c:24 | the order of keys is decided at the first position where they differ |
| `Gcl.Table.Sync` | common/gcl.c:275-302 | one line per item, in order |
| `GclText.FeedLine` | common/gcl.c:113-220 | reading a printed line sets exactly its item |
| `GclText.CommentLine` | common/gcl.c:134-139 | a comment line leaves the table as it is, even if it looks like an assignment |
| `GclText.QuotedValue` | common/gcl.c:140-152 | a quoted value is taken literally, with spaces, '#' and '=' |
| `GclText.FeedSurplus` | common/gcl.c:171-178 | after the second '=' of a known key's line the rest is passed over |
| `GclText.UnknownLine` | common/gcl.c:179-191 | the line of an unknown key changes nothing if its value is a plain word |
| `GclText.UnknownThenKnown` | common/gcl.c:179-191 | a known key that follows an unknown one and '=' is set |
| `GclText.RoundTrip` | common/gcl.c:275-302 | reading back what was written gives every key its value again |
| `Gcl.SaveAndLoad` | common/gcl.c:82-302 | saving and loading, however the file is cut, restores every key |

## Left out

- Sockets, epoll, files, fork, signals and logging: calls into them are parameters, results or left out.
- Thread cancellation, spurious wake-ups of the daemon's waiters, and wrap-around of timer ids and generation counters.
- timer_setup, and what timer_destroy frees once no thread is left.
- ipc pool sizing (idletasks, ntasks, linger, destroy): any number of workers may pick at any time.
- ipc subscribers with an asynchronous cookie: only requesters call ipc_async_release, so cookies are theirs.
- Topics.Broker.Sync: takes one SYNC per registration; a second one would link the peer's nodes twice.
- Topics.Broker.Register: does not model a failing allocation or a refusal by the manager hook.
- Framing.Subscriber.Run: like Process and Receive takes streams whose friendly messages are notifications that fit the buffer; the branches for other messages reset the buffer or end the subscriber's thread.
- MemPool.Pool.PoolAlloc: excludes the sizes whose cut quotient equals the number of slots, which the guard admits: the access past the array has no meaning.
- RbTrees.RbTree.Expire: one clock value for a pass, and due nodes first in the order; the source reads the clock at each node, and its sleep comparator does not give that order.
- Barriers.Daemon.Register: a failing ipc_server_bind, which would leave the index taken; the handle has no cookie yet and the type is valid, so it does not fail there.
- Barriers.Daemon.EndVote: spurious wake-ups.
- Barriers.Daemon.BeginSync: one waiter at a time in each round.
- Barriers.Daemon.BeginVote: the same.
- Barriers.Daemon.EndSync: claims nothing for the resume round, whose waiter is woken by another round's bitmap.
- Gcl.Table.Ascend: needs at least two items, because the loop writes before the table otherwise.
- Gcl.Table.Sync: takes items whose line is shorter than BUFSIZE; a longer one overflows the buffer of `sprintf` (`common/gcl.c:290`).
- Gcl.Init: needs at least two items, because `ascend` writes before the table otherwise; a failing strdup is left out.
- GclText.RoundTrip: keys and values are plain: no white space, '#', '=' or NUL, no quote in front, at most 255 characters; other values are not restored (`GclLines.ReadBack`).
- mem_cache and mem_pool creation loops and destruction, mem_chunk_count: they would only add easy members.
- The daemon's bitmaps are sequences of words inside the object; `Bitmaps.SetBit` and `Bitmaps.ClearBit` show the same operations in place on an array.
- first_bit_one, change_bit, bst_iterator_cur, printing of trees: easy members.
- thread-pool, coroutines apart from the expiry walk, uapi, JSON, the daemon's process control and the ipc timing list.
