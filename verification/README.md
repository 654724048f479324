# corosched: the coroutine registry, the ready queue, the scheduler and the context switch

corosched runs coroutines on a master scheduler. The scheduler keeps a FIFO of
coroutines waiting to run (a BSD tail queue), registers every coroutine in an
intrusive red-black tree keyed by its id (which is its address), and switches
between stacks with a few lines of amd64 assembly. This project models these
four parts and proves what they are for.

| file | what it is |
|---|---|
| `Basics.dfy` | addresses, sequences without repetitions |
| `RbShape.dfy` | trees of node addresses and zipper paths as values; order, balance, height |
| `RbMemory.dfy` | C memory as a map from live addresses to node structures, and what it means that memory holds a tree |
| `RbEffects.dfy` | what each group of writes of `src/cs_rbtree.c` does to the tree that memory holds |
| `RbTree.dfy` | `src/cs_rbtree.c` itself: class `Rbtree`, statement by statement, both mirror images written out |
| `TailQueue.dfy` | the TAILQ macros: class `TailQueues` over heads and entries |
| `ContextSwitch.dfy` | `coro_transfer`, `coro_init`, `coro_create`: class `Machine`, and runs of many contexts |
| `SchedulerModel.dfy` | the master scheduler as a state machine; theorems about every run |
| `WholeSystem.dfy` | that state machine on that processor: the two levels of a switch together |
| `Bodies.dfy` | bodies of coroutines as scripts, and what it means that a run carries them out |
| `Master.dfy` | the scheduler's functions over the real tree and the real queue, refining that state machine |

How C is represented:

- An address is an integer from 0 to 2^63 - 1, 0 is NULL, and `int64_t` keys are
  bounded. `&coro->node`, `&coro->ws_tqe` and `coro` differ by fixed offsets and
  are one address here. A memory is a map whose keys are the live structures, so
  a read or write through a NULL, dangling or unconstrained pointer does not
  verify. The invariant says nothing about the parent links of the root and of the
  sentinel (`RbMemory.ScratchLinks`). The root's is never followed; the sentinel's
  only by the delete fixup, while the sentinel stands for the position and
  `ShortAt` says what the link is.
- The allocator may return NULL or any address not in use, a freed one included:
  its answers are an arbitrary sequence (`Master.answers`), of which `Answer()` is
  the next. A spawn that fails is an event too (`Refuse`).
  Each spawn gets a number, so that histories can tell coroutines apart.
- Each tree and queue operation is a method over fields that are reassigned. It is
  proved by showing that its writes yield a memory given by a function of the old
  one, and then that this memory holds the intended tree or queue. `Rbtree.shape`
  and `TailQueues.queues` are ghost fields with that tree and those queues.
- `Rbtree.Valid` says: linked, with right parent links below the root; sentinel
  black, childless, key 0, no data; no node twice; red-black; keys in order.
  `IsQueue` says: every next link, every back link naming the slot that points at
  its element, and the tail slot.
- A coroutine body is a finite script of spawns, yields, direct switches and
  stops that ends in `coro_exit` (`Bodies.Script`). The theorems about runs in
  `SchedulerModel` do not use scripts: there a running coroutine may do anything
  at any time. They hold for `Master` because it keeps the list of events (`trace`)
  and its structures always represent the state which that list leads to.
  `Faithful` says that the list is what the bodies and the allocator make it.
- In `WholeSystem` a change of `control` is a `coro_transfer` between the contexts
  of main, of `sched_run` and of the coroutines, a spawn is a `coro_create`, and
  a freed coroutine is a context that is gone; the running code may do any work in
  between. Whatever events happen in `SchedulerModel`, and so in `Master`, the
  contexts they need are there.
- The processor has `rsp`, a program counter, `rdi` and the six registers that a
  callee must preserve besides `rsp` (section 3.2.1 of the System V AMD64 ABI).
  Memory addresses count 8-byte words. The two `volatile` locals of `coro_init`
  are two words pushed on its own stack.

What the code does that its documentation or its own assertions do not say:

- `rbtree_lookup` of key 0 returns the sentinel, not NULL, when no node has key 0.
  `sched_get_coro` still answers nil, because the sentinel's data is NULL.
- The assertion left commented out in `coro_ready` (status FREE or RUN) holds in
  every run without direct switches (`ReadyFromFreeOrRun`) and fails with them
  (`ReadyFromReady`), because `sched_run_once` never sets RUN. `ReadyExactly`: over
  any run it holds at a call exactly when the call is made by `coro_spawn`, or
  the last event that gave control to another coroutine was a dispatch of
  `sched_run` (`ByDispatch`).
- The assertion left commented out after the `coro_switch` of `sched_run` (the
  coroutine that comes back is the one dispatched) holds without direct switches
  (`SwitchedBackPlain`) and fails with them (`SwitchedBackOther`).
  `SwitchedBackExactly`: it holds exactly when the direct switches since the
  dispatch have led once or more around the queue, or there were none, counting
  only events and the length of the queue (`Hops`). If nobody was spawned or
  stopped meanwhile, that is when the queue's length plus one divides their number
  (`HopsModulo`).
- A coroutine that exits while another one is the local variable of `sched_run`
  is never freed and stays registered for ever (`ExitReclaimedIffHeld`,
  `LeakedForEver`). `ExitLeaks` is a run in which that happens: 8 and 16 are
  spawned, 8 is dispatched and switches directly, 16 exits. The skipping of exited
  coroutines in `sched_run_once` is never taken.

## Model

| member | source | states |
|---|---|---|
| RbTree.Rbtree.constructor | src/cs_rbtree.c:25-43 | an empty tree whose sentinel is the given node, cleared and black |
| RbTree.Rbtree.LeftRotate | src/cs_rbtree.c:88-113 | memory holds the rotated tree at the same position; same nodes in the same order; only links of tree nodes written, the sentinel untouched |
| RbTree.Rbtree.RightRotate | src/cs_rbtree.c:115-140 | the mirror image |
| RbTree.Rbtree.SetColor | src/cs_rbtree.h:29-33 | recolouring one node recolours that node of the tree and writes nothing else |
| RbTree.Rbtree.InsertFixupLeft | src/cs_rbtree.c:182-199 | one round of the insert fixup: the red node comes strictly nearer to the root, order kept; at most two rotations, none if the loop goes on |
| RbTree.Rbtree.InsertFixupRight | src/cs_rbtree.c:200-218 | the mirror image |
| RbTree.Rbtree.InsertRotateRight | src/cs_rbtree.c:196-198 | the outside rotation leaves the red node below a black parent, one level higher |
| RbTree.Rbtree.InsertRotateLeft | src/cs_rbtree.c:214-216 | the mirror image |
| RbTree.Rbtree.InsertFixup | src/cs_rbtree.c:178-221 | the loop ends in a red-black tree of the same nodes in the same order, after at most two rotations |
| RbTree.Rbtree.Descend | src/cs_rbtree.c:160-170 | finds the empty position that has all smaller or equal keys before it and all larger ones after it |
| RbTree.Rbtree.Insert | src/cs_rbtree.c:142-222 | from any valid tree and a fresh node to a valid tree whose order is the old one with the node after every key up to its own; keys, data and outside nodes unchanged; at most two rotations |
| RbTree.Rbtree.DeleteRedSiblingLeft | src/cs_rbtree.c:313-318 | a red sibling is turned into a black one below a red parent, the position staying one black node short |
| RbTree.Rbtree.DeleteRedSiblingRight | src/cs_rbtree.c:341-346 | the mirror image |
| RbTree.Rbtree.DeleteInnerLeft | src/cs_rbtree.c:324-329 | the red near nephew is moved to the far side |
| RbTree.Rbtree.DeleteInnerRight | src/cs_rbtree.c:352-357 | the mirror image |
| RbTree.Rbtree.DeleteOuterLeft | src/cs_rbtree.c:331-335 | a red far nephew ends the shortage: the whole tree is red-black |
| RbTree.Rbtree.DeleteOuterRight | src/cs_rbtree.c:359-363 | the mirror image |
| RbTree.Rbtree.DeleteBlackSiblingLeft | src/cs_rbtree.c:320-336 | a black sibling: the shortage moves to the parent without rotation, or ends after at most two |
| RbTree.Rbtree.DeleteBlackSiblingRight | src/cs_rbtree.c:348-364 | the mirror image |
| RbTree.Rbtree.DeleteFixupLeft | src/cs_rbtree.c:310-336 | one round of the delete fixup: the position ends red, or strictly nearer to the root although a red sibling pushes it down; at most three rotations, none if the loop goes on |
| RbTree.Rbtree.DeleteFixupRight | src/cs_rbtree.c:338-365 | the mirror image |
| RbTree.Rbtree.DeleteFixup | src/cs_rbtree.c:306-368 | the loop ends in a red-black tree of the same nodes in the same order, after at most three rotations; works when the position is the sentinel |
| RbTree.Rbtree.SelectSubst | src/cs_rbtree.c:232-247 | the node to unhook has at most one child: the node itself, or the leftmost node of its right subtree |
| RbTree.Rbtree.TakeOut | src/cs_rbtree.c:258-300 | unhooking the node itself: memory holds the tree with its child in its place, and the child's or sentinel's parent link is right |
| RbTree.Rbtree.TakePlace | src/cs_rbtree.c:258-300 | the successor, the node's right child included, takes the node's place, links and colour |
| RbTree.Rbtree.DeleteRoot | src/cs_rbtree.c:249-256 | a root with at most one child: the child, or nothing, is the new black root |
| RbTree.Rbtree.Delete | src/cs_rbtree.c:224-369 | from any valid tree and any node in it to a valid tree whose order is the old one without that node object; every other node keeps identity, key and data; the node itself ends with three NULL links, key 0, data NULL and its old colour; of the sentinel only the parent link may change; at most three rotations |
| RbTree.Rbtree.NodeMin | src/cs_rbtree.c:45-55 | the leftmost node below the given one |
| RbTree.Rbtree.Min | src/cs_rbtree.c:57-70 | NULL for an empty tree, otherwise the first node in order, whose key is least |
| RbTree.Rbtree.Lookup | src/cs_rbtree.c:72-86 | a node with the key if there is one; otherwise the sentinel for key 0 and NULL for any other; the tree nodes inspected are exactly the search path from the root, at most 2*log2(n+1) of them |
| RbTree.Rbtree.InitNode | src/cs_rbtree.c:25-34 | three NULL links, key 0 and data NULL; the colour and all other nodes stay |
| RbShape.PlugBalanced | src/cs_rbtree.c:180-219 | a balanced subtree in balanced surroundings makes a red-black tree |
| RbShape.BalancedUnplug | src/cs_rbtree.c:308-366 | and conversely, at every position |
| RbShape.InsertRecolour | src/cs_rbtree.c:185-189 | a red uncle: recolouring keeps black heights and moves the red node two levels up |
| RbShape.InsertStop | src/cs_rbtree.c:180-221 | when the insert loop stops, blackening the root gives a red-black tree |
| RbShape.SiblingExists | src/cs_rbtree.c:310-320 | the sibling of the delete fixup is never the sentinel, and has two children if it is red |
| RbShape.DeleteRedSibling | src/cs_rbtree.c:313-318 | the shortage survives the rotation of a red sibling, with the same height below it |
| RbShape.DeleteInner | src/cs_rbtree.c:324-329 | and that of a black sibling with a red near child |
| RbShape.DeleteOuter | src/cs_rbtree.c:331-335 | with a red far child one rotation makes the whole tree red-black |
| RbShape.DeleteStop | src/cs_rbtree.c:308-368 | where the delete loop stops, blackening the position makes the whole tree red-black |
| RbShape.RemoveBalance | src/cs_rbtree.c:258-304 | unhooking a red node keeps the tree red-black, unhooking a black one leaves it one black node short at that position |
| RbShape.HeightLogarithmic | src/cs_rbtree.c:72-86 | 2^height <= (n+1)^2 for a red-black tree of n nodes |
| RbMemory.HoldsPlug | src/cs_rbtree.c:88-113 | memory holds a tree exactly if it holds a subtree, its surroundings and the parent link between them |
| RbMemory.RotateLinked | src/cs_rbtree.c:88-140 | the writes of a rotation, at the root or below it, make memory hold the rotated tree |
| RbMemory.BypassLinked | src/cs_rbtree.c:258-300 | the writes that unhook a node with at most one child |
| RbMemory.SpliceLinked | src/cs_rbtree.c:258-300 | the writes that put the successor in the node's place, direct right child or deeper |
| RbMemory.RootOutLinked | src/cs_rbtree.c:249-256 | the writes that remove a root with at most one child |
| RbMemory.ScratchLinks | src/cs_rbtree.c:249-274 | the parent links of the root and of the sentinel may hold anything |
| RbEffects.TakeOutOrder | src/cs_rbtree.c:258-300 | exactly the node object disappears from the order |
| RbEffects.TakePlaceOrder | src/cs_rbtree.c:258-300 | also when the successor takes its place |
| RbEffects.AttachEffect | src/cs_rbtree.c:160-176 | the new red leaf is linked, in order, and the rest of the tree balanced around it |
| RbEffects.LookupMiss | src/cs_rbtree.c:72-86 | reaching the sentinel means that no node has the key |
| RbEffects.InspectBound | src/cs_rbtree.c:72-86 | 2^k <= (n+1)^2 for k nodes inspected on one path |
| TailQueue.TailQueues.Init | src/cs_queue.h:591-595 | an empty queue beside the others, on a new head or on one in use, whose entries are then unqueued |
| TailQueue.TailQueues.InsertHead | src/cs_queue.h:621-632 | the entry in front of the sequence; all links of all queues right |
| TailQueue.TailQueues.InsertTail | src/cs_queue.h:634-642 | the entry at its end |
| TailQueue.TailQueues.InsertAfter | src/cs_queue.h:597-609 | the entry after the given one |
| TailQueue.TailQueues.InsertBefore | src/cs_queue.h:611-619 | the entry before the given one, the head not being consulted |
| TailQueue.TailQueues.Remove | src/cs_queue.h:652-668 | the sequence without that element, which is then in no queue |
| TailQueue.TailQueues.Pop | src/cs_scheduler.c:259-267 | NULL for an empty queue, otherwise its first element, taken off |
| TailQueue.TailQueues.Concat | src/cs_queue.h:556-565 | the second sequence appended to the first and cleared, either being empty or not |
| TailQueue.TailQueues.Swap | src/cs_queue.h:670-685 | the two sequences exchanged, back links and tail slots mended, either being empty or not |
| TailQueue.TailQueues.Empty | src/cs_queue.h:567 | true exactly for the empty sequence |
| TailQueue.TailQueues.Last | src/cs_queue.h:644-645 | reading an entry or a head as a head gives the last element, NULL when empty |
| TailQueue.TailQueues.Prev | src/cs_queue.h:649-650 | and the predecessor, NULL for the first element |
| TailQueue.TailQueues.Foreach | src/cs_queue.h:571-574 | forward traversal visits the sequence |
| TailQueue.TailQueues.ForeachReverse | src/cs_queue.h:581-584 | reverse traversal visits exactly its reverse |
| TailQueue.ReverseAt | src/cs_queue.h:581-584 | what the reverse is, element by element |
| TailQueue.InsertionHolds | src/cs_queue.h:597-642 | the new entry and the links around it are all an insertion at any place has to write |
| TailQueue.RemovalHolds | src/cs_queue.h:652-668 | the two links around it are all a removal has to write |
| TailQueue.OtherQueues | src/cs_queue.h:591-668 | an operation on one queue leaves the others well formed and disjoint from it |
| TailQueue.Concatenated | src/cs_queue.h:556-565 | two link writes and the tail slot append one queue to another |
| ContextSwitch.Machine.CoroTransfer | src/cs_coro.c:190-207 | afterwards registers, stack pointer and return address are those of the frame that the second context leads to; below the caller's return address lies a frame with the old registers, its address in the first context, and no other word has changed |
| ContextSwitch.Machine.CoroInit | src/cs_coro.c:84-90 | function and argument from the static variables are on its own stack, it rests in a frame below them that the new context leads to, and control goes on from the creator's frame |
| ContextSwitch.Machine.CoroCreate | src/cs_coro.c:244-391 | a null function creates nothing; otherwise the new stack is entered at `coro_init`, control returns to the creator with its registers and stack pointer, the new context rests in `coro_init` with its own function and argument, and nothing else has changed |
| ContextSwitch.Machine.PrepareStack | src/cs_coro.c:363-376 | the context leads to a frame at the top of the new stack that enters `coro_init` with zero registers, above it `abort`; no other word has changed |
| ContextSwitch.TransferSaves | src/cs_coro.c:191-197 | a call of `coro_transfer` leaves return address and registers in a frame, the frame's address in the context, all other memory as it was |
| ContextSwitch.TransferResumes | src/cs_coro.c:198-207 | from a frame it restores the registers, the stack pointer before the call and the return address |
| ContextSwitch.CreateEffect | src/cs_coro.c:244-392 | a creation returns to its creator with its registers and stack pointer; the new context rests in `coro_init` with its own function and argument on its own stack |
| ContextSwitch.StepKeeps | src/cs_coro.c:190-207 | transfers, creations, frees and arbitrary work on one's own memory keep every suspended context resumable |
| ContextSwitch.ResumedAsLeft | src/cs_coro.c:190-207 | over any run: a context that switched away continues, when next resumed, at its own return address with its own stack pointer, six registers and stack contents |
| ContextSwitch.FirstResumeCalls | src/cs_coro.c:80-100 | over any run: control returns to the creator first, and the first resumption calls the context's own function with its own argument, whatever was created in between |
| ContextSwitch.CreatedIsRunnable | src/cs_coro.c:244-392 | a context just created can be switched to, and its creator then back to |
| SchedulerModel.RunDirectNeverSkips | src/cs_scheduler.c:44-69 | `sched_run_once` never meets an exited coroutine in the queue, and switches to the first one or does nothing |
| SchedulerModel.RunOnceSwitches | src/cs_scheduler.c:44-69 | unless stopped or nobody waits, the first of the queue has control and is current, the caller is READY at the tail, and nobody else has changed |
| SchedulerModel.StoppedDispatchesNone | src/cs_scheduler.c:44-101 | over any run: after a stop nobody is given control by a dispatch or a direct switch, and the stop stays |
| SchedulerModel.StepKeeps | src/cs_scheduler.c:75-101 | every step keeps: queued ones READY, once, registered; registry equal to the allocated ones; the running one current and not queued; accounts of spawned and freed; FIFO |
| SchedulerModel.FirstInFirstOut | src/cs_scheduler.c:244-267 | over any run, direct switches included: what was queued is what was dispatched followed by who waits |
| SchedulerModel.ExitReclaimedIffHeld | src/cs_scheduler.c:90-97 | an exit is reclaimed exactly when the exiting coroutine is the local variable of `sched_run`; otherwise it stays registered |
| SchedulerModel.FreedIsNobodys | src/cs_scheduler.c:93-97 | whoever is freed has exited, was held, and is neither queued nor current; nothing else frees |
| SchedulerModel.LeakedForEver | src/cs_scheduler.c:44-69 | an exited coroutine that was not held stays registered over any further run |
| SchedulerModel.QueuedOnceOrCurrent | src/cs_coroutine.c:21-66 | over any run without direct switches a registered coroutine is queued once and READY, or current and RUN |
| SchedulerModel.DrainedMeansReclaimed | src/cs_scheduler.c:78-98 | over any run without direct switches an empty queue at the top of the loop means an empty registry and every spawned coroutine freed exactly once |
| SchedulerModel.ExitLeaks | src/cs_scheduler.c:44-69 | a run from the start in which that happens, and 16 is registered after every further run |
| SchedulerModel.DrainedMeansExited | src/cs_scheduler.c:78-98 | over any run, direct switches included: each spawned coroutine is freed once or still there, never both; with an empty queue at the top of the loop those still there have exited |
| SchedulerModel.ReadyCallMade | src/cs_coroutine.c:37-43 | the calls of `coro_ready` in `coro_spawn`, `coro_yield` and `sched_run_once` are all there are, and the assertion in force (not EXIT) holds at each, after any run |
| SchedulerModel.ReadyFromFreeOrRun | src/cs_coroutine.c:37-43 | after runs without direct switches the assertion commented out in `coro_ready` (FREE or RUN) holds at every call, the one in `coro_spawn` included |
| SchedulerModel.ReadyFromReady | src/cs_coroutine.c:37-43 | with them it fails: a concrete run |
| SchedulerModel.RunningStatus | src/cs_scheduler.c:58-67 | over any run: the running coroutine is FREE or RUN if and only if the last event that gave control to another coroutine is a dispatch of `sched_run` |
| SchedulerModel.ReadyExactly | src/cs_coroutine.c:37-43 | after any run that assertion holds at a call if and only if the call is made by `coro_spawn`, or the running coroutine got control by such a dispatch |
| SchedulerModel.SwitchedBackExactly | src/cs_scheduler.c:88-93 | over any run: the assertion commented out after `coro_switch` (the one that comes back was dispatched) holds if and only if the direct switches since the dispatch led around the queue to it |
| SchedulerModel.SwitchedBackPlain | src/cs_scheduler.c:88-93 | over any run without direct switches it holds |
| SchedulerModel.SwitchedBackOther | src/cs_scheduler.c:88-93 | with them it fails: a concrete run |
| SchedulerModel.HopsModulo | src/cs_scheduler.c:44-69 | with nobody spawned or stopped meanwhile, who is dispatched runs again after every (waiting + 1)-th direct switch |
| SchedulerModel.RoundRobin | src/cs_scheduler.c:79-91 | over any run, direct switches included: between two consecutive dispatches of a coroutine everyone waiting at the first is dispatched exactly once |
| WholeSystem.NeededIsThere | src/cs_coroutine.c:116-120 | whatever the scheduler does, the context that it transfers to is suspended, that which it creates is new, and that which it frees is suspended and not running |
| WholeSystem.RunsTogether | src/cs_scheduler.c:75-101 | every run of the scheduler, with any work of the running code in between, is a run of the processor, given room on the stacks and memory from the allocator that nobody owns |
| WholeSystem.WaitsOn | src/cs_scheduler.c:75-101 | main, `sched_run` and a queued coroutine are neither freed nor forgotten before control is given to them |
| WholeSystem.GoesOnAsLeft | src/cs_coroutine.c:60-120 | over any run: whoever gave up control but by an exit, main and `sched_run` included, goes on when the scheduler next gives it control at its own return address with its own stack pointer, registers and stack |
| WholeSystem.WhoRuns | src/cs_scheduler.c:75-101 | the context in use is the current coroutine's while one runs, that of `sched_run` in its loop, and main's before and after |
| WholeSystem.MainGoesOn | src/cs_scheduler.c:99-100 | over any run: the end of `sched_run` transfers to main, which goes on after its transfer in `env_run`, at its own return address with its own stack pointer, registers and stack |
| WholeSystem.IdleRunEnds | src/cs_scheduler.c:78-100 | and so it does at once when nobody waits or the environment was stopped before |
| WholeSystem.YieldComesBack | src/cs_scheduler.c:78-98 | a lone coroutine that yields is given control again after one round of `sched_run`, with nothing further asked of memory |
| WholeSystem.StartsItsBody | src/cs_coroutine.c:21-35 | over any run: a spawn returns to the spawner, and when the scheduler first gives control to the coroutine, it calls its own function with its own argument |
| WholeSystem.Started | src/cs_scheduler.c:187-194 | the two levels agree after `env_init` has created the context of `sched_run` |
| Bodies.LoyalStep | src/cs_coroutine.c:21-66 | a run in which each coroutine, known by its number, has done what its body says so far, in order, stays one by the next action of the running script and by any event while no coroutine runs; a coroutine launched starts with the child as its script |
| Bodies.AllWhole | src/cs_coroutine.c:52-58 | in such a run, once all that are left have exited, every coroutine ever spawned has done the whole of the body it was spawned with |
| Bodies.WholeMeans | src/cs_coroutine.c:21-66 | the whole of a body is one deed for each of its actions, in order, the exit last, where a spawn may have failed |
| Master.Master.constructor | src/cs_scheduler.c:187-213 | the structures represent the initial state |
| Master.Master.CoroSpawn | src/cs_coroutine.c:21-35 | succeeds if and only if the allocator answers an address; then a spawn at that address with the given body, and otherwise nothing changes |
| Master.Master.CoroAlloc | src/cs_coroutine.c:122-138 | a FREE coroutine with its own address as id, key and data, registered and not queued |
| Master.Master.CoroReady | src/cs_coroutine.c:37-43 | READY and at the tail of the queue |
| Master.Master.CoroYield | src/cs_coroutine.c:60-66 | refines a yield; that the caller is the current coroutine is proved |
| Master.Master.CoroExit | src/cs_coroutine.c:52-58 | refines an exit |
| Master.Master.RunOnceNow | src/cs_scheduler.c:44-69 | refines the direct switch, loop included |
| Master.Master.HasTask | src/cs_scheduler.c:71-73 | true exactly when someone waits |
| Master.Master.Register | src/cs_scheduler.c:30-33 | the tree registers one more coroutine |
| Master.Master.Unregister | src/cs_scheduler.c:95-96 | the node leaves the tree before its memory is freed |
| Master.Master.GetCoro | src/cs_scheduler.c:35-42 | after any run: the registered coroutine with that id, nil for every other id, 0 included |
| Master.Master.RegisteredOnce | src/cs_scheduler.c:30-33 | after any run, address reuse included: the tree holds exactly the allocated coroutines, one node each, under distinct keys |
| Master.Master.TakeTurn | src/cs_scheduler.c:79-91 | refines a dispatch |
| Master.Master.ReapHeld | src/cs_scheduler.c:93-97 | refines the reaping of the held coroutine |
| Master.Master.Act | src/cs_coroutine.c:21-66 | the running body performs the event of its next action, a spawn as the allocator answers; its script is the rest, a launched coroutine's the child, all others as before; the work left is lower |
| Master.Master.SchedRun | src/cs_scheduler.c:75-101 | ends, whatever the bodies do; all events are its own start, dispatches, reaps and finish, or the actions of the scripts in order; unless a body halts, it is not stopped; every spawned coroutine was freed once or is still registered; not stopped, the queue is empty, those registered have exited, and every coroutine has done the whole of its body; with spawns and yields only, tree, queue and memory are empty and every coroutine was freed exactly once |
| Master.Master.Round | src/cs_scheduler.c:79-97 | one round: a dispatch if somebody waits, then what the scripts say, then a reap, and nothing else |
| Master.Master.EnvStop | src/cs_scheduler.c:237-242 | refines the setting of the stop flag |

## Left out

- The parallel scheduler (`parallel_run`, `coro_sent_parallel`, `coro_switch_to_parallel`, `coro_switch_to_master`, `coro_ready_immediatly`, `scheduleback_run`): `need_parallel` is false throughout, the only value the code assigns, so its branches in `sched_run` and `sched_run_once` are omitted.
- The event manager: epoll I/O. `sched_run_once` is a step that a running coroutine may take; with no current coroutine it would dereference nil.
- `env_run`, thread and socket creation: operating system calls. Of `env_stop` only the master's flag is kept; `env_run` is the event that lets `sched_run` begin.
- The end of `sched_run` after its transfer to main: resuming it again returns into `abort`.
- The other backends of `src/cs_coro.c`, and `coro_stack_alloc`: not selected by the build.
- A body that returns: the code aborts.
- SLIST, STAILQ, LIST and CIRCLEQ: not used here; their proofs would be easier copies of TAILQ's.
- Logging, strings, utilities: wrappers over libc.
- Stack alignment and floating-point control state across a switch: the code saves six general registers only.
- Stack overflow: a switch and a creation require room for the words they push, as the source assumes without checking.
- Scheduler data in the words of memory: in `WholeSystem` tree, queue and statuses are those of `SchedulerModel` and have no addresses of their own. That work of the running code leaves suspended stacks and contexts alone is asked of it, and so are room on the stacks and the allocator's promise.
- Master.Master.SchedRun: scripts are finite, so a body that yields for ever is covered by the theorems on runs, not by this one.
- Master.Master.CoroAlloc: without the call of `coro_create` inside it, which is what a spawn does in `WholeSystem`.
