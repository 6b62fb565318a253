# p4db: a model and its proofs

p4db runs transactions partly on hosts, on rows under locks ("cold" keys), and partly inside a
programmable switch, in its register arrays ("hot" keys). This project models the places where
concurrency control and sharing happen and proves what they promise, for every input and every run.

**The switch and its multi-pass locks.** `SwitchModel` is the cycle-level simulator as a step system
(input buffers, parsers, an 18-stage pipe, recirculation, egress), `SwitchPlaces` follows packets
through a cycle, and `SwitchPipeline` proves that the pipelined switch cannot be told from an atomic
one. `WholePipe` and `WholePipeDrain` treat the whole-pipe lock (serial runs, and a measure by which
they drain), `Granular` the granular locks (serializability in first-pass order), and `SerialChecker`
the walk that looks for cycles. `SwitchSlots` and `SwitchSim` are the slot pool and the simulator in
its imperative form, refining the model, and `SwitchAdmission` says who gets in and who gives up.
`Layout`, `PassSplit` and `LockPacking` plan transactions for it, up to the theorem that every run of
planned transactions is serializable, and `PlanExact` says exactly what the planner decides. `P4Protocol`
is the protocol of the real switch program with its 32-bit lock word, and `P4Retries` counts its tries.

**The cold path.** `ColdModel`, `ColdLocks` and `ColdSerial` model any interleaving of
lock-all-then-write transactions over local and remote rows, `ColdMiniBatch` the rule on mini-batches,
`ColdGrants` when a lock is refused, and `ColdExecutor` the code that locks, accesses and releases.
`ReusableBarrier`, `NodeBarrier` and `HotPeriod` are the thread barrier, the two-node barrier and the send
loop that has to stay aligned.

**The control plane.** `BlockAllocator` allocates blocks of switch memory through per-block queues,
`BlockTimes` says what its estimates mean, `AllocatorRuns` finds its runs in those of the control plane,
`ControlPlane` is the request loop together with the nodes that talk to it, and `Scheduler` is the
loop's code.

**From the host to the switch.** `HotCold` splits a transaction in place and undoes the split,
`HostLayout` and `HostLoads` are the node's layout, `Packet` the bytes of a packet and what the switch
program makes of them, `HotStore` the key store that this amounts to for many tenants at once, and `HotLoad` the
packets around a hot period. `Tenancy` puts control plane, barrier and packets together, with sending a
packet and executing it as separate steps: if nodes wait for their packets, each batch of a tenant runs
on its own key store although blocks change hands. `LatePackets` shows what happens to other tenants if
they do not wait, and exactly when tenants stay isolated from one another. `BatchIsolation` is about the
batches of a tenant, which start from its rows, and `LateBatches` shows that without waiting they mix as
soon as anything is hot. `TwoNodes` joins the barrier of `NodeBarrier` to `Tenancy`.

Protocols are step systems: a state, the steps enabled in it, and theorems about every reachable
state. Code that changes things in place is a method proved against a function on values, and the
properties are proved of that function.

Where code and documentation disagree, the model follows the code:

- A comment at the serializability checker only claims that an acyclic graph is enough; `Check` is
  proved exact in both directions.
- The control plane counts 64 slots per block (`switch_src/01_control_plane/handle.cpp:15`), the node
  32 (`src/ee/defs.hpp:53`). `BlockAllocator` and `HostLayout` each use their own number.
- The wait between nodes is for exactly one message, although more can arrive; `NodeBarrier` has the
  run that blocks.
- The hot period ends without waiting for a reply (`src/ee/hot_period.cpp:158-168`), and the block is
  given back at once (`src/ee/executor.cpp:560-561`); replies are only counted
  (`src/comm/switch_intf.cpp:117-125`). The unused `src/ee/old_hot_period.cpp:126` does wait.
  Histories have both variants, and isolation is proved for nodes that wait. What it takes without
  waiting is exact: `LatePackets.IsolatedIff` says when tenants are isolated from one another, and
  `LateBatches.BatchIsolatedIff` that batches are isolated only if nothing is hot.
- The comparison by which the node's layout sorts keys inverts its own name; nothing proved here
  depends on the order.

Assumptions: memory is sequentially consistent, as the code's atomics intend; remote lock and unlock
are atomic steps at the row's node; the clock, the network and the middle function of a barrier are
parameters; a transaction has distinct keys where the simulator plans it; the two-pass locks are used
with at most two passes, which is what the planner accepts. Where packets are under way to the switch
they can be executed at any time and in any order, and none is lost. That all nodes of a tenant come to
the barrier at the end of a hot period before one of them asks again is part of the steps of `Tenancy`,
for any number of nodes; for two `TwoNodes.JointRunIsHistory` proves it of the barrier.
Mini-batch numbers and node ids are unbounded; the code packs them into 27 and 4 bits
(`src/ee/types.hpp:16-21`), so what is proved about mini-batches holds for runs whose numbers fit.

## Model

| member | source | states |
|---|---|---|
| `SwitchModel.RegOps` | mine/fast_layout/src/switch.cpp:138-156 | the stages from the last down to `n` leave as last toucher of a cell the packet that executes on it, and keep all others; the dependencies added are exactly those on the previous last touchers |
| `SwitchModel.Fullest` | mine/fast_layout/src/switch.cpp:363-376 | of the port groups with a parsed packet the first with the fullest input buffer; none exactly if no group has one |
| `SwitchPlaces.Transport` | mine/fast_layout/src/switch.cpp:335-395 | whatever is anywhere after a cycle was at its one place of origin before, unchanged but for what exit and admission rewrite |
| `SwitchPlaces.OriginInjective` | mine/fast_layout/src/switch.cpp:335-395 | no packet is duplicated by a cycle: two places with the same origin are the same place |
| `SwitchPlaces.ReachableInv` | mine/fast_layout/src/switch.cpp:110-136 | in every run ids are unique and below the next id, and packets not yet admitted are new to the history |
| `SwitchPlaces.EverythingWasSent` | mine/fast_layout/src/switch.cpp:110-136 | in every run each packet in the switch has the passes and locks some accepted send gave that id, and each history entry is that pass of such a transaction |
| `SwitchPipeline.PipelineRefinesAtomic` | mine/fast_layout/src/switch.cpp:335-395 | in every reachable state each stage's registers are those of an atomic switch that ran the valid passes this stage has served, in the order they entered stage 0, the reported dependencies are exactly those such passes report, and the ones not yet served are exactly those in the stages before |
| `SwitchPipeline.DrainedPipeIsAtomic` | mine/fast_layout/src/switch.cpp:335-395 | with no valid pass in the pipe, registers and dependencies equal those of running each valid pass atomically at entry (both directions) |
| `WholePipe.SerialIsContiguous` | mine/fast_layout/src/switch.cpp:188-208 | in a serial history nothing comes between two passes of one transaction |
| `WholePipe.ReachableInv` | mine/fast_layout/src/switch.cpp:188-208 | the lock invariant: only the holder has begun and not finished, it is somewhere in the switch, and its next pass is the one the history lacks |
| `WholePipe.ValidPassesAreContiguous` | mine/fast_layout/src/switch.cpp:188-208 | under the whole-pipe lock the valid passes of one transaction enter one right after the other, in order, in every run |
| `WholePipeDrain.CycleRemaining` | mine/fast_layout/src/switch.cpp:335-395 | a cycle lowers the number of remaining passes by one exactly if a valid packet leaves the pipe, and never raises it |
| `WholePipeDrain.Progress` | mine/fast_layout/src/switch.cpp:335-395 | while passes remain, a cycle completes one or strictly lowers the distance to the next completion |
| `WholePipeDrain.DrainRate` | mine/fast_layout/src/switch.cpp:335-395 | without sends, and whatever is received, the remaining passes fall by at least one in any N_STAGES + 2 cycles |
| `WholePipeDrain.NothingIsLost` | mine/fast_layout/src/switch.cpp:335-411 | without sends every packet stays in the switch, waits in the egress queue of its port with all its passes run, or was received like that |
| `WholePipeDrain.DrainsCompletely` | mine/fast_layout/src/switch.cpp:335-411 | without sends the switch is empty after N_STAGES + 2 cycles per remaining pass, and every transaction that was in it completed all its passes and waits at its port or was received |
| `SwitchSlots.SendFindsASlot` | mine/fast_layout/src/mempool.h:13-28 | at most N_STAGES + 1 packets are in stages and recirculation parser together, so with at most 69 finished transactions in egress a send with room in its input buffer finds a free slot |
| `SwitchSlots.SendKeepsSlotInv` | mine/fast_layout/src/switch.cpp:110-136 | a send moves one slot from the free list to an input buffer; every slot stays in exactly one place |
| `SwitchSlots.RecvKeepsSlotInv` | mine/fast_layout/src/switch.cpp:397-411 | a receive moves one slot from egress to the free list; every slot stays in exactly one place |
| `SwitchSlots.CycleKeepsSlotInv` | mine/fast_layout/src/switch.cpp:335-395 | a cycle only moves slots, each to one place, and leaves the recirculation buffer empty |
| `SwitchSim.CycleView` | mine/fast_layout/src/switch.cpp:335-395 | moving slots and rewriting two pool entries is, seen through the pool, one cycle of the model |
| `SwitchSim.Switch.constructor` | mine/fast_layout/src/mempool.h:13-17 | all slots free in order, everything else empty: the model's initial state |
| `SwitchSim.Switch.Send` | mine/fast_layout/src/switch.cpp:110-136 | refines the model's send; it fails for want of a slot only with more than 69 finished transactions in egress |
| `SwitchSim.Switch.Recv` | mine/fast_layout/src/switch.cpp:397-411 | refines the model's receive: the first of the port's egress queue and its slot given back |
| `SwitchSim.Switch.RunRegOps` | mine/fast_layout/src/switch.cpp:138-156 | performs the operations of one stage |
| `SwitchSim.Switch.ExitLast` | mine/fast_layout/src/switch.cpp:340-358 | the packet in the last stage counts its pass and goes to egress as done, as failed, or back to the recirculation buffer |
| `SwitchSim.Switch.ShiftPipe` | mine/fast_layout/src/switch.cpp:359-362 | all other stages perform their operations and hand on their packet |
| `SwitchSim.Switch.Choose` | mine/fast_layout/src/switch.cpp:363-376 | the recirculation parser first, else the group the model chooses |
| `SwitchSim.Switch.FillParsers` | mine/fast_layout/src/switch.cpp:389-394 | every empty parser, and only those, takes the front of its input buffer |
| `SwitchSim.Switch.Admit` | mine/fast_layout/src/switch.cpp:382-386 | the lock manager's verdict becomes the valid bit, the packet enters stage 0 and its parser is refilled |
| `SwitchSim.Switch.RunCycle` | mine/fast_layout/src/switch.cpp:335-395 | the imperative cycle refines the model's cycle and keeps every slot in one place |
| `SerialChecker.TopologicalIsAcyclic` | mine/fast_layout/src/switch.cpp:20-43 | a topological order of all transactions with dependencies rules out a cycle |
| `SerialChecker.Checker.AddDep` | mine/fast_layout/src/switch.cpp:45-52 | appends to the dependencies of one transaction, raises the largest id if needed, changes nothing else |
| `SerialChecker.Checker.WalkGraph` | mine/fast_layout/src/switch.cpp:55-72 | terminates; on success everything it reached is in a topological order and nothing new is left open; on failure there is a cycle |
| `SerialChecker.Checker.Check` | mine/fast_layout/src/switch.cpp:20-43 | true if and only if the dependency graph has no cycle; then no node is left as being visited and the order found is topological |
| `Granular.AssertsHold` | mine/fast_layout/src/switch.cpp:231-306 | no assertion in the granular lock manager fails for a packet that asks for admission in a reachable state |
| `Granular.ReachableInv` | mine/fast_layout/src/switch.cpp:231-306 | the protocol invariant over all runs of planned transactions |
| `Granular.LockWordIsDisjointUnion` | mine/fast_layout/src/switch.cpp:231-306 | in every reachable state the lock word is the disjoint union of what the packets in the switch hold |
| `Granular.DepGoesBack` | mine/fast_layout/src/switch.cpp:231-306 | every dependency points to a transaction whose first valid pass entered earlier |
| `Granular.GranularSerializable` | mine/fast_layout/src/switch.cpp:231-306 | in every run of any number of planned transactions conflicting passes follow the order of first valid passes, that order is topological for the reported dependencies, and so there is no cycle |
| `SwitchAdmission.RefusedIffFull` | mine/fast_layout/src/switch.cpp:102-136 | in every run a send is refused exactly if 500 packets of the same four neighbouring ports are queued, and more never are |
| `SwitchAdmission.AdmittedIff` | mine/fast_layout/src/switch.cpp:231-306 | in every run of planned transactions under granular locks a packet at stage 0 is admitted exactly if it is on a later pass, or has nothing to give back and no packet in the switch holds a lock it checks |
| `SwitchAdmission.GivesUpAfter24` | mine/fast_layout/src/switch.cpp:340-358 | in every run under granular locks what comes back undone was refused at least 24 times, counted from the run |
| `SwitchAdmission.GivenUpIff` | mine/fast_layout/src/switch.cpp:340-358 | and a packet at the end of the pipe is given up exactly if it was not admitted, has nothing to give back and was refused at least 24 times |
| `P4Protocol.SubtractSubset` | switch_src/my_p4db.p4:570-570 | subtracting a word whose bits are all set clears exactly those bits and never borrows |
| `P4Protocol.SwitchIngress.ExecuteLockAction` | switch_src/my_p4db.p4:565-575 | returns the old word; undoes by 32-bit subtraction or else acquires by OR |
| `P4Protocol.SwitchIngress.SetHeaders` | switch_src/my_p4db.p4:947-973 | the decision to access, to recirculate or to give up, and the header fields it rewrites |
| `P4Protocol.SwitchIngress.ExecuteRegisters` | switch_src/my_p4db.p4:975-985 | the register arrays one after another amount to one simultaneous access; the data returned are the old values |
| `P4Protocol.SwitchIngress.Apply` | switch_src/my_p4db.p4:941-985 | one trip of a packet refines the step that the protocol proofs are about |
| `P4Protocol.LockWordIsDisjointUnion` | switch_src/my_p4db.p4:565-575 | in every run of transactions of which any two check the locks they both acquire, the lock word is the disjoint union of the packets' undo words, and giving back clears exactly the giver's bits |
| `P4Protocol.TwoPassSerializable` | switch_src/my_p4db.p4:943-973 | every run is serializable in the order of first accesses: values read on both trips, who committed, and the final registers |
| `P4Protocol.UncheckedAcquireBorrows` | switch_src/my_p4db.p4:947-973 | for any two transactions that acquire a common lock which one does not check: a run after which a packet has to give back a bit that is not set |
| `P4Protocol.NeverBorrowsIff` | switch_src/my_p4db.p4:565-575 | for any set of transactions, no run ever borrows if and only if any two of them check the locks they both acquire; acquiring only what is checked is enough |
| `P4Retries.GivesUpIff` | switch_src/my_p4db.p4:951-971 | in every run a packet that has to give bits back without having had an access leaves on that trip exactly if its refusals, counted from the run modulo 256, are at least eight; otherwise it goes round with nothing left to undo |
| `P4Retries.GivesUpAfterEight` | switch_src/my_p4db.p4:951-971 | in every run whoever has left without an access was refused on at least eight trips |
| `P4Retries.FewRefusalsStay` | switch_src/my_p4db.p4:951-971 | in every run a transaction that was sent and refused fewer than eight times is still on its way or got its access |
| `Layout.LayoutMaps` | mine/fast_layout/src/layout.cpp:157-180 | forward and backward maps are inverse, cover exactly the given keys, and indices per register are contiguous from 0 |
| `Layout.WeightIsLoad` | mine/fast_layout/src/layout.cpp:157-180 | the weight the loop keeps is the sum of the counts of the keys it put there |
| `Layout.LoadsAreBalanced` | mine/fast_layout/src/layout.cpp:157-180 | the loads of any two registers differ by at most the largest key count |
| `Layout.LayoutOrder` | mine/fast_layout/src/layout.cpp:157-180 | within a register a smaller index means a key that is used at least as often |
| `PlanExact.PlacedWhereLeastUsed` | mine/fast_layout/src/layout.cpp:157-180 | every key is in the first of the registers least used by the keys before it, with loads summed over the finished map |
| `Layout.KeyLayout.FindLowest` | mine/fast_layout/src/layout.cpp:164-173 | the nested scan finds the first register of least weight |
| `Layout.KeyLayout.constructor` | mine/fast_layout/src/layout.cpp:157-180 | the loop over mutable weights and maps computes the layout function |
| `Layout.KeyLayout.Lookup` | mine/fast_layout/src/layout.cpp:213-220 | a location exactly for the keys that were placed, whose reverse look-up is the key |
| `Layout.KeyLayout.RevLookup` | mine/fast_layout/src/layout.cpp:222-226 | the key whose look-up is the cell |
| `PassSplit.SortLocsArranges` | mine/fast_layout/src/layout.cpp:238-256 | sorting puts the cells in strict order by register, count and index, and keeps all of them |
| `PassSplit.InExactlyOnePass` | mine/fast_layout/src/layout.cpp:272-287 | each cell is in pass p if and only if p is its rank among the transaction's cells of that register |
| `PassSplit.PassCountIsMax` | mine/fast_layout/src/layout.cpp:258-270 | the number of passes is the largest number of cells in one register |
| `PassSplit.ZeroInFirstPass` | mine/fast_layout/src/layout.cpp:272-287 | index 0 of a register never lands in a later pass |
| `PassSplit.GroupEnd` | mine/fast_layout/src/layout.cpp:263-266 | the end of a register's group, with the rank of each member |
| `PassSplit.CountPasses` | mine/fast_layout/src/layout.cpp:258-270 | every rank is below the count and one rank attains it |
| `PassSplit.PutGroup` | mine/fast_layout/src/layout.cpp:276-286 | the k-th cell of a group goes into pass k, and nothing else changes |
| `PassSplit.Split` | mine/fast_layout/src/layout.cpp:272-287 | the two loops compute a split in which the grids hold exactly the cells of their rank |
| `LockPacking.PackGroup` | mine/fast_layout/src/layout.cpp:378-387 | one lock: the next keys until they carry a quantum or run out; what is packed so far stays grouped as `PackLocks` says, with one lock more |
| `LockPacking.PackLocks` | mine/fast_layout/src/layout.cpp:373-392 | every listed key gets exactly one lock and at most 32 are used, for every workload; along the list lock numbers never fall, every number below the count is used, and neighbours share a lock exactly if it carries less than a quantum so far |
| `PlanExact.QuantumIsLeast` | mine/fast_layout/src/layout.cpp:373-373 | the quantum is the least that 32 locks have to carry each to carry everything |
| `LockPacking.SumIsSize` | mine/fast_layout/src/layout.cpp:369-373 | the counts of the listed keys sum to the number of counted uses |
| `LockPacking.ListByFreq` | mine/fast_layout/src/layout.cpp:369-372 | the counted keys, each once, by falling count |
| `LockPacking.KeyCounts` | mine/fast_layout/src/batch.cpp:13-25 | the keys of a workload, each once, with exactly the number of its uses, by falling count |
| `LockPacking.Prepare` | mine/fast_layout/src/layout.cpp:228-287 | looks up, sorts and splits one transaction |
| `LockPacking.Collect` | mine/fast_layout/src/layout.cpp:340-365 | adds exactly one use for each cell with an index other than 0, and collects exactly the cells that are not the first of the transaction in their register |
| `LockPacking.SplitAll` | mine/fast_layout/src/layout.cpp:315-366 | drops transactions with more than two passes or too large a second pass; the uses counted are exactly those of the accepted ones |
| `LockPacking.PrepareTxns` | mine/fast_layout/src/layout.cpp:306-412 | the accepted transactions in order with their masks; exactly the lockable keys of accepted transactions have a lock, below 32, shared in groups of a quantum along the list of keys by falling count; wanted within check; every result that can be sent is an accepted plan of one of the transactions |
| `PlanExact.AcceptedIff` | mine/fast_layout/src/layout.cpp:319-338 | accepted are exactly the transactions with at most two keys in every register and two in at most two registers |
| `PlanExact.UsesAre` | mine/fast_layout/src/layout.cpp:345-357 | a key is counted once for every accepted transaction that uses it, and not at all if its index is 0 |
| `PlanExact.ChecksExactly` | mine/fast_layout/src/layout.cpp:399-402 | a transaction checks exactly the locks of its keys, a key without one counting as lock 0 |
| `PlanExact.TakesExactly` | mine/fast_layout/src/layout.cpp:403-406 | and takes exactly those of the keys in its later passes |
| `LockPacking.AcceptedIsPlanned` | mine/fast_layout/src/layout.cpp:394-408 | the masks of an accepted transaction satisfy what the granular protocol's proof assumes |
| `LockPacking.PlannedRunsSerializable` | mine/fast_layout/src/layout.cpp:306-412 | every run of planned transactions is serializable under granular locking |
| `LockPacking.PreparedRunsSerializable` | mine/fast_layout/src/layout.cpp:306-412 | end to end: every run in which the hosts send what `PrepareTxns` returned is serializable under granular locking |
| `ColdLocks.LocksAreExact` | src/ee/row.hpp:45-143 | in every interleaving a row's owner count is the number of log entries holding it, two holders of a row both read, a row is unlocked exactly when nobody holds it, and no release finds another mode |
| `ColdLocks.ReleasedExactlyOnce` | src/ee/undolog.cpp:17-28 | in every run a lock is taken at most once and never given back more often than taken; once its transaction is done, either way, it was given back exactly as often as it was taken |
| `ColdSerial.ColdPathSerializable` | src/ee/executor.cpp:22-102 | every value read and the final rows equal those of running the decided transactions serially in lock-point order |
| `ColdSerial.RollbackChangesNothing` | src/ee/executor.cpp:186-195 | a transaction without all its locks changes no value, neither while locking nor while rolling back; one that has them never rolls back |
| `ColdMiniBatch.RequestNeverOlder` | src/ee/row.hpp:32-43 | the assertion that a request is never of an older mini-batch than the row's last acquisition holds at every request of every run, rollbacks included |
| `ColdMiniBatch.MiniBatchesDisjoint` | src/ee/row.hpp:32-43 | a key only ever locked for writing is never committed by two nodes in the same mini-batch |
| `ColdMiniBatch.SharedLocksOverlap` | src/ee/row.hpp:113-132 | if one node may read a key and another may lock it in any mode: a run in which a rolled-back reader writes an older last acquisition back and both nodes commit the key in one mini-batch |
| `ColdMiniBatch.DisjointIff` | src/ee/row.hpp:32-43 | for any policy of which node may lock a key how: mini-batches are disjoint on it in every run if and only if a node that may read it is the only one that may lock it |
| `ColdGrants.RefusedOnlyIf` | src/ee/row.hpp:32-79 | in every run a lock is refused only if somebody holds the row in a conflicting mode or, for a transaction of a mini-batch, one of another node has committed the key in this mini-batch; a conflicting holder is always a reason |
| `ColdGrants.RefusedIff` | src/ee/row.hpp:32-79 | for a key only ever locked for writing these are exactly the reasons, so a node that comes back to its key in the same mini-batch is served |
| `ColdExecutor.GrantedIff` | src/ee/row.hpp:60-76 | all locks of a transaction are granted if and only if every row grants its own and the transaction does not conflict with itself |
| `ColdExecutor.RollbackRestores` | src/ee/executor.cpp:186-195 | taking some locks and running the release log throws nowhere and restores every row exactly, last acquisition included |
| `ColdExecutor.CommitEffect` | src/ee/executor.cpp:69-94 | locking, accessing and releasing equal the serial reference, and stamp the transaction's id on every row touched |
| `ColdExecutor.Executor.LocalLock` | src/ee/row.hpp:45-79 | grants exactly when mode and mini-batch allow it; otherwise an error code and nothing changed |
| `ColdExecutor.Executor.RemoteLock` | src/ee/row.hpp:81-103 | the same decision for a remote request, with the copy and the last acquisition in the reply |
| `ColdExecutor.Executor.LocalUnlock` | src/ee/row.hpp:113-132 | one owner less, unlocked at the last; an error if the mode is not the row's |
| `ColdExecutor.Executor.RemoteUnlock` | src/ee/row.hpp:105-111 | a write lock also writes the copy back |
| `ColdExecutor.Executor.LockRow` | src/ee/executor.cpp:197-315 | locks one row, locally or remotely, and logs it if there is something to release |
| `ColdExecutor.Executor.ClearLog` | src/ee/undolog.cpp:23-27 | runs the release actions in order and empties the log; throws exactly at the first local release whose row is not held in its mode |
| `ColdExecutor.Executor.Acquire` | src/ee/executor.cpp:31-67 | locks in order until one is refused; says exactly which were taken |
| `ColdExecutor.Executor.AccessAll` | src/ee/executor.cpp:70-90 | writes through the locks; each result is the serial one |
| `ColdExecutor.Executor.Execute` | src/ee/executor.cpp:22-102 | commits if and only if all locks are grantable; then rows and results are the serial ones, otherwise all rows are exactly as before |
| `ReusableBarrier.ReachableInv` | src/utils/rbarrier.hpp:18-44 | the phase invariant of the two counters, for any number of threads and generations |
| `ReusableBarrier.NobodyLeavesEarly` | src/utils/rbarrier.hpp:18-44 | no thread leaves a generation before all have entered it, or before its middle function is over, and generations never mix |
| `ReusableBarrier.MiddleRunsOnce` | src/utils/rbarrier.hpp:31-33 | with `single` the middle function runs exactly once per generation, otherwise once per thread and generation |
| `ReusableBarrier.SomebodyCanStep` | src/utils/rbarrier.hpp:18-44 | some thread can always step, and one inside `wait` unless it waits for a thread outside |
| `HotPeriod.ScheduleBarriers` | src/ee/hot_period.cpp:124-156 | the schedule has exactly current - past node barriers |
| `HotPeriod.ScheduleSendsAll` | src/ee/hot_period.cpp:130-156 | every queue entry is sent once, in order |
| `HotPeriod.SentAtItsLevel` | src/ee/hot_period.cpp:130-156 | mini-batch m is sent after exactly m - past barriers |
| `HotPeriod.Window` | src/ee/hot_period.cpp:131-136 | a window is a longest run of entries of one mini-batch, and fits into the array of 200 message headers |
| `HotPeriod.SendLoop` | src/ee/hot_period.cpp:119-156 | for a non-empty queue sorted by mini-batch the loop produces the schedule; for an empty one it produces the barriers that the stale first entry asks for |
| `HotPeriod.EmptyQueueAligned` | src/ee/hot_period.cpp:124-128 | an empty queue gives the right number of barriers if and only if the stale entry equals the current mini-batch or nothing was due and the entry is older |
| `NodeBarrier.ReachableInv` | src/comm/handlers/barrier.cpp:26-61 | messages under way, received and used up account for every barrier the other node has reached |
| `NodeBarrier.OtherIsNotBehind` | src/comm/handlers/barrier.cpp:26-61 | who has passed k barriers knows that the other has done all it does before its k-th |
| `NodeBarrier.HotPeriodsAligned` | src/ee/hot_period.cpp:119-156 | in every run of two nodes no node sends mini-batch m + 1 before the other has sent all of m |
| `NodeBarrier.HotPeriodEnds` | src/ee/hot_period.cpp:158-169 | in every run of two nodes: when one is past the last barrier of a hot period, the other has come to it and has sent all it sends in the period |
| `NodeBarrier.StuckForEver` | src/comm/handlers/barrier.cpp:58-61 | a node that was told twice before it looked waits for ever, because it waits for exactly one |
| `NodeBarrier.OnlyStuckBlocks` | src/comm/handlers/barrier.cpp:58-61 | that is the only way to block when both nodes have equally many barriers |
| `NodeBarrier.CanStick` | src/comm/handlers/barrier.cpp:58-61 | for any two programs with a barrier and two barriers there is a run in which the first node gets stuck |
| `NodeBarrier.CanStickIff` | src/comm/handlers/barrier.cpp:58-61 | a node can get stuck in some run if and only if it has a barrier and the other node at least two |
| `BlockAllocator.ChosenIsBestFit` | switch_src/01_control_plane/handle.cpp:80-86 | of the blocks free by the start time the one free last, or else the earliest of all |
| `BlockAllocator.EstimatesGrow` | switch_src/01_control_plane/handle.cpp:86-98 | no block's finish estimate ever decreases, and only the chosen one's changes |
| `BlockTimes.EstimateIsFinish` | switch_src/01_control_plane/handle.cpp:86-98 | in every run a block's estimate is the time at which its allocations are over, each beginning at the later of its own start and the end of the one before |
| `BlockTimes.BestFitInRun` | switch_src/01_control_plane/handle.cpp:80-98 | in every run an allocation gets the block that fits best by these times: of those free by its start the last, or else the first of all, ties going by block number |
| `BlockTimes.GetsOne` | switch_src/01_control_plane/handle.cpp:91-98 | every allocation gets exactly one block, and the tenant joins the end of its queue |
| `BlockAllocator.ReachableInv` | switch_src/01_control_plane/handle.cpp:64-114 | in every run of tenants that free only what they head and hold at most one: one entry per block, each tenant in at most one queue, waiting counts 1 exactly behind a head |
| `BlockAllocator.EveryBlockOnce` | switch_src/01_control_plane/handle.cpp:58-62 | every block has exactly one entry in the ordered set |
| `BlockAllocator.FreeNotifies` | switch_src/01_control_plane/handle.cpp:102-114 | a free keeps the notify set within the heads if and only if the one who frees is no longer in it |
| `BlockAllocator.OnlyHeadsAreTold` | switch_src/01_control_plane/handle.cpp:102-114 | in every run in which tenants free only after they were told, the notify set contains only heads |
| `BlockAllocator.EarlyFreeToldTooLate` | switch_src/01_control_plane/handle.cpp:102-114 | otherwise it does not: for any tenant, a run after which it heads nothing and is to be told |
| `BlockAllocator.OnlyHeadsIff` | switch_src/01_control_plane/handle.cpp:102-114 | a run has only heads in the notify set throughout if and only if every free in it follows the notice |
| `BlockAllocator.PositionFalls` | switch_src/01_control_plane/handle.cpp:102-114 | a position falls by one with every free of the block and with nothing else |
| `BlockAllocator.ReadyAfterExactly` | switch_src/01_control_plane/handle.cpp:102-114 | a tenant at position p heads its block, and is to be told, after exactly p frees |
| `BlockAllocator.Allocator.constructor` | switch_src/01_control_plane/handle.cpp:58-62 | one entry per block, all queues empty |
| `BlockAllocator.Allocator.Reschedule` | switch_src/01_control_plane/handle.cpp:80-98 | takes the chosen block out of the order and puts it back with its new estimate |
| `BlockAllocator.Allocator.HandleAlloc` | switch_src/01_control_plane/handle.cpp:64-100 | refines the model's allocation, with its assertions met, and returns the block chosen |
| `BlockAllocator.Allocator.HandleFree` | switch_src/01_control_plane/handle.cpp:102-114 | refines the model's free; the waiting count never underflows |
| `ControlPlane.ReachableInv` | switch_src/01_control_plane/sched.cpp:132-181 | the invariant relating nodes, cache, queues and notify set over all runs |
| `ControlPlane.RequestsAreSafe` | switch_src/01_control_plane/sched.cpp:143-148 | whoever is served, no assertion of the allocator fails |
| `ControlPlane.NoAssertionFails` | src/ee/sched_intf.cpp:52-86 | in every run neither the allocator's assertions nor the node's about the reply's batch fail |
| `ControlPlane.OneBlockPerBatch` | switch_src/01_control_plane/sched.cpp:143-154 | alloc runs once per tenant and batch, free once for every block but the current one, and all nodes of the tenant have the same block |
| `ControlPlane.CacheKeptForAll` | switch_src/01_control_plane/sched.cpp:155-159 | the cached answer is replaced only after all nodes have it |
| `ControlPlane.ToldOnceWhenItHeads` | switch_src/01_control_plane/sched.cpp:162-180 | in every run the number of times a tenant is told to go for a batch never exceeds one, and whenever it is told it heads its block's queue, all its nodes were answered, and it was not told for this batch before |
| `ControlPlane.ToldAtOnce` | switch_src/01_control_plane/sched.cpp:162-180 | and whoever does has been told |
| `AllocatorRuns.RunHasView` | switch_src/01_control_plane/sched.cpp:143-154 | every run of the control plane contains a run of the allocator whose allocations are exactly the first requests for a batch, in order, with their start and duration, and give the blocks that were granted |
| `AllocatorRuns.GrantsFitBest` | switch_src/01_control_plane/sched.cpp:143-154 | so every block granted to a request is the one that fits it best |
| `Scheduler.SendReady` | switch_src/01_control_plane/sched.cpp:172-175 | one ready message on each connection of the tenant and on no other |
| `Scheduler.Server.Drain` | switch_src/01_control_plane/sched.cpp:163-180 | the loop over the ready set takes out exactly the tenants that can go and sends exactly their nodes a ready message |
| `Scheduler.Server.Register` | switch_src/01_control_plane/sched.cpp:133-140 | a new tenant gets an empty entry; the connection and the expected number are noted |
| `Scheduler.Server.Refresh` | switch_src/01_control_plane/sched.cpp:143-154 | frees and allocates for the first request of a batch only, and renews the cache with the block allocated |
| `Scheduler.Server.Respond` | switch_src/01_control_plane/sched.cpp:155-181 | answers from the cache, counts the use and drains if all nodes are connected; every inbox grows by exactly what is sent |
| `Scheduler.Server.Serve` | switch_src/01_control_plane/sched.cpp:132-181 | one pass of the loop refines the step of the control plane, map, allocator and messages alike |
| `Scheduler.RequestsAreServed` | switch_src/01_control_plane/sched.cpp:132-181 | in every reachable state a pending request meets what `Serve` needs, and what `Serve` does is the step |
| `HotCold.SplitKeepsAll` | src/ee/hot_cold.cpp:28-85 | hot and cold part together are the input, as a multiset |
| `HotCold.SplitIsOfOps` | src/ee/hot_cold.cpp:28-85 | each part has only operations of its kind, the hot ones with their location |
| `HotCold.SplitKeepsOrder` | src/ee/hot_cold.cpp:28-85 | both parts keep the order of the operations |
| `HotCold.FallbackRestores` | src/ee/executor.cpp:396-417 | for every full transaction the fallback restores the multiset of operations; its last check is inside the array if and only if some operation was cold |
| `HotCold.Txn.Compact` | src/ee/hot_cold.cpp:28-85 | the in-place loop: both parts in order, and acceleration exactly if the hot registers are distinct |
| `HotCold.Txn.Undo` | src/ee/hot_cold.cpp:87-96 | everything is cold again, the same operations as before, and no hot ones |
| `HotCold.Txn.Extract` | src/ee/hot_cold.cpp:28-115 | accelerated exactly if hot registers are distinct; then both lists are the parts, otherwise the original operations are back; the final assertion holds exactly for full or non-accelerated transactions |
| `HotCold.Txn.Fallback` | src/ee/executor.cpp:397-412 | the hot operations, last first, over the end of the cold list |
| `HostLayout.PlanInv` | src/layout/declustered_layout.cpp:18-48 | the slots in use are the first of each register, hold placed keys, and only index 0 has no lock |
| `HostLayout.InverseIffFits` | src/layout/declustered_layout.cpp:34-47 | the two maps are inverse if and only if no register was given more than 65536 keys |
| `HostLayout.LookupsUndoEachOther` | src/layout/declustered_layout.cpp:53-71 | within a block the reverse look-up of a cell is k exactly if k is the hot key located there |
| `HostLayout.HotKeysApart` | src/layout/declustered_layout.cpp:53-61 | two hot keys never have the same location, whatever the block |
| `HostLoads.PlacedWhereLeastUsed` | src/layout/declustered_layout.cpp:22-48 | every key is in the first of the registers least used by the keys before it, at the index that is the number of keys there so far, cut to 16 bits |
| `HostLoads.LockedWhereLeastUsed` | src/layout/declustered_layout.cpp:34-44 | and has the first of the locks least used before it, unless its index is 0 |
| `HostLoads.LoadsAreBalanced` | src/layout/declustered_layout.cpp:22-48 | the loads of any two of the 72 registers differ by at most the largest count, and so do those of any two of the 32 locks |
| `HostLayout.DeclusteredLayout.constructor` | src/layout/declustered_layout.cpp:8-48 | the loop over mutable weights computes the plan; no block yet |
| `HostLayout.DeclusteredLayout.PlaceKey` | src/layout/declustered_layout.cpp:22-48 | one key: least loaded register, next index cut to 16 bits, least loaded lock unless the index is 0, never replacing an entry |
| `HostLayout.DeclusteredLayout.GetLocation` | src/layout/declustered_layout.cpp:53-61 | the location, and that looking up an unknown key leaves an entry of zeros |
| `Packet.FillHeader` | src/ee/switch.cpp:82-90 | addresses, ether type, identifier and offset, and nothing behind them |
| `Packet.ClearMasks` | src/ee/switch.cpp:110-115 | every register's mask is 0 |
| `Packet.PutInstr` | src/ee/switch.cpp:119-133 | mask byte and big-endian data at the register's place in the packed struct |
| `Packet.InstrReads` | src/ee/switch.cpp:119-133 | an instruction written into the buffer reads back as its mask and value, and changes no byte outside its five |
| `Packet.MakeTxn` | src/ee/switch.cpp:92-134 | for any earlier buffer contents: no assertion fails if and only if the transaction is accelerated, the offset fits and every index is within 128 of it; then the bytes are a packet of the operations |
| `Packet.FieldAt` | switch_src/dumb_p4db_3.p4:19-237 | the header fields laid one after another: the last byte of each index is where the node writes the mask |
| `Packet.UidWords` | switch_src/dumb_p4db_3.p4:295-325 | the node's identifier passes all four words of the parser |
| `Packet.ReadsBack` | switch_src/dumb_p4db_3.p4:1107-1182 | the index rebuilt from offset and 7-bit field is the operation's location, the write bit and data are the operation's, and registers without an operation do not write; unwritten bytes do not matter |
| `Packet.Ingress.Execute` | switch_src/dumb_p4db_3.p4:387-395 | one register action: returns the old value, writes if the top bit is set |
| `Packet.Ingress.Apply` | switch_src/dumb_p4db_3.p4:1107-1182 | the 72 actions in a row: exactly the write cells change and every reply is the value before |
| `Packet.ReplyFound` | src/ee/switch.cpp:168-182 | the reply's data are read at the operation's own place exactly for the first 20 registers; otherwise 20 registers further on or behind the packet |
| `HotStore.OffsetFits` | src/ee/switch.cpp:105-108 | the offset assertion holds if and only if the block's cells can be numbered with 16 bits; a block lies within 128 cells of its offset |
| `HotStore.AssertsHold` | src/ee/switch.cpp:105-131 | no assertion of `make_txn` fails for operations located in a valid block |
| `HotStore.SplitMakesPacket` | src/ee/hot_cold.cpp:28-73 | what the split leaves of an accelerated transaction over known keys is what a packet needs |
| `HotStore.PacketIsTxn` | switch_src/dumb_p4db_3.p4:1107-1182 | a packet does to the tenant's hot keys what its operations do one after another on a map, answers what they would read, and changes no cell outside the block |
| `HotStore.Trip` | src/ee/switch.cpp:92-134 | node and switch code composed: bytes made, parsed and applied amount to the operations on the tenant's map |
| `HotStore.TenantsAreIsolated` | switch_src/dumb_p4db_3.p4:1107-1182 | in every run of packets, while a tenant owns its block its values are those of its own operations alone; the others may use and change their blocks as they like |
| `HotStore.RepliesAreSerial` | switch_src/dumb_p4db_3.p4:1107-1182 | and every reply is what the tenant's own earlier operations left |
| `HotStore.CanExecute` | switch_src/dumb_p4db_3.p4:1107-1182 | whatever the registers hold, the switch can execute any packet of a tenant's operations |
| `HotStore.HarmlessRun` | switch_src/dumb_p4db_3.p4:1107-1182 | in every run in which each packet is the tenant's own, goes to another block, or comes from a layout with no hot key at a place where the tenant has one, its values are those of its own operations alone |
| `Tenancy.OneTenantPerBlock` | src/ee/hot_period.cpp:158-169 | with the barrier at the end of the hot period, in every history of control plane and packets, nodes in their hot period share a block exactly with their own tenant |
| `Tenancy.BatchIsIsolated` | src/ee/executor.cpp:551-571 | in every history in which a node asks for its next block only when none of its tenant's packets is under way: as long as a tenant works on a batch its values in the switch are those of the packets its own nodes sent for it, whenever and in whatever order the switch executes them, whoever had the block before or gets it after |
| `Tenancy.RepliesAreIsolated` | src/ee/executor.cpp:551-571 | and every reply is what the tenant's own operations of that batch, executed before, left |
| `Tenancy.WaitingIsolates` | src/ee/hot_period.cpp:158-169 | tenants are isolated from one another, in their values as in their replies, in every history in which nodes wait like that, and without waiting if no two tenants have hot keys at the same place of a block; packets left over from the tenant's own earlier batch count as its own |
| `LatePackets.BlockChangesHands` | src/ee/executor.cpp:560-561 | from every reachable state in which a node, alone for its tenant, is in its hot period and another tenant comes next on its block: a continuation in which the other is told to go on that block while everything the first has under way stays under way |
| `LatePackets.LatePacketHits` | switch_src/dumb_p4db_3.p4:1107-1182 | executed then, any packet of the first tenant does its operations to the keys of the second, if they have the same layout |
| `LatePackets.IsolatedIff` | src/ee/hot_period.cpp:158-169 | for any layouts: tenants are isolated from one another in every history, in their values and likewise in their replies, if and only if nodes wait for their packets or no two tenants have hot keys at the same place of a block; the code does not wait |
| `BatchIsolation.BatchStartsFromRows` | src/ee/hot_period.cpp:107-117 | in every history in which nodes wait for their packets: once all nodes have loaded their own keys for a batch, the tenant's values are what the operations sent for this batch make of its rows, whatever the switch held before |
| `BatchIsolation.RepliesStartFromRows` | src/ee/hot_period.cpp:107-117 | and every reply to a packet of the batch is what those operations left of the rows |
| `LateBatches.IsLeftOver` | src/ee/executor.cpp:560-561 | for any tenant with a hot key: a history without waiting in which the tenant gets the same block again and is in its next hot period while a write of the batch before is under way |
| `LateBatches.BatchIsolatedIff` | src/ee/hot_period.cpp:158-169 | for any layouts: in every history the values of a tenant in a batch, and likewise the replies to the batch's packets, are those of the operations sent for this batch if and only if nodes wait for their packets or no tenant has a hot key |
| `TwoNodes.JointRunIsHistory` | src/ee/hot_period.cpp:119-169 | for a tenant of two nodes that ask as soon as they are past their own last barrier: every run together with the barrier is a history, because both have arrived whenever one asks |
| `HotLoad.AllLocalKeys` | src/ee/hot_period.cpp:72-75 | the two loops meet exactly the node's own hot keys |
| `HotLoad.LocalKeysOnce` | src/ee/hot_period.cpp:72-75 | and each of them once |
| `HotLoad.GenPackets` | src/ee/hot_period.cpp:47-91 | start and end packets carry exactly these keys, have one to eight operations on distinct registers, and fit into the buffer pool |
| `HotLoad.AddCell` | src/ee/hot_period.cpp:76-80 | one more operation, with a packet made at the eighth |
| `HotLoad.BlockLoaded` | src/ee/hot_period.cpp:107-113 | after start packets for any keys, from one node of the tenant or several, the block holds the rows of these keys and the rest as before, whatever other tenants send |
| `HotLoad.NothingLeftBehind` | src/ee/hot_period.cpp:107-117 | once all nodes of the tenant have loaded their own keys no hot key keeps what an earlier tenant left |
| `HotLoad.EndReads` | src/ee/hot_period.cpp:158-164 | the replies to the end packets are the values that all operations before them left |

## Left out

- `granular_lock_OPT`: an idealised variant of the granular lock manager that never has to undo a partly taken lock set; the one that does is modelled.
- Two-pass packets and the two-pass branch of the hot/cold split: off in this configuration (`src/ee/defs.hpp:32`).
- `process_reply_txn` as a round trip: `Packet.ReplyFound` says for which registers it reads the right bytes.
- Liveness of the cold path: a refused transaction is retried by its caller, which is not modelled.
- C++ memory-model effects of relaxed loads and plain stores.
- `HotCold.Txn.Compact`: does not model the lock masks and the two hottest cold keys that the loop also records, because one-pass packets carry none of them.
- `HotCold.Txn.Extract`: does not model the lock masks, the partition information and the two hottest cold keys that the loop also records, because one-pass packets carry none of them.
- `HotLoad.GenPackets`: does not model the fixed arrays that the operations are written into; a packet under construction is a sequence, and ending its list is its length.
- `HostLayout.DeclusteredLayout.constructor`: does not model the sort of the keys beforehand; it is stated for keys in any order.
- `LockPacking.PrepareTxns`: does not model `one_lock` and the counters of transactions that are not accelerated.
- `Packet.Ingress.Apply`: does not model packets whose identifier is not recognised, and cells beyond the 32768 of a register, because no node sends for them.
- `Scheduler.Server.Serve`: does not model the sockets; what it sends is a list of messages.
- `ColdExecutor.Executor.Execute`: runs while others stand still; interleavings are the subject of `ColdSerial`.
- Sockets, raw packets, timing and statistics, forwarding tables and the resubmission parts of the switch programs.
- The queue placement of `src/ee/sched.cpp`, the workload generators and the other layout heuristics.
