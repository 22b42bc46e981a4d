# Block Miner: the server's state-keeping economy, verified

This project models the parts of the Block Miner server that keep money, machines and rights in step, and
proves what those parts promise over every run. These state machines are covered:

- **Machine placement.** Inventory, the legacy grid of 80 slots, room racks, the vault, and the canonical
  owned-machine rows they all link to. Twelve requests edit these tables.
- **Rate limiter.** A map of counters with lazy window reset and periodic cleanup.
- **Minigame sessions.** Start, complete and status under a per-user lock.
- **BLK reward cycles.** Pro-rata payout with flooring, once per time bucket under overlapping runners.
- **Mining engine.** Work per tick, block payout, history, boosts and rigs, and the rollback of payouts that
  could not be stored.
- **Two balances.** A user's POL in the database and in the engine's memory, with the deltas, stored payouts and
  write-backs that carry changes from one to the other.
- **Shop and wallet.** Event offers with limited stock, POL withdrawals and deposits, and the block scanner.
- **Sidebar navigation.** Repair, merge and validation of a stored list, and the resolved tree.

Each machine has a value model (`*Model.dfy`, or the first half of the file), a class whose methods update
fields step by step as the server updates rows and are proved against that model, theorems about runs
(`*Theorems.dfy`), and lemmas that say what each request gives its caller, in terms of the rows before and after
and without the model's own functions (`*Outcomes.dfy`). A Prisma transaction with the controller reads that guard it is one atomic step, except
where interleaving is the subject: BLK runners, buyers of one offer, polls of the block scanner, the storing of
block payouts and write-backs are split at their awaits. Amounts are reals or whole units, times are integers in milliseconds.

The placement statements of the class `MachineStore.Database` carry the schema's unique and foreign key
constraints as preconditions, so its proofs also show that no modelled transaction aborts on one.

## Results where the code and the expected property differ

- **A gap between deposit scans.** Without a configured first block, two overlapping first polls whose nodes are
  more than 5000 blocks apart leave blocks that no poll ever fetches (`GapExample`). For the latest blocks that
  first polls saw, no run leaves a gap if and only if a first block is configured or they lie within 5000 blocks
  of each other (`NoGapExactly`).
- **A wallet linked too late, or an insert that fails.** An event whose wallet is not linked when its block is fetched is skipped and never
  looked at again, also when the wallet is linked afterwards (`LateLinkMisses`); so is one whose insert fails, while a
  poll that fails on the way leaves the rows it has made. `RowExactly` says which hashes have a deposit row.
- **Balances and claim limits of offers.** Both are read before the compare-and-set, so two requests of one user
  can pass the claim limit (`ClaimLimitPassed`) or overdraw a purse (`PurseOverdrawn`). They hold throughout a run
  if and only if at each won compare-and-set the guard's reads still hold (`LimitsKeptExactly`), for which one
  request of a user at a time is enough (`LimitsKeptOneAtATime`). For requests to an open offer without stock, no
  interleaving breaks a limit if and only if each user's requests that pass alone also fit together
  (`RequestsFitExactly`).
- **A payout that could not be stored.** The rollback puts balance and lifetime back to what they were before the
  block, whatever happened since. Minting agrees with lifetimes throughout a run if and only if no rollback takes back
  a block of which a later block, not rolled back yet, also paid a miner (`BooksHoldExactly`). Newest first is one
  such order (`NewestFirstKeepsBooks`); oldest first leaves a reward in place (`OldestFirstLeavesReward`), and a boost
  bought in between costs nothing (`BoostForNothing`).
- **Balances in memory below zero.** Requests debit the database by its own guard and then the engine, whose balance
  boosts and rigs may have lowered before (`WithdrawalOverdraws`, `WithdrawalPasses`). Balances in memory stay at zero
  or above throughout a run if and only if each debit is covered there too (`RunSolvent`, and with rollbacks
  `RunSolventWithRollbacks`).
- **Memory and database apart.** What the engine takes for written and what the database has move apart by exactly
  the rewards that were not stored, by what writes account for whose amount changed on the way or whose answer was
  lost, by joins that take over a higher balance, and by changes on one side only (`DriftLaw`). Check-in milestones and
  offerwall rewards credit the database without telling the engine (`DirectCreditApart`); a join that reads the higher
  balance brings the two together again (`JoinAgrees`). A transaction that aborts after it told the engine changes
  memory alone. Two writes at once charge a boost twice (`OverlappingWrites`), so does a write whose answer is lost
  (`LostAnswerWritesTwice`), a boost during a write is never charged (`BoostDuringWrite`), and a lost payout is rolled
  back in memory and then written to the database as a loss (`LostPayoutCharged`, in general `WriteLeaves`). Without
  any of these disturbances the two agree if and only if every payout to the miner was stored (`AgreesExactly`).
- **The missing check of a vault retrieval.** A retrieval to a rack lacks the check of the previous slot that
  install and move have. It keeps installed machines apart exactly when the target slot is even or no double starts
  on the slot before (`RunDisjoint`); `UnsafeRetrieval` is a run from the empty store that is answered with success
  throughout and makes two machines overlap.
- **Owned rows without a machine.** Eviction gives a machine a new owned row and leaves the old one behind
  (`EvictionOrphans`). Over whole runs the owned rows without a machine are exactly those of evicted machines
  (`OrphansAreEvictions`).
- **An occupied rack without a machine.** A move to the grid keeps the host pointer of a room rack (`MoveKeepsHost`);
  after `RackStaysOccupied`, a run from the empty store, the rack still answers that it is occupied. Hosted machines
  are at their racks' slots throughout a run if and only if no successful move is of a hosted machine
  (`HostsStayExactly`). The rack invariant is therefore stated from racks to machines for any slot, and from machines
  to racks for slots from 1000 up.
- **The location transitions.** The table of allowed transitions allows every pair (`EveryTransitionValid`), so what
  requests really do to owned rows is stated by `OwnedRowsTravel`.
- **The end of the minigame window.** The test for a completion includes the upper end, but expiry runs first, so the
  reward window excludes it (`RewardWindow`) and the branch for a late session is never taken (`LateBranchDead`).
- **Early cleanup of the limiter.** Cleanup can be noticed when entries are kept for less than a window
  (`CleanupUnnoticedExactly`); the limiter's bound on bursts is 2 * max - 1, which it reaches (`BurstAttained`).
- **Negative hash rates.** A block whose total work is positive pays out exactly the block reward if and only if no
  miner's work is negative (`BlockPays`). A profile with a negative base hash rate is not kept out, and then one block
  can pay two rewards (`RunOverpays`). Every run mints at least one reward for each block that was closed with work,
  and exactly one each if and only if none of these blocks had negative work in it (`MintedExactly`), as without such
  profiles (`MintedIsPaidBlocks`).
- **The offerwall at the root.** Validation accepts a list with the offerwall outside the rewards group, and the next
  read moves it (`RootOfferwallMoves`). `ValidReadExactly` says what a read does to any list that validation accepts,
  and `ReadUnchangedExactly` which lists it leaves alone.

## Model

| member | source | states |
|---|---|---|
| PlacementTheorems.RunKeepsInvariant | server/controllers/inventoryController.js:44-140 | From any store that meets the invariant, such as the empty one, every run of the twelve requests keeps it: slots unique and aligned, rooms numbered 1 to n, no host or block pointer to a deleted machine, no machine hosted twice, no rack both hosting and blocked, machines from slot 1000 up hosted at their slot, links unique with owned rows in step. |
| PlacementSteps.ApplyKeeps | server/controllers/machinesController.js:97-177 | Each single request, with any arguments, keeps the whole invariant. |
| PlacementTheorems.RunConserves | server/controllers/machinesController.js:57-83 | Over every run a user's number of machines of one level, hash rate and size, in inventory, racks and vault together, changes only by grants and discards: installs, moves, evictions, stores and retrievals add nothing. |
| PlacementCounts.ApplyCounts | server/controllers/vaultController.js:74-152 | The same for one request, including all evictions it causes. |
| PlacementTheorems.RoomsArePaid | server/controllers/roomsController.js:111-173 | In every run a user's balance falls by exactly the recorded prices of its new rooms, and never below zero. |
| PlacementTheorems.RunDisjoint | server/controllers/vaultController.js:244-310 | In every run installed machines always occupy disjoint slot ranges if and only if every vault retrieval to a rack targets an even slot or a slot with no double just before it. |
| PlacementTheorems.StepDisjoint | server/controllers/inventoryController.js:94-114 | One request keeps the slots disjoint exactly when it is not an unsafe vault retrieval; install and move evict the previous double. |
| PlacementTheorems.RetrievalDisjoint | server/controllers/vaultController.js:256-282 | The exact condition for a retrieval, in both directions. |
| PlacementExamples.UnsafeRetrieval | server/controllers/vaultController.js:252-282 | A run from the empty store, every request of which succeeds, that makes two machines overlap. |
| PlacementExamples.RackStaysOccupied | server/controllers/machinesController.js:172-176 | A run from the empty store after which a machine is at grid slot 3 and its former rack still refuses every install as occupied. |
| PlacementHosts.MoveKeepsHost | server/controllers/machinesController.js:172-176 | A move that succeeds puts its machine on a grid slot, and the racks that host it are the same after as before, whatever it evicts. |
| PlacementHosts.HostsStayExactly | server/controllers/machinesController.js:97-177 | In a run that starts so, every hosted machine is at its rack's slot throughout if and only if no move in it that succeeds is of a machine that a rack hosts. |
| PlacementTheorems.GridEnough | server/controllers/roomsController.js:243-292 | Machines in rooms never overlap anything, because a double's second slot belongs to the rack it blocks. |
| PlacementTheorems.SlotAvailableExactly | server/models/machineModel.js:50-75 | Below slot 80 the availability check is true exactly on aligned ranges that no machine covers any part of. |
| PlacementOwned.OwnedRowsTravel | server/services/userOwnedMachineService.js:19-138 | Each request sends exactly the owned row of the machine it moves from the location of the table it leaves to that of the one it enters, or deletes it with a discarded item, and leaves every other existing owned row as it is, also those of evicted machines. |
| PlacementTheorems.EveryTransitionValid | server/utils/machineInstanceState.js:10-27 | The transition table allows every pair of locations. |
| PlacementTheorems.OthersUntouched | server/controllers/machinesController.js:105-121 | A request of one user never changes or removes an installed machine of another. |
| PlacementTheorems.EvictionOrphans | server/services/userOwnedMachineService.js:108-122 | After an eviction the machine's old owned row is still there, unchanged, and nothing links to it. |
| PlacementOwned.OrphansAreEvictions | server/services/userOwnedMachineService.js:108-122 | In every run an owned row is without a machine at the end if and only if it was at the start or the machine it belonged to was evicted on the way. |
| PlacementTheorems.UninstallUndoesInstall | server/controllers/roomsController.js:356-392 | Uninstalling right after a room install succeeds and restores racks, machines, vault, the item's kind and owner, and its owned row. |
| PlacementRacks.RackSlotInjective | server/controllers/roomsController.js:25-27 | A rack's slot index determines its room number and position. |
| PlacementRacks.SlotsOfRacks | server/controllers/roomsController.js:25-27 | Different racks of one user have different slots, all from 1000 up. |
| PlacementRacks.ReleaseKeepsRacks | server/utils/rackMinerRelease.js:13-22 | Releasing a machine's racks and deleting it leaves every other host and block pointer in order. |
| PlacementRacks.OccupyKeepsRacks | server/controllers/roomsController.js:278-292 | Installing on a free rack, and blocking the next one for a double, keeps the rack invariant. |
| PlacementLinks.Handover | server/services/userOwnedMachineService.js:19-138 | A change of tables that hands over the owned row, or makes one where there was none, and shows the new location in it keeps links unique, owned rows in step, and the set of owned rows without a machine. |
| PlacementSteps.MakeRoomClears | server/controllers/inventoryController.js:64-114 | After both eviction queries the machines left are exactly those that neither start on the target slots nor are the previous double. |
| MachineStore.Database.InstallInventoryItem | server/controllers/inventoryController.js:44-140 | The install loop computes the specified reply and store, for the rows its queries return; `InstallOutcome` says what that is. |
| MachineStore.Database.MoveMachine | server/controllers/machinesController.js:97-177 | The same for a move on the grid. |
| MachineStore.Database.RemoveMachine | server/controllers/machinesController.js:46-83 | The same for sending a machine to the inventory. |
| MachineStore.Database.RemoveInventoryItem | server/controllers/inventoryController.js:164-187 | The same for discarding an item together with its owned row, which nothing else links to. |
| MachineStore.Database.BuyNextRoom | server/controllers/roomsController.js:111-173 | The same for buying the next room with its racks. |
| MachineStore.Database.InstallMiner | server/controllers/roomsController.js:203-304 | The same for a room install. |
| MachineStore.Database.UninstallMiner | server/controllers/roomsController.js:327-392 | The same for a room uninstall: clearing block pointers in this room only is enough. |
| MachineStore.Database.StoreInventoryItem | server/controllers/vaultController.js:67-101 | The same for storing an item. |
| MachineStore.Database.StoreInstalledMachine | server/controllers/vaultController.js:105-152 | The same for storing an installed machine. |
| MachineStore.Database.RetrieveToInventory | server/controllers/vaultController.js:214-242 | The same for retrieving to the inventory. |
| MachineStore.Database.RetrieveToSlot | server/controllers/vaultController.js:244-310 | The same for retrieving to a slot, without the previous-slot check. |
| MachineStore.Database.BulkCreateInventoryWithOwned | server/services/userOwnedMachineService.js:153-173 | The counted loop creates as many items, each with its own owned row. |
| MachineStore.Database.CheckSlotAvailability | server/models/machineModel.js:50-75 | The check as it runs returns exactly whether the range is aligned and uncovered. |
| PlacementOutcomes.InstallOutcome | server/controllers/inventoryController.js:44-140 | After an install the machines are exactly those before that neither start on the target slots nor are the previous double, and one new row under the next id with the user, the slot asked for and the item's level, hash rate and size; the item is gone, every other item is still there, and exactly the evicted machines' rack pointers are cleared. |
| PlacementOutcomes.RetrieveToRackOutcome | server/controllers/vaultController.js:244-310 | The same for a retrieval from the vault to a slot, except that a previous double stays. |
| PlacementOutcomes.MoveOutcome | server/controllers/machinesController.js:97-177 | A move puts its machine on the slot asked for and takes away exactly the other machines in the way; everything else about machines, rooms, vault and other racks is as before. |
| PlacementOutcomes.RoomInstallOutcome | server/controllers/roomsController.js:203-304 | A room install adds one machine, of the item's kind, at 1000 + (room number - 1) * racks per room + position; its rack hosts it, a double also blocks the next rack of the room, no other rack changes, and the item is gone. |
| PlacementOutcomes.RoomUninstallOutcome | server/controllers/roomsController.js:327-392 | A room uninstall takes away exactly the machine its rack hosts, clears every rack's pointer to it, and adds one item of its owner and kind. |
| PlacementOutcomes.RemoveOutcome | server/controllers/machinesController.js:46-83 | The same for a removal of any machine. |
| PlacementOutcomes.StoreMachineOutcome | server/controllers/vaultController.js:105-152 | The same into the vault. |
| PlacementOutcomes.StoreItemOutcome | server/controllers/vaultController.js:67-101 | A stored item leaves the inventory and one of its owner and kind is new in the vault; nothing else moves. |
| PlacementOutcomes.RetrieveItemOutcome | server/controllers/vaultController.js:214-242 | The reverse. |
| PlacementOutcomes.DiscardOutcome | server/controllers/inventoryController.js:164-187 | A discarded item is gone with exactly its own owned row. |
| PlacementOutcomes.GrantOutcome | server/services/userOwnedMachineService.js:153-167 | A grant adds exactly as many items as asked for, each under the next id with an owned row of its own in the inventory, and of size 1 unless the catalogue says 2. |
| PlacementOutcomes.BuyRoomOutcome | server/controllers/roomsController.js:111-173 | A room purchase takes the configured price of the next room from its buyer and nobody else, records it with the next number and that price, and adds one empty rack for each position. |
| PlacementOutcomes.BuyRoomReplies | server/controllers/roomsController.js:111-146 | Which purchases are refused and why: too many rooms, a price that is no number or negative, no such user, too little balance, in that order. |
| PlacementOutcomes.GridReplies | server/controllers/inventoryController.js:44-62 | Install, move and retrieval to a slot succeed exactly for an own row, a slot from 0 to 79, and for a double an even one; otherwise the first failing check in the server's order answers. |
| PlacementOutcomes.RoomInstallReplies | server/controllers/roomsController.js:220-258 | A room install succeeds exactly on an own rack in no use with an own item, and for a double if the room has a next rack that is in no use either; otherwise the first failing check answers. |
| PlacementOutcomes.RefusedOutcome | server/controllers/inventoryController.js:49-62 | A refused request changes nothing. |
| RateLimiterTheorems.CleanupUnnoticed | server/middleware/rateLimit.js:23-57 | On every run with a clock that never goes back, whose due cleanups find no more unstale entries than the capacity, if entries are kept at least one window, each answer with its header numbers is the one the limiter without cleanup gives. |
| RateLimiterTheorems.CleanupUnnoticedExactly | server/middleware/rateLimit.js:8-10 | For a limiter that cleans up and lets something through, cleanup goes unnoticed in all such runs if and only if entries are kept at least one window. |
| RateLimiterTheorems.BurstBound | server/middleware/rateLimit.js:49-68 | In such a run, in any span no longer than the window at most 2 * max - 1 requests of a key pass, over the whole history; none when max is 0. |
| RateLimiterTheorems.BurstAttained | server/middleware/rateLimit.js:49-68 | For every limit and window, a run of the limiter itself, with its cleanups, reaches that bound within one millisecond. |
| RateLimiter.Limiter.Cleanup | server/middleware/rateLimit.js:23-37 | Removes exactly the stale entries and then the least recently seen ones down to the capacity, which is not exceeded right after. |
| RateLimiter.Limiter.Handle | server/middleware/rateLimit.js:39-69 | One request of the running limiter is one step of the model. |
| RateLimiterOutcomes.VerdictOutcome | server/middleware/rateLimit.js:49-69 | In the runs of `CleanupUnnoticed`, whatever is cleaned up: each request falls into exactly one window, opened by the first request of its key for which all windows opened before were over; it passes if and only if it is among the first `max` of its key in that window, and it is told how many are left and when the window ends. Stated on the list of requests alone. |
| MinigameTheorems.RunKeeps | server/services/minigameService.js:128-296 | In every run, in whatever order the times that its requests read come, sessions follow each other with their cooldown and boosts match rewarded completions. |
| MinigameTheorems.OneActive | server/services/minigameService.js:128-176 | A user never has two active sessions. |
| MinigameTheorems.RewardedOnce | server/services/minigameService.js:250-285 | Boosts and completed sessions correspond one to one. |
| MinigameTheorems.RewardsApart | server/utils/minigameConstants.js:5-17 | Two rewards of one user are at least 247500 ms apart. |
| MinigameTheorems.LiveBoostsBounded | server/services/minigameService.js:250-262 | If n boosts of a user are live at once, (n - 1) * 247500 is less than their lifetime. |
| MinigameTheorems.RewardWindow | server/services/minigameService.js:239-248 | An active session is rewarded exactly from 1500 ms before its end until 120000 ms after, the latter excluded. |
| MinigameTheorems.LateBranchDead | server/services/minigameService.js:243-247 | The branch that expires a late session is never reached. |
| MinigameTheorems.StatusAgreesWithStart | server/services/minigameService.js:85-122 | Status allows a new start exactly when starting at that moment opens a new session. |
| MinigameTheorems.RewardIsFinal | server/services/minigameService.js:221-234 | A rewarded session stays as it is in every run, and completing it again grants nothing. |
| Minigame.Service.StartMinigameSession | server/services/minigameService.js:128-190 | The transaction computes the specified reply and rows. |
| Minigame.Service.CompleteMinigameSession | server/services/minigameService.js:205-296 | The same for a completion, which never answers with the late branch. |
| MinigameOutcomes.StatusOutcome | server/services/minigameService.js:85-122 | Status tells the end of the cooldown, 180 seconds after the user's latest reward while that is to come, and the user's last session that is not over by 120 seconds; a start is allowed exactly without either, and nothing changes but expiry. |
| MinigameOutcomes.StartOutcome | server/services/minigameService.js:128-190 | A start is refused exactly during the cooldown, returns the session being played if there is one, and otherwise adds one active session of 69 seconds. |
| MinigameOutcomes.CompleteReplies | server/services/minigameService.js:205-249 | Which answer a completion gets, as a condition on the sessions, the number and the time alone. |
| MinigameOutcomes.GrantedCompletion | server/services/minigameService.js:250-296 | A rewarded completion ends its own session now, leaves every other as expiry left it, and grants its user one boost for the configured days and a cooldown of 180 seconds. |
| MinigameOutcomes.RefusedCompletion | server/services/minigameService.js:205-249 | Any other completion changes nothing but expiry. |
| MinigameOutcomes.RewardCoolsExactly | server/services/minigameService.js:133-146 | A user whose latest reward this is cools down for 180 seconds from it and not a millisecond longer. |
| MinigameOutcomes.DaysOutcome | server/services/minigameService.js:192-195 | Boosts last the whole number of days configured, at least 1 and at most 365, and 7 if that is no number. |
| BlkPlan.PlanPaysReward | server/services/blkRewardDistributionService.js:118-145 | With someone eligible, the planned amounts sum to exactly the cycle reward and the plan is never empty, so the rounding-skip branch is unreachable. |
| BlkPlan.PlanIsFair | server/services/blkRewardDistributionService.js:122-132 | Every entry but the last gets the floor of its exact share; the last gets at least its exact share and less than n units more. |
| BlkPlan.PlanIsMonotone | server/services/blkRewardDistributionService.js:122-132 | Among all but the last entry, more hashrate is never due less. |
| BlkPlan.SortOrders | server/services/blkRewardDistributionService.js:116-116 | The entries are planned in order of user id. |
| BlkTheorems.RunKeepsBooks | server/services/blkRewardDistributionService.js:163-199 | Under every interleaving of runners: windows unique, each cycle's logs sum to its distributed amount, which is its reward or nothing, balances grew by exactly the logs, and the logs sum to the distributed total. |
| BlkTheorems.PaidOnce | server/services/blkRewardDistributionService.js:85-90 | In every later run a recorded cycle stays as it is, the reward logs so far stay, and the logs of its window keep summing to what the cycle distributed. |
| BlkTheorems.RunOnSchedule | server/services/blkRewardDistributionService.js:11-18 | With one configuration every recorded window is the start of a bucket. |
| BlkTheorems.EmissionBound | server/services/blkRewardDistributionService.js:11-18 | With one configuration the windows of buckets p to q - 1 are paid at most (q - p) times the reward in all. |
| BlkService.Service.Plan | server/services/blkRewardDistributionService.js:118-145 | The loop with the running remainder computes the plan. |
| BlkService.Service.Distribute | server/services/blkRewardDistributionService.js:95-199 | Sum, sort, plan and commit compute the specified ledger; a taken window changes nothing. |
| BlkService.Service.RunCycle | server/services/blkRewardDistributionService.js:64-199 | A runner that nothing interrupts does check, snapshot and commit of the interleaved model. |
| BlkOutcomes.CommitOutcome | server/services/blkRewardDistributionService.js:120-199 | For entries of different users and a new window a commit raises the balance of each entry's user by the floor of reward * hash rate / all hash rates, the last one's by what that leaves, and no other user's; it writes exactly one log row of that user and amount for each part above zero, in order, and one cycle with the whole reward and the number of those paid. |
| BlkOutcomes.EmptyCommit | server/services/blkRewardDistributionService.js:85-116 | Without entries only an empty cycle is recorded, and a window that is recorded already changes nothing. |
| BlkOutcomes.SnapshotOutcome | server/services/blkRewardDistributionService.js:92-118 | The entries of a cycle are exactly the active users' above zero and above the least hash rate, each as often as it is there, ordered by user. |
| BlkOutcomes.CheckOutcome | server/services/blkRewardDistributionService.js:64-90 | A runner starts a cycle exactly when cycles are not paused, the configured reward times the boost (0 counting as 1, below 0 as 0) is at least one unit, and the one bucket that holds the time is not recorded; it takes that bucket and that reward. |
| MiningTheorems.RoundPays | server/src/miningEngine.js:189-245 | The tick that closes a block pays each miner the reward times its POL-mode hash rate summed over the round's ticks, divided by the same sum over all miners, and the next round starts with no work. |
| MiningTheorems.BlockPays | server/src/miningEngine.js:191-230 | Payouts sum to nothing without work in total, and otherwise to exactly the reward if and only if no work is negative. |
| MiningTheorems.MintedIsLifetimes | server/src/miningEngine.js:224-227 | Over every run the minted total grows by exactly what the miners' lifetime totals gained. |
| MiningTheorems.RunKeepsMaps | server/src/miningEngine.js:83-130 | In every run a nonzero user id finds exactly the one miner that has it, and the history holds the latest blocks, at most 12, numbered down from just below the current block. |
| MiningTheorems.BlocksByTime | server/src/miningEngine.js:286-292 | With a clock that never goes back at most floor((t - t0) / duration) blocks are closed by time t. |
| MiningTheorems.MintedByTime | server/src/miningEngine.js:317-319 | With profiles of no negative hash rate and a clock that never goes back, the minted total is at most the block reward times that number. |
| MiningTheorems.MintedExactly | server/src/miningEngine.js:189-230 | With a positive reward, every run mints at least the block reward for each block it closes with work, and exactly that if and only if no such block had negative work in it. |
| MiningTheorems.MintedIsPaidBlocks | server/src/miningEngine.js:189-230 | With profiles of no negative hash rate, every run has minted exactly the block reward times the number of blocks it closed with work. |
| MiningTheorems.RunOverpays | server/src/miningEngine.js:206-227 | A run in which a profile has a negative base hash rate, and one block mints two rewards. |
| MiningTheorems.HistoryShowsPay | server/src/miningEngine.js:230-280 | The newest block shows a user with an id exactly what that user's miner was paid. |
| MiningTheorems.BoostLasts | server/src/miningEngine.js:152-166 | A boost costs 0.35; a tick 30 seconds or more after it finds the base hash rate, an earlier one 1.25 times it. |
| MiningTheorems.BoostOverRun | server/src/miningEngine.js:294-303 | In every run without another boost of the miner, whatever else joins, pays or upgrades, its boost is on exactly as long as no tick has come 30 seconds after it was bought. |
| MiningTheorems.UpgradesCost | server/src/miningEngine.js:168-182 | A miner that can pay the sum of n rising rig prices gets n rigs and 18 n more base hash rate for exactly that sum. |
| MiningTheorems.RunSolvent | server/src/runtime/miningRuntime.js:11-19 | Boosts, rigs and payouts never bring a balance below zero: balances in memory stay at zero or above throughout a run if and only if each debit that comes from the database is covered in memory at that moment, and no new miner brings a negative balance. |
| MiningTheorems.WithdrawalOverdraws | server/src/runtime/miningRuntime.js:11-19 | Ten in memory, a boost, and the delta of a withdrawal of ten leave -0.35. |
| MiningEngine.Engine.CreateOrGetMiner | server/src/miningEngine.js:83-130 | Returns the shared miner object of the user, refreshed, or a new one under both maps. |
| MiningEngine.Engine.DistributeRewards | server/src/miningEngine.js:189-284 | The payout loops compute the specified engine, and the snapshots that a failure to store the rewards is rolled back by. |
| MiningEngine.Engine.RollBack | server/src/miningEngine.js:257-269 | The loop over the snapshots restores balances and lifetimes and takes back the minted rewards as specified. |
| MiningRollback.BooksHoldExactly | server/src/miningEngine.js:257-269 | With rollbacks of any paid blocks at any later moment, minting grows as lifetimes do throughout a run if and only if no rollback takes back a block of which a later block, not rolled back yet, also paid a miner. |
| MiningRollback.NewestFirstKeepsBooks | server/src/miningEngine.js:247-269 | That is so, whatever the reward, in every run that rolls back only the newest paid block not rolled back yet, such as each before the next one pays. |
| MiningRollback.OldestFirstLeavesReward | server/src/miningEngine.js:257-269 | A run of two paid blocks, rolled back oldest first, ends with nothing minted and the miner still holding one reward. |
| MiningRollback.BoostForNothing | server/src/miningEngine.js:257-269 | A run in which a boost bought between a block and its rollback stays on while its price is given back. |
| MiningRollback.RunSolventWithRollbacks | server/src/miningEngine.js:152-269 | With rollbacks in any order the condition for balances at zero or above is the same as without. |
| MiningEngine.Engine.Tick | server/src/miningEngine.js:294-323 | One tick, with boost expiry, work, payout and progress, is one step of the model. |
| MiningEngine.Engine.ApplyBoost | server/src/miningEngine.js:152-166 | Charges and boosts exactly when the balance covers the cost. |
| MiningEngine.Engine.UpgradeRig | server/src/miningEngine.js:168-182 | Charges and upgrades exactly when the balance covers the rig's cost. |
| MiningEngine.Engine.ApplyUserBalanceDelta | server/src/runtime/miningRuntime.js:11-19 | The delta goes to the balance and the written part of the user's miner, if there is one. |
| MiningEngine.Engine.AmountToPersist | server/models/minerProfileModel.js:101-107 | A write-back writes what is not written yet, unless that is less than 0.0000001 or there is no user. |
| MiningEngine.Engine.MarkPersisted | server/models/minerProfileModel.js:116-116 | After the await the balance of that moment counts as written. |
| MiningOutcomes.RoundOutcome | server/src/miningEngine.js:189-323 | From a round's empty start to the tick that closes it, a miner's balance gains by that tick its work over the work of all times the reward, where a tick counts the base hash rate, times the boost while it runs, of a miner that is active and in POL mode, and 0 otherwise. |
| MiningOutcomes.IdleUnpaid | server/src/miningEngine.js:299-312 | A miner that is in BLK mode or inactive at every tick of a round is paid nothing. |
| MiningOutcomes.SteadyPaid | server/src/miningEngine.js:299-312 | A miner in POL mode and active at every tick is paid for the number of ticks times its base hash rate, or 1.25 times that with a boost that runs throughout, over the same sum for all. |
| MiningOutcomes.OpenTick | server/src/miningEngine.js:294-323 | A tick that closes nothing ends the boosts that are over, adds each miner's work of this moment, and shows hash rate, active miners and progress. |
| MiningOutcomes.ClosingTick | server/src/miningEngine.js:189-292 | A tick that closes a block pays every miner by work, starts the next round at the time of closing without any work, and puts one block with reward, time and active miners in front of at most eleven before. |
| MiningOutcomes.BlockShows | server/src/miningEngine.js:213-230 | The block shows rewards of exactly the users with a miner that worked, and of that miner the very amount it is paid. |
| MiningOutcomes.KnownJoin | server/src/miningEngine.js:83-103 | A join of a known user takes over rigs, base hash rate and payout mode, and the profile's balance only if it is higher; nothing else changes. |
| MiningOutcomes.NewJoin | server/src/miningEngine.js:105-130 | Anyone else gets a new miner, active, without a boost and without work, with what the profile says. |
| MiningOutcomes.BoostOutcome | server/src/miningEngine.js:152-166 | A boost takes 0.35 and holds 1.25 for 30 seconds from now, exactly if the balance covers it. |
| MiningOutcomes.RigOutcome | server/src/miningEngine.js:168-182 | A rig takes 2.0 plus 0.8 for each after the first and adds 18 to the base hash rate, exactly if the balance covers it. |
| MiningOutcomes.DeltaOutcome | server/src/runtime/miningRuntime.js:11-19 | A delta moves balance and written part of the one miner of its user. |
| MiningOutcomes.RollbackOutcome | server/src/miningEngine.js:257-269 | A block rolled back at once leaves every balance and lifetime and the minted sum as before the tick; what counts as written keeps the pay. |
| Ledger.DriftLaw | server/models/minerProfileModel.js:101-117 | In every run of wallet requests, other transfers, credits in the database alone, engine steps, stored and lost payouts, and write-backs that end or fail, what the engine takes for written less what the database has changes by exactly the miner's rewards not stored, the change of amounts between begin and end of write-backs, amounts written whose answer was lost, the balances that joins take over, and changes of the user's balance on one side only. |
| Ledger.AgreesExactly | server/src/miningEngine.js:247-271 | From agreement, with no disturbed write-back, no such join and no change of the user's balance on one side only, both agree about what is written if and only if every payout to the miner was stored. |
| Ledger.WriteLeaves | server/models/minerProfileModel.js:109-116 | When a write-back of such a run ends, the database holds the balance in memory less the rewards not stored, although the rollback has already taken lost ones from memory. |
| Ledger.DirectCreditApart | server/services/checkinMilestoneService.js:66-71 | From ten on both sides, a milestone of five leaves fifteen in the database and ten in memory, without a payout, a write or a join. |
| Ledger.JoinAgrees | server/src/miningEngine.js:96-100 | A join with the database's balance, if it is higher than that in memory, brings the two together, whatever moved them apart, and leaves nothing to write. |
| Ledger.WithdrawalPasses | server/models/walletModel.js:187-207 | After a boost that only memory knows of, a withdrawal of all ten passes and leaves memory at -0.35 and the database at 0. |
| Ledger.OverlappingWrites | server/models/minerProfileModel.js:101-117 | Two write-backs of one boost that overlap take its price from the database twice. |
| Ledger.LostAnswerWritesTwice | server/models/minerProfileModel.js:109-116 | A write-back that reaches the database but fails in the server is followed by one that takes the same price again. |
| Ledger.BoostDuringWrite | server/models/minerProfileModel.js:109-116 | A boost bought during a write-back is never taken from the database. |
| Ledger.LostPayoutCharged | server/src/miningEngine.js:257-269 | From agreement, a paid block that is lost and rolled back, and then a write-back, leave memory as it was and the database one reward lower. |
| LedgerOutcomes.BeginWriteOutcome | server/models/minerProfileModel.js:101-107 | A write-back begins exactly for a miner with a user whose balance is at least a ten-millionth away from what counts as written, for the amount it is away then. |
| LedgerOutcomes.EndWriteOutcome | server/models/minerProfileModel.js:109-116 | When it ends, exactly that amount is added to that user in the database, and exactly that miner's whole balance counts as written. |
| LedgerOutcomes.FailWriteOutcome | server/models/minerProfileModel.js:109-114 | One that fails changes nothing in memory, and the database only if the answer alone was lost. |
| LedgerOutcomes.StoreOutcome | server/src/miningEngine.js:247-256 | A stored payout gives each user with a miner that miner's reward in the database and nobody else anything. |
| StockTheorems.RunKeeps | server/services/offerEventPurchaseService.js:16-41 | Under every interleaving of buyers the sold count of a limited offer stays within its stock, its growth equals the purchase rows and the machines created, what a purse lost is the sum of its rows' prices, and a buyer is told to retry only when at least ten other requests have gone through. |
| StockTheorems.EachGetsItsQuantity | server/services/offerEventPurchaseService.js:90-169 | Every user ends with as many purchase rows as its successful requests asked for. |
| StockLimits.LimitsKeptExactly | server/services/offerEventPurchaseService.js:90-136 | No purse below zero and no user above the claim limit throughout a run, if and only if at each won compare-and-set of it the balance or claims still allow the request. |
| StockLimits.LimitsKeptOneAtATime | server/services/offerEventPurchaseService.js:90-136 | Both limits hold in every run in which no two requests of one user are between guard and compare-and-set together. |
| StockLimits.ClaimLimitPassed | server/services/offerEventPurchaseService.js:90-101 | Two requests of one user that overlap leave two claims under a limit of one. |
| StockLimits.PurseOverdrawn | server/services/offerEventPurchaseService.js:120-136 | Two requests of one user that overlap bring a purse of 10 to -10. |
| StockRequests.RequestsFitExactly | server/services/offerEventPurchaseService.js:90-136 | For requests to an open offer of unlimited stock, no interleaving brings a purse below zero or a user above the claim limit if and only if each user's requests that would pass the guard alone also fit together. |
| StockModel.Quantity | server/controllers/offerEventController.js:132-132 | A requested quantity always ends up between 1 and 25. |
| StockService.Service.CheckOffer | server/services/offerEventPurchaseService.js:63-136 | The guard as it runs, with each of its refusals, is one step of the buyer. |
| StockService.Service.SwapSoldCount | server/services/offerEventPurchaseService.js:32-169 | A compare-and-set, with the debit and the rows that follow a won one, is one step of the buyer. |
| StockOutcomes.SwapOutcome | server/services/offerEventPurchaseService.js:32-169 | A won compare-and-set takes quantity times price from the buyer's purse in the offer's currency, POL if it names none, and changes no other balance; it adds quantity rows of that purse and price, 0 for a free offer, and quantity machines of the offer's hash rate and its size, if that is 1 or 2, and else 1. |
| StockOutcomes.GuardOutcome | server/services/offerEventPurchaseService.js:63-136 | Which refusal a request meets: the first of the server's checks that fails, on event, times, stock, claims, price, the purse in the offer's currency and its balance. |
| StockOutcomes.LookOutcome | server/services/offerEventPurchaseService.js:18-31 | A look goes on exactly if the offer is unlimited or enough is left, and otherwise answers out of stock. |
| StockOutcomes.LostOutcome | server/services/offerEventPurchaseService.js:32-41 | A lost compare-and-set changes nothing and is tried again, ten times in all. |
| StockOutcomes.ClaimsAreRows | server/services/offerEventPurchaseService.js:90-101 | The claims of a user are the purchase rows in its name. |
| StockOutcomes.QuantityOutcome | server/controllers/offerEventController.js:132-132 | The quantity is the one asked for from 1 to 25 and the nearest of these otherwise; 1 for 0 or no number. |
| WalletTheorems.RunKeeps | server/models/walletModel.js:181-251 | In every run a user's balance is its start plus completed deposits less withdrawals that did not fail; no balance is negative, no user has two pending withdrawals, no hash has two rows under verification or completed, no user two deposit rows for a hash. |
| WalletTheorems.FinalStays | server/controllers/adminController.js:251-323 | Completed and failed rows never change again. |
| WalletTheorems.RefundedOnce | server/models/walletModel.js:241-249 | A withdrawal is refunded exactly once if it failed and never otherwise. |
| WalletTheorems.CreditedOnce | server/services/depositVerifier.js:210-232 | A transaction hash is credited exactly once if one of its rows completed and never otherwise. |
| WalletTheorems.DuplicateBranchDead | server/services/depositVerifier.js:188-208 | In no run does a visit find another completed row with the hash: the duplicate branch never fires. |
| WalletTheorems.VisitsCount | server/services/depositVerifier.js:21-54 | As long as a row is under verification each visit uses up exactly one of its 96 attempts. |
| WalletTheorems.VerificationEnds | server/services/depositVerifier.js:26-38 | No row is still under verification after 97 visits. |
| WalletTheorems.RoundsEnd | server/services/depositVerifier.js:286-299 | However many rows wait in front of it and whatever happens in between, a row has left verification after 97 rounds for itself and for each older row that was under verification. |
| WalletService.Service.RequestWithdrawal | server/models/walletModel.js:181-210 | The transaction computes the specified reply, balance and row, and the delta passed on to the mining engine. |
| WalletService.Service.UpdateTransactionStatus | server/models/walletModel.js:220-251 | Sets the status of any row, refunds exactly a first failure of a withdrawal and passes that delta on, and does nothing for a missing id. |
| WalletTheorems.DeltaIsChange | server/models/walletModel.js:199-207 | What a request passes on to the mining engine is exactly what it changes in the database. |
| WalletService.Service.RejectWithdrawal | server/controllers/adminController.js:274-292 | Guards and fails a pending or approved withdrawal. |
| WalletService.Service.CompleteWithdrawal | server/controllers/adminController.js:294-323 | Guards and completes a pending or approved withdrawal. |
| WalletService.Service.SubmitDeposit | server/controllers/walletController.js:203-296 | Each guard answers as specified, and otherwise one row is created. |
| WalletService.Service.RegisterChainDeposit | server/services/contractDepositSync.js:67-94 | Creates a row only for a linked wallet and a hash without any deposit row. |
| WalletService.Service.VerifyOnePendingDeposit | server/services/depositVerifier.js:21-238 | The chain of checks, in the server's order, decides as the model does, which `VisitOutcome` spells out, and passes a credit on to the mining engine. |
| WalletService.Service.RunDepositVerifier | server/services/depositVerifier.js:286-299 | One round visits rows under verification, each once, at most 50; none it skips is older than one it visits, and with fewer than 50 it skips none. Where no hash has two live rows, as in every run, any order of the visits gives this wallet. |
| WalletRounds.RoundInAnyOrder | server/services/depositVerifier.js:294-296 | The visits of a round, each a step, commute: all orders of the picked rows lead to one wallet. |
| WalletOutcomes.VisitOutcome | server/services/depositVerifier.js:21-238 | A visit to a row under verification completes it if and only if it is at most the 96th, the receipt is there and succeeded, the transaction is there, on chain 137 and to the treasury, or to the contract with an event of its value whose wallet is both the linked one and the sender, it is confirmed often enough, its value / 10^18 is at least the minimum, and no other completed row has the hash. It then credits exactly that value to the row's user. It leaves the row waiting if and only if the attempt is not the 97th and receipt, transaction or confirmations are missing, and fails it in every other case, crediting nobody. |
| WalletOutcomes.BatchOutcome | server/services/depositVerifier.js:286-299 | A round picks waiting rows, oldest first: all if there are at most 50, and else 50. |
| WalletOutcomes.WithdrawOutcome | server/models/walletModel.js:181-210 | A withdrawal passes exactly from 10 up, without another pending, and covered by the balance; it takes the amount from its user alone and adds one pending row. |
| WalletOutcomes.ApproveOutcome | server/controllers/adminController.js:251-272 | Approval sets exactly a pending withdrawal to approved and moves no money. |
| WalletOutcomes.RejectOutcome | server/controllers/adminController.js:274-292 | Rejection sets exactly a pending or approved withdrawal to failed and gives its user the reserved amount back. |
| WalletOutcomes.CompleteOutcome | server/controllers/adminController.js:294-323 | Completion with a valid hash sets exactly a pending or approved withdrawal to completed and moves no money. |
| WalletOutcomes.StatusOutcome | server/models/walletModel.js:220-251 | A status update changes the status of its row alone and refunds exactly a reserved withdrawal that fails first. |
| WalletOutcomes.SubmitOutcome | server/controllers/walletController.js:203-296 | Which answer a submission gets: amount 0 or at least the minimum, no row of its own with the hash in any final or running state, and nobody else's live one; exactly then one row is added. Holds in every run (`RunDeposits`). |
| WalletOutcomes.ChainSyncOutcome | server/services/contractDepositSync.js:67-94 | A chain event gives the user it was looked up for one row with the hash, exactly if no deposit has it yet. |
| BlockScanner.NoGap | server/services/contractDepositSync.js:28-103 | With a configured first block, or first polls that saw latest blocks within 5000 of each other: however polls overlap, fail or see an older latest block, every block from the start of any completed first poll to the last scanned one was fetched by a completed poll. |
| BlockScanner.NoGapExactly | server/services/contractDepositSync.js:35-56 | That condition is exact: for the latest blocks that first polls saw, no run has a gap if and only if it holds. |
| BlockScanner.GapExample | server/services/contractDepositSync.js:35-56 | First polls at blocks 10000 and 16000 leave block 10001 out, and the next poll starts at 16001. |
| BlockScanner.ConfiguredNoGap | server/services/contractDepositSync.js:37-40 | With a configured first block everything from it to the last scanned block was fetched, and first polls start there. |
| BlockScanner.ScannedFromAStart | server/services/contractDepositSync.js:42-51 | Without one, something has been scanned only if a first poll has completed. |
| BlockScanner.FirstsSettle | server/services/contractDepositSync.js:16-16 | Once something has been scanned no later poll is a first one. |
| BlockScanner.Sync.BeginPoll | server/services/contractDepositSync.js:28-49 | A poll up to its log request is one step of the scanner. |
| DepositPipeline.RegisterLogs | server/services/contractDepositSync.js:58-101 | The loop looks up each event's user by the wallet links, registers the poll's events in order up to a lookup that fails, and passes over inserts that fail. |
| DepositPipeline.NoEventMissed | server/services/contractDepositSync.js:51-103 | In every run of polls, wallet requests and wallet links without a gap, an event from the start of a completed first poll to the last scanned block has a deposit row with its hash if, whenever its block was fetched, its wallet was linked and the insert of its row did not fail. |
| DepositPipeline.RowExactly | server/services/contractDepositSync.js:67-97 | Over every such run, with gaps or without, a hash has a deposit row if and only if it had one, a user's submission of it was accepted, or a poll, even one that failed later, got to an event with it while that event's wallet was linked and the insert of its row did not fail. |
| DepositPipeline.LateLinkMisses | server/controllers/walletController.js:100-115 | Deposit, scan and then link: the wallet is linked, its event is in the scanned range without a row, and the next poll starts behind it. |
| ChainOutcomes.BeginOutcome | server/services/contractDepositSync.js:28-56 | A poll asks for exactly the blocks behind the last scanned one, or from the configured one, or the last 5000, up to the latest; with none to ask for, the latest counts as scanned. |
| ChainOutcomes.EndOutcome | server/services/contractDepositSync.js:51-103 | A poll that completes has scanned exactly its blocks, and one that fails none. |
| ChainOutcomes.NeverAhead | server/services/contractDepositSync.js:28-56 | In every run each block that counts as scanned was at or below a latest block that a poll saw, so no block is scanned before the chain has it. |
| ChainOutcomes.RowsAreOwn | server/services/contractDepositSync.js:58-97 | Every deposit row that a run of polls, requests and links adds belongs to a user who submitted its hash, or whose linked wallet, when a poll got there, was the address of an event with that hash in the poll's blocks; rows keep kind, user and hash. |
| SidebarTheorems.ReadSettles | server/services/sidebarNavService.js:96-128 | Whatever is stored, one read returns and stores a well-formed list, and the next read returns it unchanged without a write. |
| SidebarTheorems.ReadUnchangedExactly | server/services/sidebarNavRegistry.js:240-303 | A read leaves a stored list alone exactly when it is well-formed with the offerwall in its group. |
| SidebarTheorems.ValidReadExactly | server/services/sidebarNavRegistry.js:240-256 | A list that validation accepts is read and saved with nothing but the offerwall moved to its group; the read writes once exactly when it moves it. |
| SidebarTheorems.RootOfferwallMoves | server/services/sidebarNavRegistry.js:240-256 | The default list with the offerwall at the root is valid, and a read changes it. |
| SidebarTheorems.SaveReadsBack | server/services/sidebarNavService.js:142-154 | An accepted save is read back exactly, without a write; a refused one stores nothing. |
| SidebarTheorems.SettledIsAccepted | server/services/sidebarNavService.js:142-154 | A list that a read leaves alone is accepted as it is when saved. |
| SidebarTheorems.ValidExactly | server/services/sidebarNavRegistry.js:340-387 | Validation accepts exactly the lists with one fitting row for every registered item, so its last check never fails. |
| SidebarTree.TreeShowsExactly | server/services/sidebarNavService.js:19-80 | The tree shows an item exactly once if its row is visible and not nested in a hidden group, and never otherwise. |
| SidebarTree.SortIsStable | server/services/sidebarNavService.js:43-50 | Entries are sorted by sort order, and those of one sort order keep their order. |
| SidebarPaths.PathVisibleExactly | server/services/sidebarNavService.js:172-209 | A path is visible exactly when, normalised, it is the path of an item that is shown. |
| SidebarPaths.PlainNormalizes | server/services/sidebarNavService.js:160-165 | A registered path comes to itself with or without one trailing slash and a query. |
| SidebarService.CoerceParentLocked | server/services/sidebarNavRegistry.js:258-275 | The loop repairs as specified and its flag tells whether anything changed. |
| SidebarService.MergeMissing | server/services/sidebarNavRegistry.js:282-303 | The loop with the set of present ids appends exactly the missing default rows. |
| SidebarService.ValidatePayload | server/services/sidebarNavRegistry.js:370-387 | The loop returns the first error code, if any. |
| SidebarService.CollectVisiblePaths | server/services/sidebarNavService.js:172-190 | The loops collect exactly the visible paths of the tree. |
| SidebarService.Config.GetForAdmin | server/services/sidebarNavService.js:96-128 | The read, with its conditional writes, stores, returns and counts writes as specified. |
| SidebarService.Config.Save | server/services/sidebarNavService.js:142-154 | The save stores and answers as specified. |
| SidebarService.Config.IsPathVisible | server/services/sidebarNavService.js:204-209 | The answer for a path, after the repair that the read may do. |
| SidebarOutcomes.RepairOutcome | server/services/sidebarNavRegistry.js:240-275 | The repair takes exactly the four root items to the root and the offerwall into its group and section, and leaves every other row and field as it is. |
| SidebarOutcomes.MergeOutcome | server/services/sidebarNavRegistry.js:282-334 | The merge appends a default row for exactly the items that no row names, in the registry's order. |
| SidebarOutcomes.ReadOutcome | server/services/sidebarNavService.js:96-128 | A read gives the repaired rows and behind them the default rows of the missing items, or all default rows if a row does not fit or an item has two, and counts one write for each of: no row yet, a repair, something missing, the fallback. |
| SidebarOutcomes.ErrorOutcome | server/services/sidebarNavRegistry.js:340-387 | Validation tells the first fault, in the order of the checks, of the first row at fault, and a missing item only if no row is at fault. |
| SidebarOutcomes.SaveOutcome | server/services/sidebarNavService.js:142-154 | A save stores the repaired rows exactly if they are well-formed and otherwise answers what is wrong with them. |
| SidebarOutcomes.TreeOutcome | server/services/sidebarNavService.js:19-80 | The tree has the three sections in order; each holds exactly its visible root items, by sort order and then by place in the list, and the group alone the visible nested ones in the same order, if it is visible. |
| SidebarOutcomes.NormalizeOutcome | server/services/sidebarNavService.js:160-165 | A path is taken for a registered one if and only if it is that path, or it with a slash, a query, or both. |

## Left out

- Routing, authentication, sockets, notifications, logging, uploads and the client.
- RPC calls: receipts, transactions, latest blocks and logs are arbitrary inputs; the events of the chain are fixed during a run of `DepositPipeline`, so reorganisations are not modelled.
- IEEE rounding: amounts are reals, or whole units of 1e-8 BLK; the flooring epsilon of the BLK service is dropped.
- Images, names, miner ids of the catalogue and timestamps of machine rows; only level, hash rate, size, owner, slot and owned row travel.
- `reloadMinerProfile`: it does to an existing miner what a join with a profile does, and then only notifies.
- The order in which the database returns rows is an input of the placement requests; ties in the limiter's capacity cleanup are left open.
- Slot sizes are 1 or 2 from the moment a machine is granted, as event purchases clamp them; other sources of machines are not modelled.
- Interleaving inside placement requests, withdrawals and deposits: a guard and its transaction are one step, although the server reads first and writes later. Two verifier runs that overlap on one row are therefore outside the model. The registration of one poll's events is one step too, so wallet links change before or after it, and so is each visit of a round.
- Admin edits of stock, prices and configuration during a run; expired-inventory cleanup.
- An explicit window start, share in basis points and the activity cut-off of BLK cycles; the snapshot of active users is an input.
- Wallets and names of miners, the history restored at start-up, and the rows that storing a payout writes beside the balances; its referral commissions are transfers of `Ledger`.
- The end of a write-back is one step: the increment in the database and the mark in memory that follows it. A delta follows its change of the database in the same step.
- Miner ids of the engine are positions in order of joining instead of random ids.
- `blk_withdrawal` rows: nothing in the modelled code creates them.
- The older deposit request and manual credits.
- Seconds remaining, the Retry-After header and the Limit header, which follow from what is modelled.
- Stored sidebar rows keep the fields that nobody looks at as one number each, and ids of unexpected types as four cases.
