# BioCoin, modelled in Dafny

BioCoin is a proof-of-stake node of the NovaCoin family.  This project models the parts of it that
keep state which must stay consistent, and proves what they are for:

- **Ledger and best chain** (`Transactions`, `Ledger`, `LedgerUndo`, `LedgerReplay`, `LedgerMoney`,
  `ConnectLoops`, `BlockTree`, `TransactionIds`, `BranchRollback`, `BestChain`, `BestChainRuns`,
  `ChainEngine`).  Connecting and disconnecting blocks changes a transaction index of spent slots.
  The *replay* of a chain is the index obtained by connecting its blocks from genesis in order.
  In every run of `AddToBlockIndex` from the genesis block on, the live index is exactly the replay
  of the best chain, every adopted block is connected entirely, and no known block with more trust
  has a chain that replays; so the unspent outputs, the money supply and the acceptance of the next
  block are those of the replay.  The results suppose that the transaction hash has no collision
  and use that a coinbase must carry its height, from which it is proved that no id returns.
  `BestChain` says what one call decides, `ChainEngine` is the code.  `BlockRules` (with
  `SpentViews`) says which blocks connect without mentioning the index that `ConnectBlock` threads
  through its loop, and `CoinAges` what coin age and the stake reward count.
- **The node** (`NodeRuns`, `PassedOverBranch`).  Runs of `AcceptBlock` and `ProcessSyncCheckpoint`
  over block index, checkpoints and transaction index together.
- **Address manager** (`AddrTables`, `AddrOperations`, `AddrMan`, `AddrEntries`, `TriedSelection`,
  `AddrSampling`, `AddrCheck`, `PeersFile`).  Five linked tables under random eviction, what becomes
  of one address over a run, the repository's own consistency check and what it does not see, and
  the compact file format that renumbers ids and rebuilds every index.
- **Parallel check queue** (`CheckQueue`).  The master/worker protocol as atomic steps, for any
  number of threads and any interleaving, spurious wake-ups included.
- **Merkle tree** (`Merkle`), **synchronized checkpoints** (`SyncCheckpoints`,
  `PendingCheckpoints`), **median time** (`MedianTime`), **stake modifier** (`StakeModifier`,
  `StakePicks`), **block assembly** (`Miner`, `MinerConnects`, `MinerRules`), **block locators**
  (`Locator`), **compact targets and retargeting** (`BigNum`, `Retarget`), **Base58** (`Base58`).

Hashes, scripts, signatures, the disk and the clock enter as parameters: functions, predicates,
success flags or numbers.  Random numbers are arbitrary streams of draws reduced to the range the
source asks for.  Integers are unbounded except where the width matters (`nTime` of an address is
reduced to 32 bits).  `Basics` and `StdOrder` hold shared helpers.

Three results say that the code does not always do what one would expect, each with the exact
condition and an input at which it happens:

- `SetBestChain` installs the new best block even when a postponed reconnect fails
  (src/main.cpp:1952-1967).  New blocks alone never lead there (`BestChainRuns.RunCompletes`), but a
  checkpoint can, by moving the node to a block that a known valid descendant already exceeds:
  `NodeRuns.TakenSettlesIff`, `NodeRuns.RecordFailsIff` and `NodeRuns.TakeFailsIff` say exactly when,
  `NodeRuns.PrudentRun` that it never happens otherwise, and `PassedOverBranch.PostponedBlockFails` is a
  run of six events in which it does.
- `Good_` and `Attempt_` leave tables that the address manager's own consistency check rejects when
  given a non-positive (respectively negative) time for a known address: `AddrCheck.GoodPassesIff`
  and `AddrCheck.AttemptPassesIff`, with the input in `AddrCheck.TimesCanFail`.
- `SelectTried` is meant to return the least recently successful of the entries it inspects, but
  records the position it was drawn from before the swap, which holds it afterwards exactly if it
  was drawn in place: `TriedSelection.SelectsOldestIff`, with the input in
  `TriedSelection.YoungerIsOffered`.

## Model

| member | source | states |
|---|---|---|
| Transactions.CoinStakeMinFee | src/main.cpp:570-624 | The minimum fee of a coinstake is never below CENT, whatever its size. |
| Transactions.MinFeeIs | src/main.cpp:570-624 | The minimum fee is the base fee for each started kilobyte, unless that part is free, and for each non-empty output below a cent; raised in a block more than half full by the whole quotient of its size limit and what is left of it, and MAX_MONEY when nothing is left or the fee exceeds that. |
| ConnectLoops.FetchInputs | src/main.cpp:1294-1367 | FetchInputs succeeds exactly when every input's output can be produced from the queued changes over the database, and then holds the entry and transaction of that view for every input. |
| ConnectLoops.IsImmature | src/main.cpp:1445-1449 | The maturity walk along pprev finds the block of the spent output exactly when it is among the last 60 blocks of the chain. |
| ConnectLoops.CheckInputs | src/main.cpp:1433-1460 | The first loop passes exactly when every input passes its own checks and the total is in the money range, running totals included; it returns the total. |
| ConnectLoops.ConnectInputs | src/main.cpp:1423-1551 | ConnectInputs on queued changes succeeds exactly when the specification's checks and Spend succeed on the view, and queues exactly the spent slots. |
| ConnectLoops.ConnectBlockTxs | src/main.cpp:1640-1781 | The whole transaction loop of ConnectBlock computes ConnectBlock of the specification: view, signature operations, fees, value in and out, or failure. |
| ConnectLoops.DisconnectInputs | src/main.cpp:1258-1291 | The loop of DisconnectInputs computes DisconnectTx of the specification, or fails with it. |
| ConnectLoops.DisconnectBlockTxs | src/main.cpp:1603-1625 | The reverse loop of DisconnectBlock computes DisconnectBlock of the specification. |
| BlockRules.CheckedIff | src/main.cpp:2172-2280 | CheckBlock accepts exactly the blocks whose first transaction is the only coinbase, of which only the second may be a coinstake, with values in range, no repeated ids or inputs, and none later than the block, the coinbase apart. |
| BlockRules.ConnectsExactly | src/main.cpp:1640-1781 | ConnectBlock accepts a block exactly if it has that form and every transaction keeps rules on the index before the block and the transactions of the block: nothing spendable is replaced, every input spends an output that is there, once, mature and not from the future, scripts accept it past the checkpointed heights, and values, signature operations and rewards stay within their bounds. |
| BlockRules.ScriptsEvaluated | src/main.cpp:1484-1503 | Past the checkpointed heights no block connects unless, in the view before each transaction, the script of each of its inputs accepts the output of the indexed transaction that it spends. |
| BlockRules.ChainScriptsEvaluated | src/main.cpp:1484-1503 | So in every block at or past that height of a chain that replays. |
| BlockRules.EarlyScriptsIgnored | src/main.cpp:1659-1722 | Below that height the outcome does not depend on what scripts say. |
| BlockRules.EarlyReplayIgnoresScripts | src/main.cpp:1659-1722 | Nor does the replay of a chain that short. |
| BlockRules.ReplayObeys | src/main.cpp:1640-1781 | Every block of a chain that replays keeps the rules with the replay of the blocks before it. |
| BlockRules.ReplaysExactly | src/main.cpp:1640-1781 | A chain replays exactly if it does without its last block and that block keeps the rules. |
| SpentViews.ViewNext | src/main.cpp:1726-1763 | Whatever the transactions before it in the block did, after a transaction an output is unspent exactly if it existed before the block or was made in it and nothing since spent it. |
| LedgerUndo.UnspendUndoesSpend | src/main.cpp:1258-1282 | Clearing the slots a transaction marked gives back the exact index. |
| LedgerUndo.SpendBelow | src/main.cpp:1469-1514 | Spending succeeds on an index that lacks fully spent entries exactly when it does on the full one, and keeps them in that relation. |
| LedgerUndo.DisconnectTxUndoes | src/main.cpp:1258-1291 | Disconnecting a transaction leads back to, or below, the index before it; exactly back if it was not indexed before. |
| LedgerUndo.DisconnectTxsSucceeds | src/main.cpp:1603-1625 | Disconnecting right after connecting never fails, even where transactions replaced fully spent ones. |
| LedgerUndo.BelowSameUnspent | src/main.cpp:1681-1688 | Entries that may be overwritten (fully spent, as in BIP 30) do not contribute unspent outputs. |
| LedgerReplay.ConnectBlockBelow | src/main.cpp:1640-1781 | ConnectBlock accepts a block on the live index exactly when it does on the replay, with the same fees and totals, and the results stay in that relation. |
| LedgerReplay.StakeInputsPredateBlock | src/main.cpp:1445-1449 | A coinstake cannot spend the coinbase beside it. |
| LedgerReplay.DisconnectBlockUndoes | src/main.cpp:1603-1625 | DisconnectBlock undoes ConnectBlock, chains of spends inside the block included: it succeeds on the connected index, restores the exact index if no transaction was indexed before, and always restores the set of unspent outputs. |
| LedgerReplay.ConnectTracks | src/main.cpp:1640-1781 | Connecting on an index in step fails exactly when the longer replay fails, and stays in step. |
| LedgerReplay.DisconnectTracks | src/main.cpp:1603-1625 | Disconnecting steps back to the replay of the shorter chain. |
| LedgerReplay.DisconnectExact | src/main.cpp:1603-1625 | With unique transaction ids, disconnecting the last block of a replay gives exactly the replay of the rest. |
| LedgerMoney.SupplyAfterBlock | src/main.cpp:1746 | The value of all unspent outputs changes by value out minus value in, the change of nMoneySupply. |
| LedgerMoney.SupplyBelow | src/main.cpp:1746 | A live index in step has the same value of unspent outputs as the replay. |
| LedgerMoney.WorkBlockCreation | src/main.cpp:1733-1742 | A proof-of-work block raises the value of unspent outputs by at most the subsidy (the premine at height 1). |
| LedgerMoney.StakeBlockCreation | src/main.cpp:1516-1532 | A proof-of-stake block after the last checkpoint time raises it by at most the stake reward of its coin age. |
| CoinAges.CoinAgeCounts | src/main.cpp:2031-2068 | Coin age counts value times seconds held, over the inputs whose block is at least eight hours older than the transaction, in whole coin-days, rounded down by less than one coin-day and one cent-second an input. |
| CoinAges.WholeCoinDays | src/main.cpp:2031-2068 | Whole coins held for whole days count exactly that many coin-days. |
| CoinAges.YoungCoinsCountNothing | src/main.cpp:2031-2068 | Coins younger than eight hours count nothing. |
| CoinAges.NoCoinAgeIff | src/main.cpp:2031-2068 | There is no coin age exactly when an input is later than the transaction. |
| CoinAges.FivePercentAYear | src/main.cpp:1516-1532 | A proof-of-stake block after the last checkpoint time creates at most five percent a year of the value its coinstake held. |
| LedgerMoney.MoneySupplyIsUnspentValue | src/main.cpp:1746 | Accumulated over a chain, nMoneySupply is the value of all unspent indexed outputs. |
| LedgerMoney.ReplayGrounded | src/main.cpp:1748-1763 | Every index entry of a replay refers to the transaction it is the entry of, with one slot per output. |
| BlockTree.WalkBack | src/checkpoints.cpp:118-126 | Walking pprev to a height stops at the ancestor of that height and never runs off the root. |
| ChainEngine.FindFork | src/main.cpp:1788-1799 | The two walks of Reorganize meet at the last common block. |
| LedgerUndo.DisconnectTxsIff | src/main.cpp:1258-1291 | From an index at or below the connected one, the transactions disconnect exactly when what they spend from is indexed; exactly their ids go. |
| BranchRollback.RollbackTracks | src/main.cpp:1815-1829 | Disconnecting a branch leads to an index in step with the replay of the fork. |
| BranchRollback.RollbackExact | src/main.cpp:1815-1829 | With unique transaction ids it succeeds and leads to exactly that replay. |
| BranchRollback.RollbackIff | src/main.cpp:1815-1829 | It succeeds exactly when everything the branch spends from is indexed and no id that a block of the branch spends from is used again by a later block of it. |
| BranchRollback.ExactRollbackIff | src/main.cpp:1258-1291 | From an exact index it succeeds exactly when no id that a block of the branch spends from is used again by a later one. |
| BestChain.SwitchedTracks | src/main.cpp:1783-1877 | Switching branches succeeds exactly when the old branch rolls back and the whole new chain replays, and leads to an index in step with it. |
| BestChain.SwitchedExact | src/main.cpp:1783-1877 | From an exact index with unique ids it succeeds exactly when the new chain replays, and gives that replay. |
| BestChain.PostponedTracks | src/main.cpp:1952-1967 | The postponed blocks leave the index in step with the last one that connects, which is the new block exactly when its chain replays. |
| BestChain.SetBestTracks | src/main.cpp:1905-2022 | The block is adopted exactly when, attached to the best block, its chain replays, or else the old branch rolls back and the intermediate block's chain replays; the index is then in step with the last block connected, which is the block itself exactly when its chain replays. |
| BestChain.SetBestExact | src/main.cpp:1905-2022 | With unique ids along the old chain an exact index becomes the exact replay of the last block connected. |
| BestChain.ValidChainAdopted | src/main.cpp:1905-2022 | From an exact index with unique ids a chain that replays is adopted, and the index is its replay. |
| TransactionIds.OneHeight | src/main.cpp:2333-2337 | A script starts with the height of one block only. |
| TransactionIds.HeightIsWritten | src/main.cpp:2333-2337 | A height is one opcode from 1 to 16, and otherwise a count and the bytes of the number, lowest first, no more than leave the sign bit clear. |
| TransactionIds.IdsAreUnique | src/main.cpp:2333-2337 | On every chain that replays and whose coinbases carry their heights no transaction id occurs twice, short of a hash collision: another coinbase differs in height, and any other transaction would spend its inputs again. |
| TransactionIds.RollbackSucceeds | src/main.cpp:1815-1829 | So disconnecting a branch of such a chain always succeeds and gives the replay of the fork. |
| BestChainRuns.SetBestDecides | src/main.cpp:1905-2022 | If no other known block is better, SetBestChain adopts a block exactly if its chain replays, and then connects all of it. |
| BestChainRuns.PostponedFailsIff | src/main.cpp:1952-1967 | From an exact index a postponed block fails exactly when there is one, the intermediate block's chain replays, and the new block's does not. |
| BestChainRuns.AddBlockSettles | src/main.cpp:2092-2167 | Recording a block keeps the index exact and leaves no better block known; with more trust it is adopted exactly if its chain replays. |
| BestChainRuns.RunIsReplay | src/main.cpp:2092-2167 | In every state of every run from the genesis block on, the index is exactly the replay of the best chain, and no known block with more trust has a chain that replays. |
| BestChainRuns.RunCompletes | src/main.cpp:1952-1967 | In every step of every run an adopted block is also the last one connected. |
| NodeRuns.StepProjects | src/checkpoints.cpp:404-456 | Seen from the checkpoints, a step of the node is a step of theirs, with the outcomes of SetBestChain filled in. |
| NodeRuns.RunProjects | src/main.cpp:2283-2363 | So every run of the node is one of theirs: the checkpoint is always on the best chain, and final. |
| NodeRuns.RunInStep | src/main.cpp:2283-2363 | In every run of blocks and checkpoints, as long as no postponed block failed, the index is exactly the replay of the best chain. |
| NodeRuns.RecordFailsIff | src/main.cpp:1952-1967 | A new block's postponed part fails exactly when there is one, the intermediate block's chain replays, and the new one's does not. |
| NodeRuns.TakeFailsIff | src/checkpoints.cpp:430-443 | Likewise for a checkpoint that SetBestChain makes the best block. |
| NodeRuns.BetterKnownBreaks | src/main.cpp:1952-1967 | Once a known valid descendant of the checkpoint has more trust than the best block, every block on it that does not connect is adopted without being connected. |
| NodeRuns.TakenSettlesIff | src/checkpoints.cpp:430-443 | After a checkpoint there is no such descendant exactly if no known valid block under it exceeds it, up to the trust of the old best block. |
| NodeRuns.PrudentRun | src/checkpoints.cpp:404-456 | In every run whose checkpoints are of that kind no postponed block ever fails and the index is the replay of the best chain. |
| NodeRuns.AheadIsPrudent | src/checkpoints.cpp:430-443 | A checkpoint with at least the trust of the best block is always of that kind. |
| PassedOverBranch.PostponedBlockFails | src/checkpoints.cpp:430-443 | A run of six events: a checkpoint of less trust passes over a known block, the next block on it pays too much, and becomes the best block without being connected. |
| ChainEngine.ConnectBranch | src/main.cpp:1831-1848 | Connecting a branch succeeds exactly when every block of it connects in turn; index and supplies are then those of the new chain, and no other supply changed. |
| ChainEngine.Relink | src/main.cpp:1856-1864 | Clearing and setting links turns pnext from exactly the old path into exactly the new path. |
| ChainEngine.Reorganize | src/main.cpp:1783-1877 | Reorganize succeeds exactly when the old branch rolls back and the blocks of the new one connect; then everything is that of the new chain; otherwise index and links are unchanged. |
| ChainEngine.SetBestChainInner | src/main.cpp:1881-1903 | Attaching a block succeeds exactly when it connects, and gives the state of its chain; otherwise nothing changes. |
| ChainEngine.ConnectPostponed | src/main.cpp:1952-1967 | The postponed blocks connect up to the first that does not, and the state is that of the last that did. |
| BestChain.Intermediate | src/main.cpp:1926-1940 | An ancestor of the new block, or the block itself, whose parent has no more trust than the best block; if it is not the block itself, it has more. |
| ChainEngine.FindIntermediate | src/main.cpp:1926-1940 | The walk stops at the intermediate block, and the postponed blocks are exactly those after it. |
| ChainEngine.ChainState.SetBestChain | src/main.cpp:1905-2022 | It succeeds exactly when the block is adoptable. On failure index, links and best block are unchanged. On success the best block is the new one, and the state is that of its chain if and only if that chain replays, otherwise that of the last block that connected. |
| ChainEngine.ChainState.AddToBlockIndex | src/main.cpp:2092-2167 | The block is recorded, the best block changes exactly on more trust and an adoptable block, the state stays that of the best chain exactly when an adopted chain replays, and an exact index stays exact while ids are unique. |
| ChainEngine.ChainState.IsInMainChain | src/main.h:1267-1270 | pnext or being the best block is being the best block or an ancestor of it. |
| ChainEngine.ChainState.FindBlockByHeight | src/main.cpp:991-1006 | For every height up to the best one, whatever block was remembered, the result is the block that a walk along pprev from the tip finds. |
| ChainEngine.TipSupplyIsUnspentValue | src/main.cpp:1746 | In every synced state the tip's nMoneySupply is the value of all unspent outputs of the live index, and those are the unspent outputs of the replay. |
| CheckQueue.StepInv | src/checkqueue.h:68-126 | Every step of every thread keeps the protocol invariant. |
| CheckQueue.Accounting | src/checkqueue.h:76-104 | In every state of every run nTodo counts queued checks and those in unfinished batches, nTotal - nIdle counts the threads holding a batch, and every added check is queued, undone, evaluated or skipped exactly as often as added. |
| CheckQueue.WaitResult | src/checkqueue.h:88-97 | Wait returns true exactly when every check added in the round evaluates to true; nothing is left over, skipping happens only after a failure, and the queue is idle. |
| CheckQueue.ControlAssertHolds | src/checkqueue.h:189-195 | The IsIdle assert of every CCheckQueueControl holds. |
| CheckQueue.BlockedMasterHasWorker | src/checkqueue.h:76-103 | A master blocked without a pending notification waits for a worker that holds a batch. |
| CheckQueue.WaitCanProceed | src/checkqueue.h:88-103 | While the master is in Loop, some thread can run or finish a batch, or the master is notified and returns when it wakes. |
| CheckQueue.FiniteWork | src/checkqueue.h:105-126 | Without new checks, the evaluations and batch ends that happen are at most as many as the work left, which they use up. |
| CheckQueue.BatchShare | src/checkqueue.h:106-111 | A batch is the queue shared among the threads in Loop, the idle ones counted twice, and one more; but at least one check and at most nBatchSize. |
| CheckQueue.ProductiveReturns | src/checkqueue.h:68-126 | Any WorkLeft + 1 productive steps in a row (an evaluation, a batch end, or the notified master's wake-up) contain the return of Wait. |
| CheckQueue.WaitCanReturn | src/checkqueue.h:68-126 | From every reachable state with the master in Loop, some run goes on to the return of Wait within WorkLeft + 1 steps. |
| AddrTables.SwappedIndexed | src/addrman.cpp:106-124 | SwapRandom exchanges two positions and keeps mapInfo, mapAddr and vRandom mutually inverse. |
| AddrTables.UnreferencedInv | src/addrman.cpp:162-171 | Dropping a reference keeps the invariant; the entry goes from all indexes exactly when it was the last reference; no other entry changes but its place in vRandom. |
| AddrTables.EvictedInv | src/addrman.cpp:231-259 | Replacing an entry of a full tried bucket and moving it back to a "new" bucket keeps the invariant. |
| AddrOperations.VictimIs | src/addrman.cpp:156-189 | ShrinkNew's entry is the first terrible one of the bucket, or if there is none the oldest at the four random positions. |
| AddrEntries.OldestOfFour | src/addrman.cpp:177-189 | Without a terrible entry it is one of those at the four random positions, none of which was last seen before it. |
| AddrOperations.GoodKnown | src/addrman.cpp:262-311 | After Good_ the entry is tried, no entry is lost, and at most one other entry changed, from tried to one "new" bucket. |
| AddrOperations.GoodKeepsInv | src/addrman.cpp:262-311 | Good_ keeps the invariant if and only if the time is positive or the address is not known with that port. |
| AddrOperations.AttemptKeepsInv | src/addrman.cpp:371-388 | Attempt_ keeps it if and only if the time is not negative or the address is not known with that port. |
| AddrOperations.ConnectedKeepsInv | src/addrman.cpp:521-539 | Connected_ always keeps it. |
| AddrOperations.AddKeepsInv | src/addrman.cpp:313-369 | Add_ always keeps it. |
| AddrOperations.AddRemembers | src/addrman.cpp:313-369 | A routable address is known after Add_, and at most one other address is forgotten. |
| AddrOperations.RunKeepsInv | src/addrman.cpp:94-369 | From an empty table, every run of the operations with positive times and any draws meets the invariant in every state. |
| AddrEntries.GoodResets | src/addrman.cpp:262-311 | After Good_ of a known address at its port the entry, of the same address and port, is tried, has no failed attempts, and its times of success, try and sight are the given one. |
| AddrEntries.GoodIsNotTerrible | src/addrman.cpp:38-58 | From ten minutes before that time to thirty days after it the entry is not terrible. |
| AddrEntries.CountSinceGood | src/addrman.cpp:262-388 | Over every run, while an entry keeps its id, its attempts are the number of Attempt_ calls for its address and port since the last Good_ for them. |
| AddrEntries.CountSinceCreated | src/addrman.cpp:262-388 | Or since it was created, if there was none. |
| AddrEntries.LastTryIs | src/addrman.cpp:262-388 | And its time of last try, if there was an Attempt_, is that of the last one. |
| AddrEntries.TerribleAfterThree | src/addrman.cpp:38-58 | Three attempts without any success make it terrible a minute after the last. |
| AddrEntries.TerribleAfterTen | src/addrman.cpp:38-58 | So do ten since it was last good, more than a week ago. |
| AddrEntries.FewFailures | src/addrman.cpp:38-58 | With fewer only the time it was last seen counts. |
| AddrEntries.OtherPortIgnored | src/addrman.cpp:262-277 | Good_, Attempt_ and Connected_ of an unknown address, or at another port, change nothing. |
| AddrEntries.ConnectedRefreshes | src/addrman.cpp:521-539 | After Connected_ the time last seen is at most twenty minutes behind, and nothing else changed. |
| AddrEntries.AnnouncedAgain | src/addrman.cpp:313-345 | An announcement of a known address adds its services, never sets its time back, and leaves it behind the announced one by no more than the penalty and an hour or a day. |
| AddrEntries.AnnouncedFirst | src/addrman.cpp:313-369 | An unknown routable address is entered as announced, less the penalty, with one reference, in the bucket that its source selects. |
| AddrEntries.AnotherReference | src/addrman.cpp:333-369 | A known address gains a reference exactly if the announcement is news, it is not tried and has fewer than four, the draw among two to the power of its references is zero, and the bucket does not hold it yet. |
| AddrEntries.MadeTriedPlaces | src/addrman.cpp:204-260 | The entry leaves all "new" buckets for the tried bucket it hashes to, at its end or, if full, in the place of the entry SelectTried offers, which goes to its own "new" bucket or, if that is full, to the one the first came from. |
| TriedSelection.SelectsOldestIff | src/addrman.cpp:126-148 | The inspected entries end up in front, and the position returned is where the least recently successful of them was drawn; it holds that entry exactly if it was drawn in place. |
| TriedSelection.YoungerIsOffered | src/addrman.cpp:126-148 | Of two entries the younger is offered when the first draw finds the older one in the second place. |
| AddrEntries.FoundNearest | src/addrman.cpp:289-302 | The bucket Good_ takes as an entry's origin is the first that holds it, from a random one on and round. |
| AddrOperations.GetAddrCountIs | src/addrman.cpp:494-498 | GetAddr_ gives 23 percent of the known addresses, rounded down, and at most 2500. |
| AddrMan.AddrMan.Create | src/addrman.cpp:94-104 | The new entry gets the next id and is entered in all three indexes. |
| AddrMan.AddrMan.SwapRandom | src/addrman.cpp:106-124 | The two ids change places in vRandom and in their entries; equal positions change nothing. |
| AddrMan.AddrMan.SelectTried | src/addrman.cpp:126-148 | The bucket is a permutation of itself and the returned position is in it. |
| AddrMan.AddrMan.ShrinkNew | src/addrman.cpp:150-202 | One reference of the victim is dropped; the result tells whether there was a terrible entry; no assert fires. |
| AddrMan.AddrMan.MakeTried | src/addrman.cpp:204-260 | The entry leaves all "new" buckets and enters its tried bucket, evicting one if full; no assert fires. |
| AddrMan.AddrMan.Good | src/addrman.cpp:262-311 | Good_ computes GoodDone, and the tables meet the invariant afterwards exactly under the stated condition. |
| AddrMan.AddrMan.Add | src/addrman.cpp:313-369 | Add_ computes AddDone and keeps the invariant; it returns whether the address was new and routable. |
| AddrMan.AddrMan.Attempt | src/addrman.cpp:371-388 | Attempt_ changes only lastTry and attempts of a matching entry. |
| AddrMan.AddrMan.Connected | src/addrman.cpp:521-539 | Connected_ changes only nTime of a matching entry, and only if more than 20 minutes old. |
| AddrMan.AddrMan.GetAddr | src/addrman.cpp:494-508 | GetAddr_ returns at most 23% and 2500 of the known entries, no address twice, each as the tables have it, and only reorders vRandom. |
| AddrSampling.EveryOrderComesOut | src/addrman.cpp:500-508 | Any of the known addresses can be returned in any order: for every choice of that many and every order of them some draws bring exactly these to the front. |
| AddrCheck.Check | src/addrman.cpp:435-491 | Check_ returns 0 exactly when every entry is in order, the counts agree, the tried buckets list every tried id once, and every entry is in as many "new" buckets as it counts. |
| AddrCheck.EntryPassesIff | src/addrman.cpp:443-462 | An entry passes exactly if it is tried, was once good and has no references, or is new with one to four; its address and position lead back to it; and its times are not negative. |
| AddrCheck.InvPasses | src/addrman.cpp:435-491 | Every state that meets the invariant passes Check_. |
| AddrCheck.InvIff | src/addrman.cpp:435-491 | A state meets the invariant exactly if it passes Check_ and what Check_ does not look at is in order: id bounds, addresses that outlived their entry, bucket sizes, and the hashes of tried buckets. That vRandom lists every entry once follows from its count. |
| AddrCheck.GoodPassesIff | src/addrman.cpp:262-311 | After Good_ the tables pass Check_ if and only if the time is positive or the address is not known with that port. |
| AddrCheck.AttemptPassesIff | src/addrman.cpp:371-388 | After Attempt_ they pass if and only if the time is not negative or the address is not known with that port. |
| AddrCheck.TimesCanFail | src/addrman.cpp:313-388 | An address announced to an empty address manager and then marked good at time 0, or attempted at time -1, makes Check_ fail. |
| PeersFile.Write | src/addrman.h:281-319 | From a state that meets the invariant every entry is written once and every "new" bucket as the numbers of its entries; the early exits lose nothing. |
| PeersFile.Read | src/addrman.h:320-382 | Reading back loses no entry, although ids are renumbered and tried buckets refilled, and gives a state that meets the invariant. |
| PeersFile.RoundTrip | src/addrman.h:251-382 | Writing and reading keep the set of addresses, and for each the port, services, time, source, last success, attempts and references, the "new" buckets and the tried bucket; the time of the last try becomes 0. |
| Merkle.BlockTxs.BuildMerkleTree | src/main.h:992-1009 | The buffer holds all levels, leaves first, and the result is the root. |
| Merkle.RootIsTop | src/main.h:992-1009 | The root is the top of the tree in which every node is the hash of its left and its right child, or of the left one twice if there is no right one. |
| Merkle.BlockTxs.GetMerkleBranch | src/main.h:1011-1025 | The result is the list of siblings on the way up. |
| Merkle.CheckMerkleBranch | src/main.h:1027-1040 | The result is the hash reached by climbing along the branch, or 0 for index -1. |
| Merkle.BranchLeadsToRoot | src/main.h:1011-1040 | For every leaf index and leaf count the branch of a leaf leads to the root. |
| Merkle.BranchProvesLeaf | src/main.h:1027-1040 | Short of a hash collision only the right leaf with the right siblings leads to the root. |
| Merkle.RootCommits | src/main.cpp:2261-2278 | Two lists without repeated transaction ids and with equal roots are equal, unless the pair hash has a collision or an id is the hash of a pair. |
| Merkle.RepeatedLastSameRoot | src/main.cpp:2267-2270 | Without the test for repeated ids the root does not determine the list. |
| SyncCheckpoints.NewBlockDescends | src/main.cpp:2324-2328 | A block that is newly accepted is a strict descendant of the current checkpoint. |
| SyncCheckpoints.CheckpointOnBestChain | src/checkpoints.cpp:170-214 | In every state of every run the checkpoint is the best block or an ancestor of it. |
| SyncCheckpoints.CheckpointIsFinal | src/checkpoints.cpp:404-456 | From any moment of a run on, its checkpoint stays an ancestor of all later checkpoints and best blocks, and every block accepted later descends strictly from it. |
| SyncCheckpoints.Checkpoints.CheckSync | src/checkpoints.cpp:227-252 | The walk decides: a descendant of the checkpoint above its height, the checkpoint itself at its height, a known block below. |
| SyncCheckpoints.Checkpoints.ValidateSyncCheckpoint | src/checkpoints.cpp:108-148 | True exactly for known strict descendants; a checkpoint on another branch is remembered as invalid. |
| SyncCheckpoints.Checkpoints.ProcessSyncCheckpoint | src/checkpoints.cpp:404-456 | The checkpoint moves only to a strict descendant and stays on the best chain, whichever step fails. A message for an unknown block leaves it pending and changes nothing else; for a known strict descendant it moves the checkpoint there when every step succeeds. |
| SyncCheckpoints.Checkpoints.AcceptPendingSyncCheckpoint | src/checkpoints.cpp:170-214 | Likewise for the pending checkpoint. |
| SyncCheckpoints.Checkpoints.AcceptBlock | src/main.cpp:2283-2363 | The index grows only by strict descendants of the checkpoint, and the checkpoint stays on the best chain. |
| PendingCheckpoints.UnknownIsRemembered | src/checkpoints.cpp:404-419 | A message for an unknown block only makes it pending. |
| PendingCheckpoints.KnownIsTaken | src/checkpoints.cpp:421-456 | A message for a known strict descendant moves the checkpoint there exactly if every step succeeds; it is then on the best chain and nothing is pending. |
| PendingCheckpoints.OtherIsRefused | src/checkpoints.cpp:108-148 | A message for any other known block only marks it as invalid, if it is on another branch. |
| PendingCheckpoints.StaysPending | src/main.cpp:2283-2363 | From such a message on, blocks other than the pending one leave it pending and the checkpoint where it is. |
| PendingCheckpoints.PendingIsTaken | src/checkpoints.cpp:170-214 | When after any such blocks the pending block itself is accepted, the checkpoint moves there exactly if every step succeeds; it is then the best block and nothing is pending. |
| MedianTime.GetMedianTimePast | src/main.h:1279-1291 | The loop and the sort give the median of the last eleven times of the chain, or of all if fewer. |
| MedianTime.MedianIsCount | src/main.h:1289-1290 | The median is at least v exactly when at least the upper half of the window is. |
| MedianTime.MedianOfLast | src/main.h:1279-1291 | The median is at least v exactly when at least half of the last eleven blocks, or of all if there are fewer, are no earlier. |
| MedianTime.MedianMonotone | src/main.cpp:2304-2309 | Along a chain whose blocks are later than the median of their ancestors the median never decreases. |
| MedianTime.LaterThanGenesis | src/main.cpp:2304-2309 | Hence every block is later than the genesis block. |
| StakeModifier.SelectBlockFromCandidates | src/kernel.cpp:130-171 | The pick is the first minimum of the selection hash among unselected candidates up to the stop time, or the earliest unselected one if there are none; it fails only when all are selected. |
| StakePicks.PickBeats | src/kernel.cpp:130-171 | The pick beats every competing candidate: a proof-of-stake block counts with its selection hash divided by 2^32, a proof-of-work block with its hash, and among equals the first wins. |
| StakePicks.StakeIsFavoured | src/kernel.cpp:147-156 | A competing proof-of-stake block keeps every proof-of-work block from being picked unless one has a selection hash below 2^224. |
| StakePicks.NoneCompetes | src/kernel.cpp:130-171 | With nothing unselected up to the stop time the pick is the earliest unselected candidate. |
| StakeModifier.PickUnique | src/kernel.cpp:130-171 | There is only one such candidate. |
| StakeModifier.PicksDistinct | src/kernel.cpp:254-269 | Different rounds pick different blocks. |
| StakeModifier.SelectBlocks | src/kernel.cpp:249-269 | All min(64, candidates) rounds succeed, and bit r of the modifier is the entropy bit of the pick of round r. |
| StakeModifier.GetLastStakeModifier | src/kernel.cpp:98-109 | The walk stops at the nearest generating ancestor, and fails when there is none. |
| StakeModifier.ComputeNextStakeModifier | src/kernel.cpp:186-298 | It succeeds whenever the genesis block generated a modifier, and its result is the next modifier of the ancestor chain. |
| StakePicks.RoundFavours | src/kernel.cpp:234-269 | In every round of a new modifier the pick is unselected and beats all that compete up to the round's stop time, which is counted from the start of the parent's hour. |
| StakePicks.BitOfRound | src/kernel.cpp:249-269 | Bit r of the modifier, read off the number, is the entropy bit of the pick of round r. |
| StakePicks.SectionsGrow | src/kernel.cpp:111-126 | Every round adds a longer section to the stop time than the one before, from 20 minutes to an hour. |
| StakePicks.CandidatesAre | src/kernel.cpp:234-246 | The candidates are the ancestors back to the first that is too early, by time and then by hash. |
| StakePicks.GeneratesIff | src/kernel.cpp:206-232 | On an accepted chain a block generates a modifier exactly if it is the first, or its parent and itself are both in a later hour than the last block that generated one. |
| StakeModifier.NextModifierUnique | src/kernel.cpp:186-298 | The next modifier is determined by the ancestors and the block's time. |
| StakeModifier.OtherBranchesIrrelevant | src/kernel.cpp:234-246 | Blocks added elsewhere in the block index leave the ancestor chain, and so the modifier, unchanged. |
| StakeModifier.AlwaysFixedInterval | src/kernel.cpp:92-95 | Every block of an accepted mainnet chain falls under the fixed-interval rule. |
| StakeModifier.IntervalsIncrease | src/kernel.cpp:206-232 | The interval numbers of generating blocks strictly increase along an accepted chain. |
| StakeModifier.ModifierIsNearest | src/main.cpp:2126-2131 | Every block records the modifier of its nearest generating ancestor or its own. |
| Miner.SortOut | src/miner.cpp:185-258 | Exactly the eligible transactions without parents in the pool are ready, the others wait for exactly their parents, and every parent knows its dependers. |
| Miner.Release | src/miner.cpp:345-361 | After a transaction is added exactly those waiting for nothing else become ready, each once. |
| Miner.Assemble | src/miner.cpp:260-362 | Whatever order the heap gives, the block holds pool transactions, each once and after all its parents, each of which passed all tests in turn; every eligible transaction whose parents are in the block left the queue exactly once, after them, and the block is what trying these in turn builds. |
| Miner.LeftOutFailed | src/miner.cpp:260-362 | What was tried is in the block exactly if, when its turn came, it was not skipped and fitted what was there. |
| MinerRules.FitsIff | src/miner.cpp:280-327 | The tests that assembly makes on its own view are rules on the index and the transactions chosen before. |
| MinerRules.EachKeepsRule | src/miner.cpp:260-340 | Every transaction of an assembled block keeps these rules after those before it: room, time, minimum fee for its place, signature operations, and inputs that are there, once, mature, accepted by their scripts and worth what it pays out. |
| MinerRules.OrdinaryWithFees | src/miner.cpp:185-340 | Every one is final, neither coinbase nor coinstake, and the fees collected are those of all. |
| MinerRules.TriedIff | src/miner.cpp:185-362 | What left the queue is every final ordinary transaction of the pool each of whose inputs is in the index or among the chosen. |
| MinerRules.InBlockIff | src/miner.cpp:260-340 | What was tried is in the block exactly if it was not skipped and kept the rules after the transactions chosen by then. |
| MinerConnects.WithinLimits | src/miner.cpp:280-288 | 1000 plus all sizes and 100 plus all signature operations stay below their limits whenever anything is added. |
| MinerConnects.NoDoubleSpend | src/miner.cpp:308-330 | Across the block no output is spent twice, nor one that is spent on chain. |
| MinerConnects.AssembledBlockConnects | src/main.cpp:1733-1742 | The assembled proof-of-work block is accepted by ConnectBlock if CheckBlock accepts it, with the same fees, so that the coinbase takes exactly the recomputed maximum. |
| MinerConnects.CreateNewBlock | src/miner.cpp:114-389 | The schedule, limits and spends are in order, nothing eligible was passed over, and the reward is that of the collected fees. |
| Locator.Set | src/main.h:1523-1538 | Entries are 0 to 11 back one by one, then in doubling steps, then genesis. |
| Locator.LocatorLength | src/main.h:1523-1538 | The number of entries is logarithmic in the height. |
| Locator.GetBlockIndex | src/main.h:1561-1574 | The first entry in the main chain, or genesis. |
| Locator.GetDistanceBack | src/main.h:1540-1559 | The locator distance of that entry. |
| Locator.KnownBlockForks | src/main.h:1267-1270 | The ancestors of a known block are on the main chain up to a fork and off it after. |
| Locator.LocatorQuality | src/main.h:1523-1574 | For a fork d back the block found is a main-chain ancestor exactly d back if d is at most 11 and between d and 2d otherwise; GetDistanceBack is its true distance unless only the appended genesis matched. |
| BigNum.VchRoundTrip | src/bignum.h:365-390 | setvch undoes getvch. |
| BigNum.SignedRoundTrip | src/bignum.h:392-415 | Reading the bytes of a number of either sign gives it back. |
| BigNum.GetCompactValue | src/bignum.h:404-415 | The compact form is the size and the number scaled to three bytes. |
| BigNum.SetCompactValue | src/bignum.h:392-402 | A compact value without sign bit stands for its mantissa scaled to its size. |
| BigNum.CompactLoss | src/bignum.h:392-415 | Encoding never rounds up and loses less than one part in 2^15. |
| BigNum.CompactMonotone | src/bignum.h:404-415 | Encoding is monotone. |
| BigNum.CompactExact | src/bignum.h:392-415 | Decoding is undone by encoding exactly on the canonical values. |
| Retarget.NextBounded | src/main.cpp:1154-1178 | The next target never exceeds the limit nor five quarters of the previous one. |
| Retarget.NextMonotone | src/main.cpp:1154-1178 | Slower blocks never lower the next target or nBits. |
| Retarget.OnTargetKeepsBits | src/main.cpp:1166-1178 | Spacing exactly on target keeps nBits. |
| Retarget.Direction | src/main.cpp:1165-1174 | Blocks slower than one in three minutes strictly raise a target from 1440 up to the limit, and faster ones strictly lower it; blocks on time keep it. |
| Retarget.Ends | src/main.cpp:1157-1174 | Nine minutes or more give five quarters of the target, one second or less 2522 parts in 2880, up to the limit. |
| Retarget.Slope | src/main.cpp:1165-1174 | In between every second adds one part in 1440 of the target, up to rounding, until the limit. |
| Retarget.BitsDirection | src/main.cpp:1165-1178 | Rounding to nBits keeps the direction for every canonical nBits whose target is at least 1440 and below that of the rounded limit. |
| Retarget.GetLastBlockIndex | src/main.cpp:1134-1139 | The nearest block of the kind, or genesis. |
| Retarget.GetNextTargetRequired | src/main.cpp:1141-1179 | The result is the rule's nBits, whatever nBits the index holds, negative and overlong ones included. |
| Retarget.RequiredDirection | src/main.cpp:1141-1179 | Of such nBits, those required after two blocks of a kind stand for a larger target exactly if the two were more than three minutes apart, and for a smaller one exactly if less. |
| Retarget.RequiredEnds | src/main.cpp:1141-1179 | Those required are of five quarters of the target from nine minutes on, and of 2522 parts in 2880 up to one second, within the limit. |
| Retarget.LastOfKindIsNearest | src/main.cpp:1134-1139 | The walk passes only blocks of the other kind. |
| Retarget.RequiredCanonical | src/main.cpp:1141-1179 | In an index of canonical nBits it is canonical and within the limit. |
| Retarget.TargetsStayCanonical | src/main.cpp:2301-2302 | Starting from the genesis block and accepting only blocks with the required nBits, every nBits is canonical and none is negative. |
| Base58.EncodeBase58 | src/base58.cpp:27-65 | The division loop, the zeros and the reversal compute the encoding. |
| Base58.DecodeBase58 | src/base58.cpp:75-119 | The digit loop, the sign-byte trim and the zeros compute the decoding; anything but spaces around one word fails. |
| Base58.InAlphabet | src/base58.cpp:24 | The alphabet is the letters and digits without 0, I, O and l. |
| Base58.Alphabet | src/base58.cpp:24 | Digits in numeric order are characters in ASCII order, and each of the 58 occurs. |
| Base58.DecodesIff | src/base58.cpp:75-119 | A string decodes exactly if it is a word over the alphabet with blanks around it, and then like the word alone. |
| Base58.TrimmedVch | src/base58.cpp:103-108 | Without the sign byte getvch gives the plain bytes. |
| Base58.DecodeEncoded | src/base58.cpp:27-119 | Decoding an encoded byte string gives it back, leading zeros included. |
| Base58.EncodeDecoded | src/base58.cpp:27-119 | Encoding the decoding of a string over the alphabet gives it back. |
| Base58.CheckRoundTrip | src/base58.cpp:129-157 | The checksummed form round trips. |
| Base58.CheckUnique | src/base58.cpp:129-157 | Over the alphabet a checksummed byte string has one spelling. |
| Base58.AddressRoundTrip | src/base58.cpp:231-294 | A printed key or script address parses to the same destination on its network, and to none on the other. |
| Base58.AddressBytes | src/base58.cpp:231-294 | It stands for its version byte (25 or 20, on the test network 111 or 196), the id, and the checksum of both. |
| Base58.ParsesIff | src/base58.cpp:231-294 | A string parses to a destination on a network exactly if it stands for these bytes, the id twenty of them. |

## Left out

- Cryptography, script evaluation and hashing are parameters; nothing is said about their strength.
- Disk files, the databases, sockets, RPC, wallet, alerts, key store and user interface are not modelled; a failing read or write appears as a flag where it changes what happens next.
- Database batches are values that replace the committed index on success; crash recovery is not modelled.
- Integer overflow of 64-bit amounts and 32-bit heights is not modelled: amounts are range-checked by MoneyRange as in the source.
- Clock-dependent and context-free checks of CheckBlock with no bearing on the index (proof of work, signatures, sizes) are one predicate of the block.
- Orphan blocks, mempool updates after a reorganisation, and nBestInvalidTrust are not modelled.
- After a postponed block has failed the best block is one that is not connected; what later events do to such a state is not modelled.
- CheckQueue: the fShutdown exit, which abandons the accounting on purpose, and the blocking of Quit are not modelled.
- AddrMan: Select_, GetChance and GetOnlineAddr_ (floating-point selection and a plain filter) are not modelled.
- PeersFile.Read: is stated for data written by Write with the same bucket count; malformed data and a changed bucket count are not modelled, and the byte layout of the stream is abstracted to its fields.
- SyncCheckpoints: ResetSyncCheckpoint, testnet, and the ADVISORY and PERMISSIVE modes, which do not keep the property, are not modelled.
- StakeModifier: the modifier checksum table and the kernel hash search are not modelled; the bitwise union of distinct bits is written as their sum.
- Miner: priorities, fee rates and the free-transaction tests are floating point and appear as arbitrary choices; a pool with missing inputs is excluded, as the source declares it impossible.
- MinerConnects.AssembledBlockConnects: is stated for proof-of-work blocks, because a coinstake handed to assembly is not compared with the pool transactions for double spends.
- Retarget: ComputeMaxBits is a heuristic filter that the rule does not imply.
- Base58: strings containing NUL, private-key strings and OPENSSL_cleanse are not modelled.
