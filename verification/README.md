# Verified model of the Vorliq ledger

A Dafny model of the Vorliq node: its chain and pending pool, the read index kept beside
them, pruning to a balance snapshot, three-phase mining, adoption of peers' chains, the
readers-writer lock that guards all of it, and three smaller state machines (governance,
lending, the faucet-abuse store). `dafny verify dfyconfig.toml` checks everything.

The ledger is modelled twice. Module `Ledgers` computes every answer by a full scan, with no
cache: it is what the node means. Module `Node` has the node's own objects, with the read
index, the memoised validity flag and the prune point, changed in place by the same methods
the source has; each method is proved to answer, and to leave the ledger, exactly as the
scan says. Properties of runs are then proved about the scan.

| file | models |
|---|---|
| `protocol.dfy` | addresses, transactions, blocks, digests and signature checks as abstract functions |
| `balances.dfy` | the checked ledger rule and the unchecked index rule for balances; conservation |
| `rewards.dfy`, `economics.dfy` | halving, the 95/5 split, the default schedule, the economics page's loop |
| `ledger.dfy` | validity, admission, retargeting, the pool, building and finalizing blocks, pruning |
| `admission.dfy` | what the node's checks mean, in the fields of blocks and transactions |
| `pruning.dfy` | pruning composes, keeps validity, and cannot be observed |
| `reconciliation.dfy`, `syncing.dfy`, `network.dfy` | prune-point reconciliation and chain adoption |
| `pool.dfy`, `mining.dfy`, `supply.dfy`, `blocks.dfy` | mining from the pool, many miners, the supply cap, proof of work |
| `indexing.dfy`, `index_state.dfy` | the read index as a value: rebuild, merge, overlay |
| `index_contents.dfy` | what the index holds, said of the chain and the pool |
| `node.dfy` | the classes `Blockchain` and `BlockchainIndexes` |
| `read_write_lock.dfy` | the lock, over any interleaving of any number of threads |
| `voting.dfy`, `governance.dfy`, `lending.dfy` | proposals and loans, decided by weighted votes |
| `faucet_abuse.dfy` | the self-pruning faucet-abuse store |
| `witnesses.dfy` | inputs that show where a description of the node fails |

## Conventions

- Amounts are whole multiples of 1e-8 VLQ, the smallest unit the wallet offers; the 1e-9 and
  1e-12 tolerances of the source are then exact comparisons. Rewards before rounding are reals.
- Block digests, transaction digests and prune commitments are abstract functions, and nothing
  is assumed of them globally. Where an argument compares digests, its conclusion says "or here
  are two different blocks of these chains with one digest" (`Reconciliation.Collide`), or the
  same of two snapshots. That no hash is the genesis marker "0" is asked of the chains at hand.
  Difficulty is not part of the digest.
- A transaction carries the id it was supplied with, if any, and its digest otherwise, so equal
  ids need no collision. No result about the index or the node assumes anything of ids.
- Witnesses hold for every digest function under which proof of work can be done
  (`Witnesses.Minable`); `Witnesses.ExampleIsMinable` gives one, which excludes the collisions too.
- Clock readings, peers' answers, solving nonces and cleaned-up addresses are inputs. Where a
  lemma needs the clock not to run backwards it says so.
- Exceptions are outcomes: `Failed`, `Unpaid`, `None` and so on.

## Where the code differs from its description

- **The supply cap does not hold.** `finalize_mined_block` constructs both reward
  transactions before it tests the reward for being positive, and the constructor raises on an
  amount that is not positive. From a reward of 1e-7 VLQ down, or with an empty miner address,
  the block is appended, the call raises, and the old reward pair stays pending to be confirmed
  again, by every block from then on. `Supply.CapKeptExactlyWhenPaid` and, over runs,
  `Supply.SupplyCap` give the exact condition. `Witnesses.DefaultCapFailsExactly` mines a node as
  the source starts it: the maximum is first exceeded at height 532,604,736.
  `Witnesses.CapCanBeExceeded` takes 21,002 blocks at 1000 VLQ, the most governance may set (so a
  node on which that vote has already passed: a new node starts at 50 VLQ) and ends 1000 VLQ over;
  `Witnesses.CapAlwaysFails` shows that no reward schedule escapes.
- **What such an append leaves pending is confirmed again, or dropped.** The whole old pool stays,
  the transfers and loan issuances just confirmed included, and selection for the next block does
  not look at what is confirmed. The next block debits each sender a second time, or drops what the
  sender cannot pay twice: `Pool.MiningKeepsPoolExactly` and, over runs,
  `Pool.NothingAdmittedIsDropped` give the exact condition, `Witnesses.TransferConfirmedTwice` a run
  of a new node in which a transfer submitted once is in two successive blocks. Nobody is overdrawn
  even then (`Pool.NobodyIsOverdrawn`).
- **The incremental index is not always equal to a rebuild.** A rebuild drops a record whose id
  it has already seen in a bucket and restarts a block bucket whose index repeats; the merge does
  neither. `Indexing.MergeEqualsRebuildExactly` says exactly when the two agree, and
  `Witnesses.MergeCanDiffer` has a block that is admitted and after which they do not.
- **Pruning below ten blocks is observable**: the retarget window is gone
  (`Pruning.RetargetNeedsWindow`, `Witnesses.NineBlocksAreTooFew`). From ten on it is not.
- **A prune commitment protects history only until a chain is adopted**, because adoption drops
  the prune point: `Syncing.SecondSyncExactly`, `Witnesses.SecondSyncAdoptsRefused`.
- **Reconciliation also counts blocks after the pruned range that carry an old index**, since
  validation never looks at indices: `Reconciliation.ReconciliationExact` has the exact condition,
  `Witnesses.StrayIsRefused` a valid chain with the node's own history that is refused.
- **Two readings of SYSTEM's balance**: the scan subtracts what SYSTEM minted, the index does
  not. For every other address the two agree (`Node.Blockchain.GetBalance`).
- **An interrupted writer can strand readers**: its `finally` clause corrects the count but
  notifies nobody (`ReadWriteLocks.InterruptKeepsAwakeExactly`,
  `ReadWriteLocks.InterruptedWriterStrandsReader`). Without such interrupts no wakeup is lost.
- **The economics page runs ahead of the ledger**, which pays nothing for its first blocks:
  `Economics.LedgerStaysBelowPage`.
- A loan tied at or above the vote threshold stays open for voting.

## Model

| member | source | states |
|---|---|---|
| Balances.ApplyTxsAgree | blockchain/blockchain.py:1375-1405 | the ledger rule accepts or rejects alike on balances that agree outside SYSTEM_ADDRESSES, and where it accepts, the index rule gives agreeing balances |
| Balances.ApplyTxsNoOverdraft | blockchain/blockchain.py:1391-1398 | accepted transactions never overdraw an address outside SYSTEM_ADDRESSES |
| Balances.SettleTotal | blockchain/indexes.py:116-123 | the balances always sum to what they did before plus what SYSTEM minted |
| Balances.NonZeroTotal | blockchain/blockchain.py:1292-1295 | leaving zero balances out of a snapshot loses no money |
| Rewards.SplitExact | blockchain/blockchain.py:352-353 | the 95/5 split, each share rounded half-even at 1e-8, sums exactly to a whole reward, ties included |
| Rewards.SplitWithinCap | blockchain/blockchain.py:352-353 | the two shares of a reward within a whole cap never exceed the cap together |
| Rewards.SharesPositive | blockchain/blockchain.py:352-363 | both shares are positive exactly when the reward exceeds 1e-7 VLQ |
| Rewards.ScheduleNeverCapped | blockchain/blockchain.py:1015-1025 | over any number of blocks the default schedule stays within 21,000,000 VLQ, and the next scheduled reward still fits: the remaining-supply minimum never binds |
| Rewards.DefaultPayableUntil | blockchain/blockchain.py:1015-1025 | the default reward exceeds 1e-7 VLQ exactly until the 29th halving |
| Ledgers.AdmissionKeepsValidity | blockchain/blockchain.py:131-141 | a block that add_block admits extends a valid chain to a valid one, with spacing enforced or not, pruned or not |
| Ledgers.RevalidationImpliesAdmission | blockchain/blockchain.py:97-129 | a block with the next index and a miner that would leave the chain valid with spacing is admitted |
| Ledgers.RetargetBounds | blockchain/blockchain.py:451-491 | a difficulty of at least two stays so and moves by at most one, only at multiples of ten and with more than ten blocks at hand |
| Ledgers.RetargetDirection | blockchain/blockchain.py:466-491 | when a retarget is due, ten blocks in under 450 seconds raise the difficulty, in over 750 lower it unless it is two, and otherwise it stays |
| Admission.StartsWithZerosExactly | blockchain/block.py:69-71 | a hash passes a difficulty exactly when it has that many characters and its first ones are zeros |
| Admission.AuthorisedExactly | blockchain/transaction.py:76-98 | the three addresses of the node sign nothing, everyone else needs a key and a valid signature, except to pay the lending pool |
| Admission.PendingSpendIsSent | blockchain/blockchain.py:1444-1452 | the spendability test counts each pending amount of the sender once and nothing else |
| Admission.AppliedBalance | blockchain/blockchain.py:1375-1405 | an accepted list moves every ordinary address by what it receives less what it sends |
| Admission.AppliesExactly | blockchain/blockchain.py:1375-1405 | a list is accepted exactly when each transaction is authorised and, counting what came before it, its sender has the amount |
| Admission.AcceptedByExactly | blockchain/blockchain.py:97-131 | add_block lets a block in exactly when it has the next index, the tip's hash and a proof, comes the minimum after the tip and twice that after the same named miner, and its transactions are authorised and covered by the balances the node goes by |
| Admission.ValidExactly | blockchain/blockchain.py:162-239 | a chain is valid exactly when every block is proven and linked, spaced from its neighbour where that is asked and it has a miner, the first sits on the committed snapshot, and all transactions are authorised and covered |
| Admission.SubmittedExactly | blockchain/blockchain.py:256-276 | a submission is taken exactly when it is authorised and its sender would still have the amount after the pool, not counting what the pool brings in |
| Admission.SubmittedByExactly | blockchain/blockchain.py:1438-1452 | the same for whatever balances the node goes by, in terms of what the sender sends in the pool |
| Admission.ShownBalanceIsAfterPool | blockchain/blockchain.py:1068-1095 | the balance shown for an ordinary address is the one it has once the pool is mined |
| Admission.BuiltExactly | blockchain/blockchain.py:278-334 | a candidate is built exactly for a named ordinary miner on a valid chain late enough after the tip, with these fields and the difficulty in force |
| Admission.MinedBlockFields | blockchain/blockchain.py:374-380 | an appended block carries the difficulty in force when it was built, its zeros, its time and its miner |
| Admission.RewardPairFields | blockchain/blockchain.py:354-366 | two unsigned payments by SYSTEM, to the miner and to the treasury, of their kinds |
| Admission.FinalizedExactly | blockchain/blockchain.py:336-372 | stale exactly on another tip; appended if add_block lets it in; paid, to this block's miner and 95 to 5, exactly with a named miner and a reward above 1e-7 VLQ |
| Admission.PrunedExactly | blockchain/blockchain.py:1251-1316 | the last blocks stay, as many as asked for, and the snapshot holds the last dropped block's index and hash, what was issued, and every balance that is not zero |
| Pruning.PruneComposes | blockchain/blockchain.py:1251-1311 | pruning in two stages gives the same blocks, snapshot, issued total and commitment as pruning once |
| Pruning.PruneOfPruned | blockchain/blockchain.py:1251-1311 | pruning an already pruned node is pruning the full node to the final depth |
| Pruning.SeededBalancesAgree | blockchain/blockchain.py:1158-1165 | validation seeded from the snapshot computes the balances of the full chain for every address it checks |
| Pruning.PruningKeepsValidity | blockchain/blockchain.py:1251-1316 | a chain valid without spacing is valid after its first blocks have become a snapshot |
| Pruning.PruneKeepsValidity | blockchain/blockchain.py:1251-1316 | prune_chain keeps a valid chain valid for every number of blocks kept |
| Pruning.PruningKeepsIssued | blockchain/blockchain.py:1027-1057 | the issued total is the same before and after pruning |
| Pruning.PruningKeepsBalances | blockchain/blockchain.py:1068-1095 | every balance but SYSTEM's is the same before and after pruning |
| Pruning.SettleDeltas | blockchain/blockchain.py:1279-1290 | the index rule moves each address by receipts minus spending, and leaves SYSTEM what it minted |
| Pruning.AddBlockTwin | blockchain/blockchain.py:92-160 | a node pruned to at least ten blocks answers add_block as its unpruned twin and stays its twin |
| Pruning.FinalizeTwin | blockchain/blockchain.py:336-372 | the same for finalize_mined_block, rewards and retargeting included |
| Pruning.BuildTwin | blockchain/blockchain.py:278-334 | a pruned node builds the very candidate block its unpruned twin builds |
| Pruning.StepTwin | blockchain/blockchain.py:1251-1332 | one step of the bisimulation, further pruning included |
| Pruning.PruningUnobservable | blockchain/blockchain.py:1251-1332 | over whole runs of submissions, peer blocks, builds, finalizations and prunes that keep ten blocks, a pruned node and its unpruned twin give the same answers, height, tip, pool, difficulty, reward, issued total and balances |
| Pruning.RetargetNeedsWindow | blockchain/blockchain.py:451-491 | the twins' difficulties agree after an append exactly when ten blocks were kept, or no retarget is due at that height, or the last ten blocks took 450 to 750 seconds, or longer at difficulty two |
| Witnesses.NineBlocksAreTooFew | blockchain/blockchain.py:451-472 | nine mining steps from genesis, pruned to nine blocks, a node and its twin accept the same block and then differ in difficulty |
| Reconciliation.SameHashSameHistory | blockchain/block.py:46-57 | equal hashes on two rooted chains force equal positions and equal hashed fields all the way to genesis, or two different blocks share a digest |
| Reconciliation.ReconciliationExact | blockchain/blockchain.py:1210-1249 | barring a collision, the check passes a rooted chain exactly when it repeats the dropped history in every hashed field and its later blocks with old indices do not disturb the snapshot |
| Reconciliation.ReconciliationOfContiguous | blockchain/blockchain.py:1210-1249 | for contiguously indexed offers, barring a collision, the check is exactly "contains the dropped history" |
| Reconciliation.ExtensionMatches | blockchain/blockchain.py:1210-1249 | an offer that repeats the dropped blocks passes, collisions or not |
| Pool.SelectAll | blockchain/blockchain.py:1454-1477 | selection for mining drops nothing exactly when the pool can be applied in order |
| Pool.SelectAppend | blockchain/blockchain.py:1454-1477 | of one more transaction selection takes it exactly when it applies after everything taken so far, so one that does not apply never stops the rest |
| Pool.SubmitKeepsPool | blockchain/blockchain.py:1438-1452 | what the spendability test admits can be applied after the whole pool |
| Pool.PruneKeepsPool | blockchain/blockchain.py:1251-1332 | a pool that can be applied can be applied after pruning |
| Pool.RetainAll | blockchain/blockchain.py:1097-1128 | pruning the pool drops nothing exactly when nothing in it is confirmed or an unwanted reward and it can be applied in order |
| Pool.RetainAppend | blockchain/blockchain.py:1107-1125 | of one more transaction pool pruning keeps it exactly when it is neither confirmed nor an unwanted reward and applies after everything kept so far |
| Pool.ConfirmedExactly | blockchain/blockchain.py:1479-1488 | a transaction counts as confirmed exactly when a confirmed one has the same signature, sender, receiver, amount and time |
| Pool.PrunePendingSound | blockchain/blockchain.py:1097-1128 | afterwards the pool can be applied in order, whatever it held, and holds only old, unconfirmed transactions |
| Pool.RewardsReach | blockchain/blockchain.py:351-366 | the pair pays the miner 95% and the treasury 5%, each to within half a unit, out of SYSTEM |
| Pool.BuiltIsAdmitted | blockchain/blockchain.py:278-334 | a solved candidate on an unchanged tip is never refused |
| Pool.MineConfirmsPool | blockchain/blockchain.py:374-380 | a finished candidate on the same tip confirms the whole pool in order and leaves a valid chain, and a pool that can be applied exactly when the next reward could be paid or the old pool can be applied twice |
| Pool.MiningKeepsPoolExactly | blockchain/blockchain.py:348-366 | after an append the remaining pool can be applied exactly when the next reward could be paid, by schedule and remaining supply, or the old pool can be applied twice, however the clock ran |
| Pool.TwiceTheTransfer | blockchain/blockchain.py:1391-1398 | a pool of one transfer can be applied twice exactly when its sender has twice the amount |
| Pool.NothingAdmittedIsDropped | blockchain/blockchain.py:1454-1477 | over whole runs from a healthy node, every next candidate takes the entire pool exactly when every append is followed by a reward above 1e-7 VLQ for a named miner, or by a pool that can be applied twice |
| Pool.NobodyIsOverdrawn | blockchain/blockchain.py:1391-1398 | over all runs, no reward condition attached, the chain stays valid and no address outside SYSTEM_ADDRESSES goes negative |
| Pool.GenesisHealthy | blockchain/blockchain.py:51-87 | a new node starts in the state those runs need |
| Witnesses.TransferConfirmedTwice | blockchain/blockchain.py:348-366 | a new node mined until its last payable reward is pending; then a transfer submitted once is confirmed in the next two blocks |
| Mining.AppendedIffCurrent | blockchain/blockchain.py:336-349 | a finished candidate is appended exactly when the block it was built on is still the tip, and is otherwise stale, or else two blocks of the line share a digest |
| Mining.ActKeeps | blockchain/app.py:1123-1148 | every step of every miner and every peer's block keeps the chain one line and every candidate on the current tip admissible |
| Mining.NeverForks | blockchain/app.py:1123-1148 | over any interleaving of miners, submissions, peers' blocks and prunes, indices and back-links stay contiguous from genesis, and no tip is extended twice unless two blocks of the line share a digest |
| Supply.CapKeptExactlyWhenPaid | blockchain/blockchain.py:348-366 | an append keeps issued plus pending within the maximum exactly when the reward was payable or the old pool still fits a second time |
| Supply.PayableExactly | blockchain/blockchain.py:352-363 | the reward pair can be constructed exactly when there is a miner and the reward exceeds 1e-7 VLQ |
| Supply.SupplyCap | blockchain/blockchain.py:1015-1057 | over whole runs of this node's own mining, issued plus pending, and issued plus any candidate on the tip, stay within the maximum supply throughout exactly when every append has a named miner and a reward above 1e-7 VLQ, or leaves room for the old pool's mints a second time |
| Supply.ExhaustedSupplyOverflows | blockchain/blockchain.py:351-366 | once everything is issued or pending, two more mined blocks exceed the maximum |
| Witnesses.CapCanBeExceeded | blockchain/blockchain.py:351-366 | on a node with only its genesis, where the highest reward governance may set is already in force, 21,002 ordinary mining steps issue exactly one reward too much |
| Witnesses.DefaultCapFailsExactly | blockchain/blockchain.py:351-366 | a node as the source starts it, mined by one miner, has issued more than the maximum exactly from height 532,604,736 on, and there three units more |
| Witnesses.CapAlwaysFails | blockchain/blockchain.py:351-366 | from genesis at any payable reward, the default included, every mined block after the first mints something, so the maximum is exceeded in the end |
| Supply.DefaultRewardIsScheduled | blockchain/blockchain.py:1015-1025 | on the default schedule the reward is the scheduled one, and payable exactly until the 29th halving |
| Supply.DefaultSupply | blockchain/blockchain.py:1015-1057 | from genesis with the default reward, any run shorter than 29 halvings always pays and stays on schedule, so within 21,000,000 VLQ |
| Indexing.BucketsAgreeExactly | blockchain/indexes.py:560-565 | deduplicating and plain insertion fill the address buckets alike exactly when no record is met twice |
| Indexing.PrependGroups | blockchain/indexes.py:444-452 | grouping a block's records and prepending the groups once is inserting the records one by one |
| Indexing.CoreIds | blockchain/indexes.py:103-111 | the id map holds exactly the ids of the chain's transactions |
| Indexing.CoreMiners | blockchain/indexes.py:86-101 | the miner statistics count each miner's blocks |
| Indexing.MergeEqualsRebuildExactly | blockchain/indexes.py:356-456 | merging one block gives the rebuilt core exactly when no id of its transactions has been used before around one of their addresses and the latest earlier block with its index, if any, has no transactions |
| Witnesses.MergeCanDiffer | blockchain/indexes.py:365-367 | a block that add_block accepts on a valid chain and after which the merged core is not the rebuilt one |
| Indexing.RegularBuckets | blockchain/indexes.py:113-114 | on a chain that repeats nothing, an address's bucket holds exactly the records of the transactions that touch it |
| Indexing.MergeOnRegular | blockchain/indexes.py:356-456 | so on chains that repeat no index and no id around one address the merge equals the rebuild |
| IndexContents.BlockByHash | blockchain/indexes.py:78-83 | a hash leads to the last block that has it, shown with its own fields and all its transactions, and exactly the hashes of the chain lead anywhere |
| IndexContents.BlockByIndex | blockchain/indexes.py:78-84 | the same for an index, which also leads to the block's transactions |
| IndexContents.TransactionById | blockchain/indexes.py:103-111 | an id leads to the last transaction of the chain that bears it, with its block and position |
| IndexContents.UnusedIsAbsent | blockchain/indexes.py:103-111 | and an id leads nowhere exactly when no transaction bears it |
| IndexContents.MinersLastBlock | blockchain/indexes.py:86-101 | a miner's statistics show its last block's index, hash and time |
| IndexContents.TreasuryLedger | blockchain/indexes.py:125-126 | the treasury ledger holds the records of the transactions to and from the treasury |
| IndexContents.AllRecordsTell | blockchain/indexes.py:103-114 | there is one record for each transaction of each block, in order, telling of it |
| IndexContents.BucketsTell | blockchain/indexes.py:113-114 | on every chain, what is filed under an address is a record of the chain that touches it |
| IndexContents.IndexedBalances | blockchain/indexes.py:116-160 | both balance maps: remembered from pruning, plus received, less sent, SYSTEM not being charged |
| IndexContents.LatestWindowTells | blockchain/indexes.py:168-171 | the latest window shows the newest 500 blocks, newest first |
| IndexContents.SummaryTells | blockchain/indexes.py:172-186 | height, counts, issued total, difficulty, reward, last hash and time, and validity of the chain |
| IndexContents.FingerprintTells | blockchain/indexes.py:540-549 | the fingerprint is the pool's ids in order |
| IndexContents.DetailOfPending | blockchain/indexes.py:141-144 | where no confirmed transaction has an id, it leads to the first pending one with it |
| IndexStates.StripUndoesOverlay | blockchain/indexes.py:499-504 | taking the tracked pending ids out again restores the confirmed records exactly |
| IndexStates.MergeKeepsIndex | blockchain/indexes.py:356-481 | merging an appended block keeps a right index right: core, window, summary and tip |
| IndexStates.RefreshKeepsIndex | blockchain/indexes.py:483-537 | refreshing the overlay keeps a right index right and makes it show the given pool |
| IndexStates.CurrentIndexIsRebuild | blockchain/blockchain.py:505-528 | a right index whose fingerprint matches the pool is the index a rebuild would give, whatever the ids, because pools only grow between refreshes |
| IndexStates.IndexConservesSupply | blockchain/indexes.py:116-123 | the index's confirmed balances sum to the issued total |
| IndexStates.SnapshotConservesSupply | blockchain/blockchain.py:1279-1300 | so do the balances of every prune snapshot |
| IndexStates.PruneConservesSupply | blockchain/blockchain.py:1251-1311 | and pruning leaves a node whose snapshot balances sum to its snapshot's issued total |
| Node.BlockchainIndexes.Build | blockchain/indexes.py:57-213 | the rebuild's loops compute the index of the current chain and pool |
| Node.BlockchainIndexes.AddBlock | blockchain/indexes.py:356-481 | the in-place merge of an appended block, with the memo and the ledger left right |
| Node.BlockchainIndexes.RefreshPendingOverlay | blockchain/indexes.py:483-537 | the in-place refresh of the overlay |
| Node.BlockchainIndexes.TransactionsForAddress | blockchain/indexes.py:340-348 | on a right index of a chain that repeats nothing: exactly the pending records of the pool's and the confirmed records of the chain's transactions that touch the address |
| Node.BlockchainIndexes.BlockDetail | blockchain/indexes.py:329-335 | a term that reads as a used index finds its last block, any other the last block with that hash, or nothing |
| Node.BlockchainIndexes.TransactionDetail | blockchain/indexes.py:337-338 | the last confirmed transaction with the id, or else the first pending one, or nothing |
| Node.Blockchain.constructor | blockchain/blockchain.py:51-76 | a node holding only genesis, with nothing cached |
| Node.Blockchain.ApplyTransactions | blockchain/blockchain.py:1375-1405 | the balance loop is the ledger rule, transaction by transaction |
| Node.Blockchain.IsChainValid | blockchain/blockchain.py:162-239 | full validation: commitment, genesis, every link and all balances; a chain found valid has every block proven, linked, and, if asked, spaced from its neighbour |
| Node.Blockchain.ChainValidFast | blockchain/blockchain.py:241-254 | the memoised answer is always the one full validation without spacing would give |
| Node.Blockchain.ConfirmedNow | blockchain/blockchain.py:1407-1436 | the index's balances where there is an index for the tip and otherwise the scan's, agreeing for every address that is checked |
| Node.Blockchain.GetTotalIssued | blockchain/blockchain.py:1027-1057 | the issued total is the scan's, with or without an index |
| Node.Blockchain.GetCurrentMiningReward | blockchain/blockchain.py:1015-1025 | the reward is the scan's, with or without an index |
| Node.Blockchain.GetBalance | blockchain/blockchain.py:1068-1095 | with or without an index the balance is the scan's, except for SYSTEM, whose difference is given exactly |
| Node.Blockchain.RebuildIndexes | blockchain/blockchain.py:499-503 | afterwards the index is the rebuilt one |
| Node.Blockchain.GetIndexes | blockchain/blockchain.py:505-528 | whatever was cached, the caller gets what a rebuild would give |
| Node.Blockchain.AdjustDifficulty | blockchain/blockchain.py:451-491 | the retarget the scan computes from the last ten blocks' average time |
| Node.Blockchain.AddBlock | blockchain/blockchain.py:92-160 | the answer for the balances the node goes by, which is the scan's wherever the chain adds up, and the new ledger; a block let in continues the tip and is far enough from it; memo and index stay right |
| Node.Blockchain.AppendBlock | blockchain/blockchain.py:131-141 | carrying the memo over on an append keeps it truthful |
| Node.Blockchain.HasSpendableBalance | blockchain/blockchain.py:1438-1452 | confirmed balance minus pending spending covers the amount; system senders always pass |
| Node.Blockchain.AddPendingTransaction | blockchain/blockchain.py:256-276 | the same for a submission and the new pool |
| Node.Blockchain.SelectValidPending | blockchain/blockchain.py:1454-1477 | the greedy selection from the given balances |
| Node.Blockchain.PrunePendingTransactions | blockchain/blockchain.py:1097-1128 | the pool retained by the balances the node goes by, which is the scan's wherever the chain adds up; the index is dropped |
| Node.Blockchain.BuildCandidateBlock | blockchain/blockchain.py:278-334 | each refusal in order, or the candidate the scan would build |
| Node.Blockchain.FinalizeMinedBlock | blockchain/blockchain.py:336-372 | stale, refused, appended and paid, or appended and unpaid, by the balances the node goes by, and as the scan says wherever the chain adds up |
| Node.Blockchain.MinePendingTransactions | blockchain/blockchain.py:374-380 | build, proof of work and finalization in one; a pool that can be applied is confirmed whole |
| Node.Blockchain.PruneChain | blockchain/blockchain.py:1251-1332 | old blocks become a snapshot; memo reset, index rebuilt for what is left |
| Node.Blockchain.OfferedChainMatchesPrunePoint | blockchain/blockchain.py:1210-1249 | the reconciliation check, computed by its loops |
| Blocks.MutableBlock.ProofOfWork | blockchain/block.py:59-67 | ends at the first nonce from the present one on that solves, changing no other hashed field |
| Blocks.MutableBlock.CheckProof | blockchain/block.py:69-71 | the recorded hash is the digest and starts with enough zeros |
| Syncing.ChosenIsFirstHighest | blockchain/network.py:66-106 | the loop settles on the first of the highest acceptable offers above the node, or none |
| Syncing.ChosenOfferIsFirstHighest | blockchain/network.py:66-106 | the same, said of the offered chains themselves |
| Syncing.OfferExactly | blockchain/network.py:206-232 | an acceptable offer, in fields: rooted in "0", proven, linked, spaced, and every transaction authorised and covered |
| Syncing.EligibleExactly | blockchain/network.py:76-100 | eligible exactly when acceptable, agreeing with the prune point, and higher than the tip by its last index |
| Syncing.FilterKeepsExactly | blockchain/network.py:234-241 | the filter keeps exactly the spendable transactions that are not rewards |
| Syncing.AdoptedNode | blockchain/network.py:108-122 | adoption leaves a valid full node whose pool can be applied and holds nothing confirmed and no reward |
| Syncing.AdoptionKeepsPoolExactly | blockchain/network.py:108-122 | adoption keeps the whole pool exactly when it applies to the new balances, nothing in it is a reward or confirmed by the new chain, and each sender could pay its part and each transaction once more |
| Syncing.SyncIsSafe | blockchain/network.py:57-125 | never lowers the height, keeps the chain valid, leaves no acceptable offer above the node |
| Syncing.SecondSyncExactly | blockchain/network.py:89-114 | syncing again with the same offers adopts nothing exactly when no valid offer is higher than the adopted one |
| Witnesses.SecondSyncAdoptsRefused | blockchain/network.py:89-114 | a pruned node and two offers, the higher refused for its other history at the first sync and adopted at the second |
| Witnesses.StrayIsRefused | blockchain/blockchain.py:1210-1249 | a valid higher offer with the node's whole history that is refused for a later block with an old index |
| Syncing.RefusedByPrunePoint | blockchain/network.py:94-100 | and such an offer was refused by the prune point the first time |
| Syncing.GrownChainsAreAccepted | blockchain/network.py:206-232 | every chain add_block grows from an acceptable start passes a peer's full validation with spacing |
| Syncing.GrownChainsArePaced | blockchain/blockchain.py:97-120 | whatever is offered to add_block, neighbouring blocks keep consecutive indices and the minimum distance, twice it for the same named miner |
| Syncing.GenesisIsAccepted | blockchain/blockchain.py:78-87 | a fresh genesis chain is such a start |
| Syncing.LowerPeerCatchesUp | blockchain/network.py:57-125 | a full node shown a chain grown from genesis ends at least as high |
| Syncing.PrunedNodeAdoptsExactly | blockchain/network.py:89-100 | barring a collision, a pruned node accepts a contiguous offer exactly when it is valid, longer and contains the dropped history |
| Syncing.ExtensionIsEligible | blockchain/network.py:89-100 | every longer acceptable chain extending the node's own history is accepted, collisions or not |
| Networks.Network.IsValidChain | blockchain/network.py:206-232 | validation of an offer on its own terms, with spacing and without the local prune point |
| Networks.Network.BestOffer | blockchain/network.py:66-106 | over the peers' answers in order, the loop ends with the offer that choice describes |
| Networks.Network.SyncChain | blockchain/network.py:57-125 | adoption as a whole: new chain, no prune point, caches dropped, pool filtered, or nothing changed |
| Networks.Network.FilterPending | blockchain/network.py:234-241 | the spendability filter, which counts each transaction against itself |
| ReadWriteLocks.MutualExclusion | blockchain/app.py:101-135 | in every interleaving, spurious wakeups and interrupts included, a writer is alone |
| ReadWriteLocks.WriterPreference | blockchain/app.py:108-114 | no thread becomes a reader while a writer is queued or writing |
| ReadWriteLocks.ReaderEntersExactly | blockchain/app.py:108-114 | a reader that looks gets in exactly when nobody writes or queues to write, however many read |
| ReadWriteLocks.WriterEntersExactly | blockchain/app.py:122-130 | a writer that looks gets in exactly when nobody reads or writes |
| ReadWriteLocks.ReadersShare | blockchain/app.py:108-114 | for every number there is a run that ends with that many threads reading at once |
| ReadWriteLocks.OthersStay | blockchain/app.py:101-135 | a step moves the thread that takes it and no other |
| ReadWriteLocks.ReadersOnlyLeave | blockchain/app.py:110-111 | for as long as a writer is queued, the set of readers only shrinks |
| ReadWriteLocks.NoLostWakeup | blockchain/app.py:116-135 | if nobody holds the lock while threads wait, some waiter was notified and gets the lock when it wakes |
| ReadWriteLocks.InterruptKeepsAwakeExactly | blockchain/app.py:122-129 | the exact case in which interrupting a waiter loses a wakeup |
| ReadWriteLocks.InterruptedWriterStrandsReader | blockchain/app.py:122-129 | a six-step run in which it does |
| ReadWriteLocks.ReadWriteLock.LookForRead | blockchain/app.py:108-114 | acquire_read up to its return or next wait; it enters exactly when nobody writes or queues to write |
| ReadWriteLocks.ReadWriteLock.ReleaseRead | blockchain/app.py:116-120 | the last reader out notifies everyone |
| ReadWriteLocks.ReadWriteLock.AcquireWrite | blockchain/app.py:122-130 | acquire_write up to its return or first wait; it enters exactly when nobody reads or writes |
| ReadWriteLocks.ReadWriteLock.WakeWriter | blockchain/app.py:126-130 | acquire_write when wait returns; the same |
| ReadWriteLocks.ReadWriteLock.AbandonWrite | blockchain/app.py:128-129 | acquire_write when wait raises |
| ReadWriteLocks.ReadWriteLock.ReleaseWrite | blockchain/app.py:132-135 | the writer leaves and notifies everyone |
| Economics.SupplySchedule | blockchain/app.py:1471-1490 | one row for each epoch with its rounded reward and capped total so far, and exactly as many rows as it takes to come within half a coin of the maximum |
| Economics.RowNear | blockchain/app.py:1477-1488 | a row shows its epoch's first block, its reward to half a unit and the capped total to half of the fourth place |
| Economics.SumToClosed | blockchain/app.py:1477-1482 | the running total is twice the initial reward less the epoch's, times the interval |
| Economics.DefaultScheduleEnds | blockchain/app.py:1477-1490 | on the default figures the schedule has epochs 0 to 25 |
| Economics.LedgerStaysBelowPage | blockchain/app.py:1444-1490 | at every epoch's end the ledger's schedule has paid less than the rounded total the page shows |
| Governances.NormalizeIdempotent | blockchain/governance.py:449-479 | normalizing a value again at execution gives the value voted on |
| Governances.OutcomeExactly | blockchain/governance.py:177-199 | at the quorum a proposal passes exactly when the recorded yes votes reach the threshold's share, and fails exactly when they do not |
| Governances.QuorumDecides | blockchain/governance.py:171-199 | a vote is undecided exactly when its weight is below the quorum, whatever the threshold |
| Governances.MovesExactly | blockchain/governance.py:122-285 | what any event makes of any proposal: a counted ballot records its own side and weight and decides at the quorum, a deadline expires it, its proposer may cancel it before a vote, and nothing else touches it |
| Governances.FiledExactly | blockchain/governance.py:56-120 | a proposal is filed exactly when its texts fit, its category and value are allowed, and its proposer holds something and has fewer than three active; and as drafted, with its deadline |
| Governances.AllowedNumbers | blockchain/governance.py:449-479 | the ranges of the numeric settings, and that an interest above one is a percentage |
| Governances.AllowedWholes | blockchain/governance.py:449-479 | the ranges of the whole-number settings, cut off toward zero, and of texts |
| Governances.SettingsMoveExactly | blockchain/governance.py:208-258 | settings, rule changes and the chain's reward and difficulty change with the ballot that carries a proposal, to its value and for its category alone |
| Governances.VotesAreTheBallots | blockchain/governance.py:122-157 | over whole runs an address has an entry exactly when one ballot of its own counted, with that ballot's side and weight |
| Governances.DifficultyFollows | blockchain/governance.py:230-238 | over whole runs the chain works at the difficulty voted or retargeted last |
| Governances.ProposalsOnlyMoveOn | blockchain/governance.py:122-199 | closed proposals never change and recorded votes never change |
| Governances.ClosedForEver | blockchain/governance.py:260-285 | executed, rejected, expired and cancelled are absorbing over whole runs |
| Governances.DecidedAtQuorum | blockchain/governance.py:122-199 | over whole runs totals are the sums of one vote for each address, every active proposal is below a positive quorum (below any, once voted on), and none is left waiting for execution |
| Governances.VotedValuesAreInForce | blockchain/governance.py:208-258 | over whole runs each rule change carries the value of its own executed proposal, the newest change of each setting is in force, and a setting never voted on is as it was |
| Governances.Governance.CreateProposal | blockchain/governance.py:56-120 | each refusal in order, text lengths included, or a new active proposal without votes |
| Governances.Governance.VoteOnProposal | blockchain/governance.py:122-169 | each refusal in order, expiry at the deadline, or the vote with its side and weight and everything that follows from it |
| Governances.Governance.CheckProposalOutcome | blockchain/governance.py:171-199 | passes, is rejected, or stays open |
| Governances.Governance.ExecuteProposal | blockchain/governance.py:208-258 | setting, rule change and blockchain field are written together |
| Governances.Governance.CancelProposal | blockchain/governance.py:260-272 | only its proposer, only while active and without votes |
| Governances.Governance.ExpireProposals | blockchain/governance.py:274-285 | every active proposal past its deadline expires, and the answer says whether any did |
| Lending.RepaymentNear | blockchain/lending.py:85-85 | the repayment is within half a unit of 110% and never less than the loan |
| Lending.OverdueExactly | blockchain/lending.py:251-271 | a loan runs from its issuance's block and is overdue exactly more than 1000 blocks later |
| Lending.SyncedExactly | blockchain/lending.py:233-282 | what a sync makes of a loan: a confirmed issuance starts it, a confirmed repayment ends it, and past its due block it is overdue |
| Lending.ShownExactly | blockchain/blockchain.py:872-885 | what a sync is shown: each confirmed id with its last block's index, but without an index not those that are also pending |
| Lending.RequestedExactly | blockchain/lending.py:45-104 | a request is filed exactly when complete, for up to 10,000 VLQ, without another open loan; and as made out |
| Lending.BallotMovesExactly | blockchain/lending.py:106-197 | what a ballot makes of any loan: its own side and weight recorded, decided at the threshold, and on approval one issuance of the amount to the requester |
| Lending.PayBackMovesExactly | blockchain/lending.py:199-231 | a repayment of the full amount by the requester is made exactly when the loan runs or is overdue, has none yet, and the chain takes it |
| Lending.VotesAreTheBallots | blockchain/lending.py:106-160 | over whole runs an address has an entry exactly when a ballot of its own counted, with that ballot's side and weight |
| Lending.ClosedStaysClosed | blockchain/lending.py:106-282 | rejected and repaid loans are never touched again |
| Lending.ClosedForEver | blockchain/lending.py:106-282 | the same over whole runs |
| Lending.LoansAreSafe | blockchain/lending.py:45-282 | over whole runs: vote totals are sums of single votes, a loan still up for vote is short of the threshold or tied, issuance and repayment are each made at most once, those of a repaid loan, on its own terms, were in a chain the node held unless another transaction there bore their id, nobody has two open loans |
| Lending.LendingPool.CreateLoanRequest | blockchain/lending.py:45-104 | each refusal in order, or a new loan up for vote |
| Lending.LendingPool.VoteOnLoan | blockchain/lending.py:106-197 | the vote with its side and weight and its outcome; an approval puts one issuance into the node's pool |
| Lending.LendingPool.SyncLoanStatuses | blockchain/lending.py:233-282 | every loan started, settled or overdue by what the node reports as confirmed, with an index or without, and whether any changed |
| Lending.LendingPool.RepayLoan | blockchain/lending.py:199-231 | a repayment is in the node's pool exactly when the call succeeds |
| FaucetAbuse.PruningIsUnobservable | backend/faucetAbuse.js:60-82 | under a monotone clock the pruned store answers every request as a log that forgets nothing |
| FaucetAbuse.LimitsHoldInEveryWindow | backend/faucetAbuse.js:120-201 | when each record follows its allowed decision, no 24 hours see more than two wallets claim from one address, no hour more than three created |
| FaucetAbuse.ClaimRefusedExactly | backend/faucetAbuse.js:178-191 | a claim is refused exactly when two other wallets have claimed from the address within 24 hours |
| FaucetAbuse.CreationRefusedExactly | backend/faucetAbuse.js:120-143 | a creation is refused exactly when the address is blocked or had three within the hour; for speed it is blocked for 24 hours |
| FaucetAbuse.RetryIsEnough | backend/faucetAbuse.js:129-141 | the wait given is the least whole number of seconds that is long enough |
| FaucetAbuse.TooNewForAnHour | backend/faucetAbuse.js:162-166 | a recorded wallet is too new for exactly an hour, whatever pruning drops of others |
| FaucetAbuse.ClaimIsRecorded | backend/faucetAbuse.js:195-201 | a claim is added to its address's claims of the last 24 hours and counted for its wallet alone |
| FaucetAbuse.CreationIsRecorded | backend/faucetAbuse.js:147-153 | a creation is added to its address's creations of the last hour and to its wallet |
| FaucetAbuse.ForgetsExactly | backend/faucetAbuse.js:60-78 | pruning forgets exactly the entries whose window has passed |
| FaucetAbuse.SpeedingIsBlocked | backend/faucetAbuse.js:129-141 | over whole runs, after a refusal for speed every creation from the address is refused for 24 hours |
| FaucetAbuse.BlockHolds | backend/faucetAbuse.js:129-141 | a tripped block refuses every creation from its address until it ends |
| FaucetAbuse.FaucetAbuseStore.Prune | backend/faucetAbuse.js:60-78 | the four loops forget exactly what has left its window |
| FaucetAbuse.FaucetAbuseStore.WalletCreateDecision | backend/faucetAbuse.js:120-143 | the decision, and the block it may write |
| FaucetAbuse.FaucetAbuseStore.RecordWalletCreation | backend/faucetAbuse.js:147-153 | the creation recorded under wallet and address, the rest pruned |
| FaucetAbuse.FaucetAbuseStore.IsWalletTooNew | backend/faucetAbuse.js:162-166 | younger than an hour, unknown wallets pass |
| FaucetAbuse.FaucetAbuseStore.IpFaucetDecision | backend/faucetAbuse.js:178-191 | a known wallet passes, a new one only below the limit |
| FaucetAbuse.FaucetAbuseStore.RecordFaucetClaim | backend/faucetAbuse.js:195-201 | the claim recorded and counted, the rest pruned |

## Left out

- Governances.Governance.CreateProposal: texts are taken as already stripped and the category word as already looked up.
- Lending.LendingPool.CreateLoanRequest: texts are taken as already stripped.
- Lending.LendingPool.SyncLoanStatuses: of two confirmed transactions with one id the later in the chain counts, as with an index; without one the source takes the later timestamp.
- Floating point: amounts off the 1e-8 grid, sums of floats, and the voting ratios' last bits.
- The order inside address buckets and the treasury ledger, which are bags here; stored `confirmations` and `built_at`.
- `treasury` functions, mining history and the public records and pages: field copying, and not prune-seeded in the source.
- Governance changes of reward or difficulty inside the index model: the application rebuilds the index after each vote.
- Pending transactions across the split mining phases: finalization replaces the pool, so only atomic mining is shown to confirm all of it.
- The supply across peer blocks and chain adoption: nothing bounds what a peer's block mints, and a second reward pair can be left pending.
- Chain adoption as a step of the mining system: it replaces the line that the system speaks of.
- `prune_pending_transactions` in the bisimulation: it compares with retained blocks only, so a pruned node may keep what its twin drops.
- Execution interleaved inside a lock holder: each step of the mining model is atomic, which the lock's exclusion justifies.
- Signatures, key formats, JSON and SHA-256: abstract functions.
- Clean-up of addresses and texts; numbers inside governance texts; a general proposal's text.
- `apply_proposal`, which nothing calls, and records in older formats.
- Lending without a blockchain attached; the loans' timestamps and status history.
- The switch that turns the faucet limits off for end-to-end tests, address normalization, bans (they only cause another pruning write) and the admin views.
- Networking itself, peer registration and discovery, HTTP routes, storage, mail and user interfaces.
