# PupaCoin node: a Dafny model

A model of the parts of the PupaCoin full node that carry invariants over whole runs, with proofs
of what they promise. A pointer to a `CBlockIndex` is the block's hash, a database is a map with a
write batch, hashes are integers, and whatever comes from outside (scripts, signatures, clocks,
random numbers, the masternode list) is an arbitrary answer.

| module | models |
|---|---|
| `Transactions`, `TxIndex`, `Rules` | transactions, the transaction index, `FetchInputs`, `ConnectInputs`, `DisconnectInputs`, the index database; what it takes to connect |
| `Blocks`, `Supply`, `StrayStake` | `ConnectBlock`, `DisconnectBlock`, rewards, money supply |
| `Heights` | the height in the coinbase, and why ids do not repeat |
| `BlockTree`, `Links` | the block tree, forks, the links of the main chain |
| `Switching`, `Chain`, `SwitchLaws` | what a takeover does to index and supply; that it keeps them those of the best chain; what it takes, said of the blocks |
| `MainChain`, `ChainLaws`, `LeftBehind` | `Reorganize`, `SetBestChain`, `AddToBlockIndex`, `AcceptBlock`, `FindBlockByHeight`; when a block becomes best and how much money there can be; a run that leaves the links behind |
| `AddrTables`, `AddrMan`, `AddrLaws`, `AddrCheck`, `AddrFile`, `AddrLoad` | the address manager, what its rules achieve, its consistency test and its file |
| `Merkle`, `Locator` | Merkle trees and branches, block locators |
| `Miner`, `Turns`, `BlockAssembly`, `Assembled` | collecting transactions for a new block, and that the block connects |
| `StakeModifier`, `StakeLaws` | selection of the stake modifier |
| `Compact`, `Retarget`, `RetargetLaws` | big-number bytes, compact targets, the VRX retarget |
| `Base58` | Base58, Base58Check and `CBase58Data` |
| `Download`, `InstantX`, `InstantLaws` | per-peer block download, votes for transaction locks |
| `Ordering`, `Powers` | ascending walks over sets, powers of two |

State that the node updates in place is a class; its methods are specified by functions on values,
and the laws are lemmas about those functions. An invariant that every method of a class requires
and ensures holds over every run of these methods.

The main chain is proved in two layers. Whatever the blocks hold, every link is one of the best chain, and
a failed switch changes nothing (`ChainState.Valid`); links, index and supplies after a takeover are given
exactly (`Switching.LinksAfter`, `Switching.LedgerAfter`). On top, no link is missing and index and money
supply are those of the best chain (`ChainState.Tracks`): `AcceptBlock` keeps that wherever it held before and
no postponed block fails, as long as no two different transactions in the block files have the same id, since a
coinbase tells its height and so no block that connects repeats an id of its chain
(`Heights.HeightRuleKeepsIdsFresh`).

Ten expected laws do not hold of the code as it stands; each is stated with the exact condition
and an example:

- Disconnecting a block restores the index if and only if its transaction ids were not indexed before
  (`Blocks.DisconnectUndoesConnect`). It fails for `ConnectBlock` alone (`Heights.ReusedIdLosesRecord`);
  `AcceptBlock` excludes that case by the height rule.
- The links lead along the whole new best chain if and only if none was missing where it branches off and every
  postponed block connects (`Switching.LinksReachBest`, `LeftBehind.Run`).
- A block raises the supply by at most its reward if and only if coinstakes outside its second place
  gain no more than it leaves unclaimed (`Supply.GainBounded`, `StrayStake.ExceedsReward`).
- Base58Check gives back its input if and only if the bytes do not start with zero
  (`Base58.CheckRoundTrip`, `Base58.ZeroByteLost`).
- The retarget succeeds if and only if it is a dry run, or an earlier block of the type exists and the curve does
  not divide by zero, which it does under a condition between heights 7501 and 63000
  (`Retarget.SucceedsExactly`, `Retarget.NoStakeYet`, `Retarget.FailingChain`).
- A vote for a transaction lock that passes the tests is counted if and only if no vote with its hash is stored,
  not even one that failed them (`InstantX.CountedExactly`, `InstantX.FailedVoteKeepsOut`).
- A Merkle root determines its list among lists of equal length, or among those without repeats and with equally
  many levels, but not in general (`Merkle.RootForcesDistinctLeaves`, `Merkle.RepeatedLeafKeepsRoot`).
- An entry that is thrown out of a full tried bucket is the least recently successful of those drawn if and only if
  the draw that found it drew its own place (`AddrMan.EvictsOldestExactly`, `AddrMan.YoungerEvicted`).
- Of a request and the two votes that complete its lock, the second vote locks the inputs if and only if the request
  came before it (`InstantLaws.RequestThenVotes`, `InstantLaws.RequestBetweenVotes`, `InstantLaws.VotesThenRequest`).
- A clean-up releases an input of a live lock if and only if the request of some expired lock spends it too
  (`InstantLaws.LiveLockLosesInput`, `InstantLaws.LostInput`).

The skew of the retarget for the less frequent block type can never apply
(`Retarget.SkewNeverApplies`), although its comment describes it as active.

## Model

| member | source | states |
|---|---|---|
| Transactions.GetValueOut | src/main.h:331-341 | the sum of the outputs, an exception exactly if an output or a running total leaves the money range |
| Transactions.RangeMeans | src/main.h:331-341 | these tests pass exactly if every output and the total of all are in the money range |
| TxIndex.DisconnectTxUndoesConnectTx | src/main.cpp:1535-1568 | releasing undoes spending for a transaction that is not in the index and spends unspent outputs |
| TxIndex.TxDb.TxnCommit | src/txdb-leveldb.cpp:143-154 | the batch becomes the committed index, which reads no differently |
| TxIndex.TxDb.ReadTxIndex | src/txdb-leveldb.cpp:186-231 | reads see pending puts and deletes before the committed records |
| TxIndex.FetchInputs | src/main.cpp:1571-1640 | succeeds exactly if every previous output can be read through queued changes, index and files, and then holds exactly these records |
| TxIndex.GetValueMapIn | src/main.cpp:1642-1667 | the total of the previous outputs among the fetched transactions, an exception exactly if one is missing |
| TxIndex.FoundIs | src/main.cpp:1571-1667 | after a successful fetch none is missing, and the total is that of index and files |
| TxIndex.ConnectInputs | src/main.cpp:1669-1786 | succeeds exactly if the input tests pass, no output is spent before or twice in the transaction and the outputs are paid for; then exactly the inputs are marked spent |
| Rules.ConnectsExactly | src/main.cpp:1571-1786 | a transaction connects exactly if its outputs and their total are in range and, unless it is a coinbase, its inputs are different, exist, are unspent, mature, no younger, signed and in range, and, unless it is a coinstake, are worth no less than the outputs |
| Rules.SpendingCreatesNothing | src/main.cpp:1769-1782 | connecting a transaction that is neither coinbase nor coinstake never raises the value of the unspent outputs; what it takes away, its fee, is in the money range |
| TxIndex.DisconnectInputs | src/main.cpp:1535-1568 | succeeds exactly if every previous output is indexed; then these are unspent again and the transaction is gone |
| Blocks.ConnectBlock | src/main.cpp:1918-2029 | succeeds exactly if every transaction connects after those before it and the reward is within bounds; index, mint and supply are those of the fold over the transactions |
| Blocks.DisconnectBlock | src/main.cpp:1788-1810 | succeeds exactly if every transaction in reverse order can be released; the index is that of the reverse fold |
| Blocks.DisconnectUndoesConnect | src/main.cpp:1788-1810 | after a successful connect, disconnecting succeeds and restores the index exactly, if and only if no transaction id of the block was indexed before |
| Heights.ReusedIdLosesRecord | src/main.cpp:1535-1568 | a stored block that tells no height and repeats an indexed coinbase passes `ConnectBlock` on an index of the files, and disconnecting it loses the older record |
| Heights.OneHeight | src/script.h:545-557 | a script starts with at most one height |
| Heights.TellsExactly | src/script.h:545-557 | above sixteen a script tells a height exactly if it starts with its shortest little-endian bytes after their number |
| Heights.HeightRuleKeepsIdsFresh | src/main.cpp:2975-2979 | where every record of the index leads to a transaction whose inputs are spent or which tells a height so far, a block that tells the next height and connects repeats no id, and keeps the index so |
| Supply.SupplyMatchesUnspent | src/main.cpp:1976-2017 | connecting a block with fresh ids keeps the recorded supply equal to the total of unspent outputs |
| Supply.MintIsCoinbasePlusStake | src/main.cpp:2005-2017 | the mint is the coinbase output plus the net gain of the coinstakes |
| Supply.GainIs | src/blockparams.cpp:521-567 | a connected block raises the supply by the reward at zero fees, less what it leaves unclaimed, plus the gains of coinstakes outside its second place |
| Supply.GainBounded | src/main.cpp:1992-2012 | this is within the reward if and only if these gains are within what is unclaimed, and always without such coinstakes |
| StrayStake.StrayRaisesSupply | src/main.cpp:2545-2557 | a proof-of-work block with a coinstake in third place that claims its whole reward connects, and exceeds the reward exactly if the coinstake pays more than its input |
| StrayStake.ExceedsReward | src/main.cpp:1769-1782 | such a block, which also tells its height |
| BlockTree.FindFork | src/main.cpp:2147-2158 | the fork search ends at the highest common ancestor, and fails exactly if there is none |
| BlockTree.CollectBack | src/main.cpp:2167-2177 | the list of blocks is exactly the path down to the fork |
| BlockTree.BranchReversed | src/main.cpp:2173-2177 | the list of blocks to connect is the path up from the fork |
| BlockTree.PathSplits | src/main.cpp:2147-2177 | the path to a block is the path to the fork followed by that list |
| Links.MainChainIsPath | src/main.h:1082-1085 | with links along the best path, being in the main chain means being an ancestor or the best block itself |
| Switching.ReachedIs | src/main.cpp:2344-2360 | the chain is connected up to an ancestor-or-self of the new best block, up to the block itself if and only if no postponed block fails |
| Switching.LinksReach | src/main.cpp:2233-2243 | links of the best chain become links of the new one; none is missing up to the block that is reached if and only if none was missing where the new chain branches off |
| Switching.LinksReachBest | src/main.cpp:2344-2360 | none is missing up to the new best block if and only if, besides, no postponed block fails |
| LeftBehind.Run | src/main.cpp:2331-2360 | four blocks, all taken by `LoadBlockIndex` and `AcceptBlock`, after which the best block has an ancestor that is denied to be in the main chain |
| Chain.SwitchDescribes | src/main.cpp:2097-2257 | a successful switch takes the index and supplies of the old chain to those of the new one |
| Chain.TakeoverDescribes | src/main.cpp:2285-2363 | so does a takeover, up to the block it reaches |
| Chain.FreshOnPath | src/main.cpp:2975-2979 | a block of the tree that connects to the index of its predecessor repeats no id of its chain |
| SwitchLaws.IntermediateExactly | src/main.cpp:2316-2322 | the block handed to `Reorganize` is the first on the way up that has more trust than the best block |
| SwitchLaws.DepthExactly | src/main.cpp:2107-2122 | at most one block above the best one, or up to the threshold from a demi-node |
| SwitchLaws.ReorganizeExactly | src/main.cpp:2097-2257 | where index and supplies describe the best chain, `Reorganize` succeeds exactly if depth and outside tests pass, the branches have a common ancestor, every block only of the old one can be read, and every block only of the new one can be read, passes the velocity test and connects to the index of its own chain |
| SwitchLaws.TakesOverExactly | src/main.cpp:2285-2363 | a block takes over exactly if it connects to the best one, or `Reorganize` succeeds for the first block of its branch that has more trust |
| SwitchLaws.ReachedExactly | src/main.cpp:2331-2360 | after a takeover by reorganization the chain is connected up to the last block such that it and all before it can be read and connect to the index of their own chains |
| SwitchLaws.ReachedUnique | src/main.cpp:2331-2347 | there is only one such block |
| MainChain.ChainState.Reorganize | src/main.cpp:2097-2257 | for any blocks and any links: succeeds exactly if the guards pass, every block of the old branch can be read and disconnected and every block of the new one connects; then links, index and supplies are what these steps make of them; a failure leaves links and committed index as they were |
| MainChain.ChainState.SetBestChainInner | src/main.cpp:2261-2283 | a block on top of the best connects exactly if its transactions do; otherwise links, index and supplies are as before |
| MainChain.ChainState.ConnectLater | src/main.cpp:2331-2347 | postponed blocks connect in order up to the first that fails, each linked to the one before |
| MainChain.ChainState.SetBestChain | src/main.cpp:2285-2363 | succeeds exactly if the block takes over, with the links, index and supplies that the takeover gives; a failure leaves best block, links, cache and committed index unchanged |
| MainChain.ChainState.AddToBlockIndex | src/main.cpp:2448-2519 | the block becomes best if and only if it is new, has more trust and takes over; every link stays one of the best chain, and none is missing if and only if none was where the new chain branches off and no postponed block failed; otherwise links and index stay |
| MainChain.ChainState.AddGoodBlock | src/main.cpp:2448-2519 | for a stored block that tells its height, index and supply moreover describe the chain up to the block reached, if they described the best chain before |
| MainChain.ChainState.AcceptBlock | src/main.cpp:2883-2989 | refuses exactly known, unconnected or rule-breaking blocks and those that do not tell their height; otherwise the block is stored and becomes best if and only if it wins, every link stays one of the best chain, and links, index and supply stay those of one chain |
| ChainLaws.RefusedExactly | src/main.cpp:2883-2980 | what is refused: known, unconnected and rule-breaking blocks, and those whose coinbase does not tell the height above the predecessor's |
| ChainLaws.WinsExactly | src/main.cpp:2448-2519 | where index and supplies describe the best chain, a block becomes the best one exactly if it is new, its modifier can be computed, the trust of its predecessor and its own together exceed that of the best one, and it connects to that or can be reorganized to |
| ChainLaws.RewardExactly | src/blockparams.cpp:521-567 | 140,000 coins a block while the best chain holds less than 14 million, then 5 coins, whatever the kind of block |
| ChainLaws.MoneyIsCapped | src/blockparams.cpp:521-567 | a chain that grew block by block, without coinstakes outside the second place, never holds more than 14.14 million coins and five for every block |
| MainChain.ChainState.LoadGenesis | src/main.cpp:3390-3403 | unless its modifier cannot be computed, the genesis block is stored, alone in the tree and best, with an empty index; links, index and supply are those of its chain |
| MainChain.ChainState.WriteToDisk | src/main.h:811-835 | the block is stored behind everything stored before, which stays readable |
| MainChain.ChainState.FindBlockByHeight | src/main.cpp:1372-1388 | returns the block of the best chain at the height, or reads through a null pointer exactly if a link is missing between the starting record and that height |
| MainChain.FindsEveryHeight | src/main.cpp:1372-1388 | where no link is missing it finds every height of the chain, from any starting record |
| Links.WalkTo | src/main.cpp:1382-1385 | walking back and forward from any ancestor of the best block ends at the block of the height, unless a link is missing on the way up |
| AddrMan.AddrMan.constructor | src/addrman.h:392-400 | an empty manager meets the invariant |
| AddrMan.AddrMan.Find | src/addrman.cpp:80-91 | the entry of a network address, if there is one |
| AddrMan.AddrMan.SwapRandom | src/addrman.cpp:105-123 | two entries change places in the random order and in their records |
| AddrTables.SwapKeepsInv | src/addrman.cpp:105-123 | swapping keeps the invariant |
| AddrMan.AddrMan.SelectTried | src/addrman.cpp:125-147 | exactly the entry that the draws give: the one last drawn that was less recently successful than those before, at the place where it was first drawn; the bucket is permuted by the draws |
| AddrMan.AddrMan.ChooseVictim | src/addrman.cpp:154-188 | the terrible entry with the least id if there is one, else the least recently seen of at most four |
| AddrMan.AddrMan.ShrinkNew | src/addrman.cpp:149-201 | exactly the chosen entry loses its place, and goes altogether with its last reference |
| AddrTables.DropKeepsInv | src/addrman.cpp:161-169 | removing an entry from a bucket keeps the invariant, with or without deleting the entry |
| AddrMan.AddrMan.LeaveNew | src/addrman.cpp:207-215 | the entry leaves every new bucket and has no reference left |
| AddrMan.AddrMan.MakeTried | src/addrman.cpp:203-259 | the entry moves to its tried bucket; in a full bucket the selected entry goes back to its own new bucket or the origin |
| AddrMan.EvictKeepsInv | src/addrman.cpp:230-258 | the bucket the evicted entry goes back to has room, and the invariant is kept |
| AddrMan.EvictsOldestExactly | src/addrman.cpp:125-147 | the place selected holds the least recently successful of the entries inspected exactly if that one was drawn at its own place |
| AddrMan.YoungerEvicted | src/addrman.cpp:125-147 | a bucket and draws for which a more recent entry is selected |
| AddrMan.AddrMan.FindBucket | src/addrman.cpp:286-302 | a new bucket that holds the entry is always found |
| AddrMan.AddrMan.Good | src/addrman.cpp:261-308 | a known address becomes tried, an unknown one changes nothing; the invariant is kept |
| AddrMan.AddrMan.Add | src/addrman.cpp:310-368 | an accepted address that is unknown gets an entry in exactly the new bucket of its source; a known one moves its time and enters that bucket exactly if it is not there, untried, dated after its time, has less than four references and a number drawn below two to the power of these is zero; every other bucket stays, and that one changes only by the entry and by the entry thrown out to make room |
| AddrMan.AddrMan.Attempt | src/addrman.cpp:370-387 | counts an attempt of a known address and keeps the invariant |
| AddrMan.AddrMan.GetAddr | src/addrman.cpp:493-507 | the promised number of addresses of distinct entries; only positions change |
| AddrMan.AddrMan.Connected | src/addrman.cpp:509-527 | the time of a known address moves on after twenty minutes |
| AddrLaws.HashingOfOk | src/addrman.cpp:10-36 | the keyed hashes give buckets that exist |
| AddrLaws.TriedBucketsOfGroup | src/addrman.cpp:10-22 | the addresses of one network group share four tried buckets |
| AddrLaws.NewBucketsOfSource | src/addrman.cpp:24-36 | the sources of one network group share thirty-two new buckets |
| AddrLaws.AddStaysInSourceBuckets | src/addrman.cpp:310-368 | so what a message adds changes no bucket but those of its source's group |
| AddrLaws.KnownExactly | src/addrman.cpp:323-366 | what a message changes in a known entry: exactly when it gains a reference, and that all but time and services stays |
| AddrLaws.NewExactly | src/addrman.cpp:351-366 | what an entry made by a message holds, and its one bucket |
| AddrLaws.VictimExactly | src/addrman.cpp:149-201 | which entry makes room in a full new bucket |
| AddrLaws.KnownByAddress | src/addrman.cpp:80-91 | an entry is found for an address and port exactly if some entry has both |
| AddrLaws.TriedStays | src/addrman.cpp:261-284 | success of a tried entry changes its times and attempts alone |
| AddrLaws.GoesToTried | src/addrman.cpp:203-228 | an untried entry that answered leaves all new buckets for the end of its tried bucket, if that has room; all other entries and buckets stay |
| AddrLaws.ExchangesTried | src/addrman.cpp:230-258 | otherwise it takes the place of one other entry, which becomes a new one with one reference, in its own new bucket or, where that is full, in one that the entry has left; all else stays |
| AddrLaws.TerribleExactly | src/addrman.cpp:38-56 | which entries may be thrown out |
| AddrLaws.RefreshedExactly | src/addrman.cpp:325-334 | the time of a known entry moves only forward, by more than an hour or a day, to the time heard less the penalty |
| AddrLaws.SucceededMeans | src/addrman.cpp:261-283 | an entry that answered has no failures and is not thrown out for a week |
| AddrLaws.AnswerIsLargest | src/addrman.cpp:493-500 | the largest number that is at most 2500 and at most 23 percent of the entries |
| AddrCheck.Check | src/addrman.cpp:434-490 | passes exactly the states in which entries, totals, tried lists and reference counts agree |
| AddrCheck.InvariantIsCheckAndMore | src/addrman.cpp:434-490 | the invariant kept by every operation is what the test checks together with sizes, places, addresses and ids it does not |
| AddrFile.Write | src/addrman.h:289-327 | the file lists new entries, tried entries and bucket positions in ascending order of ids |
| AddrLoad.Read | src/addrman.h:328-388 | a file in which nothing overflows is read without loss |
| AddrLoad.RoundTrip | src/addrman.h:289-388 | a written state is read without loss; the result meets the invariant and is the same state up to ids, orders and the last try |
| AddrLoad.SaveAndLoad | src/addrman.h:280-389 | the same for writer and reader run one after the other |
| Merkle.MerkleBlock.BuildMerkleTree | src/main.h:760-777 | the array holds all levels of the tree, and the result is the root |
| Merkle.MerkleBlock.GetMerkleBranch | src/main.h:779-793 | the hashes beside the path of a leaf |
| Merkle.CheckMerkleBranch | src/main.h:795-808 | the hash reached by climbing along the branch, zero for index -1 |
| Merkle.BranchLeadsToRoot | src/main.h:779-808 | the branch of every leaf leads to the root |
| Merkle.BranchForcesLeaf | src/main.h:795-808 | with an injective hash, a branch of the right length that leads to the root is the branch of the leaf and starts at it |
| Merkle.RootForcesLeaves | src/main.h:760-777 | with an injective hash, equal roots of lists of equal length mean equal lists |
| Merkle.RepeatedLeafKeepsRoot | src/main.cpp:2857-2864 | repeating the last hash of an odd list keeps the root |
| Merkle.RootForcesDistinctLeaves | src/main.cpp:2857-2864 | with an injective hash, equal roots of lists without repeats and with equally many levels mean equal lists |
| Merkle.BranchLength | src/main.h:779-793 | a branch is as long as the logarithm of the number of leaves, rounded up |
| Locator.Entries | src/main.h:1317-1326 | entries at offsets 0 to 11, then doubling steps, down to the root |
| Locator.LocatorSize | src/main.h:1313-1328 | at most 12 + log2(height) entries |
| Locator.NearTheFork | src/main.h:1351-1365 | the entry found is a common ancestor no further below the fork than the fork is below the tip |
| Locator.Locate | src/main.h:1313-1365 | the same for the locator of a block and any main chain of the tree |
| Miner.Collect | src/miner.cpp:198-264 | for a pool in which every input is known: every eligible transaction is ready or an orphan, once, and listed under exactly the transactions it waits for |
| Miner.ParentsFirst | src/miner.cpp:314-337 | every input of an included transaction is on the chain or from one before it |
| Miner.NoDoubleSpend | src/miner.cpp:316-334 | no output is spent twice in the block |
| BlockAssembly.Release | src/miner.cpp:349-365 | an orphan enters the heap when the last parent it waits for has come in, for the first time |
| BlockAssembly.CollectTransactions | src/miner.cpp:266-366 | the loop ends; totals are those of the block and below the limits; each transaction enters the heap at most once, and exactly if all its parents in the pool came in; each is taken off in one turn, as the first of those that can be taken, and comes into the block exactly if it passes all tests on top of it |
| Turns.TakesBest | src/miner.cpp:83-103 | in the order by fee no transaction that could be taken off has a higher fee than the one taken, nor, at the same fee, a higher priority; in the order by priority the other way round |
| Turns.ReadyExactly | src/miner.cpp:198-264 | a transaction can be taken off exactly if it is final, neither coinbase nor coinstake, was not taken off yet, and each input is on the chain or from a transaction of the block so far |
| Turns.ByFeeExactly | src/miner.cpp:304-312 | the order is by fee exactly if nothing is kept for high priorities, or an earlier transaction reached that size or had a low priority |
| Turns.ComesInExactly | src/miner.cpp:286-346 | a transaction taken off comes in next exactly if size, signature operations, time, fee and connecting on top of the block pass, and otherwise not at all |
| Assembled.AssembledConnects | src/miner.cpp:266-370 | behind a new coinbase and stored, the collected transactions pass the loop of `ConnectBlock` with the fees that were added up; so the block connects exactly if it passes the context-free rules and its coinbase takes no more than the reward with these fees |
| StakeModifier.GetLastStakeModifier | src/kernel.cpp:26-37 | modifier and time of the nearest generating ancestor-or-self, an error exactly if there is none |
| StakeModifier.SelectBlockFromCandidates | src/kernel.cpp:58-97 | the least selection hash among the first unselected candidate and those within the limit; nothing only if none is left |
| StakeModifier.PicksDistinct | src/kernel.cpp:149-162 | the rounds select different blocks |
| StakeModifier.BitIsEntropy | src/kernel.cpp:157-158 | bit r of the modifier is the entropy bit of the block of round r, further bits are zero |
| StakeLaws.SelectionHashExactly | src/kernel.cpp:74-82 | the hash of a stake block is divided by 2^32 and rounded down, that of a work block is not |
| StakeLaws.StakeFavoured | src/kernel.cpp:79-82 | so a stake block precedes every work block whose hash is not 2^32 times smaller |
| StakeLaws.SectionExactly | src/kernel.cpp:39-44 | each section is the interval scaled by 63 in 189 less twice its number, rounded down |
| StakeLaws.SectionsGrow | src/kernel.cpp:39-44 | the sections grow from a third of the interval to the whole |
| StakeLaws.CandidatesExactly | src/kernel.cpp:134-141 | the candidates are the blocks back from the tip as long as none is dated before the start |
| StakeLaws.RoundTakesLeast | src/kernel.cpp:58-97 | each round selects, of the candidates not selected before that are first or dated within the sections so far, the one with the least selection hash |
| StakeLaws.BitsExactly | src/kernel.cpp:149-162 | bit r is set exactly if round r took place and its block has an entropy bit of one |
| StakeModifier.Rounds | src/kernel.cpp:146-162 | every round finds a block, the best of those left |
| StakeModifier.ComputeNextStakeModifier | src/kernel.cpp:112-191 | the old modifier until a new interval begins, then a new one over the sorted candidates; fails only without a generating ancestor |
| StakeModifier.AddNode | src/main.cpp:2483-2488 | a new block records what the computation gives; every block carries the modifier of its nearest generating ancestor-or-self, and computing it never fails |
| Compact.MpiRoundTrip | src/bignum.h:294-319 | numbers survive the byte format |
| Compact.MpiBytesRoundTrip | src/bignum.h:294-319 | bytes are recovered if and only if they are minimal |
| Compact.SetUint | src/bignum.h:250-276 | the bytes written are the byte format of the number |
| Compact.UintRoundTrip | src/bignum.h:250-291 | fixed-width numbers survive |
| Compact.CompactError | src/bignum.h:321-344 | decoding the compact form never exceeds the number, misses it by less than one part in 2^15, and is exact up to three bytes |
| Compact.CompactMonotone | src/bignum.h:333-344 | the compact form is monotone as an unsigned integer |
| Compact.CompactStable | src/bignum.h:321-344 | encoding the decoded value again changes nothing |
| Compact.CompactValueRoundTrip | src/bignum.h:321-344 | a compact value is recovered if and only if its bytes are minimal and unused bytes are zero |
| Compact.CompactStandsFor | src/bignum.h:321-331 | a compact value stands for its last 23 bits times 256 to the power of its first byte less three, with the sign of the bit between |
| Retarget.Vrx.BaseEngine | src/blockparams.cpp:188-259 | the average factor of the last five spacings |
| Retarget.SkewNeverApplies | src/blockparams.cpp:310-318 | the skew for the less selected type leaves the average as it is |
| Retarget.Vrx.ThreadCurve | src/blockparams.cpp:305-389 | ends for any timestamps, and gives the average of the curve that applies at the height |
| Retarget.LaterCurveSafe | src/blockparams.cpp:342-380 | above height 63000 at most five rounds run and the divisor is at least 6 |
| Retarget.EarlierCurveFails | src/blockparams.cpp:349-380 | below it the divisor becomes zero exactly if six rounds run and the average starts below 0.504 |
| Retarget.FailsExactly | src/blockparams.cpp:261-384 | past the dry run the retarget divides by zero exactly between heights 7501 and 63000, with an earlier block of the type, five late blocks, a last block of the type more than twenty minutes back and a difficulty of at least 1; it reads through a null pointer exactly if there is no earlier block of the type |
| Retarget.SucceedsExactly | src/blockparams.cpp:415-446 | so it returns bits exactly in a dry run, or with an earlier block of the type where the curve does not fail |
| Retarget.NoStakeYet | src/blockparams.cpp:324-328 | a chain of work blocks for which the retarget of the first stake block fails |
| Retarget.FailingChain | src/blockparams.cpp:349-380 | a chain with ten minutes between blocks for which it does, whatever the limit |
| Retarget.UnclampedBounds | src/blockparams.cpp:261-272 | without a curve round the target stays between half the old one less 10000 and twice the old one |
| Retarget.BitsWithinLimit | src/blockparams.cpp:415-446 | the bits returned decode to at most the limit |
| RetargetLaws.BoundedByNearest | src/blockparams.cpp:261-272 | past the dry run and without a curve round, the bits returned stand for at most twice the target of the nearest block of the type and at most the limit, and for no less than the smaller of the limit and half that target less 10000, up to one part in 32768 |
| RetargetLaws.NearestBitsDecide | src/blockparams.cpp:421 | changing the bits of any other block leaves the outcome as it is |
| RetargetLaws.SlowerIsEasier | src/blockparams.cpp:231-257 | longer spacings never give a smaller target |
| RetargetLaws.FactorExactly | src/blockparams.cpp:226-237 | the factor by spacing in seconds |
| RetargetLaws.CurveByHeight | src/blockparams.cpp:320-389 | which curve applies at a height, and over which time |
| RetargetLaws.LaterCurveExactly | src/blockparams.cpp:342-380 | above height 63000 the average is divided by the factorial of the rounds that begin plus one, and more than seventy minutes give the limit |
| RetargetLaws.EarlierCurveExactly | src/blockparams.cpp:328-380 | from height 7501 the same with rounds a minute apart, except that the sixth fails for an average below 0.504 |
| RetargetLaws.StandardCurveExactly | src/blockparams.cpp:381-386 | below that height the average is halved once for each hour past the fifteenth, at most four times |
| RetargetLaws.PastTheDryRun | src/blockparams.cpp:415-446 | past the dry run the outcome is that of the curve for the nearest block of the type |
| RetargetLaws.DryRunGivesLimit | src/blockparams.cpp:391-413 | up to height 129 and at best height 725 the limit is returned |
| Retarget.Vrx.VrxRetarget | src/blockparams.cpp:415-446 | the bits of the dry run, the reset or the limited target that follows from the nearest block of the type |
| Base58.BufferLargeEnough | src/base58.cpp:114 | numbers of m bytes fit into the buffer for m bytes |
| Base58.MulAdd | src/base58.cpp:117-123 | in place, the number in the buffer is multiplied by 256 and a byte is added, up to the carry |
| Base58.Convert | src/base58.cpp:113-126 | the buffer holds the number of the bytes; the carry left over is zero every time |
| Base58.EncodeBase58 | src/base58.cpp:106-138 | a '1' for every leading zero byte, then the number to base 58 |
| Base58.DecodeBase58 | src/base58.cpp:22-70 | the shortest bytes of the number, failing exactly if something other than spaces follows the symbols |
| Base58.DecodeEncode | src/base58.cpp:22-138 | decoding the encoded bytes gives them without their leading zeros |
| Base58.DecodeEncodeExact | src/base58.cpp:22-138 | and so exactly them if and only if they do not start with a zero byte |
| Base58.ZeroByteLost | src/base58.cpp:31-69 | a single zero byte is encoded and decoded to nothing |
| Base58.CheckRoundTrip | src/base58.cpp:148-172 | Base58Check gives back its input if and only if the bytes with checksum do not start with a zero byte |
| Base58.CBase58Data.SetString | src/base58.cpp:194-208 | succeeds exactly for a valid text that is long enough, and splits it; a failure clears the data |
| Base58.TextRoundTrip | src/chainparams.cpp:93-98 | data under every main-network prefix survives its text |
| Download.Downloads.AddBlockToQueue | src/main.cpp:274-288 | refused exactly for a hash already asked for or an unknown peer; otherwise at the end of the queue |
| Download.Downloads.MarkBlockAsReceived | src/main.cpp:252-271 | the hash leaves both maps and every list of every peer |
| Download.Downloads.MarkBlockAsInFlight | src/main.cpp:291-304 | the hash is in flight at this peer only; the limit of 128 is kept if and only if the peer has fewer without it |
| Download.Downloads.FinalizeNode | src/main.cpp:239-249 | the peer and exactly what was asked from it are forgotten |
| Download.Downloads.InitializeNode | src/main.cpp:233-237 | a new peer without blocks, a known one as it is |
| Download.Downloads.RequestBlocks | src/main.cpp:4922-4931 | the loop ends with an empty queue or 128 blocks in flight, having moved the front of the queue in order |
| Download.ListedOnce | src/main.cpp:233-304 | under the invariant each hash is listed at most once over all peers |
| Download.EraseOk | src/main.cpp:252-271 | erasing through the iterator of a map drops the hash from all lists and keeps map and lists in step |
| InstantX.RunKeepsInv | src/instantx.cpp:35-171 | after every run of requests, votes and clean-ups, votes have distinct hashes over all live locks and stay stored |
| InstantX.VotesWereChecked | src/instantx.cpp:302-352 | every vote of a live lock came in a message that passed the rank and signature tests |
| InstantX.CompleteLock | src/instantx.cpp:563-579 | a complete lock has as many different masternode outpoints as it counts signatures |
| InstantX.CountSignatures | src/instantx.cpp:563-579 | the votes at the lock's height, -1 for a lock without height |
| InstantX.LockTable.CreateNewLock | src/instantx.cpp:219-254 | a new lock or a new height for an existing one, nothing for inputs that are too new |
| InstantX.LockTable.ProcessRequest | src/instantx.cpp:41-127 | a lock request changes the maps as the run describes and keeps the invariant |
| InstantX.LockTable.ProcessVote | src/instantx.cpp:128-171 | a vote message does |
| InstantX.LockTable.ProcessConsensusVote | src/instantx.cpp:302-401 | a vote is counted exactly if rank and signature pass, and completes its lock exactly if that then has two signatures |
| InstantX.LockTable.CheckForConflictingLocks | src/instantx.cpp:403-424 | two conflicting locks expire at once |
| InstantX.CompletedLocksInputs | src/instantx.cpp:364-384 | a lock that completes without a conflict locks every input of its request for it, and changes nothing else |
| InstantX.ConflictExpiresBoth | src/instantx.cpp:403-424 | with a conflict exactly the lock and the first rival's, where live, expire now, and no input is locked |
| InstantX.RunKeepsRequests | src/instantx.cpp:35-171 | after every run requests lie under their own hash |
| InstantX.CountedExactly | src/instantx.cpp:128-171 | a vote joins its lock exactly if it passes the tests and no vote with its hash is stored; otherwise the locks stay |
| InstantLaws.TooFewVotes | src/instantx.cpp:336-362 | below two signatures a vote that counts joins its lock, and inputs, requests and expirations stay |
| InstantLaws.VotesLockInputs | src/instantx.cpp:362-372 | with two, and no input locked for another transaction, every input of the request is locked for it, and all else stays |
| InstantLaws.VotesMeetRival | src/instantx.cpp:403-424 | with two and a rival, exactly the lock and that of the first rival expire now, and no input, request or other lock changes |
| InstantLaws.VotesWithoutRequest | src/instantx.cpp:365 | with two and no stored request, an empty one is made up and no input is locked |
| InstantLaws.RunLocksInputs | src/instantx.cpp:128-171 | so after every run |
| InstantLaws.RequestThenVotes | src/instantx.cpp:219-254 | a request and then two votes of different hashes at its height lock its inputs at the second vote |
| InstantLaws.RequestBetweenVotes | src/instantx.cpp:219-254 | so they do if the request comes between the votes |
| InstantLaws.VotesThenRequest | src/instantx.cpp:219-254 | the same votes before the request give a lock with two signatures and lock nothing |
| InstantLaws.AcceptedRequest | src/instantx.cpp:67-92 | an accepted request is stored and opens the lock at the height of its first input plus four, if all are nine blocks old |
| InstantLaws.RejectedRequest | src/instantx.cpp:94-108 | a rejected one is kept apart, and its free inputs are locked for it |
| InstantLaws.RejectedLocks | src/instantx.cpp:110-122 | if its lock has two signatures, exactly that and the first rival's expire now |
| InstantLaws.LockedInputHasCause | src/instantx.cpp:41-171 | in every run an input is locked only for a transaction whose request spends it, one rejected, or one accepted for which two different masternodes voted at one height |
| InstantLaws.HashesClash | src/instantx.cpp:473-476 | two votes have one hash exactly if the sums of outpoint and transaction agree modulo 2^256 |
| InstantX.FailedVoteKeepsOut | src/instantx.cpp:138-142 | a vote that fails the tests keeps out a passing one of the same masternode for the same transaction |
| InstantX.LockTable.CleanTransactionLocksList | src/instantx.cpp:441-470 | expired locks go; their votes and inputs only with a request |
| InstantLaws.CleanedExactly | src/instantx.cpp:441-470 | exactly the expired locks go, and with each that was requested its request, the inputs of the request, whomever they are locked for, and its votes |
| InstantLaws.LiveLockLosesInput | src/instantx.cpp:441-470 | an input of a live lock is released exactly if the request of an expired lock spends it too |
| InstantLaws.LostInput | src/instantx.cpp:441-470 | a run in which a live lock with two signatures loses its input to the clean-up of an older request |

## Left out

- Scripts, signatures, `Velocity`, `RollingCheckpoints`, `bIndex_Factor`, maturity and coin age are arbitrary answers of `Checks` and `Guards`; failures of writing the best-chain hash are not modelled. The other rules of `AcceptBlock` are one answer.
- Sums of a block are unbounded integers: wrap-around of 64-bit amounts is not modelled. `nMint`, `nBestHeight` and `nBestChainTrust` are read off the block and the tree.
- `InvalidChainFound` and the memory pool's own upkeep after a switch.
- TxIndex.TxDb.TxnCommit: does not model a failed write, because the database is a map.
- TxIndex.FetchInputs: does not model the memory-pool mode and `fInvalid`, because blocks and the miner do not use them.
- TxIndex.ConnectInputs: does not model the mode without `fBlock` and `fMiner`, for the same reason.
- Blocks.ConnectBlock: does not model `fJustCheck`, the address index and the next-hash record on disk, because no other part of the model reads them.
- Blocks.DisconnectBlock: does not model the record written with an empty next hash, for the same reason.
- MainChain.ChainState.WriteToDisk: does not model file changes and failing system calls, because there is one file.
- Miner.Collect: does not model the branch for an input neither on the chain nor in the pool, because the source's pool excludes it and the branch leaves pointers to a removed orphan behind.
- BlockAssembly.CollectTransactions: does not model a pool that holds a transaction of the chain, because the pool removes these.
- AddrLoad.Read: does not say which entries a damaged file or one with another bucket number loses, because only written files are promised to come back.
- InstantX.LockTable.ProcessRequest: does not model the block reprocessing after a rejected complete lock.
- InstantX.LockTable.ProcessVote: does not model `mapUnknownVotes`, which only limits relaying.
- InstantX.LockTable.ProcessConsensusVote: does not model the wallet calls and the block reprocessing.
- `CAddrMan::Select_` and `GetChance`, which loop on floating-point chances; byte layout, version and key of the address file, and files that end early.
- The address manager keeps times as unbounded integers; 32-bit truncation of `nTime` is not modelled.
- The order of the miner's heap among transactions of equal rank: the model takes the first of these in its list. Priority and fee per size are given numbers; masternode and developer payments and the coinbase of the new block are left out.
- The stake modifier's reversal before the sort has no effect on the sorted candidates and is not modelled; `ComputeStakeModifierV2` and the kernel hash are left out.
- Retarget.Vrx.VrxRetarget: doubles are real numbers, so a product that rounding puts on the other side of an integer may differ by one in the divisor; `VRX_GetPrevDiff` enters as one comparison with 1.
- The shifting loops `setuint64`, `getuint64` and `setint64`, which give the same byte format as `setuint256`.
- The unreachable code after the return in `DecodeBase58`, and texts with embedded NUL characters.
- `Misbehaving`, stall detection and the other `getdata` loop of block download.
- Networking, wallet, RPC, keys, mixing, masternode payments and start-up.
