# Verified model of the node's chain core

This project models the chain core of the go-ethereum based node under `suave-geth/`: how the
canonical chain is chosen, rewritten, rewound, indexed and announced, how blocks are imported
and their states kept, and how a block's transactions pay for gas. It proves, for all inputs,
runs and reachable states, what the rest of the node relies on.

Everything that is fast or incremental in the code is specified against something naive. The
yardstick for the chain is `Ancestry.Walk`, which follows parent pointers one block at a time:
the number-to-hash table, section heads, the hash cache, rewinds and replays are all proved to
say what that walk says.

| file | subject |
|---|---|
| `Wrappers.dfy` | values that may be absent, computations that may fail |
| `Ancestry.dfy` | headers, the store, the parent walk, what an exact index is |
| `ForkIndex.dfy`, `Canonical.dfy` | finding the fork, rewriting the tables, setting the head |
| `LogStream.dfy` | removed and reborn logs |
| `Difficulty.dfy`, `ForkChoice.dfy`, `HeaderChain.dfy` | total difficulty, header batches, rewinding headers |
| `HashWalk.dfy` | cached block hashes, budgeted ancestor search |
| `Rewind.dfy` | rewinding headers and head block to a block with state |
| `Replay.dfy` | regenerating a historical state |
| `Import.dfy`, `TrieRetention.dfy` | block import, its recursion, and which states stay in memory |
| `Indexer.dfy` | the section indexer under a changing chain |
| `Feed.dfy` | one-to-many delivery |
| `Gas.dfy`, `Settlement.dfy`, `Processor.dfy` | gas, fees, transactions of a block |
| `Derivation.dfy` | wallet derivation paths |

Objects the code updates in place are classes whose methods are proved against specification
functions; protocols (indexer, feed) are state machines over their atomic steps. Hashes are
natural numbers and identify their content; zero is the zero hash.

Where properties one might expect turn out false of the code, the exact condition is proved:

* Setting a head that already is canonical sends that block's logs a second time
  (`Canonical.StreamExact`, `Canonical.HeadLogsRepeat`).
* Past the terminal total difficulty fork choice may lower the total difficulty
  (`HeaderChain.ChoiceKeepsCapped`, `HeaderChain.ChoiceCanLower`).
* The access-list part of the intrinsic gas is added without an overflow guard
  (`Gas.IntrinsicGas`, `Gas.AccessListWraps`).
* Recovering a gap longer than the retention window forgets the oldest recovered states again
  (`Import.Importer.RecoverAncestors`, `Import.LongGapForgets`).
* The budgeted ancestor search answers for the zero hash when the table ends below the number
  asked about (`HashWalk.GetAncestor`, `HashWalk.ZeroHashAnswered`).

Where comments and code disagree the model follows the code: the comment at
`suave-geth/core/blockchain.go:1883-1887` expects orphan errors for the blocks behind a pruned
one, while the loop goes on for pruned ones; `suave-geth/core/blockchain.go:2000-2003` promises
recovered states without mentioning the retention window;
`suave-geth/core/blockchain.go:1598-1614` means to adopt preferred known blocks without executing
them, but the decision before it has cleared the error the loop tests, so they are executed again.

## Model

| member | source | states |
|---|---|---|
| `ForkIndex.Lower` | suave-geth/core/blockchain.go:2081-2098 | bringing the longer chain down to a height collects exactly the blocks of the parent walk, top first, and their transactions; `None` exactly when the walk breaks |
| `ForkIndex.Lockstep` | suave-geth/core/blockchain.go:2105-2129 | from equal heights the paired walk succeeds if and only if the chains meet, and then stops at their highest common ancestor: the two collected segments share no block |
| `ForkIndex.FindFork` | suave-geth/core/blockchain.go:2069-2129 | for any two heads, of any relative height, the fork is found iff a common ancestor exists; both segments are parent walks from the heads to that ancestor and are disjoint |
| `ForkIndex.RootedMeet` | suave-geth/core/blockchain.go:2105-2129 | in an ancestor-closed store with one genesis two heads always meet, so the search cannot fail |
| `ForkIndex.ReorgIndex` | suave-geth/core/blockchain.go:2154-2189 | writing the new segment without its head and deleting what lies above turns the number-to-hash table of the old head into exactly the ancestor path of the new head's parent (or of the ancestor when the new chain is shorter) |
| `ForkIndex.ReorgLookup` | suave-geth/core/blockchain.go:2154-2173 | the lookup table after a reorganisation holds a transaction iff it is on the new path, at its height there, including transactions dropped and re-included, as long as no path of the store has a transaction twice |
| `ForkIndex.WriteHeadIndex` | suave-geth/core/blockchain.go:888-909 | writing a head on top of its parent's path, or over itself, gives the path of the head |
| `ForkIndex.WriteHeadLookup` | suave-geth/core/blockchain.go:888-909 | the same for the transaction lookup table |
| `Canonical.WriteTxLookupEntries` | suave-geth/core/blockchain.go:894 | the loop maps every transaction of the block to its number and leaves the rest |
| `Canonical.ForkToAncestor` | suave-geth/core/blockchain.go:2105-2129 | the new segment is empty exactly when the new head already was an ancestor of the old one |
| `Canonical.BlockChain.WriteHeadBlock` | suave-geth/core/blockchain.go:888-909 | the new tables and all head markers |
| `Canonical.BlockChain.WriteChain` | suave-geth/core/blockchain.go:2154-2164 | the loop overlays the segment, except its head, on both tables and collects its transactions |
| `Canonical.BlockChain.PruneIndexes` | suave-geth/core/blockchain.go:2166-2189 | deletes the lookups of dropped transactions that were not re-added, and every consecutive table entry above the new head |
| `Canonical.BlockChain.Rewire` | suave-geth/core/blockchain.go:2154-2189 | both tables are exactly those of the path below the new head |
| `Canonical.BlockChain.Publish` | suave-geth/core/blockchain.go:2191-2227 | announces the logs of the old segment as removed and of the new one, without its head, as reborn |
| `Canonical.BlockChain.Reorg` | suave-geth/core/blockchain.go:2069-2229 | succeeds iff the chains meet, changes nothing on failure, and otherwise leaves tables and announcements as above |
| `Canonical.BlockChain.WriteKnownBlock` | suave-geth/core/blockchain.go:1322-1331 | afterwards the index is exactly the path of the block, with nothing above it, whatever the head was before |
| `Canonical.BlockChain.Adopt` | suave-geth/core/blockchain.go:2262-2276 | re-heads to any stored block, an ancestor or the head itself included; tables are exact and the log stream is the one described |
| `Canonical.BlockChain.SetCanonical` | suave-geth/core/blockchain.go:2249-2290 | for every outcome of re-executing ancestors: on failure nothing but receipts has changed; otherwise the invariant holds for the new head and the log stream is the one described |
| `Canonical.BlockChain.Reexecute` | suave-geth/core/blockchain.go:2255-2261 | storing a stored block a second time changes no header and no total difficulty, only its receipts |
| `Canonical.BlockChain.StoreBlock` | suave-geth/core/blockchain.go:1335-1354 | a block goes in with its receipts and its parent's total difficulty plus its own; the invariant is kept |
| `Difficulty.AddHeader` | suave-geth/core/blockchain.go:1336-1350 | a block stored with its parent's total difficulty plus its own keeps every total difficulty the sum over the ancestors |
| `Canonical.BlockChain.WriteBlockAndSetHead` | suave-geth/core/blockchain.go:1429-1472 | refused with nothing changed iff the parent is unknown; otherwise the block is stored. Once its state is committed the block becomes head iff it is at or past the terminal total difficulty, or heavier than the head, or as heavy and lower, or as heavy and as high with the preference or the coin for it; tables stay exact |
| `Canonical.BlockChain.Run` | suave-geth/core/blockchain.go:1322-1472 | any sequence of these operations keeps: index == ancestor path of the head, lookup == transactions of that path while no path has one twice, every total difficulty == the sum over the ancestors, one head marker |
| `LogStream.CollectLogs` | suave-geth/core/blockchain.go:2047-2062 | all logs of a block in receipt order, payloads unchanged, marked removed iff asked to or already |
| `LogStream.Announce` | suave-geth/core/blockchain.go:2191-2227 | the batches concatenate to the logs of the segment from its oldest block up, none empty, all but the last above 512 logs, and all marked when removed |
| `LogStream.PathLogsSplit` | suave-geth/core/blockchain.go:2191-2227 | the logs of a path are those of the path to the fork followed by those of the segment |
| `LogStream.ReorgReconciles` | suave-geth/core/blockchain.go:2191-2227 | a subscriber holding the logs of the old path, who drops the removed and appends the new ones, holds the logs of the new path, plus the head's own logs once more when the head was already canonical |
| `Canonical.StreamedBy` | suave-geth/core/blockchain.go:2249-2290 | the batches appended by one head change are exactly such a stream |
| `Canonical.StreamExact` | suave-geth/core/blockchain.go:2249-2290 | the stream reconciles to exactly the new path iff the new head was not already canonical or has no logs |
| `Canonical.HeadLogsRepeat` | suave-geth/core/blockchain.go:2249-2290 | a chain whose head has a log and is set canonical again: the stream does not reconcile to the path |
| `HeaderChain.ChoiceKeepsCapped` | suave-geth/core/forkchoice.go:77-113 | when fork choice switches, the total difficulty counted up to the terminal one does not fall; it switches to a lower one iff the new one is at or past the terminal one and lower |
| `ForkChoice.ChoiceIs` | suave-geth/core/forkchoice.go:77-113 | every case of the rule: always at or past the terminal difficulty, below it the heavier, then the lower, then the preferred one or the coin |
| `HeaderChain.ChoiceCanLower` | suave-geth/core/forkchoice.go:85-90 | total difficulties for which it does |
| `HeaderChain.CrossLink` | suave-geth/core/headerchain.go:157-175 | the backward walk records the parent path down to the first header the table already agrees with, or down to genesis; it fails only on a broken walk |
| `HeaderChain.ExtendWrites` | suave-geth/core/headerchain.go:177-188 | the forward part of the batch |
| `HeaderChain.SwitchBatch` | suave-geth/core/headerchain.go:134-198 | deleting above, then writing the walk and the batch over the old table gives exactly the path of the new head |
| `HeaderChain.ExtendBatch` | suave-geth/core/headerchain.go:134-198 | when the batch continues the head no walk is needed and the table is the new path too |
| `HeaderChain.Chain.Reorg` | suave-geth/core/headerchain.go:134-198 | nothing changes on failure; on a valid chain it cannot fail and the table is the path of the last header |
| `HeaderChain.CollectHeaders` | suave-geth/core/headerchain.go:212-245 | total difficulties of the whole table stay exact sums; the count is the number of headers that were not there |
| `HeaderChain.SkippedIsKnown` | suave-geth/core/headerchain.go:218-245 | the parent-known short cut skips a header exactly when it is known |
| `HeaderChain.Chain.WriteHeaders` | suave-geth/core/headerchain.go:204-256 | unknown ancestor iff the first parent is missing, aborted iff interrupted otherwise; an error changes nothing; success adds exactly the batch and counts the new headers |
| `HeaderChain.Chain.WriteHeadersAndSetHead` | suave-geth/core/headerchain.go:265-301 | refused iff the first parent is unknown or it is interrupted; the last header becomes head iff the fork rule, spelled out, prefers it and it is not canonical already; the total difficulty counted up to the terminal one never falls, and uncapped it falls iff the last header is at or past the terminal one, below the head and not canonical yet |
| `HeaderChain.Chain.InsertAll` | suave-geth/core/headerchain.go:265-301 | the same over any run of batches |
| `HeaderChain.LevelsAbove` | suave-geth/core/headerchain.go:624-651 | the upward sweep that stops at the first empty height still finds every header above the target |
| `HeaderChain.NothingAbove` | suave-geth/core/headerchain.go:628-630 | in an ancestor-closed store nothing lies above an empty height |
| `HeaderChain.StepBack` | suave-geth/core/headerchain.go:565-661 | the rewind goes down parents to the highest ancestor that satisfies the number or time target and gathers every row above it |
| `HeaderChain.BelowTables` | suave-geth/core/headerchain.go:565-661 | cutting all tables at an ancestor leaves a closed store, exact total difficulties and the ancestor's path |
| `HeaderChain.Chain.SetHead` | suave-geth/core/headerchain.go:565-661 | after a rewind exactly the rows at or below the new head remain, side chains included; by number it ends at the smaller of the requested one and every one a callback forced, by time at the highest header that is old enough |
| `HeaderChain.Chain.Run` | suave-geth/core/headerchain.go:134-301 | any mix of batches and rewinds keeps index, difficulties and head consistent |
| `HeaderChain.Chain.constructor` | suave-geth/core/headerchain.go:79-108 | the chain of the genesis is consistent |
| `HashWalk.HashFn.Get` | suave-geth/core/evm.go:81-117 | a cached answer is what a fresh parent walk gives, the zero hash when the walk breaks, and in a closed store the hash of the ancestor; the cache only grows and stays a prefix of the walk |
| `HashWalk.HashFn.Queries` | suave-geth/core/evm.go:81-117 | the same for any sequence of queries in any order |
| `HashWalk.CachedGrows` | suave-geth/core/evm.go:92-116 | the cache stays right while headers are added |
| `HashWalk.HashUpIsWalk` | suave-geth/core/evm.go:103-115 | in a closed store the hash walk names the ancestors |
| `HashWalk.FreshIsAncestor` | suave-geth/core/evm.go:86-115 | what a fresh walk answers is the ancestor at that height |
| `HashWalk.CanonicalShortcut` | suave-geth/core/headerchain.go:397-404 | from a canonical hash the table gives what the walk gives |
| `HashWalk.GetAncestor` | suave-geth/core/headerchain.go:386-418 | a non-empty answer is the naive Nth ancestor; an empty one means there is none or the budget ran out; one unit is spent per non-canonical step; the zero hash is answered exactly when the table ends between the two heights, with the canonical hash |
| `HashWalk.ZeroHashAnswered` | suave-geth/core/headerchain.go:397-404 | a chain of the genesis, where the zero hash gets it as its second ancestor |
| `Rewind.FindStateful` | suave-geth/core/blockchain.go:642-681 | the loop lands on the declared block: at or below the root if one is given, with state or at genesis, and at genesis once a stateless block at or below the pivot is met; the root number is the highest height with the root among those walked |
| `Rewind.LandingUnique` | suave-geth/core/blockchain.go:642-681 | there is only one such block |
| `Rewind.LandingHasState` | suave-geth/core/blockchain.go:642-681 | it has state unless it is genesis |
| `Rewind.HeadBlock.UpdateHead` | suave-geth/core/blockchain.go:627-691 | the head moves only down, to that block, and has state afterwards; a missing block resets to genesis; the root number is the highest one met, or the earlier one |
| `Rewind.Rewinder.Degrade` | suave-geth/core/headerchain.go:590-622 | running the callback on every header stepped on lands the head block where the last one that had to move it says, with its root number; or none had to |
| `Rewind.Rewinder.SetHeadBeyondRoot` | suave-geth/core/blockchain.go:613-758 | the header rewind with this callback: afterwards the head block is on the path of the head header, where the last callback landed with respect to root and pivot, with state; the root number is the one that callback found; all tables are cut at the head header, the highest one that meets the target. A repair runs the callback on the head block alone |
| `Replay.SearchBack` | suave-geth/eth/state_accessor.go:113-139 | the backward search stops at the nearest ancestor with state within the allowance, or there is none, and then says whether genesis was passed |
| `Replay.ReplayForward` | suave-geth/eth/state_accessor.go:148-183 | re-execution by canonical number gives the state of executing the chain from genesis, or fails exactly when that execution does |
| `Replay.StateAtBlock` | suave-geth/eth/state_accessor.go:60-183 | a returned state is the one of executing genesis to the block; if that execution works, success iff a state lies within reach |
| `Replay.StateOfPath` | suave-geth/eth/state_accessor.go:148-183 | executing to a block is executing to its parent and then the block |
| `Replay.StateOfFails` | suave-geth/eth/state_accessor.go:162-165 | a failing ancestor makes every descendant fail |
| `Indexer.NotifiedKeeps` | suave-geth/core/chain_indexer.go:243-300 | a head event or reorganisation keeps section links and never raises the stored count |
| `Indexer.NotifiedIs` | suave-geth/core/chain_indexer.go:243-300 | in terms of blocks: a reorganisation keeps exactly the stored sections that end at or below the new head, and those of the checkpoint; a plain head makes known exactly the sections whose last block has the confirmations, unless the checkpoint does not match |
| `Indexer.VerifyRoundKeeps` | suave-geth/core/chain_indexer.go:422-429 | dropping the last section keeps the links |
| `Indexer.ReadExtends` | suave-geth/core/chain_indexer.go:398-412 | reading one more header keeps the chain from the previous section head |
| `Indexer.NextKeeps` | suave-geth/core/chain_indexer.go:304-382 | every step of the update loop, of events and of concurrent queries keeps the invariant: stored section heads are linked block to block, and the section in flight continues the one it was started on |
| `Indexer.RunKeeps` | suave-geth/core/chain_indexer.go:304-382 | so does every run |
| `Indexer.CheckpointStarts` | suave-geth/core/chain_indexer.go:130-143 | adding a checkpoint starts a state with that invariant |
| `Indexer.LinksAreCanonical` | suave-geth/core/chain_indexer.go:422-429 | if the last section head is canonical, so are all earlier ones |
| `Indexer.VerifiedSectionsAreCanonical` | suave-geth/core/chain_indexer.go:422-440 | after a verification finds nothing to drop, in any run, every stored section head is the canonical hash of its last block |
| `Indexer.UndisturbedUpdate` | suave-geth/core/chain_indexer.go:317-358 | in any run, an update that starts on a verified index and is neither disturbed nor failing stores one more section, under the canonical hash of its last block |
| `Indexer.VerifyAllEnds` | suave-geth/core/chain_indexer.go:422-429 | the verification loop ends, at a point where nothing is left to drop |
| `Indexer.ChainIndexer.SetValidSections` | suave-geth/core/chain_indexer.go:479-491 | heads above the new count are removed, others kept |
| `Indexer.ChainIndexer.VerifyLastHead` | suave-geth/core/chain_indexer.go:422-429 | exactly the sections found stale when the loop came to them are dropped, down to a canonical one or the checkpoint |
| `Indexer.ChainIndexer.NewHead` | suave-geth/core/chain_indexer.go:243-300 | after a reorganisation no head of a section that ends above it is left beyond the checkpoint, lower ones are kept, the count is the smaller of the old one and what ends below; after a plain head the known count is what is confirmed, and does not fall |
| `Indexer.ChainIndexer.ProcessSection` | suave-geth/core/chain_indexer.go:388-417 | a returned section head is linked to the previous one header by header; failures return nothing; on a chain that does not change it returns the canonical hash of the last block |
| `Feed.Find` | suave-geth/event/feed.go:213-220 | the first case with the channel, or -1 iff there is none |
| `Feed.CaseList.FindCase` | suave-geth/event/feed.go:213-220 | the loop computes it |
| `Feed.CaseList.Delete` | suave-geth/event/feed.go:223-225 | removal in place |
| `Feed.CaseList.DeactivateCase` | suave-geth/event/feed.go:228-232 | swap with the last active case, in place |
| `Feed.CaseList.constructor` | suave-geth/event/feed.go:60-66 | the list holds the given cases |
| `Feed.FindNeverMisses` | suave-geth/event/feed.go:169-177 | a removal that arrives during a send always finds its case, never the removal case itself |
| `Feed.PendingFits` | suave-geth/event/feed.go:103-124 | an unsubscriber not in the inbox has its case in the list, so waiting for the sender is safe |
| `Feed.NextKeeps` | suave-geth/event/feed.go:72-190 | every step of Subscribe, remove and Send keeps the invariant: live and leaving subscriptions plus the removal case are exactly the cases and the inbox |
| `Feed.RunKeeps` | suave-geth/event/feed.go:72-190 | so does every run |
| `Feed.SendIsExact` | suave-geth/event/feed.go:128-190 | when a send finishes, every entry it took in that did not leave got the value exactly once, those removed before delivery or never taken in not at all, and the returned count is the number delivered |
| `Feed.SendIsForAll` | suave-geth/event/feed.go:134-189 | the entries a send takes in are those of everyone subscribed when it starts, in the case list or the inbox |
| `Feed.SubscribersReceive` | suave-geth/event/feed.go:72-190 | in any run: a channel not cancelled during the send, and without a cancellation waiting at its start, receives the value exactly once for each of its subscriptions, of which there are as many as were made and not cancelled |
| `Feed.LiveAreKept` | suave-geth/event/feed.go:103-124 | and in general it still has, at the end, one delivered case per subscription, besides those whose cancellation waits |
| `Gas.ToWordSize` | suave-geth/core/state_transition.go:117-123 | the ceiling of size over 32 for every uint64, without wrapping |
| `Gas.CountNonZero` | suave-geth/core/state_transition.go:80-86 | counts the non-zero bytes |
| `Gas.DataCostByCount` | suave-geth/core/state_transition.go:78-107 | the per-byte cost is the sum over the two counts |
| `Gas.CostIs` | suave-geth/core/state_transition.go:67-114 | the prices, as numbers |
| `Gas.GuardIsExact` | suave-geth/core/state_transition.go:90-106 | each division guard fires iff the multiplication and addition would exceed uint64 |
| `Gas.Charge` | suave-geth/core/state_transition.go:90-106 | charging succeeds iff the sum fits |
| `Gas.DataGas` | suave-geth/core/state_transition.go:67-108 | without an access list: the mathematical cost, or overflow iff that exceeds uint64 |
| `Gas.AddAccessList` | suave-geth/core/state_transition.go:109-112 | the unguarded addition is the sum modulo 2^64 |
| `Gas.IntrinsicGas` | suave-geth/core/state_transition.go:67-114 | overflow iff the cost without access list exceeds uint64; with one, the sum modulo 2^64, which is the exact cost iff that fits |
| `Gas.AccessListWraps` | suave-geth/core/state_transition.go:109-112 | 2^59 addresses add nothing |
| `Gas.GasPool.AddGas` | suave-geth/core/gaspool.go:29-35 | refuses, changing nothing, iff the sum overflows |
| `Gas.GasPool.SubGas` | suave-geth/core/gaspool.go:39-45 | refuses, changing nothing, iff the pool is too small |
| `Settlement.TransactionToMessage` | suave-geth/core/state_transition.go:146-166 | the effective gas price is the capped tip plus base fee, everything else is copied; fails iff the sender is unknown |
| `Settlement.TipPlusFee` | suave-geth/core/state_transition.go:385-398 | gas price is tip plus base fee, and the tip is not negative |
| `Settlement.FeesSettle` | suave-geth/core/state_transition.go:378-398 | refund, tip and burnt fee add up to what was prepaid |
| `Settlement.StateTransition.BuyGas` | suave-geth/core/state_transition.go:228-248 | the exact error, nothing changed on error, and afterwards the balance still covers the value |
| `Settlement.StateTransition.PreCheck` | suave-geth/core/state_transition.go:250-299 | the first failing check in order, nothing changed on error |
| `Settlement.PreCheckIs` | suave-geth/core/state_transition.go:228-299 | each rejection iff its cause: nonce, code at the sender, caps, funds, pool |
| `Settlement.StateTransition.Prepare` | suave-geth/core/state_transition.go:322-376 | success iff the checks pass and the gas covers the intrinsic gas, each error iff its cause; the later transfer check cannot fail |
| `Settlement.StateTransition.RefundGas` | suave-geth/core/state_transition.go:407-422 | the refund is capped to its share, and giving gas back to the pool cannot overflow |
| `Settlement.StateTransition.Settle` | suave-geth/core/state_transition.go:378-398 | account by account who is paid what; with the burn this is all that was prepaid |
| `Settlement.StateTransition.TransitionDb` | suave-geth/core/state_transition.go:311-405 | for every conserving machine: total ether falls by exactly the burnt base fee, the pool by exactly the gas used, nobody is overdrawn. Account by account, before the machine only the sender pays and a call raises its nonce by one; after it the sender gets the unused gas and the coinbase the tip. The refund is at most a fifth of the gas from London on, half before |
| `Settlement.EnteredIsBought` | suave-geth/core/state_transition.go:228-248 | the payment and nonce before execution, for every account |
| `Settlement.SettledIsPaidOut` | suave-geth/core/state_transition.go:385-422 | the payments after execution, for every account |
| `Settlement.TotalCredit` | suave-geth/core/state_transition.go:228-248 | crediting an account changes the total by the amount |
| `Processor.Process` | suave-geth/core/state_processor.go:59-132 | over a whole block: it succeeds iff every transaction passes on the world and pool its predecessors left, and fails at the first that does not; cumulative gas is the prefix sum, pool plus gas used is the limit after every prefix, ether falls by the burn |
| `Processor.CumulativeAppend` | suave-geth/core/state_processor.go:103-132 | one more receipt keeps cumulative gas the prefix sum |
| `Processor.PoolsAppend` | suave-geth/core/state_processor.go:103-132 | one more transaction keeps pool plus gas used at the limit |
| `Processor.BurnAdds` | suave-geth/core/state_processor.go:103-132 | burns of transactions add up to the burn of the block |
| `TrieRetention.Collector.Collect` | suave-geth/core/blockchain.go:1404-1412 | releases everything at or below the chosen number and nothing above it |
| `TrieRetention.Collector.WriteState` | suave-geth/core/blockchain.go:1361-1413 | references taken minus released are the queue, root by root; above block 128 exactly the entries newer than current minus 128 stay |
| `TrieRetention.Collector.Stop` | suave-geth/core/blockchain.go:977-979 | everything taken has been released |
| `TrieRetention.Collector.Run` | suave-geth/core/blockchain.go:941-998 | any run of writes and a shutdown releases what it took |
| `TrieRetention.PushBack` | suave-geth/core/blockchain.go:1405-1410 | popping and pushing back a new enough entry changes neither the queue nor the references |
| `TrieRetention.QueuedIsReferenced` | suave-geth/core/blockchain.go:1361-1365 | a queued root is still referenced |
| `Import.Importer.SkipKnown` | suave-geth/core/blockchain.go:1567-1597 | every block trimmed is stored, the last with state; the trim stops at a block that is new, or that is known and above the head or off the canonical chain |
| `Import.NeverPruned` | suave-geth/core/block_validator.go:84-89 | a block whose parent is stored with state is neither an orphan nor pruned |
| `Import.PrunedIsFirst` | suave-geth/core/blockchain.go:1617-1629 | only the first block of a batch can be found pruned |
| `Import.FineParent` | suave-geth/core/blockchain.go:1717-1726 | a block taken for execution always finds its parent, and the parent's state unless the block was known already |
| `Import.Importer.Execute` | suave-geth/core/blockchain.go:1717-1799 | a block is executed on the state of its parent and then stored with its own, iff that state is there and the execution succeeds; each error iff its cause, with nothing changed; the parent's state can be missing only for a block that was known |
| `Import.Importer.ImportRest` | suave-geth/core/blockchain.go:1666-1868 | on success the whole batch is stored and its last block has state, unless interrupted or from the future |
| `Import.Importer.InsertChain` | suave-geth/core/blockchain.go:1536-1868 | the mutual recursion is bounded: calls made by the side-chain and recovery paths start where the parent has state and never re-enter the pruned branch. New blocks have accepted headers and valid bodies, and a new state is that of a stored block that was executed; a first block that must be refused is |
| `Import.ExecutedVetted` | suave-geth/core/blockchain.go:1740-1799 | executing a block adds its own state and no other |
| `Import.VettedTrans` | suave-geth/core/blockchain.go:1666-1868 | so over any sequence of writes, a state is available only if it was before or a stored block passed every check with it |
| `Import.Importer.Insert` | suave-geth/core/blockchain.go:1497-1527 | an unordered batch is refused with nothing changed; on a parent with state, uninterrupted success stores the whole batch and gives its last block state; a first block that must be refused is |
| `Import.Importer.WriteSideBlocks` | suave-geth/core/blockchain.go:1888-1933 | every block up to the first with another verdict is stored without state; refused is exactly a pruned block that claims the root of the canonical block it rivals |
| `Import.Importer.InsertSideChain` | suave-geth/core/blockchain.go:1877-1998 | the blocks written are stored; if fork choice prefers the side chain and nothing interrupts, the last of them ends up with state; if not, no state changes |
| `Import.Importer.ReimportBatches` | suave-geth/core/blockchain.go:1964-1997 | every batch, of at most 2048 blocks and cut at 64 MiB, starts at a block whose parent has state |
| `Import.Importer.FlushBatch` | suave-geth/core/blockchain.go:1976-1991 | a full batch is imported, then the interrupt flag decides |
| `Import.BatchLinked` | suave-geth/core/blockchain.go:1964-1997 | a batch of a gathered segment is contiguous, stands on a stateful block and holds nothing from the future |
| `Import.Importer.Gather` | suave-geth/core/blockchain.go:2005-2024 | exactly the stateless ancestors down to the first one with state |
| `Import.LineageIsWalk` | suave-geth/core/blockchain.go:2005-2024 | the gathered blocks are those of the parent walk |
| `Import.Importer.RecoverAncestors` | suave-geth/core/blockchain.go:2004-2043 | after an uninterrupted success the block has state; so has the whole gap on an archive node or when the gap is at most 128 blocks; with distinct roots exactly the blocks of the last 128 have it |
| `Import.RecoveryLeaves` | suave-geth/core/blockchain.go:2004-2043 | what re-importing a gap leaves in memory, for every gap |
| `Import.WindowIsExact` | suave-geth/core/blockchain.go:1383-1412 | with distinct roots the retention window decides exactly which recovered states are there |
| `Import.LongGapForgets` | suave-geth/core/blockchain.go:2004-2043 | a gap of 129 blocks on a stateful one: however a pruning node re-imports it, the oldest state is gone afterwards and the next is there |
| `Import.GapRecovers` | suave-geth/core/blockchain.go:2004-2043 | that gap can be re-imported |
| `Import.Importer.WriteBlockWithState` | suave-geth/core/blockchain.go:1335-1413 | the block is stored and its state available afterwards |
| `Derivation.ParseDerivationPath` | suave-geth/accounts/hd.go:68-118 | the loop computes the parse, error cases included |
| `Derivation.PathString` | suave-geth/accounts/hd.go:122-136 | the loop prints the canonical form |
| `Derivation.RoundTrip` | suave-geth/accounts/hd.go:68-136 | parsing the printed form gives the path back, for every non-empty path of uint32 components; the empty path is refused |
| `Derivation.ComponentRoundTrip` | suave-geth/accounts/hd.go:90-134 | the same for one component, hardened or not, through the range check |
| `Derivation.ComponentRange` | suave-geth/accounts/hd.go:95-112 | exactly the numbers up to 2^32 - 1, hardened up to 2^31 - 1, are in range |
| `Derivation.SpaceIgnored` | suave-geth/accounts/hd.go:91-99 | white space around a component is ignored |
| `Derivation.ParsedIsCanonical` | suave-geth/accounts/hd.go:68-136 | printing what any accepted spelling means and parsing it again changes nothing |
| `Derivation.RelativePath` | suave-geth/accounts/hd.go:71-89 | a relative path means the same path under the default root |
| `Derivation.DefaultRoot` | suave-geth/accounts/hd.go:28-31 | the default root prints as m/44'/60'/0'/0 |
| `Derivation.PathRefused` | suave-geth/accounts/hd.go:72-89 | an empty first component is ambiguous, a bare m is empty |
| `Derivation.SplitPrint` | suave-geth/accounts/hd.go:122-136 | splitting the printed form gives the printed components |
| `Derivation.ScanDecimal` | suave-geth/accounts/hd.go:100-104 | a decimal number is read back as itself, never as octal |
| `Derivation.ScanPrefixed` | suave-geth/accounts/hd.go:100-104 | numerals in base 2, 8 and 16 behind their prefixes, and octal behind a zero, are read back as themselves |
| `Derivation.ScanSigned` | suave-geth/accounts/hd.go:100-104 | a sign in front negates or changes nothing |

## Left out

- Ancient store, snap sync, receipts import and snapshots: one key-value store and full sync are modelled.
- LRU caches and the in-memory block caches: the tables of the database are modelled.
- Disk failures and crashes between writes: each database batch is atomic.
- Chain, side-chain and head events: only the log streams are modelled.
- Block numbers are unbounded; the uint64 wrap of the parent of block zero is a lookup that finds nothing.
- Canonical.BlockChain.SetCanonical: takes which blocks were executed again, and whether to the end, as a parameter; how that comes about is in `Import`.
- Canonical.BlockChain.WriteBlockAndSetHead: takes whether the state was committed as a parameter; states are in `TrieRetention` and `Import`.
- ForkIndex.ReorgLookup: the lookup table is exact only while no path of the store holds a transaction twice; nothing is stated otherwise.
- HeaderChain.Chain.SetHead: for a rewind by time nothing is stated of callbacks that force a target. It assigns the head markers once, after the loop, not on every step of it.
- HeaderChain.Chain.WriteHeaders: header validation before it is not modelled; batches are contiguous.
- Indexer.NextKeeps: no child indexers, and resetting after a failed section is one atomic step.
- Feed.SendIsExact: type checks and their panics, and the generic variant of the feed, are not modelled.
- Import.ExecutedVetted: is about state roots; a stored block that shares its root with an executed one has state too, whether or not it would execute itself.
- Import.Importer.InsertSideChain: takes the answer of fork choice as a parameter.
- Import.Importer.InsertChain: fork choice, failing head updates, interrupts and time are arbitrary choices; the returned index, statistics, prefetching and periodic flushes to disk are left out, and the clock does not run backwards.
- Import.Importer.RecoverAncestors: the returned hash is left out.
- Rewind.HeadBlock.UpdateHead: the snap-sync head and the freezer part of the callback are left out, so it never forces a deeper target.
- Replay.StateAtBlock: no base state supplied, canonical blocks only, no cancellation.
- Settlement.StateTransition.TransitionDb: the virtual machine is any function that conserves ether, overdraws nobody and returns no more gas than it got; call simulation flags are off, and logs and return data are left out.
- Processor.Process: the DAO fork, withdrawals and block rewards are left out.
- TrieRetention.Collector.WriteState: flushing by memory use or time, which only adds states to disk, is left out.
- Derivation.ParseDerivationPath: JSON and the path iterators are left out; text is a sequence of code points.
- The light client, transaction pool, peer-to-peer, RPC, console and statistics packages, the contracts and the scripts: outside the chain core.
