# Verified models of a go-ethereum fork's hard core

This project models, in Dafny, the parts of the MATRIX fork of go-ethereum whose correctness
rests on several structures agreeing with each other or on concurrent steps fitting together,
and proves what those parts promise.

- **Transaction pool** (`Heap`, `TxList`, `PricedList`, `PoolState`, `PoolLimits`, `PoolChanges`,
  `TxPool`).
  Nonce-sorted lists with a lazily built cache, the price heap with lazy deletion, and the pool
  that must keep pending lists, queues, lookup, heap and virtual nonces in step through adding,
  removing, promoting, demoting, resetting and the two global limits.
- **Binary Merkle tree hasher** (`BmtReference`, `BmtHasher`, `BmtProofs`, `BmtTheorem`,
  `BmtWriter`). One goroutine per section races up the tree and synchronises by parity toggles;
  every interleaving must give what the sequential reference hasher gives.
- **Weighted random selection** (`WeightedSlots`, `WeightedTree`, `WeightedSelect`).
  An 8-ary tree of cached sums that must behave as a plain map from items to weights.
- **Event feed** (`EventFeed`). Exactly-once delivery over two views of one slice, with
  subscriptions and cancellations arriving during a send.
- **Canonical chain** (`HeaderChain`, `Reorg`, `BlockChain`). Number index, total difficulties
  and transaction lookup through fork choice, reorganisation and rewinding.
- **Request distributor** (`Distributor`). A queue in creation order, the choice of the next
  request and peer, and the wake-up tokens that must never strand a request.
- **Gas and balances** (`StateTransition`, `StateProcessor`). Conservation of balances and gas
  through one message and through a block, and receipts restored from what travels of them.
- **Election sampling** (`Election`). The outcome of a sampled election, which Go computes by
  walking maps in arbitrary order.

`Wrappers` and `Counting` hold what several of these share: optional values, and sums over maps.

Where the source updates fields or slices in place the model is a class or a loop over an array;
concurrent code is a state machine over its atomic steps, or a method in which other goroutines
act between the steps. Every such method is proved against functions of the old state, and the
lemmas are about those functions. Hashes are identities, random numbers and peer answers are
arbitrary inputs, and the clock is a parameter. 64-bit and 32-bit wrap-around is written out where
the code depends on it: gas, receipts and the toggle counter. The pool's virtual nonces have no
bound here; `PoolState.NonceWraps` says exactly when the code's 64-bit ones are the same.

Some results differ from what one might expect of the code:

- `HeaderChain.Chain.SetHead` can orphan side headers and leave heavier ones behind. Everything a
  run of `WriteHeader` keeps holds again exactly if, before the call, no header that stays has its
  parent among those that go and none is heavier than the new head (`RewoundGood`);
  `RewindOrphans` and `RewindLeavesHeavier` are instances of either failure. A header written on
  top of an orphan, heavy enough to become the head, makes `WriteHeader` dereference a header that
  is not there: that happens exactly if its parent path does not reach genesis
  (`HeaderChain.Chain.Rewrite`, `HeaderChain.OrphanUnrooted`).
- A message that fails after its gas was bought keeps the price of all its gas: balances are
  conserved exactly if the message does not fail, fails before the purchase, or costs nothing
  (`StateTransition.StateTransition.TransitionDb`, `StateTransition.OneGasShort`).
- A miner election asked for no miners, or fewer, still seats whoever is sampled: there are as many
  principals as asked for, or as there are candidates, exactly if at least one was asked for, there
  are no candidates, or no sample is taken (`Election.Elector.SampleMinerNodes`,
  `Election.NoneAskedSomeSeated`). Asked for a negative number among no candidates it panics.
- A tree of the Merkle hasher is good for a bounded number of uses, because the 32-bit toggle
  counter wraps to a negative number for which Go's remainder never equals one
  (`BmtHasher.TogglePair`). From then on the first section is combined with stale bytes, node by
  node, before the second one has even been launched (`BmtTheorem.WornTreeFails`, `BmtTheorem.WearsOut`).
- Several writes to the Merkle hasher count as one, except that a later one that overflows an odd
  number of segments is cut too late, up to a segment beyond capacity; a further write then panics
  (`BmtWriter.Hasher.Write`). The digest is then the reference hash of the over-long data, not
  `RefHasher.Hash`, which cuts at capacity (`BmtWriter.Sum`, `BmtWriter.CutTooLate`).
- A discard from a full pool does not always make room, because a transaction that came back while
  its old entry was still in the price heap can be discarded twice (`PricedList.DropsTwice`). There
  is room afterwards if there are enough entries of known remote transactions and whatever has two
  has so many cheaper ones before it that the second is not reached; there is none if there are too
  few, or one with two has so few others before it that both are. Where no two known remote
  transactions are equal in price and nonce this is an if and only if (`TxPool.Pool.MakeRoom`,
  `PricedList.CutsMeet`).
- A reorganisation fails, and then changes nothing, exactly if the new block's parent path does not
  reach genesis (`BlockChain.Chain.Reorganise`). Canonical entries above a shorter new head stay.

## Model

| member | source | states |
|---|---|---|
| `Heap.RootIsLeast` | core/tx_list.go:368-398 | the root of a heap is a least element, for the nonce heap and the price heap alike |
| `TxList.List.Put` | core/tx_list.go:73-79 | inserting keeps the nonce heap a permutation of the keys and drops the cache |
| `TxList.List.Forward` | core/tx_list.go:84-98 | exactly the nonces below the threshold leave, returned in nonce order; heap, cache and caps stay right |
| `TxList.List.FilterBy` | core/tx_list.go:102-123 | exactly the matching transactions leave, each reported once; heap rebuilt, cache dropped |
| `TxList.List.RemoveNonce` | core/tx_list.go:152-169 | the one nonce leaves list and heap; found says whether it was there |
| `TxList.List.Ready` | core/tx_list.go:178-193 | the run of consecutive nonces starting at or below the start leaves, in order, and nothing else |
| `TxList.RunIsFront` | core/tx_list.go:185-189 | popping consecutive heap roots takes exactly the run defined without the heap |
| `TxList.List.Flatten` | core/tx_list.go:203-216 | the cache is the full nonce-sorted content |
| `TxList.List.Add` | core/tx_list.go:251-272 | inserted exactly if the nonce is free or the price bump is met; the replaced transaction is reported; caps still bound all members |
| `TxList.OutbidsMeans` | core/tx_list.go:252-261 | a price bump is met exactly if the price is higher and at least the old one raised by the percentage, rounded down |
| `TxList.List.Filter` | core/tx_list.go:290-314 | with the early return on the caps the result is still the full filter, in strict mode with everything above the lowest unpayable nonce |
| `TxList.AllPayable` | core/tx_list.go:291-294 | caps within the limits mean every member is payable, so the early return loses nothing |
| `TxList.List.Remove` | core/tx_list.go:325-336 | the nonce leaves, in strict mode with everything above it, and those invalidated are reported |
| `TxList.List.Cap` | core/tx_list.go:127-148 | exactly the lowest nonces stay; the cache is cut to match |
| `TxList.LowestIsFront` | core/tx_list.go:135-140 | dropping from the sorted end leaves the nonces with the fewest below them |
| `TxList.ListsSplit` | core/tx_list.go:93-96 | a sorted listing cut at a threshold lists both parts, which is why the cache may be sliced |
| `PricedList.Priced.Put` | core/tx_list.go:414-416 | the heap covers the lookup with the new transaction |
| `PricedList.Priced.Removed` | core/tx_list.go:421-436 | the heap stays as it is with one more stale entry counted, or, once more than a quarter is stale, becomes exactly the lookup with none; the lookup stays covered |
| `PricedList.Priced.Underpriced` | core/tx_list.go:471-493 | true exactly for a remote transaction priced at most as every known one, whatever stale entries are around |
| `PricedList.Priced.Discard` | core/tx_list.go:497-520 | at most the asked number of remote transactions, each cheaper than any remote one kept, or as cheap with no lower a nonce; short only if only locals are left; entries of known transactions are moved, never lost |
| `PricedList.DropsTwice` | core/tx_list.go:497-520 | an instance: a transaction that came back is discarded twice |
| `PricedList.CutOnce` | core/tx_list.go:501-515 | if whatever has two entries has enough cheaper ones before it, everything is discarded once |
| `PricedList.CutTwice` | core/tx_list.go:501-515 | if there are too few entries, or one with two has few enough others before it, fewer transactions are discarded than asked for |
| `PricedList.CutsMeet` | core/tx_list.go:501-515 | without ties the two conditions are each other's negation |
| `PricedList.Priced.ExactIsClear` | core/tx_list.go:414-436 | the first condition holds as long as no transaction came back to an old entry |
| `PoolState.NonceWraps` | core/tx_pool.go:1475-1478 | the unbounded virtual nonce is the 64-bit one exactly while no pending nonce is the last there is |
| `PricedList.Priced.Cap` | core/tx_list.go:440-467 | exactly the remote transactions below the threshold |
| `PricedList.EvenBalances` | core/tx_list.go:366-520 | while no removed hash came back, stale count plus lookup size is heap size |
| `PoolState.RemovePending` | core/tx_pool.go:1606-1622 | removing a pending transaction and queueing those above keeps the account partitioned; the queue cannot refuse them |
| `PoolState.QueueTakes` | core/tx_pool.go:1407-1431 | re-queued transactions are never refused, because pending and queued nonces are disjoint |
| `PoolState.DemotedBlock` | core/tx_pool.go:1828-1865 | the front drop and strict filter leave a list from the chain nonce on, or one with a front gap |
| `PoolLimits.AfterLowering` | core/tx_pool.go:1727-1757 | after lowering a group to the next offender's size the larger group is level, or the limit is met |
| `PoolLimits.DrainedCapped` | core/tx_pool.go:1738-1776 | lowering pending lists leaves no executable transaction in a queue |
| `PoolChanges.PromotedTwice` | core/tx_pool.go:1652-1698 | promoting an account twice is promoting it once, so accounts may be named twice |
| `PoolChanges.NextIsPromoted` | core/tx_pool.go:1670-1680 | a queued, payable transaction with the next nonce becomes pending |
| `PoolChanges.LostInPromotion` | core/tx_pool.go:1640-1822 | what promotion and the limits lose was too old, unpayable, beyond its account's allowance, or cut by a limit that was exceeded |
| `PoolChanges.LostInDemotion` | core/tx_pool.go:1826-1866 | what demotion loses was too old or unpayable |
| `TxPool.Pool.EnqueueTx` | core/tx_pool.go:1407-1431 | queue, lookup and heap change together, or not at all if the price bump is missed |
| `TxPool.Pool.PromoteTx` | core/tx_pool.go:1448-1481 | pending list, lookup, heap and virtual nonce change together; a worse transaction is forgotten |
| `TxPool.Pool.RemoveTx` | core/tx_pool.go:1592-1635 | the transaction leaves; pending ones above return to the queue; partition, executable prefix and drained queues are kept |
| `TxPool.Pool.PromoteAccount` | core/tx_pool.go:1652-1698 | exactly the payable run at the virtual nonce is promoted and the rest is kept up to the allowance; nothing happens to an account without a queue |
| `TxPool.Pool.CapPending` | core/tx_pool.go:1710-1780 | pending is within the limit or every non-local account within its slots; whoever was cut has as many left as any non-local account, and not less than its slots, and these are its lowest nonces; the limit is undershot by less than the number of accounts cut; nothing happens within the limit |
| `TxPool.Pool.CapQueues` | core/tx_pool.go:1781-1822 | queued is within the limit or only locals are queued; never more is dropped than needed; accounts heard from latest lose first, locals nothing, and of every queue the lowest nonces stay |
| `TxPool.Pool.PromoteExecutables` | core/tx_pool.go:1640-1822 | the accounts named are promoted, each behind its pending list, and the others stay as they are; then both limits, which keep the lowest nonces and spare locals; every pending transaction is payable; whatever leaves the pool was too old, unpayable, beyond its account's allowance, or cut by a limit that was exceeded; no executable transaction is left in the queue of an account dealt with |
| `TxPool.Pool.DemoteAccount` | core/tx_pool.go:1828-1866 | exactly the payable beginning from the chain nonce stays pending; invalidated ones return to the queue; mined and unpayable ones go |
| `TxPool.Pool.DemoteUnexecutables` | core/tx_pool.go:1826-1866 | for every account exactly the payable beginning from the chain nonce stays pending, those invalidated return to the queue, and mined and unpayable ones go |
| `TxPool.Pool.Reset` | core/tx_pool.go:673-752 | for any new chain state every account is demoted and then promoted, both exactly, before the limits; the invariant and the limits hold, every pending transaction is payable, no queue holds an executable transaction, and whatever leaves the pool was too old, unpayable, beyond its account's allowance, or cut by a limit that was exceeded |
| `TxPool.Pool.MakeRoom` | core/tx_pool.go:1338-1353 | refused exactly if full and the price is at most every known one; evictions are remote and the cheapest, those of higher nonce first; and when there is room then, from the heap's entries before the call; accounts that lose nothing keep their lists |
| `TxPool.Pool.Validate` | core/tx_pool.go:1153-1265 | accepted exactly if all checks pass, the nonce is not too low, the sender can pay, the gas is within the block limit, and the price is not below the pool's unless sender or call are local; each of the pool's own errors only for its reason |
| `TxPool.Pool.ReplacePending` | core/tx_pool.go:1354-1388 | a pending transaction is replaced in place exactly on a sufficient price bump |
| `TxPool.Pool.EnqueueNew` | core/tx_pool.go:1389-1402 | a transaction whose nonce is not pending is queued exactly if the nonce is free or the price bump is met |
| `TxPool.Pool.Add` | core/tx_pool.go:1267-1402 | the result, in the order of the checks: with a full pool too cheap exactly if remote and priced at most as every known one, and else added, replacing or refused from those that stay when room is made; who leaves and why; what is known then; an added transaction is payable and priced, and makes its sender local exactly if it is local and goes into the queue |
| `TxPool.Pool.AddTx` | core/tx_pool.go:1512-1527 | the result and the pool are those of adding, unless the transaction is new: then its account is promoted behind its pending list, the limits hold, and what leaves does so for a reason; one with the next virtual nonce becomes pending, and stays if the limit is not exceeded or its sender is local, unless eviction had taken another of that sender; drained queues stay drained |
| `TxPool.Pool.SetGasPrice` | core/tx_pool.go:790-799 | exactly the remote transactions below the price leave; accounts that lose none keep their lists |
| `BmtReference.NewRefHasherSpan` | bmt/bmt_r.go:39-55 | the span, as a function of segment size and count, and that it is the least sufficient doubling |
| `BmtReference.HalveStopsAt` | bmt/bmt_r.go:72-73 | halving from any large enough power of two stops at the half of the subtree that holds the data |
| `BmtReference.ShortTravelsRaw` | bmt/bmt_r.go:67-85 | up to one segment is not hashed, however high it climbs |
| `BmtReference.ValueIsRefHash` | bmt/bmt_r.go:67-85 | the value of every tree position is the reference hash of the bytes below it |
| `BmtHasher.TogglePair` | bmt/bmt.go:504-509 | exactly the first of two arrivals waits, as long as the counter has not wrapped |
| `BmtProofs.InvLaunch` | bmt/bmt.go:440-459 | launching a section keeps the invariant |
| `BmtProofs.InvStore` | bmt/bmt.go:461-468 | storing a child's value keeps it |
| `BmtProofs.InvToggle` | bmt/bmt.go:469-471 | the toggle hands each node to exactly one goroutine |
| `BmtProofs.InvHash` | bmt/bmt.go:440-459 | hashing a full section keeps it |
| `BmtProofs.InvCombine` | bmt/bmt.go:472-491 | combining children and climbing keeps it |
| `BmtProofs.InvFinalise` | bmt/bmt.go:528-545 | every single write of finalise keeps it, whatever goroutines do between the writes |
| `BmtProofs.FinaliseMarks` | bmt/bmt.go:528-545 | once finalise has returned, exactly the path from its start to the effective root is marked |
| `BmtTheorem.RunIsSafe` | bmt/bmt.go:440-509 | every reachable state of every schedule is safe, and runs are bounded |
| `BmtTheorem.StuckIsQuiescent` | bmt/bmt.go:461-491 | no goroutine waits for ever or leaves the tree |
| `BmtTheorem.ResultMeansQuiescent` | bmt/bmt.go:292-318 | when the result is out, all goroutines are done |
| `BmtTheorem.OnlyTheDigest` | bmt/bmt.go:292-318 | at most one result is ever sent, and it is the digest |
| `BmtTheorem.ReleaseClears` | bmt/bmt.go:423-438 | releasing clears exactly the flags finalise set |
| `BmtTheorem.Reusable` | bmt/bmt.go:423-438 | a finished, released tree is clean with one use less to go |
| `BmtTheorem.DigestIsRefHash` | bmt/bmt_r.go:59-85 | the digest is the reference hash, for every length within capacity |
| `BmtTheorem.EveryInterleaving` | bmt/bmt.go:253-545 | every chunk, base hash and schedule: only the reference hash is sent, exactly once, in boundedly many steps, and the tree is reusable |
| `BmtTheorem.WornTreeFails` | bmt/bmt.go:469-509 | for every depth and chunk, with counters below zero along the left edge, a run that takes a wrong value past those nodes, and sends it if that is all of them, before the second section is launched |
| `BmtTheorem.WearsOut` | bmt/bmt.go:504-509 | every run to its end adds two to the counters of the left edge; from the last even value of the range that leaves a clean tree worn there |
| `BmtTheorem.WornDiffers` | bmt/bmt.go:469-491 | with the identity for a base hash the wrong value differs from the digest exactly if the stale bytes differ from the other sections, as they do where there are none |
| `BmtWriter.Depth` | bmt/bmt.go:519-524 | the least depth whose leaves hold the segments |
| `BmtWriter.NewTree` | bmt/bmt.go:253-275 | a new tree is clean for as many uses as the counter allows |
| `BmtWriter.Hasher.Write` | bmt/bmt.go:333-372 | after any writes the sections launched and the open one are the data taken in, cut into sections; that is all that was written, capped, exactly if the write fits, the segments are even in number, it is the first, or the last leaf is open, and else beyond capacity by up to a segment; and when it panics |
| `BmtWriter.Sum` | bmt/bmt.go:292-318 | after any writes every schedule of the sections on the tree sends, once, the reference hash of the data taken in, with the reference hasher's own span |
| `BmtWriter.HashChunk` | bmt/bmt_r.go:59-65 | a new tree just deep enough, any writes and a sum: the run is one of this base hash over sections that hold a beginning of all bytes together, never short of capacity; what is sent is their reference hash, and RefHasher.Hash of all bytes for an even number of segments, one write, or writes that fit |
| `BmtWriter.CutTooLate` | bmt/bmt.go:333-372 | an instance: one byte, then five, into three segments of one byte; the hasher's sections hold four, its run sends these where RefHasher.Hash gives three, and a further write panics |
| `WeightedSlots.PickStretch` | les/randselect.go:159-170 | a value picks a slot exactly if it lies in that slot's stretch of the weights laid end to end |
| `WeightedSlots.Proportional` | les/randselect.go:75-94 | a slot is picked by as many values as its weight |
| `WeightedSlots.RoomSomewhere` | les/randselect.go:107-114 | a node with room has a branch with room |
| `WeightedTree.FindBranch` | les/randselect.go:107-114 | the search for a branch never runs off the end |
| `WeightedTree.Insert` | les/randselect.go:107-131 | one empty slot is filled, at the index returned; all cached sums and counts stay right |
| `WeightedTree.SetWeight` | les/randselect.go:135-156 | one slot changes weight or is emptied; sums, counts and the returned difference are right |
| `WeightedTree.Choose` | les/randselect.go:159-170 | the descent finds the slot the value picks in the flat row, and never panics |
| `WeightedTree.RaisedRow` | les/randselect.go:63-69 | a new level keeps every slot index and adds room |
| `WeightedSelect.Select.SetWeight` | les/randselect.go:54-73 | the set is the old map with this weight replaced, added or removed |
| `WeightedSelect.Select.Turn` | les/randselect.go:80-93 | one turn of choose: which item is looked at, what is stored, and when it is taken |
| `WeightedSelect.Select.Choose` | les/randselect.go:79-94 | the item that the random numbers choose from the row of stretches, turn by turn; for weights that change from turn to turn the loop ends; the item has its weight of the last turn, and there is none exactly if none is left |
| `EventFeed.Find` | event/feed.go:213-220 | the first case with the channel, or minus one exactly if there is none |
| `EventFeed.Feed.DeleteCase` | event/feed.go:223-225 | in place, the cases behind move up by one |
| `EventFeed.Feed.Deactivate` | event/feed.go:228-232 | in place, the case trades places with the last of the prefix |
| `EventFeed.Feed.Subscribe` | event/feed.go:73-93 | the case waits in the inbox |
| `EventFeed.Feed.LeaveInbox` | event/feed.go:104-115 | deleted from the inbox exactly if it is there; otherwise the removal waits for a case that is among the send cases |
| `EventFeed.Feed.RemoveCase` | event/feed.go:117-124 | a waiting removal always finds its case and deletes it |
| `EventFeed.Feed.RemoveDuring` | event/feed.go:171-177 | a removal during a send shrinks the active prefix exactly if the case was in it |
| `EventFeed.Feed.Select` | event/feed.go:169-181 | whatever others do meanwhile, a removal or a delivery keeps the books and brings the end nearer |
| `EventFeed.Feed.Send` | event/feed.go:129-190 | every case present at the start is delivered to or was cancelled first; the count is the number of deliveries; the cases left are the start less removals, and the subscriptions then alive are those alive before and those made since, less those cancelled since |
| `EventFeed.ExactlyOnce` | event/feed.go:127-190 | a channel subscribed once gets the value at most once, and gets it unless cancelled |
| `EventFeed.AsOftenAsSubscribed` | event/feed.go:127-190 | with repeated subscriptions, as often as subscribed less what was cancelled |
| `HeaderChain.PathIsAncestry` | core/headerchain.go:134-195 | an index along parent links gives exactly the ancestors of its head |
| `HeaderChain.Chain.GetTd` | core/headerchain.go:312-324 | the stored difficulty; a cached hash is found under any number, any other only under its own |
| `HeaderChain.Chain.GetHeader` | core/headerchain.go:346-358 | likewise for headers, the cache being allowed to hold headers just deleted |
| `HeaderChain.Chain.DeleteAbove` | core/headerchain.go:158-165 | exactly the assignments above the new head go |
| `HeaderChain.Chain.Rewrite` | core/headerchain.go:166-178 | the rewrite loop finds every ancestor exactly if the new header's path reaches genesis, and ends with that path in the index |
| `HeaderChain.Chain.WriteHeader` | core/headerchain.go:134-195 | what is stored and who becomes the head: the heavier one, on a tie by the coin; the index is the parent path of the head with nothing above; from a good state total difficulties are sums to genesis and the head is heaviest, for good; unknown parents change nothing; and when it panics |
| `HeaderChain.RewoundGood` | core/headerchain.go:408-441 | after rewinding all of this holds again exactly if no header that stays had its parent among those that go and none was heavier than the new head |
| `HeaderChain.RewindOrphans` | core/headerchain.go:408-441 | an instance: a good state that rewinding to genesis leaves with an orphan |
| `HeaderChain.RewindLeavesHeavier` | core/headerchain.go:408-441 | an instance: a good state that rewinding by one leaves with a heavier header and no orphan |
| `HeaderChain.OrphanUnrooted` | core/headerchain.go:152-178 | a header written on the orphan wins fork choice but does not reach genesis |
| `HeaderChain.Chain.SetHead` | core/headerchain.go:408-441 | exactly the path up to the new head is left; at or above the height nothing changes; when all that held before holds again, as a condition on the state before |
| `Reorg.SpineUnique` | core/blockchain.go:1258-1352 | an index along parent links is determined by its head |
| `Reorg.SpineAfter` | core/blockchain.go:478-495 | writing the walked blocks over the old path makes the index the new path |
| `Reorg.EnteredAt` | core/blockchain.go:1339-1345 | entering the new blocks gives each transaction its place |
| `Reorg.ExactAfter` | core/blockchain.go:1337-1352 | the lookup of the old chain becomes exactly the lookup of the new one |
| `BlockChain.TxDifference` | core/types/transaction.go:404-419 | the transactions of one list that are not in the other, in order |
| `BlockChain.Chain.ReduceOld` | core/blockchain.go:1286-1293 | the higher old chain is walked down to the new block's number |
| `BlockChain.Chain.ReduceNew` | core/blockchain.go:1294-1299 | the higher new chain likewise, unless it breaks off |
| `BlockChain.Chain.Meet` | core/blockchain.go:1307-1325 | both walks meet exactly if the new block comes from genesis |
| `BlockChain.Chain.Adopt` | core/blockchain.go:1337-1345 | the new blocks are written to index and lookup, lowest first |
| `BlockChain.Chain.Reorganise` | core/blockchain.go:1258-1352 | index up to the new head is its parent path and the lookup exactly its transactions; or nothing changed |
| `BlockChain.Chain.WriteBlock` | core/blockchain.go:882-997 | total difficulties are sums to genesis and no stored block is heavier than the current one, for good; on a tie the lower block wins, and between equal numbers the coin decides; index and lookup stay exactly those of the current block |
| `Distributor.ScanOne` | les/distributor.go:191-217 | asking one peer keeps the scan's account of the peers met |
| `Distributor.RequestDistributor.AskPeers` | les/distributor.go:194-214 | peers may be asked in any order |
| `Distributor.RequestDistributor.Sweep` | les/distributor.go:178-222 | only requests ahead of the first that some peer can take are dropped |
| `Distributor.RequestDistributor.NextRequest` | les/distributor.go:178-227 | no choice exactly if the queue is empty then; else the oldest request its peer can take, without waiting if any peer can, else with the least wait; of peers that need not wait the one on whose lot the random number falls, when each has a lot of its buffer's length |
| `Distributor.RequestDistributor.Queue` | les/distributor.go:233-260 | the queue stays strictly ascending, also on resending; at most one signal is in the channel |
| `Distributor.RequestDistributor.Cancel` | les/distributor.go:265-276 | true exactly if the request was still queued, which it no longer is |
| `Distributor.RequestDistributor.Remove` | les/distributor.go:279-285 | exactly this request leaves |
| `Distributor.RequestDistributor.Wake` | les/distributor.go:152-155 | a timer's signal always fits into the channel |
| `Distributor.RequestDistributor.OnSignal` | les/distributor.go:126-159 | turn by turn, with the peers' answers of that turn: what nobody can take is dropped from the front and a right choice that need not wait is sent; the loop ends with a timer running and no peer ready, or with nothing left |
| `Distributor.AllAccounted` | les/distributor.go:126-159 | no request is lost: it is queued, was sent, or at one of the turns nobody could take it |
| `StateTransition.IntrinsicGas` | core/state_transition.go:79-109 | the exact price, or out of gas exactly if it exceeds 64 bits |
| `StateTransition.GasPool.SubGas` | core/gaspool.go:39-45 | refused exactly if the pool has too little |
| `StateTransition.StateTransition.BuyGas` | core/state_transition.go:152-165 | all or nothing, with the error that applies |
| `StateTransition.StateTransition.RefundGas` | core/state_transition.go:230-245 | the refund is capped at half of the gas used; gas and pool stay within 64 bits |
| `StateTransition.Conserved` | core/state_transition.go:152-250 | returning the rest and paying the fee restores the total, also if sender and coinbase are the same |
| `StateTransition.StateTransition.TransitionDb` | core/state_transition.go:183-227 | which error and when, from message, balances, nonces and pool alone; all that is left afterwards in every case; and exactly when the total of balances is kept |
| `StateTransition.TotalLeft` | core/state_transition.go:183-227 | the total stays, or falls by the price of the gas bought, and that exactly if the message fails after buying it |
| `StateTransition.OneGasShort` | core/state_transition.go:192-200 | an instance: with 20999 gas at price 1 the total falls by 20999 |
| `StateProcessor.ApplyTransaction` | core/state_processor.go:88-126 | pool plus gas used stays the same; the receipt carries both gas figures, the contract address and the logs numbered on |
| `StateProcessor.Process` | core/state_processor.go:56-82 | a block is its transactions one after the other, each on the machine it finds, or fails as a whole; pool plus used gas is the limit; cumulative gas is the prefix sum; each receipt tells the gas its own message used, whether it failed and the logs it emitted, numbered through |
| `StateProcessor.OwnGas` | core/blockchain.go:760-765 | differences of cumulative gas are the receipts' own gas |
| `StateProcessor.SetReceiptsData` | core/blockchain.go:742-775 | each receipt is completed from its transaction, the cumulative gas and the logs before it; another count is refused |
| `StateProcessor.LogIndexOnce` | core/blockchain.go:767-774 | no two logs of a block get the same index |
| `StateProcessor.RoundTrip` | core/blockchain.go:742-775 | a processed block's receipts, sent without what can be derived and completed again, are the same |
| `Election.Sample1NodesInValNodes` | election/election.go:194-203 | the first candidate the sample stops at; the first of all exactly if it stops at none |
| `Election.AfterOrderly` | election/election.go:280-303 | at most all seats are filled, and the first principals are noted before there is a backup |
| `Election.Vote` | election/election.go:280-303 | the votes depend on candidates and samples only, whatever order the map is walked in |
| `Election.SortFunc` | election/election.go:217-256 | three lists put into candidate order, a principal being nothing else |
| `Election.SeatedWell` | election/election.go:258-349 | principals, backups and the rest share out the candidates in order; seats are bounded; no backup before the principals are complete |
| `Election.Elector.SampleMPlusPNodes` | election/election.go:258-349 | the outcome is a function of candidates and samples, with these properties |
| `Election.MinedWell` | election/election.go:351-432 | principals and backups share out the candidates, and when there are as many principals as asked for |
| `Election.Elector.SampleMinerNodes` | election/election.go:351-432 | for any number asked for the outcome is a function of candidates and samples, with these properties; and when it panics |
| `Election.NoneAskedSomeSeated` | election/election.go:351-432 | asked for none, with candidates and at least one sample, some are seated |

## Left out

- TxPool.Pool.Reset: does not model the re-injection of transactions from blocks that left the chain; an interior gap after a partly refused re-injection is not repaired by the code. Virtual nonces do not wrap at 64 bits; `PoolState.NonceWraps` says when that makes no difference.
- TxPool.Pool.PromoteTx: the virtual nonce does not wrap at 64 bits, likewise.
- TxPool.Pool.Add: the checks on a transaction alone enter as three flags, in their places among the others (size, amounts and recipients; signature; intrinsic gas), and the pool's own broadcast and special transactions are not modelled.
- TxPool.Pool: holds its lists as their contents rather than as list objects; module TxList proves that the list objects compute the same functions, so sharing of list objects is not captured.
- TxPool.Pool.AddTx: batches of transactions and the eviction of idle accounts by lifetime are not modelled; they would only add easy members.
- Heap.Sort, Heap.Init, Heap.Push, Heap.Pop, Heap.Remove: stand for the Go library's sort and container/heap; only their contracts matter.
- Pool networking, the flooding containers, journal, events and metrics: input and output.
- BmtWriter.Hasher.Write: that the open section may share memory with the caller's buffer is not captured; ReadFrom, Draw, the pool of trees and the optional length prefix are not modelled.
- WeightedTree: nodes are values, since each has one parent; update in place below the root and 64-bit overflow of weights are not captured, and weights are not negative.
- EventFeed.Feed.Send: the element type check, which panics, is not modelled.
- HeaderChain.Chain.WriteHeader: callers are taken to have checked that parent and child are numbered one apart and that equal hashes mean equal headers; what a panic leaves of the index, the number cache and database failures are not modelled.
- BlockChain.Chain.WriteBlock: state commit, trie garbage collection, receipts, logs, events and the separate header and fast-sync heads are not modelled; numbers and hashes are taken to agree with all blocks ever written, and each transaction is taken to occur once on the block's own chain.
- Distributor.RequestDistributor.OnSignal: shutting down is not modelled, and a peer's answers are fixed during one call of nextRequest.
- StateTransition.StateTransition.TransitionDb: the EVM is any step that refuses exactly a value the sender does not have, keeps the total of balances and returns no more gas than it got.
- StateProcessor.Process: the DAO fork, block rewards, state roots and blooms are not modelled; the logs a run emits are given.
- Election.Sample1NodesInValNodes: probabilities are real numbers; rounding of 32-bit floats is not modelled.
- Election: scoring of nodes, the top-up of principals and the topology updates are not modelled; the latter follow map order.
- Chain indexer, light fetcher, RPC, consoles, key stores, codecs and databases: plumbing, or easy members.
