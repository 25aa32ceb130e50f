# go-qrl in Dafny

A Dafny model of six stateful cores of go-qrl, a descendant of go-ethereum, with proofs of what each of them keeps.

- **Canonical chain** (`BlockTree`, `Fork`, `Reorg`, `Logs`, `BlockChain`, `Rewind`, `HeaderChain`). Blocks are a map from hash to header with parent links; the number-to-hash index, the transaction lookup index, the head markers and the log feeds are fields that the operations change step by step. Every run of head changes keeps the index exactly the ancestor chain of the head, whatever the fork depth and whether the new chain is longer, shorter or an ancestor; rewinds stop at exactly the right block; the log feeds turn the old chain's logs into the new chain's.
- **Section indexer and ancestor caches** (`ChainIndexer`, `HashLookup`, and `GetAncestor` in `HeaderChain`). Fast forms agree with the plain parent walk, and stored sections are parent-linked under any changes of the canonical index between reads.
- **Feed broadcast** (`Feed`). Subscribing, unsubscribing and sending are atomic steps; any interleaving of them is a run.
- **Peer-to-peer admission** (`Dial`, `Server`). The dial loop with its swap-remove pool of static tasks, and the server loop with its limits, composed through the notifications between them.
- **Subprotocol negotiation** (`Capabilities`). Two peers compute the layout of message codes independently; they agree exactly when the lengths of the winning versions agree (the Capability Messaging section of the devp2p RLPx specification).
- **Execution accounting and block building** (`Gas`, `Ledger`, `StateTransition`, `StateProcessor`, `Ordering`, `Worker`). Gas purchase, refund, tip and burn (the Specification sections of EIP-1559 and EIP-3529), whole blocks, the price-and-nonce heap, and greedy packing with rollback: what the builder packs is what processing accepts.

What the model assumes of its surroundings:

- Hashes are injective and non-zero for stored blocks (`WellKeyed`), a child's number is one above its parent's, and a header above height zero names a parent. Block-level claims start from the steady state where header head and block head agree, over a store closed under parents.
- A database batch is invisible to reads until it is written; a write that the source treats as fatal does not fail.
- The block is built with the header's own coinbase, as `prepareWork` sets it, and the signal that interrupts building is set at most once and not taken back.
- The virtual machine is a deterministic function that returns no more gas than it got, overdraws no account and leaves the transaction context alone (`Lawful`); claims about nonces also assume that it lowers none (`KeepsNonces`). Signature recovery is a field of the transaction, snapshots are exact, and clocks, random picks, interrupts and map order are arbitrary choices.

Where the code and its documentation disagree, the model follows the code:

- `InsertHeaderChain` is documented as all-or-nothing, but a failing `Reorg` leaves the headers written. `Reorg` fails exactly if the new chain's ancestors run into a gap of the store before they meet the index. `HeaderChain.InsertIntoGap` is such an insert; on a parent-closed store there is none.
- An aborted `WriteHeaders` leaves the header caches ahead of the database, and later lookups see them. `GetAncestor` is stated over both together.
- `writeKnownBlock` does not announce the new head's own logs, and `SetCanonical` announces them again when the head was canonical already. Both streams are proved complete exactly outside those cases; `BlockChain.AnnouncesNothing` and `BlockChain.AnnouncesTwice` are runs of committed blocks inside them.
- `SetHead` is documented to delete everything above the new head. Headers above an empty height survive it (`HeaderChain.RewindLeavesOrphan`), and over a missing parent it goes to genesis without deleting the heights in between (`HeaderChain.RewindOverGap`). What it deletes is stated for any store, and on a parent-closed one that is everything above.
- Above the requested root the rewind loop steps down from a block with state without testing whether its parent is stored. The model has the resulting nil dereference as an outcome (`Panicked`), says exactly when it happens (`Rewind.Rewind`) and names a store where it does (`Rewind.PanicReachable`).
- `IntrinsicGas` adds the access list without an overflow check; the result is the exact price if and only if that fits in 64 bits.
- The comment on `AddCheckpoint` has the stored sections end at the checkpoint until syncing reaches it. A section below it that is in process at that moment cuts them back when it completes; `ChainIndexer.ChainIndexer.FinishUpdate` says exactly when and `ChainIndexer.CheckpointLost` is a run.

## Model

| member | source | states |
|---|---|---|
| `BlockTree.CanonicalIsAncestorIndex` | core/blockchain.go:1933-1949 | a number index is locally linked up to the head and empty above exactly when it holds the head's parent-walk ancestors, each at its height, and nothing else |
| `BlockTree.CanonicalUnique` | core/blockchain.go:1933-1949 | a head has only one canonical index |
| `BlockTree.TreeGrows` | core/blockchain.go:1307-1320 | storing a valid child of a stored block keeps the store valid and closed under parents |
| `Fork.Reduce` | core/blockchain.go:1844-1864 | walking a chain down to a height collects exactly the blocks passed, in parent order, and succeeds on a complete store |
| `Fork.FindFork` | core/blockchain.go:1829-1889 | finds the common block of both heads: the two walks are parent walks that end in it and share no block above it, the transactions dropped are those of the old walk, and on a complete store it never fails |
| `Logs.Collect` | core/blockchain.go:1961-1968 | taking one block's logs loses and reorders nothing and sends a batch exactly above the limit |
| `Logs.Batch` | core/blockchain.go:1955-1987 | the batches flatten to the chain's logs in ascending order, and only the last one may hold 512 logs or fewer |
| `Logs.AscendingIsSegment` | core/blockchain.go:1957-1969 | logs collected along a descending walk are the chain-order logs of its heights |
| `Logs.UpwardIsHashes` | core/blockchain.go:1957-1959 | the hashes of a descending walk, lowest block first, are the index entries of its heights |
| `Logs.LogStream` | core/blockchain.go:2032-2036 | dropping the old logs above the fork and appending the new ones with the head's turns the old chain's logs into the new chain's, exactly if the head is above the fork or has no logs |
| `Logs.HeadStream` | core/blockchain.go:2032-2036 | the same for the batches as they appear on the two feeds of a head switch |
| `Logs.QuietStream` | core/blockchain.go:1296-1305 | without announcing the head's logs the stream is complete exactly if the head was canonical or has none |
| `Logs.QuietFeeds` | core/blockchain.go:1296-1305 | the same for the batches as they appear on the two feeds |
| `Logs.FeedContinues` | core/blockchain.go:1951-1987 | what two stretches of a feed carry is what they carry one after the other |
| `Logs.BatchedWithHead` | core/blockchain.go:2032-2036 | what a feed gained is well batched, but for the head's own logs, which come last |
| `Logs.ReplaysConserves` | core/blockchain.go:1951-1987 | a listener that follows the stream ends with the new chain's logs, and as multisets old minus removed plus added is new |
| `Reorg.ForkHeights` | core/blockchain.go:1844-1889 | the old walk lies on the old index and the new walk climbs from the common block to the new head |
| `Reorg.SwitchedIsCanonical` | core/blockchain.go:1914-1949 | writing the new chain without its head and deleting what is above leaves the ancestor index of the block below the new head |
| `Reorg.ReorgIndex` | core/blockchain.go:1829-1949 | the same for any found fork, longer, equal, shorter or an ancestor |
| `Reorg.LookupMoves` | core/blockchain.go:1920-1931 | entering the new chain's transactions and deleting the dropped ones not among them keeps the lookup index exact, if no transaction repeats on the new chain |
| `Reorg.LookupHead` | core/blockchain.go:903-915 | entering the head's transactions completes the lookup index exactly when no transaction repeats along its chain, including dropped ones that reappear in the head |
| `Reorg.ReorgLookup` | core/blockchain.go:1847-1931 | the lookup index after a whole reorganisation maps exactly the new chain's transactions to their heights |
| `Reorg.InsertedHeights` | core/blockchain.go:1914-1949 | which heights the index holds once the new chain is in it |
| `Reorg.ReorgBoth` | core/blockchain.go:1829-1949 | both indexes after a whole reorganisation |
| `Reorg.HeadWasCanonical` | core/blockchain.go:1865-1889 | the new walk is empty exactly when the new head was canonical before |
| `Reorg.DroppedLogs` | core/blockchain.go:1955-1972 | the logs announced as removed are the old chain's above the fork, in chain order |
| `Reorg.DroppedHashes` | core/blockchain.go:1957-1959 | the blocks announced as dropped are the old index entries above the fork, lowest first |
| `Reorg.ForkParts` | core/blockchain.go:1865-1889 | one above the fork the old index and the new chain have different blocks, so it is where they part |
| `Reorg.RebornLogs` | core/blockchain.go:1974-1987 | the logs announced as new are the new chain's between the fork and its head |
| `Reorg.BlockStored` | core/blockchain.go:1307-1320 | storing a further block disturbs neither index, nor lookup index, nor the chain's logs |
| `Reorg.NoRepeatsBefore` | core/blockchain.go:903-915 | a chain that repeats no transaction in the grown store repeated none before |
| `BlockChain.PreparedMoves` | core/blockchain.go:1294-1305 | entering the head on the prepared index moves it there, with everything above the fork sent but its own logs, and every dropped block announced |
| `BlockChain.SwitchStream` | core/blockchain.go:1951-2036 | announcing the head's logs too completes the stream if and only if the head was not canonical or has no logs; every batch but the last of its kind and the head's own holds more than 512 logs |
| `BlockChain.AdoptStream` | core/blockchain.go:1294-1305 | without them it is complete if and only if the head was canonical or has no logs |
| `BlockChain.AnnouncedSince` | core/blockchain.go:1399-1429 | storing the block first does not change what a listener has to be told |
| `BlockChain.TakenHappens` | core/blockchain.go:1296-1429 | an operation that makes its block the head announces, above the highest height on which the two indexes agree, every old block once and lowest first, the old logs as removed and the new ones as added |
| `BlockChain.SkippedHappens` | core/blockchain.go:1399-1429 | an operation that does not announces nothing |
| `BlockChain.MomentFollows` | core/blockchain.go:1951-2036 | a listener that held the chain's logs before an operation that reached it once holds them afterwards |
| `BlockChain.ListenerFollows` | core/blockchain.go:1951-2036 | over any run, a listener that starts with the chain's logs and applies the feeds ends with the final chain's, if every operation's logs reached it once |
| `BlockChain.NoneRepeatedBefore` | core/blockchain.go:1307-1320 | if no stored chain repeats a transaction after an operation, none did before |
| `BlockChain.BlockChain.constructor` | core/genesis.go:443-471 | a chain of its genesis alone, without transactions or logs, is in the steady state with an exact lookup index |
| `BlockChain.BlockChain.WriteHeadBlock` | core/blockchain.go:903-924 | enters the block in both indexes and moves all six markers to it |
| `BlockChain.BlockChain.InsertNewChain` | core/blockchain.go:1914-1924 | writes the new chain lowest block first and without its head, and collects exactly its transactions |
| `BlockChain.BlockChain.DeleteStale` | core/blockchain.go:1926-1949 | deletes the stale lookup entries and every index entry above the number, read before the batch is written |
| `BlockChain.BlockChain.MoveIndexes` | core/blockchain.go:1914-1949 | after a found fork the index is the ancestor chain of the block below the new head and the lookup index is exact for it |
| `BlockChain.BlockChain.EmitReorgEvents` | core/blockchain.go:1951-1987 | sends the hashes of the dropped blocks upward, then the removed and the reborn log batches |
| `BlockChain.BlockChain.AnnounceFork` | core/blockchain.go:1951-1987 | the dropped blocks are the old index entries above the fork, and the batches are the log segments of the old and of the new index above it |
| `BlockChain.BlockChain.ApplyFork` | core/blockchain.go:1914-1989 | the whole effect of a reorganisation once the fork is known: both indexes, both log feeds and the feed of dropped blocks |
| `BlockChain.BlockChain.Reorg` | core/blockchain.go:1829-1989 | an error leaves everything unchanged, success moves both indexes and announces the difference, dropped blocks included, and on a complete store it succeeds |
| `BlockChain.BlockChain.PrepareHead` | core/blockchain.go:1296-1303 | reorganises unless the block extends the head, leaving its parent, or itself if it was canonical, on top of the index |
| `BlockChain.BlockChain.EnterHead` | core/blockchain.go:903-924 | entering a block on the index of its parent, or on its own, gives the steady state; the lookup index is then exact if and only if its chain repeats no transaction |
| `BlockChain.BlockChain.WriteKnownBlock` | core/blockchain.go:1294-1305 | from the steady state to the steady state with the block as head; the lookup index is then exact if and only if its chain repeats no transaction; the logs above the fork on both sides, but the head's, were sent in well-sized batches; an error changes nothing |
| `BlockChain.BlockChain.SwitchHead` | core/blockchain.go:2022-2037 | the same; the old index entries above the fork are announced as dropped, lowest first; the log feeds turn the old chain's logs into the new chain's if and only if the head was not canonical or has no logs; and all batches but the last ones and the head's own hold more than 512 logs |
| `BlockChain.BlockChain.SetCanonical` | core/blockchain.go:2009-2050 | the same, with the failure to recover missing state |
| `BlockChain.BlockChain.EmitHeadLogs` | core/blockchain.go:2032-2036 | announces the head's logs if there are any |
| `BlockChain.BlockChain.WriteBlock` | core/blockchain.go:1307-1320 | stores a block without disturbing the steady state, the lookup index or the chain's logs |
| `BlockChain.BlockChain.WriteBlockAndSetHead` | core/blockchain.go:1399-1429 | stores the block and makes it head exactly if its state was committed, with the indexes and the log stream as above |
| `BlockChain.BlockChain.AdoptKnown` | core/blockchain.go:1294-1305 | the log stream of a known block is complete if and only if it was canonical or has no logs |
| `BlockChain.BlockChain.Apply` | core/blockchain.go:1296-1429 | each operation, acceptable or not, keeps the steady state, returns a record of its moment that is tied to both states and to all three feeds, and says exactly when the lookup index stays right |
| `BlockChain.BlockChain.Run` | core/blockchain.go:1829-2050 | after any run of operations the index is the parent walk of the head; the returned trace links the first state to the last through every operation and accounts for all three feeds; a listener that applies it holds the chain's logs if each operation reached it once, and the lookup index is exact if no stored chain repeats a transaction |
| `BlockChain.AnnouncesTwice` | core/blockchain.go:2022-2037 | making an imported head canonical again announces its logs twice, and a listener no longer holds the chain's logs |
| `BlockChain.AnnouncesNothing` | core/blockchain.go:1516-1535 | after two committed siblings, adopting the first one again announces none of its logs, and a listener misses them |
| `Rewind.Highest` | core/blockchain.go:653-693 | the highest height at or below a bound that has state and is at or below the requested root, or genesis |
| `Rewind.StopsAt` | core/blockchain.go:663-690 | stopping at a block with state below the requested root, or at genesis, is the outcome that the walk determines |
| `Rewind.StopsAtPivot` | core/blockchain.go:663-675 | so is stopping at a block without state at or below the pivot |
| `Rewind.StopsAtGap` | core/blockchain.go:663-675 | so is stopping at a block without state whose parent is missing |
| `Rewind.FoundIsAncestor` | core/blockchain.go:663-675 | on a complete store the walk finds every ancestor of the target |
| `Rewind.Settle` | core/blockchain.go:595-690 | the state of the block that the rewind ends at is present afterwards; the others are untouched if it was present, and else those that its recovery leaves or, for genesis, none in the path-based scheme and all in the hash-based one |
| `Rewind.Rewind` | core/blockchain.go:642-703 | the loop ends, on any store; it dereferences nil if and only if it comes to a block with state above the requested root, not cut off by the pivot, whose parent is missing; otherwise the new head is the highest block of the walk with state at or below the root, or genesis if there is none or the pivot is met first, the root's height is reported exactly if the walk met it, and the head's state is present |
| `Rewind.CompleteNeverPanics` | core/blockchain.go:663-690 | on a complete store that never happens |
| `Rewind.PanicReachable` | core/blockchain.go:678-693 | a store with a gap where it does, for every requested root but the block's own |
| `HeaderChain.NewHeaders` | core/headerchain.go:204-231 | the batch holds what is missing of the chain and the count excludes its known prefix, on any store, with or without gaps |
| `HeaderChain.UnknownStays` | core/headerchain.go:221-230 | in a parent-closed store no descendant of an unknown header is known, so looking up stops after the first unknown one |
| `HeaderChain.RootedMeets` | core/headerchain.go:153-171 | in a parent-closed store the ancestors of any header meet the index |
| `HeaderChain.CrossesIsMeets` | core/headerchain.go:153-171 | walking down parent by parent reaches the index or height zero exactly if some stored ancestor, unbroken from the header, is on it or at height zero |
| `HeaderChain.HeaderChain.constructor` | core/headerchain.go:76-104 | a header chain of its genesis alone is valid |
| `HeaderChain.HeaderChain.Load` | core/headerchain.go:76-104 | a header chain over any validated database, with gaps or a broken index too; it is valid exactly if the index is the head's |
| `HeaderChain.HeaderChain.WriteHeaders` | core/headerchain.go:200-242 | stores the whole chain and counts the new ones, or aborts leaving the database unchanged |
| `HeaderChain.HeaderChain.FillCaches` | core/headerchain.go:204-231 | the write loop puts the batch into the caches before anything is in the database, and both together are what will be stored |
| `HeaderChain.HeaderChain.CanonicalAbove` | core/headerchain.go:145-152 | collects exactly the canonical entries above a height |
| `HeaderChain.HeaderChain.CrossLink` | core/headerchain.go:153-171 | overwrites entries downwards until both chains meet, and fails exactly if they do not |
| `HeaderChain.Extend` | core/headerchain.go:173-184 | entering a linked chain extends a linked index to its last header |
| `HeaderChain.HeaderChain.PlanReorg` | core/headerchain.go:130-184 | the batch is the ancestor index of the last header, and there is one exactly if the chain joins the index |
| `HeaderChain.HeaderChain.Reorg` | core/headerchain.go:130-194 | makes a stored, linked chain canonical if and only if it is empty, extends the head or has an ancestor on the index or at height zero; an error changes nothing |
| `HeaderChain.HeaderChain.InsertHeaderChain` | core/headerchain.go:251-349 | an interrupt changes neither headers nor index nor head; otherwise the headers are stored, and the insert succeeds if and only if the last one was canonical already or the chain joins the index, moving the head in the second case; on a parent-closed store it fails only when interrupted |
| `HeaderChain.GapSeparates` | core/headerchain.go:153-171 | a store with a gap and a header above it whose ancestors do not meet the index |
| `HeaderChain.InsertIntoGap` | core/headerchain.go:251-349 | inserting that header fails and leaves it stored |
| `HeaderChain.HeaderChain.GetAncestor` | core/headerchain.go:356-388 | over what database and caches hold together, after aborted writes too: returns exactly the parent-walk ancestor and its height, fails if and only if it is above the root, the header is missing or the way to the canonical chain is longer than allowed, and uses up exactly that many steps |
| `HeaderChain.HeaderChain.RewindMarkers` | core/headerchain.go:544-576 | on any store: steps the markers down to the header that target and callback determine, collecting exactly the heights passed and those above the old head up to the first empty one |
| `HeaderChain.HeaderChain.StepDown` | core/headerchain.go:544-571 | one step goes to the parent, or to genesis if it is missing, and lowers the target as the callback says |
| `HeaderChain.HeightsAbove` | core/headerchain.go:578-586 | on any store: collects the heights above up to the first empty one |
| `HeaderChain.HeightsOverMeans` | core/headerchain.go:578-586 | a height is collected exactly if every height from the head up to it holds a header |
| `HeaderChain.LowerHeightHeld` | core/headerchain.go:582-584 | below every stored header each height holds a header, so the scan up to the first empty one misses none |
| `HeaderChain.NoneBeyond` | core/headerchain.go:578-586 | in a parent-closed store that is every height above that holds a header |
| `HeaderChain.LandsOnIndex` | core/headerchain.go:544-576 | on an index that starts at genesis the rewind stays on it and passes every height down to where it lands |
| `HeaderChain.KeepsCanonical` | core/headerchain.go:589-609 | with the deletions the index is canonical for the header where the rewind lands, whatever gaps the store has |
| `HeaderChain.CutRewinds` | core/headerchain.go:589-609 | in a parent-closed store exactly the headers up to there are left |
| `HeaderChain.HeaderChain.Prune` | core/headerchain.go:578-613 | deletes headers and index entries of the collected heights and empties the caches |
| `HeaderChain.HeaderChain.SetHead` | core/headerchain.go:519-613 | on any store, with gaps or a broken index too: the head is where target and callback lead, from a missing parent to genesis, and exactly the heights passed and those above the old head up to the first empty one are deleted; a canonical index that starts at genesis stays canonical; on a parent-closed store no header of any fork is left above |
| `HeaderChain.LandsHighest` | core/headerchain.go:544-576 | where the callback lowers nothing, that is the highest ancestor that meets the number or time target |
| `HeaderChain.LoweredBounds` | core/headerchain.go:536-562 | a forced head is one more bound on the number; on a time target it takes over once it is before it |
| `HeaderChain.LandsUnderForced` | core/headerchain.go:544-576 | whatever the callback forces, a rewind to a number ends at the highest canonical height that the number and every head forced above it allow |
| `HeaderChain.InsertKeepsRoot` | core/headerchain.go:200-242 | an insert leaves genesis the only header without parent |
| `HeaderChain.SurvivorsKeepRoot` | core/headerchain.go:589-609 | and so does a rewind |
| `HeaderChain.OrphanStays` | core/headerchain.go:578-586 | a store with a header above an empty height, which a rewind does not collect |
| `HeaderChain.RewindLeavesOrphan` | core/headerchain.go:519-613 | that rewind leaves the header above the new head |
| `HeaderChain.OrphanLands` | core/headerchain.go:544-551 | a rewind from a header whose parent is missing lands on genesis and passes one height |
| `HeaderChain.RewindOverGap` | core/headerchain.go:519-613 | that rewind leaves the header and the index entry below the gap |
| `HeaderChain.HeaderChain.ApplyInsert` | core/headerchain.go:251-349 | an insert of a run, or nothing if its chain may not be inserted, with its outcome exactly as stated above |
| `HeaderChain.HeaderChain.ApplyRewind` | core/headerchain.go:519-613 | a rewind of a run, likewise |
| `HeaderChain.HeaderChain.Apply` | core/headerchain.go:251-613 | one operation of a run and the record of what it did |
| `HeaderChain.HeaderChain.Run` | core/headerchain.go:130-613 | after any run of inserts, interrupted or not, and rewinds, on a store with gaps too, the canonical index is the parent walk of the current header; the returned trace says of every operation whether it succeeded, which headers it stored or deleted and which head it left; a parent-closed store stays so |
| `HashLookup.HashLookup.Get` | core/qrvm.go:77-113 | with its growing cache, the hash that an uncached parent walk from the reference header gives, or zero |
| `HashLookup.HashLookup.GetAll` | core/qrvm.go:77-113 | the same for every query of any sequence |
| `HashLookup.HashLookup.ValidGrows` | core/qrvm.go:88-94 | the cache stays right when headers are stored between queries |
| `ChainIndexer.LinkCarriesOver` | core/chain_indexer.go:420-430 | if a section's head is canonical, so is the head it is linked to |
| `ChainIndexer.LinkedToBlock` | core/chain_indexer.go:398-412 | what a later section is linked to is a block's hash, not zero |
| `ChainIndexer.ChainIndexer.constructor` | core/chain_indexer.go:104-123 | a new indexer has no sections and no checkpoint |
| `ChainIndexer.ChainIndexer.SetValidSections` | core/chain_indexer.go:477-489 | sets the count and removes exactly the heads from there to the old count |
| `ChainIndexer.ChainIndexer.PutSection` | core/chain_indexer.go:353-354 | a stored head is the last one, with the heads below it as before |
| `ChainIndexer.ChainIndexer.Cut` | core/chain_indexer.go:477-489 | dropping sections above the checkpoint keeps the run of linked heads, and the one below a section in process |
| `ChainIndexer.ChainIndexer.LinkedBelow` | core/chain_indexer.go:423-430 | if the last stored head is canonical, so is every one above the checkpoint |
| `ChainIndexer.ChainIndexer.VerifyLastHead` | core/chain_indexer.go:423-430 | drops sections from the end, each because its head is not the canonical one, stops at the first that is, and leaves every section above the checkpoint canonical |
| `ChainIndexer.ChainIndexer.AddCheckpoint` | core/chain_indexer.go:131-144 | at any time and with any head, while a section is in process too: raises checkpoint and count to the given section, and stores its head, exactly if it is above both; the heads stay linked from it on |
| `ChainIndexer.ChainIndexer.Reorged` | core/chain_indexer.go:248-276 | cuts stored and known sections at the reorganisation, never below the checkpoint, and keeps the heads below |
| `ChainIndexer.ChainIndexer.LowerCascade` | core/chain_indexer.go:266-274 | lowers the cascaded head to the end of the known sections |
| `ChainIndexer.ChainIndexer.Advanced` | core/chain_indexer.go:277-300 | sections become known exactly once confirmed, and past the checkpoint only if its head is canonical |
| `ChainIndexer.ChainIndexer.BeginUpdate` | core/chain_indexer.go:315-337 | fixes the section after the verified ones and the head before it, exactly if there are known sections to process; drops only sections that are not canonical and keeps all heads below |
| `ChainIndexer.ChainIndexer.ResetBackend` | core/chain_indexer.go:392-396 | a failing reset at the start of processing empties the index at once |
| `ChainIndexer.ChainIndexer.ProcessSection` | core/chain_indexer.go:398-418 | succeeds exactly if every read continues the walk, and then the new head is that of the last read and parent-linked to the last one, however the index changed between reads |
| `ChainIndexer.ChainIndexer.StoreSection` | core/chain_indexer.go:351-363 | storing a head above a linked run leaves a linked run that ends with it |
| `ChainIndexer.ChainIndexer.Conclude` | core/chain_indexer.go:351-379 | stores the walk's head exactly if the section before it is still the same; otherwise it drops only sections that are not canonical and keeps all heads below |
| `ChainIndexer.ChainIndexer.FinishUpdate` | core/chain_indexer.go:349-381 | if and only if the reset and the walk succeeded and the section before it was not rolled back or replaced, the section is the last stored one with the hash of its last block, and every head below is as before; otherwise only sections at the end that are not canonical are dropped; the count falls below the checkpoint exactly if the section completes below it |
| `ChainIndexer.ChainIndexer.Sections` | core/chain_indexer.go:435-441 | reports a count all of whose sections above the checkpoint are canonical, having dropped no canonical one, with the last block of the last section and its head |
| `ChainIndexer.ChainIndexer.ApplyHead` | core/chain_indexer.go:244-300 | a head event of a run: what it cuts off or makes known, and nothing else |
| `ChainIndexer.ChainIndexer.ApplyBegin` | core/chain_indexer.go:315-337 | the start of an update in a run |
| `ChainIndexer.ChainIndexer.ApplyFinish` | core/chain_indexer.go:349-381 | and its end |
| `ChainIndexer.ChainIndexer.Apply` | core/chain_indexer.go:131-441 | one event of a run and the record of what it did to stored and known sections, heads, cascaded head and checkpoint |
| `ChainIndexer.CanonicalStays` | core/chain_indexer.go:244-441 | in any run a stored section that is canonical is lost only to a reorganisation below its end, to a failing reset, or to a section at or below it that completes |
| `ChainIndexer.CompleteSections` | core/chain_indexer.go:248-262 | the sections left by a reorganisation are those that end at or below its head |
| `ChainIndexer.KnownIsConfirmed` | core/chain_indexer.go:277-300 | when a head makes sections known, they are exactly those whose last block has the required confirmations |
| `ChainIndexer.QuietRead` | core/chain_indexer.go:398-412 | on an index that does not change every read continues the walk |
| `ChainIndexer.UpdateProgresses` | core/chain_indexer.go:305-381 | an update with a known section left, canonical sections before it and no change or failure meanwhile stores that section with its canonical head, and asks for another exactly if more are known |
| `ChainIndexer.ChainIndexer.Run` | core/chain_indexer.go:244-441 | any interleaving of head events, update steps, failing resets, queries and checkpoints over any canonical indexes keeps the stored heads linked down to the last checkpoint or the first section; the returned trace says what each event did |
| `ChainIndexer.CheckpointLost` | core/chain_indexer.go:131-363 | a run in which a checkpoint is cut off by a section that was in process when it was added |
| `Feed.Delete` | event/feed.go:212-215 | removes a case by shifting in the shared array |
| `Feed.RemovedPrefix` | event/feed.go:160-167 | the active prefix of that array loses the case only if it was in it |
| `Feed.Deactivate` | event/feed.go:217-222 | swaps a case behind the active prefix of the shared array |
| `Feed.Append` | event/feed.go:130-132 | appends cases in place if the array has room, else in a new one |
| `Feed.IndexOf` | event/feed.go:202-210 | the first position of a channel, or -1 exactly if it is absent |
| `Feed.LeavingIsListed` | event/feed.go:111-113 | the channel of a queued removal is among the send cases, so the search before a delete never fails |
| `Feed.MergeInbox` | event/feed.go:130-134 | the merged list holds all subscriptions and all of them wait |
| `Feed.SwapNum` | event/feed.go:217-222 | the swap moves one occurrence of the case out of the prefix and keeps the list |
| `Feed.Serve` | event/feed.go:149-155 | swapping a case out moves it from waiting to delivered and counts it |
| `Feed.SwapRegistered` | event/feed.go:217-222 | the swap keeps the send cases as a multiset |
| `Feed.RemoveEither` | event/feed.go:160-167 | a removal during a send withdraws the case exactly if it still waits |
| `Feed.AllServed` | event/feed.go:156-158 | with no case waiting, delivered and withdrawn make up the targets |
| `Feed.ServedOnce` | event/feed.go:118-180 | after a send each channel that was not withdrawn got one value for each of its cases |
| `Feed.SendGoesOn` | event/feed.go:128-180 | from its start until its end a send is in progress and its targets are the subscriptions of its start |
| `Feed.SendReachesAll` | event/feed.go:118-180 | over any run, when a send ends each subscription in force or on its way out at its start got the value exactly once or was withdrawn during it, and the count returned is the number delivered |
| `Feed.Feed.constructor` | event/feed.go:60-66 | a new feed has no subscriptions |
| `Feed.Feed.Subscribe` | event/feed.go:86-92 | enters the inbox |
| `Feed.Feed.Unsubscribe` | event/feed.go:95-108 | leaves by the inbox, or queues for removal from the send cases |
| `Feed.Feed.RemoveCase` | event/feed.go:162-163 | finds the first case of the channel, never the feed's own one, and deletes it from the shared array |
| `Feed.Feed.RemoveIdle` | event/feed.go:111-114 | with no send in progress the unsubscriber removes its own case |
| `Feed.Feed.StartSend` | event/feed.go:128-144 | takes in the inbox, in the same array or a new one, and starts with every subscription waiting |
| `Feed.Feed.TrySend` | event/feed.go:149-155 | serves a case that has room, once, or passes on |
| `Feed.Feed.ServeCase` | event/feed.go:150-153 | the swap in the shared array keeps the prefix of waiting cases and the delivered ones a partition of the targets |
| `Feed.Feed.EndScan` | event/feed.go:156-179 | the send ends exactly when no case waits, and then delivered and withdrawn make up its targets and the count is the number delivered |
| `Feed.Feed.SelectSend` | event/feed.go:168-171 | the blocking select serves the chosen case |
| `Feed.Feed.SelectRemove` | event/feed.go:161-167 | the blocking select takes a removal, shrinking the prefix exactly if the case still waited |
| `Feed.Feed.Withdraw` | event/feed.go:161-167 | deleting from the shared array withdraws the case from the prefix exactly if it still waited |
| `Feed.Feed.Apply` | event/feed.go:73-180 | every step, possible or not, does what its event says, and a send that it ends returns its count |
| `Feed.Feed.Run` | event/feed.go:73-180 | any interleaving, over one array that the list and its prefix share, keeps inbox and send cases equal to the live and leaving subscriptions and the prefix equal to what is not yet sent; the trace links its steps from the first state to the last, and the counts returned are those of the sends that ended |
| `Dial.Redial` | p2p/dial.go:436-440 | a node missing from the history was dialed longer ago than the expiration time, and dialing it keeps that true |
| `Dial.MayDial` | p2p/dial.go:371-394 | a node may be dialed exactly if it is not ourselves, not being dialed, not connected, not in the history, has a port if it has an address, and is in the allowed network if there is one |
| `Dial.StartTakesOne` | p2p/dial.go:396-405 | starting a node that may be dialed makes that one, and no other, no longer one that may be |
| `Dial.ReadyShrinks` | p2p/dial.go:396-405 | static dials one after another start that many different nodes, all of which could be dialed at first |
| `Dial.LaunchCount` | p2p/dial.go:231-238 | each round starts as many static nodes as may be dialed or as there are slots, whichever is less, and all of them if there are slots |
| `Dial.LaunchFills` | p2p/dial.go:364-405 | after that no static node may be dialed, or the running dials have reached the maximum or twice the number of missing dialed peers |
| `Dial.AddedIsDialed` | p2p/dial.go:231-287 | an added static node that may be dialed is being dialed in the next round, if there are slots for all |
| `Dial.RoundPeers` | p2p/dial.go:256-274 | a round changes the peers and their count just as its event says |
| `Dial.DialScheduler.constructor` | p2p/dial.go:161-183 | a new scheduler is valid and knows no peers |
| `Dial.DialScheduler.AddToStaticPool` | p2p/dial.go:415-421 | appends the dial task and keeps all back references exact |
| `Dial.DialScheduler.RemoveFromStaticPool` | p2p/dial.go:423-433 | the swap-remove keeps all back references exact and clears that of the removed task |
| `Dial.DialScheduler.UpdateStaticPool` | p2p/dial.go:407-413 | afterwards every static task is in the pool if and only if it may be dialed |
| `Dial.DialScheduler.PoolIsReady` | p2p/dial.go:407-413 | the pool holds exactly the static nodes that may be dialed |
| `Dial.DialScheduler.StartDial` | p2p/dial.go:435-445 | the node is being dialed and remembered; no node was dialed twice within the expiration time |
| `Dial.DialScheduler.StartFromPool` | p2p/dial.go:399-402 | starts the picked task and takes it out of the pool |
| `Dial.DialScheduler.StartStaticDials` | p2p/dial.go:396-405 | starts up to the free slots, only static nodes and each at its own endpoint, and fewer only when the pool is empty |
| `Dial.DialScheduler.Launch` | p2p/dial.go:231-238 | starts static nodes that may be dialed, one after another, up to the slots and fewer only if none is left; candidates are accepted exactly if slots are left, and then the static pool is empty |
| `Dial.DialScheduler.HandleCandidate` | p2p/dial.go:243-248 | a dynamic dial to that node starts, and is remembered, exactly if it may be dialed; no static task has to leave the pool for it because the pool is empty |
| `Dial.DialScheduler.HandleDone` | p2p/dial.go:250-254 | the node is no longer dialed and its static task is back in the pool if it may be dialed |
| `Dial.DialScheduler.HandlePeerAdded` | p2p/dial.go:256-266 | the peer is counted and its static task leaves the pool |
| `Dial.DialScheduler.HandlePeerRemoved` | p2p/dial.go:269-274 | the peer is uncounted and its static task returns to the pool if it may be dialed |
| `Dial.DialScheduler.HandleAddStatic` | p2p/dial.go:276-287 | files a new static task, in the pool exactly if it may be dialed, or keeps the old one |
| `Dial.DialScheduler.HandleRemoveStatic` | p2p/dial.go:289-298 | deletes exactly that static task, from the pool too |
| `Dial.DialScheduler.Forget` | p2p/dial.go:354-360 | one expired node leaves the history and its static task returns to the pool if it may be dialed |
| `Dial.DialScheduler.HandleHistoryTimer` | p2p/dial.go:300-301 | exactly the nodes whose time is over leave the history |
| `Dial.DialScheduler.HandleResolved` | p2p/dial.go:492-517 | a running task may change its own endpoint without touching the pool |
| `Dial.DialScheduler.HandleRequest` | p2p/dial.go:256-298 | the server's four requests do exactly what they say to peers and static nodes and start nothing |
| `Dial.DialScheduler.Handle` | p2p/dial.go:242-301 | every event keeps the scheduler valid and changes dials, peers, static nodes and history exactly as stated for it |
| `Dial.DialScheduler.Iterate` | p2p/dial.go:230-306 | one round of the loop: the static dials it starts, by count and node, and then the effect of its event, which is ignored exactly if the loop could not take it |
| `Dial.DialScheduler.Run` | p2p/dial.go:224-307 | over every run: a static task is in the pool if and only if it may be dialed, back references are exact, one task runs per node, at most the configured number run, and no node is dialed twice within 35 seconds; the returned trace links the first state to the last and says of each round which dials it started and what its event did |
| `Server.LimitsShare` | p2p/server.go:614-631 | dialed and inbound limits add up to the maximum, and dialing has a slot unless it is off |
| `Server.DialShare` | p2p/server.go:618-631 | one peer in as many as the ratio says, three by default, may be dialed, but at least one |
| `Server.InStepAdded` | p2p/server.go:765-767 | a notification of a new peer keeps the scheduler in step once handled |
| `Server.InStepRemoved` | p2p/server.go:781-783 | and so does one of a peer that left |
| `Server.AdmitTrusted` | p2p/server.go:761-775 | admitting a trusted peer keeps the counter exact and the untrusted ones within the limits |
| `Server.AdmitUntrusted` | p2p/server.go:814-827 | admitting an untrusted peer below the limits keeps it within them |
| `Server.Drop` | p2p/server.go:778-787 | dropping a peer keeps them too |
| `Server.SharedIsUseful` | p2p/server.go:829-837 | a connection is useless exactly if we have protocols and share none of its capabilities |
| `Server.Server.constructor` | p2p/server.go:592-612 | an empty server with the given limits, protocols and identity is valid and its scheduler has the dialed limit |
| `Server.Server.AddTrustedNode` | p2p/server.go:725-732 | adds the node and marks its connection |
| `Server.Server.RemoveTrustedNode` | p2p/server.go:734-741 | removes the node and unmarks its connection |
| `Server.Server.ChecksAnswer` | p2p/server.go:814-827 | the checks answer too many peers exactly for an untrusted connection over a limit, then already connected, then self, and pass exactly otherwise |
| `Server.Server.HandlePostHandshake` | p2p/server.go:748-756 | marks a trusted node's connection before the checks, so it is never one too many |
| `Server.Server.AddPeerChecks` | p2p/server.go:829-837 | a peer without a shared capability is useless; otherwise the checks are repeated |
| `Server.Server.Admit` | p2p/server.go:762-775 | enters the peer, counts it if inbound and notifies the scheduler |
| `Server.Server.HandleAddPeer` | p2p/server.go:758-776 | admits exactly a connection that passes; an untrusted one leaves peers and inbound peers within their limits |
| `Server.Server.HandleDelPeer` | p2p/server.go:778-787 | removes the peer, uncounts it if inbound and notifies the scheduler |
| `Server.Server.HandleNotify` | p2p/dial.go:256-274 | the scheduler does one whole round for the oldest notification; with the last one handled its peers and dialed count are the server's |
| `Server.Server.HandleDialing` | p2p/dial.go:224-307 | the scheduler does one whole round for its own event, which does not put it out of step |
| `Server.Server.TakeOwn` | p2p/server.go:725-787 | one case of the server's own: what it answers and what it does to peers, counter, trusted nodes, flags and notifications |
| `Server.Server.Take` | p2p/server.go:700-789 | one step of either loop and the record of what it answered and did |
| `Server.Server.Run` | p2p/server.go:700-789 | over every run the inbound counter is exact, peers admitted as untrusted stay within both limits, and the scheduler matches the peers once no notification is on its way; the returned trace says of every step what it answered, whom it admitted or dropped and what the scheduler's round started |
| `Capabilities.CompareOrders` | p2p/protocol.go:92 | name comparison is antisymmetric and zero only for equal names |
| `Capabilities.CompareTransitive` | p2p/protocol.go:92 | and transitive |
| `Capabilities.CompareIsAlphabetical` | p2p/protocol.go:92 | a name comes first exactly if it has the lower byte where they first differ, or ends there |
| `Capabilities.CmpOrders` | p2p/protocol.go:82-93 | capability comparison is antisymmetric and zero only for equal capabilities |
| `Capabilities.CmpTransitive` | p2p/protocol.go:82-93 | and transitive, so it is a total order |
| `Capabilities.CmpIsAlphabetical` | p2p/protocol.go:82-93 | capabilities are ordered by name, alphabetically, and then by version |
| `Capabilities.SortedUnique` | p2p/peer.go:387 | there is only one sorted order of a list, whatever the sorting algorithm |
| `Capabilities.SortCaps` | p2p/peer.go:387 | a sorted permutation of the list |
| `Capabilities.InsertSorts` | p2p/peer.go:387 | inserting keeps the list sorted and adds just the one capability |
| `Capabilities.FindProtocol` | p2p/peer.go:393-394 | the first of our protocols with the capability |
| `Capabilities.Find` | p2p/peer.go:393-394 | found exactly if one of our protocols has the capability |
| `Capabilities.FindIsFirst` | p2p/peer.go:392-396 | of several protocols with the same capability the first is taken |
| `Capabilities.NameIsLast` | p2p/peer.go:395-398 | in sorted order a name seen before has the last range |
| `Capabilities.Rematch` | p2p/peer.go:395-401 | a newer version takes over the range of the old one and the ranges still tile |
| `Capabilities.FirstMatch` | p2p/peer.go:399-401 | a new name gets the next range |
| `Capabilities.MatchProtocols` | p2p/peer.go:386-408 | whatever the order of both lists: one range for each shared name, in alphabetical order of the names, for its highest shared version, tiling the codes from 16 on |
| `Capabilities.LayoutUnique` | p2p/peer.go:386-408 | the shared capabilities and the lengths of the winning versions determine the layout |
| `Capabilities.SharedSymmetric` | p2p/peer.go:386-408 | both sides see the same shared capabilities |
| `Capabilities.PeersAgree` | p2p/peer.go:386-408 | two peers run the same table exactly when they agree on the lengths of the winning versions |
| `Capabilities.TableUnique` | p2p/peer.go:386-408 | the order of the capabilities does not change the result |
| `Capabilities.TilesAscend` | p2p/peer.go:400-401 | ranges do not overlap |
| `Capabilities.TilesCover` | p2p/peer.go:437-444 | a code is in some range exactly if it lies between the base protocol and the end |
| `Capabilities.CoverUnique` | p2p/peer.go:437-444 | at most one running protocol covers a code |
| `Capabilities.GetProto` | p2p/peer.go:437-444 | found exactly for codes in range, and always the same protocol in any order of the map |
| `Capabilities.Exchange` | p2p/peer.go:456-487 | a code that one peer's protocol writes goes out as its offset plus the code, which is no base protocol code, reaches the same protocol of the other peer and is read back unchanged |
| `Capabilities.CountMatching` | p2p/peer.go:373-383 | zero exactly if no capability is shared |
| `Gas.GasPool.constructor` | core/gaspool.go:24-26 | a new pool is empty |
| `Gas.GasPool.AddGas` | core/gaspool.go:28-35 | adds the amount, or panics and changes nothing exactly if the sum overflows |
| `Gas.GasPool.SubGas` | core/gaspool.go:37-45 | takes the amount exactly if it is there |
| `Gas.GasPool.SetGas` | core/gaspool.go:52-55 | sets the amount |
| `Gas.GuardExact` | core/state_transition.go:85-90 | the guard before each addition holds exactly if the sum overflows |
| `Gas.ToWordSize` | core/state_transition.go:113-120 | the words needed, without overflow |
| `Gas.IntrinsicGas` | core/state_transition.go:66-111 | the defined price in 64 bits, with an error exactly when base and data overflow |
| `Gas.IntrinsicExact` | core/state_transition.go:66-111 | the result is the exact price if and only if the sum with the access list fits in 64 bits, and never above it |
| `Gas.StartPrice` | core/state_transition.go:66-105 | a message costs 21000, a creation 53000 and 2 for each begun word of 32 bytes |
| `Gas.BytePrice` | core/state_transition.go:76-97 | each byte of data costs 16, a zero byte 4 |
| `Gas.EntryPrice` | core/state_transition.go:106-109 | each address of the access list costs 2400 and each of its keys 1900 |
| `Ledger.SupplyWithout` | core/state_transition.go:243 | the total of balances does not depend on the order of adding |
| `Ledger.CreditSupply` | core/state_transition.go:243 | changing one balance changes the total by as much |
| `StateTransition.GasAccounts` | core/state_transition.go:394-411 | an accepted message takes from the pool exactly what it used, at most its limit and, for intrinsic gas g, at least g less a fifth |
| `StateTransition.RefundFloor` | core/state_transition.go:394-397 | the refund cap leaves more to pay the more was used |
| `StateTransition.RefundExact` | core/state_transition.go:394-397 | the refund is the counter or a fifth of the gas used, whichever is less |
| `StateTransition.RejectedEffect` | core/state_transition.go:307-355 | a rejected message has done nothing, or has bought its gas and no more |
| `StateTransition.PriceSplits` | core/state_transition.go:156-159 | the effective price is base fee plus effective tip and never above the fee cap |
| `StateTransition.MessageCarries` | core/state_transition.go:143-165 | a message carries what its transaction says, at the most that it pays within both caps |
| `StateTransition.AcceptsExactly` | core/state_transition.go:225-355 | a message is accepted exactly if none of the fourteen reasons against it holds, each stated on the message and the world it meets, and otherwise the first of them in order is reported |
| `StateTransition.StartsPrepaid` | core/state_transition.go:225-378 | the machine starts with the whole gas limit paid at the price, a caller's nonce one higher, and nothing else changed |
| `StateTransition.SettlesOut` | core/state_transition.go:379-406 | afterwards the sender has the unused gas back at its price, the coinbase the tips of the gas used, and nothing else changes |
| `StateTransition.RunsOnce` | core/state_transition.go:307-406 | an accepted message runs the machine once, from the prepaid world with the limit less the intrinsic gas; its result, the exact refund and both payments make up the outcome |
| `StateTransition.NetFee` | core/state_transition.go:373-406 | buying gas, giving some back and paying tips burns the base fee of the gas used |
| `StateTransition.SupplyChanges` | core/state_transition.go:307-406 | an accepted transaction changes the supply by the machine's own change minus gas used times base fee |
| `StateTransition.BoughtCovers` | core/state_transition.go:225-244 | after buying gas the sender can still pay the value and is not overdrawn |
| `StateTransition.TransferFunded` | core/state_transition.go:347-350 | no transaction is rejected for insufficient funds for transfer |
| `StateTransition.StaysSolvent` | core/state_transition.go:225-406 | no account is overdrawn, whether the transaction is accepted or not |
| `StateTransition.NonceSpent` | core/state_transition.go:250-262 | an accepted transaction had its sender's nonce and leaves it behind |
| `StateTransition.NoReplay` | core/state_transition.go:256-258 | a transaction that was accepted is then rejected as too low |
| `StateTransition.TransferConserves` | core/qrvm.go:121-125 | a transfer keeps the supply and overdraws no one who could pay |
| `StateTransition.TransfersAreLawful` | core/qrvm.go:115-125 | the machine that only transfers meets every assumption on machines and changes no supply |
| `StateTransition.StateTransition.BuyGas` | core/state_transition.go:225-245 | checks balance, then pool; buys on success and changes nothing on an error |
| `StateTransition.StateTransition.CheckAccount` | core/state_transition.go:250-269 | passes exactly for the right nonce below the maximum and a sender without code, or if checks are skipped |
| `StateTransition.StateTransition.PreCheck` | core/state_transition.go:247-295 | account checks, fee checks and purchase in order, changing nothing on an error |
| `StateTransition.StateTransition.PreRun` | core/state_transition.go:337-355 | intrinsic gas, transfer and init code checks in order |
| `StateTransition.StateTransition.RefundGas` | core/state_transition.go:394-406 | gives back the remaining gas and the refund, which is the counter or a fifth of the gas used, to sender and pool, which never panics |
| `StateTransition.StateTransition.TransitionDb` | core/state_transition.go:307-392 | result, world and pool are those of the specified transition, errors included, whose acceptance, refund and payments are stated on their own above |
| `StateProcessor.StepFits` | core/state_processor.go:95-120 | each receipt names its transaction and index and, for a creation, the contract by sender and nonce; its gas and failure are what the machine's run and the exact refund give; cumulative gas is the sum so far, and pool plus used gas is constant |
| `StateProcessor.StepLeads` | core/state_processor.go:95-120 | a transaction of a block is paid for on the world before it and in its own context, run once, paid out and cleaned up, and that is the world after it |
| `StateProcessor.StepAccepts` | core/state_transition.go:225-355 | a transaction of a block is turned away exactly for want of a sender or for the first of the reasons against its message |
| `StateProcessor.BlockAccounts` | core/state_processor.go:58-120 | in every block that runs pool plus used gas is the limit, cumulative gas is the prefix sum and each receipt fits its transaction |
| `StateProcessor.BlockReportsRuns` | core/state_processor.go:58-120 | in every block that runs each receipt reports the machine's run of its transaction on the state that those before it leave |
| `StateProcessor.StepBurns` | core/state_transition.go:307-406 | one transaction's change of the supply |
| `StateProcessor.BlockBurns` | core/state_processor.go:58-93 | a block changes the supply by the machine's own changes minus its gas times base fee, and overdraws no account |
| `StateProcessor.NonceFloor` | core/state_processor.go:74-87 | after a block each of its transactions is behind its sender's nonce |
| `StateProcessor.NoncesAscend` | core/state_processor.go:74-87 | in a block that runs one sender's transactions have ascending nonces, so none occurs twice |
| `StateProcessor.ApplyTransaction` | core/state_processor.go:95-148 | an applied transaction is one step of the specified block; an error leaves the gas counter alone |
| `StateProcessor.ProcessNext` | core/state_processor.go:74-87 | the next transaction of a block that ran so far |
| `StateProcessor.Process` | core/state_processor.go:58-93 | receipts, gas and world are those of the transactions in order, up to the first error, and gas stays within the limit |
| `Ordering.MinerFeeIsMost` | miner/ordering.go:39-53 | a transaction is taken exactly if its fee cap covers the base fee, with the most that it can pay on top within both caps |
| `Ordering.TopIsBest` | miner/ordering.go:121-127 | no entry of a heap comes before its top |
| `Ordering.SwapKeeps` | miner/ordering.go:68 | a swap keeps the entries and one head per account |
| `Ordering.SinkStep` | miner/ordering.go:59-68 | moving an entry below its best child leaves only the edges below it open |
| `Ordering.Down` | miner/ordering.go:59-68 | moves an entry down until all edges at and below its start are right, keeping the entries |
| `Ordering.Init` | miner/ordering.go:110 | makes a heap of any list, keeping the entries |
| `Ordering.FixTop` | miner/ordering.go:135 | restores the heap after its top changed |
| `Ordering.PopTop` | miner/ordering.go:139-147 | removes exactly the top |
| `Ordering.Heads` | miner/ordering.go:98-109 | the first transaction of every account that can pay the base fee, and of no other |
| `Ordering.FirstItems` | miner/ordering.go:98-109 | the heads at the start are those of all accounts that can pay |
| `Ordering.OthersNext` | miner/ordering.go:130-147 | dealing with one account leaves the others' heads next in their lists |
| `Ordering.PendingShrinks` | miner/ordering.go:130-147 | what may still be offered becomes strictly less |
| `Ordering.PopKeeps` | miner/ordering.go:145-147 | dropping the top keeps heads, order and progress |
| `Ordering.ShiftKeeps` | miner/ordering.go:130-137 | so does moving on to the account's next transaction |
| `Ordering.Leaves` | miner/ordering.go:129-147 | what is on offer stays so until it is dealt with |
| `Ordering.AllTried` | miner/ordering.go:98-147 | once nothing is on offer, every account that could pay for its first transaction has been tried |
| `Ordering.OfferNext` | miner/ordering.go:121-147 | what is on offer after one more, and when the offers are still best first |
| `Ordering.TransactionsByPriceAndNonce.constructor` | miner/ordering.go:98-119 | the set starts with the first transaction of each account that can pay |
| `Ordering.TransactionsByPriceAndNonce.Peek` | miner/ordering.go:121-127 | a head with the highest tip, earliest seen among equals |
| `Ordering.TransactionsByPriceAndNonce.Shift` | miner/ordering.go:129-140 | replaces the top by its account's next transaction if that can pay, drops it otherwise; remaining work shrinks |
| `Ordering.TransactionsByPriceAndNonce.Replace` | miner/ordering.go:133-136 | the replaced head is in its place in the heap |
| `Ordering.TransactionsByPriceAndNonce.Pop` | miner/ordering.go:144-147 | drops the top and the rest of its account; remaining work shrinks |
| `Ordering.TransactionsByPriceAndNonce.Deal` | miner/ordering.go:121-147 | one offer: a best head, which is the next of its account, is moved past or dropped with its account |
| `Ordering.TransactionsByPriceAndNonce.Run` | miner/ordering.go:121-147 | over any run each offered transaction was a best one of those on offer at that moment; each account's transactions are offered in list order from the first, each at most once; and no account that can pay is forgotten |
| `Worker.StepIgnoresContext` | miner/worker.go:251-252 | a step depends on the world only up to the transaction context |
| `Worker.PassNext` | miner/worker.go:215-271 | one more best transaction, answered as it fared, continues a pass |
| `Worker.RunnableRuns` | miner/worker.go:215-271 | running exactly the transactions that a pass found runnable leads to the state it reached |
| `Worker.Environment.constructor` | miner/worker.go:168-182 | an empty environment on the parent's state |
| `Worker.Environment.ApplyOne` | miner/worker.go:195-207 | a failed transaction leaves state and pool as before; a good one is one step of the block |
| `Worker.Environment.CommitTransaction` | miner/worker.go:184-193 | adds the transaction exactly if it runs; processing the list so far still gives this environment |
| `Worker.Environment.EnsurePool` | miner/worker.go:210-213 | the pool starts with the block's gas limit |
| `Worker.Environment.Try` | miner/worker.go:227-270 | packs the transaction exactly if it fits, is still there and runs, and says whether its account may go on |
| `Worker.Environment.TryNext` | miner/worker.go:227-270 | packs the best transaction exactly if it fits, is still there and runs; moves on in the account then or if the nonce is too low, drops the account otherwise; remaining work shrinks |
| `Worker.Environment.PackNext` | miner/worker.go:215-271 | the pass so far with one more transaction dealt with: always a best one, packed exactly if it runs on the state reached |
| `Worker.Environment.CommitTransactions` | miner/worker.go:209-274 | exactly the offered transactions that run are packed, in the order offered, best first; the pass is interrupted exactly by the first read of the signal that finds it set, and otherwise ends only without gas for a transfer or with nothing left on offer; processing still gives this environment |
| `Worker.SplitLocals` | miner/worker.go:293-300 | partitions the pending lists into local and remote accounts |
| `Worker.Environment.FillFrom` | miner/worker.go:301-312 | a whole pass over some lists, starting with the first transaction of every account that can pay, and interrupted exactly by the signal; without lists there is none |
| `Worker.Environment.FillTransactions` | miner/worker.go:279-315 | the new transactions are those that run of a pass over the local accounts' lists and then, unless the signal interrupted it, those of a pass over the others'; the fill is interrupted exactly if a read found the signal set, and otherwise both passes ended by themselves; processing gives this environment, and pool plus used gas is the limit |
| `Worker.TotalFees` | miner/worker.go:318-325 | the sum of gas used times effective tip |
| `Worker.FeeEarned` | core/state_transition.go:375-385 | the balance that the coinbase gains once the sender has its unused gas back is the gas used at the effective tip, never negative, and no other balance moves |
| `Worker.FeesReported` | miner/worker.go:318-325 | the reported total is the sum of those gains of the coinbase over the block |
| `Worker.Build` | miner/worker.go:209-315 | a block built on a parent's state holds exactly what both passes found runnable until the signal |
| `Worker.BuildThenProcess` | miner/worker.go:184-315 | whatever is pending, the packed transactions are those of such a fill, and processing them on the parent's state has no error and gives the same receipts, gas used and final state |

## Left out

- Ancient store and freezer, snapshot tree, trie garbage collection, snap sync, transaction unindexing and repair mode: the block-level claims assume the steady state that these suspend.
- QRVM execution, state trie, hashing, signatures and RLP: abstract functions or fields with the contracts named above.
- The consensus engine's finalisation of a block, withdrawals and header validation: processing ends before them on both sides.
- Receipt logs, bloom filters and block hashes: the builder's receipts carry a block hash that is not final yet, so they differ there by design.
- Metrics, logging, tracing, throttling, timers and shutdown.
- The typed variant of the feed in `event/feedof.go`: the same algorithm.
- Eviction from the header and number caches: the caches of the model only grow, which allows more stale entries, not fewer.
- Child indexers: one indexer is modelled, with its cascaded head as a number.
- Listening, handshakes, discovery and the wire transport: connections reach the server's checkpoints in any order.
- The configuration where no base fee is set, and messages without a fee cap: block headers always carry a base fee.
- Adding, removing and sifting up in the heap: the transaction set never does them.
- BlockChain.BlockChain.Run: the removed flag on log entries is not modelled; the feed that carries an entry says the same.
- HeaderChain.HeaderChain.SetHead: what the update callback answers is a parameter and the deletion of block bodies is left out; the rewind of the block head is modelled on its own in `Rewind`.
- Rewind.Rewind: which other states the recovery of a state leaves present is a parameter.
- Feed.Feed.Run: the values sent and the panics on channels of a wrong type are not modelled; the inbox, which nothing aliases, is a sequence.
- Dial.DialScheduler.HandleRemoveStatic: takes the dial task out of the pool before it deletes it, where the source does so after; nothing reads the state in between.
- Capabilities.MatchProtocols: sorts a sequence instead of the connection's list in place, and lets offsets exceed 64 bits.
- StateTransition.StateTransition.TransitionDb: preparing access lists is part of the abstract machine.
- StateProcessor.Process: on an error the state left behind is not described, because the block is discarded.
- Worker.Environment.FillTransactions: the pool's lists are not empty, as its pending set guarantees; the final state agrees up to the context of the last transaction tried.
