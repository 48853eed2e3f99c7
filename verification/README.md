# Verified model of the Indexer for Explorer

The indexer follows a NEAR node, block by block, and fills a relational database. This project
models the parts of it whose correctness is not visible in any single function, and proves
properties of them for all inputs, runs and schedules.

- **Receipt provenance** (`Ancestry`, `Tables`, `ReceiptsCache`, `ParentLookup`, `ChunkReceipts`,
  `Transactions`, `Provenance`, `Progress`, `CacheLifetime`). Every receipt is stored with the transaction at
  the root of its ancestry. Transactions, receipts and execution outcomes share one bounded cache
  under a lock; on a miss a retry loop asks three tables. `Ancestry` defines the root independently
  of the indexer; `Provenance` is the protocol as a step system, one step per stay under the lock,
  per insert and per query; `Progress` says that strict mode, block after block, ends
  every lookup and skips no action receipt.
- **Accounts and access keys** (`GuardedRows`, `Accounts`, `AccessKeys`). A block is folded into
  maps, which concurrent futures write by height-guarded statements. The meaning to refine is the
  action-by-action fold of the chain.
- **Lockups and circulating supply** (`Lockup`, `CirculatingSupply`, `DailyScheduler`). The
  fixed-width arithmetic of the lockup contract, the conservation law, and the daily scheduler.
- **Event rows** (`EventRows`, `EventStore`, `Retry`). Nested token events are flattened, numbered
  and stored in chunks of 500 that must survive crashes, lost replies and reruns.

`Types` holds the shared values and the sequence lemmas.

How the source is rendered:

- A loop or an object updated in place is a method or a class here, proved against a function on
  values; the theorems are lemmas about these functions. Sequences are consumed from the front by
  the loops, so the functions recurse on the last element.
- The cache's eviction policy is any function from the number of an insertion to the keys it drops,
  so the theorems hold for every capacity and policy.
- A stored transaction hash is the hash with an optional `_issue84_<height>` suffix. Roots are
  compared without the suffix, and must be: on a replay the first pass caches the bare hash and
  the early return leaves it there (`Transactions.ReplayCachesBareHash`).
- The database answers a data receipt under its `ReceiptId` (src/db_adapters/receipts.rs:307), but
  its row is built from its `DataId` (src/db_adapters/receipts.rs:81-85). So a data receipt is
  stored exactly when its data id was cached at lookup; the model keeps this and states it.
- The first receipt id of a transaction's outcome, which the source expects to exist, is a field of
  the transaction.
- Receipts are assumed to be produced or converted once, and data ids to be named first by one
  receipt and handed down only from parent to child. That all namers share a root is proved.
- Strict lookup and the daily scheduler have no bound in the source; they are followed for any finite
  sequence of passes or attempts.
- The accounts of a block are spread over shards without overlap, so a block is one list of outcomes
  per account.
- Arithmetic out of range is an explicit fault. Clocks, the network, the node's answers and failures
  of the database are parameters.

Where the code and its own comments differ, the code is followed:

- The daily computation is said to run at 00:10 UTC; only whole seconds are cut off, so the code gives
  00:10:00.293769340 (src/aggregated/circulating_supply/mod.rs:39-45).
- A violation of the events' primary key is said to mean that the rows are already there
  (src/db_adapters/assets/events.rs:31-33). That is so exactly when each chunk is wholly new or
  wholly there (`EventStore.RunStoresExactly`).
- The maximal delay of 120 s is passed: the last doubling gives 204.8 s (src/retriable.rs:34-36).
- The order of the three futures that write access keys matters for some keys whose account is deleted
  in the same block: `AccessKeys.RaceHappens` is such a block, `AccessKeys.RaceFreeExactly` and
  `AccessKeys.SafeExactly` are the exact conditions, and `AccessKeys.DeletesLastIsFree` a simple one.
- A lockup with a public schedule from which tokens were withdrawn may lock more from its lockup
  timestamp on than before (`Lockup.WithdrawnScheduleIncreases`); `Lockup.NeverIncreasesExactly` says
  exactly when. The arithmetic allows it; the contract's own data should not, since a schedule is
  replaced by the termination data while its tokens are withdrawn, and those are removed once they
  are out (src/aggregated/circulating_supply/lockup_types.rs:160-165).

## Model

| member | source | states |
|---|---|---|
| Provenance.RunSound | src/main.rs:32-44 | Safety over whole runs: under every interleaving of lock regions, inserts and queries of any number of blocks, and under every eviction, every cache entry, every answer of a lookup in flight and every `receipts` row names the root transaction of its key |
| Provenance.StepSound | src/main.rs:46-99 | Each atomic step alone, from any sound state, keeps all of that |
| Provenance.RunsAgree | src/db_adapters/receipts.rs:160-200 | Two runs over one chain with different capacities, evictions and interleavings store the same originating transaction for every receipt both store |
| Provenance.HitAgreesWithQueries | src/db_adapters/receipts.rs:328-423 | In every reachable state a cache hit equals whatever the data, outcome or transaction query would answer for that key |
| Provenance.PassOfReachableTables | src/db_adapters/receipts.rs:222-454 | The three queries of a pass, read at three different moments of a run, only give sound answers: the lookup loop may run beside any other task |
| Provenance.WithTransactionsSound | src/db_adapters/transactions.rs:111-148 | The transactions' lock region binds each converted receipt to its own root |
| Provenance.WithOutcomesSound | src/db_adapters/execution_outcomes.rs:39-83 | The outcomes' lock region hands a root only from an executed receipt to what it produced |
| Provenance.WithOutputsSound | src/db_adapters/receipts.rs:111-133 | The receipts' second lock region binds data ids to the root of a receipt that names them |
| Provenance.InsertRowsHolds | src/db_adapters/receipts.rs:457-471 | An insert that ignores conflicts never changes a stored row, adds only given rows, and leaves a row for every given id |
| Provenance.StepEffective | src/main.rs:46-99 | Steps are not only safe but effective: inserts leave all given rows in the tables, the lookup region finds what is cached, answers are kept for the task, the other regions do to the cache what they do alone |
| Provenance.InsertTransactionsSound | src/db_adapters/transactions.rs:150-158 | Stored transactions, suffixed or not, lead each converted receipt to its root |
| Provenance.OutcomeRowsOnChain | src/db_adapters/execution_outcomes.rs:39-83 | Each produced-receipt row links a child to its own parent |
| Ancestry.OriginUnique | src/db_adapters/receipts.rs:76-85 | A key has at most one root, also when a data id is named by several receipts it was handed down to |
| Ancestry.RootUnique | src/db_adapters/execution_outcomes.rs:39-83 | A receipt has at most one root transaction |
| Ancestry.ChildTakesParentRoot | src/db_adapters/execution_outcomes.rs:60-75 | A produced receipt has exactly its parent's roots |
| Ancestry.NamerHasFirstNamerRoot | src/db_adapters/receipts.rs:108-133 | However far a data id is handed down, all its namers share the first namer's root |
| Tables.DataAnswerSound | src/db_adapters/receipts.rs:228-307 | `action_receipt_output_data` joined with `receipts` answers a data id with its root |
| Tables.OutcomeAnswerSound | src/db_adapters/receipts.rs:328-372 | `execution_outcome_receipts` joined with `receipts` answers a produced receipt with its root |
| Tables.TransactionAnswerSound | src/db_adapters/receipts.rs:385-423 | `transactions` answers a converted receipt with its root |
| ReceiptsCache.HitsAreCacheEntries | src/db_adapters/receipts.rs:173-200 | The first lock region finds exactly the asked keys that were cached as it was entered, even if a data id is asked twice, and removes exactly the asked data ids |
| ReceiptsCache.SharedCache.CacheTransactions | src/db_adapters/transactions.rs:111-148 | Sets `ReceiptId -> tx` per transaction and builds its row |
| ReceiptsCache.SharedCache.CacheOutcomes | src/db_adapters/execution_outcomes.rs:39-83 | Removes the executed id, sets all produced ids, in outcome order, and builds the indexed produced-receipt rows |
| ReceiptsCache.SharedCache.Lookup | src/db_adapters/receipts.rs:173-200 | Reads action receipts, takes data ids |
| ReceiptsCache.SharedCache.CacheOutputs | src/db_adapters/receipts.rs:111-133 | Sets `DataId -> tx` for the outputs of every action receipt that was found |
| ReceiptsCache.TransactionBinds | src/db_adapters/transactions.rs:113-133 | Each converted receipt is bound to its transaction under the suffix in use: with evictions it may be gone but never carries another value |
| ReceiptsCache.TransactionsLeave | src/db_adapters/transactions.rs:111-148 | Other keys keep their entries |
| ReceiptsCache.OutcomeHandsOn | src/db_adapters/execution_outcomes.rs:41-79 | One outcome of a cached receipt hands its value to everything it produced, and its own entry goes; that of an uncached one changes nothing; other keys keep their entries |
| ReceiptsCache.ChildGetsParentValue | src/db_adapters/execution_outcomes.rs:39-83 | Among many outcomes, what one produced ends with the value its parent had when its turn came, unless a later outcome concerns it |
| ReceiptsCache.OutcomesLeave | src/db_adapters/execution_outcomes.rs:39-83 | Receipts that no outcome executes or produces keep their entries |
| ReceiptsCache.OutputBinds | src/db_adapters/receipts.rs:111-131 | A data id named by a found action receipt is bound to the transaction of the last receipt of the chunk that names it |
| ReceiptsCache.OutputsLeave | src/db_adapters/receipts.rs:111-131 | Receipt ids and data ids not named keep their entries |
| ReceiptsCache.OutcomeRowsExactly | src/db_adapters/execution_outcomes.rs:55-79 | The produced-receipt rows are exactly each produced receipt of each outcome at its position |
| ReceiptsCache.ProducedHasRow | src/db_adapters/execution_outcomes.rs:55-79 | So every produced receipt has a row linking it to the executed one |
| CacheLifetime.OnlyOutstanding | src/db_adapters/execution_outcomes.rs:41-79 | In an in-order causal run, no cached key was already spent: its receipt has not executed, its data not arrived |
| CacheLifetime.StepKeys | src/db_adapters/receipts.rs:185-196 | Per step: a cached key was there and not spent, or was bound by the step |
| CacheLifetime.OutcomeKeys | src/db_adapters/execution_outcomes.rs:41-79 | An executed id leaves the cache unless a later outcome of the region produced it |
| CacheLifetime.NotBoundOnceSpent | src/main.rs:86-99 | In order, nothing binds a key at or after the step that spends it |
| ParentLookup.FindTxHashes | src/db_adapters/receipts.rs:160-455 | The whole lookup after its lock region. Leaving without giving up resolves every missed receipt, when no receipt has two rows in a pass (Progress.ReadsUnique); giving up or not, what the cache knew is kept, every other answer is one a pass offered, and whatever the passes could answer is answered. Only non-strict mode gives up, after exactly five passes; it fails exactly on a failing query; a pass able to answer all missed receipts ends it; no `DataId` key changes; sound inputs give sound answers |
| ParentLookup.Retry | src/db_adapters/receipts.rs:222-454 | The same of the loop with its retry counter, for any number of observed passes |
| ParentLookup.NextPass | src/db_adapters/receipts.rs:223-452 | What the passes so far have found is kept and extended by each pass |
| ParentLookup.AnswersSound | src/db_adapters/receipts.rs:222-454 | Answers of sound passes beside sound cache hits are sound |
| ParentLookup.TryActions | src/db_adapters/receipts.rs:328-431 | The two action queries of a pass, the second for what the first left |
| ParentLookup.TryPass | src/db_adapters/receipts.rs:223-431 | One pass: three queries, three early exits, two error exits; what it adds are its own answers, and going on means no query failed and what is left it could not answer |
| ParentLookup.AskOutputs | src/db_adapters/receipts.rs:224-326 | Data query: files its answers under `ReceiptId`, changing none, leaves unanswered only what it cannot answer, and leaves the loop only if nothing is pending |
| ParentLookup.AskActions | src/db_adapters/receipts.rs:328-431 | Action query: with unique rows the row-count exit is taken if and only if every pending receipt is an answered action receipt |
| ParentLookup.RowCountShortcut | src/db_adapters/receipts.rs:375-377 | With unique rows, row count = pending count if and only if every pending receipt is an action receipt with a row (pigeonhole) |
| ParentLookup.ShortcutSoundExactly | src/db_adapters/receipts.rs:375-377 | The count is a sound exit for everything that may be pending if and only if no receipt has two rows |
| ParentLookup.CountFooled | src/db_adapters/receipts.rs:425-427 | Any two rows for one receipt let the loop leave with others unresolved, whatever else the answer holds |
| ParentLookup.OutputAnswers | src/db_adapters/receipts.rs:292-320 | A data receipt is answered exactly when its data id is; the full count means all pending ones are |
| ParentLookup.ProgressExtends | src/db_adapters/receipts.rs:322-326 | After `retain`, what is pending is exactly what has no answer, and only requested ids were added |
| ParentLookup.MissedUnresolved | src/db_adapters/receipts.rs:203-213 | What the cache missed has no answer under its receipt id when the loop starts |
| ChunkReceipts.StoreChunkReceipts | src/db_adapters/receipts.rs:47-157 | Store/skip partition: rows with original indices for the known, child rows exactly for them; a data receipt is stored if and only if its data id was cached at lookup; when no receipt has two rows in a pass (Progress.ReadsUnique), strict mode skips no action receipt, and one pass able to answer is enough to end; every row names its root. Other tasks may change the cache between the two lock regions |
| ChunkReceipts.EndsPartition | src/db_adapters/receipts.rs:69-156 | In any mode a skipped action receipt was not cached and is one that no pass used could answer; strict mode skips none; a data receipt is stored if and only if its data id was cached |
| ChunkReceipts.KnownFrom | src/db_adapters/receipts.rs:86-106 | The transaction of a stored receipt is the cached one or, for an action receipt, one a pass used offered |
| ChunkReceipts.UnknownUnanswered | src/db_adapters/receipts.rs:433-439 | Giving up leaves unknown only what no pass could answer |
| ChunkReceipts.NamedDataIsStored | src/db_adapters/receipts.rs:108-131 | Across chunks: a data id named by a stored action receipt and still cached when the data arrives makes the data receipt stored, with the namer's transaction |
| ChunkReceipts.BuildRows | src/db_adapters/receipts.rs:69-106 | The row-building pass and the set of skipped ids |
| ChunkReceipts.StoredRowsExact | src/db_adapters/receipts.rs:69-106 | Each known receipt has its row at its own chunk index, nothing else has one, indices ascend |
| ChunkReceipts.SkippedAreUnknown | src/db_adapters/receipts.rs:137-147 | With distinct ids a receipt is skipped if and only if its own key is unknown; filtering by skipped id leaves the known receipts in order |
| ChunkReceipts.ChildrenOfStored | src/db_adapters/receipts.rs:473-612 | Exactly for stored receipts there are: an action receipt row, each action at its index, each named output, each awaited input, each delivered data id |
| ChunkReceipts.KnownAfterLookup | src/db_adapters/receipts.rs:185-196 | Cached keys stay known; a data receipt is known only from the cache; a resolved action receipt is known |
| ChunkReceipts.RowsSound | src/db_adapters/receipts.rs:69-106 | Rows built from sound answers name their roots |
| Progress.ReadsUnique | src/db_adapters/receipts.rs:328-427 | No receipt has two rows in either action table: a pass whose queries read tables of the chain, each at its own moment, meets the condition of the row-count exits |
| Progress.KeyOfReceipt | src/db_adapters/transactions.rs:50-86 | Two stored transactions converted into one receipt are one, suffixed or not |
| Progress.NextBlockAnswered | src/db_adapters/receipts.rs:222-454 | Once the earlier blocks are stored, and by its last query this block's transactions, a single pass answers every receipt of the block |
| Progress.ChunkEnds | src/db_adapters/receipts.rs:47-157 | A strict lookup, with any cache and after any passes that came too early, ends once one pass sees the block's transactions, and then no action receipt of the chunk is skipped |
| Progress.StoreNextChunk | src/db_adapters/receipts.rs:47-157 | The same of the program, for any sequence of passes one of which sees the block's transactions |
| Progress.BlockStored | src/main.rs:86-99 | So the next block's chunks all end with every action receipt stored, and the block becomes one that later lookups can rely on |
| Progress.InOrderStoresAll | src/main.rs:46-154 | Block after block, whatever the caches held, every lookup ends and every action receipt gets its row and its output data |
| Transactions.TransactionsTable.StoreTransactions | src/db_adapters/transactions.rs:13-87 | Collision handling loses nothing: every transaction ends with a row carrying its converted id and this block, plain or suffixed; a rerun adds no row of the block. The joined chunks come in any order, with other blocks and other stays under the lock in between |
| Transactions.TransactionsTable.FirstPass | src/db_adapters/transactions.rs:21-42 | In any order of the chunks: after it every plain hash is taken, by this block or another |
| Transactions.TransactionsTable.SecondPass | src/db_adapters/transactions.rs:54-86 | In any order of the chunks: stores the collided transactions under the suffixed hash |
| Transactions.TransactionsTable.StoreChunk | src/db_adapters/transactions.rs:101-158 | Cache region plus insert of one chunk |
| Transactions.EqualCountMeansAllPresent | src/db_adapters/transactions.rs:44-48 | The equal-count early return: the counts agree if and only if every transaction of the block is present |
| Transactions.FirstPassChunk | src/db_adapters/transactions.rs:21-42 | A first-pass chunk keeps consistency and adds nothing when all is present |
| Transactions.SecondPassChunk | src/db_adapters/transactions.rs:56-86 | A second-pass chunk makes its transactions present, and adds nothing when all was present |
| Transactions.PresentWhenInserted | src/db_adapters/transactions.rs:66-76 | A converted id already among the block's rows means that very transaction is present |
| Transactions.ReplayCachesBareHash | src/db_adapters/transactions.rs:37-48 | Replaying any stored block changes no row and returns early, leaving the bare hash in the cache for every receipt not evicted, also of transactions with a suffixed row: roots can only be compared without the suffix |
| Transactions.ChunkBinds | src/db_adapters/transactions.rs:113-133 | Storing a chunk binds each converted receipt to its transaction, under whatever suffix the pass uses |
| Transactions.InsertChunk | src/db_adapters/transactions.rs:150-158 | An insert adds exactly the rows whose hash was free |
| Accounts.EventsExactly | src/db_adapters/accounts.rs:27-36 | What counts are exactly the actions of the successful action receipts |
| Accounts.EventsInOrder | src/db_adapters/accounts.rs:27-41 | in the order of the outcomes, and of the actions within a receipt |
| Accounts.EventCount | src/db_adapters/accounts.rs:27-41 | Each outcome adds its actions once, or nothing |
| Accounts.FailuresChangeNothing | src/db_adapters/accounts.rs:27-36 | Outcomes that all fail leave every row as it was |
| Accounts.LastActionDecides | src/db_adapters/accounts.rs:41-85 | The meaning of the actions on a row, by the last one that creates or deletes the account: a creation makes a new row with its receipt, a deletion marks the row there was, if any |
| Accounts.NothingConcerns | src/db_adapters/accounts.rs:41-85 | Without a creation or deletion the row and its liveness stay |
| Accounts.LastActionDecidesLife | src/db_adapters/accounts.rs:41-85 | The same of liveness and the deleting receipt, for every account |
| Accounts.TransferAlone | src/db_adapters/accounts.rs:55-70 | A transfer to a named account changes nothing; one to an absent implicit account creates it |
| Accounts.EntryAlone | src/db_adapters/accounts.rs:41-85 | The folded entry of an account the block creates is the row its actions alone would make |
| Accounts.ImplicitRow | src/db_adapters/accounts.rs:132-168 | The whole row of an implicit account after a block that pays into it |
| Accounts.HandleBlocks | src/main.rs:182-205 | A run is its blocks, one after another, each as its statements make every row |
| Accounts.RunRefines | src/db_adapters/accounts.rs:41-202 | Over every ascending run the rows of named accounts equal the action-by-action fold, and for every account liveness and deleting receipt equal it |
| Accounts.BlockRefines | src/db_adapters/accounts.rs:41-196 | One block: writing the folded map is acting action by action |
| Accounts.StepRefines | src/db_adapters/accounts.rs:41-85 | Folding one more action commutes with writing the entry (whole row, named accounts) |
| Accounts.StepLife | src/db_adapters/accounts.rs:41-85 | The same for liveness and the deleting receipt, every account |
| Accounts.TransfersKeepLiveRow | src/db_adapters/accounts.rs:132-143 | A block with only transfers to a live implicit account leaves its row unchanged |
| Accounts.CreatorKept | src/db_adapters/accounts.rs:132-168 | Exactly when a block keeps a live implicit account's creator |
| Accounts.ReplayAbsorbed | src/main.rs:237-251 | Re-processing blocks of an ascending run, in any order, any number of times, under any statement order, changes no account row |
| Accounts.EntryConfluent | src/db_adapters/accounts.rs:87-196 | The partition keeps a block's statements from competing for a row |
| Accounts.AnySchedule | src/db_adapters/accounts.rs:87-200 | Every map iteration order and every interleaving of the two futures ends with the same row |
| Accounts.FuturesIssue | src/db_adapters/accounts.rs:87-196 | The two futures together issue exactly the statements of the map |
| Accounts.FoldEvent | src/db_adapters/accounts.rs:49-84 | The arms of the fold |
| Accounts.CollectAccounts | src/db_adapters/accounts.rs:38-85 | The folding loop, with the 64-character rule |
| Accounts.AccountsTable.HandleAccounts | src/db_adapters/accounts.rs:19-202 | Every row ends as the block's statements for it make it, whatever the schedule |
| Accounts.AccountsTable.Join | src/db_adapters/accounts.rs:200-200 | The joined futures, interleaved at will |
| Accounts.AccountsTable.Execute | src/db_adapters/accounts.rs:95-196 | One guarded SQL statement on the whole table |
| AccessKeys.KeyBlockRefines | src/db_adapters/access_keys.rs:38-226 | A block that does not delete a named account leaves each of its keys, receipts and all, as the actions one by one do, under every schedule |
| AccessKeys.LastActionDecidesKeyRow | src/db_adapters/access_keys.rs:62-88 | Those actions on the row: adding the key makes a new row with its receipt, deleting it marks the row there was, if any |
| AccessKeys.LastActionDecidesKey | src/db_adapters/access_keys.rs:38-88 | Liveness by the last action that concerns the key, deletions of the account included |
| AccessKeys.FailuresChangeNoKey | src/db_adapters/access_keys.rs:24-33 | Outcomes that all fail leave every key as it was |
| AccessKeys.DeletedByExactly | src/db_adapters/access_keys.rs:43-48 | The deletion of an account that a block records is its last one |
| AccessKeys.DeletionRecorded | src/db_adapters/access_keys.rs:128-154 | On a live key the block does not otherwise concern, that deletion's receipt and the block's height are recorded |
| AccessKeys.TransferAddsKey | src/db_adapters/access_keys.rs:89-113 | A transfer adds, to an implicit account, the key its id spells, and none to a named account |
| AccessKeys.HandleBlocks | src/main.rs:182-205 | A run is its blocks, one after another, each key under some schedule of each |
| AccessKeys.RunKeyLife | src/db_adapters/access_keys.rs:38-226 | Over every ascending run, under every schedule of the three futures in each block, a named account's key is live exactly when the actions leave it live, provided each block is safe for it |
| AccessKeys.BlockKeyLife | src/db_adapters/access_keys.rs:120-226 | The same for one block |
| AccessKeys.SafeExactly | src/db_adapters/access_keys.rs:132-135 | The condition is exact: deleting first is right if and only if the block does not both delete the account of a live key and end by adding the key |
| AccessKeys.RaceFreeExactly | src/db_adapters/access_keys.rs:120-226 | All schedules of the three futures leave the same row if and only if deletion of the account and the key's entry do not compete for it |
| AccessKeys.AllSchedulesAgree | src/db_adapters/access_keys.rs:222-226 | Any two schedules of a race-free block end with the same row |
| AccessKeys.FirstAndLastAgree | src/db_adapters/access_keys.rs:132-135 | Deleting the account first and deleting it last agree if and only if the row is race-free |
| AccessKeys.RunSchedulesAgree | src/db_adapters/access_keys.rs:222-226 | Any two runs of the same race-free blocks, each under schedules of its own, end with the same row |
| AccessKeys.RaceHappens | src/db_adapters/access_keys.rs:195-201 | A block that deletes an account, creates it again and adds a key again: the key ends dead or live, by the order of the futures |
| AccessKeys.DeletesLastIsFree | src/db_adapters/access_keys.rs:38-118 | A block whose deletion is the account's last action and that adds no key of it is race-free and safe, whatever the row |
| AccessKeys.DeletesLastRun | src/db_adapters/access_keys.rs:38-226 | So runs of such blocks satisfy the conditions of RunSchedulesAgree and RunKeyLife |
| AccessKeys.LifeFromMaps | src/db_adapters/access_keys.rs:35-118 | The two folded maps determine what the actions make of a key |
| AccessKeys.EffectiveLife | src/db_adapters/access_keys.rs:128-220 | In a safe block any statement that takes effect leaves the right liveness |
| AccessKeys.KeyReplayAbsorbed | src/main.rs:237-251 | Re-processing blocks of an ascending run under any schedules changes no key |
| AccessKeys.ScheduleBelow | src/db_adapters/access_keys.rs:128-220 | A block leaves no height above its own |
| AccessKeys.FoldAction | src/db_adapters/access_keys.rs:45-117 | The arms of the fold; deleting an account marks the keys folded so far |
| AccessKeys.CollectAccessKeys | src/db_adapters/access_keys.rs:35-118 | The folding loop into both maps |
| AccessKeys.ProgramsIssue | src/db_adapters/access_keys.rs:120-220 | The three futures together issue exactly the statements of the maps |
| AccessKeys.IssuedSchedule | src/db_adapters/access_keys.rs:120-226 | What they issue reaches each row as a schedule of the block |
| AccessKeys.AccessKeysTable.HandleAccessKeys | src/db_adapters/access_keys.rs:16-229 | Every row ends as under some schedule of the block at that row |
| AccessKeys.AccessKeysTable.Join | src/db_adapters/access_keys.rs:222-226 | The three joined futures, interleaved at will |
| AccessKeys.AccessKeysTable.Execute | src/db_adapters/access_keys.rs:128-220 | One guarded SQL statement on the whole table |
| GuardedRows.HeightsRise | src/db_adapters/accounts.rs:100-116 | No statement removes a row or lowers its height |
| GuardedRows.FirstWins | src/db_adapters/accounts.rs:100-116 | Within a block, the first statement to change a row is the only one |
| GuardedRows.SchedulesAgree | src/db_adapters/access_keys.rs:222-226 | Statements that agree on the row end alike in every order and with any repetition |
| GuardedRows.SchedulesDisagree | src/db_adapters/access_keys.rs:222-226 | Two that disagree end differently when put first in turn |
| GuardedRows.AllAbsorbed | src/db_adapters/accounts.rs:95-196 | After an ascending run every statement of every block is absorbed |
| GuardedRows.ReplayChangesNothing | src/db_adapters/accounts.rs:95-196 | So any replay changes nothing |
| Lockup.NeverFaults | src/aggregated/circulating_supply/lockup.rs:115-206 | For a contract with an ordered schedule that gave out no more than it held, no division by zero, underflow or overflow |
| Lockup.ShareExact | src/aggregated/circulating_supply/lockup.rs:141-146 | The product fits 192 bits, the quotient the amount, and the share is the greatest whole number not above the linear schedule |
| Lockup.ShareMono | src/aggregated/circulating_supply/lockup.rs:194-203 | The share does not grow as less time is left |
| Lockup.UnlocksExactly | src/aggregated/circulating_supply/lockup.rs:121-128 | The lockup lasts until both the duration after the transfers and the lockup timestamp have passed, saturating at the last moment |
| Lockup.LockedBefore | src/aggregated/circulating_supply/lockup.rs:167-169 | Until then everything not withdrawn is locked |
| Lockup.LinearRelease | src/aggregated/circulating_supply/lockup.rs:129-163 | From then on, without vesting, locked plus withdrawn is the greatest whole number not above the linear release, from the transfers or the lockup timestamp by the bug, and nothing once it has ended |
| Lockup.LinearVesting | src/aggregated/circulating_supply/lockup.rs:152-205 | For a public schedule without release: everything before the cliff, then the greatest whole number not above the linear schedule, then nothing |
| Lockup.OtherVesting | src/aggregated/circulating_supply/lockup.rs:152-159 | Without a public schedule and release: the unvested amount of a termination, or nothing |
| Lockup.LockedIsLarger | src/aggregated/circulating_supply/lockup.rs:160-165 | With both, the larger of the two amounts is locked |
| Lockup.NeverExceeds | src/aggregated/circulating_supply/lockup.rs:115-170 | Locked <= amount - withdrawn, across all boundaries |
| Lockup.NeverIncreasesExactly | src/aggregated/circulating_supply/lockup.rs:115-206 | For a well-formed contract the locked amount never increases if and only if there is room at the lockup timestamp, a condition on the fields: a termination's unvested amount fits beside what was withdrawn, and a public schedule had nothing withdrawn or is far enough along |
| Lockup.RoomExactly | src/aggregated/circulating_supply/lockup.rs:152-169 | That room is what keeps the amount at the lockup timestamp from exceeding the amount before |
| Lockup.UnlockDecides | src/aggregated/circulating_supply/lockup.rs:128-166 | Releases, cliffs and ends never raise the amount; only the lockup timestamp could |
| Lockup.DecodedNeverIncreasesExactly | src/aggregated/circulating_supply/lockup.rs:78-85 | The same for the states the indexer uses, whose transfers timestamp it replaces |
| Lockup.ConsistentNeverIncreases | src/aggregated/circulating_supply/lockup.rs:115-206 | Consistent contracts have room: the amount never increases with time |
| Lockup.WithdrawnScheduleIncreases | src/aggregated/circulating_supply/lockup.rs:78-85 | Without room: a public schedule before its cliff with tokens withdrawn locks 6 just before the moment transfers were enabled and 10 at it |
| Lockup.TerminatingKeepsUnvested | src/aggregated/circulating_supply/lockup.rs:152-166 | While terminating, never below the unvested amount |
| Lockup.BugNeverLocksMore | src/aggregated/circulating_supply/lockup.rs:131-136 | The buggy variant never reports more locked than the fixed one, and the same when the lockup starts at the transfers timestamp |
| Lockup.EverythingUnlocks | src/aggregated/circulating_supply/lockup.rs:128-166 | After release and public vesting ended, nothing is locked |
| CirculatingSupply.ComputeCirculatingSupply | src/aggregated/circulating_supply/mod.rs:124-201 | The accumulating loops, with the first problem deciding between a failed query and a fault |
| CirculatingSupply.ComputationExactly | src/aggregated/circulating_supply/mod.rs:146-200 | A result if and only if every query answers, every contract is in range and the total covers what is held; then total = circulating + foundation + lockups, and the unfinished count is the number of contracts with a positive amount; a failure is reported only for a failed query |
| CirculatingSupply.AmountExactly | src/aggregated/circulating_supply/mod.rs:149-170 | One account adds what its own state, with the transfers timestamp replaced, and its own bug flag give; everything not withdrawn before transfers were enabled; and counts as unfinished if that is positive |
| CirculatingSupply.AddUpExactly | src/aggregated/circulating_supply/mod.rs:149-170 | The sums succeed if and only if every amount is in range and their total fits in 128 bits |
| CirculatingSupply.OrderDoesNotMatter | src/aggregated/circulating_supply/mod.rs:149-170 | The sums, the count and success do not depend on contract order |
| CirculatingSupply.LockedSumFalls | src/aggregated/circulating_supply/mod.rs:146-170 | For fixed contracts the locked sum and the unfinished count only fall with time |
| CirculatingSupply.CirculationNeverFalls | src/aggregated/circulating_supply/mod.rs:146-185 | For fixed contracts, total and foundation balances, a computable supply stays computable and circulation never decreases |
| DailyScheduler.DaysInStep | src/aggregated/circulating_supply/mod.rs:40-74 | `day_to_compute` is the first day plus one day per success, always 600.293769340 s past a midnight; failures skip nothing |
| DailyScheduler.MidnightExactly | src/aggregated/circulating_supply/mod.rs:82-85 | The moment asked for is the day's midnight if and only if that fits in 64 bits |
| DailyScheduler.LatestIsLatest | src/db_adapters/blocks.rs:45-55 | The query gives a latest block at or before the moment, or there is none |
| DailyScheduler.RowsAreKept | src/aggregated/circulating_supply/mod.rs:91-121 | No run changes or drops a row or stores a timestamp twice, whatever the outside answers |
| DailyScheduler.StoredRowsConserve | src/aggregated/circulating_supply/mod.rs:185-200 | Every row of a run accounts for all tokens of its block |
| DailyScheduler.AttemptStoresExactly | src/db_adapters/aggregated/circulating_supply.rs:9-61 | A success leaves the block's row if and only if no earlier row shares only its hash or only its timestamp |
| DailyScheduler.AttemptExactly | src/aggregated/circulating_supply/mod.rs:77-122 | An attempt is done if and only if there is a block at or before the midnight, the queries work, and a row has the block's timestamp or the supply can be computed; a new row is the block's supply at its own total and moment; it stops only on a fault; otherwise nothing is written |
| DailyScheduler.StoppedForGood | src/aggregated/circulating_supply/mod.rs:185-185 | After a fault nothing is passed or written any more |
| DailyScheduler.EveryDayPasses | src/aggregated/circulating_supply/mod.rs:47-74 | A run whose attempts all find their block and can compute passes one day each |
| DailyScheduler.PassedDaysAreStored | src/aggregated/circulating_supply/mod.rs:47-121 | Given the chain's blocks up to each moment, every passed day has a row for its latest block |
| DailyScheduler.StartingOverChangesNothing | src/aggregated/circulating_supply/mod.rs:91-121 | From the first day again, while the days are stored ones, nothing is written |
| DailyScheduler.RestartChangesNothing | src/aggregated/circulating_supply/mod.rs:40-74 | A restarted scheduler, no further along than the first, leaves the first one's table unchanged |
| DailyScheduler.Scheduler.CheckAndCollect | src/aggregated/circulating_supply/mod.rs:77-122 | One attempt: done, to be tried again, or stopped by a fault |
| DailyScheduler.Scheduler.Run | src/aggregated/circulating_supply/mod.rs:47-74 | The loop over any finite sequence of attempts |
| EventRows.CollectEvents | src/db_adapters/assets/events.rs:44-64 | The two vectors hold the FT and the NFT events of the outcomes, in order, with their outcomes |
| EventRows.ComposeFtEvents | src/db_adapters/assets/fungible_token_events.rs:48-137 | The nested loops build the flattening of events and entries, numbered by position |
| EventRows.ComposeNftEvents | src/db_adapters/assets/non_fungible_token_events.rs:48-156 | The same with one row per token id |
| EventRows.PushTokens | src/db_adapters/assets/non_fungible_token_events.rs:63-83 | The innermost loop over token ids |
| EventRows.EntryPosition | migrations/2022-01-12-100000_assets_ft/up.sql:14-21 | Entry j of event i is the row after all entries of earlier events and its first j; index equals position |
| EventRows.FtEntriesAre | src/db_adapters/assets/fungible_token_events.rs:58-134 | The columns of each mint, transfer and burn entry, in order |
| EventRows.RowPosition | src/db_adapters/assets/fungible_token_events.rs:48-137 | Row of entry j of an event: at its position, which is its index, with the origin, time and shard of the event |
| EventRows.ItemsAre | src/db_adapters/assets/non_fungible_token_events.rs:56-58 | The items of an event are its FT or NFT entries, each with the event's origin |
| EventRows.EventHasASource | src/db_adapters/assets/events.rs:52-64 | Every collected event is one of an outcome, at that event's position |
| EventRows.EventPosition | src/db_adapters/assets/events.rs:52-64 | Event j of outcome i comes right after all events of earlier outcomes and its first j, with its outcome |
| EventRows.TokenPosition | src/db_adapters/assets/non_fungible_token_events.rs:60-85 | Token k of mint j comes right after the tokens of earlier mints and the first k |
| EventRows.TransferTokenPosition | src/db_adapters/assets/non_fungible_token_events.rs:86-121 | The same for transfers |
| EventRows.BurnTokenPosition | src/db_adapters/assets/non_fungible_token_events.rs:122-152 | The same for burns |
| EventRows.RowHasASource | src/db_adapters/assets/fungible_token_events.rs:48-137 | Every row is some entry at that entry's position: none is made up |
| EventRows.EmptyByKind | migrations/2022-01-12-100000_assets_ft/up.sql:28-35 | A mint has no old owner (and no authorized account), a burn no new owner |
| EventRows.EarlierOutcomesFirst | src/db_adapters/assets/events.rs:44-78 | Rows of later outcomes come after those of earlier ones and do not change them |
| EventStore.EventsTable.StoreRows | src/db_adapters/assets/non_fungible_token_events.rs:23-36 | The chunk loop, each chunk under the retry loop, stopping at the first chunk given up |
| EventStore.EventsTable.StoreFtEvents | src/db_adapters/assets/fungible_token_events.rs:12-37 | Compose and store |
| EventStore.EventsTable.StoreNftEvents | src/db_adapters/assets/non_fungible_token_events.rs:12-37 | Compose and store |
| EventStore.OneAttempt | src/db_adapters/assets/non_fungible_token_events.rs:25-34 | One attempt: the others' rows come, possibly the chunk itself, and the chunk wholly or not at all |
| EventStore.SameAnswer | src/db_adapters/assets/events.rs:29-41 | Rows of other keys do not change what the database answers |
| EventStore.InsertsExactly | migrations/2022-01-12-100000_assets_ft/up.sql:41-57 | A chunk goes in if and only if none of its keys is taken, and then as a whole |
| EventStore.FirstTakenDecides | migrations/2022-01-12-100000_assets_ft/up.sql:59-65 | Otherwise the first row whose key is taken decides: primary-key violation if that very row is there, else inconsistency |
| EventStore.ChunkIs | src/db_adapters/assets/non_fungible_token_events.rs:23-24 | The chunks are 500 rows each, the last one what is left, and chunk k begins at row 500 k |
| EventStore.ForeignIsForeign | src/db_adapters/assets/events.rs:9-18 | What is accounted as foreign was there before or was written by others |
| EventStore.AwaitInsert | src/db_adapters/assets/events.rs:20-42 | Ten attempts at a chunk, with lost statements, lost replies and rows of others before each, possibly the chunk itself: it is added wholly or not at all; success if and only if the database finds no inconsistency and one attempt gets through |
| EventStore.RunKeeps | src/db_adapters/assets/non_fungible_token_events.rs:23-36 | From any table, after any number of chunks and whatever others bring before each attempt, be it whole chunks of the same rows, nothing is dropped, nothing but rows of the run and of the others is added, and each chunk wholly or not at all |
| EventStore.RunStoresExactly | src/db_adapters/assets/events.rs:30-33 | A successful run has stored all its rows if and only if it found each chunk wholly new or wholly there |
| EventStore.PartOfAChunkIsLost | src/db_adapters/assets/events.rs:30-33 | A chunk of which another writer stored one row is taken for written: the other row is lost |
| EventStore.HistoryKeeps | src/db_adapters/assets/non_fungible_token_events.rs:23-36 | After any crashed and failed runs, with foreign writes before any attempt, each chunk is wholly there or wholly missing |
| EventStore.RunSucceedsExactly | src/retriable.rs:5-39 | From such a table a run succeeds if and only if one of ten attempts at each chunk gets through |
| EventStore.RerunCompletes | src/db_adapters/assets/non_fungible_token_events.rs:23-36 | After any crashes, others writing all the while, be it another indexer with the same chunks, a successful rerun ends with exactly the rows beside the foreign ones, and no other row under their keys |
| EventStore.ShardRerunCompletes | src/db_adapters/assets/fungible_token_events.rs:12-37 | The same for the composed rows of a shard, when others bring whole chunks of them and else only rows of other receipts |
| EventStore.NumberedKeys | migrations/2022-01-12-100000_assets_ft/up.sql:54-57 | The rows of a shard differ in the UNIQUE columns |
| Retry.AwaitRetry | src/retriable.rs:5-39 | The first answer that is no error decides; giving up means all attempts failed; the pauses are the doubling ones |
| Retry.IntervalStep | src/retriable.rs:33-36 | The pause doubles until it has passed the maximum, and never passes 204.8 s |
| Retry.WaitedInAll | src/retriable.rs:33-36 | n <= 11 failures wait 100 ms * (2^n - 1); from the eleventh pause on it is 204.8 s, above the stated 120 s |

## Left out

- The database driver, the asynchronous runtime and the connection pool: a table is a map or a set, a statement is atomic, and tasks interleave between statements.
- The internals of the cache library: any eviction is allowed instead.
- Queries to the node, Borsh decoding, and recognising contracts by code hash: their answers are inputs.
- Parsing log lines into events and escaping text: the events are inputs and the escape function a parameter.
- The arguments and indices of `transaction_actions` rows, and the field copying in the models.
- Foreign keys, which the database enforces, and the genesis records.
- Blocks, chunks, state changes of accounts, the command line, choosing the start block, and logging.
- `permission_kind` of access keys, which updates never touch.
- AccessKeys.RunKeyLife: keys of 64-character accounts are not claimed, because every transfer to such an account adds its key again.
- AccessKeys.BlockKeyLife: when the block deletes the account it states the liveness of a key and not its receipts, because the block's race decides which deletion is recorded; without such a deletion `AccessKeys.KeyBlockRefines` states the whole row.
- Accounts.RunRefines: for 64-character accounts it states liveness and deleting receipt and not the creator, for which `Accounts.CreatorKept` and `Accounts.ImplicitRow` say what it becomes; and blocks are ascending, because tables filled out of order do not converge in the source.
- CacheLifetime.OnlyOutstanding: one block at a time and in order, because a late lookup of another block can bind a key again.
- Progress.ReadsUnique: that every block's transactions are stored as `Transactions.TransactionsTable.StoreTransactions` leaves them is an assumption about the whole table; soundness of the tables is `Provenance.RunSound`.
- EventStore.RerunCompletes: other indexers cut the rows into the same chunks; what other borders can do is `EventStore.PartOfAChunkIsLost`.
- Progress.InOrderStoresAll: blocks are stored one at a time; with several in flight strict mode may wait for an earlier one. That a block's transactions get stored while its receipts wait, and that no query fails on all its attempts, are assumptions.
- DailyScheduler.PassedDaysAreStored: waiting for the node is left out; its effect, that the blocks up to the midnight are there, is an assumption.
- CirculatingSupply.Computation: a fault stops the scheduler, as with overflow checks; a build without them would go on with wrapped sums.
- CirculatingSupply.ComputeCirculatingSupply: the counts are not bounded by 32 bits.
- EventRows.ComposeFtEvents: the index is not bounded by 32 bits.
- The pauses of the lookup loop; those of the other queries are in `Retry`.
