# A verified model of the replicated ledger's execution, storage and transport layers

This project models, in Dafny, the part of the ResilientDB / TD-HotStuff code base that must be
right once requests are ordered and stored: the execution pipeline with its racing threads, the
write-ahead log and its recovery, the three ledgers (unspent outputs, assets, TPC-C), the caches
and versioned stores, the replica transport, the quorum arithmetic, and the weighted voting,
leader election and commit rule of TD-HotStuff.

Each module follows one component. Code that updates objects in place is a class whose methods
are proved against a function of the old state; concurrent code is a state machine whose steps
are cut where the code takes its locks; whole-run claims are lemmas over every legal history.
Where a promise does not hold for every input, there is a lemma that says exactly when it does,
and one with inputs for which it does not.

| module | component |
|---|---|
| `ExecutionPipeline` | prepare, execute and garbage-collection threads of `TransactionExecutor` |
| `CommitOrdering` | out-of-order commits released in sequence |
| `ExecutionRing`, `RegistrationRaces` | the 1024-slot ring that serialises parallel executors, and what is left of that when they register in any order |
| `LengthPrefix`, `WriteAheadLog`, `RecoveryFiles` | log framing, crash recovery, file names and file choice |
| `Utxo` | unspent-output pool and wallet |
| `AssetLedger`, `Signing` | asset transfers, signatures and condition trees |
| `Tpcc`, `TpccEffects` | new orders, payments, deliveries, queries; what each does row by row |
| `LruCache`, `VersionedStore`, `StoreRuns` | caches, versioned key-value stores, and operation sequences on both stores |
| `Transport` | replica client, acceptor session, batch queue |
| `GeoOrdering`, `DuplicateWindow` | ordering across regions, duplicate filter |
| `Quorums` | quorum sizes, client read |
| `TdHotstuff`, `TdVotes` | weights, leaders and one-phase commit; collecting votes into certificates |
| `Encodings` | witnesses for the laws asked of outside libraries |

Libraries outside the repository appear as parameters with stated laws: protobuf encodings
(decoding inverts encoding), signatures (a signature verifies for its own message only), hashes
(no collisions), base 58, SHA-256, SQLite transactions. `Encodings` shows that the laws of
encodings, signatures and hashes can be met. Clocks are arguments. Integers are
unbounded unless a contract says otherwise.

`dafny verify dfyconfig.toml` checks everything.

## Model

| member | source | states |
|---|---|---|
| `ExecutionPipeline.PromiseTable.SetFlag` | platform/consensus/execution/transaction_executor.cpp:424-445 | a start mark is refused when the other side got there first: preparation after a started execution, execution after an ended preparation; every other mark is added |
| `ExecutionPipeline.PromiseTable.AddFuture` | platform/consensus/execution/transaction_executor.cpp:484-498 | one unfulfilled promise and an empty flag set per uid, a second registration is refused |
| `ExecutionPipeline.PromiseTable.ClearPromise` | platform/consensus/execution/transaction_executor.cpp:447-462 | forgets promise and flags of one uid only |
| `ExecutionPipeline.InvRun` | platform/consensus/execution/transaction_executor.cpp:261-354 | one inductive invariant over cache, flags, promises and queues holds in every interleaving of Prepare calls and the three threads |
| `ExecutionPipeline.ExecutesDirectParse` | platform/consensus/execution/transaction_executor.cpp:261-354 | in every interleaving the transaction manager gets exactly the batch a direct parse of the committed request gives, whichever side wins the race: its users from the request's data, with the request's sequence number, proxy, hash and certificates |
| `ExecutionPipeline.ExecutesAllInOrder` | platform/consensus/execution/transaction_executor.cpp:261-354 | in every interleaving the executed requests are the committed ones in the order they were handed over; missing are exactly the one in hand and those in the queue, and at rest none |
| `ExecutionPipeline.ClaimsIffEnded` | platform/consensus/execution/transaction_executor.cpp:261-300 | an execution takes the prepared copy exactly when its preparation has ended |
| `ExecutionPipeline.PreparesIffNotStarted` | platform/consensus/execution/transaction_executor.cpp:535-595 | a preparation goes on exactly when no execution of its uid has started |
| `ExecutionPipeline.NeverFaultsOrBlocks` | platform/consensus/execution/transaction_executor.cpp:506-595 | no assertion or null access fails, waiting for a prepared copy never blocks, an ended preparation is complete, and collection never frees an entry in use |
| `ExecutionPipeline.QuiescentCache` | platform/consensus/execution/transaction_executor.cpp:506-533 | at rest the cache holds exactly the prepared copies no execution consumed |
| `CommitOrdering.OrderingStage.AddNewData` | platform/consensus/execution/transaction_executor.cpp:157-159 | first request per sequence number wins, stale ones are dropped |
| `CommitOrdering.OrderingStage.GetNextData` | platform/consensus/execution/transaction_executor.cpp:161-171 | takes the next request exactly when it heads the ordered map |
| `CommitOrdering.OrderingStage.OrderMessage` | platform/consensus/execution/transaction_executor.cpp:173-200 | a pass is the insertion followed by the maximal drain |
| `CommitOrdering.EmitsInSequence` | platform/consensus/execution/transaction_executor.cpp:144-200 | for every arrival order with gaps, duplicates and stale messages the log is 1, 2, 3, ... up to the first missing number, each entry the first arrival for its number |
| `CommitOrdering.LogsArePrefixes` | platform/consensus/execution/transaction_executor.cpp:144-200 | replicas whose commits agree per number emit logs one of which is a prefix of the other |
| `CommitOrdering.Confluence` | platform/consensus/execution/transaction_executor.cpp:144-200 | the same requests in any two orders give the same log |
| `ExecutionRing.Ring.RegisterExecute` | platform/consensus/execution/transaction_executor.cpp:63-71 | takes over one slot and reports whether the source's assertion on its old value held |
| `ExecutionRing.Ring.FinishExecute` | platform/consensus/execution/transaction_executor.cpp:89-96 | marks its own slot finished and no other |
| `ExecutionRing.SerialExecution` | platform/consensus/execution/transaction_executor.cpp:63-96 | in every run batch n starts only after batch n - 1 has finished, across reuse of slots modulo 1024 |
| `ExecutionRing.RegisterAssertHolds` | platform/consensus/execution/transaction_executor.cpp:63-71 | the registration assertion never fails |
| `ExecutionRing.ProgressIff` | platform/consensus/execution/transaction_executor.cpp:73-87 | with work outstanding, a step is possible exactly when a batch is running or fewer than 1024 are outstanding |
| `ExecutionRing.NoDeadlock` | platform/consensus/execution/transaction_executor.cpp:73-96 | fewer than 1024 threads can always make progress |
| `ExecutionRing.DeadlockAtFullRing` | platform/consensus/execution/transaction_executor.cpp:73-96 | 1024 threads can register into a state where none can move |
| `RegistrationRaces.BeginIff` | platform/consensus/execution/transaction_executor.cpp:73-87 | when batches register in any order, in every run a registered batch may begin exactly when every batch registered in its predecessor's slot has finished |
| `RegistrationRaces.BeginNearbyIff` | platform/consensus/execution/transaction_executor.cpp:73-87 | while all outstanding batches are within 1023 of the predecessor, exactly when that one has finished or has not registered yet |
| `RegistrationRaces.SerialIff` | platform/consensus/execution/transaction_executor.cpp:63-96 | over every run execution is serial exactly when no batch begins before its predecessor has registered |
| `RegistrationRaces.InOrderIsSerial` | platform/consensus/execution/transaction_executor.cpp:63-96 | registering in number order is enough for that |
| `RegistrationRaces.AssertHoldsIff` | platform/consensus/execution/transaction_executor.cpp:63-71 | in every run the registration assertion holds exactly when every batch registered in the slot has finished |
| `RegistrationRaces.SecondBeginsFirst` | platform/consensus/execution/transaction_executor.cpp:73-87 | a legal run in which batch 2 begins before batch 1 and both run at once |
| `RegistrationRaces.FarApartBlocks` | platform/consensus/execution/transaction_executor.cpp:63-87 | a legal run with batches 1024 apart after which a batch cannot begin though its predecessor has not registered, nor could that one register |
| `LengthPrefix.WordRoundTrip` | platform/consensus/recovery/recovery.cpp:286-290 | an eight-byte size reads back as itself |
| `WriteAheadLog.Recovery.WriteLog` | platform/consensus/recovery/recovery.cpp:264-284 | the file stays the image of the records logged, with their true smallest and largest sequence numbers |
| `WriteAheadLog.Recovery.Flush` | platform/consensus/recovery/recovery.cpp:350-360 | appends the buffer as one block and empties it |
| `WriteAheadLog.ParseRawData` | platform/consensus/recovery/recovery.cpp:329-342 | splits a block into its items |
| `WriteAheadLog.ParseData` | platform/consensus/recovery/recovery.cpp:292-327 | pairs items into requests and signatures up to the first that does not parse |
| `WriteAheadLog.ReadLogsFromFiles` | platform/consensus/recovery/recovery.cpp:453-525 | reads blocks until one is incomplete and delivers what lies above the checkpoint |
| `WriteAheadLog.CrashPrefix` | platform/consensus/recovery/recovery.cpp:453-525 | a log cut at any byte after its information block gives back the records whose blocks survive whole and that lie above the checkpoint: one for each rising position, in the order written, changed only by the recovery mark |
| `WriteAheadLog.WholeIsMaximal` | platform/consensus/recovery/recovery.cpp:371-382 | the surviving blocks are all that fit: one more would not |
| `WriteAheadLog.IntactFile` | platform/consensus/recovery/recovery.cpp:453-525 | an uncut log gives back every record above the checkpoint, in order and once |
| `RecoveryFiles.NameRoundTrip` | platform/consensus/recovery/recovery.cpp:156-167 | a printed name parses back to its fields for every base name, underscores and negative fields included, exactly when the extension is empty or .log |
| `RecoveryFiles.StollOfToString` | platform/consensus/recovery/recovery.cpp:384-434 | the number parser inverts the number printer, whatever follows |
| `RecoveryFiles.ReadDirectory` | platform/consensus/recovery/recovery.cpp:384-434 | parses the .log names of a directory in order, or fails at the first that does not parse |
| `RecoveryFiles.DirectoryRoundTrip` | platform/consensus/recovery/recovery.cpp:156-167 | a directory of logs under generated names parses back to those logs, other files passed over |
| `RecoveryFiles.GetRecoveryFiles` | platform/consensus/recovery/recovery.cpp:384-434 | the finished files that span the largest checkpoint and the newest open file, each entry once, oldest first |
| `RecoveryFiles.ReadLogs` | platform/consensus/recovery/recovery.cpp:436-451 | from file names and bytes to records, open files cut anywhere behind their information block, log after log by time, each read once and its surviving records above the checkpoint in the order written: what is handed on survived above the checkpoint in a chosen log; every such record of a spanning log and of a newest open log is handed on; no finished log that does not lie wholly above the checkpoint loses a record above it; and, no record logged twice, the finished logs lose nothing exactly when none lies wholly above it |
| `RecoveryFiles.CompleteIff` | platform/consensus/recovery/recovery.cpp:384-451 | if no record was logged in two logs, the records handed on miss nothing above the checkpoint of any finished log exactly when none lies wholly above it |
| `RecoveryFiles.WhollyAboveIsSkipped` | platform/consensus/recovery/recovery.cpp:384-434 | a directory in which such a file, and its records, are skipped |
| `Utxo.Transaction.constructor` | executor/utxo/manager/transaction.cpp:33-50 | genesis outputs are pooled and credited |
| `Utxo.Transaction.GetInput` | executor/utxo/manager/transaction.cpp:82-133 | inputs pass exactly when all are spendable by the sender, carry one key and the signature verifies; the lookup fails outright exactly when it reaches a negative position in a known transaction |
| `Utxo.Transaction.VerifyUTXO` | executor/utxo/manager/transaction.cpp:135-153 | inputs must be worth strictly more than outputs |
| `Utxo.Transaction.MarkSpends` | executor/utxo/manager/tx_mempool.cpp:90-105 | marks every listed output and sums what the list claims, or stops at a negative value |
| `Utxo.Transaction.AddTransaction` | executor/utxo/manager/transaction.cpp:54-71 | a transaction is rejected without effect, aborts, or takes full effect |
| `Utxo.AcceptedIff` | executor/utxo/manager/transaction.cpp:82-153 | a transaction with inputs is accepted exactly when one key owns them all and its signature verifies for the sender's address and the sum of the input ids, they are worth more than the outputs, and none is negative; any other leaves the ledger as it was |
| `Utxo.ForgedIsRefused` | executor/utxo/manager/transaction.cpp:118-123 | one whose signature does not verify under the owning key is never accepted |
| `Utxo.AcceptedEmptyIff` | executor/utxo/manager/transaction.cpp:82-88 | without inputs only the address 0000 with outputs worth less than nothing is accepted |
| `Utxo.DriftOfStep` | executor/utxo/manager/transaction.cpp:160-183 | the exact amount by which an accepted transaction moves each balance against its unspent outputs: repeated inputs and pre-flagged outputs, nothing else |
| `Utxo.TotalOfStep` | executor/utxo/manager/transaction.cpp:135-153 | total unspent value strictly falls, but for repeats and pre-flagged outputs |
| `Utxo.BalancedIff` | executor/utxo/manager/transaction.cpp:160-183 | balances equal to unspent outputs stay so exactly when no input of value is listed twice |
| `Utxo.RepeatBreaksBalance` | executor/utxo/manager/transaction.cpp:160-183 | an accepted transaction that lists an input twice and unbalances the wallet |
| `Utxo.NoDoubleSpend` | executor/utxo/manager/tx_mempool.cpp:37-62 | no output is consumed by two accepted transactions of any history |
| `Utxo.BalancesAreUnspent` | executor/utxo/manager/transaction.cpp:160-183 | over every history of well-formed transactions each balance is the sum of its unspent outputs and never negative |
| `Utxo.GenesisBoundsHistory` | executor/utxo/manager/transaction.cpp:135-153 | the number of accepted transactions plus the value left never exceeds the genesis value |
| `AssetLedger.GetAssetId` | ecosystem/graphql/resdb_driver/transaction.py:1067-1097 | the common asset of the inputs, or which error |
| `AssetLedger.ValidateTransferInputs` | ecosystem/graphql/resdb_driver/transaction.py:1211-1275 | the first failing check decides the exception |
| `AssetLedger.AdmittedIff` | ecosystem/graphql/resdb_driver/transaction.py:1211-1275 | exactly the signed transfers are let through whose links are distinct, unspent and name known outputs, counted from either end, and that keep asset and amount |
| `AssetLedger.NoOutputSpentTwice` | ecosystem/graphql/resdb_driver/transaction.py:1211-1275 | in every ledger grown by fresh CREATEs and validated TRANSFERs two inputs that spend one output are the same input, or exactly one of them names it from the end |
| `AssetLedger.InputsHaveTargets` | ecosystem/graphql/resdb_driver/transaction.py:1211-1275 | every input of such a ledger names an output of it |
| `AssetLedger.ItemAtTarget` | ecosystem/graphql/resdb_driver/transaction.py:1236-1236 | a position counted from the end names the output as far from the start, modulo their number |
| `AssetLedger.TransferDrift` | ecosystem/graphql/resdb_driver/transaction.py:1211-1275 | a transfer changes its asset's unspent total by exactly the amounts it names from the end, and no other asset's |
| `AssetLedger.AssetDrift` | ecosystem/graphql/resdb_driver/transaction.py:1211-1275 | in every such ledger each asset's unspent outputs are worth what its CREATE issued plus what its transfers named from the end |
| `AssetLedger.AssetConservedIff` | ecosystem/graphql/resdb_driver/transaction.py:1211-1275 | with amounts of at least 1 an asset is conserved exactly when no transfer of it names an output from the end |
| `AssetLedger.BlockBoundaryIrrelevant` | ecosystem/graphql/service/sdk_validator/resdb_validator/lib.py:276-303 | where the stored ledger ends and the pending block begins never changes a verdict, nor the error |
| `AssetLedger.NegativePositionRespends` | ecosystem/graphql/resdb_driver/transaction.py:1236-1236 | a position counted from the end names the same output under a second link |
| `Signing.Transaction.SignThreshold` | ecosystem/graphql/resdb_driver/transaction.py:866-913 | every owner's leaves are signed, in whatever order the owners are walked |
| `Signing.Transaction.SignAll` | ecosystem/graphql/resdb_driver/transaction.py:757-806 | signs all inputs and sets the id, or fails leaving the id alone |
| `Signing.MessageStays` | ecosystem/graphql/resdb_driver/transaction.py:1028-1044 | signing does not change the message under the signatures |
| `Signing.SignedIdValidIff` | ecosystem/graphql/resdb_driver/transaction.py:1099-1121 | the id a signing leaves is valid exactly when there was none before |
| `Signing.SignedInputsValidIff` | ecosystem/graphql/resdb_driver/transaction.py:943-1012 | the signed inputs are valid exactly when there was no id before |
| `Signing.SignThenValid` | ecosystem/graphql/resdb_driver/transaction.py:757-806 | without an id and with keys for all owners, signing succeeds and both checks pass |
| `Signing.TransferValidIff` | ecosystem/graphql/resdb_driver/transaction.py:943-1012 | a transfer is valid exactly when every input answers the condition of the output it spends and holds for the unsigned transaction and the input's link |
| `Signing.KeyMustSign` | ecosystem/graphql/resdb_driver/transaction.py:972-1012 | an output locked by a key is spent only with a signature that verifies under that key; one locked by a threshold only with that many different children holding |
| `Signing.WrongKeyRefused` | ecosystem/graphql/resdb_driver/transaction.py:996-1012 | an input under another key, unsigned, or whose signature does not verify makes a transfer invalid |
| `Signing.ThresholdHoldsIff` | ecosystem/graphql/resdb_driver/transaction.py:1008-1012 | a threshold holds exactly when so many different children do |
| `Signing.CreateValidIff` | ecosystem/graphql/resdb_driver/transaction.py:990-994 | a CREATE is valid exactly when its inputs hold, whatever the conditions |
| `Signing.DetailsRoundTripIff` | ecosystem/graphql/resdb_driver/transaction.py:166-209 | a condition tree survives its details form exactly when no node is deeper than 99 |
| `Tpcc.TpccExecutor.ExecuteNewOrder` | executor/common/tpcc_executor.cpp:154-392 | an order commits as a whole or leaves the tables unchanged |
| `Tpcc.TpccExecutor.ExecutePayment` | executor/common/tpcc_executor.cpp:395-618 | adds the amount to warehouse, district and customer, leaves its transaction open, or ends the process |
| `Tpcc.TpccExecutor.ExecuteDelivery` | executor/common/tpcc_executor.cpp:747-868 | delivers in districts 1 to 10 or leaves its transaction open |
| `Tpcc.TpccExecutor.ExecuteOrderStatus` | executor/common/tpcc_executor.cpp:622-742 | an order status changes no table, ends a transaction left open, and by an unknown name leaves its own open |
| `Tpcc.TpccExecutor.ExecuteStockLevel` | executor/common/tpcc_executor.cpp:872-937 | a stock level changes no table and ends a transaction left open |
| `Tpcc.TpccExecutor.FindOldest` | executor/common/tpcc_executor.cpp:760-776 | the least pending id of a district |
| `Tpcc.NewOrderFailsIff` | executor/common/tpcc_executor.cpp:185-281 | over consistent tables an order fails exactly for an unknown party, item or shelf |
| `TpccEffects.OrderEffect` | executor/common/tpcc_executor.cpp:219-360 | a committed order takes the district's next id; its row and its pending entry are new and nothing else in the tables but its lines and the stock changes |
| `TpccEffects.OrderAmounts` | executor/common/tpcc_executor.cpp:238-331 | its lines are the items asked for, each with the amount quantity * price * (1 + W_TAX + D_TAX) * (1 - C_DISCOUNT) from the tables before it |
| `TpccEffects.PaymentEffect` | executor/common/tpcc_executor.cpp:406-618 | a payment commits exactly at a known warehouse and district, and raises both year-to-dates and one customer's balance by its amount |
| `TpccEffects.MiddleRow` | executor/common/tpcc_executor.cpp:470-540 | by name it is the middle customer, with as many before as behind or one fewer |
| `TpccEffects.DeliveryEffect` | executor/common/tpcc_executor.cpp:747-868 | the oldest pending order of each of districts 1 to 10 leaves NEW_ORDER and gets the carrier and the date on every line; every other order stays |
| `TpccEffects.DeliveryPays` | executor/common/tpcc_executor.cpp:825-855 | whoever placed such an order is credited with its lines' amounts; every other customer stays |
| `TpccEffects.RefillsIff` | executor/common/tpcc_executor.cpp:286-290 | a shelf is refilled by 91 exactly when it would otherwise drop to zero or below |
| `Tpcc.RunConsistent` | executor/common/tpcc_executor.cpp:154-392 | over every history order lines match O_OL_CNT, ids stay below the district's next id, and NEW_ORDER, carriers and delivery dates agree |
| `Tpcc.PendingIsInterval` | executor/common/tpcc_executor.cpp:222-236 | a district's pending ids are an interval that ends just below its next id |
| `Tpcc.DeliveredInOrder` | executor/common/tpcc_executor.cpp:758-855 | within a district orders are delivered by id |
| `Tpcc.DeliveredOnce` | executor/common/tpcc_executor.cpp:758-855 | no later history touches a delivered order |
| `Tpcc.DeliveryPerDistrict` | executor/common/tpcc_executor.cpp:758-855 | one delivery serves each district as if alone, its oldest order, and nothing else |
| `Tpcc.RestockIff` | executor/common/tpcc_executor.cpp:286-290 | a shelf stays within 1 to 100 whatever it held exactly for quantities 0 to 91 |
| `Tpcc.StockModulo91` | executor/common/tpcc_executor.cpp:241-304 | over every history a shelf is its start minus committed quantities, modulo 91, repeated items included |
| `Tpcc.StockInRange` | executor/common/tpcc_executor.cpp:241-304 | over every history of such quantities a shelf that starts within 1 to 100 stays there |
| `Tpcc.YtdConserved` | executor/common/tpcc_executor.cpp:407-443 | over every history a warehouse's year-to-date keeps its distance from its districts' sum |
| `Tpcc.MoneyConserved` | executor/common/tpcc_executor.cpp:825-855 | over every history the customers' balances grow by exactly the payments credited and the amounts of delivered orders, each order once |
| `Tpcc.StatusIff` | executor/common/tpcc_executor.cpp:413-468 | exactly a payment at an unknown warehouse and an order status by an unknown name leave a transaction open; exactly a payment at a known warehouse and an unknown district ends the process |
| `Tpcc.AlwaysIdleIff` | executor/common/tpcc_executor.cpp:395-937 | over every history the connection stays undisturbed exactly when no request is one of these |
| `Tpcc.DownForGood` | executor/common/tpcc_executor.cpp:468-468 | after the process has ended nothing is executed |
| `Tpcc.OpenUntilQuery` | executor/common/tpcc_executor.cpp:396-401 | after that nothing commits until a query rolls it back |
| `LruCache.LRUCache.Get` | common/lru/lru_cache.cpp:40-52 | returns the value and moves the key to the front of list and position map |
| `LruCache.LRUCache.Put` | common/lru/lru_cache.cpp:54-69 | updates, inserts, or evicts the last key and inserts; crashes exactly for a new key in an empty cache of capacity 0 |
| `LruCache.LRUCache.SetCapacity` | common/lru/lru_cache.cpp:71-82 | to a smaller capacity evicts from the back until the bound holds; to a negative or larger one evicts nothing |
| `LruCache.LRUCache.Flush` | common/lru/lru_cache.cpp:89-96 | empties the cache and its counters |
| `LruCache.Recency` | common/lru/lru_cache.cpp:40-96 | after any history, changes of capacity included, each key is held once with the last value put, ordered by the last operation that named it |
| `LruCache.BoundedIff` | common/lru/lru_cache.cpp:54-82 | throughout a history the capacity bounds the number of keys exactly when it is never negative |
| `LruCache.ShrinkKeepsRecent` | common/lru/lru_cache.cpp:71-82 | shrinking keeps the most recent keys that fit |
| `LruCache.HeldWasPut` | common/lru/lru_cache.cpp:54-96 | a key is held only if it was put since the last Flush |
| `LruCache.CountersAddUp` | common/lru/lru_cache.cpp:40-106 | hits and misses are the Gets since the last Flush that found their key and those that did not |
| `LruCache.LargerCacheHitsMore` | common/lru/lru_cache.cpp:40-96 | over any history of Get, Put and Flush the smaller cache's keys are a subsequence of the larger's with equal values, so it never hits more |
| `LruCache.NotAPrefix` | common/lru/lru_cache.cpp:40-52 | they need not be a prefix |
| `Transport.Session.OnRead` | platform/networkstrate/async_acceptor.cpp:95-112 | after any chunk the session stands inside one frame with everything before it handed on |
| `Transport.Session.ReadDone` | platform/networkstrate/async_acceptor.cpp:74-93 | a complete size or payload moves to the next part |
| `Transport.Session.Delivered` | platform/networkstrate/async_acceptor.cpp:53-112 | the callback has been given exactly the payloads of the bytes read, however they were cut |
| `Transport.AsyncReplicaClient.OnSendNewMessage` | platform/networkstrate/async_replica_client.cpp:52-61 | takes one message off the queue; an empty one is dropped and sends the sender to rest |
| `Transport.AsyncReplicaClient.OnSend` | platform/networkstrate/async_replica_client.cpp:83-105 | whatever part of a buffer is written, the wire continues the frame |
| `Transport.AsyncReplicaClient.ReConnect` | platform/networkstrate/async_replica_client.cpp:107-117 | the pending message starts again on the new connection, nothing is lost or repeated in the account of messages |
| `Transport.AsyncReplicaClient.DeliversPrefix` | platform/networkstrate/async_replica_client.cpp:39-117 | after any number of failed connections, what was completed on them and what is received of the open one is a prefix of the non-empty messages sent |
| `Transport.PrefixReceived` | platform/networkstrate/async_acceptor.cpp:53-112 | any part of a stream of frames is received as a prefix of its messages |
| `Transport.EndToEnd` | platform/networkstrate/async_replica_client.cpp:39-117 | for every chunking of writes and reads and over any number of connections, any part of each arriving, the payloads handed on are a subsequence of the non-empty messages sent, and those of the open connection are the next ones behind what earlier ones completed |
| `Transport.BatchQueue.Push` | platform/common/queue/batch_queue.h:40-48 | appends to the contents, every batch but the last full |
| `Transport.BatchQueue.Pop` | platform/common/queue/batch_queue.h:52-68 | the batch and what remains concatenate to the contents; it is full unless it was the only one |
| `GeoOrdering.GeoGlobalExecutor.GetNextMap` | platform/consensus/execution/geo_global_executor.cpp:93-112 | hands on the cursor's request exactly when it is the first of the map |
| `GeoOrdering.GeoGlobalExecutor.OrderRound` | platform/consensus/execution/geo_global_executor.cpp:114-125 | a round is one arrival and the maximal drain |
| `GeoOrdering.HandsInitialSegment` | platform/consensus/execution/geo_global_executor.cpp:82-125 | every run hands on an initial segment of (1,1), ..., (1,R), (2,1), ... |
| `GeoOrdering.WaitsForLast` | platform/consensus/execution/geo_global_executor.cpp:82-91 | what waits under a key is the last request that arrived for it |
| `GeoOrdering.ExecutionsArePrefixes` | platform/consensus/execution/geo_global_executor.cpp:82-125 | replicas that get one request per key execute prefixes of one log |
| `GeoOrdering.DrainsMaximally` | platform/consensus/execution/geo_global_executor.cpp:93-125 | unless a request waits below the cursor the next key has not arrived |
| `GeoOrdering.TimelyIff` | platform/consensus/execution/geo_global_executor.cpp:82-125 | nothing waits behind the cursor or for a region that does not exist exactly when every arrival was for an existing region and not below the cursor |
| `GeoOrdering.UnboundedIff` | platform/consensus/execution/geo_global_executor.cpp:82-125 | execution can be carried on without end exactly when every arrival so far was such |
| `GeoOrdering.LateArrivalStops` | platform/consensus/execution/geo_global_executor.cpp:93-112 | one arrival below the cursor stops it for good |
| `GeoOrdering.StuckIff` | platform/consensus/execution/geo_global_executor.cpp:93-125 | a state never hands anything on again, whatever arrives, exactly when a request waits below its cursor |
| `GeoOrdering.OutsideRegionStops` | platform/consensus/execution/geo_global_executor.cpp:93-112 | a request for a region below the first or above the last is never handed on, nor is anything behind it in round order |
| `DuplicateWindow.DuplicateManager.CheckAndAddProposed` | platform/consensus/execution/duplicate_manager.cpp:72-80 | admits a hash that is not held and stamps it |
| `DuplicateWindow.DuplicateManager.CheckAndAddExecuted` | platform/consensus/execution/duplicate_manager.cpp:82-92 | the same, with its sequence number |
| `DuplicateWindow.DuplicateManager.UpdateRecentHash` | platform/consensus/execution/duplicate_manager.cpp:105-142 | a round of the sweep, sequence numbers going with their hashes |
| `DuplicateWindow.NoDuplicateInWindow` | platform/consensus/execution/duplicate_manager.cpp:72-142 | in every interleaving of checks and sweep turns two admissions of a hash lie more than the window apart |
| `DuplicateWindow.AdmittedIff` | platform/consensus/execution/duplicate_manager.cpp:72-142 | once the sweep has finished for a time, a check is refused exactly when its hash was admitted within the window before that time or since |
| `DuplicateWindow.FirstIsAdmitted` | platform/consensus/execution/duplicate_manager.cpp:72-92 | a hash never admitted is never refused |
| `DuplicateWindow.SweepExact` | platform/consensus/execution/duplicate_manager.cpp:105-142 | a finished sweep keeps exactly the hashes stamped within the window |
| `VersionedStore.MemoryDB.SetValueWithVersion` | chain/storage/memory_db.cpp:72-84 | appends the next version exactly when the given one is current |
| `VersionedStore.MemoryDB.GetValueWithVersion` | chain/storage/memory_db.cpp:86-106 | that version, else the last, else the empty value |
| `VersionedStore.MemoryDB.GetHistory` | chain/storage/memory_db.cpp:129-148 | the versions of a range, newest first |
| `VersionedStore.MemoryDB.GetTopHistory` | chain/storage/memory_db.cpp:150-167 | the newest so many versions, at least one |
| `VersionedStore.ResLevelDB.SetValueWithVersion` | chain/storage/leveldb.cpp:147-173 | compares with the disk, adds to the write batch, writes it out when full |
| `VersionedStore.ResLevelDB.Flush` | chain/storage/leveldb.cpp:137-145 | writes the batch out whatever its size |
| `VersionedStore.ResLevelDB.GetValueWithVersion` | chain/storage/leveldb.cpp:175-200 | refines the same specification from serialized histories |
| `VersionedStore.ResLevelDB.GetAllItems` | chain/storage/leveldb.cpp:203-221 | the last version of every key |
| `VersionedStore.ResLevelDB.GetHistory` | chain/storage/leveldb.cpp:246-267 | the versions of a range, newest first |
| `VersionedStore.ResLevelDB.GetTopHistory` | chain/storage/leveldb.cpp:270-287 | the newest so many versions |
| `VersionedStore.HistoryExact` | chain/storage/memory_db.cpp:129-148 | a range holds exactly the existing versions within it, consecutive and newest first |
| `StoreRuns.SameAnswersIff` | chain/storage/leveldb.cpp:79-287 | whenever batches go out, the specified answers of the two stores agree on an operation sequence exactly when no operation sees a value still in the batch or asks for the top zero of a stored key |
| `StoreRuns.DriveMemory` | chain/storage/memory_db.cpp:72-167 | the in-memory store, driven through any operation sequence, gives the specified answers |
| `StoreRuns.DriveLevelDB` | chain/storage/leveldb.cpp:79-287 | so does the store on disk, whenever its batch fills up or is flushed |
| `StoreRuns.CompareStores` | chain/storage/leveldb.cpp:79-287 | driven through the same operations the two stores answer alike exactly then |
| `StoreRuns.LastTakenWins` | chain/storage/leveldb.cpp:147-173 | over every history each version, on disk or in the batch, holds the value last accepted for it |
| `StoreRuns.ReplacesIff` | chain/storage/leveldb.cpp:147-173 | a later accepted write of a key replaces an earlier one exactly when the batch did not go out in between |
| `StoreRuns.LastsIff` | chain/storage/leveldb.cpp:79-173 | an accepted value keeps its version for good exactly when the batch goes out before any later accepted write of its key |
| `StoreRuns.FirstIsLost` | chain/storage/leveldb.cpp:79-173 | two accepted writes of one version of which the first is lost |
| `StoreRuns.VersionsStay` | chain/storage/memory_db.cpp:72-84 | in memory, versions once stored stay under any further operations |
| `StoreRuns.ReadsBack` | chain/storage/memory_db.cpp:72-106 | after any further operations, reading the version an accepted write made gives its value |
| `StoreRuns.LastReadsBack` | chain/storage/memory_db.cpp:86-127 | all items, and a read of a version that does not exist, give the last accepted write of the key with its version |
| `StoreRuns.DiskReadsBack` | chain/storage/leveldb.cpp:175-200 | on disk, reading a version that was written gives the value last accepted for it |
| `Quorums.QuorumsMeetIff` | platform/config/resdb_config.cpp:119-137 | any two data quorums share a non-faulty replica for every choice of f faulty ones exactly for n = 3f + 1 |
| `Quorums.TxnRead.OnReply` | interface/common/resdb_txn_accessor.cpp:68-78 | counts replies and keeps the text that last completed the count |
| `Quorums.ReadIsCorrect` | interface/common/resdb_txn_accessor.cpp:68-78 | the text a client takes was sent by a correct replica |
| `Quorums.ReadAgrees` | interface/common/resdb_txn_accessor.cpp:68-78 | when correct replicas answer alike the client takes their answer once f + 1 of them are heard |
| `Quorums.ClientCountIsLeast` | platform/config/resdb_config.cpp:119-137 | f + 1 is the least safe count: with any smaller one faulty replicas alone decide a read |
| `TdHotstuff.QuorumsOverlap` | platform/consensus/ordering/td_hotstuff/algorithm/td_hotstuff.cpp:29-36 | two weighted quorums share more than a third of the weight |
| `TdHotstuff.ThresholdIsLeast` | platform/consensus/ordering/td_hotstuff/algorithm/td_hotstuff.cpp:29-36 | for every smaller threshold there are weights and two sets that reach it and share at most a third |
| `TdHotstuff.CorrectReachIff` | platform/consensus/ordering/td_hotstuff/algorithm/td_hotstuff.cpp:29-36 | the correct replicas reach the threshold by themselves exactly when the others weigh under a third |
| `TdVotes.VoteCollector.Screen` | platform/consensus/ordering/td_hotstuff/algorithm/td_hotstuff.cpp:386-406 | lets through a known signer for a slot above the last formed one and not marked done |
| `TdVotes.VoteCollector.CountVote` | platform/consensus/ordering/td_hotstuff/algorithm/td_hotstuff.cpp:415-504 | counts each named signer once per view and hash, and forms a certificate with the vote that first carries the ballot over the threshold |
| `TdVotes.VoteCollector.ReceiveCertificate` | platform/consensus/ordering/td_hotstuff/algorithm/td_hotstuff.cpp:378-504 | a vote is ignored, ends the process on a bad signature, or is counted |
| `TdVotes.InvRun` | platform/consensus/ordering/td_hotstuff/algorithm/td_hotstuff.cpp:378-504 | over every interleaving of collecting threads each certificate formed is a quorum of named signers, each with a verified vote for that view and hash |
| `TdVotes.VotersAfter` | platform/consensus/ordering/td_hotstuff/algorithm/td_hotstuff.cpp:415-504 | a counted vote adds its signer to its own ballot; a certificate drops the ballots of two views back; every other ballot keeps its voters |
| `TdVotes.FormedSlotIsClosed` | platform/consensus/ordering/td_hotstuff/algorithm/td_hotstuff.cpp:395-462 | in every run no vote for a slot that has its certificate is let through, until one has formed more than two views later |
| `TdVotes.BothFormIff` | platform/consensus/ordering/td_hotstuff/algorithm/td_hotstuff.cpp:378-504 | some run of a collector forms certificates for two proposals of one slot exactly when some replica is faulty and there is any weight, or a quorum of replicas that took it, or are faulty, stands behind each |
| `TdVotes.OneKeyForms` | platform/consensus/ordering/td_hotstuff/algorithm/proposal_manager.cpp:52-54 | votes signed with one faulty key in everybody's name form both certificates of a slot, since the signer field is not compared with the key |
| `TdVotes.OneCertificateIfNoneFaulty` | platform/consensus/ordering/td_hotstuff/algorithm/td_hotstuff.cpp:378-504 | with no faulty replica, while those that took both proposals weigh at most a third, no two collectors form certificates for both |
| `TdVotes.BothFormNamedIff` | platform/consensus/ordering/td_hotstuff/algorithm/td_hotstuff.cpp:424-433 | were votes counted only in the name of the key that signed them, both could form exactly when a quorum stands behind each |
| `TdVotes.OneCertificatePerSlot` | platform/consensus/ordering/td_hotstuff/algorithm/td_hotstuff.cpp:424-433 | for collectors that count votes only in the name of the key that signed them, which the code does not ask: while the replicas that are faulty or took both proposals weigh at most a third, no two form certificates for both |
| `TdVotes.TakesBoth` | platform/consensus/ordering/td_hotstuff/algorithm/proposal_manager.cpp:103-129 | a replica that took a proposal takes another of the same slot on the same certificate |
| `TdVotes.TwoCertificates` | platform/consensus/ordering/td_hotstuff/algorithm/td_hotstuff.cpp:331-376 | two such proposals sent to everyone: a run in which both certificates form |
| `TdVotes.SerialRises` | platform/consensus/ordering/td_hotstuff/algorithm/td_hotstuff.cpp:378-504 | a collector that handles one vote at a time forms certificates of strictly rising view and slot, whoever voted for what |
| `TdVotes.FormedVerifies` | platform/consensus/ordering/td_hotstuff/algorithm/proposal_manager.cpp:57-101 | every certificate formed passes the check a receiver makes of its signatures |
| `TdVotes.AcceptedIsQuorumIff` | platform/consensus/ordering/td_hotstuff/algorithm/proposal_manager.cpp:57-101 | what that check accepts is signed by a quorum exactly when every single replica is one |
| `TdVotes.NeverForTwo` | platform/consensus/ordering/td_hotstuff/algorithm/proposal_manager.cpp:57-101 | so with two or more replicas it accepts certificates that no quorum signed |
| `TdVotes.RepeatedVerifies` | platform/consensus/ordering/td_hotstuff/algorithm/proposal_manager.cpp:57-101 | one valid signature repeated as often as the check asks for is accepted |
| `TdHotstuff.ProposalManager.CheckQC` | platform/consensus/ordering/td_hotstuff/algorithm/proposal_manager.cpp:57-101 | accepts exactly the lists of valid signatures that are as long as the threshold over the largest weight, rounded up |
| `TdHotstuff.LeaderElection.VRFLeader` | platform/consensus/ordering/td_hotstuff/algorithm/td_hotstuff.cpp:112-147 | the leader owns the position the view's digest falls on, cached or not |
| `TdHotstuff.FourBytes` | platform/consensus/ordering/td_hotstuff/algorithm/td_hotstuff.cpp:125-129 | the value drawn is that of the digest's first four bytes, most significant first |
| `TdHotstuff.EveryPositionHit` | platform/consensus/ordering/td_hotstuff/algorithm/td_hotstuff.cpp:125-133 | every position below a 32-bit total is hit by some digest |
| `TdHotstuff.LeaderShares` | platform/consensus/ordering/td_hotstuff/algorithm/td_hotstuff.cpp:45-52 | every position has an owner and each replica owns as many as its weight |
| `TdHotstuff.OneOwner` | platform/consensus/ordering/td_hotstuff/algorithm/td_hotstuff.cpp:132-141 | no position has two owners |
| `TdHotstuff.ProposalManager.ReceiveProposal` | platform/consensus/ordering/td_hotstuff/algorithm/proposal_manager.cpp:115-243 | votes for a proposal whose hash verifies and which is of the first view or carries a verified certificate no older than the lock; then locks a newer certificate and commits the parent if it is at hand |
| `TdHotstuff.LockNeverFalls` | platform/consensus/ordering/td_hotstuff/algorithm/proposal_manager.cpp:184-220 | over any events the lock never moves back |
| `TdHotstuff.GenericIsNewest` | platform/consensus/ordering/td_hotstuff/algorithm/proposal_manager.cpp:184-221 | over any events the generic certificate is the newest of those formed here and those of the proposals taken, or none |
| `TdHotstuff.FollowerCommits` | platform/consensus/ordering/td_hotstuff/algorithm/proposal_manager.cpp:103-128 | for any chain, loss, repetition and order of arrival in which no first-view proposal comes behind a later one, a follower commits along the chain and none twice |
| `TdHotstuff.CommitsIff` | platform/consensus/ordering/td_hotstuff/algorithm/proposal_manager.cpp:214-243 | a follower's log holds a proposal exactly when its successor arrived while it was the furthest seen |
| `TdHotstuff.GapFreeIff` | platform/consensus/ordering/td_hotstuff/algorithm/proposal_manager.cpp:214-243 | the log is everything before the furthest proposal exactly when no arrival jumps ahead of the next one |
| `TdHotstuff.LogIsPrefixIff` | platform/consensus/ordering/td_hotstuff/algorithm/proposal_manager.cpp:214-243 | a follower's log is a prefix of the chain exactly when nothing is committed after an arrival that jumps ahead |
| `TdHotstuff.FollowersAgree` | platform/consensus/ordering/td_hotstuff/algorithm/proposal_manager.cpp:214-243 | the logs of two such followers are prefixes of each other |
| `TdHotstuff.JumpsDisagree` | platform/consensus/ordering/td_hotstuff/algorithm/proposal_manager.cpp:214-243 | two followers of one chain, one with a jump, whose logs are not |
| `TdHotstuff.InOrderCommitsAll` | platform/consensus/ordering/td_hotstuff/algorithm/proposal_manager.cpp:214-243 | a follower that gets a chain in order, from whatever view, commits all but the last |
| `TdHotstuff.NeverTwiceIff` | platform/consensus/ordering/td_hotstuff/algorithm/proposal_manager.cpp:115-128 | no arrival order makes a follower commit twice exactly for chains past the first view |

## Left out

- The other ordering protocols (HotStuff, HotStuff-1, HotStuff-2, slotted HotStuff-1, PoE, Zyzzyva, PBFT), view changes and pacemaker timing.
- TdVotes.VoteCollector.ReceiveCertificate: views and slots are not negative; `view * 100000 + slot` is kept as the code has it, and distinct pairs that collide there are not told apart. VerifyCert checks the key the signature names and never compares it with the signer field, so what is counted once is the named signer.
- TdVotes.OneCertificatePerSlot: requires that votes name the replica that signed them. The code does not compare the two, so of the code only `BothFormIff` and `OneCertificateIfNoneFaulty` hold; hashes of proposals do not collide.
- TdHotstuff.FollowerCommits: replicas that form certificates themselves and the fork and rollback experiment switches are not modelled; whether the hash of a proposal verifies is part of it.
- TdHotstuff.FollowersAgree: followers that commit after a jump need not agree (`JumpsDisagree`); the code has no catch-up.
- RegistrationRaces.SerialIff: a registration whose assertion fails ends the process, as in a build with assertions.
- ExecutionPipeline: the 2048 shards of each map are one map, since a uid always selects the same shard; response sending and statistics are not modelled.
- ExecutionPipeline.ExecutesDirectParse: one execute thread, a uid prepared at most once and naming one request; nothing in the repository calls Prepare, so this is what the code needs of a caller, not what one does.
- WriteAheadLog: records whose encodings reach 2^64 bytes; appending behind a torn tail, and switching files, whose running minimum the code discards.
- RecoveryFiles.GetRecoveryFiles: files with equal times are ordered as found, not by path; the open file is the newest by its name, not by the 32-bit time GetLastFile keeps.
- Utxo: 64-bit wrap-around of sums; a negative output position, which indexes a protobuf list out of range, is taken to end the process; the paged listing of transactions.
- AssetLedger.NoOutputSpentTwice: CREATE inputs fulfil nothing. An output named from the end can be spent a second time (`NegativePositionRespends`), so the model promises single spending for positions counted from the start only.
- AssetLedger.AssetConservedIff: amounts are at least 1, as the constructor of an output demands; `AssetDrift` is for any amounts.
- Signing: the choice of a smallest set of signed leaves when a threshold fulfillment is serialized, which is library code.
- Tpcc: receipts, customer lookup by name (its result is an argument), HISTORY rows.
- Tpcc.YtdConserved: amounts are real numbers, where SQLite adds doubles; rounding is not modelled.
- Tpcc.MoneyConserved: the same.
- Tpcc.RunConsistent: the tables must be consistent to start with.
- LruCache.Recency: after a new key put into an empty cache of capacity 0, where the code is undefined, the model inserts it.
- LruCache.LargerCacheHitsMore: capacities of at least 1 that do not change.
- Transport.EndToEnd: what a broken connection accepted and lost is lost, as in the code; when a sender at rest wakes up is not modelled.
- DuplicateWindow.NoDuplicateInWindow: the sweep's sleep never returns early.
- DuplicateWindow: explicit erasure and unconditional adding, after which the window means nothing.
- StoreRuns.CompareStores: at most 2^31 - 1 operations, for the 32-bit positions; writes that fail, and unversioned keys, are not modelled.
- Sockets, threads, timeouts, logging, statistics, the GraphQL services, scripts and user interfaces.
