# Verified model of the order-processing protocol

A Dafny model of how Micromart takes an order: the inventory service's reservation ledger, the order
service's saga that drives it with crash recovery, idempotent order creation in front of it, and the loops
around them (keyset pagination, the analytics queue, client-side retries, money totals). `dafny verify
dfyconfig.toml` checks everything.

## How it is laid out

| file | what it holds |
|---|---|
| `StockLedger.dfy` | products, reservation rows, the committed effect of one transaction, the ledger invariant |
| `LedgerTheorems.dfy` | reserve decided exactly, conservation, effect-once, compensation cancels, settling several orders |
| `StockRepository.dfy` | the transactions as a class with tables, loops, early returns and rollback |
| `LedgerConcurrency.dfy` | the transactions statement by statement under row locks; serializability, and that every transaction is answered |
| `LedgerOverlap.dfy` | the same without the assumption it needs: exactly when overlapping transactions of one order break the ledger |
| `SagaProtocol.dfy`, `SagaTheorems.dfy` | Execute, crash and Resume as a step machine for any number of orders; its invariant and theorems |
| `SagaOutcome.dfy` | how one Execute ends, by the fates of its statements; what must have happened before an order is completed or compensated |
| `SagaRecovery.dfy` | Resume in closed form for any fate of its releases; Resume cut short any number of times and run again |
| `SagaOrchestrator.dfy` | Execute and Resume as methods over tables, proved against the step machine; the analytics event |
| `OrderCreation.dfy`, `ProductLookup.dfy` | concurrent idempotent creation; the check of one ordered item |
| `OrderService.dfy`, `Money.dfy` | one request as it runs, with its saga; order totals |
| `Retry.dfy`, `RetriedCalls.dfy` | the retry loop and its delays; what retrying does to the ledger and tells the caller |
| `Pagination.dfy`, `Cursor.dfy` | keyset pages and traversals; page tokens against section 4 of RFC 4648 |
| `Analytics.dfy` | the bounded event queue and its batching consumer |
| `Common.dfy` | an option type and helpers for sequences without duplicates |

A reservation table is a sequence in commit order, so a row's position stands for its id. Release and
decrement run the same statements over different columns; both are `Settle` with a status.

## Where the code does less than its documentation

For each of these the exact condition is proved; where an input is not plain from it, a lemma gives one.

- **Duplicate requests.** The repository's README (line 167) says duplicates return the original order. A well-formed
  duplicate that arrives after the first request's commit, whose SELECT works and that does not die, does so
  exactly if the cache answers it or each of its items is valid and its product found active when it is looked up
  (`OrderCreation.RetryIsAnswered`; an input, with the product deactivated since:
  `OrderCreation.DeactivatedDuplicateErrs`). The cache answers as long as the entry has not expired
  (`OrderCreation.CachedIsAnswered`). `OrderCreation.ErrsExactly` says for every request when it is answered with an
  error; for a duplicate that overlaps the first request, `OrderCreation.OverlappingDuplicateErrs` is an input.
  No interleaving creates a second order or saga (`OrderCreation.OneOrderPerKey`).
- **Lost replies.** A reserve or decrement whose reply is lost has taken effect although Execute takes it for
  failed. Order, saga and rows agree on one outcome exactly if that did not happen, no needed release was lost and
  no two attempts of a completed order's reserve found room (`SagaTheorems.SagaAtomicity`; an input:
  `SagaTheorems.LostReplyBreaksAtomicity`).
- **Retried reserves.** The order service dials the inventory service with three retries. Retrying a release or
  decrement is harmless (`RetriedCalls.RetriedSettleIsOne`). A retried reserve adds the order's rows once per
  attempt that commits (`RetriedCalls.RetriedReserveAdds`). It commits at most once, and is then one attempt for
  ledger and caller, exactly if no attempt that reaches the server after the first that fits finds room again
  (`RetriedCalls.CommitsOnceExactly`, `RetriedCalls.RetriedReserveIsOne`; an input that commits twice:
  `RetriedCalls.RetryReservesTwice`).
- **Resume.** It may be cut short and run again any number of times, exactly if no cut falls between the two writes
  of `fail` (`SagaRecovery.ResumeRerun`). After such a cut the saga is FAILED, no later Resume selects it, and its
  order keeps the status it had whatever follows (`SagaRecovery.TornForGood`; an input:
  `SagaRecovery.CutTearsForGood`).
- **Release over a concurrent reserve.** Release and decrement mark rows by predicate, not by the ids they read.
  A run ends in a valid ledger exactly if no settle commits whose order had a reserve commit between the settle's
  SELECT and its UPDATE by predicate (`LedgerOverlap.OverlapDecides`; an input:
  `LedgerConcurrency.OverlapBreaksTheLedger`).
- **Page tokens.** A token silently restarts the listing exactly if it is not base64 or is empty but for line breaks
  (`Pagination.RestartsExactly`).
- **Closing analytics.** Events published after the consumer's drain has ended are accepted and lost, and only
  those (`Analytics.LostIsLate`; an input, for every event: `Analytics.LateEventIsLost`).

## Assumptions

- `LedgerConcurrency.Serializable` assumes that no reserve of an order commits between the SELECT and the COMMIT of
  a release or decrement of the same order. Callers with at most one transaction open for each order meet it
  (`LedgerConcurrency.OneAtATimeNeverOverlaps`). `LedgerOverlap.OverlapDecides` does without it.
- SagaProtocol takes each inventory call of an order as one transaction that ends before the order's next call or
  retry; an attempt that the inventory service commits only after that is excluded.
- Writes to the order database inside Execute and Resume succeed. The code discards their errors. The two
  statements whose errors Execute does look at (find saga, create saga) may fail.
- A call does not outlive the Execute that made it: the inventory service does not commit a transaction after the
  order service has crashed and resumed. One instance of the order service runs, and Resume's own query succeeds.
- A failed COMMIT is a rollback. Ids that the database generates are fresh.
- A call's request or reply may be lost, in Execute and in Resume alike; an open circuit breaker is a lost request.
  In the saga's step machine a reserve may be retried up to three times after a lost message. A release or decrement
  is one attempt there: with its retries it amounts to one, for ledger and caller
  (`RetriedCalls.RetriedSettleIsOne`, `RetriedCalls.OnceIsOneAttempt`).

## Model

| member | source | states |
|---|---|---|
| StockLedger.QtyMark | services/inventory/stock_repository.go:101-105 | the UPDATE by predicate moves exactly the matched quantity from RESERVED to the new status, per product |
| StockLedger.ReserveOneValid | services/inventory/stock_repository.go:23-59 | one item is reserved if and only if its quantity is positive, the product exists and the stock is free; the invariant is kept and no constraint fires |
| StockLedger.SettleValid | services/inventory/stock_repository.go:69-157 | release and decrement keep the ledger invariant for any set of rows |
| StockLedger.ApplyValid | services/inventory/stock_repository.go:15-157 | every transaction, with any arguments, keeps: reserved counter = sum of RESERVED rows, 0 <= reserved <= available <= 2^31-1 |
| StockLedger.RunValid | services/inventory/stock_repository.go:15-157 | the ledger invariant holds after every run of transactions from empty tables |
| StockLedger.NoOverflow | services/inventory/stock_repository.go:36 | in a valid ledger the int32 subtraction is exact and not negative |
| StockLedger.WrapIsCongruent | services/inventory/stock_repository.go:36 | int32 arithmetic changes a number by a multiple of 2^32 only, and a number in range not at all |
| StockLedger.LoopApplies | services/inventory/stock_repository.go:90-99 | applying a selection of RESERVED rows, in any order, never violates a CHECK constraint as long as the counters cover the rows |
| StockLedger.ChecksNeverFire | services/inventory/stock_repository.go:90-99 | in a valid ledger, in whatever order the selected rows come back, every prefix of the update loop passes the CHECK constraints, and the whole loop gives the committed effect |
| LedgerTheorems.ReserveExact | services/inventory/stock_repository.go:22-66 | a reserve commits if and only if all quantities are positive, all products exist and each product's total demand is free, and then adds exactly the demanded totals and rows |
| LedgerTheorems.ReserveRefusal | services/inventory/stock_repository.go:29-40 | a refused reserve reports the first item that no longer fits, as not found or insufficient stock |
| LedgerTheorems.ReserveAnyOrder | services/inventory/stock_repository.go:22-66 | outcome and final stock do not depend on the order of the items |
| LedgerTheorems.HoldFrame | services/inventory/stock_repository.go:15-157 | a transaction of another order does not change what an order holds |
| LedgerTheorems.RowsFrozen | services/inventory/stock_repository.go:101-105 | rows are never deleted, only their own order changes them, and RELEASED and DECREMENTED rows never change again |
| LedgerTheorems.Conservation | services/inventory/stock_repository.go:134-151 | in every run, available plus the sum of DECREMENTED rows equals the product's initial stock, so sales never exceed it |
| LedgerTheorems.EffectOnce | services/inventory/stock_repository.go:76-108 | of all deliveries of release and decrement for a reserved order the first takes effect; every later one reports an invalid reservation and changes nothing |
| LedgerTheorems.CompensationCancels | services/inventory/stock_repository.go:15-157 | reserve, committed transactions of others, release: those others succeed alone too and the stock is what they produce alone; with decrement only available differs, by the order's totals |
| LedgerTheorems.SettledUnion | services/inventory/stock_repository.go:69-157 | settling orders one after another is settling them together, so their order does not matter |
| StockTransactions.StockRepository.CreateProduct | services/inventory/product_repository.go:18-32 | inserts a product with no reserved stock, or changes nothing |
| StockTransactions.StockRepository.ReserveItem | services/inventory/stock_repository.go:23-59 | the three statements of one item have the specified effect, or report its failure |
| StockTransactions.StockRepository.ReserveStock | services/inventory/stock_repository.go:15-67 | commits and answers as the specification, or rolls everything back; it succeeds if and only if the specification does and the database fails none of its statements |
| StockTransactions.StockRepository.SelectReserved | services/inventory/stock_repository.go:77-81 | returns the order's RESERVED rows, all and only those |
| StockTransactions.StockRepository.UpdateEach | services/inventory/stock_repository.go:90-99 | applies one update per selected row |
| StockTransactions.StockRepository.ReleaseStock | services/inventory/stock_repository.go:69-111 | commits and answers as the specification, or rolls everything back; it succeeds if and only if the specification does and the database fails none of its statements |
| StockTransactions.StockRepository.DecrementStock | services/inventory/stock_repository.go:113-157 | commits and answers as the specification, or rolls everything back; it succeeds if and only if the specification does and the database fails none of its statements |
| StockTransactions.AgreesKeepsValid | services/inventory/stock_repository.go:15-157 | whatever a transaction answers, it leaves a valid ledger |
| StockTransactions.ValidateReserve | services/inventory/stock_server.go:13-34 | the server accepts exactly the calls with an order id, at least one item, product ids and positive quantities |
| LedgerConcurrency.ReserveLocal | services/inventory/stock_repository.go:25-51 | a reserve's outcome depends only on the product rows it has locked |
| LedgerConcurrency.TxOkFrame | services/inventory/stock_repository.go:77-105 | a commit of another transaction leaves an open transaction's private versions correct |
| LedgerConcurrency.NextInv | services/inventory/stock_repository.go:15-157 | every statement, commit, refusal and abort keeps the invariant of the interleaved system |
| LedgerConcurrency.Serializable | services/inventory/stock_repository.go:15-157 | every interleaving of statements commits and answers exactly as the transactions run one at a time, in the order in which they answered |
| LedgerConcurrency.CanGoOn | services/inventory/stock_repository.go:15-157 | a transaction that waits for no lock can always take its next statement |
| LedgerConcurrency.StatementDecides | services/inventory/stock_repository.go:15-157 | each statement lowers the number of statements left, or answers with the outcome of the atomic operation on the tables as committed |
| LedgerConcurrency.CreatesExactly | services/inventory/product_repository.go:18-32 | beside any open transactions a product is created, with its stock and nothing reserved, if and only if its id is new and the stock fits the column |
| LedgerConcurrency.CanAbort | services/inventory/stock_repository.go:20 | a transaction may fail at every point, and then nothing but the transaction is gone |
| LedgerConcurrency.AnsweredAlone | services/inventory/stock_repository.go:15-157 | alone, every transaction is answered within that number of statements, with that outcome and those tables |
| LedgerConcurrency.AnsweredInTime | services/inventory/stock_repository.go:15-157 | in every interleaving a transaction past its SELECT is answered or aborted within the statements left to it |
| LedgerConcurrency.ApartNeverBlocks | services/inventory/stock_repository.go:25-30 | transactions of different orders wait for each other over products only |
| LedgerConcurrency.OneAtATimeNeverOverlaps | services/inventory/stock_repository.go:15-157 | if a transaction begins only when no other one of its order is open, the no-overlap assumption holds in every interleaving |
| LedgerConcurrency.OverlapBreaksTheLedger | services/inventory/stock_repository.go:101-105 | an input: a reserve commits between the SELECT and the UPDATE by predicate of a release of its order, and the run ends in an invalid ledger |
| LedgerOverlap.SettleDecides | services/inventory/stock_repository.go:69-157 | the commit of a settle leaves the ledger valid if and only if it was valid and every row marked had been selected |
| LedgerOverlap.OverlapDecides | services/inventory/stock_repository.go:15-157 | every interleaving, overlaps included, keeps each counter between its RESERVED rows and the stock, and ends in a valid ledger if and only if no settle committed that a reserve of its order had overtaken between SELECT and UPDATE by predicate |
| LedgerOverlap.NoOverlapNotBroken | services/inventory/stock_repository.go:15-157 | runs under the no-overlap assumption are among those |
| SagaTheorems.NextInv | services/order/saga.go:73-193 | every step of any Execute, crash, restart and step of Resume keeps the cross-service invariant |
| SagaTheorems.Reachable | services/order/saga.go:73-193 | the cross-service invariant holds in every reachable world |
| SagaTheorems.SagaAtomicity | services/order/saga.go:109-155 | when Execute has returned, its reserve retried any allowed number of times, order, saga and rows agree on completed or failed, if and only if no effective reserve or decrement went unreported, no needed release was lost and the order was not completed after two attempts of its reserve had reached the server and found room |
| SagaTheorems.LostReplyBreaksAtomicity | services/order/saga.go:121-126 | an input: the reply of an effective reserve is lost, and the order is FAILED while its stock stays reserved |
| SagaTheorems.AfterRecovery | services/order/saga.go:178-193 | once serving again no saga is in progress, the ledger is valid, and a failed saga's order is FAILED unless a crash fell between the two writes of fail |
| SagaTheorems.WhatFailureLeaves | services/order/saga.go:121-155 | a failed saga keeps RESERVED rows exactly after a crash between an attempt of the reserve that committed and the write of the reservation id, an effective reserve that went unreported or a lost release; DECREMENTED rows exactly after a crash between decrement and completion or a lost decrement reply |
| SagaTheorems.CrossServiceStep | services/order/saga.go:118-155 | a saga past its first step knows its reservation, rows are sold only when it is confirming, the order status lags by at most one write |
| SagaTheorems.ExecuteProgresses | services/order/saga.go:73-176 | a running Execute can always step, each step lowers a measure that starts at 16, and a retry lowers what is left of three |
| SagaOutcome.ExecuteOutcome | services/order/saga.go:73-176 | for every combination of fates: whether the Execute of a fresh order starts, fails or completes, and in which status its reservation rows end |
| SagaOutcome.CompletesExactly | services/order/saga.go:73-176 | it completes if and only if the saga could be checked and created, the items fit, and reserve, payment and decrement were answered with a success |
| SagaOutcome.NeverStarts | services/order/saga.go:84-113 | for an order that has a saga, or if the saga cannot be checked or created, Execute changes nothing |
| SagaOutcome.OnlyPaidIsCompleted | services/order/saga.go:134-155 | in every run a completed order was paid and its goods sold, neither ever refused; an order that its Execute compensates, or fails with its reservation known, was refused payment or its goods were not sold |
| SagaRecovery.ResumeWhole | services/order/saga.go:178-193 | a complete Resume closes exactly the sagas in progress and gives back exactly the stored reservations whose release arrives, for any fates and in whatever order they are listed |
| SagaRecovery.ResumeRerun | services/order/saga.go:178-193 | from any reachable world: runs of Resume cut short by crashes, any number and with any fates of their releases, and then a whole one, end as one whole run in which a release arrives if any of them did, if and only if no crash fell between the two writes of fail |
| SagaRecovery.TornForGood | services/order/saga.go:293-298 | in that excepted case the order and its saga never change again, in any continuation: the saga is FAILED and the order is not |
| SagaRecovery.CutTearsForGood | services/order/saga.go:293-298 | an input: a crash before the reserve, and a Resume that a second crash cuts between the two writes of fail, after which no continuation ever fails the order |
| SagaOrchestration.SagaOrchestrator.Execute | services/order/saga.go:73-176 | one Execute, alone, ends in the tables of the world that the step machine reaches by the order's steps, touches no other order, and publishes one event with the input's total if it completes the saga, none otherwise |
| SagaOrchestration.ReturnedReached | services/order/saga.go:73-176 | that world is reached by a run of the step machine |
| SagaOrchestration.ReturnedAtomicity | services/order/saga.go:73-176 | so what Execute leaves behind is atomic if and only if no mishap occurred |
| SagaOrchestration.SagaOrchestrator.Drive | services/order/saga.go:117-176 | the reserve step and everything after it |
| SagaOrchestration.SagaOrchestrator.Reserve | services/order/saga.go:121-127 | the reserve call, and everything after its answer |
| SagaOrchestration.SagaOrchestrator.Pay | services/order/saga.go:127-140 | the payment step and everything after it |
| SagaOrchestration.SagaOrchestrator.Confirm | services/order/saga.go:142-176 | the confirmation step and everything after it |
| SagaOrchestration.SagaOrchestrator.Complete | services/order/saga.go:153-171 | completes order and saga, then publishes the event |
| SagaOrchestration.SagaOrchestrator.Abandon | services/order/saga.go:134-138 | compensation, then fail |
| SagaOrchestration.SagaOrchestrator.CompensateReserve | services/order/saga.go:239-256 | releases a reservation; an empty id is left alone |
| SagaOrchestration.SagaOrchestrator.Fail | services/order/saga.go:293-302 | marks the saga and then the order failed |
| SagaOrchestration.SagaOrchestrator.Resume | services/order/saga.go:178-193 | ends in the tables of the step machine's whole Resume, whichever order that lists the sagas in; fails every saga in progress with its order, gives back the stock whose release arrives, and changes nothing else |
| SagaOrchestration.SagaOrchestrator.SelectInProgress | services/order/saga.go:180 | lists each saga in progress once |
| OrderCreation.StepInv | services/order/order_repository.go:23-93 | every statement of a creating request keeps keys unique, sagas unique and answers consistent |
| OrderCreation.Reachable | services/order/order_server.go:16-115 | that invariant holds over every interleaving, with cache expiry and dying requests |
| OrderCreation.OneOrderPerKey | services/order/order_server.go:25-112 | a non-empty key has at most one order, an order at most one saga, a running Execute has its saga, and all answers for a key name the same order |
| OrderCreation.FailureWritesNothing | services/order/order_server.go:25-112 | a statement that fails leaves orders, sagas and cache as they were |
| OrderCreation.RetryIsAnswered | services/order/order_server.go:16-112 | a well-formed request of n items that arrives with its key committed, of which the SELECT works and the process lives, is by its step n + 2 answered with that order if and only if the cache answered it or every item passed its lookup, in every interleaving; its steps until then add neither an order nor a saga |
| OrderCreation.CachedIsAnswered | services/order/order_server.go:25-33 | a request writes its answer into the cache, and until the entry expires every request with the key whose cache read works is answered from there at its first step, whatever has become of the products |
| OrderCreation.CreatesOrder | services/order/order_server.go:16-115 | a request for orderable items with a free key, alone and with all statements working, adds exactly one order and one saga, caches its answer and is answered with that order, after n + 9 steps |
| OrderCreation.RequestProgresses | services/order/order_server.go:16-115 | whatever fails, a request that has not ended can take its next step unless its INSERT waits for another transaction, and each step brings it closer to its end |
| OrderCreation.SagaAfterCheck | services/order/saga.go:84-113 | a saga is started only after it was found that there is none |
| OrderCreation.DeactivatedDuplicateErrs | services/order/order_server.go:39-64 | an input: the key is committed and answered, the cache entry has expired and the product was deactivated; the same request is refused |
| OrderCreation.ErrsExactly | services/order/order_server.go:16-115 | a request ends in an error of a given code if and only if it is malformed, or an item's lookup refuses it with that code or fails, or SELECT, INSERT, COMMIT or the final read fails, or it dies, or its key was not committed at its SELECT and was at its INSERT; failures of cache and saga statements never are the reason |
| OrderCreation.OverlappingDuplicateErrs | services/order/order_repository.go:63-71 | an input: two overlapping requests with one key, of which one creates the order and the other is answered with an error |
| OrderService.PriceItems | services/order/order_server.go:39-64 | prices the items in order at the catalog's prices, or reports the first refused item's code |
| ProductLookup.CheckDecides | services/order/order_server.go:39-57 | an item is accepted if and only if it is valid and its product is found and active, and which code says what is wrong |
| OrderService.OrderServer.InsertItems | services/order/order_repository.go:73-86 | the loop inserts all items if and only if each can be stored and no statement fails |
| OrderService.OrderServer.InsertOrder | services/order/order_repository.go:23-93 | finds the key's order, or inserts one row with all items and its total, or, if the database refuses a statement or the commit, changes nothing |
| OrderService.OrderServer.RunOrder | services/order/order_server.go:79-112 | runs the saga of a new order on its items; the event of a completed one carries the total of the row |
| OrderService.OrderServer.PlaceOrder | services/order/order_server.go:66-114 | adds the order with its total and its event if and only if the key is free, the items may be stored and every statement works; answers a taken key with its order; else an internal error |
| OrderService.OrderServer.CreateOrder | services/order/order_server.go:16-115 | a request adds one order if and only if it is well-formed, past the cache, all items are accepted and the insert works, and then with the catalog's prices and their total (quantity times price for one item), its saga run and that total published if it completes; a cached key is answered from the cache, a refused item with its code, a taken key with its order; only the answer to a new order is cached |
| Money.TotalCents | services/order/order_repository.go:52-55 | the running int64 total is the exact sum modulo 2^64 |
| Money.TotalGrows | services/order/order_repository.go:52-55 | the exact sum of no items is zero, and each item adds its unit price times its quantity |
| Money.TotalAnyOrder | services/order/order_server.go:79-82 | the total does not depend on the order of the items |
| Money.NoOverflowIfSumFits | services/order/order_repository.go:52-55 | if the exact sum of non-negative prices fits, no product and no partial sum overflows |
| Retry.Call | pkg/grpcutil/retry.go:24-57 | makes the calls and returns the verdict of the contract, and waits no longer in all than the sum of the caps |
| Retry.OneVerdict | pkg/grpcutil/retry.go:26-57 | the contract fixes the number of calls and the verdict for every outcome sequence |
| Retry.FirstStop | pkg/grpcutil/retry.go:26-57 | the last call is the first after which there is a reason to stop: success, a permanent error, the end of the context or of the retries |
| Retry.TransientCodes | pkg/grpcutil/circuit_breaker.go:83-90 | exactly four codes are tried again |
| Retry.BackoffWithinCap | pkg/grpcutil/retry.go:63-70 | a delay lies between zero and the capped exponential, which is at most ten seconds |
| Retry.FullJitter | pkg/grpcutil/retry.go:61-70 | the delays that can come out are exactly those from zero up to the base doubled with each attempt, or ten seconds if that is less |
| Retry.WaitedBound | pkg/grpcutil/retry.go:38-54 | planned waits never exceed the sum of the caps |
| Retry.BudgetBounds | pkg/grpcutil/retry.go:63-70 | that sum is at most ten seconds a retry and at most (2^n - 1) times the base |
| RetriedCalls.OnceIsAsOne | services/inventory/stock_repository.go:15-157 | if at most one attempt of a call takes effect, the ledger is as if only that one had been made, whatever others commit |
| RetriedCalls.ToldWhy | services/inventory/stock_server.go:47-92 | a delivered reserve of one item is told that its product is unknown or its stock too short, a delivered release or decrement that nothing is reserved |
| RetriedCalls.OnceIsOneAttempt | pkg/grpcutil/retry.go:26-57 | the call is then one attempt with its own place and fate, for the ledger, for what its caller is told and for whether it took effect |
| RetriedCalls.RetriedSettleIsOne | services/inventory/stock_repository.go:69-157 | at most one attempt of a retried release or decrement takes effect, and the ledger is as if only that one had been made |
| RetriedCalls.SettleReport | pkg/grpcutil/retry.go:26-57 | its caller is told of a success exactly if the effective attempt was the last one and its reply arrived |
| RetriedCalls.RetriedReserveAdds | services/inventory/stock_repository.go:42-59 | each attempt of a retried reserve that commits adds the order's demand once more |
| RetriedCalls.CommitsOnceExactly | services/inventory/stock_repository.go:22-66 | at most one attempt of a retried reserve commits if and only if, after the first that reaches the server and fits, no attempt that reaches it finds room for the items once more |
| RetriedCalls.RetriedReserveExact | services/inventory/stock_repository.go:42-59 | a fresh order holds its demand or nothing if and only if that condition holds |
| RetriedCalls.RetriedReserveIsOne | pkg/grpcutil/retry.go:26-57 | under that condition the ledger is as if only the first attempt that lands had been made, and the caller is told of a success exactly if it was the last and its reply arrived |
| RetriedCalls.RetryReservesTwice | services/order/main.go:99-104 | an input on which a retried reserve reserves twice and reports a success |
| RetriedCalls.DecrementTakesTwice | services/inventory/stock_repository.go:134-145 | the decrement after it takes the goods out twice |
| Pagination.PageSize | services/order/order_repository.go:116-118 | page sizes from 1 to 100 are honoured and every other request gets 20 |
| Pagination.PageExact | services/order/order_repository.go:126-151 | a page holds the first rows found, as many as the page size or all, and names its last row exactly if there are more |
| Pagination.AnswerDecides | services/inventory/product_repository.go:119-157 | a token for an id stands for the rows behind it, one that decodes to anything else is refused, every other one stands for all rows |
| Pagination.ListPage | services/inventory/product_repository.go:111-168 | a list call answers with the page and the token of the specification |
| Pagination.SelectExact | services/order/order_repository.go:126-139 | a query finds the matching rows behind the cursor, all and only those, in id order |
| Pagination.SelectAfter | services/order/order_repository.go:126-139 | the rows behind the n-th found row are the rest of the found rows |
| Pagination.TraverseAll | services/order/order_repository.go:115-152 | over a fixed table the pages end and concatenate to the sorted filtered list, for every requested size and cursor |
| Pagination.FollowAll | services/inventory/product_repository.go:170-209 | a client that follows string tokens from the start collects exactly the sorted matching rows |
| Pagination.RestartsExactly | services/inventory/product_repository.go:119 | a token is answered as the empty one on every table if and only if it is not base64 or is empty but for line breaks |
| Pagination.TraversalIncreases | services/order/order_repository.go:115-152 | whatever changes between the requests, the ids seen strictly increase |
| Pagination.StableRowSeenOnce | services/order/order_repository.go:115-152 | a row matching at every request of a finished traversal appears exactly once |
| Cursor.EncodeIsBase64 | services/inventory/helper.go:11-13 | the token is the base64 text of the id, by the bit-string definition with padding |
| Cursor.AlphabetIs | services/inventory/helper.go:11-13 | the letters are those of RFC 4648 in order, and the pad is = |
| Cursor.StrippedIs | services/order/helper.go:14-23 | exactly the line breaks of a token are skipped, wherever they stand |
| Cursor.RoundTrip | services/inventory/helper.go:11-26 | decoding undoes encoding for every byte string, and only the empty id has the empty token |
| Cursor.DecodesExactly | services/order/helper.go:14-23 | a token decodes if and only if, line breaks aside, it is letters and at most two pads in groups of four |
| Cursor.TokenOfDecoded | services/order/helper.go:10-23 | a token that decodes is the token of its id if and only if it has no line breaks and its unused bits are zero |
| Analytics.Conservation | services/order/clickhouse.go:112-163 | in every run the accepted events are the flushed batches, then the pending batch, then the channel, in order; outside the drain batches stay within the batch size |
| Analytics.AcceptedExactly | services/order/clickhouse.go:112-119 | in every run an event is accepted if and only if fewer than a thousand are waiting |
| Analytics.TickFlushes | services/order/clickhouse.go:141-145 | in every run, while the consumer runs, a tick hands over all that is pending |
| Analytics.TakeFlushesExactly | services/order/clickhouse.go:134-139 | an event that is taken completes a batch that is handed over if and only if the batch is then as long as the batch size; in the drain none is |
| Analytics.ShortBatch | services/order/clickhouse.go:127-163 | a batch shorter than the batch size comes from a tick or ends the drain |
| Analytics.LostIsLate | services/order/clickhouse.go:147-159 | after the drain, the accepted events that are never flushed are exactly those accepted since |
| Analytics.LateEventIsLost | services/order/clickhouse.go:112-119 | an input, for every event: published after the drain it is accepted and never flushed |
| Analytics.CloseFlushesAll | services/order/clickhouse.go:191-195 | after Close with no later Publish, everything accepted has been handed to flush |
| Analytics.DrainEnds | services/order/clickhouse.go:147-159 | the drain ends after one receive per queued event, in at most one last batch |
| Analytics.ClickHouseClient.Send | services/order/clickhouse.go:112-119 | Publish enqueues the event, or drops it if the channel is full |
| Analytics.ClickHouseClient.OnEvent | services/order/clickhouse.go:134-139 | the consumer takes an event and flushes a full batch |
| Analytics.ClickHouseClient.OnTick | services/order/clickhouse.go:141-145 | a tick flushes a non-empty batch |
| Analytics.ClickHouseClient.OnDone | services/order/clickhouse.go:147-159 | the drain loop is the drain of the step machine |

## Left out

- CancelOrder: it reads and then writes without a transaction and races with the saga's unconditional writes, so no property holds of it; CANCELLED does not appear.
- Failing writes inside Execute and Resume: the code ignores their errors, and with them no agreement between order, saga and ledger can hold.
- SagaOrchestration.SagaOrchestrator.Execute: runs alone and makes one attempt of its reserve; SagaProtocol's step machine has the retries and the other orders in between.
- LedgerOverlap.OverlapDecides: a SELECT FOR UPDATE that waits reads when it gets its locks; the database's start snapshot would not show it a row that its order's reserve commits meanwhile.
- Several instances of the order service: a second instance's Resume would fail sagas that the first one is running; OrderCreation alone covers any number of instances.
- Calls that reach the inventory service after the caller's crash and Resume.
- StockTransactions.StockRepository: holds its two tables as a map and a sequence, so updates in place and aliasing of rows are not modelled.
- StockTransactions.StockRepository.ReleaseStock: requires a valid ledger, as does DecrementStock; RunValid shows that every reachable one is.
- OrderService.OrderServer.CreateOrder: one request at a time; OrderCreation models any number of them interleaved.
- Analytics.ClickHouseClient: one method per case of the consumer's select; which case comes next is the run of the step machine. What flush does with a batch (ClickHouse inserts, views, failures) is left out.
- Pagination: ids are numbers in the order of the database's UUIDs, and their text form is a parameter; full-text search is an arbitrary predicate; a SELECT that fails is left out.
- Retry.Backoff: delays are reals, so rounding of float64 and time.Duration is not modelled.
- Money: prices come from the catalog as int64; quantities are int32, and the product of the two wraps in int64.
- UpdateProduct and GetProduct beyond what a lookup sees of a product; GetOrder, statusToProto, orderToProto, productToProto: small case splits and field copies.
- The payment step: a stub in the code, modelled as a call that may fail and changes nothing.
- The circuit breaker's state: sony/gobreaker is not part of this model.
- The Redis lock: no service calls it.
- Clocks, UUID generation, JSON and protobuf codecs, gRPC and HTTP servers, the gateway, metrics, tracing, logging, configuration.
