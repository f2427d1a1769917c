# Order pipeline: a verified model

This project models how an order is created and processed, and proves what the two halves keep in every
interleaving, under failures and crashes.

- **Order creation.** Any number of `createOrder` calls run as concurrent PostgreSQL transactions: the insert guarded
  by the unique key `(userId, idempotencyKey)`, the product rows locked one by one, the stock loop, the writes, the
  commit, the publish. The main theorem is serializability: tables and replies of every interleaving are those of a
  shop that serves one request at a time.
- **Order processing.** Any number of worker processes, each with any number of handlers at once, consume
  `orders.process` at least once, record message ids in `processed_messages`, retry with a timer and dead-letter. The
  main theorems: no message is lost, its effect commits at most once, copies are conserved up to one per crash, and
  crash-free processing terminates where a closed form says.
- **Pipeline.** Both halves together: the committed orders are the rows the worker updates, and the message sent
  after a commit is the message it handles.

## How it is built

| file | content |
|---|---|
| Domain.dfy, Reservation.dfy | entities; the length check and the in-place stock loop |
| SequentialShop.dfy | the one-request-at-a-time specification, written without transactions, locks or loops |
| OrderProtocol.dfy, OrderInvariant.dfy | the order-creation machine and its invariant |
| Serializability.dfy | what all its runs satisfy |
| Deadlock.dfy, DeadlockRings.dfy, Starvation.dfy | who waits for whom and for a connection; which requests can deadlock, which can starve the pool |
| OrderTermination.dfy | the measure of order creation, and when all requests can be answered |
| Database.dfy, UnitOfWork.dfy, OrdersService.dfy | the code itself, statement by statement, against that machine |
| AnyCallback.dfy | `transaction` for callbacks other than the one of `createOrder` |
| WorkerProtocol.dfy, WorkerInvariant.dfy | the processing machine and its invariant |
| WorkerSafety.dfy, WorkerAccounting.dfy, Settlement.dfy | loss, effect, rows, copies, retries, settlement |
| WorkerTermination.dfy, RetryLoop.dfy | the measure, absence of stuck states, the closed form |
| RabbitMq.dfy, OrdersWorker.dfy | the consumer and the worker, statement by statement, against that machine |
| Pipeline.dfy | the composition |

Both machines have labelled steps. A label is one database statement, one broker action or one synchronous stretch
of code; a label that is not enabled does nothing, so every sequence of labels is a run and a theorem about `Exec`
is a theorem about every run. The classes run the code of one request or one handler. At every `await` an arbitrary
schedule lets all others take steps, every statement may throw, and every step the code takes is an enabled step of
the machine; so the theorems about all runs hold of what the code does. A wait that never ends, for a key, a row or a
connection, ends as one that throws; the contracts count the throws and name those waits, so they say when each method
succeeds and when it may fail. For a reliable database and nobody else around they say what is left: the tables of
the sequential shop after the reply, and the ledger, the order row and the copy that a lone `handleHappyPath` leaves.

## Assumptions

- PostgreSQL at READ COMMITTED (PostgreSQL 17 manual, sections 13.2.1, 13.3.2 and 13.3.4): `FOR UPDATE` returns the
  latest committed row once the lock is granted; a unique insert waits for an uncommitted holder and fails with 23505
  if the holder committed; COMMIT of an errored transaction discards it; a lost connection discards an open
  transaction. A COMMIT may be applied although the client sees an error.
- `IN (ids)` yields each existing row once, in an unspecified order that is fixed when the query starts. An empty id
  list is a syntax error, so such a request fails and rolls back.
- Generated order ids are fresh. A clash would raise 23505 too, and the recovery read would then throw.
- Products and orders are not deleted, and only `createOrder` writes stock after seeding. The baseline is any state
  with unique order ids and keys.
- The connection pool has a fixed number of connections and no timeout: neither data-source.ts:6-16 nor
  src/app.module.ts:32-41 sets either. A transaction keeps its connection from `connect` to `release`; the recovery
  read after 23505 needs a second one. A rollback or release that throws loses its connection to the pool, because
  nothing releases it afterwards (src/common/unit-of-work.ts:79-82).
- Publishing is reliable, the retry limit and the prefetch count are constants, attempts are integers. Acks and
  rejects do not throw; a lost channel is a crash of its process.
- The shop's theorems need no bound on quantities: conservation and non-negative stock hold for zero and negative
  quantities too. For `qty >= 1`, which the DTO demands, the new stock lies between 0 and the old one, so 32-bit
  columns do not overflow.

## Where the documentation differs from the code

- docs/task-7-rabbitmq.md:73-80 expects a repeated POST to trigger deduplication in the worker. The code returns the
  existing order without sending (src/orders/orders.service.ts:66-69); the model follows the code.
- docs/task-7-rabbitmq.md:67-69 expects success for every `stopOnAttempt` up to the retry limit. The code needs it to
  lie at or after the attempt with which the message enters as well; `RetryLoop.FateOf` is exact, and
  `RetryLoop.DocumentedRule` says when the two agree.
- The TODO in src/orders/orders.service.ts:27-28 says that duplicate items are assumed away. The length check rejects
  them (`Reservation.LengthCheckExact`).

## Results that bound what the code promises

- Two things can stop order creation for good, and `Deadlock.StandstillExactly` shows that nothing else can.
  - A wait-for cycle inside `findByIds`, because the locking query has no order. `DeadlockRings.DeadlockExactly` says
    which sets of requests can run into one: two requests exactly if they share two products
    (`DeadlockRings.TwoRequestsDeadlock`). `Deadlock.CommonOrderNeverDeadlocks` shows that any common order of the
    rows would exclude it. PostgreSQL ends such a cycle by aborting a victim.
  - Starvation of the pool: as many repetitions of a committed request as there are connections, all past the insert,
    each keeping its connection and needing a second one. `Deadlock.StarvationIsReachable` shows it for a pool of any
    size; nothing ends it. With fewer requests under way than connections it cannot happen
    (`Deadlock.FewRequestsNeverStarve`). `Starvation.StarvationExactly` says which sets of requests can bring it about
    when failures may also lose connections: one rejected request is then enough.
- `AnyCallback.AllOrNothingExactly`: `transaction` is all or nothing for exactly those callbacks that cannot write after
  a commit or rollback has ended their transaction. `createOrder` passes one of them.
- `WorkerAccounting.AgreementExactly`: a message that is published before its order exists can be recorded as
  processed and leave the order `created`. `createOrder` never sends such a message; the debug endpoint can.
  `WorkerSafety.EffectAtMostOnce` says for every run when an order is processed: when a ledger entry with an update
  names it.
- `Pipeline.DebugMessageHidesOrder`: a debug message that uses the id of an order as its message id can be recorded
  before the order's own message and have that one dropped as a duplicate; the order is then never processed.

## Model

| member | source | states |
|---|---|---|
| Reservation.LengthCheckExact | src/orders/orders.service.ts:37-41 | The number of rows found equals the number of items exactly when the ids are pairwise distinct and all exist; otherwise the reported count of missing products is positive |
| Reservation.OneLinePerItem | src/orders/orders.service.ts:43-57 | Past the length check there is exactly one item row per requested item, with that item's own quantity and the price of the locked row |
| Reservation.ReserveStock | src/orders/orders.service.ts:44-57 | The loop in place: it throws at the first short product and only if there is one, with that product's data; entities before it are reduced, the rest untouched, and one partial item is pushed per reduced entity |
| SequentialShop.RepliesAgree | src/orders/orders.service.ts:26-77 | The specification decides each request from the tables alone, up to the generated id and the choice of the short product |
| SequentialShop.SomeReply | src/orders/orders.service.ts:26-77 | The specification has an answer for every request that names something |
| SequentialShop.SerialConserves | src/orders/orders.service.ts:45-59 | In every serial log baseline stock is current stock plus what the new orders took, prices never change, and non-negative stock stays so |
| OrderInvariant.StepKeepsInv | src/products/products.repository.ts:29-35 | Every step of every transaction keeps: committed keys and ids unique, key holders exclusive, locked rows disjoint and equal to the committed rows, in-memory items and stocks computed from them |
| Serializability.Serializable | src/orders/orders.service.ts:30-64 | For every interleaving with key waits, row locks, failures and aborts anywhere, the committed tables are those of the sequential shop folded over the logged replies, and the shop allows each reply where it stands |
| Serializability.RepliesAreLogged | src/orders/orders.service.ts:35-77 | Every reply other than a failure is in that log exactly once, with its own request, and is the one the specification gives there |
| Serializability.RealTimeOrder | src/orders/orders.service.ts:26-77 | A request answered before another arrived precedes it in the log: linearizability |
| Serializability.StockConserved | src/orders/orders.service.ts:45-59 | In every reachable state baseline stock is current stock plus the quantities of all orders committed since, and no stock that was not negative becomes negative |
| Serializability.Idempotent | src/orders/orders.repository.ts:42-60 | At most one order per user and key; all successful replies for that pair carry the same order with the same items, and at most one of them is a creation |
| Serializability.RecoveryReadSucceeds | src/orders/orders.repository.ts:47-56 | After 23505 the recovery read finds the committed order, and exactly one, as soon as it gets a connection |
| Serializability.PublishedOnceAfterCommit | src/orders/orders.service.ts:62-76 | A message names a committed order, is sent at most once per order and only for the request that created it, after its commit |
| Serializability.AllOrNothing | src/common/unit-of-work.ts:62-94 | In every interleaving the effect of a `createOrder` transaction is in the tables exactly if its COMMIT was applied; every other end leaves nothing, and a finished transaction holds no key and no row |
| AnyCallback.AllOrNothingExactly | src/common/unit-of-work.ts:62-94 | For an arbitrary callback: over all outcomes of all statements and all points where it returns or throws, the tables hold every write of the callback if COMMIT was applied and none otherwise, exactly if the callback cannot write after a commit or rollback that has ended its transaction |
| AnyCallback.CommitStays | src/common/unit-of-work.ts:62-83 | What a COMMIT has applied stays, whatever the callback does next and however the disposal ends |
| AnyCallback.DisposalKeepsTables | src/common/unit-of-work.ts:68-83 | Disposal applies nothing and undoes nothing, and leaves no transaction open |
| AnyCallback.WritingOnIsNotAllOrNothing | src/common/unit-of-work.ts:62-72 | The other side: a callback that writes once more after its commit, and one that writes after a rollback, are not all or nothing |
| AnyCallback.CreateOrderIsAllOrNothing | src/orders/orders.service.ts:30-64 | The callback of `createOrder` is all or nothing for every outcome of every statement |
| AnyCallback.CreateOrderReturns | src/orders/orders.service.ts:30-64 | If the callback of `createOrder` returns, then either its insert was accepted, stock was sufficient, and order, items and products are committed, or the insert threw, the order was known and nothing is written |
| AnyCallback.Transaction | src/common/unit-of-work.ts:85-94 | The code of `transaction`: it resolves exactly if the callback returns, the closing rollback returns and the release is accepted; it leaves what the callback's outcomes determine, never an open transaction, and all or nothing for a callback without late writes |
| Deadlock.CycleShape | src/products/products.repository.ts:29-35 | Every member of a wait-for cycle is inside `findByIds`, holds a row, waits for another and names at least two products |
| Deadlock.AdvancesExactly | src/orders/orders.service.ts:30-64 | A request that is not over can advance exactly if it waits for no other request, for its key or its next row, and for no second connection |
| Deadlock.OneProductNeverDeadlocks | src/orders/orders.service.ts:37-39 | If every request names at most one product no cycle is reachable |
| Deadlock.CommonOrderNeverDeadlocks | src/products/products.repository.ts:29-35 | If all scans follow one ranking of the products no cycle is reachable |
| Deadlock.StandstillExactly | src/orders/orders.repository.ts:46-55 | Without a wait-for cycle, as long as some request is not over, nobody can advance exactly if no connection is free and every request under way has been rejected by its insert |
| Deadlock.FewRequestsNeverStarve | src/common/unit-of-work.ts:55-60 | With fewer requests under way than connections and without a cycle somebody can advance |
| Deadlock.StarvationIsReachable | src/orders/orders.repository.ts:46-55 | For a pool of any size, from any state with a committed order in which nobody is doing anything else, requests under its key, with any items, starve the pool |
| Starvation.StarvationExactly | src/orders/orders.repository.ts:46-55 | Requests with quantities that are not negative can starve the pool, lost connections included, exactly if they are at least as many as its connections and one of them can be rejected: its key has an order, or another of them can create one |
| OrderTermination.RunsAreFinite | src/orders/orders.service.ts:26-77 | Without new requests every schedule, with failures anywhere, takes at most a computed number of steps |
| OrderTermination.AllAnswered | src/orders/orders.service.ts:26-77 | From every state from which no cycle and no starvation lies ahead a run without failures ends all requests under way and gives all their connections back |
| OrderTermination.FewSingleRequestsAreAnswered | src/orders/orders.service.ts:26-77 | That holds if every request names at most one product and fewer are under way than there are connections; no request that names something and has not failed yet is then answered with a failure |
| DeadlockRings.DeadlockExactly | src/products/products.repository.ts:29-35 | A set of requests can come to a wait-for cycle exactly if it contains a ring: at least two and at most as many as connections, with different keys without an order, and a different existing product for each that its predecessor names too |
| DeadlockRings.TwoRequestsDeadlock | src/products/products.repository.ts:29-35 | Two requests can deadlock exactly if they share at least two existing products, have different keys without an order, and two connections |
| AnyCallback.TypeOrmTransaction.Commit | src/common/unit-of-work.ts:62-66 | In any state of the transaction: nothing after `finished`; otherwise the transaction's writes are in the tables if the server accepted the COMMIT, also if the connection was cut before the answer, and `finished` is set exactly if it returned |
| UnitOfWork.TypeOrmTransaction.Rollback | src/common/unit-of-work.ts:68-72 | Nothing after `finished`; otherwise the transaction is closed on the server, with its business reply if the rollback returned |
| UnitOfWork.TypeOrmTransaction.Dispose | src/common/unit-of-work.ts:74-77 | The connection goes back to the pool by exactly one release unless it was released before, and is lost to it exactly if the release throws; the transaction is left as it is |
| UnitOfWork.TypeOrmTransaction.AsyncDispose | src/common/unit-of-work.ts:79-94 | At the end of `transaction` a commit stays, anything else is discarded with its key and locks, and the connection is released exactly once, or is lost exactly if the rollback or the release threw |
| OrdersService.AddOrder | src/orders/orders.repository.ts:42-60 | Inserts, or after 23505 returns the existing order of the same key through another connection, or throws; no statement is sent on the aborted connection. While others run it throws if a statement throws, and otherwise only if it cannot go on: another request holds the same key, the id is in use, or the recovery read gets no connection |
| OrdersService.FindByIds | src/products/products.repository.ts:29-35 | Under arbitrary interference the result is every requested product that exists, once each, as it is committed at the end of the query; it fails if a statement throws, and otherwise only if another request keeps a row it needs or the request names nothing |
| OrdersService.Reserving | src/orders/orders.service.ts:43-57 | The in-memory loop leaves exactly the item rows and product rows that are then saved, or throws the shortage of the first short row |
| OrdersService.WriteAndCommit | src/orders/orders.service.ts:58-63 | Items, products, read-back and commit in this order; returns the committed order if no statement throws, and otherwise throws with nothing returned |
| OrdersService.InTransaction | src/orders/orders.service.ts:30-64 | The callback ends with a duplicate, a committed order, or an error that its transaction is bound to |
| OrdersService.CreateOrder | src/orders/orders.service.ts:26-77 | While any other requests run: a reply that is not a failure is allowed by the sequential shop at a point of the log written during this call, and none of its statements threw; a request none of whose statements threw fails only if it names nothing, had to wait for its key, a row or a connection, or its id was in use. Its transaction is over, its connection was released once (or lost once, if a statement threw), no statement was sent on an aborted connection, and a created order has been announced. With no failures, nobody interfering and two free connections every request that names something gets such a reply, the tables are those of the shop after it, and the pool is as before |
| WorkerInvariant.StepKeepsInv | src/orders/orders-worker.service.ts:55-139 | Every step, failure and crash keeps: ledger ids unique, at most one open transaction per message id and per order row, at most one copy per process between send and ack, attempts in range |
| WorkerInvariant.AttemptBounds | src/orders/orders-worker.service.ts:119-133 | The attempt of every copy stays between the attempt its message entered with and the retry limit; a dead-lettered copy has exactly the end of that range |
| WorkerSafety.NoMessageLost | src/orders/orders-worker.service.ts:59-84 | In every reachable state every published message id is in the ledger or has a copy that is ready, unacknowledged or dead-lettered, after any number of crashes |
| WorkerSafety.AckIsJustified | src/orders/orders-worker.service.ts:113-139 | An ack that is about to be sent follows a ledger commit, or another live copy of the message exists |
| WorkerSafety.EffectAtMostOnce | src/orders/orders-worker.service.ts:59-82 | At most one dedup row per message id ever commits, each order row is what the last committed update says, and an order is processed exactly when a ledger entry with an update names it |
| WorkerSafety.ProcessedAtIsFinal | src/orders/orders-worker.service.ts:105-110 | Status never goes back, and `processedAt` of an order whose messages carry its own id never changes once written |
| WorkerAccounting.CopiesConserved | src/orders/orders-worker.service.ts:119-134 | Copies ready, unacknowledged, dead-lettered or acknowledged after success or dedup are as many as were published from outside, plus at most one per crash |
| WorkerAccounting.RepublishBound | src/orders/orders-worker.service.ts:119-133 | A chain of republished copies from one published copy has at most max(0, maxRetries - attempt) links, whatever crashes |
| WorkerAccounting.LedgerAndStatusAgree | src/orders/orders-worker.service.ts:59-110 | In every run whose messages about an order find it there and carry no `simulateFailure`, that order is processed exactly when the ledger names it, whatever other messages do |
| WorkerAccounting.AgreementExactly | src/orders/orders-worker.service.ts:59-110 | After any such run, a message about the order with a new id and without `simulateFailure` keeps ledger and status in agreement in all such continuations exactly if the order exists when it is published, or its body cannot be parsed |
| Settlement.SettledOnce | src/rabbit-mq/rabbit-mq.service.ts:94-111 | Deliveries are acks plus rejects plus deliveries lost to a crash plus the one still with a handler or timer; a copy is acknowledged at most once |
| Settlement.PrefetchHolds | src/rabbit-mq/rabbit-mq.service.ts:42-46 | In every run no process has more unacknowledged deliveries than the prefetch limit, if there is one |
| WorkerTermination.CalmRunsAreFinite | src/orders/orders-worker.service.ts:43-52 | Without new messages, crashes, failed sends and unparseable bodies every schedule, with failures of processing anywhere, takes at most a computed number of steps |
| WorkerTermination.NeverStuck | src/orders/orders-worker.service.ts:59-139 | While a copy is ready or unacknowledged some step other than a failure is possible: handlers never deadlock and the prefetch limit never blocks for good |
| WorkerTermination.StoppedMeansSettled | src/orders/orders-worker.service.ts:113-139 | Where a schedule cannot go on the queue is empty and every message is in the ledger or dead-lettered |
| WorkerTermination.CanComeToRest | src/orders/orders-worker.service.ts:37-53 | From every reachable state with readable messages an empty queue can be reached without any failure |
| RetryLoop.DeadMeansUnprocessed | src/orders/orders-worker.service.ts:119-123 | A dead-lettered message is not in the ledger and has no other live copy, if its id was published once, no commit of it was reported as an error although applied, and no crash fell between its commit or its sending and the ack; other messages may do and suffer anything |
| RetryLoop.RetryLoopClosedForm | src/orders/orders-worker.service.ts:99-133 | Under the same three conditions, and if no database error hit its own handlers: once no copy of the message is ready or unacknowledged, a message that entered with attempt a and `stopOnAttempt` s is in the ledger at attempt s if a <= s <= max(a, maxRetries), otherwise once in the dead-letter queue with attempt max(a, maxRetries), and nowhere else; other messages may do and suffer anything |
| RabbitMq.Cluster.Others | src/rabbit-mq/rabbit-mq.service.ts:87-115 | While a handler waits exactly the steps that the environment's schedule holds are taken, up to a crash of its process; its own copy changes only by such a crash |
| OrdersWorker.OrdersWorkerService.HandleHappyPath | src/orders/orders-worker.service.ts:55-92 | Acks only when the message id is committed in the ledger, otherwise throws with its transaction gone; sends no statement on a connection aborted by 23505. Whatever else runs: if no statement throws a known message is acked as a duplicate, and a new one is left to the retry only if it asks to fail or another handler holds its dedup row or its order row; a processed one is recorded together with its order update. Alone and without failures it leaves exactly a duplicate untouched, a failing message to the retry, or ledger entry and the row `PROCESSED` at the current time together |
| OrdersWorker.OrdersWorkerService.ProcessOrderMessage | src/orders/orders-worker.service.ts:94-111 | Whatever else runs: `simulateFailure` throws unless this is the attempt to stop on, and then nothing is updated; otherwise the order row is updated with the current time exactly if it exists, unless the database fails or the row stays locked |
| OrdersWorker.OrdersWorkerService.HandleFailedProcessing | src/orders/orders-worker.service.ts:113-139 | Below the retry limit a timer is started; at the limit the copy is dead-lettered and then acked if there is a channel, and the send throws if there is none |
| OrdersWorker.OrdersWorkerService.OnDelivery | src/rabbit-mq/rabbit-mq.service.ts:94-111 | Every delivery ends acked, rejected, waiting for its timer, or taken back by a crash of the environment; a rejection is the last step taken, and a message that can be parsed is rejected only at the retry limit without a channel; if no statement throws, whatever is not acked as known or processed has one of the reasons of `HandleHappyPath`; which end it is is fixed by message, ledger, retry limit and channel when nothing else interferes |
| OrdersWorker.OrdersWorkerService.OnTimer | src/orders/orders-worker.service.ts:129-138 | The next step of this delivery is the republication of its message with the next attempt, then comes the ack; the process ends before that only if the environment crashes it, or if there is no channel, and then always |
| Pipeline.Projects | src/orders/orders.service.ts:71-76 | The order side and the worker side of every run of the pipeline are runs of the two machines, so their theorems hold in it |
| Pipeline.ApiIsNeverBlocked | src/orders/orders.service.ts:62-76 | The composition blocks nothing: whatever the order side can do in a reachable state it can do in the pipeline |
| Pipeline.RowsStayOrders | src/orders/orders.service.ts:62-76 | The rows the worker can update are exactly the committed orders |
| Pipeline.SentOrdersAreProcessedOrPending | src/orders/orders.service.ts:71-76 | If no debug message carries the order's id as message id or order id: a sent order is committed, until it is processed a live copy of its own message remains, with an attempt in range, and it is processed only if it was sent |
| Pipeline.ProcessedOnce | src/orders/orders-worker.service.ts:59-110 | Under the same condition the row of a processed order never changes again |
| Pipeline.DebugMessageHidesOrder | src/orders/orders-worker.service.ts:66-74 | The condition is needed: before any order's message is sent for the first time a debug message with that id can be recorded, after which the sent order is neither processed nor pending |

## Left out

- That every committed order is eventually processed: the code commits before it publishes, and a crash in between leaves no message.
- OrdersService.CreateOrder: does not say of a reply that is a failure whether the order exists, because an error after COMMIT (lost acknowledgement, failed release, failed send) is answered with a failure although the order exists.
- WorkerTermination.CalmRunsAreFinite: excludes unparseable bodies, because the code requeues them forever, and failed sends, because a rejected copy may fail again.
- `onModuleInit` and `onModuleDestroy`: whether a channel is there is an input of a handler; start and shutdown of the module have no further effect on the protocol.
- Channel loss with a surviving process: it is modelled as a crash of that process; a handler that goes on after its channel is gone and commits later is covered only as a commit right before the crash.
- Queue order: the broker may deliver ready copies in any order.
- Timers: a pending timer may fire at any later point; wall-clock time, `sleep` and the length of the backoff are not modelled.
- UnitOfWork.TypeOrmTransaction.constructor: connecting and opening the transaction can only fail as a whole, before anything is written.
- UnitOfWork.TypeOrmTransaction.Commit: is asked for only where `createOrder` commits, because the order-creation machine has no other commit; `AnyCallback.TypeOrmTransaction` commits in every state.
- Starvation.StarvationExactly: is about quantities that are not negative, as the DTO demands (src/orders/create-order.dto.ts:11-14); with negative ones an order could raise the stock for a later one.
- Other users of the connection pool: the pool is the share left to order creation. Worker handlers and plain queries take one connection each and never wait for a second one.
- Authentication, controllers, DTO validation, Swagger, logging, correlation ids, migrations, seed, deployment: no algorithm of this flow.
- `find` and `findById` of orders and the product read model: plain queries, they would add only easy members.
