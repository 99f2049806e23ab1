# Inventory, orders and payments: a verified model

This project models the protocol by which the shop sells a limited stock: reserving a unit, paying for it,
cancelling, expiring, and the background loops that drive payments and expiry. It proves what that protocol
promises over every run: any number of clients, workers and sweepers, any interleaving of their SQL statements,
lost connections, lost acknowledgements and crashes.

The model has three layers.

* **Atomic lifecycle** (`Tables`, `Lifecycle`): products, stock and orders as maps, one guarded action per
  committed transaction, the accounting invariant and its consequences over whole runs.
* **Statement level** (`Transactions`, with `Sessions`, `Refinement`, `Runs`, `Answers`, `Deadlock`, `Bench`): any
  number of open transactions under READ COMMITTED, as section 13.2.1 of the PostgreSQL 17 manual describes it. An
  UPDATE tests its WHERE on a snapshot, waits for the row lock, and tests again on the newest version; `FOR UPDATE
  SKIP LOCKED` passes over locked rows; a session may be lost before or after its commit took effect. `Runs`
  proves that the committed tables always follow a run of the atomic lifecycle.
* **The Go code itself** (`Store`, `Identity`, `Outcomes`, `Arms`, `KeyedReserve`, `OrderService`, `Sweeper`,
  `Drain`, `PollLoop`, and the limiter of `RateLimit`): classes whose methods run the same statements in the same
  order as the source, over a connection whose calls may fail and whose commits may land unacknowledged. Each method
  is tied to what its transaction comes to as a whole.

Beside them stand the machines for the other concurrent protocols: `Customers` (linking a caller over two unique
constraints), `Idempotency` (once per key), `Inbox` and `Workers` (at-least-once payment events), `Poller` (cursor
and overlap), `Hold` (how long a unit can be held), and the token buckets of `RateLimit`.

## What the proofs found

Where a promise in the repository is not kept by the code in general, the model keeps the code and proves the exact
condition under which the promise holds.

* Running the expiry sweep from a second process is called safe (internal/orders/service.go:354-356). Two sweeps
  that each claim two orders can deadlock on stock rows, because claims are not made in product order. Order and
  stock rows are deadlock-free exactly when one sweep runs at a time or a sweep takes one order
  (`Deadlock.DeadlockFreeIff`).
* The idempotency wrapper releases a key on any error of the inner reserve. A commit whose acknowledgement is lost
  is such an error, and the retry then buys a second unit. One order per key holds exactly when an error means no
  committed order (`Idempotency.OncePerKeyIff`); that such errors exist is `Bench.ALostReplyMayHideAnOrder`. The
  successful answers under one key agree all the same (`Idempotency.AnswersAgree`).
* A memoised customer id is said to be unable to produce a wrong answer (internal/customers/resolver.go:42-47). It
  is right for good exactly when the row is bound to the caller's own subject (`Customers.CacheEntryIsSoundIff`);
  two subjects that share an email break it. And a first purchase that finds its product sold out inside a
  transaction leaves the memo pointing at a row that was rolled back: every later purchase of that caller in that
  process is refused (`Arms.MemoOfARolledBackRow`).
* The single-statement arm reads the product only after its UPDATE matched no row, so a product created in between
  is reported out of stock. An out-of-stock answer is true of an existing, sold-out product exactly for the other
  arms and for products that are there from the start (`Answers.RefusalIsTrueIff`).
* A poll that lists newest-first and breaks off, a webhook feeding the same inbox, or an event that appears during
  the poll that moves the cursor past it, loses events for good (`Poller.PollsAreCompleteIff`). A window
  once opened is kept exactly from the first stored event on; before that it is anchored to the clock and moves
  (`Poller.FirstWindowIsKeptIff`).
* A transient failure is said to be retried on the next poll (internal/payments/worker.go:128-129). The drain
  claims it again at once: a drain that ends cleanly has spent every attempt of an event that can only fail, and an
  event is left for the next poll only by a drain that was cut short (`Drain.Worker.DrainAll`).
* The load test's checks do not look at the quantity: units missing from it pass (`Bench.LostUnitsPass`).
  That the quantity is right is all they miss of the books (`Bench.BooksBalanceIff`).
* With a batch size of 0 the sweeper never sees a short batch and spins until it is cancelled
  (`Sweeper.Sweeper.SweepAll`); with `maxAttempts` below 1 events are never claimed and never flagged
  (`Workers.NothingForgottenIff`).

## Model

| member | source | states |
|---|---|---|
| Tables.CountAfterWrite | bench/internal/verify/invariants.go:81-101 | One order row's write moves each status count of a product by what that row contributed before and contributes now |
| Lifecycle.EndOneKeepsInv | internal/adapters/postgresql/sqlc/queries.sql:47-67 | An order whose status guard matches has a reservation to release or commit, and afterwards the books balance |
| Lifecycle.EndAllOnlyEnds | internal/adapters/postgresql/sqlc/queries.sql:168-189 | A batch changes the status of its own orders and nothing else about any order |
| Lifecycle.EndAllKeepsInv | internal/orders/service.go:366-378 | A batch with several orders of one product keeps every guard satisfiable and the books balanced |
| Lifecycle.ReserveKeepsInv | internal/adapters/postgresql/sqlc/queries.sql:32-45 | Taking a free unit for a new order keeps the books balanced |
| Lifecycle.CheckoutKeepsInv | internal/adapters/postgresql/sqlc/queries.sql:129-136 | Attaching a fresh intent to a pending order keeps every invariant, uniqueness of intents included |
| Lifecycle.DoKeepsInv | internal/orders/service.go:231-385 | Every action of the lifecycle keeps the invariant |
| Lifecycle.RunKeepsInv | internal/orders/service.go:231-385 | Every run of the lifecycle keeps the invariant |
| Lifecycle.NoOversell | bench/internal/verify/invariants.go:77-101 | After any run reserved equals live orders, quantity plus completed orders equals the initial quantity, and live plus completed never exceed it |
| Lifecycle.DoEvolves | internal/orders/status.go:9-27 | One action only moves an order forward in the automaton, and never touches its product, price, customer or, once paid for, its expiry |
| Lifecycle.RunEvolves | internal/orders/status.go:9-27 | So does every run: ended orders never change again |
| Lifecycle.EndsAtMostOnce | internal/adapters/postgresql/sqlc/queries.sql:60-63 | Over any run an order's unit is released or sold at most once, whichever paths race for it |
| Lifecycle.CompletedIsSoldOnce | internal/adapters/postgresql/sqlc/queries.sql:138-148 | An order completed during a run had its unit sold exactly once and ended in no other way |
| Sessions.EndAllStock | internal/orders/service.go:374-378 | A batch settles each stock row once per order of its product |
| Sessions.BackstopHolds | internal/orders/service.go:256-258 | Mid-transaction, with others in flight, the next stock row still has the reservation the order guard promised |
| Sessions.SessionFrame | internal/adapters/postgresql/sqlc/queries.sql:32-67 | What an open transaction has earned survives any commit of others that leaves its locked rows alone |
| Sessions.MergeIsEndAll | internal/orders/service.go:357-385 | The private rows of a finished sweep are exactly the batch ended one after the other |
| Refinement.NoOrderRowOk | internal/orders/service.go:287-302 | A fulfilment that lost its race already faces an ended order |
| Refinement.RecheckOk | internal/orders/service.go:302-306 | The fresh read of a lost fulfilment gives a true answer |
| Refinement.LandKeeps | internal/orders/service.go:260-262 | A commit is one atomic action and disturbs no other open transaction |
| Runs.NextSimulates | internal/orders/service.go:231-385 | Each statement keeps the invariant of all sessions and moves the committed tables by one enabled atomic action or not at all |
| Runs.RunKeepsSysInv | internal/orders/strategy_txn.go:53-118 | The statement-level invariant holds in every reachable state |
| Runs.CommitsAtomically | internal/orders/service.go:231-385 | For every interleaving, rollback, crash and lost acknowledgement the committed tables are those of a legal run of atomic guarded actions |
| Answers.NeverOversold | internal/adapters/postgresql/migrations/00002_create_stock.sql:5-6 | Conservation and the CHECK constraints hold after every statement-level run |
| Answers.BackstopsNeverBite | internal/orders/service.go:311-313 | No session is ever told its stock row was missing, and no stock CHECK or 32-bit range is violated |
| Answers.FulfilmentIsExact | internal/orders/service.go:273-316 | An answered FulfillPayment returns nil exactly if the order is completed and the refund error exactly if it is expired or failed, in every interleaving |
| Answers.IntentMeansCheckedOut | internal/orders/status.go:71-77 | An order reachable by its intent is never pending or cancelled |
| Answers.OutOfStockWasTrue | internal/orders/strategy_txn.go:72-80 | Every out-of-stock answer is justified at the request's own guarded UPDATE: at the step that refused it the product had no free unit |
| Answers.CteMayRefuseANewProduct | internal/orders/strategy_cte.go:57-60 | From any tables without a product, the single-statement arm can answer out of stock for it although it never was |
| Answers.RefusalIsTrueIff | internal/orders/strategy_cte.go:45-60 | From any tables, an arm's out-of-stock answers for a product are all true of an existing, sold-out product exactly if the arm is not the single statement or the product is there from the start |
| Answers.NotPendingIsTrue | internal/orders/service.go:203-216 | A checkout or cancellation refused as not pending is right: the order exists and has left that status for good, in every interleaving |
| Deadlock.NoCycle | internal/orders/service.go:366-378 | With one sweep at a time, or one order per sweep, no reachable state has a cycle of waiting transactions |
| Deadlock.TwoSweepsDeadlock | internal/orders/service.go:354-356 | Two sweeps of two orders each reach a state in which each waits for the other |
| Deadlock.DeadlockFreeIff | internal/orders/service.go:357-385 | Deadlock freedom on order and stock rows holds exactly under that condition |
| Hold.HoldIsBounded | internal/orders/service.go:206-210 | No order placed in a run is unpaid and live later than twice TTL plus sweep period after its creation, and none that was never checked out later than once |
| Hold.HoldBoundIsReached | internal/orders/service.go:164-171 | For every TTL and every positive period the bound is attained, so no smaller one holds |
| Bench.BooksBalanceIff | bench/internal/verify/invariants.go:68-101 | The checks of a product hold and no unit is missing between initial, left and sold exactly if its books balance; the checks alone do not look for missing units |
| Bench.LostUnitsPass | bench/internal/verify/invariants.go:68-101 | Free units that vanish from the quantity of balanced books pass every check, and the books no longer balance |
| Bench.TwoLostUnitsPass | bench/internal/verify/invariants.go:68-101 | Five units at first, three left, none sold: the checks pass |
| Bench.Check | bench/internal/verify/invariants.go:19-111 | The verdict is positive exactly if the client and server counts agree and every product does |
| Bench.LandedBuyIsMade | internal/orders/strategy_cte.go:36-43 | An order row that becomes visible belongs to a reserve that has ended with that order as its answer or with none |
| Bench.ClientsBoundTheServer | bench/internal/loadgen/recorder.go:84-110 | In every run the orders added lie between observed successes and those plus unknown outcomes, with equality when nothing is unknown |
| Bench.CheckAlwaysPasses | bench/internal/verify/invariants.go:30-56 | Over fresh tables the check passes after every run |
| Bench.ALostReplyMayHideAnOrder | bench/internal/verify/invariants.go:38-43 | A reserve that reports a lost connection may have placed its order |
| Customers.LinkFailsIff | internal/customers/link.go:61-88 | An undisturbed Link fails exactly if the subject's new email already belongs to another row |
| Customers.IdentityIsStable | internal/adapters/postgresql/sqlc/queries.sql:69-93 | Under any interleaving email and subject stay unique and a bound subject never moves |
| Customers.LaterLinksAgree | internal/customers/link.go:42-59 | Every later Link of a bound subject that succeeds returns the bound row |
| Customers.OnlyEmailClashesSurface | internal/customers/link.go:42-59 | In any interleaving a Link gives up only over an email that belonged to another row at the very step at which it gave up: a lost race is retried away within the attempts |
| Customers.CacheEntryIsSoundIff | internal/customers/resolver.go:39-73 | A memoised id is never contradicted in any future exactly if its row is bound to that subject |
| Customers.SharedEmailIsNotMemoisable | internal/adapters/postgresql/sqlc/queries.sql:90-93 | A second subject with the same email is handed the first one's row, which no memo may keep |
| RateLimit.Limiter.EvictIdle | internal/ratelimit/ratelimit.go:91-97 | The loop removes exactly the buckets idle for longer than the limit |
| RateLimit.Limiter.Allow | internal/ratelimit/ratelimit.go:60-89 | A call decides and updates the buckets as one attempt of the specification |
| RateLimit.EvictionUnobservable | internal/ratelimit/ratelimit.go:60-97 | With a monotone clock and idle*rps at least burst, evicting changes no decision of any multi-key sequence |
| RateLimit.EvictionUnobservableIff | internal/ratelimit/ratelimit.go:22-27 | And only then: below that some sequence tells the difference |
| RateLimit.TokensAreConserved | internal/ratelimit/ratelimit.go:86-88 | What a key was admitted plus what it has left never exceeds what it had plus what the window refilled |
| RateLimit.AdmissionIsBounded | internal/ratelimit/ratelimit.go:43-54 | A key is admitted at most burst plus rps times elapsed in any window |
| Idempotency.AtMostOneOrder | internal/orders/strategy_idempotent.go:80-111 | If an inner error means no committed order, each key yields at most one order over all interleavings and crashes |
| Idempotency.AnswersAreRight | internal/orders/strategy_idempotent.go:113-139 | Every successful answer is an order for the requested product, placed under the caller's own key |
| Idempotency.AnswersAgree | internal/orders/strategy_idempotent.go:42-46 | All successful answers under one key carry the same order, also where errors may hide committed orders |
| Idempotency.OneClaimant | internal/adapters/postgresql/sqlc/queries.sql:292-319 | An unfinished key has one claimant, and what it completes or releases is its own row |
| Idempotency.OncePerKeyIff | internal/orders/strategy_idempotent.go:80-96 | One order per key holds in all runs exactly if a reserve never reports an error after it committed |
| Store.PickOverdue | internal/adapters/postgresql/sqlc/queries.sql:178-188 | The claim takes overdue live orders, the earliest first, and fewer than its limit only if none is left |
| Store.Store.Begin | internal/orders/service.go:232-236 | A transaction starts from the committed tables, or the call fails and none is open |
| Store.Store.Commit | internal/orders/service.go:260-262 | A commit that answers has taken effect; one that does not has taken effect completely or not at all |
| Store.Store.Rollback | internal/orders/service.go:236 | The deferred rollback restores every row and no sequence, and does nothing after a commit |
| Store.ReservesRunOut | internal/adapters/postgresql/sqlc/queries.sql:32-45 | A product can be reserved exactly as often as it has free units: the next reserve is refused exactly when they are used up |
| Store.SettlingEndsReservation | internal/adapters/postgresql/sqlc/queries.sql:47-67 | A reservation can always be settled; released, the tables are as if it never was, committed, one unit is gone and the other reservations stand |
| Store.OneEndingWins | internal/adapters/postgresql/sqlc/queries.sql:138-166 | However an order ends, no second ending and no checkout mark finds its row any more |
| Store.IntentLeadsBack | internal/adapters/postgresql/sqlc/queries.sql:104-136 | An order marked with an intent is found again through it, takes no second intent, and no other order takes this one |
| Store.IdsAreBurnt | internal/orders/strategy_txn.go:43-47 | A created order has a new id, and an id once drawn is never drawn again, not even after a rollback or a refused insert |
| Store.OneStatementIsTwo | internal/adapters/postgresql/sqlc/queries.sql:242-290 | The single statement comes to the reserve and the insert in either order, and leaves every row alone where one of them fails |
| Store.Store.ExpireOrders | internal/adapters/postgresql/sqlc/queries.sql:168-189 | The claimed orders are marked expired and their products returned; a negative limit is an error |
| Store.Store.LinkCustomer | internal/adapters/postgresql/sqlc/queries.sql:80-93 | The upsert on email keeps the first recorded subject and respects both unique constraints |
| Identity.LinkPassIsLinkAlone | internal/customers/link.go:61-88 | The statements of one pass come to the table-level account of Link |
| Identity.LinkOnce | internal/customers/link.go:61-88 | One pass over the connection does what its specification says, or the connection is lost |
| Identity.Link | internal/customers/link.go:42-59 | The retry loop comes to one pass on the pool, and to an aborted transaction if that pass is refused inside one |
| Identity.Resolver.Resolve | internal/customers/resolver.go:57-73 | A remembered caller costs no statement, and the memo learns exactly the successful answers of callers with a subject |
| Identity.ResolveKeeps | internal/customers/resolver.go:31-37 | Resolving keeps the tables consistent and every order's owner in place |
| Identity.SkippedForever | internal/customers/resolver.go:66-72 | An id drawn by a rolled-back link never belongs to any row later, through any sequence of links, trades, rollbacks and commits |
| Outcomes.RolledBack | internal/orders/service.go:236 | A transaction body followed by the deferred rollback leaves the specified effect or none |
| Arms.ArmsAgreeIff | internal/orders/strategy_txn.go:35-52 | The three arms give the same answer, order id and stock change exactly if the resolved customer exists or the answer does not depend on it |
| Arms.FreshLinksAgree | internal/orders/strategy_cte.go:27-61 | Without a memo all arms succeed or fail together in resolving, and then agree on everything |
| Arms.MemoOfARolledBackRow | internal/customers/resolver.go:66-72 | A sold-out first purchase on a transactional arm leaves a memo through which that caller can never buy, in any state reached afterwards |
| Arms.PlacementIsReserve | internal/orders/strategy_txn.go:53-118 | A placed order is the atomic Reserve action and keeps the tables consistent |
| Arms.Strategy.PlaceInTx | internal/orders/strategy_txn.go:92-111 | Both statement orders come to the same placement |
| Arms.Strategy.ReserveInTransaction | internal/orders/strategy_txn.go:53-118 | The transactional arms answer and do what the reserve specification says, and a failure takes a new customer row back |
| Arms.Strategy.ReserveInOneStatement | internal/orders/strategy_cte.go:27-61 | The single-statement arm meets the same specification, and keeps a new customer row |
| Arms.Strategy.Reserve | internal/orders/strategy_txn.go:53-118 | Whichever arm runs, one specification describes answer and effect |
| KeyedReserve.KeyedStrategy.ReserveAndRecord | internal/orders/strategy_idempotent.go:80-111 | The claimant reserves once, then completes its key with that order or releases it; neither changes the answer |
| KeyedReserve.KeyedStrategy.Replay | internal/orders/strategy_idempotent.go:113-139 | A lost claim is answered from the row: released since or still in progress, another request, or the recorded order |
| KeyedReserve.KeyedStrategy.Reserve | internal/orders/strategy_idempotent.go:50-78 | Without a key the call is passed on; a taken key reserves nothing; a free key remembers its order or is free again |
| KeyedReserve.KeyedStrategy.CreateOrder | internal/orders/service.go:164-171 | A successful answer that is no replay is a new pending order of the resolved caller at the present price, expiring TTL from now, with one more unit reserved |
| KeyedReserve.KeyedStrategy.ReserveAndRetry | internal/orders/strategy_idempotent.go:98-108 | The retry of a request that got its order reserves nothing more over any connection; it gets the same order, or is told to wait if the completion was lost |
| OrderService.EffectsAreActions | internal/orders/service.go:181-349 | Whatever a lifecycle transaction does is one enabled atomic action or nothing |
| OrderService.FulfillAnswerIsExact | internal/orders/service.go:287-309 | nil exactly if the order is now completed, the refund error exactly if it is expired or failed |
| OrderService.EndsAtomically | internal/orders/service.go:248-258 | The order guard and the stock statement together end the order, and the second cannot miss |
| OrderService.ReleaseStep | internal/orders/service.go:374-378 | Each release of a sweep finds the reservation of its own order |
| OrderService.Service.Checkout | internal/orders/service.go:181-223 | Ownership, pending guard, gateway, mark: the specified answer and effect, or a lost connection with all or nothing of it |
| OrderService.Service.CancelOrder | internal/orders/service.go:231-265 | A pending order of the caller ends cancelled with its unit back, atomically |
| OrderService.Service.FulfillPayment | internal/orders/service.go:273-316 | An awaiting order ends completed with its unit sold; otherwise the fresh status decides the answer |
| OrderService.Service.FailPayment | internal/orders/service.go:321-349 | An awaiting order ends failed with its unit back; anything else is a no-op |
| OrderService.Service.SweepExpired | internal/orders/service.go:357-385 | One batch of overdue orders ends expired, each unit back on sale, in one transaction |
| Sweeper.AnyEnumerationIsOneShot | internal/orders/sweeper.go:53-56 | Expiring the backlog one by one, in any order, equals expiring it all at once |
| Sweeper.BatchesAdd | internal/orders/sweeper.go:56-77 | Two batches in a row are one batch |
| Sweeper.Sweeper.SweepAll | internal/orders/sweeper.go:56-77 | The drain ends with the one-shot result, independent of batch size and ties; over any connection a positive batch size ends it within one round more than there are overdue orders, and only a cancelled context ends it for size 0 |
| Events.EventTypeFilter | internal/payments/events.go:5-55 | The filter lists exactly the event types that are routed |
| Inbox.ApplyIsItsEffect | internal/payments/worker.go:149-170 | Applying an event is at most one enabled action of the lifecycle |
| Inbox.CleanMeansPaid | internal/payments/worker.go:105-112 | A paying event applied without an error has a completed order behind it |
| Inbox.FirstEventDecides | internal/payments/worker.go:18-23 | Once an event was applied to an attached intent no later event for it changes anything, whatever happened in between |
| Inbox.FirstsAreDistinct | internal/payments/events.go:30-45 | Of the deliveries that count no two are for the same intent |
| Inbox.RedeliveryIsInvisible | internal/payments/worker.go:99-103 | Deliveries in any number and order, interleaved with any lifecycle actions, do what the first delivery to reach each order does |
| Workers.OrdersRunLegally | internal/payments/worker.go:82-145 | With any number of workers, crashes and half-lost calls, orders and stock follow a legal run of the lifecycle |
| Workers.NextKeepsWorkInv | internal/adapters/postgresql/sqlc/queries.sql:212-240 | Each step keeps the inbox honest, the locks exclusive and the attempts capped |
| Workers.NoPaymentSilentlyLost | internal/payments/worker.go:105-142 | A paying event recorded as processed without an error has its order completed and its unit sold exactly once |
| Workers.NothingForgottenIff | internal/adapters/postgresql/sqlc/queries.sql:217-224 | Every event is processed, claimable or flagged, in all runs, exactly if the cap is at least one |
| Workers.AttemptsAreCapped | internal/adapters/postgresql/sqlc/queries.sql:236-240 | No event is recorded more often than the cap |
| Drain.AttemptsAreSpent | internal/payments/worker.go:60-75 | Recording a claimed event strictly lowers the sum of maxAttempts - attempts over the unprocessed events |
| Drain.BudgetIsRemaining | internal/adapters/postgresql/sqlc/queries.sql:217-224 | That sum counts the attempts still allowed, one by one |
| Drain.Worker.Apply | internal/payments/worker.go:149-170 | One event is routed to the order service and its answer sorted into clean, terminal or transient |
| Drain.Worker.ClaimNext | internal/adapters/postgresql/sqlc/queries.sql:220-224 | The claimed event is the earliest received of those still eligible, and none is claimed only if none is |
| Drain.Worker.ProcessNext | internal/payments/worker.go:82-145 | One event is claimed, applied and recorded under its verdict; an error may hide a recording but not the choice |
| Drain.Worker.DrainAll | internal/payments/worker.go:62-75 | The drain terminates within the sum of attempts left; a clean end leaves every event processed or at the cap, and an unreadable routed event unprocessed with its attempts exactly at the cap; what it recorded as paid is paid; only a drain cut short leaves an event for the next poll |
| Poller.CaughtUpUnder | internal/payments/poller.go:143-185 | Under the three hypotheses a completed poll has stored everything that was visible when it began |
| Poller.BreakReachesGap | internal/payments/poller.go:157-162 | A newest-first poll that breaks off leaves a visible event behind the next window |
| Poller.PushReachesGap | internal/payments/poller.go:30-32 | So does a pushed event |
| Poller.LateReachesGap | internal/payments/poller.go:187-196 | So does an event that appears during the poll that moves the cursor past it |
| Poller.PollsAreCompleteIff | internal/payments/poller.go:187-202 | Completeness over all runs of polls, list errors and restarts holds exactly under the three hypotheses |
| Poller.EmptyInboxMovesTheWindow | internal/payments/poller.go:197-202 | Between polls with an empty inbox, whatever has happened so far, an event that appears inside a window already opened can miss every later one |
| Poller.FirstWindowIsKeptIff | internal/payments/poller.go:25-32 | Between polls with a window opened at some time, all later completed polls have stored everything created from that time on that they could see exactly if the inbox holds an event by now |
| PollLoop.Client.Poll | internal/payments/poller.go:143-185 | The inbox holds what was listed before the first error, malformed events aside, and the inserted count is exact |
| PollLoop.Client.PollOnce | internal/payments/poller.go:123-140 | Only a clean poll counts as a success |
| PollLoop.LoopIsARun | internal/payments/poller.go:157-182 | The loop of one poll is a run of the poller's machine |

## Left out

- HTTP handlers, authentication, JSON, Stripe signatures and the Stripe client: a caller is a subject and an email, an event is its type, intent and creation time, the gateway's answer is a parameter of Checkout.
- GetOrder, ListOrders and ListProducts: reads without protocol content.
- Rows of `customers` at statement level: resolving the caller is a machine of its own in `Customers` and a sequence of statements in `Identity`; it takes no part in the deadlock result, nor do the FOR KEY SHARE locks of foreign keys.
- PostgreSQL's own deadlock detector, statement timeouts and isolation levels above READ COMMITTED; a lost session stands for every way a transaction can be aborted from outside.
- Sequence order of claims inside ExpireOrders at statement level: `Transactions` lets a sweep claim any overdue unlocked orders, which includes the order the statement uses; the order itself is in `Store.PickOverdue`.
- Orders without an expiry, which migration 6 leaves on rows from before it; every order the model creates has one.
- Integer widths other than the stock counters: ids, prices and attempts are unbounded.
- Differences between the application's clock and the database's: one clock stamps and judges every expiry.
- Concurrent use of one resolver's memo: `Identity` runs one caller at a time, `Customers` judges any memoised id against every concurrent future.
- SHA-256 of the request is an injective function of the product id.
- The token bucket library is min(burst, tokens + elapsed*rps) over the reals; its floating-point rounding is not modelled.
- Pruning of idempotency keys, and the time stamps of their rows.
- Tickers and goroutine lifetimes: the machines let any enabled step come next. A cancelled context is a bound on rounds in `Sweeper` and a free choice in `Drain`.
- The time a sweep takes: `Hold` lets a full sweep happen at one instant, with at most one period between two, and no order locked by others while it runs.
- The time between the stamp of an expiry and the commit of its row: in `Hold` they are one instant, so a reserve or a checkout that waits on locks after stamping is outside the bound by the time it waited.
- The contents of stored payloads beyond what paymentIntentID finds in them.
- Store.Store.FindOrderByPaymentIntentID: returns one joined row; that it cannot be one of several rests on the unique intents its precondition names.
- Drain.Worker.ProcessNext: the worker's own connection and the order service's are one store; an event row locked by another worker is the business of `Workers`.
- KeyedReserve.KeyedStrategy.Reserve: one caller at a time; callers racing for a key are the business of `Idempotency`.
- Bench.ClientsBoundTheServer: an outcome is unknown when the session's reply is lost; a client that is told of an error by a server whose own commit was lost is outside its hypothesis.
