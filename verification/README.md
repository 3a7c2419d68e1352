# FluxKart: a verified model of the flash-sale protocol

FluxKart sells a limited stock to many buyers at once. A unit of stock is represented in three
stores: a Redis counter with expiring holds, the PostgreSQL tables, and a RabbitMQ queue fed
from an outbox table. This project models the code that moves units between them, and the
self-contained algorithms around it, in Dafny 4.11, and proves what they keep over all runs.
`dafny verify dfyconfig.toml` checks the whole project.

## How the model is laid out

- `Tables`, `Database`: the four tables, their constraints, and each transaction as a function
  that either commits a state satisfying every constraint or leaves the tables alone.
- `Inventory`: the Redis scripts as functions and as methods of a service object, and the
  ledger of one counter.
- `Expiry`: expiring rows one at a time, in bulk, and by the worker's batch loop.
- `Protocol`: the state machine. A step is one stage of a reservation request, one
  modification, poll, delivery (possibly cut off after any of its writes), payment,
  cancellation, expiry batch, crash or clock tick. Any step may follow any other.
- `CounterLedger`, `OrderLedger`, `ReservedExact`, `Oversell`, `Purchases`, `Lifecycle`: the
  invariants of that machine over every run.
- `Interleaving`: the same machine with the consumer's read and three writes, and the read and
  the commit of payments and cancellations, as separate moves that anything may come between.
  `BetweenWrites`, `StockBetweenWrites` and `Races` say what holds there, and exactly when.
- `Witnesses`, `RaceWitnesses`: concrete runs of the two machines, showing that the conditions of
  the conditional theorems cannot be dropped.
- `Services`: the request handlers statement by statement, proved to have the effect of the
  protocol steps they stand for.
- `Consumer`, `Outbox`, `RateLimiter`, `CircuitBreaker`, `Queue`, `Admission`,
  `Reconciliation`: one component each, a class with the component's loops and a specification
  about which the component's promises are proved.
- `Sums`: sums over rows and over maps.

Reading conventions. A row's generated id is its index in its table, since rows are never
deleted. A request's uuid is its index among the requests; it is a different kind of key from a
row id, because `reservation_service.py:251` draws the uuid under which the hold is written and
PostgreSQL generates the row id under which `cancel_order`, the expiry worker and the quantity
modification look for it. `Unpaid` is the database's order status `pending`. A reservation's
sale is required to have an inventory row, which is created with the sale.

## What the proofs found

Where the code and its documentation disagree, the model follows the code.

- `inventory_service.py:141-142` and `orders.py:252` say that expiry and cancellation return
  units to the pool. They look for a hold under the row id, find none, and return nothing:
  `CounterLedger.ReleasesByRowIdNeverCredit`. The counter therefore never oversells, and
  the units of expired and cancelled rows stay taken.
- The docstring of `confirm_reservation` (`db/queries/orders.py:179-189`) says that the expiry
  worker leaves confirmed rows alone. It selects them (`expiry_worker.py:79`), even when they are
  paid, and subtracts their units from `reserved_quantity` a second time:
  `Witnesses.PaidExpiryUndercounts`. So `reserved_quantity` is an upper-bounded, not an exact,
  count: `OrderLedger.SoldLedger` bounds it, and `ReservedExact.ReservedIsExactExactlyWhen` says
  exactly when it stays exact. Between the consumer's separate writes even the bound fails, when
  a payment, cancellation or expiry comes before the last write: `RaceWitnesses.LateIncrementOvercounts`,
  and `BetweenWrites.ReservedIsBoundedExactlyWhen` for exactly when.
- `pay_order` refuses only paid orders. Paying a cancelled one revives its reservation, and
  lets a buyer purchase twice: `Witnesses.CancelledOrderBuysTwice`. Paying pending orders only
  is still not enough, because a request checks for a paid order long before it writes its row:
  `Witnesses.SlowRequestBuysTwice`. Over all runs nobody buys twice exactly when no accepted payment
  is for a buyer who already has a paid order for the sale, the check `pay_order` leaves out:
  `Purchases.OnePaidPurchaseExactlyWhen`.
- `pay_order` and `cancel_order` read the order's status without a lock (`orders.py:114-137`,
  `:259-272`) and later update unconditionally (`:183-214`, `:274-300`). Two payments of one order can
  both commit, and its units are sold twice: `RaceWitnesses.DoublePaymentSellsTwice`. A cancellation
  can fail an order paid meanwhile: `RaceWitnesses.LateCancellationFailsPaidOrder`. A payment can bring
  back a row that expired meanwhile: `RaceWitnesses.LatePaymentRevivesExpired`. The exact conditions
  are `BetweenWrites.SoldIsPaidExactlyWhen`, `Races.PaidStaysPaidExactlyWhen`,
  `Races.GoneStayGoneExactlyWhen` and `Races.OnePaidPurchaseBetweenWritesExactlyWhen`. Whatever races,
  sold_quantity is at least the paid units, and those are within the stock:
  `BetweenWrites.PaidUnitsWithinStock`.
- The consumer reads the row (`order_consumer.py:123`) and later inserts an order for the units it
  read (`:160`). A modification in between leaves an order for more than its row is charged, although
  every delivery is whole: `RaceWitnesses.StaleReadOversells`. A consumer that dies between inserting
  the order and confirming the row leaves the same opening: `Witnesses.HalfDeliveryOversells`. Buyers
  hold no more of any row than it is charged exactly when no payment commits for more units than its
  row has by then (`StockBetweenWrites.ClaimsStayWithinBetweenWritesExactlyWhen`), and then live and
  paid units never exceed the stock: `StockBetweenWrites.LiveAndPaidWithinStockBetweenWrites`. Once
  counted and expired, a stale order also leaves units reserved for nobody:
  `RaceWitnesses.StaleExpiryOvercounts`.
- A half-open circuit lets every call through, not one test request as `circuit_breaker.py:31`
  says, and its successes count toward closing even if failures reopen the circuit in between,
  because opening does not clear the success counter (`circuit_breaker.py:196-199`):
  `CircuitBreaker.ClosesExactlyAtTheThreshold`, `CircuitBreaker.SuccessesSurviveReopening`.
- `reconciliation_worker.py:29` says that drift above `DRIFT_THRESHOLD`, two units, is fixed. The
  threshold is only logged, and drift below ten units is left as it is:
  `Reconciliation.EachSaleIsReconciled`.
- The rate limiter's guarantee shrinks by twice the clock skew between API and Redis, and the
  bound is sharp for every limit, window and skew: `RateLimiter.NoSpanExceedsTheLimit`,
  `RateLimiter.LongerSpansCanExceed`.

## Model

| member | source | states |
|---|---|---|
| CounterLedger.NoOversellAtTheCounter | backend/app/services/reservation_service.py:250-331 | In every run from seeded sales, the counter is never negative, and free units, units of requests in flight, units lost by crashed or lapsed compensations and the units of all rows add up to the seeded stock; so the rows never hold more than the stock |
| CounterLedger.LedgerOverRuns | backend/app/services/reservation_service.py:250-331 | The same ledger for all sales at once, with the facts it rests on: counters exist for seeded sales only and no hold is ever written under a row id |
| CounterLedger.StepKeepsLedger | backend/app/services/reservation_service.py:250-331 | Each of the fifteen kinds of step keeps the ledger of every sale |
| CounterLedger.CompensateKeeps | backend/app/services/reservation_service.py:321-327 | A compensation keeps the ledger; the request's units leave the units in flight, for the counter if its hold still exists and for the lost units if it has lapsed |
| CounterLedger.CrashLosesUnits | backend/app/services/reservation_service.py:282-331 | A request that crashes while it holds units leaves them lost: not in flight, not on the counter, and in no row |
| CounterLedger.ModifyKeeps | backend/app/routers/reservations.py:176-284 | A quantity change keeps the ledger; the counter of the row's sale changes by minus the row's change, and no other counter does |
| CounterLedger.ReleasesByRowIdNeverCredit | backend/app/routers/orders.py:303-309 | After any run, no cancellation and no expiry batch changes any counter or hold |
| Inventory.LedgerIsConserved | backend/app/services/inventory_service.py:94-253 | Over every legal sequence of reserve, release, increase, partial release and waiting, the counter stays non-negative, and it, the live holds and the units stranded without a hold add up to the seed |
| Inventory.ChargedIsLivePlusStranded | backend/app/services/inventory_service.py:100-110 | The units taken and not given back are exactly those of the live holds plus those charged to keys whose hold is gone |
| Inventory.PerformKeepsBalance | backend/app/services/inventory_service.py:94-253 | One script keeps the balance, and every live hold records exactly what its key is charged |
| Inventory.BalanceOverRuns | backend/app/services/inventory_service.py:94-253 | Every legal sequence of scripts keeps that balance, from any balanced ledger |
| Inventory.ReleaseTwiceIsReleaseOnce | backend/app/services/inventory_service.py:144-157 | Releasing the same hold again, at any later time and for any quantity, changes nothing |
| Inventory.HoldsLastTheirTtl | backend/app/services/inventory_service.py:94-110 | A reserved hold exists until exactly its time to live is over, and no other hold is affected |
| Inventory.QuantityScriptsKeepDeadlines | backend/app/services/inventory_service.py:190-253 | An increase or partial release leaves every hold as long to live as it had, and changes the quantity of the hold it names by its amount and of no other |
| Inventory.InventoryService.InitializeInventory | backend/app/services/inventory_service.py:52-70 | The counter becomes the quantity less what is already reserved, or zero if that is more; no other counter and no hold changes |
| Inventory.InventoryService.GetAvailableInventory | backend/app/services/inventory_service.py:72-78 | What is read is what can be reserved: a reservation run next takes a positive amount if and only if it is at most the number read; a missing counter reads as zero |
| Inventory.InventoryService.TryReserveInventory | backend/app/services/inventory_service.py:82-130 | Refuses and changes nothing when the counter is missing or short; else takes the units and writes the hold with its deadline |
| Inventory.InventoryService.ReleaseInventory | backend/app/services/inventory_service.py:134-166 | Credits the counter only if the hold still exists, and removes it |
| Inventory.InventoryService.ConfirmReservation | backend/app/services/inventory_service.py:168-177 | Drops the hold and leaves every counter |
| Inventory.InventoryService.TryIncreaseReservation | backend/app/services/inventory_service.py:179-224 | Takes the extra units if there are enough, and updates a hold that exists without moving its deadline |
| Inventory.InventoryService.ReleasePartialInventory | backend/app/services/inventory_service.py:226-262 | Credits the counter whether or not the hold exists, and lowers a hold that does |
| OrderLedger.SoldLedger | backend/alembic/versions/5e2340f9f4d8_create_initial_tables.py:71-75 | In every state reachable by whole payments, cancellations and deliveries, sold_quantity is the sum of paid quantities, reserved_quantity is between zero and the sum of pending quantities, and paid units are at most the seeded total |
| OrderLedger.BooksOverRuns | backend/app/routers/orders.py:183-214 | Over every run of such whole transactions, sold_quantity equals the paid units, reserved_quantity is at most the units of orders confirmed and unpaid, and every order has its reservation's user and sale, and while confirmed and unpaid also its quantity |
| OrderLedger.PayKeepsBooks | backend/app/routers/orders.py:183-214 | A payment, aborted or not, keeps those books |
| OrderLedger.CancelKeepsBooks | backend/app/routers/orders.py:275-300 | So does a cancellation |
| OrderLedger.DeliverKeepsBooks | backend/app/consumers/order_consumer.py:160-183 | So does a delivery, cut off after any of its writes or refused by a constraint |
| OrderLedger.ExpiryKeepsBooks | backend/app/workers/expiry_worker.py:101-153 | So does an expiry batch, paid rows included |
| OrderLedger.TotalsOverRuns | backend/alembic/versions/5e2340f9f4d8_create_initial_tables.py:62-77 | No step changes a sale's total_quantity or its set of inventory rows |
| ReservedExact.ReservedIsExactExactlyWhen | backend/alembic/versions/5e2340f9f4d8_create_initial_tables.py:62-77 | reserved_quantity equals the units of confirmed unpaid orders throughout a run if and only if every delivery, payment, cancellation and expiry of the run meets its condition below |
| ReservedExact.ExpiryIsExactWhen | backend/app/workers/expiry_worker.py:101-153 | An expiry batch keeps it exact if and only if, for each sale, all units of the batch are of confirmed rows with unpaid orders, or those that are make up all that is reserved |
| ReservedExact.PaymentIsExactWhen | backend/app/routers/orders.py:203-214 | A payment does if and only if the order is unpaid with a confirmed reservation, or nothing is reserved |
| ReservedExact.CancellationIsExactWhen | backend/app/routers/orders.py:289-300 | A cancellation does under the same condition |
| ReservedExact.DeliveryIsExactWhen | backend/app/consumers/order_consumer.py:134-183 | A delivery, cut off after any number of writes, does if and only if its row is not a pending one without an order, or it stops before confirming, or it is complete and the row's units fit in the stock |
| Oversell.ClaimsStayWithinExactlyWhen | backend/app/routers/orders.py:183-214 | With deliveries and payments as whole steps, a run ends with buyers holding no more of any row than the row is charged if and only if it accepted no payment of an order for more units than its row then had |
| Oversell.LiveAndPaidWithinStock | backend/app/services/reservation_service.py:250-331 | In every such run, free units, units in flight and the units live or paid for are together within the seeded stock |
| Oversell.StepKeepsWithinExactlyWhen | backend/app/routers/reservations.py:176-293 | From tables whose orders are within their rows, a whole step of the protocol keeps them so if and only if it is not a modification going below an order of its row |
| Oversell.QuantityKeepsWithinExactlyWhen | backend/app/db/queries/orders.py:118-148 | Changing a pending row's quantity keeps every order within its row if and only if no order of the row is for more than the new quantity |
| Witnesses.HalfDeliveryOversells | backend/app/consumers/order_consumer.py:160-170 | A run on two units, with a delivery cut off after its first write and then a modification, in which buyers hold three |
| Purchases.OnePaidPurchaseExactlyWhen | backend/app/routers/orders.py:113-214 | A run ends with at most one paid order per user and sale if and only if no payment it accepted was for a buyer who already had a paid order for that sale |
| Purchases.OnePaidPurchase | backend/app/services/reservation_service.py:160-191 | In every run in which each row is written, and each order that is neither pending nor paid is paid, only while its buyer has no paid order, nobody has two paid orders for one sale and no buyer of a pending order has paid for another |
| Purchases.PaymentKeepsOneExactlyWhen | backend/app/routers/orders.py:137-141 | From any tables with one paid order per user and sale, an accepted payment keeps it so if and only if its buyer has no paid order for the sale |
| Purchases.NewRowKeepsOneExactlyWhen | backend/app/services/reservation_service.py:283-302 | Writing a request's row keeps buyers who have paid without any other live reservation, on which one purchase per buyer rests, if and only if its own buyer has no paid order |
| Witnesses.CancelledOrderBuysTwice | backend/app/routers/orders.py:137-141 | A run in which a buyer pays a cancelled order and so owns two paid orders for one sale |
| Witnesses.SlowRequestBuysTwice | backend/app/services/reservation_service.py:160-172 | A run that pays pending orders only and still ends with two paid orders of one buyer for one sale |
| Witnesses.PaidExpiryUndercounts | backend/app/workers/expiry_worker.py:77-83 | A run in which the expiry of a paid row leaves nothing reserved while another order of the sale is confirmed and unpaid |
| Lifecycle.ExpiredNeverComesBack | backend/app/routers/orders.py:143-152 | With payments as whole steps, once a run has expired a reservation, no continuation makes it pending or confirmed |
| Lifecycle.PaidStaysPaid | backend/app/routers/orders.py:137-141 | With cancellations as whole steps, a paid order is the same, field by field, after every continuation |
| Lifecycle.ConfirmedImpliesOrdered | backend/app/consumers/order_consumer.py:160-171 | After every run, crashes and redeliveries included, each confirmed reservation has an order and no reservation has two |
| Interleaving.PayOrderIsReadThenCommit | backend/app/routers/orders.py:114-214 | The whole payment of the protocol is the payment's read with its commit right behind it, and nothing when the read refuses |
| Interleaving.CancelOrderIsReadThenCommit | backend/app/routers/orders.py:259-309 | So is the whole cancellation, its release in Redis included |
| Interleaving.ConsumeIsFetchThenWrites | backend/app/consumers/order_consumer.py:122-183 | The whole delivery, cut off after any of its writes, is the consumer's read with that many writes right behind it, and the worker then ends |
| Interleaving.NothingMovesTwice | backend/app/routers/orders.py:183-300 | A payment or cancellation commits once, and a worker that died writes nothing more |
| Interleaving.ConfirmedImpliesOrderedBetweenWrites | backend/app/consumers/order_consumer.py:122-183 | Each confirmed reservation has an order and no reservation has two, at every point between the separate reads and writes of any number of interleaved consumers, payments and cancellations, each of which may stop anywhere |
| BetweenWrites.SoldIsPaidExactlyWhen | backend/app/routers/orders.py:114-214 | At every point between reads and writes sold_quantity is at least the units of paid orders, and is equal to them for every sale if and only if no payment and no cancellation has committed on an order already paid by then |
| BetweenWrites.PaidUnitsWithinStock | backend/alembic/versions/5e2340f9f4d8_create_initial_tables.py:71-75 | At every such point, whatever raced before, the units of paid orders are at most sold_quantity, and that is at most the seeded stock |
| BetweenWrites.ReservedIsBoundedExactlyWhen | backend/app/consumers/order_consumer.py:173-183 | At all such points reserved_quantity is at most the units of confirmed unpaid orders whose increment is not still to come, if and only if no increment comes after its order has stopped being one and finds no room left by others, and no expiry batch takes back less than it drops |
| BetweenWrites.CarefulMovesCountHeld | backend/app/consumers/order_consumer.py:160-183 | That bound holds if every increment finds its row still confirmed with its order unpaid, and every expired row in that state has at least its order's units |
| BetweenWrites.ReservedWithinHeldBetweenWrites | backend/app/consumers/order_consumer.py:160-183 | Under either condition reserved_quantity is at most the units of confirmed unpaid orders between any two reads and writes |
| StockBetweenWrites.LedgerOverMoves | backend/app/services/reservation_service.py:250-331 | Between any two reads and writes the counters, the requests in flight, the lost units and the rows account for every seeded unit |
| StockBetweenWrites.ClaimsStayWithinBetweenWritesExactlyWhen | backend/app/routers/orders.py:183-214 | Buyers hold no more of any row than it is charged, at all points between reads and writes, if and only if no payment commits for more units than its row has by then |
| StockBetweenWrites.LiveAndPaidWithinStockBetweenWrites | backend/app/services/reservation_service.py:250-331 | Then free units, units in flight and the units live or paid for are together within the seeded stock |
| StockBetweenWrites.SaleWithinStockExactlyWhen | backend/app/services/reservation_service.py:250-331 | At every point, the live and paid units of a sale are within its stock if and only if the units paid for beyond their rows' charges are at most those free, in flight, lost, or charged and held by nobody |
| StockBetweenWrites.OrdersStayWithinBetweenWritesExactlyWhen | backend/app/consumers/order_consumer.py:122-170 | No order is for more units than its row at any point if and only if no modification goes below an order of its row and no order is accepted for more units than its row has by then |
| StockBetweenWrites.OrdersWithinNeverOversell | backend/app/routers/reservations.py:176-293 | Then live and paid units are within the seeded stock |
| Races.PaidStaysPaidExactlyWhen | backend/app/routers/orders.py:259-300 | Every order paid at one point between reads and writes is the same at every later one if and only if no cancellation commits on an order paid by then |
| Races.GoneStayGoneExactlyWhen | backend/app/routers/orders.py:143-214 | Every row dead and past its deadline at one point stays so if and only if no payment commits on a row that is |
| Races.ExpiredNeverComesBackBetweenWrites | backend/app/routers/orders.py:143-214 | Then a row expired at one point is live at no later one |
| Races.OnePaidPurchaseBetweenWritesExactlyWhen | backend/app/routers/orders.py:114-214 | Nobody has two paid orders for one sale at any point if and only if no payment commits while its buyer has another paid order for the sale |
| RaceWitnesses.StaleReadOversells | backend/app/consumers/order_consumer.py:122-170 | A run on two units, no delivery cut short, with a modification between the consumer's read and its insert, in which buyers hold three |
| RaceWitnesses.StaleExpiryOvercounts | backend/app/workers/expiry_worker.py:141-153 | A run in which the expiry of such a row takes back fewer units than it drops, so that one is reserved that no confirmed unpaid order holds |
| RaceWitnesses.DoublePaymentSellsTwice | backend/app/routers/orders.py:114-214 | A run in which two payments read one order unpaid and both commit, so that sold_quantity is two for one paid unit |
| RaceWitnesses.LateCancellationFailsPaidOrder | backend/app/routers/orders.py:259-300 | A run in which a cancellation commits after the payment it did not see, and fails the paid order |
| RaceWitnesses.LatePaymentRevivesExpired | backend/app/routers/orders.py:143-214 | A run in which a payment read in time commits after its row has expired, and makes it confirmed |
| RaceWitnesses.LateIncrementOvercounts | backend/app/consumers/order_consumer.py:171-183 | A run with a payment between the consumer's second and third write, after which a unit is reserved that no confirmed unpaid order holds |
| Lifecycle.NoSilentLoss | backend/app/services/reservation_service.py:304-319 | Every committed reservation has exactly one event; and a pending one without an order has an event unpublished or given up after ten failures, or a message queued or dead-lettered |
| Lifecycle.ConsumeLosesNothing | backend/app/consumers/order_consumer.py:105-200 | No delivery breaks that: an acknowledged message leaves its reservation ordered or settled |
| Lifecycle.PollLosesNothing | backend/app/workers/outbox_worker.py:89-127 | Nor does a poll, whatever the broker and the bookkeeping after it do |
| Lifecycle.MessagesEndExactlyWhen | backend/app/consumers/order_consumer.py:105-200 | A message is acknowledged if and only if its row is not pending or its delivery is complete and not refused; it is dead-lettered if and only if a constraint or the consumer raises before that; otherwise it stays queued |
| Lifecycle.MessagesAreKept | backend/app/workers/outbox_worker.py:93-107 | Publishing and polling add one message for the row, and no step but a delivery takes one away |
| Protocol.PollStepsMakeAPoll | backend/app/workers/outbox_worker.py:86-127 | Poll steps of the protocol over a batch do to the table what one poll of the outbox component does, and leave a message for each reservation whose event the broker accepted |
| Protocol.OtherStepsChangePendingRowsOnly | backend/app/db/queries/orders.py:118-143 | Apart from deliveries, payments, cancellations and expiry, steps leave the inventory, all orders and all rows that are not pending alone, and the clock never goes back |
| Protocol.ArrivesExactlyWhen | backend/app/services/reservation_service.py:152-191 | In the protocol too, a request is let in if and only if no row has its key and its buyer has neither a paid order nor a pending or confirmed reservation for the sale |
| Protocol.ModifiesExactlyWhen | backend/app/routers/reservations.py:204-293 | A modification by the row's user changes a pending row if and only if it asks for less, or for more and the counter has the difference; then the row has the new quantity and a fresh deadline and the counter pays for the change |
| Protocol.FetchedBatchExpires | backend/app/workers/expiry_worker.py:75-186 | What the worker fetches is a batch the protocol accepts, whole |
| Tables.CancelNeverAborts | backend/app/routers/orders.py:274-300 | A cancellation that passes its guards never breaks a table constraint |
| Tables.PayAbortsExactlyWhen | backend/app/routers/orders.py:183-214 | An accepted payment is aborted if and only if the stock CHECK fails or another live reservation of its buyer for the sale exists |
| Tables.PayRefusesExactlyWhen | backend/app/routers/orders.py:131-181 | A payment is refused for another user's or no order, else for a paid one, else for a deadline that is past, else for the card, and otherwise commits or aborts |
| Tables.PaymentChangesExactly | backend/app/routers/orders.py:183-214 | A payment that is not refused or aborted marks its own order paid and its row confirmed, and moves the units from reserved to sold; any other payment changes nothing |
| Tables.CancelRefusesExactlyWhen | backend/app/routers/orders.py:259-272 | A cancellation is refused for another user's or no order, and for a paid one, and for nothing else |
| Tables.CancellationChangesExactly | backend/app/routers/orders.py:274-300 | Otherwise it fails that order, cancels its row and unreserves the units, and changes nothing else |
| Tables.RowIsAcceptedExactlyWhen | backend/alembic/versions/e2ce7af2cabf_fix_reservation_unique_constraint.py:24-36 | A reservation row is accepted if and only if its sale is listed, its key is new and its buyer has no other pending or confirmed row for the sale |
| Tables.ConfirmingIsAllowed | backend/app/db/queries/orders.py:175-200 | Confirming a reservation never breaks a table constraint |
| Protocol.QuantityKeepsConstraints | backend/app/db/queries/orders.py:118-148 | Nor does changing a quantity |
| Services.CreateReservation | backend/app/services/reservation_service.py:141-383 | An uninterrupted request, the outcome of its sale and queue checks given, creates a row if and only if no row has its key, its buyer has no paid order and no pending or confirmed reservation for the sale, it is admitted, the counter has the units and the database accepts; each refusal has its reply; a created row, its event and its hold are as asked for, and any refusal changes no table and no counter; the effect is that of the protocol's stages |
| Services.RequestedIsUninterrupted | backend/app/services/reservation_service.py:141-331 | That effect is the composition of the four protocol steps of one request, from any state, and the request is then finished |
| Services.FailedRequestsChangeNothing | backend/app/services/reservation_service.py:321-331 | A request that writes no row leaves the tables and every counter as they were |
| Services.FirstChecks | backend/app/services/reservation_service.py:152-191 | Refuses a used key and names its row, else a buyer with a paid order for the sale, else a buyer with a pending or confirmed reservation for it, and lets every other request on |
| Services.InsertReservation | backend/app/services/reservation_service.py:283-319 | The row and its event are written together, or neither is |
| Services.PersistOrCompensate | backend/app/services/reservation_service.py:282-331 | Either the row is there and Redis is untouched, or the tables are untouched and the hold is released |
| Services.PayOrder | backend/app/routers/orders.py:113-214 | Answers each guard in the source's order, and ends with the payment's tables or, on a broken constraint, the old ones |
| Services.CancelOrder | backend/app/routers/orders.py:245-314 | Does to both stores what the protocol's cancellation step does, aborted or not |
| Services.ModifyReservationQuantity | backend/app/routers/reservations.py:176-293 | Modifies if and only if the row is pending and the user's and the new quantity is lower, or higher with enough units on the counter; then the row has the quantity and a fresh deadline and the counter has paid the difference; each refusal has its reply and changes neither store; the effect is that of the protocol's modification step |
| Services.ProcessOrderMessage | backend/app/consumers/order_consumer.py:105-204 | Three separately committed writes with the effect and outcome of one complete delivery; a refused write keeps the earlier ones |
| Consumer.DeliveryConfluence | backend/app/consumers/order_consumer.py:122-183 | Two delivery sequences naming the same reservations, in any order and with any duplicates, end with the same reservations, the same set of orders with one per reservation, agree on whether a CHECK failed, and if none did end with the same inventory |
| Consumer.DeliveriesAmount | backend/app/consumers/order_consumer.py:134-171 | A sequence of deliveries confirms and orders each fresh reservation it names, once, and nothing else |
| Consumer.NoCheckFailsExactlyWhen | backend/app/consumers/order_consumer.py:173-183 | No CHECK fails if and only if, for each sale, the units of all fresh reservations named fit in what is left; then each sale's reserved_quantity has grown by exactly those units |
| Consumer.DeliveryByCases | backend/app/consumers/order_consumer.py:134-183 | A delivery acts on pending reservations without an order only, and its inventory write succeeds if and only if the units fit |
| Consumer.OrderIsUnique | backend/alembic/versions/5e2340f9f4d8_create_initial_tables.py:107-107 | Inserting an order is accepted if and only if its reservation has none |
| Expiry.BulkRefinesRowByRow | backend/app/workers/expiry_worker.py:91-153 | Grouping by sale with one clamped subtraction each gives the same tables as expiring the rows one at a time in any order |
| Expiry.BatchesCompose | backend/app/workers/expiry_worker.py:48-57 | Expiring two disjoint batches is expiring their union |
| Expiry.BulkKeepsConstraints | backend/app/workers/expiry_worker.py:101-153 | An expiry batch never breaks a table constraint |
| Expiry.FetchedAreTheMostOverdue | backend/app/workers/expiry_worker.py:75-86 | A batch is made of unlocked pending and confirmed rows past their deadline, none of them later than one left behind, and of all of them if it is not full |
| Expiry.GroupBySale | backend/app/workers/expiry_worker.py:94-99 | The accumulated groups are exactly the sales of the fetched rows, each with their units |
| Expiry.UnreserveGroups | backend/app/workers/expiry_worker.py:141-153 | Each grouped sale loses its group's units, clamped at zero, and no other sale changes |
| Expiry.ExpireTransaction | backend/app/workers/expiry_worker.py:101-153 | The grouped statements amount to the bulk expiry of the fetched rows |
| Expiry.ReleaseLoop | backend/app/workers/expiry_worker.py:155-174 | Releases, row by row, the units of the rows whose sale is active |
| Expiry.ReleaseRowsFindsNothing | backend/app/workers/expiry_worker.py:157-168 | Without a hold under any row id, the release loop leaves Redis as it was |
| Expiry.ReleaseRowsGivesBack | backend/app/workers/expiry_worker.py:155-174 | With holds under row ids, the loop would remove exactly those of the batch's rows of active sales and give back exactly those rows' units |
| Expiry.ExpireBatch | backend/app/workers/expiry_worker.py:62-186 | One batch expires exactly the rows it fetched, pending or confirmed and overdue, fails their orders unless paid, changes no other row or order, and keeps the table constraints it relies on |
| Expiry.ExpireReservations | backend/app/workers/expiry_worker.py:38-59 | The loop ends; for any batch size of at least one it expires exactly the unlocked pending and confirmed rows past their deadline, fails their orders unless paid, changes no other row or order, returns the number of those rows, and leaves none |
| Outbox.RetriesCountFailures | backend/app/db/queries/outbox.py:92-115 | Over any polls, an event's retry_count grows by exactly the number of its failed handlings, and it is published by the first handling that is accepted and recorded, or by the one after its tenth failure |
| Outbox.AcceptedExactlyWhen | backend/app/workers/outbox_worker.py:93-107 | Over any polls, the broker has accepted a reservation's event if and only if one of its handlings before ten failures was not a rejection |
| Outbox.RecordedIsPublished | backend/app/workers/outbox_worker.py:104-120 | An event accepted and recorded in a handling before its tenth failure is published by it, with its failures as its retries, and the broker has it |
| Outbox.OutboxDrains | backend/app/workers/outbox_worker.py:78-129 | Without new events, as many polls as the backlog publish every event, whatever the broker does, and each was then accepted and recorded after fewer than ten failures, or has failed exactly ten times |
| Outbox.PollSpends | backend/app/workers/outbox_worker.py:86-127 | Each poll lowers the sum of 11 - retry_count over unpublished events by at least the length of its batch |
| Outbox.HandleAllIsSound | backend/app/workers/outbox_worker.py:93-127 | No event is ever published that the broker did not accept and that has not reached ten retries |
| Outbox.OutboxWorker.CreateOutboxEvent | backend/app/db/queries/outbox.py:14-49 | Adds one unpublished event with no retries and keeps the table in order of creation |
| Outbox.OutboxWorker.PublishOne | backend/app/workers/outbox_worker.py:89-127 | Gives up after ten retries, marks only after the broker accepted, and counts any failure, even one after acceptance, as one retry; no other event changes |
| Outbox.OutboxWorker.ProcessOutboxBatch | backend/app/workers/outbox_worker.py:78-129 | Handles the oldest unpublished events in order and returns the number of events with retries left that are published by this poll |
| RateLimiter.NoSpanExceedsTheLimit | backend/app/middleware/rate_limiter.py:59-78 | With fresh request ids and API clocks within a skew of Redis, no half-open span of window minus twice the skew, anywhere in Redis time, holds more accepted requests than the limit |
| RateLimiter.DecisionsCountTheHistory | backend/app/middleware/rate_limiter.py:59-78 | On one clock each decision and count is that of the full history of accepted requests in (now - window, now], and the same as if the key never expired |
| RateLimiter.LongerSpansCanExceed | backend/app/middleware/rate_limiter.py:103-104 | For every limit of at least one and every window of at least twice the skew there is a legal trace with one accepted request more than the limit in a span one millisecond longer |
| RateLimiter.RecentAreKept | backend/app/middleware/rate_limiter.py:66-68 | Whatever was accepted in such a span up to now is among the members the script counts, in spite of pruning and key expiry |
| RateLimiter.SlidingWindow.Check | backend/app/middleware/rate_limiter.py:59-78 | Prunes, counts and adds as one step; a refused request is not added and does not extend the key's life |
| CircuitBreaker.CountersAgreeWithTheTrace | backend/app/utils/circuit_breaker.py:150-199 | After any calls taken one at a time, at every later instant the expiring failure counter reads the length of the trace's current failure run, and the success counter its half-open successes since the last close, gaps under 60 s |
| CircuitBreaker.AttemptIsLogged | backend/app/utils/circuit_breaker.py:104-205 | That trace is complete: each call that runs adds how and in which phase it ended and the transition it made, and closing resets everything |
| CircuitBreaker.OpensExactlyAtTheThreshold | backend/app/utils/circuit_breaker.py:174-194 | A failing call opens a closed circuit if and only if the failure run it ends reaches the threshold |
| CircuitBreaker.ClosesExactlyAtTheThreshold | backend/app/utils/circuit_breaker.py:150-168 | A successful attempt closes the circuit if and only if it completes enough half-open successes since the last close, consecutive or not |
| CircuitBreaker.SuccessesSurviveReopening | backend/app/utils/circuit_breaker.py:153-161 | For every failure threshold, every cooldown under a minute and a success threshold of two, a trace in which a half-open circuit runs two calls, the second fails and reopens it, and one success after the next cooldown closes it |
| CircuitBreaker.NoAttemptBeforeCooldown | backend/app/utils/circuit_breaker.py:115-136 | An open circuit runs the wrapped function if and only if its cooldown is over, and changes nothing before |
| CircuitBreaker.AttemptsAreSpaced | backend/app/utils/circuit_breaker.py:115-199 | Against a dependency that keeps failing, the k-th attempt after an opening starts at least k cooldowns after it |
| CircuitBreaker.DistributedBreaker.Invoke | backend/app/utils/circuit_breaker.py:104-148 | One call: fail fast, or run and record, with the state, keys and log of the specification |
| CircuitBreaker.DistributedBreaker.Success | backend/app/utils/circuit_breaker.py:150-172 | Counts toward closing when half-open, clears failures when closed |
| CircuitBreaker.DistributedBreaker.Failure | backend/app/utils/circuit_breaker.py:174-194 | Reopens at once when half-open, counts when closed |
| CircuitBreaker.DistributedBreaker.Open | backend/app/utils/circuit_breaker.py:196-205 | Restarts the cooldown and clears the failures, but not the successes |
| Queue.EarlierArrivalIsAhead | backend/app/services/queue_service.py:68-125 | After any mix of joins, departures, pops and sweeps, of two users waiting the one who joined in an earlier millisecond is ahead |
| Queue.EarlierArrivalIsServedFirst | backend/app/services/queue_service.py:110-121 | After any such mix, a batch serves as many as asked for or all there are, and nobody is served while someone who joined in an earlier millisecond goes on waiting |
| Queue.WhoWaitsAfter | backend/app/services/queue_service.py:68-125 | Who waits after a join, a departure, a pop or a sweep, with which score, and that a join records the arrival of a user not waiting |
| Queue.LaterArrivalsQueueBehind | backend/app/services/queue_service.py:68-80 | A later millisecond's arrival leaves the rank of everyone already waiting unchanged |
| Queue.ReenqueueChangesNothing | backend/app/services/queue_service.py:77-77 | Joining again while waiting changes nothing |
| Queue.PopsCompose | backend/app/services/queue_service.py:110-121 | Popping a and then b users is popping a + b, in the same order |
| Queue.SweepMovesUpByGhostsAhead | backend/app/workers/heartbeat_worker.py:85-99 | A sweep keeps each survivor and lowers its rank by exactly the ghosts that were ahead |
| Queue.SweepQueue | backend/app/workers/heartbeat_worker.py:84-99 | The inner loop keeps exactly the members whose heartbeat has not expired, in that queue only, and counts those removed |
| Queue.RemoveGhostUsers | backend/app/workers/heartbeat_worker.py:64-109 | In every queue exactly the members with a heartbeat that has not expired are left, and the result is the number of users removed from all of them |
| Queue.QueueService.Enqueue | backend/app/services/queue_service.py:68-80 | Adds the user at the arrival millisecond unless already waiting, keeps the order, and returns the 1-based position |
| Queue.QueueService.GetPosition | backend/app/services/queue_service.py:82-87 | None if and only if the user is not waiting; otherwise exactly position - 1 entries of the queue are before the user's own |
| Queue.QueueService.DequeueBatch | backend/app/services/queue_service.py:110-121 | The users returned followed by those left are the users who were waiting, in rank order, and they are as many as asked for or all there were |
| Queue.QueueService.RemoveFromQueue | backend/app/services/queue_service.py:123-125 | Removes that user from that queue and keeps the others in order |
| Queue.QueueService.AdmitUser | backend/app/services/queue_service.py:100-104 | Grants a token for thirty seconds and removes the user from the queue |
| Admission.AdmissionIsPrefixClosed | backend/app/workers/admission_worker.py:82-106 | With any number of workers interleaved row by row, late registrations and crashes, whoever registered before an admitted user is admitted |
| Admission.PrefixClosedIsReachable | backend/app/workers/admission_worker.py:82-106 | And nothing more holds of the table: some run reaches every table in which whoever registered before an admitted user is admitted |
| Admission.UninterruptedWorkerIsABatch | backend/app/workers/admission_worker.py:65-114 | A worker not interrupted between its fetch and its marks does what one whole batch does |
| Admission.BatchKeepsPrefixClosed | backend/app/workers/admission_worker.py:83-106 | One whole batch keeps that, and a batch that is not full leaves nobody waiting |
| Admission.FetchTakesTheEarliest | backend/app/db/queries/preregistrations.py:48-69 | Nobody left waiting registered before somebody fetched, and a fetch below its limit takes everybody |
| Admission.TokensGoToTheAdmitted | backend/app/workers/admission_worker.py:93-101 | Exactly the users of the batch get a token for the next sixty seconds, and other tokens are as before |
| Admission.AdmissionWorker.AdmitBatch | backend/app/workers/admission_worker.py:65-114 | Grants a token to and marks each fetched user, no other, and returns their number |
| Admission.AdmissionWorker.Register | backend/app/db/queries/preregistrations.py:8-27 | Adds a waiting row in order of registration, ties allowed, or refuses a user already registered |
| Reconciliation.EachSaleIsReconciled | backend/app/workers/reconciliation_worker.py:86-139 | A key less than ten units from max(0, total - reserved - sold) keeps its value and any other key is set to that; a missing key is created with it if the sale is active, and not otherwise |
| Reconciliation.SecondRunChangesNothing | backend/app/workers/reconciliation_worker.py:86-139 | An immediate second run changes no key and repairs nothing |
| Reconciliation.ResultsAddUp | backend/app/workers/reconciliation_worker.py:86-139 | checked, ok, drifted, fixed and reseeded are exactly the numbers of sales, of exact keys, of drifted keys, of those that drifted by ten units or more, and of active sales without a key; checked is the sum of ok, drifted and missing keys |
| Reconciliation.OthersUntouched | backend/app/workers/reconciliation_worker.py:96-134 | Keys of sales that are not in the query are left alone |
| Reconciliation.ReconciliationWorker.ReconcileInventory | backend/app/workers/reconciliation_worker.py:53-159 | The loop with its counters and early exits computes the keys and results these properties are about |

## Left out

- OrderLedger.SoldLedger: a payment, a cancellation and a delivery are one step each; it is false when two payments of one order both read it unpaid (`RaceWitnesses.DoublePaymentSellsTwice`), and `BetweenWrites.SoldIsPaidExactlyWhen` and `BetweenWrites.ReservedIsBoundedExactlyWhen` are exact for all interleavings.
- Lifecycle.PaidStaysPaid: a cancellation is one step; it is false of one that commits after a payment (`RaceWitnesses.LateCancellationFailsPaidOrder`), and `Races.PaidStaysPaidExactlyWhen` is exact for all interleavings.
- Lifecycle.ExpiredNeverComesBack: a payment is one step; it is false of one that commits after the expiry (`RaceWitnesses.LatePaymentRevivesExpired`), and `Races.GoneStayGoneExactlyWhen` is exact for all interleavings.
- Oversell.LiveAndPaidWithinStock: not proved for all runs, because it is false when an order outgrows its row (`Witnesses.HalfDeliveryOversells`, `RaceWitnesses.StaleReadOversells`); its deliveries and payments are one step, and `StockBetweenWrites.LiveAndPaidWithinStockBetweenWrites` has them interleaved. `StockBetweenWrites.SaleWithinStockExactlyWhen` is exact for the total of a sale.
- Oversell.StepKeepsWithinExactlyWhen: a delivery's read and insert are one step; `StockBetweenWrites.OrdersStayWithinBetweenWritesExactlyWhen` lets the row change in between.
- Purchases.OnePaidPurchase: not proved for all runs that pay pending orders only, because it is false when a request outlasts a paid reservation (`Witnesses.SlowRequestBuysTwice`); `Purchases.OnePaidPurchaseExactlyWhen` is exact for all runs.
- Queue.EarlierArrivalIsAhead: users arriving in the same millisecond are ordered by name, as Redis does, and nothing more is claimed of them.
- Admission.AdmissionIsPrefixClosed: assumes that no two users register at the same instant; the database may fetch rows with equal times in either order, and differently for two workers.
- RateLimiter.NoSpanExceedsTheLimit: covers requests the script decides; when Redis is down the limiter lets everything through, which is not modelled.
- CircuitBreaker.CountersAgreeWithTheTrace: covers calls taken one at a time; concurrent calls read and write the shared keys without a transaction.
- Expiry.ExpireReservations: takes one clock reading for the whole loop and a given set of rows locked elsewhere, and its release loop meets no Redis error.
- Reconciliation.ReconciliationWorker.ReconcileInventory: assumes that no Redis call fails; it is not a step of the protocol, because its expected value ignores pending rows.
- Queue.RemoveGhostUsers: the sweep is not interleaved with joins and departures; any mix of whole operations is covered by `Queue.EarlierArrivalIsAhead`.
- Outbox.OutboxDrains: a poll whose own SELECT or UPDATE of the retry count fails is not modelled, and two outbox workers do not run at once.
- Services.ModifyReservationQuantity: the read, the script and the row update are one step, so two modifications of one reservation, or one racing the consumer or the expiry worker, are not interleaved.
- Services.CreateReservation: the sale, queue and admission-token checks are one input; the direct publication is a separate protocol step; a commit whose outcome the client never learns is not modelled.
- The reservation TTL is an arbitrary positive number of seconds: trust scores are a clamp and two threshold tables. Redis rounds a remaining TTL to whole seconds; the clock of the model counts whole seconds.
- The database fallback of `degradation.py` is not a step: it adds to reserved_quantity and the consumer adds again, which breaks the ledger by design.
- Activation, re-activation, sale edits, inventory adjustments and row deletions by administrators are not steps: they overwrite counters or remove rows unconditionally.
- The payment idempotency cache: a payment it answers changes nothing, and it is filled only after a commit, so it does not keep two payments of one order apart.
- Prices, card formats, tokens, passwords, metrics, tracing, logging and notifications: single-branch checks or library calls; a valid card is an input of a payment.
- Connection handling, reconnect loops, the SSE stream, the dead-letter monitor, worker start-up and sleep loops, and the registry of admission workers.
- `expire_sales`, `activate_scheduled_sales`, and the read-only queries.
- Frontend, load test, Kubernetes, nginx, pgbouncer and scripts.
