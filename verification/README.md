# Order fulfilment saga of event-driven-architecture-orders, in Dafny

This project models the core of an order-fulfilment system. Three services
share one relational store: orders, inventory and payment. They talk through
a RabbitMQ topic exchange called `orders`.

- **Inventory ledger and reservations.** An append-only ledger of IN/OUT
  movements sits beside a reservation table. Each reservation is PENDING,
  CONFIRMED or CANCELLED, and has an expiry instant.
  - Available quantity is ΣIN − ΣOUT − Σ(live PENDING reservations). Only
    active products count.
  - `reserveProduct` checks availability, then inserts a reservation.
  - `confirmReservationsByOrderId` moves each PENDING reservation of an order
    to CONFIRMED and records a matching OUT movement. It does not check expiry.
  - `releaseReservationsByOrderId` cancels the order's PENDING reservations.
- **Inventory worker.** It registers three handlers on the `orders` exchange.
  - OrderCreated reserves each line item for 30 minutes and collects the
    failures. If any item failed, it releases the order's reservations and then
    asks the orders service to cancel the order. The reason string names the
    failed products.
  - OrderConfirmed confirms the order's reservations.
  - OrderCancelled releases them.
- **Messaging.**
  - The processed-message store (`Idempotency`) is a Redis key/TTL store under
    the prefix `processed:`. It offers set-if-absent claiming and fails open on
    errors.
  - The queue consumer applies option defaults and sends one ack or one nack per
    delivery. It never consults the processed-message store. The worker passes
    `enableIdempotency`, but the consumer's options have no such field, so a
    redelivered message is handled again.
- **Orders.**
  - `createOrder` writes the order and its lines in one transaction, then
    re-reads the order.
  - `findOrderById` reads a left join of order, items, customer and products,
    then folds the rows into one order. Items are keyed by product. A key keeps
    its place from the first row that names it, and takes its value from the last
    such row.
  - `updateOrderStatus` overwrites the status with no transition rule.
- **Payment.**
  - `processPayment` inserts a PENDING payment and asks the gateway. It sets the
    payment to CONFIRMED when the gateway confirms and to CANCELLED otherwise,
    then re-reads the payment.
  - It checks no reservation and publishes no event.
- **Request validators.**
  - The decimal-amount pattern `^\d+(\.\d{1,2})?$`.
  - Positivity of quantities and prices, at least one line per order, and the
    status and movement-type enumerations.
  - The 30-minute default for a reservation's lifetime.

The model is sequential and in memory:

- One `Storage.Database` object holds every table, plus a flag `online` that
  says whether the store answers.
- Generated ids are row positions.
- Time is an explicit `now` parameter: milliseconds for reservations, seconds
  for the key/TTL store.
- Each repository and service is a class holding its collaborator. Each method
  states the whole new state of what it `modifies`.
- The worker records, in its field `calls`, the calls it makes on the inventory
  and orders services, in order.
- The column types of the store are part of the model (module `Columns`).
  `integer` quantities are 32-bit, and an insert outside that range fails.
  `numeric(10,2)` totals, prices and amounts hold at most eight integer digits
  and two decimals. A total or amount written as a string is read back in the
  store's own rendering ("10.5" becomes "10.50"). A price written as a number
  is rounded to hundredths, half away from zero.

Behaviour of the code worth knowing:

- Order, payment and reservation status updates are not monotonic. They
  overwrite whatever status was there.
- `findOrderById` on an unknown id ends in InternalServerError, not
  NotFoundError. The NotFoundError it raises is caught and rewrapped by its own
  `catch`.
- Payment does not re-check reservations before charging.
- Consumption is not idempotent.
- `OrdersService` has no `cancelOrder` or `confirmOrder`, although the workers
  call them. Here the outcome of `cancelOrder` is a parameter of the handler.

## Model

| member | source | states |
|---|---|---|
| Text.IntToString | src/apps/inventory/worker/inventory.worker.ts:95 | the rendering of a quantity in a template literal starts with `-` exactly for negative numbers, and the digits after the sign read back as the magnitude |
| Decimal.AcceptedMatchesPattern | src/apps/orders/dto/orders.dto.ts:16-18 | every total the validator accepts is digits, or digits, a point and one or two digits |
| Decimal.PatternIsAccepted | src/apps/payment/dto/payment.dto.ts:6-8 | every string of that shape is accepted |
| Decimal.AmountValidatorMatchesPattern | src/apps/payment/dto/payment.dto.ts:6-8 | the validator accepts exactly the strings the regular expression describes |
| Decimal.RejectsThreeFractionDigits | src/apps/payment/dto/payment.dto.ts:8 | a string with three digits after its point is refused |
| Decimal.AcceptedStringsAreDigitsAndOnePoint | src/apps/payment/dto/payment.dto.ts:8 | an accepted amount starts and ends with a digit and holds nothing but digits and points |
| Decimal.AmountExamples | src/apps/payment/dto/payment.dto.ts:6-8 | "0", "10.5" and "12.34" are accepted; "1.234", "1.", ".5", "-1", " 1", "1,50" and "" are refused |
| Columns.PointIndex | src/infra/db/postgres/schemas/orders.ts:16 | the position of the first point of a string, or its length when there is none |
| Columns.AcceptedShape | src/infra/db/postgres/schemas/payment.ts:15 | an amount the validator accepts is a non-empty digit run, optionally followed by a point and one or two digits |
| Columns.RenderedIsAccepted | src/infra/db/postgres/schemas/payment.ts:15 | the store's two-decimal rendering of a value is itself an accepted amount with that same value |
| Columns.NumericTextKeepsValue | src/infra/db/postgres/schemas/orders.ts:16 | a `numeric(10,2)` column accepts a decimal string iff it matches the pattern and is below 10^8; it keeps the value exactly and prints it with two decimals |
| Columns.NumericTextIdempotent | src/infra/db/postgres/schemas/payment.ts:15 | writing back what the column printed stores the same text |
| Columns.NumericTextPadsFraction | src/apps/orders/repository/orders.repository.ts:108-116 | a total of "10.5" reads back as "10.50" |
| Columns.NumericTextDropsLeadingZeros | src/apps/payment/repository/payment.repository.ts:55-61 | an amount of "007" reads back as "7.00" |
| Columns.NumericTextLimits | src/infra/db/postgres/schemas/orders.ts:16 | three decimals and 10^8 are refused; the largest value below 10^8 is kept as written |
| Columns.StoredPriceIsNearest | src/infra/db/postgres/schemas/order-items.ts:14 | a price read back from the column is within half a hundredth of the one written |
| Columns.WholeCentsStoredExactly | src/infra/db/postgres/schemas/order-items.ts:14 | a price already in whole hundredths is stored exactly |
| Columns.StoredPriceExample | src/apps/orders/repository/orders.repository.ts:120-127 | a price of 9.999 reads back as 10 |
| Enums.ParseOrderStatus | src/apps/orders/dto/orders.dto.ts:14 | a status text is accepted exactly when it spells a member of the order-status enumeration, and yields that member |
| Enums.ParsePaymentStatus | src/apps/payment/dto/payment.dto.ts:15-17 | the same for the payment-status enumeration |
| Enums.ParseMovementType | src/apps/inventory/dto/inventory.dto.ts:6-8 | a movement type is exactly "IN" or "OUT" |
| OrdersDto.ValidateCreateOrder | src/apps/orders/dto/orders.dto.ts:12-19 | a create-order body is accepted iff it has at least one line, every line has positive quantity and price, the status is a member of the enumeration and the total matches the decimal pattern; the accepted fields are passed on unchanged |
| OrdersDto.ValidateUpdateOrderStatus | src/apps/orders/dto/orders.dto.ts:21-23 | any member of the order-status enumeration is accepted, and nothing else |
| OrdersDto.CreateAcceptsEveryStatus | src/apps/orders/dto/orders.dto.ts:14 | an order may be created in any status, not only PENDING |
| OrdersDto.EmptyOrderRefused | src/apps/orders/dto/orders.dto.ts:15 | an order without lines is refused |
| OrdersDto.NonPositiveItemRefused | src/apps/orders/dto/orders.dto.ts:8-9 | a line with zero or negative quantity or price makes the order refused |
| PaymentDto.ValidateProcessPayment | src/apps/payment/dto/payment.dto.ts:4-9 | a payment request is accepted exactly when its amount matches the decimal pattern, and is passed on unchanged |
| PaymentDto.ValidateUpdatePaymentStatus | src/apps/payment/dto/payment.dto.ts:15-17 | any member of the payment-status enumeration is accepted, and nothing else |
| InventoryDto.ValidateMovement | src/apps/inventory/dto/inventory.dto.ts:3-9 | a movement is accepted iff its quantity is positive and its type is IN or OUT |
| InventoryDto.ValidateReserve | src/apps/inventory/dto/inventory.dto.ts:15-20 | a reservation request is accepted iff its quantity is positive and its lifetime, when given, is positive; an absent lifetime becomes 30 minutes |
| Inventory.InventoryRepository.FindProductById | src/apps/inventory/repository/inventory.repository.ts:14-31 | returns the stored product; an unknown id, like a store failure, ends in InternalServerError and never in NotFoundError |
| Inventory.InventoryRepository.CreateInventoryMovement | src/apps/inventory/repository/inventory.repository.ts:33-52 | appends exactly one movement with the given product, quantity and type; fails and changes nothing when the product is unknown, the quantity does not fit the 32-bit `integer` column, or the store is down |
| Inventory.InventoryRepository.GetInventoryByProductId | src/apps/inventory/repository/inventory.repository.ts:54-96 | returns only movements of this product, and none while the product is inactive or unknown |
| Inventory.InventoryRepository.GetReservedQuantity | src/apps/inventory/repository/inventory.repository.ts:98-119 | the sum of quantities of the product's PENDING reservations that expire after `now` |
| Inventory.InventoryRepository.CreateReservation | src/apps/inventory/repository/inventory.repository.ts:121-143 | inserts one PENDING row with the given fields and returns its fresh id, exactly when the store answers, the product and the order exist and the quantity fits the 32-bit `integer` column; otherwise nothing changes and the error is InternalServerError |
| Inventory.InventoryRepository.GetReservationById | src/apps/inventory/repository/inventory.repository.ts:145-170 | returns the row with that id; an absent id raises NotFoundError unchanged, a store failure InternalServerError |
| Inventory.InventoryRepository.GetReservationsByOrderId | src/apps/inventory/repository/inventory.repository.ts:172-194 | returns exactly the order's rows, each once; the model lists them in id order, since the query has no ORDER BY |
| Inventory.InventoryRepository.UpdateReservationStatus | src/apps/inventory/repository/inventory.repository.ts:196-213 | overwrites the status of exactly the row with that id, whatever its current status |
| Inventory.InventoryRepository.UpdateReservationsStatusByOrderId | src/apps/inventory/repository/inventory.repository.ts:215-237 | changes only rows of the order that are PENDING; all other rows stay as they are |
| Inventory.InventoryService.CreateInventoryMovement | src/apps/inventory/service/inventory.service.ts:13-22 | after the product lookup succeeds, appends exactly one movement with the given product, quantity and type; a quantity outside the 32-bit `integer` column fails and appends nothing |
| Inventory.InventoryService.GetAvailableQuantity | src/apps/inventory/service/inventory.service.ts:24-40 | ΣIN − ΣOUT over the product's visible movements minus the reserved quantity |
| Inventory.InventoryService.GetProductDisponibility | src/apps/inventory/service/inventory.service.ts:42-52 | the product with its available quantity, labelled IN |
| Inventory.InventoryService.ReserveProduct | src/apps/inventory/service/inventory.service.ts:54-75 | succeeds iff the product exists, the store answers, availability covers the request, the quantity fits the 32-bit `integer` column and the order exists. On success it inserts exactly one PENDING reservation with the given product, order and quantity, expiring `(expiresInMinutes or 30)` minutes after `now`, and returns its id. Insufficient stock gives BadRequestError and no reservation |
| Inventory.InventoryService.ConfirmReservationsByOrderId | src/apps/inventory/service/inventory.service.ts:77-97 | every PENDING reservation of the order becomes CONFIRMED and exactly one OUT movement with its product and quantity is appended per reservation; other rows are untouched. The movements follow id order, which is the model's choice |
| Inventory.InventoryService.ConfirmReservation | src/apps/inventory/service/inventory.service.ts:85-96 | one iteration: the row becomes CONFIRMED, then one OUT movement of its quantity is appended |
| Inventory.InventoryService.ReleaseReservationsByOrderId | src/apps/inventory/service/inventory.service.ts:99-104 | exactly the order's PENDING reservations become CANCELLED |
| Inventory.DeadReservationReservesNothing | src/apps/inventory/repository/inventory.repository.ts:105-113 | an expired or non-PENDING reservation adds nothing to the reserved sum, wherever it stands |
| Inventory.AvailableAfterMovement | src/apps/inventory/service/inventory.service.ts:24-40 | an appended IN movement raises availability of its active product by its quantity, an OUT lowers it; other products are unaffected |
| Inventory.AvailableAfterReservation | src/apps/inventory/service/inventory.service.ts:57-74 | a new live reservation lowers its product's availability by exactly its quantity, so availability stays ≥ 0 when it covered the request |
| Inventory.InactiveProductAvailability | src/apps/inventory/repository/inventory.repository.ts:71-75 | for an inactive or unknown product no movement counts, so availability is minus the reserved quantity |
| Inventory.SetPendingStatusSettlesOrder | src/apps/inventory/repository/inventory.repository.ts:215-231 | after a by-order update no PENDING row of the order is left, other rows are unchanged, and a second update changes nothing |
| Inventory.NothingPendingAfterSettle | src/apps/inventory/service/inventory.service.ts:77-97 | once the order's reservations are settled, a further confirm finds nothing to confirm and appends no movement |
| Inventory.PendingRowsComplete | src/apps/inventory/service/inventory.service.ts:78-83 | every PENDING reservation of the order is among those confirm visits |
| Inventory.PendingIdsIncrease | src/apps/inventory/service/inventory.service.ts:85-96 | confirm visits the order's reservations in increasing id order, so none twice |
| Inventory.ConfirmedAll | src/apps/inventory/service/inventory.service.ts:85-96 | confirming the visited rows one id at a time confirms exactly the order's PENDING rows |
| Inventory.OutMovementsTotals | src/apps/inventory/service/inventory.service.ts:85-96 | the OUT movements confirm appends carry, per product, exactly the quantity of the order's PENDING reservations, and nothing IN |
| Inventory.ReservedAfterSettle | src/apps/inventory/repository/inventory.repository.ts:215-231 | settling the order lowers the reserved sum by the quantity of its still-live PENDING reservations |
| Inventory.AvailableAfterConfirm | src/apps/inventory/service/inventory.service.ts:77-97 | confirming leaves availability of an active product unchanged except that each expired PENDING reservation is charged to the ledger and lowers it by its quantity |
| Inventory.AvailableUnchangedByLiveConfirm | src/apps/inventory/service/inventory.service.ts:85-96 | with no expired PENDING reservation in the order, confirming leaves every active product's availability as it was |
| Messaging.ProcessedKey | src/infra/messaging/idempotency/idempotency.ts:13-22 | every store key is `processed:` followed by the message id |
| Messaging.ProcessedKeyInjective | src/infra/messaging/idempotency/idempotency.ts:13-22 | distinct message ids never share a key |
| Messaging.Idempotency.IsProcessed | src/infra/messaging/idempotency/idempotency.ts:20-35 | true iff the key exists and has not expired; false on a store error |
| Messaging.Idempotency.MarkAsProcessed | src/infra/messaging/idempotency/idempotency.ts:37-54 | stores the key unconditionally with TTL defaulting to 2,592,000 s; errors are swallowed and change nothing |
| Messaging.Idempotency.CheckAndMark | src/infra/messaging/idempotency/idempotency.ts:56-75 | returns true and stores the key exactly when the key was absent; fails open, answering true, on a store error |
| Messaging.Idempotency.Remove | src/infra/messaging/idempotency/idempotency.ts:77-90 | deletes the key; errors are swallowed |
| Messaging.ClaimTwice | src/infra/messaging/idempotency/idempotency.ts:56-75 | a second claim of the same id, at any later instant before the first claim's TTL runs out, returns false and changes nothing |
| Messaging.RemoveThenClaim | src/infra/messaging/idempotency/idempotency.ts:77-90 | after `remove`, the id reads as unprocessed and the next claim returns true |
| Messaging.Resolve | src/infra/messaging/rabbitmq/consumer.ts:32-41 | `noAck` defaults to false and `prefetch` to 1; the queue is bound only for a non-empty exchange, with the routing key or "" |
| Messaging.SignalFor | src/infra/messaging/rabbitmq/consumer.ts:45-63 | success without `noAck` gives exactly one ack; a parse failure or handler throw gives exactly one nack without requeue; `noAck` or a null delivery gives nothing |
| Messaging.RabbitMQConsumer.Connect | src/infra/messaging/rabbitmq/consumer.ts:19-21 | opens a fresh, empty channel; the per-consumer channel stands in for the shared channel of `connectRabbitMQ` (src/infra/messaging/rabbitmq/connection.ts:9-12), which is left out |
| Messaging.RabbitMQConsumer.AssertExchange | src/infra/messaging/rabbitmq/consumer.ts:84-96 | declares the exchange, opening a channel first when there is none; nothing else changes |
| Messaging.RabbitMQConsumer.Consume | src/infra/messaging/rabbitmq/consumer.ts:23-69 | sets the prefetch, declares the queue, binds it when an exchange is given, and registers the consumer with the resolved `noAck` |
| Messaging.RabbitMQConsumer.Deliver | src/infra/messaging/rabbitmq/consumer.ts:43-66 | a null delivery is ignored; an unparsable body never reaches the handler; a parsed body reaches the handler once; the signals sent are those of `SignalFor` |
| Messaging.Redeliver | src/infra/messaging/rabbitmq/consumer.ts:4-9 | with no processed-message check in the consumer, the same message delivered twice reaches the handler twice |
| InventoryWorker.CancelReason | src/apps/inventory/worker/inventory.worker.ts:94-97 | the reason starts with the fixed prefix, which is followed by the labels `name (qtd: q)` of the failed products joined by ", " |
| InventoryWorker.CancelReasonSnoc | src/apps/inventory/worker/inventory.worker.ts:94-97 | one more failed product appends ", " and its label to the reason, so the reason is pinned for any number of failures |
| InventoryWorker.ReserveAllGrows | src/apps/inventory/worker/inventory.worker.ts:40-86 | successes plus failures equal the number of items; the loop only appends rows, one per success; with the store down every item fails |
| InventoryWorker.ReserveAllNewRows | src/apps/inventory/worker/inventory.worker.ts:49-56 | every appended row is a PENDING reservation of the event's order with the next id, expiring 30 minutes after `now` |
| InventoryWorker.ReserveAllNeverOversells | src/apps/inventory/worker/inventory.worker.ts:49-57 | reserving item after item never makes any product's availability negative |
| InventoryWorker.CompensationRestoresAvailability | src/apps/inventory/worker/inventory.worker.ts:93-114 | releasing after the loop gives every product back its availability from before the event and leaves no PENDING reservation of the order |
| InventoryWorker.InventoryWorker.Start | src/apps/inventory/worker/inventory.worker.ts:17-250 | declares the `orders` exchange and binds the three queues by routing key, with acknowledgement on and prefetch 1, and no idempotency check |
| InventoryWorker.InventoryWorker.HandleOrderCreated | src/apps/inventory/worker/inventory.worker.ts:25-168 | one reserve per item, in order, for 30 minutes; the counts and `failedProducts` match the failed items; with no failure neither release nor cancel is called; otherwise release, then cancel with the reason; a release failure is swallowed (the table keeps the loop's rows) and cancel is still called; the cancel outcome, success or error, is the handler's |
| InventoryWorker.InventoryWorker.ReserveItems | src/apps/inventory/worker/inventory.worker.ts:40-86 | the loop's table, counts and failure list equal those of the item-by-item reservation function; a failure does not stop later items |
| InventoryWorker.InventoryWorker.ReserveItem | src/apps/inventory/worker/inventory.worker.ts:50-85 | one reserve call; it succeeds exactly when the reservation is granted, and then appends that reservation |
| InventoryWorker.InventoryWorker.HandleOrderConfirmed | src/apps/inventory/worker/inventory.worker.ts:176-213 | calls only confirm, with the event's order id; a failure is rethrown |
| InventoryWorker.InventoryWorker.HandleOrderCancelled | src/apps/inventory/worker/inventory.worker.ts:215-250 | calls only release, with the event's order id; a failure is rethrown |
| Orders.JoinRows | src/apps/orders/repository/orders.repository.ts:16-44 | no rows for an unknown order; every row carries the order's id, customer, status and total |
| Orders.KeysInOrderSpec | src/apps/orders/repository/orders.repository.ts:52-75 | a product is a key iff some kept row names it, and no key occurs twice |
| Orders.LastItemIsLastRow | src/apps/orders/repository/orders.repository.ts:64-75 | the item stored for a product comes from the last kept row naming it, with a missing quantity read as 0; rows without product id or name contribute nothing |
| Orders.KeysOnlyGrow | src/apps/orders/repository/orders.repository.ts:64-75 | later rows only append keys, so items follow the first occurrence of each product |
| Orders.ItemsHaveDistinctProducts | src/apps/orders/repository/orders.repository.ts:52-85 | no product id appears twice among the items, and there are no more items than rows |
| Orders.ItemsOfDistinctRows | src/apps/orders/repository/orders.repository.ts:64-85 | with no repeated product, the items are exactly those of the kept rows, in row order |
| Orders.RepeatedProductKeepsLastRow | src/apps/orders/repository/orders.repository.ts:64-74 | two rows for the same product give one item, with the later row's quantity and price |
| Orders.NewOrderItems | src/apps/orders/repository/orders.repository.ts:120-127 | the item rows of a freshly inserted order are exactly its own lines |
| Orders.CreatedOrderReadsBack | src/apps/orders/repository/orders.repository.ts:95-130 | an order created with distinct, named products reads back with one item per line, in line order, with its quantity, its product name and its price rounded to hundredths by the `numeric(10,2)` column |
| Orders.OrdersRepository.FindOrderById | src/apps/orders/repository/orders.repository.ts:14-93 | succeeds iff the store answers and the order exists; an unknown id is InternalServerError; id, customer, status and total come from the first row |
| Orders.OrdersRepository.FoldItems | src/apps/orders/repository/orders.repository.ts:64-75 | the loop over the rows yields the folded items |
| Orders.OrdersRepository.CreateOrder | src/apps/orders/repository/orders.repository.ts:95-134 | succeeds iff the store answers, the customer and every product exist, there is at least one line (the ORM refuses an empty list of values), the total is accepted by `numeric(10,2)`, and every quantity fits `integer` and every price `numeric(10,2)`; then inserts one order with the given status, the total as the column prints it ("10.5" as "10.50"), and one item row per line with its price rounded to hundredths, all under the new id; otherwise nothing at all; returns the re-read order |
| Orders.OrdersRepository.UpdateOrderStatus | src/apps/orders/repository/orders.repository.ts:136-145 | overwrites the order's status whatever it was; no other row changes |
| Orders.OrdersService.CreateOrder | src/apps/orders/service/orders.service.ts:9-15 | forwards customer, status, lines and total unchanged, so the stored total is the column's rendering, the same column limits apply and an order without lines fails; the status is not forced to PENDING |
| Orders.OrdersService.UpdateOrderStatus | src/apps/orders/service/orders.service.ts:17-25 | forwards any status, with no transition rule |
| Orders.OrdersService.FindOrderById | src/apps/orders/service/orders.service.ts:27-29 | returns the repository's order for the id |
| Payment.Settled | src/apps/payment/service/payment.service.ts:23-33 | the final status is CONFIRMED iff the gateway answered CONFIRMED, otherwise CANCELLED; never PENDING |
| Payment.PaymentRepository.FindPaymentById | src/apps/payment/repository/payment.repository.ts:14-46 | returns the stored row unchanged; an absent id raises NotFoundError unchanged, a store failure InternalServerError |
| Payment.PaymentRepository.CreatePayment | src/apps/payment/repository/payment.repository.ts:48-80 | succeeds iff the store answers, the order exists and the amount is accepted by `numeric(10,2)`; inserts one PENDING row with the given order and the amount as the column prints it, under a fresh id, and returns it |
| Payment.PaymentRepository.UpdatePaymentStatus | src/apps/payment/repository/payment.repository.ts:82-91 | overwrites the status of exactly the row with that id, whatever it was |
| Payment.PaymentService.ProcessPayment | src/apps/payment/service/payment.service.ts:13-36 | creates exactly one payment with the request's order and the amount as the `numeric(10,2)` column prints it, or none when the column refuses the amount; only that row is written; the returned row is the stored one, never PENDING, and CONFIRMED iff the gateway confirmed; a gateway error is passed on and leaves the payment PENDING |
| Payment.PaymentService.FindPaymentById | src/apps/payment/service/payment.service.ts:38-40 | returns the repository's payment for the id |

## Left out

- Enumeration files: `src/apps/orders/enums/order-status.enum.ts` and `src/apps/payment/enums/payment.enum.ts` are not part of this model. Both enumerations are taken to be PENDING, CONFIRMED and CANCELLED, as the schema defaults and the gateway use them.
- `OrdersService.cancelOrder` and `confirmOrder` are not defined in the repository. The worker records the call, and the cancel outcome is a parameter of the OrderCreated handler.
- The orders worker, which only dispatches to those two missing methods, is not part of this model.
- The HTTP handlers, the publisher, notifications, logging, and the connection and configuration singletons are not part of this model.
- The payment gateway is random and sleeps. Its answer, or the error it throws, is a parameter of `processPayment`.
- `JSON.parse` and the message handlers are function parameters of the delivery callback. A handler's effect on the store is not composed with the consumer.
- The consumer's queue and exchange flags (`durable`, exchange type) are not modelled.
- `Idempotency.generateMessageId` draws a random UUID and is left out.
- Identifiers: UUID generation and the `z.uuid` checks are left out. Ids are natural numbers, and a fresh id is the next row position.
- Timestamps: `createdAt` and `updatedAt` of every table are left out. The database's `NOW()` and the application clock are the same `now`.
- Prices and amounts: prices are mathematical reals, rounded to hundredths on insert as the `numeric(10,2)` column does. The binary floating-point rounding of `parseFloat` and `toString` before that is not modelled.
- Concurrency:
  - The model is sequential.
  - The read-then-insert race in `reserveProduct` is out of scope, and so are parallel queues and prefetch interleavings.
  - The store answers for a whole call or for none of it, so a failure half-way through a call is not modelled.
  - Transaction isolation is not modelled.
- Error messages: the text that a rewrapping `catch` interpolates from the original error is not modelled.
- Row order: the order-join query and the reservations-by-order query have no ORDER BY. The model takes rows in id order. So Inventory.InventoryRepository.GetReservationsByOrderId returns the order's rows in id order, and the order in which Inventory.InventoryService.ConfirmReservationsByOrderId appends its OUT movements is the model's choice; their per-product totals do not depend on it (Inventory.OutMovementsTotals).
- Inventory.InventoryService.ReserveProduct: quantities and `expiresInMinutes` are integers in the model. The schemas accept fractional numbers; a fractional quantity is refused by the `integer` column, and `setMinutes` truncates a fractional lifetime. Neither case is modelled.
- Inventory.InventoryService.CreateInventoryMovement: fractional quantities, which the `integer` column refuses, are not modelled.
- Inventory.InventoryRepository.CreateInventoryMovement: the same.
- Inventory.InventoryRepository.CreateReservation: the same; the expiry is an integer number of milliseconds.
- Orders.OrdersRepository.CreateOrder: fractional line quantities are not modelled. A total outside the decimal pattern is treated as refused by the column, though PostgreSQL reads some such strings (for example "1e2"); every caller validates the total first.
- Orders.OrdersService.CreateOrder: the same.
- Payment.PaymentRepository.CreatePayment: an amount outside the decimal pattern is treated as refused by the column, though PostgreSQL reads some such strings; every caller validates the amount first.
- Payment.PaymentService.ProcessPayment: the same.
- InventoryWorker.InventoryWorker.HandleOrderCreated: does not state the error text recorded in each failed product's `error` field. Only the product, name and quantity are specified.
- InventoryWorker.InventoryWorker.ReserveItems: does not state the `error` text of each failed product either, for the same reason.
- Orders.OrdersRepository.CreateOrder: the ORM is not part of this model. Its refusal of an insert with an empty list of values is modelled as a failure of the transaction, so an order without lines ends in InternalServerError and inserts nothing. The validator refuses such orders before they reach the repository.
- Text.IntToString: quantities are written in full decimal digits. JavaScript writes a number of magnitude 10^21 or more in exponent form ("1e+21"), and holds integers above 2^53 inexactly; neither is modelled, so a cancel reason naming such a quantity differs from the one the worker sends.
- Messaging.RabbitMQConsumer.Consume: the channel keeps one consumer per queue, so consuming the same queue twice replaces the first consumer's `noAck`; the broker keeps both. The worker consumes each queue once.
- Messaging.Idempotency.MarkAsProcessed: a non-positive TTL is treated as a store error, which the method swallows. The exact Redis reply is not modelled.
