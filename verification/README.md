# Order saga, outboxes and product views: a Dafny model

This project models the e-commerce back end whose services talk over gRPC, PostgreSQL, Redis, RabbitMQ
and OpenSearch, and proves what its order saga, its transactional outboxes and its derived views
guarantee. `dafny verify dfyconfig.toml` checks everything.

The model has three layers.

* **Services.** Each transaction and each handler is a function on table values (`OrderDb`, `ProductDb`,
  `CartDb`, `CartConsumer`). Beside it stands a class with the fields, branches, loops and error exits of
  the original (`Orders`, `Stock`, `Carts`, `CartConsumer`, `Relayer`, `SearchIndex`, `ProductCache`,
  `Connection`), whose methods are proved against these functions. What such a function does is said a second
  time, on rows, lines and fields alone, by the lemmas named `...Exactly`. What can fail is a parameter: a fault
  says which statement of a transaction returns an error, an environment holds clock and configuration.
* **Machines.** `Outboxes` is an outbox table with its relayer (rest of the fetched batch, message
  published but not yet marked); `Inboxes` is a queue with any number of handlers, each between its
  delivery, its "already processed?" check, its transaction and its answer. `Saga` puts the order,
  payment, product and cart databases, both outboxes, three inboxes and all open CreateOrder calls into
  one state and interleaves every step freely. `Draining` is any consumer working off its inbox. `SagaCalls`
  proves that an undisturbed call or delivery is one particular run of that machine.
* **Theorems.** `SagaInvariants` carries one invariant through every step; `SagaTheorems`, `SagaStock`,
  `SagaDecrements`, `SagaDuplicates`, `SagaSettles`, `SagaPublication`, `SagaShortfall` and `SagaIndex` draw
  the results about reachable states and whole runs; `SagaShop` runs two of them on a small shop.
  `CacheTheorems`, `CacheRuns` and `SearchIndex` relate the product cache, the batch read and the search index
  to the products table.

Assumptions: a transaction is atomic and a failed commit writes nothing; a failed status update leaves the
row unchanged; an accepted publish reaches every bound queue; the broker may repeat and requeue but not
lose messages; one relayer per outbox; money is a whole number of cents.

## What the code does, where its description says otherwise

* The repository's README.md:24-27 speaks of a PENDING order that is published after payment. The order is
  inserted as CREATED and its outbox row commits with it, before payment is requested
  (order-service/internal/grpc/order/create.go:34-52); the model follows the code. An order is published
  before it is paid in some future exactly unless its row is cancelled, is not in the relayer's current batch
  and has never been published (`UnpaidCanBePublished`); so every order just placed can be
  (`PlacedCanBePublishedUnpaid`).
* CancelOrder looks up the status name CANCELED, the stock-failure consumer CANCELLED; the migration
  inserts only the latter. The catalogue is a parameter: `CancelOrderTakesEffect` shows that with the
  migration's catalogue CancelOrder never changes the order database, `FailedCallCompensates` when an order
  whose call failed stays CREATED and when it has been paid all the same, and `CancelledNameKept` when one
  name can overwrite the other. As seeded, no CancelOrder ever commits in any run (`AsSeeded`).
* Compensation cancels the order only. A stock transaction takes nothing exactly if none of its lines can
  be satisfied (`NothingTakenExactly`); a short one keeps what it took while its order is cancelled
  (`ShortOrderKeepsStock`, with an instance in `PartialDecrementWitness`) and nothing restores it
  (`CancellationRestoresNothing`). It also leaves the cache entries of the products it did decrement
  (`ShortUpdateLeavesCache`).
* An order can take all its stock and still be cancelled, when a redelivery that overlaps falls short.
  `StockCancelExactly` says exactly when the stock-failure consumer can no longer cancel it.
* The product service's `processed_events` is not UNIQUE, the cart service's is: overlapping redeliveries
  can decrement the same stock twice (`StockFallsTwice`, with an instance in `DoubleDecrementWitness`), and
  `DecrementsOnceExactly` says exactly when they no longer can; `AppliedOnceExactly` says when no second
  transaction of the order can commit. A cart is never cleared twice (`CartClearedAtMostOnce`).
* The relayer goes on after a failed publish or mark, so product events can be published out of the order of
  their rows, and the search index can stay behind for good although every row is PUBLISHED and every message
  worked through (`IndexCanStayBehind`). `IndexFollowsLog` says exactly when the index agrees with the table;
  without such a failure it is always a past table (`UnfailingRelayGivesPastTable`).
* The batch read treats a cache entry that does not decode neither as a hit nor as a miss, and so leaves
  out an existing product (`BatchReadRefinesTable` says exactly when). The service's own writes always
  decode, because its columns are as narrow as the converter (`OwnEntriesDecode`), and over any cache they
  bring about the batch read is complete (`OwnBatchReadIsComplete`); it takes a foreign write into Redis.
* A read that overlaps a deletion can bring the product back into the cache (`DeletedCanBeServed`).
  `DeletedStaysGone` says exactly when a deleted product can no longer be served.
* The document store answers a repeated delete with 404, which the index consumer requeues. Such a message
  settles exactly if the product has been indexed anew and the request succeeds (`RepeatedDeleteSettles`);
  without that it is requeued at every delivery.

## Model

| member | source | states |
|---|---|---|
| Outboxes.UnpublishedExact | order-service/internal/repository/outbox_event.sql.go:43-49 | the fetch query returns exactly the UNPUBLISHED rows, each once, oldest first |
| Outboxes.NextKeepsValid | shared/events/worker/outbox_event_message_relayer.go:62-83 | inserts, cancels and every relayer step, failing or not, keep the outbox invariant: fetched events are copies of distinct unmarked rows, every status is explained by the updates that ran, publishes are counted |
| Outboxes.PublishCountExact | shared/events/worker/outbox_event_message_relayer.go:62-83 | in every run, each published message equals a committed row, and a never-cancelled row is published once per failed mark, plus once if PUBLISHED, plus the publish still to be marked |
| Outboxes.NeverReentered | order-service/internal/repository/outbox_event.sql.go:79-86 | over any run a row keeps its content, never returns to UNPUBLISHED, and accepted publishes stay |
| Outboxes.StatusExactly | order-service/internal/repository/outbox_event.sql.go:14-86 | the updates have no guard: a cancel and a successful mark each set their row whatever its status was, and no other row's status ever changes |
| Outboxes.PublishedIsLogged | shared/events/worker/outbox_event_message_relayer.go:69-77 | a PUBLISHED row has really been accepted by the broker |
| Outboxes.OutOfReachForever | shared/events/worker/outbox_event_message_relayer.go:62-83 | a row that is neither unpublished, fetched nor published is never published in any run |
| Outboxes.CancelBeatsRelayer | order-service/internal/repository/outbox_event.sql.go:14-20 | a cancelled row is published in some run if and only if it is in the relayer's current batch or has been published already |
| Outboxes.StaysSmooth | shared/events/worker/outbox_event_message_relayer.go:62-83 | while no publish, mark or relayer fails, the published messages are the front of the rows, in order, each once |
| Relayer.OutboxEventMessageRelayer.ProcessEvents | shared/events/worker/outbox_event_message_relayer.go:62-83 | one pass of the loop is exactly the machine's fetch followed by publish and mark steps for each event, whatever fails; a failed fetch changes nothing |
| Relayer.OutboxEventMessageRelayer.Handle | shared/events/worker/outbox_event_message_relayer.go:68-80 | one event: nothing, published only, or published and marked |
| Relayer.OutboxEventMessageRelayer.Start | shared/events/worker/outbox_event_message_relayer.go:44-60 | the poll loop is the sequence of its passes and keeps the invariant |
| Relayer.PollGoesOn | shared/events/worker/outbox_event_message_relayer.go:44-60 | polling is its ticks one after the other; a failed fetch changes nothing and does not end it |
| Relayer.DrainPass | shared/events/worker/outbox_event_message_relayer.go:62-83 | one pass over f failing rows removes at least batchSize - f of the others, or all of them |
| Relayer.DrainBound | shared/events/worker/outbox_event_message_relayer.go:62-83 | with f < b rows that always fail and h others, any ceil(h / (b - f)) passes leave each of the h PUBLISHED and only the failing ones unpublished |
| Relayer.CleanPass | shared/events/worker/outbox_event_message_relayer.go:62-83 | a pass without failures leaves exactly the rows behind its batch |
| Relayer.CleanDrainInOrder | shared/events/worker/outbox_event_message_relayer.go:62-83 | when nothing fails, what the broker receives is the outbox in created_at order, up to the budget of the passes |
| Inboxes.OutstandingUntilHandled | shared/rabbitmq/connection.go:156-172 | a message stays queued or in flight until a check finds it done or its transaction commits |
| Inboxes.NoInvention | shared/rabbitmq/connection.go:156-172 | broker and handlers only ever hold messages that arrived |
| Draining.CanDrain | shared/rabbitmq/connection.go:156-172 | from every state of a consumer, whatever is in flight, some handler steps empty its inbox, if a transaction fails on its constraints only for events the check would find done |
| ProductDb.RowCountExact | product-service/internal/repository/postgresql_order_created_consumer_repository.go:46-73 | the affected-row count equals the number of lines if and only if the products are distinct and every line finds its product with enough stock |
| ProductDb.RowCountIsSatisfiable | product-service/internal/repository/products.sql.go:243-253 | for distinct products the affected-row count is the number of lines whose product exists with enough stock |
| ProductDb.LineOrderIrrelevant | product-service/internal/repository/products.sql.go:243-253 | for distinct products neither the new stock nor the row count depends on the order of the lines |
| ProductDb.FullUpdateAppliesEveryLine | product-service/internal/repository/products.sql.go:243-253 | when the count matches, each ordered product loses exactly its quantity and no other row changes |
| ProductDb.StockStaysNonNegative | product-service/internal/repository/products.sql.go:250-252 | the guard keeps every stock non-negative |
| ProductDb.CatalogueExactly | product-service/internal/repository/postgres/product_repository.go:26-81 | rejected exactly for a taken key, a missing row or a negative stock; otherwise only the own row is written or removed and one outbox row added; a deleted category only clears the category of its products |
| Stock.MarshalOrderItems | product-service/internal/repository/postgresql_order_created_consumer_repository.go:76-85 | the encoded lines are the event's lines, in order |
| Stock.PostgreSQLOrderCreatedConsumerRepository.UpdateStockBatch | product-service/internal/repository/postgresql_order_created_consumer_repository.go:32-74 | all of the transaction (decrements, processed record, failure row exactly when short) or an error and nothing, for every failing statement |
| Stock.OrderCreatedConsumer.HandleOrderCreatedEvent | product-service/internal/events/consumers/order_created_consumer.go:52-101 | database, answer and invalidated cache entries for every outcome of decoding, check and transaction, as `AnswerExactly`, `HandledExactly` and `InvalidatedExactly` tell them from the lines |
| Stock.AnswerExactly | product-service/internal/events/consumers/order_created_consumer.go:52-162 | a first delivery that nothing fails is acknowledged if and only if the lines name distinct products and each exists with enough stock, and dead-lettered otherwise; a processed order is acknowledged; a failing check or statement requeues |
| Stock.HandledExactly | product-service/internal/repository/postgresql_order_created_consumer_repository.go:32-74 | for distinct products: each line with enough stock is taken from its product, no other row changes, the order is processed, and the failure event with all lines is added exactly when the delivery is dead-lettered; a requeued or repeated delivery changes nothing |
| Stock.InvalidatedExactly | product-service/internal/events/consumers/order_created_consumer.go:81-92 | the cache entries deleted are exactly those of the ordered products, after a full update only |
| Stock.ShortUpdateLeavesCache | product-service/internal/events/consumers/order_created_consumer.go:81-92 | after a committed update the entry of every changed product is deleted if and only if the update was full or applied no line |
| Stock.DedupRefinesExactlyOnce | product-service/internal/events/consumers/order_created_consumer.go:52-145 | any sequence of deliveries with repeats and failures gives the database of applying only the first effective delivery of each order, once |
| Stock.DeliveredIsProcessed | product-service/internal/events/consumers/order_created_consumer.go:52-101 | an order with one delivery that does not fail ends up processed |
| Stock.StockConserved | product-service/internal/repository/products.sql.go:243-253 | over any transactions stock stays non-negative and stock plus everything taken is constant |
| CartDb.DeleteKeepsValid | cart-service/internal/repository/carts.sql.go:76-79 | deleting a user's cart keeps the table constraints and leaves the user without a cart |
| CartDb.DeleteExactly | cart-service/internal/repository/carts.sql.go:76-79 | the carts and lines left are exactly those of all other users |
| CartDb.GetOrCreateKeepsValid | cart-service/internal/grpc/grpc_server.go:65-147 | finding, creating or recreating a cart keeps one cart per user, and a created cart is empty |
| CartDb.GetOrCreateExactly | cart-service/internal/grpc/grpc_server.go:65-147 | the own cart is used until its hours have passed since its creation, or for ever with 0 hours; after that, and without one, a new cart stands in its place, all other carts and lines unchanged; with the result of every failing statement |
| CartDb.PerformKeepsValid | cart-service/internal/grpc/add_product_to_cart_grpc.go:14-94 | every cart operation, whatever fails in it, keeps one cart per user, one line per product, positive quantities and no orphans, and never ends in the recreated-cart abort |
| CartDb.AddExactly | cart-service/internal/grpc/add_product_to_cart_grpc.go:14-94 | the line of the product holds the new quantity, with its first price or, if there was none, the price just fetched; every other line and cart stays; the outcome of every failing step |
| CartDb.UpsertedIs | cart-service/internal/repository/carts.sql.go:14-21 | the same of the statement itself: a conflict sets the quantity only |
| CartDb.RemovalsExactly | cart-service/internal/repository/carts.sql.go:49-145 | RemoveProductFromCart removes exactly the line of that product in that cart, ClearCart exactly the lines of that cart, DeleteCart exactly the user's cart and lines unless just created; nothing otherwise |
| CartDb.CartLifecycle | cart-service/internal/grpc/add_product_to_cart_grpc.go:26-46 | the same over every sequential run of operations, expiries and order events; the abort is unreachable |
| Carts.ProductsById | cart-service/internal/clients/product_client.go:49-59 | the lookup holds exactly the products of the answer, each under its own id |
| Carts.ViewProductsExact | cart-service/internal/grpc/get_cart_grpc.go:62-85 | the response shows a product with a quantity, price, name and description if and only if the cart has that line with its stored price and the product service knows the product under that name and description |
| Carts.ViewProductsWellFormed | cart-service/internal/grpc/get_cart_grpc.go:62-85 | distinct lines with positive quantities give distinct products with positive quantities |
| Carts.TotalAddsUp | cart-service/internal/grpc/get_cart_grpc.go:62-85 | the total of a response is additive, and of one product its price times its quantity |
| Carts.LinesOfDistinct | cart-service/internal/db/migrations/000001_create_carts_and_carts_products_tables.up.sql:9-17 | the lines of one cart have distinct products and positive quantities |
| Carts.CartServer.GetOrCreateCartByUserID | cart-service/internal/grpc/grpc_server.go:65-111 | the tables and result `GetOrCreateExactly` describes, including the user left without a cart when the insert after an expiry fails |
| Carts.CartServer.AddProductToCart | cart-service/internal/grpc/add_product_to_cart_grpc.go:14-94 | the tables and outcome `AddExactly` describes, for each failing query, a failing product fetch and an unknown product; never the abort |
| Carts.CartServer.RemoveProductFromCart | cart-service/internal/grpc/remove_product_from_cart_grpc.go:14-49 | the tables and outcome `RemovalsExactly` describes: that line of that cart and no other |
| Carts.CartServer.ClearCart | cart-service/internal/grpc/clear_cart_grpc.go:13-38 | the tables and outcome `RemovalsExactly` describes: the lines of that cart and no others |
| Carts.CartServer.DeleteCart | cart-service/internal/grpc/delete_cart_grpc.go:13-38 | the tables and outcome `RemovalsExactly` describes: that user's cart and lines and no others |
| Carts.CartServer.GetCart | cart-service/internal/grpc/get_cart_grpc.go:14-99 | a well-formed response: distinct products, positive quantities, total equal to the sum of price times quantity; cached, or the current lines |
| CartConsumer.PostgreSQLOrderCreatedConsumerRepository.DeleteCartAndCreateProcessedEvent | cart-service/internal/repository/postgresql_order_created_consumer_repository.go:24-54 | deletion and processed record together or neither, and neither for a processed order; the deletion is that of `ClearsOnlyThisUser` |
| CartConsumer.ClearsOnlyThisUser | cart-service/internal/repository/postgresql_order_created_consumer_repository.go:24-54 | the transaction leaves exactly the carts and lines of all other users, adds the processed record, and is refused exactly for a processed order |
| CartConsumer.HandledExactly | cart-service/internal/events/order_created_consumer.go:52-104 | requeued exactly if the check fails or, for an order not yet processed, a statement; the tables change exactly if an order not yet processed is acknowledged |
| CartConsumer.OrderCreatedConsumer.HandleOrderCreatedEvent | cart-service/internal/events/order_created_consumer.go:52-104 | database, answer and cache clean-up for every outcome, as `HandledExactly` and `ClearsOnlyThisUser` describe them |
| OrderDb.ItemsOfView | order-service/internal/repository/postgsql_order_repository.go:129-136 | a well-formed cart gives a payload with distinct products and positive quantities |
| OrderDb.ItemsExactly | order-service/internal/repository/postgsql_order_repository.go:129-136 | the i-th payload line has product and quantity of the i-th cart line, and there are no more |
| OrderDb.PaymentExactly | payment-service/internal/grpc/payment/process.go:20-122 | a payment is answered if and only if the amount is positive and fits the column, the order has none and no statement fails; a failure after the insert leaves the PROCESSING row, any other leaves nothing; other payments stay |
| OrderDb.OrderReturnedExactly | order-service/internal/grpc/order/create.go:14-131 | an order is returned if and only if user, cart and e-mail are there, the cart has products and a positive total that fits the column, the status is seeded, the key is fresh, no statement fails and the payment reply arrives; unless everything before the payment goes well, nothing changes at all |
| OrderDb.OrderAndPaymentAgree | order-service/internal/grpc/order/create.go:14-88 | a returned order has a SUCCEEDED payment of the same user and cents, equal to the sum over the cart lines in its outbox payload |
| OrderDb.FailedCallCompensates | order-service/internal/grpc/order/create.go:52-76 | after a call without order the order is cancelled together with its outbox row, except exactly when CancelOrder fails or lacks its status name; it is paid exactly when the payment went through and its reply was lost |
| Orders.GenerateOrderCreatedEventPayload | order-service/internal/repository/postgsql_order_repository.go:129-151 | the payload names order, user and e-mail and lists product and quantity of each cart line, in order |
| Orders.PostgreSQLOrderRepository.CreateOrder | order-service/internal/repository/postgsql_order_repository.go:48-99 | order and outbox row together, or nothing, for every failing statement and constraint |
| Orders.PostgreSQLOrderRepository.CancelOrder | order-service/internal/repository/postgsql_order_repository.go:101-127 | status and outbox row together, or nothing; succeeds only with the looked-up name in the catalogue |
| Orders.PostgreSQLOrderRepository.UpdateOrderStatus | order-service/internal/events/consumers/stock_update_failed.go:122-128 | exactly that order's status changes |
| Orders.PaymentServer.ProcessPayment | payment-service/internal/grpc/payment/process.go:20-122 | create then settle; a failing settlement leaves the PROCESSING row |
| Orders.OrderServer.CreateOrder | order-service/internal/grpc/order/create.go:14-88 | both databases and the returned order for every combination of failures; when it returns one is `OrderReturnedExactly` |
| Orders.StockUpdateFailedConsumer.InitStatus | order-service/internal/events/consumers/stock_update_failed.go:50-61 | succeeds if and only if the status name is known already or found |
| Orders.StockUpdateFailedConsumer.HandleStockUpdateFailedEvent | order-service/internal/events/consumers/stock_update_failed.go:70-112 | database and answer for missing, cancelled and other orders and every failure |
| Orders.FailureHandledExactly | order-service/internal/events/consumers/stock_update_failed.go:70-128 | requeued if and only if a statement that runs fails; acknowledged, an existing order is CANCELLED with user and total kept; no other order and no outbox row changes |
| SagaCalls.StockHandlerIsARun | product-service/internal/events/consumers/order_created_consumer.go:52-101 | an undisturbed delivery is a run of the machine with the handler's database; the message is gone unless requeued |
| SagaCalls.CartHandlerIsARun | cart-service/internal/events/order_created_consumer.go:52-81 | the same for the cart consumer |
| SagaCalls.FailureHandlerIsARun | order-service/internal/events/consumers/stock_update_failed.go:70-112 | the same for the stock-failure consumer |
| SagaCalls.CallIsARun | order-service/internal/grpc/order/create.go:14-88 | an undisturbed CreateOrder call is a run of the machine with both of its databases, ending in an order exactly when the call returns one |
| SagaInvariants.KeepsProvenance | shared/events/worker/outbox_event_message_relayer.go:68-80 | every message in a queue or handler has been published from a committed row |
| SagaInvariants.KeepsProgress | product-service/internal/events/consumers/order_created_consumer.go:52-101 | every published order event is outstanding or processed, at both consumers |
| SagaInvariants.KeepsCommits | product-service/internal/repository/postgresql_order_created_consumer_repository.go:46-73 | processed records and committed transactions name the same orders; failure rows are exactly those of short transactions |
| SagaInvariants.KeepsCompensation | order-service/internal/events/consumers/stock_update_failed.go:70-112 | every published failure is outstanding or has cancelled its order |
| SagaInvariants.KeepsPayments | payment-service/internal/grpc/payment/process.go:79-122 | how far a payment request has come determines its payment row; payloads announce the cart the order was placed with |
| SagaInvariants.KeepsInv | order-service/internal/grpc/order/create.go:14-88 | every step of every participant keeps the whole invariant of the saga |
| SagaTheorems.ReachableInv | order-service/internal/grpc/order/create.go:14-88 | every reachable state satisfies it, whatever fails, repeats or overlaps |
| SagaTheorems.QuiescentOutcome | order-service/internal/events/consumers/stock_update_failed.go:70-112 | once nothing is unpublished, queued or in flight, each published order is processed by product and cart service, and cancelled if and only if a stock transaction of it fell short or a CancelOrder committed |
| SagaTheorems.UnsentOutcome | order-service/internal/repository/postgsql_order_repository.go:101-127 | an order that never reached the broker is processed nowhere and cancelled if and only if a CancelOrder committed |
| SagaTheorems.CompensationJustified | product-service/internal/repository/postgresql_order_created_consumer_repository.go:46-73 | behind each cancellation by the stock consumer stands a committed transaction of the order with processed record and failure row in which some line had no product or too little stock |
| SagaTheorems.FullCommitsAreNotCompensated | product-service/internal/repository/postgresql_order_created_consumer_repository.go:62-73 | an order whose transactions satisfied every line is never cancelled by the stock consumer |
| SagaTheorems.OutboxAtomicity | order-service/internal/repository/postgsql_order_repository.go:32-127 | orders and outbox rows are the same set, one row each, each payload naming its order, user and the cart's lines |
| SagaTheorems.CancelledForever | order-service/internal/events/consumers/stock_update_failed.go:122-128 | no run leaves cancellation |
| SagaTheorems.CancelledNameKept | order-service/internal/repository/postgsql_order_repository.go:108-119 | the name CANCELLED itself is kept in every run if and only if the catalogue lacks the other spelling or the order call is over |
| SagaTheorems.CancelBeatsRelayer | order-service/internal/repository/postgsql_order_repository.go:101-127 | no run sends a message of a cancelled order if and only if its row is neither in the relayer's current batch nor published already |
| SagaTheorems.CancelOrderTakesEffect | order-service/internal/repository/postgsql_order_repository.go:101-127 | CancelOrder takes effect if and only if its name is in the catalogue; with the migration's it never changes the order database |
| SagaTheorems.CancelOrderIsAtomic | order-service/internal/repository/postgsql_order_repository.go:101-127 | a committed CancelOrder cancels the order and its own outbox row together and no other row |
| SagaTheorems.CartClearedAtMostOnce | cart-service/internal/repository/postgresql_order_created_consumer_repository.go:24-54 | however deliveries repeat and overlap, one cart-deleting transaction commits per processed order and none otherwise |
| SagaDuplicates.NewCartSurvivesDuplicates | cart-service/internal/events/order_created_consumer.go:52-104 | once the order is processed, any run, with cart operations and other orders in it, leads to the same carts and the same state with and without the handlers of later deliveries, but for copies of that message |
| SagaTheorems.ReturnedOrderIsPaid | payment-service/internal/grpc/payment/process.go:79-122 | in every reachable state a returned order has its SUCCEEDED payment of the same user and cents, the sum over the lines its event announces |
| SagaStock.StockAccounted | product-service/internal/repository/products.sql.go:243-253 | in every run from every state the stock taken by committed transactions and the stock put in by the catalogue account for the whole change |
| SagaStock.CommitTook | product-service/internal/repository/products.sql.go:243-253 | a committed transaction took exactly each satisfiable line's quantity, and nothing for other lines or products |
| SagaStock.CancellationRestoresNothing | product-service/internal/repository/postgresql_order_created_consumer_repository.go:62-73 | no run gives stock back, cancellations included, and stock is never negative |
| SagaStock.AppliedOnceExactly | product-service/internal/database/migrations/000002_create_processed_events_table.up.sql:1-6 | no future commits a second stock transaction of an order if and only if one has committed and no handler of it is past its check |
| SagaDecrements.DecrementsOnceExactly | product-service/internal/database/migrations/000002_create_processed_events_table.up.sql:1-6 | no future decrements a product of an order's lines twice for it if and only if the order is processed and its decrements so far plus its handlers past their checks are at most one |
| SagaDecrements.StockFallsTwice | product-service/internal/events/consumers/order_created_consumer.go:52-101 | from every state with an unprocessed order waiting, one redelivery in time applies the order to the stock twice |
| SagaStock.NothingTakenExactly | product-service/internal/repository/postgresql_order_created_consumer_repository.go:46-73 | a committed transaction took no stock if and only if none of its lines could be satisfied |
| SagaStock.RunIsHistory | product-service/internal/repository/postgresql_order_created_consumer_repository.go:32-74 | in every run from every state the product database is that of its stock and catalogue transactions one by one |
| SagaStock.SalesAlone | product-service/internal/events/consumers/order_created_consumer.go:52-101 | a history of orders alone is the reference of the sequential consumer |
| SagaStock.NoOverlapRefinesExactlyOnce | product-service/internal/events/consumers/order_created_consumer.go:52-145 | while same-order handlers do not overlap, the product database of any run is that of a history in which each processed order occurs exactly once and no other order at all |
| SagaIndex.IndexFollowsLog | search-service/internal/events/consumers/product/consumer.go:55-123 | in every run from an empty table, after the first k published messages the index shows the table if and only if for each product the last of them shows what its newest outbox row shows |
| SagaIndex.UnfailingRelayGivesPastTable | shared/events/worker/outbox_event_message_relayer.go:62-83 | in every run without failed publish, failed mark or relayer restart the index is the table of some point of the run, and the table itself once everything is published and worked through |
| SagaIndex.IndexCanStayBehind | shared/events/worker/outbox_event_message_relayer.go:68-72 | a run in which one publish fails once, every row ends PUBLISHED and the index still shows the old name |
| SagaPublication.PaidIsSettled | payment-service/internal/grpc/payment/process.go:79-122 | an order has a SUCCEEDED payment if and only if its payment request has been worked through |
| SagaPublication.UnpaidCanBePublished | order-service/internal/grpc/order/create.go:34-52 | an unpaid order is published while unpaid in some future if and only if its row is not out of the relayer's reach: cancelled, not in the current batch, never published |
| SagaPublication.PlacedCanBePublishedUnpaid | order-service/internal/grpc/order/create.go:34-52 | every order just placed can be published before it is paid |
| SagaPublication.AsSeeded | order-service/internal/db/migrations/000001_create_order_tables.up.sql:11-15 | with the migration's statuses no run commits a CancelOrder or cancels an outbox row, every unpaid order can still be published, and at rest a published order is cancelled if and only if a stock transaction of it fell short |
| SagaShortfall.ShortOrderKeepsStock | product-service/internal/repository/postgresql_order_created_consumer_repository.go:62-73 | from every reachable state in which a short order waits, relayers and handlers can cancel it while the stock stays what its update left |
| SagaShortfall.StockCancelExactly | order-service/internal/events/consumers/stock_update_failed.go:70-112 | the stock-failure consumer cancels a published order in no future if and only if it has not yet and either lacks its status name, or the order is processed, no transaction of it fell short and no handler of it is past its check |
| SagaShop.BasketIsTheCart | cart-service/internal/grpc/get_cart_grpc.go:62-85 | the instance's order is the cart that adding its two products makes |
| SagaShop.PartialDecrementWitness | product-service/internal/repository/postgresql_order_created_consumer_repository.go:62-73 | a run from the seeded system, with a product out of stock in the cart, that ends with the order cancelled and one piece of the other product gone |
| SagaShop.DoubleDecrementWitness | product-service/internal/events/consumers/order_created_consumer.go:52-101 | a run from the seeded system in which an order of one piece each takes two of each |
| SagaSettles.CanSettle | shared/events/worker/outbox_event_message_relayer.go:44-83 | from every state relayer and handler steps alone can reach quiescence, if the stock-failure consumer has its status name |
| SagaSettles.OutcomeIsAttainable | order-service/internal/events/consumers/stock_update_failed.go:70-112 | from every reachable state each published order can be brought to its quiescent outcome |
| SearchIndex.ProductRepository.CreateProduct | product-service/internal/repository/postgres/product_repository.go:26-44 | row and event together or nothing, for every failure |
| SearchIndex.ProductRepository.UpdateProduct | product-service/internal/repository/postgres/product_repository.go:46-64 | row and event together or nothing, for every failure |
| SearchIndex.ProductRepository.DeleteProduct | product-service/internal/repository/postgres/product_repository.go:66-81 | deletion and event together or nothing; deleting a missing row still writes its event |
| SearchIndex.ProductEventsConsumer.HandleProductCreatedEvent | search-service/internal/events/consumers/product/consumer.go:55-78 | documents and answer for every routing key and outcome |
| SearchIndex.ProductEventsConsumer.IndexProduct | search-service/internal/events/consumers/product/consumer.go:80-101 | the document is replaced unless refused; acknowledged only without an error |
| SearchIndex.ProductEventsConsumer.DeleteProduct | search-service/internal/events/consumers/product/consumer.go:103-123 | acknowledged if and only if the store reports success, which needs the document to be there |
| SearchIndex.RepeatsDoNotMatter | search-service/internal/events/consumers/product/consumer.go:55-123 | any number of adjacent deliveries with at least one effect equals one application |
| SearchIndex.IndexIsTheTable | product-service/internal/repository/postgres/product_repository.go:26-81 | after any history of product, stock and category transactions, replaying the outbox rows in order with repeats and failures gives exactly the table's id, name, description and price of every product |
| SearchIndex.IndexIsAPastTable | product-service/internal/repository/postgres/product_repository.go:26-81 | the first k outbox rows, worked through in the order of the rows, give the table as it was after some earlier transaction |
| SearchIndex.DocumentIsLastWrite | product-service/internal/repository/postgres/product_repository.go:26-81 | after any history each document is, with category and stock, what the last accepted create or update of the product wrote, and there is none for a product never created or deleted since |
| SearchIndex.LastMessageShows | search-service/internal/events/consumers/product/consumer.go:55-123 | after any messages in any order the index shows of each product what the last message about it shows |
| SearchIndex.RepeatedDeleteSettles | search-service/internal/events/consumers/product/consumer.go:103-123 | a delete that took effect settles at a later delivery if and only if that request succeeds and the last effective delivery for the product in between indexed it |
| Decimals.IntRoundTrip | product-service/internal/grpc/converter.go:30-43 | reading back a written integer succeeds exactly within the width |
| Decimals.FitsExactly | product-service/internal/grpc/converter.go:30-43 | the widths are those of 32-bit and 64-bit signed integers |
| Decimals.PriceRoundTrip | product-service/internal/grpc/converter.go:25-28 | a price written in its shortest decimal form reads back as the same cents |
| Decimals.ShortestPrice | product-service/internal/grpc/converter.go:11-23 | no other text that reads as the amount is shorter than the one written |
| ProductCache.ConverterRoundTrip | product-service/internal/grpc/converter.go:11-55 | the round trip succeeds exactly for values within the column widths and is the identity up to whole seconds and an epoch for a missing update |
| ProductCache.RowShown | product-service/internal/grpc/grpc_server.go:57-83 | the message of a row is the one with its name, description, price, stock, category text and timestamps and an id text that scans back to its id; after the converter the same with whole seconds |
| ProductCache.ProbedExactly | product-service/internal/grpc/converter.go:22-55 | a missing or empty entry is a miss; an entry does not decode exactly if one of its four numbers cannot be read |
| ProductCache.GRPCServer.CacheProduct | product-service/internal/grpc/grpc_server.go:36-47 | the entry becomes exactly the product's map, whatever was there |
| ProductCache.GRPCServer.DeleteProductCache | product-service/internal/grpc/grpc_server.go:49-55 | exactly that entry goes |
| ProductCache.GRPCServer.GetProduct | product-service/internal/grpc/get_product_grpc.go:13-49 | a decodable entry, else the table's row field by field, with the error for each failing case and the cache write it starts |
| ProductCache.GRPCServer.GetProductsFromCache | product-service/internal/grpc/get_products_by_ids_grpc.go:33-60 | hits and misses in request order; all missed when the pipeline fails |
| ProductCache.MissedExactly | product-service/internal/grpc/get_products_by_ids_grpc.go:33-60 | the identifiers missed are exactly those asked for without an entry, whether they scan or not |
| ProductCache.GRPCServer.ConvertToUUIDs | product-service/internal/grpc/get_products_by_ids_grpc.go:81-91 | all identifiers, or an error if and only if one does not scan |
| ProductCache.GRPCServer.GetProductsFromDB | product-service/internal/grpc/get_products_by_ids_grpc.go:62-79 | exactly the rows asked for, field by field, or an error exactly when an identifier or the query fails |
| ProductCache.TableReadExactly | product-service/internal/grpc/get_products_by_ids_grpc.go:62-79 | a message is in the answer if and only if it shows, field by field, a row of a product asked for |
| ProductCache.GRPCServer.CacheProducts | product-service/internal/grpc/get_products_by_ids_grpc.go:93-102 | one cache write per product read, under its canonical key |
| ProductCache.GRPCServer.GetProductsByIDs | product-service/internal/grpc/get_products_by_ids_grpc.go:13-31 | cache hits followed by the table's rows for the misses, as `CacheTheorems.BatchReadExactly` tells them apart; an error exactly when something missed does not scan or the query fails |
| CacheTheorems.BatchReadExactly | product-service/internal/grpc/get_products_by_ids_grpc.go:13-91 | a message is in the answer if and only if it decodes under an identifier asked for, or shows, field by field, the row of a product asked for under an identifier without an entry; under any when the pipeline fails |
| CacheTheorems.BatchReadCount | product-service/internal/grpc/get_products_by_ids_grpc.go:13-91 | for entries that may be stale, each product appears once if asked for and served from the cache, or existing with no undecodable entry, and otherwise not at all |
| CacheTheorems.BatchReadRefinesTable | product-service/internal/grpc/get_products_by_ids_grpc.go:13-91 | with distinct identifiers and agreeing entries every answer shows a current row field by field, up to whole seconds, and each existing product asked for appears once and no other, for every hit and miss split and on pipeline failure, if and only if none of them has an undecodable entry |
| CacheRuns.NoInventedValues | product-service/internal/grpc/grpc_server.go:36-55 | with fills delayed arbitrarily, every cache answer is the normalisation of the message that shows, field by field, the row at an earlier point of the run |
| CacheRuns.CacheShowsPastRow | product-service/internal/grpc/grpc_server.go:36-83 | every cache answer shows, field by field, the product's row as it was at an earlier point of the run |
| CacheRuns.WrittenThenServed | product-service/internal/grpc/update_product_grpc.go:48-60 | a row written and cached without anything in between is served field by field |
| CacheRuns.DeletedStaysGone | product-service/internal/grpc/delete_product_grpc.go:32-39 | a deleted product is served in no future that does not write it again if and only if no entry of it decodes now and no cache write under way carries a product within the column widths |
| CacheRuns.OwnEntriesDecode | product-service/internal/grpc/grpc_server.go:36-47 | in every run of writes within the column widths every cache entry decodes and names the product of its key |
| CacheRuns.OwnBatchReadIsComplete | product-service/internal/grpc/get_products_by_ids_grpc.go:33-60 | over every such cache, stale or not, the batch read returns each existing product asked for exactly once |
| CacheRuns.DeletedCanBeServed | product-service/internal/grpc/get_product_grpc.go:18-48 | from every state, a read overlapping a deletion can leave the deleted product in the cache |
| Connection.BackoffBound | shared/rabbitmq/connection.go:56-88 | the waits before the first n dials add up to 2^n - 1, then 30 s more each; at most 181 s for ten |
| Connection.OneEnding | shared/rabbitmq/connection.go:56-88 | each pattern of attempts determines result and number of dials |
| Connection.ConnectionManager.Connect | shared/rabbitmq/connection.go:38-54 | a new connection and channel, or the old ones kept |
| Connection.ConnectionManager.Reconnect | shared/rabbitmq/connection.go:56-88 | ends after at most 10 dials and 181 s, reconnected exactly at the first successful attempt, given up exactly after 10 failures and 181 s; otherwise the old connection stays |
| Connection.ConnectionManager.RetryWithReconnect | shared/rabbitmq/connection.go:127-154 | runs the operation at most 3 times, returns nil if and only if its last run succeeded, retries only after a closed connection or one of four error texts and a successful reconnect, returns such an error only from the third run, sleeps 100 ms times the run in between, and never reaches its final error |

## Left out

- Outboxes: created_at is taken to be the commit order of the rows; equal timestamps, and rows whose transactions commit in another order than they started, are not modelled.
- Outboxes: event name and payload are one value; splitting the name into exchange and routing key is not modelled.
- ProductDb.RowCountExact: PostgreSQL may pick any joining line of a repeated product, the model picks the first; the theorem does not depend on the choice, because a repeated product already makes the count too small.
- Stock.OrderCreatedConsumer.HandleOrderCreatedEvent: an identifier that does not parse, which the original requeues for ever, does not occur; the same holds for the other consumers.
- ProductCache.GRPCServer.GetProduct: UUID texts are stood for by decimal numerals, with one canonical text and several that scan to it.
- Decimals.PriceRoundTrip: prices are cents with at most two decimals; the further forms that strconv.ParseFloat reads, and rounding of floats, are not modelled.
- ProductDb: a NULL description reads as the empty string, as it does in both the event and the gRPC message.
- CacheTheorems.BatchReadRefinesTable: the hypothesis that entries agree with the table is needed, since delayed fills can make an entry stale (`CacheRuns.DeletedCanBeServed`).
- SearchIndex.IndexIsTheTable: it works through the rows in their order; what the relayer makes of that order is `SagaIndex.IndexFollowsLog`.
- SagaIndex.IndexFollowsLog: the consumer works through the published messages one after the other; handlers that overtake each other, or a message requeued behind others, can leave an older document behind too. Stock and category in a document are those of the product's last event, because their other writers emit none.
- SagaSettles.CanSettle: it shows that settling is always possible, not that a fair schedule must reach it.
- Saga: the product cache and the search index are separate models; nothing in the saga reads them except through the cart response, for which any well-formed view is allowed, stale ones included.
- Carts: operations of one user run one after the other, inside the saga too; two overlapping operations on the same cart are not modelled, and neither are lost cache invalidations.
- The order, product and payment databases fail by statement; partial failures inside the database server are not modelled.
- The gRPC endpoint UpdateStockBatch, product listings, categories as a service, users, the gateway, notifications and e-mail, OpenSearch ranking.
- JSON and UUID encodings beyond the above, gRPC status codes, logging, handler timeouts, and wall-clock time except the cart's time to live and the backoff sums.
