# PulseCart flash-sale inventory, modelled in Dafny

This project models the inventory core of PulseCart, a flash-sale backend that must never oversell.

Stock lives in two places:
- a Redis counter per product (the *ledger*), which answers purchases;
- the durable `products` table, which the ledger is seeded from and synchronised to.

`InventoryService.processPurchase` reserves units in this order:
1. It checks that the product exists.
2. It seeds a missing counter from the table.
3. It refuses the request when the counter is below the quantity.
4. It decrements the counter.
5. If the result is negative, it adds the quantity back.
6. Otherwise it applies the same conditional decrement to the table.

Around that service the model has:
- the synchronous controller, which maps service results and exceptions to HTTP replies;
- the asynchronous controller, which only publishes requests to a queue;
- the queue consumer, which runs a queued request and announces the new stock;
- the start-up seeder;
- the global exception handler.

Modules follow the Java components:
- `RedisKeys` (`RedisConfig.RedisKeys`);
- `Dto` (`PurchaseRequest`, `PurchaseResponse`);
- `ProductStore` (`ProductRepository` over a `map<int, Product>`);
- `Inventory` (`InventoryService`, with the specification functions `PurchaseSpec`, `SeedSpec` and `CurrentStockSpec`);
- `InventoryProofs`;
- `SyncController`, `AsyncController`, `Messaging` and `Consumer`;
- `Seeder` (`DataSeeder`);
- `ExceptionHandling` (`GlobalExceptionHandler`).

`Decimal` renders Java's `long`-to-string conversion, with its parse-back. `Http` models status codes, replies and thrown exceptions.

The ledger is a `map<string, int>` keyed by the real Redis keys, so that two products never share a counter. This is proved from the decimal rendering.

Interleaving with other buyers is modelled as one input, `adjustment`. It is the net change other callers make to the counter between this call's read and its `DECRBY`. The rollback branch is reachable only through it: `RollbackNeedsInterference`.

Order ids, tracking ids and the publisher's result are parameters.

Where the tests disagree with the code, the model follows the code:
- `InventoryServiceTest` expects `Invalid quantity` for quantity 0. `processPurchase` has no such check, because validation happens only through bean validation at the controllers.
- The tests expect `Insufficient stock`; the code answers `Out of stock. Requested: q, Available: s`.
- The tests expect the accepted message `Purchase request accepted and queued`; the code adds ` for processing`.

Lemmas record each of these.

## Model

| member | source | states |
|---|---|---|
| RedisKeys.ProductStockKey | PulseCart-Backend_Communication_Patterns/src/main/java/com/example/flashsale/config/RedisConfig.java:89-91 | the stock key is the prefix `product:stock:` followed by the id in decimal |
| RedisKeys.ProductInfoKey | PulseCart-Backend_Communication_Patterns/src/main/java/com/example/flashsale/config/RedisConfig.java:93-95 | the description key is `product:info:` followed by the id in decimal |
| RedisKeys.OrderKey | PulseCart-Backend_Communication_Patterns/src/main/java/com/example/flashsale/config/RedisConfig.java:97-99 | the order key is `order:` followed by the order id |
| RedisKeys.ProductStockKeyInjective | PulseCart-Backend_Communication_Patterns/src/main/java/com/example/flashsale/config/RedisConfig.java:84-91 | two products with equal stock keys are the same product |
| RedisKeys.ProductStockKeysDiffer | PulseCart-Backend_Communication_Patterns/src/main/java/com/example/flashsale/config/RedisConfig.java:84-91 | distinct products have distinct stock counters |
| RedisKeys.ProductStockKeyReadBack | PulseCart-Backend_Communication_Patterns/src/main/java/com/example/flashsale/config/RedisConfig.java:89-91 | the part of a stock key after the prefix is a decimal numeral that parses back to the id |
| RedisKeys.ProductInfoKeyInjective | PulseCart-Backend_Communication_Patterns/src/main/java/com/example/flashsale/config/RedisConfig.java:93-95 | distinct products have distinct description keys |
| RedisKeys.OrderKeyInjective | PulseCart-Backend_Communication_Patterns/src/main/java/com/example/flashsale/config/RedisConfig.java:97-99 | distinct orders have distinct keys |
| RedisKeys.StockKeyIsNotInfoKey | PulseCart-Backend_Communication_Patterns/src/main/java/com/example/flashsale/config/RedisConfig.java:84-95 | no stock key equals any description key |
| Dto.Success | PulseCart-Backend_Communication_Patterns/src/main/java/com/example/flashsale/dto/PurchaseResponse.java:22-32 | success flag set, the fixed success message, the order id and remaining stock present, the request's product and quantity echoed |
| Dto.Failure | PulseCart-Backend_Communication_Patterns/src/main/java/com/example/flashsale/dto/PurchaseResponse.java:34-44 | success flag clear, the given message, no order id and no stock figure |
| Dto.OutOfStock | PulseCart-Backend_Communication_Patterns/src/main/java/com/example/flashsale/dto/PurchaseResponse.java:46-56 | success flag clear, message `Out of stock. Requested: q, Available: s`, no order id, the available stock reported |
| Dto.OnlySuccessCarriesOrderId | PulseCart-Backend_Communication_Patterns/src/main/java/com/example/flashsale/dto/PurchaseResponse.java:22-56 | among factory-made responses, an order id is present exactly when the purchase succeeded |
| Dto.OutOfStockMessageDeterminesCounts | PulseCart-Backend_Communication_Patterns/src/main/java/com/example/flashsale/dto/PurchaseResponse.java:46-56 | the out-of-stock message determines both the requested and the available quantity |
| Dto.OutOfStockIsNotInsufficientStock | PulseCart-Backend_Communication_Patterns/src/test/java/com/example/flashsale/service/InventoryServiceTest.java:73-89 | the out-of-stock message is never `Insufficient stock`, the text that test expects |
| ProductStore.Decrement | PulseCart-Backend_Communication_Patterns/src/main/java/com/example/flashsale/repository/ProductRepository.java:39-42 | the conditional UPDATE reports one row exactly when the product exists with enough stock; then only that row's stock drops by the quantity, otherwise nothing changes |
| ProductStore.DecrementKeepsStocksNonNegative | PulseCart-Backend_Communication_Patterns/src/main/java/com/example/flashsale/repository/ProductRepository.java:39-42 | the guard keeps every stock at zero or above |
| ProductStore.ProductRepository.constructor | PulseCart-Backend_Communication_Patterns/src/main/java/com/example/flashsale/repository/ProductRepository.java:15 | an empty table whose first generated id is 1 |
| ProductStore.ProductRepository.ExistsById | PulseCart-Backend_Communication_Patterns/src/main/java/com/example/flashsale/service/InventoryService.java:61 | an id exists exactly when a lookup by id, or a stock query, finds its row |
| ProductStore.ProductRepository.FindById | PulseCart-Backend_Communication_Patterns/src/main/java/com/example/flashsale/repository/ProductRepository.java:20-22 | a row is found exactly when the id is present, and it is the stored row |
| ProductStore.ProductRepository.Count | PulseCart-Backend_Communication_Patterns/src/main/java/com/example/flashsale/config/DataSeeder.java:28 | the count is zero exactly when the table is empty |
| ProductStore.ProductRepository.FindByName | PulseCart-Backend_Communication_Patterns/src/main/java/com/example/flashsale/repository/ProductRepository.java:27 | no match exactly when no row has the name; a single match is the only row with that name; several matches are an error |
| ProductStore.ProductRepository.HasStockAvailable | PulseCart-Backend_Communication_Patterns/src/main/java/com/example/flashsale/repository/ProductRepository.java:32-34 | true exactly when the row exists and holds at least the quantity; no answer for a missing row |
| ProductStore.ProductRepository.GetStockQuantity | PulseCart-Backend_Communication_Patterns/src/main/java/com/example/flashsale/repository/ProductRepository.java:47-48 | the stored stock exactly when the row exists |
| ProductStore.ProductRepository.Save | PulseCart-Backend_Communication_Patterns/src/main/java/com/example/flashsale/config/DataSeeder.java:53 | a new row under the next generated id, which was unused; the id counter advances |
| ProductStore.ProductRepository.DecrementStock | PulseCart-Backend_Communication_Patterns/src/main/java/com/example/flashsale/repository/ProductRepository.java:39-42 | the table and update count after the in-place update are those of `Decrement` |
| Inventory.InventoryService.InitializeStock | PulseCart-Backend_Communication_Patterns/src/main/java/com/example/flashsale/service/InventoryService.java:38-46 | the counter is overwritten with the durable stock; a missing product throws `Product not found: id` and changes nothing |
| Inventory.InventoryService.ProcessPurchase | PulseCart-Backend_Communication_Patterns/src/main/java/com/example/flashsale/service/InventoryService.java:53-122 | the response, ledger and table are those of `PurchaseSpec`: existence check, lazy seeding, pre-check, decrement, rollback, durable sync |
| Inventory.InventoryService.SyncStockToDatabase | PulseCart-Backend_Communication_Patterns/src/main/java/com/example/flashsale/service/InventoryService.java:129-141 | the table is the conditional decrement of the old table; a refused update changes nothing |
| Inventory.InventoryService.GetCurrentStock | PulseCart-Backend_Communication_Patterns/src/main/java/com/example/flashsale/service/InventoryService.java:146-161 | the counter if present, else the durable stock (seeding the counter), else nothing |
| Inventory.InventoryService.ResetStock | PulseCart-Backend_Communication_Patterns/src/main/java/com/example/flashsale/service/InventoryService.java:166-170 | the product's counter is overwritten with the given value and no other key changes |
| InventoryProofs.ReserveAccounting | PulseCart-Backend_Communication_Patterns/src/main/java/com/example/flashsale/service/InventoryService.java:80-101 | once the pre-check passes the counter moves by the others' adjustment, and by minus the quantity exactly when the units are sold |
| InventoryProofs.RollbackNeedsInterference | PulseCart-Backend_Communication_Patterns/src/main/java/com/example/flashsale/service/InventoryService.java:80-101 | without concurrent decrements the rollback branch cannot be reached |
| InventoryProofs.ReserveNeverNegative | PulseCart-Backend_Communication_Patterns/src/main/java/com/example/flashsale/service/InventoryService.java:88-101 | a sale never reports a negative remainder, and a counter that stays non-negative under interference ends non-negative |
| InventoryProofs.PurchaseUnknownProduct | PulseCart-Backend_Communication_Patterns/src/main/java/com/example/flashsale/service/InventoryService.java:61-64 | an unknown product is refused with `Product not found` and nothing changes |
| InventoryProofs.PurchaseSeedsFromDurableStock | PulseCart-Backend_Communication_Patterns/src/main/java/com/example/flashsale/service/InventoryService.java:69-74 | a purchase on an unseeded product behaves like the same purchase after seeding |
| InventoryProofs.PurchaseOutOfStock | PulseCart-Backend_Communication_Patterns/src/main/java/com/example/flashsale/service/InventoryService.java:80-84 | too few units: out-of-stock reporting the counter; the counter keeps its value; the table is untouched |
| InventoryProofs.PurchaseSucceeds | PulseCart-Backend_Communication_Patterns/src/main/java/com/example/flashsale/service/InventoryService.java:53-122 | success exactly when the product exists, the counter covers the quantity and the decrement stays non-negative; then the counter and the row both drop by the quantity |
| InventoryProofs.PurchaseRollsBack | PulseCart-Backend_Communication_Patterns/src/main/java/com/example/flashsale/service/InventoryService.java:96-101 | a decrement that goes negative is undone, answered with zero available, and the table is not touched |
| InventoryProofs.RefusedSyncIsSwallowed | PulseCart-Backend_Communication_Patterns/src/main/java/com/example/flashsale/service/InventoryService.java:108-141 | a granted purchase whose durable update is refused still succeeds and leaves the table as it was |
| InventoryProofs.PurchaseIsolatesProducts | PulseCart-Backend_Communication_Patterns/src/main/java/com/example/flashsale/service/InventoryService.java:53-122 | a purchase leaves every other product's counter and row unchanged |
| InventoryProofs.PurchaseKeepsStockNonNegative | PulseCart-Backend_Communication_Patterns/src/main/java/com/example/flashsale/service/InventoryService.java:80-108 | non-negative counters and stocks stay non-negative |
| InventoryProofs.PurchaseHasNoQuantityCheck | PulseCart-Backend_Communication_Patterns/src/test/java/com/example/flashsale/service/InventoryServiceTest.java:105-129 | every answer echoes the request and none is `Invalid quantity`, the text that test expects |
| InventoryProofs.SeedIdempotent | PulseCart-Backend_Communication_Patterns/src/main/java/com/example/flashsale/service/InventoryService.java:38-46 | seeding twice is seeding once; it throws exactly for a missing product; afterwards the counter equals the durable stock |
| InventoryProofs.CurrentStockIsTransparent | PulseCart-Backend_Communication_Patterns/src/main/java/com/example/flashsale/service/InventoryService.java:146-161 | the stock read is the counter a purchase would consult, and its seeding does not change any later purchase |
| InventoryProofs.NoOversell | PulseCart-Backend_Communication_Patterns/src/main/java/com/example/flashsale/service/InventoryService.java:53-122 | over any run of sequential purchases the units sold never exceed the starting counter, which ends at that value minus the units sold |
| InventoryProofs.SingleUnitPurchases | PulseCart-Backend_Communication_Patterns/src/test/java/com/example/flashsale/load/LoadTest.java:91-93 | with stock s and n single-unit purchases exactly min(s, n) succeed and the counter ends at max(0, s - n) |
| SyncController.PurchaseReply | PulseCart-Backend_Communication_Patterns/src/main/java/com/example/flashsale/controller/PurchaseController.java:38-70 | 200 exactly for a successful response, 409 exactly for a refusal, 500 with `Internal server error: ` and the message exactly when the service throws |
| SyncController.StockReply | PulseCart-Backend_Communication_Patterns/src/main/java/com/example/flashsale/controller/PurchaseController.java:78-95 | 404 `Product not found: id` exactly when there is no stock, 200 with the stock record when there is, 500 `Error retrieving stock: ` and the message exactly when the service throws |
| SyncController.InitializeStockReply | PulseCart-Backend_Communication_Patterns/src/main/java/com/example/flashsale/controller/PurchaseController.java:103-115 | 200 on success, 404 with the message exactly for an IllegalArgumentException, otherwise 500 `Error initializing stock: ` and the message |
| SyncController.ResetStockReply | PulseCart-Backend_Communication_Patterns/src/main/java/com/example/flashsale/controller/PurchaseController.java:124-134 | 200 with `Stock reset to s for product: id` exactly on success, otherwise 500 `Error resetting stock: ` and the message |
| SyncController.SyncStatusReflectsReservation | PulseCart-Backend_Communication_Patterns/src/main/java/com/example/flashsale/controller/PurchaseController.java:51-56 | over the service, 200 exactly when the units are reserved; any other answer is 409 and leaves the table unchanged |
| SyncController.NotFoundMeansUnknownProduct | PulseCart-Backend_Communication_Patterns/src/main/java/com/example/flashsale/controller/PurchaseController.java:78-115 | a stock query answers 404 exactly for a product with neither counter nor row; initialisation answers 404 exactly for a missing row |
| SyncController.PurchaseController.Purchase | PulseCart-Backend_Communication_Patterns/src/main/java/com/example/flashsale/controller/PurchaseController.java:38-70 | the reply and new state are the service's purchase mapped by `PurchaseReply` |
| SyncController.PurchaseController.GetStock | PulseCart-Backend_Communication_Patterns/src/main/java/com/example/flashsale/controller/PurchaseController.java:78-95 | the reply is `StockReply` of the service's stock read, with its seeding |
| SyncController.PurchaseController.InitializeStock | PulseCart-Backend_Communication_Patterns/src/main/java/com/example/flashsale/controller/PurchaseController.java:103-115 | the reply is `InitializeStockReply` of the seeding outcome |
| SyncController.PurchaseController.ResetStock | PulseCart-Backend_Communication_Patterns/src/main/java/com/example/flashsale/controller/PurchaseController.java:124-134 | 200 reply and the counter overwritten |
| Messaging.MessageBroker.EnqueuePurchase | PulseCart-Backend_Communication_Patterns/src/main/java/com/example/flashsale/controller/AsyncPurchaseController.java:50 | the request is appended to the purchase queue; nothing else changes |
| Messaging.MessageBroker.PublishStockUpdate | PulseCart-Backend_Communication_Patterns/src/main/java/com/example/flashsale/messaging/PurchaseMessageConsumer.java:47-55 | the update is appended to the stock-update log; nothing else changes |
| AsyncController.AsyncReply | PulseCart-Backend_Communication_Patterns/src/main/java/com/example/flashsale/controller/AsyncPurchaseController.java:41-100 | 202 with the tracking id exactly when the publisher succeeded, 503 with `Failed to queue purchase request. Please try again.` exactly when it reported failure, 500 `Internal server error: ` and the message exactly when it threw; the request is echoed |
| AsyncController.AcceptedMessageHasSuffix | PulseCart-Backend_Communication_Patterns/src/main/java/com/example/flashsale/controller/AsyncPurchaseController.java:62 | the accepted message ends in ` for processing`, which the controller test leaves out |
| AsyncController.AsyncPurchaseController.PurchaseAsync | PulseCart-Backend_Communication_Patterns/src/main/java/com/example/flashsale/controller/AsyncPurchaseController.java:41-100 | the reply is `AsyncReply`; the request is queued exactly when the reply accepts it; the ledger is never consulted |
| Consumer.HandleResult | PulseCart-Backend_Communication_Patterns/src/main/java/com/example/flashsale/messaging/PurchaseMessageConsumer.java:35-75 | at most one stock update, published exactly for a successful purchase and carrying its remaining stock; an exception is rethrown as `Failed to process purchase: ` |
| Consumer.UpdateReportsLedger | PulseCart-Backend_Communication_Patterns/src/main/java/com/example/flashsale/messaging/PurchaseMessageConsumer.java:47-55 | over the service, a granted purchase's stock update reports the product's new counter; a refusal publishes nothing |
| Consumer.PurchaseMessageConsumer.ProcessPurchaseRequest | PulseCart-Backend_Communication_Patterns/src/main/java/com/example/flashsale/messaging/PurchaseMessageConsumer.java:35-75 | the service state is that of `PurchaseSpec`, the stock updates grow by `HandleResult`, nothing is rethrown, the purchase queue is untouched |
| Seeder.SeedProduct | PulseCart-Backend_Communication_Patterns/src/main/java/com/example/flashsale/config/DataSeeder.java:49-55 | one new row under the next id and its counter set to the given stock |
| Seeder.InitializeAll | PulseCart-Backend_Communication_Patterns/src/main/java/com/example/flashsale/config/DataSeeder.java:33-40 | every existing product's counter equals its durable stock; every other key is unchanged |
| Seeder.SeedNext | PulseCart-Backend_Communication_Patterns/src/main/java/com/example/flashsale/config/DataSeeder.java:49-55 | one catalogue block extends the seeded prefix by the next catalogue product and advances the next id by one, changing no other ledger key |
| Seeder.SeedCatalogue | PulseCart-Backend_Communication_Patterns/src/main/java/com/example/flashsale/config/DataSeeder.java:45-91 | the five products are created in order with consecutive ids, names and stocks 1000, 500, 100, 200, 2000, each with an equal counter; the next id has advanced by five; no other ledger key or counter changes |
| Seeder.InitDatabase | PulseCart-Backend_Communication_Patterns/src/main/java/com/example/flashsale/config/DataSeeder.java:23-91 | a non-empty table is left alone and its counters are seeded; an empty one receives the five-product catalogue, the next id advances by five; in both branches no ledger key outside the seeded counters changes |
| ExceptionHandling.CollectedKeys | PulseCart-Backend_Communication_Patterns/src/main/java/com/example/flashsale/exception/GlobalExceptionHandler.java:28-34 | the error map has an entry exactly for each field that has an error |
| ExceptionHandling.CollectedLastWins | PulseCart-Backend_Communication_Patterns/src/main/java/com/example/flashsale/exception/GlobalExceptionHandler.java:30-34 | a field with several errors keeps the message of its last one |
| ExceptionHandling.HandleValidationExceptions | PulseCart-Backend_Communication_Patterns/src/main/java/com/example/flashsale/exception/GlobalExceptionHandler.java:26-46 | 400 `Validation failed` with the field-to-message map built by putting the errors in order |
| ExceptionHandling.HandleTypeMismatch | PulseCart-Backend_Communication_Patterns/src/main/java/com/example/flashsale/exception/GlobalExceptionHandler.java:51-63 | 400 `Invalid parameter type` with `Parameter 'name' should be of type T` |
| ExceptionHandling.HandleIllegalArgument | PulseCart-Backend_Communication_Patterns/src/main/java/com/example/flashsale/exception/GlobalExceptionHandler.java:68-80 | 400 `Invalid argument` with the exception's message |
| ExceptionHandling.HandleGenericException | PulseCart-Backend_Communication_Patterns/src/main/java/com/example/flashsale/exception/GlobalExceptionHandler.java:85-97 | 500 `Internal server error` with the exception's message |
| ExceptionHandling.HandleException | PulseCart-Backend_Communication_Patterns/src/main/java/com/example/flashsale/exception/GlobalExceptionHandler.java:26-97 | each exception gets the whole reply of its handler: validation 400 `Validation failed` with the field map, type mismatch, 400 `Invalid argument` for an IllegalArgumentException, 500 `Internal server error` for any other; the body status equals the reply status |

## Left out

- Concurrency: threads, Redis atomicity and the transaction boundary of `processPurchase` are not modelled. Interleaving shows up only as the `adjustment` input of one purchase. Sequences of purchases are modelled without interference.
- `@Transactional`, and the pessimistic lock of `findByIdWithLock`: the lock query is modelled as `FindById`, with no lock.
- Redis stores its counters as strings. A corrupted value cannot occur in this model, because the ledger holds integers. The `NumberFormatException` branch (`System error: invalid stock data`) is therefore not modelled.
- A `null` from `DECRBY` cannot occur either, so the `System error during stock update` branch is not modelled.
- The catch-all branch of `processPurchase`, which answers `System error: ` plus the exception's message, is not modelled: no modelled collaborator throws inside it.
- The retry, back-off and dead-letter configuration of the broker (`RabbitMQConfig`) and the internals of `PurchaseMessagePublisher` are not part of this model. The publisher's outcome is a parameter, and a failed stock-update send is out of scope.
- Consumer.PurchaseMessageConsumer.HandleFailedPurchase only logs, so it has no contract.
- Logging, timestamps, UUID generation and prices are left out. Order ids and tracking ids are parameters.
- Bean validation of `PurchaseRequest`: the request class is not part of this model. A positive quantity is therefore a precondition of the controller endpoints, and the 400 the framework sends for a violation appears only through `ExceptionHandling.HandleValidationExceptions`.
- ExceptionHandling.HandleValidationExceptions: the map is kept as a map. `HashMap.toString` renders it in an unspecified order, and that rendering is not modelled.
- ExceptionHandling.HandleValidationExceptions: the cast of every binding error to `FieldError` is not modelled. A global (object) error would make the Java throw `ClassCastException`; here every error has a field.
- Integer widths: ids are `Long` and quantities are `Integer` in Java. Both are unbounded integers here, so overflow of `DECRBY` or of the table's `stockQuantity` is not modelled.
- ProductStore.ProductRepository.HasStockAvailable: Java's primitive `boolean` return makes a missing row fail inside Spring Data. The model answers `None` instead.
- ProductStore.ProductRepository.FindByName: Spring throws on several matches; the model reports `NotUnique`.
- `ProductMapper`, `DatabaseInitializer`, the health endpoints and the Redis/RabbitMQ bean wiring are not part of this model.
- Seeder.SeedCatalogue: the source writes the five catalogue blocks out one after another; the model runs the same block over the catalogue in order, with the same effect.
- `UserSessionPrefix` is declared, as in the source, but no modelled operation uses it.
