# Order and stock consistency of a shop API

This project models the part of a shop back end that keeps product stock, order
headers and order lines in step. It covers seven operations:

- `createOrder`: reserve stock line by line, then save a pending order and its lines.
- `updateOrderStatus`: set any of the five statuses.
- `cancelOrder`: give the stock back and mark the order cancelled.
- `deleteOrder`: remove the order and its lines.
- `addItemToOrder`, `updateOrderItemQuantity` and `removeOrderItem`: change the lines
  of an open order, moving stock and the order total with them.

It also covers the arithmetic of the read paths: paging, the per-order line summary and
the per-product sales statistics. The three document schemas supply the validity rules:

- a product has a name of 1 to 200 characters, a price of at least 0 and stock of at
  least 0, with stock defaulting to 0;
- an order has an owner, a total of at least 0, and one of five statuses, defaulting to
  `pending`;
- a line has a quantity of at least 1 and a price of at least 0;
- at most one line exists per (order, product) pair.

The model has two layers.

- **Step functions.** Modules `Orders` and `OrderItems` define one pure function per
  operation on a `State` value. A `State` holds three maps (products, orders, lines) and
  the next identities the store hands out. Each function returns the outcome together
  with the new state. Every Mongo transaction is one all-or-nothing step: on any error
  the state is unchanged. The error kinds are `Validation`, `NotFound(entity)`,
  `Conflict(reason)` and `Internal`. Prices and totals are integer cents.
- **Store class.** Module `Database` holds the class `Store`, whose fields are those maps
  and counters. It has one method per operation, and each changes the fields in place
  the way the controller does. `createOrder` stages its writes, running its
  reservation loop over a working copy of the catalog, and commits them together.
  `cancelOrder` runs a restore loop. Each method's postcondition ties its result and
  new state to the step function of its operation.

The laws are proved about the step functions:

- `OrderLaws` covers order creation.
- `LifecycleLaws` covers cancellation, deletion and status change.
- `ItemLaws` covers the three line operations.
- `Summaries` covers the read-path summaries.
- `Pagination` covers paging.
- `Scenarios` plays a worked example through the step functions.

Two invariants are tracked.

- **Total consistency** (`StoreState.TotalsConsistent`): every order's total is the sum
  of price × quantity over its lines.
  - It is preserved by every operation.
- **Stock conservation** (`StoreState.Conserves`): for each product, stock plus the
  quantity held by lines of orders that are not cancelled stays the same.
  - It is preserved by creation, cancellation and the three line operations.
  - Deletion breaks it exactly when it removes a live order that has lines of products
    in the catalog.
  - A status change breaks it exactly when the change moves an order with lines of
    products in the catalog into or out of the cancelled state.
  - Reopening a cancelled order and cancelling it again gives its stock back twice.

## Model

| member | source | states |
|---|---|---|
| Models.ParseStatus | src/controllers/order.controller.ts:174-180 | a status name is accepted exactly when it is one of the five statuses, and the status it reads as carries that name |
| Models.ParseName | src/models/orders.ts:19-23 | every status's name is among the accepted names and reads back as that same status |
| Models.NewProduct | src/models/products.ts:17-38 | a product document is accepted exactly when its name has 1 to 200 characters, its price is at least 0 and its stock, 0 when missing, is at least 0; the accepted product is valid and keeps the given fields |
| Models.NewOrder | src/models/orders.ts:14-28 | an order document is accepted exactly when it has an owner and a total of at least 0; a missing status becomes pending |
| Models.NewItem | src/models/order_items.ts:13-32 | a line document is accepted exactly when its quantity is at least 1 and its price at least 0, and it keeps its order, product, quantity and price |
| Orders.PriceList | src/controllers/order.controller.ts:46-50 | one priced line per request, in request order, each at the price the catalog holds for its product |
| Orders.NewLines | src/controllers/order.controller.ts:64-68 | the new lines occupy exactly the next consecutive identities, line i is the i-th priced line, and every one is bound to the new order |
| Orders.CreateOrder | src/controllers/order.controller.ts:14-89 | an empty request list is a validation error; every failure leaves the database unchanged; on success the only order added is a pending order owned by the caller under the next order identity |
| Orders.UpdateOrderStatus | src/controllers/order.controller.ts:174-191 | an unknown status name is a validation error, and a missing order is not found; a known name on an existing order always succeeds, and then only that order changes, to the named status, whatever its previous status |
| Orders.Restore | src/controllers/order.controller.ts:278-285 | the catalog keeps its products, and each product's stock grows by the quantity the given lines hold of it; lines of missing products are skipped |
| Orders.CancelOrder | src/controllers/order.controller.ts:256-287 | a missing order is not found; a cancelled order is refused as already cancelled and a delivered one as already delivered; an existing order in any other status is always cancelled; every failure leaves the database unchanged; on success the order becomes cancelled with the same total, its lines stay, and products keep their prices |
| Orders.WithoutOrder | src/controllers/order.controller.ts:325 | keeps exactly the lines of other orders, unchanged |
| Orders.DeleteOrder | src/controllers/order.controller.ts:317-326 | succeeds exactly when the order exists; then the order and exactly its lines are gone (the lines kept are those of other orders), no product changes and the identity counters stay |
| Orders.Reserve | src/controllers/order.controller.ts:24-54 | the reservation loop fails only with product-not-found or insufficient stock |
| OrderLaws.ReserveCatalog | src/controllers/order.controller.ts:24-54 | a successful reservation loop found every requested product, and each product's stock fell by exactly the total quantity requested of it |
| OrderLaws.ReserveLines | src/controllers/order.controller.ts:43-50 | the loop records one priced line per request, in order, at the price read from the catalog |
| OrderLaws.ReserveTotal | src/controllers/order.controller.ts:43-44 | the running total is the cost of the recorded lines |
| OrderLaws.ReserveDemand | src/controllers/order.controller.ts:46-52 | the recorded lines ask, product by product, what the requests asked |
| OrderLaws.ReserveFitsStock | src/controllers/order.controller.ts:35-41 | when the loop succeeds, the total quantity requested of each product, over all lines naming it, is at most its stock |
| OrderLaws.ReserveWithinStock | src/controllers/order.controller.ts:24-54 | when every requested product exists, every quantity is at least 1 and each product's total demand fits its stock, the loop succeeds |
| OrderLaws.ReserveErrors | src/controllers/order.controller.ts:27-41 | the loop fails only with product-not-found or insufficient stock, and with not-found only when some request names a missing product |
| OrderLaws.RepeatedProductCheckedCumulatively | src/controllers/order.controller.ts:24-54 | two lines of 3 for a product with stock 5 are refused as insufficient stock, although each alone fits |
| OrderLaws.DemandDistinct | src/controllers/order.controller.ts:24-54 | with distinct products, a product's demand is the quantity of its single request, or 0 when no request names it |
| OrderLaws.AddOrderValid | src/controllers/order.controller.ts:56-68 | adding a pending order and its schema-valid lines, with distinct products, to a valid database gives a valid database |
| OrderLaws.AddOrderTotals | src/controllers/order.controller.ts:43-68 | adding an order whose total is the cost of its lines keeps every order total equal to the sum over its lines |
| OrderLaws.AddOrderConserves | src/controllers/order.controller.ts:52-68 | taking exactly the lines' quantities out of stock while adding them under a pending order conserves stock |
| OrderLaws.CreateOrderEffect | src/controllers/order.controller.ts:21-68 | on success each product's stock fell by the quantity requested of it; the new pending order, owned by the caller, has as total the sum of catalog price × quantity; one line per request is bound to it at the catalog price |
| OrderLaws.CreateOrderSucceedsIff | src/controllers/order.controller.ts:14-68 | on a valid database, creation succeeds exactly when the list is non-empty, the owner is given, every product exists, every quantity is between 1 and the stock, and no product is named twice |
| OrderLaws.CreateOrderMissingProduct | src/controllers/order.controller.ts:24-33 | a request naming a missing product makes creation fail, and product-not-found is reported only in that case |
| OrderLaws.CreateOrderInsufficientStock | src/controllers/order.controller.ts:24-41 | on a valid database where every requested product exists, a request list whose total demand for some product exceeds its stock is refused as insufficient stock, and nothing changes |
| OrderLaws.CreateOrderInsertFails | src/controllers/order.controller.ts:61-89 | when the reservation loop succeeds but a line has quantity below 1 or two lines name the same product, the line insert is refused, the transaction aborts with an internal error, and nothing changes |
| OrderLaws.CreateOrderRepeatedProductFails | src/models/order_items.ts:42 | on a valid database, naming an existing product twice, with positive quantities that fit its stock together, passes the stock checks but fails on the unique (order, product) index with an internal error |
| OrderLaws.CreateOrderPreservesValid | src/controllers/order.controller.ts:56-68 | creation keeps every document schema-valid and the line index unique |
| OrderLaws.CreateOrderKeepsTotals | src/controllers/order.controller.ts:43-68 | creation keeps every order total equal to the sum over its lines |
| OrderLaws.CreateOrderConserves | src/controllers/order.controller.ts:35-54 | creation conserves stock: what leaves each product's stock is what the new pending order holds |
| LifecycleLaws.CancelOrderMoves | src/controllers/order.controller.ts:278-287 | cancellation gives each existing product back exactly the quantity the order holds of it, and that quantity stops being reserved; lines and counters do not change |
| LifecycleLaws.CancelOrderConserves | src/controllers/order.controller.ts:278-287 | cancellation conserves stock |
| LifecycleLaws.CancelOrderPreservesConsistent | src/controllers/order.controller.ts:256-287 | cancellation keeps the database valid and every total consistent |
| LifecycleLaws.DeleteOrderReserved | src/controllers/order.controller.ts:325-326 | deletion lowers what is reserved of each product by what the order held, unless it was cancelled, and leaves stock where it was |
| LifecycleLaws.DeleteOrderConservesIff | src/controllers/order.controller.ts:325-326 | deletion conserves stock exactly when the order was cancelled or holds nothing of any product still in the catalog |
| LifecycleLaws.DeleteOrderPreservesConsistent | src/controllers/order.controller.ts:317-326 | deletion keeps the database valid and every remaining total consistent |
| LifecycleLaws.DeletingPendingOrderLosesStock | src/controllers/order.controller.ts:325-326 | deleting a pending order of three units loses those three units: stock plus reserved drops by 3 |
| LifecycleLaws.UpdateStatusReserved | src/controllers/order.controller.ts:181-185 | a status change leaves stock unchanged; the order's quantities enter the reserved sum when it leaves the cancelled state and leave it when it enters that state |
| LifecycleLaws.UpdateStatusConservesIff | src/controllers/order.controller.ts:174-185 | a status change conserves stock exactly when it does not move the order into or out of the cancelled state, or the order holds nothing of any product still in the catalog |
| LifecycleLaws.UpdateStatusPreservesConsistent | src/controllers/order.controller.ts:174-191 | a status change keeps the database valid and every total consistent |
| LifecycleLaws.ReopenThenCancelRestoresTwice | src/controllers/order.controller.ts:174-185 | cancel, set back to pending, cancel again: both steps succeed, and the order's quantity comes back to stock twice |
| OrderItems.AddItem | src/controllers/orderItemController.ts:136-197 | the checks run in order, and the first that fails names the refusal: a quantity below 1 is a validation error, a missing order is not found, a cancelled or delivered order is closed, a missing product is not found, stock below the quantity is insufficient stock, and an existing line for the product is a duplicate; each failure leaves the database unchanged, and adding succeeds exactly when all checks pass |
| OrderItems.UpdateItemQuantity | src/controllers/orderItemController.ts:235-290 | the checks run in order: a quantity that is not positive is a validation error, a missing line, order or product is not found, a closed order is refused, and an increase beyond the stock is insufficient stock; failures leave the database unchanged; on success only that line's quantity changes among the lines |
| OrderItems.RemoveItem | src/controllers/orderItemController.ts:324-355 | a missing line or order is not found, a closed order is refused, and failures leave the database unchanged; on success exactly that line is deleted and the catalog keeps its products |
| ItemLaws.AddItemEffect | src/controllers/orderItemController.ts:185-197 | the new line holds the quantity at the product's current price under a fresh identity; the product's stock falls by the quantity and the stored order total rises by price × quantity, still equal to the sum over its lines; no other product or order changes and none is added or removed; the line takes the next line identity |
| ItemLaws.AddItemPreservesConsistent | src/controllers/orderItemController.ts:185-197 | adding a line keeps the database valid, the line index unique and every total consistent |
| ItemLaws.AddItemConserves | src/controllers/orderItemController.ts:166-197 | adding a line conserves stock |
| ItemLaws.UpdateItemNeverInternal | src/controllers/orderItemController.ts:284-288 | on a consistent database the order save after a quantity change never fails |
| ItemLaws.UpdateItemEffect | src/controllers/orderItemController.ts:274-290 | the product's stock moves by the quantity difference; the stored order total and the sum over the order's lines both move by the line price × the difference, and the order keeps its owner and status; the line keeps its price; no other product or order changes, and the identity counters stay |
| ItemLaws.UpdateItemSucceedsIff | src/controllers/orderItemController.ts:235-290 | on a consistent database a quantity change succeeds exactly when the quantity is positive, the line, its order and its product exist, the order is open, and the change is a decrease or the stock covers the increase |
| ItemLaws.UpdateItemPreservesConsistent | src/controllers/orderItemController.ts:274-290 | a quantity change keeps the database valid and every total consistent |
| ItemLaws.UpdateItemConserves | src/controllers/orderItemController.ts:274-290 | a quantity change conserves stock, increases and decreases alike |
| ItemLaws.RemoveItemNeverInternal | src/controllers/orderItemController.ts:352-354 | on a consistent database the order save after a removal never fails |
| ItemLaws.RemoveItemSucceedsIff | src/controllers/orderItemController.ts:324-355 | on a consistent database a removal succeeds exactly when the line and its order exist and the order is open; a missing product does not stop it |
| ItemLaws.RemoveItemEffect | src/controllers/orderItemController.ts:347-355 | the line's product, if it still exists, gets the quantity back and keeps its name and price, no product is added or removed and no other product changes; the identity counters stay; the stored order total and the sum over the order's lines both fall by the line's amount, and no other order changes |
| ItemLaws.RemoveItemPreservesConsistent | src/controllers/orderItemController.ts:347-355 | a removal keeps the database valid and every total consistent |
| ItemLaws.RemoveItemConserves | src/controllers/orderItemController.ts:347-355 | a removal conserves stock |
| Summaries.SummarizeOrderLines | src/controllers/orderItemController.ts:90-106 | no lines is reported as not found, and the line count is the number of lines |
| Summaries.SummarizeSales | src/controllers/orderItemController.ts:392-410 | the order count is the number of lines, and a product without lines has sold nothing and earned nothing |
| Summaries.FoundAmount | src/controllers/orderItemController.ts:96-97 | the amount fold over an order's lines equals the sum of price × quantity over its stored lines |
| Summaries.FoundSold | src/controllers/orderItemController.ts:392-401 | the quantity fold over a product's lines equals the quantity summed over its stored lines |
| Summaries.FoundRevenue | src/controllers/orderItemController.ts:392-401 | the revenue fold over a product's lines equals price × quantity summed over its stored lines |
| Summaries.OrderSummary | src/controllers/orderItemController.ts:87-106 | the summary of an order is not found exactly when no stored line belongs to it, and otherwise its quantity is the quantity and its amount the price × quantity summed over the order's lines |
| Summaries.FoundUnits | src/controllers/orderItemController.ts:96-104 | the quantity fold over an order's lines equals the quantity summed over its stored lines |
| Summaries.ProductSales | src/controllers/orderItemController.ts:392-410 | the quantity sold and the revenue of a product are the quantity and the price × quantity summed over all its stored lines, cancelled orders included |
| Summaries.FoundNone | src/controllers/orderItemController.ts:87-95 | the find returns nothing exactly when no stored line belongs to the order |
| Summaries.QuantityAtLeastCount | src/controllers/orderItemController.ts:96-104 | over schema-valid lines the total quantity is at least the number of lines |
| Summaries.OrderSummaryAgrees | src/controllers/orderItemController.ts:87-106 | on a consistent database, an existing order's summary is not found exactly when it has no lines, its amount equals the stored order total, and its quantity is at least its line count |
| Summaries.SalesCoverReserved | src/controllers/orderItemController.ts:392-410 | quantity sold counts the lines of cancelled orders too, so it is never below what live orders hold |
| Summaries.SalesLinesDistinctOrders | src/models/order_items.ts:42 | under the unique index the lines of one product belong to pairwise distinct orders, so the count of lines is the count of orders |
| Pagination.SkipAdvances | src/controllers/order.controller.ts:105 | the first page skips nothing and each next page skips exactly limit more results |
| Pagination.TotalPages | src/controllers/order.controller.ts:114 | the page count is the ceiling of total ÷ limit: the pages hold every result and one page fewer would not |
| Pagination.Window | src/controllers/order.controller.ts:104-105 | a page holds the results that follow the (page − 1) × limit skipped ones, in order: exactly limit of them when that many remain, all the rest when fewer remain, and none past the end |
| Pagination.PagesPrefix | src/controllers/orderItemController.ts:16-17 | the first n pages are the first n × limit results |
| Pagination.PagesCoverResults | src/controllers/orderItemController.ts:16-26 | pages 1 to the page count show every result exactly once, in order, and any later page is empty |
| Database.Store.ReserveStock | src/controllers/order.controller.ts:24-54 | the loop over the requests, on a working copy of the catalog, returns exactly what the reservation function returns |
| Database.Store.NewLinesFor | src/controllers/order.controller.ts:64-68 | the insertion loop yields the stored lines plus exactly the new order's lines |
| Database.Store.StageOrder | src/controllers/order.controller.ts:14-68 | running the request checks, the reservation loop and the line building inside the transaction yields exactly the outcome and the collections of the creation step, without writing the store |
| Database.Store.CreateOrder | src/controllers/order.controller.ts:14-89 | the result and the new store are those of the creation step on the old store; staged writes are committed together, or none of them |
| Database.Store.UpdateOrderStatus | src/controllers/order.controller.ts:174-191 | the result and the new store are those of the status step on the old store |
| Database.Store.RestoreStock | src/controllers/order.controller.ts:278-285 | the restore loop leaves the catalog as the restore function computes it and touches nothing else |
| Database.Store.CancelOrder | src/controllers/order.controller.ts:256-287 | the result and the new store are those of the cancellation step on the old store |
| Database.Store.DeleteOrder | src/controllers/order.controller.ts:317-326 | the result and the new store are those of the deletion step on the old store |
| Database.Store.AddItem | src/controllers/orderItemController.ts:136-197 | the result and the new store are those of the add-line step on the old store |
| Database.Store.UpdateItemQuantity | src/controllers/orderItemController.ts:235-290 | the result and the new store are those of the quantity step on the old store |
| Database.Store.RemoveItem | src/controllers/orderItemController.ts:324-355 | the result and the new store are those of the removal step on the old store |
| Scenarios.CreateExample | src/controllers/order.controller.ts:21-68 | ordering 3 of a product with stock 10 at price 5 creates pending order 0 with total 15, one line at price 5, and leaves stock 7 |
| Scenarios.OversellExample | src/controllers/order.controller.ts:35-41 | ordering 20 against stock 10 is refused as insufficient stock, and nothing changes |
| Scenarios.ZeroQuantityExample | src/controllers/order.controller.ts:35-68 | an order line of zero units passes the stock check, but its insert fails the line schema, so creation ends in an internal error and nothing changes |
| Scenarios.DuplicateExample | src/controllers/orderItemController.ts:173-184 | adding a second line for a product already in the order is refused, and nothing changes |
| Scenarios.UpdateExample | src/controllers/orderItemController.ts:274-290 | raising the line from 3 to 5 leaves stock 5 and total 25 |
| Scenarios.RemoveExample | src/controllers/orderItemController.ts:347-355 | removing the line brings stock back to 10 and the total to 0 |
| Scenarios.CancelExample | src/controllers/order.controller.ts:278-287 | cancelling the emptied order only changes its status |

## Left out

- HTTP plumbing: request parsing, status codes, response shapes, messages and logging. Each outcome is one of the four error kinds, with the entity or refusal reason it names.
- Identifier syntax checks (`ObjectId.isValid`): identities are naturals and always well formed, so the 400 responses for malformed identities are not modelled.
- Sessions, transaction start, commit and abort, isolation and concurrent requests: each operation is one atomic step.
- Money: prices and totals are integer cents, not floating-point numbers.
- Numbers sent as strings, and non-integer quantities. In `addItemToOrder` and `updateOrderItemQuantity` a missing quantity is taken as 0, which their `!quantity` checks refuse just as they refuse 0.
- `populate`, `lean`, the listing and find queries, and the sort orders by `_id` and `created_at`. Finds return lines in identity order.
- Timestamps, product descriptions and categories, and the trimming of product names.
- The user, category and feedback schemas, the error-handling middleware and the routes.
- Orders.CreateOrder: a save validator is modelled only where a schema-valid database can make it fail: a missing owner, a negative total, a line quantity below 1, and a repeated product or an already taken (order, product) pair. The product saves inside the loop cannot fail, because the stock stays non-negative.
- OrderItems.UpdateItemQuantity: the order save is refused as an internal error when the new total would be negative. `ItemLaws.UpdateItemNeverInternal` shows this cannot happen on a consistent database.
- OrderItems.RemoveItem: the order save is refused as an internal error when the new total would be negative. `ItemLaws.RemoveItemNeverInternal` shows this cannot happen on a consistent database.
- Orders.CreateOrder: a request line without a quantity is read as 0 units. In the source the missing quantity passes the stock comparison, turns the product's stock into NaN and fails that product's save at once, so the request ends in an internal error even where the model reports a later product as missing or the stock as insufficient; the model does not reproduce this.
- Orders.DeleteOrder: returns the deleted order so that callers can state what was removed. The source answers only with a message.
- Models.NewProduct: a name's length is counted in characters (Unicode scalar values), not in the UTF-16 code units the schema's 200 limit counts, so a name of characters outside the Basic Multilingual Plane is accepted at up to 200 characters where the schema stops at 100.
- Pagination.Skip: requires page ≥ 1 and limit ≥ 1. A page of 0 or a limit of 0 makes the source's query arithmetic negative or infinite.
- Pagination.TotalPages: requires limit ≥ 1, for the same reason.
- Database.Store.CreateOrder: its postcondition ties it to `Orders.CreateOrder` and does not restate the invariants. They follow from the laws about `Orders.CreateOrder`. The other `Database.Store` methods are written the same way.
