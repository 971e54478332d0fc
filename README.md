# Order creation, modelled in Dafny

This project models the order-creation workflow of an orders API: `CreateOrderService.execute`
takes a customer id and a list of requested `(product id, quantity)` lines and, strictly in
this order,

1. looks the customer up and fails if it does not exist;
2. resolves all requested products in one batch lookup and fails if nothing resolves;
3. fails on the first requested id, in request order, that did not resolve;
4. fails on the first line, in request order, asking for more than the resolved stock;
5. builds priced line items from the resolved products;
6. creates the order;
7. computes each line's new stock as `resolved stock - requested quantity` and writes all of
   them back in one batch;

and returns the created order.

The three stores the service talks to are reduced to the state they hold: a set of customer
ids, a product table `id -> (price, quantity)` and the sequence of created orders.

Files:

- `order_types.dfy` (`OrderTypes`): requested lines, table rows, line items, stock updates,
  orders and the four errors (`CustomerNotFound`, `NoProductsFound`, `ProductNotFound(id)`,
  `QuantityNotAvailable(id, quantity)`).
- `order_rules.dfy` (`OrderRules`): one function per list computation of `execute` (the batch
  lookup, the id map, the two filters, the `filter(...)[0]` lookup, the two maps building line
  items and new quantities), the effect of the batch stock update on the table, and
  `PlaceOrder`, the whole decision as a function of the stores' state and the request.
- `order_properties.dfy` (`OrderProperties`): the decision restated against the product table
  itself: the ordered error taxonomy, when the workflow succeeds, the shape of the order and of
  the stock update, and the table after the update.
- `order_scenarios.dfy` (`OrderScenarios`): concrete runs, including two lines for one product.
- `order_service.dfy` (`OrderService`): the class `CreateOrderService` holding the three pieces
  of state, whose `Execute` method performs the steps above and mutates the order list and the
  product table only after every check has passed.

The `[0]` lookups of the stock check, the price and the new quantity
(`FirstWithId`) require that the id resolved; the verifier discharges that requirement at each
use from the existence check that precedes them.

Duplicate product ids are kept as the source has them in the check and in the computation of
the new quantities: every line is checked against, and subtracted from, the same original
snapshot (`CreateOrderService.ts` lines 58 and 82). So two lines for one product may together
ask for more than its stock and both pass, and each gets its own update entry computed from
that snapshot. What a repeated product's stored stock ends at is up to the product store, whose
code is not part of this model. The model's store applies the batch in order, so the last entry
wins, and under that assumption the product ends at its stock minus the quantity of the last
line naming it (`StockAfterOrder`, `DuplicateLinesDoNotChain`).

Two details follow the code where a reader might expect otherwise:

- the insufficient-stock error carries the line's REQUESTED quantity (the code reports
  `checkInsuficientQuantity[0].quantity`), not the available stock;
- the customer id is not checked for being non-empty; an unknown id is simply not found.

## Model

| member | source | states |
|---|---|---|
| `OrderRules.FindAllById` | src/modules/orders/services/CreateOrderService.ts:38 | every product returned is the table's row for its id and was requested; every requested id in the table is returned; no id is returned twice |
| `OrderRules.WithId` | src/modules/orders/services/CreateOrderService.ts:58 | a product is kept exactly when it is in the list and carries the id; the result is non-empty exactly when the id is among the resolved ids; its head is the first product carrying the id |
| `OrderRules.FirstWithId` | src/modules/orders/services/CreateOrderService.ts:58 | the `[0]` lookup is defined whenever the id resolved, and yields the first resolved product carrying that id |
| `OrderRules.Missing` | src/modules/orders/services/CreateOrderService.ts:44-54 | a line is kept exactly when it was requested and its id did not resolve; the result is empty exactly when every id resolved; its head is the first unresolved line in request order |
| `OrderRules.Insufficient` | src/modules/orders/services/CreateOrderService.ts:56-66 | a line is kept exactly when it was requested and asks for more than the resolved stock; empty exactly when no line does; its head is the first such line in request order |
| `OrderRules.Serialize` | src/modules/orders/services/CreateOrderService.ts:68-72 | one line item per requested line, same order; id and quantity copied from the line; price that of a resolved product with the line's id |
| `OrderRules.NewQuantities` | src/modules/orders/services/CreateOrderService.ts:79-84 | one update per requested line, same order and id; when no line is short of stock, no new quantity is negative |
| `OrderRules.ApplyUpdates` | src/modules/orders/services/CreateOrderService.ts:86 | the batch update keeps the table's products and prices, and leaves every product no update names untouched |
| `OrderProperties.LastUpdateWins` | src/modules/orders/services/CreateOrderService.ts:86 | a product named by several updates ends with the quantity of the last of them |
| `OrderProperties.LookupMatchesTable` | src/modules/orders/services/CreateOrderService.ts:38-58 | the batch lookup is empty exactly when no requested id is in the table; a requested id resolves exactly when it is in the table; the `[0]` lookup yields the table's row |
| `OrderProperties.UnknownCustomerReported` | src/modules/orders/services/CreateOrderService.ts:32-36 | an unknown customer gives `CustomerNotFound`, whatever was requested |
| `OrderProperties.NoProductsFoundIff` | src/modules/orders/services/CreateOrderService.ts:38-42 | for a known customer, `NoProductsFound` exactly when no requested id is in the table (including the empty request) |
| `OrderProperties.FirstUnknownReported` | src/modules/orders/services/CreateOrderService.ts:44-54 | once something resolved, the first requested id not in the table is reported as `ProductNotFound`, whatever the quantities |
| `OrderProperties.ShortMatchesTable` | src/modules/orders/services/CreateOrderService.ts:56-60 | once every id is in the table, the existence filter is empty and the stock check of each line agrees with the table's stock |
| `OrderProperties.FirstOverStockReported` | src/modules/orders/services/CreateOrderService.ts:56-66 | once every id resolved, the first line asking for strictly more than the table's stock is reported with its id and requested quantity |
| `OrderProperties.SucceedsIff` | src/modules/orders/services/CreateOrderService.ts:32-72 | success exactly when the customer exists, something was requested, every id is in the table and no single line exceeds its product's stock |
| `OrderProperties.FirstUnknownExists` | src/modules/orders/services/CreateOrderService.ts:50-52 | when some requested id is not in the table, a first such line exists |
| `OrderProperties.FirstOverStockExists` | src/modules/orders/services/CreateOrderService.ts:62-64 | when some line exceeds its stock, a first such line exists |
| `OrderProperties.OutcomeByFirstFailingCheck` | src/modules/orders/services/CreateOrderService.ts:32-66 | the checks run customer, empty lookup, unknown id, stock; every input falls in one case and the earliest failing check decides the error |
| `OrderProperties.SuccessFromLookup` | src/modules/orders/services/CreateOrderService.ts:68-84 | when every check passes, every id resolved, no line is short, and the result is the order and update built from the batch lookup |
| `OrderProperties.PlacementShape` | src/modules/orders/services/CreateOrderService.ts:68-84 | when every check passes, the run succeeds; the order is the customer's, its items match the request line by line with the table's price, and the update has one entry per line equal to table stock minus requested quantity, never negative |
| `OrderProperties.ApplyLineUpdates` | src/modules/orders/services/CreateOrderService.ts:79-86 | applying one update per line computed from the same snapshot leaves unnamed products alone and leaves a named one at its stock minus the quantity of the last line naming it |
| `OrderProperties.StockAfterOrder` | src/modules/orders/services/CreateOrderService.ts:79-86 | after an order that passes every check the table keeps its products and prices; an unnamed product keeps its stock; a named one ends at its stock minus the quantity of the last line naming it |
| `OrderScenarios.TwoProductOrder` | src/modules/orders/services/CreateOrderService.ts:68-86 | P1 x2 and P2 x1 give items priced 10 and 20 and the update P1 -> 3, P2 -> 1 |
| `OrderScenarios.OverStockRejected` | src/modules/orders/services/CreateOrderService.ts:56-66 | 10 of P1 (stock 5) is rejected naming P1 and 10 |
| `OrderScenarios.OnlyUnknownIdRejected` | src/modules/orders/services/CreateOrderService.ts:38-42 | a request for only an unknown id gives `NoProductsFound` |
| `OrderScenarios.FirstUnknownBeatsStock` | src/modules/orders/services/CreateOrderService.ts:44-66 | an unknown id is reported before an over-stock line, and the first unknown one is named |
| `OrderScenarios.DuplicateLinesDoNotChain` | src/modules/orders/services/CreateOrderService.ts:56-86 | two lines of 3 against stock 5 both pass, both updates are 2, and the product ends at 2 |
| `OrderService.CreateOrderService.constructor` | src/modules/orders/services/CreateOrderService.ts:22-29 | the service starts from the given customers, product table and orders |
| `OrderService.CreateOrderService.Execute` | src/modules/orders/services/CreateOrderService.ts:31-89 | returns the decision's error with nothing changed, or appends exactly the decided order, applies exactly the decided stock update and returns the order |

## Left out

- Dependency injection of the three stores: they are fields of the service class instead.
- Promises and `await`: every store call is one synchronous step.
- Store internals (the ORM entity, generated order ids and timestamps, the repository code): the
  created order is the customer id plus its line items; the batch lookup and the stock update
  are modelled by their effect on the table.
- The order of the batch lookup's result is not fixed by the store; the model returns rows in
  order of first request. Since a table row appears once, the order cannot change the outcome.
- The batch stock update is assumed to apply its entries in order, so for a repeated id the
  last entry wins; the store's code is not part of this model, and a store that kept the first
  entry would leave a different stock. The "last line" parts of `OrderProperties.LastUpdateWins`,
  `OrderProperties.ApplyLineUpdates`, `OrderProperties.StockAfterOrder` and
  `OrderScenarios.DuplicateLinesDoNotChain` rest on this assumption.
- The stock update is assumed to ignore ids not in the table; in the workflow every updated id
  is in the table, so this never matters.
- Error message text: errors are a datatype carrying the reported id (and quantity).
- Concurrency between runs (a stale stock snapshot) and the missing transaction between creating
  the order and updating the stock: a failure of the store calls themselves is not modelled.
- Numbers are unbounded integers: prices are only copied and quantities only subtracted, so
  floating-point behaviour of the source's numbers is not modelled.
- `OrderRules.Serialize`: states only that the price is that of some resolved product with the
  line's id; that it is the table's price is stated by `OrderProperties.PlacementShape`.
- `OrderRules.NewQuantities`: states the length, the ids and that no entry is negative, not each
  entry's value; that each is the table's stock minus the line's quantity is stated by
  `OrderProperties.PlacementShape`.
