/** What the order-creation decision guarantees, stated against the product table itself
    rather than against the intermediate lists the workflow builds. */
module OrderProperties {
  import opened OrderTypes
  import opened OrderRules

  /** Every requested id is in the product table. */
  predicate AllKnown(products: map<ProductId, Stock>, lines: seq<LineRequest>)
  {
    forall j :: 0 <= j < |lines| ==> lines[j].id in products
  }

  /** No requested id is in the product table (in particular, nothing was requested). */
  predicate NoneKnown(products: map<ProductId, Stock>, lines: seq<LineRequest>)
  {
    forall j :: 0 <= j < |lines| ==> lines[j].id !in products
  }

  /** Line `k` is the first line, in request order, whose id is not in the table. */
  predicate FirstUnknown(products: map<ProductId, Stock>, lines: seq<LineRequest>, k: int)
  {
    && 0 <= k < |lines|
    && lines[k].id !in products
    && forall j :: 0 <= j < k ==> lines[j].id in products
  }

  /** The line asks for strictly more than the table holds; asking for exactly the stock is fine. */
  predicate OverStock(products: map<ProductId, Stock>, line: LineRequest)
    requires line.id in products
  {
    products[line.id].quantity < line.quantity
  }

  predicate AllInStock(products: map<ProductId, Stock>, lines: seq<LineRequest>)
    requires AllKnown(products, lines)
  {
    forall j :: 0 <= j < |lines| ==> !OverStock(products, lines[j])
  }

  /** Line `k` is the first line, in request order, that asks for more than the table holds. */
  predicate FirstOverStock(products: map<ProductId, Stock>, lines: seq<LineRequest>, k: int)
    requires AllKnown(products, lines)
  {
    && 0 <= k < |lines|
    && OverStock(products, lines[k])
    && forall j :: 0 <= j < k ==> !OverStock(products, lines[j])
  }

  /** Every check passes: the customer exists, something was requested, every requested id is
      in the table and no single line asks for more than its product's stock. */
  predicate Acceptable(customers: set<CustomerId>, products: map<ProductId, Stock>,
                       customerId: CustomerId, lines: seq<LineRequest>)
  {
    customerId in customers && |lines| > 0 && AllKnown(products, lines) && AllInStock(products, lines)
  }

  /** Line `k` is the last line that names its product. */
  predicate LastLineFor(lines: seq<LineRequest>, k: int)
  {
    && 0 <= k < |lines|
    && forall j :: k < j < |lines| ==> lines[j].id != lines[k].id
  }

  /** The batch lookup, seen from the table: it comes back empty exactly when no requested id
      is in the table; a requested id resolves exactly when it is in the table; and the
      `filter(...)[0]` lookup of a resolved id yields that id's row. */
  lemma LookupMatchesTable(products: map<ProductId, Stock>, lines: seq<LineRequest>)
    ensures var list := FindAllById(products, lines);
      && (|list| == 0 <==> NoneKnown(products, lines))
      && (forall j :: 0 <= j < |lines| ==> (lines[j].id in Ids(list) <==> lines[j].id in products))
      && (forall j :: 0 <= j < |lines| && lines[j].id in products ==>
            FirstWithId(list, lines[j].id) == Row(products, lines[j].id))
  {
  }

  /** Customer check (first): an unknown customer is reported before anything else. */
  lemma UnknownCustomerReported(customers: set<CustomerId>, products: map<ProductId, Stock>,
                                customerId: CustomerId, lines: seq<LineRequest>)
    requires customerId !in customers
    ensures PlaceOrder(customers, products, customerId, lines) == Failure(CustomerNotFound)
  {
  }

  /** Empty-lookup check (second): for a known customer the result is NoProductsFound exactly
      when no requested id is in the table, which includes the empty request. */
  lemma NoProductsFoundIff(customers: set<CustomerId>, products: map<ProductId, Stock>,
                           customerId: CustomerId, lines: seq<LineRequest>)
    requires customerId in customers
    ensures PlaceOrder(customers, products, customerId, lines) == Failure(NoProductsFound)
            <==> NoneKnown(products, lines)
  {
    LookupMatchesTable(products, lines);
  }

  /** Existence check (third): once some id resolved, the first unknown id in request order is
      reported, whatever the quantities asked for. */
  lemma FirstUnknownReported(customers: set<CustomerId>, products: map<ProductId, Stock>,
                             customerId: CustomerId, lines: seq<LineRequest>, k: int)
    requires customerId in customers
    requires !NoneKnown(products, lines)
    requires FirstUnknown(products, lines, k)
    ensures PlaceOrder(customers, products, customerId, lines) == Failure(ProductNotFound(lines[k].id))
  {
  }

  /** Once every id resolved, the resolved-stock check and the table agree line by line. */
  lemma ShortMatchesTable(products: map<ProductId, Stock>, lines: seq<LineRequest>)
    requires AllKnown(products, lines)
    ensures var list := FindAllById(products, lines);
      && (forall l :: l in lines ==> l.id in Ids(list))
      && Missing(lines, Ids(list)) == []
      && (forall j :: 0 <= j < |lines| ==> (IsShort(list, lines[j]) <==> OverStock(products, lines[j])))
  {
  }

  /** Stock check (fourth): once every id resolved, the first line asking for more than the
      table holds is reported with its id and its requested quantity. */
  lemma FirstOverStockReported(customers: set<CustomerId>, products: map<ProductId, Stock>,
                               customerId: CustomerId, lines: seq<LineRequest>, k: int)
    requires customerId in customers
    requires AllKnown(products, lines)
    requires FirstOverStock(products, lines, k)
    ensures PlaceOrder(customers, products, customerId, lines)
            == Failure(QuantityNotAvailable(lines[k].id, lines[k].quantity))
  {
    LookupMatchesTable(products, lines);
    ShortMatchesTable(products, lines);
    var list := FindAllById(products, lines);
    assert FirstShort(list, lines, k);
  }

  /** The workflow succeeds exactly when the customer exists, something was requested, every
      requested id is in the table and no single line asks for more than its product's stock. */
  lemma SucceedsIff(customers: set<CustomerId>, products: map<ProductId, Stock>,
                    customerId: CustomerId, lines: seq<LineRequest>)
    ensures PlaceOrder(customers, products, customerId, lines).Success?
            <==> Acceptable(customers, products, customerId, lines)
  {
  }

  /** Some requested id is not in the table, so there is a first such line. */
  lemma {:induction false} FirstUnknownExists(products: map<ProductId, Stock>, lines: seq<LineRequest>)
    requires !AllKnown(products, lines)
    ensures exists k :: FirstUnknown(products, lines, k)
  {
    if lines[0].id in products {
      FirstUnknownExists(products, lines[1..]);
      var k :| FirstUnknown(products, lines[1..], k);
      assert FirstUnknown(products, lines, k + 1);
    } else {
      assert FirstUnknown(products, lines, 0);
    }
  }

  /** Some line asks for more than its stock, so there is a first such line. */
  lemma {:induction false} FirstOverStockExists(products: map<ProductId, Stock>, lines: seq<LineRequest>)
    requires AllKnown(products, lines) && !AllInStock(products, lines)
    ensures exists k :: FirstOverStock(products, lines, k)
  {
    if !OverStock(products, lines[0]) {
      assert AllKnown(products, lines[1..]);
      FirstOverStockExists(products, lines[1..]);
      var k :| FirstOverStock(products, lines[1..], k);
      assert FirstOverStock(products, lines, k + 1);
    } else {
      assert FirstOverStock(products, lines, 0);
    }
  }

  /** The checks are ordered: customer, empty lookup, unknown id, insufficient stock. Every
      input falls in exactly one case, and the earliest failing check decides the error. */
  lemma OutcomeByFirstFailingCheck(customers: set<CustomerId>, products: map<ProductId, Stock>,
                                   customerId: CustomerId, lines: seq<LineRequest>)
    ensures var p := PlaceOrder(customers, products, customerId, lines);
      && (customerId !in customers ==> p == Failure(CustomerNotFound))
      && (customerId in customers && NoneKnown(products, lines) ==> p == Failure(NoProductsFound))
      && (customerId in customers && !NoneKnown(products, lines) && !AllKnown(products, lines) ==>
            exists k :: FirstUnknown(products, lines, k) && p == Failure(ProductNotFound(lines[k].id)))
      && (customerId in customers && |lines| > 0 && AllKnown(products, lines) && !AllInStock(products, lines) ==>
            exists k :: FirstOverStock(products, lines, k)
                        && p == Failure(QuantityNotAvailable(lines[k].id, lines[k].quantity)))
      && (Acceptable(customers, products, customerId, lines) ==> p.Success?)
  {
    if customerId in customers {
      NoProductsFoundIff(customers, products, customerId, lines);
      SucceedsIff(customers, products, customerId, lines);
      if !NoneKnown(products, lines) && !AllKnown(products, lines) {
        FirstUnknownExists(products, lines);
        var k :| FirstUnknown(products, lines, k);
        FirstUnknownReported(customers, products, customerId, lines, k);
      }
      if |lines| > 0 && AllKnown(products, lines) && !AllInStock(products, lines) {
        FirstOverStockExists(products, lines);
        var k :| FirstOverStock(products, lines, k);
        FirstOverStockReported(customers, products, customerId, lines, k);
      }
    }
  }

  /** When every check passes, the decision is the order and stock update built from the
      batch lookup, and nothing it asks for is short. */
  lemma SuccessFromLookup(customers: set<CustomerId>, products: map<ProductId, Stock>,
                          customerId: CustomerId, lines: seq<LineRequest>)
    requires Acceptable(customers, products, customerId, lines)
    ensures var list := FindAllById(products, lines);
      && (forall l :: l in lines ==> l.id in Ids(list))
      && PlaceOrder(customers, products, customerId, lines)
         == Success(Placement(Order(customerId, Serialize(lines, list)), NewQuantities(lines, list)))
      && Insufficient(lines, list) == []
  {
    SucceedsIff(customers, products, customerId, lines);
    ShortMatchesTable(products, lines);
  }

  /** When every check passes, the order belongs to the customer and has one line item per requested line,
      in request order, with id and quantity copied from the request and the table's price;
      the stock update has one entry per requested line, in request order, each the table's
      quantity minus that line's quantity, never negative. */
  lemma PlacementShape(customers: set<CustomerId>, products: map<ProductId, Stock>,
                       customerId: CustomerId, lines: seq<LineRequest>)
    requires Acceptable(customers, products, customerId, lines)
    ensures PlaceOrder(customers, products, customerId, lines).Success?
    ensures var placed := PlaceOrder(customers, products, customerId, lines).value;
      && placed.order.customer == customerId
      && |placed.order.items| == |lines|
      && |placed.updates| == |lines|
      && forall i :: 0 <= i < |lines| ==>
           && lines[i].id in products
           && placed.order.items[i] == LineItem(lines[i].id, lines[i].quantity, products[lines[i].id].price)
           && placed.updates[i] == StockUpdate(lines[i].id, products[lines[i].id].quantity - lines[i].quantity)
           && placed.updates[i].quantity >= 0
  {
    SuccessFromLookup(customers, products, customerId, lines);
    LookupMatchesTable(products, lines);
    var list := FindAllById(products, lines);
    var items := Serialize(lines, list);
    var updates := NewQuantities(lines, list);
    forall i | 0 <= i < |lines|
      ensures items[i] == LineItem(lines[i].id, lines[i].quantity, products[lines[i].id].price)
      ensures updates[i] == StockUpdate(lines[i].id, products[lines[i].id].quantity - lines[i].quantity)
    {
      assert FirstWithId(list, lines[i].id) == Row(products, lines[i].id);
    }
  }

  /** A product named by several updates ends with the quantity of the last of them. */
  lemma {:induction false} LastUpdateWins(products: map<ProductId, Stock>, updates: seq<StockUpdate>, k: int)
    requires 0 <= k < |updates| && updates[k].id in products
    requires forall j :: k < j < |updates| ==> updates[j].id != updates[k].id
    ensures ApplyUpdates(products, updates)[updates[k].id].quantity == updates[k].quantity
  {
    if k < |updates| - 1 {
      var init := updates[..|updates| - 1];
      LastUpdateWins(products, init, k);
    }
  }

  /** Applying one update per line, each the table's stock minus the line's quantity: a product
      no line names keeps its row, a named one ends at its stock minus the quantity of the last
      line naming it. */
  lemma ApplyLineUpdates(products: map<ProductId, Stock>, lines: seq<LineRequest>, updates: seq<StockUpdate>)
    requires AllKnown(products, lines)
    requires |updates| == |lines|
    requires forall i :: 0 <= i < |lines| ==>
      updates[i] == StockUpdate(lines[i].id, products[lines[i].id].quantity - lines[i].quantity)
    ensures var after := ApplyUpdates(products, updates);
      && (forall id :: id in products && (forall j :: 0 <= j < |lines| ==> lines[j].id != id) ==>
            after[id] == products[id])
      && (forall k :: LastLineFor(lines, k) ==>
            after[lines[k].id] == Stock(products[lines[k].id].price,
                                        products[lines[k].id].quantity - lines[k].quantity))
  {
    forall k | LastLineFor(lines, k)
      ensures ApplyUpdates(products, updates)[lines[k].id].quantity
              == products[lines[k].id].quantity - lines[k].quantity
    {
      LastUpdateWins(products, updates, k);
    }
  }

  /** The table after an order that passes every check: same products and prices; a product no
      line names keeps its stock; a named product ends at its original stock minus the quantity
      of the LAST line naming it, because every line subtracts from the same snapshot and the
      later write of the batch overwrites the earlier one. */
  lemma StockAfterOrder(customers: set<CustomerId>, products: map<ProductId, Stock>,
                        customerId: CustomerId, lines: seq<LineRequest>)
    requires Acceptable(customers, products, customerId, lines)
    ensures PlaceOrder(customers, products, customerId, lines).Success?
    ensures var after := ApplyUpdates(products, PlaceOrder(customers, products, customerId, lines).value.updates);
      && after.Keys == products.Keys
      && (forall id :: id in products && (forall j :: 0 <= j < |lines| ==> lines[j].id != id) ==>
            after[id] == products[id])
      && (forall k :: LastLineFor(lines, k) ==>
            && lines[k].id in products
            && after[lines[k].id] == Stock(products[lines[k].id].price,
                                          products[lines[k].id].quantity - lines[k].quantity))
  {
    PlacementShape(customers, products, customerId, lines);
    var placed := PlaceOrder(customers, products, customerId, lines).value;
    ApplyLineUpdates(products, lines, placed.updates);
  }
}
