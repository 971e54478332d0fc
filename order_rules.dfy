/** The list computations of the order-creation workflow, one function per step,
    and the workflow's decision as a whole (PlaceOrder). */
module OrderRules {
  import opened OrderTypes

  /** The row the product table holds for `id`. */
  function Row(products: map<ProductId, Stock>, id: ProductId): Product
    requires id in products
  {
    Product(id, products[id].price, products[id].quantity)
  }

  /** The ids of the resolved products, in list order (`listProducts.map(p => p.id)`). */
  function Ids(list: seq<Product>): seq<ProductId>
  {
    seq(|list|, i requires 0 <= i < |list| => list[i].id)
  }

  lemma IdsAppend(list: seq<Product>, p: Product)
    ensures Ids(list + [p]) == Ids(list) + [p.id]
  {
  }

  /** The batch lookup `findAllById(products)`: every catalogue row whose id some requested
      line names, each row once (the id is the table's key), in the order of first request. */
  function FindAllById(products: map<ProductId, Stock>, lines: seq<LineRequest>): (r: seq<Product>)
    ensures forall p :: p in r ==> p.id in products && p == Row(products, p.id)
    ensures forall p :: p in r ==> exists j :: 0 <= j < |lines| && lines[j].id == p.id
    ensures forall j :: 0 <= j < |lines| && lines[j].id in products ==> lines[j].id in Ids(r)
    ensures forall i, k :: 0 <= i < k < |r| ==> r[i].id != r[k].id
  {
    if lines == [] then []
    else
      var init := lines[..|lines| - 1];
      var r := FindAllById(products, init);
      var id := lines[|lines| - 1].id;
      assert forall j :: 0 <= j < |init| ==> init[j] == lines[j];
      if id in products && id !in Ids(r) then
        IdsAppend(r, Row(products, id));
        r + [Row(products, id)]
      else r
  }

  /** `0 <= k < |list|` and product `k` is the first product of the list carrying `id`. */
  predicate FirstIndexWithId(list: seq<Product>, id: ProductId, k: int)
  {
    && 0 <= k < |list|
    && list[k].id == id
    && forall j :: 0 <= j < k ==> list[j].id != id
  }

  /** `listProducts.filter(p => p.id === id)`: exactly the resolved products carrying `id`,
      the first of them at the head. */
  function WithId(list: seq<Product>, id: ProductId): (r: seq<Product>)
    ensures forall p :: p in r <==> p in list && p.id == id
    ensures |r| > 0 <==> id in Ids(list)
    ensures forall k :: FirstIndexWithId(list, id, k) ==> r != [] && r[0] == list[k]
  {
    if list == [] then []
    else
      assert Ids(list) == [list[0].id] + Ids(list[1..]);
      assert forall p :: p in list <==> p == list[0] || p in list[1..];
      assert forall k :: FirstIndexWithId(list, id, k) && k > 0 ==> FirstIndexWithId(list[1..], id, k - 1);
      if list[0].id == id then [list[0]] + WithId(list[1..], id)
      else WithId(list[1..], id)
  }

  /** `listProducts.filter(p => p.id === id)[0]`, the lookup behind the stock check, the
      line-item price and the new quantity: the first resolved product carrying `id`. It is
      defined exactly when `id` was resolved. */
  function FirstWithId(list: seq<Product>, id: ProductId): (p: Product)
    requires id in Ids(list)
    ensures p in list && p.id == id
    ensures forall k :: FirstIndexWithId(list, id, k) ==> p == list[k]
  {
    WithId(list, id)[0]
  }

  /** `0 <= k < |lines|` and line `k` is the first line whose id is not in `ids`. */
  predicate FirstNotIn(lines: seq<LineRequest>, ids: seq<ProductId>, k: int)
  {
    && 0 <= k < |lines|
    && lines[k].id !in ids
    && forall j :: 0 <= j < k ==> lines[j].id in ids
  }

  /** `products.filter(product => !existentIds.includes(product.id))`: the requested lines
      whose id did not resolve, in request order. */
  function Missing(lines: seq<LineRequest>, existentIds: seq<ProductId>): (r: seq<LineRequest>)
    ensures forall l :: l in r <==> l in lines && l.id !in existentIds
    ensures r == [] <==> forall j :: 0 <= j < |lines| ==> lines[j].id in existentIds
    ensures forall k :: FirstNotIn(lines, existentIds, k) ==> r != [] && r[0] == lines[k]
  {
    if lines == [] then []
    else
      var rest := Missing(lines[1..], existentIds);
      assert forall k :: FirstNotIn(lines, existentIds, k) && k > 0 ==> FirstNotIn(lines[1..], existentIds, k - 1);
      assert forall l :: l in lines <==> l == lines[0] || l in lines[1..];
      if lines[0].id !in existentIds then [lines[0]] + rest else rest
  }

  /** The stock check for one line: the resolved stock is strictly below the requested quantity. */
  predicate IsShort(list: seq<Product>, line: LineRequest)
    requires line.id in Ids(list)
  {
    FirstWithId(list, line.id).quantity < line.quantity
  }

  /** `0 <= k < |lines|` and line `k` is the first line that fails the stock check. */
  predicate FirstShort(list: seq<Product>, lines: seq<LineRequest>, k: int)
    requires forall l :: l in lines ==> l.id in Ids(list)
  {
    && 0 <= k < |lines|
    && IsShort(list, lines[k])
    && forall j :: 0 <= j < k ==> !IsShort(list, lines[j])
  }

  /** `products.filter(product => listProducts.filter(p => p.id === product.id)[0].quantity
      < product.quantity)`: the lines asking for more than the resolved stock, in request
      order. The `[0]` lookup is defined because every requested id resolved. */
  function Insufficient(lines: seq<LineRequest>, list: seq<Product>): (r: seq<LineRequest>)
    requires forall l :: l in lines ==> l.id in Ids(list)
    ensures forall l :: l in r <==> l in lines && IsShort(list, l)
    ensures r == [] <==> forall j :: 0 <= j < |lines| ==> !IsShort(list, lines[j])
    ensures forall k :: FirstShort(list, lines, k) ==> r != [] && r[0] == lines[k]
  {
    if lines == [] then []
    else
      var rest := Insufficient(lines[1..], list);
      assert forall k :: FirstShort(list, lines, k) && k > 0 ==> FirstShort(list, lines[1..], k - 1);
      assert forall l :: l in lines <==> l == lines[0] || l in lines[1..];
      if IsShort(list, lines[0]) then [lines[0]] + rest else rest
  }

  /** `products.map(product => ({product_id, quantity, price}))`: one priced line item per
      requested line, the price taken from the resolved product with that id. */
  function Serialize(lines: seq<LineRequest>, list: seq<Product>): (r: seq<LineItem>)
    requires forall l :: l in lines ==> l.id in Ids(list)
    ensures |r| == |lines|
    ensures forall i :: 0 <= i < |lines| ==>
      r[i].productId == lines[i].id && r[i].quantity == lines[i].quantity &&
      exists p :: p in list && p.id == lines[i].id && r[i].price == p.price
  {
    seq(|lines|, i requires 0 <= i < |lines| =>
      LineItem(lines[i].id, lines[i].quantity, FirstWithId(list, lines[i].id).price))
  }

  /** `products.map(product => ({id, quantity: resolved.quantity - product.quantity}))`: every
      line subtracts from the resolved snapshot, so repeated ids do not chain. When no line
      fails the stock check, no new quantity is negative. */
  function NewQuantities(lines: seq<LineRequest>, list: seq<Product>): (r: seq<StockUpdate>)
    requires forall l :: l in lines ==> l.id in Ids(list)
    ensures |r| == |lines|
    ensures forall i :: 0 <= i < |lines| ==> r[i].id == lines[i].id
    ensures Insufficient(lines, list) == [] ==> forall i :: 0 <= i < |r| ==> r[i].quantity >= 0
  {
    seq(|lines|, i requires 0 <= i < |lines| =>
      StockUpdate(lines[i].id, FirstWithId(list, lines[i].id).quantity - lines[i].quantity))
  }

  /** The effect of `updateQuantity(updates)` on the product table: the updates are applied in
      order, each overwriting the stored quantity of its product, so for a repeated id the last
      update wins. Prices and the set of products stay as they were. */
  function ApplyUpdates(products: map<ProductId, Stock>, updates: seq<StockUpdate>): (r: map<ProductId, Stock>)
    ensures r.Keys == products.Keys
    ensures forall id :: id in r ==> r[id].price == products[id].price
    ensures forall id :: id in r && (forall j :: 0 <= j < |updates| ==> updates[j].id != id) ==> r[id] == products[id]
  {
    if updates == [] then products
    else
      var init := updates[..|updates| - 1];
      var u := updates[|updates| - 1];
      var r := ApplyUpdates(products, init);
      assert forall j :: 0 <= j < |init| ==> init[j] == updates[j];
      if u.id in r then r[u.id := Stock(r[u.id].price, u.quantity)] else r
  }

  /** The decision `execute` takes, step by step and in its order: customer, empty lookup,
      unresolved id, insufficient stock; on success, the order to create and the stock update. */
  function PlaceOrder(customers: set<CustomerId>, products: map<ProductId, Stock>,
                      customerId: CustomerId, lines: seq<LineRequest>): Result<Placement>
  {
    if customerId !in customers then Failure(CustomerNotFound)
    else
      var listProducts := FindAllById(products, lines);
      if |listProducts| == 0 then Failure(NoProductsFound)
      else
        var existentIds := Ids(listProducts);
        var missing := Missing(lines, existentIds);
        if |missing| > 0 then Failure(ProductNotFound(missing[0].id))
        else
          var short := Insufficient(lines, listProducts);
          if |short| > 0 then Failure(QuantityNotAvailable(short[0].id, short[0].quantity))
          else
            var order := Order(customerId, Serialize(lines, listProducts));
            Success(Placement(order, NewQuantities(lines, listProducts)))
  }
}
