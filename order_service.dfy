/** The order-creation service, with the three stores it talks to reduced to the state they
    hold: the customers the customer store can find, the product table and the created orders. */
module OrderService {
  import opened OrderTypes
  import opened OrderRules

  class CreateOrderService {
    /** Ids the customer store finds. */
    var customers: set<CustomerId>
    /** The product table: id -> current price and remaining stock. */
    var products: map<ProductId, Stock>
    /** The orders the order store has created, oldest first. */
    var orders: seq<Order>

    constructor (customers: set<CustomerId>, products: map<ProductId, Stock>, orders: seq<Order>)
      ensures this.customers == customers && this.products == products && this.orders == orders
    {
      this.customers := customers;
      this.products := products;
      this.orders := orders;
    }

    /** Creates an order for `customerId` from the requested lines. Every check runs before
        the first store is written: on failure nothing changes; on success exactly one order is
        appended and then the whole stock update is applied in one batch. The body takes the
        steps of `OrderRules.PlaceOrder`, its specification, one at a time. */
    method Execute(customerId: CustomerId, lines: seq<LineRequest>) returns (r: Result<Order>)
      modifies this
      ensures customers == old(customers)
      ensures match PlaceOrder(old(customers), old(products), customerId, lines)
        case Failure(e) => r == Failure(e) && products == old(products) && orders == old(orders)
        case Success(placed) =>
          && r == Success(placed.order)
          && orders == old(orders) + [placed.order]
          && products == ApplyUpdates(old(products), placed.updates)
    {
      if customerId !in customers {
        return Failure(CustomerNotFound);
      }

      var listProducts := FindAllById(products, lines);
      if |listProducts| == 0 {
        return Failure(NoProductsFound);
      }

      var existentIds := Ids(listProducts);
      var missing := Missing(lines, existentIds);
      if |missing| > 0 {
        return Failure(ProductNotFound(missing[0].id));
      }

      var short := Insufficient(lines, listProducts);
      if |short| > 0 {
        return Failure(QuantityNotAvailable(short[0].id, short[0].quantity));
      }

      var order := Order(customerId, Serialize(lines, listProducts));
      orders := orders + [order];

      var updates := NewQuantities(lines, listProducts);
      products := ApplyUpdates(products, updates);

      return Success(order);
    }
  }
}
