/** Values exchanged by the order-creation workflow. */
module OrderTypes {

  type CustomerId = string

  type ProductId = string

  /** A unit price. The workflow only copies prices from the catalogue into line items,
      it never computes with them, so an integer (say, in cents) stands for the stored number. */
  type Price = int

  /** One requested line (`IProduct`): which product and how many of it. The quantity is
      whatever the caller sent; the workflow does not check that it is positive. */
  datatype LineRequest = LineRequest(id: ProductId, quantity: int)

  /** A row of the product table as the batch lookup returns it. */
  datatype Product = Product(id: ProductId, price: Price, quantity: int)

  /** What the product table stores under a product id: current price and remaining stock. */
  datatype Stock = Stock(price: Price, quantity: int)

  /** A priced line of a created order; the price is captured at creation time. */
  datatype LineItem = LineItem(productId: ProductId, quantity: int, price: Price)

  /** One entry of the batch stock update: the product and its new stored quantity. */
  datatype StockUpdate = StockUpdate(id: ProductId, quantity: int)

  /** An order as handed to the order store: its customer and its line items. */
  datatype Order = Order(customer: CustomerId, items: seq<LineItem>)

  /** The four ways the workflow fails, in the order it checks for them. */
  datatype Error =
    | CustomerNotFound
    | NoProductsFound
    | ProductNotFound(id: ProductId)
      /** Carries the id and the REQUESTED quantity of the offending line. */
    | QuantityNotAvailable(id: ProductId, quantity: int)

  datatype Result<T> = Success(value: T) | Failure(error: Error)

  /** What a successful run produces: the order to create and the batch stock update. */
  datatype Placement = Placement(order: Order, updates: seq<StockUpdate>)
}
