/** Concrete runs of the order-creation decision: a catalogue with P1 (price 10, stock 5) and
    P2 (price 20, stock 2), and one known customer C1. */
module OrderScenarios {
  import opened OrderTypes
  import opened OrderRules
  import opened OrderProperties

  function Catalogue(): map<ProductId, Stock>
  {
    map["P1" := Stock(10, 5), "P2" := Stock(20, 2)]
  }

  /** Two distinct, sufficiently stocked products: priced line items in request order and the
      stock update P1 -> 3, P2 -> 1. */
  lemma TwoProductOrder()
    ensures var lines := [LineRequest("P1", 2), LineRequest("P2", 1)];
      var p := PlaceOrder({"C1"}, Catalogue(), "C1", lines);
      && p.Success?
      && p.value.order == Order("C1", [LineItem("P1", 2, 10), LineItem("P2", 1, 20)])
      && p.value.updates == [StockUpdate("P1", 3), StockUpdate("P2", 1)]
  {
    var lines := [LineRequest("P1", 2), LineRequest("P2", 1)];
    assert AllKnown(Catalogue(), lines) && AllInStock(Catalogue(), lines);
    PlacementShape({"C1"}, Catalogue(), "C1", lines);
    var placed := PlaceOrder({"C1"}, Catalogue(), "C1", lines).value;
    assert placed.order.items == [LineItem("P1", 2, 10), LineItem("P2", 1, 20)];
    assert placed.updates == [StockUpdate("P1", 3), StockUpdate("P2", 1)];
  }

  /** Asking for more than the stock is rejected, naming the requested quantity. */
  lemma OverStockRejected()
    ensures PlaceOrder({"C1"}, Catalogue(), "C1", [LineRequest("P1", 10)])
            == Failure(QuantityNotAvailable("P1", 10))
  {
    var lines := [LineRequest("P1", 10)];
    assert AllKnown(Catalogue(), lines) && FirstOverStock(Catalogue(), lines, 0);
    FirstOverStockReported({"C1"}, Catalogue(), "C1", lines, 0);
  }

  /** A request whose only id is unknown is rejected as "no products found", not as an
      unknown product, because the batch lookup came back empty. */
  lemma OnlyUnknownIdRejected()
    ensures PlaceOrder({"C1"}, Catalogue(), "C1", [LineRequest("P9", 1)]) == Failure(NoProductsFound)
  {
    NoProductsFoundIff({"C1"}, Catalogue(), "C1", [LineRequest("P9", 1)]);
  }

  /** A known id followed by two unknown ones: the first unknown id is reported, even though
      the known line asks for more than the stock. */
  lemma FirstUnknownBeatsStock()
    ensures PlaceOrder({"C1"}, Catalogue(), "C1",
                       [LineRequest("P1", 99), LineRequest("P8", 1), LineRequest("P9", 1)])
            == Failure(ProductNotFound("P8"))
  {
    var lines := [LineRequest("P1", 99), LineRequest("P8", 1), LineRequest("P9", 1)];
    assert lines[0].id in Catalogue();
    FirstUnknownReported({"C1"}, Catalogue(), "C1", lines, 1);
  }

  /** Two lines for P1, each within the stock of 5 but together asking for 6: both pass the
      check against the same snapshot, both updates are 5 - 3, and P1 ends at 2. */
  lemma DuplicateLinesDoNotChain()
    ensures var lines := [LineRequest("P1", 3), LineRequest("P1", 3)];
      var p := PlaceOrder({"C1"}, Catalogue(), "C1", lines);
      && p.Success?
      && p.value.updates == [StockUpdate("P1", 2), StockUpdate("P1", 2)]
      && ApplyUpdates(Catalogue(), p.value.updates)["P1"] == Stock(10, 2)
  {
  }
}
