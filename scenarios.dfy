/** Worked cases: a quantity change refused for going negative, one accepted,
    one refused for a missing row, a short search, and a two-product catalogue
    ranked by price and summarised. */
module Scenarios {
  import opened Common
  import opened Types
  import opened Stock
  import opened ProductScreen
  import opened Dashboard
  import opened Statistics
  import opened Search

  const Here: Location := Location("Rabat", 0.0, 0.0)

  function Row(warehouse: int, quantity: int): WarehouseStock
  {
    WarehouseStock(warehouse, "W" , quantity, Here)
  }

  function Item(id: int, name: string, price: real, rows: seq<WarehouseStock>): Product
  {
    Product(id, name, "type", "000", price, 0.0, "supplier", "image.png", Some(rows), [], None)
  }

  const Actor: Warehouseman := Warehouseman(7, "Amal", "1990-01-01", "Rabat", 1)

  /** Taking 15 from a row of 10 is refused and produces no product. */
  lemma DecreaseBelowZeroRefused()
    ensures QuantityChange(Item(1, "A", 10.0, [Row(1, 10)]), Some(Actor), Decrease, Some(15), "t")
            == Failure(NegativeQuantity)
  {
    var p := Item(1, "A", 10.0, [Row(1, 10)]);
    assert FindStock(p.stocks.value, 1) == Some(Row(1, 10));
  }

  /** Adding 5 to a row of 10 leaves 15 and one more edit entry, by the actor. */
  lemma IncreaseAccepted()
    ensures var r := QuantityChange(Item(1, "A", 10.0, [Row(1, 10)]), Some(Actor), Increase, Some(5), "t");
            && r.Success?
            && r.value.stocks == Some([Row(1, 15)])
            && r.value.editedBy == [EditEvent(ActorId(7), "t")]
  {
    var p := Item(1, "A", 10.0, [Row(1, 10)]);
    assert FindStock(p.stocks.value, 1) == Some(Row(1, 10));
    assert SetQuantity(p.stocks.value, 1, 15) == [Row(1, 15)];
  }

  /** An actor whose warehouse has no row on the product is refused. */
  lemma MissingRowRefused()
    ensures QuantityChange(Item(1, "A", 10.0, [Row(2, 10)]), Some(Actor), Increase, Some(5), "t")
            == Failure(StockNotFound)
  {
    assert !HasRowFor([Row(2, 10)], Some(Actor));
  }

  /** A two-letter query finds nothing, whatever the catalogue. */
  lemma ShortQueryFindsNothing(products: seq<Product>, toLowerCase: string -> string)
    ensures SearchResults(products, "ab", toLowerCase) == []
  {
  }

  const A: Product := Item(1, "A", 10.0, [Row(1, 5)])
  const B: Product := Item(2, "B", 5.0, [Row(1, 20)])

  /** Ordered by price, B (5) comes before A (10). */
  lemma PriceAscExample(localeCompare: (string, string) -> int)
    ensures FilteredProduct([A, B], "price-asc", localeCompare) == [B, A]
  {
    assert OrderFor("price-asc", localeCompare) == Some(PriceAsc);
    assert !PriceAsc(A, B);
    assert Sorting.Sort([B], PriceAsc) == [B];
  }

  /** The summary of A (5 units) and B (20 units). */
  lemma StatisticsExample()
    ensures CalculateStatistics([A, B])
            == Stats(2, 0, 25, [RankEntry(2, "B", 20), RankEntry(1, "A", 5)],
                     [RankEntry(1, "A", 5), RankEntry(2, "B", 20)])
  {
    ExampleCounters();
    ExampleRankings();
  }

  lemma ExampleCounters()
    ensures |Filter([A, B], IsOutOfStock)| == 0
    ensures TotalUnits([A, B], 0) == 25
  {
    assert Quantity(A) == 5 && Quantity(B) == 20;
    assert Filter([A, B], IsOutOfStock) == [];
    assert [A, B][1..] == [B];
    assert UnitSum([B]) == 20 by {
      assert [B][1..] == [];
    }
  }

  lemma ExampleRankings()
    ensures Ranking([A, B], MostFirst) == [RankEntry(2, "B", 20), RankEntry(1, "A", 5)]
    ensures Ranking([A, B], LeastFirst) == [RankEntry(1, "A", 5), RankEntry(2, "B", 20)]
  {
    var ea, eb := RankEntry(1, "A", 5), RankEntry(2, "B", 20);
    assert Quantity(A) == 5 && Quantity(B) == 20;
    assert Entries([A, B]) == [ea, eb];
    assert Sorting.Sort([eb], MostFirst) == [eb];
    assert Sorting.Sort([eb], LeastFirst) == [eb];
    assert Sorting.Sort([ea, eb], MostFirst) == [eb, ea];
    assert Sorting.Sort([ea, eb], LeastFirst) == [ea, eb];
  }
}
