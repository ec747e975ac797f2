/** The catalog list of the dashboard: every product is decorated with its
    aggregated quantity, and the decorated list is shown in the order picked
    with the filter buttons. Sorting works on a copy of the list,
    so the list held in the store is never reordered; an unknown filter key
    shows the list as it is. */
module Dashboard {
  import opened Common
  import opened Types
  import opened Stock
  import opened Sorting

  /** The ordering shown when the dashboard opens. */
  const DefaultFilter: string := "quantity-asc"

  /** The product with its aggregated quantity added (dashboard/index.tsx:38-40). */
  function Decorate(p: Product): (d: Product)
    ensures d.totalQuantity == Some(AggregatedQuantity(p.stocks))
    ensures d.(totalQuantity := p.totalQuantity) == p
  {
    p.(totalQuantity := Some(AggregatedQuantity(p.stocks)))
  }

  /** `productsTotalQuantity`: the store's products, each decorated, in the same order. */
  function DecorateAll(products: seq<Product>): (r: seq<Product>)
    ensures |r| == |products|
    ensures forall i :: 0 <= i < |r| ==> r[i] == Decorate(products[i])
  {
    if products == [] then [] else [Decorate(products[0])] + DecorateAll(products[1..])
  }

  /** The quantity the comparators read: the decorated total, zero when it is missing. */
  function QuantityKey(p: Product): int
  {
    match p.totalQuantity
    case Some(q) => q
    case None => 0
  }

  // The comparators of the switch, as "may stay before" relations.
  predicate PriceAsc(a: Product, b: Product) { a.price - b.price <= 0.0 }
  predicate PriceDesc(a: Product, b: Product) { b.price - a.price <= 0.0 }
  predicate QuantityAsc(a: Product, b: Product) { QuantityKey(a) - QuantityKey(b) <= 0 }
  predicate QuantityDesc(a: Product, b: Product) { QuantityKey(b) - QuantityKey(a) <= 0 }

  function NameOrder(localeCompare: (string, string) -> int): (Product, Product) -> bool
  {
    (a: Product, b: Product) => localeCompare(a.name, b.name) <= 0
  }

  /** What is assumed of `String.prototype.localeCompare`: "x sorts no later than y"
      is a total preorder on strings. */
  ghost predicate Collation(localeCompare: (string, string) -> int)
  {
    && (forall x, y :: localeCompare(x, y) <= 0 || localeCompare(y, x) <= 0)
    && (forall x, y, z :: localeCompare(x, y) <= 0 && localeCompare(y, z) <= 0 ==> localeCompare(x, z) <= 0)
  }

  predicate IsKnownKey(filter: string)
  {
    filter in {"price-asc", "price-desc", "name", "quantity-asc", "quantity-desc"}
  }

  /** The `switch (filter)`: the comparator of a known key, none for any other string. */
  function OrderFor(filter: string, localeCompare: (string, string) -> int): (o: Option<(Product, Product) -> bool>)
    ensures o.Some? <==> IsKnownKey(filter)
  {
    if filter == "price-asc" then Some(PriceAsc)
    else if filter == "price-desc" then Some(PriceDesc)
    else if filter == "name" then Some(NameOrder(localeCompare))
    else if filter == "quantity-asc" then Some(QuantityAsc)
    else if filter == "quantity-desc" then Some(QuantityDesc)
    else None
  }

  /** `filteredProduct(products, filter)`. */
  function FilteredProduct(products: seq<Product>, filter: string, localeCompare: (string, string) -> int): (r: seq<Product>)
    ensures |r| == |products|
    ensures multiset(r) == multiset(products)
    ensures !IsKnownKey(filter) ==> r == products
  {
    match OrderFor(filter, localeCompare)
    case Some(le) => Sort(products, le)
    case None => products
  }

  /** Every known key's comparator is consistent (for `name`, given a consistent collation). */
  lemma OrderIsPreorder(filter: string, localeCompare: (string, string) -> int)
    requires IsKnownKey(filter)
    requires filter == "name" ==> Collation(localeCompare)
    ensures TotalPreorder(OrderFor(filter, localeCompare).value)
  {
    if filter == "name" {
      var le := NameOrder(localeCompare);
      assert Total(le) by {
        forall a: Product, b: Product ensures le(a, b) || le(b, a) {
          assert localeCompare(a.name, b.name) <= 0 || localeCompare(b.name, a.name) <= 0;
        }
      }
      assert Transitive(le) by {
        forall a: Product, b: Product, c: Product | le(a, b) && le(b, c) ensures le(a, c) {
          assert localeCompare(a.name, b.name) <= 0 && localeCompare(b.name, c.name) <= 0;
        }
      }
    }
  }

  /** The result of a known key is sorted by that key's comparator. */
  lemma FilteredIsSorted(products: seq<Product>, filter: string, localeCompare: (string, string) -> int)
    requires IsKnownKey(filter)
    requires filter == "name" ==> Collation(localeCompare)
    ensures SortedBy(FilteredProduct(products, filter, localeCompare), OrderFor(filter, localeCompare).value)
  {
    OrderIsPreorder(filter, localeCompare);
    SortSorted(products, OrderFor(filter, localeCompare).value);
  }

  /** `price-asc` gives non-decreasing prices, `price-desc` non-increasing ones. */
  lemma PriceOrders(products: seq<Product>, localeCompare: (string, string) -> int)
    ensures var r := FilteredProduct(products, "price-asc", localeCompare);
            forall i, j :: 0 <= i < j < |r| ==> r[i].price <= r[j].price
    ensures var r := FilteredProduct(products, "price-desc", localeCompare);
            forall i, j :: 0 <= i < j < |r| ==> r[i].price >= r[j].price
  {
    FilteredIsSorted(products, "price-asc", localeCompare);
    FilteredIsSorted(products, "price-desc", localeCompare);
  }

  /** `name` gives names in collation order. */
  lemma NameOrders(products: seq<Product>, localeCompare: (string, string) -> int)
    requires Collation(localeCompare)
    ensures var r := FilteredProduct(products, "name", localeCompare);
            forall i, j :: 0 <= i < j < |r| ==> localeCompare(r[i].name, r[j].name) <= 0
  {
    FilteredIsSorted(products, "name", localeCompare);
  }

  /** A decorated product's sort key is its aggregated quantity. */
  lemma DecoratedKeys(products: seq<Product>, r: seq<Product>)
    requires multiset(r) == multiset(DecorateAll(products))
    ensures forall i :: 0 <= i < |r| ==> QuantityKey(r[i]) == AggregatedQuantity(r[i].stocks)
  {
    forall i | 0 <= i < |r| ensures QuantityKey(r[i]) == AggregatedQuantity(r[i].stocks) {
      assert r[i] in multiset(r);
      assert r[i] in DecorateAll(products);
    }
  }

  /** On the decorated list the quantity keys order by the real aggregated
      quantity: `quantity-asc` non-decreasing, `quantity-desc` non-increasing. */
  lemma QuantityAscOrders(products: seq<Product>, localeCompare: (string, string) -> int)
    ensures var r := FilteredProduct(DecorateAll(products), "quantity-asc", localeCompare);
            forall i, j :: 0 <= i < j < |r| ==> AggregatedQuantity(r[i].stocks) <= AggregatedQuantity(r[j].stocks)
  {
    var r := FilteredProduct(DecorateAll(products), "quantity-asc", localeCompare);
    assert OrderFor("quantity-asc", localeCompare) == Some(QuantityAsc);
    FilteredIsSorted(DecorateAll(products), "quantity-asc", localeCompare);
    assert SortedBy(r, QuantityAsc);
    DecoratedKeys(products, r);
    forall i, j | 0 <= i < j < |r| ensures AggregatedQuantity(r[i].stocks) <= AggregatedQuantity(r[j].stocks) {
      assert QuantityAsc(r[i], r[j]);
    }
  }

  lemma QuantityDescOrders(products: seq<Product>, localeCompare: (string, string) -> int)
    ensures var r := FilteredProduct(DecorateAll(products), "quantity-desc", localeCompare);
            forall i, j :: 0 <= i < j < |r| ==> AggregatedQuantity(r[i].stocks) >= AggregatedQuantity(r[j].stocks)
  {
    var r := FilteredProduct(DecorateAll(products), "quantity-desc", localeCompare);
    assert OrderFor("quantity-desc", localeCompare) == Some(QuantityDesc);
    FilteredIsSorted(DecorateAll(products), "quantity-desc", localeCompare);
    assert SortedBy(r, QuantityDesc);
    DecoratedKeys(products, r);
    forall i, j | 0 <= i < j < |r| ensures AggregatedQuantity(r[i].stocks) >= AggregatedQuantity(r[j].stocks) {
      assert QuantityDesc(r[i], r[j]);
    }
  }

  /** The dashboard opens ordered by quantity, fewest units first. */
  lemma DefaultOrdersByQuantity(products: seq<Product>, localeCompare: (string, string) -> int)
    ensures var r := FilteredProduct(DecorateAll(products), DefaultFilter, localeCompare);
            forall i, j :: 0 <= i < j < |r| ==> AggregatedQuantity(r[i].stocks) <= AggregatedQuantity(r[j].stocks)
  {
    QuantityAscOrders(products, localeCompare);
  }

  /** Choosing the same key again leaves the shown order as it is. */
  lemma FilteredIdempotent(products: seq<Product>, filter: string, localeCompare: (string, string) -> int)
    requires filter == "name" ==> Collation(localeCompare)
    ensures var r := FilteredProduct(products, filter, localeCompare);
            FilteredProduct(r, filter, localeCompare) == r
  {
    if IsKnownKey(filter) {
      OrderIsPreorder(filter, localeCompare);
      SortIdempotent(products, OrderFor(filter, localeCompare).value);
    }
  }

  /** Products a known key cannot tell apart keep their relative input order. */
  lemma FilteredIsStable(products: seq<Product>, filter: string, localeCompare: (string, string) -> int, e: Product)
    requires IsKnownKey(filter)
    requires filter == "name" ==> Collation(localeCompare)
    ensures var le := OrderFor(filter, localeCompare).value;
            Filter(FilteredProduct(products, filter, localeCompare), TiedWith(le, e)) == Filter(products, TiedWith(le, e))
  {
    OrderIsPreorder(filter, localeCompare);
    SortStable(products, OrderFor(filter, localeCompare).value, e);
  }
}
