/** The metrics screen's figures, recomputed in full from the product list:
    number of products, number out of stock, total units on hand, and the five
    best- and least-stocked products as `{id, name, quantity}` entries. */
module Statistics {
  import opened Common
  import opened Types
  import opened Stock
  import opened Sorting

  /** The size of each ranking (useStatistics.ts:41, 49). */
  const RankingSize: nat := 5

  /** One line of a ranking. */
  datatype RankEntry = RankEntry(id: int, name: string, quantity: int)

  /** The record `calculateStatistics` stores. `totalStockValue` counts units, not money. */
  datatype Stats = Stats(
    totalProducts: nat,
    outOfStock: nat,
    totalStockValue: int,
    mostAddedProducts: seq<RankEntry>,
    mostRemovedProducts: seq<RankEntry>)

  /** A product's units (useStatistics.ts:27, 31, 38, 46). */
  function Quantity(p: Product): int
  {
    AggregatedQuantity(p.stocks)
  }

  predicate IsOutOfStock(p: Product)
  {
    Quantity(p) == 0
  }

  /** The unit total (useStatistics.ts:30-33): each product's units added to the running total `acc`. */
  function TotalUnits(products: seq<Product>, acc: int): (t: int)
    ensures t == acc + UnitSum(products)
  {
    if products == [] then acc else TotalUnits(products[1..], acc + Quantity(products[0]))
  }

  /** Reference definition: the sum of the aggregated quantities. */
  function UnitSum(products: seq<Product>): int
  {
    if products == [] then 0 else Quantity(products[0]) + UnitSum(products[1..])
  }

  function Entry(p: Product): (e: RankEntry)
    ensures e.id == p.id && e.name == p.name && e.quantity == Quantity(p)
  {
    RankEntry(p.id, p.name, Quantity(p))
  }

  /** One ranking line per product, in catalogue order (useStatistics.ts:35-39). */
  function Entries(products: seq<Product>): (r: seq<RankEntry>)
    ensures |r| == |products|
    ensures forall i :: 0 <= i < |r| ==> r[i] == Entry(products[i])
  {
    if products == [] then [] else [Entry(products[0])] + Entries(products[1..])
  }

  /** The most-added comparator (useStatistics.ts:40): more units first. */
  predicate MostFirst(a: RankEntry, b: RankEntry) { b.quantity - a.quantity <= 0 }
  /** The most-removed comparator (useStatistics.ts:48): fewer units first. */
  predicate LeastFirst(a: RankEntry, b: RankEntry) { a.quantity - b.quantity <= 0 }

  function Ranking(products: seq<Product>, le: (RankEntry, RankEntry) -> bool): (r: seq<RankEntry>)
    ensures |r| == Min(RankingSize, |products|)
  {
    Sort(Entries(products), le)[..Min(RankingSize, |products|)]
  }

  /** Reference definition: the number of products whose aggregated quantity is
      zero, counted one by one. */
  function EmptyCount(products: seq<Product>): nat
  {
    if products == [] then 0
    else (if Quantity(products[0]) == 0 then 1 else 0) + EmptyCount(products[1..])
  }

  /** `calculateStatistics`. */
  function CalculateStatistics(products: seq<Product>): (s: Stats)
    ensures s.totalProducts == |products|
    ensures s.outOfStock == EmptyCount(products)
    ensures s.outOfStock <= s.totalProducts
    ensures s.totalStockValue == UnitSum(products)
    ensures |s.mostAddedProducts| == Min(RankingSize, |products|)
    ensures |s.mostRemovedProducts| == Min(RankingSize, |products|)
  {
    OutOfStockIsEmptyCount(products);
    Stats(
      |products|,
      |Filter(products, IsOutOfStock)|,
      TotalUnits(products, 0),
      Ranking(products, MostFirst),
      Ranking(products, LeastFirst))
  }

  // ---------------------------------------------------------------------------
  // Properties of the counters

  /** The filter's length is the one-by-one count of empty products. */
  lemma {:induction false} OutOfStockIsEmptyCount(products: seq<Product>)
    ensures |Filter(products, IsOutOfStock)| == EmptyCount(products)
  {
    if products != [] {
      OutOfStockIsEmptyCount(products[1..]);
      FilterLengthStep(products, IsOutOfStock);
    }
  }

  /** `outOfStock` is the number of products whose aggregated quantity is zero,
      and the filter behind it keeps exactly those products, with multiplicity;
      it is zero iff none is empty, and all of them iff all are. */
  lemma OutOfStockCount(products: seq<Product>)
    ensures var s := CalculateStatistics(products);
            && s.outOfStock == |Filter(products, IsOutOfStock)| == EmptyCount(products)
            && (forall p :: multiset(Filter(products, IsOutOfStock))[p] == if Quantity(p) == 0 then multiset(products)[p] else 0)
            && (s.outOfStock == 0 <==> forall i :: 0 <= i < |products| ==> Quantity(products[i]) != 0)
            && (s.outOfStock == |products| <==> forall i :: 0 <= i < |products| ==> Quantity(products[i]) == 0)
  {
    var n := |Filter(products, IsOutOfStock)|;
    assert CalculateStatistics(products).outOfStock == n;
    FilterNone(products, IsOutOfStock);
    FilterAll(products, IsOutOfStock);
  }

  /** A filter keeps nothing exactly when nothing passes. */
  lemma FilterNone<T(!new)>(s: seq<T>, p: T -> bool)
    ensures |Filter(s, p)| == 0 <==> forall i :: 0 <= i < |s| ==> !p(s[i])
  {
    var f := Filter(s, p);
    if forall i :: 0 <= i < |s| ==> !p(s[i]) {
      assert forall x :: x in s ==> !p(x);
      assert multiset(f) == multiset{};
    } else {
      var i :| 0 <= i < |s| && p(s[i]);
      assert s[i] in f;
    }
  }

  /** A filter keeps everything exactly when everything passes. */
  lemma {:induction false} FilterAll<T(!new)>(s: seq<T>, p: T -> bool)
    ensures |Filter(s, p)| == |s| <==> forall i :: 0 <= i < |s| ==> p(s[i])
  {
    if s != [] {
      var t := s[1..];
      FilterAll(t, p);
      FilterLengthStep(s, p);
      AllStep(s, p);
    }
  }

  /** One step of a filter's length: the head counts when it passes. */
  lemma FilterLengthStep<T(!new)>(s: seq<T>, p: T -> bool)
    requires s != []
    ensures |Filter(s, p)| == (if p(s[0]) then 1 else 0) + |Filter(s[1..], p)|
    ensures |Filter(s[1..], p)| <= |s| - 1
  {
  }

  /** Everything passes exactly when the head and the whole tail pass. */
  lemma AllStep<T>(s: seq<T>, p: T -> bool)
    requires s != []
    ensures (forall i :: 0 <= i < |s| ==> p(s[i])) <==> p(s[0]) && forall i :: 0 <= i < |s[1..]| ==> p(s[1..][i])
  {
    assert forall i :: 0 <= i < |s[1..]| ==> s[1..][i] == s[i + 1];
  }

  /** With every row non-negative, the unit total is non-negative, and it is zero
      exactly when every product is out of stock. */
  lemma {:induction false} UnitSumZeroIffAllOut(products: seq<Product>)
    requires forall i :: 0 <= i < |products| ==> products[i].stocks.Some? ==> NonNegativeRows(products[i].stocks.value)
    ensures UnitSum(products) >= 0
    ensures UnitSum(products) == 0 <==> forall i :: 0 <= i < |products| ==> Quantity(products[i]) == 0
  {
    if products != [] {
      var p := products[0];
      if p.stocks.Some? {
        SumNonNegative(p.stocks.value);
      }
      UnitSumZeroIffAllOut(products[1..]);
      assert forall i :: 1 <= i < |products| ==> products[i] == products[1..][i - 1];
    }
  }

  /** All units of a concatenated catalogue are the units of its parts. */
  lemma {:induction false} UnitSumAppend(a: seq<Product>, b: seq<Product>)
    ensures UnitSum(a + b) == UnitSum(a) + UnitSum(b)
  {
    if a == [] {
      assert a + b == b;
    } else {
      UnitSumAppend(a[1..], b);
      assert (a + b)[1..] == a[1..] + b;
    }
  }

  // ---------------------------------------------------------------------------
  // Properties of the rankings

  /** Whether an entry is the entry of some product of the list. */
  ghost predicate EntryOfSome(e: RankEntry, products: seq<Product>)
  {
    exists i :: 0 <= i < |products| && e == Entry(products[i])
  }

  /** Every entry of a ranking belongs to one of the products: same id and name,
      and the product's aggregated quantity. */
  lemma RankingEntriesComeFromProducts(products: seq<Product>, le: (RankEntry, RankEntry) -> bool)
    ensures forall k :: 0 <= k < |Ranking(products, le)| ==> EntryOfSome(Ranking(products, le)[k], products)
  {
    var sorted := Sort(Entries(products), le);
    var r := Ranking(products, le);
    forall k | 0 <= k < |r| ensures EntryOfSome(r[k], products) {
      assert r[k] == sorted[k];
      assert sorted[k] in multiset(sorted);
      assert sorted[k] in Entries(products);
      var i :| 0 <= i < |products| && Entries(products)[i] == sorted[k];
    }
  }

  /** A ranking is sorted by its comparator, and every entry left out may follow
      every entry shown. */
  lemma RankingIsTop(products: seq<Product>, le: (RankEntry, RankEntry) -> bool)
    requires TotalPreorder(le)
    ensures var r := Ranking(products, le);
            && SortedBy(r, le)
            && (forall e, i :: e in multiset(Entries(products)) - multiset(r) && 0 <= i < |r| ==> le(r[i], e))
            && multiset(r) <= multiset(Entries(products))
  {
    var sorted := Sort(Entries(products), le);
    var k := Min(RankingSize, |products|);
    SortSorted(Entries(products), le);
    PrefixPrecedesRest(sorted, le, k);
    assert sorted == sorted[..k] + sorted[k..];
    assert Ranking(products, le) == sorted[..k];
  }

  /** `mostAddedProducts` is non-increasing in quantity, and no product left out
      has more units than any entry shown. */
  lemma MostAddedIsTop(products: seq<Product>)
    ensures var top := CalculateStatistics(products).mostAddedProducts;
            && (forall i, j :: 0 <= i < j < |top| ==> top[i].quantity >= top[j].quantity)
            && (forall e, i :: e in multiset(Entries(products)) - multiset(top) && 0 <= i < |top| ==> top[i].quantity >= e.quantity)
  {
    MostFirstRanking(products);
  }

  lemma MostFirstRanking(products: seq<Product>)
    ensures var top := Ranking(products, MostFirst);
            && (forall i, j :: 0 <= i < j < |top| ==> top[i].quantity >= top[j].quantity)
            && (forall e, i :: e in multiset(Entries(products)) - multiset(top) && 0 <= i < |top| ==> top[i].quantity >= e.quantity)
  {
    assert TotalPreorder(MostFirst);
    RankingIsTop(products, MostFirst);
  }

  /** `mostRemovedProducts` is non-decreasing in quantity, and no product left
      out has fewer units than any entry shown. */
  lemma MostRemovedIsBottom(products: seq<Product>)
    ensures var bottom := CalculateStatistics(products).mostRemovedProducts;
            && (forall i, j :: 0 <= i < j < |bottom| ==> bottom[i].quantity <= bottom[j].quantity)
            && (forall e, i :: e in multiset(Entries(products)) - multiset(bottom) && 0 <= i < |bottom| ==> bottom[i].quantity <= e.quantity)
  {
    LeastFirstRanking(products);
  }

  lemma LeastFirstRanking(products: seq<Product>)
    ensures var bottom := Ranking(products, LeastFirst);
            && (forall i, j :: 0 <= i < j < |bottom| ==> bottom[i].quantity <= bottom[j].quantity)
            && (forall e, i :: e in multiset(Entries(products)) - multiset(bottom) && 0 <= i < |bottom| ==> bottom[i].quantity <= e.quantity)
  {
    assert TotalPreorder(LeastFirst);
    RankingIsTop(products, LeastFirst);
  }
}
