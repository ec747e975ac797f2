/** Stock aggregation: a product's on-hand quantity is the sum of its
    per-warehouse rows. The screens fold the rows from the left, adding each
    row's quantity to a running total that starts at zero; `Reduce` is that
    fold, and `Sum` is the reference definition it is proved equal to. */
module Stock {
  import opened Common
  import opened Types

  /** The sum of the rows' quantities. */
  function Sum(rows: seq<WarehouseStock>): int
  {
    if rows == [] then 0 else rows[0].quantity + Sum(rows[1..])
  }

  /** The left fold of the screens: each row's quantity added to the running total `acc`. */
  function Reduce(rows: seq<WarehouseStock>, acc: int): (r: int)
    ensures r == acc + Sum(rows)
  {
    if rows == [] then acc else Reduce(rows[1..], acc + rows[0].quantity)
  }

  /** A product's quantity as the dashboard and the metrics compute it
      (dashboard/index.tsx:39, useStatistics.ts:27): the fold of its rows, and
      zero when it has no stock list. */
  function AggregatedQuantity(stocks: Option<seq<WarehouseStock>>): (q: int)
    ensures stocks.None? ==> q == 0
    ensures stocks.Some? ==> q == Sum(stocks.value)
  {
    match stocks
    case None => 0
    case Some(rows) => Reduce(rows, 0)
  }

  /** Every row holds a non-negative quantity: the domain invariant. */
  ghost predicate NonNegativeRows(rows: seq<WarehouseStock>)
  {
    forall i :: 0 <= i < |rows| ==> rows[i].quantity >= 0
  }

  /** No warehouse appears twice in one product's rows. */
  ghost predicate UniqueWarehouses(rows: seq<WarehouseStock>)
  {
    forall i, j :: 0 <= i < j < |rows| ==> rows[i].id != rows[j].id
  }

  lemma {:induction false} SumNonNegative(rows: seq<WarehouseStock>)
    requires NonNegativeRows(rows)
    ensures Sum(rows) >= 0
  {
    if rows != [] {
      SumNonNegative(rows[1..]);
    }
  }

  /** The sum is zero exactly when every (non-negative) row is empty. */
  lemma {:induction false} SumZeroIffAllEmpty(rows: seq<WarehouseStock>)
    requires NonNegativeRows(rows)
    ensures Sum(rows) == 0 <==> forall i :: 0 <= i < |rows| ==> rows[i].quantity == 0
  {
    if rows != [] {
      SumZeroIffAllEmpty(rows[1..]);
      SumNonNegative(rows[1..]);
      assert forall i :: 1 <= i < |rows| ==> rows[i] == rows[1..][i - 1];
    }
  }

  lemma {:induction false} SumAppend(a: seq<WarehouseStock>, b: seq<WarehouseStock>)
    ensures Sum(a + b) == Sum(a) + Sum(b)
  {
    if a == [] {
      assert a + b == b;
    } else {
      SumAppend(a[1..], b);
      assert (a + b)[1..] == a[1..] + b;
    }
  }

  /** Row `k` is the first row of warehouse `w`. */
  ghost predicate FirstRowOf(rows: seq<WarehouseStock>, w: int, k: int)
  {
    0 <= k < |rows| && rows[k].id == w && forall j :: 0 <= j < k ==> rows[j].id != w
  }

  /** The first row of warehouse `w`, if there is one (product.tsx:28). */
  function FindStock(rows: seq<WarehouseStock>, w: int): (r: Option<WarehouseStock>)
    ensures r.None? <==> forall i :: 0 <= i < |rows| ==> rows[i].id != w
    ensures r.Some? ==> exists k :: FirstRowOf(rows, w, k) && rows[k] == r.value
  {
    if rows == [] then None
    else if rows[0].id == w then
      assert FirstRowOf(rows, w, 0);
      Some(rows[0])
    else
      var r := FindStock(rows[1..], w);
      assert r.Some? ==> exists k :: FirstRowOf(rows[1..], w, k) && rows[1..][k] == r.value;
      assert forall k :: FirstRowOf(rows[1..], w, k) ==> FirstRowOf(rows, w, k + 1);
      r
  }

  /** The rows after a change (product.tsx:64-68): every row of the warehouse
      gets the new quantity, every other row is kept, order and length unchanged. */
  function SetQuantity(rows: seq<WarehouseStock>, warehouseId: int, quantity: int): (r: seq<WarehouseStock>)
    ensures |r| == |rows|
    ensures forall i :: 0 <= i < |rows| ==>
              r[i] == if rows[i].id == warehouseId then rows[i].(quantity := quantity) else rows[i]
  {
    if rows == [] then []
    else
      [if rows[0].id == warehouseId then rows[0].(quantity := quantity) else rows[0]]
      + SetQuantity(rows[1..], warehouseId, quantity)
  }

  /** With warehouse ids unique, replacing row `k`'s quantity moves the sum by the difference. */
  lemma {:induction false} SumSetQuantity(rows: seq<WarehouseStock>, k: nat, quantity: int)
    requires UniqueWarehouses(rows) && k < |rows|
    ensures Sum(SetQuantity(rows, rows[k].id, quantity)) == Sum(rows) - rows[k].quantity + quantity
  {
    var w := rows[k].id;
    var r := SetQuantity(rows, w, quantity);
    if k == 0 {
      assert forall i :: 1 <= i < |rows| ==> rows[i].id != w;
      SetQuantityNoMatch(rows[1..], w, quantity);
      assert r[1..] == SetQuantity(rows[1..], w, quantity);
    } else {
      assert rows[0].id != w;
      assert rows[1..][k - 1] == rows[k];
      SumSetQuantity(rows[1..], k - 1, quantity);
      assert r[1..] == SetQuantity(rows[1..], w, quantity);
    }
  }

  /** Replacing the quantity of a warehouse that has no row changes nothing. */
  lemma SetQuantityNoMatch(rows: seq<WarehouseStock>, warehouseId: int, quantity: int)
    requires forall i :: 0 <= i < |rows| ==> rows[i].id != warehouseId
    ensures SetQuantity(rows, warehouseId, quantity) == rows
  {
  }
}
