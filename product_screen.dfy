/** The product detail screen: the product's total quantity, its stock-status
    badge, and the decision taken when a warehouseman asks to increase or
    decrease the stock of their own warehouse. The decision returns the next
    product value; persisting it and refreshing the list are left to callers. */
module ProductScreen {
  import opened Common
  import opened Types
  import opened Stock

  /** The screen's total (product.tsx:30): the rows' quantities summed from zero.
      The screen reads the stock list without a guard, so a product shown here has it. */
  function TotalQuantity(p: Product): (q: int)
    requires p.stocks.Some?
    ensures q == Sum(p.stocks.value)
    ensures p.stocks.value == [] ==> q == 0
  {
    Reduce(p.stocks.value, 0)
  }

  datatype StockStatus = OutOfStock | LowStock | InStock

  /** The badge style chosen for a quantity. */
  function StockStatusOf(quantity: int): (s: StockStatus)
    ensures s == OutOfStock <==> quantity == 0
    ensures s == InStock <==> quantity >= 10
  {
    if quantity == 0 then OutOfStock
    else if quantity < 10 then LowStock
    else InStock
  }

  /** For a product whose rows are all non-negative the badge reads the total:
      out of stock at 0, low from 1 to 9, in stock from 10, and out of stock
      exactly when every row is empty. */
  lemma ProductStatus(p: Product)
    requires p.stocks.Some? && NonNegativeRows(p.stocks.value)
    ensures StockStatusOf(TotalQuantity(p)) == OutOfStock <==> TotalQuantity(p) == 0
    ensures StockStatusOf(TotalQuantity(p)) == LowStock <==> 1 <= TotalQuantity(p) <= 9
    ensures StockStatusOf(TotalQuantity(p)) == InStock <==> TotalQuantity(p) >= 10
    ensures (StockStatusOf(TotalQuantity(p)) == OutOfStock)
            == (forall i :: 0 <= i < |p.stocks.value| ==> p.stocks.value[i].quantity == 0)
  {
    SumNonNegative(p.stocks.value);
    SumZeroIffAllEmpty(p.stocks.value);
  }

  // ---------------------------------------------------------------------------
  // Changing the quantity of the actor's own warehouse

  datatype QuantityAction = Increase | Decrease

  /** The three refusals, each shown to the user as a message. */
  datatype QuantityError = InvalidAmount | StockNotFound | NegativeQuantity

  function ErrorMessage(e: QuantityError): (m: string)
    ensures m != ""
  {
    match e
    case InvalidAmount => "Please enter a valid quantity"
    case StockNotFound => "No stock found for your warehouse"
    case NegativeQuantity => "Cannot reduce below 0"
  }

  /** The typed amount parsed to a number that is not negative (product.tsx:41-42). */
  predicate ValidAmount(amount: Option<int>)
  {
    amount.Some? && amount.value >= 0
  }

  /** Somebody is signed in and this product has a row for their warehouse. */
  ghost predicate HasRowFor(rows: seq<WarehouseStock>, user: Option<Warehouseman>)
  {
    user.Some? && exists i :: 0 <= i < |rows| && rows[i].id == user.value.warehouseId
  }

  /** The actor's row (product.tsx:28): the first row of the user's warehouse;
      with nobody signed in no row matches. */
  function UserStock(rows: seq<WarehouseStock>, user: Option<Warehouseman>): (r: Option<WarehouseStock>)
    ensures user.None? ==> r.None?
    ensures r.Some? <==> HasRowFor(rows, user)
    ensures r.Some? ==> exists k :: FirstRowOf(rows, user.value.warehouseId, k) && rows[k] == r.value
  {
    if user.None? then None else FindStock(rows, user.value.warehouseId)
  }

  /** The new quantity (product.tsx:52-54): the amount added for an increase,
      taken away for a decrease. */
  function Apply(current: int, action: QuantityAction, amount: int): (q: int)
    ensures action == Increase ==> q - current == amount
    ensures action == Decrease ==> current - q == amount
  {
    match action
    case Increase => current + amount
    case Decrease => current - amount
  }

  /** Who the appended edit names (product.tsx:72): the user's id, or a blank
      entry when that id is 0, which JavaScript treats as absent. */
  function ActorOf(user: Warehouseman): (a: ActorRef)
    ensures a == BlankActor <==> user.id == 0
    ensures a.ActorId? ==> a.id == user.id
  {
    if user.id == 0 then BlankActor else ActorId(user.id)
  }

  /** `handleQuantityChange`: check the amount, find the actor's row, compute the
      new quantity, refuse a negative result, and otherwise build the product
      with that warehouse's rows updated and one edit appended. `at` is the clock
      reading the source takes when it stamps the edit. */
  function QuantityChange(p: Product, user: Option<Warehouseman>, action: QuantityAction,
                          amount: Option<int>, at: string): (r: Result<Product, QuantityError>)
    requires p.stocks.Some?
    // the amount is checked before anything else
    ensures r == Failure(InvalidAmount) <==> !ValidAmount(amount)
    // then the actor must have a row on this product
    ensures r == Failure(StockNotFound) <==> ValidAmount(amount) && !HasRowFor(p.stocks.value, user)
    // then the first such row, moved by the amount, must stay at or above zero
    ensures (r == Failure(NegativeQuantity))
            == (&& ValidAmount(amount) && user.Some?
                && exists k :: FirstRowOf(p.stocks.value, user.value.warehouseId, k)
                               && Apply(p.stocks.value[k].quantity, action, amount.value) < 0)
    ensures r.Success? ==>
              && ValidAmount(amount) && user.Some?
              && var rows, w := p.stocks.value, user.value.warehouseId;
                 exists k :: FirstRowOf(rows, w, k) && SuccessorOf(p, r.value, w, Apply(rows[k].quantity, action, amount.value), EditEvent(ActorOf(user.value), at))
  {
    if !ValidAmount(amount) then Failure(InvalidAmount)
    else
      var rows := p.stocks.value;
      match UserStock(rows, user)
      case None => Failure(StockNotFound)
      case Some(row) =>
        var newQuantity := Apply(row.quantity, action, amount.value);
        if newQuantity < 0 then Failure(NegativeQuantity)
        else
          var w := user.value.warehouseId;
          var q := p.(stocks := Some(SetQuantity(rows, w, newQuantity)),
                      editedBy := p.editedBy + [EditEvent(ActorOf(user.value), at)]);
          assert FirstRowOfUnique(rows, w);
          Success(q)
  }

  /** `FirstRowOf` names at most one row. */
  ghost predicate FirstRowOfUnique(rows: seq<WarehouseStock>, w: int)
  {
    forall k, k' :: FirstRowOf(rows, w, k) && FirstRowOf(rows, w, k') ==> k == k'
  }

  /** `next` is `p` after a successful change: every row of warehouse `w` holds
      `quantity` and every other row is as it was, `event` is appended to the
      edit log with the earlier entries kept in order, and no other field moves. */
  ghost predicate SuccessorOf(p: Product, next: Product, w: int, quantity: int, event: EditEvent)
    requires p.stocks.Some?
  {
    && quantity >= 0
    && next.stocks.Some?
    && |next.stocks.value| == |p.stocks.value|
    && (forall i :: 0 <= i < |p.stocks.value| ==>
          next.stocks.value[i] == if p.stocks.value[i].id == w then p.stocks.value[i].(quantity := quantity)
                                  else p.stocks.value[i])
    && |next.editedBy| == |p.editedBy| + 1
    && next.editedBy[..|p.editedBy|] == p.editedBy
    && next.editedBy[|p.editedBy|] == event
    && next.(stocks := p.stocks, editedBy := p.editedBy) == p
  }

  // ---------------------------------------------------------------------------
  // What a successful change preserves

  /** No successful change makes a row negative: the invariant carries over. */
  lemma ChangeKeepsRowsNonNegative(p: Product, user: Option<Warehouseman>, action: QuantityAction,
                                   amount: Option<int>, at: string)
    requires p.stocks.Some? && NonNegativeRows(p.stocks.value)
    requires QuantityChange(p, user, action, amount, at).Success?
    ensures NonNegativeRows(QuantityChange(p, user, action, amount, at).value.stocks.value)
    ensures TotalQuantity(QuantityChange(p, user, action, amount, at).value) >= 0
  {
    var next := QuantityChange(p, user, action, amount, at).value;
    var rows := next.stocks.value;
    assert NonNegativeRows(rows);
    SumNonNegative(rows);
  }

  /** With one row per warehouse, a successful change moves the product's total
      by exactly the amount, up for an increase and down for a decrease, and the
      warehouses stay unique. */
  lemma ChangeMovesTotalByAmount(p: Product, user: Option<Warehouseman>, action: QuantityAction,
                                 amount: Option<int>, at: string)
    requires p.stocks.Some? && UniqueWarehouses(p.stocks.value)
    requires QuantityChange(p, user, action, amount, at).Success?
    ensures UniqueWarehouses(QuantityChange(p, user, action, amount, at).value.stocks.value)
    ensures TotalQuantity(QuantityChange(p, user, action, amount, at).value)
              == TotalQuantity(p) + (if action == Increase then amount.value else -amount.value)
  {
    var rows, w := p.stocks.value, user.value.warehouseId;
    var k :| FirstRowOf(rows, w, k);
    var newQuantity := Apply(rows[k].quantity, action, amount.value);
    assert FirstRowOfUnique(rows, w);
    assert QuantityChange(p, user, action, amount, at).value.stocks.value == SetQuantity(rows, w, newQuantity);
    SumSetQuantity(rows, k, newQuantity);
  }
}
