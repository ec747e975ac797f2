/** The `products` slice of the store: the catalogue, the product on show, and
    the loading and error flags of the three fetches. Each reducer case assigns
    fields of the state in place; the fetches themselves are HTTP calls whose
    results arrive here as payloads. */
module ProductSlice {
  import opened Common
  import opened Types

  /** The three fetches: all products, one by id, one by barcode. */
  datatype Request = AllProducts | ProductById | ProductByBarcode

  /** What a fetch delivers: its payload, or a failure and the message RTK puts
      in the error (`None` when it has none). A single-product payload is absent
      when a barcode lookup finds nothing (productServices.ts:54). */
  datatype Outcome = Products(all: seq<Product>) | OneProduct(one: Option<Product>) | Failed(message: Option<string>)

  /** The fallback of each `rejected` case. */
  function DefaultError(r: Request): (m: string)
    ensures m != ""
    ensures r == AllProducts ==> m == "Error fetching products"
    ensures r != AllProducts ==> m == "Error fetching product"
  {
    if r == AllProducts then "Error fetching products" else "Error fetching product"
  }

  /** The message a `rejected` case stores: the error's own message, unless it is absent or empty. */
  function ErrorText(message: Option<string>, r: Request): (m: string)
    ensures m != ""
    ensures (message.Some? && message.value != "") ==> m == message.value
    ensures (message.None? || message.value == "") ==> m == DefaultError(r)
  {
    if message.Some? && message.value != "" then message.value else DefaultError(r)
  }

  /** Whether an outcome is the payload a request's `fulfilled` case expects. The
      lookup by id throws when nothing matches (productServices.ts:26-28), so its
      payload is always present; the lookup by barcode does not check. */
  predicate Answers(r: Request, o: Outcome)
  {
    match r
    case AllProducts => o.Products? || o.Failed?
    case ProductById => (o.OneProduct? && o.one.Some?) || o.Failed?
    case ProductByBarcode => o.OneProduct? || o.Failed?
  }

  class ProductState {
    var products: seq<Product>
    var product: Option<Product>
    var loading: bool
    var error: Option<string>

    /** No request is in flight while an error is shown, and a shown error says something. */
    ghost predicate Valid()
      reads this
    {
      && (loading ==> error.None?)
      && (error.Some? ==> error.value != "")
    }

    /** `initialState`. */
    constructor ()
      ensures products == [] && product.None? && !loading && error.None?
      ensures Valid()
    {
      products := [];
      product := None;
      loading := false;
      error := None;
    }

    /** Every `pending` case: a request starts and the last error is cleared. */
    method Pending(r: Request)
      modifies this
      ensures loading && error.None?
      ensures products == old(products) && product == old(product)
      ensures Valid()
    {
      loading := true;
      error := None;
    }

    /** `fetchProducts.fulfilled`: the catalogue is replaced by the payload. */
    method ProductsFulfilled(payload: seq<Product>)
      requires Valid()
      modifies this
      ensures !loading && products == payload
      ensures product == old(product) && error == old(error)
      ensures Valid()
    {
      loading := false;
      products := payload;
    }

    /** `fetchProductById.fulfilled` and `fetchProductByBarcode.fulfilled`: the
        product on show is replaced by the payload, and cleared by an absent one. */
    method ProductFulfilled(payload: Option<Product>)
      requires Valid()
      modifies this
      ensures !loading && product == payload
      ensures products == old(products) && error == old(error)
      ensures Valid()
    {
      loading := false;
      product := payload;
    }

    /** Every `rejected` case: the request ends with the message, or the request's default. */
    method Rejected(r: Request, message: Option<string>)
      modifies this
      ensures !loading && error == Some(ErrorText(message, r))
      ensures products == old(products) && product == old(product)
      ensures Valid()
    {
      loading := false;
      error := Some(ErrorText(message, r));
    }

    /** One dispatch of a fetch as the store sees it: `pending`, then the case
        its outcome selects. */
    method Fetch(r: Request, o: Outcome)
      requires Answers(r, o)
      modifies this
      ensures !loading && Valid()
      ensures o.Products? ==> products == o.all && product == old(product) && error.None?
      ensures o.OneProduct? ==> product == o.one && products == old(products) && error.None?
      ensures r == ProductById && o.OneProduct? ==> product.Some?
      ensures o.Failed? ==> error == Some(ErrorText(o.message, r))
                            && products == old(products) && product == old(product)
    {
      Pending(r);
      match o
      case Products(all) => ProductsFulfilled(all);
      case OneProduct(one) => ProductFulfilled(one);
      case Failed(message) => Rejected(r, message);
    }
  }
}
