/** The "Add New Product" form: its initial state, the validation run on
    submit (one error message per field, later checks overwriting earlier
    ones), and the product record built from a valid form. The number parses
    (`parseFloat`, `Number`) are given with the form; `None` stands for NaN. */
module AddProductForm {
  import opened Common
  import opened Types
  import opened Stock

  /** The warehouse name used when no product has a row for the user's warehouse. */
  const DefaultWarehouseName: string := "Main Stock"

  /** The text fields of the form; the numeric ones are still strings. */
  datatype FormData = FormData(
    id: int,
    name: string,
    productType: string,
    barcode: string,
    price: string,
    solde: string,
    supplier: string,
    image: string,
    editedBy: seq<EditEvent>)

  /** Everything `validateForm` and `handleSubmit` read. */
  datatype FormInput = FormInput(
    form: FormData,
    barcodeExists: bool,          // the asynchronous uniqueness check's verdict
    selectedImage: Option<string>,
    initialQuantity: string,
    parsedPrice: Option<real>,    // parseFloat(form.price)
    parsedSolde: Option<real>,    // parseFloat(form.solde)
    parsedQuantity: Option<int>)  // Number(initialQuantity)

  /** What JavaScript's parsers give for blank text: `parseFloat` NaN, `Number` zero. */
  ghost predicate ParsedLikeJavaScript(input: FormInput)
  {
    && (IsBlank(input.form.price) ==> input.parsedPrice.None?)
    && (IsBlank(input.form.solde) ==> input.parsedSolde.None?)
    && (IsBlank(input.initialQuantity) ==> input.parsedQuantity == Some(0))
  }

  // ---------------------------------------------------------------------------
  // Initial state

  /** The product has a row for the user's warehouse (addProductForm.tsx:21);
      without a user no row matches. Only called on a product whose
      `stocks` is present. */
  predicate HasUserRow(p: Product, user: Option<Warehouseman>)
  {
    p.stocks.Some? && user.Some? && FindStock(p.stocks.value, user.value.warehouseId).Some?
  }

  /** The products whose `stocks` the search for the user's row reads are those up
      to the first one that has such a row, or all of them when none has: each of
      those must carry its `stocks` list. */
  predicate StocksReached(products: seq<Product>, user: Option<Warehouseman>)
  {
    products == []
    || (products[0].stocks.Some? && (HasUserRow(products[0], user) || StocksReached(products[1..], user)))
  }

  /** The warehouse row the form copies: the user's first row on the first product that has one. */
  function WarehouseInfo(products: seq<Product>, user: Option<Warehouseman>): (r: Option<WarehouseStock>)
    requires StocksReached(products, user)
    ensures r.None? <==> forall i :: 0 <= i < |products| ==> !HasUserRow(products[i], user)
    ensures r.Some? ==> exists i :: && 0 <= i < |products| && HasUserRow(products[i], user)
                                    && (forall j :: 0 <= j < i ==> !HasUserRow(products[j], user))
                                    && r == FindStock(products[i].stocks.value, user.value.warehouseId)
    ensures r.Some? ==> user.Some? && r.value.id == user.value.warehouseId
  {
    if products == [] then None
    else if HasUserRow(products[0], user) then
      FindStock(products[0].stocks.value, user.value.warehouseId)
    else
      var r := WarehouseInfo(products[1..], user);
      FirstHolderShifts(products, user, r);
      r
  }

  /** The tail's answer, read on the whole catalogue when its head has no row. */
  lemma FirstHolderShifts(products: seq<Product>, user: Option<Warehouseman>, r: Option<WarehouseStock>)
    requires products != [] && !HasUserRow(products[0], user)
    requires r.None? <==> forall i :: 0 <= i < |products[1..]| ==> !HasUserRow(products[1..][i], user)
    requires r.Some? ==> exists i :: && 0 <= i < |products[1..]| && HasUserRow(products[1..][i], user)
                                     && (forall j :: 0 <= j < i ==> !HasUserRow(products[1..][j], user))
                                     && r == FindStock(products[1..][i].stocks.value, user.value.warehouseId)
    ensures r.None? <==> forall i :: 0 <= i < |products| ==> !HasUserRow(products[i], user)
    ensures r.Some? ==> exists i :: && 0 <= i < |products| && HasUserRow(products[i], user)
                                    && (forall j :: 0 <= j < i ==> !HasUserRow(products[j], user))
                                    && r == FindStock(products[i].stocks.value, user.value.warehouseId)
  {
    assert forall i :: 1 <= i < |products| ==> products[i] == products[1..][i - 1];
    if r.Some? {
      var i :| && 0 <= i < |products[1..]| && HasUserRow(products[1..][i], user)
               && (forall j :: 0 <= j < i ==> !HasUserRow(products[1..][j], user))
               && r == FindStock(products[1..][i].stocks.value, user.value.warehouseId);
      assert HasUserRow(products[i + 1], user);
      assert forall j :: 0 <= j < i + 1 ==> !HasUserRow(products[j], user);
    }
  }

  /** The name given to the new row (addProductForm.tsx:24): the found row's name,
      unless there is none or it is empty. */
  function WarehouseName(info: Option<WarehouseStock>): (n: string)
    ensures n != ""
    ensures info.Some? && info.value.name != "" ==> n == info.value.name
    ensures info.None? || info.value.name == "" ==> n == DefaultWarehouseName
  {
    if info.Some? && info.value.name != "" then info.value.name else DefaultWarehouseName
  }

  /** The location given to the new row (addProductForm.tsx:25-29): the found row's,
      or else the user's city, empty without a user, at latitude and longitude zero. */
  function WarehouseLocation(info: Option<WarehouseStock>, user: Option<Warehouseman>): (l: Location)
    ensures info.Some? ==> l == info.value.localisation
    ensures info.None? && user.Some? ==> l == Location(user.value.city, 0.0, 0.0)
    ensures info.None? && user.None? ==> l == Location("", 0.0, 0.0)
  {
    if info.Some? then info.value.localisation
    else Location(if user.Some? then user.value.city else "", 0.0, 0.0)
  }

  /** The creator recorded in the first edit entry (addProductForm.tsx:43): the
      user's id, and 0 without a user. An id of 0 is falsy in JavaScript and also
      gives 0, so the two readings agree. */
  function CreatorId(user: Option<Warehouseman>): (id: int)
    ensures user.Some? ==> id == user.value.id
    ensures user.None? ==> id == 0
  {
    if user.Some? then user.value.id else 0
  }

  /** The form as first shown: empty fields, the scanned barcode if any, the next
      id, and one edit entry recording the creator. */
  function InitialForm(products: seq<Product>, initialBarcode: Option<string>,
                       user: Option<Warehouseman>, at: string): (f: FormData)
    ensures f.id == |products| + 1
    ensures |f.editedBy| == 1 && f.editedBy[0].warehousemanId == ActorId(CreatorId(user))
    ensures f.barcode == (if initialBarcode.Some? then initialBarcode.value else "")
    ensures f.name == f.productType == f.price == f.solde == f.supplier == f.image == ""
  {
    FormData(|products| + 1, "", "", if initialBarcode.Some? then initialBarcode.value else "",
             "", "", "", "", [EditEvent(ActorId(CreatorId(user)), at)])
  }

  /** With no row for the user's warehouse anywhere, every product's `stocks` is
      read, and the new row is named "Main Stock" and placed at latitude zero. */
  lemma DefaultWarehouse(products: seq<Product>, user: Option<Warehouseman>)
    requires forall i :: 0 <= i < |products| ==> products[i].stocks.Some?
    requires user.Some? ==> forall i, j :: 0 <= i < |products| && 0 <= j < |products[i].stocks.value|
                                         ==> products[i].stocks.value[j].id != user.value.warehouseId
    ensures StocksReached(products, user)
    ensures WarehouseName(WarehouseInfo(products, user)) == DefaultWarehouseName
    ensures WarehouseLocation(WarehouseInfo(products, user), user).latitude == 0.0
  {
    AllStocksReached(products, user);
    forall i | 0 <= i < |products|
      ensures !HasUserRow(products[i], user)
    {
      if user.Some? {
        assert forall j :: 0 <= j < |products[i].stocks.value| ==> products[i].stocks.value[j].id != user.value.warehouseId;
      }
    }
  }

  /** A catalogue whose every product carries `stocks` can be searched whatever the user. */
  lemma {:induction false} AllStocksReached(products: seq<Product>, user: Option<Warehouseman>)
    requires forall i :: 0 <= i < |products| ==> products[i].stocks.Some?
    ensures StocksReached(products, user)
  {
    if products != [] {
      assert forall i :: 1 <= i < |products| ==> products[i] == products[1..][i - 1];
      AllStocksReached(products[1..], user);
    }
  }

  // ---------------------------------------------------------------------------
  // Validation

  datatype Field = NameField | TypeField | BarcodeField | PriceField | SupplierField
                 | ImageField | SoldeField | QuantityField

  const NameRequired := "Name is required"
  const TypeRequired := "Type is required"
  const BarcodeRequired := "Barcode is required"
  const BarcodeTaken := "This barcode is already registered"
  const PriceRequired := "Price is required"
  const PricePositive := "Price must be a positive number"
  const SupplierRequired := "Supplier is required"
  const ImageRequired := "Image is required"
  const SoldePositive := "Solde must be a positive number"
  const SoldeBelowPrice := "Solde must be less than price"
  const QuantityPositive := "Quantity must be a positive number"

  /** A parsed number that is NaN or not above zero (addProductForm.tsx:128, 132). */
  predicate NotPositive(x: Option<real>)
  {
    x.None? || x.value <= 0.0
  }

  /** The solde is not below the price (addProductForm.tsx:133); false whenever either side is NaN. */
  predicate AtLeast(solde: Option<real>, price: Option<real>)
  {
    solde.Some? && price.Some? && solde.value >= price.value
  }

  /** The message a field ends up with, the last applicable check winning. */
  function FieldError(input: FormInput, f: Field): Option<string>
  {
    var form := input.form;
    match f
    case NameField => if IsBlank(form.name) then Some(NameRequired) else None
    case TypeField => if IsBlank(form.productType) then Some(TypeRequired) else None
    case BarcodeField =>
      if input.barcodeExists then Some(BarcodeTaken)
      else if IsBlank(form.barcode) then Some(BarcodeRequired)
      else None
    case PriceField =>
      if NotPositive(input.parsedPrice) then Some(PricePositive)
      else if IsBlank(form.price) then Some(PriceRequired)
      else None
    case SupplierField => if IsBlank(form.supplier) then Some(SupplierRequired) else None
    case ImageField => if input.selectedImage.None? || input.selectedImage.value == "" then Some(ImageRequired) else None
    case SoldeField =>
      if form.solde == "" then None
      else if AtLeast(input.parsedSolde, input.parsedPrice) then Some(SoldeBelowPrice)
      else if NotPositive(input.parsedSolde) then Some(SoldePositive)
      else None
    case QuantityField =>
      if input.initialQuantity != "" && (input.parsedQuantity.None? || input.parsedQuantity.value < 0)
      then Some(QuantityPositive)
      else None
  }

  /** No field has an error. */
  ghost predicate FormValid(input: FormInput)
  {
    forall f :: FieldError(input, f).None?
  }

  /** The fields whose message is final once the "required" checks have run. */
  predicate SettledEarly(f: Field)
  {
    f != PriceField && f != SoldeField && f != QuantityField
  }

  /** Lines one to four of `validateForm`: name, type, and the barcode both
      required and not already registered. Their messages are final here. */
  method IdentityChecks(input: FormInput) returns (errors: map<Field, string>)
    ensures forall f :: f in errors <==> (f == NameField || f == TypeField || f == BarcodeField) && FieldError(input, f).Some?
    ensures forall f :: f in errors ==> errors[f] == FieldError(input, f).value
  {
    var form := input.form;
    errors := map[];
    if IsBlank(form.name) { errors := errors[NameField := NameRequired]; }
    if IsBlank(form.productType) { errors := errors[TypeField := TypeRequired]; }
    if IsBlank(form.barcode) { errors := errors[BarcodeField := BarcodeRequired]; }
    if input.barcodeExists { errors := errors[BarcodeField := BarcodeTaken]; }
  }

  /** The "required" part of `validateForm`: after it the name, type, barcode,
      supplier and image messages are final, and the price holds "required"
      exactly when it is blank. */
  method RequiredChecks(input: FormInput) returns (errors: map<Field, string>)
    ensures forall f :: SettledEarly(f) ==> (f in errors <==> FieldError(input, f).Some?)
    ensures forall f :: SettledEarly(f) && f in errors ==> errors[f] == FieldError(input, f).value
    ensures PriceField in errors <==> IsBlank(input.form.price)
    ensures PriceField in errors ==> errors[PriceField] == PriceRequired
    ensures SoldeField !in errors && QuantityField !in errors
  {
    var form := input.form;
    errors := IdentityChecks(input);
    if IsBlank(form.price) { errors := errors[PriceField := PriceRequired]; }
    if IsBlank(form.supplier) { errors := errors[SupplierField := SupplierRequired]; }
    if input.selectedImage.None? || input.selectedImage.value == "" {
      errors := errors[ImageField := ImageRequired];
    }
    forall f | SettledEarly(f)
      ensures f in errors <==> FieldError(input, f).Some?
      ensures f in errors ==> errors[f] == FieldError(input, f).value
    {
      match f
      case NameField =>
      case TypeField =>
      case BarcodeField =>
      case SupplierField =>
      case ImageField =>
    }
  }

  /** `validateForm`: fills the error map check by check, then reports whether it stayed empty. */
  method ValidateForm(input: FormInput) returns (errors: map<Field, string>, valid: bool)
    ensures forall f :: f in errors <==> FieldError(input, f).Some?
    ensures forall f :: f in errors ==> errors[f] == FieldError(input, f).value
    ensures valid <==> errors == map[]
    ensures valid <==> FormValid(input)
  {
    var form := input.form;
    var newErrors := RequiredChecks(input);

    var price := input.parsedPrice;
    if NotPositive(price) { newErrors := newErrors[PriceField := PricePositive]; }

    if form.solde != "" {
      var solde := input.parsedSolde;
      if NotPositive(solde) { newErrors := newErrors[SoldeField := SoldePositive]; }
      if AtLeast(solde, price) { newErrors := newErrors[SoldeField := SoldeBelowPrice]; }
    }

    if input.initialQuantity != "" && (input.parsedQuantity.None? || input.parsedQuantity.value < 0) {
      newErrors := newErrors[QuantityField := QuantityPositive];
    }

    errors := newErrors;
    valid := |errors| == 0;
    forall f
      ensures f in errors <==> FieldError(input, f).Some?
      ensures f in errors ==> errors[f] == FieldError(input, f).value
    {
      if SettledEarly(f) {
      } else {
        match f
        case PriceField =>
        case SoldeField =>
        case QuantityField =>
      }
    }
    if !valid {
      var f :| f in errors;
      assert FieldError(input, f).Some?;
    }
  }

  /** The overwrites: a blank price ends with the "positive number" message, an
      already registered barcode with the "already registered" one, and a solde
      that is both non-positive and not below the price with "less than price". */
  lemma MessagePrecedence(input: FormInput)
    requires ParsedLikeJavaScript(input)
    ensures IsBlank(input.form.price) ==> FieldError(input, PriceField) == Some(PricePositive)
    ensures input.barcodeExists ==> FieldError(input, BarcodeField) == Some(BarcodeTaken)
    ensures input.form.solde != "" && AtLeast(input.parsedSolde, input.parsedPrice)
            ==> FieldError(input, SoldeField) == Some(SoldeBelowPrice)
  {
  }

  // ---------------------------------------------------------------------------
  // The submitted record

  /** The id of the new row (addProductForm.tsx:154): the user's warehouse id,
      or 1 when there is no user or that id is 0, which JavaScript treats as absent. */
  function StockId(user: Option<Warehouseman>): (id: int)
    ensures user.Some? && user.value.warehouseId != 0 ==> id == user.value.warehouseId
    ensures user.None? || user.value.warehouseId == 0 ==> id == 1
    ensures id != 0
  {
    if user.Some? && user.value.warehouseId != 0 then user.value.warehouseId else 1
  }

  /** `productData` of `handleSubmit`, built only once the form is valid. */
  function BuildProduct(input: FormInput, products: seq<Product>, user: Option<Warehouseman>): (p: Product)
    requires FormValid(input)
    requires StocksReached(products, user)
    ensures p.id == input.form.id && p.editedBy == input.form.editedBy
    ensures p.name == input.form.name && p.productType == input.form.productType && p.barcode == input.form.barcode
    ensures p.supplier == input.form.supplier && p.image == input.form.image
    ensures input.parsedPrice.Some? && p.price == input.parsedPrice.value && p.price > 0.0
    ensures input.form.solde == "" ==> p.solde == 0.0
    ensures input.form.solde != "" ==> input.parsedSolde.Some? && p.solde == input.parsedSolde.value
    ensures input.form.solde != "" ==> 0.0 < p.solde < p.price
    ensures p.stocks.Some? && p.totalQuantity.None?
    ensures var q := input.parsedQuantity;
            if q.Some? && q.value > 0 then
              p.stocks.value == [WarehouseStock(StockId(user), WarehouseName(WarehouseInfo(products, user)), q.value,
                                                WarehouseLocation(WarehouseInfo(products, user), user))]
            else p.stocks.value == []
    ensures NonNegativeRows(p.stocks.value)
  {
    assert FieldError(input, PriceField).None? && FieldError(input, SoldeField).None?;
    var form := input.form;
    var info := WarehouseInfo(products, user);
    var q := input.parsedQuantity;
    Product(
      form.id, form.name, form.productType, form.barcode,
      input.parsedPrice.value,
      if form.solde != "" then input.parsedSolde.value else 0.0,
      form.supplier, form.image,
      Some(if q.Some? && q.value > 0
           then [WarehouseStock(StockId(user), WarehouseName(info), q.value, WarehouseLocation(info, user))]
           else []),
      form.editedBy,
      None)
  }

  /** A product created from the initial form gets the next id and an edit log
      holding exactly the creation entry, and an empty quantity field gives it no row. */
  lemma CreatedFromInitialForm(input: FormInput, products: seq<Product>, initialBarcode: Option<string>,
                               user: Option<Warehouseman>, at: string)
    requires FormValid(input) && ParsedLikeJavaScript(input)
    requires StocksReached(products, user)
    requires var f0 := InitialForm(products, initialBarcode, user, at);
             input.form.id == f0.id && input.form.editedBy == f0.editedBy
    ensures var p := BuildProduct(input, products, user);
            && p.id == |products| + 1
            && p.editedBy == [EditEvent(ActorId(CreatorId(user)), at)]
            && (IsBlank(input.initialQuantity) ==> p.stocks == Some([]))
  {
  }
}
