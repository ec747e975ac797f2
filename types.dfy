/** The records the inventory client holds in memory: products with their
    per-warehouse stock rows and their edit log, and the signed-in warehouseman.
    Field names follow the JSON documents the REST API exchanges. */
module Types {
  import opened Common

  /** Where a warehouse is. */
  datatype Location = Location(city: string, latitude: real, longitude: real)

  /** One warehouse's stock row on a product; `id` identifies the warehouse. */
  datatype WarehouseStock = WarehouseStock(id: int, name: string, quantity: int, localisation: Location)

  /** Who made an edit: a warehouseman id, or the empty string that the product
      screen writes when the signed-in user's id is falsy. */
  datatype ActorRef = ActorId(id: int) | BlankActor

  /** One entry of a product's edit log; `at` is an ISO-8601 timestamp taken as given. */
  datatype EditEvent = EditEvent(warehousemanId: ActorRef, at: string)

  /** A catalog product. `stocks` is `None` for a record that arrived without the
      field; `totalQuantity` is only present on the dashboard's decorated copies. */
  datatype Product = Product(
    id: int,
    name: string,
    productType: string,
    barcode: string,
    price: real,
    solde: real,
    supplier: string,
    image: string,
    stocks: Option<seq<WarehouseStock>>,
    editedBy: seq<EditEvent>,
    totalQuantity: Option<int>)

  /** The authenticated actor, as the identity service returns it (without its secret key). */
  datatype Warehouseman = Warehouseman(id: int, name: string, dob: string, city: string, warehouseId: int)
}
