/** Message types of the inventory service, the status codes its handlers
    answer with, and the fixed error messages they carry. */
module Store {

  datatype Option<+T> = None | Some(value: T)

  /** The key object of a record: its stock-keeping unit. */
  datatype ItemIdentifier = ItemIdentifier(sku: string)

  /** The stock payload. Prices are compared only with `<=` and `==` in the
      service, so a real number stands for the floating-point price. */
  datatype Stock = Stock(quantity: nat, price: real)

  /** A stock record; both parts are optional on the wire. */
  datatype Item = Item(identifier: Option<ItemIdentifier>, stock: Option<Stock>)

  /** Request of DecreaseQuantity and IncreaseQuantity. */
  datatype QuantityChangeRequest = QuantityChangeRequest(sku: string, quantity: nat)

  /** Request of UpdatePrice. */
  datatype PriceChangeRequest = PriceChangeRequest(sku: string, price: real)

  /** Reply of the quantity and price updates: the values now stored. */
  datatype InventoryUpdateResponse = InventoryUpdateResponse(price: real, quantity: nat)

  /** The two success statuses of Remove. */
  datatype RemoveStatus = Removed | DidNotExist

  /** The error-message constants of the service. */
  datatype Message =
    | BadPriceErr   // provided PRICE was invalid
    | DupPriceErr   // item is already at this price
    | DupItemErr    // item already exists in inventory
    | DupQuantErr   // item is already at this quantity
    | LowQuantErr   // decrease larger than the current quantity
    | EmptySkuErr   // provided SKU was empty
    | NoIdErr       // no ID or SKU provided for item
    | NoItemErr     // the item requested was not found
    | NoStockErr    // no stock provided for item

  /** The error kinds a handler can answer with. */
  datatype Status =
    | InvalidArgument(msg: Message)
    | NotFound(msg: Message)
    | AlreadyExists(msg: Message)
    | Internal(msg: Message)

  /** What a handler returns: a value or an error status. */
  datatype Result<+T> = Ok(value: T) | Err(status: Status)

  /** True when `item` carries everything a stored record needs:
      a non-empty SKU, a stock payload and a positive price. */
  predicate Admissible(item: Item) {
    && item.identifier.Some?
    && item.identifier.value.sku != ""
    && item.stock.Some?
    && item.stock.value.price > 0.0
  }
}
