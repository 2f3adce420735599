/** The inventory service object: one map from SKU to record, changed in
    place by the handlers. Each handler is one atomic step (the service
    holds an exclusive lock for its whole duration). */
module Server {
  import opened Store
  import opened Inventory
  import ChangeWatcher

  class StoreInventory {
    var inventory: Map

    /** The store invariant holds of the current map. */
    ghost predicate Valid()
      reads this
    {
      Consistent(inventory)
    }

    /** The store starts empty. */
    constructor ()
      ensures inventory == map[] && Valid()
    {
      inventory := map[];
    }

    method Add(item: Item) returns (r: Result<()>)
      modifies this
      ensures Outcome(r, inventory) == Inventory.Add(old(inventory), item)
      ensures old(Valid()) ==> Valid()
    {
      var sku: string;
      match item.identifier {
        case Some(id) =>
          if id.sku == "" {
            return Err(InvalidArgument(EmptySkuErr));
          }
          sku := id.sku;
        case None =>
          return Err(InvalidArgument(NoIdErr));
      }
      match item.stock {
        case Some(stock) =>
          if stock.price <= 0.0 {
            return Err(InvalidArgument(BadPriceErr));
          }
        case None =>
          return Err(InvalidArgument(NoStockErr));
      }
      if sku in inventory {
        return Err(AlreadyExists(DupItemErr));
      }
      inventory := inventory[sku := item];
      r := Ok(());
    }

    method Remove(id: ItemIdentifier) returns (r: Result<RemoveStatus>)
      modifies this
      ensures Outcome(r, inventory) == Inventory.Remove(old(inventory), id)
      ensures old(Valid()) ==> Valid()
    {
      if id.sku == "" {
        return Err(InvalidArgument(EmptySkuErr));
      }
      var existed := id.sku in inventory;
      inventory := inventory - {id.sku};
      r := Ok(if existed then Removed else DidNotExist);
    }

    method Get(id: ItemIdentifier) returns (r: Result<Item>)
      ensures r == Inventory.Get(inventory, id)
    {
      if id.sku == "" {
        return Err(InvalidArgument(EmptySkuErr));
      }
      if id.sku !in inventory {
        return Err(NotFound(NoItemErr));
      }
      r := Ok(inventory[id.sku]);
    }

    /** Collects the stored records, visiting the keys in no particular
        order. */
    method GetAll() returns (items: seq<Item>)
      ensures multiset(items) == ValueBag(inventory)
    {
      items := [];
      var rest := inventory;
      while rest != map[]
        invariant multiset(items) + ValueBag(rest) == ValueBag(inventory)
        decreases |rest|
      {
        var k :| k in rest;
        ValueBagRemove(rest, k);
        assert (rest - {k}).Keys == rest.Keys - {k};
        items := items + [rest[k]];
        rest := rest - {k};
      }
    }

    method DecreaseQuantity(req: QuantityChangeRequest) returns (r: Result<InventoryUpdateResponse>)
      modifies this
      ensures Outcome(r, inventory) == Inventory.DecreaseQuantity(old(inventory), req)
      ensures old(Valid()) ==> Valid()
    {
      if req.sku !in inventory {
        return Err(NotFound(NoItemErr));
      }
      var item := inventory[req.sku];
      if item.stock.None? {
        return Err(Internal(NoStockErr));
      }
      var stock := item.stock.value;
      if req.sku == "" {
        return Err(InvalidArgument(EmptySkuErr));
      }
      if req.quantity == 0 {
        return Err(InvalidArgument(DupQuantErr));
      }
      if req.quantity > stock.quantity {
        return Err(InvalidArgument(LowQuantErr));
      }
      stock := stock.(quantity := stock.quantity - req.quantity);
      inventory := inventory[req.sku := item.(stock := Some(stock))];
      r := Ok(InventoryUpdateResponse(stock.price, stock.quantity));
    }

    method IncreaseQuantity(req: QuantityChangeRequest) returns (r: Result<InventoryUpdateResponse>)
      modifies this
      ensures Outcome(r, inventory) == Inventory.IncreaseQuantity(old(inventory), req)
      ensures old(Valid()) ==> Valid()
    {
      if req.sku !in inventory {
        return Err(NotFound(NoItemErr));
      }
      var item := inventory[req.sku];
      if item.stock.None? {
        return Err(Internal(NoStockErr));
      }
      var stock := item.stock.value;
      if req.sku == "" {
        return Err(InvalidArgument(EmptySkuErr));
      }
      if req.quantity == 0 {
        return Err(InvalidArgument(DupQuantErr));
      }
      stock := stock.(quantity := stock.quantity + req.quantity);
      inventory := inventory[req.sku := item.(stock := Some(stock))];
      r := Ok(InventoryUpdateResponse(stock.price, stock.quantity));
    }

    method UpdatePrice(req: PriceChangeRequest) returns (r: Result<InventoryUpdateResponse>)
      modifies this
      ensures Outcome(r, inventory) == Inventory.UpdatePrice(old(inventory), req)
      ensures old(Valid()) ==> Valid()
    {
      if req.sku == "" {
        return Err(InvalidArgument(EmptySkuErr));
      }
      if req.price <= 0.0 {
        return Err(InvalidArgument(BadPriceErr));
      }
      if req.sku !in inventory {
        return Err(NotFound(NoItemErr));
      }
      var item := inventory[req.sku];
      if item.stock.None? {
        return Err(Internal(NoStockErr));
      }
      var stock := item.stock.value;
      if stock.price == req.price {
        return Err(InvalidArgument(DupPriceErr));
      }
      stock := stock.(price := req.price);
      inventory := inventory[req.sku := item.(stock := Some(stock))];
      r := Ok(InventoryUpdateResponse(stock.price, stock.quantity));
    }

    /** Opens a subscription: the record must exist now; then the background
        task polls it over `ticks`, the states of the store at each later
        tick, and the stream carries what it emits. */
    method Watch(id: ItemIdentifier, ticks: seq<Map>) returns (r: Result<seq<Result<Item>>>)
      ensures r.Err? <==> Inventory.Get(inventory, id).Err?
      ensures r.Err? ==> r.status == Inventory.Get(inventory, id).status
      ensures r.Ok? ==> r.value == ChangeWatcher.Emitted(id.sku, inventory[id.sku], ticks)
    {
      var first := Get(id);
      if first.Err? {
        return Err(first.status);
      }
      var events := ChangeWatcher.Poll(id.sku, first.value, ticks);
      r := Ok(events);
    }
  }
}
