/** The inventory store as values: what each handler of the service answers
    and what the map from SKU to record is afterwards. The class in module
    Server runs the same checks step by step and is proved against these
    functions. */
module Inventory {
  import opened Store

  /** The shared map from SKU to record. */
  type Map = map<string, Item>

  /** A handler's answer together with the map it leaves behind. */
  datatype Outcome<+T> = Outcome(result: Result<T>, inventory: Map)

  /** The record filed under `k` is admissible and carries `k` as its SKU. */
  predicate Stored(k: string, item: Item) {
    Admissible(item) && item.identifier.value.sku == k
  }

  /** The store invariant: every record is filed under its own non-empty SKU,
      has a stock payload and a positive price. */
  predicate Consistent(m: Map) {
    forall k :: k in m ==> Stored(k, m[k])
  }

  /** `item` with its stock quantity replaced by `q`. */
  function WithQuantity(item: Item, q: nat): Item
    requires item.stock.Some?
  {
    item.(stock := Some(item.stock.value.(quantity := q)))
  }

  /** `item` with its stock price replaced by `p`. */
  function WithPrice(item: Item, p: real): Item
    requires item.stock.Some?
  {
    item.(stock := Some(item.stock.value.(price := p)))
  }

  /** The reply of a quantity or price update: the stock now stored. */
  function Reply(item: Item): InventoryUpdateResponse
    requires item.stock.Some?
  {
    InventoryUpdateResponse(item.stock.value.price, item.stock.value.quantity)
  }

  // ---------------------------------------------------------------------
  // The handlers

  /** Add: validate the record, refuse a SKU that is already present,
      otherwise insert the record verbatim under its SKU. */
  function Add(m: Map, item: Item): (o: Outcome<()>)
    ensures item.identifier.None? ==> o.result == Err(InvalidArgument(NoIdErr))
    ensures item.identifier.Some? && item.identifier.value.sku == "" ==>
              o.result == Err(InvalidArgument(EmptySkuErr))
    ensures item.identifier.Some? && item.identifier.value.sku != "" && item.stock.None? ==>
              o.result == Err(InvalidArgument(NoStockErr))
    ensures item.identifier.Some? && item.identifier.value.sku != "" &&
            item.stock.Some? && item.stock.value.price <= 0.0 ==>
              o.result == Err(InvalidArgument(BadPriceErr))
    ensures Admissible(item) && item.identifier.value.sku in m ==>
              o.result == Err(AlreadyExists(DupItemErr))
    ensures o.result.Ok? <==> Admissible(item) && item.identifier.value.sku !in m
    ensures o.result.Ok? ==> o.inventory == m[item.identifier.value.sku := item]
    ensures o.result.Err? ==> o.inventory == m
    ensures Consistent(m) ==> Consistent(o.inventory)
  {
    match item.identifier
    case None => Outcome(Err(InvalidArgument(NoIdErr)), m)
    case Some(id) =>
      if id.sku == "" then Outcome(Err(InvalidArgument(EmptySkuErr)), m)
      else match item.stock
        case None => Outcome(Err(InvalidArgument(NoStockErr)), m)
        case Some(stock) =>
          if stock.price <= 0.0 then Outcome(Err(InvalidArgument(BadPriceErr)), m)
          else if id.sku in m then Outcome(Err(AlreadyExists(DupItemErr)), m)
          else Outcome(Ok(()), m[id.sku := item])
  }

  /** Remove: an empty SKU is refused; otherwise the key is dropped, and the
      answer tells whether there was anything to drop. */
  function Remove(m: Map, id: ItemIdentifier): (o: Outcome<RemoveStatus>)
    ensures o.result.Err? <==> id.sku == ""
    ensures o.result.Err? ==> o.result == Err(InvalidArgument(EmptySkuErr)) && o.inventory == m
    ensures o.result == Ok(Removed) <==> id.sku != "" && id.sku in m
    ensures o.result == Ok(DidNotExist) <==> id.sku != "" && id.sku !in m
    ensures o.result.Ok? ==> id.sku !in o.inventory && o.inventory == m - {id.sku}
    ensures Consistent(m) ==> Consistent(o.inventory)
  {
    if id.sku == "" then Outcome(Err(InvalidArgument(EmptySkuErr)), m)
    else Outcome(Ok(if id.sku in m then Removed else DidNotExist), m - {id.sku})
  }

  /** Get: a copy of the record stored under the SKU. */
  function Get(m: Map, id: ItemIdentifier): (r: Result<Item>)
    ensures id.sku == "" ==> r == Err(InvalidArgument(EmptySkuErr))
    ensures id.sku != "" && id.sku !in m ==> r == Err(NotFound(NoItemErr))
    ensures r.Ok? <==> id.sku != "" && id.sku in m
    ensures r.Ok? ==> r.value == m[id.sku]
  {
    if id.sku == "" then Err(InvalidArgument(EmptySkuErr))
    else if id.sku !in m then Err(NotFound(NoItemErr))
    else Ok(m[id.sku])
  }

  /** DecreaseQuantity: existence, then stock, then the request's fields,
      then enough stock; on success only the quantity of that record drops. */
  function DecreaseQuantity(m: Map, req: QuantityChangeRequest): (o: Outcome<InventoryUpdateResponse>)
    ensures req.sku !in m ==> o.result == Err(NotFound(NoItemErr))
    ensures req.sku in m && m[req.sku].stock.None? ==> o.result == Err(Internal(NoStockErr))
    ensures req.sku in m && m[req.sku].stock.Some? && req.sku == "" ==>
              o.result == Err(InvalidArgument(EmptySkuErr))
    ensures req.sku in m && m[req.sku].stock.Some? && req.sku != "" && req.quantity == 0 ==>
              o.result == Err(InvalidArgument(DupQuantErr))
    ensures req.sku in m && m[req.sku].stock.Some? && req.sku != "" && req.quantity != 0 &&
            req.quantity > m[req.sku].stock.value.quantity ==>
              o.result == Err(InvalidArgument(LowQuantErr))
    ensures o.result.Ok? <==>
              && req.sku in m && m[req.sku].stock.Some? && req.sku != ""
              && 0 < req.quantity <= m[req.sku].stock.value.quantity
    ensures o.result.Err? ==> o.inventory == m
    ensures o.result.Ok? ==>
              o.inventory == m[req.sku := WithQuantity(m[req.sku], m[req.sku].stock.value.quantity - req.quantity)]
    ensures o.result.Ok? ==> o.result.value == Reply(o.inventory[req.sku])
    ensures Consistent(m) ==> Consistent(o.inventory)
  {
    if req.sku !in m then Outcome(Err(NotFound(NoItemErr)), m)
    else
      var item := m[req.sku];
      match item.stock
      case None => Outcome(Err(Internal(NoStockErr)), m)
      case Some(stock) =>
        if req.sku == "" then Outcome(Err(InvalidArgument(EmptySkuErr)), m)
        else if req.quantity == 0 then Outcome(Err(InvalidArgument(DupQuantErr)), m)
        else if req.quantity > stock.quantity then Outcome(Err(InvalidArgument(LowQuantErr)), m)
        else
          var updated := WithQuantity(item, stock.quantity - req.quantity);
          Outcome(Ok(Reply(updated)), m[req.sku := updated])
  }

  /** IncreaseQuantity: the same first four checks as DecreaseQuantity; on
      success only the quantity of that record grows. */
  function IncreaseQuantity(m: Map, req: QuantityChangeRequest): (o: Outcome<InventoryUpdateResponse>)
    ensures req.sku !in m ==> o.result == Err(NotFound(NoItemErr))
    ensures req.sku in m && m[req.sku].stock.None? ==> o.result == Err(Internal(NoStockErr))
    ensures req.sku in m && m[req.sku].stock.Some? && req.sku == "" ==>
              o.result == Err(InvalidArgument(EmptySkuErr))
    ensures req.sku in m && m[req.sku].stock.Some? && req.sku != "" && req.quantity == 0 ==>
              o.result == Err(InvalidArgument(DupQuantErr))
    ensures o.result.Ok? <==>
              req.sku in m && m[req.sku].stock.Some? && req.sku != "" && req.quantity != 0
    ensures o.result.Err? ==> o.inventory == m
    ensures o.result.Ok? ==>
              o.inventory == m[req.sku := WithQuantity(m[req.sku], m[req.sku].stock.value.quantity + req.quantity)]
    ensures o.result.Ok? ==> o.result.value == Reply(o.inventory[req.sku])
    ensures Consistent(m) ==> Consistent(o.inventory)
  {
    if req.sku !in m then Outcome(Err(NotFound(NoItemErr)), m)
    else
      var item := m[req.sku];
      match item.stock
      case None => Outcome(Err(Internal(NoStockErr)), m)
      case Some(stock) =>
        if req.sku == "" then Outcome(Err(InvalidArgument(EmptySkuErr)), m)
        else if req.quantity == 0 then Outcome(Err(InvalidArgument(DupQuantErr)), m)
        else
          var updated := WithQuantity(item, stock.quantity + req.quantity);
          Outcome(Ok(Reply(updated)), m[req.sku := updated])
  }

  /** UpdatePrice: the request is checked before the map is consulted; then
      existence, stock, and a price that actually changes. */
  function UpdatePrice(m: Map, req: PriceChangeRequest): (o: Outcome<InventoryUpdateResponse>)
    ensures req.sku == "" ==> o.result == Err(InvalidArgument(EmptySkuErr))
    ensures req.sku != "" && req.price <= 0.0 ==> o.result == Err(InvalidArgument(BadPriceErr))
    ensures req.sku != "" && req.price > 0.0 && req.sku !in m ==> o.result == Err(NotFound(NoItemErr))
    ensures req.sku != "" && req.price > 0.0 && req.sku in m && m[req.sku].stock.None? ==>
              o.result == Err(Internal(NoStockErr))
    ensures req.sku != "" && req.price > 0.0 && req.sku in m && m[req.sku].stock.Some? &&
            m[req.sku].stock.value.price == req.price ==>
              o.result == Err(InvalidArgument(DupPriceErr))
    ensures o.result.Ok? <==>
              && req.sku != "" && req.price > 0.0 && req.sku in m
              && m[req.sku].stock.Some? && m[req.sku].stock.value.price != req.price
    ensures o.result.Err? ==> o.inventory == m
    ensures o.result.Ok? ==> o.inventory == m[req.sku := WithPrice(m[req.sku], req.price)]
    ensures o.result.Ok? ==> o.result.value == Reply(o.inventory[req.sku])
    ensures Consistent(m) ==> Consistent(o.inventory)
  {
    if req.sku == "" then Outcome(Err(InvalidArgument(EmptySkuErr)), m)
    else if req.price <= 0.0 then Outcome(Err(InvalidArgument(BadPriceErr)), m)
    else if req.sku !in m then Outcome(Err(NotFound(NoItemErr)), m)
    else
      var item := m[req.sku];
      match item.stock
      case None => Outcome(Err(Internal(NoStockErr)), m)
      case Some(stock) =>
        if stock.price == req.price then Outcome(Err(InvalidArgument(DupPriceErr)), m)
        else
          var updated := WithPrice(item, req.price);
          Outcome(Ok(Reply(updated)), m[req.sku := updated])
  }

  // ---------------------------------------------------------------------
  // GetAll: the values of the map, as a multiset (iteration order of the
  // map is unspecified)

  /** Some key of a non-empty map. */
  ghost function PickKey(m: Map): (k: string)
    requires m != map[]
    ensures k in m
  {
    var k :| k in m; k
  }

  /** The multiset of the map's values: one occurrence per key. */
  ghost function ValueBag(m: Map): multiset<Item>
    decreases |m|
  {
    if m == map[] then multiset{}
    else
      var k := PickKey(m);
      assert |m - {k}| < |m| by { assert (m - {k}).Keys == m.Keys - {k}; }
      multiset{m[k]} + ValueBag(m - {k})
  }

  /** Whichever key is taken out first, the same multiset results. */
  lemma {:induction false} ValueBagRemove(m: Map, k: string)
    requires k in m
    ensures ValueBag(m) == multiset{m[k]} + ValueBag(m - {k})
    decreases |m|
  {
    var j := PickKey(m);
    assert |m - {j}| < |m| by { assert (m - {j}).Keys == m.Keys - {j}; }
    assert ValueBag(m) == multiset{m[j]} + ValueBag(m - {j});
    if j != k {
      var rest := m - {j} - {k};
      assert rest == m - {k} - {j};
      assert |m - {k}| < |m| by { assert (m - {k}).Keys == m.Keys - {k}; }
      ValueBagRemove(m - {j}, k);
      ValueBagRemove(m - {k}, j);
      calc {
        ValueBag(m);
        multiset{m[j]} + (multiset{m[k]} + ValueBag(rest));
        multiset{m[k]} + (multiset{m[j]} + ValueBag(rest));
        multiset{m[k]} + ValueBag(m - {k});
      }
    }
  }

  /** GetAll returns one item per stored SKU ... */
  lemma {:induction false} ValueBagSize(m: Map)
    ensures |ValueBag(m)| == |m|
    decreases |m|
  {
    if m != map[] {
      var k := PickKey(m);
      assert (m - {k}).Keys == m.Keys - {k};
      ValueBagSize(m - {k});
    }
  }

  /** ... and exactly the stored records. */
  lemma {:induction false} ValueBagMembers(m: Map, x: Item)
    ensures x in ValueBag(m) <==> x in m.Values
    decreases |m|
  {
    if m != map[] {
      var k := PickKey(m);
      assert (m - {k}).Keys == m.Keys - {k};
      ValueBagMembers(m - {k}, x);
      if x in m.Values && x != m[k] {
        var j :| j in m && m[j] == x;
        assert j in m - {k};
      }
    }
  }

  // ---------------------------------------------------------------------
  // Properties relating several calls

  /** A record that Add accepted is returned unchanged by Get. */
  lemma AddThenGet(m: Map, item: Item)
    requires Add(m, item).result.Ok?
    ensures Get(Add(m, item).inventory, item.identifier.value) == Ok(item)
  {
  }

  /** After a successful Add, GetAll answers the old records plus the new one. */
  lemma AddThenGetAll(m: Map, item: Item)
    requires Add(m, item).result.Ok?
    ensures ValueBag(Add(m, item).inventory) == ValueBag(m) + multiset{item}
  {
    var sku := item.identifier.value.sku;
    var m' := Add(m, item).inventory;
    ValueBagRemove(m', sku);
    assert m' - {sku} == m;
  }

  /** A second Add under the same SKU fails and the first record survives. */
  lemma DuplicateAddKeepsFirst(m: Map, first: Item, second: Item)
    requires Add(m, first).result.Ok?
    requires second.identifier == first.identifier
    ensures var m1 := Add(m, first).inventory;
            && Add(m1, second).result.Err?
            && Add(m1, second).inventory == m1
            && (Admissible(second) ==> Add(m1, second).result == Err(AlreadyExists(DupItemErr)))
            && Get(Add(m1, second).inventory, first.identifier.value) == Ok(first)
  {
  }

  /** Remove of an absent SKU still succeeds, and afterwards neither Get nor
      GetAll shows a record with that SKU. */
  lemma RemoveThenLookup(m: Map, id: ItemIdentifier)
    requires Consistent(m) && id.sku != ""
    ensures Remove(m, id).result.Ok?
    ensures Get(Remove(m, id).inventory, id) == Err(NotFound(NoItemErr))
    ensures forall x :: x in ValueBag(Remove(m, id).inventory) ==>
              x.identifier != Some(ItemIdentifier(id.sku))
  {
    var m' := Remove(m, id).inventory;
    forall x | x in ValueBag(m')
      ensures x.identifier != Some(ItemIdentifier(id.sku))
    {
      ValueBagMembers(m', x);
      var k :| k in m' && m'[k] == x;
    }
  }

  /** Taking stock out and putting the same amount back restores the map. */
  lemma DecreaseThenIncrease(m: Map, req: QuantityChangeRequest)
    requires DecreaseQuantity(m, req).result.Ok?
    ensures var m1 := DecreaseQuantity(m, req).inventory;
            IncreaseQuantity(m1, req).result.Ok? && IncreaseQuantity(m1, req).inventory == m
  {
  }

  /** Putting stock in and taking the same amount out restores the map. */
  lemma IncreaseThenDecrease(m: Map, req: QuantityChangeRequest)
    requires IncreaseQuantity(m, req).result.Ok?
    ensures var m1 := IncreaseQuantity(m, req).inventory;
            DecreaseQuantity(m1, req).result.Ok? && DecreaseQuantity(m1, req).inventory == m
  {
  }

  /** Repeating a successful price update is refused as unchanged. */
  lemma UpdatePriceTwice(m: Map, req: PriceChangeRequest)
    requires UpdatePrice(m, req).result.Ok?
    ensures var m1 := UpdatePrice(m, req).inventory;
            UpdatePrice(m1, req) == Outcome(Err(InvalidArgument(DupPriceErr)), m1)
  {
  }

  /** In a consistent store the internal-error branches are never taken. */
  lemma ConsistentNeverInternal(m: Map, q: QuantityChangeRequest, p: PriceChangeRequest)
    requires Consistent(m)
    ensures DecreaseQuantity(m, q).result != Err(Internal(NoStockErr))
    ensures IncreaseQuantity(m, q).result != Err(Internal(NoStockErr))
    ensures UpdatePrice(m, p).result != Err(Internal(NoStockErr))
  {
  }

  /** In a consistent store a quantity change with an empty SKU reports
      not-found: the existence check comes first and no record has an
      empty SKU. */
  lemma EmptySkuQuantityChangeIsNotFound(m: Map, q: QuantityChangeRequest)
    requires Consistent(m) && q.sku == ""
    ensures DecreaseQuantity(m, q) == Outcome(Err(NotFound(NoItemErr)), m)
    ensures IncreaseQuantity(m, q) == Outcome(Err(NotFound(NoItemErr)), m)
  {
  }

  /** A session on one record: add, get, sell three, refuse an unchanged
      price, change the price, remove, and find it gone. */
  lemma StoreScenario()
    ensures var id := ItemIdentifier("A1");
            var a := Item(Some(id), Some(Stock(10, 5.0)));
            var m1 := Add(map[], a).inventory;
            var m2 := DecreaseQuantity(m1, QuantityChangeRequest("A1", 3)).inventory;
            var m3 := UpdatePrice(m2, PriceChangeRequest("A1", 6.0)).inventory;
            && Add(map[], a).result == Ok(())
            && Get(m1, id) == Ok(a)
            && DecreaseQuantity(m1, QuantityChangeRequest("A1", 3)).result == Ok(InventoryUpdateResponse(5.0, 7))
            && UpdatePrice(m2, PriceChangeRequest("A1", 5.0)).result == Err(InvalidArgument(DupPriceErr))
            && UpdatePrice(m2, PriceChangeRequest("A1", 6.0)).result == Ok(InventoryUpdateResponse(6.0, 7))
            && Remove(m3, id).result == Ok(Removed)
            && Get(Remove(m3, id).inventory, id) == Err(NotFound(NoItemErr))
  {
  }
}
