# Inventory store and change watcher

A model of the in-memory inventory service of `src/server.rs`: the
`StoreInventory` object that keeps one map from SKU to `Item` and serves
`add`, `remove`, `get`, `get_all`, `decrease_quantity`, `increase_quantity`
and `update_price`, and the polling step of `watch`. The watch step re-reads
the SKU on every tick, stops with a terminal not-found when the record is
gone, and emits the record when it differs from the last snapshot.

Layout:

- `store.dfy` (module `Store`): the message types `Item`,
  `ItemIdentifier`, `Stock`, `QuantityChangeRequest`, `PriceChangeRequest`
  and `InventoryUpdateResponse`. It also holds the status kinds
  (invalid-argument, not-found, already-exists, internal), the error-message
  constants, and the `Result` a handler returns.
- `inventory.dfy` (module `Inventory`): every handler as a function from
  the map and the request to the answer and the new map. It also holds the
  store invariant `Consistent`, the multiset `ValueBag` that `get_all`
  returns, and the lemmas that relate several calls.
- `server.dfy` (module `Server`): class `StoreInventory` with the map as a
  field. Its methods run the checks in the source's order and change the
  field in place. Each is proved against the matching `Inventory` function,
  and each keeps the store invariant.
- `watch.dfy` (module `ChangeWatcher`): the tick as the step function
  `WatchTick`, the items sent over a run of ticks (`Emitted`), the polling
  loop `Poll`, and lemmas about the stream.

The watch task sees the store at each tick; other handlers may change it
in between. The model takes those states as a parameter, a sequence
`ticks` of maps. The task loops forever; the model covers any finite
prefix of its ticks.

The service's documented error table lists "empty SKU" among the failures
of the quantity updates. In the code that check comes after the lookup, and
the model follows the code: an empty SKU is reported as not-found whenever
no record has an empty SKU, which the store invariant guarantees
(`Inventory.EmptySkuQuantityChangeIsNotFound`).

## Model

| member | source | states |
|---|---|---|
| `Inventory.Add` | src/server.rs:41-71 | checks run in the order missing identifier, empty SKU, missing stock, price <= 0, SKU present, and each failure carries its own status and message; success iff the item is admissible and its SKU is new; then the record is inserted verbatim under its SKU and nothing else changes; any failure leaves the map unchanged; the store invariant is kept |
| `Inventory.Remove` | src/server.rs:73-92 | fails (invalid-argument, empty SKU) iff the SKU is empty, and then the map is unchanged; otherwise succeeds, the key is absent and every other entry is kept; the status is `Removed` iff the key was present, else `DidNotExist` |
| `Inventory.Get` | src/server.rs:94-111 | empty SKU gives invalid-argument, absent SKU gives not-found, otherwise the stored record itself |
| `Inventory.DecreaseQuantity` | src/server.rs:125-162 | error precedence not-found, internal (stock missing), empty SKU, zero amount, amount above quantity; success iff all pass; then only that record's quantity drops by the amount (price and identifier kept); the reply is the new stored price and quantity; errors leave the map unchanged; invariant kept |
| `Inventory.IncreaseQuantity` | src/server.rs:164-196 | same first four checks in the same order; success iff they pass; then only that record's quantity grows by the amount; reply is the new stored values; errors leave the map unchanged; invariant kept |
| `Inventory.UpdatePrice` | src/server.rs:198-234 | precedence empty SKU, price <= 0 (both before the map is read), not-found, internal, unchanged price; success iff all pass; then only that record's price changes; reply is the new stored values; errors leave the map unchanged; invariant kept |
| `Inventory.ValueBagRemove` | src/server.rs:117-119 | the multiset of values does not depend on which key is taken first, so any iteration order of the map collects the same items |
| `Inventory.ValueBagSize` | src/server.rs:117-119 | `get_all` returns exactly one item per stored SKU |
| `Inventory.ValueBagMembers` | src/server.rs:117-119 | an item is in `get_all`'s answer iff it is a stored record |
| `Inventory.AddThenGet` | src/server.rs:61-110 | after a successful add, get of that SKU returns an equal item |
| `Inventory.AddThenGetAll` | src/server.rs:61-119 | after a successful add, get_all returns the previous records plus the new one |
| `Inventory.DuplicateAddKeepsFirst` | src/server.rs:61-66 | a second add under the same SKU fails (already-exists when the second item is admissible), leaves the map unchanged, and get still returns the first record |
| `Inventory.RemoveThenLookup` | src/server.rs:79-119 | in a consistent store, remove of any non-empty SKU succeeds, even an absent one; afterwards get reports not-found and no item from get_all carries that SKU |
| `Inventory.DecreaseThenIncrease` | src/server.rs:149-189 | a successful decrease followed by an increase of the same amount succeeds and restores the map exactly |
| `Inventory.IncreaseThenDecrease` | src/server.rs:149-189 | a successful increase followed by a decrease of the same amount succeeds and restores the map exactly |
| `Inventory.UpdatePriceTwice` | src/server.rs:223-227 | repeating a successful price update fails with the unchanged-price error and changes nothing |
| `Inventory.ConsistentNeverInternal` | src/server.rs:136-221 | in a store that satisfies the invariant, no quantity or price update answers internal (missing stock) |
| `Inventory.EmptySkuQuantityChangeIsNotFound` | src/server.rs:131-143 | in a consistent store, a decrease or increase with an empty SKU answers not-found and changes nothing |
| `Inventory.StoreScenario` | src/server.rs:41-234 | add A1 (10 at 5.0), get it back, decrease by 3 to (5.0, 7), unchanged price refused, price 6.0 gives (6.0, 7), remove reports removed, get then reports not-found |
| `ChangeWatcher.WatchTick` | src/server.rs:252-270 | stops iff the SKU is absent; otherwise the new snapshot is the current record, and the current record is emitted iff it differs from the old snapshot |
| `ChangeWatcher.Emitted` | src/server.rs:249-271 | at most one stream item per tick; an error item can only be the last one, and it is the terminal not-found |
| `ChangeWatcher.EmittedNoRepeats` | src/server.rs:263-270 | the first emitted item differs from the initial snapshot and no two consecutive stream items are equal |
| `ChangeWatcher.GoneIffAbsent` | src/server.rs:253-261 | the terminal not-found is sent iff some tick found the SKU absent; a record removed and re-added between ticks never ends the stream |
| `ChangeWatcher.StopsAtFirstAbsence` | src/server.rs:253-261 | at the first tick where the SKU is absent the stream gets the terminal item and nothing more, whatever later ticks hold |
| `ChangeWatcher.EmittedWereStored` | src/server.rs:253-270 | every emitted record was the stored record at some tick |
| `ChangeWatcher.SubscriberIsCurrent` | src/server.rs:263-270 | while the record exists, applying the emitted items to the initial snapshot yields the record stored at the last tick |
| `ChangeWatcher.Poll` | src/server.rs:248-272 | the polling loop sends exactly `Emitted` for the ticks it runs |
| `ChangeWatcher.WatchScenario` | src/server.rs:249-270 | an unchanged tick emits nothing, a quantity change to 9 emits one event, a later equal tick emits nothing, removal emits the terminal not-found |
| `Server.StoreInventory.constructor` | src/server.rs:31-37 | the store starts empty and consistent |
| `Server.StoreInventory.Add` | src/server.rs:41-71 | the answer and the new map are those of `Inventory.Add` on the old map; the invariant is kept |
| `Server.StoreInventory.Remove` | src/server.rs:73-92 | the answer and the new map are those of `Inventory.Remove`; invariant kept |
| `Server.StoreInventory.Get` | src/server.rs:94-111 | answers `Inventory.Get` on the current map |
| `Server.StoreInventory.GetAll` | src/server.rs:113-123 | the collected items, as a multiset, are the map's values (one per key) |
| `Server.StoreInventory.DecreaseQuantity` | src/server.rs:125-162 | answer and new map are those of `Inventory.DecreaseQuantity`; invariant kept |
| `Server.StoreInventory.IncreaseQuantity` | src/server.rs:164-196 | answer and new map are those of `Inventory.IncreaseQuantity`; invariant kept |
| `Server.StoreInventory.UpdatePrice` | src/server.rs:198-234 | answer and new map are those of `Inventory.UpdatePrice`; invariant kept |
| `Server.StoreInventory.Watch` | src/server.rs:238-276 | the subscription fails iff get fails now, with get's status; otherwise the stream carries exactly the items the polling loop emits from the current record over the given ticks |

## Left out

- Concurrency: the `Arc<Mutex<…>>`, `async` and `tokio::spawn` are not modelled. Each handler runs as one atomic step, which is what the exclusive lock provides.
- The one-second sleep between ticks is not modelled. The states of the store at successive ticks are a parameter (`ticks`), and the endless loop is modelled over a finite prefix of them.
- The `mpsc` channel, the stream wrapper, the handling of a failed send (the task stops when the subscriber has gone) and the `println!` logging are not modelled. Emitted items are returned as a sequence.
- The tonic `Request`/`Response`/`Status` wrappers and the exact status strings are not modelled. Status kinds and message constants stand for them. Remove's two status strings, one of them misspelt, become `Removed` and `DidNotExist`. The constant "success" of the other replies is dropped.
- Floating-point price: prices are real numbers. NaN and rounding are not modelled; the code only compares prices.
- Quantity width: quantities are unbounded naturals. The overflow of `increase_quantity` on the protobuf integer type is not modelled.
- `get_all` order: the map's iteration order is unspecified, so the answer is specified as a multiset of the stored records.
