/** The change watcher: one poll of the watched SKU per tick, compared with
    the last snapshot by full value equality. `ticks` stands for the
    successive states of the store that the background task sees; other
    handlers may change the store between two ticks. */
module ChangeWatcher {
  import opened Store
  import opened Inventory

  /** What one tick decides: stop the stream, or keep polling with a new
      snapshot, having emitted the refreshed record or nothing. */
  datatype Tick = Terminate | Continue(emitted: Option<Item>, snapshot: Item)

  /** The terminal stream item sent when the watched record is gone. */
  const Gone: Result<Item> := Err(NotFound(NoItemErr))

  /** One tick: re-read the SKU; if absent stop; if the record differs from
      the snapshot emit it; the snapshot becomes the current record. */
  function WatchTick(sku: string, snapshot: Item, store: Map): (t: Tick)
    ensures t.Terminate? <==> sku !in store
    ensures t.Continue? ==> t.snapshot == store[sku]
    ensures t.Continue? ==> (t.emitted.Some? <==> store[sku] != snapshot)
    ensures t.Continue? && t.emitted.Some? ==> t.emitted.value == t.snapshot
  {
    if sku !in store then Terminate
    else
      var refresh := store[sku];
      Continue(if refresh != snapshot then Some(refresh) else None, refresh)
  }

  /** The stream items one tick adds. */
  function TickEvents(t: Tick): seq<Result<Item>> {
    match t
    case Terminate => [Gone]
    case Continue(e, _) => if e.Some? then [Ok(e.value)] else []
  }

  /** The stream items sent over the ticks `ticks`, starting from `snapshot`.
      At most one item per tick; only the last one can be an error, and then
      it is the terminal not-found. */
  function Emitted(sku: string, snapshot: Item, ticks: seq<Map>): (events: seq<Result<Item>>)
    ensures |events| <= |ticks|
    ensures forall i :: 0 <= i < |events| && events[i].Err? ==> i == |events| - 1 && events[i] == Gone
    decreases |ticks|
  {
    if ticks == [] then []
    else
      var t := WatchTick(sku, snapshot, ticks[0]);
      match t
      case Terminate => [Gone]
      case Continue(_, next) => TickEvents(t) + Emitted(sku, next, ticks[1..])
  }

  /** The record a subscriber believes current after reading `events`,
      starting from `snapshot`. */
  function LastSeen(snapshot: Item, events: seq<Result<Item>>): Item
    decreases |events|
  {
    if events == [] then snapshot
    else LastSeen(if events[0].Ok? then events[0].value else snapshot, events[1..])
  }

  /** One tick of the polling loop keeps its invariant: the items sent so
      far followed by what the remaining ticks send are the whole stream. */
  lemma PollStep(sku: string, initial: Item, ticks: seq<Map>, i: nat, item: Item, events: seq<Result<Item>>)
    requires i < |ticks|
    requires events + Emitted(sku, item, ticks[i..]) == Emitted(sku, initial, ticks)
    ensures var t := WatchTick(sku, item, ticks[i]);
            if t.Terminate? then events + [Gone] == Emitted(sku, initial, ticks)
            else (events + TickEvents(t)) + Emitted(sku, t.snapshot, ticks[i + 1..]) == Emitted(sku, initial, ticks)
  {
  }

  /** Never two equal items in a row, and the first item differs from the
      snapshot the subscription started with. */
  lemma {:induction false} EmittedNoRepeats(sku: string, snapshot: Item, ticks: seq<Map>)
    ensures var ev := Emitted(sku, snapshot, ticks);
            && (|ev| > 0 ==> ev[0] != Ok(snapshot))
            && forall i :: 0 < i < |ev| ==> ev[i - 1] != ev[i]
    decreases |ticks|
  {
    if ticks != [] {
      var t := WatchTick(sku, snapshot, ticks[0]);
      if t.Continue? {
        EmittedNoRepeats(sku, t.snapshot, ticks[1..]);
        var rest := Emitted(sku, t.snapshot, ticks[1..]);
        var ev := Emitted(sku, snapshot, ticks);
        assert ev == TickEvents(t) + rest;
        if t.emitted.Some? {
          assert ev == [Ok(t.snapshot)] + rest;
          forall i | 0 < i < |ev| ensures ev[i - 1] != ev[i] {
            if i > 1 { assert ev[i - 1] == rest[i - 2] && ev[i] == rest[i - 1]; }
          }
        }
      }
    }
  }

  /** The stream ends with the terminal not-found exactly when some tick
      found the SKU absent; a record removed and re-added between two ticks
      never ends it. */
  lemma {:induction false} GoneIffAbsent(sku: string, snapshot: Item, ticks: seq<Map>)
    ensures Gone in Emitted(sku, snapshot, ticks) <==> exists j :: 0 <= j < |ticks| && sku !in ticks[j]
    decreases |ticks|
  {
    if ticks != [] {
      var t := WatchTick(sku, snapshot, ticks[0]);
      if t.Continue? {
        GoneIffAbsent(sku, t.snapshot, ticks[1..]);
        assert Gone !in TickEvents(t);
        if exists j :: 0 <= j < |ticks| && sku !in ticks[j] {
          var j :| 0 <= j < |ticks| && sku !in ticks[j];
          assert ticks[1..][j - 1] == ticks[j];
        }
      }
    }
  }

  /** At the first tick that finds the SKU absent the stream emits its
      terminal item and stops: later ticks add nothing. */
  lemma {:induction false} StopsAtFirstAbsence(sku: string, snapshot: Item, ticks: seq<Map>, j: nat)
    requires j < |ticks| && sku !in ticks[j]
    requires forall i :: 0 <= i < j ==> sku in ticks[i]
    ensures Emitted(sku, snapshot, ticks) == Emitted(sku, snapshot, ticks[..j]) + [Gone]
    decreases j
  {
    if j > 0 {
      var t := WatchTick(sku, snapshot, ticks[0]);
      assert ticks[..j][0] == ticks[0];
      assert ticks[..j][1..] == ticks[1..][..j - 1];
      StopsAtFirstAbsence(sku, t.snapshot, ticks[1..], j - 1);
    }
  }

  /** Every item emitted was the stored record at some tick. */
  lemma {:induction false} EmittedWereStored(sku: string, snapshot: Item, ticks: seq<Map>, i: nat)
    requires i < |Emitted(sku, snapshot, ticks)| && Emitted(sku, snapshot, ticks)[i].Ok?
    ensures exists j :: 0 <= j < |ticks| && sku in ticks[j] && ticks[j][sku] == Emitted(sku, snapshot, ticks)[i].value
    decreases |ticks|
  {
    var t := WatchTick(sku, snapshot, ticks[0]);
    var ev := Emitted(sku, snapshot, ticks);
    var rest := Emitted(sku, t.snapshot, ticks[1..]);
    if t.emitted.Some? && i == 0 {
      assert ticks[0][sku] == ev[0].value;
    } else {
      var k := if t.emitted.Some? then i - 1 else i;
      assert ev[i] == rest[k];
      EmittedWereStored(sku, t.snapshot, ticks[1..], k);
      var j :| 0 <= j < |ticks[1..]| && sku in ticks[1..][j] && ticks[1..][j][sku] == rest[k].value;
      assert ticks[j + 1] == ticks[1..][j];
    }
  }

  /** Reading the events of one tick leaves the subscriber at the new
      snapshot. */
  lemma LastSeenTick(snapshot: Item, t: Tick, rest: seq<Result<Item>>)
    requires t.Continue? && (t.emitted.Some? <==> t.snapshot != snapshot)
    requires t.emitted.Some? ==> t.emitted.value == t.snapshot
    ensures LastSeen(snapshot, TickEvents(t) + rest) == LastSeen(t.snapshot, rest)
  {
    var ev := TickEvents(t) + rest;
    if t.emitted.Some? {
      assert ev[0] == Ok(t.snapshot) && ev[1..] == rest;
    } else {
      assert ev == rest;
    }
  }

  /** While the record exists, a subscriber that applies every emitted item
      to its starting snapshot holds the record as stored at the last tick. */
  lemma {:induction false} SubscriberIsCurrent(sku: string, snapshot: Item, ticks: seq<Map>)
    requires |ticks| > 0
    requires forall j :: 0 <= j < |ticks| ==> sku in ticks[j]
    ensures LastSeen(snapshot, Emitted(sku, snapshot, ticks)) == ticks[|ticks| - 1][sku]
    decreases |ticks|
  {
    var t := WatchTick(sku, snapshot, ticks[0]);
    var rest := Emitted(sku, t.snapshot, ticks[1..]);
    LastSeenTick(snapshot, t, rest);
    if |ticks| > 1 {
      SubscriberIsCurrent(sku, t.snapshot, ticks[1..]);
    }
  }

  /** The polling loop of the background task, over the ticks it gets to
      run; it leaves the loop when the record has disappeared. */
  method Poll(sku: string, initial: Item, ticks: seq<Map>) returns (events: seq<Result<Item>>)
    ensures events == Emitted(sku, initial, ticks)
  {
    var item := initial;
    events := [];
    var i := 0;
    while i < |ticks|
      invariant 0 <= i <= |ticks|
      invariant events + Emitted(sku, item, ticks[i..]) == Emitted(sku, initial, ticks)
    {
      var t := WatchTick(sku, item, ticks[i]);
      PollStep(sku, initial, ticks, i, item, events);
      if t.Terminate? {
        events := events + [Gone];
        return;
      }
      if t.emitted.Some? {
        events := events + [Ok(t.emitted.value)];
      }
      item := t.snapshot;
      i := i + 1;
    }
  }

  /** The watch scenario: a record that is left alone, then sold down by
      one, then removed, yields one change event and the terminal item. */
  lemma WatchScenario()
    ensures var a10 := Item(Some(ItemIdentifier("A1")), Some(Stock(10, 5.0)));
            var a9 := Item(Some(ItemIdentifier("A1")), Some(Stock(9, 5.0)));
            Emitted("A1", a10, [map["A1" := a10], map["A1" := a9], map["A1" := a9], map[]])
              == [Ok(a9), Gone]
  {
    var a10 := Item(Some(ItemIdentifier("A1")), Some(Stock(10, 5.0)));
    var a9 := Item(Some(ItemIdentifier("A1")), Some(Stock(9, 5.0)));
    var ticks := [map["A1" := a10], map["A1" := a9], map["A1" := a9], map[]];
    assert a9 != a10 by { assert a9.stock.value.quantity != a10.stock.value.quantity; }
    assert Emitted("A1", a9, ticks[3..]) == [Gone];
    assert Emitted("A1", a9, ticks[2..]) == [Gone] by { assert ticks[2..][1..] == ticks[3..]; }
    assert Emitted("A1", a10, ticks[1..]) == [Ok(a9), Gone] by { assert ticks[1..][1..] == ticks[2..]; }
  }
}
