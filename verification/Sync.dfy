/** Deciding what to broadcast and what to apply, on one device
    (`crates/cled-sync/src/engine.rs`, `recent.rs`, `item.rs`). Values and functions; the objects
    are in `SyncEngine.dfy`. */
module Sync {
  import opened Wrappers
  import opened Content

  type DeviceId = nat
  type ItemId = nat

  const RECENT_ITEMS: nat := 1000

  /** A copy, as it travels between devices. `hash` is what the sender says its content hashes to. */
  datatype Item = Item(id: ItemId, origin: DeviceId, hash: Identity, createdAt: int, content: Content)

  predicate IsIntact(x: Item) {
    IdentityOf(x.content) == x.hash
  }

  /** A copy made on `origin` now, under a new ID. */
  function NewItem(origin: DeviceId, content: Content, id: ItemId, now: int): Item {
    Item(id, origin, IdentityOf(content), now, content)
  }

  datatype Stamp = Stamp(at: int, id: ItemId)

  function StampOf(x: Item): Stamp {
    Stamp(x.createdAt, x.id)
  }

  /** By time, ties by item ID. */
  predicate Before(a: Stamp, b: Stamp) {
    a.at < b.at || (a.at == b.at && a.id < b.id)
  }

  datatype Current = Current(hash: Identity, stamp: Stamp)

  function CurrentOf(x: Item): Current {
    Current(x.hash, StampOf(x))
  }

  predicate IsNewerThan(c: Current, x: Item) {
    Before(StampOf(x), c.stamp)
  }

  // ---- Recently seen IDs ----

  datatype Recent = Recent(order: seq<ItemId>, members: set<ItemId>)

  /** Adds `v`, forgetting the oldest beyond `capacity`. The flag tells whether it was new. */
  function Insert(r: Recent, capacity: nat, v: ItemId): (Recent, bool) {
    if v in r.members then (r, false)
    else
      var order := r.order + [v];
      if |order| > capacity then (Recent(order[1..], r.members + {v} - {order[0]}), true)
      else (Recent(order, r.members + {v}), true)
  }

  ghost predicate RecentValid(r: Recent, capacity: nat) {
    && |r.order| <= capacity
    && (forall v :: v in r.members <==> v in r.order)
    && (forall i, j :: 0 <= i < j < |r.order| ==> r.order[i] != r.order[j])
  }

  /** The set is always the last distinct values inserted, at most `capacity` of them. */
  lemma InsertKeepsNewest(r: Recent, capacity: nat, v: ItemId)
    requires RecentValid(r, capacity) && capacity > 0
    ensures RecentValid(Insert(r, capacity, v).0, capacity)
    ensures v in Insert(r, capacity, v).0.members
    ensures forall u :: u in r.members && u != v ==>
      (u !in Insert(r, capacity, v).0.members <==> v !in r.members && |r.order| == capacity && u == r.order[0])
    ensures forall u :: u in Insert(r, capacity, v).0.members ==> u == v || u in r.members
  {
    if v !in r.members {
      var order := r.order + [v];
      assert forall i :: 0 <= i < |r.order| ==> order[i] == r.order[i];
      if |order| > capacity {
        assert forall u :: u in order[1..] <==> u in order && u != order[0] by {
          forall u | u in order && u != order[0]
            ensures u in order[1..]
          {
            var i :| 0 <= i < |order| && order[i] == u;
            assert order[1..][i - 1] == u;
          }
        }
      }
    }
  }

  // ---- The engine ----

  datatype Engine = Engine(device: DeviceId, seen: Recent, pending: Option<Item>, current: Option<Current>)

  function NewEngine(device: DeviceId): Engine {
    Engine(device, Recent([], {}), None, None)
  }

  datatype LocalChange = Copied(item: Item) | Echo(item: Item)

  datatype Ignored = OwnItem | Duplicate | Corrupt | AlreadyOnClipboard | Stale

  datatype RemoteItem = Write(content: Content) | Ignore(reason: Ignored)

  /** The local clipboard changed; `id` and `now` are what a new item would get. */
  function OnLocalChange(e: Engine, content: Content, id: ItemId, now: int): (Engine, LocalChange) {
    var hash := IdentityOf(content);
    if e.pending.Some? && e.pending.value.hash == hash then
      (e.(pending := None, current := Some(CurrentOf(e.pending.value))), Echo(e.pending.value))
    else
      var item := NewItem(e.device, content, id, now);
      (e.(pending := None, seen := Insert(e.seen, RECENT_ITEMS, id).0, current := Some(CurrentOf(item))), Copied(item))
  }

  function OnRemoteItem(e: Engine, x: Item): (Engine, RemoteItem) {
    if x.origin == e.device then (e, Ignore(OwnItem))
    else if !IsIntact(x) then (e, Ignore(Corrupt))
    else
      var (seen, isNew) := Insert(e.seen, RECENT_ITEMS, x.id);
      var e1 := e.(seen := seen);
      if !isNew then (e1, Ignore(Duplicate))
      else if e.current.Some? && IsNewerThan(e.current.value, x) then (e1, Ignore(Stale))
      else if e.current.Some? && e.current.value.hash == x.hash then
        (e1.(current := Some(CurrentOf(x))), Ignore(AlreadyOnClipboard))
      else (e1.(pending := Some(x)), Write(x.content))
  }

  function OnWriteFailed(e: Engine): Engine {
    e.(pending := None)
  }

  /** A failed write leaves no echo to expect: the next change of the clipboard, even to the content
      that could not be written, is a copy of this device, and until then it holds what it held. */
  lemma FailedWriteIsForgotten(e: Engine, x: Item, content: Content, id: ItemId, now: int)
    requires OnRemoteItem(e, x).1.Write?
    ensures var e1 := OnWriteFailed(OnRemoteItem(e, x).0);
      && e1.current == e.current
      && OnLocalChange(e1, content, id, now).1 == Copied(NewItem(e.device, content, id, now))
  {
  }

  /** The device already holds `x` itself or something newer. */
  predicate Has(e: Engine, x: Item) {
    e.current.Some? && (e.current.value == CurrentOf(x) || Before(StampOf(x), e.current.value.stamp))
  }

  /** Redelivery is harmless, even after the ID has been forgotten: a device that holds `x` or
      something newer neither writes nor changes what it holds. */
  lemma RedeliveryHarmless(e: Engine, x: Item)
    requires Has(e, x)
    ensures OnRemoteItem(e, x).1.Ignore?
    ensures OnRemoteItem(e, x).0.current == e.current && OnRemoteItem(e, x).0.pending == e.pending
  {
  }

  /** The write of a remote item and its echo, with nothing in between. */
  lemma WriteThenEcho(e: Engine, x: Item, id: ItemId, now: int)
    requires OnRemoteItem(e, x).1.Write?
    ensures var (e1, w) := OnRemoteItem(e, x);
      var (e2, change) := OnLocalChange(e1, w.content, id, now);
      && w.content == x.content && change == Echo(x)
      && e2.pending == None && e2.current == Some(CurrentOf(x)) && e2.seen == e1.seen
  {
  }

  /** With another item arriving between a write and its echo, the echo is taken for a new copy of
      this device and would be broadcast, whichever of the two items is newer. */
  lemma InterleavedEchoIsMistaken(e: Engine, x: Item, y: Item, id: ItemId, now: int)
    requires x.hash != y.hash && OnRemoteItem(e, x).1.Write?
    requires OnRemoteItem(OnRemoteItem(e, x).0, y).1.Write?
    ensures var e2 := OnRemoteItem(OnRemoteItem(e, x).0, y).0;
      OnLocalChange(e2, x.content, id, now).1 == Copied(NewItem(e.device, x.content, id, now))
  {
  }
}
