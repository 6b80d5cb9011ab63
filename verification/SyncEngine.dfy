/** The engine and its set of recently seen IDs, changed in place. */
module SyncObjects {
  import opened Wrappers
  import opened Content
  import opened Sync

  class RecentSet {
    var order: seq<ItemId>
    var members: set<ItemId>
    const capacity: nat

    ghost function Value(): Recent
      reads this
    {
      Recent(order, members)
    }

    constructor (capacity: nat)
      ensures Value() == Recent([], {}) && this.capacity == capacity
    {
      order, members := [], {};
      this.capacity := capacity;
    }

    /** Adds `v`. Returns whether it was new. */
    method Insert(v: ItemId) returns (isNew: bool)
      modifies this
      ensures (Value(), isNew) == Sync.Insert(old(Value()), capacity, v)
    {
      if v in members {
        return false;
      }
      members := members + {v};
      order := order + [v];
      if |order| > capacity {
        var oldest := order[0];
        order := order[1..];
        members := members - {oldest};
      }
      return true;
    }
  }

  class SyncEngine {
    const device: DeviceId
    const seen: RecentSet
    var pending: Option<Item>
    var current: Option<Current>

    ghost function Value(): Engine
      reads this, seen
    {
      Engine(device, seen.Value(), pending, current)
    }

    ghost predicate Valid() {
      seen.capacity == RECENT_ITEMS
    }

    constructor (device: DeviceId)
      ensures Valid() && Value() == NewEngine(device)
      ensures fresh(seen)
    {
      this.device := device;
      seen := new RecentSet(RECENT_ITEMS);
      pending, current := None, None;
    }

    method OnLocalChange(content: Content, id: ItemId, now: int) returns (change: LocalChange)
      requires Valid()
      modifies this, seen
      ensures (Value(), change) == Sync.OnLocalChange(old(Value()), content, id, now)
    {
      var hash := IdentityOf(content);
      var taken := pending;
      pending := None;
      if taken.Some? && taken.value.hash == hash {
        current := Some(CurrentOf(taken.value));
        return Echo(taken.value);
      }
      var item := NewItem(device, content, id, now);
      var _ := seen.Insert(item.id);
      current := Some(CurrentOf(item));
      return Copied(item);
    }

    method OnRemoteItem(x: Item) returns (action: RemoteItem)
      requires Valid()
      modifies this, seen
      ensures (Value(), action) == Sync.OnRemoteItem(old(Value()), x)
    {
      if x.origin == device {
        return Ignore(OwnItem);
      }
      if !IsIntact(x) {
        return Ignore(Corrupt);
      }
      var isNew := seen.Insert(x.id);
      if !isNew {
        return Ignore(Duplicate);
      }
      if current.Some? {
        if IsNewerThan(current.value, x) {
          return Ignore(Stale);
        }
        if current.value.hash == x.hash {
          current := Some(CurrentOf(x));
          return Ignore(AlreadyOnClipboard);
        }
      }
      pending := Some(x);
      return Write(x.content);
    }

    method OnWriteFailed()
      modifies this`pending
      ensures Value() == Sync.OnWriteFailed(old(Value()))
    {
      pending := None;
    }
  }
}
