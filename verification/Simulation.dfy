/** The simulated network as an object: devices with a fake clipboard, and a queue of messages. */
module Simulation {
  import opened Wrappers
  import opened Content
  import opened Sync
  import opened SyncObjects
  import SyncNet

  class SimDevice {
    const engine: SyncEngine
    var clipboard: Option<Content>
    var writes: nat

    ghost function Value(): SyncNet.Device
      reads this, engine, engine.seen
    {
      SyncNet.Device(engine.Value(), clipboard, writes)
    }

    constructor (device: DeviceId)
      ensures Value() == SyncNet.Device(NewEngine(device), None, 0)
      ensures engine.Valid() && fresh(engine) && fresh(engine.seen)
    {
      engine := new SyncEngine(device);
      clipboard, writes := None, 0;
    }
  }

  class SimNetwork {
    const devices: seq<SimDevice>
    var inFlight: seq<SyncNet.Message>
    var sent: nat

    /** No two devices share any part. */
    ghost predicate Valid() {
      && (forall i :: 0 <= i < |devices| ==> devices[i].engine.Valid())
      && (forall i, j :: 0 <= i < j < |devices| ==>
            devices[i] != devices[j] && devices[i].engine != devices[j].engine
                && devices[i].engine.seen != devices[j].engine.seen)
    }

    ghost function Parts(): set<object> {
      (set i | 0 <= i < |devices| :: devices[i] as object) +
      (set i | 0 <= i < |devices| :: devices[i].engine as object) +
      (set i | 0 <= i < |devices| :: devices[i].engine.seen as object)
    }

    ghost function Values(): seq<SyncNet.Device>
      reads Parts()
    {
      seq(|devices|, i requires 0 <= i < |devices| reads Parts() => devices[i].Value())
    }

    ghost function Value(): SyncNet.Network
      reads this, Parts()
    {
      SyncNet.Network(Values(), inFlight, sent)
    }

    method Broadcast(from: nat, item: Item)
      modifies this`inFlight, this`sent
      ensures Value() == SyncNet.Broadcast(old(Value()), from, item)
    {
      for to := 0 to |devices|
        invariant inFlight == old(inFlight) + SyncNet.Others(to, from, item)
        invariant sent == old(sent) + |SyncNet.Others(to, from, item)|
      {
        if to != from {
          inFlight := inFlight + [SyncNet.Message(to, item)];
          sent := sent + 1;
        }
      }
    }

    method SetClipboard(at: nat, content: Content, id: ItemId, now: int)
      requires Valid() && at < |devices|
      modifies this`inFlight, this`sent, devices[at], devices[at].engine, devices[at].engine.seen
      ensures Value() == SyncNet.SetClipboard(old(Value()), at, content, id, now)
    {
      var device := devices[at];
      if device.clipboard == Some(content) {
        return;
      }
      device.clipboard := Some(content);
      var change := device.engine.OnLocalChange(content, id, now);
      assert Values() == old(Values())[at := device.Value()];
      match change
      case Copied(item) => Broadcast(at, item);
      case Echo(_) =>
    }

    method Receive(to: nat, item: Item, id: ItemId, now: int)
      requires Valid() && to < |devices|
      modifies this`inFlight, this`sent, devices[to], devices[to].engine, devices[to].engine.seen
      ensures Value() == SyncNet.Receive(old(Value()), to, item, id, now)
    {
      var action := devices[to].engine.OnRemoteItem(item);
      match action
      case Write(content) =>
        devices[to].writes := devices[to].writes + 1;
        assert Values() == old(Values())[to := devices[to].Value()];
        SetClipboard(to, content, id, now);
      case Ignore(_) =>
        assert Values() == old(Values())[to := devices[to].Value()];
    }

    /** Delivers the oldest message, if there is one. */
    method DeliverOne(id: ItemId, now: int) returns (delivered: bool)
      requires Valid() && forall m :: m in inFlight ==> m.to < |devices|
      modifies this, Parts()
      ensures delivered == (old(inFlight) != [])
      ensures !delivered ==> Value() == old(Value())
      ensures delivered ==> Value() == SyncNet.After(old(Value()), SyncNet.Deliver(0, false, id, now))
    {
      if inFlight == [] {
        return false;
      }
      var m := inFlight[0];
      assert m in inFlight && devices[m.to] in devices;
      inFlight := inFlight[1..];
      assert inFlight == old(inFlight)[..0] + old(inFlight)[1..];
      Receive(m.to, m.item, id, now);
      return true;
    }

    /** Delivers everything. Whatever led here, this takes exactly as many deliveries as messages were
        in flight, since none causes another. */
    method Settle(id: ItemId, now: int, ghost copies: nat) returns (deliveries: nat)
      requires Valid() && SyncNet.Quiet(Value(), copies)
      modifies this, Parts()
      ensures deliveries == |old(inFlight)|
      ensures SyncNet.Quiet(Value(), copies) && inFlight == [] && sent == old(sent)
    {
      deliveries := 0;
      while true
        invariant SyncNet.Quiet(Value(), copies) && sent == old(sent)
        invariant deliveries + |inFlight| == |old(inFlight)|
        decreases |inFlight|
      {
        ghost var before := Value();
        assert forall m :: m in inFlight ==> m in before.inFlight;
        var delivered := DeliverOne(id, now);
        if !delivered {
          assert inFlight == Value().inFlight;
          return;
        }
        SyncNet.StepKeepsQuiet(before, SyncNet.Deliver(0, false, id, now), copies);
        assert inFlight == Value().inFlight && sent == Value().sent;
        deliveries := deliveries + 1;
      }
    }
  }
}
