/** What the devices of a network have had: every copy made has reached each device or is on its way
    there, and a device goes on having what it has unless it copies with a clock that is behind. */
module SyncSteps {
  import opened Wrappers
  import opened Content
  import opened Sync
  import opened SyncNet

  // ---- Steps ----

  /** A new item gets an ID of its own; a message that is not in flight is a corrupted one, or a
      duplicate of one sent before. */
  predicate Fair(net: Network, issued: set<Item>, step: Step) {
    && Possible(net, step)
    && (IsCopy(net, step) ==> forall x :: x in issued ==> x.id != step.id)
    && (step.Stray? ==>
          || !IsIntact(step.item)
          || (step.item in issued && step.item.origin != net.devices[step.to].engine.device))
  }

  /** The items made so far. */
  function Issued(net: Network, issued: set<Item>, step: Step): set<Item>
    requires Possible(net, step)
  {
    if IsCopy(net, step) then issued + {NewItem(net.devices[step.at].engine.device, step.content, step.id, step.now)}
    else issued
  }

  /** A copy stamped no later than what the device holds: its clock is behind. */
  predicate CopiesBack(net: Network, step: Step, i: nat)
    requires Possible(net, step)
  {
    && IsCopy(net, step) && step.at == i
    && net.devices[i].engine.current.Some?
         && !Before(net.devices[i].engine.current.value.stamp, Stamp(step.now, step.id))
  }

  // ---- What every step keeps ----

  ghost function Ids(issued: set<Item>): set<ItemId> {
    set x | x in issued :: x.id
  }

  ghost predicate ItemsOk(issued: set<Item>) {
    && (forall x :: x in issued ==> IsIntact(x))
    && (forall x, y :: x in issued && y in issued && x.id == y.id ==> x == y)
  }

  /** The issued items a device has, or has something newer than. */
  ghost function Having(e: Engine, issued: set<Item>): set<Item> {
    set x | x in issued && Has(e, x)
  }

  /** What a device holds is an issued item; all it has seen it has had, as items of `had`. */
  ghost predicate DeviceOk(d: Device, issued: set<Item>, had: set<Item>) {
    && DeviceQuiet(d)
    && (d.engine.current.Some? ==> exists x :: x in issued && d.engine.current.value == CurrentOf(x))
    && (forall x :: x in issued && x.id in d.engine.seen.members ==> x in had)
    && Having(d.engine, issued) <= had <= issued
    && d.engine.seen.members <= Ids(issued)
  }

  ghost predicate Inv(net: Network, issued: set<Item>, had: seq<set<Item>>) {
    && ItemsOk(issued) && |had| == |net.devices|
    && (forall i :: 0 <= i < |net.devices| ==> DeviceOk(net.devices[i], issued, had[i]))
    && (forall i, j :: 0 <= i < j < |net.devices| ==> net.devices[i].engine.device != net.devices[j].engine.device)
    && (forall m :: m in net.inFlight ==>
          m.to < |net.devices| && m.item in issued && m.item.origin != net.devices[m.to].engine.device)
    && Delivered(net, issued, had)
  }

  /** Every device has had each issued item, or it is on its way there. */
  ghost predicate Delivered(net: Network, issued: set<Item>, had: seq<set<Item>>)
    requires |had| == |net.devices|
  {
    forall i, x :: 0 <= i < |net.devices| && x in issued ==> x in had[i] || Message(i, x) in net.inFlight
  }

  /** What the devices have had once they have also what they have in `net`. */
  ghost function HadNow(net: Network, issued: set<Item>, had: seq<set<Item>>): seq<set<Item>>
    requires |had| == |net.devices|
  {
    seq(|had|, i requires 0 <= i < |had| => had[i] + Having(net.devices[i].engine, issued))
  }

  // ---- Deliveries ----

  /** A delivery makes a device have the item, or finds that it had; and it goes on having all it has. */
  lemma ReceiveEffect(d: Device, issued: set<Item>, had: set<Item>, x: Item, net: Network, to: nat, id: ItemId,
                      now: int)
    requires ItemsOk(issued) && DeviceOk(d, issued, had) && to < |net.devices| && net.devices[to] == d
    requires x in issued ==> x.origin != d.engine.device
    requires x in issued || !IsIntact(x)
    ensures var d' := Receive(net, to, x, id, now).devices[to];
      && DeviceOk(d', issued, had + Having(d'.engine, issued))
      && (x in issued ==> x in had + Having(d'.engine, issued))
      && Having(d.engine, issued) <= Having(d'.engine, issued)
      && (x !in issued || Has(d.engine, x) ==> d'.(engine := d.engine) == d && d'.engine.current == d.engine.current)
  {
    var e := d.engine;
    var e' := Receive(net, to, x, id, now).devices[to].engine;
    ReceiveIsQuiet(net, to, x, id, now);
    if OnRemoteItem(e, x).1.Write? {
      assert e.current.Some? ==> d.clipboard != Some(x.content);
      WriteThenEcho(e, x, id, now);
    }
    if x in issued {
      forall y | y in issued && Has(e, y) ensures Has(e', y) {
        NewerStillHas(e, e', y);
      }
      forall y | y in issued && y.id in e'.seen.members ensures y in had + Having(e', issued) {
        assert y.id == x.id ==> y == x;
      }
    }
  }

  /** Holding on to what is held or taking something not older keeps everything it had. */
  lemma NewerStillHas(e: Engine, e': Engine, y: Item)
    requires Has(e, y) && e'.current.Some?
    requires e'.current == e.current || !Before(e'.current.value.stamp, e.current.value.stamp)
    requires e'.current != e.current ==> e'.current.value.stamp != e.current.value.stamp
    ensures Has(e', y)
  {
  }

  lemma DeliverKeepsInv(net: Network, issued: set<Item>, had: seq<set<Item>>, k: nat, keep: bool, id: ItemId, now: int)
    requires Inv(net, issued, had) && k < |net.inFlight|
    ensures Possible(net, Deliver(k, keep, id, now))
    ensures var net' := After(net, Deliver(k, keep, id, now));
      |net'.devices| == |net.devices| && Inv(net', issued, HadNow(net', issued, had))
  {
    var m := net.inFlight[k];
    assert m in net.inFlight;
    var net1 := net.(inFlight := Left(net.inFlight, k, keep));
    LeftKeepsOthers(net.inFlight, k, keep);
    ReceiveKeepsInv(net1, net, issued, had, m.to, m.item, id, now);
  }

  /** The step of a delivery, when only the delivered message may be missing. */
  lemma ReceiveKeepsInv(net: Network, before: Network, issued: set<Item>, had: seq<set<Item>>, to: nat, x: Item,
                        id: ItemId, now: int)
    requires Inv(before, issued, had) && net.devices == before.devices && to < |net.devices|
    requires forall m :: m in net.inFlight ==> m in before.inFlight
    requires forall m :: m in before.inFlight && m != Message(to, x) ==> m in net.inFlight
    requires if x in issued then x.origin != net.devices[to].engine.device else !IsIntact(x)
    ensures var net' := Receive(net, to, x, id, now);
      |net'.devices| == |net.devices| && Inv(net', issued, HadNow(net', issued, had))
  {
    var net' := Receive(net, to, x, id, now);
    ReceiveIsQuiet(net, to, x, id, now);
    ReceiveEffect(net.devices[to], issued, had[to], x, net, to, id, now);
    var had' := HadNow(net', issued, had);
    forall i | 0 <= i < |net'.devices| ensures DeviceOk(net'.devices[i], issued, had'[i]) {
      assert i != to ==> net'.devices[i] == net.devices[i];
    }
    forall i, y | 0 <= i < |net'.devices| && y in issued
      ensures y in had'[i] || Message(i, y) in net'.inFlight
    {
      assert y in had[i] || Message(i, y) in before.inFlight;
    }
  }

  // ---- Copies ----

  lemma CopyEffect(d: Device, issued: set<Item>, had: set<Item>, content: Content, id: ItemId, now: int)
    requires ItemsOk(issued) && DeviceOk(d, issued, had) && forall y :: y in issued ==> y.id != id
    ensures var x := NewItem(d.engine.device, content, id, now);
      var e' := OnLocalChange(d.engine, content, id, now).0;
      && DeviceOk(Device(e', Some(content), d.writes), issued + {x}, had + Having(e', issued + {x}))
      && Has(e', x)
      && (d.engine.current.Some? && Before(d.engine.current.value.stamp, Stamp(now, id)) ==>
            Having(d.engine, issued) <= Having(e', issued + {x}))
  {
    var x := NewItem(d.engine.device, content, id, now);
    var e' := OnLocalChange(d.engine, content, id, now).0;
    assert e'.current == Some(CurrentOf(x)) && x in issued + {x};
    forall y | y in issued + {x} && y.id in e'.seen.members
      ensures y in had + Having(e', issued + {x})
    {
      if y != x {
        assert y in issued && y.id != id;
        assert y.id in d.engine.seen.members;
      }
    }
    assert Ids(issued + {x}) == Ids(issued) + {id};
  }

  /** A device that doesn't copy has had nothing more. */
  lemma OthersKeepOk(d: Device, issued: set<Item>, had: set<Item>, x: Item)
    requires DeviceOk(d, issued, had) && x.id !in Ids(issued)
    ensures DeviceOk(d, issued + {x}, had + Having(d.engine, issued + {x}))
  {
    if d.engine.current.Some? {
      var y :| y in issued && d.engine.current.value == CurrentOf(y);
      assert y in issued + {x};
    }
    assert Ids(issued + {x}) == Ids(issued) + {x.id};
  }

  lemma CopyKeepsInv(net: Network, issued: set<Item>, had: seq<set<Item>>, step: Step)
    requires Inv(net, issued, had) && Fair(net, issued, step) && IsCopy(net, step)
    ensures var net' := After(net, step);
      |net'.devices| == |net.devices|
          && Inv(net', Issued(net, issued, step), HadNow(net', Issued(net, issued, step), had))
  {
    CopyDevicesOk(net, issued, had, step);
    CopyMessagesOk(net, issued, had, step);
    CopyDelivered(net, issued, had, step);
  }

  lemma CopyDevicesOk(net: Network, issued: set<Item>, had: seq<set<Item>>, step: Step)
    requires Inv(net, issued, had) && Fair(net, issued, step) && IsCopy(net, step)
    ensures var (net', issued') := (After(net, step), Issued(net, issued, step));
      && |net'.devices| == |net.devices| && ItemsOk(issued')
      && forall i :: 0 <= i < |net.devices| ==> DeviceOk(net'.devices[i], issued', HadNow(net', issued', had)[i])
  {
    var d := net.devices[step.at];
    var x := NewItem(d.engine.device, step.content, step.id, step.now);
    var net', issued' := After(net, step), Issued(net, issued, step);
    CopyIsQuiet(net, step.at, step.content, step.id, step.now);
    CopyEffect(d, issued, had[step.at], step.content, step.id, step.now);
    forall i | 0 <= i < |net.devices| ensures DeviceOk(net'.devices[i], issued', HadNow(net', issued', had)[i]) {
      if i != step.at {
        OthersKeepOk(net.devices[i], issued, had[i], x);
      }
    }
  }

  lemma CopyMessagesOk(net: Network, issued: set<Item>, had: seq<set<Item>>, step: Step)
    requires Inv(net, issued, had) && Fair(net, issued, step) && IsCopy(net, step)
    ensures var (net', issued') := (After(net, step), Issued(net, issued, step));
      && |net'.devices| == |net.devices|
      && (forall i :: 0 <= i < |net.devices| ==> net'.devices[i].engine.device == net.devices[i].engine.device)
      && (forall m :: m in net'.inFlight ==>
            m.to < |net'.devices| && m.item in issued' && m.item.origin != net'.devices[m.to].engine.device)
  {
    var x := NewItem(net.devices[step.at].engine.device, step.content, step.id, step.now);
    CopyIsQuiet(net, step.at, step.content, step.id, step.now);
    OthersAre(|net.devices|, step.at, x);
    assert After(net, step).devices[step.at].engine.device == net.devices[step.at].engine.device;
  }

  lemma CopyDelivered(net: Network, issued: set<Item>, had: seq<set<Item>>, step: Step)
    requires Inv(net, issued, had) && Fair(net, issued, step) && IsCopy(net, step)
    ensures var net' := After(net, step);
      && |net'.devices| == |net.devices|
      && Delivered(net', Issued(net, issued, step), HadNow(net', Issued(net, issued, step), had))
  {
    var d := net.devices[step.at];
    var x := NewItem(d.engine.device, step.content, step.id, step.now);
    var net', issued' := After(net, step), Issued(net, issued, step);
    var had' := HadNow(net', issued', had);
    CopyIsQuiet(net, step.at, step.content, step.id, step.now);
    OthersAre(|net.devices|, step.at, x);
    forall i, y | 0 <= i < |net'.devices| && y in issued'
      ensures y in had'[i] || Message(i, y) in net'.inFlight
    {
      if y == x && i != step.at {
        assert Message(i, x) in Others(|net.devices|, step.at, x);
      } else if y != x {
        assert y in had[i] || Message(i, y) in net.inFlight;
      }
    }
  }

  lemma StepKeepsInv(net: Network, issued: set<Item>, had: seq<set<Item>>, step: Step)
    requires Inv(net, issued, had) && Fair(net, issued, step)
    ensures var (net', issued') := (After(net, step), Issued(net, issued, step));
      |net'.devices| == |net.devices| && Inv(net', issued', HadNow(net', issued', had))
  {
    match step
    case Copy(at, content, id, now) =>
      if IsCopy(net, step) {
        CopyKeepsInv(net, issued, had, step);
      } else {
        NothingNew(net, issued, had);
      }
    case Deliver(k, keep, id, now) => DeliverKeepsInv(net, issued, had, k, keep, id, now);
    case Stray(to, x, id, now) => ReceiveKeepsInv(net, net, issued, had, to, x, id, now);
  }

  lemma NothingNew(net: Network, issued: set<Item>, had: seq<set<Item>>)
    requires Inv(net, issued, had)
    ensures HadNow(net, issued, had) == had
  {
    forall i | 0 <= i < |had| ensures had[i] + Having(net.devices[i].engine, issued) == had[i] {
      assert DeviceOk(net.devices[i], issued, had[i]);
    }
  }

  // ---- What a device goes on having ----

  /** Only a copy back makes a device lose what it has. */
  lemma StepKeepsHeld(net: Network, issued: set<Item>, had: seq<set<Item>>, step: Step, i: nat, x: Item)
    requires Inv(net, issued, had) && Fair(net, issued, step) && i < |net.devices|
    requires x in issued && Has(net.devices[i].engine, x) && !CopiesBack(net, step, i)
    ensures |After(net, step).devices| == |net.devices|
    ensures x in Issued(net, issued, step) && Has(After(net, step).devices[i].engine, x)
  {
    assert x in Having(net.devices[i].engine, issued);
    match step
    case Copy(at, content, id, now) =>
      if IsCopy(net, step) {
        CopyIsQuiet(net, at, content, id, now);
        CopyEffect(net.devices[at], issued, had[at], content, id, now);
      }
    case Deliver(k, keep, id, now) =>
      var m := net.inFlight[k];
      assert m in net.inFlight;
      var net1 := net.(inFlight := Left(net.inFlight, k, keep));
      ReceiveIsQuiet(net1, m.to, m.item, id, now);
      ReceiveEffect(net.devices[m.to], issued, had[m.to], m.item, net1, m.to, id, now);
    case Stray(to, y, id, now) =>
      ReceiveIsQuiet(net, to, y, id, now);
      ReceiveEffect(net.devices[to], issued, had[to], y, net, to, id, now);
  }
}
