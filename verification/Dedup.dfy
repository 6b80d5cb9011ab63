/** Repeats are recognised for as long as an item is remembered, and echoes for as long as a write is
    expected: what the engine makes of what it remembers (`crates/cled-sync/src/engine.rs`,
    `recent.rs`), over every sequence of calls and over every run of the network. */
module Dedup {
  import opened Wrappers
  import opened Content
  import opened Sync
  import opened SyncNet

  // ---- A log that forgets nothing ----

  /** The last IDs of a log, as many as are remembered. */
  function Lately(log: seq<ItemId>): seq<ItemId> {
    if |log| <= RECENT_ITEMS then log else log[|log| - RECENT_ITEMS..]
  }

  function Note(log: seq<ItemId>, v: Option<ItemId>): seq<ItemId> {
    if v.Some? && v.value !in Lately(log) then log + [v.value] else log
  }

  /** The IDs of a history, each noted unless it is among the last ones noted. */
  function LogOf(offers: seq<Option<ItemId>>): seq<ItemId> {
    if offers == [] then [] else Note(LogOf(offers[..|offers| - 1]), offers[|offers| - 1])
  }

  lemma OneMoreOffer(offers: seq<Option<ItemId>>, v: Option<ItemId>)
    ensures LogOf(offers + [v]) == Note(LogOf(offers), v)
  {
    assert (offers + [v])[..|offers + [v]| - 1] == offers;
  }

  /** `v` is noted as the `m`-th event of a history. */
  predicate Notes(offers: seq<Option<ItemId>>, m: nat, v: ItemId)
    requires m < |offers|
  {
    offers[m] == Some(v) && v !in Lately(LogOf(offers[..m]))
  }

  /** How many IDs are noted from the `m`-th event on. */
  function NotedSince(offers: seq<Option<ItemId>>, m: nat): int
    requires m <= |offers|
  {
    |LogOf(offers)| - |LogOf(offers[..m])|
  }

  lemma {:induction false} LogGrows(offers: seq<Option<ItemId>>, m: nat)
    requires m <= |offers|
    ensures LogOf(offers[..m]) <= LogOf(offers)
    decreases |offers|
  {
    if m < |offers| {
      LogGrows(offers[..|offers| - 1], m);
      assert offers[..|offers| - 1][..m] == offers[..m];
    } else {
      assert offers[..m] == offers;
    }
  }

  lemma AddsNote(offers: seq<Option<ItemId>>, m: nat, v: ItemId)
    requires m < |offers| && Notes(offers, m, v)
    ensures LogOf(offers[..m + 1]) == LogOf(offers[..m]) + [v]
  {
    assert offers[..m + 1] == offers[..m] + [Some(v)];
    OneMoreOffer(offers[..m], Some(v));
  }

  lemma NextInLog(before: seq<ItemId>, v: ItemId, log: seq<ItemId>)
    requires before + [v] <= log
    ensures |before| < |log| && log[|before|] == v
  {
    assert (before + [v])[|before|] == v;
  }

  lemma NotedAt(offers: seq<Option<ItemId>>, m: nat, v: ItemId)
    requires m < |offers| && Notes(offers, m, v)
    ensures NotedSince(offers, m) > 0 && LogOf(offers)[|LogOf(offers[..m])|] == v
  {
    AddsNote(offers, m, v);
    LogGrows(offers, m + 1);
    NextInLog(LogOf(offers[..m]), v, LogOf(offers));
  }

  /** Every ID of the log was noted at some event. */
  lemma {:induction false} NotedWhen(offers: seq<Option<ItemId>>, j: nat) returns (m: nat)
    requires j < |LogOf(offers)|
    ensures m < |offers| && Notes(offers, m, LogOf(offers)[j]) && |LogOf(offers[..m])| == j
    decreases |offers|
  {
    var init := offers[..|offers| - 1];
    if j < |LogOf(init)| {
      m := NotedWhen(init, j);
      assert init[..m] == offers[..m];
    } else {
      m := |offers| - 1;
    }
  }

  /** `v` was noted, and fewer than 1000 other IDs since. */
  ghost predicate NotedLately(offers: seq<Option<ItemId>>, v: ItemId) {
    exists m :: 0 <= m < |offers| && Notes(offers, m, v) && NotedSince(offers, m) <= RECENT_ITEMS
  }

  lemma InLately(log: seq<ItemId>, j: nat)
    requires |log| - RECENT_ITEMS <= j < |log|
    ensures log[j] in Lately(log)
  {
    var forgotten := |log| - |Lately(log)|;
    assert Lately(log) == log[forgotten..] && log[forgotten..][j - forgotten] == log[j];
  }

  lemma FromLately(log: seq<ItemId>, v: ItemId) returns (j: nat)
    requires v in Lately(log)
    ensures |log| - RECENT_ITEMS <= j < |log| && log[j] == v
  {
    j :| 0 <= j < |Lately(log)| && Lately(log)[j] == v;
    j := j + |log| - |Lately(log)|;
  }

  lemma LatelyNoted(offers: seq<Option<ItemId>>, v: ItemId)
    requires v in Lately(LogOf(offers))
    ensures NotedLately(offers, v)
  {
    var j := FromLately(LogOf(offers), v);
    var m := NotedWhen(offers, j);
    assert Notes(offers, m, v);
  }

  lemma NotedIsLately(offers: seq<Option<ItemId>>, m: nat, v: ItemId)
    requires m < |offers| && Notes(offers, m, v) && NotedSince(offers, m) <= RECENT_ITEMS
    ensures v in Lately(LogOf(offers))
  {
    NotedAt(offers, m, v);
    InLately(LogOf(offers), |LogOf(offers[..m])|);
  }

  lemma LatelyIff(offers: seq<Option<ItemId>>, v: ItemId)
    ensures v in Lately(LogOf(offers)) <==> NotedLately(offers, v)
  {
    if v in Lately(LogOf(offers)) {
      LatelyNoted(offers, v);
    }
    if NotedLately(offers, v) {
      var m :| 0 <= m < |offers| && Notes(offers, m, v) && NotedSince(offers, m) <= RECENT_ITEMS;
      NotedIsLately(offers, m, v);
    }
  }

  /** The bounded set holds the last IDs of the log, in the order noted. */
  ghost predicate Remembers(r: Recent, log: seq<ItemId>) {
    RecentValid(r, RECENT_ITEMS) && r.order == Lately(log)
  }

  lemma InsertRemembers(r: Recent, log: seq<ItemId>, v: ItemId)
    requires Remembers(r, log)
    ensures Remembers(Insert(r, RECENT_ITEMS, v).0, Note(log, Some(v)))
    ensures Insert(r, RECENT_ITEMS, v).1 <==> v !in Lately(log)
    ensures v in Lately(log) ==> Insert(r, RECENT_ITEMS, v).0 == r
  {
    InsertKeepsNewest(r, RECENT_ITEMS, v);
    if v !in r.members && |log| >= RECENT_ITEMS {
      assert (log + [v])[|log| + 1 - RECENT_ITEMS..] == (Lately(log) + [v])[1..];
    }
  }

  // ---- One engine, called in any order ----

  datatype Call = Changed(content: Content, id: ItemId, now: int) | Received(item: Item) | WriteFailed

  function Called(e: Engine, c: Call): Engine {
    match c
    case Changed(content, id, now) => OnLocalChange(e, content, id, now).0
    case Received(x) => OnRemoteItem(e, x).0
    case WriteFailed => OnWriteFailed(e)
  }

  function EngineAfter(device: DeviceId, calls: seq<Call>): Engine {
    if calls == [] then NewEngine(device) else Called(EngineAfter(device, calls[..|calls| - 1]), calls[|calls| - 1])
  }

  /** The ID of the copy a call reports, or of the intact item of another device it brings. */
  function OfferOf(e: Engine, c: Call): Option<ItemId> {
    match c
    case Changed(content, id, now) => if OnLocalChange(e, content, id, now).1.Copied? then Some(id) else None
    case Received(x) => if x.origin != e.device && IsIntact(x) then Some(x.id) else None
    case WriteFailed => None
  }

  function Offers(device: DeviceId, calls: seq<Call>): (offers: seq<Option<ItemId>>)
    ensures |offers| == |calls|
  {
    if calls == [] then []
    else
      var init := calls[..|calls| - 1];
      Offers(device, init) + [OfferOf(EngineAfter(device, init), calls[|calls| - 1])]
  }

  lemma CallRemembers(e: Engine, log: seq<ItemId>, c: Call)
    requires Remembers(e.seen, log)
    ensures Remembers(Called(e, c).seen, Note(log, OfferOf(e, c))) && Called(e, c).device == e.device
  {
    var v := OfferOf(e, c);
    if v.Some? {
      InsertRemembers(e.seen, log, v.value);
    }
  }

  lemma {:induction false} EngineRemembers(device: DeviceId, calls: seq<Call>)
    ensures var e := EngineAfter(device, calls);
      e.device == device && Remembers(e.seen, LogOf(Offers(device, calls)))
  {
    if calls != [] {
      var init := calls[..|calls| - 1];
      EngineRemembers(device, init);
      var e, offers, c := EngineAfter(device, init), Offers(device, init), calls[|calls| - 1];
      CallRemembers(e, LogOf(offers), c);
      OneMoreOffer(offers, OfferOf(e, c));
    }
  }

  lemma RepeatOf(e: Engine, log: seq<ItemId>, x: Item)
    requires Remembers(e.seen, log)
    ensures OnRemoteItem(e, x).1 == Ignore(Duplicate) <==>
      x.origin != e.device && IsIntact(x) && x.id in Lately(log)
    ensures OnRemoteItem(e, x).1 == Ignore(OwnItem) <==> x.origin == e.device
    ensures OnRemoteItem(e, x).1 == Ignore(Corrupt) <==> x.origin != e.device && !IsIntact(x)
    ensures OnRemoteItem(e, x).1 in {Ignore(Duplicate), Ignore(OwnItem), Ignore(Corrupt)} ==>
      OnRemoteItem(e, x).0 == e
  {
    InsertRemembers(e.seen, log, x.id);
  }

  /** Whatever has been copied, received, written or failed to be written: an item is answered
      `Duplicate` exactly if it is an intact one of another device whose ID was noted with fewer than
      1000 others since, and then the engine stays as it is. */
  lemma DuplicateIff(device: DeviceId, calls: seq<Call>, x: Item)
    ensures var e := EngineAfter(device, calls);
      var offers := Offers(device, calls);
      && (OnRemoteItem(e, x).1 == Ignore(Duplicate) <==>
            x.origin != device && IsIntact(x) && NotedLately(offers, x.id))
      && (OnRemoteItem(e, x).1 == Ignore(Duplicate) ==> OnRemoteItem(e, x).0 == e)
  {
    var offers := Offers(device, calls);
    EngineRemembers(device, calls);
    LatelyIff(offers, x.id);
    RepeatOf(EngineAfter(device, calls), LogOf(offers), x);
  }

  /** The item last given out to be written, with no change of the clipboard and no failed write since. */
  function Writing(device: DeviceId, calls: seq<Call>): Option<Item> {
    if calls == [] then None
    else
      var init := calls[..|calls| - 1];
      match calls[|calls| - 1]
      case Received(x) =>
        if OnRemoteItem(EngineAfter(device, init), x).1.Write? then Some(x) else Writing(device, init)
      case _ => None
  }

  lemma {:induction false} PendingIsWriting(device: DeviceId, calls: seq<Call>)
    ensures EngineAfter(device, calls).pending == Writing(device, calls)
    ensures EngineAfter(device, calls).device == device
  {
    if calls != [] {
      PendingIsWriting(device, calls[..|calls| - 1]);
    }
  }

  /** A change of the clipboard is taken for the echo of a write exactly if it has the identity of the
      item last given out, with no change and no failed write since; any other is a new copy. */
  lemma EchoIff(device: DeviceId, calls: seq<Call>, content: Content, id: ItemId, now: int)
    ensures var (e', change) := OnLocalChange(EngineAfter(device, calls), content, id, now);
      match Writing(device, calls)
      case Some(x) =>
        if x.hash == IdentityOf(content) then change == Echo(x) && e'.current == Some(CurrentOf(x))
        else change == Copied(NewItem(device, content, id, now)) && e'.current == Some(CurrentOf(change.item))
      case None => change == Copied(NewItem(device, content, id, now)) && e'.current == Some(CurrentOf(change.item))
  {
    PendingIsWriting(device, calls);
  }

  // ---- Every run of the network ----

  /** The message a step brings. */
  function Arrival(net: Network, step: Step): Option<Message>
    requires Possible(net, step)
  {
    match step
    case Copy(_, _, _, _) => None
    case Deliver(k, _, _, _) => Some(net.inFlight[k])
    case Stray(to, item, _, _) => Some(Message(to, item))
  }

  /** The network a message arrives in: it may have been taken off those in flight. */
  function Taken(net: Network, step: Step): Network
    requires Possible(net, step)
  {
    if step.Deliver? then net.(inFlight := Left(net.inFlight, step.k, step.keep)) else net
  }

  function OfferFrom(ids: seq<DeviceId>, m: Message, i: nat): Option<ItemId>
    requires i < |ids|
  {
    if m.to == i && m.item.origin != ids[i] && IsIntact(m.item) then Some(m.item.id) else None
  }

  /** The ID of the copy made on device `i` in a step, or of the intact item of another device that
      reaches it. */
  function OfferAt(ids: seq<DeviceId>, net: Network, step: Step, i: nat): Option<ItemId>
    requires Possible(net, step) && i < |ids|
  {
    var m := Arrival(net, step);
    if m.Some? then OfferFrom(ids, m.value, i)
    else if IsCopy(net, step) && step.at == i then Some(step.id) else None
  }

  ghost function OffersAt(ids: seq<DeviceId>, nets: seq<Network>, steps: seq<Step>, i: nat, k: nat):
      (offers: seq<Option<ItemId>>)
    requires AnyRun(ids, nets, steps) && i < |ids| && k <= |steps|
    ensures |offers| == k
  {
    if k == 0 then [] else OffersAt(ids, nets, steps, i, k - 1) + [OfferAt(ids, nets[k - 1], steps[k - 1], i)]
  }

  lemma ReceiveRemembers(net: Network, to: nat, x: Item, id: ItemId, now: int, log: seq<ItemId>)
    requires to < |net.devices| && DeviceQuiet(net.devices[to])
    requires Remembers(net.devices[to].engine.seen, log)
    ensures var d, d' := net.devices[to], Receive(net, to, x, id, now).devices[to];
      && d'.engine.device == d.engine.device
      && Remembers(d'.engine.seen, Note(log, OfferOf(d.engine, Received(x))))
      && (OnRemoteItem(d.engine, x).1 in {Ignore(Duplicate), Ignore(OwnItem), Ignore(Corrupt)} ==> d' == d)
  {
    var d := net.devices[to];
    CallRemembers(d.engine, log, Received(x));
    RepeatOf(d.engine, log, x);
    if OnRemoteItem(d.engine, x).1.Write? {
      assert d.clipboard != Some(x.content);
      WriteThenEcho(d.engine, x, id, now);
    }
  }

  lemma CopyRemembers(ids: seq<DeviceId>, net: Network, step: Step, i: nat, log: seq<ItemId>)
    requires Possible(net, step) && step.Copy? && i < |ids| == |net.devices| && DeviceQuiet(net.devices[i])
    requires net.devices[i].engine.device == ids[i] && Remembers(net.devices[i].engine.seen, log)
    ensures var d := After(net, step).devices[i];
      d.engine.device == ids[i] && Remembers(d.engine.seen, Note(log, OfferAt(ids, net, step, i)))
  {
    if IsCopy(net, step) && step.at == i {
      CallRemembers(net.devices[i].engine, log, Changed(step.content, step.id, step.now));
    }
  }

  lemma ArrivalRemembers(ids: seq<DeviceId>, net: Network, m: Message, id: ItemId, now: int, i: nat, log: seq<ItemId>)
    requires i < |ids| == |net.devices| && m.to < |net.devices| && DeviceQuiet(net.devices[m.to])
    requires net.devices[i].engine.device == ids[i] && Remembers(net.devices[i].engine.seen, log)
    ensures |Receive(net, m.to, m.item, id, now).devices| == |ids|
    ensures var e := Receive(net, m.to, m.item, id, now).devices[i].engine;
      e.device == ids[i] && Remembers(e.seen, Note(log, OfferFrom(ids, m, i)))
  {
    ReceiveIsQuiet(net, m.to, m.item, id, now);
    if m.to == i {
      ReceiveRemembers(net, i, m.item, id, now, log);
    }
  }

  lemma StepRemembers(ids: seq<DeviceId>, net: Network, copies: nat, step: Step, i: nat, log: seq<ItemId>)
    requires Quiet(net, copies) && Possible(net, step) && i < |ids| == |net.devices|
    requires net.devices[i].engine.device == ids[i] && Remembers(net.devices[i].engine.seen, log)
    ensures |After(net, step).devices| == |ids|
    ensures var e := After(net, step).devices[i].engine;
      e.device == ids[i] && Remembers(e.seen, Note(log, OfferAt(ids, net, step, i)))
  {
    var m := Arrival(net, step);
    StepKeepsQuiet(net, step, copies);
    assert DeviceQuiet(net.devices[i]);
    if m.None? {
      CopyRemembers(ids, net, step, i, log);
    } else {
      assert DeviceQuiet(net.devices[m.value.to]);
      ArrivalRemembers(ids, Taken(net, step), m.value, step.id, step.now, i, log);
    }
  }

  lemma {:induction false} DeviceRemembers(ids: seq<DeviceId>, nets: seq<Network>, steps: seq<Step>, i: nat, k: nat)
    requires AnyRun(ids, nets, steps) && k <= |steps| && i < |ids|
    ensures |nets[k].devices| == |ids| && Quiet(nets[k], Copies(nets, steps, k))
    ensures var e := nets[k].devices[i].engine;
      e.device == ids[i] && Remembers(e.seen, LogOf(OffersAt(ids, nets, steps, i, k)))
  {
    AnyRunIsQuiet(ids, nets, steps, k);
    if k > 0 {
      DeviceRemembers(ids, nets, steps, i, k - 1);
      var offers := OffersAt(ids, nets, steps, i, k - 1);
      StepRemembers(ids, nets[k - 1], Copies(nets, steps, k - 1), steps[k - 1], i, LogOf(offers));
      OneMoreOffer(offers, OfferAt(ids, nets[k - 1], steps[k - 1], i));
    }
  }

  /** In every run, whatever the clocks: an intact item of another device is answered `Duplicate`
      exactly if it has come to the device before, or was made there, and was noted with fewer than
      1000 others since. Then, as with the device's own items and damaged ones, the delivery changes
      no device and sends nothing. */
  lemma RepeatsAreIgnored(ids: seq<DeviceId>, nets: seq<Network>, steps: seq<Step>, i: nat, k: nat, x: Item)
    requires AnyRun(ids, nets, steps) && k < |steps| && i < |ids|
    requires Arrival(nets[k], steps[k]) == Some(Message(i, x))
    ensures |nets[k].devices| == |ids|
    ensures var answer := OnRemoteItem(nets[k].devices[i].engine, x).1;
      && (answer == Ignore(OwnItem) <==> x.origin == ids[i])
      && (answer == Ignore(Corrupt) <==> x.origin != ids[i] && !IsIntact(x))
      && (answer == Ignore(Duplicate) <==>
            x.origin != ids[i] && IsIntact(x) && NotedLately(OffersAt(ids, nets, steps, i, k), x.id))
    ensures x.origin == ids[i] || !IsIntact(x) || NotedLately(OffersAt(ids, nets, steps, i, k), x.id) ==>
      nets[k + 1].devices == nets[k].devices && nets[k + 1].sent == nets[k].sent
  {
    var net, step, offers := nets[k], steps[k], OffersAt(ids, nets, steps, i, k);
    DeviceRemembers(ids, nets, steps, i, k);
    LatelyIff(offers, x.id);
    assert DeviceQuiet(net.devices[i]);
    RepeatOf(net.devices[i].engine, LogOf(offers), x);
    var net1 := Taken(net, step);
    ReceiveIsQuiet(net1, i, x, step.id, step.now);
    ReceiveRemembers(net1, i, x, step.id, step.now, LogOf(offers));
  }

  /** An arrival that counts: an intact item of another device, not noted lately, and not older than
      what the device holds. */
  ghost predicate Counts(ids: seq<DeviceId>, nets: seq<Network>, steps: seq<Step>, i: nat, k: nat, x: Item)
    requires AnyRun(ids, nets, steps) && k <= |steps| && i < |ids| && i < |nets[k].devices|
  {
    var current := nets[k].devices[i].engine.current;
    && x.origin != ids[i] && IsIntact(x) && !NotedLately(OffersAt(ids, nets, steps, i, k), x.id)
    && (current.Some? ==> !Before(StampOf(x), current.value.stamp))
  }

  lemma TakenWhole(net: Network, to: nat, x: Item, id: ItemId, now: int, log: seq<ItemId>)
    requires to < |net.devices| && DeviceQuiet(net.devices[to])
    requires Remembers(net.devices[to].engine.seen, log)
    ensures var d, d' := net.devices[to], Receive(net, to, x, id, now).devices[to];
      var counts := x.origin != d.engine.device && IsIntact(x) && x.id !in Lately(log)
          && (d.engine.current.Some? ==> !Before(StampOf(x), d.engine.current.value.stamp));
      && d'.engine.current == (if counts then Some(CurrentOf(x)) else d.engine.current)
      && (if counts && (d.clipboard.Some? ==> IdentityOf(d.clipboard.value) != IdentityOf(x.content))
          then d'.clipboard == Some(x.content) && d'.writes == d.writes + 1
          else d'.clipboard == d.clipboard && d'.writes == d.writes)
  {
    var d := net.devices[to];
    RepeatOf(d.engine, log, x);
    if OnRemoteItem(d.engine, x).1.Write? {
      assert d.clipboard != Some(x.content);
      WriteThenEcho(d.engine, x, id, now);
    }
  }

  /** What an arrival does, in every run: one that counts is what the device holds from then on, and
      is written exactly if the clipboard's content is another; anything else does neither. */
  lemma ArrivalsThatCount(ids: seq<DeviceId>, nets: seq<Network>, steps: seq<Step>, i: nat, k: nat, x: Item)
    requires AnyRun(ids, nets, steps) && k < |steps| && i < |ids|
    requires Arrival(nets[k], steps[k]) == Some(Message(i, x))
    ensures |nets[k].devices| == |nets[k + 1].devices| == |ids|
    ensures var d, d', counts := nets[k].devices[i], nets[k + 1].devices[i], Counts(ids, nets, steps, i, k, x);
      && d'.engine.current == (if counts then Some(CurrentOf(x)) else d.engine.current)
      && (if counts && (d.clipboard.Some? ==> IdentityOf(d.clipboard.value) != IdentityOf(x.content))
          then d'.clipboard == Some(x.content) && d'.writes == d.writes + 1
          else d'.clipboard == d.clipboard && d'.writes == d.writes)
  {
    var net, step, offers := nets[k], steps[k], OffersAt(ids, nets, steps, i, k);
    DeviceRemembers(ids, nets, steps, i, k);
    LatelyIff(offers, x.id);
    assert DeviceQuiet(net.devices[i]);
    var net1 := Taken(net, step);
    ReceiveIsQuiet(net1, i, x, step.id, step.now);
    TakenWhole(net1, i, x, step.id, step.now, LogOf(offers));
  }
}
