/** Several devices exchanging copies (`crates/cled-sync/tests/simulation.rs`): a delivery, the
    clipboard write it causes and that write's echo are one step. Messages arrive in any order, any
    number of times, along with corrupted ones. The network as a value, what a step does to a
    device, and that nothing is ever sent because something was delivered. */
module SyncNet {
  import opened Wrappers
  import opened Content
  import opened Sync

  datatype Device = Device(engine: Engine, clipboard: Option<Content>, writes: nat)

  datatype Message = Message(to: nat, item: Item)

  datatype Network = Network(devices: seq<Device>, inFlight: seq<Message>, sent: nat)

  function Others(n: nat, from: nat, item: Item): seq<Message> {
    if n == 0 then []
    else Others(n - 1, from, item) + if n - 1 == from then [] else [Message(n - 1, item)]
  }

  function Broadcast(net: Network, from: nat, item: Item): Network {
    var out := Others(|net.devices|, from, item);
    net.(inFlight := net.inFlight + out, sent := net.sent + |out|)
  }

  /** Different content causes one change notification, identical content none. */
  function SetClipboard(net: Network, at: nat, content: Content, id: ItemId, now: int): Network
    requires at < |net.devices|
  {
    var d := net.devices[at];
    if d.clipboard == Some(content) then net
    else
      var (engine, change) := OnLocalChange(d.engine, content, id, now);
      var net1 := net.(devices := net.devices[at := Device(engine, Some(content), d.writes)]);
      match change
      case Copied(item) => Broadcast(net1, at, item)
      case Echo(_) => net1
  }

  function Receive(net: Network, to: nat, item: Item, id: ItemId, now: int): Network
    requires to < |net.devices|
  {
    var d := net.devices[to];
    var (engine, action) := OnRemoteItem(d.engine, item);
    match action
    case Write(content) =>
      SetClipboard(net.(devices := net.devices[to := Device(engine, d.clipboard, d.writes + 1)]), to, content, id, now)
    case Ignore(_) => net.(devices := net.devices[to := d.(engine := engine)])
  }

  /** Steps. `id` and `now` are what a new item made in the step would get. */
  datatype Step =
    | Copy(at: nat, content: Content, id: ItemId, now: int)
    | Deliver(k: nat, keep: bool, id: ItemId, now: int)  // message `k` arrives; it may arrive again
    | Stray(to: nat, item: Item, id: ItemId, now: int)   // a message not in flight arrives

  predicate Possible(net: Network, step: Step) {
    match step
    case Copy(at, _, _, _) => at < |net.devices|
    case Deliver(k, _, _, _) => k < |net.inFlight| && net.inFlight[k].to < |net.devices|
    case Stray(to, _, _, _) => to < |net.devices|
  }

  function After(net: Network, step: Step): Network
    requires Possible(net, step)
  {
    match step
    case Copy(at, content, id, now) => SetClipboard(net, at, content, id, now)
    case Deliver(k, keep, id, now) =>
      var m := net.inFlight[k];
      Receive(net.(inFlight := Left(net.inFlight, k, keep)), m.to, m.item, id, now)
    case Stray(to, item, id, now) => Receive(net, to, item, id, now)
  }

  /** The messages left when message `k` is delivered. */
  function Left(inFlight: seq<Message>, k: nat, keep: bool): seq<Message>
    requires k < |inFlight|
  {
    if keep then inFlight else inFlight[..k] + inFlight[k + 1..]
  }

  lemma LeftKeepsOthers(inFlight: seq<Message>, k: nat, keep: bool)
    requires k < |inFlight|
    ensures forall m :: m in Left(inFlight, k, keep) ==> m in inFlight
    ensures forall m :: m in inFlight && m != inFlight[k] ==> m in Left(inFlight, k, keep)
  {
    assert inFlight == inFlight[..k] + [inFlight[k]] + inFlight[k + 1..];
  }

  /** A copy that changes a clipboard. */
  predicate IsCopy(net: Network, step: Step)
    requires Possible(net, step)
  {
    step.Copy? && net.devices[step.at].clipboard != Some(step.content)
  }

  function Start(ids: seq<DeviceId>): Network {
    Network(seq(|ids|, i requires 0 <= i < |ids| => Device(NewEngine(ids[i]), None, 0)), [], 0)
  }

  // ---- No sync loops ----

  /** No write is pending, and the clipboard holds what the engine takes it to. */
  ghost predicate DeviceQuiet(d: Device) {
    && d.engine.pending == None
    && (d.engine.current == None <==> d.clipboard == None)
    && (d.engine.current.Some? ==> IdentityOf(d.clipboard.value) == d.engine.current.value.hash)
  }

  ghost predicate Quiet(net: Network, copies: nat) {
    && (forall i :: 0 <= i < |net.devices| ==> DeviceQuiet(net.devices[i]))
    && (forall m :: m in net.inFlight ==> m.to < |net.devices|)
    && net.sent == Owed(|net.devices|, copies)
  }

  /** Each of `copies` copies is sent once to every other of `n` devices. */
  function Owed(n: nat, copies: nat): nat {
    if n == 0 || copies == 0 then 0 else Owed(n, copies - 1) + (n - 1)
  }

  lemma {:induction false} OwedIsProduct(n: nat, copies: nat)
    requires n > 0
    ensures Owed(n, copies) == (n - 1) * copies
  {
    if copies > 0 {
      OwedIsProduct(n, copies - 1);
    }
  }

  lemma {:induction false} OthersAre(n: nat, from: nat, item: Item)
    ensures forall m :: m in Others(n, from, item) <==> m.item == item && m.to < n && m.to != from
    ensures |Others(n, from, item)| == if from < n then n - 1 else n
  {
    if n > 0 {
      OthersAre(n - 1, from, item);
    }
  }

  /** What a delivery, of whatever item, does to the device it reaches: nothing is sent, and only
      that device changes. */
  lemma ReceiveIsQuiet(net: Network, to: nat, x: Item, id: ItemId, now: int)
    requires to < |net.devices| && DeviceQuiet(net.devices[to])
    ensures var net' := Receive(net, to, x, id, now);
      && net' == net.(devices := net.devices[to := net'.devices[to]])
      && DeviceQuiet(net'.devices[to]) && net'.devices[to].engine.device == net.devices[to].engine.device
  {
    var d := net.devices[to];
    if OnRemoteItem(d.engine, x).1.Write? {
      assert d.engine.current.Some? ==> d.clipboard != Some(x.content);
      WriteThenEcho(d.engine, x, id, now);
    }
  }

  lemma CopyIsQuiet(net: Network, at: nat, content: Content, id: ItemId, now: int)
    requires at < |net.devices| && DeviceQuiet(net.devices[at]) && net.devices[at].clipboard != Some(content)
    ensures var net' := SetClipboard(net, at, content, id, now);
      && net' == Broadcast(net.(devices := net.devices[at := net'.devices[at]]), at,
           NewItem(net.devices[at].engine.device, content, id, now))
      && DeviceQuiet(net'.devices[at])
  {
  }

  lemma StepKeepsQuiet(net: Network, step: Step, copies: nat)
    requires Quiet(net, copies) && Possible(net, step)
    ensures Quiet(After(net, step), if IsCopy(net, step) then copies + 1 else copies)
    ensures |After(net, step).devices| == |net.devices|
    ensures !step.Copy? ==> After(net, step).sent == net.sent
    ensures step.Deliver? ==> After(net, step).inFlight == Left(net.inFlight, step.k, step.keep)
  {
    match step
    case Copy(at, content, id, now) =>
      if net.devices[at].clipboard != Some(content) {
        CopyIsQuiet(net, at, content, id, now);
        OthersAre(|net.devices|, at, NewItem(net.devices[at].engine.device, content, id, now));
      }
    case Deliver(k, keep, id, now) =>
      LeftKeepsOthers(net.inFlight, k, keep);
      ReceiveIsQuiet(net.(inFlight := Left(net.inFlight, k, keep)), net.inFlight[k].to, net.inFlight[k].item, id, now);
    case Stray(to, x, id, now) => ReceiveIsQuiet(net, to, x, id, now);
  }

  /** A run of whatever steps can happen: copies with any clock and any ID, deliveries of anything. */
  ghost predicate AnyRun(ids: seq<DeviceId>, nets: seq<Network>, steps: seq<Step>) {
    && |nets| == |steps| + 1 && nets[0] == Start(ids)
    && forall k {:trigger steps[k]} :: 0 <= k < |steps| ==>
         Possible(nets[k], steps[k]) && nets[k + 1] == After(nets[k], steps[k])
  }

  /** The copies that changed a clipboard in the first `k` steps. */
  ghost function Copies(nets: seq<Network>, steps: seq<Step>, k: nat): nat
    requires k <= |steps| < |nets| && forall m {:trigger steps[m]} :: 0 <= m < k ==> Possible(nets[m], steps[m])
  {
    if k == 0 then 0 else Copies(nets, steps, k - 1) + if IsCopy(nets[k - 1], steps[k - 1]) then 1 else 0
  }

  lemma {:induction false} AnyRunIsQuiet(ids: seq<DeviceId>, nets: seq<Network>, steps: seq<Step>, k: nat)
    requires AnyRun(ids, nets, steps) && k <= |steps|
    ensures Quiet(nets[k], Copies(nets, steps, k)) && |nets[k].devices| == |ids|
  {
    if k > 0 {
      AnyRunIsQuiet(ids, nets, steps, k - 1);
      var net, step := nets[k - 1], steps[k - 1];
      StepKeepsQuiet(net, step, Copies(nets, steps, k - 1));
    }
  }

  /** No sync loops: in every run, whatever the clocks, the IDs and the items delivered, no write is
      pending between steps, a clipboard's identity is that of the item the engine holds, a delivery
      never sends anything, and the messages sent are those of the copies that changed a clipboard,
      each sent once to every other device. */
  lemma NothingLoops(ids: seq<DeviceId>, nets: seq<Network>, steps: seq<Step>, k: nat)
    requires AnyRun(ids, nets, steps) && k <= |steps|
    ensures |nets[k].devices| == |ids|
    ensures forall i :: 0 <= i < |ids| ==>
      var d := nets[k].devices[i];
      && d.engine.pending == None
      && (d.clipboard.Some? <==> d.engine.current.Some?)
      && (d.clipboard.Some? ==> IdentityOf(d.clipboard.value) == d.engine.current.value.hash)
    ensures |ids| > 0 ==> nets[k].sent == (|ids| - 1) * Copies(nets, steps, k)
    ensures k < |steps| && steps[k].Deliver? ==>
      nets[k + 1].sent == nets[k].sent && nets[k + 1].inFlight == Left(nets[k].inFlight, steps[k].k, steps[k].keep)
  {
    AnyRunIsQuiet(ids, nets, steps, k);
    if |ids| > 0 {
      OwedIsProduct(|ids|, Copies(nets, steps, k));
    }
    forall i | 0 <= i < |ids| ensures DeviceQuiet(nets[k].devices[i]) {
    }
    if k < |steps| {
      StepKeepsQuiet(nets[k], steps[k], Copies(nets, steps, k));
    }
  }
}
