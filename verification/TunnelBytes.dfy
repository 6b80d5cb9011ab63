/** The messages of `TunnelNet` and the frames on the wire: in every run each queued message has a
    frame, and what the relay does with that frame's bytes is what `RelayOne` does with the message. */
module TunnelBytes {
  import opened Bytes
  import opened Wrappers
  import opened TunnelWire
  import opened TunnelNet

  predicate HasFrame(m: Msg) {
    IsKind(m.kind) && ValidKey(m.key) && ValidData(m.kind, m.data)
  }

  ghost predicate QueueOk(q: seq<Msg>) {
    forall m :: m in q ==> HasFrame(m)
  }

  ghost predicate DeviceOk(d: Device) {
    && d.nextId < U32_LIMIT
    && (forall k :: k in d.tunnels ==> ValidKey(k))
    && QueueOk(d.up) && QueueOk(d.down) && QueueOk(d.pumped)
  }

  ghost predicate NetOk(net: Net) {
    forall a :: a in net ==> DeviceOk(net[a])
  }

  lemma QueueMore(q: seq<Msg>, m: Msg)
    requires QueueOk(q) && HasFrame(m)
    ensures QueueOk(q + [m])
  {
  }

  lemma QueueLess(q: seq<Msg>)
    requires QueueOk(q) && q != []
    ensures HasFrame(q[0]) && QueueOk(q[1..])
  {
    assert q[0] in q;
    assert forall m :: m in q[1..] ==> m in q;
  }

  lemma StepKeepsNetOk(net: Net, step: Step)
    requires NetOk(net) && Enabled(net, step)
    ensures NetOk(After(net, step))
  {
    var d := net[step.a];
    match step
    case Open(a, peer) => QueueMore(d.up, Msg(KIND_OPEN, Key(peer, d.nextId, true), []));
    case Writes(a, key, data) =>
    case PicksUp(a, key, n) => QueueMore(d.pumped, Msg(KIND_DATA, key, d.tunnels[key].pipe[..n]));
    case Ends(a, key) => QueueMore(d.pumped, Msg(KIND_CLOSE, key, []));
    case Pumps(a) => PumpKeepsOk(d);
    case Relays(a) => RelayKeepsOk(net, a);
    case Receives(a, listening) => ReceiveKeepsOk(d, listening);
  }

  lemma PumpKeepsOk(d: Device)
    requires DeviceOk(d) && d.pumped != []
    ensures DeviceOk(PumpOne(d))
  {
    var m := d.pumped[0];
    QueueLess(d.pumped);
    if m.kind == KIND_DATA {
      QueueMore(d.up, Msg(KIND_DATA, m.key, m.data));
    }
    QueueMore(d.up, Msg(KIND_CLOSE, m.key, []));
  }

  lemma ReceiveKeepsOk(d: Device, listening: bool)
    requires DeviceOk(d) && d.down != []
    ensures DeviceOk(ReceiveOne(d, listening))
  {
    QueueLess(d.down);
    QueueMore(d.up, Msg(KIND_CLOSE, d.down[0].key, []));
  }

  lemma RelayKeepsOk(net: Net, a: DeviceId)
    requires NetOk(net) && a in net && net[a].up != []
    ensures NetOk(RelayOne(net, a))
  {
    var m := net[a].up[0];
    QueueLess(net[a].up);
    QueueMore(net[a].down, Msg(KIND_CLOSE, m.key, []));
    if m.key.peer in net {
      QueueMore(net[m.key.peer].down, Msg(m.kind, Mirror(a, m.key), m.data));
    }
  }

  lemma {:induction false} RunKeepsNetOk(nets: seq<Net>, steps: seq<Step>, i: nat)
    requires Run(nets, steps) && i < |nets|
    ensures NetOk(nets[i])
  {
    if i > 0 {
      RunKeepsNetOk(nets, steps, i - 1);
      StepKeepsNetOk(nets[i - 1], steps[i - 1]);
    }
  }

  /** What a message's frame is. */
  function FrameOf(names: Names, m: Msg): seq<byte>
    requires HasFrame(m) && |names.show(m.key.peer)| < 256
  {
    Encode(names, m.kind, m.key, m.data)
  }

  /** At any moment of any run, the relay taking the next frame of device `a` does to the bytes what
      the model does to the message: the recipient decodes the message queued for it, or the sender
      decodes the close queued for it, or nothing reaches anyone. */
  lemma RelayMovesFrames(names: Names, nets: seq<Net>, steps: seq<Step>, i: nat, a: DeviceId,
                         connected: seq<byte> -> bool)
    requires Faithful(names) && Run(nets, steps) && i < |nets|
    requires a in nets[i] && nets[i][a].up != []
    requires forall b: DeviceId :: connected(names.show(b)) <==> b in nets[i]
    ensures var (net, m) := (nets[i], nets[i][a].up[0]);
      && HasFrame(m)
      && var (net', to) := (RelayOne(net, a), m.key.peer);
         match Route(names.show(a), connected, FrameOf(names, m))
         case Forwarded(name, bytes) =>
           && to in net && to != a && name == names.show(to)
           && exists m' :: net'[to].down == net[to].down + [m']
                && Decode(names, bytes) == Some(Decoded(m'.kind, m'.key, m'.data))
         case Answered(bytes) =>
           && to !in net
           && exists m' :: net'[a].down == net[a].down + [m']
                && Decode(names, bytes) == Some(Decoded(m'.kind, m'.key, m'.data))
         case Rejected => to == a && net'[a].down == net[a].down
         case Dropped => to !in net && net'[a].down == net[a].down
  {
    var net, m := nets[i], nets[i][a].up[0];
    RunKeepsNetOk(nets, steps, i);
    QueueLess(net[a].up);
    var to := m.key.peer;
    if to == a {
      OwnFrameRejected(names, a, m.kind, m.key, m.data, connected);
    } else if to in net {
      ForwardedFrameMirrors(names, a, m.kind, m.key, m.data, connected);
      var m' := Msg(m.kind, Mirror(a, m.key), m.data);
      assert RelayOne(net, a)[to].down == net[to].down + [m'];
    } else {
      UndeliverableFindsOwnTunnel(names, a, m.kind, m.key, m.data, connected);
      if m.kind != KIND_CLOSE {
        var m' := Msg(KIND_CLOSE, m.key, []);
        assert RelayOne(net, a)[a].down == net[a].down + [m'];
      }
    }
  }
}
