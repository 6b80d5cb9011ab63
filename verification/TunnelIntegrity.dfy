/** Stream integrity over whole runs of the network of tunnels. */
module TunnelIntegrity {
  import opened Bytes
  import opened TunnelWire
  import opened TunnelNet
  import opened TunnelStreams

  // ---- Fresh tunnel IDs ----

  function UsedId(j: nat): nat {
    (1 + j) % U32_LIMIT
  }

  ghost predicate IdsOk(d: Device) {
    && d.nextId == UsedId(d.opens)
    && (forall k :: k in d.tunnels && k.openedHere ==> exists j: nat :: j < d.opens && k.id == UsedId(j))
  }

  lemma NextIdIsFresh(d: Device, peer: DeviceId)
    requires IdsOk(d) && d.opens < U32_LIMIT
    ensures Key(peer, d.nextId, true) !in d.tunnels
    ensures IdsOk(OpenTunnel(d, peer))
  {
    forall j: nat | j < d.opens
      ensures UsedId(j) != UsedId(d.opens)
    {
    }
    var d' := OpenTunnel(d, peer);
    forall k | k in d'.tunnels && k.openedHere
      ensures exists j: nat :: j < d'.opens && k.id == UsedId(j)
    {
      if k in d.tunnels {
        var j: nat :| j < d.opens && k.id == UsedId(j);
        assert j < d'.opens;
      } else {
        assert k.id == UsedId(d.opens) && d.opens < d'.opens;
      }
    }
  }

  // ---- The invariant ----

  ghost predicate LinkOk(net: Net, a: DeviceId, k: Key)
    requires a in net && k.peer in net
  {
    Both(k.openedHere, ViewOf(net[a], k), ViewOf(net[k.peer], Mirror(a, k)))
  }

  ghost predicate Inv(net: Net) {
    && (forall a :: a in net ==> IdsOk(net[a]))
    && (forall a, k: Key :: a in net && k.peer in net && k.peer != a ==> LinkOk(net, a, k))
  }

  /** A step of one device that touches one tunnel keeps everything if it keeps that tunnel. */
  lemma OneTunnelStep(net: Net, a: DeviceId, d: Device, key: Key)
    requires Inv(net) && a in net && IdsOk(d)
    requires forall k :: k != key ==> ViewOf(d, k) == ViewOf(net[a], k)
    requires key.peer in net && key.peer != a ==>
        Both(key.openedHere, ViewOf(d, key), ViewOf(net[key.peer], Mirror(a, key)))
    ensures Inv(net[a := d])
  {
    var net' := net[a := d];
    forall x, k: Key | x in net' && k.peer in net' && k.peer != x
      ensures LinkOk(net', x, k)
    {
      assert LinkOk(net, x, k);
      if k.peer == a && Mirror(x, k) == key {
        BothIsSymmetric(key.openedHere, ViewOf(d, key), ViewOf(net[x], k));
        assert Mirror(a, key) == k;
      }
    }
  }

  // ---- Each device step ----

  lemma OpenKeepsInv(net: Net, a: DeviceId, peer: DeviceId)
    requires Inv(net) && Enabled(net, Open(a, peer))
    ensures Inv(After(net, Open(a, peer)))
  {
    var d := net[a];
    var key := Key(peer, d.nextId, true);
    var d' := OpenTunnel(d, peer);
    NextIdIsFresh(d, peer);
    forall k
      ensures Of(d'.up, k) == Of(d.up, k) + if k == key then [Bit(KIND_OPEN, [])] else []
    {
      OfAppend(d.up, Msg(KIND_OPEN, key, []), k);
    }
    if peer in net {
      assert LinkOk(net, a, key);
      ViewOpens(ViewOf(d, key), ViewOf(net[peer], Mirror(a, key)));
    }
    OneTunnelStep(net, a, d', key);
  }

  lemma WriteKeepsInv(net: Net, a: DeviceId, key: Key, data: seq<byte>)
    requires Inv(net) && Enabled(net, Writes(a, key, data))
    ensures Inv(After(net, Writes(a, key, data)))
  {
    if key.peer in net && key.peer != a {
      assert LinkOk(net, a, key);
      ViewWrites(key.openedHere, ViewOf(net[a], key), ViewOf(net[key.peer], Mirror(a, key)), data);
    }
    OneTunnelStep(net, a, Write(net[a], key, data), key);
  }

  lemma PickUpKeepsInv(net: Net, a: DeviceId, key: Key, n: nat)
    requires Inv(net) && Enabled(net, PicksUp(a, key, n))
    ensures Inv(After(net, PicksUp(a, key, n)))
  {
    var d, d' := net[a], PickUp(net[a], key, n);
    var m := Msg(KIND_DATA, key, d.tunnels[key].pipe[..n]);
    forall k
      ensures Of(d'.pumped, k) == Of(d.pumped, k) + if k == key then [Bit(KIND_DATA, m.data)] else []
    {
      OfAppend(d.pumped, m, k);
    }
    if key.peer in net && key.peer != a {
      assert LinkOk(net, a, key);
      ViewPicksUp(key.openedHere, ViewOf(d, key), ViewOf(net[key.peer], Mirror(a, key)), n);
    }
    OneTunnelStep(net, a, d', key);
  }

  lemma EndKeepsInv(net: Net, a: DeviceId, key: Key)
    requires Inv(net) && Enabled(net, Ends(a, key))
    ensures Inv(After(net, Ends(a, key)))
  {
    var d, d' := net[a], SessionEnds(net[a], key);
    forall k
      ensures Of(d'.pumped, k) == Of(d.pumped, k) + if k == key then [Bit(KIND_CLOSE, [])] else []
    {
      OfAppend(d.pumped, Msg(KIND_CLOSE, key, []), k);
    }
    if key.peer in net && key.peer != a {
      assert LinkOk(net, a, key);
      ViewEnds(key.openedHere, ViewOf(d, key), ViewOf(net[key.peer], Mirror(a, key)));
    }
    OneTunnelStep(net, a, d', key);
  }

  /** A queue without its first message. */
  lemma QueueTail(q: seq<Msg>, k: Key)
    requires q != []
    ensures k != q[0].key ==> Of(q[1..], k) == Of(q, k)
    ensures k == q[0].key ==>
        Of(q, k) != [] && Of(q, k)[0] == Bit(q[0].kind, q[0].data) && Of(q[1..], k) == Of(q, k)[1..]
  {
    OfHead(q, k);
  }

  lemma PumpOtherView(d: Device, k: Key)
    requires d.pumped != [] && k != d.pumped[0].key
    ensures ViewOf(PumpOne(d), k) == ViewOf(d, k)
  {
    var m := d.pumped[0];
    QueueTail(d.pumped, k);
    OfAppend(d.up, Msg(KIND_DATA, m.key, m.data), k);
    OfAppend(d.up, Msg(KIND_CLOSE, m.key, []), k);
  }

  lemma PumpThisView(d: Device, k: Key)
    requires d.pumped != [] && k == d.pumped[0].key
    ensures ViewOf(d, k).pumped != [] && ViewOf(PumpOne(d), k) == PumpView(ViewOf(d, k))
  {
    var m := d.pumped[0];
    QueueTail(d.pumped, k);
    OfAppend(d.up, Msg(KIND_DATA, m.key, m.data), k);
    OfAppend(d.up, Msg(KIND_CLOSE, m.key, []), k);
  }

  lemma PumpKeepsInv(net: Net, a: DeviceId)
    requires Inv(net) && Enabled(net, Pumps(a))
    ensures Inv(After(net, Pumps(a)))
  {
    var d := net[a];
    var key := d.pumped[0].key;
    forall k
      ensures k != key ==> ViewOf(PumpOne(d), k) == ViewOf(d, k)
    {
      if k != key {
        PumpOtherView(d, k);
      }
    }
    if key.peer in net && key.peer != a {
      assert LinkOk(net, a, key);
      PumpThisView(d, key);
      ViewPumps(key.openedHere, ViewOf(d, key), ViewOf(net[key.peer], Mirror(a, key)));
    }
    OneTunnelStep(net, a, PumpOne(d), key);
  }

  lemma ReceiveUp(d: Device, listening: bool, k: Key)
    requires d.down != []
    ensures var (d', m) := (ReceiveOne(d, listening), d.down[0]);
      && d'.down == d.down[1..] && d'.pumped == d.pumped
      && Of(d'.up, k) == Of(d.up, k) + if k == m.key then Answer(Lookup(d, k), Bit(m.kind, m.data), listening) else []
  {
    OfAppend(d.up, Msg(KIND_CLOSE, d.down[0].key, []), k);
  }

  lemma ReceiveLookup(d: Device, listening: bool, k: Key)
    requires d.down != []
    ensures var (d', m) := (ReceiveOne(d, listening), d.down[0]);
      Lookup(d', k) == if k == m.key then ReceiveEnd(k.openedHere, Lookup(d, k), Bit(m.kind, m.data), listening)
          else Lookup(d, k)
  {
  }

  lemma ReceiveOtherView(d: Device, listening: bool, k: Key)
    requires d.down != [] && k != d.down[0].key
    ensures ViewOf(ReceiveOne(d, listening), k) == ViewOf(d, k)
  {
    ReceiveUp(d, listening, k);
    ReceiveLookup(d, listening, k);
    QueueTail(d.down, k);
    assert Of(d.up, k) + [] == Of(d.up, k);
  }

  lemma ReceiveThisView(d: Device, listening: bool, k: Key)
    requires d.down != [] && k == d.down[0].key
    ensures ViewOf(d, k).down != []
    ensures ViewOf(ReceiveOne(d, listening), k) == ReceiveView(k.openedHere, ViewOf(d, k), listening)
  {
    ReceiveUp(d, listening, k);
    ReceiveLookup(d, listening, k);
    QueueTail(d.down, k);
  }

  lemma ReceiveIds(d: Device, listening: bool)
    requires d.down != [] && IdsOk(d)
    ensures IdsOk(ReceiveOne(d, listening))
  {
    assert ReceiveOne(d, listening).opens == d.opens;
  }

  lemma ReceiveKeepsInv(net: Net, a: DeviceId, listening: bool)
    requires Inv(net) && Enabled(net, Receives(a, listening))
    ensures Inv(After(net, Receives(a, listening)))
  {
    var d := net[a];
    var key := d.down[0].key;
    forall k
      ensures k != key ==> ViewOf(ReceiveOne(d, listening), k) == ViewOf(d, k)
    {
      if k != key {
        ReceiveOtherView(d, listening, k);
      }
    }
    if key.peer in net && key.peer != a {
      assert LinkOk(net, a, key);
      ReceiveThisView(d, listening, key);
      ViewReceives(key.openedHere, ViewOf(d, key), ViewOf(net[key.peer], Mirror(a, key)), listening);
    }
    ReceiveIds(d, listening);
    OneTunnelStep(net, a, ReceiveOne(d, listening), key);
  }

  // ---- The relay ----

  lemma RelayKeepsInv(net: Net, a: DeviceId)
    requires Inv(net) && Enabled(net, Relays(a))
    ensures Inv(After(net, Relays(a)))
  {
    var d := net[a];
    var m := d.up[0];
    var to := m.key.peer;
    var net' := RelayOne(net, a);
    forall x, k: Key | x in net && k.peer in net && k.peer != x
      ensures LinkOk(net', x, k)
    {
      assert LinkOk(net, x, k);
      if x == a && k == m.key {
        ForwardedLink(net, a);
      } else if k.peer == a && Mirror(x, k) == m.key {
        assert x == to && Mirror(a, m.key) == k;
        assert LinkOk(net, a, m.key);
        ForwardedLink(net, a);
        BothIsSymmetric(m.key.openedHere, ViewOf(net'[a], m.key), ViewOf(net'[to], Mirror(a, m.key)));
      } else {
        RelayLeaves(net, a, x, k);
        RelayLeaves(net, a, k.peer, Mirror(x, k));
      }
    }
  }

  /** The tunnel a forwarded message is about. */
  lemma ForwardedLink(net: Net, a: DeviceId)
    requires a in net && net[a].up != []
    requires var m := net[a].up[0]; m.key.peer in net && m.key.peer != a && LinkOk(net, a, m.key)
    ensures LinkOk(RelayOne(net, a), a, net[a].up[0].key)
  {
    var m := net[a].up[0];
    var to := m.key.peer;
    var k := m.key;
    OfHead(net[a].up, k);
    OfAppend(net[to].down, Msg(m.kind, Mirror(a, k), m.data), Mirror(a, k));
    ViewRelays(k.openedHere, ViewOf(net[a], k), ViewOf(net[to], Mirror(a, k)));
  }

  /** All other tunnels between connected devices are left alone. */
  lemma RelayLeaves(net: Net, a: DeviceId, x: DeviceId, k: Key)
    requires a in net && net[a].up != [] && x in net && k.peer in net && k.peer != x
    requires !(x == a && k == net[a].up[0].key)
    requires !(k.peer == a && Mirror(x, k) == net[a].up[0].key)
    ensures ViewOf(RelayOne(net, a)[x], k) == ViewOf(net[x], k)
  {
    var m := net[a].up[0];
    if x == a {
      QueueTail(net[a].up, k);
      if m.key.peer !in net {
        OfAppend(net[a].down, Msg(KIND_CLOSE, m.key, []), k);
      }
    } else if x == m.key.peer {
      assert Mirror(a, m.key) != k by {
        assert Mirror(x, Mirror(a, m.key)) == m.key;
      }
      OfAppend(net[x].down, Msg(m.kind, Mirror(a, m.key), m.data), k);
    }
  }

  // ---- Every run ----

  lemma StepKeepsInv(net: Net, step: Step)
    requires Inv(net) && Enabled(net, step)
    ensures Inv(After(net, step))
  {
    match step
    case Open(a, peer) => OpenKeepsInv(net, a, peer);
    case Writes(a, key, data) => WriteKeepsInv(net, a, key, data);
    case PicksUp(a, key, n) => PickUpKeepsInv(net, a, key, n);
    case Ends(a, key) => EndKeepsInv(net, a, key);
    case Pumps(a) => PumpKeepsInv(net, a);
    case Relays(a) => RelayKeepsInv(net, a);
    case Receives(a, listening) => ReceiveKeepsInv(net, a, listening);
  }

  lemma {:induction false} RunKeepsInv(nets: seq<Net>, steps: seq<Step>, i: nat)
    requires Run(nets, steps) && i < |nets|
    ensures Inv(nets[i])
  {
    if i > 0 {
      RunKeepsInv(nets, steps, i - 1);
      StepKeepsInv(nets[i - 1], steps[i - 1]);
    }
  }

  /** Stream integrity: at every moment of every run, with any number of tunnels opened from both
      sides, what the session at one end of a tunnel has been handed is a prefix of what the session
      at the other end wrote. */
  lemma StreamIntegrity(nets: seq<Net>, steps: seq<Step>, i: nat, a: DeviceId, k: Key)
    requires Run(nets, steps) && i < |nets|
    requires a in nets[i] && k.peer in nets[i] && k.peer != a && Mirror(a, k) in nets[i][k.peer].tunnels
    ensures var handed := nets[i][k.peer].tunnels[Mirror(a, k)].read;
      if k in nets[i][a].tunnels then handed <= nets[i][a].tunnels[k].wrote else handed == []
  {
    var net := nets[i];
    RunKeepsInv(nets, steps, i);
    assert LinkOk(net, a, k);
    if k in net[a].tunnels {
      var t := net[a].tunnels[k];
      assert net[k.peer].tunnels[Mirror(a, k)].read <= t.sent && t.sent <= t.wrote;
    }
  }
}
