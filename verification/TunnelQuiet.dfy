/** Traffic ends: when no session writes any more and no tunnel is opened, what was written, the ends
    of sessions and the frames in flight drain in finitely many steps. A frame causes at most one
    answer, and a close never causes any. */
module TunnelQuiet {
  import opened TunnelWire
  import opened TunnelNet

  /** What is left to do about a message: a close is forgotten where it arrives, data may be answered
      with one, and an opening frame makes a tunnel whose session will end. */
  function UpWeight(m: Msg): nat {
    DownWeight(m) + 1
  }

  function DownWeight(m: Msg): nat {
    if m.kind == KIND_CLOSE then 1 else if m.kind == KIND_OPEN then 7 else 3
  }

  /** A tunnel's bytes are each picked up alone at worst, and its session ends once. */
  function EndWeight(t: End): nat {
    6 * |t.pipe| + if t.ended then 0 else 6
  }

  ghost function TunnelsWork(tunnels: map<Key, End>): nat
    decreases |tunnels|
  {
    if tunnels == map[] then 0
    else
      var k :| k in tunnels;
      EndWeight(tunnels[k]) + TunnelsWork(tunnels - {k})
  }

  lemma {:induction false} WithoutTunnel(tunnels: map<Key, End>, k: Key)
    requires k in tunnels
    ensures TunnelsWork(tunnels) == EndWeight(tunnels[k]) + TunnelsWork(tunnels - {k})
    decreases |tunnels|
  {
    var j :| j in tunnels && TunnelsWork(tunnels) == EndWeight(tunnels[j]) + TunnelsWork(tunnels - {j});
    if j != k {
      WithoutTunnel(tunnels - {j}, k);
      WithoutTunnel(tunnels - {k}, j);
      assert tunnels - {j} - {k} == tunnels - {k} - {j};
    }
  }

  lemma TunnelUpdate(tunnels: map<Key, End>, k: Key, t: End)
    ensures TunnelsWork(tunnels[k := t])
         == TunnelsWork(tunnels) + EndWeight(t) - if k in tunnels then EndWeight(tunnels[k]) else 0
  {
    WithoutTunnel(tunnels[k := t], k);
    assert tunnels[k := t] - {k} == tunnels - {k};
    if k in tunnels {
      WithoutTunnel(tunnels, k);
    } else {
      assert tunnels - {k} == tunnels;
    }
  }

  function Total(q: seq<Msg>, weight: Msg -> nat): nat {
    if q == [] then 0 else weight(q[0]) + Total(q[1..], weight)
  }

  lemma {:induction false} TotalAppend(q: seq<Msg>, m: Msg, weight: Msg -> nat)
    ensures Total(q + [m], weight) == Total(q, weight) + weight(m)
  {
    if q == [] {
      assert [m][1..] == [];
    } else {
      TotalAppend(q[1..], m, weight);
      assert (q + [m])[1..] == q[1..] + [m];
    }
  }

  ghost function Work(d: Device): nat {
    TunnelsWork(d.tunnels) + 5 * |d.pumped| + Total(d.up, UpWeight) + Total(d.down, DownWeight)
  }

  /** The work left on the devices with IDs below `n`. */
  ghost function Backlog(net: Net, n: nat): nat {
    if n == 0 then 0 else Backlog(net, n - 1) + if n - 1 in net then Work(net[n - 1]) else 0
  }

  lemma {:induction false} BacklogUpdate(net: Net, a: DeviceId, d: Device, n: nat)
    requires a in net
    ensures Backlog(net[a := d], n) == Backlog(net, n) + if a < n then Work(d) - Work(net[a]) else 0
  {
    if n > 0 {
      BacklogUpdate(net, a, d, n - 1);
    }
  }

  lemma PickingUpIsWork(d: Device, key: Key, n: nat)
    requires key in d.tunnels && 1 <= n <= |d.tunnels[key].pipe|
    ensures Work(PickUp(d, key, n)) < Work(d)
  {
    var t := d.tunnels[key];
    TunnelUpdate(d.tunnels, key, t.(pipe := t.pipe[n..]));
  }

  lemma EndingIsWork(d: Device, key: Key)
    requires key in d.tunnels && !d.tunnels[key].ended
    ensures Work(SessionEnds(d, key)) < Work(d)
  {
    TunnelUpdate(d.tunnels, key, d.tunnels[key].(ended := true));
  }

  lemma ShuttingIsNoWork(tunnels: map<Key, End>, key: Key)
    ensures TunnelsWork(Shut(tunnels, key)) == TunnelsWork(tunnels)
  {
    if key in tunnels {
      TunnelUpdate(tunnels, key, tunnels[key].(open := false));
    }
  }

  lemma PumpingIsWork(d: Device)
    requires d.pumped != []
    ensures Work(PumpOne(d)) < Work(d)
  {
    var m := d.pumped[0];
    TotalAppend(d.up, Msg(KIND_DATA, m.key, m.data), UpWeight);
    TotalAppend(d.up, Msg(KIND_CLOSE, m.key, []), UpWeight);
    ShuttingIsNoWork(d.tunnels, m.key);
    if m.key in d.tunnels {
      var t := d.tunnels[m.key];
      TunnelUpdate(d.tunnels, m.key, t.(sent := t.sent + m.data));
    }
  }

  /** What a frame received leaves to do on the tunnels. */
  lemma ReceivedTunnels(d: Device, listening: bool)
    requires d.down != []
    ensures TunnelsWork(ReceiveOne(d, listening).tunnels)
         <= TunnelsWork(d.tunnels) + if d.down[0].kind == KIND_OPEN then 6 else 0
  {
    var m := d.down[0];
    ShuttingIsNoWork(d.tunnels, m.key);
    if m.kind == KIND_OPEN {
      TunnelUpdate(d.tunnels, m.key, NewEnd());
    } else if m.key in d.tunnels {
      var t := d.tunnels[m.key];
      TunnelUpdate(d.tunnels, m.key, t.(read := t.read + m.data));
    }
  }

  lemma ReceivingIsWork(d: Device, listening: bool)
    requires d.down != []
    ensures Work(ReceiveOne(d, listening)) < Work(d)
  {
    var m := d.down[0];
    AnswersAtMostOne(d, listening);
    ReceivedTunnels(d, listening);
    TotalAppend(d.up, Msg(KIND_CLOSE, m.key, []), UpWeight);
  }

  /** At most one frame answers a frame, and none answers a close. */
  lemma AnswersAtMostOne(d: Device, listening: bool)
    requires d.down != []
    ensures var d' := ReceiveOne(d, listening);
      || d'.up == d.up
      || (d.down[0].kind == KIND_DATA && d'.up == d.up + [Msg(KIND_CLOSE, d.down[0].key, [])])
  {
  }

  lemma RelayingIsWork(net: Net, a: DeviceId, n: nat)
    requires a in net && net[a].up != [] && a < n
    requires forall x :: x in net ==> x < n
    ensures Backlog(RelayOne(net, a), n) < Backlog(net, n)
  {
    var m := net[a].up[0];
    var sender := net[a].(up := net[a].up[1..]);
    var to := m.key.peer;
    if to == a {
      BacklogUpdate(net, a, sender, n);
    } else if to in net {
      var forwarded := Msg(m.kind, Mirror(a, m.key), m.data);
      TotalAppend(net[to].down, forwarded, DownWeight);
      BacklogUpdate(net, a, sender, n);
      BacklogUpdate(net[a := sender], to, net[to].(down := net[to].down + [forwarded]), n);
    } else {
      TotalAppend(net[a].down, Msg(KIND_CLOSE, m.key, []), DownWeight);
      BacklogUpdate(net, a, RelayOne(net, a)[a], n);
    }
  }

  /** Everything but opening a tunnel and writing. */
  predicate IsDraining(step: Step) {
    !step.Open? && !step.Writes?
  }

  lemma DrainingIsWork(net: Net, step: Step, n: nat)
    requires Enabled(net, step) && IsDraining(step) && forall x :: x in net ==> x < n
    ensures Backlog(After(net, step), n) < Backlog(net, n)
    ensures After(net, step).Keys == net.Keys
  {
    var d := net[step.a];
    match step
    case PicksUp(a, key, m) =>
      PickingUpIsWork(d, key, m);
      BacklogUpdate(net, a, PickUp(d, key, m), n);
    case Ends(a, key) =>
      EndingIsWork(d, key);
      BacklogUpdate(net, a, SessionEnds(d, key), n);
    case Pumps(a) =>
      PumpingIsWork(d);
      BacklogUpdate(net, a, PumpOne(d), n);
    case Relays(a) => RelayingIsWork(net, a, n);
    case Receives(a, listening) =>
      ReceivingIsWork(d, listening);
      BacklogUpdate(net, a, ReceiveOne(d, listening), n);
  }

  /** From any state, whatever the order, at most `Backlog` steps can follow one another in which no
      tunnel is opened and nothing written: bytes picked up, sessions ending, frames sent, relayed,
      received and answered. */
  lemma {:induction false} FramesDrain(nets: seq<Net>, steps: seq<Step>, n: nat)
    requires |nets| == |steps| + 1 && forall x :: x in nets[0] ==> x < n
    requires forall k {:trigger steps[k]} :: 0 <= k < |steps| ==>
      Enabled(nets[k], steps[k]) && IsDraining(steps[k]) && nets[k + 1] == After(nets[k], steps[k])
    ensures |steps| + Backlog(nets[|steps|], n) <= Backlog(nets[0], n)
    ensures nets[|steps|].Keys == nets[0].Keys
    decreases |steps|
  {
    if steps != [] {
      var k := |steps| - 1;
      FramesDrain(nets[..|steps|], steps[..k], n);
      assert forall x :: x in nets[k] ==> x in nets[k].Keys && x in nets[0];
      DrainingIsWork(nets[k], steps[k], n);
    }
  }
}
