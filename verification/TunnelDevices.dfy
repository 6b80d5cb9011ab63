/** The table of open tunnels (`TunnelTable`) does to bytes what a device of the network (`TunnelNet`)
    does to messages; and a tunnel once closed stays closed. */
module TunnelDevices {
  import opened Bytes
  import opened Wrappers
  import opened TunnelWire
  import opened TunnelNet
  import TunnelTable
  import TunnelIntegrity

  /** What a table holds of a device: its open tunnels, and what their sessions have been handed. */
  function OpenOf(d: Device): TunnelTable.Table {
    map k | k in d.tunnels && d.tunnels[k].open :: d.tunnels[k].read
  }

  // ---- Refinement ----

  /** The table after a frame is that of the device after the message; what is answered is the frame
      of the one message the device sends, if any; and a session is started exactly for a tunnel the
      device opens anew. */
  lemma ReceiveRefines(names: Names, d: Device, listening: bool, frame: seq<byte>)
    requires TunnelTable.Short(names) && d.down != []
    requires var m := d.down[0]; Decode(names, frame) == Some(Decoded(m.kind, m.key, m.data))
    ensures var m, d' := d.down[0], ReceiveOne(d, listening);
      var (table, incoming) := TunnelTable.Received(names, OpenOf(d), listening, frame);
      && table == OpenOf(d')
      && (incoming.Invalid? <==> m.kind == KIND_OPEN && m.key.openedHere)
      && (match incoming
          case Reply(reply) => d'.up == d.up + [Msg(KIND_CLOSE, m.key, [])]
              && reply == Encode(names, KIND_CLOSE, m.key, [])
          case Opened(peer) => d'.up == d.up && peer == m.key.peer
              && m.key in d'.tunnels && d'.tunnels[m.key] == NewEnd()
          case _ => d'.up == d.up)
  {
    var m, d' := d.down[0], ReceiveOne(d, listening);
    var table := TunnelTable.Received(names, OpenOf(d), listening, frame).0;
    forall k ensures k in table <==> k in OpenOf(d') {
    }
    forall k | k in table ensures table[k] == OpenOf(d')[k] {
    }
  }

  lemma PumpRefines(names: Names, d: Device)
    requires TunnelTable.Short(names) && d.pumped != [] && ValidKey(d.pumped[0].key)
    ensures var m, d' := d.pumped[0], PumpOne(d);
      var picked := if m.kind == KIND_DATA then Some(m.data) else None;
      var (table, frame) := TunnelTable.Pumped(names, OpenOf(d), m.key, picked);
      && table == OpenOf(d')
      && match frame
         case None => d'.up == d.up
         case Some(bytes) =>
           var kind, data := if picked.Some? then KIND_DATA else KIND_CLOSE, if picked.Some? then m.data else [];
           d'.up == d.up + [Msg(kind, m.key, data)] && bytes == Encode(names, kind, m.key, data)
  {
    var m, d' := d.pumped[0], PumpOne(d);
    var picked := if m.kind == KIND_DATA then Some(m.data) else None;
    var table := TunnelTable.Pumped(names, OpenOf(d), m.key, picked).0;
    forall k ensures k in table <==> k in OpenOf(d') {
    }
    forall k | k in table ensures table[k] == OpenOf(d')[k] {
    }
  }

  lemma OpenRefines(names: Names, d: Device, peer: DeviceId)
    requires TunnelTable.Short(names) && d.nextId < U32_LIMIT
    ensures var d', key := OpenTunnel(d, peer), Key(peer, d.nextId, true);
      var (table, frame) := TunnelTable.Dialed(names, OpenOf(d), d.nextId, peer);
      && table == OpenOf(d')
      && d'.up == d.up + [Msg(KIND_OPEN, key, [])] && frame == Encode(names, KIND_OPEN, key, [])
  {
  }

  // ---- What a message does to the tunnels ----

  /** After an opening message of the other side its tunnel is open, with nothing handed over. Data
      is handed to a session that reads it; after data that cannot be handed over, answered with a
      close, and after a close, the tunnel is not open. No other tunnel changes. */
  lemma ReceivedMessage(d: Device, listening: bool)
    requires d.down != []
    ensures var (m, d') := (d.down[0], ReceiveOne(d, listening));
      && (IsOpen(d', m.key) <==>
            || (m.kind == KIND_OPEN && (!m.key.openedHere || IsOpen(d, m.key)))
            || (m.kind == KIND_DATA && IsOpen(d, m.key) && listening))
      && (IsOpen(d', m.key) ==>
            d'.tunnels[m.key].read
            == (if m.kind == KIND_DATA then d.tunnels[m.key].read + m.data
                else if m.key.openedHere then d.tunnels[m.key].read else []))
      && (d'.up == if m.kind == KIND_DATA && !(IsOpen(d, m.key) && listening)
            then d.up + [Msg(KIND_CLOSE, m.key, [])] else d.up)
      && d'.down == d.down[1..]
      && forall k :: k != m.key ==>
           (k in d'.tunnels <==> k in d.tunnels) && (k in d.tunnels ==> d'.tunnels[k] == d.tunnels[k])
  {
  }

  /** What is picked up from a session is sent while its tunnel is open, and its end closes the tunnel;
      afterwards nothing of it is sent. */
  lemma PumpedMessage(d: Device)
    requires d.pumped != []
    ensures var (m, d') := (d.pumped[0], PumpOne(d));
      && (IsOpen(d', m.key) <==> IsOpen(d, m.key) && m.kind == KIND_DATA)
      && (d'.up == if !IsOpen(d, m.key) then d.up
            else if m.kind == KIND_DATA then d.up + [Msg(KIND_DATA, m.key, m.data)]
            else d.up + [Msg(KIND_CLOSE, m.key, [])])
      && d'.pumped == d.pumped[1..] && d'.down == d.down
      && forall k :: k != m.key ==>
           (k in d'.tunnels <==> k in d.tunnels) && (k in d.tunnels ==> d'.tunnels[k] == d.tunnels[k])
  {
  }

  // ---- Closed for good ----

  /** Between moments `i` and `j`, device `a` takes no opening message for tunnel `k`. */
  ghost predicate NotReopened(nets: seq<Net>, steps: seq<Step>, i: nat, j: nat, a: DeviceId, k: Key)
    requires j <= |steps| < |nets|
  {
    forall m {:trigger steps[m]} :: i <= m < j && steps[m].Receives? && steps[m].a == a ==>
      a in nets[m] && nets[m][a].down != [] && (nets[m][a].down[0].key == k ==> nets[m][a].down[0].kind != KIND_OPEN)
  }

  ghost predicate ClosedWith(net: Net, a: DeviceId, k: Key, sent: seq<byte>, read: seq<byte>) {
    && a in net && k in net[a].tunnels && !net[a].tunnels[k].open
    && net[a].tunnels[k].sent == sent && net[a].tunnels[k].read == read
  }

  lemma StepKeepsClosed(net: Net, step: Step, a: DeviceId, k: Key, sent: seq<byte>, read: seq<byte>)
    requires Enabled(net, step) && TunnelIntegrity.Inv(net) && ClosedWith(net, a, k, sent, read)
    requires step.Receives? && step.a == a && net[a].down[0].key == k && net[a].down[0].kind == KIND_OPEN ==>
      k.openedHere
    ensures ClosedWith(After(net, step), a, k, sent, read)
  {
    match step
    case Open(b, peer) => TunnelIntegrity.NextIdIsFresh(net[b], peer);
    case _ =>
  }

  /** A tunnel that is not open, at any moment of any run, stays so, and nothing more is handed to its
      session nor framed of what that writes, until the other side opens it anew; one opened here
      stays closed for good. */
  lemma {:induction false} ClosedStaysClosed(nets: seq<Net>, steps: seq<Step>, i: nat, j: nat, a: DeviceId, k: Key)
    requires Run(nets, steps) && i <= j < |nets| && a in nets[i] && k in nets[i][a].tunnels && !IsOpen(nets[i][a], k)
    requires k.openedHere || NotReopened(nets, steps, i, j, a, k)
    ensures ClosedWith(nets[j], a, k, nets[i][a].tunnels[k].sent, nets[i][a].tunnels[k].read)
    decreases j
  {
    if i < j {
      assert !k.openedHere ==> NotReopened(nets, steps, i, j - 1, a, k);
      ClosedStaysClosed(nets, steps, i, j - 1, a, k);
      TunnelIntegrity.RunKeepsInv(nets, steps, j - 1);
      var net, step := nets[j - 1], steps[j - 1];
      assert Enabled(net, step) && nets[j] == After(net, step);
      StepKeepsClosed(net, step, a, k, nets[i][a].tunnels[k].sent, nets[i][a].tunnels[k].read);
    }
  }
}
