/** The node object: the store, the table of sessions and their queues, changed in place. */
module LanNode {
  import opened Peers
  import opened PeerStorage
  import opened Nodes

  class Inner {
    const me: DeviceId
    const peers: PeerStore
    var conns: map<DeviceId, Session>
    var outbox: map<Session, seq<Outgoing>>

    ghost function Value(): Node
      reads this, peers
    {
      Node(peers.Value(), conns, outbox)
    }

    constructor (me: DeviceId)
      ensures Value() == Node(Book([], []), map[], map[])
      ensures fresh(peers) && this.me == me
    {
      this.me := me;
      peers := new PeerStore();
      conns, outbox := map[], map[];
    }

    method Send(s: Session, o: Outgoing)
      modifies this`outbox
      ensures outbox == Queue(old(outbox), s, o)
    {
      if s in outbox {
        outbox := outbox[s := outbox[s] + [o]];
      }
    }

    /** The table of sessions is visited in no particular order. */
    method SendToAll(o: Outgoing)
      modifies this`outbox
      ensures Value() == Nodes.SendToAll(old(Value()), o)
    {
      ghost var before := outbox;
      var left := conns.Values;
      while left != {}
        invariant left <= conns.Values
        invariant outbox.Keys == before.Keys
        invariant forall s :: s in before ==>
            outbox[s] == if s in conns.Values && s !in left then before[s] + [o] else before[s]
        decreases |left|
      {
        var s :| s in left;
        Send(s, o);
        left := left - {s};
      }
    }

    method SendRosterToAll()
      modifies this`outbox
      ensures Value() == Nodes.SendToAll(old(Value()), Message(RosterOf(old(Value()).store)))
    {
      var roster := peers.Roster();
      SendToAll(Message(roster));
    }

    method Register(peer: DeviceId, s: Session) returns (ok: bool)
      modifies this`conns, this`outbox
      ensures Value() == Nodes.Register(old(Value()), me, peer, s)
      ensures ok == Accepts(old(Value()), me, peer, s)
    {
      var known := peers.Get(peer);
      if known.None? {
        return false;
      }
      var preferred := Min(me, peer);
      if peer in conns {
        var existing := conns[peer];
        if existing.initiator == preferred || s.initiator != preferred {
          return false;
        }
        Send(existing, Close);
      }
      conns := conns[peer := s];
      outbox := outbox[s := []];
      ok := true;
    }

    method StartSession(peer: DeviceId, s: Session)
      modifies this`conns, this`outbox
      ensures Value() == Nodes.StartSession(old(Value()), me, peer, s)
    {
      var ok := Register(peer, s);
      if !ok {
        return;
      }
      var roster := peers.Roster();
      if peer in conns {
        Send(conns[peer], Message(roster));
      }
    }

    method Unregister(peer: DeviceId, s: Session)
      modifies this`conns
      ensures Value() == Nodes.Unregister(old(Value()), peer, s)
    {
      if peer in conns && conns[peer] == s {
        conns := conns - {peer};
      }
    }

    method Disconnect(id: DeviceId, o: Outgoing)
      modifies this`conns, this`outbox
      ensures Value() == Nodes.Disconnect(old(Value()), id, o)
    {
      if id in conns {
        var s := conns[id];
        conns := conns - {id};
        Send(s, o);
      }
    }

    method DisconnectAll(ids: seq<DeviceId>, o: Outgoing)
      modifies this`conns, this`outbox
      ensures Value() == Nodes.DisconnectAll(old(Value()), ids, o)
    {
      ghost var before := Value();
      for i := 0 to |ids|
        invariant Value() == Nodes.DisconnectAll(before, ids[..i], o)
      {
        assert ids[..i + 1][..i] == ids[..i];
        Disconnect(ids[i], o);
      }
      assert ids[..|ids|] == ids;
    }

    method ApplyRoster(from: DeviceId, roster: Roster)
      modifies this`conns, this`outbox, peers
      ensures Value() == Nodes.ApplyRoster(old(Value()), me, from, roster)
    {
      var change := peers.Merge(me, from, roster);
      if change.IsEmpty() {
        return;
      }
      DisconnectAll(change.removed, Last);
      DisconnectAll(change.added, Close);
      SendRosterToAll();
    }

    method LeaveGroup(who: DeviceId)
      modifies this`conns, this`outbox, peers
      ensures Value() == Nodes.LeaveGroup(old(Value()), who)
    {
      var known := peers.Get(who);
      if known.None? {
        return;
      }
      peers.Clear();
      SendToAll(Close);
      conns := map[];
    }

    method RemovePeer(id: DeviceId, at: nat)
      modifies this`conns, this`outbox, peers
      ensures Value() == Nodes.RemovePeer(old(Value()), id, at)
    {
      Disconnect(id, Last);
      var _ := peers.Remove(id, at);
      SendRosterToAll();
    }

    method StorePeer(p: Peer)
      modifies this`outbox, peers
      ensures Value() == Nodes.StorePeer(old(Value()), p)
    {
      peers.Upsert(p);
      SendRosterToAll();
    }
  }
}
