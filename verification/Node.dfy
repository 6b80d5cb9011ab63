/** The part of a running node (`crates/cled-lan/src/node.rs`) that keeps the group: its sessions,
    the messages it queues for them, and what it does with a roster. Values and functions; the node
    object itself is in `LanNode.dfy`. */
module Nodes {
  import opened Peers

  /** One established session: who dialed, who accepted, and a number telling apart the sessions of
      one pair of devices. Both ends know it by this identity. */
  datatype Session = Session(number: nat, initiator: DeviceId, responder: DeviceId) {
    predicate Joins(a: DeviceId, b: DeviceId) {
      (initiator == a && responder == b) || (initiator == b && responder == a)
    }
  }

  /** What is queued for a session's writer: a roster, the notice of removal after which it closes,
      or the request to close. Clipboard items and pings are left out. */
  datatype Outgoing = Message(roster: Roster) | Last | Close

  datatype Node = Node(store: Book, conns: map<DeviceId, Session>, outbox: map<Session, seq<Outgoing>>)

  function Queue(outbox: map<Session, seq<Outgoing>>, s: Session, o: Outgoing): map<Session, seq<Outgoing>> {
    if s in outbox then outbox[s := outbox[s] + [o]] else outbox
  }

  function SendTo(n: Node, peer: DeviceId, o: Outgoing): Node {
    if peer in n.conns then n.(outbox := Queue(n.outbox, n.conns[peer], o)) else n
  }

  /** One message on every session. */
  function SendToAll(n: Node, o: Outgoing): Node {
    n.(outbox := map s | s in n.outbox :: if s in n.conns.Values then n.outbox[s] + [o] else n.outbox[s])
  }

  /** Drops the session with `id`, if there is one, after a last `o`. */
  function Disconnect(n: Node, id: DeviceId, o: Outgoing): Node {
    if id in n.conns then Node(n.store, n.conns - {id}, Queue(n.outbox, n.conns[id], o)) else n
  }

  function DisconnectAll(n: Node, ids: seq<DeviceId>, o: Outgoing): Node {
    if ids == [] then n
    else Disconnect(DisconnectAll(n, ids[..|ids| - 1], o), ids[|ids| - 1], o)
  }

  function Min(a: DeviceId, b: DeviceId): DeviceId {
    if a < b then a else b
  }

  /** Whether device `me` takes up session `s` with `peer`: `peer` must be paired, and of two
      sessions both ends keep the one dialed by the lower ID. */
  predicate Accepts(n: Node, me: DeviceId, peer: DeviceId, s: Session) {
    && HasPeer(n.store.peers, peer)
    && (peer in n.conns ==> n.conns[peer].initiator != Min(me, peer) && s.initiator == Min(me, peer))
  }

  function Register(n: Node, me: DeviceId, peer: DeviceId, s: Session): Node {
    if !Accepts(n, me, peer, s) then n
    else
      var outbox := if peer in n.conns then Queue(n.outbox, n.conns[peer], Close) else n.outbox;
      Node(n.store, n.conns[peer := s], outbox[s := []])
  }

  /** Registers the session and, if it was taken up, sends this device's roster on it. */
  function StartSession(n: Node, me: DeviceId, peer: DeviceId, s: Session): Node {
    if !Accepts(n, me, peer, s) then n
    else SendTo(Register(n, me, peer, s), peer, Message(RosterOf(n.store)))
  }

  /** A session ended: forgotten, unless another has replaced it. */
  function Unregister(n: Node, peer: DeviceId, s: Session): Node {
    if peer in n.conns && n.conns[peer] == s then n.(conns := n.conns - {peer}) else n
  }

  function ApplyRoster(n: Node, me: DeviceId, from: DeviceId, roster: Roster): Node {
    var m := Merge(n.store, me, from, roster);
    if m.change.IsEmpty() then n.(store := m.book)
    else
      var n1 := DisconnectAll(n.(store := m.book), m.change.removed, Last);
      var n2 := DisconnectAll(n1, m.change.added, Close);
      SendToAll(n2, Message(RosterOf(m.book)))
  }

  /** `who` removed this device: forget the group and close every session. */
  function LeaveGroup(n: Node, who: DeviceId): Node {
    if !HasPeer(n.store.peers, who) then n
    else Node(Clear(n.store), map[], SendToAll(n, Close).outbox)
  }

  function RemovePeer(n: Node, id: DeviceId, at: nat): Node {
    var n1 := Disconnect(n, id, Last);
    var store := Remove(n.store, id, at);
    SendToAll(n1.(store := store), Message(RosterOf(store)))
  }

  /** A completed pairing. */
  function StorePeer(n: Node, p: Peer): Node {
    var store := Upsert(n.store, p);
    SendToAll(n.(store := store), Message(RosterOf(store)))
  }

  // ---- What these have in common ----

  /** Sessions are between this device and the peer they are filed under, and each has a queue. */
  ghost predicate Wired(n: Node, me: DeviceId) {
    forall p :: p in n.conns ==> n.conns[p].Joins(me, p) && n.conns[p] in n.outbox && p != me
  }

  ghost predicate QueuesGrow(a: map<Session, seq<Outgoing>>, b: map<Session, seq<Outgoing>>) {
    a.Keys == b.Keys && forall s :: s in a ==> a[s] <= b[s]
  }

  ghost predicate ConnsShrink(a: map<DeviceId, Session>, b: map<DeviceId, Session>) {
    forall p :: p in b ==> p in a && a[p] == b[p]
  }

  lemma DisconnectShrinks(n: Node, id: DeviceId, o: Outgoing)
    ensures var n' := Disconnect(n, id, o);
      n'.store == n.store && QueuesGrow(n.outbox, n'.outbox) && ConnsShrink(n.conns, n'.conns)
  {
  }

  lemma {:induction false} DisconnectAllShrinks(n: Node, ids: seq<DeviceId>, o: Outgoing)
    ensures var n' := DisconnectAll(n, ids, o);
      n'.store == n.store && QueuesGrow(n.outbox, n'.outbox) && ConnsShrink(n.conns, n'.conns)
  {
    if ids != [] {
      DisconnectAllShrinks(n, ids[..|ids| - 1], o);
      DisconnectShrinks(DisconnectAll(n, ids[..|ids| - 1], o), ids[|ids| - 1], o);
    }
  }

  lemma SentToAll(n: Node, o: Outgoing)
    ensures var n' := SendToAll(n, o);
      && n'.store == n.store && n'.conns == n.conns && QueuesGrow(n.outbox, n'.outbox)
      && forall p :: p in n.conns && n.conns[p] in n.outbox ==> o in n'.outbox[n.conns[p]]
  {
    var n' := SendToAll(n, o);
    forall p | p in n.conns && n.conns[p] in n.outbox
      ensures o in n'.outbox[n.conns[p]]
    {
      var s := n.conns[p];
      assert s in n.conns.Values;
      assert n'.outbox[s][|n.outbox[s]|] == o;
    }
  }
}
