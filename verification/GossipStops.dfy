/** Gossip stops: as long as nobody pairs, removes or starts a session, only finitely many messages
    can be delivered, because each delivery uses up a message, and what it makes a device send is
    paid for by newer knowledge or by sessions given up. Needs room for every removal, but nothing of
    what was recorded where. */
module GossipStops {
  import opened Peers
  import opened Membership
  import opened GroupRules
  import opened Nodes
  import opened Gossip
  import opened Sets

  /** The bounds of one run: device IDs below `ids`, times below `times`, and removals only of devices
      in `removable`. */
  datatype Bounds = Bounds(ids: nat, times: nat, removable: set<DeviceId>)

  ghost predicate RosterWithin(c: Bounds, r: Roster) {
    forall e :: e in Entries(r) ==>
      e.peer.id < c.ids && Rank(Claim(e)) <= 2 * c.times && (e.Left? ==> e.peer.id in c.removable)
  }

  ghost predicate BookWithin(c: Bounds, b: Book) {
    && Valid(b) && Bounded(b, c.removable)
    && (forall p :: p in b.peers ==> p.id < c.ids && p.pairedAt < c.times)
    && (forall x :: x in b.removed ==> x.peer.id < c.ids && x.removedAt < c.times)
  }

  ghost predicate QueuesWithin(c: Bounds, outbox: map<Session, seq<Outgoing>>) {
    forall s, o :: s in outbox && o in outbox[s] && o.Message? ==> RosterWithin(c, o.roster)
  }

  ghost predicate NodeWithin(c: Bounds, n: Node) {
    BookWithin(c, n.store) && QueuesWithin(c, n.outbox)
  }

  ghost predicate Within(c: Bounds, net: Net) {
    forall i :: i in net ==> i < c.ids && NodeWithin(c, net[i])
  }

  // ---- The measure ----

  /** Messages waiting on one device. */
  ghost function Waiting(outbox: map<Session, seq<Outgoing>>): nat
    decreases |outbox|
  {
    if outbox == map[] then 0
    else
      var s :| s in outbox;
      |outbox[s]| + Waiting(outbox - {s})
  }

  /** How far these ranks of devices below `k` are from the highest there can be. */
  function Missing(rank: DeviceId -> nat, k: nat, highest: nat): nat {
    if k == 0 then 0
    else Missing(rank, k - 1, highest) + if rank(k - 1) <= highest then highest - rank(k - 1) else 0
  }

  function RanksOf(b: Book): DeviceId -> nat {
    (id: DeviceId) => Rank(StatusOf(b, id))
  }

  /** How far a device's knowledge is from the newest there can be. */
  function Ignorance(c: Bounds, b: Book): nat {
    Missing(RanksOf(b), c.ids, 2 * c.times)
  }

  /** Learning something queues at most one message on each session, and can happen only so often;
      giving a session up queues at most one. */
  ghost function Weight(c: Bounds, n: Node): nat {
    Waiting(n.outbox) + |n.conns| * (Ignorance(c, n.store) + 1)
  }

  ghost function Potential(c: Bounds, net: Net, k: nat): nat {
    if k == 0 then 0
    else Potential(c, net, k - 1) + if k - 1 in net then Weight(c, net[k - 1]) else 0
  }

  // ---- Waiting messages ----

  lemma {:induction false} WaitingWithout(outbox: map<Session, seq<Outgoing>>, s: Session)
    requires s in outbox
    ensures Waiting(outbox) == |outbox[s]| + Waiting(outbox - {s})
    decreases |outbox|
  {
    var t :| t in outbox && Waiting(outbox) == |outbox[t]| + Waiting(outbox - {t});
    if t != s {
      WaitingWithout(outbox - {t}, s);
      WaitingWithout(outbox - {s}, t);
      assert outbox - {t} - {s} == outbox - {s} - {t};
    }
  }

  lemma WaitingUpdate(outbox: map<Session, seq<Outgoing>>, s: Session, q: seq<Outgoing>)
    requires s in outbox
    ensures Waiting(outbox[s := q]) == Waiting(outbox) - |outbox[s]| + |q|
  {
    WaitingWithout(outbox, s);
    WaitingWithout(outbox[s := q], s);
    assert outbox[s := q] - {s} == outbox - {s};
  }

  function QueueOnEach(outbox: map<Session, seq<Outgoing>>, to: set<Session>,
                       o: Outgoing): map<Session, seq<Outgoing>> {
    map s | s in outbox :: if s in to then outbox[s] + [o] else outbox[s]
  }

  lemma {:induction false} WaitingOnEach(outbox: map<Session, seq<Outgoing>>, to: set<Session>, o: Outgoing)
    ensures Waiting(QueueOnEach(outbox, to, o)) <= Waiting(outbox) + |to|
    decreases |to|
  {
    if to == {} {
      assert QueueOnEach(outbox, to, o) == outbox;
    } else {
      var s :| s in to;
      var fewer := QueueOnEach(outbox, to - {s}, o);
      WaitingOnEach(outbox, to - {s}, o);
      if s in outbox {
        assert QueueOnEach(outbox, to, o) == fewer[s := outbox[s] + [o]];
        WaitingUpdate(fewer, s, outbox[s] + [o]);
      } else {
        assert QueueOnEach(outbox, to, o) == fewer;
      }
    }
  }

  lemma {:induction false} FewValues(conns: map<DeviceId, Session>)
    ensures |conns.Values| <= |conns|
    decreases |conns|
  {
    if conns != map[] {
      var p :| p in conns;
      var rest := conns - {p};
      FewValues(rest);
      assert conns.Values <= rest.Values + {conns[p]} by {
        forall s | s in conns.Values
          ensures s in rest.Values + {conns[p]}
        {
          var q :| q in conns && conns[q] == s;
          assert q != p ==> q in rest && rest[q] == s;
        }
      }
      SubsetSize(conns.Values, rest.Values + {conns[p]});
    }
  }

  lemma DisconnectWaiting(n: Node, id: DeviceId, o: Outgoing)
    ensures Waiting(Disconnect(n, id, o).outbox) + |Disconnect(n, id, o).conns| <= Waiting(n.outbox) + |n.conns|
  {
    if id in n.conns {
      var s := n.conns[id];
      assert n.conns.Keys == (n.conns - {id}).Keys + {id};
      if s in n.outbox {
        WaitingUpdate(n.outbox, s, n.outbox[s] + [o]);
      }
    }
  }

  lemma {:induction false} DisconnectAllWaiting(n: Node, ids: seq<DeviceId>, o: Outgoing)
    ensures Waiting(DisconnectAll(n, ids, o).outbox) + |DisconnectAll(n, ids, o).conns| <= Waiting(n.outbox) + |n.conns|
  {
    if ids != [] {
      DisconnectAllWaiting(n, ids[..|ids| - 1], o);
      DisconnectWaiting(DisconnectAll(n, ids[..|ids| - 1], o), ids[|ids| - 1], o);
    }
  }

  lemma SendToAllWaiting(n: Node, o: Outgoing)
    ensures Waiting(SendToAll(n, o).outbox) <= Waiting(n.outbox) + |n.conns|
  {
    assert SendToAll(n, o).outbox == QueueOnEach(n.outbox, n.conns.Values, o);
    WaitingOnEach(n.outbox, n.conns.Values, o);
    FewValues(n.conns);
  }

  // ---- Knowledge ----

  lemma {:induction false} NoMoreMissing(f: DeviceId -> nat, g: DeviceId -> nat, k: nat, highest: nat)
    requires forall x: DeviceId :: f(x) <= g(x)
    ensures Missing(g, k, highest) <= Missing(f, k, highest)
  {
    if k > 0 {
      NoMoreMissing(f, g, k - 1, highest);
      assert f(k - 1) <= g(k - 1);
    }
  }

  lemma {:induction false} LessMissing(f: DeviceId -> nat, g: DeviceId -> nat, k: nat, highest: nat, id: DeviceId)
    requires forall x: DeviceId :: f(x) <= g(x)
    requires id < k && f(id) < g(id) <= highest
    ensures Missing(g, k, highest) < Missing(f, k, highest)
  {
    if id == k - 1 {
      NoMoreMissing(f, g, k - 1, highest);
    } else {
      LessMissing(f, g, k - 1, highest, id);
      assert f(k - 1) <= g(k - 1);
    }
  }

  lemma LessIgnorant(c: Bounds, b: Book, b': Book, id: DeviceId)
    requires forall x: DeviceId :: Rank(StatusOf(b, x)) <= Rank(StatusOf(b', x))
    requires id < c.ids && Rank(StatusOf(b, id)) < Rank(StatusOf(b', id)) <= 2 * c.times
    ensures Ignorance(c, b') < Ignorance(c, b)
  {
    var f, g := RanksOf(b), RanksOf(b');
    forall x: DeviceId ensures f(x) <= g(x) {
      assert f(x) == Rank(StatusOf(b, x)) && g(x) == Rank(StatusOf(b', x));
    }
    LessMissing(f, g, c.ids, 2 * c.times, id);
  }

  lemma StatusWithin(c: Bounds, b: Book, id: DeviceId)
    requires BookWithin(c, b)
    ensures Rank(StatusOf(b, id)) <= 2 * c.times
  {
    StatusWitness(b, id);
  }

  lemma EntryStaysWithin(c: Bounds, m: Merged, me: DeviceId, from: DeviceId, e: Entry)
    requires BookWithin(c, m.book) && e.peer.id < c.ids && Rank(Claim(e)) <= 2 * c.times
    requires e.Left? ==> e.peer.id in c.removable
    ensures BookWithin(c, MergeEntry(m, me, from, e).book)
  {
    EntryEffect(m, me, from, e);
    BoundedStep(m, me, from, e, c.removable);
    if e.Left? {
      var b := m.book;
      var i := FindPeer(b.peers, e.peer.id);
      var known := if i.Some? then b.peers[i.value] else e.peer;
      RememberKeeps(b.removed, Removed(known, e.at, false));
    }
  }

  lemma {:induction false} MergeStaysWithin(c: Bounds, b: Book, me: DeviceId, from: DeviceId, es: seq<Entry>)
    requires BookWithin(c, b)
    requires forall e :: e in es ==>
      e.peer.id < c.ids && Rank(Claim(e)) <= 2 * c.times && (e.Left? ==> e.peer.id in c.removable)
    ensures BookWithin(c, MergeEntries(b, me, from, es).book)
  {
    if es != [] {
      var init, e := es[..|es| - 1], es[|es| - 1];
      assert e in es && forall x :: x in init ==> x in es;
      MergeStaysWithin(c, b, me, from, init);
      EntryStaysWithin(c, MergeEntries(b, me, from, init), me, from, e);
    }
  }

  lemma OwnRosterWithin(c: Bounds, b: Book)
    requires BookWithin(c, b)
    ensures RosterWithin(c, RosterOf(b))
  {
    forall e | e in Entries(RosterOf(b))
      ensures e.peer.id < c.ids && Rank(Claim(e)) <= 2 * c.times && (e.Left? ==> e.peer.id in c.removable)
    {
      if e.Left? {
        var i :| 0 <= i < |b.removed| && Announced(b.removed)[i] == RosterRemoval(e.peer, e.at);
        assert b.removed[i] in b.removed;
      }
    }
  }

  // ---- One delivery ----

  lemma {:induction false} DisconnectAllWithin(c: Bounds, n: Node, ids: seq<DeviceId>, o: Outgoing)
    requires QueuesWithin(c, n.outbox) && !o.Message?
    ensures QueuesWithin(c, DisconnectAll(n, ids, o).outbox)
  {
    if ids != [] {
      DisconnectAllWithin(c, n, ids[..|ids| - 1], o);
    }
  }

  lemma SendToAllWithin(c: Bounds, n: Node, r: Roster)
    requires QueuesWithin(c, n.outbox) && RosterWithin(c, r)
    ensures QueuesWithin(c, SendToAll(n, Message(r)).outbox)
  {
  }

  /** Fewer sessions, each with less to learn, weigh a message per former session less. */
  lemma NewsCosts(sessions: nat, left: nat, before: nat, after: nat)
    requires left <= sessions && after < before
    ensures sessions + left * (after + 1) <= sessions * (before + 1)
  {
    AtMost(left, sessions, before);
    AtMost(after + 1, before, left);
  }

  lemma AtMost(a: nat, b: nat, m: nat)
    requires a <= b
    ensures a * m <= b * m && m * a <= m * b
  {
    var d := b - a;
    assert b * m == a * m + d * m;
  }

  lemma NewsTeaches(c: Bounds, b: Book, me: DeviceId, from: DeviceId, r: Roster)
    requires |c.removable| <= MAX_REMOVED && BookWithin(c, b) && RosterWithin(c, r)
    ensures BookWithin(c, Merge(b, me, from, r).book)
    ensures !Merge(b, me, from, r).change.IsEmpty() ==> Ignorance(c, Merge(b, me, from, r).book) < Ignorance(c, b)
  {
    var m := Merge(b, me, from, r);
    MergeStaysWithin(c, b, me, from, Entries(r));
    ReportedMergeRaises(b, me, from, Entries(r), c.removable);
    if !m.change.IsEmpty() {
      var e :| e in Entries(r) && Rank(StatusOf(b, e.peer.id)) < Rank(StatusOf(m.book, e.peer.id));
      StatusWithin(c, m.book, e.peer.id);
      LessIgnorant(c, b, m.book, e.peer.id);
    }
  }

  lemma LighterNode(c: Bounds, n: Node, n': Node)
    requires |n'.conns| <= |n.conns| && Waiting(n'.outbox) <= Waiting(n.outbox) + |n.conns|
    requires Ignorance(c, n'.store) < Ignorance(c, n.store)
    ensures Weight(c, n') <= Weight(c, n)
  {
    NewsCosts(|n.conns|, |n'.conns|, Ignorance(c, n.store), Ignorance(c, n'.store));
  }

  /** Hearing a roster never adds to a node's weight: the messages a change makes it send are paid
      for by what it learned. */
  lemma HearingCostsNothing(c: Bounds, n: Node, me: DeviceId, from: DeviceId, r: Roster)
    requires |c.removable| <= MAX_REMOVED && NodeWithin(c, n) && RosterWithin(c, r)
    ensures NodeWithin(c, ApplyRoster(n, me, from, r))
    ensures Weight(c, ApplyRoster(n, me, from, r)) <= Weight(c, n)
  {
    NewsTeaches(c, n.store, me, from, r);
    if Merge(n.store, me, from, r).change.IsEmpty() {
      SilentMergeChangesNothing(n.store, me, from, Entries(r));
    } else {
      SendingNews(c, n, me, from, r);
      LighterNode(c, n, ApplyRoster(n, me, from, r));
    }
  }

  lemma SendingNews(c: Bounds, n: Node, me: DeviceId, from: DeviceId, r: Roster)
    requires QueuesWithin(c, n.outbox) && BookWithin(c, Merge(n.store, me, from, r).book)
    requires !Merge(n.store, me, from, r).change.IsEmpty()
    ensures var n' := ApplyRoster(n, me, from, r);
      && n'.store == Merge(n.store, me, from, r).book && NodeWithin(c, n')
      && |n'.conns| <= |n.conns| && Waiting(n'.outbox) <= Waiting(n.outbox) + |n.conns|
  {
    var m := Merge(n.store, me, from, r);
    var n0 := n.(store := m.book);
    var n1 := DisconnectAll(n0, m.change.removed, Last);
    var n2 := DisconnectAll(n1, m.change.added, Close);
    DisconnectAllShrinks(n0, m.change.removed, Last);
    DisconnectAllShrinks(n1, m.change.added, Close);
    DisconnectAllWaiting(n0, m.change.removed, Last);
    DisconnectAllWaiting(n1, m.change.added, Close);
    DisconnectAllWithin(c, n0, m.change.removed, Last);
    DisconnectAllWithin(c, n1, m.change.added, Close);
    FewerConns(n.conns, n2.conns);
    OwnRosterWithin(c, m.book);
    SendToAllWithin(c, n2, RosterOf(m.book));
    SendToAllWaiting(n2, Message(RosterOf(m.book)));
  }

  /** Nor does ending a session. */
  lemma EndingCostsNothing(c: Bounds, n: Node, peer: DeviceId, s: Session)
    requires NodeWithin(c, n)
    ensures NodeWithin(c, Unregister(n, peer, s)) && Weight(c, Unregister(n, peer, s)) <= Weight(c, n)
  {
    FewerConns(n.conns, Unregister(n, peer, s).conns);
    AtMost(|Unregister(n, peer, s).conns|, |n.conns|, Ignorance(c, n.store) + 1);
  }

  lemma SessionlessNode(c: Bounds, n: Node, n': Node)
    requires n'.conns == map[] && Waiting(n'.outbox) <= Waiting(n.outbox) + |n.conns|
    ensures Weight(c, n') <= Weight(c, n)
  {
    AtMost(1, Ignorance(c, n.store) + 1, |n.conns|);
  }

  lemma LeavingWithin(c: Bounds, n: Node, who: DeviceId)
    requires NodeWithin(c, n)
    ensures NodeWithin(c, LeaveGroup(n, who))
  {
    if HasPeer(n.store.peers, who) {
      var n' := LeaveGroup(n, who);
      assert BookWithin(c, n'.store);
      assert QueuesWithin(c, n'.outbox);
    }
  }

  /** Nor does leaving the group: the device forgets what it knew, but has no session left to tell. */
  lemma LeavingCostsNothing(c: Bounds, n: Node, who: DeviceId)
    requires NodeWithin(c, n)
    ensures NodeWithin(c, LeaveGroup(n, who)) && Weight(c, LeaveGroup(n, who)) <= Weight(c, n)
  {
    LeavingWithin(c, n, who);
    if HasPeer(n.store.peers, who) {
      SendToAllWaiting(n, Close);
      SessionlessNode(c, n, LeaveGroup(n, who));
    }
  }

  lemma {:induction false} FewerConns(a: map<DeviceId, Session>, b: map<DeviceId, Session>)
    requires ConnsShrink(a, b)
    ensures |b| <= |a|
    decreases |b|
  {
    if b != map[] {
      var p :| p in b;
      FewerConns(a - {p}, b - {p});
    }
  }

  // ---- The network ----

  lemma {:induction false} PotentialUpdate(c: Bounds, net: Net, i: DeviceId, n': Node, k: nat)
    requires i in net
    ensures Potential(c, net[i := n'], k)
         == Potential(c, net, k) + if i < k then Weight(c, n') - Weight(c, net[i]) else 0
  {
    if k > 0 {
      PotentialUpdate(c, net, i, n', k - 1);
    }
  }

  predicate IsDelivery(net: Net, step: Step) {
    step.Hear? && Deliverable(net, step.i, step.j, step.s)
  }

  lemma NodeUpdate(c: Bounds, net: Net, i: DeviceId, n': Node, net': Net)
    requires Within(c, net) && i in net && NodeWithin(c, n') && net' == net[i := n']
    ensures Within(c, net') && Potential(c, net', c.ids) == Potential(c, net, c.ids) + Weight(c, n') - Weight(c, net[i])
  {
    PotentialUpdate(c, net, i, n', c.ids);
  }

  lemma OneLighter(c: Bounds, net: Net, j: DeviceId, heard: Node, i: DeviceId, sender: Node, net': Net)
    requires Within(c, net) && i in net && j in net && i != j && net' == net[j := heard][i := sender]
    requires NodeWithin(c, heard) && Weight(c, heard) <= Weight(c, net[j])
    requires NodeWithin(c, sender) && Weight(c, sender) < Weight(c, net[i])
    ensures Within(c, net') && Potential(c, net', c.ids) < Potential(c, net, c.ids)
  {
    var net1 := net[j := heard];
    NodeUpdate(c, net, j, heard, net1);
    NodeUpdate(c, net1, i, sender, net');
  }

  /** Each delivery, of a roster, a closing or a notice of removal, strictly lowers the measure. */
  lemma DeliveryLowersPotential(c: Bounds, net: Net, step: Step)
    requires |c.removable| <= MAX_REMOVED && Within(c, net) && IsDelivery(net, step)
    ensures Within(c, After(net, step))
    ensures Potential(c, After(net, step), c.ids) < Potential(c, net, c.ids)
  {
    var (i, j, s) := (step.i, step.j, step.s);
    ReceivingCostsNothing(c, net[i], net[j], j, i, s);
    PopWithin(c, net[i], s);
    OneLighter(c, net, j, Receive(net[j], j, i, s, net[i].outbox[s][0]), i, Pop(net[i], s), After(net, step));
  }

  lemma ReceivingCostsNothing(c: Bounds, sender: Node, n: Node, me: DeviceId, from: DeviceId, s: Session)
    requires |c.removable| <= MAX_REMOVED && NodeWithin(c, sender) && NodeWithin(c, n)
    requires s in sender.outbox && sender.outbox[s] != []
    ensures var heard := Receive(n, me, from, s, sender.outbox[s][0]);
      NodeWithin(c, heard) && Weight(c, heard) <= Weight(c, n)
  {
    var o := sender.outbox[s][0];
    assert o in sender.outbox[s];
    match o
    case Message(r) => HearingCostsNothing(c, n, me, from, r);
    case Last =>
      LeavingCostsNothing(c, n, from);
      EndingCostsNothing(c, LeaveGroup(n, from), from, s);
    case Close => EndingCostsNothing(c, n, from, s);
  }

  lemma PopWithin(c: Bounds, n: Node, s: Session)
    requires NodeWithin(c, n) && s in n.outbox && n.outbox[s] != []
    ensures NodeWithin(c, Pop(n, s)) && Weight(c, Pop(n, s)) == Weight(c, n) - 1
  {
    assert forall o :: o in n.outbox[s][1..] ==> o in n.outbox[s];
    WaitingUpdate(n.outbox, s, n.outbox[s][1..]);
  }

  lemma EndingKeepsPotential(c: Bounds, net: Net, i: DeviceId, j: DeviceId, s: Session)
    requires Within(c, net) && i in net
    ensures Within(c, After(net, Ended(i, j, s)))
    ensures Potential(c, After(net, Ended(i, j, s)), c.ids) <= Potential(c, net, c.ids)
  {
    EndingCostsNothing(c, net[i], j, s);
    PotentialUpdate(c, net, i, Unregister(net[i], j, s), c.ids);
  }

  /** A run of deliveries of any messages, during which sessions may end but none starts. */
  ghost predicate GossipRun(nets: seq<Net>, steps: seq<Step>) {
    && |nets| == |steps| + 1
    && forall k {:trigger steps[k]} :: 0 <= k < |steps| ==>
      && (IsDelivery(nets[k], steps[k]) || (steps[k].Ended? && steps[k].i in nets[k]))
      && nets[k + 1] == After(nets[k], steps[k])
  }

  function Deliveries(steps: seq<Step>): nat {
    if steps == [] then 0
    else Deliveries(steps[..|steps| - 1]) + if steps[|steps| - 1].Hear? then 1 else 0
  }

  /** Gossip stops: a run from `net` delivers at most `Potential` of `net` messages, whatever the
      order, so there is no endless run. */
  lemma {:induction false} GossipTerminates(c: Bounds, nets: seq<Net>, steps: seq<Step>)
    requires |c.removable| <= MAX_REMOVED && GossipRun(nets, steps) && Within(c, nets[0])
    ensures Within(c, nets[|steps|])
    ensures Deliveries(steps) + Potential(c, nets[|steps|], c.ids) <= Potential(c, nets[0], c.ids)
    decreases |steps|
  {
    if steps != [] {
      var k := |steps| - 1;
      GossipTerminates(c, nets[..|steps|], steps[..k]);
      if IsDelivery(nets[k], steps[k]) {
        DeliveryLowersPotential(c, nets[k], steps[k]);
      } else {
        EndingKeepsPotential(c, nets[k], steps[k].i, steps[k].j, steps[k].s);
      }
    }
  }

  // ---- Every net is within some bounds ----

  ghost predicate EntriesBelow(m: nat, es: seq<Entry>) {
    forall e :: e in es ==> e.peer.id < m && Rank(Claim(e)) <= 2 * m
  }

  ghost predicate QueueBelow(m: nat, q: seq<Outgoing>) {
    forall o :: o in q && o.Message? ==> EntriesBelow(m, Entries(o.roster))
  }

  ghost predicate NodeBelow(m: nat, n: Node) {
    && (forall p :: p in n.store.peers ==> p.id < m && p.pairedAt < m)
    && (forall x :: x in n.store.removed ==> x.peer.id < m && x.removedAt < m)
    && (forall s :: s in n.outbox ==> QueueBelow(m, n.outbox[s]))
  }

  lemma {:induction false} EntriesBound(es: seq<Entry>) returns (m: nat)
    ensures EntriesBelow(m, es)
  {
    if es == [] {
      m := 0;
    } else {
      var init, e := es[..|es| - 1], es[|es| - 1];
      assert es == init + [e];
      m := EntriesBound(init);
      m := m + e.peer.id + Rank(Claim(e)) + 1;
    }
  }

  lemma {:induction false} QueueBound(q: seq<Outgoing>) returns (m: nat)
    ensures QueueBelow(m, q)
  {
    if q == [] {
      m := 0;
    } else {
      var init, o := q[..|q| - 1], q[|q| - 1];
      assert q == init + [o];
      m := QueueBound(init);
      if o.Message? {
        var k := EntriesBound(Entries(o.roster));
        m := m + k;
      }
    }
  }

  lemma {:induction false} OutboxBound(outbox: map<Session, seq<Outgoing>>) returns (m: nat)
    ensures forall s :: s in outbox ==> QueueBelow(m, outbox[s])
    decreases |outbox|
  {
    if outbox == map[] {
      m := 0;
    } else {
      var s :| s in outbox;
      var rest := outbox - {s};
      m := OutboxBound(rest);
      var k := QueueBound(outbox[s]);
      m := m + k;
      forall t | t in outbox ensures QueueBelow(m, outbox[t]) {
        assert t != s ==> t in rest && rest[t] == outbox[t];
      }
    }
  }

  lemma {:induction false} PeersBound(s: seq<Peer>) returns (m: nat)
    ensures forall p :: p in s ==> p.id < m && p.pairedAt < m
  {
    if s == [] {
      m := 0;
    } else {
      assert s == s[..|s| - 1] + [s[|s| - 1]];
      m := PeersBound(s[..|s| - 1]);
      m := m + s[|s| - 1].id + s[|s| - 1].pairedAt + 1;
    }
  }

  lemma {:induction false} RemovedBound(s: seq<Removed>) returns (m: nat)
    ensures forall x :: x in s ==> x.peer.id < m && x.removedAt < m
  {
    if s == [] {
      m := 0;
    } else {
      assert s == s[..|s| - 1] + [s[|s| - 1]];
      m := RemovedBound(s[..|s| - 1]);
      m := m + s[|s| - 1].peer.id + s[|s| - 1].removedAt + 1;
    }
  }

  lemma NodeBound(n: Node) returns (m: nat)
    ensures NodeBelow(m, n)
  {
    var a := PeersBound(n.store.peers);
    var b := RemovedBound(n.store.removed);
    var c := OutboxBound(n.outbox);
    m := a + b + c;
  }

  lemma NodeBelowMore(m: nat, k: nat, n: Node)
    requires NodeBelow(m, n) && m <= k
    ensures NodeBelow(k, n)
  {
  }

  lemma {:induction false} NetBound(net: Net) returns (m: nat)
    ensures forall i :: i in net ==> i < m && NodeBelow(m, net[i])
    decreases |net|
  {
    if net == map[] {
      m := 0;
    } else {
      var i :| i in net;
      var rest := net - {i};
      var k := NetBound(rest);
      var n := NodeBound(net[i]);
      m := k + n + i + 1;
      forall j | j in net ensures j < m && NodeBelow(m, net[j]) {
        if j == i {
          NodeBelowMore(n, m, net[j]);
        } else {
          assert j in rest && rest[j] == net[j];
          NodeBelowMore(k, m, net[j]);
        }
      }
    }
  }

  lemma CleanBelowWithin(l: Limits, m: nat, me: DeviceId, n: Node)
    requires Proper(l) && NodeClean(l, me, n) && NodeBelow(m, n)
    ensures NodeWithin(Bounds(m, m, l.removable), n)
  {
    forall s, o | s in n.outbox && o in n.outbox[s] && o.Message?
      ensures RosterWithin(Bounds(m, m, l.removable), o.roster)
    {
      assert QueueClean(l, n.outbox[s]) && QueueBelow(m, n.outbox[s]);
      CleanEntries(l, o.roster);
    }
  }

  /** From any net that keeps the limits of the group there is a number of deliveries no run without
      pairings, removals and new sessions exceeds. */
  lemma AlwaysStops(l: Limits, net: Net) returns (most: nat)
    requires Proper(l) && Clean(l, net)
    ensures forall nets, steps :: GossipRun(nets, steps) && nets[0] == net ==> Deliveries(steps) <= most
  {
    var m := NetBound(net);
    var c := Bounds(m, m, l.removable);
    forall i | i in net ensures i < c.ids && NodeWithin(c, net[i]) {
      CleanBelowWithin(l, m, i, net[i]);
    }
    most := Potential(c, net, c.ids);
    forall nets, steps | GossipRun(nets, steps) && nets[0] == net ensures Deliveries(steps) <= most {
      GossipTerminates(c, nets, steps);
    }
  }
}
