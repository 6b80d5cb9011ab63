/** A group of devices exchanging rosters: sessions start, end and are replaced at any moment on
    either end, devices pair, remove each other and leave, and each session carries its messages in
    order. Whenever the two queues of a session both its ends hold are empty, its ends agree on
    every other device. */
module Gossip {
  import opened Peers
  import opened Membership
  import opened GroupRules
  import opened GroupJoin
  import opened Nodes

  type Net = map<DeviceId, Node>

  /** What bounds a run: the pairings and removals ever recorded, the devices ever removed, the
      devices ever in the group. */
  datatype Limits = Limits(records: Records, removable: set<DeviceId>, group: set<DeviceId>)

  /** Rosters fit and no removal is forgotten. */
  predicate Proper(l: Limits) {
    |l.removable| <= MAX_REMOVED && |l.group| <= MAX_ROSTER_ENTRIES
  }

  /** What device `i` holds of `id`. */
  function Holds(net: Net, i: DeviceId, id: DeviceId): Status
    requires i in net
  {
    StatusOf(net[i].store, id)
  }

  // ---- Steps ----

  predicate Deliverable(net: Net, i: DeviceId, j: DeviceId, s: Session) {
    && i != j && i in net && j in net && s.Joins(i, j)
    && s in net[i].outbox && net[i].outbox[s] != []
    && s in net[j].outbox // The read loop of `j` runs once `j` has started the session.
  }

  /** What device `j` does with a message of `from` read off session `s`. */
  function Receive(n: Node, j: DeviceId, from: DeviceId, s: Session, o: Outgoing): Node {
    match o
    case Message(roster) => ApplyRoster(n, j, from, roster)
    case Last => Unregister(LeaveGroup(n, from), from, s)
    case Close => Unregister(n, from, s)
  }

  function Pop(n: Node, s: Session): Node
    requires s in n.outbox && n.outbox[s] != []
  {
    n.(outbox := n.outbox[s := n.outbox[s][1..]])
  }

  function Deliver(net: Net, i: DeviceId, j: DeviceId, s: Session): Net
    requires Deliverable(net, i, j, s)
  {
    net[j := Receive(net[j], j, i, s, net[i].outbox[s][0])][i := Pop(net[i], s)]
  }

  datatype Step =
    | Hear(i: DeviceId, j: DeviceId, s: Session)     // `j` reads the next message of `i`
    | Start(i: DeviceId, j: DeviceId, s: Session)    // `i` finishes the handshake of `s` with `j`
    | Ended(i: DeviceId, j: DeviceId, s: Session)    // the read loop of `i` on `s` ends
    | Paired(i: DeviceId, p: Peer)
    | Dropped(i: DeviceId, id: DeviceId, at: nat)    // the user of `i` removes `id`

  /** Which steps can happen. A pairing or removal is stamped no older than what the device
      recording it already holds about the other one. */
  ghost predicate Enabled(l: Limits, net: Net, step: Step) {
    match step
    case Hear(i, j, s) => Deliverable(net, i, j, s)
    case Start(i, j, s) => i != j && i in net && j in net && s.Joins(i, j) && s !in net[i].outbox
    case Ended(i, j, s) => i in net
    case Paired(i, p) =>
      && i in net && p.id != i && p.key != 0 && p in l.records.pairings && p.id in l.group
      && Rank(StatusOf(net[i].store, p.id)) <= Rank(Member(p.key, p.pairedAt))
    case Dropped(i, id, at) =>
      && i in net && id in l.removable && (id, at) in l.records.removals
      && Rank(StatusOf(net[i].store, id)) <= Rank(Status.Gone(at))
  }

  function After(net: Net, step: Step): Net {
    match step
    case Hear(i, j, s) => if Deliverable(net, i, j, s) then Deliver(net, i, j, s) else net
    case Start(i, j, s) => if i in net then net[i := StartSession(net[i], i, j, s)] else net
    case Ended(i, j, s) => if i in net then net[i := Unregister(net[i], j, s)] else net
    case Paired(i, p) => if i in net then net[i := StorePeer(net[i], p)] else net
    case Dropped(i, id, at) => if i in net then net[i := RemovePeer(net[i], id, at)] else net
  }

  /** A run from devices that have paired with nobody. */
  ghost predicate Run(l: Limits, nets: seq<Net>, steps: seq<Step>) {
    && |nets| == |steps| + 1
    && (forall i :: i in nets[0] ==> nets[0][i] == Node(Book([], []), map[], map[]))
    && forall k {:trigger steps[k]} :: 0 <= k < |steps| ==>
         Enabled(l, nets[k], steps[k]) && nets[k + 1] == After(nets[k], steps[k])
  }

  // ---- Clean stores and messages ----

  ghost predicate PeerClean(l: Limits, p: Peer) {
    p in l.records.pairings && p.key != 0 && p.id in l.group
  }

  ghost predicate RemovalClean(l: Limits, p: Peer, at: nat) {
    p.id in l.removable && p.key != 0 && (p.id, at) in l.records.removals
  }

  ghost predicate BookClean(l: Limits, b: Book) {
    && Valid(b)
    && (forall p :: p in b.peers ==> PeerClean(l, p))
    && (forall x :: x in b.removed ==> RemovalClean(l, x.peer, x.removedAt))
  }

  ghost predicate EntryClean(l: Limits, e: Entry) {
    match e
    case Joined(p) => PeerClean(l, p)
    case Left(p, at) => RemovalClean(l, p, at)
  }

  ghost predicate RosterClean(l: Limits, r: Roster) {
    ListsOnce(Entries(r)) && forall e :: e in Entries(r) ==> EntryClean(l, e)
  }

  ghost predicate QueueClean(l: Limits, q: seq<Outgoing>) {
    forall o :: o in q && o.Message? ==> RosterClean(l, o.roster)
  }

  ghost predicate NodeClean(l: Limits, me: DeviceId, n: Node) {
    BookClean(l, n.store) && Wired(n, me) && forall s :: s in n.outbox ==> QueueClean(l, n.outbox[s])
  }

  ghost predicate Clean(l: Limits, net: Net) {
    forall i :: i in net ==> NodeClean(l, i, net[i])
  }

  lemma {:induction false} UniquePeersLength(s: seq<Peer>, ids: set<DeviceId>)
    requires UniquePeers(s) && forall p :: p in s ==> p.id in ids
    ensures |s| <= |ids|
  {
    if s != [] {
      var last, init := s[|s| - 1], s[..|s| - 1];
      assert last in s && forall p :: p in init ==> p in s;
      forall p | p in init
        ensures p.id in ids - {last.id}
      {
      }
      UniquePeersLength(init, ids - {last.id});
    }
  }

  lemma OwnRosterClean(l: Limits, b: Book)
    requires Proper(l) && BookClean(l, b)
    ensures RosterClean(l, RosterOf(b)) && Sendable(b)
  {
    UniquePeersLength(b.peers, l.group);
    OwnRosterListsOnce(b);
    forall e | e in Entries(RosterOf(b))
      ensures EntryClean(l, e)
    {
      if e.Left? {
        var i :| 0 <= i < |b.removed| && Announced(b.removed)[i] == RosterRemoval(e.peer, e.at);
        assert b.removed[i] in b.removed;
      }
    }
  }

  /** The roster says exactly this of `id`. */
  ghost predicate Says(r: Roster, id: DeviceId, s: Status) {
    exists e :: e in Entries(r) && e.peer.id == id && e.peer.key != 0 && Claim(e) == s
  }

  /** A message in the queue says exactly this of `id`, or there is nothing to say. */
  ghost predicate Told(q: seq<Outgoing>, id: DeviceId, s: Status) {
    s == Absent || exists o :: o in q && o.Message? && Says(o.roster, id, s)
  }

  lemma CleanEntries(l: Limits, r: Roster)
    requires RosterClean(l, r)
    ensures LeftWithin(Entries(r), l.removable)
  {
    forall e | e in Entries(r) && e.Left?
      ensures e.peer.id in l.removable
    {
      assert EntryClean(l, e);
    }
  }

  lemma {:induction false} EntriesKeepClean(l: Limits, b: Book, me: DeviceId, from: DeviceId, es: seq<Entry>)
    requires BookClean(l, b) && forall e :: e in es ==> EntryClean(l, e)
    ensures BookClean(l, MergeEntries(b, me, from, es).book)
  {
    if es != [] {
      var init, e := es[..|es| - 1], es[|es| - 1];
      assert e in es && forall x :: x in init ==> x in es;
      EntriesKeepClean(l, b, me, from, init);
      EntryKeepsClean(l, MergeEntries(b, me, from, init), me, from, e);
    }
  }

  lemma EntryKeepsClean(l: Limits, m: Merged, me: DeviceId, from: DeviceId, e: Entry)
    requires BookClean(l, m.book) && EntryClean(l, e)
    ensures BookClean(l, MergeEntry(m, me, from, e).book)
  {
    EntryEffect(m, me, from, e);
    var b := m.book;
    if e.Left? {
      var i := FindPeer(b.peers, e.peer.id);
      var known := if i.Some? then b.peers[i.value] else e.peer;
      assert i.Some? ==> known in b.peers && known.id == e.peer.id;
      RememberKeeps(b.removed, Removed(known, e.at, false));
    }
  }

  // ---- What each end of a session owes the other ----

  /** What `a` holds about third device `id`, `b` holds at least or is about to hear on the session
      `a` has with it. Before `b` has started that session, it is still in the queue. */
  ghost predicate Covered(net: Net, a: DeviceId, b: DeviceId, id: DeviceId)
    requires a in net && b in net
  {
    b in net[a].conns && net[a].conns[b] in net[a].outbox ==>
      var s := net[a].conns[b];
      var q := net[a].outbox[s];
      && (s !in net[b].outbox ==> Told(q, id, Holds(net, a, id)))
      && (a in net[b].conns && net[b].conns[a] == s ==>
            AtLeast(Holds(net, b, id), Holds(net, a, id)) || Told(q, id, Holds(net, a, id)))
  }

  /** Both hold one session between them. */
  predicate Shared(net: Net, a: DeviceId, b: DeviceId)
    requires a in net && b in net
  {
    b in net[a].conns && a in net[b].conns && net[a].conns[b] == net[b].conns[a]
  }

  /** Giving up a key held for `after`, when another pairing of it, `theirs`, is newer than that. */
  predicate TooLate(before: Status, after: Status, theirs: Status) {
    SameKey(before, theirs) && after != Absent && !SameKey(before, after) && Rank(after) < Rank(theirs)
  }

  /** From `net` to `net'`, neither `a` nor `b` gives up too late what it holds of `id`, compared
      with what the other end of their session holds. */
  ghost predicate InOrder(net: Net, net': Net, a: DeviceId, b: DeviceId, id: DeviceId)
    requires a in net && b in net && a in net' && b in net'
  {
    Shared(net, a, b) ==>
      && !TooLate(Holds(net, b, id), Holds(net', b, id), Holds(net, a, id))
      && !TooLate(Holds(net, a, id), Holds(net', a, id), Holds(net, b, id))
  }

  /** A store that comes to hold a status ranked no lower stops holding at least what another holds
      exactly when it gives up too late. */
  lemma FallsBehindIffTooLate(before: Status, after: Status, theirs: Status)
    requires AtLeast(before, theirs) && Rank(before) <= Rank(after)
    ensures AtLeast(after, theirs) <==> !TooLate(before, after, theirs)
  {
  }

  /** How a step may change a node: no session gained, queues only added to; and unless it drops
      every session, nothing known less well, and any news sent on every session kept. */
  ghost predicate Evolves(n: Node, n': Node) {
    && QueuesGrow(n.outbox, n'.outbox)
    && ConnsShrink(n.conns, n'.conns)
    && (n'.conns != map[] ==>
          && (forall id :: Rank(StatusOf(n.store, id)) <= Rank(StatusOf(n'.store, id)))
          && (n'.store != n.store ==>
                forall p :: p in n'.conns && n'.conns[p] in n'.outbox ==>
                  Message(RosterOf(n'.store)) in n'.outbox[n'.conns[p]]))
  }

  lemma ToldMore(q: seq<Outgoing>, q': seq<Outgoing>, id: DeviceId, s: Status)
    requires q <= q' && Told(q, id, s)
    ensures Told(q', id, s)
  {
    if s != Absent {
      var o :| o in q && o.Message? && Says(o.roster, id, s);
      assert o in q';
    }
  }

  lemma ToldOwnRoster(l: Limits, b: Book, q: seq<Outgoing>, id: DeviceId)
    requires Proper(l) && BookClean(l, b) && Message(RosterOf(b)) in q
    ensures Told(q, id, StatusOf(b, id))
  {
    OwnRosterClean(l, b);
    OwnRosterSays(b, id);
    if StatusOf(b, id) != Absent {
      assert Says(RosterOf(b), id, StatusOf(b, id));
    }
  }

  lemma EvolvingKeepsCovered(l: Limits, net: Net, i: DeviceId, n': Node, a: DeviceId, b: DeviceId, id: DeviceId)
    requires Proper(l) && i in net && NodeClean(l, i, n') && Evolves(net[i], n')
    requires a in net && b in net && a != b && Covered(net, a, b, id) && InOrder(net, net[i := n'], a, b, id)
    ensures Covered(net[i := n'], a, b, id)
  {
    var net' := net[i := n'];
    if b in net'[a].conns && net'[a].conns[b] in net'[a].outbox {
      var s := net'[a].conns[b];
      assert net[a].conns[b] == s && s in net[a].outbox;
      var held := Holds(net, a, id);
      if a == i && n'.store != net[i].store {
        ToldOwnRoster(l, n'.store, n'.outbox[s], id);
      } else if Told(net[a].outbox[s], id, held) {
        ToldMore(net[a].outbox[s], net'[a].outbox[s], id, held);
      } else if b == i && a in n'.conns && n'.conns[a] == s {
        FallsBehindIffTooLate(Holds(net, b, id), Holds(net', b, id), held);
      }
    }
  }
}
