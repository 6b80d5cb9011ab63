/** Every step keeps what the two ends of a session owe each other; so connected devices agree, and
    where they don't, one of them gave something up too late. */
module GroupAgreement {
  import opened Peers
  import opened Membership
  import opened GroupRules
  import opened GroupJoin
  import opened Nodes
  import opened Gossip
  import Removals

  lemma QueueCleanMore(l: Limits, q: seq<Outgoing>, o: Outgoing)
    requires QueueClean(l, q) && (o.Message? ==> RosterClean(l, o.roster))
    ensures QueueClean(l, q + [o])
  {
  }

  lemma {:induction false} DisconnectAllClean(l: Limits, me: DeviceId, n: Node, ids: seq<DeviceId>, o: Outgoing)
    requires NodeClean(l, me, n) && !o.Message?
    ensures NodeClean(l, me, DisconnectAll(n, ids, o))
  {
    if ids != [] {
      DisconnectAllClean(l, me, n, ids[..|ids| - 1], o);
    }
  }

  lemma SendToAllClean(l: Limits, me: DeviceId, n: Node, o: Outgoing)
    requires NodeClean(l, me, n) && (o.Message? ==> RosterClean(l, o.roster))
    ensures NodeClean(l, me, SendToAll(n, o))
  {
    forall s | s in n.outbox
      ensures QueueClean(l, SendToAll(n, o).outbox[s])
    {
      QueueCleanMore(l, n.outbox[s], o);
    }
  }

  /** A change of the store that knows nothing less well, then sent to every session left. */
  lemma NewsEvolves(l: Limits, me: DeviceId, n: Node, n1: Node)
    requires Proper(l) && NodeClean(l, me, n) && NodeClean(l, me, n1)
    requires QueuesGrow(n.outbox, n1.outbox) && ConnsShrink(n.conns, n1.conns)
    requires forall id :: Rank(StatusOf(n.store, id)) <= Rank(StatusOf(n1.store, id))
    ensures var n' := SendToAll(n1, Message(RosterOf(n1.store)));
      NodeClean(l, me, n') && Evolves(n, n')
  {
    OwnRosterClean(l, n1.store);
    SendToAllClean(l, me, n1, Message(RosterOf(n1.store)));
    SentToAll(n1, Message(RosterOf(n1.store)));
  }

  lemma ApplyRosterEvolves(l: Limits, me: DeviceId, n: Node, from: DeviceId, r: Roster)
    requires Proper(l) && NodeClean(l, me, n) && RosterClean(l, r)
    ensures var n' := ApplyRoster(n, me, from, r);
      NodeClean(l, me, n') && Evolves(n, n')
  {
    var m := Merge(n.store, me, from, r);
    CleanEntries(l, r);
    EntriesKeepClean(l, n.store, me, from, Entries(r));
    if m.change.IsEmpty() {
      SilentMergeChangesNothing(n.store, me, from, Entries(r));
    } else {
      var n0 := n.(store := m.book);
      var n1 := DisconnectAll(n0, m.change.removed, Last);
      var n2 := DisconnectAll(n1, m.change.added, Close);
      DisconnectAllShrinks(n0, m.change.removed, Last);
      DisconnectAllShrinks(n1, m.change.added, Close);
      DisconnectAllClean(l, me, n0, m.change.removed, Last);
      DisconnectAllClean(l, me, n1, m.change.added, Close);
      ReportedMergeRaises(n.store, me, from, Entries(r), l.removable);
      NewsEvolves(l, me, n, n2);
    }
  }

  lemma AppliedStore(n: Node, me: DeviceId, from: DeviceId, r: Roster)
    requires Valid(n.store)
    ensures ApplyRoster(n, me, from, r).store == Merge(n.store, me, from, r).book
  {
    var m := Merge(n.store, me, from, r);
    if !m.change.IsEmpty() {
      var n1 := DisconnectAll(n.(store := m.book), m.change.removed, Last);
      DisconnectAllShrinks(n.(store := m.book), m.change.removed, Last);
      DisconnectAllShrinks(n1, m.change.added, Close);
    }
  }

  /** After hearing a roster a device holds at least what it says of third devices. */
  lemma ApplyRosterAbsorbs(l: Limits, me: DeviceId, n: Node, from: DeviceId, r: Roster, id: DeviceId, s: Status)
    requires Proper(l) && NodeClean(l, me, n) && RosterClean(l, r)
    requires id != me && id != from && Says(r, id, s)
    ensures AtLeast(StatusOf(ApplyRoster(n, me, from, r).store, id), s)
  {
    var e :| e in Entries(r) && e.peer.id == id && e.peer.key != 0 && Claim(e) == s;
    CleanEntries(l, r);
    AppliedStore(n, me, from, r);
    MergeOnce(n.store, me, from, Entries(r), l.removable, e);
    AbsorbIs(StatusOf(n.store, id), s);
  }

  lemma LeaveGroupEvolves(l: Limits, me: DeviceId, n: Node, who: DeviceId)
    requires NodeClean(l, me, n)
    ensures NodeClean(l, me, LeaveGroup(n, who)) && Evolves(n, LeaveGroup(n, who))
  {
    SendToAllClean(l, me, n, Close);
    SentToAll(n, Close);
  }

  lemma ReceiveEvolves(l: Limits, j: DeviceId, n: Node, from: DeviceId, s: Session, o: Outgoing)
    requires Proper(l) && NodeClean(l, j, n) && (o.Message? ==> RosterClean(l, o.roster))
    ensures NodeClean(l, j, Receive(n, j, from, s, o)) && Evolves(n, Receive(n, j, from, s, o))
  {
    match o
    case Message(r) => ApplyRosterEvolves(l, j, n, from, r);
    case Last => LeaveGroupEvolves(l, j, n, from);
    case Close =>
  }

  lemma StorePeerEvolves(l: Limits, me: DeviceId, n: Node, p: Peer)
    requires Proper(l) && NodeClean(l, me, n) && PeerClean(l, p)
    requires Rank(StatusOf(n.store, p.id)) <= Rank(Member(p.key, p.pairedAt))
    ensures NodeClean(l, me, StorePeer(n, p)) && Evolves(n, StorePeer(n, p))
  {
    Removals.UpsertValid(n.store, p);
    NewsEvolves(l, me, n, n.(store := Upsert(n.store, p)));
  }

  lemma RemovePeerEvolves(l: Limits, me: DeviceId, n: Node, id: DeviceId, at: nat)
    requires Proper(l) && NodeClean(l, me, n) && id in l.removable && (id, at) in l.records.removals
    requires Rank(StatusOf(n.store, id)) <= Rank(Status.Gone(at))
    ensures NodeClean(l, me, RemovePeer(n, id, at)) && Evolves(n, RemovePeer(n, id, at))
  {
    var store := Remove(n.store, id, at);
    RemoveClean(l, n.store, id, at);
    var n1 := Disconnect(n, id, Last);
    DisconnectShrinks(n, id, Last);
    NewsEvolves(l, me, n, n1.(store := store));
  }

  lemma RemoveClean(l: Limits, b: Book, id: DeviceId, at: nat)
    requires Proper(l) && BookClean(l, b) && id in l.removable && (id, at) in l.records.removals
    requires Rank(StatusOf(b, id)) <= Rank(Status.Gone(at))
    ensures BookClean(l, Remove(b, id, at))
    ensures forall x :: Rank(StatusOf(b, x)) <= Rank(StatusOf(Remove(b, id, at), x))
  {
    if HasPeer(b.peers, id) {
      var i := FindPeer(b.peers, id).value;
      assert b.peers[i] in b.peers;
      DroppedPeer(b, i);
      RememberKeeps(b.removed, Removed(b.peers[i], at, false));
      BoundedHasRoom(b, l.removable, id);
      DropThenRemember(b, i, at);
    }
  }

  // ---- Steps keep stores and messages clean ----

  lemma StepKeepsClean(l: Limits, net: Net, step: Step)
    requires Proper(l) && Clean(l, net) && Enabled(l, net, step)
    ensures Clean(l, After(net, step))
  {
    match step
    case Hear(i, j, s) =>
      var o := net[i].outbox[s][0];
      assert o in net[i].outbox[s];
      ReceiveEvolves(l, j, net[j], i, s, o);
      assert NodeClean(l, i, Pop(net[i], s)) by {
        assert forall x :: x in net[i].outbox[s][1..] ==> x in net[i].outbox[s];
      }
    case Start(i, j, s) => StartedClean(l, net, i, j, s);
    case Ended(i, j, s) =>
    case Paired(i, p) => StorePeerEvolves(l, i, net[i], p);
    case Dropped(i, id, at) => RemovePeerEvolves(l, i, net[i], id, at);
  }

  lemma StartedClean(l: Limits, net: Net, i: DeviceId, j: DeviceId, s: Session)
    requires Proper(l) && Clean(l, net) && Enabled(l, net, Start(i, j, s))
    ensures NodeClean(l, i, StartSession(net[i], i, j, s))
  {
    OwnRosterClean(l, net[i].store);
  }

  lemma {:induction false} RunKeepsClean(l: Limits, nets: seq<Net>, steps: seq<Step>, k: nat)
    requires Proper(l) && Gossip.Run(l, nets, steps) && k < |nets|
    ensures Clean(l, nets[k]) && nets[k].Keys == nets[0].Keys
  {
    if k > 0 {
      RunKeepsClean(l, nets, steps, k - 1);
      var net, step := nets[k - 1], steps[k - 1];
      StepKeepsClean(l, net, step);
      SameDevices(l, net, step);
    }
  }

  lemma SameDevices(l: Limits, net: Net, step: Step)
    requires Enabled(l, net, step)
    ensures After(net, step).Keys == net.Keys
  {
  }

  // ---- Steps keep what is owed ----

  lemma StartKeepsCovered(l: Limits, net: Net, i: DeviceId, j: DeviceId, s: Session, a: DeviceId, b: DeviceId,
                          id: DeviceId)
    requires Proper(l) && Clean(l, net) && Enabled(l, net, Start(i, j, s))
    requires a in net && b in net && a != b && Covered(net, a, b, id)
    ensures Covered(net[i := StartSession(net[i], i, j, s)], a, b, id)
  {
    var n, n' := net[i], StartSession(net[i], i, j, s);
    if Accepts(n, i, j, s) {
      assert forall p :: p in n.conns ==> n.conns[p].Joins(i, p);
      if a == i && b == j {
        var q := n'.outbox[s];
        assert q == [Message(RosterOf(n.store))];
        assert Message(RosterOf(n.store)) in q;
        ToldOwnRoster(l, n.store, q, id);
      } else if a == i && b in n'.conns {
        assert n'.conns[b] != s;
        assert n'.outbox[n'.conns[b]] == n.outbox[n.conns[b]];
      }
    }
  }

  /** Taking a message off the queue once its reader holds at least what it says of `id`. */
  lemma PopKeepsCovered(l: Limits, net: Net, i: DeviceId, j: DeviceId, s: Session, a: DeviceId, b: DeviceId,
                        id: DeviceId)
    requires Clean(l, net) && Deliverable(net, i, j, s)
    requires a in net && b in net && a != b && Covered(net, a, b, id)
    requires var o := net[i].outbox[s][0];
      o.Message? && Says(o.roster, id, Holds(net, i, id)) && a == i && b == j ==>
          AtLeast(Holds(net, j, id), Holds(net, i, id))
    ensures Covered(net[i := Pop(net[i], s)], a, b, id)
  {
    if a == i && b in net[a].conns && net[a].conns[b] == s {
      assert s.Joins(i, b);
      var q, held := net[i].outbox[s], Holds(net, i, id);
      if Told(q, id, held) && held != Absent {
        var o :| o in q && o.Message? && Says(o.roster, id, held);
        assert q == [q[0]] + q[1..];
      }
    }
  }

  lemma HearKeepsCovered(l: Limits, net: Net, i: DeviceId, j: DeviceId, s: Session, a: DeviceId, b: DeviceId,
                         id: DeviceId)
    requires Proper(l) && Clean(l, net) && Deliverable(net, i, j, s) && id != a && id != b
    requires a in net && b in net && a != b && Covered(net, a, b, id) && InOrder(net, Deliver(net, i, j, s), a, b, id)
    ensures Covered(Deliver(net, i, j, s), a, b, id)
  {
    var o := net[i].outbox[s][0];
    assert o in net[i].outbox[s];
    var n' := Receive(net[j], j, i, s, o);
    ReceiveEvolves(l, j, net[j], i, s, o);
    var net1 := net[j := n'];
    EvolvingKeepsCovered(l, net, j, n', a, b, id);
    if a == i && b == j && o.Message? && Says(o.roster, id, Holds(net, i, id)) {
      ApplyRosterAbsorbs(l, j, net[j], i, o.roster, id, Holds(net, i, id));
    }
    PopKeepsCovered(l, net1, i, j, s, a, b, id);
  }

  lemma StepKeepsCovered(l: Limits, net: Net, step: Step, a: DeviceId, b: DeviceId, id: DeviceId)
    requires Proper(l) && Clean(l, net) && Enabled(l, net, step) && id != a && id != b
    requires a in net && b in net && a != b && After(net, step).Keys == net.Keys
    requires Covered(net, a, b, id) && InOrder(net, After(net, step), a, b, id)
    ensures Covered(After(net, step), a, b, id)
  {
    match step
    case Hear(i, j, s) => HearKeepsCovered(l, net, i, j, s, a, b, id);
    case Start(i, j, s) => StartKeepsCovered(l, net, i, j, s, a, b, id);
    case Ended(i, j, s) => EvolvingKeepsCovered(l, net, i, Unregister(net[i], j, s), a, b, id);
    case Paired(i, p) =>
      StorePeerEvolves(l, i, net[i], p);
      EvolvingKeepsCovered(l, net, i, StorePeer(net[i], p), a, b, id);
    case Dropped(i, x, at) =>
      RemovePeerEvolves(l, i, net[i], x, at);
      EvolvingKeepsCovered(l, net, i, RemovePeer(net[i], x, at), a, b, id);
  }

  // ---- Every run ----

  /** In the first `k` steps neither `a` nor `b` gives up `id` too late for the other. */
  ghost predicate AlwaysInOrder(nets: seq<Net>, k: nat, a: DeviceId, b: DeviceId, id: DeviceId)
    requires k < |nets| && forall m :: 0 <= m <= k ==> a in nets[m] && b in nets[m]
  {
    forall m {:trigger nets[m]} :: 0 <= m < k ==> InOrder(nets[m], nets[m + 1], a, b, id)
  }

  lemma {:induction false} RunKeepsCovered(l: Limits, nets: seq<Net>, steps: seq<Step>, k: nat, a: DeviceId,
                                           b: DeviceId, id: DeviceId)
    requires Proper(l) && Gossip.Run(l, nets, steps) && k < |nets| && a != b && id != a && id != b
    requires forall m :: 0 <= m <= k ==> a in nets[m] && b in nets[m]
    requires AlwaysInOrder(nets, k, a, b, id)
    ensures Covered(nets[k], a, b, id)
  {
    if k > 0 {
      var net, step := nets[k - 1], steps[k - 1];
      RunKeepsCovered(l, nets, steps, k - 1, a, b, id);
      RunKeepsClean(l, nets, steps, k - 1);
      SameDevices(l, net, step);
      assert InOrder(net, nets[k - 1 + 1], a, b, id);
      StepKeepsCovered(l, net, step, a, b, id);
    }
  }

  /** Both `a` and `b` hold one session between them, and nothing is on its way on it. */
  ghost predicate Settled(net: Net, a: DeviceId, b: DeviceId) {
    && a in net && b in net && a != b && Shared(net, a, b)
    && var s := net[a].conns[b];
      s in net[a].outbox && s in net[b].outbox && net[a].outbox[s] == [] && net[b].outbox[s] == []
  }

  lemma AlwaysThere(l: Limits, nets: seq<Net>, steps: seq<Step>, k: nat, a: DeviceId)
    requires Proper(l) && Gossip.Run(l, nets, steps) && k < |nets| && a in nets[k]
    ensures forall m :: 0 <= m < |nets| ==> a in nets[m]
  {
    forall m | 0 <= m < |nets| ensures nets[m].Keys == nets[0].Keys {
      RunKeepsClean(l, nets, steps, m);
    }
    assert nets[k].Keys == nets[0].Keys;
  }

  /** Group agreement: at every moment of every run, two devices connected by a session with
      nothing in flight hold alike of every third device, unless one of them, connected to the
      other, gave it up too late: for a removal, or a pairing of another key, older than a pairing
      the other holds of the key given up. */
  lemma ConnectedDevicesAgree(l: Limits, nets: seq<Net>, steps: seq<Step>, k: nat, a: DeviceId, b: DeviceId,
                              id: DeviceId)
    requires Proper(l) && Gossip.Run(l, nets, steps) && k < |nets|
    requires Settled(nets[k], a, b) && id != a && id != b
    ensures forall m :: 0 <= m < |nets| ==> a in nets[m] && b in nets[m]
    ensures AlwaysInOrder(nets, k, a, b, id) ==> Alike(Holds(nets[k], a, id), Holds(nets[k], b, id))
  {
    AlwaysThere(l, nets, steps, k, a);
    AlwaysThere(l, nets, steps, k, b);
    if AlwaysInOrder(nets, k, a, b, id) {
      var net := nets[k];
      RunKeepsCovered(l, nets, steps, k, a, b, id);
      assert AlwaysInOrder(nets, k, b, a, id) by {
        forall m {:trigger nets[m]} | 0 <= m < k ensures InOrder(nets[m], nets[m + 1], b, a, id) {
          assert InOrder(nets[m], nets[m + 1], a, b, id);
        }
      }
      RunKeepsCovered(l, nets, steps, k, b, a, id);
      AlikeIff(Holds(net, a, id), Holds(net, b, id));
    }
  }

  // ---- When every step is in order ----

  /** A step never makes a device hold something of lower rank, except nothing at all. */
  lemma StepRaises(l: Limits, net: Net, step: Step, i: DeviceId, id: DeviceId)
    requires Proper(l) && Clean(l, net) && Enabled(l, net, step) && i in net
    ensures i in After(net, step)
    ensures Holds(After(net, step), i, id) == Absent || Rank(Holds(net, i, id)) <= Rank(Holds(After(net, step), i, id))
  {
    match step
    case Hear(from, j, s) =>
      var o := net[from].outbox[s][0];
      assert o in net[from].outbox[s];
      if i == j {
        ReceiveRaises(l, net[j], j, from, s, o, id);
      }
    case Paired(j, p) => Removals.UpsertValid(net[j].store, p);
    case Dropped(j, x, at) => RemoveClean(l, net[j].store, x, at);
    case _ =>
  }

  lemma ReceiveRaises(l: Limits, n: Node, me: DeviceId, from: DeviceId, s: Session, o: Outgoing, id: DeviceId)
    requires Proper(l) && NodeClean(l, me, n) && (o.Message? ==> RosterClean(l, o.roster))
    ensures var t := StatusOf(Receive(n, me, from, s, o).store, id);
      t == Absent || Rank(StatusOf(n.store, id)) <= Rank(t)
  {
    match o
    case Message(r) =>
      AppliedStore(n, me, from, r);
      CleanEntries(l, r);
      ReportedMergeRaises(n.store, me, from, Entries(r), l.removable);
    case Last =>
      var left := Clear(n.store);
      StatusWitness(n.store, id);
      StatusWitness(left, id);
    case Close =>
  }

  /** For uninterrupted records nobody ever gives up anything too late. */
  lemma NeverTooLate(u: Records, id: DeviceId, before: Status, after: Status, theirs: Status)
    requires Uninterrupted(u, id) && Recorded(u, id, before) && Recorded(u, id, after) && Recorded(u, id, theirs)
    requires after == Absent || Rank(before) <= Rank(after)
    ensures !TooLate(before, after, theirs)
  {
    if TooLate(before, after, theirs) {
      var p, q := Peer(id, before.key, before.at), Peer(id, theirs.key, theirs.at);
      if after.Gone? {
        assert (p.id, after.at) in u.removals;
      } else {
        assert Peer(id, after.key, after.at) in u.pairings;
      }
      assert Interrupted(u, p, q);
    }
  }

  lemma UninterruptedStepInOrder(l: Limits, net: Net, step: Step, a: DeviceId, b: DeviceId, id: DeviceId)
    requires Proper(l) && Uninterrupted(l.records, id) && Clean(l, net) && Enabled(l, net, step)
    requires a in net && b in net && a in After(net, step) && b in After(net, step)
    ensures InOrder(net, After(net, step), a, b, id)
  {
    var net' := After(net, step);
    StepKeepsClean(l, net, step);
    StepRaises(l, net, step, a, id);
    StepRaises(l, net, step, b, id);
    HeldRecorded(l, net, a, id);
    HeldRecorded(l, net, b, id);
    HeldRecorded(l, net', a, id);
    HeldRecorded(l, net', b, id);
    NeverTooLate(l.records, id, Holds(net, a, id), Holds(net', a, id), Holds(net, b, id));
    NeverTooLate(l.records, id, Holds(net, b, id), Holds(net', b, id), Holds(net, a, id));
  }

  lemma HeldRecorded(l: Limits, net: Net, i: DeviceId, id: DeviceId)
    requires Clean(l, net) && i in net
    ensures Recorded(l.records, id, Holds(net, i, id))
  {
    BookStatusRecorded(l.records, net[i].store, id);
  }

  /** Group agreement for uninterrupted records: the two hold the same, but for the time of one key's
      pairing or the key at one time; so members that pair one device, each at its own time, always
      come to agree on it. */
  lemma UninterruptedGroupsAgree(l: Limits, nets: seq<Net>, steps: seq<Step>, k: nat, a: DeviceId, b: DeviceId,
                                 id: DeviceId)
    requires Proper(l) && Uninterrupted(l.records, id) && Gossip.Run(l, nets, steps) && k < |nets|
    requires Settled(nets[k], a, b) && id != a && id != b
    ensures Alike(Holds(nets[k], a, id), Holds(nets[k], b, id))
  {
    ConnectedDevicesAgree(l, nets, steps, k, a, b, id);
    forall m {:trigger nets[m]} | 0 <= m < k ensures InOrder(nets[m], nets[m + 1], a, b, id) {
      RunKeepsClean(l, nets, steps, m);
      assert Enabled(l, nets[m], steps[m]) && nets[m + 1] == After(nets[m], steps[m]);
      UninterruptedStepInOrder(l, nets[m], steps[m], a, b, id);
    }
  }

  lemma UnbrokenGroupsAgree(l: Limits, nets: seq<Net>, steps: seq<Step>, k: nat, a: DeviceId, b: DeviceId, id: DeviceId)
    requires Proper(l) && Unbroken(l.records) && Gossip.Run(l, nets, steps) && k < |nets|
    requires Settled(nets[k], a, b) && id != a && id != b
    ensures Alike(Holds(nets[k], a, id), Holds(nets[k], b, id))
  {
    UnbrokenIsUninterrupted(l.records, id);
    UninterruptedGroupsAgree(l, nets, steps, k, a, b, id);
  }

  /** With one key per time too, they hold the same key. */
  lemma UnbrokenGroupsAgreeOnKeys(l: Limits, nets: seq<Net>, steps: seq<Step>, k: nat, a: DeviceId, b: DeviceId,
                                  id: DeviceId)
    requires Proper(l) && Unbroken(l.records) && OneKeyPerTime(l.records) && Gossip.Run(l, nets, steps) && k < |nets|
    requires Settled(nets[k], a, b) && id != a && id != b
    ensures var (s, t) := (Holds(nets[k], a, id), Holds(nets[k], b, id)); s == t || SameKey(s, t)
  {
    UnbrokenGroupsAgree(l, nets, steps, k, a, b, id);
    RunKeepsClean(l, nets, steps, k);
    HeldRecorded(l, nets[k], a, id);
    HeldRecorded(l, nets[k], b, id);
    OneKeyAlike(l.records, id, Holds(nets[k], a, id), Holds(nets[k], b, id));
  }

  /** And for coherent records they hold exactly the same. */
  lemma CoherentGroupsAgree(l: Limits, nets: seq<Net>, steps: seq<Step>, k: nat, a: DeviceId, b: DeviceId, id: DeviceId)
    requires Proper(l) && Coherent(l.records) && Gossip.Run(l, nets, steps) && k < |nets|
    requires Settled(nets[k], a, b) && id != a && id != b
    ensures Holds(nets[k], a, id) == Holds(nets[k], b, id)
  {
    CoherentIsUnbroken(l.records);
    UnbrokenGroupsAgree(l, nets, steps, k, a, b, id);
    RunKeepsClean(l, nets, steps, k);
    HeldRecorded(l, nets[k], a, id);
    HeldRecorded(l, nets[k], b, id);
    CoherentOrder(l.records, id, Holds(nets[k], a, id), Holds(nets[k], b, id));
  }
}
