/** How connected devices come to differ for good: what it takes, a run in which it happens, and
    what a slow clock does. */
module GroupSplits {
  import opened Peers
  import opened Membership
  import opened GroupRules
  import opened Nodes
  import opened Gossip
  import opened GroupAgreement
  import Removals

  // ---- Giving up too late ----

  /** What is given up too late is ignored by the other, and the two are no longer alike. */
  lemma TooLateIsIgnored(before: Status, after: Status, theirs: Status)
    requires TooLate(before, after, theirs)
    ensures Absorb(theirs, after) == theirs && !Alike(theirs, after)
  {
    AbsorbIs(theirs, after);
  }

  /** A device that holds at least as much as the sender is left as it was by its roster. */
  lemma HearingNothing(n: Node, me: DeviceId, from: DeviceId, b: Book)
    requires Valid(n.store) && Valid(b) && Sendable(b)
    requires forall x :: x != me && x != from ==> AtLeast(StatusOf(n.store, x), StatusOf(b, x))
    ensures ApplyRoster(n, me, from, RosterOf(b)) == n
  {
    HearsNothingNewIff(n.store, me, b, from);
  }

  /** `b` has one message for `a`, its roster, on a session both hold, and `a` has none. */
  ghost predicate OneRosterLeft(net: Net, a: DeviceId, b: DeviceId) {
    && a in net && b in net && a != b && Shared(net, a, b) && net[a].conns[b].Joins(a, b)
    && var s := net[a].conns[b];
      && s in net[a].outbox && net[a].outbox[s] == []
      && s in net[b].outbox && net[b].outbox[s] == [Message(RosterOf(net[b].store))]
  }

  /** If it tells `a` nothing new, hearing it leaves them settled, with what they held. */
  lemma HearingSettles(net: Net, a: DeviceId, b: DeviceId)
    requires OneRosterLeft(net, a, b) && Valid(net[a].store) && Valid(net[b].store) && Sendable(net[b].store)
    requires forall x :: x != a && x != b ==> AtLeast(Holds(net, a, x), Holds(net, b, x))
    ensures var s := net[a].conns[b];
      && Deliverable(net, b, a, s)
      && var net' := After(net, Hear(b, a, s));
         && net' == net[b := Pop(net[b], s)] && Settled(net', a, b)
         && forall x :: Holds(net', a, x) == Holds(net, a, x) && Holds(net', b, x) == Holds(net, b, x)
  {
    var s := net[a].conns[b];
    forall x | x != a && x != b ensures AtLeast(StatusOf(net[a].store, x), StatusOf(net[b].store, x)) {
      assert AtLeast(Holds(net, a, x), Holds(net, b, x));
    }
    HearingNothing(net[a], a, b, net[b].store);
    assert net[a := net[a]] == net;
  }

  /** Two settled devices, one of which gives up `id` too late while it has no other news for the
      other, are settled again once its roster is heard, and stay apart. */
  lemma TooLateSplits(l: Limits, net: Net, step: Step, a: DeviceId, b: DeviceId, id: DeviceId)
    requires Proper(l) && Clean(l, net) && Enabled(l, net, step) && Settled(net, a, b) && id != a && id != b
    requires OneRosterLeft(After(net, step), a, b) && After(net, step)[a] == net[a]
    requires TooLate(Holds(net, b, id), Holds(After(net, step), b, id), Holds(net, a, id))
    requires forall x :: x != a && x != b && x != id ==> AtLeast(Holds(net, a, x), Holds(After(net, step), b, x))
    ensures var net1, s := After(net, step), net[a].conns[b];
      && Deliverable(net1, b, a, s)
      && var net2 := After(net1, Hear(b, a, s));
         Settled(net2, a, b) && !Alike(Holds(net2, a, id), Holds(net2, b, id))
  {
    var net1 := After(net, step);
    StepKeepsClean(l, net, step);
    OwnRosterClean(l, net1[b].store);
    TooLateIsIgnored(Holds(net, b, id), Holds(net1, b, id), Holds(net, a, id));
    AbsorbIs(Holds(net, a, id), Holds(net1, b, id));
    HearingSettles(net1, a, b);
  }

  /** Two connected devices that paired the same device, with the same key, at two times, go on
      holding it so: each ignores what the other says of it. */
  lemma SameKeyTwiceNeverAgrees(a: DeviceId, b: DeviceId, x: DeviceId, key: Key, t1: nat, t2: nat)
    requires a != b && x != a && x != b && key != 0 && t1 != t2
    ensures var atA, atB := Book([Peer(x, key, t1)], []), Book([Peer(x, key, t2)], []);
      && Valid(atA) && Valid(atB)
      && Merge(atA, a, b, RosterOf(atB)) == Merged(atA, NO_CHANGE)
      && Merge(atB, b, a, RosterOf(atA)) == Merged(atB, NO_CHANGE)
      && StatusOf(atA, x) != StatusOf(atB, x)
  {
    var atA, atB := Book([Peer(x, key, t1)], []), Book([Peer(x, key, t2)], []);
    assert atA.peers[0] == Peer(x, key, t1) && atB.peers[0] == Peer(x, key, t2);
    StatusOfPeer(atA, Peer(x, key, t1));
    StatusOfPeer(atB, Peer(x, key, t2));
    forall id ensures Alike(StatusOf(atA, id), StatusOf(atB, id)) {
      StatusWitness(atA, id);
      StatusWitness(atB, id);
    }
    IgnoreEachOtherIff(atA, a, atB, b);
  }

  // ---- A removal heard too late ----

  /** A store holding a key paired at `t1` hears of a removal no older; another, holding the key
      paired later than the removal, goes on holding it, and hears nothing new from the first. */
  lemma LateRemovalSplits(b: Book, y: DeviceId, c: Book, z: DeviceId, d: DeviceId, x: DeviceId, key: Key, t1: nat,
                          t2: nat, at: nat)
    requires Valid(b) && Valid(c) && Sendable(b) && x != y && x != z && x != d && key != 0 && t1 <= at < t2
    requires StatusOf(b, x) == Member(key, t1) && StatusOf(c, x) == Member(key, t2)
    requires Room(b.removed, x)
    requires forall id :: id != x && id != y && id != z ==> AtLeast(StatusOf(c, id), StatusOf(b, id))
    ensures var b' := Merge(b, y, d, Roster([], [RosterRemoval(Peer(x, key, t1), at)])).book;
      && StatusOf(b', x) == Gone(at)
      && Merge(c, z, y, RosterOf(b')) == Merged(c, NO_CHANGE)
  {
    var e := Left(Peer(x, key, t1), at);
    OneLineMerge(b, y, d, e);
    assert Entries(Roster([], [RosterRemoval(Peer(x, key, t1), at)])) == [e];
    EntryEffect(Merged(b, NO_CHANGE), y, d, e);
    var b' := MergeEntries(b, y, d, [e]).book;
    LineSendable(Merged(b, NO_CHANGE), y, d, e);
    HearsNothingNewIff(c, z, b', y);
  }

  lemma OneLineMerge(b: Book, me: DeviceId, sender: DeviceId, e: Entry)
    ensures MergeEntries(b, me, sender, [e]) == MergeEntry(Merged(b, NO_CHANGE), me, sender, e)
  {
    assert [e][..0] == [];
  }

  lemma LineSendable(m: Merged, me: DeviceId, sender: DeviceId, e: Entry)
    requires Valid(m.book) && Sendable(m.book) && e.Left?
    ensures Sendable(MergeEntry(m, me, sender, e).book)
  {
    if Admissible(e, me, sender) {
      var b := m.book;
      var i := FindPeer(b.peers, e.peer.id);
      var known := if i.Some? then b.peers[i.value] else e.peer;
      assert i.Some? ==> known in b.peers;
      RememberKeeps(b.removed, Removed(known, e.at, false));
    }
  }

  // ---- Slow clocks ----

  /** A removal stamped before the pairing it ends is undone by the next roster that lists the
      device, and one stamped later is not. */
  lemma BackdatedRemovalUndoneIff(b: Book, me: DeviceId, from: DeviceId, es: seq<Entry>, r: set<DeviceId>, p: Peer,
                                  at: nat)
    requires Valid(b) && Bounded(b, r) && LeftWithin(es, r) && ListsOnce(es) && p.id in r
    requires HasPeer(b.peers, p.id) && Joined(p) in es && Admissible(Joined(p), me, from)
    ensures StatusOf(MergeEntries(Remove(b, p.id, at), me, from, es).book, p.id)
         == if at < p.pairedAt then Member(p.key, p.pairedAt) else Gone(at)
  {
    var i := FindPeer(b.peers, p.id).value;
    var b' := Remove(b, p.id, at);
    DropThenRemember(b, i, at);
    RememberKeeps(b.removed, Removed(b.peers[i], at, false));
    MergeOnce(b', me, from, es, r, Joined(p));
  }

  /** A pairing stamped no later than a removal is undone by the next roster that tells of it. */
  lemma BackdatedPairingUndoneIff(b: Book, me: DeviceId, from: DeviceId, es: seq<Entry>, r: set<DeviceId>, p: Peer,
                                  x: Peer, at: nat)
    requires Valid(b) && Bounded(b, r) && LeftWithin(es, r) && ListsOnce(es) && x.id == p.id
    requires Left(x, at) in es && Admissible(Left(x, at), me, from)
    ensures StatusOf(MergeEntries(Upsert(b, p), me, from, es).book, p.id)
         == if p.pairedAt <= at then Gone(at) else Member(p.key, p.pairedAt)
  {
    Removals.UpsertValid(b, p);
    MergeOnce(Upsert(b, p), me, from, es, r, Left(x, at));
  }
}
