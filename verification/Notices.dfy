/** Removed devices are owed a notice (`crates/cled-lan/src/peers.rs`, `get_removed`, `mark_notified`):
    each is remembered with the record it had as a member, whose key it will prove, until it has been
    told. */
module Notices {
  import opened Wrappers
  import opened Peers
  import opened Membership
  import opened GroupRules

  /** The store remembers, with its record, that `p` was removed and has not been told. */
  ghost predicate Owes(b: Book, p: Peer) {
    exists x :: x in b.removed && x.peer == p && !x.notified
  }

  /** At most one record of a device: the one found when it is looked up. */
  lemma OnePerDevice(b: Book, p: Peer, q: Peer)
    requires Valid(b) && Owes(b, p) && Owes(b, q) && p.id == q.id
    ensures p == q
  {
    var x :| x in b.removed && x.peer == p && !x.notified;
    var y :| y in b.removed && y.peer == q && !y.notified;
    var i, j :| 0 <= i < |b.removed| && 0 <= j < |b.removed| && b.removed[i] == x && b.removed[j] == y;
  }

  // ---- Removed by the user ----

  /** A member the user removes is owed a notice under the record it had; a device that is none is
      owed no more than before. */
  lemma RemovedIsOwed(b: Book, id: DeviceId, at: nat, p: Peer)
    requires Valid(b) && p.id == id
    ensures Owes(Remove(b, id, at), p) <==> if HasPeer(b.peers, id) then p in b.peers else Owes(b, p)
  {
    if HasPeer(b.peers, id) {
      var i := FindPeer(b.peers, id).value;
      var x := Removed(b.peers[i], at, false);
      DroppedPeer(b, i);
      RememberKeeps(b.removed, x);
      assert x in Remove(b, id, at).removed;
      if p in b.peers {
        StatusOfPeer(b, p);
        OnePeer(b.peers, p, b.peers[i]);
      }
    }
  }

  lemma OnePeer(s: seq<Peer>, p: Peer, q: Peer)
    requires UniquePeers(s) && p in s && q in s && p.id == q.id
    ensures p == q
  {
    var i, j :| 0 <= i < |s| && 0 <= j < |s| && s[i] == p && s[j] == q;
  }

  // ---- Removed by another member ----

  /** A line leaves the records of other devices alone, with room for every removal. */
  lemma EntryKeepsRecords(m: Merged, me: DeviceId, sender: DeviceId, e: Entry, id: DeviceId)
    requires Valid(m.book) && id != e.peer.id && (e.Left? ==> Room(m.book.removed, e.peer.id))
    ensures var b' := MergeEntry(m, me, sender, e).book;
      && (forall p: Peer :: p.id == id ==> (p in b'.peers <==> p in m.book.peers))
      && (forall x: Removed :: x.peer.id == id ==> (x in b'.removed <==> x in m.book.removed))
  {
    var b, b' := m.book, MergeEntry(m, me, sender, e).book;
    var i := FindPeer(b.peers, e.peer.id);
    if e.Left? {
      RememberKeeps(b.removed, Removed(if i.Some? then b.peers[i.value] else e.peer, e.at, false));
      if i.Some? {
        DroppedPeer(b, i.value);
      }
    } else {
      forall p: Peer | p.id == id ensures p in b'.peers <==> p in b.peers {
        if k :| 0 <= k < |b.peers| && b.peers[k] == p {
          assert b'.peers[k] == p;
        }
      }
    }
  }

  lemma {:induction false} UnlistedKeepsRecords(b: Book, me: DeviceId, sender: DeviceId, es: seq<Entry>,
                                                r: set<DeviceId>, id: DeviceId)
    requires Valid(b) && Bounded(b, r) && LeftWithin(es, r) && forall e :: e in es ==> e.peer.id != id
    ensures var b' := MergeEntries(b, me, sender, es).book;
      && (forall p: Peer :: p.id == id ==> (p in b'.peers <==> p in b.peers))
      && (forall x: Removed :: x.peer.id == id ==> (x in b'.removed <==> x in b.removed))
  {
    if es != [] {
      var init, e := es[..|es| - 1], es[|es| - 1];
      assert e in es && forall x :: x in init ==> x in es;
      UnlistedKeepsRecords(b, me, sender, init, r, id);
      MergeEntriesEffect(b, me, sender, init, r);
      if e.Left? {
        BoundedHasRoom(MergeEntries(b, me, sender, init).book, r, e.peer.id);
      }
      EntryKeepsRecords(MergeEntries(b, me, sender, init), me, sender, e, id);
    }
  }

  lemma JoinedStaysListed(m: Merged, q: Peer, id: DeviceId)
    ensures HasPeer(m.book.peers, id) ==> HasPeer(MergeJoined(m, q).book.peers, id)
  {
    if i :| 0 <= i < |m.book.peers| && m.book.peers[i].id == id {
      assert MergeJoined(m, q).book.peers[i].id == id;
    }
  }

  lemma EntryOwes(m: Merged, me: DeviceId, sender: DeviceId, e: Entry, p: Peer)
    requires Valid(m.book) && p in m.book.peers && p.id == e.peer.id
    requires !HasPeer(MergeEntry(m, me, sender, e).book.peers, p.id)
    ensures Owes(MergeEntry(m, me, sender, e).book, p)
  {
    var b, b' := m.book, MergeEntry(m, me, sender, e).book;
    StatusOfPeer(b, p);
    var i := FindPeer(b.peers, p.id).value;
    OnePeer(b.peers, p, b.peers[i]);
    if e.Joined? {
      JoinedStaysListed(m, e.peer, p.id);
    } else {
      RememberKeeps(b.removed, Removed(p, e.at, false));
      assert Removed(p, e.at, false) in b'.removed;
    }
  }

  /** A member lost by a merge is owed a notice under the record this device had of it, whatever the
      roster says of its key: a roster that lists each device once, with room for every removal. */
  lemma {:induction false} LostIsOwed(b: Book, me: DeviceId, sender: DeviceId, es: seq<Entry>, r: set<DeviceId>,
                                      p: Peer)
    requires Valid(b) && Bounded(b, r) && LeftWithin(es, r) && ListsOnce(es) && p in b.peers
    requires !HasPeer(MergeEntries(b, me, sender, es).book.peers, p.id)
    ensures Owes(MergeEntries(b, me, sender, es).book, p)
  {
    StatusOfPeer(b, p);
    if es != [] {
      var init, e := es[..|es| - 1], es[|es| - 1];
      assert e in es && forall x :: x in init ==> x in es;
      var m := MergeEntries(b, me, sender, init);
      MergeEntriesEffect(b, me, sender, init, r);
      if e.peer.id == p.id {
        UnlistedKeepsRecords(b, me, sender, init, r, p.id);
        EntryOwes(m, me, sender, e, p);
      } else {
        if e.Left? {
          BoundedHasRoom(m.book, r, e.peer.id);
        }
        EntryKeepsRecords(m, me, sender, e, p.id);
        SameListed(m.book.peers, MergeEntry(m, me, sender, e).book.peers, p.id);
        LostIsOwed(b, me, sender, init, r, p);
        var x :| x in m.book.removed && x.peer == p && !x.notified;
        assert x in MergeEntry(m, me, sender, e).book.removed;
      }
    }
  }

  lemma SameListed(s: seq<Peer>, t: seq<Peer>, id: DeviceId)
    requires forall p: Peer :: p.id == id ==> (p in t <==> p in s)
    ensures HasPeer(s, id) <==> HasPeer(t, id)
  {
    if i :| 0 <= i < |s| && s[i].id == id {
      assert s[i] in t;
    }
    if i :| 0 <= i < |t| && t[i].id == id {
      assert t[i] in s;
    }
  }

  /** A removal learned of a device that is no member is owed too, under the record it came with. */
  lemma LearnedIsOwed(m: Merged, me: DeviceId, sender: DeviceId, p: Peer, at: nat)
    requires Valid(m.book) && !HasPeer(m.book.peers, p.id) && Admissible(Left(p, at), me, sender)
    ensures var b' := MergeEntry(m, me, sender, Left(p, at)).book;
      if AtLeast(StatusOf(m.book, p.id), Status.Gone(at)) then b' == m.book else Owes(b', p)
  {
    LineReportsIff(m, me, sender, Left(p, at));
    RememberKeeps(m.book.removed, Removed(p, at, false));
    if !AtLeast(StatusOf(m.book, p.id), Status.Gone(at)) {
      RemovalKnownIff(m.book, p.id, at);
      assert Removed(p, at, false) in MergeEntry(m, me, sender, Left(p, at)).book.removed;
    }
  }

  // ---- Told, or paired again ----

  lemma {:induction false} MarkNotifiedAt(removed: seq<Removed>, id: DeviceId, i: nat)
    requires UniqueRemoved(removed) && i < |removed|
    ensures MarkNotified(removed, id)[i]
         == if removed[i].peer.id == id then removed[i].(notified := true) else removed[i]
  {
    if i > 0 && !(removed[0].peer.id == id && !removed[0].notified) {
      MarkNotifiedAt(removed[1..], id, i - 1);
    }
  }

  lemma TellingKeepsRoster(b: Book, id: DeviceId)
    requires Valid(b)
    ensures var b' := b.(removed := MarkNotified(b.removed, id)); RosterOf(b') == RosterOf(b) && Valid(b')
  {
    var marked := MarkNotified(b.removed, id);
    assert Announced(marked) == Announced(b.removed);
  }

  /** Once told a device is owed nothing, and the others are owed what they were. The roster stays, so
      the removal goes on spreading. */
  lemma ToldIsNotOwed(b: Book, id: DeviceId, p: Peer)
    requires Valid(b)
    ensures var b' := b.(removed := MarkNotified(b.removed, id));
      (Owes(b', p) <==> Owes(b, p) && p.id != id) && RosterOf(b') == RosterOf(b)
  {
    var marked := MarkNotified(b.removed, id);
    TellingKeepsRoster(b, id);
    if x :| x in b.removed && x.peer == p && !x.notified && p.id != id {
      var i :| 0 <= i < |b.removed| && b.removed[i] == x;
      MarkNotifiedAt(b.removed, id, i);
      assert marked[i] == x;
    }
    if x :| x in marked && x.peer == p && !x.notified {
      var i :| 0 <= i < |marked| && marked[i] == x;
      MarkNotifiedAt(b.removed, id, i);
      assert b.removed[i] == x;
    }
  }

  /** Nor is a device paired again. */
  lemma PairedIsNotOwed(b: Book, q: Peer, p: Peer)
    ensures Owes(Upsert(b, q), p) <==> Owes(b, p) && p.id != q.id
  {
    if x :| x in b.removed && x.peer == p && !x.notified && p.id != q.id {
      assert x in Upsert(b, q).removed;
    }
  }
}
