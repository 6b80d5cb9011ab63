/** What a store says about one device, and what a line of a roster does to it. */
module Membership {
  import opened Wrappers
  import opened Peers

  datatype Status = Absent | Member(key: Key, at: nat) | Gone(at: nat)

  /** Newer knowledge ranks higher; at equal times a removal ranks above a pairing. */
  function Rank(s: Status): nat {
    match s
    case Absent => 0
    case Member(_, at) => 2 * at + 1
    case Gone(at) => 2 * at + 2
  }

  /** What a line of a roster claims about its device. */
  function Claim(e: Entry): Status {
    match e
    case Joined(p) => Member(p.key, p.pairedAt)
    case Left(_, at) => Gone(at)
  }

  function FindRemoved(s: seq<Removed>, id: DeviceId): (r: Option<nat>)
    ensures r.Some? ==> r.value < |s| && s[r.value].peer.id == id
    ensures r.Some? <==> HasRemoved(s, id)
  {
    if s == [] then None
    else
      var n := |s| - 1;
      if s[n].peer.id == id then Some(n)
      else
        assert forall i :: 0 <= i < n ==> s[i] == s[..n][i];
        FindRemoved(s[..n], id)
  }

  function StatusOf(b: Book, id: DeviceId): Status {
    match FindPeer(b.peers, id)
    case Some(i) => Member(b.peers[i].key, b.peers[i].pairedAt)
    case None =>
      match FindRemoved(b.removed, id)
      case Some(j) => Gone(b.removed[j].removedAt)
      case None => Absent
  }

  /** How one admissible line about a device changes what is known of it. */
  function Absorb(s: Status, claim: Status): Status {
    match claim
    case Absent => s
    case Member(key, at) =>
      (match s
       case Absent => claim
       case Member(key', at') => if key' != key && at > at' then claim else s
       case Gone(at') => if at' >= at then s else claim)
    case Gone(at) =>
      (match s
       case Absent => claim
       case Member(_, at') => if at' <= at then claim else s
       case Gone(at') => if at' >= at then s else claim)
  }

  // ---- Reading a status off the lists ----

  lemma StatusOfPeer(b: Book, p: Peer)
    requires Valid(b) && p in b.peers
    ensures StatusOf(b, p.id) == Member(p.key, p.pairedAt)
  {
    var i :| 0 <= i < |b.peers| && b.peers[i] == p;
    assert HasPeer(b.peers, p.id);
    var k := FindPeer(b.peers, p.id).value;
    assert k == i;
  }

  lemma StatusOfRemoved(b: Book, x: Removed)
    requires Valid(b) && x in b.removed
    ensures StatusOf(b, x.peer.id) == Gone(x.removedAt)
  {
    var i :| 0 <= i < |b.removed| && b.removed[i] == x;
    assert HasRemoved(b.removed, x.peer.id);
    var k := FindRemoved(b.removed, x.peer.id).value;
    assert k == i;
    assert !HasPeer(b.peers, x.peer.id);
  }

  lemma StatusWitness(b: Book, id: DeviceId)
    requires Valid(b)
    ensures StatusOf(b, id).Member? ==>
        exists p :: p in b.peers && p.id == id && Member(p.key, p.pairedAt) == StatusOf(b, id)
    ensures StatusOf(b, id).Gone? ==>
        exists x :: x in b.removed && x.peer.id == id && Gone(x.removedAt) == StatusOf(b, id)
    ensures StatusOf(b, id).Member? <==> HasPeer(b.peers, id)
    ensures StatusOf(b, id).Gone? <==> HasRemoved(b.removed, id)
  {
    if HasPeer(b.peers, id) {
      var p := b.peers[FindPeer(b.peers, id).value];
      assert p in b.peers;
      assert !HasRemoved(b.removed, id);
    } else if HasRemoved(b.removed, id) {
      var x := b.removed[FindRemoved(b.removed, id).value];
      assert x in b.removed;
    }
  }

  /** Two valid books that list the same records of `id` agree on it. */
  lemma SameRecordsSameStatus(b: Book, c: Book, id: DeviceId)
    requires Valid(b) && Valid(c)
    requires forall p: Peer :: p.id == id ==> (p in b.peers <==> p in c.peers)
    requires forall x: Removed :: x.peer.id == id ==> (x in b.removed <==> x in c.removed)
    ensures StatusOf(b, id) == StatusOf(c, id)
  {
    StatusWitness(b, id);
    StatusWitness(c, id);
    match StatusOf(b, id)
    case Member(_, _) =>
      var p :| p in b.peers && p.id == id && Member(p.key, p.pairedAt) == StatusOf(b, id);
      StatusOfPeer(c, p);
    case Gone(_) =>
      var x :| x in b.removed && x.peer.id == id && Gone(x.removedAt) == StatusOf(b, id);
      StatusOfRemoved(c, x);
    case Absent =>
      assert forall i :: 0 <= i < |c.peers| ==> c.peers[i] in c.peers;
      assert forall j :: 0 <= j < |c.removed| ==> c.removed[j] in c.removed;
  }

  // ---- Room for one more removal ----

  /** Remembering the removal of `id` forgets no other one. */
  predicate Room(s: seq<Removed>, id: DeviceId) {
    HasRemoved(s, id) || |s| < MAX_REMOVED
  }

  lemma RememberKeeps(s: seq<Removed>, r: Removed)
    requires UniqueRemoved(s) && |s| <= MAX_REMOVED
    ensures UniqueRemoved(Remember(s, r)) && |Remember(s, r)| <= MAX_REMOVED
    ensures r in Remember(s, r)
    ensures forall x :: x in Remember(s, r) ==> x == r || (x in s && x.peer.id != r.peer.id)
    ensures Room(s, r.peer.id) ==> forall x :: x in s && x.peer.id != r.peer.id ==> x in Remember(s, r)
  {
    var kept := WithoutRemoved(s, r.peer.id);
    var all := kept + [r];
    if HasRemoved(s, r.peer.id) {
      WithoutIsShorter(s, r.peer.id);
    }
    assert forall i, j :: 0 <= i < j < |all| ==> all[i].peer.id != all[j].peer.id by {
      forall i, j | 0 <= i < j < |all|
        ensures all[i].peer.id != all[j].peer.id
      {
        if j == |kept| {
          assert kept[i] in kept;
        }
      }
    }
    assert all[|kept|] == r;
    if |all| > MAX_REMOVED {
      assert Remember(s, r) == all[1..] && all[1..][|kept| - 1] == r;
    }
  }

  /** Without room, exactly the oldest removal is forgotten: its device drops to Absent. */
  lemma EvictionForgetsTheOldest(b: Book, r: Removed)
    requires Valid(b) && !HasPeer(b.peers, r.peer.id)
    ensures !Room(b.removed, r.peer.id) ==>
      var oldest := b.removed[0].peer.id;
      var b' := b.(removed := Remember(b.removed, r));
      && Rank(StatusOf(b', oldest)) < Rank(StatusOf(b, oldest))
      && StatusOf(b', oldest) == Absent
    ensures Room(b.removed, r.peer.id) ==> forall id :: id != r.peer.id ==>
      StatusOf(b.(removed := Remember(b.removed, r)), id) == StatusOf(b, id)
  {
    if Room(b.removed, r.peer.id) {
      RoomKeepsTheOthers(b, r);
    } else {
      OldestForgotten(b, r);
    }
  }

  lemma RoomKeepsTheOthers(b: Book, r: Removed)
    requires Valid(b) && !HasPeer(b.peers, r.peer.id) && Room(b.removed, r.peer.id)
    ensures forall id :: id != r.peer.id ==> StatusOf(b.(removed := Remember(b.removed, r)), id) == StatusOf(b, id)
  {
    var b' := b.(removed := Remember(b.removed, r));
    RememberedValid(b, r);
    RememberKeeps(b.removed, r);
    forall id | id != r.peer.id
      ensures StatusOf(b', id) == StatusOf(b, id)
    {
      SameRecordsSameStatus(b, b', id);
    }
  }

  lemma OldestForgotten(b: Book, r: Removed)
    requires Valid(b) && !HasPeer(b.peers, r.peer.id) && !Room(b.removed, r.peer.id)
    ensures StatusOf(b, b.removed[0].peer.id) == Gone(b.removed[0].removedAt)
    ensures StatusOf(b.(removed := Remember(b.removed, r)), b.removed[0].peer.id) == Absent
  {
    var oldest := b.removed[0];
    var b' := b.(removed := Remember(b.removed, r));
    RememberedValid(b, r);
    StatusOfRemoved(b, oldest);
    WithoutAbsent(b.removed, r.peer.id);
    assert b'.removed == b.removed[1..] + [r];
    StatusWitness(b', oldest.peer.id);
  }

  lemma {:induction false} WithoutAbsent(s: seq<Removed>, id: DeviceId)
    requires !HasRemoved(s, id)
    ensures WithoutRemoved(s, id) == s
  {
    if s != [] {
      var n := |s| - 1;
      assert forall i :: 0 <= i < n ==> s[i] == s[..n][i];
      WithoutAbsent(s[..n], id);
      assert s == s[..n] + [s[n]];
    }
  }

  lemma RememberedValid(b: Book, r: Removed)
    requires Valid(b) && !HasPeer(b.peers, r.peer.id)
    ensures Valid(b.(removed := Remember(b.removed, r)))
  {
    RememberKeeps(b.removed, r);
    var s := Remember(b.removed, r);
    forall i, j | 0 <= i < |b.peers| && 0 <= j < |s|
      ensures b.peers[i].id != s[j].peer.id
    {
      assert s[j] in s;
    }
  }

  // ---- One line ----

  lemma DroppedPeer(b: Book, i: nat)
    requires Valid(b) && i < |b.peers|
    ensures Valid(b.(peers := b.peers[..i] + b.peers[i + 1..]))
    ensures forall p :: p in b.peers[..i] + b.peers[i + 1..] <==> p in b.peers && p.id != b.peers[i].id
    ensures !HasPeer(b.peers[..i] + b.peers[i + 1..], b.peers[i].id)
  {
    var kept := b.peers[..i] + b.peers[i + 1..];
    PeersWithout(b.peers, i);
    forall k, j | 0 <= k < |kept| && 0 <= j < |b.removed|
      ensures kept[k].id != b.removed[j].peer.id
    {
      var l :| 0 <= l < |b.peers| && b.peers[l] == kept[k];
    }
  }

  lemma PeersWithout(s: seq<Peer>, i: nat)
    requires UniquePeers(s) && i < |s|
    ensures var kept := s[..i] + s[i + 1..];
      && UniquePeers(kept)
      && (forall k :: 0 <= k < |kept| ==> kept[k] in s && kept[k].id != s[i].id)
      && (forall p :: p in s && p.id != s[i].id ==> p in kept)
  {
    var kept := s[..i] + s[i + 1..];
    assert s == s[..i] + [s[i]] + s[i + 1..];
    forall k | 0 <= k < |kept|
      ensures kept[k] == s[if k < i then k else k + 1]
    {
    }
  }

  lemma JoinedEffect(m: Merged, p: Peer)
    requires Valid(m.book)
    ensures Valid(MergeJoined(m, p).book)
    ensures forall id ::
      StatusOf(MergeJoined(m, p).book, id) ==
      if id == p.id then Absorb(StatusOf(m.book, id), Member(p.key, p.pairedAt)) else StatusOf(m.book, id)
  {
    var b, b' := m.book, MergeJoined(m, p).book;
    StatusWitness(b, p.id);
    if KnownRemoval(b.removed, p.id, p.pairedAt) {
      var j :| 0 <= j < |b.removed| && b.removed[j].peer.id == p.id && b.removed[j].removedAt >= p.pairedAt;
      StatusOfRemoved(b, b.removed[j]);
    } else if HasPeer(b.peers, p.id) {
      var i := FindPeer(b.peers, p.id).value;
      StatusOfPeer(b, b.peers[i]);
      if b.peers[i].key != p.key && p.pairedAt > b.peers[i].pairedAt {
        assert b'.peers[i] == p && p in b'.peers;
        assert Valid(b');
        StatusOfPeer(b', p);
        forall id | id != p.id
          ensures StatusOf(b', id) == StatusOf(b, id)
        {
          assert forall q: Peer :: q.id == id && q in b.peers ==> q in b'.peers by {
            forall q: Peer | q.id == id && q in b.peers
              ensures q in b'.peers
            {
              var k :| 0 <= k < |b.peers| && b.peers[k] == q;
              assert b'.peers[k] == q;
            }
          }
          SameRecordsSameStatus(b, b', id);
        }
      }
    } else {
      NewPeerEffect(b, p);
      assert StatusOf(b, p.id).Gone? ==> StatusOf(b, p.id).at < p.pairedAt by {
        if StatusOf(b, p.id).Gone? {
          var x :| x in b.removed && x.peer.id == p.id && Gone(x.removedAt) == StatusOf(b, p.id);
          assert !KnownRemoval(b.removed, p.id, p.pairedAt);
        }
      }
    }
  }

  lemma NewPeerEffect(b: Book, p: Peer)
    requires Valid(b) && !HasPeer(b.peers, p.id)
    ensures var b' := Book(b.peers + [p], WithoutRemoved(b.removed, p.id));
      && Valid(b')
      && forall id :: StatusOf(b', id) == if id == p.id then Member(p.key, p.pairedAt) else StatusOf(b, id)
  {
    var b' := Book(b.peers + [p], WithoutRemoved(b.removed, p.id));
    assert b'.peers[|b.peers|] == p;
    forall i, j | 0 <= i < |b'.peers| && 0 <= j < |b'.removed|
      ensures b'.peers[i].id != b'.removed[j].peer.id
    {
      assert b'.removed[j] in b'.removed;
    }
    StatusOfPeer(b', p);
    forall id | id != p.id
      ensures StatusOf(b', id) == StatusOf(b, id)
    {
      SameRecordsSameStatus(b, b', id);
    }
  }

  lemma LeftEffect(m: Merged, p: Peer, at: nat)
    requires Valid(m.book)
    ensures Valid(MergeLeft(m, p, at).book)
    ensures Room(m.book.removed, p.id) ==> forall id ::
      StatusOf(MergeLeft(m, p, at).book, id) ==
      if id == p.id then Absorb(StatusOf(m.book, id), Gone(at)) else StatusOf(m.book, id)
  {
    var b, b' := m.book, MergeLeft(m, p, at).book;
    StatusWitness(b, p.id);
    if HasPeer(b.peers, p.id) {
      var i := FindPeer(b.peers, p.id).value;
      StatusOfPeer(b, b.peers[i]);
      if b.peers[i].pairedAt <= at {
        DropThenRemember(b, i, at);
      }
    } else if KnownRemoval(b.removed, p.id, at) {
      var j :| 0 <= j < |b.removed| && b.removed[j].peer.id == p.id && b.removed[j].removedAt >= at;
      StatusOfRemoved(b, b.removed[j]);
    } else {
      var r := Removed(p, at, false);
      RememberedValid(b, r);
      RememberKeeps(b.removed, r);
      StatusOfRemoved(b', r);
      EvictionForgetsTheOldest(b, r);
      assert StatusOf(b, p.id).Gone? ==> StatusOf(b, p.id).at < at by {
        if StatusOf(b, p.id).Gone? {
          var x :| x in b.removed && x.peer.id == p.id && Gone(x.removedAt) == StatusOf(b, p.id);
          assert !KnownRemoval(b.removed, p.id, at);
        }
      }
    }
  }

  /** Turning a member into a removed device. */
  lemma DropThenRemember(b: Book, i: nat, at: nat)
    requires Valid(b) && i < |b.peers|
    ensures var p := b.peers[i];
      var b' := Book(b.peers[..i] + b.peers[i + 1..], Remember(b.removed, Removed(p, at, false)));
      && Valid(b')
      && StatusOf(b', p.id) == Gone(at)
      && (Room(b.removed, p.id) ==> forall id :: id != p.id ==> StatusOf(b', id) == StatusOf(b, id))
  {
    var p := b.peers[i];
    var r := Removed(p, at, false);
    var kept := b.(peers := b.peers[..i] + b.peers[i + 1..]);
    var b' := kept.(removed := Remember(b.removed, r));
    DroppedPeer(b, i);
    RememberedValid(kept, r);
    RememberKeeps(b.removed, r);
    StatusOfRemoved(b', r);
    if Room(b.removed, p.id) {
      forall id | id != p.id
        ensures StatusOf(b', id) == StatusOf(b, id)
      {
        SameRecordsSameStatus(b, b', id);
      }
    }
  }

  /** One line of a roster changes only the device it is about, by `Absorb`. */
  lemma EntryEffect(m: Merged, me: DeviceId, sender: DeviceId, e: Entry)
    requires Valid(m.book)
    ensures Valid(MergeEntry(m, me, sender, e).book)
    ensures (e.Left? ==> Room(m.book.removed, e.peer.id)) ==>
      forall id ::
        StatusOf(MergeEntry(m, me, sender, e).book, id) ==
        if Admissible(e, me, sender) && id == e.peer.id then Absorb(StatusOf(m.book, id), Claim(e))
        else StatusOf(m.book, id)
  {
    if Admissible(e, me, sender) {
      match e
      case Joined(p) => JoinedEffect(m, p);
      case Left(p, at) => LeftEffect(m, p, at);
    }
  }
}
