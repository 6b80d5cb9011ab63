/** The store of paired devices (`crates/cled-lan/src/peers.rs`): what one device knows about the
    group, and how it takes in the roster of another member.

    The store is a class whose two lists change in place, as in the source. `Book` is its value;
    each method is proved against a function on books, and the group's rules are theorems about
    those functions. Names and addresses never decide membership and are not part of the model. */
module Peers {
  import opened Wrappers

  type DeviceId = nat

  /** A device's public key. The all-zero key is 0. */
  type Key = nat

  const MAX_REMOVED: nat := 100
  const MAX_ROSTER_ENTRIES: nat := 256

  datatype Peer = Peer(id: DeviceId, key: Key, pairedAt: nat)

  datatype Removed = Removed(peer: Peer, removedAt: nat, notified: bool)

  datatype RosterRemoval = RosterRemoval(peer: Peer, removedAt: nat)

  datatype Roster = Roster(members: seq<Peer>, removed: seq<RosterRemoval>)

  /** What merging a roster changed. */
  datatype Change = Change(added: seq<DeviceId>, removed: seq<DeviceId>, removalsLearned: bool) {
    predicate IsEmpty() {
      added == [] && removed == [] && !removalsLearned
    }
  }

  const NO_CHANGE := Change([], [], false)

  /** The value of a store: its two lists. */
  datatype Book = Book(peers: seq<Peer>, removed: seq<Removed>)

  // ---- Lists ----

  predicate HasPeer(s: seq<Peer>, id: DeviceId) {
    exists i :: 0 <= i < |s| && s[i].id == id
  }

  predicate HasRemoved(s: seq<Removed>, id: DeviceId) {
    exists i :: 0 <= i < |s| && s[i].peer.id == id
  }

  ghost predicate UniquePeers(s: seq<Peer>) {
    forall i, j :: 0 <= i < j < |s| ==> s[i].id != s[j].id
  }

  ghost predicate UniqueRemoved(s: seq<Removed>) {
    forall i, j :: 0 <= i < j < |s| ==> s[i].peer.id != s[j].peer.id
  }

  /** No device is listed twice, none both as a member and as removed, and the list of removals
      stays within its bound. */
  ghost predicate Valid(b: Book) {
    && UniquePeers(b.peers)
    && UniqueRemoved(b.removed)
    && (forall i, j :: 0 <= i < |b.peers| && 0 <= j < |b.removed| ==> b.peers[i].id != b.removed[j].peer.id)
    && |b.removed| <= MAX_REMOVED
  }

  /** The first position of `id` among the peers. */
  function FindPeer(s: seq<Peer>, id: DeviceId): (r: Option<nat>)
    ensures r.Some? ==> r.value < |s| && s[r.value].id == id && !HasPeer(s[..r.value], id)
    ensures r.Some? <==> HasPeer(s, id)
  {
    if s == [] then None
    else
      var n := |s| - 1;
      match FindPeer(s[..n], id)
      case Some(i) =>
        assert s[..n][..i] == s[..i];
        Some(i)
      case None =>
        assert forall i :: 0 <= i < n ==> s[i] == s[..n][i];
        if s[n].id == id then Some(n) else None
  }

  /** The peers other than `id`, in their order. */
  function WithoutPeer(s: seq<Peer>, id: DeviceId): (r: seq<Peer>)
    ensures forall p :: p in r <==> p in s && p.id != id
    ensures UniquePeers(s) ==> UniquePeers(r)
  {
    if s == [] then []
    else
      var n := |s| - 1;
      var rest := WithoutPeer(s[..n], id);
      assert s == s[..n] + [s[n]];
      assert forall p :: p in s[..n] ==> exists i :: 0 <= i < n && s[i] == p;
      if s[n].id != id then rest + [s[n]] else rest
  }

  /** The removals of devices other than `id`, in their order. */
  function WithoutRemoved(s: seq<Removed>, id: DeviceId): (r: seq<Removed>)
    ensures forall x :: x in r <==> x in s && x.peer.id != id
    ensures UniqueRemoved(s) ==> UniqueRemoved(r)
    ensures |r| <= |s|
  {
    if s == [] then []
    else
      var n := |s| - 1;
      var rest := WithoutRemoved(s[..n], id);
      assert s == s[..n] + [s[n]];
      assert forall x :: x in s[..n] ==> exists i :: 0 <= i < n && s[i] == x;
      if s[n].peer.id != id then rest + [s[n]] else rest
  }

  lemma {:induction false} WithoutIsShorter(s: seq<Removed>, id: DeviceId)
    requires HasRemoved(s, id)
    ensures |WithoutRemoved(s, id)| < |s|
  {
    var n := |s| - 1;
    if s[n].peer.id != id {
      var i :| 0 <= i < |s| && s[i].peer.id == id;
      assert s[..n][i] == s[i];
      WithoutIsShorter(s[..n], id);
    }
  }

  /** Adds a removal as the newest one; beyond `MAX_REMOVED` the oldest is forgotten. */
  function Remember(s: seq<Removed>, r: Removed): seq<Removed> {
    var kept := WithoutRemoved(s, r.peer.id) + [r];
    if |kept| > MAX_REMOVED then kept[1..] else kept
  }

  predicate KnownRemoval(s: seq<Removed>, id: DeviceId, since: nat) {
    exists i :: 0 <= i < |s| && s[i].peer.id == id && s[i].removedAt >= since
  }

  // ---- Operations on books ----

  function Upsert(b: Book, p: Peer): Book {
    Book(WithoutPeer(b.peers, p.id) + [p], WithoutRemoved(b.removed, p.id))
  }

  function Remove(b: Book, id: DeviceId, at: nat): Book {
    match FindPeer(b.peers, id)
    case None => b
    case Some(i) =>
      Book(b.peers[..i] + b.peers[i + 1..], Remember(b.removed, Removed(b.peers[i], at, false)))
  }

  function Clear(b: Book): Book {
    b.(peers := [])
  }

  /** Marks the removal of `id` as told, if there is one not yet told. */
  function MarkNotified(s: seq<Removed>, id: DeviceId): (r: seq<Removed>)
    ensures |r| == |s|
    ensures forall i :: 0 <= i < |s| ==> r[i].peer == s[i].peer && r[i].removedAt == s[i].removedAt
  {
    if s == [] then []
    else if s[0].peer.id == id && !s[0].notified then [s[0].(notified := true)] + s[1..]
    else [s[0]] + MarkNotified(s[1..], id)
  }

  function Announced(s: seq<Removed>): seq<RosterRemoval> {
    seq(|s|, i requires 0 <= i < |s| => RosterRemoval(s[i].peer, s[i].removedAt))
  }

  /** All this store holds, as a roster. */
  function RosterOf(b: Book): Roster {
    Roster(b.peers, Announced(b.removed))
  }

  /** One line of a roster: a member, or a removal. */
  datatype Entry = Joined(peer: Peer) | Left(peer: Peer, at: nat)

  function Take<T>(s: seq<T>, n: nat): seq<T> {
    if |s| <= n then s else s[..n]
  }

  /** The lines of a roster a receiver looks at, in the order it looks at them. */
  function Entries(r: Roster): seq<Entry> {
    var members, removed := Take(r.members, MAX_ROSTER_ENTRIES), Take(r.removed, MAX_ROSTER_ENTRIES);
    seq(|members|, i requires 0 <= i < |members| => Joined(members[i])) +
    seq(|removed|, i requires 0 <= i < |removed| => Left(removed[i].peer, removed[i].removedAt))
  }

  /** Whether `me` listens to this line from `sender`: it can be a device, and is about neither. */
  predicate Admissible(e: Entry, me: DeviceId, sender: DeviceId) {
    e.peer.key != 0 && e.peer.id != me && e.peer.id != sender
  }

  datatype Merged = Merged(book: Book, change: Change)

  function MergeJoined(m: Merged, p: Peer): Merged {
    var b := m.book;
    if KnownRemoval(b.removed, p.id, p.pairedAt) then m
    else
      var added := m.change.(added := m.change.added + [p.id]);
      match FindPeer(b.peers, p.id)
      case Some(i) =>
        if b.peers[i].key != p.key && p.pairedAt > b.peers[i].pairedAt then
          Merged(b.(peers := b.peers[i := p]), added)
        else m
      case None => Merged(Book(b.peers + [p], WithoutRemoved(b.removed, p.id)), added)
  }

  function MergeLeft(m: Merged, p: Peer, at: nat): Merged {
    var b := m.book;
    match FindPeer(b.peers, p.id)
    case Some(i) =>
      if b.peers[i].pairedAt <= at then
        Merged(Book(b.peers[..i] + b.peers[i + 1..], Remember(b.removed, Removed(b.peers[i], at, false))),
               m.change.(removed := m.change.removed + [p.id]))
      else m
    case None =>
      if KnownRemoval(b.removed, p.id, at) then m
      else Merged(b.(removed := Remember(b.removed, Removed(p, at, false))), m.change.(removalsLearned := true))
  }

  function MergeEntry(m: Merged, me: DeviceId, sender: DeviceId, e: Entry): Merged {
    if !Admissible(e, me, sender) then m
    else
      match e
      case Joined(p) => MergeJoined(m, p)
      case Left(p, at) => MergeLeft(m, p, at)
  }

  function MergeEntries(b: Book, me: DeviceId, sender: DeviceId, es: seq<Entry>): Merged {
    if es == [] then Merged(b, NO_CHANGE)
    else MergeEntry(MergeEntries(b, me, sender, es[..|es| - 1]), me, sender, es[|es| - 1])
  }

  lemma MergeEntriesStep(b: Book, me: DeviceId, sender: DeviceId, es: seq<Entry>, k: nat)
    requires k < |es|
    ensures MergeEntries(b, me, sender, es[..k + 1])
        == MergeEntry(MergeEntries(b, me, sender, es[..k]), me, sender, es[k])
  {
    assert es[..k + 1][..k] == es[..k];
  }

  /** Device `me`, holding `b`, merges the roster of paired device `sender`. */
  function Merge(b: Book, me: DeviceId, sender: DeviceId, r: Roster): Merged {
    MergeEntries(b, me, sender, Entries(r))
  }
}
