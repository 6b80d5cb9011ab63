/** How long a removal lasts: a removed device stays removed through 99 later removals, however
    rosters arrive; and what happens when two stores have no room left. */
module Removals {
  import opened Peers
  import opened Membership
  import GroupRules

  /** Everything that can happen to a store. */
  datatype Op =
    | Heard(sender: DeviceId, roster: Roster)
    | RemoveHere(id: DeviceId, at: nat)
    | Pair(peer: Peer)
    | Tell(id: DeviceId)
    | ForgetGroup

  function Apply(b: Book, me: DeviceId, op: Op): Book {
    match op
    case Heard(sender, roster) => Merge(b, me, sender, roster).book
    case RemoveHere(id, at) => Remove(b, id, at)
    case Pair(peer) => Upsert(b, peer)
    case Tell(id) => b.(removed := MarkNotified(b.removed, id))
    case ForgetGroup => Clear(b)
  }

  /** A line about a removal this store doesn't know of yet, or the end of a membership. */
  predicate IsNews(b: Book, p: Peer, at: nat) {
    match FindPeer(b.peers, p.id)
    case Some(i) => b.peers[i].pairedAt <= at
    case None => !KnownRemoval(b.removed, p.id, at)
  }

  /** How many removals a line makes this store remember: none or one. */
  function Remembers(m: Merged, me: DeviceId, sender: DeviceId, e: Entry): nat {
    if e.Left? && Admissible(e, me, sender) && IsNews(m.book, e.peer, e.at) then 1 else 0
  }

  function EntriesRemember(b: Book, me: DeviceId, sender: DeviceId, es: seq<Entry>): nat {
    if es == [] then 0
    else
      var init := es[..|es| - 1];
      EntriesRemember(b, me, sender, init) +
      Remembers(MergeEntries(b, me, sender, init), me, sender, es[|es| - 1])
  }

  function OpRemembers(b: Book, me: DeviceId, op: Op): nat {
    match op
    case Heard(sender, roster) => EntriesRemember(b, me, sender, Entries(roster))
    case RemoveHere(id, _) => if HasPeer(b.peers, id) then 1 else 0
    case _ => 0
  }

  function Run(b: Book, me: DeviceId, ops: seq<Op>): Book
    decreases |ops|
  {
    if ops == [] then b else Run(Apply(b, me, ops[0]), me, ops[1..])
  }

  function RunRemembers(b: Book, me: DeviceId, ops: seq<Op>): nat
    decreases |ops|
  {
    if ops == [] then 0 else OpRemembers(b, me, ops[0]) + RunRemembers(Apply(b, me, ops[0]), me, ops[1..])
  }

  /** Nothing in `op` vouches for `id` after `at`: it isn't paired here, and no roster lists it as
      having joined later. */
  ghost predicate NotVouched(op: Op, id: DeviceId, at: nat) {
    match op
    case Heard(_, roster) => forall p :: p in roster.members && p.id == id ==> p.pairedAt <= at
    case Pair(peer) => peer.id != id
    case _ => true
  }

  /** The removal of `id`, no older than `at`, is among the newest `age + 1`. */
  ghost predicate Fresh(s: seq<Removed>, id: DeviceId, at: nat, age: nat) {
    s != [] &&
    var last := s[|s| - 1];
    (last.peer.id == id && last.removedAt >= at) || (age > 0 && Fresh(s[..|s| - 1], id, at, age - 1))
  }

  lemma {:induction false} FreshAges(s: seq<Removed>, id: DeviceId, at: nat, age: nat)
    requires Fresh(s, id, at, age)
    ensures Fresh(s, id, at, age + 1)
  {
    if age > 0 && Fresh(s[..|s| - 1], id, at, age - 1) {
      FreshAges(s[..|s| - 1], id, at, age - 1);
    }
  }

  lemma {:induction false} FreshWithout(s: seq<Removed>, other: DeviceId, id: DeviceId, at: nat, age: nat)
    requires Fresh(s, id, at, age) && other != id
    ensures Fresh(WithoutRemoved(s, other), id, at, age)
  {
    var n := |s| - 1;
    if s[n].peer.id == id && s[n].removedAt >= at {
    } else {
      FreshWithout(s[..n], other, id, at, age - 1);
      var rest := WithoutRemoved(s[..n], other);
      FreshAges(rest, id, at, age - 1);
      assert (rest + [s[n]])[..|rest|] == rest;
    }
  }

  lemma {:induction false} FreshDropOldest(s: seq<Removed>, id: DeviceId, at: nat, age: nat)
    requires Fresh(s, id, at, age) && age + 1 < |s|
    ensures Fresh(s[1..], id, at, age)
  {
    var n := |s| - 1;
    if !(s[n].peer.id == id && s[n].removedAt >= at) {
      FreshDropOldest(s[..n], id, at, age - 1);
      assert s[..n][1..] == s[1..][..n - 1];
    }
  }

  lemma FreshRemember(s: seq<Removed>, r: Removed, id: DeviceId, at: nat, age: nat)
    requires Fresh(s, id, at, age) && age + 1 < MAX_REMOVED
    requires r.peer.id == id ==> r.removedAt >= at
    ensures Fresh(Remember(s, r), id, at, age + 1)
  {
    var kept := WithoutRemoved(s, r.peer.id);
    var all := kept + [r];
    assert all[..|kept|] == kept;
    if r.peer.id != id {
      FreshWithout(s, r.peer.id, id, at, age);
    }
    if |all| > MAX_REMOVED {
      FreshDropOldest(all, id, at, age + 1);
    }
  }

  lemma {:induction false} FreshPosition(s: seq<Removed>, id: DeviceId, at: nat, age: nat) returns (i: nat)
    requires Fresh(s, id, at, age)
    ensures i < |s| && s[i].peer.id == id && s[i].removedAt >= at
  {
    i := |s| - 1;
    if !(s[i].peer.id == id && s[i].removedAt >= at) {
      i := FreshPosition(s[..|s| - 1], id, at, age - 1);
    }
  }

  lemma FreshMeansRemoved(b: Book, id: DeviceId, at: nat, age: nat)
    requires Valid(b) && Fresh(b.removed, id, at, age)
    ensures !HasPeer(b.peers, id) && KnownRemoval(b.removed, id, at)
    ensures StatusOf(b, id).Gone? && StatusOf(b, id).at >= at
  {
    var i := FreshPosition(b.removed, id, at, age);
    StatusOfRemoved(b, b.removed[i]);
    StatusWitness(b, id);
  }

  lemma FreshAfterTelling(s: seq<Removed>, told: seq<Removed>, id: DeviceId, at: nat, age: nat)
    requires Fresh(s, id, at, age) && |told| == |s|
    requires forall i :: 0 <= i < |s| ==> told[i].peer == s[i].peer && told[i].removedAt == s[i].removedAt
    ensures Fresh(told, id, at, age)
  {
  }

  lemma JoinedKeepsRemoval(m: Merged, p: Peer, id: DeviceId, at: nat, age: nat)
    requires Valid(m.book) && Fresh(m.book.removed, id, at, age)
    requires p.id == id ==> p.pairedAt <= at
    ensures Fresh(MergeJoined(m, p).book.removed, id, at, age)
  {
    var b := m.book;
    FreshMeansRemoved(b, id, at, age);
    if p.id == id {
      var j :| 0 <= j < |b.removed| && b.removed[j].peer.id == id && b.removed[j].removedAt >= at;
      assert KnownRemoval(b.removed, p.id, p.pairedAt);
    } else {
      FreshWithout(b.removed, p.id, id, at, age);
    }
  }

  lemma LeftKeepsRemoval(m: Merged, p: Peer, t: nat, id: DeviceId, at: nat, age: nat)
    requires Valid(m.book) && Fresh(m.book.removed, id, at, age)
    requires IsNews(m.book, p, t) && age + 1 < MAX_REMOVED
    ensures Fresh(MergeLeft(m, p, t).book.removed, id, at, age + 1)
  {
    var b := m.book;
    var i := FindPeer(b.peers, p.id);
    var x := Removed(if i.Some? then b.peers[i.value] else p, t, false);
    FreshMeansRemoved(b, id, at, age);
    if p.id == id {
      var j :| 0 <= j < |b.removed| && b.removed[j].peer.id == id && b.removed[j].removedAt >= at;
      assert t < b.removed[j].removedAt ==> KnownRemoval(b.removed, id, t);
    }
    FreshRemember(b.removed, x, id, at, age);
  }

  lemma NoNewsNoChange(m: Merged, p: Peer, t: nat)
    requires !IsNews(m.book, p, t)
    ensures MergeLeft(m, p, t) == m
  {
  }

  lemma EntryKeepsRemoval(m: Merged, me: DeviceId, sender: DeviceId, e: Entry, id: DeviceId, at: nat, age: nat)
    requires Valid(m.book) && Fresh(m.book.removed, id, at, age)
    requires age + Remembers(m, me, sender, e) < MAX_REMOVED
    requires e.Joined? && e.peer.id == id ==> e.peer.pairedAt <= at
    ensures Fresh(MergeEntry(m, me, sender, e).book.removed, id, at, age + Remembers(m, me, sender, e))
  {
    if Admissible(e, me, sender) {
      match e
      case Joined(p) => JoinedKeepsRemoval(m, p, id, at, age);
      case Left(p, t) =>
        if IsNews(m.book, p, t) {
          LeftKeepsRemoval(m, p, t, id, at, age);
        } else {
          NoNewsNoChange(m, p, t);
        }
    }
  }

  lemma EntryKeepsValid(m: Merged, me: DeviceId, sender: DeviceId, e: Entry)
    requires Valid(m.book)
    ensures Valid(MergeEntry(m, me, sender, e).book)
  {
    EntryEffect(m, me, sender, e);
  }

  ghost predicate NotVouchedIn(es: seq<Entry>, id: DeviceId, at: nat) {
    forall e :: e in es && e.Joined? && e.peer.id == id ==> e.peer.pairedAt <= at
  }

  /** After the first `k` lines, which brought `m`, the removal of `id` is among the newest. */
  ghost predicate StillRemoved(b: Book, me: DeviceId, sender: DeviceId, es: seq<Entry>, id: DeviceId, at: nat,
                               age: nat, m: Merged, k: nat)
  {
    && k <= |es| && Valid(m.book) && m == MergeEntries(b, me, sender, es[..k])
    && Fresh(m.book.removed, id, at, age + EntriesRemember(b, me, sender, es[..k]))
  }

  lemma LineKeepsRemoval(b: Book, me: DeviceId, sender: DeviceId, es: seq<Entry>, id: DeviceId, at: nat, age: nat,
                         m: Merged, k: nat)
    requires k < |es| && StillRemoved(b, me, sender, es, id, at, age, m, k)
    requires NotVouchedIn(es, id, at) && age + EntriesRemember(b, me, sender, es) < MAX_REMOVED
    ensures StillRemoved(b, me, sender, es, id, at, age, MergeEntry(m, me, sender, es[k]), k + 1)
  {
    MergeEntriesStep(b, me, sender, es, k);
    RememberStep(b, me, sender, es, k);
    RememberUpTo(b, me, sender, es, k + 1);
    EntryKeepsValid(m, me, sender, es[k]);
    EntryKeepsRemoval(m, me, sender, es[k], id, at, age + EntriesRemember(b, me, sender, es[..k]));
  }

  lemma {:induction false} LinesKeepRemoval(b: Book, me: DeviceId, sender: DeviceId, es: seq<Entry>, id: DeviceId,
                                            at: nat, age: nat, k: nat)
    requires Valid(b) && Fresh(b.removed, id, at, age) && NotVouchedIn(es, id, at)
    requires k <= |es| && age + EntriesRemember(b, me, sender, es) < MAX_REMOVED
    ensures StillRemoved(b, me, sender, es, id, at, age, MergeEntries(b, me, sender, es[..k]), k)
  {
    if k == 0 {
      assert es[..0] == [];
    } else {
      var m := MergeEntries(b, me, sender, es[..k - 1]);
      LinesKeepRemoval(b, me, sender, es, id, at, age, k - 1);
      LineKeepsRemoval(b, me, sender, es, id, at, age, m, k - 1);
      MergeEntriesStep(b, me, sender, es, k - 1);
    }
  }

  lemma EntriesKeepRemoval(b: Book, me: DeviceId, sender: DeviceId, es: seq<Entry>, id: DeviceId, at: nat, age: nat)
    requires Valid(b) && Fresh(b.removed, id, at, age) && NotVouchedIn(es, id, at)
    requires age + EntriesRemember(b, me, sender, es) < MAX_REMOVED
    ensures Fresh(MergeEntries(b, me, sender, es).book.removed, id, at, age + EntriesRemember(b, me, sender, es))
  {
    LinesKeepRemoval(b, me, sender, es, id, at, age, |es|);
    assert es[..|es|] == es;
  }

  lemma RememberStep(b: Book, me: DeviceId, sender: DeviceId, es: seq<Entry>, k: nat)
    requires k < |es|
    ensures EntriesRemember(b, me, sender, es[..k + 1])
         == EntriesRemember(b, me, sender, es[..k]) + Remembers(MergeEntries(b, me, sender, es[..k]), me, sender, es[k])
  {
    assert es[..k + 1][..k] == es[..k];
  }

  lemma {:induction false} RememberUpTo(b: Book, me: DeviceId, sender: DeviceId, es: seq<Entry>, k: nat)
    requires k <= |es|
    ensures EntriesRemember(b, me, sender, es[..k]) <= EntriesRemember(b, me, sender, es)
    decreases |es| - k
  {
    if k == |es| {
      assert es[..k] == es;
    } else {
      RememberStep(b, me, sender, es, k);
      RememberUpTo(b, me, sender, es, k + 1);
    }
  }

  lemma OpKeepsValid(b: Book, me: DeviceId, op: Op)
    requires Valid(b)
    ensures Valid(Apply(b, me, op))
  {
    match op {
      case Heard(sender, roster) => GroupRules.MergeKeepsValid(b, me, sender, roster);
      case RemoveHere(id, at) =>
        if HasPeer(b.peers, id) {
          DropThenRemember(b, FindPeer(b.peers, id).value, at);
        }
      case Pair(peer) => UpsertValid(b, peer);
      case Tell(id) =>
      case ForgetGroup =>
    }
  }

  lemma UpsertValid(b: Book, p: Peer)
    requires Valid(b)
    ensures Valid(Upsert(b, p))
    ensures forall id ::
      StatusOf(Upsert(b, p), id) == if id == p.id then Member(p.key, p.pairedAt) else StatusOf(b, id)
  {
    var b' := Upsert(b, p);
    assert forall i :: 0 <= i < |WithoutPeer(b.peers, p.id)| ==> WithoutPeer(b.peers, p.id)[i] in b.peers;
    forall i, j | 0 <= i < |b'.peers| && 0 <= j < |b'.removed|
      ensures b'.peers[i].id != b'.removed[j].peer.id
    {
      assert b'.removed[j] in b'.removed;
    }
    assert b'.peers[|b'.peers| - 1] == p;
    assert UniquePeers(b'.peers) by {
      forall i | 0 <= i < |b'.peers| - 1
        ensures b'.peers[i].id != p.id
      {
        assert b'.peers[i] in WithoutPeer(b.peers, p.id);
      }
    }
    StatusOfPeer(b', p);
    forall id | id != p.id
      ensures StatusOf(b', id) == StatusOf(b, id)
    {
      SameRecordsSameStatus(b, b', id);
    }
  }

  lemma EntriesNotVouched(roster: Roster, id: DeviceId, at: nat)
    requires forall p :: p in roster.members && p.id == id ==> p.pairedAt <= at
    ensures NotVouchedIn(Entries(roster), id, at)
  {
    forall e | e in Entries(roster) && e.Joined? && e.peer.id == id
      ensures e.peer.pairedAt <= at
    {
      assert e.peer in roster.members;
    }
  }

  lemma HeardKeepsRemoval(b: Book, me: DeviceId, sender: DeviceId, roster: Roster, id: DeviceId, at: nat, age: nat)
    requires Valid(b) && Fresh(b.removed, id, at, age) && NotVouched(Heard(sender, roster), id, at)
    requires age + EntriesRemember(b, me, sender, Entries(roster)) < MAX_REMOVED
    ensures Fresh(Merge(b, me, sender, roster).book.removed, id, at,
        age + EntriesRemember(b, me, sender, Entries(roster)))
  {
    EntriesNotVouched(roster, id, at);
    EntriesKeepRemoval(b, me, sender, Entries(roster), id, at, age);
  }

  lemma RemoveKeepsRemoval(b: Book, other: DeviceId, t: nat, id: DeviceId, at: nat, age: nat)
    requires Valid(b) && Fresh(b.removed, id, at, age) && HasPeer(b.peers, other) && age + 1 < MAX_REMOVED
    ensures Fresh(Remove(b, other, t).removed, id, at, age + 1)
  {
    FreshMeansRemoved(b, id, at, age);
    var i := FindPeer(b.peers, other).value;
    FreshRemember(b.removed, Removed(b.peers[i], t, false), id, at, age);
  }

  lemma OpKeepsRemoval(b: Book, me: DeviceId, op: Op, id: DeviceId, at: nat, age: nat)
    requires Valid(b) && Fresh(b.removed, id, at, age) && NotVouched(op, id, at)
    requires age + OpRemembers(b, me, op) < MAX_REMOVED
    ensures Fresh(Apply(b, me, op).removed, id, at, age + OpRemembers(b, me, op))
  {
    match op {
      case Heard(sender, roster) => HeardKeepsRemoval(b, me, sender, roster, id, at, age);
      case RemoveHere(other, t) =>
        if HasPeer(b.peers, other) {
          RemoveKeepsRemoval(b, other, t, id, at, age);
        }
      case Pair(peer) => FreshWithout(b.removed, peer.id, id, at, age);
      case Tell(told) => FreshAfterTelling(b.removed, MarkNotified(b.removed, told), id, at, age);
      case ForgetGroup =>
    }
  }

  /** A removal sticks: no run of merges, removals and pairings of other devices makes `id` a member
      again, unless something vouches for it after its removal, as long as fewer than 100 other
      removals are remembered after it. */
  lemma {:induction false} RemovalSticks(b: Book, me: DeviceId, ops: seq<Op>, id: DeviceId, at: nat, age: nat)
    requires Valid(b) && Fresh(b.removed, id, at, age)
    requires forall op :: op in ops ==> NotVouched(op, id, at)
    requires age + RunRemembers(b, me, ops) < MAX_REMOVED
    ensures StatusOf(Run(b, me, ops), id).Gone? && StatusOf(Run(b, me, ops), id).at >= at
    decreases |ops|
  {
    if ops == [] {
      FreshMeansRemoved(b, id, at, age);
    } else {
      OpKeepsValid(b, me, ops[0]);
      OpKeepsRemoval(b, me, ops[0], id, at, age);
      RemovalSticks(Apply(b, me, ops[0]), me, ops[1..], id, at, age + OpRemembers(b, me, ops[0]));
    }
  }

  /** Removing a member here and then any such run: it stays removed, since that time or later. */
  lemma RemovedHereSticks(b: Book, me: DeviceId, id: DeviceId, at: nat, ops: seq<Op>)
    requires Valid(b) && HasPeer(b.peers, id)
    requires forall op :: op in ops ==> NotVouched(op, id, at)
    requires RunRemembers(Remove(b, id, at), me, ops) <= 99
    ensures StatusOf(Run(Remove(b, id, at), me, ops), id).Gone?
    ensures StatusOf(Run(Remove(b, id, at), me, ops), id).at >= at
  {
    OpKeepsValid(b, me, RemoveHere(id, at));
    var removed := Remove(b, id, at).removed;
    assert removed[|removed| - 1].peer.id == id;
    assert Fresh(removed, id, at, 0);
    RemovalSticks(Remove(b, id, at), me, ops, id, at, 0);
  }

  // ---- Without room ----

  /** Two paired devices `x` and `y`, members of no larger group, each remembering as many removals
      as fit, none of them the same. */
  ghost predicate FullAndDisjoint(a: Book, x: DeviceId, b: Book, y: DeviceId) {
    && Valid(a) && Valid(b) && x != y
    && |a.removed| == MAX_REMOVED && |b.removed| == MAX_REMOVED
    && (forall p :: p in a.peers ==> p.id == y)
    && (forall p :: p in b.peers ==> p.id == x)
    && (forall i, j :: 0 <= i < |a.removed| && 0 <= j < |b.removed| ==> a.removed[i].peer.id != b.removed[j].peer.id)
    && (forall i :: 0 <= i < |a.removed| ==>
         a.removed[i].peer.key != 0 && a.removed[i].peer.id != x && a.removed[i].peer.id != y)
    && (forall i :: 0 <= i < |b.removed| ==>
         b.removed[i].peer.key != 0 && b.removed[i].peer.id != x && b.removed[i].peer.id != y)
  }

  function Untold(s: seq<Removed>): (r: seq<Removed>)
    ensures |r| == |s|
  {
    seq(|s|, i requires 0 <= i < |s| => s[i].(notified := false))
  }

  /** The store of `a` after the first `k` lines of the roster of `b`. */
  function Swapped(a: Book, b: Book, k: nat): Merged
    requires |a.removed| == |b.removed| == MAX_REMOVED
    requires k <= |Entries(RosterOf(b))|
  {
    var m := |Take(b.peers, MAX_ROSTER_ENTRIES)|;
    if k <= m then Merged(a, NO_CHANGE)
    else Merged(Book(a.peers, a.removed[k - m..] + Untold(b.removed)[..k - m]), Change([], [], true))
  }

  lemma SwapStep(a: Book, x: DeviceId, b: Book, y: DeviceId, k: nat)
    requires FullAndDisjoint(a, x, b, y)
    requires k < |Entries(RosterOf(b))|
    ensures MergeEntry(Swapped(a, b, k), x, y, Entries(RosterOf(b))[k]) == Swapped(a, b, k + 1)
  {
    var e := Entries(RosterOf(b))[k];
    var m := |Take(b.peers, MAX_ROSTER_ENTRIES)|;
    if k < m {
      assert e.peer in b.peers;
    } else {
      var j := k - m;
      var r := b.removed[j];
      assert e == Left(r.peer, r.removedAt);
      SwapOne(a, x, b, y, j);
      assert a.removed[0..] + Untold(b.removed)[..0] == a.removed;
    }
  }

  lemma SwapOne(a: Book, x: DeviceId, b: Book, y: DeviceId, j: nat)
    requires FullAndDisjoint(a, x, b, y) && j < MAX_REMOVED
    ensures var s := a.removed[j..] + Untold(b.removed)[..j];
      && !HasPeer(a.peers, b.removed[j].peer.id)
      && !HasRemoved(s, b.removed[j].peer.id)
      && Remember(s, Removed(b.removed[j].peer, b.removed[j].removedAt, false))
           == a.removed[j + 1..] + Untold(b.removed)[..j + 1]
  {
    var id := b.removed[j].peer.id;
    assert !HasPeer(a.peers, id) by {
      assert forall i :: 0 <= i < |a.peers| ==> a.peers[i] in a.peers;
    }
    NotAmong(a.removed, b.removed, j);
    WithoutAbsent(a.removed[j..] + Untold(b.removed)[..j], id);
    Slide(a.removed, Untold(b.removed), j);
  }

  lemma NotAmong(s: seq<Removed>, t: seq<Removed>, j: nat)
    requires j < |s| == |t| && UniqueRemoved(t)
    requires forall i, j :: 0 <= i < |s| && 0 <= j < |t| ==> s[i].peer.id != t[j].peer.id
    ensures !HasRemoved(s[j..] + Untold(t)[..j], t[j].peer.id)
  {
    var both := s[j..] + Untold(t)[..j];
    forall i | 0 <= i < |both|
      ensures both[i].peer.id != t[j].peer.id
    {
      if i < |s| - j {
        assert both[i] == s[i + j];
      } else {
        assert both[i].peer == t[i - (|s| - j)].peer;
      }
    }
  }

  lemma Slide(s: seq<Removed>, t: seq<Removed>, j: nat)
    requires j < |s| == |t|
    ensures (s[j..] + t[..j] + [t[j]])[1..] == s[j + 1..] + t[..j + 1]
  {
  }

  lemma {:induction false} SwapLines(a: Book, x: DeviceId, b: Book, y: DeviceId, es: seq<Entry>, k: nat)
    requires FullAndDisjoint(a, x, b, y) && es == Entries(RosterOf(b)) && k <= |es|
    ensures MergeEntries(a, x, y, es[..k]) == Swapped(a, b, k)
  {
    if k == 0 {
      assert es[..0] == [];
    } else {
      SwapLines(a, x, b, y, es, k - 1);
      SwapNext(a, x, b, y, es, k - 1);
    }
  }

  lemma SwapNext(a: Book, x: DeviceId, b: Book, y: DeviceId, es: seq<Entry>, k: nat)
    requires FullAndDisjoint(a, x, b, y) && es == Entries(RosterOf(b)) && k < |es|
    requires MergeEntries(a, x, y, es[..k]) == Swapped(a, b, k)
    ensures MergeEntries(a, x, y, es[..k + 1]) == Swapped(a, b, k + 1)
  {
    MergeEntriesStep(a, x, y, es, k);
    SwapStep(a, x, b, y, k);
  }

  /** Two such stores with their removals exchanged are such stores again. */
  lemma ExchangeStaysFull(a: Book, x: DeviceId, b: Book, y: DeviceId)
    requires FullAndDisjoint(a, x, b, y)
    ensures FullAndDisjoint(Book(a.peers, Untold(b.removed)), x, Book(b.peers, Untold(a.removed)), y)
  {
    var a', b' := Book(a.peers, Untold(b.removed)), Book(b.peers, Untold(a.removed));
    assert Valid(a') by {
      forall i, j | 0 <= i < |a'.peers| && 0 <= j < |a'.removed| ensures a'.peers[i].id != a'.removed[j].peer.id {
        assert a.peers[i] in a.peers;
      }
    }
    assert Valid(b') by {
      forall i, j | 0 <= i < |b'.peers| && 0 <= j < |b'.removed| ensures b'.peers[i].id != b'.removed[j].peer.id {
        assert b.peers[i] in b.peers;
      }
    }
  }

  /** When two such devices hear each other's rosters at the same time, each forgets all its own
      removals for the other's, and each has news to pass on. */
  lemma FullStoresSwap(a: Book, x: DeviceId, b: Book, y: DeviceId)
    requires FullAndDisjoint(a, x, b, y)
    ensures Merge(a, x, y, RosterOf(b)) == Merged(Book(a.peers, Untold(b.removed)), Change([], [], true))
    ensures Merge(b, y, x, RosterOf(a)) == Merged(Book(b.peers, Untold(a.removed)), Change([], [], true))
  {
    SwapAll(a, x, b, y);
    assert FullAndDisjoint(b, y, a, x);
    SwapAll(b, y, a, x);
  }

  lemma SwapAll(a: Book, x: DeviceId, b: Book, y: DeviceId)
    requires FullAndDisjoint(a, x, b, y)
    ensures Merge(a, x, y, RosterOf(b)) == Merged(Book(a.peers, Untold(b.removed)), Change([], [], true))
  {
    var es := Entries(RosterOf(b));
    var m := |Take(b.peers, MAX_ROSTER_ENTRIES)|;
    SwapLines(a, x, b, y, es, |es|);
    assert es[..|es|] == es;
    assert |es| - m == MAX_REMOVED;
    assert a.removed[MAX_REMOVED..] + Untold(b.removed)[..MAX_REMOVED] == Untold(b.removed);
  }

  /** The stores after the rosters of the two devices have crossed `k` times. */
  function Crossed(a: Book, x: DeviceId, b: Book, y: DeviceId, k: nat): (Book, Book) {
    if k == 0 then (a, b) else Cross(Crossed(a, x, b, y, k - 1), x, y)
  }

  function Cross(p: (Book, Book), x: DeviceId, y: DeviceId): (Book, Book) {
    (Merge(p.0, x, y, RosterOf(p.1)).book, Merge(p.1, y, x, RosterOf(p.0)).book)
  }

  lemma CrossIs(p: (Book, Book), x: DeviceId, y: DeviceId)
    requires FullAndDisjoint(p.0, x, p.1, y)
    ensures Cross(p, x, y) == (Book(p.0.peers, Untold(p.1.removed)), Book(p.1.peers, Untold(p.0.removed)))
  {
    FullStoresSwap(p.0, x, p.1, y);
  }

  /** What they hold then. */
  function Exchanged(a: Book, b: Book, k: nat): (Book, Book) {
    if k == 0 then (a, b)
    else if k % 2 == 0 then (Book(a.peers, Untold(a.removed)), Book(b.peers, Untold(b.removed)))
    else (Book(a.peers, Untold(b.removed)), Book(b.peers, Untold(a.removed)))
  }

  lemma UntoldTwice(s: seq<Removed>)
    ensures Untold(Untold(s)) == Untold(s)
  {
  }

  lemma ExchangedFull(a: Book, x: DeviceId, b: Book, y: DeviceId, k: nat)
    requires FullAndDisjoint(a, x, b, y)
    ensures FullAndDisjoint(Exchanged(a, b, k).0, x, Exchanged(a, b, k).1, y)
  {
    ExchangeStaysFull(a, x, b, y);
    ExchangeStaysFull(Exchanged(a, b, 1).0, x, Exchanged(a, b, 1).1, y);
    UntoldTwice(a.removed);
    UntoldTwice(b.removed);
  }

  lemma ExchangedStep(a: Book, b: Book, k: nat)
    ensures var p := Exchanged(a, b, k);
      Exchanged(a, b, k + 1) == (Book(p.0.peers, Untold(p.1.removed)), Book(p.1.peers, Untold(p.0.removed)))
  {
    UntoldTwice(a.removed);
    UntoldTwice(b.removed);
  }

  lemma CrossStep(a: Book, x: DeviceId, b: Book, y: DeviceId, k: nat)
    requires FullAndDisjoint(a, x, b, y)
    ensures Cross(Exchanged(a, b, k), x, y) == Exchanged(a, b, k + 1)
  {
    ExchangedFull(a, x, b, y, k);
    CrossIs(Exchanged(a, b, k), x, y);
    ExchangedStep(a, b, k);
  }

  lemma {:induction false} CrossedIs(a: Book, x: DeviceId, b: Book, y: DeviceId, k: nat)
    requires FullAndDisjoint(a, x, b, y)
    ensures Crossed(a, x, b, y, k) == Exchanged(a, b, k)
  {
    if k > 0 {
      CrossedIs(a, x, b, y, k - 1);
      CrossStep(a, x, b, y, k - 1);
    }
  }

  lemma UntoldAnnounced(s: seq<Removed>)
    ensures Announced(Untold(s)) == Announced(s)
  {
  }

  /** Without room for every removal gossip need not stop: however long the rosters keep crossing,
      each device always has news for the other, the same removals changing sides every time. */
  lemma FullStoresNeverSettle(a: Book, x: DeviceId, b: Book, y: DeviceId, k: nat)
    requires FullAndDisjoint(a, x, b, y)
    ensures var (a', b') := Crossed(a, x, b, y, k);
      && Merge(a', x, y, RosterOf(b')).change == Change([], [], true)
      && Merge(b', y, x, RosterOf(a')).change == Change([], [], true)
      && Announced(a'.removed) == Announced(if k % 2 == 0 then a.removed else b.removed)
      && Announced(b'.removed) == Announced(if k % 2 == 0 then b.removed else a.removed)
  {
    CrossedIs(a, x, b, y, k);
    NewsForBoth(a, x, b, y, k);
    ExchangedAnnounce(a, b, k);
  }

  lemma NewsForBoth(a: Book, x: DeviceId, b: Book, y: DeviceId, k: nat)
    requires FullAndDisjoint(a, x, b, y)
    ensures var (a', b') := Exchanged(a, b, k);
      && Merge(a', x, y, RosterOf(b')).change == Change([], [], true)
      && Merge(b', y, x, RosterOf(a')).change == Change([], [], true)
  {
    ExchangedFull(a, x, b, y, k);
    FullStoresSwap(Exchanged(a, b, k).0, x, Exchanged(a, b, k).1, y);
  }

  lemma ExchangedAnnounce(a: Book, b: Book, k: nat)
    ensures var (a', b') := Exchanged(a, b, k);
      && Announced(a'.removed) == Announced(if k % 2 == 0 then a.removed else b.removed)
      && Announced(b'.removed) == Announced(if k % 2 == 0 then b.removed else a.removed)
  {
    UntoldAnnounced(a.removed);
    UntoldAnnounced(b.removed);
  }
}
