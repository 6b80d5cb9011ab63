/** What one line of a roster, and a whole roster, does to what a store says of each device; and
    which merges are silent. Nothing here depends on what was recorded where; only on room for
    every removal, where it says so. */
module GroupRules {
  import opened Peers
  import opened Membership

  // ---- One line ----

  predicate SameKey(s: Status, t: Status) {
    s.Member? && t.Member? && s.key == t.key
  }

  /** A store holding `t` has nothing to learn from `s`: it ranks no higher, or tells of another
      pairing of the key held. */
  predicate AtLeast(t: Status, s: Status) {
    Rank(s) <= Rank(t) || SameKey(s, t)
  }

  /** The same but for the time of a key's pairing, or but for the key at one time. */
  predicate Alike(s: Status, t: Status) {
    s == t || (s.Member? && t.Member? && (s.key == t.key || s.at == t.at))
  }

  /** A line is taken exactly when there is something to learn from it; and then it ranks higher. */
  lemma AbsorbIs(s: Status, claim: Status)
    ensures Absorb(s, claim) == if AtLeast(s, claim) then s else claim
    ensures AtLeast(Absorb(s, claim), s) && AtLeast(Absorb(s, claim), claim)
    ensures Rank(s) <= Rank(Absorb(s, claim))
    ensures Absorb(s, claim) != s ==> Rank(s) < Rank(claim)
  {
    match claim {
      case Absent =>
      case Member(_, _) =>
      case Gone(_) =>
    }
  }

  /** Two stores have nothing to learn from each other exactly when what they hold is alike. */
  lemma AlikeIff(s: Status, t: Status)
    ensures Alike(s, t) <==> AtLeast(s, t) && AtLeast(t, s)
    ensures Alike(s, t) <==> Absorb(s, t) == s && Absorb(t, s) == t
  {
    AbsorbIs(s, t);
    AbsorbIs(t, s);
  }

  function Max(a: nat, b: nat): nat {
    if a < b then b else a
  }

  /** The line lists a newer pairing of the very key this device already holds; the merge ignores it. */
  predicate SameKeyNewer(s: Status, claim: Status) {
    SameKey(s, claim) && claim.at > s.at
  }

  lemma AbsorbIsMaxIff(s: Status, claim: Status)
    ensures Rank(Absorb(s, claim)) == Max(Rank(s), Rank(claim)) <==> !SameKeyNewer(s, claim)
  {
    AbsorbIs(s, claim);
  }

  /** A pairing a store holding `s` takes: of a device it doesn't know, of another key at a later
      time, or later than the removal. */
  predicate Taken(s: Status, pairing: Status)
    requires pairing.Member?
  {
    match s
    case Absent => true
    case Member(key, at) => key != pairing.key && at < pairing.at
    case Gone(at) => at < pairing.at
  }

  /** Two claims about one device whose order matters to a store holding `s`: both are pairings it
      takes, but of one key at two times or of two keys at one time; or the second repeats, with a
      newer time, the key the first replaces; or a removal falls between two times of the key held. */
  predicate Clash(s: Status, a: Status, b: Status) {
    || (a.Member? && b.Member? && Taken(s, a) && Taken(s, b) && (a.key == b.key) != (a.at == b.at))
    || (a.Member? && SameKeyNewer(s, b) && Taken(s, a) && b.at > a.at)
    || (SameKeyNewer(s, a) && b.Gone? && s.at <= b.at < a.at)
  }

  lemma OrderMattersIffClash(s: Status, a: Status, b: Status)
    ensures Absorb(Absorb(s, a), b) == Absorb(Absorb(s, b), a) <==> !(Clash(s, a, b) || Clash(s, b, a))
  {
    match a {
      case Absent =>
      case Member(_, _) =>
        match b {
          case Absent =>
          case Member(_, _) =>
          case Gone(_) =>
        }
      case Gone(_) =>
        match b {
          case Absent =>
          case Member(_, _) =>
          case Gone(_) =>
        }
    }
  }

  // ---- Nothing forgotten ----

  /** Every removal is of a device in `r`, and there is room to remember all of those. */
  ghost predicate Bounded(b: Book, r: set<DeviceId>) {
    |r| <= MAX_REMOVED && forall x :: x in b.removed ==> x.peer.id in r
  }

  ghost predicate LeftWithin(es: seq<Entry>, r: set<DeviceId>) {
    forall e :: e in es && e.Left? ==> e.peer.id in r
  }

  lemma {:induction false} UniqueLength(s: seq<Removed>, r: set<DeviceId>)
    requires UniqueRemoved(s) && forall x :: x in s ==> x.peer.id in r
    ensures |s| <= |r|
  {
    if s != [] {
      var last := s[|s| - 1];
      var init := s[..|s| - 1];
      assert forall x :: x in init ==> x in s;
      assert last in s;
      forall x | x in init
        ensures x.peer.id in r - {last.peer.id}
      {
      }
      UniqueLength(init, r - {last.peer.id});
    }
  }

  lemma BoundedHasRoom(b: Book, r: set<DeviceId>, id: DeviceId)
    requires Valid(b) && Bounded(b, r) && id in r
    ensures Room(b.removed, id)
  {
    if !HasRemoved(b.removed, id) {
      forall x | x in b.removed
        ensures x.peer.id in r - {id}
      {
      }
      UniqueLength(b.removed, r - {id});
    }
  }

  lemma BoundedStep(m: Merged, me: DeviceId, sender: DeviceId, e: Entry, r: set<DeviceId>)
    requires Valid(m.book) && Bounded(m.book, r) && (e.Left? ==> e.peer.id in r)
    ensures Bounded(MergeEntry(m, me, sender, e).book, r)
  {
    var b, b' := m.book, MergeEntry(m, me, sender, e).book;
    if e.Left? {
      var i := FindPeer(b.peers, e.peer.id);
      var x := Removed(if i.Some? then b.peers[i.value] else e.peer, e.at, false);
      RememberKeeps(b.removed, x);
    }
  }

  // ---- A whole roster ----

  /** What a line leaves of the status of `id`. */
  function AbsorbOne(s: Status, id: DeviceId, me: DeviceId, sender: DeviceId, e: Entry): Status {
    if Admissible(e, me, sender) && e.peer.id == id then Absorb(s, Claim(e)) else s
  }

  function AbsorbAll(s: Status, id: DeviceId, me: DeviceId, sender: DeviceId, es: seq<Entry>): Status {
    if es == [] then s
    else AbsorbOne(AbsorbAll(s, id, me, sender, es[..|es| - 1]), id, me, sender, es[|es| - 1])
  }

  lemma {:induction false} MergeEntriesValid(b: Book, me: DeviceId, sender: DeviceId, es: seq<Entry>)
    requires Valid(b)
    ensures Valid(MergeEntries(b, me, sender, es).book)
  {
    if es != [] {
      MergeEntriesValid(b, me, sender, es[..|es| - 1]);
      EntryEffect(MergeEntries(b, me, sender, es[..|es| - 1]), me, sender, es[|es| - 1]);
    }
  }

  lemma {:induction false} MergeEntriesEffect(b: Book, me: DeviceId, sender: DeviceId, es: seq<Entry>, r: set<DeviceId>)
    requires Valid(b) && Bounded(b, r) && LeftWithin(es, r)
    ensures var m := MergeEntries(b, me, sender, es);
      && Valid(m.book) && Bounded(m.book, r)
      && forall id :: StatusOf(m.book, id) == AbsorbAll(StatusOf(b, id), id, me, sender, es)
  {
    if es != [] {
      var init, e := es[..|es| - 1], es[|es| - 1];
      assert e in es && forall x :: x in init ==> x in es;
      MergeEntriesEffect(b, me, sender, init, r);
      var m := MergeEntries(b, me, sender, init);
      if e.Left? {
        BoundedHasRoom(m.book, r, e.peer.id);
      }
      EntryEffect(m, me, sender, e);
      BoundedStep(m, me, sender, e, r);
    }
  }

  /** A merge keeps a store well formed, whatever the roster. */
  lemma MergeKeepsValid(b: Book, me: DeviceId, sender: DeviceId, roster: Roster)
    requires Valid(b)
    ensures Valid(Merge(b, me, sender, roster).book)
  {
    MergeEntriesValid(b, me, sender, Entries(roster));
  }

  /** Of a roster that is too long, only the first lines of each list count. */
  lemma ExtraLinesIgnored(b: Book, me: DeviceId, sender: DeviceId, roster: Roster, members: seq<Peer>,
                          removed: seq<RosterRemoval>)
    requires members == [] || |roster.members| >= MAX_ROSTER_ENTRIES
    requires removed == [] || |roster.removed| >= MAX_ROSTER_ENTRIES
    ensures Merge(b, me, sender, Roster(roster.members + members, roster.removed + removed))
         == Merge(b, me, sender, roster)
  {
    assert Take(roster.members + members, MAX_ROSTER_ENTRIES) == Take(roster.members, MAX_ROSTER_ENTRIES);
    assert Take(roster.removed + removed, MAX_ROSTER_ENTRIES) == Take(roster.removed, MAX_ROSTER_ENTRIES);
  }

  lemma TwoLines(b: Book, me: DeviceId, sender: DeviceId, e: Entry, f: Entry)
    ensures MergeEntries(b, me, sender, [e, f])
         == MergeEntry(MergeEntry(Merged(b, NO_CHANGE), me, sender, e), me, sender, f)
  {
    MergeEntriesStep(b, me, sender, [e, f], 0);
    MergeEntriesStep(b, me, sender, [e, f], 1);
    assert [e, f][..0] == [] && [e, f][..2] == [e, f];
  }

  lemma TwoLinesEffect(b: Book, me: DeviceId, sender: DeviceId, e: Entry, f: Entry, r: set<DeviceId>, id: DeviceId)
    requires Valid(b) && Bounded(b, r) && LeftWithin([e, f], r)
    ensures StatusOf(MergeEntries(b, me, sender, [e, f]).book, id)
         == AbsorbOne(AbsorbOne(StatusOf(b, id), id, me, sender, e), id, me, sender, f)
  {
    MergeEntriesEffect(b, me, sender, [e, f], r);
    assert [e, f][..1] == [e] && [e][..0] == [];
    assert AbsorbAll(StatusOf(b, id), id, me, sender, [e]) == AbsorbOne(StatusOf(b, id), id, me, sender, e);
  }

  lemma LinesClashAt(s: Status, id: DeviceId, me: DeviceId, sender: DeviceId, e: Entry, f: Entry)
    ensures AbsorbOne(AbsorbOne(s, id, me, sender, e), id, me, sender, f)
         != AbsorbOne(AbsorbOne(s, id, me, sender, f), id, me, sender, e)
       <==> e.peer.id == id == f.peer.id && Admissible(e, me, sender) && Admissible(f, me, sender)
            && (Clash(s, Claim(e), Claim(f)) || Clash(s, Claim(f), Claim(e)))
  {
    OrderMattersIffClash(s, Claim(e), Claim(f));
  }

  lemma LineOrderMattersAt(b: Book, me: DeviceId, sender: DeviceId, e: Entry, f: Entry, r: set<DeviceId>, id: DeviceId)
    requires Valid(b) && Bounded(b, r) && LeftWithin([e, f], r)
    ensures StatusOf(MergeEntries(b, me, sender, [e, f]).book, id)
         != StatusOf(MergeEntries(b, me, sender, [f, e]).book, id)
       <==> e.peer.id == id == f.peer.id && Admissible(e, me, sender) && Admissible(f, me, sender)
            && (Clash(StatusOf(b, id), Claim(e), Claim(f)) || Clash(StatusOf(b, id), Claim(f), Claim(e)))
  {
    assert LeftWithin([f, e], r);
    TwoLinesEffect(b, me, sender, e, f, r, id);
    TwoLinesEffect(b, me, sender, f, e, r, id);
    LinesClashAt(StatusOf(b, id), id, me, sender, e, f);
  }

  /** The order of two lines matters to a store exactly when both are about one device it listens to
      and clash with what it holds of it. */
  lemma LineOrderMattersIff(b: Book, me: DeviceId, sender: DeviceId, e: Entry, f: Entry, r: set<DeviceId>)
    requires Valid(b) && Bounded(b, r) && LeftWithin([e, f], r)
    ensures
      var (one, other) := (MergeEntries(b, me, sender, [e, f]).book, MergeEntries(b, me, sender, [f, e]).book);
      var s := StatusOf(b, e.peer.id);
      (exists id :: StatusOf(one, id) != StatusOf(other, id)) <==>
      && e.peer.id == f.peer.id && Admissible(e, me, sender) && Admissible(f, me, sender)
      && (Clash(s, Claim(e), Claim(f)) || Clash(s, Claim(f), Claim(e)))
  {
    var (one, other) := (MergeEntries(b, me, sender, [e, f]).book, MergeEntries(b, me, sender, [f, e]).book);
    LineOrderMattersAt(b, me, sender, e, f, r, e.peer.id);
    if id :| StatusOf(one, id) != StatusOf(other, id) {
      LineOrderMattersAt(b, me, sender, e, f, r, id);
    }
  }

  // ---- A roster that lists each device once ----

  /** As every roster does that a device makes of its own store. */
  ghost predicate ListsOnce(es: seq<Entry>) {
    forall i, j :: 0 <= i < j < |es| ==> es[i].peer.id != es[j].peer.id
  }

  lemma OwnRosterListsOnce(b: Book)
    requires Valid(b)
    ensures ListsOnce(Entries(RosterOf(b)))
  {
  }

  lemma {:induction false} AbsorbAllElsewhere(s: Status, id: DeviceId, me: DeviceId, sender: DeviceId, es: seq<Entry>)
    requires forall e :: e in es ==> e.peer.id != id
    ensures AbsorbAll(s, id, me, sender, es) == s
  {
    if es != [] {
      AbsorbAllElsewhere(s, id, me, sender, es[..|es| - 1]);
    }
  }

  lemma {:induction false} AbsorbAllOnce(s: Status, me: DeviceId, sender: DeviceId, es: seq<Entry>, k: nat)
    requires ListsOnce(es) && k < |es|
    ensures AbsorbAll(s, es[k].peer.id, me, sender, es) == AbsorbOne(s, es[k].peer.id, me, sender, es[k])
  {
    var init := es[..|es| - 1];
    if k < |init| {
      AbsorbAllOnce(s, me, sender, init, k);
    } else {
      AbsorbAllElsewhere(s, es[k].peer.id, me, sender, init);
    }
  }

  /** Merging such a roster: a device listed takes up its one line, the others stay. */
  lemma MergeOnce(b: Book, me: DeviceId, sender: DeviceId, es: seq<Entry>, r: set<DeviceId>, e: Entry)
    requires Valid(b) && Bounded(b, r) && LeftWithin(es, r) && ListsOnce(es) && e in es
    ensures StatusOf(MergeEntries(b, me, sender, es).book, e.peer.id)
         == AbsorbOne(StatusOf(b, e.peer.id), e.peer.id, me, sender, e)
  {
    MergeEntriesEffect(b, me, sender, es, r);
    var k :| 0 <= k < |es| && es[k] == e;
    AbsorbAllOnce(StatusOf(b, e.peer.id), me, sender, es, k);
  }

  // ---- Reported changes ----

  /** A line changes anything, and is reported, exactly when the store listens to it and has
      something to learn from it; room or not. */
  lemma LineReportsIff(m: Merged, me: DeviceId, sender: DeviceId, e: Entry)
    requires Valid(m.book)
    ensures var m' := MergeEntry(m, me, sender, e);
      && (m' == m <==> !Admissible(e, me, sender) || AtLeast(StatusOf(m.book, e.peer.id), Claim(e)))
      && (m' != m ==> !m'.change.IsEmpty())
  {
    if Admissible(e, me, sender) {
      var b, id := m.book, e.peer.id;
      StatusWitness(b, id);
      if HasPeer(b.peers, id) {
        StatusOfPeer(b, b.peers[FindPeer(b.peers, id).value]);
        assert KnownRemoval(b.removed, id, 0) ==> HasRemoved(b.removed, id);
      } else {
        RemovalKnownIff(b, id, if e.Joined? then e.peer.pairedAt else e.at);
      }
    }
  }

  lemma RemovalKnownIff(b: Book, id: DeviceId, since: nat)
    requires Valid(b)
    ensures KnownRemoval(b.removed, id, since) <==> StatusOf(b, id).Gone? && StatusOf(b, id).at >= since
  {
    StatusWitness(b, id);
    if KnownRemoval(b.removed, id, since) {
      var j :| 0 <= j < |b.removed| && b.removed[j].peer.id == id && b.removed[j].removedAt >= since;
      StatusOfRemoved(b, b.removed[j]);
    }
    if StatusOf(b, id).Gone? && StatusOf(b, id).at >= since {
      var x :| x in b.removed && x.peer.id == id && Gone(x.removedAt) == StatusOf(b, id);
      var j :| 0 <= j < |b.removed| && b.removed[j] == x;
    }
  }

  /** A merge that reports nothing changed nothing at all. */
  lemma {:induction false} SilentMergeChangesNothing(b: Book, me: DeviceId, sender: DeviceId, es: seq<Entry>)
    requires Valid(b) && MergeEntries(b, me, sender, es).change.IsEmpty()
    ensures MergeEntries(b, me, sender, es) == Merged(b, NO_CHANGE)
  {
    if es != [] {
      var init, e := es[..|es| - 1], es[|es| - 1];
      MergeEntriesValid(b, me, sender, init);
      ReportsStay(MergeEntries(b, me, sender, init), me, sender, e);
      LineReportsIff(MergeEntries(b, me, sender, init), me, sender, e);
      SilentMergeChangesNothing(b, me, sender, init);
    }
  }

  lemma ReportsStay(m: Merged, me: DeviceId, sender: DeviceId, e: Entry)
    ensures !m.change.IsEmpty() ==> !MergeEntry(m, me, sender, e).change.IsEmpty()
  {
  }

  /** A merge is silent exactly when there is nothing to learn from any line it listens to. */
  lemma {:induction false} SilentIff(b: Book, me: DeviceId, sender: DeviceId, es: seq<Entry>)
    requires Valid(b)
    ensures MergeEntries(b, me, sender, es) == Merged(b, NO_CHANGE)
       <==> forall e :: e in es && Admissible(e, me, sender) ==> AtLeast(StatusOf(b, e.peer.id), Claim(e))
  {
    if es != [] {
      var init, e := es[..|es| - 1], es[|es| - 1];
      assert es == init + [e];
      var m := MergeEntries(b, me, sender, init);
      SilentIff(b, me, sender, init);
      MergeEntriesValid(b, me, sender, init);
      LineReportsIff(m, me, sender, e);
      ReportsStay(m, me, sender, e);
      if MergeEntries(b, me, sender, es) == Merged(b, NO_CHANGE) {
        SilentMergeChangesNothing(b, me, sender, init);
      }
    }
  }

  /** With room for every removal, ranks never fall, and a reported change raised one. */
  lemma {:induction false} ReportedMergeRaises(b: Book, me: DeviceId, sender: DeviceId, es: seq<Entry>,
                                               r: set<DeviceId>)
    requires Valid(b) && Bounded(b, r) && LeftWithin(es, r)
    ensures var m := MergeEntries(b, me, sender, es);
      && (forall id :: Rank(StatusOf(b, id)) <= Rank(StatusOf(m.book, id)))
      && (!m.change.IsEmpty() ==> exists e ::
            e in es && e.peer.id != me && e.peer.id != sender
                && Rank(StatusOf(b, e.peer.id)) < Rank(StatusOf(m.book, e.peer.id)))
  {
    if es != [] {
      var init, e := es[..|es| - 1], es[|es| - 1];
      assert e in es && forall x :: x in init ==> x in es;
      ReportedMergeRaises(b, me, sender, init, r);
      MergeEntriesEffect(b, me, sender, init, r);
      var m := MergeEntries(b, me, sender, init);
      if e.Left? {
        BoundedHasRoom(m.book, r, e.peer.id);
      }
      EntryEffect(m, me, sender, e);
      LineReportsIff(m, me, sender, e);
      AbsorbIs(StatusOf(m.book, e.peer.id), Claim(e));
    }
  }

  /** Hearing the same roster again changes nothing, so rosters stop spreading: whatever was
      recorded where, for a roster that lists each device once. */
  lemma RemergeIsSilent(r: set<DeviceId>, b: Book, me: DeviceId, sender: DeviceId, es: seq<Entry>)
    requires Valid(b) && Bounded(b, r) && LeftWithin(es, r) && ListsOnce(es)
    ensures var b' := MergeEntries(b, me, sender, es).book;
      MergeEntries(b', me, sender, es) == Merged(b', NO_CHANGE)
  {
    var b' := MergeEntries(b, me, sender, es).book;
    MergeEntriesValid(b, me, sender, es);
    forall e | e in es && Admissible(e, me, sender)
      ensures AtLeast(StatusOf(b', e.peer.id), Claim(e))
    {
      MergeOnce(b, me, sender, es, r, e);
      AbsorbIs(StatusOf(b, e.peer.id), Claim(e));
    }
    SilentIff(b', me, sender, es);
  }

  /** In particular the roster another store sends. */
  lemma RehearingIsSilent(r: set<DeviceId>, b: Book, me: DeviceId, sender: DeviceId, theirs: Book)
    requires Valid(b) && Valid(theirs) && Bounded(b, r) && Bounded(theirs, r)
    ensures var b' := Merge(b, me, sender, RosterOf(theirs)).book;
      Merge(b', me, sender, RosterOf(theirs)) == Merged(b', NO_CHANGE)
  {
    OwnRosterListsOnce(theirs);
    OwnRosterWithin(theirs, r);
    RemergeIsSilent(r, b, me, sender, Entries(RosterOf(theirs)));
  }

  lemma OwnRosterWithin(b: Book, r: set<DeviceId>)
    requires Bounded(b, r)
    ensures LeftWithin(Entries(RosterOf(b)), r)
  {
    forall e | e in Entries(RosterOf(b)) && e.Left?
      ensures e.peer.id in r
    {
      var i :| 0 <= i < |b.removed| && b.removed[i].peer == e.peer;
      assert b.removed[i] in b.removed;
    }
  }

  // ---- Two stores that hear each other ----

  /** A roster that fits: keys that can be devices, and no more lines than a receiver reads. */
  ghost predicate Sendable(b: Book) {
    && |b.peers| <= MAX_ROSTER_ENTRIES
    && (forall p :: p in b.peers ==> p.key != 0)
    && (forall x :: x in b.removed ==> x.peer.key != 0)
  }

  /** The roster of a store says exactly what the store holds. */
  lemma OwnRosterSays(b: Book, id: DeviceId)
    requires Valid(b) && Sendable(b)
    ensures StatusOf(b, id) != Absent ==>
      exists e :: e in Entries(RosterOf(b)) && e.peer.id == id && e.peer.key != 0 && Claim(e) == StatusOf(b, id)
    ensures forall e :: e in Entries(RosterOf(b)) && e.peer.id == id ==> Claim(e) == StatusOf(b, id)
  {
    var es := Entries(RosterOf(b));
    StatusWitness(b, id);
    if StatusOf(b, id).Member? {
      var p :| p in b.peers && p.id == id && Member(p.key, p.pairedAt) == StatusOf(b, id);
      var i :| 0 <= i < |b.peers| && b.peers[i] == p;
      assert es[i] == Joined(p);
    } else if StatusOf(b, id).Gone? {
      var x :| x in b.removed && x.peer.id == id && Gone(x.removedAt) == StatusOf(b, id);
      var i :| 0 <= i < |b.removed| && b.removed[i] == x;
      assert es[|b.peers| + i] == Left(x.peer, x.removedAt);
    }
    forall e | e in es && e.peer.id == id
      ensures Claim(e) == StatusOf(b, id)
    {
      LineIsHeld(b, e);
    }
  }

  lemma LineIsHeld(b: Book, e: Entry)
    requires Valid(b) && e in Entries(RosterOf(b))
    ensures Claim(e) == StatusOf(b, e.peer.id)
  {
    if e.Joined? {
      StatusOfPeer(b, e.peer);
    } else {
      var i :| 0 <= i < |b.removed| && Announced(b.removed)[i] == RosterRemoval(e.peer, e.at);
      StatusOfRemoved(b, b.removed[i]);
    }
  }

  /** One store has nothing to learn from another's roster exactly when it holds at least as much of
      every third device. */
  lemma HearsNothingNewIff(a: Book, x: DeviceId, b: Book, y: DeviceId)
    requires Valid(a) && Valid(b) && Sendable(b)
    ensures Merge(a, x, y, RosterOf(b)) == Merged(a, NO_CHANGE)
       <==> forall id :: id != x && id != y ==> AtLeast(StatusOf(a, id), StatusOf(b, id))
  {
    var es := Entries(RosterOf(b));
    SilentIff(a, x, y, es);
    forall id ensures StatusOf(b, id) != Absent ==>
        exists e :: e in es && e.peer.id == id && e.peer.key != 0 && Claim(e) == StatusOf(b, id)
      ensures forall e :: e in es && e.peer.id == id ==> Claim(e) == StatusOf(b, id)
    {
      OwnRosterSays(b, id);
    }
  }

  /** Two connected stores go on ignoring each other's rosters exactly when they hold alike of every
      third device; nothing is assumed of what was recorded where, nor of room. */
  lemma IgnoreEachOtherIff(a: Book, x: DeviceId, b: Book, y: DeviceId)
    requires Valid(a) && Valid(b) && Sendable(a) && Sendable(b)
    ensures Merge(a, x, y, RosterOf(b)) == Merged(a, NO_CHANGE) && Merge(b, y, x, RosterOf(a)) == Merged(b, NO_CHANGE)
       <==> forall id :: id != x && id != y ==> Alike(StatusOf(a, id), StatusOf(b, id))
  {
    HearsNothingNewIff(a, x, b, y);
    HearsNothingNewIff(b, y, a, x);
    forall id ensures Alike(StatusOf(a, id), StatusOf(b, id)) <==>
      AtLeast(StatusOf(a, id), StatusOf(b, id)) && AtLeast(StatusOf(b, id), StatusOf(a, id))
    {
      AlikeIff(StatusOf(a, id), StatusOf(b, id));
    }
  }
}
