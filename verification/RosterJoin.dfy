/** Merging whole rosters as taking the newest of everything heard, in whatever order. */
module RosterJoin {
  import opened Peers
  import opened Membership
  import opened GroupRules
  import opened GroupJoin

  // ---- A whole roster ----

  /** `t` is the newest of `s` and every admissible line about `id`. */
  ghost predicate Newest(t: Status, s: Status, id: DeviceId, me: DeviceId, sender: DeviceId, es: seq<Entry>) {
    && (t == s || exists e :: e in es && Admissible(e, me, sender) && e.peer.id == id && Claim(e) == t)
    && AtLeast(t, s)
    && forall e :: e in es && Admissible(e, me, sender) && e.peer.id == id ==> AtLeast(t, Claim(e))
  }

  lemma {:induction false} AbsorbAllNewest(u: Records, s: Status, id: DeviceId, me: DeviceId, sender: DeviceId,
                                           es: seq<Entry>)
    requires Unbroken(u) && Recorded(u, id, s) && EntriesRecorded(u, es)
    ensures Newest(AbsorbAll(s, id, me, sender, es), s, id, me, sender, es)
    ensures Recorded(u, id, AbsorbAll(s, id, me, sender, es))
  {
    if es != [] {
      var init, e := es[..|es| - 1], es[|es| - 1];
      assert es == init + [e];
      assert e in es && forall x :: x in init ==> x in es;
      AbsorbAllNewest(u, s, id, me, sender, init);
      if Admissible(e, me, sender) && e.peer.id == id {
        NewestAbsorbs(u, AbsorbAll(s, id, me, sender, init), s, id, me, sender, init, e);
      }
    }
  }

  lemma NewestAbsorbs(u: Records, t: Status, s: Status, id: DeviceId, me: DeviceId, sender: DeviceId, es: seq<Entry>,
                      e: Entry)
    requires Unbroken(u) && Recorded(u, id, s) && Recorded(u, id, t) && EntriesRecorded(u, es)
        && Recorded(u, id, Claim(e))
    requires Newest(t, s, id, me, sender, es) && Admissible(e, me, sender) && e.peer.id == id
    ensures Newest(Absorb(t, Claim(e)), s, id, me, sender, es + [e]) && Recorded(u, id, Absorb(t, Claim(e)))
  {
    var t' := Absorb(t, Claim(e));
    AbsorbIs(t, Claim(e));
    StepsDown(u, id, s, t, t');
    forall x | x in es && Admissible(x, me, sender) && x.peer.id == id ensures AtLeast(t', Claim(x)) {
      StepsDown(u, id, Claim(x), t, t');
    }
    assert e in es + [e];
    if t' == t && t != s {
      var x :| x in es && Admissible(x, me, sender) && x.peer.id == id && Claim(x) == t;
      assert x in es + [e];
    }
  }

  /** Roster merge takes the newest: for each device, one of what was held and the admissible lines
      about it, and at least as much as all of them; all other devices keep theirs. */
  lemma MergeIsJoin(u: Records, r: set<DeviceId>, b: Book, me: DeviceId, sender: DeviceId, roster: Roster, id: DeviceId)
    requires Unbroken(u) && Valid(b) && BookRecorded(u, b) && EntriesRecorded(u, Entries(roster))
    requires Bounded(b, r) && LeftWithin(Entries(roster), r)
    ensures Newest(StatusOf(Merge(b, me, sender, roster).book, id), StatusOf(b, id), id, me, sender, Entries(roster))
    ensures Recorded(u, id, StatusOf(Merge(b, me, sender, roster).book, id))
  {
    MergeEntriesEffect(b, me, sender, Entries(roster), r);
    BookStatusRecorded(u, b, id);
    AbsorbAllNewest(u, StatusOf(b, id), id, me, sender, Entries(roster));
  }

  /** Hearing any roster again is silent too, for unbroken records, however often it lists a device. */
  lemma AnyRemergeIsSilent(u: Records, r: set<DeviceId>, b: Book, me: DeviceId, sender: DeviceId, roster: Roster)
    requires Unbroken(u) && Valid(b) && BookRecorded(u, b) && EntriesRecorded(u, Entries(roster))
    requires Bounded(b, r) && LeftWithin(Entries(roster), r)
    ensures var b' := Merge(b, me, sender, roster).book;
      Merge(b', me, sender, roster) == Merged(b', NO_CHANGE)
  {
    var b' := Merge(b, me, sender, roster).book;
    MergeKeepsValid(b, me, sender, roster);
    forall e | e in Entries(roster) && Admissible(e, me, sender) ensures AtLeast(StatusOf(b', e.peer.id), Claim(e)) {
      MergeIsJoin(u, r, b, me, sender, roster, e.peer.id);
    }
    SilentIff(b', me, sender, Entries(roster));
  }

  lemma {:induction false} MergeRecorded(u: Records, b: Book, me: DeviceId, sender: DeviceId, es: seq<Entry>)
    requires BookRecorded(u, b) && EntriesRecorded(u, es) && Valid(b)
    ensures BookRecorded(u, MergeEntries(b, me, sender, es).book)
  {
    if es != [] {
      var init, e := es[..|es| - 1], es[|es| - 1];
      assert e in es && forall x :: x in init ==> x in es;
      MergeRecorded(u, b, me, sender, init);
      MergeEntriesValid(b, me, sender, init);
      LineRecorded(u, MergeEntries(b, me, sender, init), me, sender, e);
    }
  }

  lemma LineRecorded(u: Records, m: Merged, me: DeviceId, sender: DeviceId, e: Entry)
    requires BookRecorded(u, m.book) && Recorded(u, e.peer.id, Claim(e)) && Valid(m.book)
    ensures BookRecorded(u, MergeEntry(m, me, sender, e).book)
  {
    var b, b' := m.book, MergeEntry(m, me, sender, e).book;
    if e.Left? {
      var i := FindPeer(b.peers, e.peer.id);
      RememberKeeps(b.removed, Removed(if i.Some? then b.peers[i.value] else e.peer, e.at, false));
    } else {
      assert e.peer == Peer(e.peer.id, e.peer.key, e.peer.pairedAt);
    }
  }

  /** Two rosters leave the same in either order, but for the time of a key's pairing or the key at
      one time. */
  lemma MergeOrderIrrelevant(u: Records, r: set<DeviceId>, b: Book, me: DeviceId,
                             s1: DeviceId, r1: Roster, s2: DeviceId, r2: Roster, id: DeviceId)
    requires Unbroken(u) && Valid(b) && BookRecorded(u, b)
    requires EntriesRecorded(u, Entries(r1)) && EntriesRecorded(u, Entries(r2))
    requires Bounded(b, r) && LeftWithin(Entries(r1), r) && LeftWithin(Entries(r2), r)
    ensures Alike(StatusOf(Merge(Merge(b, me, s1, r1).book, me, s2, r2).book, id),
                  StatusOf(Merge(Merge(b, me, s2, r2).book, me, s1, r1).book, id))
  {
    OneOrderHoldsAll(u, r, b, me, s1, r1, s2, r2, id);
    OneOrderHoldsAll(u, r, b, me, s2, r2, s1, r1, id);
    AlikeIff(StatusOf(Merge(Merge(b, me, s1, r1).book, me, s2, r2).book, id),
             StatusOf(Merge(Merge(b, me, s2, r2).book, me, s1, r1).book, id));
  }

  /** What one order leaves is at least what the other does. */
  lemma OneOrderHoldsAll(u: Records, r: set<DeviceId>, b: Book, me: DeviceId,
                         s1: DeviceId, r1: Roster, s2: DeviceId, r2: Roster, id: DeviceId)
    requires Unbroken(u) && Valid(b) && BookRecorded(u, b)
    requires EntriesRecorded(u, Entries(r1)) && EntriesRecorded(u, Entries(r2))
    requires Bounded(b, r) && LeftWithin(Entries(r1), r) && LeftWithin(Entries(r2), r)
    ensures AtLeast(StatusOf(Merge(Merge(b, me, s1, r1).book, me, s2, r2).book, id),
                    StatusOf(Merge(Merge(b, me, s2, r2).book, me, s1, r1).book, id))
  {
    var b1, b2 := Merge(b, me, s1, r1).book, Merge(b, me, s2, r2).book;
    var s, t1 := StatusOf(b, id), StatusOf(b1, id);
    var t, v := StatusOf(Merge(b1, me, s2, r2).book, id), StatusOf(Merge(b2, me, s1, r1).book, id);
    MergeEntriesEffect(b, me, s1, Entries(r1), r);
    MergeEntriesEffect(b, me, s2, Entries(r2), r);
    MergeRecorded(u, b, me, s1, Entries(r1));
    MergeRecorded(u, b, me, s2, Entries(r2));
    BookStatusRecorded(u, b, id);
    MergeIsJoin(u, r, b, me, s1, r1, id);
    MergeIsJoin(u, r, b, me, s2, r2, id);
    MergeIsJoin(u, r, b1, me, s2, r2, id);
    MergeIsJoin(u, r, b2, me, s1, r1, id);
    // `v` is one of what was held, a line of `r1` and a line of `r2`.
    if v == s {
      StepsDown(u, id, s, t1, t);
    } else if e :| e in Entries(r1) && Admissible(e, me, s1) && e.peer.id == id && Claim(e) == v {
      StepsDown(u, id, v, t1, t);
    } else {
      assert exists e :: e in Entries(r2) && Admissible(e, me, s2) && e.peer.id == id && Claim(e) == v;
    }
  }

  // ---- Coherent records ----

  /** For coherent records the merge is the maximum by rank. */
  lemma CoherentMergeIsMax(u: Records, r: set<DeviceId>, b: Book, me: DeviceId, sender: DeviceId, roster: Roster,
                           e: Entry)
    requires Coherent(u) && Valid(b) && BookRecorded(u, b) && EntriesRecorded(u, Entries(roster))
    requires Bounded(b, r) && LeftWithin(Entries(roster), r)
    requires e in Entries(roster) && Admissible(e, me, sender)
    ensures var t := StatusOf(Merge(b, me, sender, roster).book, e.peer.id);
      Rank(StatusOf(b, e.peer.id)) <= Rank(t) && Rank(Claim(e)) <= Rank(t)
  {
    var id := e.peer.id;
    CoherentIsUnbroken(u);
    BookStatusRecorded(u, b, id);
    MergeIsJoin(u, r, b, me, sender, roster, id);
    CoherentOrder(u, id, StatusOf(b, id), StatusOf(Merge(b, me, sender, roster).book, id));
    CoherentOrder(u, id, Claim(e), StatusOf(Merge(b, me, sender, roster).book, id));
  }

  /** And two rosters leave exactly the same in either order. */
  lemma CoherentOrderIrrelevant(u: Records, r: set<DeviceId>, b: Book, me: DeviceId,
                                s1: DeviceId, r1: Roster, s2: DeviceId, r2: Roster, id: DeviceId)
    requires Coherent(u) && Valid(b) && BookRecorded(u, b)
    requires EntriesRecorded(u, Entries(r1)) && EntriesRecorded(u, Entries(r2))
    requires Bounded(b, r) && LeftWithin(Entries(r1), r) && LeftWithin(Entries(r2), r)
    ensures StatusOf(Merge(Merge(b, me, s1, r1).book, me, s2, r2).book, id)
         == StatusOf(Merge(Merge(b, me, s2, r2).book, me, s1, r1).book, id)
  {
    CoherentIsUnbroken(u);
    MergeOrderIrrelevant(u, r, b, me, s1, r1, s2, r2, id);
    BothOrdersRecorded(u, r, b, me, s1, r1, s2, r2, id);
    BothOrdersRecorded(u, r, b, me, s2, r2, s1, r1, id);
    CoherentOrder(u, id, StatusOf(Merge(Merge(b, me, s1, r1).book, me, s2, r2).book, id),
                  StatusOf(Merge(Merge(b, me, s2, r2).book, me, s1, r1).book, id));
  }

  lemma BothOrdersRecorded(u: Records, r: set<DeviceId>, b: Book, me: DeviceId,
                           s1: DeviceId, r1: Roster, s2: DeviceId, r2: Roster, id: DeviceId)
    requires Unbroken(u) && Valid(b) && BookRecorded(u, b)
    requires EntriesRecorded(u, Entries(r1)) && EntriesRecorded(u, Entries(r2))
    requires Bounded(b, r) && LeftWithin(Entries(r1), r) && LeftWithin(Entries(r2), r)
    ensures Recorded(u, id, StatusOf(Merge(Merge(b, me, s1, r1).book, me, s2, r2).book, id))
  {
    MergeEntriesEffect(b, me, s1, Entries(r1), r);
    MergeRecorded(u, b, me, s1, Entries(r1));
    MergeIsJoin(u, r, Merge(b, me, s1, r1).book, me, s2, r2, id);
  }
}
