/** Which sessions a node keeps (`crates/cled-lan/src/node.rs`): only those with members of its
    group, and what each session is sent as the group changes. Nothing here needs room for
    removals, except where it says so. */
module NodeSessions {
  import opened Wrappers
  import opened Peers
  import opened Membership
  import opened GroupRules
  import opened Nodes
  import opened Gossip
  import GroupAgreement
  import Removals

  // ---- What a merge reports ----

  function KeyOf(b: Book, id: DeviceId): Option<Key> {
    match FindPeer(b.peers, id)
    case Some(i) => Some(b.peers[i].key)
    case None => None
  }

  lemma KeyOfPeer(b: Book, p: Peer)
    requires Valid(b) && p in b.peers
    ensures KeyOf(b, p.id) == Some(p.key)
  {
    StatusOfPeer(b, p);
  }

  lemma SamePeersSameKey(b: Book, c: Book, id: DeviceId)
    requires Valid(b) && Valid(c) && forall p: Peer :: p.id == id ==> (p in b.peers <==> p in c.peers)
    ensures KeyOf(b, id) == KeyOf(c, id)
  {
    match FindPeer(b.peers, id) {
      case Some(i) =>
        assert b.peers[i] in b.peers;
        KeyOfPeer(c, b.peers[i]);
      case None =>
        assert forall i :: 0 <= i < |c.peers| ==> c.peers[i] in c.peers;
    }
  }

  /** From `m` to `m'`, a change of the key held for `id`, if any, is reported: a member lost as
      removed, a key gained or replaced as added. */
  ghost predicate Reports(m: Merged, m': Merged, id: DeviceId) {
    var k, k' := KeyOf(m.book, id), KeyOf(m'.book, id);
    && m'.change.removed == m.change.removed + (if k != k' && k'.None? then [id] else [])
    && m'.change.added == m.change.added + if k != k' && k'.Some? then [id] else []
  }

  lemma JoinedReports(m: Merged, p: Peer)
    requires Valid(m.book)
    ensures Reports(m, MergeJoined(m, p), p.id)
    ensures forall id :: id != p.id ==> KeyOf(MergeJoined(m, p).book, id) == KeyOf(m.book, id)
  {
    var b, b' := m.book, MergeJoined(m, p).book;
    JoinedEffect(m, p);
    if b' != b {
      var known := FindPeer(b.peers, p.id);
      assert b'.peers[if known.Some? then known.value else |b.peers|] == p;
      KeyOfPeer(b', p);
      forall id | id != p.id ensures KeyOf(b', id) == KeyOf(b, id) {
        forall q: Peer | q.id == id ensures q in b.peers <==> q in b'.peers {
          if i :| 0 <= i < |b.peers| && b.peers[i] == q {
            assert b'.peers[i] == q;
          }
        }
        SamePeersSameKey(b, b', id);
      }
    }
  }

  lemma LeftReports(m: Merged, p: Peer, at: nat)
    requires Valid(m.book)
    ensures Reports(m, MergeLeft(m, p, at), p.id)
    ensures forall id :: id != p.id ==> KeyOf(MergeLeft(m, p, at).book, id) == KeyOf(m.book, id)
  {
    var b, b' := m.book, MergeLeft(m, p, at).book;
    LeftEffect(m, p, at);
    var known := FindPeer(b.peers, p.id);
    if known.Some? && b.peers[known.value].pairedAt <= at {
      DroppedPeer(b, known.value);
      forall id | id != p.id ensures KeyOf(b', id) == KeyOf(b, id) {
        SamePeersSameKey(b, b', id);
      }
    }
  }

  lemma EntryReports(m: Merged, me: DeviceId, sender: DeviceId, e: Entry)
    requires Valid(m.book)
    ensures Valid(MergeEntry(m, me, sender, e).book)
    ensures Reports(m, MergeEntry(m, me, sender, e), e.peer.id)
    ensures forall id :: id != e.peer.id ==> KeyOf(MergeEntry(m, me, sender, e).book, id) == KeyOf(m.book, id)
  {
    EntryEffect(m, me, sender, e);
    if Admissible(e, me, sender) {
      match e
      case Joined(p) => JoinedReports(m, p);
      case Left(p, at) => LeftReports(m, p, at);
    }
  }

  /** Whatever the roster, a member lost is reported as removed. */
  lemma {:induction false} LostIsReported(b: Book, me: DeviceId, sender: DeviceId, es: seq<Entry>, id: DeviceId)
    requires Valid(b)
    ensures var m := MergeEntries(b, me, sender, es);
      KeyOf(b, id).Some? && KeyOf(m.book, id).None? ==> id in m.change.removed
  {
    if es != [] {
      var init, e := es[..|es| - 1], es[|es| - 1];
      LostIsReported(b, me, sender, init, id);
      MergeEntriesValid(b, me, sender, init);
      EntryReports(MergeEntries(b, me, sender, init), me, sender, e);
    }
  }

  lemma {:induction false} UnlistedIsUnreported(b: Book, me: DeviceId, sender: DeviceId, es: seq<Entry>, id: DeviceId)
    requires Valid(b) && forall e :: e in es ==> e.peer.id != id
    ensures var m := MergeEntries(b, me, sender, es);
      KeyOf(m.book, id) == KeyOf(b, id) && id !in m.change.removed && id !in m.change.added
  {
    if es != [] {
      var init, e := es[..|es| - 1], es[|es| - 1];
      assert e in es;
      UnlistedIsUnreported(b, me, sender, init, id);
      MergeEntriesValid(b, me, sender, init);
      EntryReports(MergeEntries(b, me, sender, init), me, sender, e);
    }
  }

  /** A roster that lists each device once reports exactly the members lost, and exactly the keys
      gained or replaced. */
  lemma {:induction false} ReportedIff(b: Book, me: DeviceId, sender: DeviceId, es: seq<Entry>, id: DeviceId)
    requires Valid(b) && ListsOnce(es)
    ensures var m := MergeEntries(b, me, sender, es);
      var (k, k') := (KeyOf(b, id), KeyOf(m.book, id));
      && (id in m.change.removed <==> k != k' && k'.None?)
      && (id in m.change.added <==> k != k' && k'.Some?)
  {
    if es != [] {
      var init, e := es[..|es| - 1], es[|es| - 1];
      MergeEntriesValid(b, me, sender, init);
      EntryReports(MergeEntries(b, me, sender, init), me, sender, e);
      if e.peer.id == id {
        UnlistedIsUnreported(b, me, sender, init, id);
      } else {
        ReportedIff(b, me, sender, init, id);
      }
    }
  }

  // ---- What the sessions are sent ----

  /** Sessions are with members only. */
  ghost predicate MembersOnly(n: Node) {
    forall p :: p in n.conns ==> HasPeer(n.store.peers, p)
  }

  /** `s` is the session with `p`. */
  predicate Filed(n: Node, p: DeviceId, s: Session) {
    p in n.conns && n.conns[p] == s
  }

  /** From `n` to `n'`, a session `s` with `p` is sent `sent`, and stays or goes. */
  ghost predicate Carries(n: Node, n': Node, p: DeviceId, s: Session, sent: seq<Outgoing>, stays: bool) {
    && s in n.outbox && s in n'.outbox && n'.outbox[s] == n.outbox[s] + sent
    && (Filed(n', p, s) <==> Filed(n, p, s) && stays)
  }

  lemma DisconnectAt(n: Node, me: DeviceId, id: DeviceId, o: Outgoing, p: DeviceId, s: Session)
    requires Wired(n, me) && p != me && s.Joins(me, p) && s in n.outbox
    ensures Wired(Disconnect(n, id, o), me)
    ensures Carries(n, Disconnect(n, id, o), p, s, if Filed(n, p, s) && p == id then [o] else [], p != id)
  {
  }

  lemma {:induction false} DisconnectAllAt(n: Node, me: DeviceId, ids: seq<DeviceId>, o: Outgoing, p: DeviceId,
                                           s: Session)
    requires Wired(n, me) && p != me && s.Joins(me, p) && s in n.outbox
    ensures Wired(DisconnectAll(n, ids, o), me)
    ensures Carries(n, DisconnectAll(n, ids, o), p, s, if Filed(n, p, s) && p in ids then [o] else [], p !in ids)
  {
    if ids != [] {
      var init, id := ids[..|ids| - 1], ids[|ids| - 1];
      assert ids == init + [id];
      DisconnectAllAt(n, me, init, o, p, s);
      DisconnectAt(DisconnectAll(n, init, o), me, id, o, p, s);
    }
  }

  lemma SendToAllAt(n: Node, me: DeviceId, o: Outgoing, p: DeviceId, s: Session)
    requires Wired(n, me) && p != me && s.Joins(me, p) && s in n.outbox
    ensures Wired(SendToAll(n, o), me)
    ensures Carries(n, SendToAll(n, o), p, s, if Filed(n, p, s) then [o] else [], true)
  {
    if s in n.conns.Values {
      var q :| q in n.conns && n.conns[q] == s;
      assert n.conns[q].Joins(me, q);
    }
  }

  // ---- A roster ----

  /** A line the device listens to and has something to learn from. */
  ghost predicate News(n: Node, me: DeviceId, from: DeviceId, r: Roster) {
    exists e :: e in Entries(r) && Admissible(e, me, from) && !AtLeast(StatusOf(n.store, e.peer.id), Claim(e))
  }

  lemma SilentApply(n: Node, me: DeviceId, from: DeviceId, r: Roster)
    requires Valid(n.store)
    ensures Merge(n.store, me, from, r).change.IsEmpty() <==> !News(n, me, from, r)
    ensures !News(n, me, from, r) ==> ApplyRoster(n, me, from, r) == n
  {
    SilentIff(n.store, me, from, Entries(r));
    if Merge(n.store, me, from, r).change.IsEmpty() {
      SilentMergeChangesNothing(n.store, me, from, Entries(r));
    }
  }

  lemma KeyOfStatus(b: Book, id: DeviceId)
    ensures KeyOf(b, id) == match StatusOf(b, id) { case Member(key, _) => Some(key) case _ => None }
    ensures HasPeer(b.peers, id) <==> KeyOf(b, id).Some?
  {
  }

  /** What hearing a roster does to a session `s` of `me` and `p`: the one with a device that is no
      member any more ends with the notice of removal, the one under a key replaced is closed, and
      any other goes on, sent this device's roster exactly if the one heard had news. Nothing is
      sent on a session replaced earlier. */
  ghost predicate Treated(n: Node, n': Node, p: DeviceId, s: Session, news: bool) {
    var before, after := StatusOf(n.store, p), StatusOf(n'.store, p);
    if !Filed(n, p, s) then Carries(n, n', p, s, [], false)
    else if !after.Member? then Carries(n, n', p, s, [Last], false)
    else if !SameKey(before, after) then Carries(n, n', p, s, [Close], false)
    else Carries(n, n', p, s, if news then [Message(RosterOf(n'.store))] else [], true)
  }

  lemma ReportTreats(n: Node, me: DeviceId, m: Merged, p: DeviceId, s: Session)
    requires Wired(n, me) && p != me && s.Joins(me, p) && s in n.outbox
    ensures
      var n2 := DisconnectAll(DisconnectAll(n.(store := m.book), m.change.removed, Last), m.change.added, Close);
      var news := Message(RosterOf(m.book));
      Carries(n, SendToAll(n2, news), p, s,
        if !Filed(n, p, s) then [] else if p in m.change.removed then [Last]
        else if p in m.change.added then [Close] else [news],
        p !in m.change.removed && p !in m.change.added)
  {
    var n0 := n.(store := m.book);
    var n1 := DisconnectAll(n0, m.change.removed, Last);
    var n2 := DisconnectAll(n1, m.change.added, Close);
    DisconnectAllAt(n0, me, m.change.removed, Last, p, s);
    DisconnectAllAt(n1, me, m.change.added, Close, p, s);
    SendToAllAt(n2, me, Message(RosterOf(m.book)), p, s);
  }

  lemma NewsTreats(n: Node, me: DeviceId, from: DeviceId, r: Roster, p: DeviceId, s: Session)
    requires Valid(n.store) && Wired(n, me) && MembersOnly(n) && ListsOnce(Entries(r)) && News(n, me, from, r)
    requires p != me && s.Joins(me, p) && s in n.outbox
    ensures Treated(n, ApplyRoster(n, me, from, r), p, s, true)
  {
    var m := Merge(n.store, me, from, r);
    SilentApply(n, me, from, r);
    GroupAgreement.AppliedStore(n, me, from, r);
    ReportTreats(n, me, m, p, s);
    ReportedIff(n.store, me, from, Entries(r), p);
    KeyOfStatus(n.store, p);
    KeyOfStatus(m.book, p);
  }

  /** Which sessions a roster ends, and what is sent on the others. */
  lemma RosterTreats(n: Node, me: DeviceId, from: DeviceId, r: Roster, p: DeviceId, s: Session)
    requires Valid(n.store) && Wired(n, me) && MembersOnly(n) && ListsOnce(Entries(r))
    requires p != me && s.Joins(me, p) && s in n.outbox
    ensures Treated(n, ApplyRoster(n, me, from, r), p, s, News(n, me, from, r))
  {
    SilentApply(n, me, from, r);
    if News(n, me, from, r) {
      NewsTreats(n, me, from, r, p, s);
    } else {
      KeyOfStatus(n.store, p);
    }
  }

  // ---- The other changes of the group ----

  /** The user removes `id`: its session ends with the notice of removal, and every other one is sent
      the roster, whether `id` was a member or not. */
  lemma RemovalTreats(n: Node, me: DeviceId, id: DeviceId, at: nat, p: DeviceId, s: Session)
    requires Wired(n, me) && p != me && s.Joins(me, p) && s in n.outbox
    ensures var n' := RemovePeer(n, id, at);
      Carries(n, n', p, s, if !Filed(n, p, s) then [] else if p == id then [Last] else [Message(RosterOf(n'.store))],
        p != id)
  {
    var n1 := Disconnect(n, id, Last).(store := Remove(n.store, id, at));
    DisconnectAt(n, me, id, Last, p, s);
    SendToAllAt(n1, me, Message(RosterOf(n1.store)), p, s);
  }

  /** And `id` is a removed device from then on, if it was a member. */
  lemma RemovedIsGone(n: Node, id: DeviceId, at: nat)
    requires Valid(n.store)
    ensures var (before, after) := (StatusOf(n.store, id), StatusOf(RemovePeer(n, id, at).store, id));
      after == if before.Member? then Status.Gone(at) else before
  {
    if HasPeer(n.store.peers, id) {
      DropThenRemember(n.store, FindPeer(n.store.peers, id).value, at);
    }
  }

  /** A pairing: every session goes on and is sent the roster, which lists the device paired. */
  lemma PairingTreats(n: Node, me: DeviceId, q: Peer, p: DeviceId, s: Session)
    requires Valid(n.store) && Wired(n, me) && p != me && s.Joins(me, p) && s in n.outbox
    ensures var n' := StorePeer(n, q);
      && Carries(n, n', p, s, if Filed(n, p, s) then [Message(RosterOf(n'.store))] else [], true)
      && q in RosterOf(n'.store).members
      && forall id :: StatusOf(n'.store, id) == if id == q.id then Member(q.key, q.pairedAt) else StatusOf(n.store, id)
  {
    var n1 := n.(store := Upsert(n.store, q));
    SendToAllAt(n1, me, Message(RosterOf(n1.store)), p, s);
    Removals.UpsertValid(n.store, q);
    assert n1.store.peers[|n1.store.peers| - 1] == q;
  }

  /** A member removes this device: every session is closed without another word and the members are
      forgotten; what is known of removed devices stays. A stranger's notice changes nothing. */
  lemma LeavingTreats(n: Node, me: DeviceId, who: DeviceId, p: DeviceId, s: Session)
    requires Valid(n.store) && Wired(n, me) && p != me && s.Joins(me, p) && s in n.outbox
    ensures var (n', left) := (LeaveGroup(n, who), StatusOf(n.store, who).Member?);
      && Carries(n, n', p, s, if Filed(n, p, s) && left then [Close] else [], !left)
      && (left ==> n'.conns == map[])
      && forall id :: StatusOf(n'.store, id) ==
           if left && StatusOf(n.store, id).Member? then Absent else StatusOf(n.store, id)
  {
    StatusWitness(n.store, who);
    SendToAllAt(n, me, Close, p, s);
    var cleared := Clear(n.store);
    forall id ensures StatusOf(cleared, id) == if StatusOf(n.store, id).Member? then Absent else StatusOf(n.store, id) {
      StatusWitness(n.store, id);
      StatusWitness(cleared, id);
    }
  }

  /** A new session: the first thing sent on it is the roster, the one it replaces is closed, and
      those with others stay as they are. */
  lemma StartTreats(n: Node, me: DeviceId, q: DeviceId, t: Session, p: DeviceId, s: Session)
    requires Wired(n, me) && Accepts(n, me, q, t) && t !in n.outbox && q != me && t.Joins(me, q)
    requires p != me && s.Joins(me, p) && s in n.outbox
    ensures var n' := StartSession(n, me, q, t);
      && Filed(n', q, t) && t in n'.outbox && n'.outbox[t] == [Message(RosterOf(n.store))]
      && Carries(n, n', p, s, if Filed(n, p, s) && p == q then [Close] else [], p != q)
  {
  }

  // ---- Every run ----

  ghost predicate Sound(n: Node, me: DeviceId) {
    Valid(n.store) && Wired(n, me) && MembersOnly(n)
  }

  lemma {:induction false} DisconnectAllDrops(n: Node, ids: seq<DeviceId>, o: Outgoing, p: DeviceId)
    requires p in ids
    ensures p !in DisconnectAll(n, ids, o).conns
  {
    var init := ids[..|ids| - 1];
    if p in init {
      DisconnectAllDrops(n, init, o, p);
    }
  }

  lemma ApplyRosterSound(n: Node, me: DeviceId, from: DeviceId, r: Roster)
    requires Sound(n, me)
    ensures Sound(ApplyRoster(n, me, from, r), me)
  {
    var m := Merge(n.store, me, from, r);
    SilentApply(n, me, from, r);
    if News(n, me, from, r) {
      var n0 := n.(store := m.book);
      var n1 := DisconnectAll(n0, m.change.removed, Last);
      MergeKeepsValid(n.store, me, from, r);
      DisconnectAllShrinks(n0, m.change.removed, Last);
      DisconnectAllShrinks(n1, m.change.added, Close);
      forall p | p in n1.conns ensures HasPeer(m.book.peers, p) {
        if p in m.change.removed {
          DisconnectAllDrops(n0, m.change.removed, Last, p);
        }
        LostIsReported(n.store, me, from, Entries(r), p);
        KeyOfStatus(n.store, p);
        KeyOfStatus(m.book, p);
      }
    }
  }

  lemma RemovePeerSound(n: Node, me: DeviceId, id: DeviceId, at: nat)
    requires Sound(n, me)
    ensures Sound(RemovePeer(n, id, at), me)
  {
    if HasPeer(n.store.peers, id) {
      var i := FindPeer(n.store.peers, id).value;
      DropThenRemember(n.store, i, at);
      DroppedPeer(n.store, i);
      StillListed(n.store.peers, RemovePeer(n, id, at).store.peers, id);
    }
  }

  lemma StillListed(s: seq<Peer>, t: seq<Peer>, id: DeviceId)
    requires forall q :: q in s && q.id != id ==> q in t
    ensures forall p :: p != id && HasPeer(s, p) ==> HasPeer(t, p)
  {
    forall p | p != id && HasPeer(s, p) ensures HasPeer(t, p) {
      var k :| 0 <= k < |s| && s[k].id == p;
      assert s[k] in s;
    }
  }

  lemma StorePeerSound(n: Node, me: DeviceId, q: Peer)
    requires Sound(n, me)
    ensures Sound(StorePeer(n, q), me)
  {
    Removals.UpsertValid(n.store, q);
    var peers := Upsert(n.store, q).peers;
    assert peers[|peers| - 1] == q;
    StillListed(n.store.peers, peers, q.id);
  }

  lemma ReceiveSound(n: Node, me: DeviceId, from: DeviceId, s: Session, o: Outgoing)
    requires Sound(n, me)
    ensures Sound(Receive(n, me, from, s, o), me)
  {
    match o
    case Message(r) => ApplyRosterSound(n, me, from, r);
    case Last =>
    case Close =>
  }

  lemma StartSessionSound(n: Node, me: DeviceId, p: DeviceId, s: Session)
    requires Sound(n, me) && p != me && s.Joins(me, p)
    ensures Sound(StartSession(n, me, p, s), me)
  {
  }

  lemma StepKeepsSound(l: Limits, net: Net, step: Step)
    requires Enabled(l, net, step) && forall i :: i in net ==> Sound(net[i], i)
    ensures After(net, step).Keys == net.Keys && forall i :: i in net ==> Sound(After(net, step)[i], i)
  {
    match step
    case Hear(i, j, s) => ReceiveSound(net[j], j, i, s, net[i].outbox[s][0]);
    case Start(i, j, s) => StartSessionSound(net[i], i, j, s);
    case Ended(i, j, s) =>
    case Paired(i, p) => StorePeerSound(net[i], i, p);
    case Dropped(i, id, at) => RemovePeerSound(net[i], i, id, at);
  }

  lemma {:induction false} RunKeepsSound(l: Limits, nets: seq<Net>, steps: seq<Step>, k: nat)
    requires Gossip.Run(l, nets, steps) && k < |nets|
    ensures forall i :: i in nets[k] ==> Sound(nets[k][i], i)
  {
    if k > 0 {
      RunKeepsSound(l, nets, steps, k - 1);
      StepKeepsSound(l, nets[k - 1], steps[k - 1]);
    }
  }

  /** At every moment of every run, rosters of any length and removals forgotten included, sessions
      are with members of the group only. */
  lemma SessionsAreWithMembers(l: Limits, nets: seq<Net>, steps: seq<Step>, k: nat, i: DeviceId, p: DeviceId)
    requires Gossip.Run(l, nets, steps) && k < |nets| && i in nets[k] && p in nets[k][i].conns
    ensures Holds(nets[k], i, p).Member?
  {
    RunKeepsSound(l, nets, steps, k);
    StatusWitness(nets[k][i].store, p);
  }

  lemma NewsIffChanged(l: Limits, n: Node, me: DeviceId, from: DeviceId, r: Roster)
    requires Proper(l) && NodeClean(l, me, n) && RosterClean(l, r)
    ensures News(n, me, from, r) <==> ApplyRoster(n, me, from, r).store != n.store
  {
    SilentApply(n, me, from, r);
    GroupAgreement.AppliedStore(n, me, from, r);
    CleanEntries(l, r);
    ReportedMergeRaises(n.store, me, from, Entries(r), l.removable);
  }

  /** In every run, when `j` hears a roster from `i`: its session with a member it comes to know as
      removed ends with the notice of removal, the one under a key replaced is closed, and any other
      goes on, sent the new roster exactly if anything changed. */
  lemma HearingEndsSessions(l: Limits, nets: seq<Net>, steps: seq<Step>, k: nat, i: DeviceId, j: DeviceId, s: Session,
                            r: Roster, p: DeviceId, t: Session)
    requires Proper(l) && Gossip.Run(l, nets, steps) && k < |steps| && steps[k] == Hear(i, j, s)
    requires i in nets[k] && s in nets[k][i].outbox && nets[k][i].outbox[s] != []
    requires nets[k][i].outbox[s][0] == Message(r)
    requires j in nets[k] && p != j && t.Joins(j, p) && t in nets[k][j].outbox
    ensures j in nets[k + 1]
    ensures Treated(nets[k][j], nets[k + 1][j], p, t, nets[k + 1][j].store != nets[k][j].store)
  {
    assert Enabled(l, nets[k], steps[k]) && nets[k + 1] == After(nets[k], steps[k]);
    GroupAgreement.RunKeepsClean(l, nets, steps, k);
    RunKeepsSound(l, nets, steps, k);
    NewsIffChanged(l, nets[k][j], j, i, r);
    RosterTreats(nets[k][j], j, i, r, p, t);
  }
}
