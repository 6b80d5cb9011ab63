/** The store itself: two lists changed in place, each operation proved against the function on
    books that specifies it. */
module PeerStorage {
  import opened Wrappers
  import opened Peers

  class PeerStore {
    var peers: seq<Peer>
    var removed: seq<Removed>

    ghost function Value(): Book
      reads this
    {
      Book(peers, removed)
    }

    constructor ()
      ensures Value() == Book([], []) && Valid(Value())
    {
      peers, removed := [], [];
    }

    method Get(id: DeviceId) returns (r: Option<Peer>)
      ensures r.Some? <==> HasPeer(peers, id)
      ensures r.Some? ==> r.value in peers && r.value.id == id
    {
      match FindPeer(peers, id)
      case Some(i) => r := Some(peers[i]);
      case None => r := None;
    }

    /** A removed device that has not been told. */
    method GetRemoved(id: DeviceId) returns (r: Option<Peer>)
      ensures r.Some? <==> exists x :: x in removed && x.peer.id == id && !x.notified
      ensures r.Some? ==> exists x :: x in removed && x.peer == r.value && r.value.id == id && !x.notified
    {
      for i := 0 to |removed|
        invariant forall x :: x in removed[..i] ==> !(x.peer.id == id && !x.notified)
      {
        if removed[i].peer.id == id && !removed[i].notified {
          return Some(removed[i].peer);
        }
      }
      assert removed[..|removed|] == removed;
      return None;
    }

    method Upsert(p: Peer)
      modifies this
      ensures Value() == Peers.Upsert(old(Value()), p)
    {
      peers := WithoutPeer(peers, p.id);
      removed := WithoutRemoved(removed, p.id);
      peers := peers + [p];
    }

    method Remove(id: DeviceId, at: nat) returns (r: Option<Peer>)
      modifies this
      ensures Value() == Peers.Remove(old(Value()), id, at)
      ensures r.Some? <==> old(HasPeer(peers, id))
      ensures r.Some? ==> r.value in old(peers) && r.value.id == id
    {
      match FindPeer(peers, id)
      case None =>
        r := None;
      case Some(i) =>
        var p := peers[i];
        peers := peers[..i] + peers[i + 1..];
        RememberRemoval(Removed(p, at, false));
        r := Some(p);
    }

    method RememberRemoval(r: Removed)
      modifies this`removed
      ensures removed == Remember(old(removed), r)
    {
      removed := WithoutRemoved(removed, r.peer.id);
      removed := removed + [r];
      if |removed| > MAX_REMOVED {
        removed := removed[1..];
      }
    }

    method Clear()
      modifies this`peers
      ensures Value() == Peers.Clear(old(Value()))
    {
      peers := [];
    }

    method MarkNotified(id: DeviceId)
      modifies this`removed
      ensures removed == Peers.MarkNotified(old(removed), id)
    {
      ghost var before := removed;
      for i := 0 to |removed|
        invariant removed == before
        invariant Peers.MarkNotified(before, id) == before[..i] + Peers.MarkNotified(before[i..], id)
      {
        NotifiedUnfolds(before, i, id);
        if removed[i].peer.id == id && !removed[i].notified {
          removed := removed[i := removed[i].(notified := true)];
          return;
        }
      }
    }

    static lemma NotifiedUnfolds(s: seq<Removed>, i: nat, id: DeviceId)
      requires i < |s|
      ensures s[..i] + Peers.MarkNotified(s[i..], id) ==
        if s[i].peer.id == id && !s[i].notified then s[i := s[i].(notified := true)]
        else s[..i + 1] + Peers.MarkNotified(s[i + 1..], id)
    {
      var head, tail := s[..i], s[i + 1..];
      assert s[i..][1..] == tail && s[i..][0] == s[i];
      if s[i].peer.id == id && !s[i].notified {
        assert head + ([s[i].(notified := true)] + tail) == s[i := s[i].(notified := true)];
      } else {
        assert s[..i + 1] == head + [s[i]];
        assert head + ([s[i]] + Peers.MarkNotified(tail, id)) == head + [s[i]] + Peers.MarkNotified(tail, id);
      }
    }

    /** All this store holds. */
    method Roster() returns (r: Roster)
      ensures r == RosterOf(Value())
    {
      r := RosterOf(Book(peers, removed));
    }

    /** Merges the roster of paired device `sender`: members first, then removals. */
    method Merge(me: DeviceId, sender: DeviceId, roster: Roster) returns (change: Change)
      modifies this
      ensures Merged(Value(), change) == Peers.Merge(old(Value()), me, sender, roster)
    {
      change := NO_CHANGE;
      ghost var es := Entries(roster);
      ghost var before := Value();
      var members, removals := Take(roster.members, MAX_ROSTER_ENTRIES), Take(roster.removed, MAX_ROSTER_ENTRIES);
      for i := 0 to |members|
        invariant Merged(Value(), change) == MergeEntries(before, me, sender, es[..i])
      {
        MergeEntriesStep(before, me, sender, es, i);
        assert es[i] == Joined(members[i]);
        var p := members[i];
        if p.key == 0 || p.id == me || p.id == sender {
          continue;
        }
        change := MergeMember(p, change);
      }
      for i := 0 to |removals|
        invariant Merged(Value(), change) == MergeEntries(before, me, sender, es[..|members| + i])
      {
        ghost var k := |members| + i;
        MergeEntriesStep(before, me, sender, es, k);
        assert es[k] == Left(removals[i].peer, removals[i].removedAt);
        var p := removals[i].peer;
        if p.key == 0 || p.id == me || p.id == sender {
          continue;
        }
        change := MergeRemoval(p, removals[i].removedAt, change);
      }
      assert es[..|members| + |removals|] == es;
    }

    /** The body of the loop over members, for an admissible line. */
    method MergeMember(p: Peer, change0: Change) returns (change: Change)
      modifies this
      ensures Merged(Value(), change) == MergeJoined(Merged(old(Value()), change0), p)
    {
      change := change0;
      if KnownRemoval(removed, p.id, p.pairedAt) {
        return;
      }
      match FindPeer(peers, p.id)
      case Some(k) =>
        if peers[k].key != p.key && p.pairedAt > peers[k].pairedAt {
          peers := peers[k := Peer(peers[k].id, p.key, p.pairedAt)];
          change := change.(added := change.added + [p.id]);
        }
      case None =>
        removed := WithoutRemoved(removed, p.id);
        peers := peers + [p];
        change := change.(added := change.added + [p.id]);
    }

    /** The body of the loop over removals, for an admissible line. */
    method MergeRemoval(p: Peer, at: nat, change0: Change) returns (change: Change)
      modifies this
      ensures Merged(Value(), change) == MergeLeft(Merged(old(Value()), change0), p, at)
    {
      change := change0;
      match FindPeer(peers, p.id)
      case Some(k) =>
        if peers[k].pairedAt <= at {
          var known := peers[k];
          peers := peers[..k] + peers[k + 1..];
          RememberRemoval(Removed(known, at, false));
          change := change.(removed := change.removed + [p.id]);
        }
      case None =>
        if !KnownRemoval(removed, p.id, at) {
          RememberRemoval(Removed(p, at, false));
          change := change.(removalsLearned := true);
        }
    }
  }
}
