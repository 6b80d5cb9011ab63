/** What stores hold of a device is ordered by `AtLeast`. The order is transitive exactly when no
    removal and no pairing of another key comes between two pairings of one key. Where every key is
    paired once, it is the order of ranks. */
module GroupJoin {
  import opened Peers
  import opened Membership
  import opened GroupRules

  /** Pairings and removals recorded anywhere. */
  datatype Records = Records(pairings: iset<Peer>, removals: iset<(DeviceId, nat)>)

  ghost predicate Recorded(u: Records, id: DeviceId, s: Status) {
    match s
    case Absent => true
    case Member(key, at) => Peer(id, key, at) in u.pairings
    case Gone(at) => (id, at) in u.removals
  }

  ghost predicate EntriesRecorded(u: Records, es: seq<Entry>) {
    forall e :: e in es ==> Recorded(u, e.peer.id, Claim(e))
  }

  ghost predicate BookRecorded(u: Records, b: Book) {
    && (forall p :: p in b.peers ==> p in u.pairings)
    && (forall x :: x in b.removed ==> (x.peer.id, x.removedAt) in u.removals)
  }

  lemma BookStatusRecorded(u: Records, b: Book, id: DeviceId)
    requires Valid(b) && BookRecorded(u, b)
    ensures Recorded(u, id, StatusOf(b, id))
  {
    StatusWitness(b, id);
  }

  // ---- When the order is transitive ----

  /** No key was paired with a device again after the device was removed or paired with another key:
      what is recorded between two pairings of one key is that key's. One key may be paired by any
      number of members, each at its own time. */
  ghost predicate Unbroken(u: Records) {
    forall p, q :: p in u.pairings && q in u.pairings && p.id == q.id && p.key == q.key && p.pairedAt < q.pairedAt ==>
      && (forall at {:trigger (p.id, at) in u.removals} :: (p.id, at) in u.removals ==>
           !(p.pairedAt <= at < q.pairedAt))
      && (forall o :: o in u.pairings && o.id == p.id && p.pairedAt <= o.pairedAt <= q.pairedAt ==> o.key == p.key)
  }

  ghost predicate Transitive(u: Records) {
    forall id, s, t, v ::
      Recorded(u, id, s) && Recorded(u, id, t) && Recorded(u, id, v) && AtLeast(v, t) && AtLeast(t, s) ==> AtLeast(v, s)
  }

  /** Holding at least as much is transitive exactly for unbroken records. */
  lemma TransitiveIffUnbroken(u: Records)
    ensures Transitive(u) <==> Unbroken(u)
  {
    if Unbroken(u) {
      forall id, s, t, v | Recorded(u, id, s) && Recorded(u, id, t) && Recorded(u, id, v) && AtLeast(v, t)
          && AtLeast(t, s)
        ensures AtLeast(v, s)
      {
        StepsDown(u, id, s, t, v);
      }
    }
    if Transitive(u) {
      forall p, q | p in u.pairings && q in u.pairings && p.id == q.id && p.key == q.key && p.pairedAt < q.pairedAt
        ensures forall at {:trigger (p.id, at) in u.removals} :: (p.id, at) in u.removals ==>
            !(p.pairedAt <= at < q.pairedAt)
        ensures forall o :: o in u.pairings && o.id == p.id && p.pairedAt <= o.pairedAt <= q.pairedAt ==> o.key == p.key
      {
        var t, v := Member(q.key, q.pairedAt), Member(p.key, p.pairedAt);
        assert Recorded(u, p.id, t) && Recorded(u, p.id, v);
        forall at | (p.id, at) in u.removals ensures !(p.pairedAt <= at < q.pairedAt) {
          assert Recorded(u, p.id, Gone(at));
        }
        forall o | o in u.pairings && o.id == p.id && p.pairedAt <= o.pairedAt <= q.pairedAt ensures o.key == p.key {
          var s := Member(o.key, o.pairedAt);
          assert Recorded(u, p.id, s);
          assert o.pairedAt == p.pairedAt ==> AtLeast(s, v) && AtLeast(v, t);
        }
      }
    }
  }

  lemma StepsDown(u: Records, id: DeviceId, s: Status, t: Status, v: Status)
    requires Unbroken(u) && Recorded(u, id, s) && Recorded(u, id, t) && Recorded(u, id, v)
    requires AtLeast(v, t) && AtLeast(t, s)
    ensures AtLeast(v, s)
  {
    if SameKey(v, t) && v.at < t.at {
      Between(u, id, v, t, s);
    } else if SameKey(t, s) && t.at < s.at {
      Between(u, id, t, s, v);
    }
  }

  /** What is recorded besides two pairings of one key ranks below both, above both or is of that key. */
  lemma Between(u: Records, id: DeviceId, first: Status, second: Status, other: Status)
    requires Unbroken(u) && Recorded(u, id, first) && Recorded(u, id, second) && Recorded(u, id, other)
    requires SameKey(first, second) && first.at < second.at
    ensures SameKey(first, other) || Rank(other) < Rank(first) || Rank(second) < Rank(other)
  {
    var p, q := Peer(id, first.key, first.at), Peer(id, second.key, second.at);
    assert p in u.pairings && q in u.pairings;
    if other.Gone? {
      assert (p.id, other.at) in u.removals;
    } else if other.Member? {
      assert Peer(id, other.key, other.at) in u.pairings;
    }
  }

  /** From pairing `p` of a key until before its pairing `q`, the device is removed or paired with
      another key. */
  ghost predicate Interrupted(u: Records, p: Peer, q: Peer) {
    || (exists at {:trigger (p.id, at) in u.removals} :: (p.id, at) in u.removals && p.pairedAt <= at < q.pairedAt)
    || (exists o :: o in u.pairings && o.id == p.id && o.key != p.key && p.pairedAt <= o.pairedAt < q.pairedAt)
  }

  /** No two pairings of one key of this device are interrupted. */
  ghost predicate Uninterrupted(u: Records, id: DeviceId) {
    forall p, q ::
      p in u.pairings && q in u.pairings && p.id == id == q.id && p.key == q.key && p.pairedAt < q.pairedAt ==>
        !Interrupted(u, p, q)
  }

  lemma UnbrokenIsUninterrupted(u: Records, id: DeviceId)
    requires Unbroken(u)
    ensures Uninterrupted(u, id)
  {
  }

  ghost predicate OneKeyPerTime(u: Records) {
    forall p, q :: p in u.pairings && q in u.pairings && p.id == q.id && p.pairedAt == q.pairedAt ==> p.key == q.key
  }

  lemma OneKeyAlike(u: Records, id: DeviceId, s: Status, t: Status)
    requires OneKeyPerTime(u) && Recorded(u, id, s) && Recorded(u, id, t)
    ensures Alike(s, t) <==> s == t || SameKey(s, t)
  {
    if s.Member? && t.Member? && s.at == t.at {
      assert Peer(id, s.key, s.at) in u.pairings && Peer(id, t.key, t.at) in u.pairings;
    }
  }

  /** Where each device keeps its key, however often and by whomever it is paired, records are
      unbroken unless it was removed between two of its pairings. */
  lemma KeptKeysUnbrokenIff(u: Records)
    requires forall p, q :: p in u.pairings && q in u.pairings && p.id == q.id ==> p.key == q.key
    ensures Unbroken(u) <==>
      !exists p, q, at :: p in u.pairings && q in u.pairings && (p.id, at) in u.removals && p.id == q.id
          && p.pairedAt <= at < q.pairedAt
    ensures OneKeyPerTime(u)
  {
  }

  // ---- Coherent records ----

  /** Each device's pairings have one time per key and one key per time. */
  ghost predicate Coherent(u: Records) {
    forall p, q :: p in u.pairings && q in u.pairings && p.id == q.id ==> (p.key == q.key <==> p.pairedAt == q.pairedAt)
  }

  lemma CoherentIsUnbroken(u: Records)
    requires Coherent(u)
    ensures Unbroken(u)
  {
  }

  /** Then at least as much is as high a rank, and alike is equal. */
  lemma CoherentOrder(u: Records, id: DeviceId, s: Status, t: Status)
    requires Coherent(u) && Recorded(u, id, s) && Recorded(u, id, t)
    ensures AtLeast(t, s) <==> Rank(s) <= Rank(t)
    ensures Alike(s, t) <==> s == t
  {
    if s.Member? && t.Member? {
      var p, q := Peer(id, s.key, s.at), Peer(id, t.key, t.at);
      assert p.key == q.key <==> p.pairedAt == q.pairedAt;
    }
  }
}
