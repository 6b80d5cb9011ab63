/** Exactly which records of a device let members come to differ about it for good: those in which it
    is removed, or paired with another key, between two pairings of one key. Two members are enough. */
module GroupSplitIff {
  import opened Wrappers
  import opened Peers
  import opened Membership
  import opened GroupRules
  import opened GroupJoin
  import opened Nodes
  import opened Gossip
  import opened GroupAgreement
  import opened GroupSplits
  import opened GroupSplitRun
  import Removals

  /** A run that ends with two devices connected, nothing in flight between them and what they hold of
      `x` not alike. */
  ghost predicate Splits(l: Limits, nets: seq<Net>, steps: seq<Step>, a: DeviceId, b: DeviceId, x: DeviceId) {
    && Gossip.Run(l, nets, steps) && x != a && x != b
    && Settled(nets[|steps|], a, b) && !Alike(Holds(nets[|steps|], a, x), Holds(nets[|steps|], b, x))
  }

  /** The records of `x` are those of `u`. */
  ghost predicate SameRecords(v: Records, u: Records, x: DeviceId) {
    && (forall p: Peer :: p.id == x ==> (p in v.pairings <==> p in u.pairings))
    && (forall at: nat :: (x, at) in v.removals <==> (x, at) in u.removals)
  }

  lemma SameInterruptions(v: Records, u: Records, x: DeviceId)
    requires SameRecords(v, u, x) && Uninterrupted(u, x)
    ensures Uninterrupted(v, x)
  {
    forall p, q |
      p in v.pairings && q in v.pairings && p.id == x == q.id && p.key == q.key && p.pairedAt < q.pairedAt
      ensures !Interrupted(v, p, q)
    {
      assert !Interrupted(u, p, q);
    }
  }

  // ---- Two members of a group of three ----

  function Desk(x: DeviceId): DeviceId { x + 1 }

  function Laptop(x: DeviceId): DeviceId { x + 2 }

  function Friend(id: DeviceId): Peer {
    Peer(id, 1, 0)
  }

  function Link(x: DeviceId): Session {
    Session(0, Desk(x), Laptop(x))
  }

  ghost function Only(u: Records, x: DeviceId): Limits {
    Limits(Records(iset p: Peer | (p in u.pairings && p.id == x) || p == Friend(Desk(x)) || p == Friend(Laptop(x)),
                   iset k: (DeviceId, nat) | k in u.removals && k.0 == x),
           {x}, {x, Desk(x), Laptop(x)})
  }

  lemma OnlyIsProper(u: Records, x: DeviceId)
    ensures Proper(Only(u, x)) && SameRecords(Only(u, x).records, u, x)
  {
  }

  /** What one of the two holds: the other one and, in some way, `x`. */
  function Own(friend: DeviceId, p: Peer): Book {
    Book([Friend(friend), p], [])
  }

  function Two(x: DeviceId, desk: Node, laptop: Node): Net {
    map[Desk(x) := desk, Laptop(x) := laptop]
  }

  function OnLink(x: DeviceId, peer: DeviceId, b: Book, q: seq<Outgoing>): Node {
    Node(b, map[peer := Link(x)], map[Link(x) := q])
  }

  lemma OwnHolds(friend: DeviceId, p: Peer)
    requires friend != p.id && p.key != 0
    ensures var b := Own(friend, p);
      && Valid(b) && Sendable(b) && HasPeer(b.peers, friend) && StatusOf(b, p.id) == Member(p.key, p.pairedAt)
  {
    var b := Own(friend, p);
    assert b.peers[0] == Friend(friend) && b.peers[1] == p;
    StatusOfPeer(b, p);
  }

  lemma OwnOthers(friend: DeviceId, p: Peer, id: DeviceId)
    requires id != friend && id != p.id
    ensures StatusOf(Own(friend, p), id) == Absent
  {
  }

  lemma PairOwn(l: Limits, net: Net, i: DeviceId, friend: DeviceId, p: Peer)
    requires Reachable(l, net) && i in net && net[i] == Alone([], [])
    requires PeerClean(l, Friend(friend)) && PeerClean(l, p) && i != friend && i != p.id && friend != p.id
    ensures Reachable(l, net[i := Node(Own(friend, p), map[], map[])])
  {
    PairAlone(l, net, i, [], Friend(friend));
    assert [] + [Friend(friend)] == [Friend(friend)];
    var net1 := net[i := Alone([Friend(friend)], [])];
    PairAlone(l, net1, i, [Friend(friend)], p);
    assert [Friend(friend)] + [p] == [Friend(friend), p];
    assert net1[i := Alone([Friend(friend), p], [])] == net[i := Node(Own(friend, p), map[], map[])];
  }

  /** The desk pairs `p` and the laptop `q`. */
  lemma BothPair(u: Records, x: DeviceId, p: Peer, q: Peer)
    requires p in u.pairings && q in u.pairings && p.id == x && q.id == x && p.key != 0 && q.key != 0
    ensures Reachable(Only(u, x), Two(x, Node(Own(Laptop(x), p), map[], map[]), Node(Own(Desk(x), q), map[], map[])))
  {
    var l, none := Only(u, x), Two(x, Alone([], []), Alone([], []));
    assert Gossip.Run(l, [none], []);
    PairOwn(l, none, Desk(x), Laptop(x), p);
    var net := Two(x, Node(Own(Laptop(x), p), map[], map[]), Alone([], []));
    assert none[Desk(x) := Node(Own(Laptop(x), p), map[], map[])] == net;
    PairOwn(l, net, Laptop(x), Desk(x), q);
    assert net[Laptop(x) := Node(Own(Desk(x), q), map[], map[])]
        == Two(x, Node(Own(Laptop(x), p), map[], map[]), Node(Own(Desk(x), q), map[], map[]));
  }

  function DeskMet(x: DeviceId, p: Peer): Node {
    OnLink(x, Laptop(x), Own(Laptop(x), p), [])
  }

  function LaptopMet(x: DeviceId, q: Peer): Node {
    OnLink(x, Desk(x), Own(Desk(x), q), [])
  }

  lemma OnLinkEmptied(x: DeviceId, peer: DeviceId, b: Book, q: seq<Outgoing>)
    ensures Emptied(OnLink(x, peer, b, q), Link(x)) == OnLink(x, peer, b, [])
  {
    var s := Link(x);
    assert map[s := q][s := []] == map[s := []];
  }

  lemma OneKeyHoldsAll(x: DeviceId, p: Peer, q: Peer)
    requires p.id == x == q.id && p.key == q.key != 0
    ensures HoldsAll(Own(Desk(x), q), Own(Laptop(x), p), Desk(x), Laptop(x))
    ensures HoldsAll(Own(Laptop(x), p), Own(Desk(x), q), Laptop(x), Desk(x))
  {
    OwnHolds(Laptop(x), p);
    OwnHolds(Desk(x), q);
  }

  lemma TheyConnect(u: Records, x: DeviceId, p: Peer, q: Peer)
    requires p in u.pairings && q in u.pairings && p.id == x == q.id && p.key == q.key != 0
    ensures var (d, t) := (Own(Laptop(x), p), Own(Desk(x), q));
      Reachable(Only(u, x), Two(x, OnLink(x, Laptop(x), d, [Message(RosterOf(d))]),
                                   OnLink(x, Desk(x), t, [Message(RosterOf(t))])))
  {
    var (d, t) := (Node(Own(Laptop(x), p), map[], map[]), Node(Own(Desk(x), q), map[], map[]));
    BothPair(u, x, p, q);
    OwnHolds(Laptop(x), p);
    OwnHolds(Desk(x), q);
    Connect(Only(u, x), Two(x, d, t), Desk(x), Laptop(x), Link(x));
    assert Two(x, d, t)[Desk(x) := Connected(d, Laptop(x), Link(x))][Laptop(x) := Connected(t, Desk(x), Link(x))]
        == Two(x, Connected(d, Laptop(x), Link(x)), Connected(t, Desk(x), Link(x)));
  }

  lemma LaptopHearsDesk(u: Records, x: DeviceId, p: Peer, q: Peer)
    requires p in u.pairings && q in u.pairings && p.id == x == q.id && p.key == q.key != 0
    ensures var t := Own(Desk(x), q);
      Reachable(Only(u, x), Two(x, DeskMet(x, p), OnLink(x, Desk(x), t, [Message(RosterOf(t))])))
  {
    var (d, t) := (Own(Laptop(x), p), Own(Desk(x), q));
    var laptop := OnLink(x, Desk(x), t, [Message(RosterOf(t))]);
    var net := Two(x, OnLink(x, Laptop(x), d, [Message(RosterOf(d))]), laptop);
    TheyConnect(u, x, p, q);
    OwnHolds(Laptop(x), p);
    OwnHolds(Desk(x), q);
    OneKeyHoldsAll(x, p, q);
    HearQuietly(Only(u, x), net, Desk(x), Laptop(x), Link(x));
    OnLinkEmptied(x, Laptop(x), d, [Message(RosterOf(d))]);
    assert net[Desk(x) := DeskMet(x, p)] == Two(x, DeskMet(x, p), laptop);
  }

  /** They connect and hear each other; with one key, they have nothing to learn. */
  lemma TheyMeet(u: Records, x: DeviceId, p: Peer, q: Peer)
    requires p in u.pairings && q in u.pairings && p.id == x == q.id && p.key == q.key != 0
    ensures Reachable(Only(u, x), Two(x, DeskMet(x, p), LaptopMet(x, q)))
    ensures Settled(Two(x, DeskMet(x, p), LaptopMet(x, q)), Laptop(x), Desk(x))
  {
    var t := Own(Desk(x), q);
    var net := Two(x, DeskMet(x, p), OnLink(x, Desk(x), t, [Message(RosterOf(t))]));
    LaptopHearsDesk(u, x, p, q);
    OwnHolds(Laptop(x), p);
    OwnHolds(Desk(x), q);
    OneKeyHoldsAll(x, p, q);
    HearQuietly(Only(u, x), net, Laptop(x), Desk(x), Link(x));
    OnLinkEmptied(x, Desk(x), t, [Message(RosterOf(t))]);
    assert net[Laptop(x) := LaptopMet(x, q)] == Two(x, DeskMet(x, p), LaptopMet(x, q));
  }

  // ---- The desk gives it up too late ----

  /** A step that makes the desk hold `b`, and nothing of anyone but the laptop and `x`. */
  ghost predicate DeskTurnsTo(u: Records, x: DeviceId, p: Peer, q: Peer, step: Step, b: Book) {
    var net := Two(x, DeskMet(x, p), LaptopMet(x, q));
    && Enabled(Only(u, x), net, step)
    && After(net, step) == Two(x, OnLink(x, Laptop(x), b, [Message(RosterOf(b))]), LaptopMet(x, q))
    && TooLate(Member(p.key, p.pairedAt), StatusOf(b, x), Member(q.key, q.pairedAt))
    && forall id :: id != x && id != Laptop(x) ==> StatusOf(b, id) == Absent
  }

  lemma TurningSplits(u: Records, x: DeviceId, p: Peer, q: Peer, step: Step, b: Book)
    returns (nets: seq<Net>, steps: seq<Step>)
    requires p in u.pairings && q in u.pairings && p.id == x == q.id && p.key == q.key != 0
    requires DeskTurnsTo(u, x, p, q, step, b)
    ensures Splits(Only(u, x), nets, steps, Laptop(x), Desk(x), x)
  {
    var l, net := Only(u, x), Two(x, DeskMet(x, p), LaptopMet(x, q));
    var hear := Hear(Desk(x), Laptop(x), Link(x));
    TheyMeet(u, x, p, q);
    ReachableClean(l, net);
    OwnHolds(Laptop(x), p);
    OwnHolds(Desk(x), q);
    TooLateSplits(l, net, step, Laptop(x), Desk(x), x);
    Reach(l, net, step);
    Reach(l, After(net, step), hear);
    nets, steps :| Gossip.Run(l, nets, steps) && nets[|steps|] == After(After(net, step), hear);
  }

  lemma ReachableClean(l: Limits, net: Net)
    requires Proper(l) && Reachable(l, net)
    ensures Clean(l, net)
  {
    var nets, steps :| Gossip.Run(l, nets, steps) && nets[|steps|] == net;
    RunKeepsClean(l, nets, steps, |steps|);
  }

  function Without(friend: DeviceId, p: Peer, at: nat): Book {
    Book([Friend(friend)], [Removed(p, at, false)])
  }

  lemma RemovedFromOwn(friend: DeviceId, p: Peer, at: nat)
    requires friend != p.id
    ensures Remove(Own(friend, p), p.id, at) == Without(friend, p, at)
  {
    assert FindPeer(Own(friend, p).peers, p.id) == Some(1);
  }

  /** Its user removes `x`. */
  lemma RemovalTurns(u: Records, x: DeviceId, p: Peer, q: Peer, at: nat)
    requires p in u.pairings && p.id == x == q.id && p.key == q.key != 0
    requires (x, at) in u.removals && p.pairedAt <= at < q.pairedAt
    ensures DeskTurnsTo(u, x, p, q, Dropped(Desk(x), x, at), Without(Laptop(x), p, at))
  {
    var b := Without(Laptop(x), p, at);
    OwnHolds(Laptop(x), p);
    RemovedFromOwn(Laptop(x), p, at);
    NewsOnLink(x, Laptop(x), Own(Laptop(x), p), b);
    assert RemovePeer(DeskMet(x, p), x, at) == OnLink(x, Laptop(x), b, [Message(RosterOf(b))]);
    WithoutHolds(Laptop(x), p, at);
  }

  lemma WithoutHolds(friend: DeviceId, p: Peer, at: nat)
    requires friend != p.id
    ensures StatusOf(Without(friend, p, at), p.id) == Status.Gone(at)
    ensures forall id :: id != p.id && id != friend ==> StatusOf(Without(friend, p, at), id) == Absent
  {
    var b := Without(friend, p, at);
    assert b.removed[0] == Removed(p, at, false) && b.peers[0] == Friend(friend);
    StatusOfRemoved(b, Removed(p, at, false));
  }

  lemma WithoutTheLast(s: seq<Peer>, p: Peer)
    requires !HasPeer(s, p.id)
    ensures WithoutPeer(s + [p], p.id) == s
  {
    assert (s + [p])[..|s + [p]| - 1] == s;
    WithoutUnknown(s, p.id);
  }

  lemma PairedOver(friend: DeviceId, p: Peer, o: Peer)
    requires friend != p.id == o.id
    ensures Upsert(Own(friend, p), o) == Own(friend, o)
  {
    var s := [Friend(friend)];
    WithoutTheLast(s, p);
    assert Own(friend, p).peers == s + [p] && Own(friend, o).peers == s + [o];
  }

  /** It is paired with another key. */
  lemma PairingTurns(u: Records, x: DeviceId, p: Peer, q: Peer, o: Peer)
    requires p in u.pairings && o in u.pairings && p.id == x == q.id && o.id == x && p.key == q.key != 0
    requires o.key != p.key && o.key != 0 && p.pairedAt <= o.pairedAt < q.pairedAt
    ensures DeskTurnsTo(u, x, p, q, Paired(Desk(x), o), Own(Laptop(x), o))
  {
    var b := Own(Laptop(x), o);
    OwnHolds(Laptop(x), p);
    OwnHolds(Laptop(x), o);
    PairedOver(Laptop(x), p, o);
    NewsOnLink(x, Laptop(x), Own(Laptop(x), p), b);
    assert StorePeer(DeskMet(x, p), o) == OnLink(x, Laptop(x), b, [Message(RosterOf(b))]);
    forall id | id != x && id != Laptop(x) ensures StatusOf(b, id) == Absent {
      OwnOthers(Laptop(x), o, id);
    }
  }

  lemma NewsOnLink(x: DeviceId, peer: DeviceId, d: Book, b: Book)
    ensures SendToAll(OnLink(x, peer, d, []).(store := b), Message(RosterOf(b)))
         == OnLink(x, peer, b, [Message(RosterOf(b))])
  {
    var n := OnLink(x, peer, b, []);
    assert n.conns[peer] in n.conns.Values;
    assert [] + [Message(RosterOf(b))] == [Message(RosterOf(b))];
    assert SendToAll(n, Message(RosterOf(b))).outbox == map[Link(x) := [Message(RosterOf(b))]];
  }

  // ---- The exact condition ----

  lemma InterruptedSplits(u: Records, x: DeviceId, p: Peer, q: Peer) returns (nets: seq<Net>, steps: seq<Step>)
    requires p in u.pairings && q in u.pairings && p.id == x == q.id && p.key == q.key && p.pairedAt < q.pairedAt
    requires Interrupted(u, p, q) && forall o :: o in u.pairings && o.id == x ==> o.key != 0
    ensures Splits(Only(u, x), nets, steps, Laptop(x), Desk(x), x)
  {
    if at :| (p.id, at) in u.removals && p.pairedAt <= at < q.pairedAt {
      RemovalTurns(u, x, p, q, at);
      nets, steps := TurningSplits(u, x, p, q, Dropped(Desk(x), x, at), Without(Laptop(x), p, at));
    } else {
      var o :| o in u.pairings && o.id == p.id && o.key != p.key && p.pairedAt <= o.pairedAt < q.pairedAt;
      PairingTurns(u, x, p, q, o);
      nets, steps := TurningSplits(u, x, p, q, Paired(Desk(x), o), Own(Laptop(x), o));
    }
  }

  /** Members with these records of `x` agree about it at every settled moment of every run, exactly
      if no two pairings of one of its keys are interrupted. */
  lemma GroupsAgreeIffUninterrupted(u: Records, x: DeviceId)
    requires forall o :: o in u.pairings && o.id == x ==> o.key != 0
    ensures Uninterrupted(u, x) <==>
      !exists l, nets, steps, a, b :: Proper(l) && SameRecords(l.records, u, x) && Splits(l, nets, steps, a, b, x)
  {
    if Uninterrupted(u, x) {
      forall l, nets, steps, a, b | Proper(l) && SameRecords(l.records, u, x) ensures !Splits(l, nets, steps, a, b, x) {
        SameInterruptions(l.records, u, x);
        if Splits(l, nets, steps, a, b, x) {
          UninterruptedGroupsAgree(l, nets, steps, |steps|, a, b, x);
        }
      }
    } else {
      var p, q :| p in u.pairings && q in u.pairings && p.id == x == q.id && p.key == q.key
                  && p.pairedAt < q.pairedAt && Interrupted(u, p, q);
      OnlyIsProper(u, x);
      var nets, steps := InterruptedSplits(u, x, p, q);
    }
  }
}
