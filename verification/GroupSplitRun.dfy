/** A run in which two connected devices come to differ for good about a third: both paired it, each
    at its own time; a device that was away removed it at a time between the two, and comes back. */
module GroupSplitRun {
  import opened Wrappers
  import opened Peers
  import opened Membership
  import opened GroupRules
  import opened GroupJoin
  import opened Nodes
  import opened Gossip
  import opened GroupAgreement
  import opened GroupSplits

  // ---- Reaching a net step by step ----

  ghost predicate Reachable(l: Limits, net: Net) {
    exists nets, steps :: Gossip.Run(l, nets, steps) && nets[|steps|] == net
  }

  lemma Reach(l: Limits, net: Net, step: Step)
    requires Reachable(l, net) && Enabled(l, net, step)
    ensures Reachable(l, After(net, step))
  {
    var nets, steps :| Gossip.Run(l, nets, steps) && nets[|steps|] == net;
    var nets', steps' := nets + [After(net, step)], steps + [step];
    forall k {:trigger steps'[k]} | 0 <= k < |steps'|
      ensures Enabled(l, nets'[k], steps'[k]) && nets'[k + 1] == After(nets'[k], steps'[k])
    {
      if k < |steps| {
        assert steps'[k] == steps[k];
      }
    }
    assert Gossip.Run(l, nets', steps') && nets'[|steps'|] == After(net, step);
  }

  /** A device with no sessions. */
  function Alone(peers: seq<Peer>, removed: seq<Removed>): Node {
    Node(Book(peers, removed), map[], map[])
  }

  lemma {:induction false} WithoutUnknown(s: seq<Peer>, id: DeviceId)
    requires !HasPeer(s, id)
    ensures WithoutPeer(s, id) == s
  {
    if s != [] {
      var n := |s| - 1;
      assert !HasPeer(s[..n], id) by {
        if i :| 0 <= i < |s[..n]| && s[..n][i].id == id {
          assert s[i].id == id;
        }
      }
      WithoutUnknown(s[..n], id);
      assert s == s[..n] + [s[n]];
    }
  }

  lemma PairAlone(l: Limits, net: Net, i: DeviceId, known: seq<Peer>, p: Peer)
    requires Reachable(l, net) && i in net && net[i] == Alone(known, [])
    requires PeerClean(l, p) && p.id != i && !HasPeer(known, p.id)
    ensures Reachable(l, net[i := Alone(known + [p], [])])
  {
    WithoutUnknown(known, p.id);
    Reach(l, net, Paired(i, p));
    assert StorePeer(net[i], p) == Alone(known + [p], []);
  }

  /** Two devices without sessions with each other finish a handshake on both ends. */
  lemma Connect(l: Limits, net: Net, a: DeviceId, b: DeviceId, s: Session)
    requires Reachable(l, net) && a in net && b in net && a != b && s.Joins(a, b)
    requires HasPeer(net[a].store.peers, b) && b !in net[a].conns && s !in net[a].outbox
    requires HasPeer(net[b].store.peers, a) && a !in net[b].conns && s !in net[b].outbox
    ensures Reachable(l, net[a := Connected(net[a], b, s)][b := Connected(net[b], a, s)])
  {
    Reach(l, net, Start(a, b, s));
    var net1 := net[a := Connected(net[a], b, s)];
    StartedIs(net[a], a, b, s);
    Reach(l, net1, Start(b, a, s));
    StartedIs(net[b], b, a, s);
  }

  lemma StartedIs(n: Node, me: DeviceId, peer: DeviceId, s: Session)
    requires HasPeer(n.store.peers, peer) && peer !in n.conns
    ensures StartSession(n, me, peer, s) == Connected(n, peer, s)
  {
    var roster := Message(RosterOf(n.store));
    assert [] + [roster] == [roster];
    assert n.outbox[s := []][s := [roster]] == n.outbox[s := [roster]];
  }

  function Connected(n: Node, peer: DeviceId, s: Session): Node {
    Node(n.store, n.conns[peer := s], n.outbox[s := [Message(RosterOf(n.store))]])
  }

  function Emptied(n: Node, s: Session): Node {
    n.(outbox := n.outbox[s := []])
  }

  lemma HearRoster(l: Limits, net: Net, i: DeviceId, j: DeviceId, s: Session, r: Roster, heard: Node)
    requires Reachable(l, net) && Deliverable(net, i, j, s) && net[i].outbox[s] == [Message(r)]
    requires ApplyRoster(net[j], j, i, r) == heard
    ensures Reachable(l, net[j := heard][i := Emptied(net[i], s)])
  {
    assert [Message(r)][1..] == [];
    Reach(l, net, Hear(i, j, s));
  }

  /** A roster that tells its reader nothing new only leaves the queue. */
  lemma HearQuietly(l: Limits, net: Net, i: DeviceId, j: DeviceId, s: Session)
    requires Reachable(l, net) && Deliverable(net, i, j, s) && net[i].outbox[s] == [Message(RosterOf(net[i].store))]
    requires Valid(net[i].store) && Valid(net[j].store) && Sendable(net[i].store)
    requires HoldsAll(net[j].store, net[i].store, i, j)
    ensures Reachable(l, net[i := Emptied(net[i], s)])
  {
    AllHeld(net[j].store, net[i].store, i, j);
    HearingNothing(net[j], j, i, net[i].store);
    HearRoster(l, net, i, j, s, RosterOf(net[i].store), net[j]);
    assert net[j := net[j]] == net;
  }

  /** Record by record, `c` holds at least what `b` does of devices other than `i` and `j`. */
  ghost predicate HoldsAll(c: Book, b: Book, i: DeviceId, j: DeviceId) {
    && (forall p :: p in b.peers && p.id != i && p.id != j ==> AtLeast(StatusOf(c, p.id), Member(p.key, p.pairedAt)))
    && (forall x :: x in b.removed && x.peer.id != i && x.peer.id != j ==>
          AtLeast(StatusOf(c, x.peer.id), Status.Gone(x.removedAt)))
  }

  lemma AllHeld(c: Book, b: Book, i: DeviceId, j: DeviceId)
    requires Valid(b) && HoldsAll(c, b, i, j)
    ensures forall id :: id != i && id != j ==> AtLeast(StatusOf(c, id), StatusOf(b, id))
  {
    forall id | id != i && id != j ensures AtLeast(StatusOf(c, id), StatusOf(b, id)) {
      StatusWitness(b, id);
    }
  }

  // ---- The run ----

  const DESK: DeviceId := 1
  const LAPTOP: DeviceId := 2
  const AWAY: DeviceId := 3
  const GUEST: DeviceId := 4

  /** A device other than the guest, paired at time 0. */
  function Known(id: DeviceId): Peer {
    Peer(id, id + 10, 0)
  }

  function Guest(at: nat): Peer {
    Peer(GUEST, 14, at)
  }

  ghost function Bounds(t1: nat, t2: nat, at: nat): Limits {
    Limits(Records(iset{Known(DESK), Known(LAPTOP), Known(AWAY), Guest(t1), Guest(t2)}, iset{(GUEST, at)}),
           {GUEST}, {DESK, LAPTOP, AWAY, GUEST})
  }

  function Both(): Session {
    Session(0, DESK, LAPTOP)
  }

  function Back(): Session {
    Session(0, DESK, AWAY)
  }

  function Desk(t1: nat): Book {
    Book([Known(LAPTOP), Known(AWAY), Guest(t1)], [])
  }

  function Laptop(t2: nat): Book {
    Book([Known(DESK), Known(AWAY), Guest(t2)], [])
  }

  function Away(t1: nat, at: nat): Book {
    Book([Known(DESK)], [Removed(Guest(t1), at, false)])
  }

  /** Everyone has paired and the device that is away has removed the guest. */
  function Prepared(t1: nat, t2: nat, at: nat): Net {
    map[DESK := Node(Desk(t1), map[], map[]), LAPTOP := Node(Laptop(t2), map[], map[]),
        AWAY := Node(Away(t1, at), map[], map[])]
  }

  lemma PrepareDesk(l: Limits, net: Net, t1: nat, t2: nat, at: nat)
    requires l == Bounds(t1, t2, at) && Reachable(l, net) && DESK in net && net[DESK] == Alone([], [])
    ensures Reachable(l, net[DESK := Node(Desk(t1), map[], map[])])
  {
    var n1, n2 := Alone([Known(LAPTOP)], []), Alone([Known(LAPTOP), Known(AWAY)], []);
    PairAlone(l, net, DESK, [], Known(LAPTOP));
    assert [] + [Known(LAPTOP)] == [Known(LAPTOP)];
    PairAlone(l, net[DESK := n1], DESK, [Known(LAPTOP)], Known(AWAY));
    assert [Known(LAPTOP)] + [Known(AWAY)] == [Known(LAPTOP), Known(AWAY)];
    assert net[DESK := n1][DESK := n2] == net[DESK := n2];
    PairAlone(l, net[DESK := n2], DESK, [Known(LAPTOP), Known(AWAY)], Guest(t1));
    assert [Known(LAPTOP), Known(AWAY)] + [Guest(t1)] == [Known(LAPTOP), Known(AWAY), Guest(t1)];
    assert net[DESK := n2][DESK := Node(Desk(t1), map[], map[])] == net[DESK := Node(Desk(t1), map[], map[])];
  }

  lemma PrepareLaptop(l: Limits, net: Net, t1: nat, t2: nat, at: nat)
    requires l == Bounds(t1, t2, at) && Reachable(l, net) && LAPTOP in net && net[LAPTOP] == Alone([], [])
    ensures Reachable(l, net[LAPTOP := Node(Laptop(t2), map[], map[])])
  {
    var n1, n2 := Alone([Known(DESK)], []), Alone([Known(DESK), Known(AWAY)], []);
    PairAlone(l, net, LAPTOP, [], Known(DESK));
    assert [] + [Known(DESK)] == [Known(DESK)];
    PairAlone(l, net[LAPTOP := n1], LAPTOP, [Known(DESK)], Known(AWAY));
    assert [Known(DESK)] + [Known(AWAY)] == [Known(DESK), Known(AWAY)];
    assert net[LAPTOP := n1][LAPTOP := n2] == net[LAPTOP := n2];
    PairAlone(l, net[LAPTOP := n2], LAPTOP, [Known(DESK), Known(AWAY)], Guest(t2));
    assert [Known(DESK), Known(AWAY)] + [Guest(t2)] == [Known(DESK), Known(AWAY), Guest(t2)];
    assert net[LAPTOP := n2][LAPTOP := Node(Laptop(t2), map[], map[])] == net[LAPTOP := Node(Laptop(t2), map[], map[])];
  }

  lemma PrepareAway(l: Limits, net: Net, t1: nat, t2: nat, at: nat)
    requires l == Bounds(t1, t2, at) && t1 <= at && Reachable(l, net) && AWAY in net && net[AWAY] == Alone([], [])
    ensures Reachable(l, net[AWAY := Node(Away(t1, at), map[], map[])])
  {
    var n1, n2 := Alone([Known(DESK)], []), Alone([Known(DESK), Guest(t1)], []);
    PairAlone(l, net, AWAY, [], Known(DESK));
    assert [] + [Known(DESK)] == [Known(DESK)];
    PairAlone(l, net[AWAY := n1], AWAY, [Known(DESK)], Guest(t1));
    assert [Known(DESK)] + [Guest(t1)] == [Known(DESK), Guest(t1)];
    var net2 := net[AWAY := n2];
    assert net[AWAY := n1][AWAY := n2] == net2;
    assert n2.store.peers[1] == Guest(t1);
    StatusOfPeer(n2.store, Guest(t1));
    Reach(l, net2, Dropped(AWAY, GUEST, at));
    assert FindPeer(n2.store.peers, GUEST) == Some(1);
    assert RemovePeer(n2, GUEST, at) == Node(Away(t1, at), map[], map[]);
    assert net2[AWAY := Node(Away(t1, at), map[], map[])] == net[AWAY := Node(Away(t1, at), map[], map[])];
  }

  lemma Prepare(t1: nat, t2: nat, at: nat)
    requires t1 <= at
    ensures Reachable(Bounds(t1, t2, at), Prepared(t1, t2, at))
  {
    var l := Bounds(t1, t2, at);
    var net := map[DESK := Alone([], []), LAPTOP := Alone([], []), AWAY := Alone([], [])];
    assert Gossip.Run(l, [net], []);
    PrepareDesk(l, net, t1, t2, at);
    var net1 := net[DESK := Node(Desk(t1), map[], map[])];
    PrepareLaptop(l, net1, t1, t2, at);
    var net2 := net1[LAPTOP := Node(Laptop(t2), map[], map[])];
    PrepareAway(l, net2, t1, t2, at);
    assert net2[AWAY := Node(Away(t1, at), map[], map[])] == Prepared(t1, t2, at);
  }

  // ---- Desk and laptop meet ----

  function Talking(b: Book, peer: DeviceId, q: seq<Outgoing>): Node {
    Node(b, map[peer := Both()], map[Both() := q])
  }

  function Net3(desk: Node, laptop: Node, away: Node): Net {
    map[DESK := desk, LAPTOP := laptop, AWAY := away]
  }

  lemma TalkingEmptied(b: Book, peer: DeviceId, q: seq<Outgoing>)
    ensures Emptied(Talking(b, peer, q), Both()) == Talking(b, peer, [])
  {
    var s := Both();
    assert map[s := q][s := []] == map[s := []];
  }

  /** What the two hold of each other's records. */
  lemma BothHoldAll(t1: nat, t2: nat)
    ensures Valid(Desk(t1)) && Valid(Laptop(t2)) && Sendable(Desk(t1)) && Sendable(Laptop(t2))
    ensures HoldsAll(Laptop(t2), Desk(t1), DESK, LAPTOP) && HoldsAll(Desk(t1), Laptop(t2), LAPTOP, DESK)
    ensures StatusOf(Laptop(t2), GUEST) == Member(14, t2) && StatusOf(Laptop(t2), AWAY) == Member(13, 0)
  {
    var d, p := Desk(t1), Laptop(t2);
    assert d.peers[1] == Known(AWAY) && d.peers[2] == Guest(t1) && p.peers[1] == Known(AWAY) && p.peers[2] == Guest(t2);
    StatusOfPeer(d, Known(AWAY));
    StatusOfPeer(d, Guest(t1));
    StatusOfPeer(p, Known(AWAY));
    StatusOfPeer(p, Guest(t2));
  }

  lemma Connects(t1: nat, t2: nat, at: nat)
    requires t1 <= at
    ensures Reachable(Bounds(t1, t2, at),
                      Net3(Talking(Desk(t1), LAPTOP, [Message(RosterOf(Desk(t1)))]),
                           Talking(Laptop(t2), DESK, [Message(RosterOf(Laptop(t2)))]),
                           Node(Away(t1, at), map[], map[])))
  {
    var (d, p) := (Node(Desk(t1), map[], map[]), Node(Laptop(t2), map[], map[]));
    Prepare(t1, t2, at);
    assert Desk(t1).peers[0].id == LAPTOP && Laptop(t2).peers[0].id == DESK;
    Connect(Bounds(t1, t2, at), Prepared(t1, t2, at), DESK, LAPTOP, Both());
    assert Prepared(t1, t2, at)[DESK := Connected(d, LAPTOP, Both())][LAPTOP := Connected(p, DESK, Both())]
        == Net3(Connected(d, LAPTOP, Both()), Connected(p, DESK, Both()), Node(Away(t1, at), map[], map[]));
  }

  lemma DeskIsHeard(l: Limits, d: Book, laptop: Node, away: Node)
    requires Valid(d) && Sendable(d) && Valid(laptop.store) && Both() in laptop.outbox
    requires HoldsAll(laptop.store, d, DESK, LAPTOP)
    requires Reachable(l, Net3(Talking(d, LAPTOP, [Message(RosterOf(d))]), laptop, away))
    ensures Reachable(l, Net3(Talking(d, LAPTOP, []), laptop, away))
  {
    var net := Net3(Talking(d, LAPTOP, [Message(RosterOf(d))]), laptop, away);
    HearQuietly(l, net, DESK, LAPTOP, Both());
    TalkingEmptied(d, LAPTOP, [Message(RosterOf(d))]);
    assert net[DESK := Talking(d, LAPTOP, [])] == Net3(Talking(d, LAPTOP, []), laptop, away);
  }

  lemma LaptopIsHeard(l: Limits, desk: Node, p: Book, away: Node)
    requires Valid(p) && Sendable(p) && Valid(desk.store) && Both() in desk.outbox
    requires HoldsAll(desk.store, p, LAPTOP, DESK)
    requires Reachable(l, Net3(desk, Talking(p, DESK, [Message(RosterOf(p))]), away))
    ensures Reachable(l, Net3(desk, Talking(p, DESK, []), away))
  {
    var net := Net3(desk, Talking(p, DESK, [Message(RosterOf(p))]), away);
    HearQuietly(l, net, LAPTOP, DESK, Both());
    TalkingEmptied(p, DESK, [Message(RosterOf(p))]);
    assert net[LAPTOP := Talking(p, DESK, [])] == Net3(desk, Talking(p, DESK, []), away);
  }

  /** The two connect and hear each other's rosters, which tell them nothing new. */
  lemma Meet(t1: nat, t2: nat, at: nat)
    requires t1 <= at
    ensures Reachable(Bounds(t1, t2, at),
                      Net3(Talking(Desk(t1), LAPTOP, []), Talking(Laptop(t2), DESK, []),
                           Node(Away(t1, at), map[], map[])))
  {
    var (d, p, away) := (Desk(t1), Laptop(t2), Node(Away(t1, at), map[], map[]));
    Connects(t1, t2, at);
    BothHoldAll(t1, t2);
    DeskIsHeard(Bounds(t1, t2, at), d, Talking(p, DESK, [Message(RosterOf(p))]), away);
    LaptopIsHeard(Bounds(t1, t2, at), Talking(d, LAPTOP, []), p, away);
  }

  // ---- The third comes back ----

  /** The desk once it has heard of the removal. */
  function DeskAfter(t1: nat, at: nat): Book {
    Book([Known(LAPTOP), Known(AWAY)], [Removed(Guest(t1), at, false)])
  }

  lemma DeskHears(t1: nat, at: nat)
    requires t1 <= at
    ensures Merge(Desk(t1), DESK, AWAY, RosterOf(Away(t1, at))) == Merged(DeskAfter(t1, at), Change([], [GUEST], false))
  {
    var es := [Joined(Known(DESK)), Left(Guest(t1), at)];
    assert Entries(RosterOf(Away(t1, at))) == es;
    TwoLines(Desk(t1), DESK, AWAY, es[0], es[1]);
    assert FindPeer(Desk(t1).peers, GUEST) == Some(2);
    assert Desk(t1).peers[..2] + Desk(t1).peers[3..] == DeskAfter(t1, at).peers;
    assert Remember([], Removed(Guest(t1), at, false)) == DeskAfter(t1, at).removed;
  }

  function DeskNode(b: Book, forLaptop: seq<Outgoing>, forAway: seq<Outgoing>): Node {
    Node(b, map[LAPTOP := Both(), AWAY := Back()], map[Both() := forLaptop, Back() := forAway])
  }

  lemma DeskApplies(t1: nat, at: nat, forAway: seq<Outgoing>)
    requires t1 <= at
    ensures var news := Message(RosterOf(DeskAfter(t1, at)));
      ApplyRoster(DeskNode(Desk(t1), [], forAway), DESK, AWAY, RosterOf(Away(t1, at)))
      == DeskNode(DeskAfter(t1, at), [news], forAway + [news])
  {
    DeskHears(t1, at);
    var n := DeskNode(DeskAfter(t1, at), [], forAway);
    assert DisconnectAll(n, [GUEST], Last) == n;
    assert DisconnectAll(n, [], Close) == n;
    var news := Message(RosterOf(DeskAfter(t1, at)));
    assert n.conns[LAPTOP] in n.conns.Values && n.conns[AWAY] in n.conns.Values;
    assert [] + [news] == [news];
    assert SendToAll(n, news).outbox == map[Both() := [news], Back() := forAway + [news]];
  }

  function AwayNode(t1: nat, at: nat, q: seq<Outgoing>): Node {
    Node(Away(t1, at), map[DESK := Back()], map[Back() := q])
  }

  lemma AwayEmptied(t1: nat, at: nat, q: seq<Outgoing>)
    ensures Emptied(AwayNode(t1, at, q), Back()) == AwayNode(t1, at, [])
  {
    var s := Back();
    assert map[s := q][s := []] == map[s := []];
  }

  /** The device that was away brings the removal to the desk. */
  lemma ComesBack(t1: nat, t2: nat, at: nat)
    requires t1 <= at
    ensures var (d, news) := (Message(RosterOf(Desk(t1))), Message(RosterOf(DeskAfter(t1, at))));
      Reachable(Bounds(t1, t2, at),
                Net3(DeskNode(DeskAfter(t1, at), [news], [d, news]), Talking(Laptop(t2), DESK, []),
                    AwayNode(t1, at, [])))
  {
    var (d, news) := (Message(RosterOf(Desk(t1))), Message(RosterOf(DeskAfter(t1, at))));
    var (laptop, brings) := (Talking(Laptop(t2), DESK, []), AwayNode(t1, at, [Message(RosterOf(Away(t1, at)))]));
    var net := Net3(DeskNode(Desk(t1), [], [d]), laptop, brings);
    var heard := DeskNode(DeskAfter(t1, at), [news], [d, news]);
    IsBack(t1, t2, at);
    DeskApplies(t1, at, [d]);
    assert [d] + [news] == [d, news];
    HearRoster(Bounds(t1, t2, at), net, AWAY, DESK, Back(), RosterOf(Away(t1, at)), heard);
    AwayEmptied(t1, at, [Message(RosterOf(Away(t1, at)))]);
    Replaced(net[DESK], laptop, brings, heard, AwayNode(t1, at, []));
  }

  lemma Replaced(desk: Node, laptop: Node, away: Node, desk': Node, away': Node)
    ensures Net3(desk, laptop, away)[DESK := desk'][AWAY := away'] == Net3(desk', laptop, away')
  {
  }

  lemma IsBack(t1: nat, t2: nat, at: nat)
    requires t1 <= at
    ensures Reachable(Bounds(t1, t2, at),
                      Net3(DeskNode(Desk(t1), [], [Message(RosterOf(Desk(t1)))]),
                           Talking(Laptop(t2), DESK, []),
                           AwayNode(t1, at, [Message(RosterOf(Away(t1, at)))])))
  {
    var (desk, away) := (Talking(Desk(t1), LAPTOP, []), Node(Away(t1, at), map[], map[]));
    Meet(t1, t2, at);
    assert Desk(t1).peers[1].id == AWAY && Away(t1, at).peers[0].id == DESK;
    Connect(Bounds(t1, t2, at), Net3(desk, Talking(Laptop(t2), DESK, []), away), DESK, AWAY, Back());
    assert Connected(desk, AWAY, Back()) == DeskNode(Desk(t1), [], [Message(RosterOf(Desk(t1)))]);
    assert Connected(away, DESK, Back()) == AwayNode(t1, at, [Message(RosterOf(Away(t1, at)))]);
    Replaced(desk, Talking(Laptop(t2), DESK, []), away, Connected(desk, AWAY, Back()), Connected(away, DESK, Back()));
  }

  lemma SettlesApart(t1: nat, t2: nat, at: nat, forAway: seq<Outgoing>, away: Node)
    requires t1 <= at < t2
    ensures var net := Net3(DeskNode(DeskAfter(t1, at), [Message(RosterOf(DeskAfter(t1, at)))], forAway),
        Talking(Laptop(t2), DESK, []), away);
      && Deliverable(net, DESK, LAPTOP, Both())
      && var last := After(net, Hear(DESK, LAPTOP, Both()));
         Settled(last, LAPTOP, DESK) && Holds(last, DESK, GUEST) == Status.Gone(at)
             && Holds(last, LAPTOP, GUEST) == Member(14, t2)
  {
    var net := Net3(DeskNode(DeskAfter(t1, at), [Message(RosterOf(DeskAfter(t1, at)))], forAway),
        Talking(Laptop(t2), DESK, []), away);
    BothHoldAll(t1, t2);
    DeskAfterHolds(t1, t2, at);
    AllHeld(Laptop(t2), DeskAfter(t1, at), DESK, LAPTOP);
    HearingSettles(net, LAPTOP, DESK);
  }

  /** A run that ends with the desk and the laptop connected and nothing in flight between them: the
      one holds the guest removed, the other a member. */
  lemma GuestRemovedHereMemberThere(t1: nat, t2: nat, at: nat) returns (nets: seq<Net>, steps: seq<Step>)
    requires t1 <= at < t2
    ensures Proper(Bounds(t1, t2, at)) && Gossip.Run(Bounds(t1, t2, at), nets, steps)
    ensures Settled(nets[|steps|], LAPTOP, DESK)
    ensures Holds(nets[|steps|], DESK, GUEST) == Status.Gone(at)
    ensures Holds(nets[|steps|], LAPTOP, GUEST) == Member(14, t2)
  {
    var l, hear := Bounds(t1, t2, at), Hear(DESK, LAPTOP, Both());
    var (d, news) := (Message(RosterOf(Desk(t1))), Message(RosterOf(DeskAfter(t1, at))));
    var net := Net3(DeskNode(DeskAfter(t1, at), [news], [d, news]), Talking(Laptop(t2), DESK, []),
        AwayNode(t1, at, []));
    ComesBack(t1, t2, at);
    SettlesApart(t1, t2, at, [d, news], AwayNode(t1, at, []));
    Reach(l, net, hear);
    nets, steps :| Gossip.Run(l, nets, steps) && nets[|steps|] == After(net, hear);
  }

  lemma DeskAfterHolds(t1: nat, t2: nat, at: nat)
    requires t1 <= at < t2
    ensures Valid(DeskAfter(t1, at)) && Sendable(DeskAfter(t1, at))
        && HoldsAll(Laptop(t2), DeskAfter(t1, at), DESK, LAPTOP)
    ensures StatusOf(DeskAfter(t1, at), GUEST) == Status.Gone(at)
  {
    BothHoldAll(t1, t2);
    assert DeskAfter(t1, at).removed[0] == Removed(Guest(t1), at, false);
    StatusOfRemoved(DeskAfter(t1, at), Removed(Guest(t1), at, false));
  }
}
