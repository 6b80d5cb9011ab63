/** Two paired devices dialing each other at once (`crates/cled-lan/src/node.rs`, `register`,
    `unregister`, `start_session` and the write loop): whatever order the two ends register, close
    and clean up in, they end up holding the same session, the lower ID's if it exists. */
module SessionRace {
  import opened Peers
  import opened Nodes
  import opened Sets

  /** The devices of a pair and which of their two possible sessions were dialed. */
  datatype Pair = Pair(low: DeviceId, high: DeviceId, dialed: set<Session>) {
    /** The session both prefer, and the other one. */
    function Preferred(): Session { Session(0, low, high) }
    function Second(): Session { Session(1, high, low) }
    predicate Valid() { low < high && dialed <= {Preferred(), Second()} }
    function Id(end: End): DeviceId { if end == Low then low else high }
    function Peer(end: End): DeviceId { if end == Low then high else low }
  }

  datatype End = Low | High {
    function Other(): End { if this == Low then High else Low }
  }

  /** One end's view of a session: its handshake isn't done, its read loop runs, or it let go. */
  datatype Phase = Pending | Live | Over

  /** `shut`: the write loop ended, so the other end reads to the end. */
  datatype Wire = Wire(phase: Phase, shut: bool)

  datatype Side = Side(node: Node, wires: map<Session, Wire>)

  /** `broken` holds the sessions whose connection failed underneath. */
  datatype Race = Race(low: Side, high: Side, broken: set<Session>) {
    function At(end: End): Side { if end == Low then low else high }
    function With(end: End, side: Side): Race { if end == Low then this.(low := side) else this.(high := side) }
  }

  datatype Step =
    | Starts(end: End, s: Session)  // the handshake is done: `start_session`
    | Fails(end: End, s: Session)   // the handshake fails
    | Writes(end: End, s: Session)  // the write loop takes the next message
    | Ends(end: End, s: Session)    // the read loop fails, and the session is cleaned up
    | Breaks(s: Session)

  /** Nothing more will come from the other end. */
  predicate Gone(r: Race, end: End, s: Session) {
    var other := r.At(end.Other());
    s in r.broken || (s in other.wires && (other.wires[s].shut || other.wires[s].phase == Over))
  }

  predicate Enabled(pair: Pair, r: Race, step: Step) {
    if step.Breaks? then step.s in pair.dialed && step.s !in r.broken
    else
      var side := r.At(step.end);
      step.s in side.wires &&
      match step
      case Starts(_, s) => side.wires[s].phase == Pending
      case Fails(end, s) => side.wires[s].phase == Pending && Gone(r, end, s)
      case Writes(_, s) => side.wires[s] == Wire(Live, false) && s in side.node.outbox && side.node.outbox[s] != []
      case Ends(end, s) => side.wires[s].phase == Live && Gone(r, end, s)
  }

  function Started(pair: Pair, side: Side, end: End, s: Session): Side {
    Side(StartSession(side.node, pair.Id(end), pair.Peer(end), s),
         side.wires[s := Wire(if Accepts(side.node, pair.Id(end), pair.Peer(end), s) then Live else Over, false)])
  }

  function Written(side: Side, s: Session): Side
    requires s in side.node.outbox && side.node.outbox[s] != []
  {
    var q := side.node.outbox[s];
    Side(side.node.(outbox := side.node.outbox[s := q[1..]]), side.wires[s := Wire(Live, !q[0].Message?)])
  }

  function After(pair: Pair, r: Race, step: Step): Race
    requires Enabled(pair, r, step)
  {
    match step
    case Starts(end, s) => r.With(end, Started(pair, r.At(end), end, s))
    case Fails(end, s) => r.With(end, r.At(end).(wires := r.At(end).wires[s := Wire(Over, false)]))
    case Writes(end, s) => r.With(end, Written(r.At(end), s))
    case Ends(end, s) =>
      r.With(end, Side(Unregister(r.At(end).node, pair.Peer(end), s), r.At(end).wires[s := Wire(Over, false)]))
    case Breaks(s) => r.(broken := r.broken + {s})
  }

  /** Both ends have the other one paired and hold no session with it. */
  ghost predicate Initial(pair: Pair, r: Race) {
    pair.Valid() && r.broken == {} && InitialSide(pair, Low, r.low) && InitialSide(pair, High, r.high)
  }

  ghost predicate InitialSide(pair: Pair, end: End, side: Side) {
    && HasPeer(side.node.store.peers, pair.Peer(end)) && pair.Peer(end) !in side.node.conns
    && side.wires == (map s | s in pair.dialed :: Wire(Pending, false))
    && pair.Preferred() !in side.node.outbox && pair.Second() !in side.node.outbox
  }

  ghost predicate Run(pair: Pair, races: seq<Race>, steps: seq<Step>) {
    && |races| == |steps| + 1 && Initial(pair, races[0])
    && forall k {:trigger steps[k]} :: 0 <= k < |steps| ==>
         Enabled(pair, races[k], steps[k]) && races[k + 1] == After(pair, races[k], steps[k])
  }

  /** Every handshake is done, every queue written and every close read. */
  ghost predicate Settled(pair: Pair, r: Race) {
    forall step: Step :: !step.Breaks? ==> !Enabled(pair, r, step)
  }

  predicate Holds(pair: Pair, r: Race, end: End, s: Session) {
    pair.Peer(end) in r.At(end).node.conns && r.At(end).node.conns[pair.Peer(end)] == s
  }

  // ---- What every step keeps ----

  /** The end has closed the session or is about to. */
  ghost predicate Closing(side: Side, s: Session)
    requires s in side.wires
  {
    side.wires[s].shut || (s in side.node.outbox && Close in side.node.outbox[s])
  }

  ghost predicate SideInv(pair: Pair, end: End, side: Side) {
    var (p, q, peer, conns) := (pair.Preferred(), pair.Second(), pair.Peer(end), side.node.conns);
    && HasPeer(side.node.store.peers, peer) && side.wires.Keys == pair.dialed
    && (peer in conns ==> conns[peer] in side.wires && side.wires[conns[peer]].phase == Live)
    && (forall s :: s in side.wires && side.wires[s].phase == Live ==>
          s in side.node.outbox && ((peer in conns && conns[peer] == s && !Closing(side, s)) || Closing(side, s)))
    // Only the second session is ever closed, and only for the preferred one.
    && (p in side.wires && side.wires[p].phase == Live ==> !Closing(side, p))
    && (q in side.wires && side.wires[q].phase == Live && Closing(side, q) ==>
         p in side.wires && side.wires[p].phase != Pending)
    && (forall s :: s in side.wires && side.wires[s].phase != Live ==> !side.wires[s].shut)
    && (forall s :: s in side.node.outbox && s in side.wires ==> Last !in side.node.outbox[s])
  }

  /** Whoever let go of the preferred session did so because it broke; whoever let go of the second
      one, because it broke or because of the preferred one. */
  ghost predicate EndInv(pair: Pair, end: End, side: Side, broken: set<Session>) {
    var (p, q) := (pair.Preferred(), pair.Second());
    && SideInv(pair, end, side)
    && (p in side.wires && side.wires[p].phase == Over ==> p in broken)
    && (q in side.wires && side.wires[q].phase == Over ==> q in broken || p in pair.dialed)
  }

  ghost predicate Inv(pair: Pair, r: Race) {
    pair.Valid() && EndInv(pair, Low, r.low, r.broken) && EndInv(pair, High, r.high, r.broken)
  }

  /** Nothing more comes only from a broken session, or from a second one given up. */
  lemma GoneBecause(pair: Pair, r: Race, end: End, s: Session)
    requires Inv(pair, r) && s in pair.dialed && Gone(r, end, s)
    ensures s in r.broken || (s == pair.Second() && pair.Preferred() in pair.dialed)
  {
  }

  lemma OverKeeps(pair: Pair, end: End, side: Side, broken: set<Session>, s: Session)
    requires pair.Valid() && EndInv(pair, end, side, broken) && s in side.wires
    requires s in broken || (s == pair.Second() && pair.Preferred() in pair.dialed)
    ensures EndInv(pair, end, Side(Unregister(side.node, pair.Peer(end), s), side.wires[s := Wire(Over, false)]),
        broken)
    ensures side.wires[s].phase == Pending ==>
        EndInv(pair, end, side.(wires := side.wires[s := Wire(Over, false)]), broken)
  {
  }

  lemma StartKeeps(pair: Pair, end: End, side: Side, s: Session)
    requires pair.Valid() && SideInv(pair, end, side) && s in side.wires && side.wires[s].phase == Pending
    ensures SideInv(pair, end, Started(pair, side, end, s))
  {
  }

  lemma StartedPhase(pair: Pair, end: End, side: Side, s: Session)
    requires pair.Valid() && SideInv(pair, end, side) && s in side.wires && side.wires[s].phase == Pending
    ensures s == pair.Preferred() ==> Started(pair, side, end, s).wires[s].phase == Live
    ensures s == pair.Second() && Started(pair, side, end, s).wires[s].phase == Over ==> pair.Preferred() in pair.dialed
  {
  }

  lemma WriteKeeps(pair: Pair, end: End, side: Side, s: Session)
    requires pair.Valid() && SideInv(pair, end, side) && s in side.wires && side.wires[s] == Wire(Live, false)
    requires s in side.node.outbox && side.node.outbox[s] != []
    ensures SideInv(pair, end, Written(side, s))
  {
    var q := side.node.outbox[s];
    assert q == [q[0]] + q[1..];
  }

  /** What the step makes of the end it happens at. */
  function Moved(pair: Pair, r: Race, step: Step): Side
    requires Enabled(pair, r, step) && !step.Breaks?
  {
    After(pair, r, step).At(step.end)
  }

  lemma MovedKeeps(pair: Pair, r: Race, step: Step)
    requires Inv(pair, r) && Enabled(pair, r, step) && !step.Breaks?
    ensures EndInv(pair, step.end, Moved(pair, r, step), r.broken)
  {
    var end, s, side := step.end, step.s, r.At(step.end);
    assert EndInv(pair, end, side, r.broken);
    if step.Starts? {
      StartKeeps(pair, end, side, s);
      StartedPhase(pair, end, side, s);
    } else if step.Writes? {
      WriteKeeps(pair, end, side, s);
    } else {
      GoneBecause(pair, r, end, s);
      OverKeeps(pair, end, side, r.broken, s);
    }
  }

  lemma OneEndMoves(pair: Pair, r: Race, step: Step)
    requires Enabled(pair, r, step) && !step.Breaks?
    ensures After(pair, r, step) == r.With(step.end, Moved(pair, r, step))
  {
  }

  lemma StepKeepsInv(pair: Pair, r: Race, step: Step)
    requires Inv(pair, r) && Enabled(pair, r, step)
    ensures Inv(pair, After(pair, r, step))
  {
    if !step.Breaks? {
      MovedKeeps(pair, r, step);
      OneEndMoves(pair, r, step);
    }
  }

  lemma {:induction false} RunKeepsInv(pair: Pair, races: seq<Race>, steps: seq<Step>, k: nat)
    requires Run(pair, races, steps) && k < |races|
    ensures Inv(pair, races[k])
  {
    if k > 0 {
      RunKeepsInv(pair, races, steps, k - 1);
      StepKeepsInv(pair, races[k - 1], steps[k - 1]);
    }
  }

  // ---- Where it ends ----

  lemma SettledHolder(pair: Pair, r: Race, end: End, s: Session)
    requires Inv(pair, r) && Settled(pair, r) && Holds(pair, r, end, s)
    ensures Holds(pair, r, end.Other(), s)
  {
    var other := end.Other();
    assert !Enabled(pair, r, Ends(end, s));
    assert !Enabled(pair, r, Starts(other, s));
    assert !Enabled(pair, r, Writes(other, s));
  }

  /** Once everything is delivered, both ends hold the same session or none; the preferred one if it
      was dialed and didn't break, and the second if only it was and it didn't break. */
  lemma EndsAgree(pair: Pair, races: seq<Race>, steps: seq<Step>, s: Session)
    requires Run(pair, races, steps) && Settled(pair, races[|steps|])
    ensures var r := races[|steps|];
      && (Holds(pair, r, Low, s) <==> Holds(pair, r, High, s))
      && (pair.Preferred() in pair.dialed - r.broken ==>
           Holds(pair, r, Low, pair.Preferred()) && Holds(pair, r, High, pair.Preferred()))
      && (pair.Preferred() !in pair.dialed && pair.Second() in pair.dialed - r.broken ==>
            Holds(pair, r, Low, pair.Second()) && Holds(pair, r, High, pair.Second()))
  {
    var r := races[|steps|];
    RunKeepsInv(pair, races, steps, |steps|);
    if Holds(pair, r, Low, s) {
      SettledHolder(pair, r, Low, s);
    }
    if Holds(pair, r, High, s) {
      SettledHolder(pair, r, High, s);
    }
    forall end: End, s | s in pair.dialed ensures r.At(end).wires[s].phase != Pending {
      assert !Enabled(pair, r, Starts(end, s));
    }
  }

  lemma HeldIffLive(pair: Pair, r: Race, end: End)
    requires Inv(pair, r)
    ensures var p := pair.Preferred(); Holds(pair, r, end, p) <==> p in pair.dialed && r.At(end).wires[p].phase == Live
  {
    assert EndInv(pair, end, r.At(end), r.broken);
  }

  lemma NeverPendingAgain(pair: Pair, r: Race, step: Step, end: End, s: Session)
    requires Enabled(pair, r, step) && s in r.At(end).wires && r.At(end).wires[s].phase != Pending
    ensures s in After(pair, r, step).At(end).wires && After(pair, r, step).At(end).wires[s].phase != Pending
  {
  }

  lemma PreferredStep(pair: Pair, r: Race, step: Step, end: End)
    requires Inv(pair, r) && Enabled(pair, r, step)
    requires Holds(pair, r, end, pair.Preferred()) && pair.Preferred() !in After(pair, r, step).broken
    ensures Holds(pair, After(pair, r, step), end, pair.Preferred())
  {
    var p, now := pair.Preferred(), After(pair, r, step);
    HeldIffLive(pair, r, end);
    NeverPendingAgain(pair, r, step, end, p);
    StepKeepsInv(pair, r, step);
    HeldIffLive(pair, now, end);
    assert EndInv(pair, end, now.At(end), now.broken);
  }

  lemma BrokenStays(pair: Pair, r: Race, step: Step)
    requires Enabled(pair, r, step)
    ensures r.broken <= After(pair, r, step).broken
  {
  }

  /** A preferred session once held is held as long as it doesn't break: no cleanup of the session
      it replaced removes it, and no later registration replaces it. */
  lemma {:induction false} PreferredStays(pair: Pair, races: seq<Race>, steps: seq<Step>, j: nat, k: nat, end: End)
    requires Run(pair, races, steps) && j <= k < |races|
    requires Holds(pair, races[j], end, pair.Preferred()) && pair.Preferred() !in races[k].broken
    ensures Holds(pair, races[k], end, pair.Preferred())
  {
    if j < k {
      var was, step := races[k - 1], steps[k - 1];
      BrokenStays(pair, was, step);
      PreferredStays(pair, races, steps, j, k - 1, end);
      RunKeepsInv(pair, races, steps, k - 1);
      PreferredStep(pair, was, step, end);
    }
  }

  // ---- It does end ----

  function SessionWork(side: Side, s: Session): nat {
    if s !in side.wires then 0
    else
      match side.wires[s].phase
      case Pending => 4
      case Live => 1 + if s in side.node.outbox then |side.node.outbox[s]| else 0
      case Over => 0
  }

  function SideWork(pair: Pair, side: Side): nat {
    SessionWork(side, pair.Preferred()) + SessionWork(side, pair.Second())
  }

  /** How much is left to happen. */
  function Work(pair: Pair, r: Race): nat {
    SideWork(pair, r.low) + SideWork(pair, r.high) + |pair.dialed - r.broken|
  }

  lemma StartWork(pair: Pair, end: End, side: Side, s: Session)
    requires pair.Valid() && SideInv(pair, end, side) && s in side.wires && side.wires[s].phase == Pending
    ensures SideWork(pair, Started(pair, side, end, s)) < SideWork(pair, side)
  {
  }

  lemma WriteWork(pair: Pair, side: Side, s: Session)
    requires pair.Valid() && s in side.wires && side.wires[s].phase == Live && s in pair.dialed
    requires s in side.node.outbox && side.node.outbox[s] != []
    ensures SideWork(pair, Written(side, s)) < SideWork(pair, side)
  {
  }

  lemma OverWork(pair: Pair, end: End, side: Side, s: Session)
    requires pair.Valid() && s in side.wires && side.wires[s].phase != Over && s in pair.dialed
    ensures SideWork(pair, side.(wires := side.wires[s := Wire(Over, false)])) < SideWork(pair, side)
    ensures SideWork(pair, Side(Unregister(side.node, pair.Peer(end), s), side.wires[s := Wire(Over, false)]))
          < SideWork(pair, side)
  {
  }

  lemma MovedWork(pair: Pair, r: Race, step: Step)
    requires Inv(pair, r) && Enabled(pair, r, step) && !step.Breaks?
    ensures SideWork(pair, Moved(pair, r, step)) < SideWork(pair, r.At(step.end))
  {
    var end, s, side := step.end, step.s, r.At(step.end);
    assert EndInv(pair, end, side, r.broken);
    if step.Starts? {
      StartWork(pair, end, side, s);
    } else if step.Writes? {
      WriteWork(pair, side, s);
    } else {
      OverWork(pair, end, side, s);
    }
  }

  lemma BreakWork(dialed: set<Session>, broken: set<Session>, s: Session)
    requires s in dialed && s !in broken
    ensures |dialed - (broken + {s})| < |dialed - broken|
  {
    assert dialed - (broken + {s}) == dialed - broken - {s};
  }

  lemma StepWorks(pair: Pair, r: Race, step: Step)
    requires Inv(pair, r) && Enabled(pair, r, step)
    ensures Work(pair, After(pair, r, step)) < Work(pair, r)
  {
    if step.Breaks? {
      BreakWork(pair.dialed, r.broken, step.s);
    } else {
      MovedWork(pair, r, step);
      OneEndMoves(pair, r, step);
    }
  }

  lemma InitialWork(pair: Pair, r: Race)
    requires Initial(pair, r)
    ensures Work(pair, r) <= 18
  {
    SubsetSize(pair.dialed, {pair.Preferred(), pair.Second()});
    assert pair.dialed - r.broken == pair.dialed;
    assert SideWork(pair, r.low) <= 8 && SideWork(pair, r.high) <= 8;
  }

  lemma RunWork(pair: Pair, races: seq<Race>, steps: seq<Step>, k: nat)
    requires Run(pair, races, steps) && k < |steps|
    ensures Work(pair, races[k + 1]) < Work(pair, races[k])
  {
    RunKeepsInv(pair, races, steps, k);
    var was, step := races[k], steps[k];
    assert Enabled(pair, was, step);
    StepWorks(pair, was, step);
  }

  /** Every run is over after at most eighteen steps, so the two ends always settle. */
  lemma {:induction false} RacesEnd(pair: Pair, races: seq<Race>, steps: seq<Step>, k: nat)
    requires Run(pair, races, steps) && k < |races|
    ensures k + Work(pair, races[k]) <= 18
  {
    if k == 0 {
      InitialWork(pair, races[0]);
    } else {
      RacesEnd(pair, races, steps, k - 1);
      RunWork(pair, races, steps, k - 1);
    }
  }
}
