/** The life of the relay's sockets (`apps/relay/src/features/relay/routes.ts`): connecting,
    registering across an asynchronous token check, timing out, being replaced, forwarding frames
    and closing, in any order. A run is a sequence of events; what the relay sends is recorded. */
module RelayLifecycle {
  import opened Bytes
  import opened Registry
  import opened TunnelWire

  type Identifier = Registry.DeviceId

  const REPLACED_CLOSE_CODE := 4001
  const UNAUTHORIZED_CLOSE_CODE := 4401
  const AUTH_TIMEOUT_CLOSE_CODE := 4408

  /** `Closing` still receives; in `Closed` the close event has fired. */
  datatype Phase = Opened | Closing | Closed

  /** `pending` holds the device of every token check under way; `armed` says the registration timer
      may still fire. */
  datatype Sock = Sock(phase: Phase, authenticating: bool, pending: seq<Identifier>, armed: bool)

  datatype Relay = Relay(index: Indexes, socks: map<Socket, Sock>, next: nat)

  datatype Frame = Binary(bytes: seq<byte>) | BadJson | BadMessage | Register(device: Identifier)
                 | ListDevices | TestMessage(text: string)

  datatype Outcome = Verified(user: UserId) | Refused | Threw

  datatype Event = Opens(s: Socket) | Receives(s: Socket, frame: Frame)
                 | TokenResult(s: Socket, i: nat, outcome: Outcome)
                 | TimerFires(s: Socket) | StartsClosing(s: Socket) | CloseEvent(s: Socket)

  datatype ErrorCode = InvalidJson | InvalidMessage | InvalidFrame | Unauthorized | NotRegistered
                     | AlreadyRegistered | NoOtherDevices | InternalError

  datatype Reply = Error(code: ErrorCode) | Registered(user: UserId, device: Identifier) | Devices(ids: set<Identifier>)
                 | Delivery(user: UserId, device: Identifier, text: string) | Sent(recipients: nat)
                 | Tunnel(bytes: seq<byte>) | CloseWith(closeCode: nat)

  datatype Output = Output(to: Socket, what: Reply)

  const START := Relay(Indexes(map[], map[]), map[], 0)

  // ---- One step ----

  predicate Enabled(r: Relay, e: Event) {
    if e.Opens? then e.s !in r.socks
    else
      && e.s in r.socks
      && (e.Receives? || e.StartsClosing? || e.CloseEvent? ==> r.socks[e.s].phase != Closed)
      && (e.TokenResult? ==> e.i < |r.socks[e.s].pending|)
      && (e.TimerFires? ==> r.socks[e.s].armed)
  }

  /** Nothing is sent on a socket that isn't open. */
  function Send(r: Relay, to: Socket, what: Reply): set<Output> {
    if to in r.socks && r.socks[to].phase == Opened then {Output(to, what)} else {}
  }

  /** Closing a socket; one that isn't open is left alone. */
  function CloseSocket(socks: map<Socket, Sock>, s: Socket): map<Socket, Sock> {
    if s in socks && socks[s].phase == Opened then socks[s := socks[s].(phase := Closing)] else socks
  }

  /** The connected devices of `user`. */
  function UserDevices(index: Indexes, user: UserId): map<Identifier, Connection> {
    if user in index.users then index.users[user] else map[]
  }

  /** The other connected devices of the sender's user. */
  function Others(index: Indexes, c: Connection): set<Connection> {
    set d | d in UserDevices(index, c.user) && UserDevices(index, c.user)[d] != c :: UserDevices(index, c.user)[d]
  }

  function OnTunnelFrame(r: Relay, s: Socket, c: Connection, bytes: seq<byte>): set<Output> {
    match Route(c.device, d => Lookup(r.index, c.user, d).Some?, bytes)
    case Rejected => Send(r, s, Error(InvalidFrame))
    case Forwarded(to, out) => Send(r, Lookup(r.index, c.user, to).value.socket, Tunnel(out))
    case Answered(out) => Send(r, s, Tunnel(out))
    case Dropped => {}
  }

  function OnTestMessage(r: Relay, s: Socket, c: Connection, text: string): set<Output> {
    if Others(r.index, c) == {} then Send(r, s, Error(NoOtherDevices))
    else
      (set x, o | x in Others(r.index, c) && o in Send(r, x.socket, Delivery(c.user, c.device, text)) :: o)
      + Send(r, s, Sent(|Others(r.index, c)|))
  }

  /** What a verified token makes the relay send. */
  function Admitted(r: Relay, s: Socket, user: UserId, device: Identifier): set<Output>
    requires s in r.socks
  {
    if r.socks[s].phase != Opened then {}
    else if s in r.index.sockets then Send(r, s, Error(InternalError))
    else
      var was := Lookup(r.index, user, device);
      Send(r, s, Registered(user, device))
      + (if was.Some? then Send(r, was.value.socket, CloseWith(REPLACED_CLOSE_CODE)) else {})
  }

  function Outputs(r: Relay, e: Event): set<Output>
    requires Enabled(r, e)
  {
    match e
    case Opens(s) => {}
    case Receives(s, frame) =>
      (match BySocket(r.index, s)
       case None =>
         (match frame
          case BadJson => Send(r, s, Error(InvalidJson))
          case BadMessage => Send(r, s, Error(InvalidMessage))
          case Register(_) => if r.socks[s].authenticating then Send(r, s, Error(AlreadyRegistered)) else {}
          case _ => Send(r, s, Error(NotRegistered)))
       case Some(c) =>
         (match frame
          case Binary(bytes) => OnTunnelFrame(r, s, c, bytes)
          case BadJson => Send(r, s, Error(InvalidJson))
          case BadMessage => Send(r, s, Error(InvalidMessage))
          case Register(_) => Send(r, s, Error(AlreadyRegistered))
          case ListDevices => Send(r, s, Devices(set x | x in Others(r.index, c) :: x.device))
          case TestMessage(text) => OnTestMessage(r, s, c, text)))
    case TokenResult(s, i, outcome) =>
      (match outcome
       case Threw => Send(r, s, Error(InternalError))
       case Refused => Send(r, s, Error(Unauthorized)) + Send(r, s, CloseWith(UNAUTHORIZED_CLOSE_CODE))
       case Verified(user) => Admitted(r, s, user, r.socks[s].pending[i]))
    case TimerFires(s) => if s in r.index.sockets then {} else Send(r, s, CloseWith(AUTH_TIMEOUT_CLOSE_CODE))
    case StartsClosing(s) => {}
    case CloseEvent(s) => {}
  }

  /** The token check of `s` at position `i` is over. */
  function Checked(k: Sock, i: nat): Sock
    requires i < |k.pending|
  {
    k.(authenticating := false, pending := k.pending[..i] + k.pending[i + 1..])
  }

  /** A verified token registers the socket, unless it stopped being open meanwhile. */
  function Admit(r: Relay, s: Socket, user: UserId, device: Identifier): Relay
    requires s in r.socks
  {
    if r.socks[s].phase != Opened then r
    else
      var socks := r.socks[s := r.socks[s].(armed := false)];
      if s in r.index.sockets then r.(socks := socks)
      else
        var was := Lookup(r.index, user, device);
        Relay(Add(r.index, Connection(r.next, user, device, s)),
              if was.Some? then CloseSocket(socks, was.value.socket) else socks,
              r.next + 1)
  }

  function After(r: Relay, e: Event): Relay
    requires Enabled(r, e)
  {
    match e
    case Opens(s) => r.(socks := r.socks[s := Sock(Opened, false, [], true)])
    case Receives(s, frame) =>
      if frame.Register? && s !in r.index.sockets && !r.socks[s].authenticating
      then r.(socks := r.socks[s := r.socks[s].(authenticating := true,
          pending := r.socks[s].pending + [frame.device])])
      else r
    case TokenResult(s, i, outcome) =>
      var device := r.socks[s].pending[i];
      var r1 := r.(socks := r.socks[s := Checked(r.socks[s], i)]);
      (match outcome
       case Threw => r1
       case Refused => r1.(socks := CloseSocket(r1.socks, s))
       case Verified(user) => Admit(r1, s, user, device))
    case TimerFires(s) =>
      var r1 := r.(socks := r.socks[s := r.socks[s].(armed := false)]);
      if s in r.index.sockets then r1 else r1.(socks := CloseSocket(r1.socks, s))
    case StartsClosing(s) => r.(socks := CloseSocket(r.socks, s))
    case CloseEvent(s) =>
      var socks := r.socks[s := r.socks[s].(phase := Closed, armed := false)];
      Relay(if s in r.index.sockets then Remove(r.index, r.index.sockets[s]) else r.index, socks, r.next)
  }

  // ---- What every step keeps ----

  /** A socket in the registry is connected, past its token check, and has no timer left. An open
      socket that isn't registered still has its timer, so it can't stay that way. */
  ghost predicate SockInv(r: Relay, s: Socket)
    requires s in r.socks
  {
    var k := r.socks[s];
    && |k.pending| == (if k.authenticating then 1 else 0)
    && (s in r.index.sockets ==> k.phase != Closed && !k.authenticating && !k.armed)
    && (k.phase == Opened ==> (s in r.index.sockets <==> !k.armed))
  }

  ghost predicate Inv(r: Relay) {
    && Valid(r.index)
    && (forall s :: s in r.index.sockets ==> s in r.socks && r.index.sockets[s].serial < r.next)
    && (forall s :: s in r.socks ==> SockInv(r, s))
  }

  lemma AddedSockets(index: Indexes, c: Connection)
    requires Valid(index) && c.socket !in index.sockets
    ensures var was := Lookup(index, c.user, c.device);
      Add(index, c).sockets.Keys == index.sockets.Keys - (if was.Some? then {was.value.socket} else {}) + {c.socket}
    ensures forall s :: s in Add(index, c).sockets ==>
        Add(index, c).sockets[s] == c || (s in index.sockets && Add(index, c).sockets[s] == index.sockets[s])
  {
    var was := Lookup(index, c.user, c.device);
    assert Add(index, c).sockets
        == (if was.Some? then index.sockets - {was.value.socket} else index.sockets)[c.socket := c];
  }

  lemma AdmitKeepsInv(r: Relay, s: Socket, user: UserId, device: Identifier)
    requires Inv(r) && s in r.socks && !r.socks[s].authenticating && s !in r.index.sockets
    ensures Inv(Admit(r, s, user, device))
  {
    if r.socks[s].phase == Opened {
      var c := Connection(r.next, user, device, s);
      var r' := Admit(r, s, user, device);
      AddKeepsValid(r.index, c);
      AddedSockets(r.index, c);
      var was := Lookup(r.index, user, device);
      if was.Some? {
        assert Placed(r.index, user, device, was.value);
      }
      forall t | t in r'.socks ensures SockInv(r', t) {
        assert SockInv(r, t);
      }
    }
  }

  lemma CloseKeepsInv(r: Relay, s: Socket)
    requires Inv(r) && s in r.socks && r.socks[s].phase != Closed
    ensures Inv(After(r, CloseEvent(s)))
  {
    var r' := After(r, CloseEvent(s));
    if s in r.index.sockets {
      var c := r.index.sockets[s];
      assert Found(r.index, s, c);
      RemoveKeepsValid(r.index, c);
      assert r'.index.sockets == r.index.sockets - {s};
    }
    forall t | t in r'.socks ensures SockInv(r', t) {
      if t != s {
        assert SockInv(r, t);
      } else {
        assert SockInv(r, s);
      }
    }
  }

  lemma TokenKeepsInv(r: Relay, s: Socket, i: nat, outcome: Outcome)
    requires Inv(r) && Enabled(r, TokenResult(s, i, outcome))
    ensures Inv(After(r, TokenResult(s, i, outcome)))
  {
    var r1 := r.(socks := r.socks[s := Checked(r.socks[s], i)]);
    assert SockInv(r, s);
    forall t | t in r1.socks ensures SockInv(r1, t) {
      assert SockInv(r, t);
    }
    match outcome
    case Threw =>
    case Refused =>
      CloseSocketKeepsInv(r1, s);
    case Verified(user) =>
      AdmitKeepsInv(r1, s, user, r.socks[s].pending[i]);
  }

  lemma CloseSocketKeepsInv(r: Relay, s: Socket)
    requires Inv(r)
    ensures Inv(r.(socks := CloseSocket(r.socks, s)))
  {
    var r' := r.(socks := CloseSocket(r.socks, s));
    forall t | t in r'.socks ensures SockInv(r', t) {
      assert SockInv(r, t);
    }
  }

  lemma TimerKeepsInv(r: Relay, s: Socket)
    requires Inv(r) && Enabled(r, TimerFires(s))
    ensures Inv(After(r, TimerFires(s)))
  {
    var r' := After(r, TimerFires(s));
    forall t | t in r'.socks ensures SockInv(r', t) {
      assert SockInv(r, t);
    }
  }

  lemma StepKeepsInv(r: Relay, e: Event)
    requires Inv(r) && Enabled(r, e)
    ensures Inv(After(r, e))
  {
    match e
    case TokenResult(s, i, outcome) =>
      TokenKeepsInv(r, s, i, outcome);
    case TimerFires(s) =>
      TimerKeepsInv(r, s);
    case StartsClosing(s) =>
      CloseSocketKeepsInv(r, s);
    case CloseEvent(s) =>
      CloseKeepsInv(r, s);
    case _ =>
      var r' := After(r, e);
      forall t | t in r'.socks ensures SockInv(r', t) {
        if t in r.socks {
          assert SockInv(r, t);
        }
      }
  }

  // ---- Runs ----

  datatype Entry = Entry(event: Event, outputs: set<Output>)

  ghost predicate Possible(es: seq<Event>)
    decreases |es|, 0
  {
    es == [] || (Possible(es[..|es| - 1]) && Enabled(Final(es[..|es| - 1]), es[|es| - 1]))
  }

  ghost function Final(es: seq<Event>): Relay
    requires Possible(es)
    decreases |es|, 1
  {
    if es == [] then START else After(Final(es[..|es| - 1]), es[|es| - 1])
  }

  /** What happened and what the relay sent, in order. */
  ghost function History(es: seq<Event>): (h: seq<Entry>)
    requires Possible(es)
    ensures |h| == |es|
    decreases |es|, 2
  {
    if es == [] then []
    else History(es[..|es| - 1]) + [Entry(es[|es| - 1], Outputs(Final(es[..|es| - 1]), es[|es| - 1]))]
  }

  lemma {:induction false} RunKeepsInv(es: seq<Event>)
    requires Possible(es)
    ensures Inv(Final(es))
  {
    if es != [] {
      RunKeepsInv(es[..|es| - 1]);
      StepKeepsInv(Final(es[..|es| - 1]), es[|es| - 1]);
    }
  }
}
