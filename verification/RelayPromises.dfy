/** What devices can rely on over every run of the relay, stated by what they were sent: a socket
    stands for a device of a user from the moment it is told so until its close event or until
    another socket is told the same, and nothing crosses from one user to another. */
module RelayPromises {
  import opened Bytes
  import opened Wrappers
  import opened Registry
  import opened TunnelWire
  import opened RelayLifecycle

  /** `e` told its socket that it is registered as `device` of `user`. */
  ghost predicate Tells(e: Entry, user: UserId, device: Identifier) {
    e.event.TokenResult? && Output(e.event.s, Registered(user, device)) in e.outputs
  }

  /** The socket standing for a device after a history: the last one told so, until it closes. */
  ghost function Holder(h: seq<Entry>, user: UserId, device: Identifier): Option<Socket> {
    if h == [] then None
    else HolderAfter(Holder(h[..|h| - 1], user, device), h[|h| - 1], user, device)
  }

  ghost function HolderAfter(before: Option<Socket>, e: Entry, user: UserId, device: Identifier): Option<Socket> {
    if Tells(e, user, device) then Some(e.event.s)
    else if e.event.CloseEvent? && before == Some(e.event.s) then None
    else before
  }

  ghost function SocketOf(r: Relay, user: UserId, device: seq<byte>): Option<Socket> {
    match Lookup(r.index, user, device)
    case None => None
    case Some(c) => Some(c.socket)
  }

  // ---- One step ----

  lemma TellsIff(r: Relay, e: Event, user: UserId, device: Identifier)
    requires Inv(r) && Enabled(r, e)
    ensures Tells(Entry(e, Outputs(r, e)), user, device) <==>
            e.TokenResult? && e.outcome == Verified(user) && r.socks[e.s].phase == Opened
                && r.socks[e.s].pending[e.i] == device
  {
    if e.TokenResult? {
      assert SockInv(r, e.s);
    }
  }

  lemma CloseHolder(r: Relay, s: Socket, user: UserId, device: Identifier)
    requires Inv(r) && Enabled(r, CloseEvent(s))
    ensures SocketOf(After(r, CloseEvent(s)), user, device)
         == if SocketOf(r, user, device) == Some(s) then None else SocketOf(r, user, device)
  {
    var x := Lookup(r.index, user, device);
    if x.Some? {
      assert Placed(r.index, user, device, x.value);
    }
    if s in r.index.sockets {
      assert Found(r.index, s, r.index.sockets[s]);
      RemoveLookup(r.index, r.index.sockets[s], user, device);
    }
  }

  lemma TokenHolder(r: Relay, s: Socket, i: nat, outcome: Outcome, user: UserId, device: Identifier)
    requires Inv(r) && Enabled(r, TokenResult(s, i, outcome))
    ensures var e := TokenResult(s, i, outcome);
      SocketOf(After(r, e), user, device)
      == if Tells(Entry(e, Outputs(r, e)), user, device) then Some(s) else SocketOf(r, user, device)
  {
    TellsIff(r, TokenResult(s, i, outcome), user, device);
    assert SockInv(r, s);
    if outcome.Verified? && r.socks[s].phase == Opened {
      AddLookup(r.index, Connection(r.next, outcome.user, r.socks[s].pending[i], s), user, device);
    }
  }

  lemma StepHolder(r: Relay, e: Event, user: UserId, device: Identifier)
    requires Inv(r) && Enabled(r, e)
    ensures SocketOf(After(r, e), user, device)
        == HolderAfter(SocketOf(r, user, device), Entry(e, Outputs(r, e)), user, device)
  {
    match e
    case TokenResult(s, i, outcome) =>
      TokenHolder(r, s, i, outcome, user, device);
    case CloseEvent(s) =>
      CloseHolder(r, s, user, device);
    case _ =>
  }

  // ---- Whole runs ----

  /** The two indexes always stand for exactly the map from each user's device to the socket that
      was last told it registered as it and hasn't closed. */
  lemma {:induction false} RegistryIsWhatDevicesWereTold(es: seq<Event>, user: UserId, device: Identifier)
    requires Possible(es)
    ensures Valid(Final(es).index)
    ensures SocketOf(Final(es), user, device) == Holder(History(es), user, device)
  {
    RunKeepsInv(es);
    if es != [] {
      var init := es[..|es| - 1];
      RunKeepsInv(init);
      RegistryIsWhatDevicesWereTold(init, user, device);
      StepHolder(Final(init), es[|es| - 1], user, device);
      assert History(es)[..|es| - 1] == History(init);
    }
  }

  /** The history of a prefix is a prefix of the history. */
  lemma {:induction false} HistoryPrefix(es: seq<Event>, k: nat)
    requires Possible(es) && k <= |es|
    ensures Possible(es[..k]) && History(es)[..k] == History(es[..k])
    ensures k < |es| ==>
        Enabled(Final(es[..k]), es[k]) && History(es)[k] == Entry(es[k], Outputs(Final(es[..k]), es[k]))
  {
    if k == |es| {
      assert es[..k] == es;
    } else {
      var init := es[..|es| - 1];
      HistoryPrefix(init, k);
      assert init[..k] == es[..k];
      if k < |es| - 1 {
        assert init[k] == es[k];
      }
    }
  }

  /** Once told it is registered, a socket is registered until it is no longer open. */
  lemma {:induction false} ToldStaysRegistered(es: seq<Event>, k: nat, user: UserId, device: Identifier)
    requires Possible(es) && k < |es| && Tells(History(es)[k], user, device)
    ensures es[k].s in Final(es).socks
        && (Final(es).socks[es[k].s].phase == Opened ==> es[k].s in Final(es).index.sockets)
  {
    var init := es[..|es| - 1];
    RunKeepsInv(init);
    HistoryPrefix(es, k);
    var r, e := Final(init), es[|es| - 1];
    if k < |init| {
      ToldStaysRegistered(init, k, user, device);
      assert init[k] == es[k];
      OpenStaysRegistered(r, e, es[k].s);
    } else {
      TellsIff(r, e, user, device);
      assert SockInv(r, e.s);
    }
  }

  lemma OpenStaysRegistered(r: Relay, e: Event, s: Socket)
    requires Inv(r) && Enabled(r, e) && s in r.socks && (r.socks[s].phase == Opened ==> s in r.index.sockets)
    ensures s in After(r, e).socks && (After(r, e).socks[s].phase == Opened ==> s in After(r, e).index.sockets)
  {
    match e
    case TokenResult(t, i, outcome) =>
      assert SockInv(r, t);
      if outcome.Verified? && r.socks[t].phase == Opened {
        AddedSockets(r.index, Connection(r.next, outcome.user, r.socks[t].pending[i], t));
      }
    case _ =>
  }

  /** A socket is told it registered at most once in its life, so it never stands for two devices. */
  lemma RegistersAtMostOnce(es: seq<Event>, j: nat, k: nat, u: UserId, d: Identifier, v: UserId, f: Identifier)
    requires Possible(es) && j < k < |es|
    requires Tells(History(es)[j], u, d) && Tells(History(es)[k], v, f)
    ensures es[j].s != es[k].s
  {
    HistoryPrefix(es, k);
    HistoryPrefix(es, j);
    var pre := es[..k];
    assert History(pre)[j] == History(es)[..k][j] == History(es)[j];
    assert pre[j] == es[j];
    ToldStaysRegistered(pre, j, u, d);
    RunKeepsInv(pre);
    TellsIff(Final(pre), es[k], v, f);
    assert SockInv(Final(pre), es[k].s);
  }

  lemma PendingStep(r: Relay, e: Event, s: Socket, d: Identifier)
    requires Enabled(r, e) && s in After(r, e).socks && d in After(r, e).socks[s].pending
    ensures e == Receives(s, Register(d)) || (s in r.socks && d in r.socks[s].pending)
  {
  }

  lemma {:induction false} PendingWasAsked(es: seq<Event>, s: Socket, d: Identifier)
    requires Possible(es) && s in Final(es).socks && d in Final(es).socks[s].pending
    ensures Receives(s, Register(d)) in es
  {
    var init := es[..|es| - 1];
    PendingStep(Final(init), es[|es| - 1], s, d);
    if es[|es| - 1] != Receives(s, Register(d)) {
      PendingWasAsked(init, s, d);
    }
  }

  /** Who a socket is told it is: the user its token was verified for, and a device it asked for. */
  lemma ToldAsVerified(es: seq<Event>, k: nat, user: UserId, device: Identifier)
    requires Possible(es) && k < |es| && Tells(History(es)[k], user, device)
    ensures es[k].TokenResult? && es[k].outcome == Verified(user)
    ensures Receives(es[k].s, Register(device)) in es[..k]
  {
    HistoryPrefix(es, k);
    RunKeepsInv(es[..k]);
    TellsIff(Final(es[..k]), es[k], user, device);
    PendingWasAsked(es[..k], es[k].s, device);
  }

  /** The registration timer never closes a registered socket, an open socket is registered unless
      its timer is still armed. */
  lemma TimersCloseOnlyStrangers(es: seq<Event>, s: Socket)
    requires Possible(es) && s in Final(es).socks && Final(es).socks[s].phase == Opened
    ensures (exists u, d: Identifier :: Holder(History(es), u, d) == Some(s)) <==> !Final(es).socks[s].armed
  {
    RunKeepsInv(es);
    var r := Final(es);
    assert SockInv(r, s);
    if s in r.index.sockets {
      var c := r.index.sockets[s];
      assert Found(r.index, s, c);
      RegistryIsWhatDevicesWereTold(es, c.user, c.device);
      assert Holder(History(es), c.user, c.device) == Some(s);
    }
    forall u, d: Identifier | Holder(History(es), u, d) == Some(s) ensures s in r.index.sockets {
      RegistryIsWhatDevicesWereTold(es, u, d);
      assert Placed(r.index, u, d, Lookup(r.index, u, d).value);
    }
  }

  /** A socket whose message is `e` didn't hit the error path of the handler. */
  lemma NoInternalError(r: Relay, e: Event, to: Socket)
    requires Inv(r) && Enabled(r, e) && (e.TokenResult? ==> e.outcome != Threw)
    ensures Output(to, Error(InternalError)) !in Outputs(r, e)
  {
    match e
    case Receives(s, frame) =>
    case TokenResult(s, i, outcome) =>
      assert SockInv(r, s);
    case _ =>
  }

  /** The relay reports an internal error only when the token check itself failed: registering never
      finds the socket registered already. */
  lemma InternalErrorsAreTheVerifiers(es: seq<Event>, k: nat, to: Socket)
    requires Possible(es) && k < |es| && Output(to, Error(InternalError)) in History(es)[k].outputs
    ensures es[k].TokenResult? && es[k].outcome == Threw
  {
    HistoryPrefix(es, k);
    RunKeepsInv(es[..k]);
    if !(es[k].TokenResult? && es[k].outcome == Threw) {
      NoInternalError(Final(es[..k]), es[k], to);
    }
  }

  // ---- Isolation ----

  lemma Sender(es: seq<Event>, s: Socket, user: UserId, device: Identifier) returns (c: Connection)
    requires Possible(es) && Holder(History(es), user, device) == Some(s)
    ensures Inv(Final(es)) && s in Final(es).socks && c.user == user && c.device == device && c.socket == s
    ensures Lookup(Final(es).index, user, device) == Some(c) && BySocket(Final(es).index, s) == Some(c)
  {
    RunKeepsInv(es);
    RegistryIsWhatDevicesWereTold(es, user, device);
    c := Lookup(Final(es).index, user, device).value;
    assert Placed(Final(es).index, user, device, c);
  }

  lemma HolderOfSocket(es: seq<Event>, s: Socket)
    requires Possible(es) && s in Final(es).index.sockets
    ensures var c := Final(es).index.sockets[s]; c.socket == s && Holder(History(es), c.user, c.device) == Some(s)
    ensures var c := Final(es).index.sockets[s]; Lookup(Final(es).index, c.user, c.device) == Some(c)
  {
    RunKeepsInv(es);
    var c := Final(es).index.sockets[s];
    assert Found(Final(es).index, s, c);
    RegistryIsWhatDevicesWereTold(es, c.user, c.device);
  }

  /** Only a binary frame from a registered socket makes the relay send one. */
  lemma TunnelOutputs(r: Relay, e: Event, to: Socket, out: seq<byte>)
    requires Inv(r) && Enabled(r, e) && Output(to, Tunnel(out)) in Outputs(r, e)
    ensures e.Receives? && e.frame.Binary? && e.s in r.index.sockets
    ensures Output(to, Tunnel(out)) in OnTunnelFrame(r, e.s, r.index.sockets[e.s], e.frame.bytes)
  {
  }

  lemma TunnelRoute(r: Relay, s: Socket, c: Connection, bytes: seq<byte>, to: Socket, out: seq<byte>)
    requires Output(to, Tunnel(out)) in OnTunnelFrame(r, s, c, bytes)
    ensures ParseFrame(bytes).Some?
    ensures var f := ParseFrame(bytes).value;
      if Lookup(r.index, c.user, f.deviceId).Some?
      then to == Lookup(r.index, c.user, f.deviceId).value.socket && f.deviceId != c.device
           && ParseFrame(out) == Some(f.(deviceId := c.device))
      else to == s && f.kind != KIND_CLOSE && ParseFrame(out) == Some(Undeliverable(f))
  {
    var connected := d => Lookup(r.index, c.user, d).Some?;
    assert ParseFrame(bytes).Some?;
    var f := ParseFrame(bytes).value;
    if connected(f.deviceId) {
      RelayReadsBack(f.(deviceId := c.device));
    } else if f.kind != KIND_CLOSE {
      RelayReadsBack(Undeliverable(f));
    }
  }

  /** A frame `out` that goes to `to` because `from`, standing for `device` of `user`, sent `f`. */
  ghost predicate Routed(h: seq<Entry>, from: Socket, user: UserId, device: Identifier, f: TunnelFrame, to: Socket,
                         out: seq<byte>)
    requires ValidFrame(f)
  {
    && Holder(h, user, device) == Some(from)
    && if Holder(h, user, f.deviceId).Some?
       then Holder(h, user, f.deviceId) == Some(to) && f.deviceId != device
           && ParseFrame(out) == Some(f.(deviceId := device))
       else to == from && f.kind != KIND_CLOSE && ParseFrame(out) == Some(Undeliverable(f))
  }

  /** The relay's own answer to an undeliverable frame reaches the socket that sent it; every other
      tunnel frame it sends reaches the socket standing for the device the frame names, in the user
      of the socket that sent it, and carries the name that socket stands for and nothing else
      changed. */
  lemma TunnelFramesStayWithinAUser(es: seq<Event>, k: nat, to: Socket, out: seq<byte>)
    requires Possible(es) && k < |es| && Output(to, Tunnel(out)) in History(es)[k].outputs
    ensures es[k].Receives? && es[k].frame.Binary? && ParseFrame(es[k].frame.bytes).Some?
    ensures exists user, device: Identifier ::
      Routed(History(es)[..k], es[k].s, user, device, ParseFrame(es[k].frame.bytes).value, to, out)
  {
    HistoryPrefix(es, k);
    var pre, e := es[..k], es[k];
    var r := Final(pre);
    RunKeepsInv(pre);
    TunnelOutputs(r, e, to, out);
    var c := r.index.sockets[e.s];
    TunnelRoute(r, e.s, c, e.frame.bytes, to, out);
    var f := ParseFrame(e.frame.bytes).value;
    HolderOfSocket(pre, e.s);
    RegistryIsWhatDevicesWereTold(pre, c.user, f.deviceId);
    assert Routed(History(pre), e.s, c.user, c.device, f, to, out);
  }

  /** `to` stands for some device of `user` and is open. */
  ghost predicate Reaches(es: seq<Event>, user: UserId, to: Socket)
    requires Possible(es)
  {
    && to in Final(es).socks && Final(es).socks[to].phase == Opened
    && exists other: Identifier :: Holder(History(es), user, other) == Some(to)
  }

  lemma ReachesIff(es: seq<Event>, user: UserId, to: Socket)
    requires Possible(es)
    ensures Reaches(es, user, to) <==> to in Final(es).socks && Final(es).socks[to].phase == Opened
                                       && to in Final(es).index.sockets && Final(es).index.sockets[to].user == user
  {
    RunKeepsInv(es);
    var r := Final(es);
    if to in r.index.sockets {
      HolderOfSocket(es, to);
    }
    if Reaches(es, user, to) {
      var other: Identifier :| Holder(History(es), user, other) == Some(to);
      RegistryIsWhatDevicesWereTold(es, user, other);
      assert Placed(r.index, user, other, Lookup(r.index, user, other).value);
    }
  }

  lemma OthersAre(r: Relay, c: Connection, x: Connection)
    requires Inv(r) && Lookup(r.index, c.user, c.device) == Some(c)
    ensures x in Others(r.index, c) <==>
        x.socket in r.index.sockets && r.index.sockets[x.socket] == x && x.user == c.user && x != c
  {
    if x in Others(r.index, c) {
      var d: Identifier :| d in UserDevices(r.index, c.user) && UserDevices(r.index, c.user)[d] == x;
      assert Lookup(r.index, c.user, d) == Some(x);
      assert Placed(r.index, c.user, d, x);
    }
    if x.socket in r.index.sockets && r.index.sockets[x.socket] == x && x.user == c.user && x != c {
      assert Found(r.index, x.socket, x);
      assert x.device in UserDevices(r.index, c.user);
    }
  }

  lemma TestOutputs(r: Relay, s: Socket, c: Connection, to: Socket, text: string)
    requires Inv(r) && BySocket(r.index, s) == Some(c)
    ensures Output(to, Delivery(c.user, c.device, text)) in OnTestMessage(r, s, c, text) <==>
            to != s && to in r.index.sockets && r.index.sockets[to].user == c.user && r.socks[to].phase == Opened
  {
    assert Found(r.index, s, c);
    var o := Output(to, Delivery(c.user, c.device, text));
    if o in OnTestMessage(r, s, c, text) {
      var x :| x in Others(r.index, c) && o in Send(r, x.socket, o.what);
      OthersAre(r, c, x);
    }
    if to != s && to in r.index.sockets && r.index.sockets[to].user == c.user && r.socks[to].phase == Opened {
      var x := r.index.sockets[to];
      assert Found(r.index, to, x);
      OthersAre(r, c, x);
      assert o in Send(r, x.socket, o.what);
    }
  }

  /** A test message is delivered in the name the sending socket stands for, to every other open
      socket standing for a device of that user and to no other socket. */
  lemma TestMessagesStayWithinAUser(es: seq<Event>, k: nat, to: Socket, user: UserId, device: Identifier, text: string)
    requires Possible(es) && k < |es| && es[k] == Receives(es[k].s, TestMessage(text))
    requires Holder(History(es)[..k], user, device) == Some(es[k].s)
    ensures Possible(es[..k])
    ensures Output(to, Delivery(user, device, text)) in History(es)[k].outputs <==>
        to != es[k].s && Reaches(es[..k], user, to)
  {
    HistoryPrefix(es, k);
    var pre := es[..k];
    var r, s := Final(pre), es[k].s;
    RunKeepsInv(pre);
    RegistryIsWhatDevicesWereTold(pre, user, device);
    var c := Lookup(r.index, user, device).value;
    assert Placed(r.index, user, device, c);
    assert History(es)[k].outputs == OnTestMessage(r, s, c, text);
    ReachesIff(pre, user, to);
    TestOutputs(r, s, c, to, text);
  }

  lemma OtherDevices(r: Relay, c: Connection, d: Identifier)
    requires Inv(r) && Lookup(r.index, c.user, c.device) == Some(c)
    ensures d in (set x | x in Others(r.index, c) :: x.device) <==> d != c.device && Lookup(r.index, c.user, d).Some?
  {
    forall x | x in Others(r.index, c) ensures x.device != c.device && Lookup(r.index, c.user, x.device) == Some(x) {
      OthersAre(r, c, x);
      assert Found(r.index, x.socket, x);
    }
    if d != c.device && Lookup(r.index, c.user, d).Some? {
      var x := Lookup(r.index, c.user, d).value;
      assert Placed(r.index, c.user, d, x);
      OthersAre(r, c, x);
    }
  }

  lemma ListingOutputs(r: Relay, s: Socket, c: Connection, to: Socket, ids: set<Identifier>)
    requires Enabled(r, Receives(s, ListDevices)) && BySocket(r.index, s) == Some(c)
    requires Output(to, Devices(ids)) in Outputs(r, Receives(s, ListDevices))
    ensures to == s && ids == set x | x in Others(r.index, c) :: x.device
  {
  }

  /** Asking for the devices lists exactly the other devices of that user a socket stands for. */
  lemma DevicesListedAreStoodFor(es: seq<Event>, k: nat, user: UserId, device: Identifier, to: Socket,
                                 ids: set<Identifier>, d: Identifier)
    requires Possible(es) && k < |es| && es[k] == Receives(es[k].s, ListDevices)
    requires Holder(History(es)[..k], user, device) == Some(es[k].s)
    requires Output(to, Devices(ids)) in History(es)[k].outputs
    ensures to == es[k].s
    ensures d in ids <==> d != device && Holder(History(es)[..k], user, d).Some?
  {
    HistoryPrefix(es, k);
    var pre := es[..k];
    var c := Sender(pre, es[k].s, user, device);
    RegistryIsWhatDevicesWereTold(pre, user, d);
    ListingOutputs(Final(pre), es[k].s, c, to, ids);
    OtherDevices(Final(pre), c, d);
  }

  /** When a socket comes to stand for a device, the socket that stood for it is told why it closes,
      if it was open, and is not open from then on. */
  lemma ReplacedIsClosed(es: seq<Event>, k: nat, user: UserId, device: Identifier, t: Socket)
    requires Possible(es) && k < |es| && Tells(History(es)[k], user, device)
    requires Holder(History(es)[..k], user, device) == Some(t)
    ensures Possible(es[..k]) && Possible(es[..k + 1])
    ensures t != es[k].s && t in Final(es[..k]).socks && t in Final(es[..k + 1]).socks
    ensures Final(es[..k]).socks[t].phase == Opened <==>
        Output(t, CloseWith(REPLACED_CLOSE_CODE)) in History(es)[k].outputs
    ensures Final(es[..k + 1]).socks[t].phase != Opened
  {
    HistoryPrefix(es, k);
    HistoryPrefix(es, k + 1);
    var pre := es[..k];
    var r := Final(pre);
    RunKeepsInv(pre);
    RegistryIsWhatDevicesWereTold(pre, user, device);
    assert Placed(r.index, user, device, Lookup(r.index, user, device).value);
    TellsIff(r, es[k], user, device);
    assert es[..k + 1][..k] == pre && es[..k + 1][k] == es[k];
    assert SockInv(r, es[k].s);
    ReplacingCloses(r, es[k], t);
  }

  lemma ReplacingCloses(r: Relay, e: Event, t: Socket)
    requires Inv(r) && Enabled(r, e) && e.TokenResult? && e.outcome.Verified? && r.socks[e.s].phase == Opened
    requires SocketOf(r, e.outcome.user, r.socks[e.s].pending[e.i]) == Some(t) && t != e.s && t in r.socks
    ensures r.socks[t].phase == Opened <==> Output(t, CloseWith(REPLACED_CLOSE_CODE)) in Outputs(r, e)
    ensures t in After(r, e).socks && After(r, e).socks[t].phase != Opened
  {
    assert SockInv(r, e.s);
  }
}
