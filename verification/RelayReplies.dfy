/** Everything the relay sends (`apps/relay/src/features/relay/routes.ts`), event by event, over every
    run and in terms of what devices were told before; and exactly when a socket stops being open. */
module RelayReplies {
  import opened Bytes
  import opened Wrappers
  import opened Registry
  import opened TunnelWire
  import opened RelayLifecycle
  import opened RelayPromises

  predicate OpenIn(r: Relay, s: Socket) {
    s in r.socks && r.socks[s].phase == Opened
  }

  ghost predicate IsOpen(es: seq<Event>, s: Socket)
    requires Possible(es)
  {
    OpenIn(Final(es), s)
  }

  /** What is sent on one socket: nothing once it is not open any more. */
  ghost function To(es: seq<Event>, s: Socket, what: Reply): set<Output>
    requires Possible(es)
  {
    if IsOpen(es, s) then {Output(s, what)} else {}
  }

  /** `s` stands for a device. */
  ghost predicate Stands(h: seq<Entry>, s: Socket) {
    exists user, device: Identifier :: Holder(h, user, device) == Some(s)
  }

  /** A registration of `s` is waiting for its token check. */
  ghost predicate Waits(es: seq<Event>, s: Socket)
    requires Possible(es)
    decreases |es|
  {
    es != [] &&
    var init, e := es[..|es| - 1], es[|es| - 1];
    if e.s != s then Waits(init, s)
    else if e.Receives? && e.frame.Register? then Waits(init, s) || !Stands(History(init), s)
    else !e.Opens? && !e.TokenResult? && Waits(init, s)
  }

  // ---- Who a socket is ----

  lemma StandsIff(es: seq<Event>, s: Socket)
    requires Possible(es)
    ensures Stands(History(es), s) <==> s in Final(es).index.sockets
  {
    if s in Final(es).index.sockets {
      HolderOfSocket(es, s);
    }
    if Stands(History(es), s) {
      var user, device: Identifier :| Holder(History(es), user, device) == Some(s);
      var c := Sender(es, s, user, device);
    }
  }

  lemma {:induction false} WaitsIff(es: seq<Event>, s: Socket)
    requires Possible(es)
    ensures Waits(es, s) <==> s in Final(es).socks && Final(es).socks[s].authenticating
  {
    RunKeepsInv(es);
    if es != [] {
      var init := es[..|es| - 1];
      WaitsIff(init, s);
      StandsIff(init, s);
      RunKeepsInv(init);
      WaitsStep(Final(init), es[|es| - 1], s);
    }
  }

  lemma WaitsStep(r: Relay, e: Event, s: Socket)
    requires Inv(r) && Enabled(r, e)
    ensures var (now, was) := (s in After(r, e).socks && After(r, e).socks[s].authenticating,
          s in r.socks && r.socks[s].authenticating);
      now <==>
      if e.s != s then was
      else if e.Receives? && e.frame.Register? then was || s !in r.index.sockets
      else !e.Opens? && !e.TokenResult? && was
  {
    match e
    case TokenResult(t, i, outcome) => assert SockInv(r, t);
    case _ =>
  }

  // ---- Tunnel frames ----

  /** A binary frame of the socket standing for `device` of `user`. One that is no frame or names the
      sender is refused; one for a device a socket stands for goes there, if that is open, with
      the sender's name put in; and one for any other is answered with a close, unless it is one. */
  lemma TunnelFramesGo(es: seq<Event>, k: nat, user: UserId, device: Identifier, bytes: seq<byte>)
    requires Possible(es) && k < |es| && es[k] == Receives(es[k].s, Binary(bytes))
    requires Holder(History(es)[..k], user, device) == Some(es[k].s)
    ensures Possible(es[..k])
    ensures var (pre, h, s, sent) := (es[..k], History(es)[..k], es[k].s, History(es)[k].outputs);
      match ParseFrame(bytes)
      case None => sent == To(pre, s, Error(InvalidFrame))
      case Some(f) =>
        if f.deviceId == device then sent == To(pre, s, Error(InvalidFrame))
        else match Holder(h, user, f.deviceId)
          case Some(t) =>
            var out := RelayEncode(f.(deviceId := device));
            sent == To(pre, t, Tunnel(out)) && ParseFrame(out) == Some(f.(deviceId := device))
          case None =>
            var out := RelayEncode(Undeliverable(f));
            sent == (if f.kind == KIND_CLOSE then {} else To(pre, s, Tunnel(out)))
                && ParseFrame(out) == Some(Undeliverable(f))
  {
    HistoryPrefix(es, k);
    var pre := es[..k];
    var c := Sender(pre, es[k].s, user, device);
    assert History(es)[k].outputs == OnTunnelFrame(Final(pre), es[k].s, c, bytes);
    if ParseFrame(bytes).Some? {
      var f := ParseFrame(bytes).value;
      RegistryIsWhatDevicesWereTold(pre, user, f.deviceId);
      RelayReadsBack(f.(deviceId := device));
      RelayReadsBack(Undeliverable(f));
    }
  }

  // ---- Other messages of a registered socket ----

  lemma DevicesOf(es: seq<Event>, user: UserId, device: Identifier, c: Connection) returns (ids: set<Identifier>)
    requires Possible(es) && Inv(Final(es)) && c.user == user && c.device == device
    requires Lookup(Final(es).index, user, device) == Some(c)
    ensures ids == set x | x in Others(Final(es).index, c) :: x.device
    ensures forall d: Identifier :: d in ids <==> d != device && Holder(History(es), user, d).Some?
    ensures forall x :: x in Others(Final(es).index, c) ==> Holder(History(es), user, x.device) == Some(x.socket)
    ensures |ids| == |Others(Final(es).index, c)|
  {
    var r := Final(es);
    ids := set x | x in Others(r.index, c) :: x.device;
    forall d: Identifier ensures d in ids <==> d != device && Holder(History(es), user, d).Some? {
      OtherDevices(r, c, d);
      RegistryIsWhatDevicesWereTold(es, user, d);
    }
    forall x | x in Others(r.index, c)
      ensures Lookup(r.index, user, x.device) == Some(x) && Holder(History(es), user, x.device) == Some(x.socket)
    {
      OthersAre(r, c, x);
      assert Found(r.index, x.socket, x);
      RegistryIsWhatDevicesWereTold(es, user, x.device);
    }
    SameSize(Others(r.index, c), ids);
  }

  lemma {:induction false} SameSize(cs: set<Connection>, ids: set<Identifier>)
    requires ids == set x | x in cs :: x.device
    requires forall x, y :: x in cs && y in cs && x.device == y.device ==> x == y
    ensures |ids| == |cs|
    decreases |cs|
  {
    if cs != {} {
      var x :| x in cs;
      assert ids - {x.device} == set y | y in cs - {x} :: y.device;
      SameSize(cs - {x}, ids - {x.device});
    }
  }

  /** A request for the devices is answered, with exactly the other devices of that user a socket
      stands for. */
  lemma DevicesAreListed(es: seq<Event>, k: nat, user: UserId, device: Identifier) returns (ids: set<Identifier>)
    requires Possible(es) && k < |es| && es[k] == Receives(es[k].s, ListDevices)
    requires Holder(History(es)[..k], user, device) == Some(es[k].s)
    ensures Possible(es[..k])
    ensures forall d: Identifier :: d in ids <==> d != device && Holder(History(es)[..k], user, d).Some?
    ensures History(es)[k].outputs == To(es[..k], es[k].s, Devices(ids))
  {
    HistoryPrefix(es, k);
    var c := Sender(es[..k], es[k].s, user, device);
    ids := DevicesOf(es[..k], user, device, c);
  }

  /** `o` sends `what` on the socket standing for one of the devices `ids`. */
  ghost predicate SentToOne(es: seq<Event>, user: UserId, ids: set<Identifier>, what: Reply, o: Output)
    requires Possible(es)
  {
    exists d: Identifier :: d in ids && Holder(History(es), user, d).Some?
      && o in To(es, Holder(History(es), user, d).value, what)
  }

  lemma OneOfOthers(es: seq<Event>, user: UserId, others: set<Connection>, x: Connection, ids: set<Identifier>,
                    what: Reply, o: Output)
    requires Possible(es) && x in others && x.device in ids
    requires Holder(History(es), user, x.device) == Some(x.socket) && o in Send(Final(es), x.socket, what)
    ensures SentToOne(es, user, ids, what, o)
  {
  }

  lemma OtherOfIds(es: seq<Event>, user: UserId, others: set<Connection>, ids: set<Identifier>, what: Reply, o: Output)
    returns (x: Connection)
    requires Possible(es) && ids == set y | y in others :: y.device
    requires forall y :: y in others ==> Holder(History(es), user, y.device) == Some(y.socket)
    requires SentToOne(es, user, ids, what, o)
    ensures x in others && o in Send(Final(es), x.socket, what)
  {
    var d: Identifier :| d in ids && Holder(History(es), user, d).Some?
      && o in To(es, Holder(History(es), user, d).value, what);
    x :| x in others && x.device == d;
  }

  lemma SentToOneIff(es: seq<Event>, user: UserId, device: Identifier, c: Connection, ids: set<Identifier>, what: Reply,
                     o: Output)
    requires Possible(es) && Inv(Final(es)) && c.user == user && c.device == device
    requires ids == set x | x in Others(Final(es).index, c) :: x.device
    requires forall x :: x in Others(Final(es).index, c) ==> Holder(History(es), user, x.device) == Some(x.socket)
    ensures SentToOne(es, user, ids, what, o)
       <==> exists x :: x in Others(Final(es).index, c) && o in Send(Final(es), x.socket, what)
  {
    var others := Others(Final(es).index, c);
    if SentToOne(es, user, ids, what, o) {
      var x := OtherOfIds(es, user, others, ids, what, o);
    }
    if x :| x in others && o in Send(Final(es), x.socket, what) {
      OneOfOthers(es, user, others, x, ids, what, o);
    }
  }

  lemma TestMessageSends(r: Relay, s: Socket, c: Connection, text: string, o: Output)
    requires Others(r.index, c) != {}
    ensures o in OnTestMessage(r, s, c, text)
       <==> || o in Send(r, s, Sent(|Others(r.index, c)|))
            || exists x :: x in Others(r.index, c) && o in Send(r, x.socket, Delivery(c.user, c.device, text))
  {
  }

  /** A test message: delivered to the socket of every other device, where open, and answered with
      how many devices those are; without any, refused. */
  lemma TestMessagesGo(es: seq<Event>, k: nat, user: UserId, device: Identifier, text: string)
    returns (ids: set<Identifier>)
    requires Possible(es) && k < |es| && es[k] == Receives(es[k].s, TestMessage(text))
    requires Holder(History(es)[..k], user, device) == Some(es[k].s)
    ensures Possible(es[..k])
    ensures forall d: Identifier :: d in ids <==> d != device && Holder(History(es)[..k], user, d).Some?
    ensures ids == {} ==> History(es)[k].outputs == To(es[..k], es[k].s, Error(NoOtherDevices))
    ensures ids != {} ==> forall o :: o in History(es)[k].outputs <==>
      || o in To(es[..k], es[k].s, Sent(|ids|))
      || SentToOne(es[..k], user, ids, Delivery(user, device, text), o)
  {
    HistoryPrefix(es, k);
    var pre, s := es[..k], es[k].s;
    var c := Sender(pre, s, user, device);
    ids := DevicesOf(pre, user, device, c);
    var sent := OnTestMessage(Final(pre), s, c, text);
    assert History(es)[k].outputs == sent;
    if ids != {} {
      forall o ensures o in sent <==>
          o in To(pre, s, Sent(|ids|)) || SentToOne(pre, user, ids, Delivery(user, device, text), o)
      {
        TestMessageSends(Final(pre), s, c, text, o);
        SentToOneIff(pre, user, device, c, ids, Delivery(user, device, text), o);
      }
    }
  }

  /** The rest is refused: text that is no message, and a second registration. */
  lemma OthersAreRefused(es: seq<Event>, k: nat, s: Socket, frame: Frame)
    requires Possible(es) && k < |es| && es[k] == Receives(s, frame) && Stands(History(es)[..k], s)
    ensures Possible(es[..k])
    ensures frame.BadJson? ==> History(es)[k].outputs == To(es[..k], s, Error(InvalidJson))
    ensures frame.BadMessage? ==> History(es)[k].outputs == To(es[..k], s, Error(InvalidMessage))
    ensures frame.Register? ==> History(es)[k].outputs == To(es[..k], s, Error(AlreadyRegistered))
  {
    HistoryPrefix(es, k);
    StandsIff(es[..k], s);
  }

  /** A socket that stands for no device gets nothing done but a registration, one at a time. */
  lemma StrangersAreRefused(es: seq<Event>, k: nat, s: Socket, frame: Frame)
    requires Possible(es) && k < |es| && es[k] == Receives(s, frame) && !Stands(History(es)[..k], s)
    ensures Possible(es[..k])
    ensures History(es)[k].outputs ==
      match frame
      case BadJson => To(es[..k], s, Error(InvalidJson))
      case BadMessage => To(es[..k], s, Error(InvalidMessage))
      case Register(_) => if Waits(es[..k], s) then To(es[..k], s, Error(AlreadyRegistered)) else {}
      case _ => To(es[..k], s, Error(NotRegistered))
  {
    HistoryPrefix(es, k);
    StandsIff(es[..k], s);
    WaitsIff(es[..k], s);
  }

  // ---- Token checks and timers ----

  /** A token check that is over. A refused token is told so and closed; a check that failed is
      reported; and a verified one registers the device asked for, if the socket is still open, and
      closes the socket that stood for it. */
  lemma TokensAreAnswered(es: seq<Event>, k: nat, s: Socket, i: nat, outcome: Outcome) returns (device: Identifier)
    requires Possible(es) && k < |es| && es[k] == TokenResult(s, i, outcome)
    ensures Possible(es[..k]) && Receives(s, Register(device)) in es[..k]
    ensures var (pre, sent) := (es[..k], History(es)[k].outputs);
      match outcome
      case Refused => sent == To(pre, s, Error(Unauthorized)) + To(pre, s, CloseWith(UNAUTHORIZED_CLOSE_CODE))
      case Threw => sent == To(pre, s, Error(InternalError))
      case Verified(user) =>
        var was := Holder(History(es)[..k], user, device);
        if !IsOpen(pre, s) then sent == {}
        else if was.None? then sent == To(pre, s, Registered(user, device))
        else sent == To(pre, s, Registered(user, device)) + To(pre, was.value, CloseWith(REPLACED_CLOSE_CODE))
  {
    HistoryPrefix(es, k);
    var pre := es[..k];
    RunKeepsInv(pre);
    assert SockInv(Final(pre), s);
    device := Final(pre).socks[s].pending[i];
    PendingWasAsked(pre, s, device);
    if outcome.Verified? {
      RegistryIsWhatDevicesWereTold(pre, outcome.user, device);
    }
  }

  /** The timer closes an open socket that stands for no device. Nothing else is sent by itself. */
  lemma TimersAndClosing(es: seq<Event>, k: nat, s: Socket)
    requires Possible(es) && k < |es| && es[k].s == s && !es[k].Receives? && !es[k].TokenResult?
    ensures Possible(es[..k])
    ensures History(es)[k].outputs ==
      if es[k].TimerFires? && !Stands(History(es)[..k], s) then To(es[..k], s, CloseWith(AUTH_TIMEOUT_CLOSE_CODE))
      else {}
  {
    HistoryPrefix(es, k);
    StandsIff(es[..k], s);
  }

  // ---- Who is open ----

  ghost predicate SendsClose(r: Relay, e: Event, s: Socket)
    requires Enabled(r, e)
  {
    exists code :: Output(s, CloseWith(code)) in Outputs(r, e)
  }

  lemma RefusalCloses(r: Relay, t: Socket, i: nat, s: Socket)
    requires Inv(r) && Enabled(r, TokenResult(t, i, Refused)) && OpenIn(r, s)
    ensures var e := TokenResult(t, i, Refused);
      !OpenIn(After(r, e), s) <==> SendsClose(r, e, s)
  {
    assert t == s ==> Output(s, CloseWith(UNAUTHORIZED_CLOSE_CODE)) in Outputs(r, TokenResult(t, i, Refused));
  }

  lemma AdmissionCloses(r: Relay, t: Socket, i: nat, user: UserId, s: Socket)
    requires Inv(r) && Enabled(r, TokenResult(t, i, Verified(user))) && OpenIn(r, s)
    ensures var e := TokenResult(t, i, Verified(user));
      !OpenIn(After(r, e), s) <==> SendsClose(r, e, s)
  {
    assert SockInv(r, t);
    if OpenIn(r, t) {
      var device := r.socks[t].pending[i];
      var was := Lookup(r.index, user, device);
      if was.Some? {
        assert Placed(r.index, user, device, was.value);
        ReplacingCloses(r, TokenResult(t, i, Verified(user)), was.value.socket);
      }
    }
  }

  lemma TimerCloses(r: Relay, t: Socket, s: Socket)
    requires Inv(r) && Enabled(r, TimerFires(t)) && OpenIn(r, s)
    ensures var e := TimerFires(t);
      !OpenIn(After(r, e), s) <==> SendsClose(r, e, s)
  {
    if t == s && s !in r.index.sockets {
      assert Output(s, CloseWith(AUTH_TIMEOUT_CLOSE_CODE)) in Outputs(r, TimerFires(t));
    }
  }

  lemma FramesCloseNothing(r: Relay, t: Socket, frame: Frame, s: Socket)
    requires Inv(r) && Enabled(r, Receives(t, frame))
    ensures !SendsClose(r, Receives(t, frame), s)
  {
  }

  lemma StepCloses(r: Relay, e: Event, s: Socket)
    requires Inv(r) && Enabled(r, e) && OpenIn(r, s)
    ensures !OpenIn(After(r, e), s) <==> e == StartsClosing(s) || e == CloseEvent(s) || SendsClose(r, e, s)
  {
    match e
    case Opens(t) =>
    case Receives(t, frame) => FramesCloseNothing(r, t, frame, s);
    case TokenResult(t, i, outcome) =>
      match outcome {
        case Refused => RefusalCloses(r, t, i, s);
        case Threw =>
        case Verified(user) => AdmissionCloses(r, t, i, user, s);
      }
    case TimerFires(t) => TimerCloses(r, t, s);
    case StartsClosing(t) =>
    case CloseEvent(t) =>
  }

  /** A socket is open from its opening until its client closes it or the relay sends it a close. */
  lemma StopsBeingOpenIff(es: seq<Event>, k: nat, s: Socket)
    requires Possible(es) && k < |es|
    ensures Possible(es[..k]) && Possible(es[..k + 1])
    ensures IsOpen(es[..k + 1], s) <==>
      || es[k] == Opens(s)
      || (IsOpen(es[..k], s) && es[k] != StartsClosing(s) && es[k] != CloseEvent(s)
          && forall code :: Output(s, CloseWith(code)) !in History(es)[k].outputs)
  {
    HistoryPrefix(es, k);
    HistoryPrefix(es, k + 1);
    assert es[..k + 1][..k] == es[..k];
    RunKeepsInv(es[..k]);
    var r := Final(es[..k]);
    if OpenIn(r, s) {
      StepCloses(r, es[k], s);
    } else {
      StaysShut(r, es[k], s);
    }
  }

  lemma StaysShut(r: Relay, e: Event, s: Socket)
    requires Inv(r) && Enabled(r, e) && !OpenIn(r, s)
    ensures OpenIn(After(r, e), s) <==> e == Opens(s)
  {
  }
}
