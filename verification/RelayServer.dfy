/** The handlers of the relay's WebSocket route (`apps/relay/src/features/relay/routes.ts`), one
    method for each stretch of code that runs without waiting, proved against the steps of
    `RelayLifecycle`. Each returns what it sent. */
module RelayObjects {
  import opened Bytes
  import opened Wrappers
  import opened Registry
  import opened TunnelWire
  import opened RelayLifecycle
  import opened Sets

  /** What a handler may rely on between two handlers. */
  ghost predicate Ready(r: Relay, e: Event) {
    Inv(r) && Enabled(r, e)
  }

  class RelayServer {
    const connections: ConnectionRegistry
    var socks: map<Socket, Sock>
    var next: nat

    ghost function Value(): Relay
      reads this, connections
    {
      Relay(connections.Value(), socks, next)
    }

    constructor ()
      ensures Value() == START && Inv(Value()) && fresh(connections)
    {
      connections := new ConnectionRegistry();
      socks, next := map[], 0;
    }

    method Open(s: Socket)
      requires Ready(Value(), Opens(s))
      modifies this
      ensures Value() == After(old(Value()), Opens(s)) && Inv(Value())
    {
      StepKeepsInv(Value(), Opens(s));
      socks := socks[s := Sock(Opened, false, [], true)];
    }

    /** What `socket.send` and `socket.close` do to the client, if anything. */
    method SendTo(to: Socket, what: Reply) returns (out: set<Output>)
      ensures out == Send(Value(), to, what)
    {
      out := {};
      if to in socks && socks[to].phase == Opened {
        out := {Output(to, what)};
      }
    }

    method HandleFrame(s: Socket, frame: Frame) returns (out: set<Output>)
      requires Ready(Value(), Receives(s, frame))
      modifies this
      ensures Value() == After(old(Value()), Receives(s, frame)) && Inv(Value())
      ensures out == Outputs(old(Value()), Receives(s, frame))
    {
      StepKeepsInv(Value(), Receives(s, frame));
      var sender := connections.GetBySocket(s);
      match frame
      case Binary(bytes) =>
        if sender.None? {
          out := SendTo(s, Error(NotRegistered));
        } else {
          out := ForwardTunnelFrame(s, sender.value, bytes);
        }
      case BadJson =>
        out := SendTo(s, Error(InvalidJson));
      case BadMessage =>
        out := SendTo(s, Error(InvalidMessage));
      case Register(device) =>
        if sender.Some? || socks[s].authenticating {
          out := SendTo(s, Error(AlreadyRegistered));
        } else {
          out := {};
          socks := socks[s := socks[s].(authenticating := true, pending := socks[s].pending + [device])];
        }
      case ListDevices =>
        if sender.None? {
          out := SendTo(s, Error(NotRegistered));
        } else {
          out := ListOthers(s, sender.value);
        }
      case TestMessage(text) =>
        if sender.None? {
          out := SendTo(s, Error(NotRegistered));
        } else {
          out := ForwardTestMessage(s, sender.value, text);
        }
    }

    method ListOthers(s: Socket, c: Connection) returns (out: set<Output>)
      requires Inv(Value())
      ensures out == Send(Value(), s, Devices(set x | x in Others(Value().index, c) :: x.device))
    {
      var others := OtherConnections(c);
      var ids := set x | x in others :: x.device;
      assert ids == set x | x in Others(Value().index, c) :: x.device;
      out := SendTo(s, Devices(ids));
    }

    /** The user's other connections, each once. */
    method OtherConnections(c: Connection) returns (others: seq<Connection>)
      requires Inv(Value())
      ensures forall x :: x in others <==> x in Others(Value().index, c)
      ensures forall i, j :: 0 <= i < j < |others| ==> others[i] != others[j]
    {
      var all := connections.GetUserConnections(c.user);
      others := [];
      for i := 0 to |all|
        invariant forall x :: x in others <==> x in all[..i] && x != c
        invariant forall j, k :: 0 <= j < k < |others| ==> others[j] != others[k]
      {
        assert forall j :: 0 <= j < i ==> all[j].device != all[i].device;
        assert all[i] !in all[..i];
        assert forall j :: 0 <= j < |others| ==> others[j] in others;
        if all[i] != c {
          others := others + [all[i]];
        }
      }
      assert all[..|all|] == all;
      OthersListed(Value(), c, others);
    }

    method ForwardTestMessage(s: Socket, c: Connection, text: string) returns (out: set<Output>)
      requires Inv(Value())
      ensures out == OnTestMessage(Value(), s, c, text)
    {
      var recipients := OtherConnections(c);
      ghost var all := Others(Value().index, c);
      if |recipients| == 0 {
        assert all == {};
        out := SendTo(s, Error(NoOtherDevices));
        return;
      }
      assert recipients[0] in all;
      out := {};
      var delivery := Delivery(c.user, c.device, text);
      for i := 0 to |recipients|
        invariant out == set x, o | x in recipients[..i] && o in Send(Value(), x.socket, delivery) :: o
      {
        var one := SendTo(recipients[i].socket, delivery);
        out := out + one;
      }
      assert recipients[..|recipients|] == recipients;
      DistinctSize(recipients, all);
      var count := SendTo(s, Sent(|recipients|));
      out := out + count;
    }

    method ForwardTunnelFrame(s: Socket, sender: Connection, bytes: seq<byte>) returns (out: set<Output>)
      ensures out == OnTunnelFrame(Value(), s, sender, bytes)
    {
      var frame := ParseFrame(bytes);
      if frame.None? || frame.value.deviceId == sender.device {
        out := SendTo(s, Error(InvalidFrame));
        return;
      }
      var f := frame.value;
      var recipient := connections.GetConnection(sender.user, f.deviceId);
      if recipient.None? {
        out := {};
        if f.kind != KIND_CLOSE {
          var answer := RelayEncodeFrame(Undeliverable(f));
          out := SendTo(s, Tunnel(answer));
        }
        return;
      }
      var forwarded := RelayEncodeFrame(f.(deviceId := sender.device));
      out := SendTo(recipient.value.socket, Tunnel(forwarded));
    }

    method Close(s: Socket)
      modifies this`socks
      ensures socks == CloseSocket(old(socks), s)
    {
      if s in socks && socks[s].phase == Opened {
        socks := socks[s := socks[s].(phase := Closing)];
      }
    }

    /** The rest of `register`, once the token check is over. */
    method FinishRegister(s: Socket, i: nat, outcome: Outcome) returns (out: set<Output>)
      requires Ready(Value(), TokenResult(s, i, outcome))
      modifies this, connections
      ensures Value() == After(old(Value()), TokenResult(s, i, outcome)) && Inv(Value())
      ensures out == Outputs(old(Value()), TokenResult(s, i, outcome))
    {
      ghost var e := TokenResult(s, i, outcome);
      ghost var was := Value();
      StepKeepsInv(was, e);
      assert SockInv(was, s);
      var device := socks[s].pending[i];
      socks := socks[s := Checked(socks[s], i)];
      match outcome
      case Threw =>
        out := SendTo(s, Error(InternalError));
      case Refused =>
        out := SendTo(s, Error(Unauthorized));
        var closed := SendTo(s, CloseWith(UNAUTHORIZED_CLOSE_CODE));
        out := out + closed;
        Close(s);
      case Verified(user) =>
        out := AdmitSocket(s, user, device);
    }

    method AdmitSocket(s: Socket, user: UserId, device: Identifier) returns (out: set<Output>)
      requires Valid(Value().index) && s in socks && s !in connections.sockets
      modifies this, connections
      ensures Value() == Admit(old(Value()), s, user, device)
      ensures out == Admitted(old(Value()), s, user, device)
    {
      out := {};
      if socks[s].phase != Opened {
        return;
      }
      socks := socks[s := socks[s].(armed := false)];
      var replaced := connections.AddConnection(Connection(next, user, device, s));
      next := next + 1;
      if replaced.value.Some? {
        ghost var c := replaced.value.value;
        assert Placed(old(Value().index), user, device, c) by {
          assert Lookup(old(Value().index), user, device) == Some(c);
        }
        out := SendTo(replaced.value.value.socket, CloseWith(REPLACED_CLOSE_CODE));
        Close(replaced.value.value.socket);
      }
      var told := SendTo(s, Registered(user, device));
      out := out + told;
    }

    method OnTimer(s: Socket) returns (out: set<Output>)
      requires Ready(Value(), TimerFires(s))
      modifies this
      ensures Value() == After(old(Value()), TimerFires(s)) && Inv(Value())
      ensures out == Outputs(old(Value()), TimerFires(s))
    {
      StepKeepsInv(Value(), TimerFires(s));
      out := {};
      socks := socks[s := socks[s].(armed := false)];
      var c := connections.GetBySocket(s);
      if c.None? {
        out := SendTo(s, CloseWith(AUTH_TIMEOUT_CLOSE_CODE));
        Close(s);
      }
    }

    method OnClose(s: Socket)
      requires Ready(Value(), CloseEvent(s))
      modifies this, connections
      ensures Value() == After(old(Value()), CloseEvent(s)) && Inv(Value())
    {
      StepKeepsInv(Value(), CloseEvent(s));
      socks := socks[s := socks[s].(phase := Closed, armed := false)];
      var _ := connections.RemoveBySocket(s);
    }
  }

  lemma OthersByDevice(r: Relay, c: Connection, x: Connection)
    requires Inv(r)
    ensures x in Others(r.index, c) <==> x.user == c.user && Lookup(r.index, c.user, x.device) == Some(x) && x != c
  {
    if x in Others(r.index, c) {
      var d: Identifier :| d in UserDevices(r.index, c.user) && UserDevices(r.index, c.user)[d] == x;
      assert Lookup(r.index, c.user, d) == Some(x);
      assert Placed(r.index, c.user, d, x);
    }
  }

  lemma OthersListed(r: Relay, c: Connection, others: seq<Connection>)
    requires Inv(r)
    requires forall x :: x in others <==> x.user == c.user && Lookup(r.index, c.user, x.device) == Some(x) && x != c
    ensures forall x :: x in others <==> x in Others(r.index, c)
  {
    forall x: Connection ensures x in others <==> x in Others(r.index, c) {
      OthersByDevice(r, c, x);
    }
  }
}
