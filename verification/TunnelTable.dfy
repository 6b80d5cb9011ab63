/** The open tunnels of one relay connection (`apps/desktop/src-tauri/src/tunnel.rs`). */
module TunnelTable {
  import opened Bytes
  import opened Wrappers
  import opened TunnelWire

  // ---- The table as a value ----

  predicate Short(names: Names) {
    forall d: DeviceId :: |names.show(d)| < 256
  }

  /** The open tunnels, and what the session of each has been handed. */
  type Table = map<Key, seq<byte>>

  datatype Incoming = Opened(peer: DeviceId) | Reply(frame: seq<byte>) | NoReply | Invalid

  /** What a frame from the relay does. `listening` tells whether the session it is for still reads. */
  function Received(names: Names, table: Table, listening: bool, frame: seq<byte>): (Table, Incoming)
    requires Short(names)
  {
    match Decode(names, frame)
    case None => (table, Invalid)
    case Some(Decoded(kind, key, data)) =>
      if kind == KIND_OPEN && key.openedHere then (table, Invalid)
      else if kind == KIND_OPEN then (table[key := []], Opened(key.peer))
      else if kind == KIND_DATA && key in table && listening then (table[key := table[key] + data], NoReply)
      else (table - {key}, if kind == KIND_DATA then Reply(Encode(names, KIND_CLOSE, key, [])) else NoReply)
  }

  /** What bytes picked up from a session do, or its end (`None`). */
  function Pumped(names: Names, table: Table, key: Key, data: Option<seq<byte>>): (Table, Option<seq<byte>>)
    requires Short(names) && (key in table ==> ValidKey(key))
  {
    if key !in table then (table, None)
    else
      match data
      case Some(d) => (table, Some(Encode(names, KIND_DATA, key, d)))
      case None => (table - {key}, Some(Encode(names, KIND_CLOSE, key, [])))
  }

  function Dialed(names: Names, table: Table, id: nat, peer: DeviceId): (Table, seq<byte>)
    requires Short(names) && id < U32_LIMIT
  {
    var key := Key(peer, id, true);
    (table[key := []], Encode(names, KIND_OPEN, key, []))
  }

  // ---- The table ----

  /** The session's end of a tunnel: the bytes handed to it, and whether it still reads. */
  class Tunnel {
    var given: seq<byte>
    var listening: bool

    constructor ()
      ensures given == [] && listening
    {
      given, listening := [], true;
    }

    /** Hands bytes to the session. Fails once it no longer reads. */
    method Send(data: seq<byte>) returns (ok: bool)
      modifies this`given
      ensures ok == listening
      ensures given == if listening then old(given) + data else old(given)
    {
      ok := listening;
      if listening {
        given := given + data;
      }
    }
  }

  class Tunnels {
    const names: Names
    var nextId: nat
    var open: map<Key, Tunnel>

    ghost predicate Valid()
      reads this
    {
      && nextId < U32_LIMIT
      && Short(names)
      && (forall k :: k in open ==> ValidKey(k))
      && (forall k, l :: k in open && l in open && k != l ==> open[k] != open[l])
    }

    ghost function Value(): Table
      reads this, open.Values
    {
      map k | k in open :: open[k].given
    }

    /** The session a frame is for still reads. */
    ghost predicate IsHeard(frame: seq<byte>)
      reads this, open.Values
    {
      var m := Decode(names, frame);
      m.Some? && m.value.key in open && open[m.value.key].listening
    }

    constructor (names: Names)
      requires Short(names)
      ensures Valid() && open == map[] && nextId == 1
      ensures this.names == names
    {
      this.names := names;
      nextId, open := 1, map[];
    }

    method Create(key: Key) returns (t: Tunnel)
      requires Valid() && ValidKey(key)
      modifies this`open
      ensures Valid() && fresh(t) && open == old(open)[key := t] && t.given == [] && t.listening
      ensures Value() == old(Value())[key := []]
    {
      t := new Tunnel();
      open := open[key := t];
      assert Value() == old(Value())[key := []];
    }

    method Remove(key: Key)
      requires Valid()
      modifies this`open
      ensures Valid() && open == old(open) - {key} && Value() == old(Value()) - {key}
    {
      open := open - {key};
      assert Value() == old(Value()) - {key};
    }

    /** Removes a tunnel, with the frame that says so. */
    method HangUp(key: Key) returns (frame: seq<byte>)
      requires Valid() && ValidKey(key)
      modifies this`open
      ensures Valid() && open == old(open) - {key} && Value() == old(Value()) - {key}
      ensures frame == Encode(names, KIND_CLOSE, key, [])
    {
      Remove(key);
      frame := EncodeFrame(names, KIND_CLOSE, key, []);
      assert Value() == old(Value()) - {key};
    }

    /** Opens a tunnel to `peer`. Returns its key and the `open` frame. */
    method Open(peer: DeviceId) returns (key: Key, frame: seq<byte>)
      requires Valid()
      modifies this
      ensures Valid() && nextId == NextId(old(nextId))
      ensures key == Key(peer, old(nextId), true) && (Value(), frame) == Dialed(names, old(Value()), old(nextId), peer)
      ensures key in open && fresh(open[key]) && open == old(open)[key := open[key]]
    {
      key := Key(peer, nextId, true);
      nextId := NextId(nextId);
      ghost var before := Value();
      assert before == old(Value());
      var _ := Create(key);
      frame := EncodeFrame(names, KIND_OPEN, key, []);
      assert Value() == before[key := []];
    }

    /** Bytes picked up from a session, or its end: a data or close frame while the tunnel is open. */
    method OnPumped(key: Key, data: Option<seq<byte>>) returns (frame: Option<seq<byte>>)
      requires Valid()
      modifies this`open
      ensures Valid()
      ensures (Value(), frame) == Pumped(names, old(Value()), key, data)
      ensures forall k :: k in open ==> k in old(open) && open[k] == old(open)[k]
    {
      if key !in open {
        return None;
      }
      match data
      case Some(d) =>
        var f := EncodeFrame(names, KIND_DATA, key, d);
        frame := Some(f);
        assert Value() == old(Value());
      case None =>
        var f := HangUp(key);
        frame := Some(f);
    }

    /** A frame from the relay. */
    method OnFrame(frame: seq<byte>) returns (incoming: Incoming)
      requires Valid()
      modifies this`open, open.Values
      ensures Valid()
      ensures (Value(), incoming) == Received(names, old(Value()), old(IsHeard(frame)), frame)
      ensures forall k :: k in open ==>
        if incoming.Opened? && k == Decode(names, frame).value.key then fresh(open[k])
        else k in old(open) && open[k] == old(open)[k]
    {
      var decoded := Decode(names, frame);
      if decoded.None? {
        return Invalid;
      }
      var Decoded(kind, key, data) := decoded.value;
      if kind == KIND_OPEN {
        if key.openedHere {
          return Invalid;
        }
        Remove(key);
        var _ := Create(key);
        assert Value() == old(Value())[key := []];
        return Opened(key.peer);
      } else if kind == KIND_DATA {
        if key in open {
          var ok := open[key].Send(data);
          if ok {
            assert Value() == old(Value())[key := old(Value())[key] + data];
            return NoReply;
          }
        }
        var reply := HangUp(key);
        return Reply(reply);
      } else {
        Remove(key);
        return NoReply;
      }
    }
  }
}
