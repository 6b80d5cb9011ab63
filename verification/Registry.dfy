/** The relay's registered connections (`apps/relay/src/features/relay/registry.ts`): two indexes
    that amount to one map from user and device to connection. */
module Registry {
  import opened Bytes
  import opened Wrappers
  import TunnelWire

  type UserId = nat
  type DeviceId = d: seq<byte> | TunnelWire.IsIdentifier(d) witness [0x41]
  type Socket = nat

  /** A registered socket. Two connections are the same object exactly when their serials are equal;
      the other fields never change. */
  datatype Connection = Connection(serial: nat, user: UserId, device: DeviceId, socket: Socket)

  /** The two indexes. */
  datatype Indexes = Indexes(users: map<UserId, map<DeviceId, Connection>>, sockets: map<Socket, Connection>)

  /** No user without devices, and the two indexes hold the same connections. */
  ghost predicate Valid(r: Indexes) {
    && (forall u :: u in r.users ==> r.users[u] != map[])
    && (forall u, d: DeviceId :: Lookup(r, u, d).Some? ==> Placed(r, u, d, Lookup(r, u, d).value))
    && (forall s :: s in r.sockets ==> Found(r, s, r.sockets[s]))
  }

  ghost predicate Placed(r: Indexes, u: UserId, d: DeviceId, c: Connection) {
    c.user == u && c.device == d && BySocket(r, c.socket) == Some(c)
  }

  ghost predicate Found(r: Indexes, s: Socket, c: Connection) {
    c.socket == s && Lookup(r, c.user, c.device) == Some(c)
  }

  function Lookup(r: Indexes, user: UserId, device: seq<byte>): Option<Connection> {
    if user in r.users && device in r.users[user] then Some(r.users[user][device]) else None
  }

  function BySocket(r: Indexes, s: Socket): Option<Connection> {
    if s in r.sockets then Some(r.sockets[s]) else None
  }

  /** Registers a connection whose socket is not registered; the newer one wins. */
  function Add(r: Indexes, c: Connection): Indexes {
    var devices: map<DeviceId, Connection> := if c.user in r.users then r.users[c.user] else map[];
    var sockets := if c.device in devices then r.sockets - {devices[c.device].socket} else r.sockets;
    Indexes(r.users[c.user := devices[c.device := c]], sockets[c.socket := c])
  }

  /** Removes a connection if it is still registered. */
  function Remove(r: Indexes, c: Connection): Indexes {
    if BySocket(r, c.socket) != Some(c) then r
    else
      var sockets := r.sockets - {c.socket};
      if c.user !in r.users then r.(sockets := sockets)
      else
        var devices := r.users[c.user] - {c.device};
        Indexes(if devices == map[] then r.users - {c.user} else r.users[c.user := devices], sockets)
  }

  // ---- What they do to the one map ----

  lemma AddLookup(r: Indexes, c: Connection, u: UserId, d: DeviceId)
    ensures Lookup(Add(r, c), u, d) == if u == c.user && d == c.device then Some(c) else Lookup(r, u, d)
  {
  }

  lemma RemoveLookup(r: Indexes, c: Connection, u: UserId, d: DeviceId)
    requires BySocket(r, c.socket) == Some(c)
    ensures Lookup(Remove(r, c), u, d) == if u == c.user && d == c.device then None else Lookup(r, u, d)
  {
    if u == c.user && u in r.users {
      assert d in r.users[u] - {c.device} <==> d in r.users[u] && d != c.device;
    }
  }

  /** The indexes stand for the map `m`. */
  ghost predicate StandsFor(r: Indexes, m: map<(UserId, DeviceId), Connection>) {
    && (forall k: (UserId, DeviceId) :: k in m <==> Lookup(r, k.0, k.1).Some?)
    && (forall k: (UserId, DeviceId) :: k in m ==> m[k] == Lookup(r, k.0, k.1).value)
  }

  /** There is one such map. */
  lemma StandsForOne(r: Indexes) returns (m: map<(UserId, DeviceId), Connection>)
    ensures StandsFor(r, m)
    ensures forall n: map<(UserId, DeviceId), Connection> :: StandsFor(r, n) ==> n == m
  {
    m := map u, d: DeviceId | u in r.users && d in r.users[u] :: (u, d) := r.users[u][d];
    forall k: (UserId, DeviceId)
      ensures k in m <==> Lookup(r, k.0, k.1).Some?
      ensures k in m ==> m[k] == Lookup(r, k.0, k.1).value
    {
      assert k == (k.0, k.1);
    }
  }

  /** Adding puts the connection under its user and device in that map, and touches nothing else. */
  lemma AddRefines(r: Indexes, m: map<(UserId, DeviceId), Connection>, c: Connection)
    requires Valid(r) && StandsFor(r, m) && c.socket !in r.sockets
    ensures Valid(Add(r, c)) && StandsFor(Add(r, c), m[(c.user, c.device) := c])
  {
    AddKeepsValid(r, c);
    forall k: (UserId, DeviceId)
      ensures Lookup(Add(r, c), k.0, k.1) == if k == (c.user, c.device) then Some(c) else Lookup(r, k.0, k.1)
    {
      AddLookup(r, c, k.0, k.1);
    }
  }

  lemma AddKeepsValid(r: Indexes, c: Connection)
    requires Valid(r) && c.socket !in r.sockets
    ensures Valid(Add(r, c))
  {
    var r' := Add(r, c);
    var was := Lookup(r, c.user, c.device);
    assert r'.sockets == (if was.Some? then r.sockets - {was.value.socket} else r.sockets)[c.socket := c];
    forall u, d: DeviceId
      ensures Lookup(r', u, d) == if u == c.user && d == c.device then Some(c) else Lookup(r, u, d)
    {
      AddLookup(r, c, u, d);
    }
    forall u, d: DeviceId | Lookup(r', u, d).Some? ensures Placed(r', u, d, Lookup(r', u, d).value) {
      if !(u == c.user && d == c.device) {
        assert Placed(r, u, d, Lookup(r, u, d).value);
      }
    }
    forall s | s in r'.sockets ensures Found(r', s, r'.sockets[s]) {
      if s != c.socket {
        assert Found(r, s, r.sockets[s]);
      }
    }
    forall u | u in r'.users ensures r'.users[u] != map[] {
      if u == c.user {
        assert c.device in r'.users[u];
      }
    }
  }

  /** Removing a registered connection takes exactly it out of that map; removing one that was
      replaced does nothing, so it can't remove its replacement. */
  lemma RemoveRefines(r: Indexes, m: map<(UserId, DeviceId), Connection>, c: Connection)
    requires Valid(r) && StandsFor(r, m)
    ensures Valid(Remove(r, c))
    ensures BySocket(r, c.socket) == Some(c) ==> StandsFor(Remove(r, c), m - {(c.user, c.device)})
    ensures BySocket(r, c.socket) != Some(c) ==> Remove(r, c) == r
  {
    if BySocket(r, c.socket) == Some(c) {
      RemoveKeepsValid(r, c);
      forall k: (UserId, DeviceId)
        ensures Lookup(Remove(r, c), k.0, k.1) == if k == (c.user, c.device) then None else Lookup(r, k.0, k.1)
      {
        RemoveLookup(r, c, k.0, k.1);
      }
    }
  }

  lemma RemoveKeepsValid(r: Indexes, c: Connection)
    requires Valid(r) && BySocket(r, c.socket) == Some(c)
    ensures Valid(Remove(r, c))
  {
    var r' := Remove(r, c);
    assert Found(r, c.socket, c);
    assert r'.sockets == r.sockets - {c.socket};
    forall u, d: DeviceId ensures Lookup(r', u, d) == if u == c.user && d == c.device then None else Lookup(r, u, d) {
      RemoveLookup(r, c, u, d);
    }
    forall u, d: DeviceId | Lookup(r', u, d).Some? ensures Placed(r', u, d, Lookup(r', u, d).value) {
      assert Placed(r, u, d, Lookup(r, u, d).value);
    }
    forall s | s in r'.sockets ensures Found(r', s, r'.sockets[s]) {
      assert Found(r, s, r.sockets[s]);
    }
  }

  /** A socket and the map find the same connections. */
  lemma IndexesAgree(r: Indexes, m: map<(UserId, DeviceId), Connection>, s: Socket)
    requires Valid(r) && StandsFor(r, m)
    ensures s in r.sockets <==> exists k :: k in m && m[k].socket == s
    ensures s in r.sockets ==>
      var c := r.sockets[s];
      (c.user, c.device) in m && m[(c.user, c.device)] == c
  {
    if s in r.sockets {
      var c := r.sockets[s];
      assert Found(r, s, c);
      assert (c.user, c.device) in m;
    }
    forall k: (UserId, DeviceId) | k in m && m[k].socket == s ensures s in r.sockets {
      assert Placed(r, k.0, k.1, Lookup(r, k.0, k.1).value);
    }
  }

  // ---- The registry ----

  class ConnectionRegistry {
    var users: map<UserId, map<DeviceId, Connection>>
    var sockets: map<Socket, Connection>

    ghost function Value(): Indexes
      reads this
    {
      Indexes(users, sockets)
    }

    constructor ()
      ensures Value() == Indexes(map[], map[]) && Valid(Value())
    {
      users, sockets := map[], map[];
    }

    /** Registers `c`. Fails, changing nothing, if its socket is registered already. */
    method AddConnection(c: Connection) returns (replaced: Result<Option<Connection>, string>)
      modifies this
      ensures replaced.Err? <==> c.socket in old(sockets)
      ensures replaced.Err? ==> Value() == old(Value())
      ensures replaced.Ok? ==>
          Value() == Add(old(Value()), c) && replaced.value == Lookup(old(Value()), c.user, c.device)
    {
      if c.socket in sockets {
        return Err("socket is already registered");
      }
      var devices: map<DeviceId, Connection> := map[];
      if c.user in users {
        devices := users[c.user];
      }
      var old_ := None;
      if c.device in devices {
        old_ := Some(devices[c.device]);
        sockets := sockets - {devices[c.device].socket};
      }
      devices := devices[c.device := c];
      users := users[c.user := devices];
      sockets := sockets[c.socket := c];
      return Ok(old_);
    }

    /** Every connected device of `user`, each once. */
    method GetUserConnections(user: UserId) returns (r: seq<Connection>)
      requires Valid(Value())
      ensures forall c :: c in r <==> c.user == user && Lookup(Value(), user, c.device) == Some(c)
      ensures forall i, j :: 0 <= i < j < |r| ==> r[i].device != r[j].device
    {
      r := [];
      if user !in users {
        return;
      }
      var left := users[user].Keys;
      while left != {}
        invariant left <= users[user].Keys
        invariant forall c :: c in r <==>
            c.user == user && c.device !in left && Lookup(Value(), user, c.device) == Some(c)
        invariant forall i, j :: 0 <= i < j < |r| ==> r[i].device != r[j].device
        decreases |left|
      {
        var d :| d in left;
        assert Lookup(Value(), user, d) == Some(users[user][d]);
        assert forall i :: 0 <= i < |r| ==> r[i] in r;
        r := r + [users[user][d]];
        left := left - {d};
      }
    }

    method GetConnection(user: UserId, device: DeviceId) returns (c: Option<Connection>)
      ensures c == Lookup(Value(), user, device)
    {
      if user in users && device in users[user] {
        return Some(users[user][device]);
      }
      return None;
    }

    method GetBySocket(s: Socket) returns (c: Option<Connection>)
      ensures c == BySocket(Value(), s)
    {
      if s in sockets {
        return Some(sockets[s]);
      }
      return None;
    }

    /** Removes `c` if it is still registered. */
    method RemoveConnection(c: Connection) returns (removed: bool)
      requires Valid(Value())
      modifies this
      ensures Value() == Remove(old(Value()), c) && removed == (BySocket(old(Value()), c.socket) == Some(c))
    {
      if c.socket !in sockets || sockets[c.socket] != c {
        return false;
      }
      sockets := sockets - {c.socket};
      if c.user in users {
        var devices := users[c.user] - {c.device};
        if |devices| == 0 {
          users := users - {c.user};
        } else {
          users := users[c.user := devices];
        }
      }
      return true;
    }

    /** Removes whatever `s` registered as. */
    method RemoveBySocket(s: Socket) returns (c: Option<Connection>)
      requires Valid(Value())
      modifies this
      ensures c == BySocket(old(Value()), s)
      ensures Value() == if c.Some? then Remove(old(Value()), c.value) else old(Value())
    {
      if s !in sockets {
        return None;
      }
      c := Some(sockets[s]);
      var _ := RemoveConnection(c.value);
    }
  }
}
