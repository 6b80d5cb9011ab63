/** The two codecs of tunnel frames: the desktop's (`apps/desktop/src-tauri/src/tunnel.rs`) and the
    relay's (`apps/relay/src/features/relay/tunnel.ts`). A frame one device encodes, the relay
    forwards and the other decodes means the same tunnel seen from its other end. */
module TunnelWire {
  import opened Bytes
  import opened Wrappers

  const ID_LIMIT: nat := 0x1_0000_0000_0000_0000_0000_0000_0000_0000

  /** A UUID: 128 bits. */
  type DeviceId = d: nat | d < ID_LIMIT

  const KIND_OPEN: byte := 1
  const KIND_DATA: byte := 2
  const KIND_CLOSE: byte := 3
  const HEADER_BYTES: nat := 7
  const MAX_DATA_BYTES: nat := 65536
  const MAX_DEVICE_ID_BYTES: nat := 128

  /** How device IDs are written and read as text; the UUID library's two functions. */
  datatype Names = Names(show: DeviceId -> seq<byte>, parse: seq<byte> -> Option<DeviceId>)

  predicate IsIdentifierByte(b: byte) {
    || 0x41 <= b <= 0x5A || 0x61 <= b <= 0x7A || 0x30 <= b <= 0x39
    || b == 0x2E || b == 0x5F || b == 0x3A || b == 0x2D
  }

  predicate IsIdentifier(s: seq<byte>) {
    1 <= |s| <= MAX_DEVICE_ID_BYTES && forall i :: 0 <= i < |s| ==> IsIdentifierByte(s[i])
  }

  /** A device ID is written with 36 letters, digits and dashes, and reads back as itself. */
  ghost predicate Faithful(names: Names) {
    forall d: DeviceId :: |names.show(d)| == 36 && IsIdentifier(names.show(d)) && names.parse(names.show(d)) == Some(d)
  }

  /** A tunnel as one device sees it. */
  datatype Key = Key(peer: DeviceId, id: nat, openedHere: bool)

  predicate ValidKey(key: Key) {
    key.id < U32_LIMIT
  }

  /** The next tunnel ID; it wraps around. */
  function NextId(id: nat): nat {
    (id + 1) % U32_LIMIT
  }

  /** The same tunnel as `key.peer` sees it, when this device is `me`. */
  function Mirror(me: DeviceId, key: Key): Key {
    Key(me, key.id, !key.openedHere)
  }

  predicate IsKind(kind: byte) {
    kind == KIND_OPEN || kind == KIND_DATA || kind == KIND_CLOSE
  }

  predicate ValidData(kind: byte, data: seq<byte>) {
    if kind == KIND_DATA then 1 <= |data| <= MAX_DATA_BYTES else data == []
  }

  // ---- The desktop ----

  function Encode(names: Names, kind: byte, key: Key, data: seq<byte>): seq<byte>
    requires ValidKey(key) && |names.show(key.peer)| < 256
  {
    var device := names.show(key.peer);
    [kind, if key.openedHere then 1 else 0] + Big32(key.id) + [|device|] + device + data
  }

  method EncodeFrame(names: Names, kind: byte, key: Key, data: seq<byte>) returns (frame: seq<byte>)
    requires ValidKey(key) && |names.show(key.peer)| < 256
    ensures frame == Encode(names, kind, key, data)
  {
    var device := names.show(key.peer);
    frame := [];
    frame := frame + [kind];
    frame := frame + [if key.openedHere then 1 else 0];
    frame := frame + Big32(key.id);
    frame := frame + [|device|];
    frame := frame + device;
    frame := frame + data;
    assert frame == [kind, if key.openedHere then 1 else 0] + Big32(key.id) + [|device|] + device + data;
  }

  datatype Decoded = Decoded(kind: byte, key: Key, data: seq<byte>)

  /** A delivered frame, the tunnel as seen from this device. */
  function Decode(names: Names, frame: seq<byte>): (r: Option<Decoded>)
    ensures r.Some? ==> ValidKey(r.value.key) && IsKind(r.value.kind) && ValidData(r.value.kind, r.value.data)
  {
    if |frame| < HEADER_BYTES then None
    else
      var kind, flags, len, rest := frame[0], frame[1], frame[6] as int, frame[7..];
      if !IsKind(kind) || flags > 1 then None
      else if |rest| < len then None
      else
        var data := rest[len..];
        match names.parse(rest[..len])
        case None => None
        case Some(peer) =>
          if ValidData(kind, data) then
            ReadBig32(frame[2..6]);
            // Flags of 0 come from the end that didn't open the tunnel.
            Some(Decoded(kind, Key(peer, Read32(frame[2..6]), flags == 0), data))
          else None
  }

  // ---- The relay ----

  datatype TunnelFrame = TunnelFrame(kind: byte, flags: byte, tunnelId: nat, deviceId: seq<byte>, data: seq<byte>)

  predicate ValidFrame(f: TunnelFrame) {
    IsKind(f.kind) && f.flags <= 1 && f.tunnelId < U32_LIMIT && IsIdentifier(f.deviceId) && ValidData(f.kind, f.data)
  }

  function ParseFrame(b: seq<byte>): (r: Option<TunnelFrame>)
    ensures r.Some? ==> ValidFrame(r.value)
  {
    if |b| < HEADER_BYTES + 1 then None
    else
      var kind, flags, len := b[0], b[1], b[6] as int;
      if !IsKind(kind) || flags > 1 then None
      else if len < 1 || len > MAX_DEVICE_ID_BYTES || |b| < HEADER_BYTES + len then None
      else
        var device, data := b[7..7 + len], b[7 + len..];
        if !IsIdentifier(device) || !ValidData(kind, data) then None
        else
          ReadBig32(b[2..6]);
          Some(TunnelFrame(kind, flags, Read32(b[2..6]), device, data))
  }

  function RelayEncode(f: TunnelFrame): seq<byte>
    requires f.tunnelId < U32_LIMIT && |f.deviceId| < 256
  {
    [f.kind, f.flags] + Big32(f.tunnelId) + [|f.deviceId|] + f.deviceId + f.data
  }

  /** Writes the header field by field into a buffer. */
  method RelayEncodeFrame(f: TunnelFrame) returns (b: seq<byte>)
    requires f.tunnelId < U32_LIMIT && |f.deviceId| < 256
    ensures b == RelayEncode(f)
  {
    var header := new byte[HEADER_BYTES](_ => 0);
    header[0] := f.kind;
    header[1] := f.flags;
    var id := Big32(f.tunnelId);
    for i := 0 to 4
      invariant header[0] == f.kind && header[1] == f.flags
      invariant header[2..2 + i] == id[..i]
    {
      header[2 + i] := id[i];
    }
    header[6] := |f.deviceId|;
    assert header[..] == [f.kind, f.flags] + header[2..6] + [|f.deviceId|];
    b := header[..] + f.deviceId + f.data;
  }

  /** The `close` a device gets for a frame that can't be delivered. */
  function Undeliverable(f: TunnelFrame): TunnelFrame
    requires f.flags <= 1
  {
    TunnelFrame(KIND_CLOSE, 1 - f.flags, f.tunnelId, f.deviceId, [])
  }

  /** What the relay does with the bytes `sender` sent. */
  datatype Routed = Rejected | Forwarded(to: seq<byte>, bytes: seq<byte>) | Answered(bytes: seq<byte>) | Dropped

  function Route(sender: seq<byte>, connected: seq<byte> -> bool, bytes: seq<byte>): (r: Routed)
    requires |sender| < 256
    ensures r.Forwarded? ==> connected(r.to)
  {
    match ParseFrame(bytes)
    case None => Rejected
    case Some(f) =>
      if f.deviceId == sender then Rejected
      else if connected(f.deviceId) then Forwarded(f.deviceId, RelayEncode(f.(deviceId := sender)))
      else if f.kind != KIND_CLOSE then Answered(RelayEncode(Undeliverable(f)))
      else Dropped
  }

  // ---- Round trips ----

  /** Exactly what a device takes for a frame, and what it makes of it: a kind, the flag, an ID, the
      text of a device ID after its length, and data that goes with the kind. */
  lemma DecodeIff(names: Names, frame: seq<byte>, kind: byte, key: Key, data: seq<byte>)
    ensures Decode(names, frame) == Some(Decoded(kind, key, data)) <==>
      && IsKind(kind) && ValidKey(key) && ValidData(kind, data)
      && exists name: seq<byte> :: |name| < 256 && names.parse(name) == Some(key.peer)
           && frame == [kind, if key.openedHere then 0 else 1] + Big32(key.id) + [|name|] + name + data
  {
    if Decode(names, frame) == Some(Decoded(kind, key, data)) {
      var name := frame[7..][..frame[6] as int];
      ReadBig32(frame[2..6]);
      assert frame == [frame[0], frame[1]] + frame[2..6] + [frame[6]] + frame[7..];
      assert frame[7..] == name + data;
      assert frame == [kind, if key.openedHere then 0 else 1] + Big32(key.id) + [|name|] + name + data;
    }
    forall name: seq<byte> | && IsKind(kind) && ValidKey(key) && ValidData(kind, data)
        && |name| < 256 && names.parse(name) == Some(key.peer)
        && frame == [kind, if key.openedHere then 0 else 1] + Big32(key.id) + [|name|] + name + data
      ensures Decode(names, frame) == Some(Decoded(kind, key, data))
    {
      Fields(kind, if key.openedHere then 0 else 1, key.id, name, data);
      Big32Reads(key.id);
    }
  }

  /** The fields of an encoded frame. */
  lemma Fields(kind: byte, flags: byte, id: nat, device: seq<byte>, data: seq<byte>)
    requires id < U32_LIMIT && |device| < 256
    ensures var b := [kind, flags] + Big32(id) + [|device|] + device + data;
      && |b| == HEADER_BYTES + |device| + |data|
      && b[0] == kind && b[1] == flags && b[2..6] == Big32(id) && b[6] == |device|
      && b[7..] == device + data && b[7..7 + |device|] == device && b[7 + |device|..] == data
      && b[7..][..|device|] == device && b[7..][|device|..] == data
  {
  }

  /** The relay's codec is exact: what it accepts it writes back byte for byte. */
  lemma RelayKeepsBytes(b: seq<byte>)
    requires ParseFrame(b).Some?
    ensures RelayEncode(ParseFrame(b).value) == b
  {
    var len := b[6] as int;
    ReadBig32(b[2..6]);
    assert b == [b[0], b[1]] + b[2..6] + [b[6]] + b[7..7 + len] + b[7 + len..];
  }

  /** And it reads back every valid frame it writes. */
  lemma RelayReadsBack(f: TunnelFrame)
    requires ValidFrame(f)
    ensures ParseFrame(RelayEncode(f)) == Some(f)
  {
    Fields(f.kind, f.flags, f.tunnelId, f.deviceId, f.data);
    Big32Reads(f.tunnelId);
  }

  /** A device reads what the other side wrote, as the other end of the tunnel. */
  lemma DesktopReadsBack(names: Names, kind: byte, key: Key, data: seq<byte>)
    requires Faithful(names) && ValidKey(key) && IsKind(kind) && ValidData(kind, data)
    ensures Decode(names, Encode(names, kind, key, data))
        == Some(Decoded(kind, key.(openedHere := !key.openedHere), data))
  {
    Fields(kind, if key.openedHere then 1 else 0, key.id, names.show(key.peer), data);
    Big32Reads(key.id);
  }

  /** The relay parses every frame a device encodes. */
  lemma RelayReadsDesktop(names: Names, kind: byte, key: Key, data: seq<byte>)
    requires Faithful(names) && ValidKey(key) && IsKind(kind) && ValidData(kind, data)
    ensures ParseFrame(Encode(names, kind, key, data))
         == Some(TunnelFrame(kind, if key.openedHere then 1 else 0, key.id, names.show(key.peer), data))
  {
    Fields(kind, if key.openedHere then 1 else 0, key.id, names.show(key.peer), data);
    Big32Reads(key.id);
  }

  /** Tunnel keys mirror: a frame `me` encodes for its tunnel `key`, forwarded by the relay, is
      decoded by the other device as the same kind and data on the same tunnel from its end. */
  lemma ForwardedFrameMirrors(names: Names, me: DeviceId, kind: byte, key: Key, data: seq<byte>,
                              connected: seq<byte> -> bool)
    requires Faithful(names) && ValidKey(key) && IsKind(kind) && ValidData(kind, data)
    requires key.peer != me && connected(names.show(key.peer))
    ensures var r := Route(names.show(me), connected, Encode(names, kind, key, data));
      && r.Forwarded? && r.to == names.show(key.peer)
      && Decode(names, r.bytes) == Some(Decoded(kind, Mirror(me, key), data))
  {
    DifferentNames(names, me, key.peer);
    RelayReadsDesktop(names, kind, key, data);
    Fields(kind, if key.openedHere then 1 else 0, key.id, names.show(me), data);
    Big32Reads(key.id);
  }

  lemma DifferentNames(names: Names, a: DeviceId, b: DeviceId)
    requires Faithful(names) && a != b
    ensures names.show(a) != names.show(b)
  {
    assert names.parse(names.show(a)) == Some(a) && names.parse(names.show(b)) == Some(b);
  }

  /** A frame that can't be delivered comes back as a `close` of the sender's own tunnel; a `close`
      that can't be delivered is dropped. */
  lemma UndeliverableFindsOwnTunnel(names: Names, me: DeviceId, kind: byte, key: Key, data: seq<byte>,
                                    connected: seq<byte> -> bool)
    requires Faithful(names) && ValidKey(key) && IsKind(kind) && ValidData(kind, data)
    requires key.peer != me && !connected(names.show(key.peer))
    ensures var r := Route(names.show(me), connected, Encode(names, kind, key, data));
      if kind == KIND_CLOSE then r == Dropped
      else r.Answered? && Decode(names, r.bytes) == Some(Decoded(KIND_CLOSE, key, []))
  {
    DifferentNames(names, me, key.peer);
    RelayReadsDesktop(names, kind, key, data);
    Fields(KIND_CLOSE, if key.openedHere then 0 else 1, key.id, names.show(key.peer), []);
    Big32Reads(key.id);
  }

  /** A frame to oneself goes nowhere. */
  lemma OwnFrameRejected(names: Names, me: DeviceId, kind: byte, key: Key, data: seq<byte>,
                         connected: seq<byte> -> bool)
    requires Faithful(names) && ValidKey(key) && IsKind(kind) && ValidData(kind, data) && key.peer == me
    ensures Route(names.show(me), connected, Encode(names, kind, key, data)) == Rejected
  {
    RelayReadsDesktop(names, kind, key, data);
  }
}
