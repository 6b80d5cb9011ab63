/** Any number of devices, each with one lasting connection to the relay, and any number of tunnels
    between them opened from both sides. Messages are written here as what their frames mean to the
    device holding them; `TunnelWire.ForwardedFrameMirrors` and its companions show that this is what
    the frames, routed by the relay, decode to. */
module TunnelNet {
  import opened Bytes
  import opened Wrappers
  import opened TunnelWire

  datatype Msg = Msg(kind: byte, key: Key, data: seq<byte>)

  /** What a frame about a tunnel means to a device. */
  datatype Handling = Created | Given | AnswerClose | Ended | Refused

  /** `isOpen` tells whether the tunnel is open here, `listening` whether its session still reads. */
  function Handle(isOpen: bool, kind: byte, openedHere: bool, listening: bool): Handling {
    if kind == KIND_OPEN then if openedHere then Refused else Created
    else if kind == KIND_DATA then if isOpen && listening then Given else AnswerClose
    else Ended
  }

  /** What becomes of bytes a session wrote (`None`: it closed its end): the message to send. */
  datatype Outgoing = Nothing | SendData(data: seq<byte>) | SendClose

  function Pump(isOpen: bool, data: Option<seq<byte>>): Outgoing {
    if !isOpen then Nothing
    else
      match data
      case Some(d) => SendData(d)
      case None => SendClose
  }

  /** One tunnel a device has or had: whether it is open, what its session wrote, what of that has
      not been picked up by the tunnel's reader, what went into frames, what the session was handed
      to read, and whether the reader has seen the end. */
  datatype End = End(open: bool, wrote: seq<byte>, pipe: seq<byte>, sent: seq<byte>, read: seq<byte>, ended: bool)

  /** One device: its tunnels, the bytes picked up from sessions (the end of one as a close), and its
      frames to and from the relay. */
  datatype Device =
    Device(nextId: nat, opens: nat, tunnels: map<Key, End>, pumped: seq<Msg>, up: seq<Msg>, down: seq<Msg>)

  type Net = map<DeviceId, Device>

  function NewDevice(): Device {
    Device(1, 0, map[], [], [], [])
  }

  function NewEnd(): End {
    End(true, [], [], [], [], false)
  }

  predicate IsOpen(d: Device, key: Key) {
    key in d.tunnels && d.tunnels[key].open
  }

  function OpenTunnel(d: Device, peer: DeviceId): Device {
    var key := Key(peer, d.nextId, true);
    Device(NextId(d.nextId), d.opens + 1, d.tunnels[key := NewEnd()], d.pumped, d.up + [Msg(KIND_OPEN, key, [])],
        d.down)
  }

  function Write(d: Device, key: Key, data: seq<byte>): Device
    requires key in d.tunnels
  {
    var t := d.tunnels[key];
    d.(tunnels := d.tunnels[key := t.(wrote := t.wrote + data, pipe := t.pipe + data)])
  }

  /** The tunnel's reader picks up the first `n` bytes. */
  function PickUp(d: Device, key: Key, n: nat): Device
    requires key in d.tunnels && n <= |d.tunnels[key].pipe|
  {
    var t := d.tunnels[key];
    d.(tunnels := d.tunnels[key := t.(pipe := t.pipe[n..])], pumped := d.pumped + [Msg(KIND_DATA, key, t.pipe[..n])])
  }

  /** The reader sees the end of what the session wrote. */
  function SessionEnds(d: Device, key: Key): Device
    requires key in d.tunnels
  {
    d.(tunnels := d.tunnels[key := d.tunnels[key].(ended := true)], pumped := d.pumped + [Msg(KIND_CLOSE, key, [])])
  }

  function Shut(tunnels: map<Key, End>, key: Key): map<Key, End> {
    if key in tunnels then tunnels[key := tunnels[key].(open := false)] else tunnels
  }

  function PumpOne(d: Device): Device
    requires d.pumped != []
  {
    var m := d.pumped[0];
    var d1 := d.(pumped := d.pumped[1..]);
    match Pump(IsOpen(d, m.key), if m.kind == KIND_DATA then Some(m.data) else None)
    case Nothing => d1
    case SendData(data) =>
      var t := d.tunnels[m.key];
      d1.(tunnels := d.tunnels[m.key := t.(sent := t.sent + data)], up := d.up + [Msg(KIND_DATA, m.key, data)])
    case SendClose => d1.(tunnels := Shut(d.tunnels, m.key), up := d.up + [Msg(KIND_CLOSE, m.key, [])])
  }

  /** The next frame from the relay. */
  function ReceiveOne(d: Device, listening: bool): Device
    requires d.down != []
  {
    var m := d.down[0];
    var d1 := d.(down := d.down[1..]);
    match Handle(IsOpen(d, m.key), m.kind, m.key.openedHere, listening)
    case Created => d1.(tunnels := d.tunnels[m.key := NewEnd()])
    case Given =>
      var t := d.tunnels[m.key];
      d1.(tunnels := d.tunnels[m.key := t.(read := t.read + m.data)])
    case AnswerClose => d1.(tunnels := Shut(d.tunnels, m.key), up := d.up + [Msg(KIND_CLOSE, m.key, [])])
    case Ended => d1.(tunnels := Shut(d.tunnels, m.key))
    case Refused => d1
  }

  /** The relay takes the next frame of device `a`. */
  function RelayOne(net: Net, a: DeviceId): Net
    requires a in net && net[a].up != []
  {
    var m := net[a].up[0];
    var sender := net[a].(up := net[a].up[1..]);
    var to := m.key.peer;
    if to == a then net[a := sender]
    else if to in net then
      net[a := sender][to := net[to].(down := net[to].down + [Msg(m.kind, Mirror(a, m.key), m.data)])]
    else if m.kind != KIND_CLOSE then net[a := sender.(down := sender.down + [Msg(KIND_CLOSE, m.key, [])])]
    else net[a := sender]
  }

  datatype Step =
    | Open(a: DeviceId, peer: DeviceId)
    | Writes(a: DeviceId, key: Key, data: seq<byte>)
    | PicksUp(a: DeviceId, key: Key, n: nat)
    | Ends(a: DeviceId, key: Key)
    | Pumps(a: DeviceId)
    | Relays(a: DeviceId)
    | Receives(a: DeviceId, listening: bool)

  predicate Enabled(net: Net, step: Step) {
    step.a in net &&
    var d := net[step.a];
    match step
    // Before the counter of tunnel IDs has come round.
    case Open(a, peer) => peer != a && d.opens < U32_LIMIT
    case Writes(_, key, _) => key in d.tunnels
    case PicksUp(_, key, n) =>
      key in d.tunnels && !d.tunnels[key].ended && 1 <= n <= MAX_DATA_BYTES && n <= |d.tunnels[key].pipe|
    case Ends(_, key) => key in d.tunnels && !d.tunnels[key].ended && d.tunnels[key].pipe == []
    case Pumps(_) => d.pumped != []
    case Relays(_) => d.up != []
    case Receives(_, _) => d.down != []
  }

  function After(net: Net, step: Step): Net
    requires Enabled(net, step)
  {
    var d := net[step.a];
    match step
    case Open(a, peer) => net[a := OpenTunnel(d, peer)]
    case Writes(a, key, data) => net[a := Write(d, key, data)]
    case PicksUp(a, key, n) => net[a := PickUp(d, key, n)]
    case Ends(a, key) => net[a := SessionEnds(d, key)]
    case Pumps(a) => net[a := PumpOne(d)]
    case Relays(a) => RelayOne(net, a)
    case Receives(a, listening) => net[a := ReceiveOne(d, listening)]
  }

  ghost predicate Run(nets: seq<Net>, steps: seq<Step>) {
    && |nets| == |steps| + 1
    && (forall a :: a in nets[0] ==> nets[0][a] == NewDevice())
    && forall k {:trigger steps[k]} :: 0 <= k < |steps| ==>
         Enabled(nets[k], steps[k]) && nets[k + 1] == After(nets[k], steps[k])
  }
}
