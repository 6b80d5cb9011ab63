/** Stream integrity of tunnels: what one session of a tunnel has been handed is always a prefix of
    what the other wrote. */
module TunnelStreams {
  import opened Bytes
  import opened Wrappers
  import opened TunnelWire
  import opened TunnelNet

  /** A message about one known tunnel. */
  datatype Bit = Bit(kind: byte, data: seq<byte>)

  /** The messages of a queue about tunnel `k`, in order. */
  function Of(q: seq<Msg>, k: Key): seq<Bit> {
    if q == [] then []
    else
      var m := q[|q| - 1];
      Of(q[..|q| - 1], k) + if m.key == k then [Bit(m.kind, m.data)] else []
  }

  lemma OfAppend(q: seq<Msg>, m: Msg, k: Key)
    ensures Of(q + [m], k) == Of(q, k) + if m.key == k then [Bit(m.kind, m.data)] else []
  {
    assert (q + [m])[..|q|] == q;
  }

  lemma {:induction false} OfHead(q: seq<Msg>, k: Key)
    requires q != []
    ensures Of(q, k) == (if q[0].key == k then [Bit(q[0].kind, q[0].data)] else []) + Of(q[1..], k)
  {
    var n := |q| - 1;
    if n > 0 {
      OfHead(q[..n], k);
      assert q[..n][1..] == q[1..][..n - 1];
    }
  }

  /** The stream carried by these messages. */
  function Payload(c: seq<Bit>): seq<byte> {
    if c == [] then []
    else
      var m := c[|c| - 1];
      Payload(c[..|c| - 1]) + if m.kind == KIND_DATA then m.data else []
  }

  lemma PayloadAppend(c: seq<Bit>, m: Bit)
    ensures Payload(c + [m]) == Payload(c) + if m.kind == KIND_DATA then m.data else []
  {
    assert (c + [m])[..|c|] == c;
  }

  lemma {:induction false} PayloadHead(c: seq<Bit>)
    requires c != []
    ensures Payload(c) == (if c[0].kind == KIND_DATA then c[0].data else []) + Payload(c[1..])
  {
    var n := |c| - 1;
    if n > 0 {
      PayloadHead(c[..n]);
      assert c[..n][1..] == c[1..][..n - 1];
    }
  }

  predicate NoOpen(c: seq<Bit>) {
    forall i :: 0 <= i < |c| ==> c[i].kind != KIND_OPEN
  }

  // ---- One tunnel, from one end ----

  datatype View = View(tunnel: Option<End>, pumped: seq<Bit>, up: seq<Bit>, down: seq<Bit>)

  function Lookup(d: Device, k: Key): Option<End> {
    if k in d.tunnels then Some(d.tunnels[k]) else None
  }

  function ViewOf(d: Device, k: Key): View {
    View(Lookup(d, k), Of(d.pumped, k), Of(d.up, k), Of(d.down, k))
  }

  /** What an end keeps by itself: bytes are picked up, framed and sent in the order written. */
  ghost predicate Own(t: End, pumped: seq<Bit>) {
    && NoOpen(pumped)
    && if t.open then t.sent + Payload(pumped) + t.pipe == t.wrote else t.sent <= t.wrote
  }

  /** The messages `c` on their way from end `a` to end `b`: first the one opening the tunnel, if `b`
      does not know it; and what `b` was handed plus what is on its way is what `a` sent, until `b`
      closes. */
  ghost predicate Carried(opener: bool, c: seq<Bit>, a: End, b: Option<End>) {
    match b
    case None => opener && c != [] && c[0].kind == KIND_OPEN && NoOpen(c[1..]) && Payload(c) == a.sent && a.read == []
    case Some(t) => NoOpen(c) && if t.open then t.read + Payload(c) == a.sent else t.read <= a.sent
  }

  /** The direction from end `a` of a tunnel to end `b`; `opener` tells whether `a` opened it. */
  ghost predicate Direction(opener: bool, a: View, b: View) {
    match a.tunnel
    case None => b.down + a.up == [] && a.pumped == [] && (b.tunnel.Some? ==> !opener)
    case Some(t) => Own(t, a.pumped) && Carried(opener, b.down + a.up, t, b.tunnel)
  }

  ghost predicate Both(opener: bool, a: View, b: View) {
    Direction(opener, a, b) && Direction(!opener, b, a)
  }

  lemma BothIsSymmetric(opener: bool, a: View, b: View)
    ensures Both(opener, a, b) == Both(!opener, b, a)
  {
  }

  // ---- What steps do to one tunnel ----

  lemma ViewOpens(a: View, b: View)
    requires Both(true, a, b) && a.tunnel.None?
    ensures Both(true, a.(tunnel := Some(NewEnd()), up := a.up + [Bit(KIND_OPEN, [])]), b)
  {
    var a' := a.(tunnel := Some(NewEnd()), up := a.up + [Bit(KIND_OPEN, [])]);
    assert b.down + a'.up == [Bit(KIND_OPEN, [])];
    PayloadHead(b.down + a'.up);
  }

  lemma ViewWrites(opener: bool, a: View, b: View, data: seq<byte>)
    requires Both(opener, a, b) && a.tunnel.Some?
    ensures var t := a.tunnel.value;
      Both(opener, a.(tunnel := Some(t.(wrote := t.wrote + data, pipe := t.pipe + data))), b)
  {
    var t := a.tunnel.value;
    if t.open {
      assert t.sent + Payload(a.pumped) + (t.pipe + data) == (t.sent + Payload(a.pumped) + t.pipe) + data;
    }
  }

  lemma ViewPicksUp(opener: bool, a: View, b: View, n: nat)
    requires Both(opener, a, b) && a.tunnel.Some? && n <= |a.tunnel.value.pipe|
    ensures var t := a.tunnel.value;
      Both(opener, a.(tunnel := Some(t.(pipe := t.pipe[n..])), pumped := a.pumped + [Bit(KIND_DATA, t.pipe[..n])]), b)
  {
    var t := a.tunnel.value;
    PayloadAppend(a.pumped, Bit(KIND_DATA, t.pipe[..n]));
    if t.open {
      assert t.sent + (Payload(a.pumped) + t.pipe[..n]) + t.pipe[n..] == t.sent + Payload(a.pumped) + t.pipe;
    }
  }

  lemma ViewEnds(opener: bool, a: View, b: View)
    requires Both(opener, a, b) && a.tunnel.Some?
    ensures Both(opener,
        a.(tunnel := Some(a.tunnel.value.(ended := true)), pumped := a.pumped + [Bit(KIND_CLOSE, [])]), b)
  {
    PayloadAppend(a.pumped, Bit(KIND_CLOSE, []));
  }

  predicate Opened(t: Option<End>) {
    t.Some? && t.value.open
  }

  function Shutting(t: Option<End>): Option<End> {
    match t
    case None => None
    case Some(v) => Some(v.(open := false))
  }

  /** A chunk or an end of session leaves the pump. */
  function PumpView(a: View): View
    requires a.pumped != []
  {
    var m := a.pumped[0];
    var rest := a.pumped[1..];
    if !Opened(a.tunnel) then a.(pumped := rest)
    else if m.kind == KIND_DATA then
      var t := a.tunnel.value;
      View(Some(t.(sent := t.sent + m.data)), rest, a.up + [Bit(KIND_DATA, m.data)], a.down)
    else View(Shutting(a.tunnel), rest, a.up + [Bit(KIND_CLOSE, [])], a.down)
  }

  lemma PumpsOwn(a: View)
    requires a.pumped != [] && a.tunnel.Some? && Own(a.tunnel.value, a.pumped)
    ensures Own(PumpView(a).tunnel.value, PumpView(a).pumped)
  {
    var m, t := a.pumped[0], a.tunnel.value;
    PayloadHead(a.pumped);
    if t.open && m.kind == KIND_DATA {
      assert (t.sent + m.data) + Payload(a.pumped[1..]) + t.pipe == t.sent + (m.data + Payload(a.pumped[1..])) + t.pipe;
    }
  }

  /** One more message, not an opening, sent by `a`. */
  lemma CarriesMore(opener: bool, c: seq<Bit>, a: End, b: Option<End>, m: Bit)
    requires Carried(opener, c, a, b) && m.kind != KIND_OPEN
    ensures Carried(opener, c + [m], a.(sent := a.sent + if m.kind == KIND_DATA then m.data else []), b)
  {
    PayloadAppend(c, m);
    var more := if m.kind == KIND_DATA then m.data else [];
    if b.None? {
      assert (c + [m])[1..] == c[1..] + [m];
    } else if b.value.open {
      assert b.value.read + (Payload(c) + more) == (b.value.read + Payload(c)) + more;
    }
  }

  lemma PumpsCarried(opener: bool, a: View, b: View)
    requires a.pumped != [] && a.tunnel.Some? && Carried(opener, b.down + a.up, a.tunnel.value, b.tunnel)
    ensures Carried(opener, b.down + PumpView(a).up, PumpView(a).tunnel.value, b.tunnel)
  {
    var t := a.tunnel.value;
    if t.open {
      var m := a.pumped[0];
      var bit := if m.kind == KIND_DATA then Bit(KIND_DATA, m.data) else Bit(KIND_CLOSE, []);
      CarriesMore(opener, b.down + a.up, t, b.tunnel, bit);
      assert b.down + (a.up + [bit]) == (b.down + a.up) + [bit];
      assert t.sent + [] == t.sent;
    }
  }

  /** Closing its end, `b` still has been handed a prefix of what `a` sent. */
  lemma ShuttingKeepsCarried(opener: bool, c: seq<Bit>, a: End, b: Option<End>)
    requires Carried(opener, c, a, b)
    ensures Carried(opener, c, a, Shutting(b))
  {
  }

  lemma ViewPumps(opener: bool, a: View, b: View)
    requires Both(opener, a, b) && a.pumped != []
    ensures Both(opener, PumpView(a), b)
  {
    PumpsOwn(a);
    PumpsCarried(opener, a, b);
    if b.tunnel.Some? {
      ShuttingKeepsCarried(!opener, a.down + b.up, b.tunnel.value, a.tunnel);
    }
  }

  lemma ViewRelays(opener: bool, a: View, b: View)
    requires Both(opener, a, b) && a.up != []
    ensures Both(opener, a.(up := a.up[1..]), b.(down := b.down + [a.up[0]]))
  {
    assert (b.down + [a.up[0]]) + a.up[1..] == b.down + a.up;
  }

  /** What a message does to the end it reaches. */
  function ReceiveEnd(opener: bool, t: Option<End>, m: Bit, listening: bool): Option<End> {
    if m.kind == KIND_OPEN then if opener then t else Some(NewEnd())
    else if m.kind == KIND_DATA && Opened(t) && listening then Some(t.value.(read := t.value.read + m.data))
    else Shutting(t)
  }

  /** What it is answered with. */
  function Answer(t: Option<End>, m: Bit, listening: bool): seq<Bit> {
    if m.kind == KIND_DATA && !(Opened(t) && listening) then [Bit(KIND_CLOSE, [])] else []
  }

  /** A message reaches end `b`. */
  function ReceiveView(opener: bool, b: View, listening: bool): View
    requires b.down != []
  {
    var m := b.down[0];
    View(ReceiveEnd(opener, b.tunnel, m, listening), b.pumped, b.up + Answer(b.tunnel, m, listening), b.down[1..])
  }

  lemma ViewReceivesOpen(opener: bool, b: View, a: View, listening: bool)
    requires Both(opener, b, a) && b.down != [] && b.down[0].kind == KIND_OPEN
    ensures Both(opener, ReceiveView(opener, b, listening), a)
  {
    var c := b.down + a.up;
    assert c[0] == b.down[0] && c[1..] == b.down[1..] + a.up;
    assert a.tunnel.Some? && b.tunnel.None? && !opener;
    assert a.down + b.up == [] && b.up + [] == b.up;
    PayloadHead(c);
  }

  /** The direction from `a` to `b`, when `b` takes the first message. */
  lemma ReceivesCarried(opener: bool, b: View, a: View, listening: bool)
    requires b.down != [] && b.down[0].kind != KIND_OPEN && b.tunnel.Some? && a.tunnel.Some?
    requires Carried(!opener, b.down + a.up, a.tunnel.value, b.tunnel)
    ensures var b' := ReceiveView(opener, b, listening);
      b'.tunnel.Some? && Carried(!opener, b'.down + a.up, a.tunnel.value, b'.tunnel)
  {
    var c := b.down + a.up;
    var m, t := b.down[0], b.tunnel.value;
    assert c[0] == m && c[1..] == b.down[1..] + a.up;
    PayloadHead(c);
    if m.kind == KIND_DATA && t.open && listening {
      assert (t.read + m.data) + Payload(c[1..]) == t.read + (m.data + Payload(c[1..]));
    }
  }

  lemma ViewReceivesOther(opener: bool, b: View, a: View, listening: bool)
    requires Both(opener, b, a) && b.down != [] && b.down[0].kind != KIND_OPEN
    ensures Both(opener, ReceiveView(opener, b, listening), a)
  {
    var b' := ReceiveView(opener, b, listening);
    assert (b.down + a.up)[0] == b.down[0];
    assert a.tunnel.Some? && b.tunnel.Some?;
    ReceivesCarried(opener, b, a, listening);
    var t := b.tunnel.value;
    if Answer(b.tunnel, b.down[0], listening) == [] {
      assert b'.up == b.up;
    } else {
      assert a.down + b'.up == (a.down + b.up) + [Bit(KIND_CLOSE, [])];
      CarriesMore(opener, a.down + b.up, t, a.tunnel, Bit(KIND_CLOSE, []));
      assert t.sent + [] == t.sent;
    }
  }

  lemma ViewReceives(opener: bool, b: View, a: View, listening: bool)
    requires Both(opener, b, a) && b.down != []
    ensures Both(opener, ReceiveView(opener, b, listening), a)
  {
    if b.down[0].kind == KIND_OPEN {
      ViewReceivesOpen(opener, b, a, listening);
    } else {
      ViewReceivesOther(opener, b, a, listening);
    }
  }
}
