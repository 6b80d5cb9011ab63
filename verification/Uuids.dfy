/** Device IDs as text: a UUID's 128 bits as 32 hexadecimal digits in groups of 8, 4, 4, 4 and 12
    (section 4 of RFC 9562). They keep what the tunnel codecs ask of device names. */
module Uuids {
  import opened Bytes
  import opened Wrappers
  import opened TunnelWire

  const DASH: byte := 0x2D

  function Digit(v: nat): byte
    requires v < 16
  {
    if v < 10 then 0x30 + v else 0x61 + (v - 10)
  }

  /** Either case is read. */
  function DigitValue(b: byte): (r: Option<nat>)
    ensures r.Some? ==> r.value < 16
  {
    if 0x30 <= b <= 0x39 then Some(b as int - 0x30)
    else if 0x61 <= b <= 0x66 then Some(b as int - 0x61 + 10)
    else if 0x41 <= b <= 0x46 then Some(b as int - 0x41 + 10)
    else None
  }

  /** The lowest `n` hexadecimal digits, the highest first. */
  function Digits(v: nat, n: nat): (r: seq<byte>)
    ensures |r| == n
  {
    if n == 0 then [] else Digits(v / 16, n - 1) + [Digit(v % 16)]
  }

  function Value(s: seq<byte>): Option<nat> {
    if s == [] then Some(0)
    else
      match (Value(s[..|s| - 1]), DigitValue(s[|s| - 1]))
      case (Some(high), Some(low)) => Some(high * 16 + low)
      case _ => None
  }

  function Grouped(h: seq<byte>): seq<byte>
    requires |h| == 32
  {
    h[..8] + [DASH] + h[8..12] + [DASH] + h[12..16] + [DASH] + h[16..20] + [DASH] + h[20..]
  }

  function Show(d: TunnelWire.DeviceId): seq<byte> {
    Grouped(Digits(d, 32))
  }

  function Parse(s: seq<byte>): Option<TunnelWire.DeviceId> {
    if |s| == 36 && s[8] == DASH && s[13] == DASH && s[18] == DASH && s[23] == DASH then
      var v := Value(s[..8] + s[9..13] + s[14..18] + s[19..23] + s[24..]);
      if v.Some? && v.value < ID_LIMIT then Some(v.value) else None
    else None
  }

  const UUID_NAMES: Names := Names(Show, Parse)

  function Power16(n: nat): nat {
    if n == 0 then 1 else 16 * Power16(n - 1)
  }

  lemma {:induction false} DigitsAreRead(v: nat, n: nat)
    requires v < Power16(n)
    ensures Value(Digits(v, n)) == Some(v)
    ensures forall i :: 0 <= i < n ==> IsIdentifierByte(Digits(v, n)[i])
  {
    if n > 0 {
      DigitsAreRead(v / 16, n - 1);
      assert Digits(v, n)[..n - 1] == Digits(v / 16, n - 1);
      assert DigitValue(Digit(v % 16)) == Some(v % 16);
    }
  }

  lemma FourMore(n: nat, m: nat, p: nat)
    requires Power16(n) == p && m == n + 4
    ensures Power16(m) == 0x1_0000 * p
  {
    assert Power16(n + 4) == 16 * Power16(n + 3) && Power16(n + 2) == 16 * Power16(n + 1);
  }

  lemma PowerOf32(n: nat)
    requires n == 32
    ensures Power16(n) == ID_LIMIT
  {
    FourMore(n - 32, n - 28, 1);
    FourMore(n - 28, n - 24, 0x1_0000);
    FourMore(n - 24, n - 20, 0x1_0000_0000);
    FourMore(n - 20, n - 16, 0x1_0000_0000_0000);
    FourMore(n - 16, n - 12, 0x1_0000_0000_0000_0000);
    FourMore(n - 12, n - 8, 0x1_0000_0000_0000_0000_0000);
    FourMore(n - 8, n - 4, 0x1_0000_0000_0000_0000_0000_0000);
    FourMore(n - 4, n, 0x1_0000_0000_0000_0000_0000_0000_0000);
  }

  lemma Ungrouped(h: seq<byte>)
    requires |h| == 32
    ensures var s := Grouped(h);
      && |s| == 36 && s[8] == DASH && s[13] == DASH && s[18] == DASH && s[23] == DASH
      && s[..8] + s[9..13] + s[14..18] + s[19..23] + s[24..] == h
  {
    var s := Grouped(h);
    assert s[..8] == h[..8] && s[9..13] == h[8..12] && s[14..18] == h[12..16];
    assert s[19..23] == h[16..20] && s[24..] == h[20..];
  }

  lemma GroupedIsIdentifier(h: seq<byte>)
    requires |h| == 32 && forall i :: 0 <= i < 32 ==> IsIdentifierByte(h[i])
    ensures IsIdentifier(Grouped(h))
  {
  }

  /** UUIDs in this form are names the codecs can use. */
  lemma UuidNamesAreFaithful()
    ensures Faithful(UUID_NAMES)
  {
    forall d: TunnelWire.DeviceId
      ensures |Show(d)| == 36 && IsIdentifier(Show(d)) && Parse(Show(d)) == Some(d)
    {
      PowerOf32(32);
      DigitsAreRead(d, 32);
      Ungrouped(Digits(d, 32));
      GroupedIsIdentifier(Digits(d, 32));
    }
  }
}
