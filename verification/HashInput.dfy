/** The bytes fed to the content hash: equal for two contents exactly when they are the same copy. */
module HashInput {
  import opened Bytes
  import opened Content

  /** One character in UTF-8 (section 3 of RFC 3629). */
  function Utf8Char(c: char): seq<byte> {
    var n := c as int;
    if n < 0x80 then [n]
    else if n < 0x800 then [0xC0 + n / 0x40, 0x80 + n % 0x40]
    else if n < 0x10000 then [0xE0 + n / 0x1000, 0x80 + n / 0x40 % 0x40, 0x80 + n % 0x40]
    else [0xF0 + n / 0x40000, 0x80 + n / 0x1000 % 0x40, 0x80 + n / 0x40 % 0x40, 0x80 + n % 0x40]
  }

  function Utf8(s: string): seq<byte> {
    if s == [] then [] else Utf8Char(s[0]) + Utf8(s[1..])
  }

  const TEXT_PREFIX: seq<byte> := [0x63, 0x6C, 0x65, 0x64, 0x3A, 0x74, 0x65, 0x78, 0x74, 0]
  const IMAGE_PREFIX: seq<byte> := [0x63, 0x6C, 0x65, 0x64, 0x3A, 0x69, 0x6D, 0x61, 0x67, 0x65, 0]

  /** An image's sizes are 32-bit. */
  predicate Sized(c: Content) {
    c.Image? ==> c.width < U32_LIMIT && c.height < U32_LIMIT
  }

  /** The bytes hashed, in the order they are fed in. */
  method Feed(c: Content) returns (fed: seq<byte>)
    requires Sized(c)
    ensures fed == HashedBytes(c)
  {
    fed := [];
    match c
    case Text(text) =>
      fed := fed + TEXT_PREFIX;
      fed := fed + Utf8(TrimEnd(text));
    case Image(w, h, rgba) =>
      fed := fed + IMAGE_PREFIX;
      fed := fed + Little32(w);
      fed := fed + Little32(h);
      fed := fed + rgba;
      assert fed == IMAGE_PREFIX + Little32(w) + Little32(h) + rgba;
  }

  function HashedBytes(c: Content): seq<byte>
    requires Sized(c)
  {
    match c
    case Text(text) => TEXT_PREFIX + Utf8(TrimEnd(text))
    case Image(w, h, rgba) => IMAGE_PREFIX + Little32(w) + Little32(h) + rgba
  }

  /** A character's first byte tells how many bytes it has, and they tell the character. */
  lemma Utf8CharPrefix(c: char, x: seq<byte>, d: char, y: seq<byte>)
    requires Utf8Char(c) + x == Utf8Char(d) + y
    ensures c == d && x == y
  {
    var a, b := Utf8Char(c), Utf8Char(d);
    assert (a + x)[0] == a[0] && (b + y)[0] == b[0];
    LeadByte(c);
    LeadByte(d);
    assert |a| == |b|;
    assert a == (a + x)[..|a|] && b == (b + y)[..|b|];
    assert x == (a + x)[|a|..] && y == (b + y)[|b|..];
    SameBytesSameChar(c, d);
  }

  lemma LeadByte(c: char)
    ensures var u := Utf8Char(c);
      |u| == if u[0] < 0x80 then 1 else if u[0] < 0xE0 then 2 else if u[0] < 0xF0 then 3 else 4
  {
  }

  /** The character the bytes of one character stand for. */
  function Decode(u: seq<byte>): int {
    if |u| == 1 then u[0] as int
    else if |u| == 2 then (u[0] as int - 0xC0) * 0x40 + (u[1] as int - 0x80)
    else if |u| == 3 then (u[0] as int - 0xE0) * 0x1000 + (u[1] as int - 0x80) * 0x40 + (u[2] as int - 0x80)
    else if |u| == 4 then
      (u[0] as int - 0xF0) * 0x40000 + (u[1] as int - 0x80) * 0x1000 + (u[2] as int - 0x80) * 0x40
      + (u[3] as int - 0x80)
    else 0
  }

  lemma DecodesChar(c: char)
    ensures Decode(Utf8Char(c)) == c as int
  {
    var n := c as int;
    assert n == n / 0x40 * 0x40 + n % 0x40;
    assert n / 0x40 == n / 0x1000 * 0x40 + n / 0x40 % 0x40;
    assert n / 0x1000 == n / 0x40000 * 0x40 + n / 0x1000 % 0x40;
  }

  lemma SameBytesSameChar(c: char, d: char)
    requires Utf8Char(c) == Utf8Char(d)
    ensures c == d
  {
    DecodesChar(c);
    DecodesChar(d);
  }

  lemma {:induction false} Utf8Injective(s: string, t: string)
    requires Utf8(s) == Utf8(t)
    ensures s == t
  {
    if s != [] && t != [] {
      Utf8CharPrefix(s[0], Utf8(s[1..]), t[0], Utf8(t[1..]));
      Utf8Injective(s[1..], t[1..]);
      assert s == [s[0]] + s[1..] && t == [t[0]] + t[1..];
    }
  }

  /** Two contents are hashed alike exactly when they have one identity: text and images never mix,
      and neither do images of different shape. */
  lemma HashedAlikeIffSameIdentity(a: Content, b: Content)
    requires Sized(a) && Sized(b)
    ensures HashedBytes(a) == HashedBytes(b) <==> IdentityOf(a) == IdentityOf(b)
  {
    var x, y := HashedBytes(a), HashedBytes(b);
    if x == y {
      assert x[5] == if a.Text? then 0x74 else 0x69;
      assert y[5] == if b.Text? then 0x74 else 0x69;
      if a.Text? {
        assert x[10..] == Utf8(TrimEnd(a.text)) && y[10..] == Utf8(TrimEnd(b.text));
        Utf8Injective(TrimEnd(a.text), TrimEnd(b.text));
      } else {
        assert x[11..15] == Little32(a.width) && y[11..15] == Little32(b.width);
        assert x[15..19] == Little32(a.height) && y[15..19] == Little32(b.height);
        assert x[19..] == a.rgba && y[19..] == b.rgba;
        Little32Injective(a.width, b.width);
        Little32Injective(a.height, b.height);
      }
    }
  }
}
