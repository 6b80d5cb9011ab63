/** Bytes and fixed-width integers on the wire. */
module Bytes {
  type byte = x: int | 0 <= x < 256

  const U16_LIMIT := 0x1_0000
  const U32_LIMIT := 0x1_0000_0000

  function Big16(n: nat): seq<byte>
    requires n < U16_LIMIT
  {
    [n / 0x100, n % 0x100]
  }

  function Read16(b: seq<byte>): nat
    requires |b| == 2
  {
    b[0] as int * 0x100 + b[1] as int
  }

  function Big32(n: nat): seq<byte>
    requires n < U32_LIMIT
  {
    [n / 0x1000000, n / 0x10000 % 0x100, n / 0x100 % 0x100, n % 0x100]
  }

  function Read32(b: seq<byte>): nat
    requires |b| == 4
  {
    b[0] as int * 0x1000000 + b[1] as int * 0x10000 + b[2] as int * 0x100 + b[3] as int
  }

  function Little32(n: nat): seq<byte>
    requires n < U32_LIMIT
  {
    [n % 0x100, n / 0x100 % 0x100, n / 0x10000 % 0x100, n / 0x1000000]
  }

  lemma Big16Reads(n: nat)
    requires n < U16_LIMIT
    ensures Read16(Big16(n)) == n
  {
  }

  lemma Split32(n: nat)
    requires n < U32_LIMIT
    ensures n == n / 0x1000000 * 0x1000000 + n / 0x10000 % 0x100 * 0x10000 + n / 0x100 % 0x100 * 0x100 + n % 0x100
  {
    assert n == n / 0x100 * 0x100 + n % 0x100;
    assert n / 0x100 == n / 0x10000 * 0x100 + n / 0x100 % 0x100;
    assert n / 0x10000 == n / 0x1000000 * 0x100 + n / 0x10000 % 0x100;
  }

  lemma Big32Reads(n: nat)
    requires n < U32_LIMIT
    ensures Read32(Big32(n)) == n
  {
    Split32(n);
  }

  lemma ReadBig32(b: seq<byte>)
    requires |b| == 4
    ensures Read32(b) < U32_LIMIT && Big32(Read32(b)) == b
  {
    var n := Read32(b);
    var (x, y, z) := (b[0] as int, b[1] as int, b[2] as int);
    assert n / 0x100 == x * 0x10000 + y * 0x100 + z;
    assert n / 0x10000 == x * 0x100 + y;
    assert n / 0x1000000 == x;
  }

  lemma Little32Injective(m: nat, n: nat)
    requires m < U32_LIMIT && n < U32_LIMIT && Little32(m) == Little32(n)
    ensures m == n
  {
    Split32(m);
    Split32(n);
    assert Little32(m)[0] == Little32(n)[0] && Little32(m)[1] == Little32(n)[1];
    assert Little32(m)[2] == Little32(n)[2] && Little32(m)[3] == Little32(n)[3];
  }
}
