/** Fixed-width integers and the little-endian layouts both processors use on the wire. */
module Bytes {
  type byte = x: int | 0 <= x < 0x100
  type u16 = x: int | 0 <= x < 0x1_0000
  type u32 = x: int | 0 <= x < 0x1_0000_0000

  function Min(a: int, b: int): (r: int)
    ensures r <= a && r <= b && (r == a || r == b)
  {
    if a < b then a else b
  }

  function Le16(x: u16): (r: seq<byte>)
    ensures |r| == 2
  {
    [x % 0x100, x / 0x100]
  }

  function Le32(x: u32): (r: seq<byte>)
    ensures |r| == 4
  {
    [x % 0x100, x / 0x100 % 0x100, x / 0x1_0000 % 0x100, x / 0x100_0000]
  }

  function Read16(s: seq<byte>, at: nat): u16
    requires at + 2 <= |s|
  {
    var lo: int, hi: int := s[at], s[at + 1];
    lo + 0x100 * hi
  }

  function Read32(s: seq<byte>, at: nat): u32
    requires at + 4 <= |s|
  {
    var a: int, b: int, c: int, d: int := s[at], s[at + 1], s[at + 2], s[at + 3];
    a + 0x100 * b + 0x1_0000 * c + 0x100_0000 * d
  }

  /** Reading back a 16-bit field finds what was written there, wherever the field sits. */
  lemma Le16RoundTrip(pre: seq<byte>, x: u16, post: seq<byte>)
    ensures Read16(pre + Le16(x) + post, |pre|) == x
  {
    var s := pre + Le16(x) + post;
    assert s[|pre|] == Le16(x)[0] && s[|pre| + 1] == Le16(x)[1];
  }

  lemma Le32Digits(x: u32)
    ensures x % 0x100 + 0x100 * (x / 0x100 % 0x100) + 0x1_0000 * (x / 0x1_0000 % 0x100) + 0x100_0000 * (x / 0x100_0000) == x
  {
    var a, b: int := x / 0x100, x / 0x1_0000;
    assert x == 0x100 * a + x % 0x100;
    assert a / 0x100 == b && a == 0x100 * b + a % 0x100;
    assert b / 0x100 == x / 0x100_0000;
  }

  lemma Le32RoundTrip(pre: seq<byte>, x: u32, post: seq<byte>)
    ensures Read32(pre + Le32(x) + post, |pre|) == x
  {
    var s, le, at := pre + Le32(x) + post, Le32(x), |pre|;
    assert s[at] == le[0] && s[at + 1] == le[1] && s[at + 2] == le[2] && s[at + 3] == le[3];
    Le32Digits(x);
  }

  /** `memcpy` into a buffer. */
  method CopyTo(buf: array<byte>, at: nat, src: seq<byte>)
    requires at + |src| <= buf.Length
    modifies buf
    ensures buf[..at] == old(buf[..at]) && buf[at..at + |src|] == src && buf[at + |src|..] == old(buf[at + |src|..])
  {
    var i := 0;
    while i < |src|
      invariant 0 <= i <= |src|
      invariant buf[..at] == old(buf[..at]) && buf[at..at + i] == src[..i] && buf[at + |src|..] == old(buf[at + |src|..])
    {
      buf[at + i] := src[i];
      i := i + 1;
      assert buf[at..at + i] == buf[at..at + i - 1] + [buf[at + i - 1]];
    }
  }
}
