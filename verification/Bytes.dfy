// Octets and the fixed-width integers that are laid out in them.
module Bytes {

  type byte = b: int | 0 <= b < 256

  const U16: nat := 0x1_0000
  const U32: nat := 0x1_0000_0000

  type u16 = n: int | 0 <= n < 0x1_0000
  type u32 = n: int | 0 <= n < 0x1_0000_0000

  /** Network order, as htonl leaves it in memory. */
  function BE32(n: u32): (s: seq<byte>)
    ensures |s| == 4 && FromBE32(s) == n
  {
    var n1, n2, n3 := n / 256, n / 256 / 256, n / 256 / 256 / 256;
    [n3, n2 % 256, n1 % 256, n % 256]
  }

  function FromBE32(s: seq<byte>): (n: u32)
    requires |s| >= 4
  {
    var a: int, b: int, c: int, d: int := s[0], s[1], s[2], s[3];
    256 * (256 * (256 * a + b) + c) + d
  }

  lemma BE32OfFromBE32(s: seq<byte>)
    requires |s| >= 4
    ensures BE32(FromBE32(s)) == s[..4]
  {
    var a: int, b: int, c: int, d: int := s[0], s[1], s[2], s[3];
    var n := FromBE32(s);
    DropOctet(256 * (256 * a + b) + c, d);
    DropOctet(256 * a + b, c);
    DropOctet(a, b);
    assert n / 256 == 256 * (256 * a + b) + c;
  }

  lemma DropOctet(high: int, low: byte)
    ensures (256 * high + low) / 256 == high && (256 * high + low) % 256 == low
  {
  }

  function BE16(n: u16): (s: seq<byte>)
    ensures |s| == 2 && FromBE16(s) == n
  {
    [n / 256, n % 256]
  }

  function FromBE16(s: seq<byte>): (n: u16)
    requires |s| >= 2
  {
    var a: int, b: int := s[0], s[1];
    256 * a + b
  }

  /** Host order of the little-endian machines the library is built for. */
  function LE32(n: u32): (s: seq<byte>)
    ensures |s| == 4 && FromLE32(s) == n
  {
    var n1, n2, n3 := n / 256, n / 256 / 256, n / 256 / 256 / 256;
    [n % 256, n1 % 256, n2 % 256, n3]
  }

  function FromLE32(s: seq<byte>): (n: u32)
    requires |s| >= 4
  {
    var a: int, b: int, c: int, d: int := s[3], s[2], s[1], s[0];
    256 * (256 * (256 * a + b) + c) + d
  }

  function LE16(n: u16): (s: seq<byte>)
    ensures |s| == 2 && FromLE16(s) == n
  {
    [n % 256, n / 256]
  }

  function FromLE16(s: seq<byte>): (n: u16)
    requires |s| >= 2
  {
    var a: int, b: int := s[1], s[0];
    256 * a + b
  }

  function Repeat(b: byte, n: nat): (s: seq<byte>)
    ensures |s| == n && forall i :: 0 <= i < n ==> s[i] == b
  {
    seq(n, _ => b)
  }

  /** A number depends on its own octets only. */
  lemma SameNumber(s: seq<byte>, n: seq<byte>)
    requires |s| >= 4 && |n| >= 4 && s[0] == n[0] && s[1] == n[1] && s[2] == n[2] && s[3] == n[3]
    ensures FromBE32(s) == FromBE32(n) && FromLE32(s) == FromLE32(n)
  {
  }

  lemma SamePair(s: seq<byte>, n: seq<byte>)
    requires |s| >= 2 && |n| >= 2 && s[0] == n[0] && s[1] == n[1]
    ensures FromBE16(s) == FromBE16(n) && FromLE16(s) == FromLE16(n)
  {
  }
}
