/** Octets and the big-endian fields that the packet builder stores. */
module Bytes {

  type Byte = x: int | 0 <= x < 256
  type Uint16 = x: int | 0 <= x < 0x1_0000
  type Uint32 = x: int | 0 <= x < 0x1_0000_0000

  /** osmo_store16be() */
  function Be16(v: Uint16): (s: seq<Byte>)
    ensures |s| == 2
  {
    [v / 256, v % 256]
  }

  /** osmo_store32be() */
  function Be32(v: Uint32): (s: seq<Byte>)
    ensures |s| == 4
  {
    Be16(v / 0x1_0000) + Be16(v % 0x1_0000)
  }

  function Get16(s: seq<Byte>, at: nat): Uint16
    requires at + 2 <= |s|
  {
    var hi: int, lo: int := s[at], s[at + 1];
    hi * 256 + lo
  }

  function Get32(s: seq<Byte>, at: nat): Uint32
    requires at + 4 <= |s|
  {
    var hi: int, lo: int := Get16(s, at), Get16(s, at + 2);
    hi * 0x1_0000 + lo
  }

  function Zeros(n: nat): (s: seq<Byte>)
    ensures |s| == n
  {
    seq(n, _ => 0)
  }

  lemma GetBe16(a: seq<Byte>, v: Uint16, b: seq<Byte>)
    ensures Get16(a + Be16(v) + b, |a|) == v
  {
  }

  lemma GetBe32(a: seq<Byte>, v: Uint32, b: seq<Byte>)
    ensures Get32(a + Be32(v) + b, |a|) == v
  {
    var s := a + Be32(v) + b;
    var hi, lo := v / 0x1_0000, v % 0x1_0000;
    GetBe16(a, hi, Be16(lo) + b);
    assert s == a + Be16(hi) + (Be16(lo) + b);
    GetBe16(a + Be16(hi), lo, b);
    assert s == (a + Be16(hi)) + Be16(lo) + b;
  }

  /** A field can be read from any slice that holds it. */
  lemma GetInSlice(s: seq<Byte>, from: nat, to: nat, at: nat)
    requires from <= to <= |s|
    ensures from + at + 2 <= to ==> Get16(s, from + at) == Get16(s[from..to], at)
    ensures from + at + 4 <= to ==> Get32(s, from + at) == Get32(s[from..to], at)
  {
  }

  /** Concatenation is associative; stated where a proof needs just that. */
  lemma Regroup(a: seq<Byte>, b: seq<Byte>, c: seq<Byte>, d: seq<Byte>)
    ensures a + b + c == a + (b + c)
    ensures a + b + c + d == a + (b + c + d)
    ensures a + b + (c + d) == a + (b + c + d)
  {
  }

  /** memcpy() into a buffer, and every other run of stores. */
  method Store(b: array<Byte>, at: nat, s: seq<Byte>)
    requires at + |s| <= b.Length
    modifies b
    ensures b[..at] == old(b[..at])
    ensures b[..at + |s|] == old(b[..at]) + s
    ensures forall i :: at + |s| <= i < b.Length ==> b[i] == old(b[i])
  {
    for i := 0 to |s|
      invariant b[..at] == old(b[..at])
      invariant b[at..at + i] == s[..i]
      invariant forall j :: at + i <= j < b.Length ==> b[j] == old(b[j])
    {
      b[at + i] := s[i];
    }
    assert s[..|s|] == s;
    assert b[..at + |s|] == b[..at] + b[at..at + |s|];
  }
}
