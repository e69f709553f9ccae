/** The constant of the CRC32c, as bits and as a number. */
module Crc32cPolynomial {
  import opened Crc32c

  function Bit(b: bool): nat {
    if b then 1 else 0
  }

  lemma {:induction false} ValueDrop(s: seq<bool>, n: nat)
    requires n < |s|
    ensures Value(s[n..]) == Bit(s[n]) + 2 * Value(s[n + 1..])
  {
    assert s[n..][1..] == s[n + 1..];
  }

  function OctetAt(s: seq<bool>, n: nat): nat
    requires n + 8 <= |s|
  {
    Bit(s[n]) + 2 * Bit(s[n + 1]) + 4 * Bit(s[n + 2]) + 8 * Bit(s[n + 3]) + 16 * Bit(s[n + 4]) + 32 * Bit(s[n + 5])
    + 64 * Bit(s[n + 6]) + 128 * Bit(s[n + 7])
  }

  lemma ValueOctet(s: seq<bool>, n: nat)
    requires n + 8 <= |s|
    ensures Value(s[n..]) == OctetAt(s, n) + 256 * Value(s[n + 8..])
  {
    hide Value;
    ValueDrop(s, n + 7);
    ValueDrop(s, n + 6);
    ValueDrop(s, n + 5);
    ValueDrop(s, n + 4);
    ValueDrop(s, n + 3);
    ValueDrop(s, n + 2);
    ValueDrop(s, n + 1);
    ValueDrop(s, n);
  }

  lemma NoBits(s: seq<bool>)
    ensures Value(s[|s|..]) == 0
  {
  }

  lemma ValueOctets(w: Word)
    ensures Value(w) == OctetAt(w, 0) + 0x100 * OctetAt(w, 8) + 0x1_0000 * OctetAt(w, 16) + 0x100_0000 * OctetAt(w, 24)
  {
    hide Value, OctetAt;
    NoBits(w);
    ValueOctet(w, 24);
    ValueOctet(w, 16);
    ValueOctet(w, 8);
    ValueOctet(w, 0);
    assert w[0..] == w;
  }

  lemma LowOctet()
    ensures OctetAt(POLY, 0) == 0x78
  {
  }

  lemma SecondOctet()
    ensures OctetAt(POLY, 8) == 0x3B
  {
  }

  lemma HighOctets()
    ensures OctetAt(POLY, 16) == 0xF6 && OctetAt(POLY, 24) == 0x82
  {
  }

  /** The bits are those of the constant in the code. */
  lemma PolynomialValue()
    ensures Value(POLY) == 0x82F6_3B78
  {
    hide Value, OctetAt;
    ValueOctets(POLY);
    LowOctet();
    SecondOctet();
    HighOctets();
  }
}
