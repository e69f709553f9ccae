/** csum_add() and csum_fold() of msc_iptrace.c against the end-around-carry sum of section 1 of RFC 1071. */
module InternetChecksum {
  import opened Bytes

  /** The plain sum of the 16-bit words of a message; a last odd octet is padded with zero. */
  function WordSum(s: seq<Byte>): nat {
    if |s| == 0 then 0
    else if |s| == 1 then High(s[0])
    else High(s[0]) + s[1] + WordSum(s[2..])
  }

  function High(b: Byte): nat {
    var v: int := b;
    v * 256
  }

  // ---- Reference: ones' complement addition, one word at a time ----

  function OnesAdd(a: Uint16, b: Uint16): Uint16 {
    if a + b > 0xFFFF then a + b - 0xFFFF else a + b
  }

  function OnesSum(s: seq<Byte>): Uint16 {
    if |s| == 0 then 0
    else if |s| == 1 then High(s[0])
    else OnesAdd(High(s[0]) + s[1], OnesSum(s[2..]))
  }

  /** A message that includes its own checksum is intact if its sum is all ones. */
  predicate ChecksOut(s: seq<Byte>) {
    OnesSum(s) == 0xFFFF
  }

  /** A plain sum with its carries folded back in. */
  function Folded(sum: nat): (f: Uint16)
    ensures (sum - f) % 0xFFFF == 0
    ensures f == 0 <==> sum == 0
  {
    if sum == 0 then 0 else 1 + (sum - 1) % 0xFFFF
  }

  /** Folding once at the end is carrying around at every word. */
  lemma {:induction false} FoldedIsOnesSum(s: seq<Byte>)
    ensures OnesSum(s) == Folded(WordSum(s))
  {
    if |s| >= 2 {
      FoldedIsOnesSum(s[2..]);
      FoldedAdd(High(s[0]) + s[1], WordSum(s[2..]));
    }
  }

  lemma FoldedAdd(a: Uint16, sum: nat)
    ensures Folded(a + sum) == OnesAdd(a, Folded(sum))
  {
    if sum > 0 && a > 0 {
      var r := (sum - 1) % 0xFFFF;
      assert (sum - 1 + a) % 0xFFFF == (r + a) % 0xFFFF;
      assert r + a >= 0xFFFF ==> (r + a) % 0xFFFF == r + a - 0xFFFF || r + a == 2 * 0xFFFF - 1;
    }
  }

  // ---- The code ----

  /** The checksum field of a message whose words add up to sum. */
  function Complement(sum: nat): Uint16 {
    0xFFFF - Folded(sum)
  }

  const WRAP := 0x1_0000_0000

  lemma WrapAdd(a: nat, b: nat)
    ensures (a % WRAP + b) % WRAP == (a + b) % WRAP
  {
  }

  /** csum_add(): the accumulator is a uint32_t. */
  method CsumAdd(sum: Uint32, p: seq<Byte>) returns (r: Uint32)
    ensures r == (sum + WordSum(p)) % WRAP
  {
    r := sum;
    var i := 0;
    while |p| - i > 1
      invariant 0 <= i <= |p|
      invariant (r + WordSum(p[i..])) % WRAP == (sum + WordSum(p)) % WRAP
    {
      assert p[i..][2..] == p[i + 2..];
      WrapAdd(r + (High(p[i]) + p[i + 1]), WordSum(p[i + 2..]));
      r := (r + (High(p[i]) + p[i + 1])) % WRAP;
      i := i + 2;
    }
    if |p| - i > 0 {
      r := (r + High(p[i])) % WRAP;
    }
  }

  /** The accumulator does not overflow on any packet an IP length field can describe. */
  lemma {:induction false} WordSumBound(s: seq<Byte>)
    ensures WordSum(s) <= 0x8000 * |s| + 0x8000
    ensures |s| <= 0xFFFF ==> WordSum(s) <= 0x8000 * 0x1_0000 < WRAP
  {
    if |s| >= 2 {
      WordSumBound(s[2..]);
    }
  }

  /** csum_fold() */
  method CsumFold(sum: Uint32) returns (r: Uint16)
    ensures r == Complement(sum)
  {
    var s := sum;
    while s / 0x1_0000 != 0
      invariant 0 <= s < WRAP
      invariant Folded(s) == Folded(sum)
      decreases s
    {
      FoldOnce(s);
      s := s % 0x1_0000 + s / 0x1_0000;
    }
    r := 0xFFFF - s;
  }

  lemma FoldOnce(s: nat)
    requires s >= 0x1_0000
    ensures Folded(s % 0x1_0000 + s / 0x1_0000) == Folded(s)
  {
    var q, m := s / 0x1_0000, s % 0x1_0000;
    assert s - 1 == (m + q - 1) + q * 0xFFFF;
    assert (s - 1) % 0xFFFF == (m + q - 1) % 0xFFFF;
  }

  // ---- Storing a checksum makes a message check out ----

  lemma {:induction false} WordSumAppend(a: seq<Byte>, b: seq<Byte>)
    requires |a| % 2 == 0
    ensures WordSum(a + b) == WordSum(a) + WordSum(b)
  {
    if a == [] {
      assert a + b == b;
    } else {
      assert (a + b)[2..] == a[2..] + b;
      WordSumAppend(a[2..], b);
    }
  }

  lemma SumWithChecksum(before: seq<Byte>, c: Uint16, after: seq<Byte>)
    requires |before| % 2 == 0
    ensures WordSum(before + Be16(c) + after) == WordSum(before) + c + WordSum(after)
  {
    WordSumAppend(before + Be16(c), after);
    WordSumAppend(before, Be16(c));
    assert WordSum(Be16(c)) == c;
  }

  lemma ComplementFills(sum: nat)
    ensures Folded(sum + Complement(sum)) == 0xFFFF
  {
  }

  /** The checksum may stand anywhere on a word boundary, and the message may have odd length. */
  lemma StoredChecksumChecksOut(before: seq<Byte>, after: seq<Byte>, s: seq<Byte>)
    requires |before| % 2 == 0
    requires s == before + Be16(Complement(WordSum(before + Be16(0) + after))) + after
    ensures ChecksOut(s)
  {
    var sum := WordSum(before + Be16(0) + after);
    SumWithChecksum(before, 0, after);
    SumWithChecksum(before, Complement(sum), after);
    ComplementFills(sum);
    FoldedIsOnesSum(s);
  }
}
