/** What the checksum is for: any change confined to four consecutive octets of a packet
    changes its CRC32c, wherever in a packet of whatever length it falls. */
module Crc32cDetection {
  import opened Bytes
  import opened Crc32c

  lemma {:induction false} ShiftsLinear(a: Word, b: Word, n: nat)
    ensures Shifts(Xor(a, b), n) == Xor(Shifts(a, n), Shifts(b, n))
    decreases n
  {
    if n > 0 {
      var a', b' := DivideBit(a, false), DivideBit(b, false);
      assert DivideBit(Xor(a, b), false) == Xor(a', b');
      ShiftsFront(a, n - 1);
      ShiftsFront(b, n - 1);
      ShiftsFront(Xor(a, b), n - 1);
      ShiftsLinear(a', b', n - 1);
    }
  }

  /** Bits n and up of a word are clear. */
  predicate ClearFrom(w: Word, n: nat) {
    forall i :: n <= i < 32 ==> !w[i]
  }

  /** A shift loses nothing: the polynomial has its top bit set, so the low bit that left shows there. */
  lemma UnshiftClear(w: Word, n: nat)
    requires n < 32 && ClearFrom(DivideBit(w, false), n)
    ensures !w[0] && ClearFrom(w, n + 1)
    ensures DivideBit(w, false) == w[1..] + [false]
  {
    assert DivideBit(w, false)[31] == w[0];
    assert ShiftRight(w, 1) == w[1..] + [false];
    assert forall i :: 1 <= i < 32 ==> w[i] == DivideBit(w, false)[i - 1];
  }

  lemma {:induction false} UnshiftsClear(w: Word, k: nat, n: nat)
    requires k + n <= 32 && ClearFrom(Shifts(w, k), n)
    ensures ClearFrom(w, k + n)
    ensures forall i :: 0 <= i < k ==> !w[i]
    ensures forall i :: k <= i < k + n ==> w[i] == Shifts(w, k)[i - k]
    decreases k
  {
    hide DivideBit, Shifts;
    if k > 0 {
      var w' := DivideBit(w, false);
      ShiftsFront(w, k - 1);
      UnshiftsClear(w', k - 1, n);
      UnshiftClear(w, k - 1 + n);
      UnshiftBits(w, w', Shifts(w, k), k, n);
    } else {
      NoShift(w);
    }
  }

  lemma NoShift(w: Word)
    ensures Shifts(w, 0) == w
  {
  }

  /** Bits of a word from those of the word shifted once. */
  lemma UnshiftBits(w: Word, w': Word, s: Word, k: nat, n: nat)
    requires 0 < k && k + n <= 32 && !w[0] && w' == w[1..] + [false]
    requires forall i :: 0 <= i < k - 1 ==> !w'[i]
    requires forall i :: k - 1 <= i < k - 1 + n ==> w'[i] == s[i - (k - 1)]
    ensures forall i :: 0 <= i < k ==> !w[i]
    ensures forall i :: k <= i < k + n ==> w[i] == s[i - k]
  {
    forall i | 1 <= i < 32
      ensures w[i] == w'[i - 1]
    {
    }
  }

  /** The difference of two registers before an octet each, from the difference after. */
  lemma OctetBackwards(r: Word, r': Word, b: Byte, b': Byte, n: nat)
    requires n <= 24
    requires ClearFrom(Xor(Divide(r, Bits(b, 8)), Divide(r', Bits(b', 8))), n)
    ensures ClearFrom(Xor(r, r'), n + 8)
    ensures forall i :: 0 <= i < 8 ==> Xor(r, r')[i] == (Widen(b)[i] != Widen(b')[i])
    ensures forall i :: 8 <= i < n + 8 ==>
                          Xor(r, r')[i] == Xor(Divide(r, Bits(b, 8)), Divide(r', Bits(b', 8)))[i - 8]
  {
    DivideOctet(r, b);
    DivideOctet(r', b');
    var x, x' := Xor(r, Widen(b)), Xor(r', Widen(b'));
    ShiftsLinear(x, x', 8);
    UnshiftsClear(Xor(x, x'), 8, n);
    assert forall i :: 0 <= i < 32 ==> Xor(x, x')[i] == ((r[i] != Widen(b)[i]) != (r'[i] != Widen(b')[i]));
  }

  lemma {:induction false} OctetsBackwards(r: Word, r': Word, p: seq<Byte>, q: seq<Byte>)
    requires |p| == |q| <= 4
    requires DivideOctets(r, p) == DivideOctets(r', q)
    ensures ClearFrom(Xor(r, r'), 8 * |p|)
    decreases |p|
  {
    if p != [] {
      OctetsBackwards(Divide(r, Bits(p[0], 8)), Divide(r', Bits(q[0], 8)), p[1..], q[1..]);
      OctetBackwards(r, r', p[0], q[0], 8 * (|p| - 1));
    }
  }

  lemma {:induction false} ValueBits(v: nat, n: nat)
    requires v < Pow2(n)
    ensures Value(Bits(v, n)) == v
    decreases n
  {
    if n > 0 {
      ValueBits(v / 2, n - 1);
      assert Bits(v, n)[1..] == Bits(v / 2, n - 1);
    }
  }

  lemma WidenInjective(b: Byte, b': Byte)
    requires Widen(b)[..8] == Widen(b')[..8]
    ensures b == b'
  {
    assert Widen(b)[..8] == Bits(b, 8) && Widen(b')[..8] == Bits(b', 8);
    assert Pow2(8) == 256;
    ValueBits(b, 8);
    ValueBits(b', 8);
  }

  /** Two words whose difference is that of a word and itself are one. */
  lemma SameWord(r: Word, s: Word, s': Word, n: nat)
    requires n <= 24 && ClearFrom(Xor(s, s'), n)
    requires forall i :: 8 <= i < n + 8 ==> Xor(r, r)[i] == Xor(s, s')[i - 8]
    ensures s == s'
  {
    forall i | 0 <= i < 32
      ensures s[i] == s'[i]
    {
      if i < n {
        assert Xor(r, r)[i + 8] == Xor(s, s')[i];
      } else {
        assert !Xor(s, s')[i];
      }
    }
  }

  lemma SameLow(r: Word, b: Byte, b': Byte)
    requires forall i :: 0 <= i < 8 ==> Xor(r, r)[i] == (Widen(b)[i] != Widen(b')[i])
    ensures forall i :: 0 <= i < 8 ==> Widen(b)[i] == Widen(b')[i]
  {
    hide Widen;
    forall i | 0 <= i < 8
      ensures Widen(b)[i] == Widen(b')[i]
    {
      assert !Xor(r, r)[i];
    }
  }

  /** From one register, two different strings of up to four octets never lead to the same register. */
  lemma {:induction false} BurstInjective(r: Word, p: seq<Byte>, q: seq<Byte>)
    requires |p| == |q| <= 4
    requires DivideOctets(r, p) == DivideOctets(r, q)
    ensures p == q
    decreases |p|
  {
    hide Widen, Bits, Divide, ClearFrom, Xor;
    if p != [] {
      var s, s' := Divide(r, Bits(p[0], 8)), Divide(r, Bits(q[0], 8));
      OctetsBackwards(s, s', p[1..], q[1..]);
      OctetBackwards(r, r, p[0], q[0], 8 * (|p| - 1));
      SameWord(r, s, s', 8 * (|p| - 1));
      SameLow(r, p[0], q[0]);
      WidenInjective(p[0], q[0]);
      BurstInjective(s, p[1..], q[1..]);
      assert p == [p[0]] + p[1..] && q == [q[0]] + q[1..];
    }
  }

  lemma {:induction false} RegisterInjective(r: Word, r': Word, z: seq<Byte>)
    requires DivideOctets(r, z) == DivideOctets(r', z)
    ensures r == r'
    decreases |z|
  {
    if z != [] {
      var s, s' := Divide(r, Bits(z[0], 8)), Divide(r', Bits(z[0], 8));
      RegisterInjective(s, s', z[1..]);
      OctetBackwards(r, r', z[0], z[0], 0);
      forall i | 0 <= i < 32
        ensures r[i] == r'[i]
      {
        assert !Xor(r, r')[i];
      }
    }
  }

  /** No burst of up to four octets goes unnoticed. */
  lemma BurstDetected(before: seq<Byte>, p: seq<Byte>, q: seq<Byte>, after: seq<Byte>)
    requires |p| == |q| <= 4 && p != q
    ensures Checksum(before + p + after) != Checksum(before + q + after)
  {
    if Checksum(before + p + after) == Checksum(before + q + after) {
      var m, m' := Divide(ONES, MessageBits(before + p + after)), Divide(ONES, MessageBits(before + q + after));
      assert forall i :: 0 <= i < 32 ==> m[i] == !Not(m)[i] && m'[i] == !Not(m')[i];
      assert m == m';
      DivisionByOctets(ONES, before + p + after);
      DivisionByOctets(ONES, before + q + after);
      OctetsAppend(ONES, before + p, after);
      OctetsAppend(ONES, before + q, after);
      RegisterInjective(DivideOctets(ONES, before + p), DivideOctets(ONES, before + q), after);
      OctetsAppend(ONES, before, p);
      OctetsAppend(ONES, before, q);
      BurstInjective(DivideOctets(ONES, before), p, q);
    }
  }
}
