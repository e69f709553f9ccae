/** The CRC32c of msc_iptrace.c: a lazily filled 256-entry table, one lookup per octet.
    The reference is the division it abbreviates, one message bit at a time. */
module Crc32c {
  import opened Bytes

  function Repeat(bit: bool, n: nat): (s: seq<bool>)
    ensures |s| == n && forall i :: 0 <= i < n ==> s[i] == bit
  {
    seq(n, _ => bit)
  }

  /** A uint32_t as its bits, least significant first. */
  type Word = w: seq<bool> | |w| == 32 witness Repeat(false, 32)

  const ZERO: Word := Repeat(false, 32)
  const ONES: Word := Repeat(true, 32)

  /** The Castagnoli polynomial 0x82F63B78, bit-reflected. */
  const POLY: Word :=
    [
      false, false, false, true, true, true, true, false,
      true, true, false, true, true, true, false, false,
      false, true, true, false, true, true, true, true,
      false, true, false, false, false, false, false, true]

  function Xor(a: Word, b: Word): Word {
    seq(32, i requires 0 <= i < 32 => a[i] != b[i])
  }

  function Not(a: Word): Word {
    seq(32, i requires 0 <= i < 32 => !a[i])
  }

  function ShiftRight(a: Word, n: nat): Word
    requires n <= 32
  {
    a[n..] + Repeat(false, n)
  }

  /** The number that a string of bits stands for, least significant first. */
  function Value(s: seq<bool>): nat {
    if s == [] then 0 else (if s[0] then 1 else 0) + 2 * Value(s[1..])
  }

  function Bits(v: nat, n: nat): (s: seq<bool>)
    ensures |s| == n
    decreases n + 0
  {
    if n == 0 then [] else [v % 2 == 1] + Bits(v / 2, n - 1)
  }

  /** An octet widened to a word. */
  function Widen(b: Byte): Word {
    Bits(b, 8) + Repeat(false, 24)
  }

  // ---- Reference: reflected polynomial division, bit by bit ----

  /** One step of the division: the message bit is compared with the low bit of the register. */
  function DivideBit(r: Word, bit: bool): Word {
    if r[0] != bit then Xor(ShiftRight(r, 1), POLY) else ShiftRight(r, 1)
  }

  function Divide(r: Word, message: seq<bool>): Word
    decreases |message|
  {
    if message == [] then r else Divide(DivideBit(r, message[0]), message[1..])
  }

  function MessageBits(p: seq<Byte>): seq<bool> {
    if p == [] then [] else Bits(p[0], 8) + MessageBits(p[1..])
  }

  function Checksum(p: seq<Byte>): Word {
    Not(Divide(ONES, MessageBits(p)))
  }

  /** n shifts of a register, as the table is filled: the division of n zero bits. */
  function Shifts(c: Word, n: nat): Word {
    Divide(c, Repeat(false, n))
  }

  lemma {:induction false} DivideAppend(r: Word, s: seq<bool>, t: seq<bool>)
    ensures Divide(r, s + t) == Divide(Divide(r, s), t)
    decreases |s|
  {
    if s == [] {
      assert s + t == t;
    } else {
      assert (s + t)[1..] == s[1..] + t;
      DivideAppend(DivideBit(r, s[0]), s[1..], t);
    }
  }

  lemma ShiftsBack(c: Word, n: nat)
    ensures Shifts(c, n + 1) == DivideBit(Shifts(c, n), false)
  {
    assert Repeat(false, n + 1) == Repeat(false, n) + [false];
    DivideAppend(c, Repeat(false, n), [false]);
  }

  lemma ShiftsFront(c: Word, n: nat)
    ensures Shifts(c, n + 1) == Shifts(DivideBit(c, false), n)
  {
    assert Repeat(false, n + 1)[1..] == Repeat(false, n);
  }

  lemma {:induction false} BitsValue(s: seq<bool>)
    ensures Value(s) < Pow2(|s|)
    ensures Bits(Value(s), |s|) == s
  {
    if s != [] {
      BitsValue(s[1..]);
      assert Value(s) / 2 == Value(s[1..]);
      assert s == [s[0]] + s[1..];
    }
  }

  function Pow2(n: nat): nat {
    if n == 0 then 1 else 2 * Pow2(n - 1)
  }

  // ---- One octet: eight division steps are eight shifts are one lookup ----

  lemma ShiftStep(y: Word, w: Word)
    ensures DivideBit(Xor(y, w), false) == Xor(DivideBit(y, w[0]), ShiftRight(w, 1))
  {
  }

  lemma ShiftRightStep(w: Word, n: nat)
    requires 0 < n <= 32
    ensures w[..n][1..] == ShiftRight(w, 1)[..n - 1]
    ensures ShiftRight(ShiftRight(w, 1), n - 1) == ShiftRight(w, n)
  {
  }

  /** Bits not yet divided may as well be added to the register before it shifts. */
  lemma {:induction false} ShiftAhead(y: Word, w: Word, n: nat)
    requires n <= 32
    ensures Shifts(Xor(y, w), n) == Xor(Divide(y, w[..n]), ShiftRight(w, n))
    decreases n
  {
    hide DivideBit;
    if n == 0 {
      assert ShiftRight(w, 0) == w;
    } else {
      var y', w' := DivideBit(y, w[0]), ShiftRight(w, 1);
      ShiftStep(y, w);
      ShiftsFront(Xor(y, w), n - 1);
      ShiftAhead(y', w', n - 1);
      ShiftRightStep(w, n);
    }
  }

  lemma DivideOctet(y: Word, b: Byte)
    ensures Divide(y, Bits(b, 8)) == Shifts(Xor(y, Widen(b)), 8)
  {
    ShiftAhead(y, Widen(b), 8);
    assert Widen(b)[..8] == Bits(b, 8);
    var r := Divide(y, Bits(b, 8));
    assert Xor(r, ShiftRight(Widen(b), 8)) == r;
  }

  /** Eight shifts are a lookup of the low octet, added to the rest moved down by an octet. */
  lemma ShiftsByLookup(x: Word)
    ensures Value(x[..8]) < 256
    ensures Shifts(x, 8) == Xor(Shifts(Widen(Value(x[..8])), 8), ShiftRight(x, 8))
  {
    BitsValue(x[..8]);
    assert Pow2(8) == 256;
    var low: Word := Widen(Value(x[..8]));
    var high: Word := Repeat(false, 8) + x[8..];
    assert x == Xor(low, high);
    ShiftAhead(low, high, 8);
    assert high[..8] == Repeat(false, 8);
    assert ShiftRight(high, 8) == ShiftRight(x, 8);
  }

  function DivideOctets(r: Word, p: seq<Byte>): Word
    decreases |p|
  {
    if p == [] then r else DivideOctets(Divide(r, Bits(p[0], 8)), p[1..])
  }

  lemma {:induction false} DivisionByOctets(r: Word, p: seq<Byte>)
    ensures Divide(r, MessageBits(p)) == DivideOctets(r, p)
    decreases |p|
  {
    if p != [] {
      DivideAppend(r, Bits(p[0], 8), MessageBits(p[1..]));
      DivisionByOctets(Divide(r, Bits(p[0], 8)), p[1..]);
    }
  }

  lemma {:induction false} OctetsAppend(r: Word, p: seq<Byte>, q: seq<Byte>)
    ensures DivideOctets(r, p + q) == DivideOctets(DivideOctets(r, p), q)
    decreases |p|
  {
    if p == [] {
      assert p + q == q;
    } else {
      assert (p + q)[1..] == p[1..] + q;
      OctetsAppend(Divide(r, Bits(p[0], 8)), p[1..], q);
    }
  }

  lemma NoOctets(r: Word)
    ensures DivideOctets(r, []) == r
  {
  }

  /** One turn of the loop: dividing by one more octet is a lookup. */
  lemma OneMoreOctet(r: Word, p: seq<Byte>, b: Byte, x: Word)
    requires x == Xor(DivideOctets(r, p), Widen(b))
    ensures Value(x[..8]) < 256
    ensures DivideOctets(r, p + [b]) == Xor(Shifts(Widen(Value(x[..8])), 8), ShiftRight(DivideOctets(r, p), 8))
  {
    hide Divide, Value, Shifts;
    var crc := DivideOctets(r, p);
    ShiftsByLookup(x);
    DivideOctet(crc, b);
    OctetsAppend(r, p, [b]);
    assert ShiftRight(x, 8) == ShiftRight(crc, 8);
  }

  /** crc32c() with its static table, filled on first use. */
  class Table {
    const table: array<Word>
    var init: bool

    ghost predicate Valid()
      reads this, table
    {
      table.Length == 256 && (init ==> forall i :: 0 <= i < 256 ==> table[i] == Shifts(Widen(i), 8))
    }

    constructor ()
      ensures Valid() && fresh(table) && !init
    {
      table := new Word[256](_ => ZERO);
      init := false;
    }

    static method Entry(i: Byte) returns (c: Word)
      ensures c == Shifts(Widen(i), 8)
    {
      c := Widen(i);
      for k := 0 to 8
        invariant c == Shifts(Widen(i), k)
      {
        ShiftsBack(Widen(i), k);
        c := if c[0] then Xor(ShiftRight(c, 1), POLY) else ShiftRight(c, 1);
      }
    }

    method Fill()
      requires Valid()
      modifies this, table
      ensures Valid() && init
    {
      hide Shifts, Widen;
      for i := 0 to 256
        invariant table.Length == 256
        invariant forall j :: 0 <= j < i ==> table[j] == Shifts(Widen(j), 8)
      {
        table[i] := Entry(i);
      }
      init := true;
    }

    /** The table-driven checksum is the complement of the division remainder, for every message. */
    method Crc32c(p: seq<Byte>) returns (r: Word)
      requires Valid()
      modifies this, table
      ensures Valid()
      ensures r == Checksum(p)
    {
      hide DivideOctets, Divide, MessageBits, Value, Xor, ShiftRight, Shifts, Widen;
      NoOctets(ONES);
      if !init {
        Fill();
      }
      var crc := ONES;
      for k := 0 to |p|
        invariant Valid() && init
        invariant crc == DivideOctets(ONES, p[..k])
      {
        var x := Xor(crc, Widen(p[k]));
        OneMoreOctet(ONES, p[..k], p[k], x);
        assert p[..k + 1] == p[..k] + [p[k]];
        crc := Xor(table[Value(x[..8])], ShiftRight(crc, 8));
      }
      assert p[..|p|] == p;
      DivisionByOctets(ONES, p);
      r := Not(crc);
    }
  }
}
