/** The check value of the CRC32c, and that the register does not start empty. */
module Crc32cCheckValue {
  import opened Bytes
  import opened Crc32c
  import opened Crc32cPolynomial
  import opened Crc32cDetection

  // ---- The division on machine words ----

  function Mask(i: nat): bv32 {
    if i == 0 then 1 else Mask(i - 1) << 1
  }

  predicate On(x: bv32, i: nat) {
    Meets(x, Mask(i))
  }

  function ToWord(x: bv32): Word {
    seq(32, i requires 0 <= i < 32 => On(x, i))
  }

  function Step(x: bv32, bit: bool): bv32 {
    if (x & 1 != 0) != bit then (x >> 1) ^ 0x82F6_3B78 else x >> 1
  }

  lemma XorMask(x: bv32, y: bv32, m: bv32)
    requires m & (m - 1) == 0
    ensures Meets(x ^ y, m) == (Meets(x, m) != Meets(y, m))
  {
  }

  predicate Meets(x: bv32, m: bv32) {
    x & m != 0
  }

  lemma ShiftMask(x: bv32, m: bv32, n: bv32)
    requires n == m << 1
    ensures Meets(x >> 1, m) == Meets(x, n)
  {
  }

  lemma OneBit(m: bv32)
    requires m & (m - 1) == 0
    ensures (m << 1) & ((m << 1) - 1) == 0
  {
  }

  lemma {:induction false} MaskOneBit(i: nat)
    ensures Mask(i) & (Mask(i) - 1) == 0
    decreases i
  {
    if i > 0 {
      MaskOneBit(i - 1);
      OneBit(Mask(i - 1));
    }
  }

  lemma Masks0()
    ensures Mask(0) == 0x1
    ensures Mask(1) == 0x2
    ensures Mask(2) == 0x4
    ensures Mask(3) == 0x8
    ensures Mask(4) == 0x10
    ensures Mask(5) == 0x20
    ensures Mask(6) == 0x40
    ensures Mask(7) == 0x80
  {
  }

  lemma Masks1()
    ensures Mask(8) == 0x100
    ensures Mask(9) == 0x200
    ensures Mask(10) == 0x400
    ensures Mask(11) == 0x800
    ensures Mask(12) == 0x1000
    ensures Mask(13) == 0x2000
    ensures Mask(14) == 0x4000
    ensures Mask(15) == 0x8000
  {
  }

  lemma Masks2()
    ensures Mask(16) == 0x1_0000
    ensures Mask(17) == 0x2_0000
    ensures Mask(18) == 0x4_0000
    ensures Mask(19) == 0x8_0000
    ensures Mask(20) == 0x10_0000
    ensures Mask(21) == 0x20_0000
    ensures Mask(22) == 0x40_0000
    ensures Mask(23) == 0x80_0000
  {
    Masks1();
  }

  lemma Masks3()
    ensures Mask(24) == 0x100_0000
    ensures Mask(25) == 0x200_0000
    ensures Mask(26) == 0x400_0000
    ensures Mask(27) == 0x800_0000
    ensures Mask(28) == 0x1000_0000
    ensures Mask(29) == 0x2000_0000
    ensures Mask(30) == 0x4000_0000
    ensures Mask(31) == 0x8000_0000
  {
    Masks2();
  }

  lemma PolyOctet0(i: nat)
    requires 0 <= i < 8
    ensures POLY[i] == On(0x82F6_3B78, i)
  {
    Masks0();
    hide Mask;
    assert POLY[0] == On(0x82F6_3B78, 0)
           && POLY[1] == On(0x82F6_3B78, 1)
           && POLY[2] == On(0x82F6_3B78, 2)
           && POLY[3] == On(0x82F6_3B78, 3)
           && POLY[4] == On(0x82F6_3B78, 4)
           && POLY[5] == On(0x82F6_3B78, 5)
           && POLY[6] == On(0x82F6_3B78, 6)
           && POLY[7] == On(0x82F6_3B78, 7);
  }

  lemma PolyOctet1(i: nat)
    requires 8 <= i < 16
    ensures POLY[i] == On(0x82F6_3B78, i)
  {
    Masks1();
    hide Mask;
    assert POLY[8] == On(0x82F6_3B78, 8)
           && POLY[9] == On(0x82F6_3B78, 9)
           && POLY[10] == On(0x82F6_3B78, 10)
           && POLY[11] == On(0x82F6_3B78, 11)
           && POLY[12] == On(0x82F6_3B78, 12)
           && POLY[13] == On(0x82F6_3B78, 13)
           && POLY[14] == On(0x82F6_3B78, 14)
           && POLY[15] == On(0x82F6_3B78, 15);
  }

  lemma PolyOctet2(i: nat)
    requires 16 <= i < 24
    ensures POLY[i] == On(0x82F6_3B78, i)
  {
    Masks2();
    hide Mask;
    assert POLY[16] == On(0x82F6_3B78, 16)
           && POLY[17] == On(0x82F6_3B78, 17)
           && POLY[18] == On(0x82F6_3B78, 18)
           && POLY[19] == On(0x82F6_3B78, 19)
           && POLY[20] == On(0x82F6_3B78, 20)
           && POLY[21] == On(0x82F6_3B78, 21)
           && POLY[22] == On(0x82F6_3B78, 22)
           && POLY[23] == On(0x82F6_3B78, 23);
  }

  lemma PolyOctet3(i: nat)
    requires 24 <= i < 32
    ensures POLY[i] == On(0x82F6_3B78, i)
  {
    Masks3();
    hide Mask;
    assert POLY[24] == On(0x82F6_3B78, 24)
           && POLY[25] == On(0x82F6_3B78, 25)
           && POLY[26] == On(0x82F6_3B78, 26)
           && POLY[27] == On(0x82F6_3B78, 27)
           && POLY[28] == On(0x82F6_3B78, 28)
           && POLY[29] == On(0x82F6_3B78, 29)
           && POLY[30] == On(0x82F6_3B78, 30)
           && POLY[31] == On(0x82F6_3B78, 31);
  }

  lemma PolyBit(i: nat)
    requires i < 32
    ensures POLY[i] == On(0x82F6_3B78, i)
  {
    if i < 8 {
      PolyOctet0(i);
    } else if i < 16 {
      PolyOctet1(i);
    } else if i < 24 {
      PolyOctet2(i);
    } else {
      PolyOctet3(i);
    }
  }

  lemma MaskNext(i: nat)
    ensures Mask(i + 1) == Mask(i) << 1
  {
  }

  lemma ShiftOn(x: bv32, i: nat)
    ensures On(x >> 1, i) == On(x, i + 1)
  {
    MaskNext(i);
    var m, n := Mask(i), Mask(i + 1);
    hide Mask, Meets;
    ShiftMask(x, m, n);
  }

  lemma ShiftTop(x: bv32)
    ensures !On(x >> 1, 31)
  {
    Masks3();
    TopClear(x);
  }

  lemma TopClear(x: bv32)
    ensures !Meets(x >> 1, 0x8000_0000)
  {
  }

  lemma XorOn(x: bv32, y: bv32, i: nat)
    ensures On(x ^ y, i) == (On(x, i) != On(y, i))
  {
    MaskOneBit(i);
    XorMask(x, y, Mask(i));
  }

  lemma ShiftFits(x: bv32)
    ensures ShiftRight(ToWord(x), 1) == ToWord(x >> 1)
  {
    hide On;
    forall i | 0 <= i < 32
      ensures ShiftRight(ToWord(x), 1)[i] == On(x >> 1, i)
    {
      ShiftOn(x, i);
      ShiftTop(x);
    }
  }

  lemma XorFits(x: bv32)
    ensures Xor(ToWord(x), POLY) == ToWord(x ^ 0x82F6_3B78)
  {
    hide On;
    forall i | 0 <= i < 32
      ensures Xor(ToWord(x), POLY)[i] == On(x ^ 0x82F6_3B78, i)
    {
      XorOn(x, 0x82F6_3B78, i);
      PolyBit(i);
    }
  }

  /** A step of the division, on words and on machine words. */
  lemma StepFits(x: bv32, bit: bool)
    ensures DivideBit(ToWord(x), bit) == ToWord(Step(x, bit))
  {
    LowFits(x);
    hide ToWord, ShiftRight, Xor;
    ShiftFits(x);
    XorFits(x >> 1);
  }

  lemma LowFits(x: bv32)
    ensures ToWord(x)[0] == (x & 1 != 0)
  {
  }

  function StepFour(x: bv32, a: bool, b: bool, c: bool, d: bool): bv32 {
    Step(Step(Step(Step(x, a), b), c), d)
  }

  lemma {:induction false} DivideFirst(r: Word, bit: bool, rest: seq<bool>)
    ensures Divide(r, [bit] + rest) == Divide(DivideBit(r, bit), rest)
  {
    assert ([bit] + rest)[1..] == rest;
  }

  lemma TwoSteps(x: bv32, a: bool, b: bool, rest: seq<bool>)
    ensures Divide(ToWord(x), [a, b] + rest) == Divide(ToWord(Step(Step(x, a), b)), rest)
  {
    hide ToWord, Step, DivideBit;
    assert [a, b] + rest == [a] + ([b] + rest);
    DivideFirst(ToWord(x), a, [b] + rest);
    StepFits(x, a);
    DivideFirst(ToWord(Step(x, a)), b, rest);
    StepFits(Step(x, a), b);
  }

  lemma FourSteps(x: bv32, a: bool, b: bool, c: bool, d: bool, rest: seq<bool>)
    ensures Divide(ToWord(x), [a, b, c, d] + rest) == Divide(ToWord(StepFour(x, a, b, c, d)), rest)
  {
    hide ToWord, Step, Divide;
    assert [a, b, c, d] + rest == [a, b] + ([c, d] + rest);
    TwoSteps(x, a, b, [c, d] + rest);
    TwoSteps(Step(Step(x, a), b), c, d, rest);
  }

  function Weight(b: bool, w: nat): nat {
    if b then w else 0
  }

  /** The bits of a decimal digit character. */
  lemma DigitBits(a: bool, b: bool, c: bool, d: bool)
    ensures var v := 0x30 + Weight(a, 1) + Weight(b, 2) + Weight(c, 4) + Weight(d, 8);
            Bits(v, 8) == [a, b, c, d, true, true, false, false]
  {
  }

  /** Dividing by a digit character, four bits at a time, by way of m. */
  lemma DigitDivided(x: bv32, m: bv32, y: bv32, a: bool, b: bool, c: bool, d: bool)
    requires StepFour(x, a, b, c, d) == m && StepFour(m, true, true, false, false) == y
    ensures var v := 0x30 + Weight(a, 1) + Weight(b, 2) + Weight(c, 4) + Weight(d, 8);
            DivideOctets(ToWord(x), [v]) == ToWord(y)
  {
    hide ToWord, Step, StepFour, Divide, Bits;
    DigitBits(a, b, c, d);
    FourSteps(x, a, b, c, d, [true, true, false, false] + []);
    FourSteps(m, true, true, false, false, []);
    assert [a, b, c, d, true, true, false, false] == [a, b, c, d] + ([true, true, false, false] + []);
    DivideNothing(ToWord(y));
  }

  lemma DivideNothing(r: Word)
    ensures Divide(r, []) == r
  {
  }

  lemma Digit1()
    ensures DivideOctets(ToWord(0xFFFF_FFFF), [0x31]) == ToWord(0x6F0A_661C)
  {
    hide ToWord, DivideOctets;
    DigitDivided(0xFFFF_FFFF, 0xECCF_57E5, 0x6F0A_661C, true, false, false, false);
  }

  lemma Digit2()
    ensures DivideOctets(ToWord(0x6F0A_661C), [0x32]) == ToWord(0x8CAA_3B9F)
  {
    hide ToWord, DivideOctets;
    DigitDivided(0x6F0A_661C, 0xE5C0_0E7B, 0x8CAA_3B9F, false, true, false, false);
  }

  lemma Digit3()
    ensures DivideOctets(ToWord(0x8CAA_3B9F), [0x33]) == ToWord(0xEF84_D04D)
  {
    hide ToWord, DivideOctets;
    DigitDivided(0x8CAA_3B9F, 0xCB47_857D, 0xEF84_D04D, true, true, false, false);
  }

  lemma Digit4()
    ensures DivideOctets(ToWord(0xEF84_D04D), [0x34]) == ToWord(0x9C5_0B11)
  {
    hide ToWord, DivideOctets;
    DigitDivided(0xEF84_D04D, 0x9C50_B113, 0x9C5_0B11, false, false, true, false);
  }

  lemma Digit5()
    ensures DivideOctets(ToWord(0x9C5_0B11), [0x35]) == ToWord(0xE72E_DCCA)
  {
    hide ToWord, DivideOctets;
    DigitDivided(0x9C5_0B11, 0x41E7_4D0D, 0xE72E_DCCA, true, false, true, false);
  }

  lemma Digit6()
    ensures DivideOctets(ToWord(0xE72E_DCCA), [0x36]) == ToWord(0xBECA_8E79)
  {
    hide ToWord, DivideOctets;
    DigitDivided(0xE72E_DCCA, 0xCDFF_CB08, 0xBECA_8E79, false, true, true, false);
  }

  lemma Digit7()
    ensures DivideOctets(ToWord(0xBECA_8E79), [0x37]) == ToWord(0xEDBD_6815)
  {
    hide ToWord, DivideOctets;
    DigitDivided(0xBECA_8E79, 0xE8DC_00FD, 0xEDBD_6815, true, true, true, false);
  }

  lemma Digit8()
    ensures DivideOctets(ToWord(0xEDBD_6815), [0x38]) == ToWord(0x9F78_7F65)
  {
    hide ToWord, DivideOctets;
    DigitDivided(0xEDBD_6815, 0xDD08_372A, 0x9F78_7F65, false, false, false, true);
  }

  lemma Digit9()
    ensures DivideOctets(ToWord(0x9F78_7F65), [0x39]) == ToWord(0x1CF9_6D7C)
  {
    hide ToWord, DivideOctets;
    DigitDivided(0x9F78_7F65, 0xCA7A_A132, 0x1CF9_6D7C, true, false, false, true);
  }

  // ---- The standard's check value ----

  lemma OnesOn(i: nat)
    requires i < 32
    ensures On(0xFFFF_FFFF, i)
  {
    Masks0();
    Masks1();
    Masks2();
    Masks3();
    hide Mask;
    AnyMeets(Mask(i));
  }

  lemma AnyMeets(m: bv32)
    requires m != 0
    ensures Meets(0xFFFF_FFFF, m)
  {
  }

  lemma OnesFit()
    ensures ToWord(0xFFFF_FFFF) == ONES
  {
    hide On;
    forall i | 0 <= i < 32
      ensures On(0xFFFF_FFFF, i)
    {
      OnesOn(i);
    }
  }

  lemma NotFits(x: bv32)
    ensures Not(ToWord(x)) == ToWord(x ^ 0xFFFF_FFFF)
  {
    hide On;
    forall i | 0 <= i < 32
      ensures On(x ^ 0xFFFF_FFFF, i) == !On(x, i)
    {
      XorOn(x, 0xFFFF_FFFF, i);
      OnesOn(i);
    }
  }

  lemma CheckOctet0()
    ensures OctetAt(ToWord(0xE306_9283), 0) == 0x83
  {
    Masks0();
    hide Mask;
  }

  lemma CheckOctet1()
    ensures OctetAt(ToWord(0xE306_9283), 8) == 0x92
  {
    Masks1();
    hide Mask;
  }

  lemma CheckOctet2()
    ensures OctetAt(ToWord(0xE306_9283), 16) == 0x6
  {
    Masks2();
    hide Mask;
  }

  lemma CheckOctet3()
    ensures OctetAt(ToWord(0xE306_9283), 24) == 0xE3
  {
    Masks3();
    hide Mask;
  }

  lemma CheckWord()
    ensures Value(ToWord(0xE306_9283)) == 0xE306_9283
  {
    hide Value, OctetAt, ToWord;
    ValueOctets(ToWord(0xE306_9283));
    CheckOctet0();
    CheckOctet1();
    CheckOctet2();
    CheckOctet3();
  }

  /** Three octets, one after the other. */
  lemma Three(r: Word, s: Word, t: Word, u: Word, a: Byte, b: Byte, c: Byte)
    requires DivideOctets(r, [a]) == s && DivideOctets(s, [b]) == t && DivideOctets(t, [c]) == u
    ensures DivideOctets(r, [a, b, c]) == u
  {
    hide DivideOctets;
    assert [a, b, c] == [a] + ([b] + [c]);
    OctetsAppend(r, [a], [b] + [c]);
    OctetsAppend(s, [b], [c]);
  }

  lemma Digits1()
    ensures DivideOctets(ToWord(0xFFFF_FFFF), [0x31, 0x32, 0x33]) == ToWord(0xEF84_D04D)
  {
    hide ToWord, DivideOctets;
    Digit1();
    Digit2();
    Digit3();
    Three(ToWord(0xFFFF_FFFF), ToWord(0x6F0A_661C), ToWord(0x8CAA_3B9F), ToWord(0xEF84_D04D), 0x31, 0x32, 0x33);
  }

  lemma Digits2()
    ensures DivideOctets(ToWord(0xEF84_D04D), [0x34, 0x35, 0x36]) == ToWord(0xBECA_8E79)
  {
    hide ToWord, DivideOctets;
    Digit4();
    Digit5();
    Digit6();
    Three(ToWord(0xEF84_D04D), ToWord(0x9C5_0B11), ToWord(0xE72E_DCCA), ToWord(0xBECA_8E79), 0x34, 0x35, 0x36);
  }

  lemma Digits3()
    ensures DivideOctets(ToWord(0xBECA_8E79), [0x37, 0x38, 0x39]) == ToWord(0x1CF9_6D7C)
  {
    hide ToWord, DivideOctets;
    Digit7();
    Digit8();
    Digit9();
    Three(ToWord(0xBECA_8E79), ToWord(0xEDBD_6815), ToWord(0x9F78_7F65), ToWord(0x1CF9_6D7C), 0x37, 0x38, 0x39);
  }

  /** The digits 1 to 9 have the checksum that catalogues of CRC algorithms give. */
  lemma CheckValue()
    ensures Value(Checksum([0x31, 0x32, 0x33, 0x34, 0x35, 0x36, 0x37, 0x38, 0x39])) == 0xE306_9283
  {
    hide ToWord, DivideOctets, Divide, Value, Not;
    var a, b, c := [0x31, 0x32, 0x33], [0x34, 0x35, 0x36], [0x37, 0x38, 0x39];
    var p := a + (b + c);
    assert p == [0x31, 0x32, 0x33, 0x34, 0x35, 0x36, 0x37, 0x38, 0x39];
    Digits1();
    Digits2();
    Digits3();
    OnesFit();
    OctetsAppend(ONES, a, b + c);
    OctetsAppend(ToWord(0xEF84_D04D), b, c);
    DivisionByOctets(ONES, p);
    NotFits(0x1CF9_6D7C);
    CheckWord();
  }

  // ---- The register does not start empty ----

  lemma ZeroOctet()
    ensures Divide(ToWord(0xFFFF_FFFF), Bits(0, 8)) == ToWord(0xAD82_ACAE)
  {
    hide ToWord, Step, Divide;
    var four := [false, false, false, false];
    assert Bits(0, 8) == four + (four + []) by {
      ZeroBits();
    }
    ZeroSteps();
    FourSteps(0xFFFF_FFFF, false, false, false, false, four + []);
    FourSteps(0xFC91_908A, false, false, false, false, []);
    DivideNothing(ToWord(0xAD82_ACAE));
  }

  lemma ZeroBits()
    ensures Bits(0, 8) == [false, false, false, false, false, false, false, false]
  {
  }

  lemma ZeroSteps()
    ensures StepFour(0xFFFF_FFFF, false, false, false, false) == 0xFC91_908A
    ensures StepFour(0xFC91_908A, false, false, false, false) == 0xAD82_ACAE
  {
  }

  lemma SameRegister(p: seq<Byte>, q: seq<Byte>)
    requires Checksum(p) == Checksum(q)
    ensures DivideOctets(ONES, p) == DivideOctets(ONES, q)
  {
    var r, s := Divide(ONES, MessageBits(p)), Divide(ONES, MessageBits(q));
    assert forall i :: 0 <= i < 32 ==> r[i] == !Not(r)[i] && s[i] == !Not(s)[i];
    DivisionByOctets(ONES, p);
    DivisionByOctets(ONES, q);
  }

  /** A zero octet in front of any message changes its checksum. */
  lemma LeadingZeroDetected(p: seq<Byte>)
    ensures Checksum([0] + p) != Checksum(p)
  {
    hide Divide, ToWord, Checksum;
    if Checksum([0] + p) == Checksum(p) {
      SameRegister([0] + p, p);
      assert ([0] + p)[1..] == p;
      RegisterInjective(Divide(ONES, Bits(0, 8)), ONES, p);
      OnesFit();
      ZeroOctet();
      LowFits(0xAD82_ACAE);
      LowFits(0xFFFF_FFFF);
    }
  }
}
