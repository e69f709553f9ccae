/** sccp_addr_enc() of msc_iptrace.c: the SCCP party address of section 3.4 of ITU-T Q.713. */
module SccpAddress {
  import opened Options
  import opened Bytes
  import opened IpHeader

  type Nibble = x: int | 0 <= x < 16
  /** char digits[32], up to its terminator. */
  type Digits = s: string | |s| <= 32

  /** The global title indicators that libosmo-sigtran names. */
  const NO_GT: Byte := 0
  const NAI_ONLY: Byte := 1
  const TT_ONLY: Byte := 2
  const TT_NPL_ENC: Byte := 3
  const TT_NPL_ENC_NAI: Byte := 4

  datatype GlobalTitle = GlobalTitle(gti: Byte, tt: Byte, npi: Byte, nai: Byte, digits: Digits)

  /** struct osmo_sccp_addr */
  datatype Party = Party(hasPc: bool, hasSsn: bool, hasGt: bool, routeOnGt: bool, pc: Uint32, ssn: Uint32,
                         gt: GlobalTitle) {
    function Gti(): Nibble {
      if hasGt then gt.gti % 16 else 0
    }

    function Digits(): Digits {
      if hasGt then gt.digits else ""
    }
  }

  /** bcd_digit() */
  function BcdDigit(c: char): Nibble {
    if '0' <= c <= '9' then c as int - '0' as int
    else if 'a' <= c <= 'f' then c as int - 'a' as int + 10
    else if 'A' <= c <= 'F' then c as int - 'A' as int + 10
    else 0
  }

  function Values(digits: string): (v: seq<Nibble>)
    ensures |v| == |digits|
  {
    seq(|digits|, i requires 0 <= i < |digits| => BcdDigit(digits[i]))
  }

  /** How semi-octets are spelled in hexadecimal. */
  function Spelled(v: seq<Nibble>): (s: string)
    ensures |s| == |v|
  {
    seq(|v|, i requires 0 <= i < |v| => "0123456789abcdef"[v[i]])
  }

  function AsRead(c: char): char {
    if '0' <= c <= '9' || 'a' <= c <= 'f' then c
    else if 'A' <= c <= 'F' then (c as int + 32) as char
    else '0'
  }

  /** Digits in lower case are read and spelled the same; capitals are read like small letters, anything else as zero. */
  lemma DigitsSpelled(digits: string)
    ensures forall i :: 0 <= i < |digits| ==>
              Spelled(Values(digits))[i] == AsRead(digits[i])
  {
    forall i | 0 <= i < |digits| {
      DigitSpelled(digits[i]);
    }
  }

  lemma DigitSpelled(c: char)
    ensures "0123456789abcdef"[BcdDigit(c)] == AsRead(c)
  {
  }

  /** Two digits to an octet, the first in the low half. */
  function Pack(v: seq<Nibble>): (s: seq<Byte>)
    ensures |s| == (|v| + 1) / 2
  {
    if |v| == 0 then []
    else if |v| == 1 then [v[0]]
    else [Pair(v[0], v[1])] + Pack(v[2..])
  }

  function Pair(lo: Nibble, hi: Nibble): Byte {
    var h: int := hi;
    lo + 16 * h
  }

  function Indicator(a: Party): Byte {
    (if a.hasPc then 1 else 0) + (if a.hasSsn then 2 else 0) + 4 * Width(a.Gti())
    + (if !a.routeOnGt || a.Gti() == 0 then 0x40 else 0)
  }

  function Width(n: Nibble): int {
    n
  }

  function PointCode(a: Party): (s: seq<Byte>)
    ensures |s| <= 2
  {
    if a.hasPc then [a.pc % 256, a.pc / 256 % 64] else []
  }

  function Subsystem(a: Party): (s: seq<Byte>)
    ensures |s| <= 1
  {
    if a.hasSsn then [a.ssn % 256] else []
  }

  /** Numbering plan in the high half, encoding scheme in the low: 1 for odd, 2 for even. */
  function PlanAndScheme(npi: Byte, odd: bool): Byte {
    Pair(if odd then 1 else 2, npi % 16)
  }

  function TitleHeader(gti: Nibble, gt: GlobalTitle, odd: bool): seq<Byte> {
    match Width(gti)
    case 1 => [(if odd then 0x80 else 0) + gt.nai % 128]
    case 2 => [gt.tt]
    case 3 => [gt.tt, PlanAndScheme(gt.npi, odd)]
    case 4 => [gt.tt, PlanAndScheme(gt.npi, odd), gt.nai % 128]
    case _ => []
  }

  function TitleOctets(a: Party): (s: seq<Byte>)
    ensures |s| <= 19
  {
    TitleHeader(a.Gti(), a.gt, |a.Digits()| % 2 == 1) + (if a.Gti() != 0 then Pack(Values(a.Digits())) else [])
  }

  function Body(a: Party): (s: seq<Byte>)
    ensures 1 <= |s| <= 23
  {
    [Indicator(a)] + PointCode(a) + Subsystem(a) + TitleOctets(a)
  }

  function Encode(a: Party): (s: seq<Byte>)
    ensures 2 <= |s| <= 24 && s[0] == |s| - 1
  {
    [|Body(a)|] + Body(a)
  }

  // ---- A decoder written from section 3.4 of ITU-T Q.713 ----

  datatype Title =
    | NoTitle
    | NatureOnly(nai: Byte, digits: seq<Nibble>)
    | TranslationOnly(tt: Byte, octets: seq<Byte>)
    | Translation(tt: Byte, npi: Nibble, digits: seq<Nibble>)
    | Full(tt: Byte, npi: Nibble, nai: Byte, digits: seq<Nibble>)

  datatype Decoded = Decoded(pc: Option<nat>, ssn: Option<Byte>, routeOnSsn: bool, title: Title)

  function Unpack(s: seq<Byte>): (v: seq<Nibble>)
    ensures |v| == 2 * |s|
  {
    if s == [] then [] else [s[0] % 16, s[0] / 16] + Unpack(s[1..])
  }

  /** An odd number of digits leaves a filler in the last half octet. */
  function UnpackDigits(s: seq<Byte>, odd: bool): Option<seq<Nibble>> {
    var v := Unpack(s);
    if odd then if v == [] then None else Some(v[..|v| - 1])
    else Some(v)
  }

  function DecodeTitle(gti: Nibble, s: seq<Byte>): Option<Title> {
    match Width(gti)
    case 0 => if s == [] then Some(NoTitle) else None
    case 1 =>
      if |s| < 1 then None
      else (match UnpackDigits(s[1..], s[0] >= 0x80)
            case Some(d) => Some(NatureOnly(s[0] % 128, d))
            case None => None)
    case 2 => if |s| < 1 then None else Some(TranslationOnly(s[0], s[1..]))
    case 3 =>
      if |s| < 2 || (s[1] % 16 != 1 && s[1] % 16 != 2) then None
      else (match UnpackDigits(s[2..], s[1] % 16 == 1)
            case Some(d) => Some(Translation(s[0], s[1] / 16, d))
            case None => None)
    case 4 =>
      if |s| < 3 || (s[1] % 16 != 1 && s[1] % 16 != 2) then None
      else (match UnpackDigits(s[3..], s[1] % 16 == 1)
            case Some(d) => Some(Full(s[0], s[1] / 16, s[2] % 128, d))
            case None => None)
    case _ => None
  }

  function DecodeBody(s: seq<Byte>): Option<Decoded> {
    if s == [] then None else
    var ai := s[0];
    var hasPc, hasSsn, gti, routeOnSsn := ai % 2 == 1, ai / 2 % 2 == 1, ai / 4 % 16, ai / 64 % 2 == 1;
    var afterPc := if hasPc then 3 else 1;
    var afterSsn := if hasSsn then afterPc + 1 else afterPc;
    if |s| < afterSsn then None
    else (match DecodeTitle(gti, s[afterSsn..])
          case None => None
          case Some(t) =>
            Some(Decoded(if hasPc then Some(PointCodeOf(s[1], s[2])) else None,
                         if hasSsn then Some(s[afterPc]) else None,
                         routeOnSsn, t)))
  }

  function PointCodeOf(lo: Byte, hi: Byte): nat {
    var h: int := hi;
    lo + 256 * h
  }

  /** The address at the head of s, behind its length octet. */
  function Decode(s: seq<Byte>): Option<Decoded> {
    if |s| < 1 || |s| - 1 < s[0] then None else DecodeBody(s[1..][..s[0]])
  }

  // ---- Round trip ----

  /** What a receiver should see of an address. */
  function Meaning(a: Party): Decoded {
    Decoded(if a.hasPc then Some(a.pc % 0x4000) else None,
            if a.hasSsn then Some(a.ssn % 256) else None,
            !a.routeOnGt || a.Gti() == 0,
            TitleMeaning(a.Gti(), a.gt, Values(a.Digits()), Pack(Values(a.Digits()))))
  }

  function TitleMeaning(gti: Nibble, gt: GlobalTitle, v: seq<Nibble>, packed: seq<Byte>): Title {
    match Width(gti)
    case 1 => NatureOnly(gt.nai % 128, v)
    case 2 => TranslationOnly(gt.tt, packed)
    case 3 => Translation(gt.tt, gt.npi % 16, v)
    case 4 => Full(gt.tt, gt.npi % 16, gt.nai % 128, v)
    case _ => NoTitle
  }

  lemma {:induction false} UnpackPack(v: seq<Nibble>)
    ensures UnpackDigits(Pack(v), |v| % 2 == 1) == Some(v)
  {
    if |v| == 1 {
      assert Pack(v) == [v[0]] && Pack(v)[1..] == [];
      assert Unpack(Pack(v)) == [v[0], 0];
      assert Unpack(Pack(v))[..1] == v;
    } else if |v| >= 2 {
      UnpackPack(v[2..]);
      var p := Pack(v);
      assert p[1..] == Pack(v[2..]);
      assert p[0] % 16 == v[0] && p[0] / 16 == v[1];
      var u, w := Unpack(p), Unpack(p[1..]);
      assert u == [v[0], v[1]] + w;
      assert v == [v[0], v[1]] + v[2..];
      if |v| % 2 == 1 {
        assert u[..|u| - 1] == [v[0], v[1]] + w[..|w| - 1];
      }
    }
  }

  /** Every half octet is a pair: encoding schemes and numbering plans can be told apart again. */
  lemma PairParts(lo: Nibble, hi: Nibble)
    ensures Pair(lo, hi) % 16 == lo && Pair(lo, hi) / 16 == hi
  {
  }

  lemma TitleFrom(gti: Nibble, h: seq<Byte>, p: seq<Byte>, v: seq<Nibble>, odd: bool)
    requires 1 <= gti <= 4 && gti != 2 && |h| == (if gti == 4 then 3 else if gti == 3 then 2 else 1)
    requires UnpackDigits(p, odd) == Some(v)
    requires if gti == 1 then h[0] >= 0x80 <==> odd else h[1] % 16 == (if odd then 1 else 2)
    ensures DecodeTitle(gti, h + p)
         == Some(if gti == 1 then NatureOnly(h[0] % 128, v)
                 else if gti == 3 then Translation(h[0], h[1] / 16, v)
                 else Full(h[0], h[1] / 16, h[2] % 128, v))
  {
    assert (h + p)[|h|..] == p;
  }

  lemma TitleDecodes(gti: Nibble, gt: GlobalTitle, v: seq<Nibble>, p: seq<Byte>)
    requires 1 <= gti <= 4 && UnpackDigits(p, |v| % 2 == 1) == Some(v)
    ensures DecodeTitle(gti, TitleHeader(gti, gt, |v| % 2 == 1) + p) == Some(TitleMeaning(gti, gt, v, p))
  {
    var odd := |v| % 2 == 1;
    var h := TitleHeader(gti, gt, odd);
    if gti == 2 {
      assert (h + p)[1..] == p;
    } else {
      PairParts(if odd then 1 else 2, gt.npi % 16);
      TitleFrom(gti, h, p, v, odd);
    }
  }

  lemma IndicatorParts(a: Party)
    ensures var ai := Indicator(a);
            && ai % 2 == (if a.hasPc then 1 else 0) && ai / 2 % 2 == (if a.hasSsn then 1 else 0)
            && ai / 4 % 16 == a.Gti()
            && ai / 64 % 2 == (if !a.routeOnGt || a.Gti() == 0 then 1 else 0)
  {
  }

  lemma BodyDecodes(b: seq<Byte>, ai: Byte, pc: seq<Byte>, ssn: seq<Byte>, title: seq<Byte>)
    requires b == [ai] + pc + ssn + title
    requires |pc| == (if ai % 2 == 1 then 2 else 0) && |ssn| == (if ai / 2 % 2 == 1 then 1 else 0)
    requires DecodeTitle(ai / 4 % 16, title).Some?
    ensures DecodeBody(b) == Some(Decoded(if ai % 2 == 1 then Some(PointCodeOf(pc[0], pc[1])) else None,
                                          if ai / 2 % 2 == 1 then Some(ssn[0]) else None,
                                          ai / 64 % 2 == 1, DecodeTitle(ai / 4 % 16, title).value))
  {
    assert b[1 + |pc| + |ssn|..] == title;
    assert |pc| == 2 ==> b[1] == pc[0] && b[2] == pc[1];
    assert |ssn| == 1 ==> b[1 + |pc|] == ssn[0];
  }

  lemma PointCodeParts(pc: Uint32)
    ensures PointCodeOf(pc % 256, pc / 256 % 64) == pc % 0x4000
  {
    var q := pc / 256;
    assert pc == 256 * q + pc % 256 && q == 64 * (q / 64) + q % 64;
    assert pc == 0x4000 * (q / 64) + (256 * (q % 64) + pc % 256);
  }

  /** Decoding gives back the point code (its low 14 bits), subsystem, routing indicator and digits. */
  lemma EncodeDecodes(a: Party, rest: seq<Byte>)
    requires a.Gti() <= 4
    ensures Decode(Encode(a) + rest) == Some(Meaning(a))
  {
    var b := Body(a);
    var s := Encode(a) + rest;
    assert s[1..] == b + rest;
    assert s[1..][..s[0]] == b;
    IndicatorParts(a);
    if a.Gti() != 0 {
      UnpackPack(Values(a.Digits()));
      TitleDecodes(a.Gti(), a.gt, Values(a.Digits()), Pack(Values(a.Digits())));
    }
    PointCodeParts(a.pc);
    BodyDecodes(b, Indicator(a), PointCode(a), Subsystem(a), TitleOctets(a));
  }

  /** The translation-type-only format carries no odd/even mark: its digits come back with a filler
      exactly when there is an odd number of them. */
  lemma TranslationOnlyFiller(v: seq<Nibble>)
    ensures Unpack(Pack(v)) == v <==> |v| % 2 == 0
    ensures |v| % 2 == 1 ==> Unpack(Pack(v)) == v + [0]
  {
    UnpackPack(v);
    if |v| % 2 == 1 {
      LastFiller(v);
    }
  }

  lemma UnpackPair(lo: Nibble, hi: Nibble, rest: seq<Byte>)
    ensures Unpack([Pair(lo, hi)] + rest) == [lo, hi] + Unpack(rest)
  {
    assert ([Pair(lo, hi)] + rest)[1..] == rest;
  }

  lemma {:induction false} LastFiller(v: seq<Nibble>)
    requires |v| % 2 == 1
    ensures Unpack(Pack(v)) == v + [0]
  {
    if |v| == 1 {
      assert Pack(v)[1..] == [];
    } else {
      LastFiller(v[2..]);
      UnpackPair(v[0], v[1], Pack(v[2..]));
      assert v == [v[0], v[1]] + v[2..];
    }
  }

  // ---- The code ----

  function PackFrom(v: seq<Nibble>, i: nat): (s: seq<Byte>) {
    if i <= |v| then Pack(v[i..]) else []
  }

  lemma PackStep(v: seq<Nibble>, i: nat)
    requires i < |v|
    ensures PackFrom(v, i) == [Pair(v[i], if i + 1 < |v| then v[i + 1] else 0)] + PackFrom(v, i + 2)
  {
    var rest := v[i..];
    assert |rest| >= 2 ==> rest[2..] == v[i + 2..];
  }

  /** The digits of a global title, two at a time. */
  method WriteDigits(out: array<Byte>, at: nat, digits: Digits) returns (p: nat)
    requires at + 16 <= out.Length
    modifies out
    ensures p == at + |Pack(Values(digits))|
    ensures out[..p] == old(out[..at]) + Pack(Values(digits))
  {
    ghost var head, v, done := out[..at], Values(digits), [];
    p := at;
    var i := 0;
    assert v[0..] == v;
    while i < |digits|
      invariant 0 <= i <= |digits| + 1
      invariant |Pack(v)| <= 16
      invariant Pack(v) == done + PackFrom(v, i)
      invariant p == at + |done|
      invariant out[..p] == head + done
    {
      var lo := BcdDigit(digits[i]);
      var hi := if i + 1 < |digits| then BcdDigit(digits[i + 1]) else 0;
      PackStep(v, i);
      ghost var rest := PackFrom(v, i + 2);
      assert Pack(v) == (done + [Pair(lo, hi)]) + rest;
      Store(out, p, [Pair(lo, hi)]);
      done := done + [Pair(lo, hi)];
      p := p + 1;
      i := i + 2;
    }
    assert PackFrom(v, i) == [];
  }

  method WriteTitle(out: array<Byte>, at: nat, a: Party) returns (p: nat)
    requires at + 19 <= out.Length
    modifies out
    ensures p == at + |TitleOctets(a)|
    ensures out[..p] == old(out[..at]) + TitleOctets(a)
  {
    hide BcdDigit, Pack;
    ghost var head := out[..at];
    var odd := |a.Digits()| % 2 == 1;
    p := at;
    match Width(a.Gti()) {
      case 1 =>
        Store(out, p, [(if odd then 0x80 else 0) + a.gt.nai % 128]);
        p := p + 1;
      case 2 =>
        Store(out, p, [a.gt.tt]);
        p := p + 1;
      case 3 =>
        Store(out, p, [a.gt.tt, PlanAndScheme(a.gt.npi, odd)]);
        p := p + 2;
      case 4 =>
        Store(out, p, [a.gt.tt, PlanAndScheme(a.gt.npi, odd), a.gt.nai % 128]);
        p := p + 3;
      case _ =>
    }
    ghost var h := TitleHeader(a.Gti(), a.gt, odd);
    assert out[..p] == head + h;
    if a.Gti() != 0 {
      p := WriteDigits(out, p, a.Digits());
      assert out[..p] == head + (h + Pack(Values(a.Digits())));
    } else {
      assert TitleOctets(a) == h;
    }
  }

  method WriteFixed(out: array<Byte>, at: nat, ai: Byte, pc: seq<Byte>, ssn: seq<Byte>) returns (p: nat)
    requires at + 1 + |pc| + |ssn| <= out.Length
    modifies out
    ensures p == at + 1 + |pc| + |ssn|
    ensures out[..p] == old(out[..at]) + ([ai] + pc + ssn)
  {
    ghost var head := out[..at];
    Store(out, at, [ai]);
    p := at + 1;
    Store(out, p, pc);
    p := p + |pc|;
    Store(out, p, ssn);
    p := p + |ssn|;
    assert out[..p] == head + [ai] + pc + ssn;
  }

  method StoreLength(out: array<Byte>, at: nat, p: nat, ghost body: seq<Byte>)
    requires at < p <= out.Length && p - at - 1 < 256
    requires out[..p] == out[..at + 1] + body
    modifies out
    ensures out[..p] == old(out[..at]) + ([p - at - 1] + body)
  {
    ghost var head := out[..at];
    assert out[at + 1..p] == out[..p][at + 1..] == body;
    Store(out, at, [p - at - 1]);
    assert out[..p] == out[..at + 1] + out[at + 1..p];
    assert out[..p] == head + [p - at - 1] + body;
  }

  /** sccp_addr_enc(): the length octet is filled in last. */
  method Write(out: array<Byte>, at: nat, a: Party) returns (n: nat)
    requires at + 24 <= out.Length
    modifies out
    ensures n == |Encode(a)|
    ensures out[..at + n] == old(out[..at]) + Encode(a)
  {
    hide Indicator, PointCode, Subsystem, TitleOctets;
    ghost var head, fixed, title := out[..at + 1], [Indicator(a)] + PointCode(a) + Subsystem(a), TitleOctets(a);
    var p := WriteFixed(out, at + 1, Indicator(a), PointCode(a), Subsystem(a));
    p := WriteTitle(out, p, a);
    JoinBody(out[..p], head, fixed, title);
    StoreLength(out, at, p, fixed + title);
    n := p - at;
  }

  lemma JoinBody(s: seq<Byte>, head: seq<Byte>, fixed: seq<Byte>, title: seq<Byte>)
    requires s == head + fixed + title
    ensures s == s[..|head|] + (fixed + title) && s[..|head|] == head
  {
  }
}
