/** sccp_build() of msc_iptrace.c: the SCCP messages of section 4 of ITU-T Q.713. */
module Sccp {
  import opened Options
  import opened Bytes
  import opened IpHeader
  import A = SccpAddress

  const DATA_MAX := 255
  /** uint8_t sccp[IPT_SCCP_DATA_MAX + 128] */
  const SCRATCH := DATA_MAX + 128

  type Reference = x: int | 0 <= x < 0x100_0000
  type UserData = s: seq<Byte> | |s| <= 255

  datatype Kind = CR | CC | RLSD | DT1 | UDT

  /** IPT_REF_LOCAL and IPT_REF_PEER: flipping bit 23 is adding it modulo 24 bits. */
  function LocalReference(connId: Uint32): Reference {
    connId % 0x100_0000
  }

  function PeerReference(connId: Uint32): Reference {
    (LocalReference(connId) + 0x80_0000) % 0x100_0000
  }

  /** sccp_ref() */
  function Ref(r: Reference): (s: seq<Byte>)
    ensures |s| == 3
  {
    [r % 256, r / 256 % 256, r / 0x1_0000]
  }

  // ---- Messages; a party address stands for its encoding with the length octet ----

  function Dt1(to: Reference, more: bool, data: UserData): (s: seq<Byte>)
    ensures |s| == 7 + |data|
  {
    [6] + Ref(to) + [if more then 1 else 0, 1, |data|] + data
  }

  function Cc(to: Reference, from: Reference): (s: seq<Byte>)
    ensures |s| == 9
  {
    [2] + Ref(to) + Ref(from) + [2, 0]
  }

  function RlsdTail(data: UserData): (s: seq<Byte>)
    ensures |s| <= 4 + |data|
  {
    if data == [] then [0] else [1, 0x0F, |data|] + data + [0]
  }

  function Rlsd(to: Reference, from: Reference, data: UserData): (s: seq<Byte>)
    ensures |s| <= 12 + |data|
  {
    [4] + Ref(to) + Ref(from) + [0] + RlsdTail(data)
  }

  function DataParameter(data: UserData): (s: seq<Byte>)
    ensures |s| <= 2 + |data|
  {
    if data == [] then [] else [0x0F, |data|] + data
  }

  function Cr(from: Reference, called: seq<Byte>, calling: seq<Byte>, data: UserData): (s: seq<Byte>)
    requires |called| <= 24 && |calling| <= 24
    ensures |s| <= 11 + |called| + |calling| + |data|
  {
    [1] + Ref(from) + [2, 2, 1 + |called|] + called + ([4] + calling + DataParameter(data) + [0])
  }

  function Udt(called: seq<Byte>, calling: seq<Byte>, data: UserData): (s: seq<Byte>)
    requires |called| <= 24 && |calling| <= 24
    ensures |s| == 6 + |called| + |calling| + |data|
  {
    [9, 0, 3, 2 + |called|, 1 + |called| + |calling|] + called + calling + ([|data|] + data)
  }

  /** The data of a message longer than one length octet can tell is cut. */
  function Cut(data: seq<Byte>): UserData {
    if |data| > DATA_MAX then data[..DATA_MAX] else data
  }

  /** Every message fits the scratch buffer. */
  function Build(kind: Kind, isRx: bool, connId: Uint32, local: A.Party, peer: A.Party, data: seq<Byte>, more: bool)
    : (s: seq<Byte>)
    ensures |s| <= SCRATCH
  {
    var to := if isRx then LocalReference(connId) else PeerReference(connId);
    var from := if isRx then PeerReference(connId) else LocalReference(connId);
    var called := A.Encode(if isRx then local else peer);
    var calling := A.Encode(if isRx then peer else local);
    match kind
    case CR => Cr(from, called, calling, Cut(data))
    case CC => Cc(to, from)
    case DT1 => Dt1(to, more, Cut(data))
    case RLSD => Rlsd(to, from, Cut(data))
    case UDT => Udt(called, calling, Cut(data))
  }

  // ---- A decoder written from sections 4.2, 4.3, 4.5, 4.7 and 4.10 of ITU-T Q.713 ----

  datatype Message =
    | ConnectionRequest(source: Reference, class_: Byte, called: A.Decoded, calling: A.Decoded, data: seq<Byte>)
    | ConnectionConfirm(destination: Reference, source: Reference, class_: Byte)
    | Released(destination: Reference, source: Reference, cause: Byte, data: seq<Byte>)
    | DataForm1(destination: Reference, more: bool, data: seq<Byte>)
    | Unitdata(class_: Byte, called: A.Decoded, calling: A.Decoded, data: seq<Byte>)

  function RefOf(s: seq<Byte>): Reference
    requires |s| == 3
  {
    var b0: int, b1: int, b2: int := s[0], s[1], s[2];
    b0 + 256 * b1 + 0x1_0000 * b2
  }

  /** The variable part that the pointer octet at the given place leads to: what follows its length octet. */
  function Variable(s: seq<Byte>, pointer: nat): Option<seq<Byte>>
    requires pointer < |s|
  {
    var at := Target(s, pointer);
    if at >= |s| then None
    else
      var length: int := s[at];
      if at + 1 + length > |s| then None else Some(s[at + 1..at + 1 + length])
  }

  function Target(s: seq<Byte>, pointer: nat): nat
    requires pointer < |s|
  {
    var offset: int := s[pointer];
    pointer + offset
  }

  /** The optional part: name, length and contents of each parameter, up to the end mark. */
  function Optional(s: seq<Byte>): Option<map<Byte, seq<Byte>>> {
    if s == [] then None
    else if s[0] == 0 then if |s| == 1 then Some(map[]) else None
    else if |s| < 2 then None
    else
      var length: int := s[1];
      if |s| < 2 + length then None
      else match Optional(s[2 + length..])
        case None => None
        case Some(m) => Some(m[s[0] := s[2..2 + length]])
  }

  function DecodeDt1(s: seq<Byte>): Option<Message> {
    if |s| < 6 || s[4] > 1 then None
    else match Variable(s, 5)
      case None => None
      case Some(data) =>
        if Target(s, 5) + 1 + |data| != |s| then None else Some(DataForm1(RefOf(s[1..4]), s[4] == 1, data))
  }

  function DecodeCr(s: seq<Byte>): Option<Message> {
    if |s| < 7 || Target(s, 6) > |s| then None
    else match (Variable(s, 5), Optional(s[Target(s, 6)..]))
      case (Some(called), Some(m)) =>
        if 4 !in m then None
        else (match (A.DecodeBody(called), A.DecodeBody(m[4]))
              case (Some(c), Some(g)) =>
                Some(ConnectionRequest(RefOf(s[1..4]), s[4], c, g, if 0x0F in m then m[0x0F] else []))
              case _ => None)
      case _ => None
  }

  function DecodeCc(s: seq<Byte>): Option<Message> {
    if |s| != 9 || s[8] != 0 then None
    else Some(ConnectionConfirm(RefOf(s[1..4]), RefOf(s[4..7]), s[7]))
  }

  function DecodeRlsd(s: seq<Byte>): Option<Message> {
    if |s| < 9 then None
    else if s[8] == 0 then
      if |s| == 9 then Some(Released(RefOf(s[1..4]), RefOf(s[4..7]), s[7], [])) else None
    else if Target(s, 8) > |s| then None
    else match Optional(s[Target(s, 8)..])
      case None => None
      case Some(m) => Some(Released(RefOf(s[1..4]), RefOf(s[4..7]), s[7], if 0x0F in m then m[0x0F] else []))
  }

  function DecodeUdt(s: seq<Byte>): Option<Message> {
    if |s| < 5 then None
    else match (Variable(s, 2), Variable(s, 3), Variable(s, 4))
      case (Some(called), Some(calling), Some(data)) =>
        (match (A.DecodeBody(called), A.DecodeBody(calling))
         case (Some(c), Some(g)) => Some(Unitdata(s[1], c, g, data))
         case _ => None)
      case _ => None
  }

  function Decode(s: seq<Byte>): Option<Message> {
    if s == [] then None
    else if s[0] == 1 then DecodeCr(s)
    else if s[0] == 2 then DecodeCc(s)
    else if s[0] == 4 then DecodeRlsd(s)
    else if s[0] == 6 then DecodeDt1(s)
    else if s[0] == 9 then DecodeUdt(s)
    else None
  }

  // ---- Round trips ----

  lemma RefRoundTrip(r: Reference)
    ensures RefOf(Ref(r)) == r
  {
  }

  /** The two ends of a connection never share a reference. */
  lemma ReferencesDiffer(connId: Uint32)
    ensures LocalReference(connId) != PeerReference(connId)
    ensures (PeerReference(connId) + 0x80_0000) % 0x100_0000 == LocalReference(connId)
  {
  }

  /** A pointer octet that leads past what stands in between finds the variable part. */
  lemma VariableFound(s: seq<Byte>, pointer: nat, before: seq<Byte>, v: seq<Byte>, after: seq<Byte>)
    requires pointer < |s| && |v| <= 255
    requires s == before + ([|v|] + v) + after && |before| == Target(s, pointer)
    ensures Variable(s, pointer) == Some(v)
  {
    assert s[|before| + 1..|before| + 1 + |v|] == v;
  }

  lemma Dt1Decodes(to: Reference, more: bool, data: UserData)
    ensures Decode(Dt1(to, more, data)) == Some(DataForm1(to, more, data))
  {
    var s := Dt1(to, more, data);
    RefRoundTrip(to);
    assert s[1..4] == Ref(to);
    VariableFound(s, 5, s[..6], data, []);
  }

  lemma CcDecodes(to: Reference, from: Reference)
    ensures Decode(Cc(to, from)) == Some(ConnectionConfirm(to, from, 2))
  {
    var s := Cc(to, from);
    RefRoundTrip(to);
    RefRoundTrip(from);
    assert s[1..4] == Ref(to) && s[4..7] == Ref(from);
  }

  lemma ParameterParts(tag: Byte, v: UserData, rest: seq<Byte>, s: seq<Byte>)
    requires s == [tag] + ([|v|] + v) + rest
    ensures |s| >= 2 + |v| && s[0] == tag && s[1] == |v| && s[2..2 + |v|] == v && s[2 + |v|..] == rest
  {
  }

  lemma OptionalStep(tag: Byte, v: UserData, rest: seq<Byte>, s: seq<Byte>)
    requires tag != 0 && Optional(rest).Some?
    requires s == [tag] + ([|v|] + v) + rest
    ensures Optional(s) == Some(Optional(rest).value[tag := v])
  {
    ParameterParts(tag, v, rest, s);
  }

  lemma OptionalData(data: UserData)
    ensures Optional(DataParameter(data) + [0]) == Some(if data == [] then map[] else map[0x0F := data])
  {
    assert Optional([0]) == Some(map[]);
    if data == [] {
      assert DataParameter(data) + [0] == [0];
    } else {
      assert DataParameter(data) + [0] == [0x0F] + ([|data|] + data) + [0];
      OptionalStep(0x0F, data, [0], DataParameter(data) + [0]);
    }
  }

  lemma RlsdTailParts(data: UserData)
    requires data != []
    ensures RlsdTail(data) == [1] + (DataParameter(data) + [0])
  {
  }

  lemma RlsdParts(s: seq<Byte>, to: seq<Byte>, from: seq<Byte>, tail: seq<Byte>)
    requires |to| == |from| == 3 && s == [4] + to + from + [0] + tail
    ensures s[0] == 4 && s[1..4] == to && s[4..7] == from && s[7] == 0 && s[8..] == tail
  {
  }

  lemma RlsdTailDecodes(s: seq<Byte>, data: UserData)
    requires |s| >= 8 && s[8..] == RlsdTail(data)
    ensures DecodeRlsd(s) == Some(Released(RefOf(s[1..4]), RefOf(s[4..7]), s[7], data))
  {
    hide RefOf;
    if data == [] {
      assert s[8] == s[8..][0];
    } else {
      hide DataParameter, RlsdTail;
      OptionalData(data);
      RlsdTailParts(data);
      assert s[8] == s[8..][0] == 1;
      assert s[9..] == s[8..][1..];
    }
  }

  lemma RlsdDecodes(to: Reference, from: Reference, data: UserData)
    ensures Decode(Rlsd(to, from, data)) == Some(Released(to, from, 0, data))
  {
    hide Ref, RefOf, RlsdTail, DecodeRlsd;
    RefRoundTrip(to);
    RefRoundTrip(from);
    RlsdParts(Rlsd(to, from, data), Ref(to), Ref(from), RlsdTail(data));
    RlsdTailDecodes(Rlsd(to, from, data), data);
  }

  /** Octets that decode as a party address, with the length octet in front. */
  predicate IsParty(s: seq<Byte>, meaning: A.Decoded) {
    1 <= |s| <= 24 && s[0] == |s| - 1 && A.DecodeBody(s[1..]) == Some(meaning)
  }

  lemma CrOptional(calling: seq<Byte>, data: UserData)
    requires 1 <= |calling| <= 24 && calling[0] == |calling| - 1
    ensures Optional([4] + calling + DataParameter(data) + [0])
         == Some((if data == [] then map[] else map[0x0F := data])[4 := calling[1..]])
  {
    hide DataParameter;
    OptionalData(data);
    var rest := DataParameter(data) + [0];
    assert calling == [|calling[1..]|] + calling[1..];
    assert [4] + calling + DataParameter(data) + [0] == [4] + calling + rest;
    OptionalStep(4, calling[1..], rest, [4] + calling + rest);
  }

  lemma CrDecodes(from: Reference, called: seq<Byte>, calling: seq<Byte>, data: UserData,
                  c: A.Decoded, g: A.Decoded)
    requires IsParty(called, c) && IsParty(calling, g)
    ensures Decode(Cr(from, called, calling, data)) == Some(ConnectionRequest(from, 2, c, g, data))
  {
    hide A.DecodeBody, Ref, RefOf, DataParameter, Optional;
    var s := Cr(from, called, calling, data);
    var h, rest := [1] + Ref(from) + [2, 2, 1 + |called|], [4] + calling + DataParameter(data) + [0];
    assert s == h + called + rest;
    RefRoundTrip(from);
    assert s[1..4] == Ref(from);
    assert called == [|called[1..]|] + called[1..];
    VariableFound(s, 5, h, called[1..], rest);
    CrOptional(calling, data);
    assert s[7 + |called|..] == rest;
  }

  lemma UdtDecodes(called: seq<Byte>, calling: seq<Byte>, data: UserData, c: A.Decoded, g: A.Decoded)
    requires IsParty(called, c) && IsParty(calling, g)
    ensures Decode(Udt(called, calling, data)) == Some(Unitdata(0, c, g, data))
  {
    hide A.DecodeBody;
    var s := Udt(called, calling, data);
    var h := [9, 0, 3, 2 + |called|, 1 + |called| + |calling|];
    var d := [|data|] + data;
    assert s == h + called + calling + d;
    assert called == [|called[1..]|] + called[1..];
    assert calling == [|calling[1..]|] + calling[1..];
    Regroup(h, called, calling, d);
    Regroup(h + called, calling, d, []);
    VariableFound(s, 2, h, called[1..], calling + d);
    VariableFound(s, 3, h + called, calling[1..], d);
    VariableFound(s, 4, h + called + calling, data, []);
  }

  /** What a receiver should see of a built message. */
  function Meaning(kind: Kind, isRx: bool, connId: Uint32, local: A.Party, peer: A.Party, data: seq<Byte>, more: bool)
    : Message
  {
    var ours, theirs := LocalReference(connId), PeerReference(connId);
    var to, from := if isRx then ours else theirs, if isRx then theirs else ours;
    var called, calling := if isRx then local else peer, if isRx then peer else local;
    match kind
    case CR => ConnectionRequest(from, 2, A.Meaning(called), A.Meaning(calling), Cut(data))
    case CC => ConnectionConfirm(to, from, 2)
    case DT1 => DataForm1(to, more, Cut(data))
    case RLSD => Released(to, from, 0, Cut(data))
    case UDT => Unitdata(0, A.Meaning(called), A.Meaning(calling), Cut(data))
  }

  lemma EncodedIsParty(a: A.Party)
    requires a.Gti() <= 4
    ensures IsParty(A.Encode(a), A.Meaning(a))
  {
    A.EncodeDecodes(a, []);
    var s := A.Encode(a);
    assert s + [] == s;
    assert s[1..][..s[0]] == s[1..];
  }

  /** Every kind of message decodes to what it was built from; following the pointer octets leads to the
      called address, to the calling address or the optional part that holds it, and to the data. */
  lemma BuildDecodes(kind: Kind, isRx: bool, connId: Uint32, local: A.Party, peer: A.Party, data: seq<Byte>, more: bool)
    requires kind.CR? || kind.UDT? ==> local.Gti() <= 4 && peer.Gti() <= 4
    ensures Decode(Build(kind, isRx, connId, local, peer, data, more))
         == Some(Meaning(kind, isRx, connId, local, peer, data, more))
  {
    var ours, theirs := LocalReference(connId), PeerReference(connId);
    var to, from := if isRx then ours else theirs, if isRx then theirs else ours;
    var called, calling := if isRx then local else peer, if isRx then peer else local;
    match kind
    case CR =>
      EncodedIsParty(called);
      EncodedIsParty(calling);
      CrDecodes(from, A.Encode(called), A.Encode(calling), Cut(data), A.Meaning(called), A.Meaning(calling));
    case CC => CcDecodes(to, from);
    case DT1 => Dt1Decodes(to, more, Cut(data));
    case RLSD => RlsdDecodes(to, from, Cut(data));
    case UDT =>
      EncodedIsParty(called);
      EncodedIsParty(calling);
      UdtDecodes(A.Encode(called), A.Encode(calling), Cut(data), A.Meaning(called), A.Meaning(calling));
  }

  // ---- The code ----

  /** Fill in an octet that was left open. */
  method Patch(out: array<Byte>, at: nat, v: Byte, p: nat, ghost before: seq<Byte>, ghost after: seq<Byte>)
    requires at < p <= out.Length && |before| == at && |after| == p - at - 1
    requires out[..p] == before + [out[at]] + after
    modifies out
    ensures out[..p] == before + [v] + after
  {
    assert out[..at] == out[..p][..at] == before;
    assert out[at + 1..p] == out[..p][at + 1..] == after;
    Store(out, at, [v]);
    assert out[..p] == out[..at + 1] + out[at + 1..p];
  }

  method PatchIn(out: array<Byte>, at: nat, v: Byte, p: nat, ghost header: seq<Byte>, ghost rest: seq<Byte>)
    requires at < |header| && p <= out.Length && out[..p] == header + rest
    modifies out
    ensures out[..p] == header[at := v] + rest
  {
    assert out[at] == out[..p][at] == header[at];
    ghost var after := header[at + 1..] + rest;
    assert out[..p] == header[..at] + [out[at]] + after;
    Patch(out, at, v, p, header[..at], after);
  }

  method WriteData(out: array<Byte>, at: nat, data: UserData) returns (p: nat)
    requires at + 3 + |data| <= out.Length
    modifies out
    ensures p == at + |DataParameter(data) + [0]|
    ensures out[..p] == old(out[..at]) + (DataParameter(data) + [0])
  {
    ghost var head := out[..at];
    p := at;
    if |data| != 0 {
      Store(out, p, [0x0F]);
      Store(out, p + 1, [|data|]);
      Store(out, p + 2, data);
      p := p + 2 + |data|;
      assert out[..p] == head + DataParameter(data);
    }
    Store(out, p, [0]);
    p := p + 1;
    assert out[..p] == head + DataParameter(data) + [0];
  }

  method WriteCr(out: array<Byte>, from: Reference, called: A.Party, calling: A.Party, data: UserData) returns (p: nat)
    requires out.Length >= SCRATCH
    modifies out
    ensures p == |Cr(from, A.Encode(called), A.Encode(calling), data)|
    ensures out[..p] == Cr(from, A.Encode(called), A.Encode(calling), data)
  {
    hide A.Encode, Ref, DataParameter;
    p := WriteCrMandatory(out, from, called);
    p := WriteCrOptional(out, p, calling, data);
  }

  method WriteCrMandatory(out: array<Byte>, from: Reference, called: A.Party) returns (p: nat)
    requires out.Length >= SCRATCH
    modifies out
    ensures p == 7 + |A.Encode(called)|
    ensures out[..p] == [1] + Ref(from) + [2, 2, 1 + |A.Encode(called)|] + A.Encode(called)
  {
    hide A.Encode, Ref;
    Store(out, 0, [1] + Ref(from) + [2]);
    var ptr := 5;
    p := ptr + 2;
    Store(out, ptr, [p - ptr]);
    ghost var open, c := out[6], A.Encode(called);
    ghost var start := [1] + Ref(from) + [2, 2, open];
    assert out[..7] == start;
    var n := A.Write(out, p, called);
    p := p + n;
    PatchIn(out, ptr + 1, p - (ptr + 1), p, start, c);
    assert start[6 := 1 + |c|] == [1] + Ref(from) + [2, 2, 1 + |c|];
  }

  method WriteCrOptional(out: array<Byte>, at: nat, calling: A.Party, data: UserData) returns (p: nat)
    requires at + 1 + 24 + 3 + |data| <= out.Length
    modifies out
    ensures p == at + |[4] + A.Encode(calling) + DataParameter(data) + [0]|
    ensures out[..p] == old(out[..at]) + ([4] + A.Encode(calling) + DataParameter(data) + [0])
  {
    hide A.Encode, DataParameter;
    ghost var head, party, parameter := out[..at], A.Encode(calling), DataParameter(data);
    Store(out, at, [4]);
    var n := A.Write(out, at + 1, calling);
    p := at + 1 + n;
    assert out[..p] == head + [4] + party;
    p := WriteData(out, p, data);
    Regroup(head, [4] + party, parameter, [0]);
    Regroup(head, [4], party, []);
  }

  method WriteUdt(out: array<Byte>, called: A.Party, calling: A.Party, data: UserData) returns (p: nat)
    requires out.Length >= SCRATCH
    modifies out
    ensures p == |Udt(A.Encode(called), A.Encode(calling), data)|
    ensures out[..p] == Udt(A.Encode(called), A.Encode(calling), data)
  {
    hide A.Encode;
    ghost var c, g := A.Encode(called), A.Encode(calling);
    p := WriteUdtParties(out, called, calling);
    ghost var parties := [9, 0, 3, 2 + |c|, 1 + |c| + |g|] + c + g;
    Store(out, p, [|data|]);
    Store(out, p + 1, data);
    p := p + 1 + |data|;
    assert out[..p] == parties + [|data|] + data;
  }

  method WriteUdtParties(out: array<Byte>, called: A.Party, calling: A.Party) returns (p: nat)
    requires out.Length >= SCRATCH
    modifies out
    ensures var c, g := A.Encode(called), A.Encode(calling);
            && p == 5 + |c| + |g|
            && out[..p] == [9, 0, 3, 2 + |c|, 1 + |c| + |g|] + c + g
  {
    hide A.Encode;
    ghost var c, g := A.Encode(called), A.Encode(calling);
    Store(out, 0, [9, 0]);
    var ptr := 2;
    p := ptr + 3;
    Store(out, ptr, [p - ptr]);
    ghost var o3, o4 := out[3], out[4];
    assert out[..5] == [9, 0, 3, o3, o4];
    var n := A.Write(out, p, called);
    p := p + n;
    PatchIn(out, 3, p - (ptr + 1), p, [9, 0, 3, o3, o4], c);
    ghost var second := p - (ptr + 1);
    n := A.Write(out, p, calling);
    p := p + n;
    assert out[..p] == [9, 0, 3, second, o4] + (c + g);
    PatchIn(out, 4, p - (ptr + 2), p, [9, 0, 3, second, o4], c + g);
    assert [9, 0, 3, second, p - (ptr + 2)] + (c + g) == [9, 0, 3, second, p - (ptr + 2)] + c + g;
  }

  method WriteDt1(out: array<Byte>, to: Reference, more: bool, data: UserData) returns (p: nat)
    requires out.Length >= SCRATCH
    modifies out
    ensures p == |Dt1(to, more, data)|
    ensures out[..p] == Dt1(to, more, data)
  {
    Store(out, 0, [6] + Ref(to));
    Store(out, 4, [if more then 1 else 0, 1, |data|]);
    Store(out, 7, data);
    p := 7 + |data|;
  }

  method WriteRlsd(out: array<Byte>, to: Reference, from: Reference, data: UserData) returns (p: nat)
    requires out.Length >= SCRATCH
    modifies out
    ensures p == |Rlsd(to, from, data)|
    ensures out[..p] == Rlsd(to, from, data)
  {
    ghost var start := [4] + Ref(to) + Ref(from) + [0];
    Store(out, 0, [4] + Ref(to) + Ref(from) + [0]);
    assert out[..8] == start;
    p := WriteRlsdTail(out, 8, data);
  }

  method WriteRlsdTail(out: array<Byte>, at: nat, data: UserData) returns (p: nat)
    requires at + 4 + |data| <= out.Length
    modifies out
    ensures p == at + |RlsdTail(data)|
    ensures out[..p] == old(out[..at]) + RlsdTail(data)
  {
    ghost var head := out[..at];
    if |data| != 0 {
      hide DataParameter, RlsdTail;
      Store(out, at, [1]);
      assert out[..at + 1] == head + [1];
      p := WriteData(out, at + 1, data);
      RlsdTailParts(data);
      Regroup(head, [1], DataParameter(data) + [0], []);
    } else {
      Store(out, at, [0]);
      p := at + 1;
    }
  }

  /** sccp_build() */
  method SccpBuild(out: array<Byte>, kind: Kind, isRx: bool, connId: Uint32, local: A.Party, peer: A.Party,
                   data: seq<Byte>, more: bool) returns (n: nat)
    requires out.Length >= SCRATCH
    modifies out
    ensures n == |Build(kind, isRx, connId, local, peer, data, more)|
    ensures out[..n] == Build(kind, isRx, connId, local, peer, data, more)
  {
    var to := if isRx then LocalReference(connId) else PeerReference(connId);
    var from := if isRx then PeerReference(connId) else LocalReference(connId);
    var called, calling := if isRx then local else peer, if isRx then peer else local;
    match kind {
      case CR => n := WriteCr(out, from, called, calling, Cut(data));
      case CC =>
        Store(out, 0, [2] + Ref(to) + Ref(from) + [2, 0]);
        n := 9;
      case DT1 => n := WriteDt1(out, to, more, Cut(data));
      case RLSD => n := WriteRlsd(out, to, from, Cut(data));
      case UDT => n := WriteUdt(out, called, calling, Cut(data));
    }
  }
}
