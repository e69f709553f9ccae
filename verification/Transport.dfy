/** build_sctp() of msc_iptrace.c, and the flow counters that it shares with build_tcp(): a transport header with
    synthesized counters around a payload whose real transport was stripped before the MSC saw it. */
module Transport {
  import opened Options
  import opened Bytes
  import opened Crc32c
  import opened InternetChecksum
  import opened IpHeader

  const IPPROTO_TCP: Byte := 6
  const IPPROTO_SCTP: Byte := 132

  /** struct ipt_flow: the counters of one socket, index 0 for sent and 1 for received packets. */
  class Flow {
    var used: bool
    var fd: int
    var ep: Endpoints
    var next: seq<Uint32>
    var ssn: seq<Uint16>

    ghost predicate Valid()
      reads this
    {
      |next| == 2 && |ssn| == 2
    }

    constructor (ep: Endpoints)
      ensures Valid() && !used && this.ep == ep
    {
      used, fd, this.ep := false, 0, ep;
      next, ssn := [0, 0], [0, 0];
    }
  }

  function Direction(isRx: bool): nat {
    if isRx then 1 else 0
  }

  function Next32(n: Uint32): Uint32 {
    (n + 1) % 0x1_0000_0000
  }

  function Next16(n: Uint16): Uint16 {
    (n + 1) % 0x1_0000
  }

  // ---- SCTP: one DATA chunk, section 3.3.1 of RFC 9260 ----

  function Pad(length: nat): nat {
    (4 - length % 4) % 4
  }

  function SctpLength(length: nat): nat {
    12 + 16 + length + Pad(length)
  }

  function ChunkHeader(length: Uint16, tsn: Uint32, stream: Uint16, ssn: Uint16, ppid: Uint32): (s: seq<Byte>)
    ensures |s| == 16
  {
    [0, 3] + Be16(length) + Be32(tsn) + Be16(stream) + Be16(ssn) + Be32(ppid)
  }

  function Chunk(data: Data): (s: seq<Byte>)
    requires 16 + |data.payload| <= 0xFFFF
    ensures |s| == 16 + |data.payload| + Pad(|data.payload|)
  {
    ChunkHeader(16 + |data.payload|, data.tsn, data.stream, data.ssn, data.ppid)
    + data.payload + Zeros(Pad(|data.payload|))
  }

  function SctpStart(sport: Uint16, dport: Uint16, tag: Uint32): (s: seq<Byte>)
    ensures |s| == 8
  {
    Be16(sport) + Be16(dport) + Be32(tag)
  }

  /** The checksum goes out least significant octet first. */
  function ChecksumOctets(w: Word): (s: seq<Byte>)
    ensures |s| == 4
  {
    hide Value;
    OctetBound(w[..8]);
    OctetBound(w[8..16]);
    OctetBound(w[16..24]);
    OctetBound(w[24..]);
    [Value(w[..8]), Value(w[8..16]), Value(w[16..24]), Value(w[24..])]
  }

  lemma OctetBound(s: seq<bool>)
    requires |s| == 8
    ensures Value(s) < 256
    ensures Bits(Value(s), 8) == s
  {
    BitsValue(s);
    assert Pow2(8) == 256;
  }

  function WordOf(s: seq<Byte>): Word
    requires |s| == 4
  {
    Bits(s[0], 8) + Bits(s[1], 8) + Bits(s[2], 8) + Bits(s[3], 8)
  }

  lemma ChecksumRoundTrip(w: Word)
    ensures WordOf(ChecksumOctets(w)) == w
  {
    hide Bits, Value;
    OctetBound(w[..8]);
    OctetBound(w[8..16]);
    OctetBound(w[16..24]);
    OctetBound(w[24..]);
    assert w == w[..8] + w[8..16] + w[16..24] + w[24..];
  }

  function SctpPacket(start: seq<Byte>, chunk: seq<Byte>): seq<Byte> {
    start + ChecksumOctets(Checksum(start + Zeros(4) + chunk)) + chunk
  }

  /** The verification tag tells the direction of the synthesized association. */
  function Tag(isRx: bool): Uint32 {
    0x4D53_4300 + Direction(isRx)
  }

  function Sctp(ep: Endpoints, isRx: bool, data: Data): (s: seq<Byte>)
    requires 16 + |data.payload| <= 0xFFFF
    ensures |s| == SctpLength(|data.payload|)
  {
    SctpPacket(SctpStart(ep.SourcePort(isRx), ep.DestinationPort(isRx), Tag(isRx)),
               Chunk(data))
  }

  datatype Data = Data(tsn: Uint32, stream: Uint16, ssn: Uint16, ppid: Uint32, payload: seq<Byte>)

  datatype Association = Association(source: Uint16, destination: Uint16, tag: Uint32, data: Data)

  /** Section 6.8 of RFC 9260: the receiver puts zeros in place of the checksum and computes it again. */
  predicate Intact(s: seq<Byte>)
    requires |s| >= 12
  {
    WordOf(s[8..12]) == Checksum(s[..8] + Zeros(4) + s[12..])
  }

  /** A receiver of packets that hold exactly one unfragmented DATA chunk. */
  function DecodeSctp(s: seq<Byte>): Option<Association> {
    if |s| < 28 || !Intact(s) then None else DecodeChunk(s)
  }

  function DecodeChunk(s: seq<Byte>): Option<Association>
    requires |s| >= 28
  {
    if s[12] != 0 || s[13] != 3 || Get16(s, 14) < 16 then None
    else
      var length := Get16(s, 14) - 16;
      if |s| != SctpLength(length) || s[28 + length..] != Zeros(Pad(length)) then None
      else Some(Association(Get16(s, 0), Get16(s, 2), Get32(s, 4),
                            Data(Get32(s, 16), Get16(s, 20), Get16(s, 22), Get32(s, 24), s[28..28 + length])))
  }

  lemma StoredCrcVerifies(start: seq<Byte>, chunk: seq<Byte>)
    requires |start| == 8
    ensures var s := SctpPacket(start, chunk);
            && s[..8] == start && s[12..] == chunk
            && Intact(s)
  {
    var s := SctpPacket(start, chunk);
    var w := Checksum(start + Zeros(4) + chunk);
    assert s[8..12] == ChecksumOctets(w);
    ChecksumRoundTrip(w);
  }

  lemma ChunkFields(length: Uint16, tsn: Uint32, stream: Uint16, ssn: Uint16, ppid: Uint32)
    ensures var h := ChunkHeader(length, tsn, stream, ssn, ppid);
            && h[0] == 0 && h[1] == 3 && Get16(h, 2) == length && Get32(h, 4) == tsn
            && Get16(h, 8) == stream && Get16(h, 10) == ssn && Get32(h, 12) == ppid
  {
    var h := ChunkHeader(length, tsn, stream, ssn, ppid);
    GetBe16([0, 3], length, h[4..]);
    assert h == [0, 3] + Be16(length) + h[4..];
    GetBe32(h[..4], tsn, h[8..]);
    assert h == h[..4] + Be32(tsn) + h[8..];
    GetBe16(h[..8], stream, h[10..]);
    assert h == h[..8] + Be16(stream) + h[10..];
    GetBe16(h[..10], ssn, h[12..]);
    assert h == h[..10] + Be16(ssn) + h[12..];
    GetBe32(h[..12], ppid, []);
    assert h == h[..12] + Be32(ppid) + [];
  }

  lemma StartFields(sport: Uint16, dport: Uint16, tag: Uint32)
    ensures var h := SctpStart(sport, dport, tag);
            Get16(h, 0) == sport && Get16(h, 2) == dport && Get32(h, 4) == tag
  {
    var h := SctpStart(sport, dport, tag);
    GetBe16([], sport, h[2..]);
    assert h == [] + Be16(sport) + h[2..];
    GetBe16(h[..2], dport, h[4..]);
    assert h == h[..2] + Be16(dport) + h[4..];
    GetBe32(h[..4], tag, []);
    assert h == h[..4] + Be32(tag) + [];
  }

  lemma ChunkParts(s: seq<Byte>, h: seq<Byte>, payload: seq<Byte>, pad: seq<Byte>)
    requires |h| == 16 && |s| == 28 + |payload| + |pad|
    requires s[12..] == h + payload + pad
    ensures s[12..28] == h && s[28..28 + |payload|] == payload && s[28 + |payload|..] == pad
  {
    var chunk := s[12..];
    assert s[12..28] == chunk[..16];
    assert s[28..28 + |payload|] == chunk[16..16 + |payload|];
    assert s[28 + |payload|..] == chunk[16 + |payload|..];
  }

  lemma SctpLayout(ep: Endpoints, isRx: bool, data: Data)
    requires 16 + |data.payload| <= 0xFFFF
    ensures var s := Sctp(ep, isRx, data);
            && s[..8] == SctpStart(ep.SourcePort(isRx), ep.DestinationPort(isRx), Tag(isRx))
            && s[12..28] == ChunkHeader(16 + |data.payload|, data.tsn, data.stream, data.ssn, data.ppid)
            && s[28..28 + |data.payload|] == data.payload
            && s[28 + |data.payload|..] == Zeros(Pad(|data.payload|))
            && Intact(s)
  {
    var s := Sctp(ep, isRx, data);
    StoredCrcVerifies(SctpStart(ep.SourcePort(isRx), ep.DestinationPort(isRx), Tag(isRx)), Chunk(data));
    ChunkParts(s, ChunkHeader(16 + |data.payload|, data.tsn, data.stream, data.ssn, data.ppid), data.payload,
               Zeros(Pad(|data.payload|)));
  }

  lemma DecodeParts(s: seq<Byte>, start: seq<Byte>, h: seq<Byte>, payload: seq<Byte>)
    requires |start| == 8 && |h| == 16 && |s| == SctpLength(|payload|)
    requires s[..8] == start && s[12..28] == h && s[28..28 + |payload|] == payload
    requires s[28 + |payload|..] == Zeros(Pad(|payload|))
    requires h[0] == 0 && h[1] == 3 && Get16(h, 2) == 16 + |payload|
    ensures DecodeChunk(s) == Some(Association(Get16(start, 0), Get16(start, 2), Get32(start, 4),
                                               Data(Get32(h, 4), Get16(h, 8), Get16(h, 10), Get32(h, 12), payload)))
  {
    GetInSlice(s, 0, 8, 0);
    GetInSlice(s, 0, 8, 2);
    GetInSlice(s, 0, 8, 4);
    GetInSlice(s, 12, 28, 2);
    GetInSlice(s, 12, 28, 4);
    GetInSlice(s, 12, 28, 8);
    GetInSlice(s, 12, 28, 10);
    GetInSlice(s, 12, 28, 12);
    assert s[12] == s[12..28][0] && s[13] == s[12..28][1];
  }

  /** A receiver that verifies the checksum gets back every field and the payload. */
  lemma SctpDecodes(ep: Endpoints, isRx: bool, data: Data)
    requires 16 + |data.payload| <= 0xFFFF
    ensures DecodeSctp(Sctp(ep, isRx, data))
         == Some(Association(ep.SourcePort(isRx), ep.DestinationPort(isRx), Tag(isRx), data))
  {
    SctpLayout(ep, isRx, data);
    StartFields(ep.SourcePort(isRx), ep.DestinationPort(isRx), Tag(isRx));
    ChunkFields(16 + |data.payload|, data.tsn, data.stream, data.ssn, data.ppid);
    DecodeParts(Sctp(ep, isRx, data), SctpStart(ep.SourcePort(isRx), ep.DestinationPort(isRx), Tag(isRx)),
                ChunkHeader(16 + |data.payload|, data.tsn, data.stream, data.ssn, data.ppid), data.payload);
  }

  /** A whole packet as it is traced. */
  function SctpDatagram(ep: Endpoints, isRx: bool, id: Uint16, data: Data): (p: seq<Byte>)
    requires ep.HeaderLength() + SctpLength(|data.payload|) <= 0xFFFF
    ensures |p| == ep.HeaderLength() + SctpLength(|data.payload|)
  {
    Header(ep, isRx, IPPROTO_SCTP, SctpLength(|data.payload|), id) + Sctp(ep, isRx, data)
  }

  /** What a network analyser sees of a traced packet: its addresses and its DATA chunk. */
  function Analyse(p: seq<Byte>): Option<(Datagram, Association)> {
    match Decode(p)
    case None => None
    case Some(d) =>
      if d.protocol != IPPROTO_SCTP then None
      else match DecodeSctp(d.payload)
        case None => None
        case Some(a) => Some((d, a))
  }

  lemma SctpDatagramAnalysed(ep: Endpoints, isRx: bool, id: Uint16, data: Data)
    requires ep.HeaderLength() + SctpLength(|data.payload|) <= 0xFFFF
    ensures Analyse(SctpDatagram(ep, isRx, id, data))
         == Some((AsSeen(ep, isRx, IPPROTO_SCTP, id, Sctp(ep, isRx, data)),
                  if isRx then Association(ep.pport, ep.lport, 0x4D53_4301, data)
                  else Association(ep.lport, ep.pport, 0x4D53_4300, data)))
  {
    hide Decode, DecodeSctp, Header, Sctp;
    HeaderDecodes(ep, isRx, IPPROTO_SCTP, id, Sctp(ep, isRx, data));
    SctpDecodes(ep, isRx, data);
  }

  method WriteStart(b: array<Byte>, at: nat, sport: Uint16, dport: Uint16, tag: Uint32)
    requires at + 12 <= b.Length
    modifies b
    ensures b[..at + 12] == old(b[..at]) + (SctpStart(sport, dport, tag) + Zeros(4))
  {
    ghost var head := b[..at];
    Store(b, at, Be16(sport));
    Store(b, at + 2, Be16(dport));
    Store(b, at + 4, Be32(tag));
    Store(b, at + 8, Zeros(4));
    assert b[..at + 12] == head + Be16(sport) + Be16(dport) + Be32(tag) + Zeros(4);
  }

  method WriteChunkHeader(b: array<Byte>, at: nat, data: Data)
    requires 16 + |data.payload| <= 0xFFFF && at + 16 <= b.Length
    modifies b
    ensures b[..at + 16]
         == old(b[..at]) + ChunkHeader(16 + |data.payload|, data.tsn, data.stream, data.ssn, data.ppid)
  {
    ghost var head := b[..at];
    Store(b, at, [0, 3]);
    Store(b, at + 2, Be16(16 + |data.payload|));
    Store(b, at + 4, Be32(data.tsn));
    Store(b, at + 8, Be16(data.stream));
    Store(b, at + 10, Be16(data.ssn));
    Store(b, at + 12, Be32(data.ppid));
    assert b[..at + 16] == head + [0, 3] + Be16(16 + |data.payload|) + Be32(data.tsn) + Be16(data.stream)
                           + Be16(data.ssn) + Be32(data.ppid);
  }

  /** The SCTP packet with a zero checksum, at offset at of the buffer. */
  method WriteSctp(b: array<Byte>, at: nat, ep: Endpoints, isRx: bool, data: Data)
    requires 16 + |data.payload| <= 0xFFFF && b.Length == at + SctpLength(|data.payload|)
    modifies b
    ensures b[at..]
         == SctpStart(ep.SourcePort(isRx), ep.DestinationPort(isRx), Tag(isRx)) + Zeros(4) + Chunk(data)
  {
    WriteStart(b, at, ep.SourcePort(isRx), ep.DestinationPort(isRx), Tag(isRx));
    ghost var head, start := b[..at], SctpStart(ep.SourcePort(isRx), ep.DestinationPort(isRx), Tag(isRx)) + Zeros(4);
    assert b[..at + 12] == head + start;
    ghost var header := WriteChunk(b, at + 12, data);
    AfterHead(b[..], head, start, header, data.payload, Zeros(Pad(|data.payload|)));
    assert b[at..] == b[..][at..];
  }

  method WriteChunk(b: array<Byte>, at: nat, data: Data) returns (ghost header: seq<Byte>)
    requires 16 + |data.payload| <= 0xFFFF && b.Length == at + 16 + |data.payload| + Pad(|data.payload|)
    modifies b
    ensures header == ChunkHeader(16 + |data.payload|, data.tsn, data.stream, data.ssn, data.ppid)
    ensures b[..] == old(b[..at]) + header + data.payload + Zeros(Pad(|data.payload|))
  {
    WriteChunkHeader(b, at, data);
    header := ChunkHeader(16 + |data.payload|, data.tsn, data.stream, data.ssn, data.ppid);
    Store(b, at + 16, data.payload);
    Store(b, at + 16 + |data.payload|, Zeros(Pad(|data.payload|)));
    assert b[..] == b[..b.Length];
  }

  lemma AfterHead(b: seq<Byte>, head: seq<Byte>, start: seq<Byte>, h: seq<Byte>, payload: seq<Byte>, pad: seq<Byte>)
    requires b == head + start + h + payload + pad
    ensures b[|head|..] == start + (h + payload + pad)
  {
  }

  /** The last step for an SCTP packet: the checksum of the whole, over zeros in its own place. */
  method StoreCrc(crc: Table, b: array<Byte>, at: nat, ghost start: seq<Byte>, ghost chunk: seq<Byte>)
    requires crc.Valid()
    requires |start| == 8 && at <= b.Length && b[at..] == start + Zeros(4) + chunk
    modifies crc, crc.table, b
    ensures crc.Valid()
    ensures b[at..] == SctpPacket(start, chunk)
  {
    hide Checksum, ChecksumOctets;
    assert |b[at..]| == |start + Zeros(4) + chunk|;
    var word := crc.Crc32c(b[at..]);
    var octets := ChecksumOctets(word);
    StoreOctets(b, at, octets, start, Zeros(4), chunk);
  }

  method StoreOctets(b: array<Byte>, at: nat, octets: seq<Byte>,
                     ghost start: seq<Byte>, ghost zeros: seq<Byte>, ghost chunk: seq<Byte>)
    requires |start| == 8 && |zeros| == |octets| == 4 && at <= b.Length && b[at..] == start + zeros + chunk
    modifies b
    ensures b[at..] == start + octets + chunk
  {
    ghost var was := b[at..];
    assert b[at..at + 8] == was[..8] == start;
    assert b[at + 12..] == was[12..] == chunk;
    Store(b, at + 8, octets);
    assert b[at..at + 12] == b[..at + 12][at..];
    assert b[at..] == b[at..at + 12] + b[at + 12..];
  }

  /** The counters of a DATA chunk; a TSN of 0 asks for the next synthesized one of this direction. */
  method NextData(flow: Flow, isRx: bool, ppid: Uint32, stream: Uint16, tsn: Uint32, payload: seq<Byte>)
    returns (data: Data)
    requires flow.Valid()
    modifies flow`next, flow`ssn
    ensures flow.Valid()
    ensures var dir := Direction(isRx);
            var used := if tsn != 0 then tsn else old(flow.next[dir]);
            && data == Data(used, stream, old(flow.ssn[dir]), ppid, payload)
            && flow.next == old(flow.next)[dir := Next32(used)]
            && flow.ssn == old(flow.ssn)[dir := Next16(old(flow.ssn[dir]))]
  {
    var dir := Direction(isRx);
    var used := if tsn != 0 then tsn else flow.next[dir];
    flow.next := flow.next[dir := Next32(used)];
    data := Data(used, stream, flow.ssn[dir], ppid, payload);
    flow.ssn := flow.ssn[dir := Next16(flow.ssn[dir])];
  }

  /** build_sctp() */
  method BuildSctp(ids: Identification, crc: Table, flow: Flow, ep: Endpoints, isRx: bool,
                   ppid: Uint32, stream: Uint16, tsn: Uint32, payload: seq<Byte>)
    returns (pkt: Option<seq<Byte>>)
    requires flow.Valid() && crc.Valid()
    modifies ids, crc, crc.table, flow`next, flow`ssn
    ensures flow.Valid() && crc.Valid()
    ensures var dir := Direction(isRx);
            var used := if tsn != 0 then tsn else old(flow.next[dir]);
            if ep.HeaderLength() + SctpLength(|payload|) > 0xFFFF then
              pkt == None && flow.next == old(flow.next) && flow.ssn == old(flow.ssn) && ids.ipId == old(ids.ipId)
            else
              && pkt == Some(SctpDatagram(ep, isRx, old(ids.ipId),
                                          Data(used, stream, old(flow.ssn[dir]), ppid, payload)))
              && flow.next == old(flow.next)[dir := Next32(used)]
              && flow.ssn == old(flow.ssn)[dir := Next16(old(flow.ssn[dir]))]
              && ids.ipId == if ep.v6 then old(ids.ipId) else Next16(old(ids.ipId))
  {
    var hl, length := ep.HeaderLength(), SctpLength(|payload|);
    if hl + length > 0xFFFF {
      return None;
    }
    var b := new Byte[hl + length](_ => 0);
    var data := NextData(flow, isRx, ppid, stream, tsn, payload);
    WriteSctp(b, hl, ep, isRx, data);
    StoreCrc(crc, b, hl, SctpStart(ep.SourcePort(isRx), ep.DestinationPort(isRx), Tag(isRx)), Chunk(data));
    ids.WriteHeader(b, ep, isRx, IPPROTO_SCTP, length);
    pkt := Some(b[..]);
  }
}
