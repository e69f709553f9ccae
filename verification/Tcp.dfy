/** build_tcp() and l4_csum() of msc_iptrace.c: a TCP segment whose checksum covers the pseudo-header of
    RFC 9293 (section 3.1) or RFC 8200 (section 8.1). */
module Tcp {
  import opened Options
  import opened Bytes
  import opened InternetChecksum
  import opened IpHeader
  import opened Transport

  /** The pseudo-header as octets; the code never builds it, it adds up the same words. */
  function PseudoHeader(src: seq<Byte>, dst: seq<Byte>, v6: bool, protocol: Byte, length: Uint16): (s: seq<Byte>) {
    src + dst + PseudoTail(v6, protocol, length)
  }

  function PseudoTail(v6: bool, protocol: Byte, length: Uint16): (s: seq<Byte>)
    ensures |s| % 2 == 0
  {
    if v6 then Be32(length) + [0, 0, 0, protocol] else [0, protocol] + Be16(length)
  }

  function Start(sport: Uint16, dport: Uint16, seqNo: Uint32, ack: Uint32): (s: seq<Byte>)
    ensures |s| == 16
  {
    Be16(sport) + Be16(dport) + Be32(seqNo) + Be32(ack) + [0x50, 0x18] + Be16(0xFFFF)
  }

  /** A segment with the given checksum. */
  function Segment(start: seq<Byte>, csum: Uint16, payload: seq<Byte>): seq<Byte> {
    start + Be16(csum) + (Be16(0) + payload)
  }

  function Checksummed(pseudo: seq<Byte>, start: seq<Byte>, payload: seq<Byte>): seq<Byte> {
    Segment(start, Complement(WordSum(pseudo + Segment(start, 0, payload))), payload)
  }

  function Tcp(ep: Endpoints, isRx: bool, seqNo: Uint32, ack: Uint32, payload: seq<Byte>): (s: seq<Byte>)
    requires 20 + |payload| <= 0xFFFF
    ensures |s| == 20 + |payload|
  {
    Checksummed(PseudoHeader(ep.Source(isRx), ep.Destination(isRx), ep.v6, IPPROTO_TCP, 20 + |payload|),
                Start(ep.SourcePort(isRx), ep.DestinationPort(isRx), seqNo, ack), payload)
  }

  // ---- A receiver ----

  datatype Stream = Stream(source: Uint16, destination: Uint16, seqNo: Uint32, ack: Uint32, window: Uint16,
                           payload: seq<Byte>)

  function DecodeTcp(d: Datagram): Option<Stream> {
    var s := d.payload;
    if d.protocol != IPPROTO_TCP || |s| < 20 || |s| > 0xFFFF || s[12] != 0x50 || s[13] != 0x18 then None
    else if !ChecksOut(PseudoHeader(d.source, d.destination, d.v6, IPPROTO_TCP, |s|) + s) then None
    else Some(Stream(Get16(s, 0), Get16(s, 2), Get32(s, 4), Get32(s, 8), Get16(s, 14), s[20..]))
  }

  lemma SegmentSplit(pseudo: seq<Byte>, start: seq<Byte>, csum: Uint16, payload: seq<Byte>)
    ensures pseudo + Segment(start, csum, payload) == (pseudo + start) + Be16(csum) + (Be16(0) + payload)
  {
  }

  lemma ChecksummedChecksOut(pseudo: seq<Byte>, start: seq<Byte>, payload: seq<Byte>, s: seq<Byte>)
    requires |pseudo| % 2 == 0 && |start| % 2 == 0
    requires s == pseudo + Checksummed(pseudo, start, payload)
    ensures ChecksOut(s)
  {
    hide WordSum, Complement, Be16, ChecksOut;
    SegmentSplit(pseudo, start, 0, payload);
    SegmentSplit(pseudo, start, Complement(WordSum(pseudo + Segment(start, 0, payload))), payload);
    StoredChecksumChecksOut(pseudo + start, Be16(0) + payload, s);
  }

  lemma StartFields(sport: Uint16, dport: Uint16, seqNo: Uint32, ack: Uint32)
    ensures var s := Start(sport, dport, seqNo, ack);
            && Get16(s, 0) == sport && Get16(s, 2) == dport && Get32(s, 4) == seqNo && Get32(s, 8) == ack
            && s[12] == 0x50 && s[13] == 0x18 && Get16(s, 14) == 0xFFFF
  {
    var a, b, c, d, e := Be16(sport), Be16(dport), Be32(seqNo), Be32(ack), [0x50, 0x18] + Be16(0xFFFF);
    var s := Start(sport, dport, seqNo, ack);
    assert s == a + b + c + d + e;
    GetBe16([], sport, b + c + d + e);
    assert s == [] + a + (b + c + d + e);
    GetBe16(a, dport, c + d + e);
    assert s == a + b + (c + d + e);
    GetBe32(a + b, seqNo, d + e);
    assert s == (a + b) + c + (d + e);
    GetBe32(a + b + c, ack, e);
    GetBe16(a + b + c + d + [0x50, 0x18], 0xFFFF, []);
    assert s == (a + b + c + d + [0x50, 0x18]) + Be16(0xFFFF) + [];
  }

  function TcpDatagram(ep: Endpoints, isRx: bool, id: Uint16, seqNo: Uint32, ack: Uint32, payload: seq<Byte>)
    : seq<Byte>
    requires ep.HeaderLength() + 20 + |payload| <= 0xFFFF
  {
    Header(ep, isRx, IPPROTO_TCP, 20 + |payload|, id) + Tcp(ep, isRx, seqNo, ack, payload)
  }

  lemma PseudoEven(src: seq<Byte>, dst: seq<Byte>, v6: bool, protocol: Byte, length: Uint16)
    requires |src| == |dst|
    ensures |PseudoHeader(src, dst, v6, protocol, length)| % 2 == 0
  {
    hide PseudoTail;
  }

  lemma TcpParts(pseudo: seq<Byte>, start: seq<Byte>, payload: seq<Byte>)
    requires |start| == 16
    ensures Checksummed(pseudo, start, payload)[..16] == start
    ensures Checksummed(pseudo, start, payload)[20..] == payload
  {
  }

  lemma SegmentDecodes(d: Datagram, start: seq<Byte>, payload: seq<Byte>)
    requires d.protocol == IPPROTO_TCP && |start| == 16 && |d.payload| <= 0xFFFF
    requires |d.payload| == 20 + |payload| && d.payload[..16] == start && d.payload[20..] == payload
    requires start[12] == 0x50 && start[13] == 0x18
    requires ChecksOut(PseudoHeader(d.source, d.destination, d.v6, IPPROTO_TCP, |d.payload|) + d.payload)
    ensures DecodeTcp(d)
         == Some(Stream(Get16(start, 0), Get16(start, 2), Get32(start, 4), Get32(start, 8), Get16(start, 14), payload))
  {
    var s := d.payload;
    GetInSlice(s, 0, 16, 0);
    GetInSlice(s, 0, 16, 2);
    GetInSlice(s, 0, 16, 4);
    GetInSlice(s, 0, 16, 8);
    GetInSlice(s, 0, 16, 14);
    assert s[12] == s[..16][12] && s[13] == s[..16][13];
  }

  /** Both checksums of a rebuilt GSUP packet check out at a receiver, for odd and even lengths and both
      versions of IP, and the receiver gets back the ports, the counters and the payload. */
  lemma TcpDatagramDecodes(ep: Endpoints, isRx: bool, id: Uint16, seqNo: Uint32, ack: Uint32, payload: seq<Byte>)
    requires ep.HeaderLength() + 20 + |payload| <= 0xFFFF
    ensures var d := Decode(TcpDatagram(ep, isRx, id, seqNo, ack, payload));
            && d.Some?
            && d.value == AsSeen(ep, isRx, IPPROTO_TCP, id, d.value.payload)
            && DecodeTcp(d.value) == Some(if isRx then Stream(ep.pport, ep.lport, seqNo, ack, 0xFFFF, payload)
                                          else Stream(ep.lport, ep.pport, seqNo, ack, 0xFFFF, payload))
  {
    hide Start, PseudoHeader, Decode, DecodeTcp, Header, ChecksOut, Get16, Get32;
    var s := Tcp(ep, isRx, seqNo, ack, payload);
    HeaderDecodes(ep, isRx, IPPROTO_TCP, id, s);
    var pseudo := PseudoHeader(ep.Source(isRx), ep.Destination(isRx), ep.v6, IPPROTO_TCP, 20 + |payload|);
    var start := Start(ep.SourcePort(isRx), ep.DestinationPort(isRx), seqNo, ack);
    StartFields(ep.SourcePort(isRx), ep.DestinationPort(isRx), seqNo, ack);
    PseudoEven(ep.Source(isRx), ep.Destination(isRx), ep.v6, IPPROTO_TCP, 20 + |payload|);
    ChecksummedChecksOut(pseudo, start, payload, pseudo + s);
    TcpParts(pseudo, start, payload);
    SegmentDecodes(AsSeen(ep, isRx, IPPROTO_TCP, id, s), start, payload);
  }

  // ---- The code ----

  lemma TailSum(v6: bool, protocol: Byte, length: Uint16)
    ensures WordSum(PseudoTail(v6, protocol, length)) == protocol + length
  {
    assert WordSum(Be16(length)) == length;
    if v6 {
      WordSumAppend(Be32(length), [0, 0, 0, protocol]);
      WordSumAppend(Be16(0), Be16(length));
      assert Be32(length) == Be16(0) + Be16(length);
      assert WordSum([0, 0, 0, protocol]) == High(0) + 0 + WordSum([0, protocol]);
    } else {
      WordSumAppend([0, protocol], Be16(length));
    }
  }

  lemma PseudoSum(src: seq<Byte>, dst: seq<Byte>, v6: bool, protocol: Byte, length: Uint16, l4: seq<Byte>)
    requires |src| % 2 == 0 && |dst| % 2 == 0
    ensures WordSum(PseudoHeader(src, dst, v6, protocol, length) + l4)
         == WordSum(src) + WordSum(dst) + protocol + length + WordSum(l4)
  {
    var tail := PseudoTail(v6, protocol, length);
    TailSum(v6, protocol, length);
    WordSumAppend(src + dst + tail, l4);
    WordSumAppend(src + dst, tail);
    WordSumAppend(src, dst);
  }

  method AddressSum(src: seq<Byte>, dst: seq<Byte>) returns (sum: Uint32)
    requires |src| == |dst| <= 16
    ensures sum == WordSum(src) + WordSum(dst) < 0x100_0000
  {
    WordSumBound(src);
    WordSumBound(dst);
    sum := CsumAdd(0, src);
    assert sum == WordSum(src);
    sum := CsumAdd(sum, dst);
  }

  method LengthSum(sum: Uint32, v6: bool, protocol: Byte, length: Uint16) returns (r: Uint32)
    requires sum < 0x100_0000
    ensures r == sum + protocol + length
  {
    r := (sum + protocol) % WRAP;
    r := (r + length % 0x1_0000) % WRAP;
    if v6 {
      r := (r + length / 0x1_0000) % WRAP;
    }
  }

  /** l4_csum(): the pseudo-header is added to the sum word by word. */
  method L4Csum(src: seq<Byte>, dst: seq<Byte>, v6: bool, protocol: Byte, l4: seq<Byte>) returns (r: Uint16)
    requires |src| == |dst| == (if v6 then 16 else 4) && |l4| <= 0xFFFF
    ensures r == Complement(WordSum(PseudoHeader(src, dst, v6, protocol, |l4|) + l4))
  {
    hide WordSum, PseudoHeader;
    var sum := AddressSum(src, dst);
    sum := LengthSum(sum, v6, protocol, |l4|);
    WordSumBound(l4);
    sum := CsumAdd(sum, l4);
    PseudoSum(src, dst, v6, protocol, |l4|, l4);
    r := CsumFold(sum);
  }

  method WriteStart(b: array<Byte>, at: nat, sport: Uint16, dport: Uint16, seqNo: Uint32, ack: Uint32)
    requires at + 20 <= b.Length
    modifies b
    ensures b[..at + 20] == old(b[..at]) + (Start(sport, dport, seqNo, ack) + Be16(0) + Be16(0))
  {
    ghost var head := b[..at];
    Store(b, at, Be16(sport));
    Store(b, at + 2, Be16(dport));
    Store(b, at + 4, Be32(seqNo));
    Store(b, at + 8, Be32(ack));
    Store(b, at + 12, [0x50, 0x18]);
    Store(b, at + 14, Be16(0xFFFF));
    assert b[..at + 16] == head + Start(sport, dport, seqNo, ack);
    Store(b, at + 16, Be16(0));
    Store(b, at + 18, Be16(0));
    assert b[..at + 20] == head + Start(sport, dport, seqNo, ack) + Be16(0) + Be16(0);
  }

  method StoreCsum(b: array<Byte>, at: nat, csum: Uint16, ghost start: seq<Byte>, ghost payload: seq<Byte>)
    requires |start| == 16 && at <= b.Length && b[at..] == Segment(start, 0, payload)
    modifies b
    ensures b[at..] == Segment(start, csum, payload)
  {
    assert b.Length >= at + 20;
    ghost var tail := b[at + 18..];
    assert tail == b[at..][18..] == Be16(0) + payload;
    assert b[at..at + 16] == b[at..][..16] == start;
    Store(b, at + 16, Be16(csum));
    assert b[at..at + 18] == b[..at + 18][at..];
    assert b[at..] == b[at..at + 18] + b[at + 18..];
    assert b[at + 18..] == tail;
  }

  /** The segment with a zero checksum, at offset at of the buffer. */
  method WriteSegment(b: array<Byte>, at: nat, sport: Uint16, dport: Uint16, seqNo: Uint32, ack: Uint32,
                      payload: seq<Byte>)
    requires b.Length == at + 20 + |payload|
    modifies b
    ensures b[at..] == Segment(Start(sport, dport, seqNo, ack), 0, payload)
  {
    WriteStart(b, at, sport, dport, seqNo, ack);
    ghost var head, start := b[..at], Start(sport, dport, seqNo, ack);
    assert b[..at + 20] == head + (start + Be16(0) + Be16(0));
    Store(b, at + 20, payload);
    SegmentBuilt(b[..], head, start, payload);
    assert b[at..] == b[..][at..];
  }

  lemma SegmentBuilt(b: seq<Byte>, head: seq<Byte>, start: seq<Byte>, payload: seq<Byte>)
    requires b == head + (start + Be16(0) + Be16(0)) + payload
    ensures b[|head|..] == Segment(start, 0, payload)
  {
  }

  /** The transport part of a packet buffer, complete with its checksum. */
  method WriteTcp(b: array<Byte>, at: nat, ep: Endpoints, isRx: bool, seqNo: Uint32, ack: Uint32, payload: seq<Byte>)
    requires 20 + |payload| <= 0xFFFF && b.Length == at + 20 + |payload|
    modifies b
    ensures b[at..] == Tcp(ep, isRx, seqNo, ack, payload)
  {
    WriteSegment(b, at, ep.SourcePort(isRx), ep.DestinationPort(isRx), seqNo, ack, payload);
    var csum := L4Csum(ep.Source(isRx), ep.Destination(isRx), ep.v6, IPPROTO_TCP, b[at..]);
    StoreCsum(b, at, csum, Start(ep.SourcePort(isRx), ep.DestinationPort(isRx), seqNo, ack), payload);
  }

  /** build_tcp(): the acknowledgement number is the next sequence number of the other direction. */
  method BuildTcp(ids: Identification, flow: Flow, ep: Endpoints, isRx: bool, payload: seq<Byte>)
    returns (pkt: Option<seq<Byte>>)
    requires flow.Valid()
    modifies ids, flow`next
    ensures flow.Valid()
    ensures var dir := Direction(isRx);
            if ep.HeaderLength() + 20 + |payload| > 0xFFFF then
              pkt == None && flow.next == old(flow.next) && ids.ipId == old(ids.ipId)
            else
              && pkt == Some(TcpDatagram(ep, isRx, old(ids.ipId), old(flow.next[dir]), old(flow.next[1 - dir]), payload))
              && flow.next == old(flow.next)[dir := (old(flow.next[dir]) + |payload|) % WRAP]
              && ids.ipId == if ep.v6 then old(ids.ipId) else Next16(old(ids.ipId))
  {
    var hl, length, dir := ep.HeaderLength(), 20 + |payload|, Direction(isRx);
    if hl + length > 0xFFFF {
      return None;
    }
    var b := new Byte[hl + length](_ => 0);
    WriteTcp(b, hl, ep, isRx, flow.next[dir], flow.next[1 - dir], payload);
    flow.next := flow.next[dir := (flow.next[dir] + |payload|) % WRAP];
    ids.WriteHeader(b, ep, isRx, IPPROTO_TCP, length);
    pkt := Some(b[..]);
  }
}
