/** ip_hdr() of msc_iptrace.c: the IPv4 or IPv6 header in front of a rebuilt packet. */
module IpHeader {
  import opened Options
  import opened Bytes
  import opened InternetChecksum

  type Address = s: seq<Byte> | |s| == 16 witness Zeros(16)

  /** struct ipt_ep: the two ends of a socket; an IPv4 address takes the first four octets. */
  datatype Endpoints = Endpoints(v6: bool, laddr: Address, paddr: Address, lport: Uint16, pport: Uint16) {
    /** ip_addrs(): a received packet travels from the peer to us. */
    function Source(isRx: bool): (a: seq<Byte>)
      ensures |a| == AddressLength()
    {
      (if isRx then paddr else laddr)[..AddressLength()]
    }

    function Destination(isRx: bool): (a: seq<Byte>)
      ensures |a| == AddressLength()
    {
      (if isRx then laddr else paddr)[..AddressLength()]
    }

    function SourcePort(isRx: bool): Uint16 {
      if isRx then pport else lport
    }

    function DestinationPort(isRx: bool): Uint16 {
      if isRx then lport else pport
    }

    function AddressLength(): nat {
      if v6 then 16 else 4
    }

    /** ip_hdr_len() */
    function HeaderLength(): nat {
      if v6 then 40 else 20
    }
  }

  // ---- What goes on the wire ----

  function V4Start(protocol: Byte, total: Uint16, id: Uint16): (s: seq<Byte>)
    ensures |s| == 10
  {
    [0x45, 0] + Be16(total) + Be16(id) + Be16(0x4000) + [64, protocol]
  }

  function V4Header(src: seq<Byte>, dst: seq<Byte>, protocol: Byte, total: Uint16, id: Uint16): seq<Byte> {
    var start := V4Start(protocol, total, id);
    start + Be16(Complement(WordSum(start + Be16(0) + (src + dst)))) + (src + dst)
  }

  function V6Header(src: seq<Byte>, dst: seq<Byte>, protocol: Byte, length: Uint16): seq<Byte> {
    Be32(0x6000_0000) + Be16(length) + [protocol, 64] + src + dst
  }

  function Header(ep: Endpoints, isRx: bool, protocol: Byte, length: nat, id: Uint16): (h: seq<Byte>)
    requires ep.HeaderLength() + length <= 0xFFFF
    ensures |h| == ep.HeaderLength()
  {
    if ep.v6 then V6Header(ep.Source(isRx), ep.Destination(isRx), protocol, length)
    else V4Header(ep.Source(isRx), ep.Destination(isRx), protocol, 20 + length, id)
  }

  // ---- A decoder written from RFC 791 (section 3.1) and RFC 8200 (section 3) ----

  /** An IPv6 header has no identification, which then reads as 0. */
  datatype Datagram = Datagram(v6: bool, source: seq<Byte>, destination: seq<Byte>, protocol: Byte, hops: Byte, id: Uint16,
                               payload: seq<Byte>)

  function Decode(p: seq<Byte>): Option<Datagram> {
    if p == [] then None
    else if p[0] / 16 == 4 then DecodeV4(p)
    else if p[0] / 16 == 6 then DecodeV6(p)
    else None
  }

  function DecodeV4(p: seq<Byte>): Option<Datagram>
    requires p != []
  {
    var headerLength := p[0] % 16 * 4;
    if headerLength < 20 || |p| < headerLength || Get16(p, 2) != |p| || !ChecksOut(p[..headerLength]) then None
    // a fragment: a non-zero offset or more fragments to come
    else if p[6] % 64 != 0 || p[7] != 0 then None
    else Some(Datagram(false, p[12..16], p[16..20], p[9], p[8], Get16(p, 4), p[headerLength..]))
  }

  function DecodeV6(p: seq<Byte>): Option<Datagram> {
    if |p| < 40 || Get16(p, 4) != |p| - 40 then None
    else Some(Datagram(true, p[8..24], p[24..40], p[6], p[7], 0, p[40..]))
  }

  lemma V4Decodes(src: seq<Byte>, dst: seq<Byte>, protocol: Byte, id: Uint16, payload: seq<Byte>)
    requires |src| == |dst| == 4 && 20 + |payload| <= 0xFFFF
    ensures DecodeV4(V4Header(src, dst, protocol, 20 + |payload|, id) + payload)
         == Some(Datagram(false, src, dst, protocol, 64, id, payload))
  {
    var start := V4Start(protocol, 20 + |payload|, id);
    var h := V4Header(src, dst, protocol, 20 + |payload|, id);
    var p := h + payload;
    assert start[0] == 0x45;
    StoredChecksumChecksOut(start, src + dst, h);
    assert p[..20] == h && p[20..] == payload;
    assert p[12..16] == src && p[16..20] == dst;
    assert Get16(p, 2) == |p| by {
      GetBe16([0x45, 0], |p|, p[4..]);
      assert p == [0x45, 0] + Be16(|p|) + p[4..];
    }
    assert Get16(p, 4) == id by {
      GetBe16([0x45, 0] + Be16(|p|), id, p[6..]);
      assert p == ([0x45, 0] + Be16(|p|)) + Be16(id) + p[6..];
    }
    assert p[0] == 0x45 && p[8] == 64 && p[9] == protocol;
    assert [p[6], p[7]] == Be16(0x4000);
  }

  lemma V6Decodes(src: seq<Byte>, dst: seq<Byte>, protocol: Byte, payload: seq<Byte>)
    requires |src| == |dst| == 16 && |payload| <= 0xFFFF
    ensures DecodeV6(V6Header(src, dst, protocol, |payload|) + payload)
         == Some(Datagram(true, src, dst, protocol, 64, 0, payload))
  {
    var h := V6Header(src, dst, protocol, |payload|);
    var p := h + payload;
    assert p[8..24] == src && p[24..40] == dst && p[40..] == payload;
    assert Get16(p, 4) == |payload| by {
      GetBe16(Be32(0x6000_0000), |payload|, p[6..]);
      assert p == Be32(0x6000_0000) + Be16(|payload|) + p[6..];
    }
    assert p[6] == protocol && p[7] == 64;
  }

  /** What a receiver should see: a packet that we received was sent by the peer to us, and the other way round. */
  function AsSeen(ep: Endpoints, isRx: bool, protocol: Byte, id: Uint16, payload: seq<Byte>): Datagram {
    var n := if ep.v6 then 16 else 4;
    var ours, theirs, ident := ep.laddr[..n], ep.paddr[..n], if ep.v6 then 0 else id;
    if isRx then Datagram(ep.v6, theirs, ours, protocol, 64, ident, payload)
    else Datagram(ep.v6, ours, theirs, protocol, 64, ident, payload)
  }

  /** The header checks out and names the addresses, protocol and length it was built for. */
  lemma HeaderDecodes(ep: Endpoints, isRx: bool, protocol: Byte, id: Uint16, payload: seq<Byte>)
    requires ep.HeaderLength() + |payload| <= 0xFFFF
    ensures Decode(Header(ep, isRx, protocol, |payload|, id) + payload)
         == Some(AsSeen(ep, isRx, protocol, id, payload))
  {
    var src, dst := ep.Source(isRx), ep.Destination(isRx);
    var p := Header(ep, isRx, protocol, |payload|, id) + payload;
    if ep.v6 {
      assert p[0] == Be32(0x6000_0000)[0] == 0x60;
      V6Decodes(src, dst, protocol, payload);
    } else {
      assert p[0] == 0x45;
      V4Decodes(src, dst, protocol, id, payload);
    }
  }

  method WriteV6(b: array<Byte>, src: seq<Byte>, dst: seq<Byte>, protocol: Byte, length: Uint16)
    requires b.Length >= 40 && |src| == |dst| == 16
    modifies b
    ensures b[..] == V6Header(src, dst, protocol, length) + old(b[40..])
  {
    Store(b, 0, Be32(0x6000_0000));
    Store(b, 4, Be16(length));
    Store(b, 6, [protocol, 64]);
    Store(b, 8, src);
    Store(b, 24, dst);
    assert b[..] == b[..40] + b[40..];
  }

  /** All of the IPv4 header, with a zero checksum. */
  method WriteV4(b: array<Byte>, src: seq<Byte>, dst: seq<Byte>, protocol: Byte, total: Uint16, id: Uint16)
    requires b.Length >= 20 && |src| == |dst| == 4
    modifies b
    ensures b[..20] == V4Start(protocol, total, id) + Be16(0) + (src + dst)
    ensures b[20..] == old(b[20..])
  {
    Store(b, 0, [0x45, 0]);
    Store(b, 2, Be16(total));
    Store(b, 4, Be16(id));
    Store(b, 6, Be16(0x4000));
    Store(b, 8, [64, protocol]);
    Store(b, 10, [0, 0]);
    Store(b, 12, src);
    Store(b, 16, dst);
    assert b[..20] == V4Start(protocol, total, id) + Be16(0) + src + dst;
  }

  /** g_ip_id, and ip_hdr() writing into the head of a packet buffer. */
  class Identification {
    var ipId: Uint16

    constructor ()
      ensures ipId == 0
    {
      ipId := 0;
    }

    method WriteHeader(b: array<Byte>, ep: Endpoints, isRx: bool, protocol: Byte, length: nat)
      requires b.Length == ep.HeaderLength() + length <= 0xFFFF
      modifies this, b
      ensures b[..] == Header(ep, isRx, protocol, length, old(ipId)) + old(b[ep.HeaderLength()..])
      ensures ipId == if ep.v6 then old(ipId) else (old(ipId) + 1) % 0x1_0000
    {
      var src, dst := ep.Source(isRx), ep.Destination(isRx);
      if ep.v6 {
        WriteV6(b, src, dst, protocol, length);
        return;
      }
      var id := ipId;
      ipId := (ipId + 1) % 0x1_0000;
      WriteV4Header(b, src, dst, protocol, 20 + length, id);
    }
  }

  method WriteV4Header(b: array<Byte>, src: seq<Byte>, dst: seq<Byte>, protocol: Byte, total: Uint16, id: Uint16)
    requires b.Length >= 20 && |src| == |dst| == 4
    modifies b
    ensures b[..] == V4Header(src, dst, protocol, total, id) + old(b[20..])
  {
    hide V4Start, WordSum, Complement;
    WriteV4(b, src, dst, protocol, total, id);
    ghost var start := V4Start(protocol, total, id);
    var sum := CsumAdd(0, b[..20]);
    WordSumBound(b[..20]);
    var csum := CsumFold(sum);
    StoreV4Csum(b, csum, start, src + dst);
  }

  method StoreV4Csum(b: array<Byte>, csum: Uint16, ghost start: seq<Byte>, ghost addresses: seq<Byte>)
    requires |start| == 10 && |addresses| == 8 && b.Length >= 20 && b[..20] == start + Be16(0) + addresses
    modifies b
    ensures b[..] == start + Be16(csum) + addresses + old(b[20..])
  {
    ghost var rest := b[20..];
    assert b[..10] == b[..20][..10] && b[12..20] == b[..20][12..];
    Store(b, 10, Be16(csum));
    assert b[..] == b[..12] + b[12..20] + b[20..];
    assert b[20..] == rest;
  }
}
