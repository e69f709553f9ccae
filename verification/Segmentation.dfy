/** build_sccp_pkts() of msc_iptrace.c: user data cut into SCCP messages, each wrapped in M3UA, SCTP and IP. */
module Segmentation {
  import opened Options
  import opened Bytes
  import opened IpHeader
  import opened Transport
  import opened Crc32c
  import opened Flows
  import A = SccpAddress
  import S = Sccp
  import M = M3ua

  const PPID_M3UA: Uint32 := 3
  const DATA_STREAM: Uint16 := 1
  /** uint8_t m3ua[sizeof(sccp) + 32] */
  const M3UA_SCRATCH := S.SCRATCH + 32

  /** What does not change from one segment of a message to the next. */
  datatype Envelope = Envelope(ep: Endpoints, isRx: bool, kind: S.Kind, connId: Uint32, local: A.Party, peer: A.Party,
                               opc: Uint32, dpc: Uint32, ni: Byte)

  /** The counters that do: IP identification, TSN and stream sequence number. */
  datatype Counters = Counters(id: Uint16, tsn: Uint32, ssn: Uint16)

  function Advance(c: Counters, v6: bool): Counters {
    Counters(if v6 then c.id else Next16(c.id), Next32(c.tsn), Next16(c.ssn))
  }

  /** The point codes of struct sccp_ran_inst and of the peer, in the order of the direction. */
  function MakeEnvelope(ep: Endpoints, isRx: bool, kind: S.Kind, connId: Uint32, local: A.Party, peer: Option<A.Party>,
                        primaryPc: Uint32, ni: Byte): Envelope
  {
    var localPc := if local.hasPc then local.pc else primaryPc;
    var peerPc := if peer.Some? && peer.value.hasPc then peer.value.pc else 0;
    Envelope(ep, isRx, kind, connId, local, if peer.Some? then peer.value else NO_PARTY,
             if isRx then peerPc else localPc, if isRx then localPc else peerPc, ni)
  }

  const NO_PARTY := A.Party(false, false, false, false, 0, 0, A.GlobalTitle(0, 0, 0, 0, ""))

  // ---- What is sent ----

  function Message(e: Envelope, chunk: seq<Byte>, more: bool): (s: seq<Byte>)
    ensures |s| <= S.SCRATCH
  {
    S.Build(e.kind, e.isRx, e.connId, e.local, e.peer, chunk, more)
  }

  function Wrapped(e: Envelope, chunk: seq<Byte>, more: bool): (s: seq<Byte>)
    ensures |s| <= M3UA_SCRATCH
  {
    M.Build(e.opc, e.dpc, e.ni, e.connId % 16, Message(e, chunk, more))
  }

  function Packet(e: Envelope, c: Counters, chunk: seq<Byte>, more: bool): seq<Byte> {
    SctpDatagram(e.ep, e.isRx, c.id, Data(c.tsn, DATA_STREAM, c.ssn, PPID_M3UA, Wrapped(e, chunk, more)))
  }

  function Packets(e: Envelope, c: Counters, data: seq<Byte>): seq<seq<Byte>>
    decreases |data|
  {
    if |data| <= S.DATA_MAX then [Packet(e, c, data, false)]
    else if !e.kind.DT1? then [Packet(e, c, data[..S.DATA_MAX], false)]
    else [Packet(e, c, data[..S.DATA_MAX], true)] + Packets(e, Advance(c, e.ep.v6), data[S.DATA_MAX..])
  }

  // ---- What a network analyser makes of it ----

  datatype Seen = Seen(ip: Datagram, sctp: Association, m3ua: M.ProtocolData, sccp: S.Message)

  function See(p: seq<Byte>): Option<Seen> {
    match Analyse(p)
    case None => None
    case Some((ip, sctp)) =>
      if sctp.data.ppid != PPID_M3UA then None
      else (match M.Decode(sctp.data.payload)
            case None => None
            case Some(m) =>
              if m.si != M.SI_SCCP then None
              else (match S.Decode(m.user)
                    case None => None
                    case Some(msg) => Some(Seen(ip, sctp, m, msg))))
  }

  /** Reassembly of DT1 messages: the more-data bit is set on all segments but the last. */
  function Reassemble(pkts: seq<seq<Byte>>): Option<seq<Byte>> {
    if pkts == [] then None
    else match See(pkts[0])
      case None => None
      case Some(seen) =>
        if !seen.sccp.DataForm1? then None
        else if !seen.sccp.more then if |pkts| == 1 then Some(seen.sccp.data) else None
        else (match Reassemble(pkts[1..])
              case None => None
              case Some(rest) => Some(seen.sccp.data + rest))
  }

  /** Everything in a packet that the analyser should find there. */
  predicate Shows(seen: Seen, e: Envelope, c: Counters, chunk: seq<Byte>, more: bool) {
    && seen.ip == AsSeen(e.ep, e.isRx, IPPROTO_SCTP, c.id, seen.ip.payload)
    && seen.sctp.source == (if e.isRx then e.ep.pport else e.ep.lport)
    && seen.sctp.destination == (if e.isRx then e.ep.lport else e.ep.pport)
    && seen.sctp.tag == (if e.isRx then 0x4D53_4301 else 0x4D53_4300)
    && seen.sctp.data.tsn == c.tsn && seen.sctp.data.ssn == c.ssn && seen.sctp.data.stream == 1
    && seen.m3ua.opc == e.opc && seen.m3ua.dpc == e.dpc && seen.m3ua.ni == e.ni && seen.m3ua.sls == e.connId % 16
    && seen.sccp == S.Meaning(e.kind, e.isRx, e.connId, e.local, e.peer, chunk, more)
  }

  ghost predicate Encodable(e: Envelope) {
    e.kind.CR? || e.kind.UDT? ==> e.local.Gti() <= 4 && e.peer.Gti() <= 4
  }

  /** One packet, through all four layers. */
  lemma PacketSeen(e: Envelope, c: Counters, chunk: seq<Byte>, more: bool)
    requires Encodable(e)
    ensures var seen := See(Packet(e, c, chunk, more));
            seen.Some? && Shows(seen.value, e, c, chunk, more)
  {
    hide SctpDatagram, Analyse, M.Build, M.Decode, S.Build, S.Decode, S.Meaning, Sctp, Tag;
    var payload := Wrapped(e, chunk, more);
    SctpDatagramAnalysed(e.ep, e.isRx, c.id, Data(c.tsn, DATA_STREAM, c.ssn, PPID_M3UA, payload));
    M.BuildDecodes(e.opc, e.dpc, e.ni, e.connId % 16, Message(e, chunk, more));
    S.BuildDecodes(e.kind, e.isRx, e.connId, e.local, e.peer, chunk, more);
  }

  // ---- Who sends to whom ----

  /** One end of the traced link: network address, port, point code, SCCP address and connection reference. */
  datatype Side = Side(address: seq<Byte>, port: Uint16, pc: Uint32, party: A.Party, reference: nat)

  /** Our end, as the socket, the SCCP instance and the connection tell. */
  function Us(ep: Endpoints, local: A.Party, primaryPc: Uint32, connId: Uint32): Side {
    Side(ep.laddr[..if ep.v6 then 16 else 4], ep.lport, if local.hasPc then local.pc else primaryPc, local,
         connId % 0x100_0000)
  }

  /** The other end; a peer without a point code is 0. */
  function Them(ep: Endpoints, peer: Option<A.Party>, connId: Uint32): Side {
    var party := if peer.Some? then peer.value else NO_PARTY;
    Side(ep.paddr[..if ep.v6 then 16 else 4], ep.pport, if party.hasPc then party.pc else 0, party,
         (connId + 0x80_0000) % 0x100_0000)
  }

  /** All layers of a packet below SCCP name the same sender and the same receiver. */
  predicate Travels(pkt: seq<Byte>, from: Side, to: Side, ni: Byte) {
    match Analyse(pkt)
    case None => false
    case Some((ip, sctp)) =>
      && ip.source == from.address && ip.destination == to.address && ip.hops == 64
      && sctp.source == from.port && sctp.destination == to.port && sctp.data.stream == 1 && sctp.data.ppid == 3
      && match M.Decode(sctp.data.payload)
         case None => false
         case Some(m) =>
           m.opc == from.pc && m.dpc == to.pc && m.si == 3 && m.ni == ni && m.sls == from.reference % 16 == to.reference % 16
  }

  /** The SCCP message says so too. */
  predicate Addressed(pkt: seq<Byte>, kind: S.Kind, from: Side, to: Side) {
    match See(pkt)
    case None => false
    case Some(seen) =>
      match kind
      case CR =>
        && seen.sccp.ConnectionRequest? && seen.sccp.source == from.reference
        && seen.sccp.called == A.Meaning(to.party) && seen.sccp.calling == A.Meaning(from.party)
      case CC =>
        seen.sccp.ConnectionConfirm? && seen.sccp.source == from.reference && seen.sccp.destination == to.reference
      case DT1 => seen.sccp.DataForm1? && seen.sccp.destination == to.reference
      case RLSD =>
        seen.sccp.Released? && seen.sccp.source == from.reference && seen.sccp.destination == to.reference
      case UDT =>
        && seen.sccp.Unitdata?
        && seen.sccp.called == A.Meaning(to.party) && seen.sccp.calling == A.Meaning(from.party)
  }

  lemma PacketTravels(ep: Endpoints, isRx: bool, kind: S.Kind, connId: Uint32, local: A.Party, peer: Option<A.Party>,
                      primaryPc: Uint32, ni: Byte, c: Counters, chunk: seq<Byte>, more: bool)
    ensures var us, them := Us(ep, local, primaryPc, connId), Them(ep, peer, connId);
            var pkt := Packet(MakeEnvelope(ep, isRx, kind, connId, local, peer, primaryPc, ni), c, chunk, more);
            Travels(pkt, if isRx then them else us, if isRx then us else them, ni)
  {
    hide SctpDatagram, Analyse, M.Build, M.Decode, S.Build, Sctp;
    var e := MakeEnvelope(ep, isRx, kind, connId, local, peer, primaryPc, ni);
    var payload := Wrapped(e, chunk, more);
    SctpDatagramAnalysed(e.ep, e.isRx, c.id, Data(c.tsn, DATA_STREAM, c.ssn, PPID_M3UA, payload));
    M.BuildDecodes(e.opc, e.dpc, e.ni, e.connId % 16, Message(e, chunk, more));
    LowBits(connId);
  }

  /** Both references end in the bits that select the signalling link. */
  lemma LowBits(connId: Uint32)
    ensures connId % 0x100_0000 % 16 == connId % 16 == (connId + 0x80_0000) % 0x100_0000 % 16
  {
  }

  lemma PeerReferenceOf(connId: Uint32)
    ensures S.PeerReference(connId) == (connId + 0x80_0000) % 0x100_0000
  {
  }

  lemma PacketAddressed(ep: Endpoints, isRx: bool, kind: S.Kind, connId: Uint32, local: A.Party, peer: Option<A.Party>,
                        primaryPc: Uint32, ni: Byte, c: Counters, chunk: seq<Byte>, more: bool)
    requires Encodable(MakeEnvelope(ep, isRx, kind, connId, local, peer, primaryPc, ni))
    ensures var us, them := Us(ep, local, primaryPc, connId), Them(ep, peer, connId);
            var pkt := Packet(MakeEnvelope(ep, isRx, kind, connId, local, peer, primaryPc, ni), c, chunk, more);
            Addressed(pkt, kind, if isRx then them else us, if isRx then us else them)
  {
    hide Packet, See, A.Meaning, S.PeerReference;
    PacketSeen(MakeEnvelope(ep, isRx, kind, connId, local, peer, primaryPc, ni), c, chunk, more);
    PeerReferenceOf(connId);
  }

  /** All packets of a message go from one side to the other, on all layers; SCCP addresses can be told only if their
      global titles have one of the standard's formats. */
  ghost predicate Sent(pkts: seq<seq<Byte>>, kind: S.Kind, from: Side, to: Side, ni: Byte) {
    forall k :: 0 <= k < |pkts| ==>
      && Travels(pkts[k], from, to, ni)
      && ((kind.CR? || kind.UDT? ==> from.party.Gti() <= 4 && to.party.Gti() <= 4) ==> Addressed(pkts[k], kind, from, to))
  }

  lemma AllSent(ep: Endpoints, isRx: bool, kind: S.Kind, connId: Uint32, local: A.Party, peer: Option<A.Party>,
                primaryPc: Uint32, ni: Byte, c: Counters, data: seq<Byte>)
    ensures var us, them := Us(ep, local, primaryPc, connId), Them(ep, peer, connId);
            Sent(Packets(MakeEnvelope(ep, isRx, kind, connId, local, peer, primaryPc, ni), c, data), kind,
                 if isRx then them else us, if isRx then us else them, ni)
  {
    hide Packets, Travels, Addressed;
    var pkts := Packets(MakeEnvelope(ep, isRx, kind, connId, local, peer, primaryPc, ni), c, data);
    forall k | 0 <= k < |pkts| {
      PacketsTravel(ep, isRx, kind, connId, local, peer, primaryPc, ni, c, data, k);
    }
  }

  /** Every packet of a message goes from its sender to its receiver, on all layers. */
  lemma {:induction false} PacketsTravel(ep: Endpoints, isRx: bool, kind: S.Kind, connId: Uint32, local: A.Party,
                                         peer: Option<A.Party>, primaryPc: Uint32, ni: Byte, c: Counters,
                                         data: seq<Byte>, k: nat)
    ensures var us, them := Us(ep, local, primaryPc, connId), Them(ep, peer, connId);
            var from, to := if isRx then them else us, if isRx then us else them;
            var e := MakeEnvelope(ep, isRx, kind, connId, local, peer, primaryPc, ni);
            k < |Packets(e, c, data)| ==>
              && Travels(Packets(e, c, data)[k], from, to, ni)
              && (Encodable(e) ==> Addressed(Packets(e, c, data)[k], kind, from, to))
    decreases |data|
  {
    hide Packet, Travels, Addressed, MakeEnvelope, Encodable;
    var e := MakeEnvelope(ep, isRx, kind, connId, local, peer, primaryPc, ni);
    if k >= |Packets(e, c, data)| {
    } else if k == 0 {
      var chunk := if |data| <= S.DATA_MAX then data else data[..S.DATA_MAX];
      var more := |data| > S.DATA_MAX && e.kind.DT1?;
      PacketTravels(ep, isRx, kind, connId, local, peer, primaryPc, ni, c, chunk, more);
      if Encodable(e) {
        PacketAddressed(ep, isRx, kind, connId, local, peer, primaryPc, ni, c, chunk, more);
      }
    } else {
      PacketsTravel(ep, isRx, kind, connId, local, peer, primaryPc, ni, Advance(c, e.ep.v6), data[S.DATA_MAX..], k - 1);
    }
  }

  /** Whatever the length of the payload, the packets of a DT1 reassemble to it. */
  lemma {:induction false} PacketsReassemble(e: Envelope, c: Counters, data: seq<Byte>)
    requires e.kind.DT1?
    ensures Reassemble(Packets(e, c, data)) == Some(data)
    decreases |data|
  {
    hide See, Packet;
    if |data| <= S.DATA_MAX {
      PacketSeen(e, c, data, false);
      assert S.Cut(data) == data;
    } else {
      var chunk, rest := data[..S.DATA_MAX], data[S.DATA_MAX..];
      PacketSeen(e, c, chunk, true);
      assert S.Cut(chunk) == chunk;
      PacketsReassemble(e, Advance(c, e.ep.v6), rest);
      var pkts := Packets(e, c, data);
      assert pkts[1..] == Packets(e, Advance(c, e.ep.v6), rest);
      assert chunk + rest == data;
    }
  }

  /** One packet per 255 octets, and one for an empty payload. */
  lemma {:induction false} PacketCount(e: Envelope, c: Counters, data: seq<Byte>)
    requires e.kind.DT1?
    ensures |Packets(e, c, data)| == if data == [] then 1 else (|data| + 254) / 255
    decreases |data|
  {
    hide Packet;
    if |data| > S.DATA_MAX {
      PacketCount(e, Advance(c, e.ep.v6), data[S.DATA_MAX..]);
    }
  }

  function After(c: Counters, v6: bool, n: nat): Counters
    decreases n
  {
    if n == 0 then c else After(Advance(c, v6), v6, n - 1)
  }

  /** Packet number k of any message carries the k-th counters after the first. */
  lemma {:induction false} PacketNumbered(e: Envelope, c: Counters, data: seq<Byte>, k: nat)
    requires Encodable(e)
    ensures k < |Packets(e, c, data)| ==>
              var seen := See(Packets(e, c, data)[k]);
              && seen.Some?
              && seen.value.sctp.data.tsn == After(c, e.ep.v6, k).tsn
              && seen.value.sctp.data.ssn == After(c, e.ep.v6, k).ssn
    decreases |data|
  {
    hide See, Packet;
    if k >= |Packets(e, c, data)| {
    } else if k == 0 {
      PacketSeen(e, c, if |data| <= S.DATA_MAX then data else data[..S.DATA_MAX], |data| > S.DATA_MAX && e.kind.DT1?);
    } else {
      PacketNumbered(e, Advance(c, e.ep.v6), data[S.DATA_MAX..], k - 1);
    }
  }

  lemma Wrapped32(a: nat, m: nat, n: nat)
    ensures ((a + m) % 0x1_0000_0000 + n) % 0x1_0000_0000 == (a + (m + n)) % 0x1_0000_0000
  {
  }

  lemma Wrapped16(a: nat, m: nat, n: nat)
    ensures ((a + m) % 0x1_0000 + n) % 0x1_0000 == (a + (m + n)) % 0x1_0000
  {
  }

  lemma {:induction false} CountersAdvance(c: Counters, v6: bool, n: nat)
    ensures After(c, v6, n).tsn == (c.tsn + n) % 0x1_0000_0000
    ensures After(c, v6, n).ssn == (c.ssn + n) % 0x1_0000
    decreases n
  {
    if n > 0 {
      CountersAdvance(Advance(c, v6), v6, n - 1);
      Wrapped32(c.tsn, 1, n - 1);
      Wrapped16(c.ssn, 1, n - 1);
    }
  }

  // ---- The code ----

  lemma Fits(e: Envelope, chunk: seq<Byte>, more: bool)
    ensures M.ParameterLength(|Message(e, chunk, more)|) <= 0xFFFF
    ensures M.TotalLength(|Message(e, chunk, more)|) <= M3UA_SCRATCH
    ensures e.ep.HeaderLength() + SctpLength(|Wrapped(e, chunk, more)|) <= 0xFFFF
  {
    hide S.Build;
  }

  /** One turn of the loop: the scratch buffers hold the message, and the packet is never refused. */
  method BuildPacket(ids: Identification, crc: Table, flow: Flow, sccp: array<Byte>, m3ua: array<Byte>,
                     e: Envelope, chunk: seq<Byte>, more: bool) returns (pkt: seq<Byte>)
    requires crc.Valid() && flow.Valid()
    requires sccp.Length == S.SCRATCH && m3ua.Length == M3UA_SCRATCH
    requires sccp != m3ua
    modifies ids, crc, crc.table, flow`next, flow`ssn, sccp, m3ua
    ensures crc.Valid() && flow.Valid()
    ensures var dir := Direction(e.isRx);
            var c := Counters(old(ids.ipId), old(flow.next[dir]), old(flow.ssn[dir]));
            && pkt == Packet(e, c, chunk, more)
            && Counters(ids.ipId, flow.next[dir], flow.ssn[dir]) == Advance(c, e.ep.v6)
            && flow.next[1 - dir] == old(flow.next[1 - dir]) && flow.ssn[1 - dir] == old(flow.ssn[1 - dir])
  {
    hide S.Build, M.Build, SctpDatagram, Table.Valid;
    var sl := S.SccpBuild(sccp, e.kind, e.isRx, e.connId, e.local, e.peer, chunk, more);
    Fits(e, chunk, more);
    var ml := M.M3uaBuild(m3ua, e.opc, e.dpc, e.ni, e.connId % 16, sccp[..sl]);
    var r := BuildSctp(ids, crc, flow, e.ep, e.isRx, PPID_M3UA, DATA_STREAM, 0, m3ua[..ml]);
    pkt := r.value;
  }

  /** The loop over the segments of one message; a message of another kind goes out once, cut. */
  method BuildAll(ids: Identification, crc: Table, flow: Flow, e: Envelope, data: seq<Byte>)
    returns (pkts: seq<seq<Byte>>)
    requires crc.Valid() && flow.Valid()
    modifies ids, crc, crc.table, flow`next, flow`ssn
    ensures crc.Valid() && flow.Valid()
    ensures var dir := Direction(e.isRx);
            var c := Counters(old(ids.ipId), old(flow.next[dir]), old(flow.ssn[dir]));
            && pkts == Packets(e, c, data)
            && Counters(ids.ipId, flow.next[dir], flow.ssn[dir]) == After(c, e.ep.v6, |pkts|)
            && flow.next[1 - dir] == old(flow.next[1 - dir]) && flow.ssn[1 - dir] == old(flow.ssn[1 - dir])
  {
    hide Packet, Packets, After, Advance, Table.Valid;
    var sccp, m3ua := new Byte[S.SCRATCH](_ => 0), new Byte[M3UA_SCRATCH](_ => 0);
    ghost var dir := Direction(e.isRx);
    ghost var c := Counters(ids.ipId, flow.next[dir], flow.ssn[dir]);
    ghost var now := c;
    AfterNone(c, e.ep.v6);
    pkts := [];
    ghost var todo := Packets(e, c, data);
    var rest, again := data, true;
    while again
      invariant crc.Valid() && flow.Valid() && fresh(sccp) && fresh(m3ua)
      invariant now == Counters(ids.ipId, flow.next[dir], flow.ssn[dir]) == After(c, e.ep.v6, |pkts|)
      invariant flow.next[1 - dir] == old(flow.next[1 - dir]) && flow.ssn[1 - dir] == old(flow.ssn[1 - dir])
      invariant Packets(e, c, data) == pkts + todo && todo == if again then Packets(e, now, rest) else []
      invariant again && pkts != [] ==> rest != []
      decreases again, |rest|
    {
      var chunk := if |rest| > S.DATA_MAX then rest[..S.DATA_MAX] else rest;
      var more := e.kind.DT1? && |rest| > |chunk|;
      var pkt := BuildPacket(ids, crc, flow, sccp, m3ua, e, chunk, more);
      AfterNext(c, e.ep.v6, |pkts|);
      PacketsFirst(e, now, rest, chunk, more);
      OneMore(pkts, todo, pkt);
      todo := todo[1..];
      pkts := pkts + [pkt];
      now := Advance(now, e.ep.v6);
      if !e.kind.DT1? {
        again := false;
      } else {
        rest := rest[|chunk|..];
        again := |rest| != 0;
      }
    }
  }

  lemma OneMore(done: seq<seq<Byte>>, todo: seq<seq<Byte>>, pkt: seq<Byte>)
    requires todo != [] && todo[0] == pkt
    ensures done + todo == (done + [pkt]) + todo[1..]
  {
  }

  lemma AfterNone(c: Counters, v6: bool)
    ensures After(c, v6, 0) == c
  {
  }

  lemma PacketsFirst(e: Envelope, c: Counters, data: seq<Byte>, chunk: seq<Byte>, more: bool)
    requires chunk == if |data| > S.DATA_MAX then data[..S.DATA_MAX] else data
    requires more == (e.kind.DT1? && |data| > |chunk|)
    ensures Packets(e, c, data) == [Packet(e, c, chunk, more)]
                                   + (if more then Packets(e, Advance(c, e.ep.v6), data[|chunk|..]) else [])
  {
    hide Packet;
  }

  lemma {:induction false} AfterNext(c: Counters, v6: bool, n: nat)
    ensures After(c, v6, n + 1) == Advance(After(c, v6, n), v6)
    decreases n
  {
    if n > 0 {
      AfterNext(Advance(c, v6), v6, n - 1);
    }
  }

  /** The flow of a socket, and the counters with which its next packet goes out. */
  method Begin(flows: FlowTable, fd: int, ep: Endpoints) returns (f: Flow)
    requires flows.Valid()
    modifies flows`next, set f | f in flows.flows[..]
    ensures flows.Valid() && f.Valid() && f in flows.flows[..]
    ensures exists i :: 0 <= i < SLOTS && f == flows.flows[i] && flows.Holds(i, fd, ep)
    ensures forall dir :: 0 <= dir < 2 ==> (f.next[dir], f.ssn[dir]) == old(flows.Upcoming(fd, ep, dir))
  {
    f := flows.FlowGet(fd, ep);
    forall dir | 0 <= dir < 2
      ensures (f.next[dir], f.ssn[dir]) == old(flows.Upcoming(fd, ep, dir))
    {
      if old(exists i :: 0 <= i < SLOTS && flows.Holds(i, fd, ep)) {
        flows.UpcomingOf(f, fd, ep, dir);
      }
    }
  }

  /** All packets of one message, in the flow of its socket. */
  method BuildInFlow(ids: Identification, crc: Table, flows: FlowTable, f: Flow, fd: int, e: Envelope, data: seq<Byte>)
    returns (pkts: seq<seq<Byte>>)
    requires crc.Valid() && flows.Valid()
    requires exists i :: 0 <= i < SLOTS && f == flows.flows[i] && flows.Holds(i, fd, e.ep)
    modifies ids, crc, crc.table, f`next, f`ssn
    ensures crc.Valid() && flows.Valid()
    ensures var dir := Direction(e.isRx);
            var c := Counters(old(ids.ipId), old(f.next[dir]), old(f.ssn[dir]));
            var next := After(c, e.ep.v6, |pkts|);
            && pkts == Packets(e, c, data) && ids.ipId == next.id
            && flows.Upcoming(fd, e.ep, dir) == (next.tsn, next.ssn)
            && flows.Upcoming(fd, e.ep, 1 - dir) == (old(f.next[1 - dir]), old(f.ssn[1 - dir]))
  {
    hide Packets, After, Table.Valid, FlowTable.Upcoming;
    ghost var i :| 0 <= i < SLOTS && f == flows.flows[i] && flows.Holds(i, fd, e.ep);
    pkts := BuildAll(ids, crc, f, e, data);
    assert flows.Holds(i, fd, e.ep);
    flows.UpcomingOf(f, fd, e.ep, 0);
    flows.UpcomingOf(f, fd, e.ep, 1);
  }

  /** build_sccp_pkts(); fd < 0 means that no M3UA association was found. A message goes on where the last one on the
      same socket and in the same direction stopped. */
  method BuildSccpPkts(ids: Identification, crc: Table, flows: FlowTable, fd: int, ep: Endpoints,
                       kind: S.Kind, isRx: bool, connId: Uint32, local: A.Party, peer: Option<A.Party>,
                       primaryPc: Uint32, ni: Byte, data: seq<Byte>)
    returns (pkts: seq<seq<Byte>>, ghost c: Counters)
    requires crc.Valid() && flows.Valid()
    modifies ids, crc, crc.table, flows`next, set f | f in flows.flows[..]
    ensures crc.Valid() && flows.Valid()
    ensures fd < 0 ==> pkts == [] && ids.ipId == old(ids.ipId)
    ensures fd >= 0 ==> pkts == Packets(MakeEnvelope(ep, isRx, kind, connId, local, peer, primaryPc, ni), c, data)
    ensures fd >= 0 && kind.DT1? ==> Reassemble(pkts) == Some(data)
    ensures fd >= 0 ==>
              var us, them := Us(ep, local, primaryPc, connId), Them(ep, peer, connId);
              Sent(pkts, kind, if isRx then them else us, if isRx then us else them, ni)
    ensures fd >= 0 ==>
              var dir := Direction(isRx);
              && c.id == old(ids.ipId) && (c.tsn, c.ssn) == old(flows.Upcoming(fd, ep, dir))
              && var next := After(c, ep.v6, |pkts|);
                 && ids.ipId == next.id && flows.Upcoming(fd, ep, dir) == (next.tsn, next.ssn)
                 && flows.Upcoming(fd, ep, 1 - dir) == old(flows.Upcoming(fd, ep, 1 - dir))
  {
    hide Packets, Reassemble, Sent, After, Table.Valid, FlowTable.Valid, FlowTable.Upcoming;
    c := Counters(ids.ipId, 1, 0);
    if fd < 0 {
      return [], c;
    }
    var flow := Begin(flows, fd, ep);
    var e := MakeEnvelope(ep, isRx, kind, connId, local, peer, primaryPc, ni);
    c := Counters(ids.ipId, flow.next[Direction(isRx)], flow.ssn[Direction(isRx)]);
    pkts := BuildInFlow(ids, crc, flows, flow, fd, e, data);
    AllSent(ep, isRx, kind, connId, local, peer, primaryPc, ni, c, data);
    if kind.DT1? {
      PacketsReassemble(e, c, data);
    }
  }

  // ---- Any sequence of messages on one socket ----

  /** The packets count up from these numbers, with wrap-around. */
  ghost predicate InTurn(pkts: seq<seq<Byte>>, tsn: nat, ssn: nat) {
    forall k :: 0 <= k < |pkts| ==> Carries(pkts[k], (tsn + k) % 0x1_0000_0000, (ssn + k) % 0x1_0000)
  }

  predicate Carries(pkt: seq<Byte>, tsn: nat, ssn: nat) {
    match Analyse(pkt)
    case None => false
    case Some((_, sctp)) => sctp.data.tsn == tsn && sctp.data.ssn == ssn
  }

  lemma PacketCarries(e: Envelope, c: Counters, chunk: seq<Byte>, more: bool)
    ensures Carries(Packet(e, c, chunk, more), c.tsn, c.ssn)
  {
    hide SctpDatagram, Analyse, Wrapped, Sctp, Tag;
    Fits(e, chunk, more);
    SctpDatagramAnalysed(e.ep, e.isRx, c.id, Data(c.tsn, DATA_STREAM, c.ssn, PPID_M3UA, Wrapped(e, chunk, more)));
  }

  /** These packets lead from one pair of numbers to another. */
  ghost predicate GoneOn(pkts: seq<seq<Byte>>, from: (Uint32, Uint16), to: (Uint32, Uint16)) {
    && InTurn(pkts, from.0, from.1)
    && to == ((from.0 + |pkts|) % 0x1_0000_0000, (from.1 + |pkts|) % 0x1_0000)
  }

  lemma NoneInTurn(from: (Uint32, Uint16))
    ensures GoneOn([], from, from)
  {
  }

  lemma InTurnAppend(a: seq<seq<Byte>>, b: seq<seq<Byte>>, tsn: nat, ssn: nat)
    requires InTurn(a, tsn, ssn) && InTurn(b, (tsn + |a|) % 0x1_0000_0000, (ssn + |a|) % 0x1_0000)
    ensures InTurn(a + b, tsn, ssn)
  {
    hide Carries;
    forall k | |a| <= k < |a + b|
      ensures Carries((a + b)[k], (tsn + k) % 0x1_0000_0000, (ssn + k) % 0x1_0000)
    {
      assert (a + b)[k] == b[k - |a|];
      Wrapped32(tsn, |a|, k - |a|);
      Wrapped16(ssn, |a|, k - |a|);
    }
  }

  lemma OneInFront(pkt: seq<Byte>, rest: seq<seq<Byte>>, c: Counters, v6: bool)
    requires Carries(pkt, c.tsn, c.ssn)
    requires InTurn(rest, Advance(c, v6).tsn, Advance(c, v6).ssn)
    ensures InTurn([pkt] + rest, c.tsn, c.ssn)
  {
    hide Carries;
    InTurnAppend([pkt], rest, c.tsn, c.ssn);
  }

  lemma {:induction false} PacketsInTurn(e: Envelope, c: Counters, data: seq<Byte>)
    ensures InTurn(Packets(e, c, data), c.tsn, c.ssn)
    decreases |data|
  {
    hide Packet, Carries, Advance;
    if |data| <= S.DATA_MAX {
      PacketCarries(e, c, data, false);
    } else {
      PacketCarries(e, c, data[..S.DATA_MAX], e.kind.DT1?);
      if e.kind.DT1? {
        PacketsInTurn(e, Advance(c, e.ep.v6), data[S.DATA_MAX..]);
        OneInFront(Packet(e, c, data[..S.DATA_MAX], true), Packets(e, Advance(c, e.ep.v6), data[S.DATA_MAX..]),
                   c, e.ep.v6);
      }
    }
  }

  lemma MessageGoesOn(e: Envelope, c: Counters, data: seq<Byte>, before: seq<seq<Byte>>, from: (Uint32, Uint16))
    requires GoneOn(before, from, (c.tsn, c.ssn))
    ensures var pkts := Packets(e, c, data);
            var next := After(c, e.ep.v6, |pkts|);
            GoneOn(before + pkts, from, (next.tsn, next.ssn))
  {
    hide InTurn, Packets, After;
    var n := |Packets(e, c, data)|;
    PacketsInTurn(e, c, data);
    InTurnAppend(before, Packets(e, c, data), from.0, from.1);
    CountersAdvance(c, e.ep.v6, n);
    Wrapped32(from.0, |before|, n);
    Wrapped16(from.1, |before|, n);
  }

  lemma EnvelopeOf(m: Call, ep: Endpoints)
    ensures var e := MakeEnvelope(ep, m.isRx, m.kind, m.connId, m.local, m.peer, m.primaryPc, m.ni); e.ep == ep
  {
  }

  datatype Call = Call(kind: S.Kind, isRx: bool, connId: Uint32, local: A.Party, peer: Option<A.Party>,
                       primaryPc: Uint32, ni: Byte, data: seq<Byte>)

  /** However many messages go over one socket, of whatever kinds and lengths and in both directions: the packets of
      each direction count up without gap or repetition from where the socket stood. */
  method Stream(ids: Identification, crc: Table, flows: FlowTable, fd: nat, ep: Endpoints, ms: seq<Call>)
    returns (pkts: seq<seq<seq<Byte>>>)
    requires crc.Valid() && flows.Valid()
    modifies ids, crc, crc.table, flows`next, set f | f in flows.flows[..]
    ensures crc.Valid() && flows.Valid() && |pkts| == 2
    ensures forall dir :: 0 <= dir < 2 ==>
              GoneOn(pkts[dir], old(flows.Upcoming(fd, ep, dir)), flows.Upcoming(fd, ep, dir))
  {
    hide GoneOn, Packets, MakeEnvelope, After, Reassemble, Sent, Table.Valid, FlowTable.Valid, FlowTable.Upcoming;
    pkts := [[], []];
    NoneInTurn(flows.Upcoming(fd, ep, 0));
    NoneInTurn(flows.Upcoming(fd, ep, 1));
    for i := 0 to |ms|
      invariant crc.Valid() && flows.Valid() && |pkts| == 2
      invariant forall dir :: 0 <= dir < 2 ==>
                  GoneOn(pkts[dir], old(flows.Upcoming(fd, ep, dir)), flows.Upcoming(fd, ep, dir))
    {
      var m := ms[i];
      var more, c := BuildSccpPkts(ids, crc, flows, fd, ep, m.kind, m.isRx, m.connId, m.local, m.peer, m.primaryPc, m.ni,
                                   m.data);
      ghost var dir := Direction(m.isRx);
      EnvelopeOf(m, ep);
      MessageGoesOn(MakeEnvelope(ep, m.isRx, m.kind, m.connId, m.local, m.peer, m.primaryPc, m.ni), c, m.data, pkts[dir],
                    old(flows.Upcoming(fd, ep, dir)));
      pkts := pkts[Direction(m.isRx) := pkts[Direction(m.isRx)] + more];
    }
  }
}
