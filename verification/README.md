# OsmoMSC in Dafny

A Dafny model of the parts of OsmoMSC, a mobile switching centre, whose behaviour is hardest to see from the code, with
proofs of what they promise. Code that changes state step by step is modelled by classes and methods with loops; each
method is proved against a specification on values, and the properties are proved of that specification, for all
inputs, all runs or all nestings of callbacks.

**Packet rebuild for traces** (`src/libmsc/msc_iptrace.c`). `Crc32c`, `Crc32cPolynomial`, `Crc32cDetection`,
`Crc32cCheckValue` and `InternetChecksum` hold the checksums and their references: division bit by bit, and the
end-around-carry sum.
`IpHeader`, `Transport`, `Tcp`, `SccpAddress`, `Sccp` and `M3ua` hold one layer each: the octets, a decoder written from
the standard (RFC 791, RFC 8200, RFC 9260, RFC 9293, ITU-T Q.713, RFC 4666), the round trip, and the methods that store
the octets into buffers. `Flows` and `Segmentation` put them together; `HoldQueue` decides what is emitted, in the
order in which `src/libmsc/sccp_ran.c` calls it.

**Call control** (`src/libmsc/gsm_04_08_cc.c`). `CallControlSpec` says what every routine does to one transaction, the
queue of messages to MNCC and the counters; `CallControl` is the code. `CallControlLocal` proves what one event keeps,
`CallControlRuns` what holds over all runs of all transactions, `CallControlSilence` that silent calls are cleared,
`CallControlEnd` who is told of the end of a call, `CallControlConfirm` that a confirmed release was asked for, and
`CallControlCounts` which calls count as complete. `CallControlCourse` is a second account of the same code, state by
state as in the tables of 3GPP TS 24.008, that the handlers are proved to follow, and `CallControlGuard` adds the guard
timer. `CallControlNetwork` puts all transaction objects together, proves that they follow the specification event by
event, and states the results of the objects. The routines of `CallControl` that only store what their function in
`CallControlSpec` says have no rows below.

**Connections** (`msc_a.c`, `msub.c`, `paging.c`, `msc_t.c`, `ran_msg.c` in `src/libmsc`). `MscASpec` and `MscA` hold
the MSC-A state machine with its use tokens, where callbacks run inside callbacks; `Msub` the link between connections
and subscribers; `Paging` the queues of paging requests; `HandoverNumber` the search for a free number; and
`DuplicateDetection` the sequence numbers of section 11.2.3.2 of 3GPP TS 24.007.

**Bearer services and group calls** (`csd_bs.c`, `csd_filter.c`, `asci_gcr.c` in `src/libmsc`). `BearerServices`,
`BearerFilter`, `BearerCapability`, `GroupCall` and `Decimal`.

What the proofs brought to light, each stated exactly by a member below:

- A call that MNCC asks for vanishes without any message to MNCC if paging cannot be started, or if after paging the
  set-up fails for a reason that sends no release of its own: the request itself is not counted as contact with MNCC
  (`CallControlEnd.PagingNeverStarted`, `CallControlEnd.PagedInVain`). The exact conditions are `CallControlEnd.Hears`
  for a transaction that exists, proved by `CallControlEnd.GoneTold`, and `CallControlEnd.HearsAtOnce` for one that is
  made and gone in one event, proved by `CallControlEnd.GoneAtOnceTold`.
- A release complete that opens a transaction makes MNCC get a release indication for a call that it never heard of
  (`CallControlEnd.StrayReleaseComplete`).
- A call that is modified while active is counted as incomplete when the modification begins and as activated again when
  it ends (`CallControlCounts.ModificationCounted`); so the counters add up over activations rather than calls.
- A subscriber that starts paging because another one's requests are joined to it has no response timer running
  (`Paging.JoinedUntimed`; the exact condition is in `Paging.Pager.Join`).
- A global title with translation type only keeps its digits exactly if there is an even number of them
  (`SccpAddress.TranslationOnlyFiller`).
- A repeated message is taken for a new one exactly if the receiver has meanwhile accepted a multiple of the counter size
  (`DuplicateDetection.AcceptedExactly`, with an instance in `DuplicateDetection.LateRepetition`).
- The hold queue never loses anything behind an emitted packet, but it can lose packets although the IMSI is known:
  exactly if a CR comes again for a connection of which nothing was emitted and whose queue cannot hold the packets of
  the CR as well (`HoldQueue.Tracer.Recall` and `HoldQueue.Tracer.Handle`, with an instance in
  `HoldQueue.LostThoughKnown`).
- The classmark wait of MSC-A does not take the event that the last use is gone, although its action handles it; such a
  connection lives on unused until its timer expires (`MscA.Connection.PutUse`, with an instance in
  `MscA.UnusedButWaiting`).

The FSM library and the use counts of libosmocore are taken as rules: an event outside the mask is dropped, a transition
outside the mask is refused, the entry function runs once the state is set, a terminating instance takes no events, and
the use count callback runs on every change. What other code does in a callback is a parameter: any finite tree of
gets, puts, events, messages and transactions. Look-ups, clocks, the outcome of codec negotiation, assignments, paging
and the access network are parameters of the events.

## Model

| member | source | states |
|---|---|---|
| `Crc32c.Table.Crc32c` | src/libmsc/msc_iptrace.c:126-144 | the table-driven checksum of every octet string is the complement of the remainder of the bit-at-a-time reflected division |
| `Crc32c.Table.Entry` | src/libmsc/msc_iptrace.c:134-137 | a table entry is its index after eight shift steps of the division register |
| `Crc32c.Table.Fill` | src/libmsc/msc_iptrace.c:132-140 | after the first use all 256 entries are right and stay so |
| `Crc32c.ShiftAhead` | src/libmsc/msc_iptrace.c:135-142 | bits still to be divided may be added to the register before it shifts (linearity of the shift steps) |
| `Crc32c.DivideOctet` | src/libmsc/msc_iptrace.c:141-142 | dividing eight message bits is adding the octet and shifting eight times |
| `Crc32c.ShiftsByLookup` | src/libmsc/msc_iptrace.c:141-142 | eight shifts are one table lookup of the low octet plus the register moved down by eight bits |
| `Crc32cPolynomial.PolynomialValue` | src/libmsc/msc_iptrace.c:136 | the bits used in the model are those of 0x82F63B78 |
| `Crc32cDetection.BurstDetected` | src/libmsc/msc_iptrace.c:126-144 | changing any one to four consecutive octets of any message changes the checksum |
| `Crc32cDetection.RegisterInjective` | src/libmsc/msc_iptrace.c:141-142 | two registers that go through the same octets and end equal were equal |
| `Crc32cCheckValue.CheckValue` | src/libmsc/msc_iptrace.c:126-144 | the digits 123456789 have the checksum 0xE3069283, the check value of the CRC-32C |
| `Crc32cCheckValue.LeadingZeroDetected` | src/libmsc/msc_iptrace.c:130 | the register does not start empty: a zero octet in front of any message changes its checksum |
| `Crc32cCheckValue.StepFits` | src/libmsc/msc_iptrace.c:134-137 | a step of the division is the shift and conditional exclusive or of a 32-bit word |
| `InternetChecksum.CsumAdd` | src/libmsc/msc_iptrace.c:107-117 | adds the big-endian 16-bit words of the octets, odd last octet padded, modulo 2^32 |
| `InternetChecksum.CsumFold` | src/libmsc/msc_iptrace.c:119-124 | terminates with the complement of the sum folded to 16 bits, which is the sum modulo 65535 without the zero |
| `InternetChecksum.WordSumBound` | src/libmsc/msc_iptrace.c:107-117 | the 32-bit accumulator does not overflow for any packet of up to 65535 octets |
| `InternetChecksum.FoldedIsOnesSum` | src/libmsc/msc_iptrace.c:107-124 | folding once at the end equals the end-around-carry sum of section 1 of RFC 1071 |
| `InternetChecksum.StoredChecksumChecksOut` | src/libmsc/msc_iptrace.c:107-124 | a message with the folded complement stored on a word boundary sums to all ones at the receiver, for odd and even lengths |
| `IpHeader.Identification.WriteHeader` | src/libmsc/msc_iptrace.c:289-315 | the octets in front of the payload become the header for the direction, and the identification counter advances only for IPv4 |
| `IpHeader.HeaderDecodes` | src/libmsc/msc_iptrace.c:289-315 | a receiver that verifies version, length and checksum sees a packet from the peer to us if it was received and from us to the peer if it was sent, with protocol, hop limit, identification and payload, for both IP versions |
| `Transport.BuildSctp` | src/libmsc/msc_iptrace.c:355-407 | the packet is the IP, SCTP and DATA chunk layout with the counters of its direction, or refused unchanged if it would exceed 65535 octets |
| `Transport.StoreCrc` | src/libmsc/msc_iptrace.c:399-403 | the checksum goes into the header least significant octet first, computed with the field at zero |
| `Transport.StoredCrcVerifies` | src/libmsc/msc_iptrace.c:399-403 | the stored checksum passes the verification of section 6.8 of RFC 9260 |
| `Transport.SctpDecodes` | src/libmsc/msc_iptrace.c:355-407 | a receiver that verifies the checksum and the chunk length gets back ports, tag, TSN, stream, sequence number, payload protocol and payload |
| `Transport.SctpDatagramAnalysed` | src/libmsc/msc_iptrace.c:355-407 | the whole datagram decodes through IP and SCTP to what it was built from |
| `Tcp.L4Csum` | src/libmsc/msc_iptrace.c:317-333 | the sum over addresses, protocol, length and segment is that of the pseudo-header put in front of the segment |
| `Tcp.BuildTcp` | src/libmsc/msc_iptrace.c:409-443 | the packet carries the next sequence number of its direction and acknowledges the other one, and only its own direction advances, modulo 2^32 |
| `Tcp.TcpDatagramDecodes` | src/libmsc/msc_iptrace.c:409-443 | both checksums check out and ports, counters and payload come back, for odd and even lengths and both IP versions |
| `SccpAddress.Write` | src/libmsc/msc_iptrace.c:521-576 | the octets written are the party address and at most 24 |
| `SccpAddress.EncodeDecodes` | src/libmsc/msc_iptrace.c:509-576 | decoding by section 3.4 of ITU-T Q.713 gives back the low 14 bits of the point code, subsystem, routing indicator and hex digits, for every global title format |
| `SccpAddress.TranslationOnlyFiller` | src/libmsc/msc_iptrace.c:552-573 | in the format without odd/even mark the digits come back exactly when there is an even number of them, otherwise with one filler |
| `SccpAddress.UnpackPack` | src/libmsc/msc_iptrace.c:567-573 | packed semi-octets unpack to the digits |
| `SccpAddress.DigitsSpelled` | src/libmsc/msc_iptrace.c:508-517 | hexadecimal digits are read as what they spell, capitals like small letters and anything else as zero |
| `Sccp.SccpBuild` | src/libmsc/msc_iptrace.c:598-682 | every kind of message is written as specified and stays within the scratch buffer |
| `Sccp.WriteCr` | src/libmsc/msc_iptrace.c:613-634 | the connection request with its pointers patched in afterwards |
| `Sccp.WriteUdt` | src/libmsc/msc_iptrace.c:667-679 | the unitdata message with its three pointers patched in afterwards |
| `Sccp.BuildDecodes` | src/libmsc/msc_iptrace.c:598-682 | every message decodes to its meaning; the pointer octets lead to the called address, the calling address or the optional part that holds it, and the data |
| `Sccp.CrDecodes` | src/libmsc/msc_iptrace.c:613-634 | following the pointers of a CR lands on the called address and on the optional part with calling address and data |
| `Sccp.UdtDecodes` | src/libmsc/msc_iptrace.c:667-679 | following the pointers of a UDT lands on both addresses and the data |
| `Sccp.ReferencesDiffer` | src/libmsc/msc_iptrace.c:585-603 | the two ends of a connection never share a local reference |
| `M3ua.M3uaBuild` | src/libmsc/msc_iptrace.c:685-708 | the octets written are the DATA message and its padding |
| `M3ua.BuildDecodes` | src/libmsc/msc_iptrace.c:685-708 | lengths and padding are consistent with section 3.3.1 of RFC 4666 and every field comes back |
| `Flows.FlowTable.FlowGet` | src/libmsc/msc_iptrace.c:195-212 | a socket with a flow gets that one untouched; otherwise the next slot in turn is reset for it; no socket ever has two flows |
| `Segmentation.BuildSccpPkts` | src/libmsc/msc_iptrace.c:721-770 | every packet goes from the peer to us if received and from us to the peer if sent, by addresses, ports, point codes, SCCP addresses and references alike; the counters start at those of the socket and are left after the last packet, the other direction untouched; a DT1 reassembles to the payload |
| `Segmentation.PacketsTravel` | src/libmsc/msc_iptrace.c:737-768 | each packet of each kind of message names the same sender and receiver on all layers |
| `Segmentation.PacketsInTurn` | src/libmsc/msc_iptrace.c:749-768 | the packets of any message count up from the first counters, with wrap-around |
| `Segmentation.Stream` | src/libmsc/msc_iptrace.c:721-770 | over any sequence of messages on one socket, of all kinds and lengths and in both directions, the packets of each direction count up without gap or repetition from where the socket stood |
| `Segmentation.BuildAll` | src/libmsc/msc_iptrace.c:749-768 | the loop produces one packet per segment and leaves the counters after the last one |
| `Segmentation.BuildPacket` | src/libmsc/msc_iptrace.c:750-763 | no scratch buffer overflows and no packet is refused |
| `Segmentation.PacketSeen` | src/libmsc/msc_iptrace.c:721-770 | one packet decodes through IP, SCTP, M3UA and SCCP to addresses, ports, point codes, counters, references and data |
| `Segmentation.PacketsReassemble` | src/libmsc/msc_iptrace.c:721-770 | decoding and joining the packets of a DT1 gives back the payload, the more-data bit being set on all but the last |
| `Segmentation.PacketCount` | src/libmsc/msc_iptrace.c:749-768 | there is one packet per 255 octets begun, and one for an empty payload |
| `Segmentation.PacketNumbered` | src/libmsc/msc_iptrace.c:721-770 | packet k carries the k-th TSN and stream sequence number |
| `Segmentation.CountersAdvance` | src/libmsc/msc_iptrace.c:376-394 | after n packets the TSN has advanced by n modulo 2^32 and the stream sequence number modulo 2^16 |
| `HoldQueue.RanConn.PendingDrop` | src/libmsc/msc_iptrace.c:802-811 | the queue is emptied, its count is zero, and the record of the connection starts anew |
| `HoldQueue.RanConn.PendingAdd` | src/libmsc/msc_iptrace.c:813-829 | the queue becomes the newest 32 of what it held and what is added; what is lost is counted at the front, and emitted and held packets together stay what was built, in order, less that front |
| `HoldQueue.OrderAfterAdd` | src/libmsc/msc_iptrace.c:813-829 | adding and trimming keeps emitted and held packets together what was built, in order, less a prefix |
| `HoldQueue.RanConn.Emit` | src/libmsc/msc_iptrace.c:831-840 | packets built just now go out behind all earlier ones |
| `HoldQueue.RanConn.Settle` | src/libmsc/msc_iptrace.c:870-883 | with a known and traced IMSI everything held goes out in order; with an untraced one it is dropped; with none it stays |
| `HoldQueue.RanConn.Take` | src/libmsc/msc_iptrace.c:918-950 | a message of a connection keeps an IMSI once seen; with a traced one everything held and then the message goes out in order and nothing is lost; with none the message waits; with an untraced one all is dropped |
| `HoldQueue.Tracer.RxCr` | src/libmsc/msc_iptrace.c:885-905 | the packets of an inbound CR wait for their connection, replacing an older CR, and nothing else changes |
| `HoldQueue.Tracer.Adopt` | src/libmsc/msc_iptrace.c:860-866 | the waiting CR is queued for its own connection, once, and for no other; the number lost at the front is exact |
| `HoldQueue.Tracer.SccpCo` | src/libmsc/msc_iptrace.c:907-951 | a waiting CR and then the message are taken exactly once; with a traced IMSI nothing is lost, without one exactly what overfills the queue; other connections are untouched |
| `HoldQueue.Tracer.Recall` | src/libmsc/sccp_ran.c:222-224 | a CR for a connection that exists, refused and flushed: packets are lost exactly if the queue cannot hold those of the CR as well, and then only from a connection of which nothing was emitted |
| `HoldQueue.Tracer.Inbound` | src/libmsc/sccp_ran.c:222-224 | a CR for a new connection: the CR and then what up_l2() sends are built for it if it is made; while anything is traced no CR is left waiting; no connection of which something was emitted or whose IMSI is known loses anything unless it is dropped as untraced |
| `HoldQueue.Tracer.Arrived` | src/libmsc/sccp_ran.c:234-237 | data that arrives on a connection: the packets of the message and then those of everything sent meanwhile are built, and nothing is left held if the IMSI is known and traced |
| `HoldQueue.Tracer.Handle` | src/libmsc/sccp_ran.c:200-256 | whatever happens, a connection of which something was emitted loses nothing, and one whose IMSI is known loses something only by a CR that comes for it again, unless it is dropped as untraced |
| `HoldQueue.Tracer.Run` | src/libmsc/sccp_ran.c:200-256 | over any sequence of primitives and messages sent, what is built for each connection is what the calls alone tell; unless it was dropped as untraced meanwhile, a connection keeps what was built and emitted, and once something was emitted it loses nothing any more |
| `HoldQueue.Life` | src/libmsc/sccp_ran.c:200-256 | from the start on, over any such sequence: what is built for the connections is a function of the calls; what was emitted for a connection is an unbroken part of it, in order and once, what is held is the rest, and nothing is held once something was emitted |
| `HoldQueue.BuiltIsNamed` | src/libmsc/sccp_ran.c:200-256 | while a connection is open and traced, what is built for it is the concatenation of the packets that name it, in order |
| `HoldQueue.LostThoughKnown` | src/libmsc/sccp_ran.c:222-224 | a connection that loses two packets after its IMSI was known, by a CR that comes for it again while its queue is full |
| `HoldQueue.Tracer.Flush` | src/libmsc/msc_iptrace.c:953-971 | everything held, with a CR that waits, goes out if the IMSI is known and traced, stays if it is not known and is dropped otherwise; while anything is traced the waiting CR is consumed, and the number lost at the front is exact |
| `CallControl.Transaction.CountStatistics` | src/libmsc/gsm_04_08_cc.c:161-190 | entering ACTIVE raises gauge and activated, leaving it lowers the gauge and counts complete or incomplete |
| `CallControl.Transaction.TransFree` | src/libmsc/gsm_04_08_cc.c:349-385 | the end of a transaction as the specification orders it: timer, release to MNCC, release to the mobile station, state, guard timer |
| `CallControl.Transaction.CcTimeout` | src/libmsc/gsm_04_08_cc.c:471-553 | expiry of each timer as specified, the second T308 freeing the transaction |
| `CallControl.FindUp` | src/libmsc/gsm_04_08_cc.c:2775-2779 | the table search finds a row for message and state exactly if there is one |
| `CallControl.FindDown` | src/libmsc/gsm_04_08_cc.c:2585-2589 | the same for requests of MNCC |
| `CallControl.Transaction.UpRoutine` | src/libmsc/gsm_04_08_cc.c:2661-2710 | every row of datastatelist runs its routine |
| `CallControl.Transaction.DownRoutine` | src/libmsc/gsm_04_08_cc.c:2327-2380 | every row of downstatelist runs its routine |
| `CallControl.Transaction.RcvCc` | src/libmsc/gsm_04_08_cc.c:2772-2798 | a message of the mobile station is dispatched by state; an unhandled one ends a transaction still in NULL |
| `CallControl.Transaction.TxToGsmCc` | src/libmsc/gsm_04_08_cc.c:2540-2598 | a request of MNCC marks the contact, ends a transaction that still pages and is dispatched by state otherwise |
| `CallControlRuns.NextCallref` | src/libmsc/gsm_04_08_cc.c:91-97 | an assigned callref is never zero and always above 0x80000000, through wrap-around |
| `CallControlLocal.TimeoutSteps` | src/libmsc/gsm_04_08_cc.c:471-553 | an expiry keeps timer agreement, counters and the one-release rule of its transaction |
| `CallControlLocal.FromMnccSteps` | src/libmsc/gsm_04_08_cc.c:2540-2598 | so does every request of MNCC in every state |
| `CallControlLocal.FromMsSteps` | src/libmsc/gsm_04_08_cc.c:2772-2798 | so does every message of the mobile station in every state |
| `CallControlLocal.PagedSteps` | src/libmsc/gsm_04_08_cc.c:388-431 | so does every outcome of paging |
| `CallControlLocal.RtpKnownSteps` | src/libmsc/gsm_04_08_cc.c:732-780 | so does an RTP port that becomes known |
| `CallControlLocal.AssignmentDoneSteps` | src/libmsc/gsm_04_08_cc.c:2205-2241 | so does a finished assignment |
| `CallControlLocal.BridgeFailedSteps` | src/libmsc/gsm_04_08_cc.c:556-579 | so does a failed bridge, connected or not |
| `CallControlLocal.FreeEffect` | src/libmsc/gsm_04_08_cc.c:349-385 | freeing tells MNCC exactly if there is a callref and there was contact, and takes an active call out of the gauge |
| `CallControlRuns.NextKeeps` | src/libmsc/gsm_04_08_cc.c:2386-2798 | every event of every transaction keeps the invariant of all transactions |
| `CallControlRuns.TimerAgreement` | src/libmsc/gsm_04_08_cc.c:471-553 | in every reachable state of every connected transaction the armed timer is the one of its state, and none is armed in the states that have none |
| `CallControlRuns.CounterConservation` | src/libmsc/gsm_04_08_cc.c:161-209 | over every run the gauge is the number of transactions in ACTIVE, and activated = complete + incomplete + gauge |
| `CallControlRuns.ReleasedAtMostOnce` | src/libmsc/gsm_04_08_cc.c:334-385 | over every run at most one of REL_IND, REL_CNF and REJ_IND is sent for a transaction under its callref, and none while it still has one |
| `CallControlSilence.TimeoutClears` | src/libmsc/gsm_04_08_cc.c:471-553 | every expiry brings a connected call one step closer to its end |
| `CallControlSilence.SilentStep` | src/libmsc/gsm_04_08_cc.c:471-553 | an event that is silent about a call ends it or leaves its rank, lowered by one exactly if its own timer expired |
| `CallControlSilence.SilentClearing` | src/libmsc/gsm_04_08_cc.c:471-553 | if mobile station and MNCC fall silent about a connected call with a running timer, at any point of any run and whatever else happens in the network, the call is gone once its timer has expired as often as its rank tells, four times at most; and if nothing else ends it, exactly then |
| `CallControlEnd.EndTold` | src/libmsc/gsm_04_08_cc.c:349-385 | whichever event ends a transaction, MNCC is told once or not at all, as the named condition says before the event |
| `CallControlEnd.GoneTold` | src/libmsc/gsm_04_08_cc.c:349-385 | over every run and for every event: only an event about a transaction ends it, and the condition tells whether MNCC was told once or not at all, counted over the whole queue |
| `CallControlEnd.GoneAtOnceTold` | src/libmsc/gsm_04_08_cc.c:2427-2798 | over every run: a transaction made and gone in one event was told once exactly if it was to be set up under a callref on an existing connection, or was opened by a release complete, and not at all otherwise |
| `CallControlEnd.ContactedTold` | src/libmsc/gsm_04_08_cc.c:349-385 | after contact every end by every event is told exactly once, but for the rejection by MNCC itself and the loss of its socket |
| `CallControlEnd.StrayReleaseComplete` | src/libmsc/gsm_04_08_cc.c:1626-1685 | a release complete that opens a transaction gives MNCC a release indication under a new callref that it never heard of |
| `CallControlEnd.PagingNeverStarted` | src/libmsc/gsm_04_08_cc.c:2508-2528 | a call that MNCC asked for and whose paging cannot start leaves no message to MNCC at all |
| `CallControlEnd.PagedInVain` | src/libmsc/gsm_04_08_cc.c:885-963 | nor does a paged call whose set-up fails without a release of its own, as for a transfer capability that is not handled |
| `CallControlCounts.CountedExactly` | src/libmsc/gsm_04_08_cc.c:161-209 | whichever event hits a transaction, its call is counted as complete exactly if it was active and one side hung up, and as incomplete exactly if it left ACTIVE otherwise |
| `CallControlCounts.CompleteIsHungUp` | src/libmsc/gsm_04_08_cc.c:161-190 | over every run the number of complete calls is the number of active calls hung up by the mobile station, by MNCC or by a failed bridge |
| `CallControlCounts.ModificationCounted` | src/libmsc/gsm_04_08_cc.c:1902-1928 | modifying an active call and going on with it leaves the call counted once more as activated and once as incomplete |
| `CallControlCourse.CourseTaken` | src/libmsc/gsm_04_08_cc.c:2327-2798 | whatever happens to a transaction, the next state, the messages to MNCC in order and the count of activations are those of a table read state by state |
| `CallControlCourse.CourseInRun` | src/libmsc/gsm_04_08_cc.c:2327-2798 | the same over every run, with no other transaction touched |
| `CallControlCourse.FirstTaken` | src/libmsc/gsm_04_08_cc.c:2427-2758 | the same for an event that makes a transaction |
| `CallControlCourse.UnknownRefused` | src/libmsc/gsm_04_08_cc.c:2427-2491 | a request for an unknown call is answered by one release under its callref |
| `CallControlCourse.BridgeTaken` | src/libmsc/gsm_04_08_cc.c:556-579 | a failed bridge disconnects both calls, tells MNCC nothing and touches no other call |
| `CallControlCourse.AnswersExactly` | src/libmsc/gsm_04_08_cc.c:161-209 | a call becomes active exactly by the acknowledged connection, the completed set-up or the answer to a modification |
| `CallControlCourse.ActivatedIsAnswered` | src/libmsc/gsm_04_08_cc.c:161-190 | over every run the number of activated calls is the number of these |
| `CallControlGuard.GuardTaken` | src/libmsc/gsm_04_08_cc.c:99-130 | the guard timer runs from a set-up, or from a request of MNCC that is more than passed through, until the call is active |
| `CallControlConfirm.ReactKeeps` | src/libmsc/gsm_04_08_cc.c:334-345 | no event but the release request of MNCC leads a transaction with a callref towards a confirmation |
| `CallControlConfirm.ConfirmedOnRequest` | src/libmsc/gsm_04_08_cc.c:334-345 | over every run a REL_CNF under a callref answers an earlier REL_REQ for the same transaction |
| `CallControlNetwork.ReactTo` | src/libmsc/gsm_04_08_cc.c:471-2798 | every event of one transaction object does what the specification says |
| `CallControlNetwork.Exchange.Handle` | src/libmsc/gsm_04_08_cc.c:2386-2798 | every event changes the transaction objects, the queue and the counters as the next state of the specification says, and leaves every other transaction alone |
| `CallControlNetwork.Exchange.HandleAll` | src/libmsc/gsm_04_08_cc.c:2386-2798 | any sequence of events takes the objects to the state that the specification reaches |
| `CallControlNetwork.Exchange.DisconnectOne` | src/libmsc/gsm_04_08_cc.c:556-579 | a failed bridge disconnects a transaction object and no other |
| `CallControlNetwork.Life` | src/libmsc/gsm_04_08_cc.c:2386-2798 | after any events the transaction objects have the timers of their states, the counters balance, nothing was released twice, and releases confirmed were asked for |
| `CallControlNetwork.FallSilent` | src/libmsc/gsm_04_08_cc.c:471-553 | a transaction object about which both sides fall silent is off the list after as many expiries as its rank tells |
| `MscA.Connection.PutUse` | src/libmsc/msc_a.c:1356-1386 | when the last use of a live connection goes, it is in release afterwards exactly if it was not waiting for a classmark, and ended if it was RELEASED; in the classmark wait nothing else changes; tokens of transactions and of running functions stay balanced |
| `MscA.UnusedButWaiting` | src/libmsc/msc_a.c:1253-1268 | a live connection with no use left, waiting for a classmark with its timer running |
| `MscA.Connection.PutAllUse` | src/libmsc/msc_a.c:1012-1018 | all uses of one name go at once |
| `MscA.Connection.CancelReleaseUses` | src/libmsc/msc_a.c:993-1020 | exactly the eleven listed uses are gone afterwards and no other has changed |
| `MscA.Connection.FreeAt` | src/libmsc/transaction.c:253-334 | a transaction leaves the connection together with its token |
| `MscA.Connection.ConnClosed` | src/libmsc/transaction.c:394-412 | all transactions of the connection are gone, whatever their tokens trigger |
| `MscA.Connection.StateChg` | src/libmsc/msc_a.c:61-80 | a transition outside the mask changes nothing; one inside it is entered, its timer set and its entry function run |
| `MscA.Connection.GiveUp` | src/libmsc/msc_a.c:1077-1087 | transactions and cancelled uses are gone, so that of the uses known here only those of running functions are left |
| `MscA.Connection.Clear` | src/libmsc/msc_a.c:1089-1110 | SGs goes on to RELEASED; the others stay in RELEASING with one use that waits for Clear Complete |
| `MscA.Connection.OnEnterReleasing` | src/libmsc/msc_a.c:1055-1115 | what cancelling leads to is done; SGs is RELEASED afterwards, the others wait for Clear Complete unless one came meanwhile |
| `MscA.Connection.OnEnterReleased` | src/libmsc/msc_a.c:1150-1158 | an unused connection ends at once, so a live one in RELEASED is in use |
| `MscA.Connection.Terminate` | src/libmsc/msc_a.c:1160-1184 | ends the instance and cleans up; later events are ignored |
| `MscA.Connection.Dispatch` | src/libmsc/msc_a.c:1217-1339 | an event outside the mask is refused and changes nothing; one inside is taken; closing, or losing the last use, leads to RELEASED on SGs and else to the wait for Clear Complete; what a message from the access network leads to is done in order; authentication is taken only in AUTH_CIPH |
| `MscA.Connection.Act` | src/libmsc/msc_a.c:279-987 | the actions of all states keep the invariant under any nesting of callbacks |
| `MscA.Connection.ActWaitClassmark` | src/libmsc/msc_a.c:482-526 | a classmark that ciphering waited for leads back to AUTH_CIPH, or into release if ciphering fails; otherwise the state before is restored only as far as the mask allows |
| `MscA.Connection.ClearComplete` | src/libmsc/msc_a.c:1909-1923 | Clear Complete leads from RELEASING to RELEASED and starts the release otherwise |
| `MscA.Connection.UpL3` | src/libmsc/msc_a.c:1504-1647 | a layer 3 message reaches exactly the receiver that the gate names for state, header, duplicate detection and access network, or nobody |
| `MscA.Connection.FindReceiver` | src/libmsc/msc_a.c:1504-1647 | the checks one after the other name the receiver of the gate |
| `MscA.Connection.CallLegGone` | src/libmsc/msc_a.c:948-966 | an active call whose call leg ends loses its transaction, and no more, unless the connection goes |
| `MscASpec.GateExactly` | src/libmsc/msc_a.c:1504-1647 | a message reaches a receiver exactly if its discriminator is the receiver's own, the connection is accepted or the message is one of those permitted before, and all other checks pass |
| `MscASpec.TakesExactly` | src/libmsc/msc_a.c:1217-1339 | the event masks, event by event |
| `MscASpec.ExitsExactly` | src/libmsc/msc_a.c:1217-1339 | the state masks, by the state that is reached |
| `MscA.Connection.CheckBit7` | src/libmsc/msc_a.c:1582-1608 | bit 7 of the message type is checked by discriminator |
| `MscA.Connection.TimerCb` | src/libmsc/msc_a.c:1022-1053 | every expiry leaves fewer expiries to come, and one in RELEASING leads to RELEASED |
| `MscA.Connection.ReleasedTimeout` | src/libmsc/msc_a.c:1028-1045 | an expiry in RELEASED ends the instance whatever tokens remain |
| `MscA.Connection.Run` | src/libmsc/msc_a.c:1022-1339 | after any sequence of events and expiries the invariant holds, and expiries so far plus expiries left do not exceed those left before |
| `MscA.Connection.AttachDirectly` | src/libmsc/gsm_04_11.c:174-175 | a transaction may be attached to any connection that is not in release, accepted or not |
| `MscA.Life` | src/libmsc/msc_a.c:1388-1400 | for a connection from its allocation on: services are received only after authentication and never after RELEASING, RELEASING leads nowhere but RELEASED, and there only once Clear Complete came or the wait timed out, while SGs is never left in RELEASING; a live connection has its timer running unless it is COMMUNICATING and is in use if RELEASED, and the third expiry at the latest ends it |
| `MscASpec.Noted` | src/libmsc/msc_a.c:1217-1339 | an entry of the log keeps services between authentication and release, and the release one-way |
| `MscASpec.EnterSound` | src/libmsc/msc_a.c:1217-1339 | the masks allow no way back from release and no acceptance without authentication |
| `MscASpec.HoldReturned` | src/libmsc/msc_a.c:266-277 | a token held by a function while other code runs is still there afterwards |
| `Msub.Registry.SetVsub` | src/libmsc/msub.c:336-405 | the link stays two-way with one token per attached subscriber; the two errors occur exactly when stated and change nothing; a replaced connection loses its subscriber and is put into release, or ended if it has no MSC-A role; nobody else is touched |
| `Msub.Registry.Evict` | src/libmsc/msub.c:375-388 | the replaced connection is detached, then released, or removed if it has no MSC-A role |
| `Msub.Registry.ForVsub` | src/libmsc/msub.c:202-207 | finds the one connection of a subscriber, and there is at most one |
| `Msub.Registry.Cleanup` | src/libmsc/msub.c:116-122 | a connection that ends leaves its subscriber without a connection and all others as they were |
| `Msub.Registry.Run` | src/libmsc/msub.c:336-405 | any sequence of associations keeps the link two-way and the tokens right |
| `Paging.Pager.Start` | src/libmsc/paging.c:84-124 | a request is appended; the first one takes the token and starts the timer, or is refused unchanged if nothing could be sent |
| `Paging.Pager.Join` | src/libmsc/paging.c:128-152 | the discarded queue is appended whole and in order; the response timer of the kept subscriber stays as it was, so that it agrees with its paging afterwards exactly if the subscriber was paging or nothing was joined |
| `Paging.Pager.Remove` | src/libmsc/paging.c:154-165 | one request leaves the queue and the others keep their order |
| `Paging.Pager.Conclude` | src/libmsc/paging.c:167-212 | every queued request is called back once, first come first served; then nothing is queued, paging, timed or held |
| `Paging.CallsOnce` | src/libmsc/paging.c:179-193 | a queue without repetitions gives callbacks without repetitions, of its own requests only |
| `Paging.CallsExactly` | src/libmsc/paging.c:179-193 | exactly the requests that have a callback are called, with the outcome |
| `Paging.CallsInOrder` | src/libmsc/paging.c:179-193 | a queue is called back in its order, however it is split |
| `Paging.JoinedUntimed` | src/libmsc/paging.c:142-146 | an idle subscriber that joins a paging one pages without a response timer |
| `HandoverNumber.Numbers.NextNumber` | src/libmsc/msc_t.c:63-72 | the next number of the range, starting over at its end or where the counter is outside it, with 64-bit wrap-around |
| `HandoverNumber.Numbers.FindByNumber` | src/libmsc/msc_t.c:45-61 | finds a role that holds the number exactly if there is one |
| `HandoverNumber.Numbers.Search` | src/libmsc/msc_t.c:90-107 | terminates; a number found is in range, free and prints in 15 digits; none is found only if all are held or one does not print |
| `HandoverNumber.Numbers.Assign` | src/libmsc/msc_t.c:74-113 | no two roles ever hold the same number; for a range from 1 on within 15 digits it succeeds exactly if a number is free, and always if there are fewer roles than numbers |
| `HandoverNumber.AllHeldNeedsAll` | src/libmsc/msc_t.c:90-107 | all numbers of a range can be held only by as many roles |
| `HandoverNumber.Numbers.SetRange` | src/libmsc/msc_vty.c:812-850 | an inverted range is refused and changes nothing |
| `Decimal.PrintInjective` | src/libmsc/msc_t.c:91-100 | different numbers print differently |
| `Decimal.PrintLength` | src/libmsc/msc_t.c:91-95 | a number prints in k digits or fewer exactly if it is below the k-th power of ten |
| `DuplicateDetection.Detector.DetermineNsd` | src/libmsc/ran_msg.c:77-112 | sequence number and modulus by discriminator and release |
| `DuplicateDetection.Detector.IsDuplicate` | src/libmsc/ran_msg.c:135-167 | a message is dropped exactly if its number is not the expected one of its bin; otherwise only that bin advances |
| `DuplicateDetection.CounterCounts` | src/libmsc/ran_msg.c:135-167 | a counter is the number of messages accepted in its bin, modulo its size |
| `DuplicateDetection.AcceptedExactly` | src/libmsc/ran_msg.c:135-167 | a message is accepted exactly if its index agrees with the number accepted, modulo the counter |
| `DuplicateDetection.LateRepetition` | src/libmsc/ran_msg.c:135-167 | the first of four messages, repeated after them, is accepted again |
| `DuplicateDetection.ExactlyOnce` | src/libmsc/ran_msg.c:77-167 | over a channel that keeps order and repeats a message only within one round of numbers, each message is accepted once and in order |
| `DuplicateDetection.BinsApart` | src/libmsc/ran_msg.c:116-132 | a message changes nothing in any other bin |
| `DuplicateDetection.CountTogether` | src/libmsc/ran_msg.c:116-132 | mobility management, call control and supplementary services share one sequence of numbers |
| `DuplicateDetection.CountApart` | src/libmsc/ran_msg.c:116-132 | any two other discriminators leave each other alone |
| `DuplicateDetection.NotTwice` | src/libmsc/ran_msg.c:135-167 | a numbered message is not accepted twice in a row |
| `DuplicateDetection.UnnumberedPass` | src/libmsc/ran_msg.c:135-152 | a message without a number is never dropped and changes no counter |
| `BearerServices.List.Clamp` | src/libmsc/csd_bs.c:38-57 | a count out of bounds is brought back and the contents stay |
| `BearerServices.List.HasBs` | src/libmsc/csd_bs.c:382-392 | tells whether the list holds the service |
| `BearerServices.List.AddBs` | src/libmsc/csd_bs.c:394-414 | a valid service that is new is appended if there is room, otherwise nothing changes |
| `BearerServices.List.Remove` | src/libmsc/csd_bs.c:416-434 | the first occurrence goes, all behind it move up in order |
| `BearerServices.List.Intersection` | src/libmsc/csd_bs.c:436-451 | terminates with the order-preserving filter, duplicates or not |
| `BearerServices.CommonMembers` | src/libmsc/csd_bs.c:436-451 | the filter holds exactly the services of both lists |
| `BearerFilter.SelectMore` | src/libmsc/csd_filter.c:94-99 | intersecting once more is filtering by one constraint more |
| `BearerFilter.SetRan` | src/libmsc/csd_filter.c:28-79 | the offered list in order of preference; over GERAN it is every service there is |
| `BearerFilter.OfferedRanked` | src/libmsc/csd_filter.c:28-79 | over UTRAN exactly the asynchronous non-transparent services are offered and else all, ranked by kind and then by rate |
| `BearerFilter.Run` | src/libmsc/csd_filter.c:89-107 | without an assignment, the services of the access network filtered by every usable constraint, in order; with one, that one |
| `BearerCapability.ListFromCapability` | src/libmsc/csd_bs.c:578-608 | the services that a capability asks for, in order of preference |
| `BearerCapability.ListToCapability` | src/libmsc/csd_bs.c:512-576 | the first valid service decides; without one the capability is left alone |
| `BearerCapability.CapabilityRead` | src/libmsc/csd_bs.c:283-351 | a service written as a capability for any transfer is read back as that service alone |
| `BearerCapability.ServiceFits` | src/libmsc/csd_bs.c:283-351 | the service read has the access structure, quality and rate asked for, and there is one exactly if V.110 is asked for or implied and such a service exists |
| `BearerCapability.ServiceUnique` | src/libmsc/csd_bs.c:77-176 | no two services agree in access structure, quality and rate |
| `BearerCapability.RatesWritten` | src/libmsc/csd_bs.c:512-576 | the rate of the service and the narrowest intermediate rate for it are written, V.110 only for digital transfer |
| `BearerCapability.RoundTrip` | src/libmsc/csd_bs.c:512-608 | a list goes over as its first valid service and nothing else |
| `BearerCapability.TwoForms` | src/libmsc/csd_bs.c:283-351 | the transparent and the non-transparent reading of a capability are never the same service |
| `GroupCall.Registers.ByCallref` | src/libmsc/asci_gcr.c:152-175 | the longest group of the type whose digits end the zero-padded call reference, or none |
| `GroupCall.RemainderIsSuffix` | src/libmsc/asci_gcr.c:159-165 | comparing the remainder with the number of the identity is comparing decimal suffixes, leading zeros included |
| `GroupCall.BestUnique` | src/libmsc/asci_gcr.c:152-175 | the result is unique and does not depend on the order of the registers |
| `GroupCall.Registers.ByGroupId` | src/libmsc/asci_gcr.c:139-149 | finds the register of type and identity exactly if there is one |
| `GroupCall.Registers.Configure` | src/libmsc/asci_vty.c:165-201 | identities stay valid and unique per type |
| `GroupCall.Registers.Destroy` | src/libmsc/asci_gcr.c:131-136 | one register goes and the others stay well-formed |
| `GroupCall.PaddedWhole` | src/libmsc/asci_gcr.c:152-175 | ten digits show a whole 32-bit call reference |

## Left out

- Finding sockets and their addresses, `/proc`, base64 and the output of packets in the trace code: endpoints and file
  descriptors are inputs.
- Time stamps, link and protocol names of traced packets: they only label the octets.
- GSUP and SGs trace entry points, unitdata from the call-less trace: they wrap the builders modelled here.
- HTTP, CTRL and VTY interfaces, the SQLite store, call detail records, log-to-ladder scripts: plumbing.
- SDP, codec filters, RTP streams, the media gateway and the encoding of messages to the mobile station: codec
  negotiation does not change call states or timers, and its outcomes are parameters.
- The built-in MNCC handler, which calls back into call control: messages to MNCC are queued, as with an external one.
- Transactions without a connection and the guard timer: no liveness is claimed for them.
- CM re-establishment, which clears the link of a connection directly (`src/libmsc/gsm_04_08.c:968-971`): it is outside
  the steps of `Msub`.
- Handover between MSCs beyond the handover number, the remote MSC-A, MSC-I and MSC-T roles.
- The conversion of bearer services to a channel type: it would only add a case analysis.
- The cell and base station lists of group call registers: plain lists.
- Memory allocation failure: allocation succeeds.
- MscA.Connection.Act: a put of a token that is not held, which the code answers with an assertion failure, is not
  modelled; nested code puts only what is held, and tokens of transactions only by freeing them.
- MscA.Connection.OnEnterReleasing: what cancelling the VLR's state machines leads to is one fixed but arbitrary tree of
  operations per connection, which is no loss because the state is entered once at most.
- Msub.Registry.Evict: of the release of the replaced connection only its beginning is modelled, by a mark on its MSC-A.
- CallControlRuns.NextKeeps: events name the transaction that a look-up by callref or transaction identifier found; that
  look-ups of different callrefs find different transactions is not modelled.
- HoldQueue.RanConn.PendingAdd: requires that nothing overflows once something was emitted; all callers ensure it, because
  the queue is empty from then on.
- HoldQueue.Tracer.Run: up_l2() is any sequence of messages sent, connections made and connections discarded; that it
  does not call back into the handler of primitives is taken from the code being single-threaded.
- BearerServices.List.Intersection: requires two different lists, as all callers pass.
- Paging.Pager.Conclude: callbacks that start or cancel paging for the same subscriber are not modelled.
- DuplicateDetection.ExactlyOnce: the release of the mobile station is fixed for the run.
