/** m3ua_build() of msc_iptrace.c: a DATA message with one Protocol Data parameter, section 3.3.1 of RFC 4666. */
module M3ua {
  import opened Options
  import opened Bytes
  import opened IpHeader
  import opened Transport

  const SI_SCCP: Byte := 3

  datatype ProtocolData =
    ProtocolData(opc: Uint32, dpc: Uint32, si: Byte, ni: Byte, mp: Byte, sls: Byte, user: seq<Byte>)

  /** Length of the parameter without its padding. */
  function ParameterLength(length: nat): nat {
    4 + 12 + length
  }

  function TotalLength(length: nat): nat {
    8 + ParameterLength(length) + Pad(ParameterLength(length))
  }

  function Start(total: Uint32, length: Uint16): (s: seq<Byte>)
    ensures |s| == 12
  {
    [1, 0, 1, 1] + Be32(total) + Be16(0x0210) + Be16(length)
  }

  function Label(opc: Uint32, dpc: Uint32, ni: Byte, sls: Byte): (s: seq<Byte>)
    ensures |s| == 12
  {
    Be32(opc) + Be32(dpc) + [SI_SCCP, ni, 0, sls]
  }

  function Build(opc: Uint32, dpc: Uint32, ni: Byte, sls: Byte, user: seq<Byte>): (s: seq<Byte>)
    requires ParameterLength(|user|) <= 0xFFFF
    ensures |s| == TotalLength(|user|)
  {
    Start(TotalLength(|user|), ParameterLength(|user|)) + Label(opc, dpc, ni, sls)
    + (user + Zeros(Pad(ParameterLength(|user|))))
  }

  /** A receiver: version 1, a transfer message of type DATA whose length covers the padding of its last
      parameter, with Protocol Data (tag 0x0210) as its only parameter. */
  function Decode(s: seq<Byte>): Option<ProtocolData> {
    if |s| < 24 || s[0] != 1 || s[2] != 1 || s[3] != 1 || Get32(s, 4) != |s| || Get16(s, 8) != 0x0210 then None
    else if Get16(s, 10) < 16 then None
    else
      var length := Get16(s, 10) - 16;
      if |s| != TotalLength(length) then None
      else Some(ProtocolData(Get32(s, 12), Get32(s, 16), s[20], s[21], s[22], s[23], s[24..24 + length]))
  }

  lemma StartFields(total: Uint32, length: Uint16)
    ensures var h := Start(total, length);
            && h[0] == 1 && h[2] == 1 && h[3] == 1
            && Get32(h, 4) == total && Get16(h, 8) == 0x0210 && Get16(h, 10) == length
  {
    hide Be16, Be32;
    var h := Start(total, length);
    GetBe32([1, 0, 1, 1], total, Be16(0x0210) + Be16(length));
    assert h == [1, 0, 1, 1] + Be32(total) + (Be16(0x0210) + Be16(length));
    GetBe16([1, 0, 1, 1] + Be32(total), 0x0210, Be16(length));
    GetBe16([1, 0, 1, 1] + Be32(total) + Be16(0x0210), length, []);
    assert h == h + [];
  }

  lemma LabelFields(opc: Uint32, dpc: Uint32, ni: Byte, sls: Byte)
    ensures var h := Label(opc, dpc, ni, sls);
            Get32(h, 0) == opc && Get32(h, 4) == dpc && h[8] == SI_SCCP && h[9] == ni && h[10] == 0 && h[11] == sls
  {
    hide Be32;
    var h, t := Label(opc, dpc, ni, sls), [SI_SCCP, ni, 0, sls];
    GetBe32([], opc, Be32(dpc) + t);
    assert h == [] + Be32(opc) + (Be32(dpc) + t);
    GetBe32(Be32(opc), dpc, t);
  }

  lemma Parts(s: seq<Byte>, start: seq<Byte>, routing: seq<Byte>, user: seq<Byte>, pad: seq<Byte>)
    requires |start| == |routing| == 12 && s == start + routing + (user + pad)
    ensures s[0..12] == start && s[12..24] == routing && s[24..24 + |user|] == user
  {
  }

  lemma DecodeParts(s: seq<Byte>, start: seq<Byte>, routing: seq<Byte>, user: seq<Byte>)
    requires |start| == |routing| == 12 && |s| == TotalLength(|user|)
    requires s[0..12] == start && s[12..24] == routing && s[24..24 + |user|] == user
    requires start[0] == 1 && start[2] == 1 && start[3] == 1
    requires Get32(start, 4) == |s| && Get16(start, 8) == 0x0210 && Get16(start, 10) == ParameterLength(|user|)
    ensures Decode(s) == Some(ProtocolData(Get32(routing, 0), Get32(routing, 4), routing[8], routing[9], routing[10],
                                           routing[11], user))
  {
    GetInSlice(s, 0, 12, 4);
    GetInSlice(s, 0, 12, 8);
    GetInSlice(s, 0, 12, 10);
    GetInSlice(s, 12, 24, 0);
    GetInSlice(s, 12, 24, 4);
    assert forall i :: 0 <= i < 12 ==> s[i] == s[0..12][i] && s[12 + i] == s[12..24][i];
  }

  lemma BuildDecodes(opc: Uint32, dpc: Uint32, ni: Byte, sls: Byte, user: seq<Byte>)
    requires ParameterLength(|user|) <= 0xFFFF
    ensures Decode(Build(opc, dpc, ni, sls, user)) == Some(ProtocolData(opc, dpc, SI_SCCP, ni, 0, sls, user))
  {
    hide Start, Label, Decode;
    var s := Build(opc, dpc, ni, sls, user);
    var start, routing := Start(TotalLength(|user|), ParameterLength(|user|)), Label(opc, dpc, ni, sls);
    StartFields(TotalLength(|user|), ParameterLength(|user|));
    LabelFields(opc, dpc, ni, sls);
    Parts(s, start, routing, user, Zeros(Pad(ParameterLength(|user|))));
    DecodeParts(s, start, routing, user);
  }

  method WriteStart(out: array<Byte>, total: Uint32, length: Uint16)
    requires out.Length >= 12
    modifies out
    ensures out[..12] == Start(total, length)
  {
    hide Be16, Be32;
    Store(out, 0, [1, 0, 1, 1]);
    Store(out, 4, Be32(total));
    Store(out, 8, Be16(0x0210));
    Store(out, 10, Be16(length));
  }

  method WriteLabel(out: array<Byte>, opc: Uint32, dpc: Uint32, ni: Byte, sls: Byte)
    requires out.Length >= 24
    modifies out
    ensures out[..24] == old(out[..12]) + Label(opc, dpc, ni, sls)
  {
    hide Be32;
    ghost var head := out[..12];
    Store(out, 12, Be32(opc));
    Store(out, 16, Be32(dpc));
    Store(out, 20, [SI_SCCP, ni, 0, sls]);
    assert out[..24] == head + Be32(opc) + Be32(dpc) + [SI_SCCP, ni, 0, sls];
  }

  /** m3ua_build() */
  method M3uaBuild(out: array<Byte>, opc: Uint32, dpc: Uint32, ni: Byte, sls: Byte, user: seq<Byte>) returns (n: nat)
    requires ParameterLength(|user|) <= 0xFFFF && TotalLength(|user|) <= out.Length
    modifies out
    ensures n == TotalLength(|user|)
    ensures out[..n] == Build(opc, dpc, ni, sls, user)
  {
    hide Start, Label;
    n := TotalLength(|user|);
    WriteStart(out, n, ParameterLength(|user|));
    WriteLabel(out, opc, dpc, ni, sls);
    ghost var head := out[..24];
    Store(out, 24, user);
    Store(out, 24 + |user|, Zeros(Pad(ParameterLength(|user|))));
    assert out[..n] == head + user + Zeros(Pad(ParameterLength(|user|)));
  }
}
