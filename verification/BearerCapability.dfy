/** Bearer services as bearer capability and back (csd_bs.c). */
module BearerCapability {
  import opened BearerServices

  datatype Transfer = UnrestrictedDigital | Audio3k1 | FaxG3 | OtherTransfer

  datatype RateAdaption = RaNone | RaV110X30 | RaOther

  datatype UserRate = Ur300 | Ur1200 | Ur2400 | Ur4800 | Ur9600 | UrOther

  /** Zero, or one of the intermediate rates. */
  datatype IntermediateRate = IrUnset | Ir8k | Ir16k

  datatype Transparency = TrTransparent | TrRlp | TrRlpPreferred | TrTransparentPreferred

  /** The fields of struct gsm_mncc_bearer_cap that the conversions read or choose by service. */
  datatype Capability = Capability(transfer: Transfer, ra: RateAdaption, async: bool, transparency: Transparency,
                                   userRate: UserRate, intermediateRate: IntermediateRate)

  // ---- bs_map ----

  predicate IsAsync(b: Service)
    requires Valid(b)
  {
    b <= 10
  }

  predicate IsTransparent(b: Service)
    requires Valid(b)
  {
    b <= 5 || b >= 11
  }

  function Rate(b: Service): nat
    requires Valid(b)
  {
    match b
    case 1 => 300
    case 2 => 1200
    case 3 => 2400
    case 4 => 4800
    case 5 => 9600
    case 6 => 300
    case 7 => 1200
    case 8 => 2400
    case 9 => 4800
    case 10 => 9600
    case 11 => 1200
    case 12 => 2400
    case 13 => 4800
    case _ => 9600
  }

  // ---- Reading a capability ----

  /** csd_bs_from_bearer_cap() */
  function FromCapability(cap: Capability, transparent: bool): Service {
    var ra := if cap.intermediateRate != IrUnset && cap.ra == RaNone then RaV110X30 else cap.ra;
    if ra == RaV110X30 && cap.async && transparent then
      match cap.userRate
      case Ur300 => 1
      case Ur1200 => 2
      case Ur2400 => 3
      case Ur4800 => 4
      case Ur9600 => 5
      case UrOther => 0
    else if ra == RaV110X30 && cap.async && !transparent then
      match cap.userRate
      case Ur300 => 6
      case Ur1200 => 7
      case Ur2400 => 8
      case Ur4800 => 9
      case Ur9600 => 10
      case UrOther => 0
    else if ra == RaV110X30 && !cap.async && transparent then
      match cap.userRate
      case Ur1200 => 11
      case Ur2400 => 12
      case Ur4800 => 13
      case Ur9600 => 14
      case _ => 0
    else 0
  }

  /** The user rate in bits per second, if it is one that services are known for. */
  function BitRate(r: UserRate): nat {
    match r
    case Ur300 => 300
    case Ur1200 => 1200
    case Ur2400 => 2400
    case Ur4800 => 4800
    case Ur9600 => 9600
    case UrOther => 0
  }

  /** A service has the access structure, the quality and the rate that the capability asks for; there is one exactly if
      V.110 is asked for or implied and the rate is known, but none that is synchronous and either not transparent or of
      300 bits per second. */
  lemma ServiceFits(cap: Capability, transparent: bool)
    ensures var b, rate := FromCapability(cap, transparent), BitRate(cap.userRate);
            && (Valid(b) <==>
                  && (cap.ra == RaV110X30 || (cap.ra == RaNone && cap.intermediateRate != IrUnset))
                  && rate != 0 && (cap.async || (transparent && rate != 300)))
            && (Valid(b) ==> IsAsync(b) == cap.async && IsTransparent(b) == transparent && Rate(b) == rate)
  {
  }

  /** No two services agree in all of these. */
  lemma ServiceUnique(a: Service, b: Service)
    requires Valid(a) && Valid(b) && IsAsync(a) == IsAsync(b) && IsTransparent(a) == IsTransparent(b)
    requires Rate(a) == Rate(b)
    ensures a == b
  {
  }

  /** What a capability asks for, in order of preference. */
  function Asked(cap: Capability): seq<Service> {
    var t, nt := FromCapability(cap, true), FromCapability(cap, false);
    match cap.transparency
    case TrTransparent => Known([t])
    case TrRlp => Known([nt])
    case TrTransparentPreferred => Known([t, nt])
    case TrRlpPreferred => Known([nt, t])
  }

  function Known(s: seq<Service>): seq<Service> {
    if s == [] then [] else (if Valid(s[0]) then [s[0]] else []) + Known(s[1..])
  }

  lemma KnownFew(a: Service, b: Service)
    ensures Known([a]) == if Valid(a) then [a] else []
    ensures Known([a, b]) == Known([a]) + Known([b])
  {
    assert [a, b][1..] == [b] && [a][1..] == [];
  }

  /** csd_bs_list_from_bearer_cap() */
  method ListFromCapability(cap: Capability) returns (list: List)
    ensures fresh(list) && fresh(list.bs) && list.Contents() == Asked(cap)
  {
    list := new List();
    var t, nt := FromCapability(cap, true), FromCapability(cap, false);
    TwoForms(cap);
    KnownFew(t, nt);
    KnownFew(nt, t);
    match cap.transparency {
      case TrTransparent => list.AddBs(t);
      case TrRlp => list.AddBs(nt);
      case TrTransparentPreferred =>
        list.AddBs(t);
        list.AddBs(nt);
      case TrRlpPreferred =>
        list.AddBs(nt);
        list.AddBs(t);
    }
  }

  /** The transparent and the non-transparent form of a capability are never the same service. */
  lemma TwoForms(cap: Capability)
    ensures Valid(FromCapability(cap, true)) ==> FromCapability(cap, true) != FromCapability(cap, false)
  {
  }

  // ---- Writing a capability ----

  /** The capability that asks for one service. */
  function CapabilityOf(b: Service, transfer: Transfer): Capability
    requires Valid(b)
  {
    var rates := match Rate(b)
                 case 300 => (Ur300, Ir8k)
                 case 1200 => (Ur1200, Ir8k)
                 case 2400 => (Ur2400, Ir8k)
                 case 4800 => (Ur4800, Ir8k)
                 case _ => (Ur9600, Ir16k);
    Capability(transfer, if transfer == UnrestrictedDigital then RaV110X30 else RaNone, IsAsync(b),
               if IsTransparent(b) then TrTransparent else TrRlp, rates.0, rates.1)
  }

  /** The capability names the rate of the service, and the smaller intermediate rate if that is wide enough for it. */
  lemma RatesWritten(b: Service, transfer: Transfer)
    requires Valid(b)
    ensures var cap := CapabilityOf(b, transfer);
            && BitRate(cap.userRate) == Rate(b) && cap.transfer == transfer
            && cap.intermediateRate == (if Rate(b) <= 4800 then Ir8k else Ir16k)
            && (cap.ra == RaV110X30 <==> transfer == UnrestrictedDigital)
  {
  }

  /** csd_bs_list_to_bearer_cap(): the first service that is one decides. */
  method ListToCapability(list: List, cap: Capability) returns (ok: bool, r: Capability)
    ensures ok == exists b :: b in list.Contents() && Valid(b)
    ensures !ok ==> r == cap
    ensures ok ==> exists i :: 0 <= i < |list.Contents()| && Valid(list.Contents()[i])
                     && (forall k :: 0 <= k < i ==> !Valid(list.Contents()[k]))
                     && r == CapabilityOf(list.Contents()[i], cap.transfer)
  {
    r := cap;
    for i := 0 to list.Size()
      invariant r == cap && forall k :: 0 <= k < i ==> !Valid(list.Contents()[k])
    {
      var b := list.bs[i];
      if !Valid(b) {
        continue;
      }
      r := r.(ra := if cap.transfer == UnrestrictedDigital then RaV110X30 else RaNone);
      r := r.(async := IsAsync(b));
      r := r.(transparency := if IsTransparent(b) then TrTransparent else TrRlp);
      match Rate(b) {
        case 300 => r := r.(userRate := Ur300, intermediateRate := Ir8k);
        case 1200 => r := r.(userRate := Ur1200, intermediateRate := Ir8k);
        case 2400 => r := r.(userRate := Ur2400, intermediateRate := Ir8k);
        case 4800 => r := r.(userRate := Ur4800, intermediateRate := Ir8k);
        case _ => r := r.(userRate := Ur9600, intermediateRate := Ir16k);
      }
      assert b == list.Contents()[i];
      return true, r;
    }
    ok := false;
  }

  /** A service written as a capability, whatever the transfer, is read back as that service alone. */
  lemma CapabilityRead(b: Service, transfer: Transfer)
    requires Valid(b)
    ensures Asked(CapabilityOf(b, transfer)) == [b]
  {
    assert FromCapability(CapabilityOf(b, transfer), IsTransparent(b)) == b;
    KnownFew(b, b);
  }

  /** A list goes over the wire as its first valid service. */
  method RoundTrip(list: List, cap: Capability) returns (ok: bool, back: List)
    ensures ok == exists b :: b in list.Contents() && Valid(b)
    ensures ok ==> exists i :: 0 <= i < |list.Contents()| && Valid(list.Contents()[i])
                     && (forall k :: 0 <= k < i ==> !Valid(list.Contents()[k]))
                     && back.Contents() == [list.Contents()[i]]
  {
    var r;
    ok, r := ListToCapability(list, cap);
    back := ListFromCapability(r);
    if ok {
      ghost var i :| 0 <= i < |list.Contents()| && Valid(list.Contents()[i])
               && (forall k :: 0 <= k < i ==> !Valid(list.Contents()[k]))
               && r == CapabilityOf(list.Contents()[i], cap.transfer);
      CapabilityRead(list.Contents()[i], cap.transfer);
    }
  }
}
