/** Which bearer services are left for a call (csd_filter.c). */
module BearerFilter {
  import opened BearerServices
  import Cap = BearerCapability

  /** The services that satisfy every constraint, in the order of the first list. */
  function Select(s: seq<Service>, constraints: seq<seq<Service>>): seq<Service> {
    if s == [] then []
    else (if forall c :: c in constraints ==> s[0] in c then [s[0]] else []) + Select(s[1..], constraints)
  }

  lemma {:induction false} SelectNone(s: seq<Service>)
    ensures Select(s, []) == s
  {
    if s != [] {
      SelectNone(s[1..]);
    }
  }

  /** Intersecting once more is one constraint more. */
  lemma {:induction false} SelectMore(s: seq<Service>, constraints: seq<seq<Service>>, more: seq<Service>)
    ensures Common(Select(s, constraints), more) == Select(s, constraints + [more])
  {
    if s != [] {
      SelectMore(s[1..], constraints, more);
      var rest := Select(s[1..], constraints);
      var passes := forall c :: c in constraints ==> s[0] in c;
      PassesMore(s[0], constraints, more);
      if passes {
        assert ([s[0]] + rest)[1..] == rest;
      } else {
        assert Select(s, constraints) == rest;
      }
    }
  }

  lemma PassesMore(b: Service, constraints: seq<seq<Service>>, more: seq<Service>)
    ensures (forall c :: c in constraints + [more] ==> b in c)
       <==> (forall c :: c in constraints ==> b in c) && b in more
  {
    assert more in constraints + [more];
    assert forall c :: c in constraints ==> c in constraints + [more];
  }

  /** The structure assignment of one list to another. */
  method Copy(from: List, to: List)
    requires from.bs != to.bs && from.bs.Length == to.bs.Length
    modifies to, to.bs
    ensures to.Contents() == from.Contents() && to.count == from.count
  {
    to.count := from.count;
    for i := 0 to from.bs.Length
      invariant to.bs[..i] == from.bs[..i] && to.count == from.count
    {
      to.bs[i] := from.bs[i];
    }
    assert to.bs[..] == from.bs[..];
  }

  method Reset(list: List)
    modifies list, list.bs
    ensures list.Contents() == [] && list.count == 0
  {
    list.count := 0;
    for i := 0 to list.bs.Length
      invariant list.count == 0
    {
      list.bs[i] := 0;
    }
  }

  datatype Rat = GeranA | UtranIu | OtherRat

  const GSM_R: seq<Service> := [3, 4, 5]
  const OTHER_T: seq<Service> := [1, 2]
  const ASYNC_NT: seq<Service> := [6, 7, 8, 9, 10]
  const SYNC_T: seq<Service> := [11, 12, 13, 14]

  /** What is offered over an access network, in order of preference. */
  function Offered(rat: Rat): seq<Service> {
    if rat == UtranIu then ASYNC_NT else GSM_R + OTHER_T + ASYNC_NT + SYNC_T
  }

  predicate Distinct(s: seq<Service>) {
    forall i, j :: 0 <= i < j < |s| ==> s[i] != s[j]
  }

  /** Adds services one by one. */
  method AddEach(list: List, services: seq<Service>)
    requires list.bs.Length == MAX && list.count + |services| <= MAX
    requires Distinct(list.Contents() + services) && forall b :: b in services ==> Valid(b)
    modifies list, list.bs
    ensures list.Contents() == old(list.Contents()) + services
    ensures list.count == old(list.count) + |services|
  {
    ghost var before := list.Contents();
    for i := 0 to |services|
      invariant list.count == old(list.count) + i
      invariant list.Contents() == before + services[..i]
    {
      assert services[i] !in list.Contents() by {
        assert (before + services)[|before| + i] == services[i];
        assert list.Contents() == (before + services)[..|before| + i];
      }
      list.AddBs(services[i]);
      assert services[..i + 1] == services[..i] + [services[i]];
      assert |list.Contents()| == |before| + i + 1;
    }
    assert services[..|services|] == services;
  }

  lemma OfferedFine()
    ensures Distinct(Offered(GeranA)) && Distinct(Offered(UtranIu))
    ensures |Offered(GeranA)| == 14 && |Offered(UtranIu)| == 5
    ensures forall b: Service :: b in Offered(GeranA) <==> Valid(b)
    ensures forall b: Service :: b in Offered(UtranIu) ==> Valid(b)
  {
    assert Offered(GeranA) == [3, 4, 5, 1, 2, 6, 7, 8, 9, 10, 11, 12, 13, 14];
  }

  /** Which services come first: those of GSM-R, the other transparent ones, the non-transparent ones, the synchronous. */
  function Preference(b: Service): nat
    requires Valid(b)
  {
    if !Cap.IsAsync(b) then 3
    else if !Cap.IsTransparent(b) then 2
    else if Cap.Rate(b) < 2400 then 1
    else 0
  }

  /** First by preference, then by rate. */
  function Rank(b: Service): nat
    requires Valid(b)
  {
    10000 * Preference(b) + Cap.Rate(b)
  }

  ghost predicate Ranked(s: seq<Service>) {
    && (forall b :: b in s ==> Valid(b))
    && forall i :: 0 <= i < |s| - 1 ==> Rank(s[i]) < Rank(s[i + 1])
  }

  lemma RankedTransparent()
    ensures Ranked(GSM_R) && Ranked(OTHER_T) && Ranked(SYNC_T)
  {
  }

  lemma RankedOther()
    ensures Ranked(ASYNC_NT)
  {
  }

  lemma RankedEnds()
    ensures Rank(5) < Rank(1) && Rank(2) < Rank(6) && Rank(10) < Rank(11)
  {
  }

  lemma RankedAppend(s: seq<Service>, t: seq<Service>)
    requires Ranked(s) && Ranked(t) && s != [] && t != [] && Rank(s[|s| - 1]) < Rank(t[0])
    ensures Ranked(s + t)
  {
    hide Rank;
    var all := s + t;
    forall i | 0 <= i < |all| - 1
      ensures Rank(all[i]) < Rank(all[i + 1])
    {
    }
  }

  /** Over UTRAN exactly the asynchronous non-transparent services are offered, over anything else all; in order of
      preference, and then of rate. */
  lemma OfferedRanked(rat: Rat)
    ensures Ranked(Offered(rat))
    ensures forall b: Service :: b in Offered(rat) <==>
              Valid(b) && (rat == UtranIu ==> Cap.IsAsync(b) && !Cap.IsTransparent(b))
  {
    OfferedFine();
    hide Ranked, Rank;
    RankedTransparent();
    RankedOther();
    RankedEnds();
    RankedAppend(GSM_R, OTHER_T);
    RankedAppend(GSM_R + OTHER_T, ASYNC_NT);
    RankedAppend(GSM_R + OTHER_T + ASYNC_NT, SYNC_T);
  }

  /** csd_filter_set_ran(): every service there is, or the ones of UTRAN. */
  method SetRan(list: List, rat: Rat)
    requires list.bs.Length == MAX
    modifies list, list.bs
    ensures list.Contents() == Offered(rat)
  {
    Reset(list);
    OfferedFine();
    assert [] + Offered(rat) == Offered(rat);
    AddEach(list, Offered(rat));
  }

  /** The constraint of a list that may be unusable. */
  function Constraint(list: List): seq<seq<Service>>
    reads list, list.bs
  {
    if list.Sane() then [list.Contents()] else []
  }

  method Narrow(result: List, limit: List, ghost s: seq<Service>, ghost constraints: seq<seq<Service>>)
    requires result != limit && result.bs != limit.bs && result.Contents() == Select(s, constraints)
    modifies result, result.bs
    ensures result.Contents() == Select(s, constraints + Constraint(limit))
  {
    if limit.Sane() {
      SelectMore(s, constraints, limit.Contents());
      result.Intersection(limit);
    } else {
      assert constraints + [] == constraints;
    }
  }

  /** csd_filter_run(): without an assigned service, the services of the access network that the mobile station, the
      base station and the remote side all know, as far as these are known; else the assigned one. */
  method Run(ran: List, ms: List, bss: List, assignment: Service, remote: List, result: List)
    requires result !in {ran, ms, bss, remote} && result.bs !in {ran.bs, ms.bs, bss.bs, remote.bs}
    requires ran.bs.Length == MAX && result.bs.Length == MAX
    modifies result, result.bs
    ensures assignment == 0 ==>
      result.Contents() == Select(ran.Contents(), Constraint(ms) + Constraint(bss) + Constraint(remote))
    ensures assignment != 0 ==> result.Contents() == if Valid(assignment) then [assignment] else []
  {
    Copy(ran, result);
    ghost var s := ran.Contents();
    SelectNone(s);
    Narrow(result, ms, s, []);
    assert [] + Constraint(ms) == Constraint(ms);
    Narrow(result, bss, s, Constraint(ms));
    Narrow(result, remote, s, Constraint(ms) + Constraint(bss));
    if assignment != 0 {
      Reset(result);
      result.AddBs(assignment);
    }
  }
}
