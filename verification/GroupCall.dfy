/** Group call registers: which configured group a call reference belongs to (asci_gcr.c). */
module GroupCall {
  import opened Options
  import opened Bytes
  import opened Decimal

  /** Every 32-bit number has at most ten digits. */
  const CALLREF_DIGITS: nat := 10

  datatype TransType = Gcc | Bcc

  datatype Gcr = Gcr(transType: TransType, groupId: string)

  /** valid_group_id() */
  predicate ValidGroupId(id: string) {
    1 <= |id| <= 8 && AllDigits(id)
  }

  /** Every register has a valid identity that no other one of its type has. */
  ghost predicate WellFormed(lists: seq<Gcr>) {
    && (forall g :: g in lists ==> ValidGroupId(g.groupId))
    && (forall i, j :: 0 <= i < j < |lists| ==> lists[i] != lists[j])
  }

  /** The digits of the identity are the last digits of the call reference. */
  predicate IsSuffix(id: string, callref: Uint32)
    requires |id| <= CALLREF_DIGITS
  {
    Padded(callref, CALLREF_DIGITS)[CALLREF_DIGITS - |id|..] == id
  }

  /** Ten digits show the whole call reference. */
  lemma PaddedWhole(callref: Uint32)
    ensures Value(Padded(callref, CALLREF_DIGITS)) == callref
  {
    hide Padded, Value;
    PaddedValue(callref, CALLREF_DIGITS);
    PowerTable(8);
    assert Pow10(10) == 100 * Pow10(8);
  }

  /** Comparing the remainder with the number that the identity spells is comparing digits. */
  lemma RemainderIsSuffix(id: string, callref: Uint32)
    requires AllDigits(id) && |id| <= CALLREF_DIGITS
    ensures Value(id) == callref % Pow10(|id|) <==> IsSuffix(id, callref)
  {
    hide Padded, Value, Pow10;
    PaddedSuffix(callref, CALLREF_DIGITS, |id|);
    PaddedValue(callref, |id|);
    ValuePadded(id);
    ValuePadded(Padded(callref, |id|));
  }

  /** The group that a call reference belongs to: of the right type, a suffix, and longer than every other such. */
  ghost predicate Best(lists: seq<Gcr>, transType: TransType, callref: Uint32, r: Option<Gcr>)
    requires WellFormed(lists)
  {
    match r
    case None => forall g :: g in lists && g.transType == transType ==> !IsSuffix(g.groupId, callref)
    case Some(best) =>
      && best in lists && best.transType == transType && IsSuffix(best.groupId, callref)
      && forall g :: g in lists && g.transType == transType && IsSuffix(g.groupId, callref) && g != best ==>
           |g.groupId| < |best.groupId|
  }

  /** There is only one such group, in whatever order the registers are listed. */
  lemma BestUnique(lists: seq<Gcr>, lists': seq<Gcr>, transType: TransType, callref: Uint32,
                   r: Option<Gcr>, r': Option<Gcr>)
    requires WellFormed(lists) && WellFormed(lists') && (forall g :: g in lists <==> g in lists')
    requires Best(lists, transType, callref, r) && Best(lists', transType, callref, r')
    ensures r == r'
  {
    hide IsSuffix;
  }

  /** pow10[] */
  method Power(l: nat) returns (p: nat)
    requires l < 9
    ensures p == Pow10(l)
  {
    p := [1, 10, 100, 1000, 10000, 100000, 1000000, 10000000, 100000000][l];
    PowerTable(l);
  }

  lemma PowerTable(l: nat)
    requires l < 9
    ensures Pow10(l) == [1, 10, 100, 1000, 10000, 100000, 1000000, 10000000, 100000000][l]
  {
    if l > 0 {
      PowerTable(l - 1);
    }
  }

  /** atoi() on an identity, digit by digit. */
  method Atoi(id: string) returns (n: nat)
    requires AllDigits(id)
    ensures n == Value(id)
  {
    n := 0;
    for i := 0 to |id|
      invariant n == Value(id[..i])
    {
      assert id[..i + 1][..i] == id[..i];
      n := 10 * n + DigitValue(id[i]);
    }
    assert id[..|id|] == id;
  }

  /** gsmnet->asci.gcr_lists */
  class Registers {
    var lists: seq<Gcr>

    constructor ()
      ensures lists == [] && WellFormed(lists)
    {
      lists := [];
    }

    /** gcr_by_group_id() */
    method ByGroupId(transType: TransType, groupId: string) returns (r: Option<Gcr>)
      ensures r == if Gcr(transType, groupId) in lists then Some(Gcr(transType, groupId)) else None
    {
      for i := 0 to |lists|
        invariant Gcr(transType, groupId) !in lists[..i]
      {
        if lists[i].transType == transType && lists[i].groupId == groupId {
          return Some(lists[i]);
        }
      }
      r := None;
    }

    /** The commands vgc and vbc: a valid identity is looked up, and created if it is new. */
    method Configure(transType: TransType, groupId: string) returns (ok: bool)
      requires WellFormed(lists)
      modifies this
      ensures WellFormed(lists) && ok == ValidGroupId(groupId)
      ensures lists == if ok && Gcr(transType, groupId) !in old(lists)
                       then old(lists) + [Gcr(transType, groupId)] else old(lists)
    {
      if !ValidGroupId(groupId) {
        return false;
      }
      var found := ByGroupId(transType, groupId);
      if found == None {
        lists := lists + [Gcr(transType, groupId)];
      }
      ok := true;
    }

    /** The commands no vgc and no vbc. */
    method Destroy(i: nat)
      requires WellFormed(lists) && i < |lists|
      modifies this
      ensures WellFormed(lists) && lists == old(lists)[..i] + old(lists)[i + 1..]
    {
      lists := lists[..i] + lists[i + 1..];
    }

    /** gcr_by_callref() */
    method ByCallref(transType: TransType, callref: Uint32) returns (r: Option<Gcr>)
      requires WellFormed(lists)
      ensures Best(lists, transType, callref, r)
    {
      hide IsSuffix;
      r := None;
      var mostSpecific := 0;
      for i := 0 to |lists|
        invariant mostSpecific == if r.Some? then |r.value.groupId| else 0
        invariant r.Some? ==>
          r.value in lists[..i] && r.value.transType == transType && IsSuffix(r.value.groupId, callref)
        invariant forall k :: 0 <= k < i && lists[k].transType == transType && IsSuffix(lists[k].groupId, callref) ==>
          |lists[k].groupId| <= mostSpecific
      {
        var g := lists[i];
        var l := |g.groupId|;
        var a := Atoi(g.groupId);
        var p := Power(l);
        var b := callref % p;
        RemainderIsSuffix(g.groupId, callref);
        if g.transType == transType && a == b && l > mostSpecific {
          r := Some(g);
          mostSpecific := l;
        }
      }
      SameLengthSame(lists, transType, callref, r);
    }
  }

  /** Two suffixes of one length are one. */
  lemma SameLengthSame(lists: seq<Gcr>, transType: TransType, callref: Uint32, r: Option<Gcr>)
    requires WellFormed(lists)
    requires r.Some? ==> r.value in lists && r.value.transType == transType && IsSuffix(r.value.groupId, callref)
    requires forall g :: g in lists && g.transType == transType && IsSuffix(g.groupId, callref) ==>
      |g.groupId| <= if r.Some? then |r.value.groupId| else 0
    ensures Best(lists, transType, callref, r)
  {
  }
}
