/** Lists of circuit-switched data bearer services (csd_bs.c, csd_filter.c) and their form as bearer capability. */
module BearerServices {

  /** An entry of enum csd_bs, or whatever else a list may hold. */
  type Service = nat

  /** CSD_BS_MAX: 0 is no service and 1 to 14 are services. */
  const MAX: nat := 15

  /** csd_bs_valid() */
  predicate Valid(b: Service) {
    0 < b < MAX
  }

  // ---- Lists as values ----

  /** The elements of a list that another one has, in their order. */
  function Common(s: seq<Service>, other: seq<Service>): (r: seq<Service>)
  {
    if s == [] then [] else (if s[0] in other then [s[0]] else []) + Common(s[1..], other)
  }

  lemma {:induction false} CommonMembers(s: seq<Service>, other: seq<Service>, b: Service)
    ensures b in Common(s, other) <==> b in s && b in other
  {
    if s != [] {
      CommonMembers(s[1..], other, b);
    }
  }

  lemma {:induction false} CommonAppend(s: seq<Service>, t: seq<Service>, other: seq<Service>)
    ensures Common(s + t, other) == Common(s, other) + Common(t, other)
  {
    if s == [] {
      assert s + t == t;
    } else {
      CommonAppend(s[1..], t, other);
      assert (s + t)[1..] == s[1..] + t;
      var first := if s[0] in other then [s[0]] else [];
      assert Common(s + t, other) == first + Common(s[1..] + t, other);
      assert first + (Common(s[1..], other) + Common(t, other)) == (first + Common(s[1..], other)) + Common(t, other);
    }
  }

  lemma {:induction false} CommonAll(s: seq<Service>, other: seq<Service>)
    requires forall b :: b in s ==> b in other
    ensures Common(s, other) == s
  {
    if s != [] {
      CommonAll(s[1..], other);
    }
  }

  // ---- Lists in place ----

  /** struct csd_bs_list; the count may be out of bounds. */
  class List {
    var count: nat
    const bs: array<Service>

    constructor ()
      ensures fresh(bs) && bs.Length == MAX && Contents() == []
    {
      count := 0;
      bs := new Service[MAX](_ => 0);
    }

    /** csd_bs_list_n() */
    function Size(): (n: nat)
      reads this
      ensures n <= bs.Length && n <= count
    {
      if count > bs.Length then bs.Length else count
    }

    function Contents(): seq<Service>
      reads this, bs
    {
      bs[..Size()]
    }

    /** csd_bs_list_is_sane() */
    predicate Sane()
      reads this
    {
      0 < count <= bs.Length
    }

    /** csd_bs_list_clamp() */
    method Clamp() returns (n: nat)
      modifies `count
      ensures n == count == old(Size()) && Contents() == old(Contents())
    {
      n := Size();
      if count != n {
        count := n;
      }
    }

    /** csd_bs_list_has_bs() */
    method HasBs(b: Service) returns (has: bool)
      ensures has == (b in Contents())
    {
      for i := 0 to Size()
        invariant b !in bs[..i]
      {
        if bs[i] == b {
          return true;
        }
      }
      has := false;
    }

    /** csd_bs_list_add_bs() */
    method AddBs(b: Service)
      modifies this, bs
      ensures Contents() ==
        if Valid(b) && b !in old(Contents()) && old(Size()) < bs.Length then old(Contents()) + [b] else old(Contents())
      ensures old(count) <= bs.Length ==> count <= bs.Length
    {
      if !Valid(b) {
        return;
      }
      var n := Clamp();
      var has := HasBs(b);
      if has || n >= bs.Length {
        return;
      }
      bs[n] := b;
      count := n + 1;
    }

    /** csd_bs_list_remove(): the first such element goes and all behind it move up. */
    method Remove(b: Service)
      modifies this, bs
      ensures b !in old(Contents()) ==> Contents() == old(Contents()) && count == old(Size())
      ensures forall k :: 0 <= k < old(Size()) && old(bs[k]) == b && b !in old(bs[..k]) ==>
        && Contents() == old(Contents())[..k] + old(Contents())[k + 1..]
        && count == old(Size()) - 1
    {
      var n := Clamp();
      var found := false;
      ghost var at := 0;
      for i := 0 to n
        invariant count == n == old(Size())
        invariant !found ==> bs[..n] == old(bs[..Size()]) && b !in bs[..i]
        invariant found ==> at < i && old(bs[at]) == b && b !in old(bs[..at])
        invariant found ==> forall k :: 0 <= k < n ==>
          bs[k] == if at <= k < i && k + 1 < n then old(bs[k + 1]) else old(bs[k])
      {
        if bs[i] == b {
          if !found {
            at := i;
          }
          found := true;
        }
        if found && i + 1 < n {
          bs[i] := bs[i + 1];
        }
      }
      if found {
        count := n - 1;
        assert Contents() == old(Contents())[..at] + old(Contents())[at + 1..];
      }
    }

    /** csd_bs_list_intersection(), duplicates or not. */
    method Intersection(other: List)
      requires other != this && other.bs != bs
      modifies this, bs
      ensures Contents() == Common(old(Contents()), other.Contents())
      ensures count <= bs.Length
    {
      hide Common;
      var _ := Clamp();
      ghost var theirs := other.Contents();
      var i := 0;
      while i < count
        invariant 0 <= i <= count <= bs.Length
        invariant other.Contents() == theirs
        invariant forall k :: 0 <= k < i ==> Contents()[k] in theirs
        invariant Common(Contents(), theirs) == Common(old(Contents()), theirs)
        decreases count - i
      {
        var has := other.HasBs(bs[i]);
        if has {
          i := i + 1;
        } else {
          ghost var now := Contents();
          SkipOne(now, i, theirs);
          assert bs[i] !in bs[..i];
          Remove(bs[i]);
          assert Contents() == now[..i] + now[i + 1..];
          assert forall k :: 0 <= k < i ==> bs[k] == Contents()[k] == now[k];
        }
      }
      CommonAll(Contents(), theirs);
    }
  }

  lemma SkipOne(s: seq<Service>, i: nat, other: seq<Service>)
    requires i < |s| && s[i] !in other
    ensures Common(s[..i] + s[i + 1..], other) == Common(s, other)
  {
    var rest := s[i..];
    assert rest[0] == s[i] && rest[1..] == s[i + 1..];
    CommonAppend(s[..i], s[i + 1..], other);
    CommonAppend(s[..i], rest, other);
    assert s == s[..i] + rest;
  }
}
