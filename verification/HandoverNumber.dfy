/** Handover numbers: the cyclic search of msc_t.c for a number of the configured range that no MSC-T role holds. */
module HandoverNumber {
  import opened Decimal

  const UINT64: nat := 0x1_0000_0000_0000_0000

  type Uint64 = x: int | 0 <= x < UINT64

  /** ho_nr_str[] has room for fifteen digits. */
  const MSISDN_MAX_DIGITS: nat := 15

  datatype Result = Done | NoEntry | Invalid

  /** The MSC-T role; an empty string means that it holds no number. */
  class Target {
    var number: string

    constructor ()
      ensures number == ""
    {
      number := "";
    }
  }

  ghost predicate Held(targets: seq<Target>, n: nat)
    reads targets
  {
    exists i :: 0 <= i < |targets| && targets[i].number == Print(n)
  }

  ghost predicate AllHeld(targets: seq<Target>, start: nat, end: nat)
    reads targets
  {
    forall n: nat :: start <= n <= end ==> Held(targets, n)
  }

  /** As many strings as there are numbers are needed to hold them all. */
  lemma {:induction false} Pigeonhole(held: seq<string>, start: nat, end: nat)
    requires start <= end && forall n: nat :: start <= n <= end ==> Print(n) in held
    ensures end - start < |held|
    decreases |held|
  {
    assert Print(end) in held;
    var i :| 0 <= i < |held| && held[i] == Print(end);
    if start < end {
      var rest := held[..i] + held[i + 1..];
      forall n: nat | start <= n <= end - 1
        ensures Print(n) in rest
      {
        if Print(n) == Print(end) {
          PrintInjective(n, end);
        }
        var j :| 0 <= j < |held| && held[j] == Print(n);
        assert rest[if j < i then j else j - 1] == held[j];
      }
      Pigeonhole(rest, start, end - 1);
    }
  }

  /** If all numbers of a range are held, there are as many roles. */
  lemma AllHeldNeedsAll(targets: seq<Target>, start: nat, end: nat)
    requires start <= end && AllHeld(targets, start, end)
    ensures end - start < |targets|
  {
    hide Print;
    var held := seq(|targets|, i requires 0 <= i < |targets| reads targets => targets[i].number);
    forall n: nat | start <= n <= end
      ensures Print(n) in held
    {
      assert Held(targets, n);
      var i :| 0 <= i < |targets| && targets[i].number == Print(n);
      assert held[i] == Print(n);
    }
    Pigeonhole(held, start, end);
  }

  class Numbers {
    var rangeStart: Uint64
    var rangeEnd: Uint64
    var next: Uint64
    var targets: seq<Target>   // the MSC-T roles of msub_list

    constructor ()
      ensures Valid() && targets == []
    {
      rangeStart, rangeEnd, next, targets := 0, 0, 0, [];
    }

    /** No two roles hold the same number. */
    ghost predicate Valid()
      reads this, targets
    {
      && rangeStart <= rangeEnd
      && (forall i, j :: 0 <= i < j < |targets| ==> targets[i] != targets[j])
      && (forall i, j :: 0 <= i < j < |targets| && targets[i].number != "" ==> targets[i].number != targets[j].number)
    }

    /** handover-number range: the configuration refuses an inverted range. */
    method SetRange(start: Uint64, end: Uint64) returns (ok: bool)
      requires Valid()
      modifies this
      ensures Valid() && ok == (start <= end) && targets == old(targets) && next == old(next)
      ensures ok ==> rangeStart == start && rangeEnd == end
      ensures !ok ==> unchanged(this)
    {
      if start > end {
        return false;
      }
      rangeStart, rangeEnd := start, end;
      ok := true;
    }

    method NewTarget() returns (t: Target)
      requires Valid()
      modifies `targets
      ensures Valid() && fresh(t) && targets == old(targets) + [t] && t.number == ""
    {
      t := new Target();
      targets := targets + [t];
    }

    /** A role that ends gives its number back. */
    method RemoveTarget(i: nat)
      requires Valid() && i < |targets|
      modifies `targets
      ensures Valid() && targets == old(targets)[..i] + old(targets)[i + 1..]
    {
      targets := targets[..i] + targets[i + 1..];
    }

    /** msc_t_find_by_handover_number() */
    method FindByNumber(number: string) returns (t: Target?)
      ensures t != null ==> t in targets && t.number == number && number != ""
      ensures t == null ==> forall i :: 0 <= i < |targets| && number != "" ==> targets[i].number != number
    {
      for i := 0 to |targets|
        invariant forall k :: 0 <= k < i && number != "" ==> targets[k].number != number
      {
        if targets[i].number != "" && targets[i].number == number {
          return targets[i];
        }
      }
      t := null;
    }

    /** net_handover_number_next(), with the wrap-around of its 64-bit counter. */
    method NextNumber() returns (n: Uint64)
      requires rangeStart <= rangeEnd
      modifies `next
      ensures n == if rangeStart <= old(next) <= rangeEnd then old(next) else rangeStart
      ensures rangeStart <= n <= rangeEnd && next == (n + 1) % UINT64
    {
      if next < rangeStart || next > rangeEnd {
        next := rangeStart;
      }
      n := next;
      next := (next + 1) % UINT64;
    }

    /** The numbers that a search which began at one number and came to another has passed. */
    static ghost predicate Passed(n: nat, started: nat, at: nat) {
      if at > started then started <= n < at else started <= n || n < at
    }

    /** The search of msc_t_assign_handover_number(): the first number from the start of the search on, around the
        range once, that nobody holds. */
    method Search(started: Uint64) returns (found: bool, n: Uint64)
      requires Valid() && rangeStart <= started <= rangeEnd && next == (started + 1) % UINT64
      modifies `next
      ensures found ==> rangeStart <= n <= rangeEnd && !Held(targets, n) && |Print(n)| <= MSISDN_MAX_DIGITS
      ensures !found ==>
        || AllHeld(targets, rangeStart, rangeEnd)
        || (rangeStart <= n <= rangeEnd && |Print(n)| > MSISDN_MAX_DIGITS)
    {
      hide Print;
      n := started;
      var first := true;
      while first || n != started
        invariant rangeStart <= n <= rangeEnd && next == (n + 1) % UINT64
        invariant first ==> n == started
        invariant !first ==> forall m :: rangeStart <= m <= rangeEnd && Passed(m, started, n) ==> Held(targets, m)
        decreases if first then rangeEnd - rangeStart + 2
                  else if n > started then rangeEnd - n + 1 + started - rangeStart else started - n
      {
        first := false;
        var number := Print(n);
        if |number| > MSISDN_MAX_DIGITS {
          return false, n;
        }
        var holder := FindByNumber(number);
        if holder == null {
          return true, n;
        }
        n := NextNumber();
      }
      found := false;
    }

    method Assign(t: Target) returns (r: Result)
      requires Valid() && t in targets
      modifies `next, t
      ensures Valid()
      ensures r == Done ==> exists n :: rangeStart <= n <= rangeEnd && !old(Held(targets, n)) && t.number == Print(n)
      ensures r != Done ==> t.number == old(t.number)
      ensures r == NoEntry <==> rangeStart == 0 && (old(next) == 0 || old(next) > rangeEnd)
      ensures rangeStart >= 1 && rangeEnd < Pow10(MSISDN_MAX_DIGITS) ==>
        (r == Done <==> !old(AllHeld(targets, rangeStart, rangeEnd)))
      ensures rangeStart >= 1 && rangeEnd < Pow10(MSISDN_MAX_DIGITS) && |targets| <= rangeEnd - rangeStart ==> r == Done
    {
      hide Pow10;
      if AllHeld(targets, rangeStart, rangeEnd) {
        AllHeldNeedsAll(targets, rangeStart, rangeEnd);
      }
      var started := NextNumber();
      if started == 0 {
        return NoEntry;
      }
      var found, n := Search(started);
      if !found {
        if n <= rangeEnd < Pow10(MSISDN_MAX_DIGITS) {
          PrintLength(n, MSISDN_MAX_DIGITS);
        }
        return Invalid;
      }
      assert !old(Held(targets, n));
      t.number := Print(n);
      r := Done;
    }
  }
}
