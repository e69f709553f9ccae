/** flow_get() of msc_iptrace.c: a table of sixteen flows, the oldest slot reused first. */
module Flows {
  import opened Bytes
  import opened IpHeader
  import opened Transport

  const SLOTS := 16

  class FlowTable {
    const flows: array<Flow>
    var next: Uint32

    constructor (ep: Endpoints)
      ensures Valid() && fresh(flows) && next == 0
      ensures forall i :: 0 <= i < SLOTS ==> fresh(flows[i]) && !flows[i].used
    {
      var first := new Flow(ep);
      flows := new Flow[SLOTS](_ => first);
      next := 0;
      new;
      for k := 0 to SLOTS
        invariant next == 0 && forall i :: 0 <= i < SLOTS ==> fresh(flows[i])
        invariant forall i :: 0 <= i < SLOTS ==> flows[i].Valid() && !flows[i].used
        invariant forall i, j :: 0 <= i < j < k ==> flows[i] != flows[j]
      {
        var f := new Flow(ep);
        flows[k] := f;
      }
    }

    ghost predicate Distinct()
      reads flows
    {
      flows.Length == SLOTS && forall i, j :: 0 <= i < j < SLOTS ==> flows[i] != flows[j]
    }

    /** No socket has two flows, so its counters never fork. */
    ghost predicate Valid()
      reads flows, set f | f in flows[..]
    {
      && Distinct()
      && (forall i :: 0 <= i < SLOTS ==> flows[i].Valid())
      && (forall i, j :: 0 <= i < j < SLOTS && flows[i].used && flows[j].used ==>
            flows[i].fd != flows[j].fd || flows[i].ep != flows[j].ep)
    }

    ghost predicate Holds(i: nat, fd: int, ep: Endpoints)
      requires i < flows.Length
      reads flows, flows[i]
    {
      flows[i].used && flows[i].fd == fd && flows[i].ep == ep
    }

    /** TSN and stream sequence number of the next packet on a socket; one without a flow starts at 1 and 0. */
    ghost function Upcoming(fd: int, ep: Endpoints, dir: nat): (Uint32, Uint16)
      requires Valid() && dir < 2
      reads flows, set f | f in flows[..]
    {
      if exists i :: 0 <= i < SLOTS && Holds(i, fd, ep) then
        var i :| 0 <= i < SLOTS && Holds(i, fd, ep);
        (flows[i].next[dir], flows[i].ssn[dir])
      else (1, 0)
    }

    lemma UpcomingOf(f: Flow, fd: int, ep: Endpoints, dir: nat)
      requires Valid() && dir < 2 && exists i :: 0 <= i < SLOTS && f == flows[i] && Holds(i, fd, ep)
      ensures Upcoming(fd, ep, dir) == (f.next[dir], f.ssn[dir])
    {
    }

    /** The flow of a socket: its own if it has one, which is then left alone; otherwise the next slot in turn,
        with both counters starting at 1 and stream sequence numbers at 0. */
    method FlowGet(fd: int, ep: Endpoints) returns (f: Flow)
      requires Valid()
      modifies `next, set f | f in flows[..]
      ensures Valid()
      ensures exists i :: 0 <= i < SLOTS && f == flows[i] && Holds(i, fd, ep)
      ensures if old(exists i :: 0 <= i < SLOTS && Holds(i, fd, ep)) then
                next == old(next) && forall i :: 0 <= i < SLOTS ==> unchanged(flows[i])
              else
                && f == flows[old(next) % SLOTS] && next == Next32(old(next))
                && f.next == [1, 1] && f.ssn == [0, 0]
                && forall i :: 0 <= i < SLOTS && flows[i] != f ==> unchanged(flows[i])
    {
      for i := 0 to SLOTS
        invariant forall j :: 0 <= j < i ==> !Holds(j, fd, ep)
      {
        f := flows[i];
        if f.used && f.fd == fd && f.ep == ep {
          assert Holds(i, fd, ep);
          return;
        }
      }
      var slot := next % SLOTS;
      f := flows[slot];
      next := Next32(next);
      label before:
      f.used, f.fd, f.ep, f.next, f.ssn := true, fd, ep, [1, 1], [0, 0];
      assert Holds(slot, fd, ep);
      forall i | 0 <= i < SLOTS && i != slot
        ensures flows[i] != f && !Holds(i, fd, ep)
      {
        assert !old@before(Holds(i, fd, ep));
      }
    }
  }
}
