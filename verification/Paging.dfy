/** Paging requests of subscribers, as paging.c queues, joins and concludes them. */
module Paging {
  import opened Options

  /** struct paging_request; it may come without a callback. */
  datatype Request = Request(id: nat, hasCallback: bool)

  /** A callback that was called, with a connection or without one. */
  datatype Call = Call(id: nat, success: bool)

  /** The callbacks of a queue, in its order. */
  function Calls(requests: seq<Request>, success: bool): seq<Call> {
    if requests == [] then []
    else (if requests[0].hasCallback then [Call(requests[0].id, success)] else []) + Calls(requests[1..], success)
  }

  function Ids(requests: seq<Request>): set<nat> {
    set r | r in requests :: r.id
  }

  function Called(calls: seq<Call>): set<nat> {
    set c | c in calls :: c.id
  }

  predicate Distinct(requests: seq<Request>) {
    forall i, j :: 0 <= i < j < |requests| ==> requests[i].id != requests[j].id
  }

  predicate CalledOnce(calls: seq<Call>) {
    forall i, j :: 0 <= i < j < |calls| ==> calls[i].id != calls[j].id
  }

  lemma {:induction false} CallsOnce(requests: seq<Request>, success: bool)
    requires Distinct(requests)
    ensures CalledOnce(Calls(requests, success)) && Called(Calls(requests, success)) <= Ids(requests)
  {
    if requests != [] {
      var rest := requests[1..];
      CallsOnce(rest, success);
      var tail := Calls(rest, success);
      forall c | c in tail
        ensures c.id != requests[0].id && c.id in Ids(requests)
      {
        assert c.id in Called(tail) && c.id in Ids(rest);
      }
      assert requests[0] in requests;
    }
  }

  /** Exactly the requests that have a callback are called, with the outcome. */
  lemma {:induction false} CallsExactly(requests: seq<Request>, success: bool, c: Call)
    ensures c in Calls(requests, success) <==> c.success == success && Request(c.id, true) in requests
  {
    if requests != [] {
      CallsExactly(requests[1..], success, c);
      assert requests == [requests[0]] + requests[1..];
    }
  }

  /** A queue is called back in its order, however it is split. */
  lemma {:induction false} CallsInOrder(a: seq<Request>, b: seq<Request>, success: bool)
    ensures Calls(a + b, success) == Calls(a, success) + Calls(b, success)
  {
    hide Calls;
    if a == [] {
      NoCalls(success);
      assert a + b == b;
    } else {
      CallsInOrder(a[1..], b, success);
      assert (a + b)[1..] == a[1..] + b;
      CallsFirst(a, success);
      CallsFirst(a + b, success);
    }
  }

  /** The paging part of struct vlr_subscr. */
  class Subscriber {
    var requests: seq<Request>
    var isPaging: bool
    var tokens: nat          // uses named VSUB_USE_PAGING
    var timer: bool          // paging_response_timer is pending

    constructor ()
      ensures requests == [] && !isPaging && tokens == 0 && !timer
    {
      requests, isPaging, tokens, timer := [], false, 0, false;
    }

    /** One token while paging and none otherwise; requests wait only while paging. */
    ghost predicate Ok()
      reads this
    {
      && tokens == (if isPaging then 1 else 0)
      && (requests != [] ==> isPaging)
      && (timer ==> isPaging)
      && Distinct(requests)
    }
  }

  /** Moves one queue to the end of the other, request by request. */
  method MoveAll(keep: Subscriber, discard: Subscriber)
    requires keep != discard
    modifies keep`requests, discard`requests
    ensures keep.requests == old(keep.requests) + old(discard.requests) && discard.requests == []
  {
    while discard.requests != []
      invariant keep.requests + discard.requests == old(keep.requests) + old(discard.requests)
      decreases |discard.requests|
    {
      var request := discard.requests[0];
      discard.requests := discard.requests[1..];
      keep.requests := keep.requests + [request];
    }
  }

  /** The requests move, one subscriber begins to page if it has any, and the other one stops. */
  method Merge(keep: Subscriber, discard: Subscriber)
    requires keep != discard && keep.Ok() && discard.Ok() && discard.isPaging
    requires Distinct(keep.requests + discard.requests)
    modifies keep, discard
    ensures keep.Ok() && discard.Ok()
    ensures keep.requests == old(keep.requests) + old(discard.requests) && discard.requests == []
    ensures keep.isPaging == (old(keep.isPaging) || old(discard.requests) != []) && keep.timer == old(keep.timer)
    ensures !discard.isPaging && !discard.timer
  {
    hide Distinct;
    NoIds();
    MoveAll(keep, discard);
    if !keep.isPaging && keep.requests != [] {
      keep.tokens := keep.tokens + 1;
      keep.isPaging := true;
    }
    discard.isPaging := false;
    discard.timer := false;
    discard.tokens := discard.tokens - 1;
  }

  lemma NoCalls(success: bool)
    ensures Calls([], success) == []
  {
  }

  lemma CallsFirst(requests: seq<Request>, success: bool)
    requires requests != []
    ensures Calls(requests, success)
         == (if requests[0].hasCallback then [Call(requests[0].id, success)] else []) + Calls(requests[1..], success)
  {
  }

  /** Takes every request off the queue and calls it back. */
  method CallAll(v: Subscriber, success: bool) returns (calls: seq<Call>)
    modifies v`requests
    ensures calls == Calls(old(v.requests), success) && v.requests == []
  {
    hide Calls;
    calls := [];
    NoCalls(success);
    while v.requests != []
      invariant calls + Calls(v.requests, success) == Calls(old(v.requests), success)
      decreases |v.requests|
    {
      var request := v.requests[0];
      ghost var rest := Calls(v.requests[1..], success);
      var call := if request.hasCallback then [Call(request.id, success)] else [];
      CallsFirst(v.requests, success);
      assert calls + (call + rest) == (calls + call) + rest;
      v.requests := v.requests[1..];
      calls := calls + call;
    }
  }

  class Pager {
    var subs: set<Subscriber>
    var calls: seq<Call>     // every callback so far
    var nextId: nat

    constructor ()
      ensures subs == {} && calls == [] && Valid()
    {
      subs, calls, nextId := {}, [], 0;
    }

    /** Every request is in one queue at most, and none is called twice or called and still queued. */
    ghost predicate Valid()
      reads this, subs
    {
      && (forall s :: s in subs ==> s.Ok())
      && (forall s, t :: s in subs && t in subs && s != t ==> Ids(s.requests) !! Ids(t.requests))
      && (forall s :: s in subs ==> Ids(s.requests) !! Called(calls))
      && (forall s, id :: s in subs && id in Ids(s.requests) ==> id < nextId)
      && (forall id :: id in Called(calls) ==> id < nextId)
      && CalledOnce(calls)
    }

    /** paging_request_start(); delivered is how many paging requests the access network could send, if asked. */
    method Start(v: Subscriber, hasCallback: bool, delivered: int) returns (r: Option<Request>)
      requires Valid() && v in subs
      modifies `nextId, v
      ensures Valid()
      ensures r == None <==> !old(v.isPaging) && delivered <= 0
      ensures r == None ==> unchanged(v)
      ensures r.Some? ==>
        && v.requests == old(v.requests) + [r.value] && r.value.hasCallback == hasCallback && v.isPaging
        && v.timer == (old(v.timer) || !old(v.isPaging))
    {
      hide Distinct, CalledOnce, Called, Ids;
      var request := Request(nextId, hasCallback);
      OneId(request);
      assert nextId !in Ids(v.requests);
      JoinedDistinct(v.requests, [request]);
      if !v.isPaging {
        if delivered <= 0 {
          return None;
        }
        v.tokens := v.tokens + 1;
        v.isPaging := true;
        v.timer := true;
      }
      nextId := nextId + 1;
      v.requests := v.requests + [request];
      r := Some(request);
    }

    /** paging_request_join_vsub(): the queue of one subscriber goes to the end of another's, whole and in order. */
    method Join(keep: Subscriber, discard: Subscriber)
      requires Valid() && keep in subs && discard in subs && keep != discard
      modifies keep, discard
      ensures Valid()
      ensures keep.requests == old(keep.requests) + old(discard.requests) && discard.requests == []
      ensures !discard.isPaging && !discard.timer
      ensures keep.isPaging == (old(keep.isPaging) || old(discard.requests) != [])
      ensures keep.timer == old(keep.timer)
      // The response timer is not started for a subscriber that begins to page by joining.
      ensures old(keep.isPaging == keep.timer) ==>
        (keep.isPaging == keep.timer <==> old(keep.isPaging) || old(discard.requests) == [])
    {
      hide Distinct, CalledOnce, Called, Ids;
      NoIds();
      if !discard.isPaging {
        assert keep.requests + discard.requests == keep.requests;
        return;
      }
      JoinedDistinct(keep.requests, discard.requests);
      Merge(keep, discard);
    }

    /** paging_request_remove() for a request that a transaction gives up. */
    method Remove(v: Subscriber, i: nat)
      requires Valid() && v in subs && i < |v.requests|
      modifies v`requests
      ensures Valid()
      ensures v.requests == old(v.requests)[..i] + old(v.requests)[i + 1..]
    {
      hide Distinct, CalledOnce, Called, Ids;
      RemovedDistinct(v.requests, i);
      v.requests := v.requests[..i] + v.requests[i + 1..];
    }

    /** paging_concludes(): on a response or on expiry every request is called back, first come first served. */
    method Conclude(v: Subscriber, success: bool)
      requires Valid() && v in subs
      modifies `calls, v
      ensures Valid()
      ensures calls == old(calls) + Calls(old(v.requests), success)
      ensures v.requests == [] && !v.isPaging && !v.timer && v.tokens == 0
    {
      hide Distinct, CalledOnce, Called, Ids;
      NoIds();
      v.timer := false;
      CallsOnce(v.requests, success);
      CalledMore(calls, v.requests, success);
      var more := CallAll(v, success);
      calls := calls + more;
      if v.isPaging {
        v.isPaging := false;
        v.tokens := v.tokens - 1;
      }
    }
  }

  /** A subscriber that pages with no response timer running: a request joined from another one. */
  method JoinedUntimed() returns (keep: Subscriber)
    ensures keep.isPaging && keep.requests != [] && !keep.timer
  {
    var pager := new Pager();
    keep := new Subscriber();
    var discard := new Subscriber();
    NoIds();
    pager.subs := {keep, discard};
    var r := pager.Start(discard, true, 1);
    pager.Join(keep, discard);
  }

  lemma NoIds()
    ensures Distinct([]) && Ids([]) == {}
  {
  }

  lemma OneId(r: Request)
    ensures Distinct([r]) && Ids([r]) == {r.id}
  {
    assert r in [r];
  }

  lemma RemovedDistinct(requests: seq<Request>, i: nat)
    requires Distinct(requests) && i < |requests|
    ensures Distinct(requests[..i] + requests[i + 1..])
    ensures Ids(requests[..i] + requests[i + 1..]) <= Ids(requests)
  {
    var s := requests[..i] + requests[i + 1..];
    assert forall r :: r in s ==> r in requests;
  }

  lemma JoinedDistinct(a: seq<Request>, b: seq<Request>)
    requires Distinct(a) && Distinct(b) && Ids(a) !! Ids(b)
    ensures Distinct(a + b) && Ids(a + b) == Ids(a) + Ids(b)
  {
    forall i, j | 0 <= i < j < |a + b|
      ensures (a + b)[i].id != (a + b)[j].id
    {
      if i < |a| <= j {
        assert a[i].id in Ids(a) && b[j - |a|].id in Ids(b);
      }
    }
  }

  lemma CalledMore(calls: seq<Call>, requests: seq<Request>, success: bool)
    requires CalledOnce(calls) && Ids(requests) !! Called(calls)
    requires CalledOnce(Calls(requests, success)) && Called(Calls(requests, success)) <= Ids(requests)
    ensures CalledOnce(calls + Calls(requests, success))
    ensures Called(calls + Calls(requests, success)) <= Called(calls) + Ids(requests)
  {
    var more := Calls(requests, success);
    forall i, j | 0 <= i < j < |calls + more|
      ensures (calls + more)[i].id != (calls + more)[j].id
    {
      if i < |calls| <= j {
        assert calls[i].id in Called(calls) && more[j - |calls|].id in Called(more);
      }
    }
  }
}
