/** All transactions together, over whole runs of events. */
module CallControlRuns {
  import opened Options
  import opened CallControlSpec
  import opened CallControlLocal

  /** All call control transactions, the queue to MNCC and the counters of struct gsm_network.
      Transactions are named in the order in which they were made. */
  datatype Net = Net(trans: map<nat, Trans>, nextId: nat, up: seq<Msg>, counts: Counters, lastCallref: Callref)

  /** No transaction yet, whatever callref was used last. */
  ghost predicate Start(n: Net) {
    n.trans == map[] && n.up == [] && n.counts == Counters(0, 0, 0, 0)
  }

  function Focus(n: Net, id: nat): Local
    requires id in n.trans
  {
    Local(n.trans[id], n.up, n.counts, false)
  }

  function Put(n: Net, id: nat, l: Local): Net {
    n.(trans := if l.freed then n.trans - {id} else n.trans[id := l.t], up := l.up, counts := l.counts)
  }

  /** trans_alloc() */
  function NewTrans(id: nat, callref: Callref, tidAssigned: bool): Trans {
    Trans(id, callref, false, Null, false, None, false, false, false, tidAssigned, false)
  }

  function Alloc(n: Net, callref: Callref, tidAssigned: bool): Net {
    n.(trans := n.trans[n.nextId := NewTrans(n.nextId, callref, tidAssigned)], nextId := n.nextId + 1)
  }

  function Attach(l: Local): Local {
    l.(t := l.t.(conn := true))
  }

  /** msc_cc_next_outgoing_callref(): never zero. */
  function NextCallref(last: Callref): (r: Callref)
    ensures r >= 0x8000_0001
  {
    var next := (last + 1) % 0x1_0000_0000;
    if next < 0x8000_0001 then 0x8000_0001 else next
  }

  /** What becomes of an MNCC request whose callref is unknown. */
  datatype Answer = Reject | Page(started: bool) | OnConnection(outcome: SetupOutcome)

  /** Events name the transaction that a look-up found. */
  datatype Event =
    | MsMessage(id: nat, msg: MsMsg, ok: bool)
    | MsFirst(msg: MsMsg, accepted: bool, ok: bool)
    | MnccMessage(id: nat, request: Request, outcome: SetupOutcome)
    | MnccFirst(callref: Callref, request: Request, answer: Answer)
    | BridgeFailed(id: nat, other: nat)
    | Expiry(id: nat)
    | GuardExpiry(id: nat)
    | PagingResult(id: nat, success: bool, outcome: SetupOutcome)
    | RtpPort(id: nat, rtp: RtpOutcome)
    | Assigned(id: nat, rtp: RtpOutcome)
    | RtpRefused(id: nat, connect: bool)  // an MNCC_RTP_CREATE or MNCC_RTP_CONNECT that cannot be met
    | Closed(id: nat)
    | MnccLost(id: nat)                   // the MNCC socket is gone

  /** The effect on a transaction that exists; a transaction that still pages has no transaction identifier that a
      message of a mobile station could name. */
  function React(l: Local, e: Event): Local {
    match e
    case MsMessage(_, m, ok) => if l.t.conn then FromMs(l, m, ok) else l
    case MnccMessage(_, r, o) => FromMncc(l, r, o)
    case Expiry(_) => if l.t.armed then Timeout(l) else l
    case GuardExpiry(_) => if l.t.guard then Free(l) else l
    case PagingResult(_, success, o) => Paged(l, success, o)
    case RtpPort(_, o) => RtpKnown(l, o)
    case Assigned(_, o) => AssignmentDone(l, o)
    case RtpRefused(_, connect) => Send(l, if connect then RtpConnect else RtpCreate)
    case Closed(_) => Free(l)
    case MnccLost(_) => Free(Forget(l))
    case _ => l
  }

  function Unbridge(n: Net, id: nat): Net {
    if id in n.trans then Put(n, id, TxDisconnect(Focus(n, id))) else n
  }

  function Next(n: Net, e: Event): Net {
    match e
    case MsFirst(m, accepted, ok) =>
      var a := Alloc(n.(lastCallref := NextCallref(n.lastCallref)), NextCallref(n.lastCallref), true);
      var l := Focus(a, n.nextId);
      Put(a, n.nextId, if accepted then FromMs(Attach(l), m, ok) else Free(l))
    case MnccFirst(callref, r, answer) =>
      if r != SetupReq || answer == Reject then n.(up := n.up + [Msg(RelInd, callref, None)])
      else
        var a := Alloc(n, callref, false);
        var l := Focus(a, n.nextId);
        Put(a, n.nextId, match answer
                         case OnConnection(o) => FromMncc(Attach(l), SetupReq, o)
                         case Page(started) => if started then l else Free(l)
                         case Reject => l)
    case BridgeFailed(id, other) => if id in n.trans && other in n.trans then Unbridge(Unbridge(n, id), other) else n
    case _ => if e.id in n.trans then Put(n, e.id, React(Focus(n, e.id), e)) else n
  }

  function Run(n: Net, es: seq<Event>): Net {
    if es == [] then n else Next(Run(n, es[..|es| - 1]), es[|es| - 1])
  }

  // ---- The invariant ----

  function ActiveIds(trans: map<nat, Trans>): set<nat> {
    set id | id in trans && trans[id].state == Active
  }

  ghost predicate Named(n: Net) {
    forall id :: id in n.trans ==> id < n.nextId && n.trans[id].id == id && TransOk(n.trans[id])
  }

  ghost predicate Counted(n: Net) {
    n.counts.gauge == |ActiveIds(n.trans)| && Balance(n.counts) == 0
  }

  ghost predicate Told(n: Net) {
    forall id: nat ::
      && Releases(n.up, id) <= 1
      && (id in n.trans && n.trans[id].callref != 0 ==> Releases(n.up, id) == 0)
      && (id >= n.nextId ==> Releases(n.up, id) == 0)
  }

  ghost predicate Inv(n: Net) {
    Named(n) && Counted(n) && Told(n)
  }

  lemma {:induction false} ReleasesOfOthers(up: seq<Msg>, up': seq<Msg>, id: nat, other: nat)
    requires up <= up' && other != id
    requires forall i :: |up| <= i < |up'| ==> up'[i].sender == Some(id)
    ensures Releases(up', other) == Releases(up, other)
    decreases |up'|
  {
    if up == up' {
    } else {
      var shorter := up'[..|up'| - 1];
      ReleasesOfOthers(up, shorter, id, other);
      assert up'[|up'| - 1].sender == Some(id);
    }
  }

  lemma ActiveSplit(trans: map<nat, Trans>, id: nat)
    ensures |ActiveIds(trans)|
         == |ActiveIds(trans) - {id}| + (if id in trans && trans[id].state == Active then 1 else 0)
  {
    if id in trans && trans[id].state == Active {
      assert ActiveIds(trans) == (ActiveIds(trans) - {id}) + {id};
    } else {
      assert ActiveIds(trans) - {id} == ActiveIds(trans);
    }
  }

  lemma PutCounted(n: Net, id: nat, l: Local)
    requires Counted(n) && id in n.trans && Step(Focus(n, id), l)
    ensures Counted(Put(n, id, l))
  {
    hide TransOk, Grew, ToldAtMostOnce;
    var n' := Put(n, id, l);
    ActiveSplit(n.trans, id);
    ActiveSplit(n'.trans, id);
    assert ActiveIds(n'.trans) - {id} == ActiveIds(n.trans) - {id};
  }

  lemma PutTold(n: Net, id: nat, l: Local)
    requires Told(n) && Named(n) && id in n.trans && Step(Focus(n, id), l)
    ensures Told(Put(n, id, l))
  {
    hide TransOk, Releases;
    var n' := Put(n, id, l);
    forall other: nat
      ensures other != id ==> Releases(n'.up, other) == Releases(n.up, other)
    {
      if other != id {
        ReleasesOfOthers(n.up, n'.up, id, other);
      }
    }
  }

  /** A step of one transaction keeps the invariant of all. */
  lemma PutKeeps(n: Net, id: nat, l: Local)
    requires Inv(n) && id in n.trans && Step(Focus(n, id), l)
    ensures Inv(Put(n, id, l))
  {
    hide TransOk, Counted, Told, Grew, ToldAtMostOnce;
    PutCounted(n, id, l);
    PutTold(n, id, l);
  }

  lemma AllocKeeps(n: Net, callref: Callref, tidAssigned: bool)
    requires Inv(n)
    ensures Inv(Alloc(n, callref, tidAssigned))
  {
    var n' := Alloc(n, callref, tidAssigned);
    assert ActiveIds(n'.trans) == ActiveIds(n.trans);
  }

  lemma AnonymousRelease(n: Net, callref: Callref)
    requires Inv(n)
    ensures Inv(n.(up := n.up + [Msg(RelInd, callref, None)]))
  {
    forall id
      ensures Releases(n.up + [Msg(RelInd, callref, None)], id) == Releases(n.up, id)
    {
      ReleasesAppend(n.up, Msg(RelInd, callref, None), id);
    }
  }

  lemma ReactSteps(l: Local, e: Event)
    requires !l.freed && TransOk(l.t)
    ensures Step(l, React(l, e))
  {
    hide Step, Free, Send, FromMs, FromMncc, Timeout, Paged, RtpKnown, AssignmentDone;
    StaySteps(l, l);
    match e {
      case MsMessage(_, m, ok) => if l.t.conn { FromMsSteps(l, m, ok); }
      case MnccMessage(_, r, o) => FromMnccSteps(l, r, o);
      case Expiry(_) => if l.t.armed { TimeoutSteps(l); }
      case GuardExpiry(_) => FreeSteps(l, l);
      case PagingResult(_, success, o) => PagedSteps(l, success, o);
      case RtpPort(_, o) => RtpKnownSteps(l, o);
      case Assigned(_, o) => AssignmentDoneSteps(l, o);
      case RtpRefused(_, connect) => SendSteps(l, l, if connect then RtpConnect else RtpCreate);
      case Closed(_) => FreeSteps(l, l);
      case MnccLost(_) => FreeSteps(l, Forget(l));
      case _ =>
    }
  }

  lemma AttachSteps(l: Local, l': Local)
    requires Step(Attach(l), l')
    ensures Step(l, l')
  {
  }

  lemma UnbridgeKeeps(n: Net, id: nat)
    requires Inv(n)
    ensures Inv(Unbridge(n, id))
  {
    hide Inv, Step, TxDisconnect;
    if id in n.trans {
      BridgeFailedSteps(Focus(n, id));
      PutKeeps(n, id, TxDisconnect(Focus(n, id)));
    }
  }

  lemma NewFits(l: Local)
    requires l.t.state == Null && !l.t.armed && !l.t.conn
    ensures TransOk(l.t) && TransOk(Attach(l).t)
  {
  }

  lemma MsFirstKeeps(n: Net, m: MsMsg, accepted: bool, ok: bool)
    requires Inv(n)
    ensures Inv(Next(n, MsFirst(m, accepted, ok)))
  {
    hide Step, Free, FromMs, Inv, TransOk, Put;
    RefKept(n, NextCallref(n.lastCallref));
    var a := Alloc(n.(lastCallref := NextCallref(n.lastCallref)), NextCallref(n.lastCallref), true);
    AllocKeeps(n.(lastCallref := NextCallref(n.lastCallref)), NextCallref(n.lastCallref), true);
    var l := Focus(a, n.nextId);
    NewFits(l);
    if accepted {
      FromMsSteps(Attach(l), m, ok);
      AttachSteps(l, FromMs(Attach(l), m, ok));
      PutKeeps(a, n.nextId, FromMs(Attach(l), m, ok));
    } else {
      FreeSteps(l, l);
      PutKeeps(a, n.nextId, Free(l));
    }
  }

  lemma RefKept(n: Net, ref: Callref)
    requires Inv(n)
    ensures Inv(n.(lastCallref := ref))
  {
  }

  lemma MnccFirstKeeps(n: Net, callref: Callref, answer: Answer)
    requires Inv(n) && answer != Reject
    ensures Inv(Next(n, MnccFirst(callref, SetupReq, answer)))
  {
    hide Step, Free, FromMncc, Inv, TransOk, Put;
    var a := Alloc(n, callref, false);
    AllocKeeps(n, callref, false);
    var l := Focus(a, n.nextId);
    NewFits(l);
    match answer {
      case OnConnection(o) =>
        FromMnccSteps(Attach(l), SetupReq, o);
        AttachSteps(l, FromMncc(Attach(l), SetupReq, o));
        PutKeeps(a, n.nextId, FromMncc(Attach(l), SetupReq, o));
      case Page(started) =>
        StaySteps(l, l);
        FreeSteps(l, l);
        PutKeeps(a, n.nextId, if started then l else Free(l));
      case Reject =>
    }
  }

  lemma NextKeeps(n: Net, e: Event)
    requires Inv(n)
    ensures Inv(Next(n, e))
  {
    hide Inv, Step, React, Put, Alloc, FromMs, FromMncc, Unbridge, Free;
    match e {
      case MsFirst(m, accepted, ok) => MsFirstKeeps(n, m, accepted, ok);
      case MnccFirst(callref, r, answer) =>
        if r != SetupReq || answer == Reject {
          AnonymousRelease(n, callref);
        } else {
          MnccFirstKeeps(n, callref, answer);
        }
      case BridgeFailed(id, other) =>
        UnbridgeKeeps(n, id);
        UnbridgeKeeps(Unbridge(n, id), other);
      case _ =>
        if e.id in n.trans {
          OwnKeeps(n, e);
        }
    }
  }

  lemma OwnKeeps(n: Net, e: Event)
    requires Inv(n) && !e.MsFirst? && !e.MnccFirst? && e.id in n.trans
    ensures Inv(Put(n, e.id, React(Focus(n, e.id), e)))
  {
    hide Step, React, Counted, Told, TransOk;
    ReactSteps(Focus(n, e.id), e);
    PutKeeps(n, e.id, React(Focus(n, e.id), e));
  }

  lemma {:induction false} RunKeeps(n: Net, es: seq<Event>)
    requires Inv(n)
    ensures Inv(Run(n, es))
  {
    hide Inv, Next;
    if es != [] {
      RunKeeps(n, es[..|es| - 1]);
      NextKeeps(Run(n, es[..|es| - 1]), es[|es| - 1]);
    }
  }

  lemma StartInv(n: Net)
    requires Start(n)
    ensures Inv(n)
  {
    assert ActiveIds(n.trans) == {};
  }

  /** The invariant holds after every run. */
  lemma Reachable(n: Net, es: seq<Event>)
    requires Start(n)
    ensures Inv(Run(n, es))
  {
    hide *;
    StartInv(n);
    RunKeeps(n, es);
  }

  // ---- Main results, over every run from the start ----

  /** The timer that runs is the one of the state, for every connected transaction at every moment. */
  lemma TimerAgreement(n: Net, es: seq<Event>, id: nat)
    requires Start(n)
    ensures var r := Run(n, es);
            id in r.trans && r.trans[id].conn ==>
              TimerFits(r.trans[id].state, r.trans[id].armed, r.trans[id].tcurrent)
  {
    hide Run, TimerFits, Start;
    Reachable(n, es);
  }

  /** The gauge is the number of active calls, and every call ever activated is counted as complete, incomplete or
      still active. */
  lemma CounterConservation(n: Net, es: seq<Event>)
    requires Start(n)
    ensures var r := Run(n, es);
            && r.counts.gauge == |ActiveIds(r.trans)|
            && r.counts.activated == r.counts.complete + r.counts.incomplete + r.counts.gauge
  {
    hide Run, Start;
    Reachable(n, es);
  }

  /** No transaction is ever released to MNCC twice, and none that still has its callref has been released. */
  lemma ReleasedAtMostOnce(n: Net, es: seq<Event>, id: nat)
    requires Start(n)
    ensures var r := Run(n, es);
            && Releases(r.up, id) <= 1
            && (id in r.trans && r.trans[id].callref != 0 ==> Releases(r.up, id) == 0)
  {
    hide Run, Releases, Start;
    Reachable(n, es);
  }
}
