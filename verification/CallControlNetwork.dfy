/** The whole of call control at work: all transactions as objects, and events that change them. What is proved over runs
    of the specification is stated here of the objects. */
module CallControlNetwork {
  import opened Options
  import opened CallControl
  import opened CallControlSpec
  import opened CallControlLocal
  import opened CallControlConfirm
  import opened CallControlSilence
  import opened CallControlRuns

  /** What happens to one transaction, routine by routine. */
  method ReactTo(t: Transaction, e: Event)
    requires !e.MsFirst? && !e.MnccFirst? && !e.BridgeFailed?
    modifies t, t.net
    ensures t.View() == React(old(t.View()), e)
  {
    hide FromMs, FromMncc, Timeout, Free, Forget, Send, Paged, RtpKnown, AssignmentDone;
    match e {
      case MsMessage(_, m, ok) =>
        if t.conn {
          t.RcvCc(m, ok);
        }
      case MnccMessage(_, r, o) => t.TxToGsmCc(r, o);
      case Expiry(_) =>
        if t.armed {
          t.CcTimeout();
        }
      case GuardExpiry(_) =>
        if t.guard {
          t.TransFree();
        }
      case PagingResult(_, success, o) => t.PagingCb(success, o);
      case RtpPort(_, o) => t.OnCnLocalRtpPortKnown(o);
      case Assigned(_, o) => t.OnAssignmentDone(o);
      case RtpRefused(_, connect) => t.MnccRecvmsg(if connect then RtpConnect else RtpCreate);
      case Closed(_) => t.TransFree();
      case MnccLost(_) =>
        t.ForgetCallref();
        t.TransFree();
    }
  }

  ghost function Table(live: map<nat, Transaction>): map<nat, Trans>
    reads live.Values
  {
    map id | id in live :: live[id].Fields()
  }

  /** The transactions of trans_list that belong to call control, with what struct gsm_network keeps for them. */
  class Exchange {
    const net: Network
    var live: map<nat, Transaction>
    var nextId: nat
    var lastCallref: Callref

    ghost predicate Owned()
      reads this
    {
      forall id :: id in live ==> live[id].net == net && live[id].id == id
    }

    ghost predicate Valid()
      reads this, live.Values
    {
      Owned() && forall id :: id in live ==> !live[id].freed
    }

    /** The specification's view of everything. */
    ghost function State(): Net
      reads this, net, live.Values
    {
      Net(Table(live), nextId, net.up, net.counts, lastCallref)
    }

    constructor ()
      ensures Valid() && live == map[] && fresh(net) && Start(State())
    {
      net := new Network();
      live, nextId, lastCallref := map[], 0, 0x8000_0000;
    }

    /** A transaction that was freed leaves the list; n is the state before the transaction changed. */
    method Retire(id: nat, ghost n: Net)
      requires Owned() && id in live && n.nextId == nextId && n.lastCallref == lastCallref && n.trans.Keys == live.Keys
      requires forall o :: o in live && o != id ==> !live[o].freed && n.trans[o] == live[o].Fields()
      modifies `live
      ensures Valid() && State() == Put(n, id, old(live[id].View()))
      ensures live == if old(live[id].freed) then old(live) - {id} else old(live)
      ensures live.Values <= old(live.Values)
    {
      if live[id].freed {
        live := live - {id};
        assert Table(live) == n.trans - {id};
      } else {
        assert Table(live) == n.trans[id := live[id].Fields()];
      }
    }

    /** An event of a transaction that is found. */
    method Own(e: Event)
      requires Valid() && !e.MsFirst? && !e.MnccFirst? && !e.BridgeFailed? && e.id in live
      modifies this, net, live.Values
      ensures Valid() && State() == Put(old(State()), e.id, React(Focus(old(State()), e.id), e))
      ensures live.Values <= old(live.Values)
    {
      hide React, Put;
      ghost var n := State();
      assert Focus(n, e.id) == live[e.id].View();
      ReactTo(live[e.id], e);
      Retire(e.id, n);
    }

    /** disconnect_bridge() for one of its transactions. */
    method DisconnectOne(id: nat)
      requires Valid() && id in live
      modifies this, net, live.Values
      ensures Valid() && State() == Unbridge(old(State()), id) && live.Values <= old(live.Values)
      ensures live.Keys == old(live.Keys)
    {
      hide TxDisconnect;
      ghost var n := State();
      assert Focus(n, id) == live[id].View();
      DisconnectedLives(live[id].View());
      live[id].TxDisconnect();
      Retire(id, n);
    }

    /** trans_alloc() */
    method Allocate(callref: Callref, tidAssigned: bool) returns (t: Transaction)
      requires Valid()
      modifies `live, `nextId
      ensures Valid() && State() == Alloc(old(State()), callref, tidAssigned)
      ensures fresh(t) && live == old(live)[old(nextId) := t] && live.Values <= old(live.Values) + {t}
      ensures t.net == net && t.id == old(nextId)
      ensures t.View() == Focus(State(), old(nextId))
    {
      t := new Transaction(net, nextId, callref, tidAssigned);
      live := live[nextId := t];
      assert Table(live) == old(Table(live))[nextId := t.Fields()];
      nextId := nextId + 1;
    }

    /** The rest of gsm0408_rcv_cc() for a transaction that it has made. */
    method OpenFromMs(id: nat, m: MsMsg, accepted: bool, ok: bool)
      requires Valid() && id in live
      modifies `live, net, live[id]
      ensures Valid() && live.Values <= old(live.Values)
      ensures var l := Focus(old(State()), id);
              State() == Put(old(State()), id, if accepted then FromMs(Attach(l), m, ok) else Free(l))
    {
      hide FromMs, Free, Put;
      ghost var n := State();
      assert Focus(n, id) == live[id].View();
      if accepted {
        live[id].Assign();
        live[id].RcvCc(m, ok);
      } else {
        live[id].TransFree();
      }
      Retire(id, n);
    }

    /** gsm0408_rcv_cc() for a transaction identifier that is not known. */
    method FromMsFirst(m: MsMsg, accepted: bool, ok: bool)
      requires Valid()
      modifies this, net
      ensures Valid() && State() == Next(old(State()), MsFirst(m, accepted, ok))
      ensures fresh(live.Values - old(live.Values))
    {
      hide FromMs, Free, Put, Alloc, Table;
      ghost var n := State();
      lastCallref := NextCallref(lastCallref);
      assert State() == n.(lastCallref := lastCallref);
      var id := nextId;
      var _ := Allocate(lastCallref, true);
      OpenFromMs(id, m, accepted, ok);
    }

    /** The rest of mncc_tx_to_gsm_cc() for a transaction that it has made. */
    method OpenFromMncc(id: nat, answer: Answer)
      requires Valid() && id in live && answer != Reject
      modifies `live, net, live[id]
      ensures Valid() && live.Values <= old(live.Values)
      ensures var l := Focus(old(State()), id);
              State() == Put(old(State()), id, match answer
                                               case OnConnection(o) => FromMncc(Attach(l), SetupReq, o)
                                               case Page(started) => if started then l else Free(l)
                                               case Reject => l)
    {
      hide FromMncc, Free, Put;
      ghost var n := State();
      assert Focus(n, id) == live[id].View();
      match answer {
        case OnConnection(o) =>
          live[id].Assign();
          live[id].TxToGsmCc(SetupReq, o);
        case Page(started) =>
          if !started {
            live[id].TransFree();
          }
      }
      Retire(id, n);
    }

    /** mncc_tx_to_gsm_cc() for a callref that is not known. */
    method FromMnccFirst(callref: Callref, r: Request, answer: Answer)
      requires Valid()
      modifies this, net
      ensures Valid() && State() == Next(old(State()), MnccFirst(callref, r, answer))
      ensures fresh(live.Values - old(live.Values))
    {
      hide FromMncc, Free, Put, Alloc, Table;
      if r != SetupReq || answer == Reject {
        net.up := net.up + [Msg(RelInd, callref, None)];
        return;
      }
      var id := nextId;
      var _ := Allocate(callref, false);
      OpenFromMncc(id, answer);
    }

    /** Whatever happens: the objects follow the specification, and no other object is touched. */
    method Handle(e: Event)
      requires Valid()
      modifies this, net, live.Values
      ensures Valid() && State() == Next(old(State()), e)
      ensures fresh(live.Values - old(live.Values))
    {
      hide React, Put, Alloc, Unbridge, FromMs, FromMncc, Free, Table;
      KeysKept(live);
      match e {
        case MsFirst(m, accepted, ok) => FromMsFirst(m, accepted, ok);
        case MnccFirst(callref, r, answer) => FromMnccFirst(callref, r, answer);
        case BridgeFailed(id, other) =>
          if id in live && other in live {
            DisconnectOne(id);
            DisconnectOne(other);
          }
        case _ =>
          if e.id in live {
            Own(e);
          }
      }
    }

    method HandleAll(es: seq<Event>)
      requires Valid()
      modifies this, net, live.Values
      ensures Valid() && State() == Run(old(State()), es)
      ensures fresh(live.Values - old(live.Values))
    {
      hide Next;
      for i := 0 to |es|
        invariant Valid() && State() == Run(old(State()), es[..i])
        invariant fresh(live.Values - old(live.Values))
      {
        assert es[..i + 1][..i] == es[..i] && es[..i + 1][i] == es[i];
        Handle(es[i]);
      }
      assert es[..|es|] == es;
    }
  }

  lemma KeysKept(live: map<nat, Transaction>)
    ensures Table(live).Keys == live.Keys
  {
  }

  lemma DisconnectedLives(l: Local)
    ensures TxDisconnect(l).freed == l.freed
  {
  }

  // ---- What holds of the objects ----

  /** Every connected transaction has the timer of its state, and no other. */
  ghost predicate TimersFit(x: Exchange)
    reads x, x.live.Values
  {
    forall id :: id in x.live && x.live[id].conn ==>
      TimerFits(x.live[id].state, x.live[id].armed, x.live[id].tcurrent)
  }

  /** The gauge is the number of active transactions, and the counters balance. */
  ghost predicate CountersBalance(x: Exchange)
    reads x, x.net, x.live.Values
  {
    && x.net.counts.gauge == |set id | id in x.live && x.live[id].state == Active|
    && x.net.counts.activated == x.net.counts.complete + x.net.counts.incomplete + x.net.counts.gauge
  }

  /** No transaction was released to MNCC twice, or at all while it has a callref. */
  ghost predicate ReleasedOnce(x: Exchange)
    reads x, x.net, x.live.Values
  {
    && (forall id: nat :: Releases(x.net.up, id) <= 1)
    && (forall id :: id in x.live && x.live[id].callref != 0 ==> Releases(x.net.up, id) == 0)
  }

  /** A release confirmed to MNCC under a callref was asked for, on the same transaction. */
  ghost predicate Confirmed(x: Exchange, es: seq<Event>)
    reads x, x.net
  {
    forall i :: 0 <= i < |x.net.up| && x.net.up[i].kind == RelCnf && x.net.up[i].callref != 0 ==>
      x.net.up[i].sender.Some? && Asked(es, x.net.up[i].sender.value)
  }

  lemma ObjectTimers(x: Exchange, n: Net, es: seq<Event>)
    requires Start(n) && x.State() == Run(n, es)
    ensures TimersFit(x)
  {
    hide Run, Start, TimerFits;
    forall id | id in x.live && x.live[id].conn
      ensures TimerFits(x.live[id].state, x.live[id].armed, x.live[id].tcurrent)
    {
      TimerAgreement(n, es, id);
      assert x.State().trans[id] == x.live[id].Fields();
    }
  }

  lemma ObjectCounters(x: Exchange, n: Net, es: seq<Event>)
    requires Start(n) && x.State() == Run(n, es)
    ensures CountersBalance(x)
  {
    hide Run, Start;
    CounterConservation(n, es);
    assert ActiveIds(x.State().trans) == set id | id in x.live && x.live[id].state == Active;
  }

  lemma ObjectReleases(x: Exchange, n: Net, es: seq<Event>)
    requires Start(n) && x.State() == Run(n, es)
    ensures ReleasedOnce(x)
  {
    hide Run, Start, Releases;
    forall id: nat
      ensures Releases(x.net.up, id) <= 1
      ensures id in x.live && x.live[id].callref != 0 ==> Releases(x.net.up, id) == 0
    {
      ReleasedAtMostOnce(n, es, id);
      assert id in x.live ==> x.State().trans[id] == x.live[id].Fields();
    }
  }

  lemma ObjectConfirmations(x: Exchange, n: Net, es: seq<Event>)
    requires Start(n) && x.State() == Run(n, es)
    ensures Confirmed(x, es)
  {
    hide Run, Start, Asked, Table;
    RunAnswered(n, es);
  }

  /** From the start and after any events. */
  method Life(es: seq<Event>) returns (x: Exchange)
    ensures x.Valid() && Inv(x.State())
    ensures TimersFit(x) && CountersBalance(x) && ReleasedOnce(x) && Confirmed(x, es)
  {
    hide Run, Start, TimersFit, CountersBalance, ReleasedOnce, Confirmed, Inv;
    x := new Exchange();
    ghost var n := x.State();
    x.HandleAll(es);
    Reachable(n, es);
    ObjectTimers(x, n, es);
    ObjectCounters(x, n, es);
    ObjectReleases(x, n, es);
    ObjectConfirmations(x, n, es);
  }

  /** A transaction about which mobile station and MNCC fall silent, in any state that events can lead to, is gone from the
      list once its timer has expired as often as its rank tells, which is four times at most. */
  method FallSilent(x: Exchange, quiet: seq<Event>, id: nat)
    requires x.Valid() && Inv(x.State()) && id in x.live && x.live[id].conn && x.live[id].armed
    requires forall e :: e in quiet ==> Silent(e, id)
    modifies x, x.net, x.live.Values
    ensures x.Valid() && Inv(x.State())
    ensures Ticks(quiet, id) >= old(Rank(x.live[id].Fields())) ==> id !in x.live
    ensures id in x.live ==> Rank(x.live[id].Fields()) == old(Rank(x.live[id].Fields())) - Ticks(quiet, id)
    ensures Ticks(quiet, id) >= 4 ==> id !in x.live
  {
    hide Run, Inv, Silent, Undisturbed, Ticks;
    ghost var n := x.State();
    assert n.trans[id] == x.live[id].Fields();
    SilentRun(n, quiet, id);
    RunKeeps(n, quiet);
    x.HandleAll(quiet);
    assert id in x.live ==> x.State().trans[id] == x.live[id].Fields();
  }
}
