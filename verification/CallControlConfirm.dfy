/** A confirmation of release to MNCC is the answer to its own request. */
module CallControlConfirm {
  import opened Options
  import opened CallControlSpec
  import opened CallControlLocal
  import opened CallControlRuns

  /** No release was confirmed under a callref since the queue had a length, and none is about to be. */
  ghost predicate Unconfirmed(l: Local, since: nat) {
    && since <= |l.up|
    && (forall i :: since <= i < |l.up| ==> l.up[i].kind != RelCnf || l.up[i].callref == 0)
    && (l.t.state == ReleaseReq ==> l.t.callref == 0)
  }

  lemma SendKeeps(l: Local, k: Kind, since: nat)
    requires Unconfirmed(l, since) && (k == RelCnf ==> l.t.callref == 0)
    ensures Unconfirmed(Send(l, k), since)
  {
  }

  lemma ReleaseIndKeeps(l: Local, since: nat)
    requires Unconfirmed(l, since)
    ensures Unconfirmed(ReleaseInd(l), since) && Unconfirmed(Forget(ReleaseInd(l)), since)
  {
    hide Send;
    SendKeeps(l, if l.t.state == ReleaseReq then RelCnf else RelInd, since);
    ForgetKeeps(ReleaseInd(l), since);
  }

  lemma ForgetKeeps(l: Local, since: nat)
    requires Unconfirmed(l, since)
    ensures Unconfirmed(Forget(l), since)
  {
  }

  lemma NewStateKeeps(l: Local, s: State, since: nat)
    requires Unconfirmed(l, since) && (s == ReleaseReq ==> l.t.callref == 0)
    ensures Unconfirmed(NewState(l, s), since)
  {
  }

  /** A change that neither the queue, the callref nor the state notices. */
  lemma SameKeeps(l: Local, m: Local, since: nat)
    requires Unconfirmed(l, since) && m.up == l.up && m.t.callref == l.t.callref && m.t.state == l.t.state
    ensures Unconfirmed(m, since)
  {
  }

  lemma TxReleaseKeeps(l: Local, since: nat)
    requires Unconfirmed(l, since) && l.t.callref == 0
    ensures Unconfirmed(TxRelease(l), since)
  {
    hide NewState, Unconfirmed;
    var a := StartTimer(StopTimer(l), T308);
    var b := a.(t := a.t.(t308Second := false));
    SameKeeps(l, b, since);
    NewStateKeeps(b, ReleaseReq, since);
  }

  lemma FreeKeeps(l: Local, since: nat)
    requires !l.freed && Unconfirmed(l, since)
    ensures Unconfirmed(Free(l), since)
  {
    hide FreeReleased, NewState, ReleaseInd;
    var a := StopTimer(l);
    SameKeeps(l, a, since);
    ReleaseIndKeeps(a, since);
    var b := FreeTold(l);
    FreeToldEffect(l);
    FreeReleasedEffect(b);
    FreedKeeps(b, FreeReleased(b), since);
  }

  /** Once freed the state is NULL, whatever it was on the way. */
  lemma FreedKeeps(b: Local, d: Local, since: nat)
    requires Unconfirmed(b, since) && d.up == b.up
    ensures var e := if d.t.state != Null then NewState(d, Null) else d;
            Unconfirmed(e.(t := e.t.(guard := false), freed := true), since)
  {
  }

  lemma TimeoutKeeps(l: Local)
    requires !l.freed && TransOk(l.t) && l.t.armed && Unconfirmed(l, |l.up|)
    ensures Unconfirmed(Timeout(l), |l.up|)
  {
    hide Unconfirmed, Free, TxRelease, ReleaseInd, NewState, Send;
    var f := l.(t := l.t.(armed := false));
    var since := |l.up|;
    SameKeeps(l, f, since);
    if l.t.tcurrent == Some(T308) {
      InRelease(f, since);
      TxReleaseKeeps(f, since);
      var r := TxRelease(f);
      SameKeeps(r, r.(t := r.t.(t308Second := true)), since);
      FreeKeeps(f, since);
    } else if l.t.tcurrent == Some(T303) || l.t.tcurrent == Some(T306) {
      ReleaseIndKeeps(f, since);
      TxReleaseKeeps(if f.t.callref != 0 then Forget(ReleaseInd(f)) else f, since);
    } else {
      DisconnectedKeeps(f, since);
    }
  }

  lemma InRelease(l: Local, since: nat)
    requires Unconfirmed(l, since) && l.t.state == ReleaseReq
    ensures l.t.callref == 0
  {
  }

  lemma DisconnectedKeeps(l: Local, since: nat)
    requires Unconfirmed(l, since)
    ensures Unconfirmed(Disconnected(l), since) && Unconfirmed(TxDisconnect(l), since)
  {
    hide Unconfirmed, NewState, Send;
    SendKeeps(l, DiscInd, since);
    var a := Send(l, DiscInd);
    SameKeeps(a, StartTimer(StopTimer(a), T306), since);
    NewStateKeeps(StartTimer(StopTimer(a), T306), DisconnectInd, since);
    SameKeeps(l, StartTimer(StopTimer(l), T306), since);
    NewStateKeeps(StartTimer(StopTimer(l), T306), DisconnectInd, since);
  }

  lemma TxSetupKeeps(l: Local, o: SetupOutcome, since: nat)
    requires !l.freed && Unconfirmed(l, since)
    ensures Unconfirmed(TxSetup(l, o), since)
  {
    hide Unconfirmed, Free, ReleaseInd, NewState;
    var a := StartTimer(l, T303);
    SameKeeps(l, a, since);
    NotFreed(l);
    NotFreed(a);
    ReleaseIndKeeps(l, since);
    ReleaseIndKeeps(a, since);
    FreeKeeps(Forget(ReleaseInd(l)), since);
    FreeKeeps(Forget(ReleaseInd(a)), since);
    FreeKeeps(a, since);
    var b := a.(t := a.t.(tidAssigned := true));
    SameKeeps(a, b, since);
    NewStateKeeps(b, CallPresent, since);
  }

  lemma NotFreed(l: Local)
    ensures ReleaseInd(l).freed == l.freed
  {
  }

  /** A state change and nothing else that matters. */
  lemma MoveKeeps(l: Local, m: Local, s: State, since: nat)
    requires Unconfirmed(l, since) && m.up == l.up && m.t.callref == l.t.callref && m.t.state == l.t.state
    requires s != ReleaseReq
    ensures Unconfirmed(NewState(m, s), since)
  {
    hide Unconfirmed, NewState;
    SameKeeps(l, m, since);
    NewStateKeeps(m, s, since);
  }

  lemma DownKeeps(l: Local, r: Request, o: SetupOutcome, since: nat)
    requires !l.freed && Unconfirmed(l, since) && r != RelReq
    ensures Unconfirmed(Down(l, r, o), since)
  {
    hide Unconfirmed, Free, NewState, TxSetup, TxDisconnect;
    match r {
      case CallProcReq => MoveKeeps(l, l, MoCallProc, since);
      case AlertReq => MoveKeeps(l, l, CallDelivered, since);
      case SetupRsp => MoveKeeps(l, StartTimer(StopTimer(l), T313), ConnectInd, since);
      case SetupReq => TxSetupKeeps(l, o, since);
      case ModifyReq => MoveKeeps(l, StartTimer(l, T323), MoTermModify, since);
      case RejReq =>
        ForgetKeeps(l, since);
        SameKeeps(Forget(l), StopTimer(Forget(l)), since);
        FreeKeeps(StopTimer(Forget(l)), since);
      case DiscReq => DisconnectedKeeps(l, since);
      case SetupComplReq => MoveKeeps(l, l, Active, since);
      case ModifyRsp => MoveKeeps(l, l, Active, since);
      case ModifyRejReq => MoveKeeps(l, l, Active, since);
      case _ =>
    }
  }

  lemma FromMnccKeeps(l: Local, r: Request, o: SetupOutcome)
    requires !l.freed && Unconfirmed(l, |l.up|) && r != RelReq
    ensures Unconfirmed(FromMncc(l, r, o), |l.up|)
  {
    hide Unconfirmed, Free, Down, Send, DownHandled, RestartsGuard;
    var a, since := Contacted(l, r), |l.up|;
    SameKeeps(l, a, since);
    SendKeeps(a, RelInd, since);
    SentNotFreed(a, RelInd);
    ForgetKeeps(Send(a, RelInd), since);
    FreeKeeps(Forget(Send(a, RelInd)), since);
    DownKeeps(a, r, o, since);
  }

  lemma SentNotFreed(l: Local, k: Kind)
    ensures Send(l, k).freed == l.freed
  {
  }

  lemma MoveAndSendKeeps(l: Local, m: Local, s: State, k: Kind, since: nat)
    requires Unconfirmed(l, since) && m.up == l.up && m.t.callref == l.t.callref && m.t.state == l.t.state
    requires s != ReleaseReq && k != RelCnf
    ensures Unconfirmed(Send(NewState(m, s), k), since)
  {
    hide Unconfirmed, NewState, Send;
    MoveKeeps(l, m, s, since);
    SendKeeps(NewState(m, s), k, since);
  }

  lemma ClearingKeeps(l: Local, since: nat)
    requires !l.freed && Unconfirmed(l, since)
    ensures Unconfirmed(RxRelease(l), since) && Unconfirmed(RxReleaseCompl(l), since)
  {
    hide Unconfirmed, Free, NewState, Send;
    var a := StopTimer(l);
    SameKeeps(l, a, since);
    ReleaseIndKeeps(a, since);
    NotFreed(a);
    MovedNotFreed(ReleaseInd(a), Null);
    NewStateKeeps(ReleaseInd(a), Null, since);
    ForgetKeeps(NewState(ReleaseInd(a), Null), since);
    FreeKeeps(Forget(NewState(ReleaseInd(a), Null)), since);
    FreeKeeps(Forget(ReleaseInd(a)), since);
    SendKeeps(a, RejInd, since);
    SentNotFreed(a, RejInd);
    ForgetKeeps(Send(a, RejInd), since);
    FreeKeeps(Forget(Send(a, RejInd)), since);
    ForgetKeeps(a, since);
    FreeKeeps(Forget(a), since);
  }

  lemma MovedNotFreed(l: Local, s: State)
    ensures NewState(l, s).freed == l.freed
  {
  }

  lemma UpKeeps(l: Local, m: MsMsg, ok: bool, since: nat)
    requires !l.freed && Unconfirmed(l, since)
    ensures Unconfirmed(Up(l, m, ok), since)
  {
    hide Unconfirmed, Free, NewState, Send, RxSetup, RxRelease, RxReleaseCompl;
    if PassedOn(m).Some? {
      SendKeeps(l, PassedOn(m).value, since);
    } else if Reported(m).Some? {
      MoveAndSendKeeps(l, StopTimer(l), Reported(m).value.0, Reported(m).value.1, since);
    } else {
      match m {
        case Setup => SetupKeeps(l, since);
        case EmergSetup => SetupKeeps(l, since);
        case CallConf =>
          SameKeeps(l, StartTimer(StopTimer(l), T310), since);
          MoveAndSendKeeps(l, StartTimer(StopTimer(l), T310), MoTermCallConf, CallConfInd, since);
        case Alerting =>
          var a := StartTimer(StopTimer(l), T301);
          MoveAndSendKeeps(l, a, CallReceived, AlertInd, since);
          MoveKeeps(l, a, CallReceived, since);
          MovedNotFreed(a, CallReceived);
          FreeKeeps(NewState(a, CallReceived), since);
        case Modify => MoveAndSendKeeps(l, l, MoOrigModify, ModifyInd, since);
        case Release => ClearingKeeps(l, since);
        case ReleaseCompl => ClearingKeeps(l, since);
        case _ =>
      }
    }
  }

  lemma SetupKeeps(l: Local, since: nat)
    requires Unconfirmed(l, since)
    ensures Unconfirmed(RxSetup(l), since)
  {
    hide Unconfirmed, NewState;
    var a := l.(t := l.t.(guard := true));
    MoveKeeps(l, a, Initiated, since);
    var b := NewState(a, Initiated);
    SameKeeps(b, b.(t := b.t.(setupStored := true)), since);
  }

  lemma FromMsKeeps(l: Local, m: MsMsg, ok: bool)
    requires !l.freed && Unconfirmed(l, |l.up|)
    ensures Unconfirmed(FromMs(l, m, ok), |l.up|)
  {
    hide Unconfirmed, Up, UpHandled, Free;
    UpKeeps(l, m, ok, |l.up|);
    FreeKeeps(l, |l.up|);
  }

  lemma PagedKeeps(l: Local, success: bool, o: SetupOutcome)
    requires !l.freed && Unconfirmed(l, |l.up|)
    ensures Unconfirmed(Paged(l, success, o), |l.up|)
  {
    hide Unconfirmed, Free, ReleaseInd, TxSetup;
    var since := |l.up|;
    var c := l.(t := l.t.(conn := true));
    SameKeeps(l, c, since);
    TxSetupKeeps(c, o, since);
    ReleaseIndKeeps(l, since);
    NotFreed(l);
    FreeKeeps(Forget(ReleaseInd(l)), since);
  }

  lemma RtpKeeps(l: Local, o: RtpOutcome)
    requires !l.freed && Unconfirmed(l, |l.up|)
    ensures Unconfirmed(RtpKnown(l, o), |l.up|) && Unconfirmed(AssignmentDone(l, o), |l.up|)
  {
    hide Unconfirmed, Free, Send;
    var since := |l.up|;
    var a := l.(t := l.t.(setupStored := false));
    SameKeeps(l, a, since);
    SendKeeps(a, SetupInd, since);
    SendKeeps(l, RtpCreate, since);
    FreeKeeps(a, since);
    FreeKeeps(l, since);
    ForgetKeeps(l, since);
    FreeKeeps(Forget(l), since);
  }

  predicate AsksRelease(e: Event) {
    e.MnccMessage? && e.request == RelReq
  }

  /** No event but MNCC's request leads to a confirmation under a callref. */
  lemma ReactKeeps(l: Local, e: Event)
    requires !l.freed && TransOk(l.t) && Unconfirmed(l, |l.up|) && !AsksRelease(e)
    ensures Unconfirmed(React(l, e), |l.up|)
  {
    hide Unconfirmed, Free, Send, FromMs, FromMncc, Timeout, Paged, RtpKnown, AssignmentDone;
    var since := |l.up|;
    FreeKeeps(l, since);
    match e {
      case MsMessage(_, m, ok) => FromMsKeeps(l, m, ok);
      case MnccMessage(_, r, o) => FromMnccKeeps(l, r, o);
      case Expiry(_) => if l.t.armed { TimeoutKeeps(l); }
      case PagingResult(_, success, o) => PagedKeeps(l, success, o);
      case RtpPort(_, o) => RtpKeeps(l, o);
      case Assigned(_, o) => RtpKeeps(l, o);
      case RtpRefused(_, connect) => SendKeeps(l, if connect then RtpConnect else RtpCreate, since);
      case MnccLost(_) =>
        ForgetKeeps(l, since);
        FreeKeeps(Forget(l), since);
      case _ =>
    }
  }

  // ---- Over runs ----

  /** MNCC has asked for the release of a transaction. */
  ghost predicate Asked(es: seq<Event>, id: nat) {
    exists i :: 0 <= i < |es| && AsksRelease(es[i]) && es[i].id == id
  }

  ghost predicate Answered(n: Net, es: seq<Event>) {
    && (forall id :: id in n.trans && n.trans[id].state == ReleaseReq && n.trans[id].callref != 0 ==> Asked(es, id))
    && (forall i :: 0 <= i < |n.up| && n.up[i].kind == RelCnf && n.up[i].callref != 0 ==>
          n.up[i].sender.Some? && Asked(es, n.up[i].sender.value))
  }

  lemma AskedMore(es: seq<Event>, e: Event)
    ensures forall id :: Asked(es, id) ==> Asked(es + [e], id)
    ensures AsksRelease(e) ==> Asked(es + [e], e.id)
  {
    assert (es + [e])[|es|] == e;
    assert forall i :: 0 <= i < |es| ==> (es + [e])[i] == es[i];
  }

  lemma PutAnswered(n: Net, es: seq<Event>, e: Event, id: nat, l: Local)
    requires Answered(n, es) && id in n.trans && Named(n) && Step(Focus(n, id), l)
    requires Asked(es + [e], id) || Unconfirmed(l, |n.up|)
    ensures Answered(Put(n, id, l), es + [e])
  {
    hide Asked, TransOk, ToldAtMostOnce;
    AskedMore(es, e);
    forall i | 0 <= i < |l.up| && l.up[i].kind == RelCnf && l.up[i].callref != 0
      ensures l.up[i].sender.Some? && Asked(es + [e], l.up[i].sender.value)
    {
      if i < |n.up| {
        assert l.up[i] == n.up[i];
      }
    }
  }

  lemma ReactAnswered(n: Net, es: seq<Event>, e: Event)
    requires Inv(n) && Answered(n, es) && !e.MsFirst? && !e.MnccFirst? && !e.BridgeFailed?
    ensures Answered(Next(n, e), es + [e])
  {
    hide Asked, TransOk, Step, React, Releases, Counted, Told;
    AskedMore(es, e);
    if e.id in n.trans {
      var l := Focus(n, e.id);
      ReactSteps(l, e);
      if !Asked(es + [e], e.id) {
        ReactKeeps(l, e);
      }
      PutAnswered(n, es, e, e.id, React(l, e));
    }
  }

  lemma UnbridgeAnswered(n: Net, es: seq<Event>, e: Event, id: nat)
    requires Inv(n) && Answered(n, es)
    ensures Answered(Unbridge(n, id), es + [e])
  {
    hide Asked, TransOk, Step, TxDisconnect, Releases, Counted, Told;
    AskedMore(es, e);
    if id in n.trans {
      var l := Focus(n, id);
      BridgeFailedSteps(l);
      if !Asked(es + [e], id) {
        DisconnectedKeeps(l, |n.up|);
      }
      PutAnswered(n, es, e, id, TxDisconnect(l));
    }
  }

  lemma BridgeAnswered(n: Net, es: seq<Event>, e: Event)
    requires Inv(n) && Answered(n, es) && e.BridgeFailed?
    ensures Answered(Next(n, e), es + [e])
  {
    hide Inv, Unbridge, Asked;
    AskedMore(es, e);
    UnbridgeAnswered(n, es, e, e.id);
    UnbridgeKeeps(n, e.id);
    UnbridgeAgain(Unbridge(n, e.id), es, e, e.other);
  }

  lemma UnbridgeAgain(n: Net, es: seq<Event>, e: Event, id: nat)
    requires Inv(n) && Answered(n, es + [e]) && e.BridgeFailed?
    ensures Answered(Unbridge(n, id), es + [e])
  {
    hide Inv, Unbridge, Asked;
    UnbridgeAnswered(n, es + [e], e, id);
    AskedTwice(es, e);
  }

  /** Repeating an event that asks for nothing changes nothing. */
  lemma AskedTwice(es: seq<Event>, e: Event)
    requires !AsksRelease(e)
    ensures forall id :: Asked(es + [e] + [e], id) ==> Asked(es + [e], id)
  {
    forall id | Asked(es + [e] + [e], id)
      ensures Asked(es + [e], id)
    {
      var i :| 0 <= i < |es| + 2 && AsksRelease((es + [e] + [e])[i]) && (es + [e] + [e])[i].id == id;
      assert (es + [e])[i] == (es + [e] + [e])[i];
    }
  }

  lemma MsFirstAnswered(n: Net, es: seq<Event>, e: Event)
    requires Inv(n) && Answered(n, es) && e.MsFirst?
    ensures Answered(Next(n, e), es + [e])
  {
    hide Asked, TransOk, Step, Releases, Counted, Told, Free, FromMs;
    var ref := NextCallref(n.lastCallref);
    var m := n.(lastCallref := ref);
    var a := Alloc(m, ref, true);
    var l := Focus(a, n.nextId);
    NewFits(l);
    if e.accepted {
      FromMsSteps(Attach(l), e.msg, e.ok);
      AttachSteps(l, FromMs(Attach(l), e.msg, e.ok));
      FromMsKeeps(Attach(l), e.msg, e.ok);
      PutAnswered(a, es, e, n.nextId, FromMs(Attach(l), e.msg, e.ok));
    } else {
      FreeSteps(l, l);
      FreeKeeps(l, |l.up|);
      PutAnswered(a, es, e, n.nextId, Free(l));
    }
  }

  lemma MnccFirstAnswered(n: Net, es: seq<Event>, e: Event)
    requires Inv(n) && Answered(n, es) && e.MnccFirst?
    ensures Answered(Next(n, e), es + [e])
  {
    hide Asked, TransOk, Step, Releases, Counted, Told, Free, FromMncc;
    AskedMore(es, e);
    if e.request == SetupReq && e.answer != Reject {
      var a := Alloc(n, e.callref, false);
      var l := Focus(a, n.nextId);
      NewFits(l);
      if e.answer.OnConnection? {
        FromMnccSteps(Attach(l), SetupReq, e.answer.outcome);
        AttachSteps(l, FromMncc(Attach(l), SetupReq, e.answer.outcome));
        FromMnccKeeps(Attach(l), SetupReq, e.answer.outcome);
        PutAnswered(a, es, e, n.nextId, FromMncc(Attach(l), SetupReq, e.answer.outcome));
      } else {
        StaySteps(l, l);
        FreeSteps(l, l);
        FreeKeeps(l, |l.up|);
        PutAnswered(a, es, e, n.nextId, if e.answer.started then l else Free(l));
      }
    }
  }

  lemma {:induction false} RunAnswered(n: Net, es: seq<Event>)
    requires Start(n)
    ensures Answered(Run(n, es), es)
  {
    if es != [] {
      hide Start, Next, Inv, Answered;
      var before, e := es[..|es| - 1], es[|es| - 1];
      RunAnswered(n, before);
      Reachable(n, before);
      var r := Run(n, before);
      assert es == before + [e];
      match e {
        case MsFirst(_, _, _) => MsFirstAnswered(r, before, e);
        case MnccFirst(_, _, _) => MnccFirstAnswered(r, before, e);
        case BridgeFailed(_, _) => BridgeAnswered(r, before, e);
        case _ => ReactAnswered(r, before, e);
      }
    }
  }

  /** Over every run: a release confirmed to MNCC under a callref was asked for by MNCC, on the same transaction. */
  lemma ConfirmedOnRequest(n: Net, es: seq<Event>, i: nat)
    requires Start(n)
    ensures var r := Run(n, es);
            i < |r.up| && r.up[i].kind == RelCnf && r.up[i].callref != 0 ==>
              r.up[i].sender.Some?
              && exists k :: 0 <= k < |es| && es[k].MnccMessage? && es[k].request == RelReq
                             && es[k].id == r.up[i].sender.value
  {
    hide Run, Start;
    RunAnswered(n, es);
  }
}
