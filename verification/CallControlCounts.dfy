/** Which calls are counted as complete, and what a modification does to the counters. */
module CallControlCounts {
  import opened Options
  import opened CallControlSpec
  import opened CallControlLocal
  import opened CallControlRuns

  /** The events by which one side hangs up. */
  predicate HangsUp(e: Event) {
    (e.MsMessage? && e.msg == Disconnect) || (e.MnccMessage? && e.request == DiscReq)
  }

  /** From a to b the call was counted as complete, as incomplete, or not at all. */
  predicate Outcome(a: Local, b: Local, complete: bool, incomplete: bool) {
    && b.counts.complete == a.counts.complete + (if complete then 1 else 0)
    && b.counts.incomplete == a.counts.incomplete + (if incomplete then 1 else 0)
  }

  predicate Left(b: Local) {
    b.freed || b.t.state != Active
  }

  lemma NewStateOutcome(l: Local, s: State)
    ensures var hung := s == DisconnectReq || s == DisconnectInd;
            Outcome(l, NewState(l, s), l.t.state == Active && hung, l.t.state == Active && s != Active && !hung)
    ensures NewState(l, s).t.state == s && NewState(l, s).freed == l.freed
  {
  }

  lemma SendOutcome(l: Local, k: Kind)
    ensures Outcome(l, Send(l, k), false, false)
    ensures Send(l, k).t.state == l.t.state && Send(l, k).t.conn == l.t.conn && Send(l, k).freed == l.freed
  {
  }

  lemma TxReleaseOutcome(l: Local)
    ensures var f := TxRelease(l);
            && Outcome(l, f, false, l.t.conn && l.t.state == Active)
            && f.t.state == (if l.t.conn then ReleaseReq else l.t.state) && f.freed == l.freed && f.t.conn == l.t.conn
  {
    hide NewState;
    var a := StartTimer(StopTimer(l), T308);
    NewStateOutcome(a.(t := a.t.(t308Second := false)), ReleaseReq);
    ConnKept(a.(t := a.t.(t308Second := false)), ReleaseReq);
  }

  lemma ConnKept(l: Local, s: State)
    ensures NewState(l, s).t.conn == l.t.conn
  {
  }

  lemma FreeReleasedOutcome(l: Local)
    ensures var f := FreeReleased(l);
            exists out :: Outcome(l, f, false, out) && (out ==> l.t.state == Active && f.t.state != Active)
                          && (!out ==> f.t.state == Active || l.t.state != Active)
                          && (l.t.state != Active ==> f.t.state != Active)
  {
    hide TxRelease, Outcome;
    TxReleaseOutcome(l);
    NothingOutcome(l);
    var out := l.t.callref != 0 && l.t.state != ReleaseReq && l.t.conn && l.t.state == Active;
    var c := if l.t.callref != 0 && l.t.state != ReleaseReq then TxRelease(l) else l;
    assert Outcome(l, c, false, out);
    StopOutcome(l, c, false, out);
    assert Outcome(l, FreeReleased(l), false, out);
  }

  lemma NothingOutcome(l: Local)
    ensures Outcome(l, l, false, false)
  {
  }

  lemma StopOutcome(l: Local, c: Local, complete: bool, incomplete: bool)
    requires Outcome(l, c, complete, incomplete)
    ensures Outcome(l, StopTimer(c), complete, incomplete)
    ensures StopTimer(c).t.state == c.t.state
  {
  }

  /** Freeing an active call counts it as incomplete, once. */
  lemma FreeOutcome(l: Local)
    ensures Outcome(l, Free(l), false, l.t.state == Active) && Free(l).freed
  {
    hide FreeReleased, NewState;
    var b := FreeTold(l);
    assert Outcome(l, b, false, false) && b.t.state == l.t.state;
    FreeReleasedOutcome(b);
    NewStateOutcome(FreeReleased(b), Null);
  }

  /** What is counted from a to b: the call as complete if it was active and hung up, as incomplete if it left ACTIVE in
      any other way. */
  predicate Counted(a: Local, b: Local, hung: bool) {
    Outcome(a, b, a.t.state == Active && hung, a.t.state == Active && !hung && Left(b))
  }

  lemma MoveCounted(l: Local, m: Local, s: State, hung: bool)
    requires m.counts == l.counts && m.t.state == l.t.state && !m.freed
    requires hung == (s == DisconnectReq || s == DisconnectInd)
    ensures Counted(l, NewState(m, s), hung)
  {
    NewStateOutcome(m, s);
  }

  lemma MoveAndSendCounted(l: Local, m: Local, s: State, k: Kind, hung: bool)
    requires m.counts == l.counts && m.t.state == l.t.state && !m.freed
    requires hung == (s == DisconnectReq || s == DisconnectInd)
    ensures Counted(l, Send(NewState(m, s), k), hung)
  {
    hide NewState, Send;
    NewStateOutcome(m, s);
    SendOutcome(NewState(m, s), k);
  }

  lemma FreeCounted(l: Local, m: Local)
    requires m.counts == l.counts && m.t.state == l.t.state
    ensures Counted(l, Free(m), false)
  {
    hide Free;
    FreeOutcome(m);
  }

  /** Freeing from a point where the call has left ACTIVE and was counted. */
  lemma FreeCountedBefore(l: Local, m: Local)
    requires Counted(l, m, false) && m.t.state != Active
    ensures Counted(l, Free(m), false)
  {
    hide Free;
    FreeOutcome(m);
  }

  lemma ReleasesCounted(l: Local)
    requires !l.freed
    ensures Counted(l, RxRelease(l), false) && Counted(l, RxReleaseCompl(l), false)
  {
    hide Free, Send, NewState;
    var a := StopTimer(l);
    var k := if a.t.state == ReleaseReq then RelCnf else RelInd;
    SendOutcome(a, k);
    NewStateOutcome(Send(a, k), Null);
    FreeCountedBefore(l, Forget(NewState(Send(a, k), Null)));
    var j := if a.t.state == CallPresent then RejInd else k;
    SendOutcome(a, j);
    SendCounts(a, j);
    FreeCounted(l, Forget(Send(a, j)));
    FreeCounted(l, Forget(a));
  }

  lemma SendCounts(l: Local, k: Kind)
    ensures Send(l, k).counts == l.counts
  {
  }

  lemma UpCounted(l: Local, m: MsMsg, ok: bool)
    requires !l.freed
    ensures Counted(l, Up(l, m, ok), m == Disconnect)
  {
    hide Counted, Free, NewState, Send, RxSetup, RxRelease, RxReleaseCompl;
    if PassedOn(m).Some? {
      SentCounted(l, PassedOn(m).value);
    } else if Reported(m).Some? {
      MoveAndSendCounted(l, StopTimer(l), Reported(m).value.0, Reported(m).value.1, m == Disconnect);
    } else {
      RestCounted(l, m, ok);
    }
  }

  lemma SentCounted(l: Local, k: Kind)
    requires !l.freed
    ensures Counted(l, Send(l, k), false) && Counted(l, l, false)
  {
  }

  lemma RestCounted(l: Local, m: MsMsg, ok: bool)
    requires !l.freed && PassedOn(m) == None && Reported(m) == None
    ensures Counted(l, Up(l, m, ok), false)
  {
    hide Counted, Free, NewState, Send, RxSetup, RxRelease, RxReleaseCompl;
    SentCounted(l, ModifyInd);
    match m {
      case Setup => SetupCounted(l);
      case EmergSetup => SetupCounted(l);
      case CallConf =>
        var a := StartTimer(StopTimer(l), T310);
        StaysCounted(l, a);
        MoveAndSendCounted(l, a, MoTermCallConf, CallConfInd, false);
      case Alerting =>
        var a := StartTimer(StopTimer(l), T301);
        MoveAndSendCounted(l, a, CallReceived, AlertInd, false);
        MoveCounted(l, a, CallReceived, false);
        NewStateOutcome(a, CallReceived);
        FreeCountedBefore(l, NewState(a, CallReceived));
      case Modify => MoveAndSendCounted(l, l, MoOrigModify, ModifyInd, false);
      case Release => ReleasesCounted(l);
      case ReleaseCompl => ReleasesCounted(l);
      case _ =>
    }
  }

  lemma StaysCounted(l: Local, m: Local)
    requires !m.freed && m.counts == l.counts && m.t.state == l.t.state
    ensures Counted(l, m, false)
  {
  }

  lemma SetupCounted(l: Local)
    requires !l.freed
    ensures Counted(l, RxSetup(l), false)
  {
    hide NewState;
    NewStateOutcome(l.(t := l.t.(guard := true)), Initiated);
  }

  lemma FromMsCounted(l: Local, m: MsMsg, ok: bool)
    requires !l.freed && (l.t.state == Active && m == Disconnect ==> UpHandled(m, l.t.state))
    ensures Counted(l, FromMs(l, m, ok), m == Disconnect)
  {
    hide Up, UpHandled, Free;
    UpCounted(l, m, ok);
    if l.t.state == Null {
      FreeCounted(l, l);
    }
  }

  lemma TxReleaseCounted(l: Local, m: Local)
    requires !m.freed && m.counts == l.counts && m.t.state == l.t.state
    ensures Counted(l, TxRelease(m), false)
  {
    hide TxRelease;
    TxReleaseOutcome(m);
  }

  lemma TxSetupCounted(l: Local, m: Local, o: SetupOutcome)
    requires !m.freed && m.counts == l.counts && m.t.state == l.t.state
    ensures Counted(l, TxSetup(m, o), false)
  {
    hide Counted, Free, NewState, Send;
    var a := StartTimer(m, T303);
    var k := if m.t.state == ReleaseReq then RelCnf else RelInd;
    SendOutcome(m, k);
    SendOutcome(a, k);
    SendCounts(m, k);
    SendCounts(a, k);
    FreeCounted(l, Forget(Send(m, k)));
    FreeCounted(l, Forget(Send(a, k)));
    FreeCounted(l, a);
    MoveCounted(l, a.(t := a.t.(tidAssigned := true)), CallPresent, false);
  }

  lemma DownCounted(l: Local, m: Local, r: Request, o: SetupOutcome)
    requires !m.freed && m.counts == l.counts && m.t.state == l.t.state
    ensures Counted(l, Down(m, r, o), r == DiscReq)
  {
    hide Counted, Free, NewState, TxSetup, TxRelease;
    match r {
      case CallProcReq => MoveCounted(l, m, MoCallProc, false);
      case AlertReq => MoveCounted(l, m, CallDelivered, false);
      case SetupRsp => MoveCounted(l, StartTimer(StopTimer(m), T313), ConnectInd, false);
      case SetupReq => TxSetupCounted(l, m, o);
      case ModifyReq => MoveCounted(l, StartTimer(m, T323), MoTermModify, false);
      case RejReq => FreeCounted(l, StopTimer(Forget(m)));
      case DiscReq => MoveCounted(l, StartTimer(StopTimer(m), T306), DisconnectInd, true);
      case RelReq => TxReleaseCounted(l, m);
      case SetupComplReq => MoveCounted(l, m, Active, false);
      case ModifyRsp => MoveCounted(l, m, Active, false);
      case ModifyRejReq => MoveCounted(l, m, Active, false);
      case _ => StaysCounted(l, m);
    }
  }

  lemma FromMnccCounted(l: Local, r: Request, o: SetupOutcome)
    requires !l.freed && (l.t.state == Active ==> l.t.conn && (r == DiscReq ==> DownHandled(r, Active)))
    ensures Counted(l, FromMncc(l, r, o), r == DiscReq)
  {
    hide Free, Down, Send, DownHandled, RestartsGuard;
    var a := Contacted(l, r);
    var k := if r == RelReq then RelCnf else RelInd;
    SendOutcome(a, k);
    SendCounts(a, k);
    FreeCounted(l, Forget(Send(a, k)));
    DownCounted(l, a, r, o);
    StaysCounted(l, a);
  }

  /** Hanging up an active call finds its routine on both sides. */
  lemma HangUpHandled()
    ensures UpHandled(Disconnect, Active) && DownHandled(DiscReq, Active)
  {
    assert UP_TABLE[17] == UpRow(AllStates() - {Null, ReleaseReq}, Disconnect);
    assert DOWN_TABLE[20] == DownRow(AllStates() - {Null, DisconnectInd, ReleaseReq, DisconnectReq}, DiscReq);
  }

  lemma TimeoutCounted(l: Local)
    requires !l.freed && l.t.state != Active
    ensures Counted(l, Timeout(l), false)
  {
    hide Free, Send, TxRelease, NewState;
    var f := l.(t := l.t.(armed := false));
    FreeOutcome(f);
    TxReleaseOutcome(f);
    ReleaseCounted(f);
    DisconnectCounted(f);
  }

  lemma ReleaseCounted(f: Local)
    requires f.t.state != Active
    ensures Outcome(f, TxRelease(if f.t.callref != 0 then Forget(ReleaseInd(f)) else f), false, false)
  {
    hide Send, TxRelease;
    var k := if f.t.state == ReleaseReq then RelCnf else RelInd;
    SendOutcome(f, k);
    TxReleaseOutcome(Forget(Send(f, k)));
    TxReleaseOutcome(f);
  }

  lemma DisconnectCounted(f: Local)
    requires f.t.state != Active
    ensures Outcome(f, Disconnected(f), false, false)
  {
    hide Send, NewState;
    SendOutcome(f, DiscInd);
    NewStateOutcome(StartTimer(StopTimer(f), T306), DisconnectInd);
    NewStateOutcome(StartTimer(StopTimer(Send(f, DiscInd)), T306), DisconnectInd);
  }

  lemma PagedCounted(l: Local, success: bool, o: SetupOutcome)
    requires !l.freed
    ensures Counted(l, Paged(l, success, o), false)
  {
    hide Free, Send, TxSetup;
    var k := if l.t.state == ReleaseReq then RelCnf else RelInd;
    StaysCounted(l, l);
    TxSetupCounted(l, l.(t := l.t.(conn := true)), o);
    SendOutcome(l, k);
    SendCounts(l, k);
    FreeCounted(l, Forget(Send(l, k)));
  }

  lemma RtpCounted(l: Local, o: RtpOutcome)
    requires !l.freed
    ensures Counted(l, RtpKnown(l, o), false) && Counted(l, AssignmentDone(l, o), false)
  {
    hide Free, Send;
    var a := l.(t := l.t.(setupStored := false));
    StaysCounted(l, l);
    FreeCounted(l, l);
    FreeCounted(l, Forget(l));
    FreeCounted(l, a);
    SendOutcome(l, RtpCreate);
    SendOutcome(a, SetupInd);
  }

  /** Whatever happens to a transaction: the call is counted as complete exactly if it was active and one side hung up,
      and as incomplete exactly if it left ACTIVE otherwise. */
  lemma CountedExactly(l: Local, e: Event)
    requires !l.freed && TransOk(l.t)
    ensures Counted(l, React(l, e), HangsUp(e))
  {
    hide Free, Send, FromMs, FromMncc, Timeout, Paged, RtpKnown, AssignmentDone;
    HangUpHandled();
    StaysCounted(l, l);
    match e {
      case MsMessage(_, m, ok) => FromMsCounted(l, m, ok);
      case MnccMessage(_, r, o) => FromMnccCounted(l, r, o);
      case Expiry(_) => if l.t.armed { TimeoutCounted(l); }
      case PagingResult(_, success, o) => PagedCounted(l, success, o);
      case RtpPort(_, o) => RtpCounted(l, o);
      case Assigned(_, o) => RtpCounted(l, o);
      case RtpRefused(_, connect) => SentCounted(l, if connect then RtpConnect else RtpCreate);
      case MnccLost(_) => FreeCounted(l, Forget(l));
      case _ => FreeCounted(l, l);
    }
  }

  // ---- Over runs ----

  function Hung(n: Net, id: nat): nat {
    if id in n.trans && n.trans[id].state == Active then 1 else 0
  }

  /** How many active calls an event hangs up; a failed bridge hangs up both of its calls. */
  function HangUps(n: Net, e: Event): nat {
    match e
    case BridgeFailed(id, other) =>
      if id in n.trans && other in n.trans then Hung(n, id) + (if other == id then 0 else Hung(n, other)) else 0
    case MsFirst(_, _, _) => 0
    case MnccFirst(_, _, _) => 0
    case _ => if HangsUp(e) then Hung(n, e.id) else 0
  }

  function HangUpsIn(n: Net, es: seq<Event>): nat {
    if es == [] then 0
    else HangUpsIn(n, es[..|es| - 1]) + HangUps(Run(n, es[..|es| - 1]), es[|es| - 1])
  }

  lemma UnbridgeCounted(n: Net, id: nat)
    requires id in n.trans
    ensures var n' := Unbridge(n, id);
            && n'.counts.complete == n.counts.complete + Hung(n, id)
            && n'.trans == n.trans[id := n'.trans[id]] && id in n'.trans && n'.trans[id].state == DisconnectInd
  {
    hide NewState;
    NewStateOutcome(StartTimer(StopTimer(Focus(n, id)), T306), DisconnectInd);
  }

  lemma BridgeCounted(n: Net, id: nat, other: nat)
    ensures Next(n, BridgeFailed(id, other)).counts.complete
         == n.counts.complete + HangUps(n, BridgeFailed(id, other))
  {
    hide Unbridge;
    if id in n.trans && other in n.trans {
      UnbridgeCounted(n, id);
      UnbridgeCounted(Unbridge(n, id), other);
    }
  }

  lemma FirstCounted(n: Net, e: Event)
    requires e.MsFirst? || e.MnccFirst?
    ensures Next(n, e).counts.complete == n.counts.complete
  {
    hide Free, FromMs, FromMncc;
    match e {
      case MsFirst(m, accepted, ok) =>
        var l := Local(NewTrans(n.nextId, NextCallref(n.lastCallref), true), n.up, n.counts, false);
        FromMsCounted(Attach(l), m, ok);
        FreeCounted(l, l);
      case MnccFirst(callref, r, answer) =>
        var l := Local(NewTrans(n.nextId, callref, false), n.up, n.counts, false);
        FreeCounted(l, l);
        if answer.OnConnection? {
          FromMnccCounted(Attach(l), SetupReq, answer.outcome);
        }
    }
  }

  lemma EventCounted(n: Net, e: Event)
    requires Inv(n)
    ensures Next(n, e).counts.complete == n.counts.complete + HangUps(n, e)
  {
    match e {
      case BridgeFailed(id, other) => BridgeCounted(n, id, other);
      case MsFirst(_, _, _) => FirstCounted(n, e);
      case MnccFirst(_, _, _) => FirstCounted(n, e);
      case _ =>
        hide React, HangsUp, TransOk;
        if e.id in n.trans {
          CountedExactly(Focus(n, e.id), e);
        }
    }
  }

  /** Over every run the complete calls are the calls that were hung up while active. */
  lemma {:induction false} CompleteIsHungUp(n: Net, es: seq<Event>)
    requires Start(n)
    ensures Run(n, es).counts.complete == HangUpsIn(n, es)
  {
    hide Start, Next, HangUps, Inv;
    if es == [] {
      NothingYet(n);
    } else {
      CompleteIsHungUp(n, es[..|es| - 1]);
      Reachable(n, es[..|es| - 1]);
      EventCounted(Run(n, es[..|es| - 1]), es[|es| - 1]);
    }
  }

  lemma NothingYet(n: Net)
    requires Start(n)
    ensures n.counts.complete == 0
  {
  }

  /** Modifying an active call counts it as incomplete, and the end of the modification as another activation, although
      the call goes on. */
  lemma ModificationCounted(l: Local, id: nat)
    requires !l.freed && TransOk(l.t) && l.t.state == Active && l.t.conn
    ensures var a := React(l, MsMessage(id, Modify, true));
            var b := React(a, MnccMessage(id, ModifyRsp, SetupOk));
            && !a.freed && a.t.state == MoOrigModify && !b.freed && b.t.state == Active
            && b.counts == l.counts.(activated := l.counts.activated + 1, incomplete := l.counts.incomplete + 1)
  {
    ModifyHandled();
    assert UpHandled(Modify, Active) && DownHandled(ModifyRsp, MoOrigModify);
  }

  lemma ModifyHandled()
    ensures UpHandled(Modify, Active) && DownHandled(ModifyRsp, MoOrigModify)
  {
    assert UP_TABLE[13] == UpRow({Active}, Modify);
    assert DOWN_TABLE[16] == DownRow({MoOrigModify}, ModifyRsp);
  }
}
