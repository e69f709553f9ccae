/** When the guard timer of a transaction runs. */
module CallControlGuard {
  import opened Options
  import opened CallControlSpec
  import opened CallControlLocal
  import opened CallControlRuns
  import opened CallControlCourse

  /** The guard timer runs from a set-up, or from a request of MNCC that is more than passed through, until the call is
      active. */
  predicate GuardAfter(t: Trans, e: Event) {
    if t.state != Active && CourseOf(t, e).next == Some(Active) then false
    else match e
      case MsMessage(_, m, _) => t.guard || (t.conn && t.state == Null && (m == Setup || m == EmergSetup))
      case MnccMessage(_, r, _) =>
        t.guard || r in {CallProcReq, AlertReq, SetupRsp, SetupReq, SetupComplReq, ModifyReq, ModifyRsp, ModifyRejReq,
                         RejReq, DiscReq, RelReq}
      case _ => t.guard
  }

  /** What the small steps do to the guard timer. */
  predicate GuardKept(l: Local, m: Local, s: State) {
    m.t.guard == (l.t.guard && s != Active) && m.t.state == s
  }

  lemma NewStateGuard(l: Local, s: State)
    ensures GuardKept(l, NewState(l, s), s)
  {
  }

  lemma SendGuard(l: Local, k: Kind)
    ensures Send(l, k).t.guard == l.t.guard && Send(l, k).t.state == l.t.state
  {
  }

  lemma TxReleaseGuard(l: Local)
    ensures TxRelease(l).t.guard == l.t.guard
  {
    hide NewState;
    var a := StartTimer(StopTimer(l), T308);
    NewStateGuard(a.(t := a.t.(t308Second := false)), ReleaseReq);
  }

  lemma UpGuard(l: Local, m: MsMsg, ok: bool)
    requires !l.freed && l.t.state in UpStates(m) && !Up(l, m, ok).freed
    ensures Up(l, m, ok).t.guard
         == ((l.t.guard || m == Setup || m == EmergSetup) && m !in {ConnectAck, ModifyCompl, ModifyReject})
  {
    hide Free, Send, NewState, AllStates;
    var a := StopTimer(l);
    if PassedOn(m).Some? {
      SendGuard(l, PassedOn(m).value);
    } else if Reported(m).Some? {
      NewStateGuard(a, Reported(m).value.0);
      SendGuard(NewState(a, Reported(m).value.0), Reported(m).value.1);
    } else {
      RestGuard(l, m, ok);
    }
  }

  lemma RestGuard(l: Local, m: MsMsg, ok: bool)
    requires !l.freed && PassedOn(m) == None && Reported(m) == None && !Up(l, m, ok).freed
    requires m != Notify
    ensures Up(l, m, ok).t.guard == (l.t.guard || m == Setup || m == EmergSetup)
  {
    hide Free, Send, NewState;
    match m {
      case CallConf =>
        var a := StartTimer(StopTimer(l), T310);
        NewStateGuard(a, MoTermCallConf);
        SendGuard(NewState(a, MoTermCallConf), CallConfInd);
      case Alerting =>
        var a := StartTimer(StopTimer(l), T301);
        NewStateGuard(a, CallReceived);
        SendGuard(NewState(a, CallReceived), AlertInd);
        FreeSends(NewState(a, CallReceived));
      case Modify =>
        NewStateGuard(l, MoOrigModify);
        SendGuard(NewState(l, MoOrigModify), ModifyInd);
      case Release => FreeSends(Forget(NewState(ReleaseInd(StopTimer(l)), Null)));
      case ReleaseCompl => ReleaseComplFollows(l, ok);
      case StatusEnq =>
      case _ => NewStateGuard(l.(t := l.t.(guard := true)), Initiated);
    }
  }

  /** Which messages make a call active. */
  lemma ActiveByMs(t: Trans, m: MsMsg, ok: bool)
    requires t.state in UpStates(m)
    ensures ByMs(t, m, ok).next == Some(Active) && t.state != Active <==> m in {ConnectAck, ModifyCompl, ModifyReject}
    ensures m == Setup || m == EmergSetup ==> t.state == Null
  {
  }

  lemma MsGuard(l: Local, m: MsMsg, ok: bool)
    requires !l.freed && l.t.conn && !FromMs(l, m, ok).freed
    ensures FromMs(l, m, ok).t.guard == GuardAfter(l.t, MsMessage(0, m, ok))
  {
    hide Up, Free, ByMs, UpStates, UpHandled;
    UpExactly(m, l.t.state);
    if UpHandled(m, l.t.state) {
      UpGuard(l, m, ok);
      ActiveByMs(l.t, m, ok);
    } else {
      UnhandledCourse(l.t, m, ok);
      FreeSends(l);
      SetupTaken(m);
    }
  }

  lemma SetupTaken(m: MsMsg)
    ensures m == Setup || m == EmergSetup ==> Null in UpStates(m)
  {
  }

  lemma DownGuard(l: Local, m: Local, r: Request, o: SetupOutcome)
    requires !m.freed && m.t.state in DownStates(r) && !Down(m, r, o).freed
    ensures Down(m, r, o).t.guard == (m.t.guard && r !in {SetupComplReq, ModifyRsp, ModifyRejReq})
  {
    hide Free, Send, NewState, TxRelease, AllStates;
    match r {
      case CallProcReq => NewStateGuard(m, MoCallProc);
      case AlertReq => NewStateGuard(m, CallDelivered);
      case SetupRsp => NewStateGuard(StartTimer(StopTimer(m), T313), ConnectInd);
      case ModifyReq => NewStateGuard(StartTimer(m, T323), MoTermModify);
      case DiscReq => NewStateGuard(StartTimer(StopTimer(m), T306), DisconnectInd);
      case SetupReq => SetUpGuard(m, o);
      case RejReq => FreeSends(StopTimer(Forget(m)));
      case RelReq => TxReleaseGuard(m);
      case SetupComplReq => NewStateGuard(m, Active);
      case ModifyRsp => NewStateGuard(m, Active);
      case ModifyRejReq => NewStateGuard(m, Active);
      case _ =>
    }
  }

  lemma SetUpGuard(m: Local, o: SetupOutcome)
    requires !TxSetup(m, o).freed
    ensures TxSetup(m, o).t.guard == m.t.guard
  {
    hide Free, Send, NewState;
    var a := StartTimer(m, T303);
    FreeSends(Forget(ReleaseInd(m)));
    FreeSends(Forget(ReleaseInd(a)));
    FreeSends(a);
    NewStateGuard(a.(t := a.t.(tidAssigned := true)), CallPresent);
  }

  lemma ActiveByMncc(t: Trans, r: Request, o: SetupOutcome)
    requires t.conn && t.state in DownStates(r)
    ensures ByMncc(t, r, o).next == Some(Active) && t.state != Active
            <==> r in {SetupComplReq, ModifyRsp, ModifyRejReq}
  {
    hide SetUp;
    SetUpNotActive(t, o);
  }

  lemma SetUpNotActive(t: Trans, o: SetupOutcome)
    ensures SetUp(t, o, true).next != Some(Active)
  {
  }

  lemma Restarting(r: Request)
    ensures RestartsGuard(r) <==> r in {CallProcReq, AlertReq, SetupRsp, SetupReq, SetupComplReq, ModifyReq, ModifyRsp,
                                        ModifyRejReq, RejReq, DiscReq, RelReq}
  {
  }

  lemma MnccGuard(l: Local, r: Request, o: SetupOutcome)
    requires !l.freed && !FromMncc(l, r, o).freed
    ensures FromMncc(l, r, o).t.guard == GuardAfter(l.t, MnccMessage(0, r, o))
  {
    hide Down, Free, Send, ByMncc, DownStates, DownHandled, RestartsGuard;
    var a := Contacted(l, r);
    DownExactly(r, l.t.state);
    Restarting(r);
    if !a.t.conn {
      FreeSends(Forget(Send(a, if r == RelReq then RelCnf else RelInd)));
    } else if DownHandled(r, a.t.state) {
      DownGuard(l, a, r, o);
      ActiveByMncc(l.t, r, o);
    } else {
      UnhandledRequest(l.t, r, o);
    }
  }

  lemma TimerGuard(l: Local)
    requires !l.freed && !Timeout(l).freed
    ensures Timeout(l).t.guard == l.t.guard
  {
    hide Free, Send, NewState, TxRelease;
    var f := l.(t := l.t.(armed := false));
    FreeSends(f);
    TxReleaseGuard(f);
    TxReleaseGuard(Forget(ReleaseInd(f)));
    SendGuard(f, ReleaseOf(f.t.state));
    SendGuard(f, DiscInd);
    NewStateGuard(StartTimer(StopTimer(f), T306), DisconnectInd);
    NewStateGuard(StartTimer(StopTimer(Send(f, DiscInd)), T306), DisconnectInd);
  }

  /** Whatever happens to a transaction that lives on, its guard timer is as GuardAfter says. */
  lemma GuardTaken(l: Local, e: Event)
    requires !l.freed && TransOk(l.t) && !React(l, e).freed
    ensures React(l, e).t.guard == GuardAfter(l.t, e)
  {
    hide Free, Send, FromMs, FromMncc, Timeout, TxSetup, CourseOf, TransOk;
    match e {
      case MsMessage(_, m, ok) => MsGuardAt(l, e);
      case MnccMessage(_, r, o) => MnccGuardAt(l, e);
      case _ =>
        if l.t.state != Active {
          OthersNotActive(l.t, e);
        }
        OtherGuard(l, e);
    }
  }

  lemma MsGuardAt(l: Local, e: Event)
    requires !l.freed && e.MsMessage? && !React(l, e).freed
    ensures React(l, e).t.guard == GuardAfter(l.t, e)
  {
    hide FromMs, ByMs;
    if l.t.conn {
      MsGuard(l, e.msg, e.ok);
    }
  }

  lemma MnccGuardAt(l: Local, e: Event)
    requires !l.freed && e.MnccMessage? && !React(l, e).freed
    ensures React(l, e).t.guard == GuardAfter(l.t, e)
  {
    hide FromMncc, ByMncc;
    MnccGuard(l, e.request, e.outcome);
  }

  lemma PagedGuard(l: Local, success: bool, o: SetupOutcome)
    requires !l.freed && !Paged(l, success, o).freed
    ensures Paged(l, success, o).t.guard == l.t.guard
  {
    hide Free, Send, TxSetup;
    FreeSends(Forget(ReleaseInd(l)));
    if success && !l.t.conn {
      SetUpGuard(l.(t := l.t.(conn := true)), o);
    }
  }

  lemma RtpGuard(l: Local, o: RtpOutcome)
    requires !l.freed && !RtpKnown(l, o).freed
    ensures RtpKnown(l, o).t.guard == l.t.guard
  {
    hide Free, Send;
    var a := l.(t := l.t.(setupStored := false));
    FreeSends(l);
    FreeSends(Forget(l));
    FreeSends(a);
    SendGuard(a, SetupInd);
    SendGuard(l, RtpCreate);
  }

  lemma AssignedGuard(l: Local, o: RtpOutcome)
    ensures AssignmentDone(l, o).t.guard == l.t.guard
  {
  }

  lemma OtherGuard(l: Local, e: Event)
    requires !l.freed && !e.MsMessage? && !e.MnccMessage? && !React(l, e).freed
    ensures React(l, e).t.guard == l.t.guard
  {
    hide Free, Send, FromMs, FromMncc, Timeout, Paged, RtpKnown, AssignmentDone;
    FreeSends(l);
    FreeSends(Forget(l));
    match e {
      case Expiry(_) =>
        if l.t.armed {
          TimerGuard(l);
        }
      case PagingResult(_, success, o) => PagedGuard(l, success, o);
      case RtpPort(_, o) => RtpGuard(l, o);
      case Assigned(_, o) => AssignedGuard(l, o);
      case RtpRefused(_, connect) => SendGuard(l, if connect then RtpConnect else RtpCreate);
      case _ =>
    }
  }
}
