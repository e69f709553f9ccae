/** Call control as gsm_04_08_cc.c runs it: routines that change a transaction and the network's counters and MNCC
    queue step by step. Each is proved to do what its function in CallControlSpec says. */
module CallControl {
  import opened Options
  import opened CallControlSpec
  import Spec = CallControlSpec

  /** The part of struct gsm_network that call control writes. */
  class Network {
    var up: seq<Msg>
    var counts: Counters

    constructor ()
      ensures up == [] && counts == Counters(0, 0, 0, 0)
    {
      up, counts := [], Counters(0, 0, 0, 0);
    }
  }

  /** The search in datastatelist; the length of the table tells that no routine was found. */
  method FindUp(table: seq<UpRow>, m: MsMsg, s: State) returns (i: nat)
    ensures i <= |table|
    ensures i < |table| ==> table[i].msg == m && s in table[i].states
    ensures i < |table| <==> InUpTable(table, m, s)
  {
    i := 0;
    while i < |table| && !(table[i].msg == m && s in table[i].states)
      invariant 0 <= i <= |table|
      invariant forall k :: 0 <= k < i ==> !(table[k].msg == m && s in table[k].states)
    {
      i := i + 1;
    }
  }

  /** The search in downstatelist. */
  method FindDown(table: seq<DownRow>, r: Request, s: State) returns (i: nat)
    ensures i <= |table|
    ensures i < |table| ==> table[i].request == r && s in table[i].states
    ensures i < |table| <==> InDownTable(table, r, s)
  {
    i := 0;
    while i < |table| && !(table[i].request == r && s in table[i].states)
      invariant 0 <= i <= |table|
      invariant forall k :: 0 <= k < i ==> !(table[k].request == r && s in table[k].states)
    {
      i := i + 1;
    }
  }

  /** struct gsm_trans */
  class Transaction {
    const net: Network
    const id: nat
    var callref: Callref
    var conn: bool
    var state: State
    var armed: bool
    var tcurrent: Option<Timer>
    var t308Second: bool
    var mnccInitiated: bool
    var guard: bool
    var tidAssigned: bool
    var setupStored: bool
    var freed: bool

    function Fields(): Trans
      reads this
    {
      Trans(id, callref, conn, state, armed, tcurrent, t308Second, mnccInitiated, guard, tidAssigned, setupStored)
    }

    function View(): Local
      reads this, net
    {
      Local(Fields(), net.up, net.counts, freed)
    }

    /** trans_alloc() */
    constructor (net: Network, id: nat, callref: Callref, tidAssigned: bool)
      ensures this.net == net && this.id == id
      ensures View() == Local(Trans(id, callref, false, Null, false, None, false, false, false, tidAssigned, false),
                              net.up, net.counts, false)
    {
      this.net, this.id, this.callref, this.tidAssigned := net, id, callref, tidAssigned;
      conn, state, armed, tcurrent, t308Second := false, Null, false, None, false;
      mnccInitiated, guard, setupStored, freed := false, false, false, false;
    }

    /** A connection is assigned. */
    method Assign()
      modifies this
      ensures View() == old(View()).(t := old(Fields()).(conn := true))
    {
      conn := true;
    }

    method CountStatistics(newState: State)
      modifies net`counts
      ensures net.counts == Count(old(net.counts), state, newState)
    {
      if state == newState {
        return;
      }
      if newState == Active {
        net.counts := net.counts.(gauge := net.counts.gauge + 1);
        net.counts := net.counts.(activated := net.counts.activated + 1);
      }
      if state == Active {
        net.counts := net.counts.(gauge := net.counts.gauge - 1);
        if newState == DisconnectReq || newState == DisconnectInd {
          net.counts := net.counts.(complete := net.counts.complete + 1);
        } else {
          net.counts := net.counts.(incomplete := net.counts.incomplete + 1);
        }
      }
    }

    method NewCcState(newState: State)
      modifies this, net
      ensures View() == NewState(old(View()), newState)
    {
      CountStatistics(newState);
      state := newState;
      if newState == Active {
        guard := false;
      }
    }

    method StopCcTimer()
      modifies this
      ensures View() == StopTimer(old(View()))
    {
      if armed {
        armed := false;
        tcurrent := None;
      }
    }

    method StartCcTimer(timer: Timer)
      modifies this
      ensures View() == StartTimer(old(View()), timer)
    {
      armed := true;
      tcurrent := Some(timer);
    }

    method MnccRecvmsg(kind: Kind)
      modifies this, net
      ensures View() == Send(old(View()), kind)
    {
      net.up := net.up + [Msg(kind, callref, Some(id))];
      mnccInitiated := true;
    }

    method MnccReleaseInd()
      modifies this, net
      ensures View() == ReleaseInd(old(View()))
    {
      if state == ReleaseReq {
        MnccRecvmsg(RelCnf);
        return;
      }
      MnccRecvmsg(RelInd);
    }

    method ForgetCallref()
      modifies this
      ensures View() == Forget(old(View()))
    {
      callref := 0;
    }

    // ---- Towards the mobile station ----

    method TxRelease()
      modifies this, net
      ensures View() == Spec.TxRelease(old(View()))
    {
      hide NewState;
      if !conn {
        return;
      }
      StopCcTimer();
      StartCcTimer(T308);
      t308Second := false;
      if state != ReleaseReq {
        NewCcState(ReleaseReq);
      }
    }

    method TxDisconnect()
      modifies this, net
      ensures View() == Spec.TxDisconnect(old(View()))
    {
      hide NewState, StopTimer, StartTimer;
      StopCcTimer();
      StartCcTimer(T306);
      NewCcState(DisconnectInd);
    }

    method TxSetup(outcome: SetupOutcome)
      modifies this, net
      ensures View() == Spec.TxSetup(old(View()), outcome)
    {
      hide NewState, Forget, ReleaseInd, Free;
      if tidAssigned || outcome == SetupNoTid {
        MnccReleaseInd();
        ForgetCallref();
        TransFree();
        return;
      }
      StartCcTimer(T303);
      if outcome == SetupReleased {
        MnccReleaseInd();
        ForgetCallref();
        TransFree();
      } else if outcome == SetupFailed {
        TransFree();
      } else {
        tidAssigned := true;
        NewCcState(CallPresent);
      }
    }

    // ---- The end of a transaction ----

    method TransFree()
      modifies this, net
      ensures View() == Free(old(View()))
    {
      hide NewState, StopTimer, Spec.TxRelease, ReleaseInd;
      StopCcTimer();
      if callref != 0 {
        if mnccInitiated {
          MnccReleaseInd();
        }
        ghost var told := View();
        SendKeeps(StopTimer(old(View())));
        assert told == FreeTold(old(View()));
        if state != ReleaseReq {
          TxRelease();
        }
        TxReleaseKeeps(told);
        StopCcTimer();
        assert View() == FreeReleased(told);
      }
      if state != Null {
        NewCcState(Null);
      }
      guard := false;
      freed := true;
    }

    method CcTimeout()
      requires armed
      modifies this, net
      ensures View() == Timeout(old(View()))
    {
      hide ReleaseInd, Spec.TxRelease, Spec.TxDisconnect, Free, Send, Forget;
      armed := false;
      var disconnect, release := false, false;
      match tcurrent {
        case Some(T310) => disconnect := true;
        case Some(T313) => disconnect := true;
        case Some(T301) => disconnect := true;
        case Some(T323) => disconnect := true;
        case Some(T308) =>
          if !t308Second {
            TxRelease();
            t308Second := true;
          } else {
            TransFree();
          }
          return;
        case _ => release := true;
      }
      if release && callref != 0 {
        MnccReleaseInd();
        ForgetCallref();
      }
      if disconnect && callref != 0 {
        MnccRecvmsg(DiscInd);
      }
      if disconnect {
        TxDisconnect();
      }
      if release {
        TxRelease();
      }
    }

    // ---- From the mobile station ----

    method RxSetup()
      modifies this, net
      ensures View() == Spec.RxSetup(old(View()))
    {
      hide NewState;
      ghost var l := old(View());
      guard := true;
      ghost var a := View();
      assert a == l.(t := l.t.(guard := true));
      NewCcState(Initiated);
      ghost var b := View();
      setupStored := true;
      assert View() == b.(t := b.t.(setupStored := true));
    }

    method RxRelease()
      modifies this, net
      ensures View() == Spec.RxRelease(old(View()))
    {
      hide NewState, Send, Free, Forget;
      StopCcTimer();
      if state == ReleaseReq {
        MnccRecvmsg(RelCnf);
      } else {
        MnccRecvmsg(RelInd);
      }
      NewCcState(Null);
      ForgetCallref();
      TransFree();
    }

    method RxReleaseCompl()
      modifies this, net
      ensures View() == Spec.RxReleaseCompl(old(View()))
    {
      hide Send, Free, Forget;
      StopCcTimer();
      if callref != 0 {
        match state {
          case CallPresent => MnccRecvmsg(RejInd);
          case ReleaseReq => MnccRecvmsg(RelCnf);
          case _ => MnccRecvmsg(RelInd);
        }
      }
      ForgetCallref();
      TransFree();
    }

    method RxCallConf(ok: bool)
      modifies this, net
      ensures View() == Up(old(View()), CallConf, ok)
    {
      hide NewState, Send;
      StopCcTimer();
      StartCcTimer(T310);
      if !ok {
        return;
      }
      NewCcState(MoTermCallConf);
      MnccRecvmsg(CallConfInd);
    }

    method RxAlerting(ok: bool)
      modifies this, net
      ensures View() == Up(old(View()), Alerting, ok)
    {
      hide NewState, Send, Free;
      StopCcTimer();
      StartCcTimer(T301);
      NewCcState(CallReceived);
      if !ok {
        TransFree();
        return;
      }
      MnccRecvmsg(AlertInd);
    }

    /** The routines that stop the timer, change the state and report it. */
    method RxReported(newState: State, kind: Kind)
      modifies this, net
      ensures View() == Send(NewState(StopTimer(old(View())), newState), kind)
    {
      hide NewState, Send, StopTimer;
      StopCcTimer();
      NewCcState(newState);
      MnccRecvmsg(kind);
    }

    method RxModify()
      modifies this, net
      ensures View() == Up(old(View()), Modify, true)
    {
      hide NewState, Send;
      NewCcState(MoOrigModify);
      MnccRecvmsg(ModifyInd);
    }

    method UpRoutine(m: MsMsg, ok: bool)
      modifies this, net
      ensures View() == Up(old(View()), m, ok)
    {
      hide NewState, Send, StopTimer, Free, Spec.RxSetup, Spec.RxRelease, Spec.RxReleaseCompl;
      match m {
        case Setup => RxSetup();
        case EmergSetup => RxSetup();
        case ConnectAck => RxReported(Active, SetupComplInd);
        case CallConf => RxCallConf(ok);
        case Alerting => RxAlerting(ok);
        case Connect => RxReported(ConnectRequest, SetupCnf);
        case Facility => MnccRecvmsg(FacilityInd);
        case Notify => MnccRecvmsg(NotifyInd);
        case StartDtmf => MnccRecvmsg(StartDtmfInd);
        case StopDtmf => MnccRecvmsg(StopDtmfInd);
        case StatusEnq =>
        case Hold => MnccRecvmsg(HoldInd);
        case Retrieve => MnccRecvmsg(RetrieveInd);
        case Modify => RxModify();
        case ModifyCompl => RxReported(Active, ModifyCnf);
        case ModifyReject => RxReported(Active, ModifyRej);
        case UserInfo => MnccRecvmsg(UserinfoInd);
        case Disconnect => RxReported(DisconnectReq, DiscInd);
        case Release => RxRelease();
        case ReleaseCompl => RxReleaseCompl();
      }
    }

    /** gsm0408_rcv_cc(), from the table search on. */
    method RcvCc(m: MsMsg, ok: bool)
      modifies this, net
      ensures View() == FromMs(old(View()), m, ok)
    {
      hide Up, InUpTable, Free;
      var i := FindUp(UP_TABLE, m, state);
      if i == |UP_TABLE| {
        if state == Null {
          TransFree();
        }
        return;
      }
      UpRoutine(m, ok);
    }

    // ---- From MNCC ----

    method TxConnect()
      modifies this, net
      ensures View() == Down(old(View()), SetupRsp, SetupOk)
    {
      hide NewState;
      StopCcTimer();
      StartCcTimer(T313);
      NewCcState(ConnectInd);
    }

    method TxReleaseCompl()
      modifies this, net
      ensures View() == Down(old(View()), RejReq, SetupOk)
    {
      hide Free, Forget, StopTimer;
      ForgetCallref();
      StopCcTimer();
      TransFree();
    }

    method TxModify()
      modifies this, net
      ensures View() == Down(old(View()), ModifyReq, SetupOk)
    {
      hide NewState, StartTimer;
      StartCcTimer(T323);
      NewCcState(MoTermModify);
    }

    method DownRoutine(r: Request, outcome: SetupOutcome)
      modifies this, net
      ensures View() == Down(old(View()), r, outcome)
    {
      hide NewState, StopTimer, StartTimer, Free, Forget, Spec.TxSetup, Spec.TxDisconnect, Spec.TxRelease;
      match r {
        case CallProcReq => NewCcState(MoCallProc);
        case AlertReq => NewCcState(CallDelivered);
        case SetupRsp => TxConnect();
        case SetupReq => TxSetup(outcome);
        case SetupComplReq => NewCcState(Active);
        case ModifyReq => TxModify();
        case ModifyRsp => NewCcState(Active);
        case ModifyRejReq => NewCcState(Active);
        case RejReq => TxReleaseCompl();
        case DiscReq => TxDisconnect();
        case RelReq => TxRelease();
        case _ =>
      }
    }

    method NoteContact(r: Request)
      modifies this
      ensures View() == Contacted(old(View()), r)
    {
      if RestartsGuard(r) {
        guard := true;
      }
      mnccInitiated := true;
    }

    /** mncc_tx_to_gsm_cc(), once the transaction is found or made. */
    method TxToGsmCc(r: Request, outcome: SetupOutcome)
      modifies this, net
      ensures View() == FromMncc(old(View()), r, outcome)
    {
      hide Down, InDownTable, Free, Send, Forget, Contacted;
      NoteContact(r);
      ContactKeeps(old(View()), r);
      if !conn {
        if r == RelReq {
          MnccRecvmsg(RelCnf);
        } else {
          MnccRecvmsg(RelInd);
        }
        ForgetCallref();
        TransFree();
        return;
      }
      var i := FindDown(DOWN_TABLE, r, state);
      if i < |DOWN_TABLE| {
        DownRoutine(r, outcome);
      }
    }

    method PagingCb(success: bool, outcome: SetupOutcome)
      modifies this, net
      ensures View() == Paged(old(View()), success, outcome)
    {
      hide Spec.TxSetup, ReleaseInd, Forget, Free;
      if conn {
        return;
      }
      if success {
        conn := true;
        TxSetup(outcome);
      } else {
        MnccReleaseInd();
        ForgetCallref();
        TransFree();
      }
    }

    method SetupRtpPortKnown(outcome: RtpOutcome)
      requires state == Initiated && setupStored
      modifies this, net
      ensures View() == RtpKnown(old(View()), outcome)
    {
      hide Forget, Free, Send;
      if !conn {
        ForgetCallref();
        TransFree();
        return;
      }
      setupStored := false;
      if outcome == RtpAbort {
        TransFree();
      } else {
        MnccRecvmsg(SetupInd);
      }
    }

    method MtRtpPortKnown(outcome: RtpOutcome)
      requires state == MoTermCallConf
      modifies this, net
      ensures View() == RtpKnown(old(View()), outcome)
    {
      hide Forget, Free, Send;
      if !conn {
        ForgetCallref();
        TransFree();
      } else if outcome == RtpAbort {
        TransFree();
      } else if outcome == RtpReady {
        MnccRecvmsg(RtpCreate);
      }
    }

    method OnCnLocalRtpPortKnown(outcome: RtpOutcome)
      modifies this, net
      ensures View() == RtpKnown(old(View()), outcome)
    {
      hide Forget, Free, Send;
      match state {
        case Initiated =>
          if setupStored {
            SetupRtpPortKnown(outcome);
          }
        case MoTermCallConf => MtRtpPortKnown(outcome);
        case _ =>
      }
    }

    method OnAssignmentDone(outcome: RtpOutcome)
      modifies this, net
      ensures View() == AssignmentDone(old(View()), outcome)
    {
      hide Send;
      match state {
        case Initiated =>
        case MoCallProc =>
        case CallReceived =>
        case MoTermCallConf =>
        case _ => return;
      }
      if outcome == RtpReady {
        MnccRecvmsg(RtpCreate);
      }
    }
  }

  lemma ContactKeeps(l: Local, r: Request)
    ensures Contacted(l, r).t.conn == l.t.conn && Contacted(l, r).t.state == l.t.state
  {
  }

  lemma SendKeeps(l: Local)
    ensures ReleaseInd(l).t.state == l.t.state && ReleaseInd(l).t.callref == l.t.callref
  {
  }

  lemma NewStateKeeps(l: Local, s: State)
    ensures NewState(l, s).t.callref == l.t.callref
  {
  }

  lemma TxReleaseKeeps(l: Local)
    ensures Spec.TxRelease(l).t.callref == l.t.callref
  {
    hide NewState;
    var a := StartTimer(StopTimer(l), T308);
    NewStateKeeps(a.(t := a.t.(t308Second := false)), ReleaseReq);
  }
}
