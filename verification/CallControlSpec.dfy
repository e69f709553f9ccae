/** Call control of gsm_04_08_cc.c as functions on one transaction and the state it shares with the others:
    the queue of messages to MNCC and the call counters. */
module CallControlSpec {
  import opened Options

  type Callref = x: int | 0 <= x < 0x1_0000_0000

  /** The states of 3GPP TS 24.008 that the network side uses. */
  datatype State =
    | Null | Initiated | MoCallProc | CallDelivered | CallPresent | CallReceived | ConnectRequest
    | MoTermCallConf | Active | DisconnectReq | DisconnectInd | ReleaseReq | MoOrigModify | MoTermModify | ConnectInd

  datatype Timer = T301 | T303 | T306 | T308 | T310 | T313 | T323

  /** Messages to MNCC. */
  datatype Kind =
    | SetupInd | CallConfInd | AlertInd | SetupCnf | SetupComplInd | DiscInd | RelInd | RelCnf | RejInd
    | FacilityInd | NotifyInd | HoldInd | RetrieveInd | StartDtmfInd | StopDtmfInd
    | ModifyInd | ModifyCnf | ModifyRej | UserinfoInd | RtpCreate | RtpConnect

  predicate IsRelease(k: Kind) {
    k == RelInd || k == RelCnf || k == RejInd
  }

  /** A queued message: its type, the callref it carries and the transaction it was sent for, if any. */
  datatype Msg = Msg(kind: Kind, callref: Callref, sender: Option<nat>)

  /** The call control part of struct gsm_trans. */
  datatype Trans = Trans(
    id: nat,
    callref: Callref,
    conn: bool,             // an MSC-A connection is attached
    state: State,
    armed: bool,            // cc.timer is pending
    tcurrent: Option<Timer>,
    t308Second: bool,
    mnccInitiated: bool,
    guard: bool,            // cc.timer_guard is pending
    tidAssigned: bool,
    setupStored: bool       // cc.msg holds an MNCC_SETUP_IND that waits for the RTP port
  )

  datatype Counters = Counters(gauge: int, activated: nat, complete: nat, incomplete: nat)

  /** One transaction together with what it shares; freed once trans_free() is through. */
  datatype Local = Local(t: Trans, up: seq<Msg>, counts: Counters, freed: bool)

  // ---- Small steps ----

  /** count_statistics() */
  function Count(c: Counters, was: State, now: State): Counters {
    if was == now then c
    else if now == Active then c.(gauge := c.gauge + 1, activated := c.activated + 1)
    else if was != Active then c
    else if now == DisconnectReq || now == DisconnectInd then c.(gauge := c.gauge - 1, complete := c.complete + 1)
    else c.(gauge := c.gauge - 1, incomplete := c.incomplete + 1)
  }

  /** new_cc_state() */
  function NewState(l: Local, s: State): Local {
    l.(t := l.t.(state := s, guard := l.t.guard && s != Active), counts := Count(l.counts, l.t.state, s))
  }

  /** gsm48_stop_cc_timer() */
  function StopTimer(l: Local): Local {
    if l.t.armed then l.(t := l.t.(armed := false, tcurrent := None)) else l
  }

  /** gsm48_start_cc_timer() */
  function StartTimer(l: Local, timer: Timer): Local {
    l.(t := l.t.(armed := true, tcurrent := Some(timer)))
  }

  /** mncc_recvmsg() */
  function Send(l: Local, k: Kind): Local {
    l.(t := l.t.(mnccInitiated := true), up := l.up + [Msg(k, l.t.callref, Some(l.t.id))])
  }

  /** mncc_release_ind() */
  function ReleaseInd(l: Local): Local {
    Send(l, if l.t.state == ReleaseReq then RelCnf else RelInd)
  }

  function Forget(l: Local): Local {
    l.(t := l.t.(callref := 0))
  }

  /** gsm48_cc_tx_release(): without a connection it does nothing. */
  function TxRelease(l: Local): Local {
    if !l.t.conn then l
    else
      var a := StartTimer(StopTimer(l), T308);
      var b := a.(t := a.t.(t308Second := false));
      if b.t.state != ReleaseReq then NewState(b, ReleaseReq) else b
  }

  /** gsm48_cc_tx_disconnect() */
  function TxDisconnect(l: Local): Local {
    NewState(StartTimer(StopTimer(l), T306), DisconnectInd)
  }

  /** The first half of freeing: MNCC is told if it knows of the call. */
  function FreeTold(l: Local): Local {
    var a := StopTimer(l);
    if a.t.callref != 0 && a.t.mnccInitiated then ReleaseInd(a) else a
  }

  /** The second half: the mobile station is released too, and the timer that this started is stopped again. */
  function FreeReleased(l: Local): Local {
    var c := if l.t.callref != 0 && l.t.state != ReleaseReq then TxRelease(l) else l;
    if c.t.callref != 0 then StopTimer(c) else c
  }

  /** trans_free() with _gsm48_cc_trans_free() */
  function Free(l: Local): Local {
    var d := FreeReleased(FreeTold(l));
    var e := if d.t.state != Null then NewState(d, Null) else d;
    e.(t := e.t.(guard := false), freed := true)
  }

  /** gsm48_cc_timeout(), the timer having just fired. */
  function Timeout(l: Local): Local {
    var f := l.(t := l.t.(armed := false));
    match f.t.tcurrent
    case Some(T308) =>
      if !f.t.t308Second then
        var r := TxRelease(f);
        r.(t := r.t.(t308Second := true))
      else Free(f)
    case Some(T310) => Disconnected(f)
    case Some(T313) => Disconnected(f)
    case Some(T301) => Disconnected(f)
    case Some(T323) => Disconnected(f)
    case _ => TxRelease(if f.t.callref != 0 then Forget(ReleaseInd(f)) else f)
  }

  function Disconnected(l: Local): Local {
    TxDisconnect(if l.t.callref != 0 then Send(l, DiscInd) else l)
  }

  // ---- Handlers of messages from MNCC ----

  /** How gsm48_cc_tx_setup() may end: accepted, no transaction identifier free, refused with a release to MNCC
      because no codec or bearer service matches, or refused without one. */
  datatype SetupOutcome = SetupOk | SetupNoTid | SetupReleased | SetupFailed

  /** gsm48_cc_tx_setup(): a transaction identifier assigned earlier is refused with a release. */
  function TxSetup(l: Local, o: SetupOutcome): Local {
    if l.t.tidAssigned || o == SetupNoTid then Free(Forget(ReleaseInd(l)))
    else if o == SetupReleased then Free(Forget(ReleaseInd(StartTimer(l, T303))))
    else if o == SetupFailed then Free(StartTimer(l, T303))
    else
      var a := StartTimer(l, T303);
      NewState(a.(t := a.t.(tidAssigned := true)), CallPresent)
  }

  datatype Request =
    | CallProcReq | AlertReq | SetupRsp | ProgressReq | SetupReq | SetupComplReq | NotifyReq | FacilityReq
    | StartDtmfRsp | StartDtmfRej | StopDtmfRsp | HoldCnf | HoldRej | RetrieveCnf | RetrieveRej
    | ModifyReq | ModifyRsp | ModifyRejReq | UserinfoReq | RejReq | DiscReq | RelReq

  /** The routines of downstatelist that change something. */
  function Down(l: Local, r: Request, o: SetupOutcome): Local {
    match r
    case CallProcReq => NewState(l, MoCallProc)
    case AlertReq => NewState(l, CallDelivered)
    case SetupRsp => NewState(StartTimer(StopTimer(l), T313), ConnectInd)
    case SetupReq => TxSetup(l, o)
    case SetupComplReq => NewState(l, Active)
    case ModifyReq => NewState(StartTimer(l, T323), MoTermModify)
    case ModifyRsp => NewState(l, Active)
    case ModifyRejReq => NewState(l, Active)
    case RejReq => Free(StopTimer(Forget(l)))
    case DiscReq => TxDisconnect(l)
    case RelReq => TxRelease(l)
    case _ => l
  }

  function AllStates(): set<State> {
    {Null, Initiated, MoCallProc, CallDelivered, CallPresent, CallReceived, ConnectRequest, MoTermCallConf, Active,
     DisconnectReq, DisconnectInd, ReleaseReq, MoOrigModify, MoTermModify, ConnectInd}
  }

  datatype DownRow = DownRow(states: set<State>, request: Request)

  /** downstatelist */
  const DOWN_TABLE: seq<DownRow> := [
    DownRow({Initiated}, CallProcReq),
    DownRow({Initiated, MoCallProc}, AlertReq),
    DownRow({Initiated, MoCallProc, CallDelivered}, SetupRsp),
    DownRow({MoCallProc}, ProgressReq),
    DownRow({Null}, SetupReq),
    DownRow({ConnectRequest}, SetupComplReq),
    DownRow({Active}, NotifyReq),
    DownRow(AllStates() - {Null, ReleaseReq}, FacilityReq),
    DownRow(AllStates(), StartDtmfRsp),
    DownRow(AllStates(), StartDtmfRej),
    DownRow(AllStates(), StopDtmfRsp),
    DownRow({Active}, HoldCnf),
    DownRow({Active}, HoldRej),
    DownRow({Active}, RetrieveCnf),
    DownRow({Active}, RetrieveRej),
    DownRow({Active}, ModifyReq),
    DownRow({MoOrigModify}, ModifyRsp),
    DownRow({MoOrigModify}, ModifyRejReq),
    DownRow({Active}, UserinfoReq),
    DownRow({Initiated}, RejReq),
    DownRow(AllStates() - {Null, DisconnectInd, ReleaseReq, DisconnectReq}, DiscReq),
    DownRow(AllStates() - {Null, ReleaseReq}, RelReq)
  ]

  predicate InDownTable(table: seq<DownRow>, r: Request, s: State) {
    exists i :: 0 <= i < |table| && table[i].request == r && s in table[i].states
  }

  predicate DownHandled(r: Request, s: State) {
    InDownTable(DOWN_TABLE, r, s)
  }

  // ---- Handlers of messages from the mobile station ----

  datatype MsMsg =
    | Setup | EmergSetup | ConnectAck | CallConf | Alerting | Connect | Facility | Notify | StartDtmf | StopDtmf
    | StatusEnq | Hold | Retrieve | Modify | ModifyCompl | ModifyReject | UserInfo | Disconnect | Release | ReleaseCompl

  /** gsm48_cc_rx_release() */
  function RxRelease(l: Local): Local {
    Free(Forget(NewState(ReleaseInd(StopTimer(l)), Null)))
  }

  /** gsm48_cc_rx_release_compl() */
  function RxReleaseCompl(l: Local): Local {
    var a := StopTimer(l);
    var k := if a.t.state == CallPresent then RejInd else if a.t.state == ReleaseReq then RelCnf else RelInd;
    Free(Forget(if a.t.callref != 0 then Send(a, k) else a))
  }

  /** Messages that are passed on to MNCC and change nothing else. */
  function PassedOn(m: MsMsg): Option<Kind> {
    match m
    case Facility => Some(FacilityInd)
    case Notify => Some(NotifyInd)
    case StartDtmf => Some(StartDtmfInd)
    case StopDtmf => Some(StopDtmfInd)
    case Hold => Some(HoldInd)
    case Retrieve => Some(RetrieveInd)
    case UserInfo => Some(UserinfoInd)
    case _ => None
  }

  /** Messages that stop the timer, change the state and are reported to MNCC. */
  function Reported(m: MsMsg): Option<(State, Kind)> {
    match m
    case ConnectAck => Some((Active, SetupComplInd))
    case Connect => Some((ConnectRequest, SetupCnf))
    case ModifyCompl => Some((Active, ModifyCnf))
    case ModifyReject => Some((Active, ModifyRej))
    case Disconnect => Some((DisconnectReq, DiscInd))
    case _ => None
  }

  /** The routines of datastatelist; ok tells whether a call assignment or an SDP composed on the way succeeded. */
  function Up(l: Local, m: MsMsg, ok: bool): Local {
    if PassedOn(m).Some? then Send(l, PassedOn(m).value)
    else if Reported(m).Some? then Send(NewState(StopTimer(l), Reported(m).value.0), Reported(m).value.1)
    else match m
      case Setup => RxSetup(l)
      case EmergSetup => RxSetup(l)
      case CallConf =>
        var a := StartTimer(StopTimer(l), T310);
        if ok then Send(NewState(a, MoTermCallConf), CallConfInd) else a
      case Alerting =>
        var a := NewState(StartTimer(StopTimer(l), T301), CallReceived);
        if ok then Send(a, AlertInd) else Free(a)
      case Modify => Send(NewState(l, MoOrigModify), ModifyInd)
      case Release => RxRelease(l)
      case ReleaseCompl => RxReleaseCompl(l)
      case _ => l
  }

  /** gsm48_cc_rx_setup(): MNCC hears of the call later, when an RTP port is known. */
  function RxSetup(l: Local): Local {
    var a := NewState(l.(t := l.t.(guard := true)), Initiated);
    a.(t := a.t.(setupStored := true))
  }

  datatype UpRow = UpRow(states: set<State>, msg: MsMsg)

  /** datastatelist */
  const UP_TABLE: seq<UpRow> := [
    UpRow({Null}, Setup),
    UpRow({Null}, EmergSetup),
    UpRow({ConnectInd}, ConnectAck),
    UpRow({CallPresent}, CallConf),
    UpRow({CallPresent, MoTermCallConf}, Alerting),
    UpRow({CallPresent, MoTermCallConf, CallReceived}, Connect),
    UpRow(AllStates() - {Null}, Facility),
    UpRow({Active}, Notify),
    UpRow(AllStates(), StartDtmf),
    UpRow(AllStates(), StopDtmf),
    UpRow(AllStates(), StatusEnq),
    UpRow({Active}, Hold),
    UpRow({Active}, Retrieve),
    UpRow({Active}, Modify),
    UpRow({MoTermModify}, ModifyCompl),
    UpRow({MoTermModify}, ModifyReject),
    UpRow({Active}, UserInfo),
    UpRow(AllStates() - {Null, ReleaseReq}, Disconnect),
    UpRow(AllStates() - {Null}, Release),
    UpRow(AllStates(), ReleaseCompl)
  ]

  predicate InUpTable(table: seq<UpRow>, m: MsMsg, s: State) {
    exists i :: 0 <= i < |table| && table[i].msg == m && s in table[i].states
  }

  predicate UpHandled(m: MsMsg, s: State) {
    InUpTable(UP_TABLE, m, s)
  }

  // ---- Whole events ----

  /** mncc_tx_to_gsm_cc() for a transaction it found. */
  function FromMncc(l: Local, r: Request, o: SetupOutcome): Local {
    var a := Contacted(l, r);
    if !a.t.conn then Free(Forget(Send(a, if r == RelReq then RelCnf else RelInd)))
    else if DownHandled(r, a.t.state) then Down(a, r, o)
    else a
  }

  function Contacted(l: Local, r: Request): Local {
    l.(t := l.t.(guard := l.t.guard || RestartsGuard(r), mnccInitiated := true))
  }

  /** A mere pass-through to the mobile station leaves the guard timer alone. */
  predicate RestartsGuard(r: Request) {
    r !in {ProgressReq, NotifyReq, FacilityReq, StartDtmfRsp, StartDtmfRej, StopDtmfRsp, HoldCnf, HoldRej,
           RetrieveCnf, RetrieveRej, UserinfoReq}
  }

  /** gsm0408_rcv_cc() for a transaction it found or has just made. */
  function FromMs(l: Local, m: MsMsg, ok: bool): Local {
    if UpHandled(m, l.t.state) then Up(l, m, ok)
    else if l.t.state == Null then Free(l)
    else l
  }

  /** cc_paging_cb() */
  function Paged(l: Local, success: bool, o: SetupOutcome): Local {
    if l.t.conn then l
    else if success then TxSetup(l.(t := l.t.(conn := true)), o)
    else Free(Forget(ReleaseInd(l)))
  }

  /** cc_on_cn_local_rtp_port_known() and cc_on_assignment_done() */
  datatype RtpOutcome = RtpAbort | RtpWait | RtpReady

  function RtpKnown(l: Local, o: RtpOutcome): Local {
    if l.t.state == Initiated then
      if !l.t.setupStored then l
      else if !l.t.conn then Free(Forget(l))
      else
        var a := l.(t := l.t.(setupStored := false));
        if o == RtpAbort then Free(a) else Send(a, SetupInd)
    else if l.t.state == MoTermCallConf then
      if !l.t.conn then Free(Forget(l))
      else if o == RtpAbort then Free(l)
      else if o == RtpWait then l
      else Send(l, RtpCreate)
    else l
  }

  function AssignmentDone(l: Local, o: RtpOutcome): Local {
    if l.t.state in {Initiated, MoCallProc, CallReceived, MoTermCallConf} && o == RtpReady then Send(l, RtpCreate)
    else l
  }
}
