/** What every event keeps for the one transaction it concerns. */
module CallControlLocal {
  import opened Options
  import opened CallControlSpec

  // ---- The timer that belongs to a state ----

  /** Section 11.3 of 3GPP TS 24.008, as far as the code follows it. */
  predicate TimerFits(s: State, armed: bool, timer: Option<Timer>) {
    match s
    case CallPresent => armed && (timer == Some(T303) || timer == Some(T310))
    case MoTermCallConf => armed && timer == Some(T310)
    case CallReceived => armed && timer == Some(T301)
    case ConnectInd => armed && timer == Some(T313)
    case MoTermModify => armed && timer == Some(T323)
    case DisconnectInd => armed && timer == Some(T306)
    case ReleaseReq => armed && timer == Some(T308)
    case _ => !armed
  }

  /** A transaction that has no connection yet is waiting for paging, unless a failed bridge has disconnected it;
      then nothing restarts its timer. */
  predicate TransOk(t: Trans) {
    if t.conn then TimerFits(t.state, t.armed, t.tcurrent)
    else (t.state == Null && !t.armed) || (t.state == DisconnectInd && (t.armed ==> t.tcurrent == Some(T306)))
  }

  // ---- Releases told to MNCC ----

  /** How many releases were sent for a transaction under a callref that is not zero. */
  function Releases(up: seq<Msg>, id: nat): nat {
    if up == [] then 0
    else Releases(up[..|up| - 1], id) + Tells(up[|up| - 1], id)
  }

  function Tells(m: Msg, id: nat): nat {
    if IsRelease(m.kind) && m.callref != 0 && m.sender == Some(id) then 1 else 0
  }

  lemma ReleasesAppend(up: seq<Msg>, m: Msg, id: nat)
    ensures Releases(up + [m], id) == Releases(up, id) + Tells(m, id)
  {
    assert (up + [m])[..|up|] == up;
  }

  // ---- What an event may do ----

  function ActiveCount(l: Local): nat {
    if !l.freed && l.t.state == Active then 1 else 0
  }

  function Balance(c: Counters): int {
    c.activated - c.complete - c.incomplete - c.gauge
  }

  /** The queue only grows, by messages of this transaction. */
  predicate Grew(l: Local, l': Local) {
    && l.up <= l'.up
    && forall i :: |l.up| <= i < |l'.up| ==> l'.up[i].sender == Some(l.t.id)
  }

  /** While the transaction lives, its callref is kept until a release is told under it, and forgotten then. */
  predicate ToldAtMostOnce(l: Local, l': Local) {
    || (l'.t.callref == l.t.callref && Releases(l'.up, l.t.id) == Releases(l.up, l.t.id))
    || (l'.t.callref == 0 && l.t.callref != 0 && Releases(l'.up, l.t.id) == Releases(l.up, l.t.id) + 1)
    || (l'.freed && Releases(l.up, l.t.id) <= Releases(l'.up, l.t.id)
        && Releases(l'.up, l.t.id) <= Releases(l.up, l.t.id) + (if l.t.callref != 0 then 1 else 0))
  }

  ghost predicate Step(l: Local, l': Local) {
    && l'.t.id == l.t.id
    && (!l'.freed ==> TransOk(l'.t))
    && Grew(l, l')
    && l'.counts.gauge - l.counts.gauge == ActiveCount(l') - ActiveCount(l)
    && Balance(l'.counts) == Balance(l.counts)
    && ToldAtMostOnce(l, l')
  }

  /** The part of Step that holds between any two points inside a handler. */
  ghost predicate Inner(l: Local, l': Local) {
    && l'.t.id == l.t.id && l'.freed == l.freed
    && Grew(l, l')
    && l'.counts.gauge - l.counts.gauge == ActiveCount(l') - ActiveCount(l)
    && Balance(l'.counts) == Balance(l.counts)
  }

  lemma NewStateEffect(l: Local, s: State)
    requires !l.freed
    ensures var f := NewState(l, s);
            && Inner(l, f) && f.up == l.up && f.t == l.t.(state := s, guard := f.t.guard)
  {
  }

  lemma SendEffect(l: Local, k: Kind)
    requires !l.freed
    ensures var f := Send(l, k);
            && Inner(l, f) && f.t == l.t.(mnccInitiated := true) && f.counts == l.counts
            && Releases(f.up, l.t.id)
               == Releases(l.up, l.t.id) + (if IsRelease(k) && l.t.callref != 0 then 1 else 0)
  {
    ReleasesAppend(l.up, Msg(k, l.t.callref, Some(l.t.id)), l.t.id);
  }

  lemma InnerTransitive(a: Local, b: Local, c: Local)
    requires Inner(a, b) && Inner(b, c)
    ensures Inner(a, c)
  {
    assert forall i :: |b.up| <= i < |c.up| ==> c.up[i].sender == Some(a.t.id);
    assert forall i :: |a.up| <= i < |b.up| ==> c.up[i] == b.up[i];
  }

  lemma TxReleaseEffect(l: Local)
    requires !l.freed
    ensures var f := TxRelease(l);
            && Inner(l, f) && f.up == l.up && f.t.conn == l.t.conn
            && f.t.callref == l.t.callref && f.t.mnccInitiated == l.t.mnccInitiated
            && (l.t.conn ==> f.t.state == ReleaseReq && f.t.armed && f.t.tcurrent == Some(T308) && !f.t.t308Second)
            && (!l.t.conn ==> f == l)
  {
    hide NewState;
    if l.t.conn {
      var a := StartTimer(StopTimer(l), T308);
      NewStateEffect(a.(t := a.t.(t308Second := false)), ReleaseReq);
    }
  }

  lemma TxDisconnectEffect(l: Local)
    requires !l.freed
    ensures var f := TxDisconnect(l);
            && Inner(l, f) && f.up == l.up && f.t.conn == l.t.conn
            && f.t.callref == l.t.callref && f.t.mnccInitiated == l.t.mnccInitiated
            && f.t.state == DisconnectInd && f.t.armed && f.t.tcurrent == Some(T306)
  {
    hide NewState;
    NewStateEffect(StartTimer(StopTimer(l), T306), DisconnectInd);
  }

  lemma FreeToldEffect(l: Local)
    requires !l.freed
    ensures var f := FreeTold(l);
            && Inner(l, f) && f.t.callref == l.t.callref && f.t.state == l.t.state && !f.t.armed
            && Releases(f.up, l.t.id)
               == Releases(l.up, l.t.id) + (if l.t.callref != 0 && l.t.mnccInitiated then 1 else 0)
  {
    hide Send, Tells;
    SendEffect(StopTimer(l), if StopTimer(l).t.state == ReleaseReq then RelCnf else RelInd);
  }

  lemma FreeReleasedEffect(l: Local)
    requires !l.freed && !l.t.armed
    ensures var f := FreeReleased(l);
            && Inner(l, f) && f.up == l.up && f.t.callref == l.t.callref && !f.t.armed
  {
    hide TxRelease;
    TxReleaseEffect(l);
  }

  lemma FreeEffect(l: Local)
    requires !l.freed
    ensures var f := Free(l);
            && f.freed && f.t.id == l.t.id && f.t.callref == l.t.callref && f.t.state == Null && !f.t.armed
            && Grew(l, f)
            && f.counts.gauge == l.counts.gauge - ActiveCount(l)
            && Balance(f.counts) == Balance(l.counts)
            && Releases(f.up, l.t.id)
               == Releases(l.up, l.t.id) + (if l.t.callref != 0 && l.t.mnccInitiated then 1 else 0)
  {
    hide FreeTold, FreeReleased, NewState;
    var b := FreeTold(l);
    var d := FreeReleased(b);
    FreeToldEffect(l);
    FreeReleasedEffect(b);
    NewStateEffect(d, Null);
    InnerTransitive(l, b, d);
    InnerTransitive(l, d, NewState(d, Null));
  }

  // ---- Every event is such a step ----

  /** m is reached inside a handler that began at l. */
  ghost predicate Reached(l: Local, m: Local) {
    Inner(l, m) && ToldAtMostOnce(l, m)
  }

  lemma FreeSteps(l: Local, m: Local)
    requires !l.freed && Inner(l, m)
    requires ToldAtMostOnce(l, m) || (m.t.callref == 0 && m.up == l.up)
    ensures Step(l, Free(m))
  {
    hide Free;
    FreeEffect(m);
    var f := Free(m);
    assert forall i :: |l.up| <= i < |m.up| ==> f.up[i] == m.up[i];
    assert forall i :: |m.up| <= i < |f.up| ==> f.up[i].sender == Some(l.t.id);
  }

  /** A release is told and the callref forgotten. */
  lemma ReleaseForgets(l: Local, m: Local, k: Kind)
    requires !l.freed && Inner(l, m) && m.up == l.up && m.t.callref == l.t.callref && IsRelease(k)
    ensures Reached(l, Forget(Send(m, k)))
  {
    SendEffect(m, k);
    InnerTransitive(l, m, Send(m, k));
  }

  /** Expiry of a timer that releases the call. */
  lemma ReleaseSteps(l: Local, f: Local)
    requires !l.freed && Inner(l, f) && f.up == l.up && f.t.callref == l.t.callref && f.t.conn == l.t.conn
    requires !f.t.conn ==> f.t.state == DisconnectInd && !f.t.armed
    ensures Step(l, TxRelease(if f.t.callref != 0 then Forget(ReleaseInd(f)) else f))
  {
    hide TxRelease, Send;
    var k := if f.t.state == ReleaseReq then RelCnf else RelInd;
    var g := if f.t.callref != 0 then Forget(ReleaseInd(f)) else f;
    SendEffect(f, k);
    ReleaseForgets(l, f, k);
    TxReleaseEffect(g);
    InnerTransitive(l, g, TxRelease(g));
  }

  /** Expiry of a timer that disconnects the call. */
  lemma DisconnectSteps(l: Local, f: Local)
    requires !l.freed && Inner(l, f) && f.up == l.up && f.t.callref == l.t.callref
    ensures Step(l, Disconnected(f))
  {
    hide TxDisconnect, Send;
    var g := if f.t.callref != 0 then Send(f, DiscInd) else f;
    SendEffect(f, DiscInd);
    InnerTransitive(l, f, g);
    TxDisconnectEffect(g);
    InnerTransitive(l, g, TxDisconnect(g));
  }

  lemma TimeoutSteps(l: Local)
    requires !l.freed && TransOk(l.t) && l.t.armed
    ensures Step(l, Timeout(l))
  {
    hide Free, TxRelease, ReleaseInd, Disconnected;
    var f := l.(t := l.t.(armed := false));
    if l.t.tcurrent == Some(T308) {
      FreeSteps(l, f);
      TxReleaseEffect(f);
    } else if l.t.tcurrent == Some(T303) || l.t.tcurrent == Some(T306) {
      ReleaseSteps(l, f);
    } else {
      DisconnectSteps(l, f);
    }
  }

  // ---- Messages from MNCC ----

  /** A state change that leaves the right timer running. */
  lemma MoveSteps(l: Local, m: Local, s: State)
    requires !l.freed && Inner(l, m) && m.up == l.up && m.t.callref == l.t.callref && m.t.conn
    requires TimerFits(s, m.t.armed, m.t.tcurrent)
    ensures Step(l, NewState(m, s))
  {
    hide NewState;
    NewStateEffect(m, s);
    InnerTransitive(l, m, NewState(m, s));
  }

  lemma TxSetupSteps(l: Local, m: Local, o: SetupOutcome)
    requires !l.freed && Inner(l, m) && m.up == l.up && m.t.callref == l.t.callref && m.t.conn
    ensures Step(l, TxSetup(m, o))
  {
    hide Free, NewState, Send;
    var k := if m.t.state == ReleaseReq then RelCnf else RelInd;
    var a := StartTimer(m, T303);
    if m.t.tidAssigned || o == SetupNoTid {
      ReleaseForgets(l, m, k);
      FreeSteps(l, Forget(ReleaseInd(m)));
    } else if o == SetupReleased {
      ReleaseForgets(l, a, k);
      FreeSteps(l, Forget(ReleaseInd(a)));
    } else if o == SetupFailed {
      FreeSteps(l, a);
    } else {
      MoveSteps(l, a.(t := a.t.(tidAssigned := true)), CallPresent);
    }
  }

  /** The states in which a request is taken up, row by row of downstatelist. */
  function DownStates(r: Request): set<State> {
    match r
    case CallProcReq => {Initiated}
    case AlertReq => {Initiated, MoCallProc}
    case SetupRsp => {Initiated, MoCallProc, CallDelivered}
    case ProgressReq => {MoCallProc}
    case SetupReq => {Null}
    case SetupComplReq => {ConnectRequest}
    case FacilityReq => AllStates() - {Null, ReleaseReq}
    case StartDtmfRsp => AllStates()
    case StartDtmfRej => AllStates()
    case StopDtmfRsp => AllStates()
    case ModifyRsp => {MoOrigModify}
    case ModifyRejReq => {MoOrigModify}
    case RejReq => {Initiated}
    case DiscReq => AllStates() - {Null, DisconnectInd, ReleaseReq, DisconnectReq}
    case RelReq => AllStates() - {Null, ReleaseReq}
    case _ => {Active}
  }

  lemma DownTableRows(r: Request, s: State)
    ensures DownHandled(r, s) ==> s in DownStates(r)
  {
    hide AllStates, DownStates;
    DownTableFirst(r);
    DownTableRest(r);
  }

  lemma DownTableFirst(r: Request)
    ensures forall i :: 0 <= i < 11 && DOWN_TABLE[i].request == r ==> DOWN_TABLE[i].states == DownStates(r)
  {
    hide AllStates;
  }

  lemma DownTableRest(r: Request)
    ensures forall i :: 11 <= i < |DOWN_TABLE| && DOWN_TABLE[i].request == r ==> DOWN_TABLE[i].states == DownStates(r)
  {
    hide AllStates;
  }

  lemma StaySteps(l: Local, m: Local)
    requires !l.freed && Inner(l, m) && m.up == l.up && m.t.callref == l.t.callref && TransOk(m.t)
    ensures Step(l, m)
  {
  }

  lemma TxDisconnectSteps(l: Local, m: Local)
    requires !l.freed && Inner(l, m) && m.up == l.up && m.t.callref == l.t.callref
    ensures Step(l, TxDisconnect(m))
  {
    hide TxDisconnect;
    TxDisconnectEffect(m);
    InnerTransitive(l, m, TxDisconnect(m));
  }

  lemma TxReleaseSteps(l: Local, m: Local)
    requires !l.freed && Inner(l, m) && m.up == l.up && m.t.callref == l.t.callref && m.t.conn
    ensures Step(l, TxRelease(m))
  {
    hide TxRelease;
    TxReleaseEffect(m);
    InnerTransitive(l, m, TxRelease(m));
  }

  /** The requests that move a connected call to another state. */
  lemma DownMoves(l: Local, m: Local, r: Request, o: SetupOutcome)
    requires !l.freed && Inner(l, m) && m.up == l.up && m.t.callref == l.t.callref
    requires TransOk(m.t) && m.t.conn && m.t.state in DownStates(r)
    requires r in {CallProcReq, AlertReq, SetupRsp, SetupComplReq, ModifyReq, ModifyRsp, ModifyRejReq}
    ensures Step(l, Down(m, r, o))
  {
    hide AllStates, Step, Free, NewState, TxSetup, TxDisconnect, TxRelease;
    match r {
      case CallProcReq => MoveSteps(l, m, MoCallProc);
      case AlertReq => MoveSteps(l, m, CallDelivered);
      case SetupRsp => MoveSteps(l, StartTimer(StopTimer(m), T313), ConnectInd);
      case ModifyReq => MoveSteps(l, StartTimer(m, T323), MoTermModify);
      case _ => MoveSteps(l, m, Active);
    }
  }

  lemma DownSteps(l: Local, m: Local, r: Request, o: SetupOutcome)
    requires !l.freed && Inner(l, m) && m.up == l.up && m.t.callref == l.t.callref
    requires TransOk(m.t) && m.t.conn && m.t.state in DownStates(r)
    ensures Step(l, Down(m, r, o))
  {
    hide AllStates, Step, Inner, TransOk, DownStates, Free, NewState, TxSetup, TxDisconnect, TxRelease;
    match r {
      case SetupReq => TxSetupSteps(l, m, o);
      case RejReq =>
        ForgetsInside(l, m);
        FreeSteps(l, StopTimer(Forget(m)));
      case DiscReq => TxDisconnectSteps(l, m);
      case RelReq => TxReleaseSteps(l, m);
      case CallProcReq => DownMoves(l, m, r, o);
      case AlertReq => DownMoves(l, m, r, o);
      case SetupRsp => DownMoves(l, m, r, o);
      case SetupComplReq => DownMoves(l, m, r, o);
      case ModifyReq => DownMoves(l, m, r, o);
      case ModifyRsp => DownMoves(l, m, r, o);
      case ModifyRejReq => DownMoves(l, m, r, o);
      case _ => StaySteps(l, m);
    }
  }

  lemma ForgetsInside(l: Local, m: Local)
    requires Inner(l, m)
    ensures Inner(l, StopTimer(Forget(m)))
  {
  }

  lemma FromMnccSteps(l: Local, r: Request, o: SetupOutcome)
    requires !l.freed && TransOk(l.t)
    ensures Step(l, FromMncc(l, r, o))
  {
    hide Free, Down, Send, DownHandled, DownStates, RestartsGuard;
    var a := Contacted(l, r);
    if !a.t.conn {
      var k := if r == RelReq then RelCnf else RelInd;
      ReleaseForgets(l, a, k);
      FreeSteps(l, Forget(Send(a, k)));
    } else if DownHandled(r, a.t.state) {
      DownTableRows(r, a.t.state);
      DownSteps(l, a, r, o);
    }
  }

  // ---- Messages from the mobile station ----

  function UpStates(m: MsMsg): set<State> {
    match m
    case Setup => {Null}
    case EmergSetup => {Null}
    case ConnectAck => {ConnectInd}
    case CallConf => {CallPresent}
    case Alerting => {CallPresent, MoTermCallConf}
    case Connect => {CallPresent, MoTermCallConf, CallReceived}
    case Facility => AllStates() - {Null}
    case StartDtmf => AllStates()
    case StopDtmf => AllStates()
    case StatusEnq => AllStates()
    case ModifyCompl => {MoTermModify}
    case ModifyReject => {MoTermModify}
    case Disconnect => AllStates() - {Null, ReleaseReq}
    case Release => AllStates() - {Null}
    case ReleaseCompl => AllStates()
    case _ => {Active}
  }

  lemma UpTableRows(m: MsMsg, s: State)
    ensures UpHandled(m, s) ==> s in UpStates(m)
  {
    hide AllStates, UpStates;
    UpTableFirst(m);
    UpTableRest(m);
  }

  lemma UpTableFirst(m: MsMsg)
    ensures forall i :: 0 <= i < 10 && UP_TABLE[i].msg == m ==> UP_TABLE[i].states == UpStates(m)
  {
    hide AllStates;
  }

  lemma UpTableRest(m: MsMsg)
    ensures forall i :: 10 <= i < |UP_TABLE| && UP_TABLE[i].msg == m ==> UP_TABLE[i].states == UpStates(m)
  {
    hide AllStates;
  }

  /** A message to MNCC that is not a release, from a point where the timer fits. */
  lemma SendSteps(l: Local, m: Local, k: Kind)
    requires !l.freed && Inner(l, m) && m.up == l.up && m.t.callref == l.t.callref && TransOk(m.t) && !IsRelease(k)
    ensures Step(l, Send(m, k))
  {
    hide Send;
    SendEffect(m, k);
    InnerTransitive(l, m, Send(m, k));
  }

  /** A state change and then a message to MNCC. */
  lemma MoveAndSend(l: Local, m: Local, s: State, k: Kind)
    requires !l.freed && Inner(l, m) && m.up == l.up && m.t.callref == l.t.callref && m.t.conn
    requires TimerFits(s, m.t.armed, m.t.tcurrent) && !IsRelease(k)
    ensures Step(l, Send(NewState(m, s), k))
  {
    hide NewState, Send;
    NewStateEffect(m, s);
    InnerTransitive(l, m, NewState(m, s));
    SendSteps(l, NewState(m, s), k);
  }

  lemma RxReleaseSteps(l: Local)
    requires !l.freed
    ensures Step(l, RxRelease(l))
  {
    hide Free, NewState, Send;
    var a := StopTimer(l);
    var k := if a.t.state == ReleaseReq then RelCnf else RelInd;
    ReleaseForgets(l, a, k);
    SendEffect(a, k);
    var b := NewState(Send(a, k), Null);
    NewStateEffect(Send(a, k), Null);
    InnerTransitive(l, a, Send(a, k));
    InnerTransitive(l, Send(a, k), b);
    FreeSteps(l, Forget(b));
  }

  lemma RxReleaseComplSteps(l: Local)
    requires !l.freed
    ensures Step(l, RxReleaseCompl(l))
  {
    hide Free, Send;
    var a := StopTimer(l);
    var k := if a.t.state == CallPresent then RejInd else if a.t.state == ReleaseReq then RelCnf else RelInd;
    ReleaseForgets(l, a, k);
    FreeSteps(l, Forget(if a.t.callref != 0 then Send(a, k) else a));
  }

  lemma CallConfSteps(l: Local)
    requires !l.freed && l.t.conn && l.t.state == CallPresent
    ensures var a := StartTimer(StopTimer(l), T310);
            Step(l, a) && Step(l, Send(NewState(a, MoTermCallConf), CallConfInd))
  {
    hide NewState, Send;
    MoveAndSend(l, StartTimer(StopTimer(l), T310), MoTermCallConf, CallConfInd);
  }

  lemma AlertingSteps(l: Local)
    requires !l.freed && l.t.conn
    ensures var a := NewState(StartTimer(StopTimer(l), T301), CallReceived);
            Step(l, Free(a)) && Step(l, Send(a, AlertInd))
  {
    hide Step, Free, NewState, Send;
    var a := StartTimer(StopTimer(l), T301);
    MoveAndSend(l, a, CallReceived, AlertInd);
    NewStateEffect(a, CallReceived);
    InnerTransitive(l, a, NewState(a, CallReceived));
    FreeSteps(l, NewState(a, CallReceived));
  }

  lemma UpSteps(l: Local, m: MsMsg, ok: bool)
    requires !l.freed && TransOk(l.t) && l.t.conn && l.t.state in UpStates(m)
    ensures Step(l, Up(l, m, ok))
  {
    hide AllStates, Step, Free, NewState, Send, RxSetup, RxRelease, RxReleaseCompl;
    if PassedOn(m).Some? {
      SendSteps(l, l, PassedOn(m).value);
    } else if Reported(m).Some? {
      MoveAndSend(l, StopTimer(l), Reported(m).value.0, Reported(m).value.1);
    } else {
      match m {
        case Setup => RxSetupSteps(l);
        case EmergSetup => RxSetupSteps(l);
        case CallConf => CallConfSteps(l);
        case Alerting => AlertingSteps(l);
        case Modify => MoveAndSend(l, l, MoOrigModify, ModifyInd);
        case Release => RxReleaseSteps(l);
        case ReleaseCompl => RxReleaseComplSteps(l);
        case _ => StaySteps(l, l);
      }
    }
  }

  lemma RxSetupSteps(l: Local)
    requires !l.freed && l.t.conn && !l.t.armed
    ensures Step(l, RxSetup(l))
  {
    hide NewState;
    var a := l.(t := l.t.(guard := true));
    NewStateEffect(a, Initiated);
    InnerTransitive(l, a, NewState(a, Initiated));
  }

  lemma FromMsSteps(l: Local, m: MsMsg, ok: bool)
    requires !l.freed && TransOk(l.t) && l.t.conn
    ensures Step(l, FromMs(l, m, ok))
  {
    hide Free, Up, UpHandled, UpStates;
    if UpHandled(m, l.t.state) {
      UpTableRows(m, l.t.state);
      UpSteps(l, m, ok);
    } else if l.t.state == Null {
      FreeSteps(l, l);
    }
  }

  // ---- Everything else ----

  lemma PagedSteps(l: Local, success: bool, o: SetupOutcome)
    requires !l.freed && TransOk(l.t)
    ensures Step(l, Paged(l, success, o))
  {
    hide Free, Send, TxSetup;
    if !l.t.conn {
      if success {
        TxSetupSteps(l, l.(t := l.t.(conn := true)), o);
      } else {
        var k := if l.t.state == ReleaseReq then RelCnf else RelInd;
        ReleaseForgets(l, l, k);
        FreeSteps(l, Forget(ReleaseInd(l)));
      }
    }
  }

  lemma RtpKnownSteps(l: Local, o: RtpOutcome)
    requires !l.freed && TransOk(l.t)
    ensures Step(l, RtpKnown(l, o))
  {
    hide Step, Free, Send;
    StaySteps(l, l);
    if l.t.state == Initiated {
      var a := l.(t := l.t.(setupStored := false));
      FreeSteps(l, a);
      SendSteps(l, a, SetupInd);
    } else {
      FreeSteps(l, l);
      SendSteps(l, l, RtpCreate);
    }
  }

  lemma AssignmentDoneSteps(l: Local, o: RtpOutcome)
    requires !l.freed && TransOk(l.t)
    ensures Step(l, AssignmentDone(l, o))
  {
    hide Send;
    SendSteps(l, l, RtpCreate);
  }

  /** A failed bridge disconnects whatever state the call is in, connected or not. */
  lemma BridgeFailedSteps(l: Local)
    requires !l.freed
    ensures Step(l, TxDisconnect(l))
  {
    TxDisconnectSteps(l, l);
  }
}
