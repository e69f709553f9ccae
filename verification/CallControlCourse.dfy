/** The course of a call as the state tables of 3GPP TS 24.008 are read: for every state, what each event leads to and
    what MNCC is told. The handlers of the code are shown to follow it. */
module CallControlCourse {
  import opened Options
  import opened CallControlSpec
  import opened CallControlLocal
  import opened CallControlRuns

  /** The state that follows, or none if the transaction goes, and the messages to MNCC on the way. */
  datatype Course = Course(next: Option<State>, told: seq<Kind>)

  function To(s: State, told: seq<Kind>): Course {
    Course(Some(s), told)
  }

  function Stay(t: Trans): Course {
    To(t.state, [])
  }

  function Over(told: seq<Kind>): Course {
    Course(None, told)
  }

  /** The release that is told in a state. */
  function ReleaseOf(s: State): Kind {
    if s == ReleaseReq then RelCnf else RelInd
  }

  /** A transaction that is given up tells MNCC if MNCC knows the call. */
  function GivenUp(t: Trans, contacted: bool): Course {
    Over(if t.callref != 0 && contacted then [ReleaseOf(t.state)] else [])
  }

  // ---- Messages of the mobile station ----

  function ByMs(t: Trans, m: MsMsg, ok: bool): Course {
    match t.state
    case Null =>
      (match m
       case Setup => To(Initiated, [])
       case EmergSetup => To(Initiated, [])
       case StartDtmf => To(Null, [StartDtmfInd])
       case StopDtmf => To(Null, [StopDtmfInd])
       case StatusEnq => To(Null, [])
       case ReleaseCompl => Cleared(t)
       case _ => GivenUp(t, t.mnccInitiated))
    case ConnectInd => if m == ConnectAck then To(Active, [SetupComplInd]) else InAnyState(t, m)
    case CallPresent =>
      (match m
       case CallConf => if ok then To(MoTermCallConf, [CallConfInd]) else To(CallPresent, [])
       case Alerting => Alerted(t, ok)
       case Connect => To(ConnectRequest, [SetupCnf])
       case _ => InAnyState(t, m))
    case MoTermCallConf =>
      (match m
       case Alerting => Alerted(t, ok)
       case Connect => To(ConnectRequest, [SetupCnf])
       case _ => InAnyState(t, m))
    case CallReceived => if m == Connect then To(ConnectRequest, [SetupCnf]) else InAnyState(t, m)
    case Active =>
      (match m
       case Notify => To(Active, [NotifyInd])
       case Hold => To(Active, [HoldInd])
       case Retrieve => To(Active, [RetrieveInd])
       case UserInfo => To(Active, [UserinfoInd])
       case Modify => To(MoOrigModify, [ModifyInd])
       case _ => InAnyState(t, m))
    case MoTermModify =>
      (match m
       case ModifyCompl => To(Active, [ModifyCnf])
       case ModifyReject => To(Active, [ModifyRej])
       case _ => InAnyState(t, m))
    case _ => InAnyState(t, m)
  }

  function Alerted(t: Trans, ok: bool): Course {
    if ok then To(CallReceived, [AlertInd]) else GivenUp(t, t.mnccInitiated)
  }

  /** What is possible in every state but NULL. */
  function InAnyState(t: Trans, m: MsMsg): Course {
    match m
    case Facility => To(t.state, [FacilityInd])
    case StartDtmf => To(t.state, [StartDtmfInd])
    case StopDtmf => To(t.state, [StopDtmfInd])
    case Disconnect => if t.state == ReleaseReq then Stay(t) else To(DisconnectReq, [DiscInd])
    case Release => Over([ReleaseOf(t.state)])
    case ReleaseCompl => Cleared(t)
    case _ => Stay(t)
  }

  /** A release complete is a rejection if it answers the set-up. */
  function Cleared(t: Trans): Course {
    Over(if t.callref == 0 then [] else [if t.state == CallPresent then RejInd else ReleaseOf(t.state)])
  }

  // ---- Requests of MNCC ----

  function ByMncc(t: Trans, r: Request, o: SetupOutcome): Course {
    if !t.conn then Over([if r == RelReq then RelCnf else RelInd])
    else match t.state
      case Null => if r == SetupReq then SetUp(t, o, true) else Stay(t)
      case Initiated =>
        (match r
         case CallProcReq => To(MoCallProc, [])
         case AlertReq => To(CallDelivered, [])
         case SetupRsp => To(ConnectInd, [])
         case RejReq => Over([])
         case _ => Clearing(t, r))
      case MoCallProc =>
        (match r
         case AlertReq => To(CallDelivered, [])
         case SetupRsp => To(ConnectInd, [])
         case _ => Clearing(t, r))
      case CallDelivered => if r == SetupRsp then To(ConnectInd, []) else Clearing(t, r)
      case ConnectRequest => if r == SetupComplReq then To(Active, []) else Clearing(t, r)
      case Active => if r == ModifyReq then To(MoTermModify, []) else Clearing(t, r)
      case MoOrigModify => if r == ModifyRsp || r == ModifyRejReq then To(Active, []) else Clearing(t, r)
      case DisconnectInd => if r == RelReq then To(ReleaseReq, []) else Stay(t)
      case DisconnectReq => if r == RelReq then To(ReleaseReq, []) else Stay(t)
      case ReleaseReq => Stay(t)
      case _ => Clearing(t, r)
  }

  function Clearing(t: Trans, r: Request): Course {
    match r
    case DiscReq => To(DisconnectInd, [])
    case RelReq => To(ReleaseReq, [])
    case _ => Stay(t)
  }

  function SetUp(t: Trans, o: SetupOutcome, contacted: bool): Course {
    if t.tidAssigned then Over([ReleaseOf(t.state)])
    else match o
      case SetupOk => To(CallPresent, [])
      case SetupNoTid => Over([ReleaseOf(t.state)])
      case SetupReleased => Over([ReleaseOf(t.state)])
      case SetupFailed => GivenUp(t, contacted)
  }

  // ---- Everything else ----

  function ByTimer(t: Trans): Course {
    if !t.armed then Stay(t)
    else match t.state
      case ReleaseReq => if t.t308Second then GivenUp(t, t.mnccInitiated) else Stay(t)
      case DisconnectInd => To(if t.conn then ReleaseReq else DisconnectInd, if t.callref != 0 then [RelInd] else [])
      case CallPresent =>
        if t.tcurrent == Some(T303) then To(ReleaseReq, if t.callref != 0 then [RelInd] else [])
        else To(DisconnectInd, if t.callref != 0 then [DiscInd] else [])
      case _ => To(DisconnectInd, if t.callref != 0 then [DiscInd] else [])
  }

  function ByPaging(t: Trans, success: bool, o: SetupOutcome): Course {
    if t.conn then Stay(t)
    else if success then SetUp(t, o, t.mnccInitiated)
    else Over([ReleaseOf(t.state)])
  }

  function ByRtp(t: Trans, o: RtpOutcome): Course {
    match t.state
    case Initiated =>
      if !t.setupStored then Stay(t)
      else if !t.conn then Over([])
      else if o == RtpAbort then GivenUp(t, t.mnccInitiated)
      else To(Initiated, [SetupInd])
    case MoTermCallConf =>
      if !t.conn then Over([])
      else (match o
            case RtpAbort => GivenUp(t, t.mnccInitiated)
            case RtpWait => Stay(t)
            case RtpReady => To(MoTermCallConf, [RtpCreate]))
    case _ => Stay(t)
  }

  function ByAssignment(t: Trans, o: RtpOutcome): Course {
    match t.state
    case Initiated => To(t.state, if o == RtpReady then [RtpCreate] else [])
    case MoCallProc => To(t.state, if o == RtpReady then [RtpCreate] else [])
    case CallReceived => To(t.state, if o == RtpReady then [RtpCreate] else [])
    case MoTermCallConf => To(t.state, if o == RtpReady then [RtpCreate] else [])
    case _ => Stay(t)
  }

  function CourseOf(t: Trans, e: Event): Course {
    match e
    case MsMessage(_, m, ok) => if t.conn then ByMs(t, m, ok) else Stay(t)
    case MnccMessage(_, r, o) => ByMncc(t, r, o)
    case Expiry(_) => ByTimer(t)
    case GuardExpiry(_) => if t.guard then GivenUp(t, t.mnccInitiated) else Stay(t)
    case PagingResult(_, success, o) => ByPaging(t, success, o)
    case RtpPort(_, o) => ByRtp(t, o)
    case Assigned(_, o) => ByAssignment(t, o)
    case RtpRefused(_, connect) => To(t.state, [if connect then RtpConnect else RtpCreate])
    case Closed(_) => GivenUp(t, t.mnccInitiated)
    case MnccLost(_) => Over([])
    case _ => Stay(t)
  }

  // ---- The handlers follow it ----

  function Msgs(told: seq<Kind>, t: Trans): seq<Msg> {
    seq(|told|, i requires 0 <= i < |told| => Msg(told[i], t.callref, Some(t.id)))
  }

  /** From l to l' the transaction took this course, and entering ACTIVE was counted. */
  predicate Follows(l: Local, l': Local, c: Course) {
    && l'.freed == c.next.None? && (c.next.Some? ==> l'.t.state == c.next.value)
    && l'.up == l.up + Msgs(c.told, l.t)
    && l'.counts.activated
       == l.counts.activated + (if l.t.state != Active && c.next == Some(Active) then 1 else 0)
  }

  /** m is l up to the timer, the guard and other marks. */
  predicate Alike(l: Local, m: Local) {
    && !m.freed && m.up == l.up && m.counts.activated == l.counts.activated
    && m.t.callref == l.t.callref && m.t.id == l.t.id
  }

  lemma NoMsgs(t: Trans)
    ensures Msgs([], t) == []
  {
  }

  lemma OneMsg(k: Kind, t: Trans)
    ensures Msgs([k], t) == [Msg(k, t.callref, Some(t.id))]
  {
  }

  lemma StaysPut(l: Local, m: Local)
    requires Alike(l, m) && m.t.state == l.t.state
    ensures Follows(l, m, Stay(l.t))
  {
    NoMsgs(l.t);
  }

  lemma GoesTo(l: Local, m: Local, s: State)
    requires Alike(l, m) && m.t.state == l.t.state
    ensures Follows(l, NewState(m, s), To(s, []))
  {
    NoMsgs(l.t);
  }

  lemma GoesToAndTells(l: Local, m: Local, s: State, k: Kind)
    requires Alike(l, m) && m.t.state == l.t.state
    ensures Follows(l, Send(NewState(m, s), k), To(s, [k]))
  {
    OneMsg(k, l.t);
  }

  lemma TellsOnly(l: Local, m: Local, k: Kind)
    requires Alike(l, m) && m.t.state == l.t.state
    ensures Follows(l, Send(m, k), To(l.t.state, [k]))
  {
    OneMsg(k, l.t);
  }

  /** Freeing sends at most the one release, and counts no activation. */
  lemma FreeSends(l: Local)
    ensures Free(l).freed && Free(l).counts.activated == l.counts.activated
    ensures Free(l).up == l.up + (if l.t.callref != 0 && l.t.mnccInitiated
                                  then [Msg(ReleaseOf(l.t.state), l.t.callref, Some(l.t.id))] else [])
  {
    hide FreeReleased;
    FreeReleasedSends(FreeTold(l));
  }

  lemma ReleasingSends(l: Local)
    ensures TxRelease(l).up == l.up && TxRelease(l).counts.activated == l.counts.activated
    ensures TxRelease(l).freed == l.freed && TxRelease(l).t.callref == l.t.callref && TxRelease(l).t.id == l.t.id
    ensures TxRelease(l).t.state == if l.t.conn then ReleaseReq else l.t.state
  {
  }

  lemma FreeReleasedSends(l: Local)
    ensures FreeReleased(l).up == l.up && FreeReleased(l).counts.activated == l.counts.activated
  {
    hide TxRelease;
    ReleasingSends(l);
  }

  lemma Ends(l: Local, m: Local)
    requires Alike(l, m)
    ensures Follows(l, Free(m), Over(if l.t.callref != 0 && m.t.mnccInitiated then [ReleaseOf(m.t.state)] else []))
  {
    hide Free;
    FreeSends(m);
    NoMsgs(l.t);
    OneMsg(ReleaseOf(m.t.state), l.t);
  }

  lemma TellsAndEnds(l: Local, m: Local, k: Kind)
    requires Alike(l, m)
    ensures Follows(l, Free(Forget(Send(m, k))), Over([k]))
    ensures Follows(l, Free(Forget(NewState(Send(m, k), Null))), Over([k]))
    ensures Follows(l, Free(Forget(m)), Over([]))
  {
    hide Free;
    FreeSends(Forget(Send(m, k)));
    FreeSends(Forget(NewState(Send(m, k), Null)));
    FreeSends(Forget(m));
    NoMsgs(l.t);
    OneMsg(k, l.t);
  }

  // ---- Every row of the two tables ----

  lemma UpRowOf(m: MsMsg)
    ensures exists i :: 0 <= i < |UP_TABLE| && UP_TABLE[i].msg == m
  {
    hide AllStates;
    var i := match m
             case Setup => 0 case EmergSetup => 1 case ConnectAck => 2 case CallConf => 3 case Alerting => 4
             case Connect => 5 case Facility => 6 case Notify => 7 case StartDtmf => 8 case StopDtmf => 9
             case StatusEnq => 10 case Hold => 11 case Retrieve => 12 case Modify => 13 case ModifyCompl => 14
             case ModifyReject => 15 case UserInfo => 16 case Disconnect => 17 case Release => 18
             case ReleaseCompl => 19;
    assert UP_TABLE[i].msg == m;
  }

  lemma UpExactly(m: MsMsg, s: State)
    ensures UpHandled(m, s) <==> s in UpStates(m)
  {
    hide AllStates, UpStates;
    UpTableFirst(m);
    UpTableRest(m);
    UpRowOf(m);
  }

  lemma DownRowOf(r: Request)
    ensures exists i :: 0 <= i < |DOWN_TABLE| && DOWN_TABLE[i].request == r
  {
    hide AllStates;
    var i := match r
             case CallProcReq => 0 case AlertReq => 1 case SetupRsp => 2 case ProgressReq => 3 case SetupReq => 4
             case SetupComplReq => 5 case NotifyReq => 6 case FacilityReq => 7 case StartDtmfRsp => 8
             case StartDtmfRej => 9 case StopDtmfRsp => 10 case HoldCnf => 11 case HoldRej => 12 case RetrieveCnf => 13
             case RetrieveRej => 14 case ModifyReq => 15 case ModifyRsp => 16 case ModifyRejReq => 17
             case UserinfoReq => 18 case RejReq => 19 case DiscReq => 20 case RelReq => 21;
    assert DOWN_TABLE[i].request == r;
  }

  lemma DownExactly(r: Request, s: State)
    ensures DownHandled(r, s) <==> s in DownStates(r)
  {
    hide AllStates, DownStates;
    DownTableFirst(r);
    DownTableRest(r);
    DownRowOf(r);
  }

  lemma Everywhere(s: State)
    ensures s in AllStates()
  {
  }

  // ---- Messages of the mobile station ----

  lemma PassedFollows(l: Local, m: MsMsg, ok: bool)
    requires !l.freed && l.t.state in UpStates(m) && PassedOn(m).Some?
    ensures Follows(l, Up(l, m, ok), ByMs(l.t, m, ok))
  {
    hide Send, Follows, AllStates;
    TellsOnly(l, l, PassedOn(m).value);
    Everywhere(Null);
  }

  lemma ReportedFollows(l: Local, m: MsMsg, ok: bool)
    requires !l.freed && l.t.state in UpStates(m) && Reported(m).Some?
    ensures Follows(l, Up(l, m, ok), ByMs(l.t, m, ok))
  {
    hide Send, NewState, Follows, AllStates;
    GoesToAndTells(l, StopTimer(l), Reported(m).value.0, Reported(m).value.1);
    Everywhere(Null);
  }

  lemma ReleaseFollows(l: Local, ok: bool)
    requires !l.freed && l.t.state != Null
    ensures Follows(l, Up(l, Release, ok), ByMs(l.t, Release, ok))
  {
    hide Send, NewState, Free, Follows;
    TellsAndEnds(l, StopTimer(l), ReleaseOf(l.t.state));
  }

  lemma ReleaseComplFollows(l: Local, ok: bool)
    requires !l.freed
    ensures Follows(l, RxReleaseCompl(l), Cleared(l.t))
  {
    hide Send, NewState, Free, Follows;
    TellsAndEnds(l, StopTimer(l), ReleaseOf(l.t.state));
    TellsAndEnds(l, StopTimer(l), RejInd);
  }

  lemma ClearedFollows(l: Local, m: MsMsg, ok: bool)
    requires !l.freed && l.t.state in UpStates(m) && (m == Release || m == ReleaseCompl)
    ensures Follows(l, Up(l, m, ok), ByMs(l.t, m, ok))
  {
    hide RxRelease, RxReleaseCompl, Follows, AllStates, Cleared;
    if m == Release {
      ReleaseFollows(l, ok);
    } else {
      ReleaseComplFollows(l, ok);
    }
  }

  lemma RestFollows(l: Local, m: MsMsg, ok: bool)
    requires !l.freed && l.t.state in UpStates(m) && PassedOn(m) == None && Reported(m) == None
    requires m != Release && m != ReleaseCompl
    ensures Follows(l, Up(l, m, ok), ByMs(l.t, m, ok))
  {
    hide Send, NewState, Free, Follows, AllStates, RxSetup;
    match m {
      case Setup => SetupFollows(l);
      case EmergSetup => SetupFollows(l);
      case CallConf =>
        var a := StartTimer(StopTimer(l), T310);
        GoesToAndTells(l, a, MoTermCallConf, CallConfInd);
        StaysPut(l, a);
      case Alerting =>
        var a := StartTimer(StopTimer(l), T301);
        GoesToAndTells(l, a, CallReceived, AlertInd);
        AlertEnds(l, a);
      case Modify => GoesToAndTells(l, l, MoOrigModify, ModifyInd);
      case StatusEnq => StaysPut(l, l);
    }
  }

  lemma SetupFollows(l: Local)
    requires !l.freed
    ensures Follows(l, RxSetup(l), To(Initiated, []))
  {
    GoesTo(l, l.(t := l.t.(guard := true)), Initiated);
  }

  lemma AlertEnds(l: Local, a: Local)
    requires Alike(l, a) && a.t.mnccInitiated == l.t.mnccInitiated && l.t.state != ReleaseReq
    ensures Follows(l, Free(NewState(a, CallReceived)), GivenUp(l.t, l.t.mnccInitiated))
  {
    hide Free;
    Ends(l, NewState(a, CallReceived));
  }

  lemma UpFollows(l: Local, m: MsMsg, ok: bool)
    requires !l.freed && l.t.state in UpStates(m)
    ensures Follows(l, Up(l, m, ok), ByMs(l.t, m, ok))
  {
    hide Up, Follows, ByMs, UpStates;
    if PassedOn(m).Some? {
      PassedFollows(l, m, ok);
    } else if Reported(m).Some? {
      ReportedFollows(l, m, ok);
    } else if m == Release || m == ReleaseCompl {
      ClearedFollows(l, m, ok);
    } else {
      RestFollows(l, m, ok);
    }
  }

  /** A message that finds no row changes nothing, but that it ends a transaction in NULL. */
  lemma UnhandledCourse(t: Trans, m: MsMsg, ok: bool)
    requires t.state !in UpStates(m)
    ensures ByMs(t, m, ok) == if t.state == Null then GivenUp(t, t.mnccInitiated) else Stay(t)
  {
    Everywhere(t.state);
  }

  lemma MsFollows(l: Local, m: MsMsg, ok: bool)
    requires !l.freed
    ensures Follows(l, FromMs(l, m, ok), ByMs(l.t, m, ok))
  {
    hide Up, Free, Follows, ByMs, UpStates, UpHandled;
    UpExactly(m, l.t.state);
    if UpHandled(m, l.t.state) {
      UpFollows(l, m, ok);
    } else {
      UnhandledCourse(l.t, m, ok);
      StaysPut(l, l);
      Ends(l, l);
    }
  }

  // ---- Requests of MNCC ----

  lemma SetUpFollows(l: Local, m: Local, o: SetupOutcome)
    requires Alike(l, m) && m.t.state == l.t.state && m.t.tidAssigned == l.t.tidAssigned
    ensures Follows(l, TxSetup(m, o), SetUp(l.t, o, m.t.mnccInitiated))
  {
    hide Send, NewState, Free, Follows;
    var a := StartTimer(m, T303);
    TellsAndEnds(l, m, ReleaseOf(l.t.state));
    TellsAndEnds(l, a, ReleaseOf(l.t.state));
    Ends(l, a);
    GoesTo(l, a.(t := a.t.(tidAssigned := true)), CallPresent);
  }

  lemma ReleasesFollow(l: Local, m: Local)
    requires Alike(l, m) && m.t.state == l.t.state && m.t.conn
    ensures Follows(l, TxRelease(m), To(ReleaseReq, []))
  {
    hide TxRelease;
    ReleasingSends(m);
    NoMsgs(l.t);
  }

  lemma DownMovesOn(l: Local, m: Local, r: Request, o: SetupOutcome)
    requires Alike(l, m) && m.t == l.t.(guard := m.t.guard, mnccInitiated := true) && m.t.conn
    requires l.t.state in DownStates(r)
    requires r in {CallProcReq, AlertReq, SetupRsp, SetupComplReq, ModifyReq, ModifyRsp, ModifyRejReq, DiscReq}
    ensures Follows(l, Down(m, r, o), ByMncc(l.t, r, o))
  {
    hide NewState, Free, Follows, TxSetup, TxRelease, SetUp, AllStates;
    match r {
      case CallProcReq => GoesTo(l, m, MoCallProc);
      case AlertReq => GoesTo(l, m, CallDelivered);
      case SetupRsp => GoesTo(l, StartTimer(StopTimer(m), T313), ConnectInd);
      case ModifyReq => GoesTo(l, StartTimer(m, T323), MoTermModify);
      case DiscReq => GoesTo(l, StartTimer(StopTimer(m), T306), DisconnectInd);
      case _ => GoesTo(l, m, Active);
    }
  }

  lemma DownFollows(l: Local, m: Local, r: Request, o: SetupOutcome)
    requires Alike(l, m) && m.t == l.t.(guard := m.t.guard, mnccInitiated := true) && m.t.conn
    requires l.t.state in DownStates(r)
    ensures Follows(l, Down(m, r, o), ByMncc(l.t, r, o))
  {
    hide NewState, Free, Follows, TxSetup, TxRelease, SetUp, AllStates, TxDisconnect;
    if r in {CallProcReq, AlertReq, SetupRsp, SetupComplReq, ModifyReq, ModifyRsp, ModifyRejReq, DiscReq} {
      DownMovesOn(l, m, r, o);
    } else {
      match r {
        case SetupReq => SetUpFollows(l, m, o);
        case RejReq => RejectEnds(l, m);
        case RelReq => ReleasesFollow(l, m);
        case _ => StaysPut(l, m);
      }
    }
  }

  lemma RejectEnds(l: Local, m: Local)
    requires Alike(l, m)
    ensures Follows(l, Free(StopTimer(Forget(m))), Over([]))
  {
    hide Free;
    FreeSends(StopTimer(Forget(m)));
    NoMsgs(l.t);
  }

  /** A request that finds no row changes nothing. */
  lemma UnhandledRequest(t: Trans, r: Request, o: SetupOutcome)
    requires t.conn && t.state !in DownStates(r)
    ensures ByMncc(t, r, o) == Stay(t)
  {
    Everywhere(t.state);
  }

  lemma MnccFollows(l: Local, r: Request, o: SetupOutcome)
    requires !l.freed
    ensures Follows(l, FromMncc(l, r, o), ByMncc(l.t, r, o))
  {
    hide Down, Free, Send, Follows, ByMncc, DownStates, DownHandled, RestartsGuard;
    var a := Contacted(l, r);
    DownExactly(r, l.t.state);
    if !a.t.conn {
      TellsAndEnds(l, a, if r == RelReq then RelCnf else RelInd);
      Unconnected(l.t, r, o);
    } else if DownHandled(r, a.t.state) {
      DownFollows(l, a, r, o);
    } else {
      UnhandledRequest(l.t, r, o);
      StaysPut(l, a);
    }
  }

  lemma Unconnected(t: Trans, r: Request, o: SetupOutcome)
    requires !t.conn
    ensures ByMncc(t, r, o) == Over([if r == RelReq then RelCnf else RelInd])
  {
  }

  // ---- Everything else ----

  lemma DisconnectFollows(l: Local, f: Local)
    requires Alike(l, f) && f.t.state == l.t.state
    ensures Follows(l, Disconnected(f), To(DisconnectInd, if l.t.callref != 0 then [DiscInd] else []))
  {
    hide NewState, Send, Follows;
    if l.t.callref != 0 {
      ToldThenGoes(l, f, DiscInd, StartTimer(StopTimer(Send(f, DiscInd)), T306));
    } else {
      GoesTo(l, StartTimer(StopTimer(f), T306), DisconnectInd);
    }
  }

  lemma ToldThenGoes(l: Local, f: Local, k: Kind, g: Local)
    requires Alike(l, f) && f.t.state == l.t.state && g == StartTimer(StopTimer(Send(f, k)), T306)
    ensures Follows(l, NewState(g, DisconnectInd), To(DisconnectInd, [k]))
  {
    OneMsg(k, l.t);
  }

  lemma ReleaseFollowsTimer(l: Local, f: Local)
    requires Alike(l, f) && f.t.state == l.t.state && l.t.state != ReleaseReq
    ensures Follows(l, TxRelease(if f.t.callref != 0 then Forget(ReleaseInd(f)) else f),
                    To(if f.t.conn then ReleaseReq else l.t.state, if l.t.callref != 0 then [RelInd] else []))
  {
    hide TxRelease;
    ReleasingSends(f);
    ReleasingSends(Forget(ReleaseInd(f)));
    NoMsgs(l.t);
    OneMsg(RelInd, l.t);
  }

  lemma TimerFollows(l: Local)
    requires !l.freed && TransOk(l.t) && l.t.armed
    ensures Follows(l, Timeout(l), ByTimer(l.t))
  {
    hide Free, TxRelease, TxDisconnect, Follows, Send, Disconnected;
    var f := l.(t := l.t.(armed := false));
    if l.t.state == ReleaseReq {
      AgainFollows(l, f);
      Ends(l, f);
    } else {
      DisconnectFollows(l, f);
      ReleaseFollowsTimer(l, f);
    }
  }

  /** The release is sent again. */
  lemma AgainFollows(l: Local, f: Local)
    requires Alike(l, f) && f.t.state == l.t.state == ReleaseReq
    ensures var r := TxRelease(f);
            Follows(l, r.(t := r.t.(t308Second := true)), Stay(l.t))
  {
    hide TxRelease;
    ReleasingSends(f);
    NoMsgs(l.t);
  }

  lemma PagingFollows(l: Local, success: bool, o: SetupOutcome)
    requires !l.freed
    ensures Follows(l, Paged(l, success, o), ByPaging(l.t, success, o))
  {
    hide Free, Send, TxSetup, SetUp, Follows;
    StaysPut(l, l);
    TellsAndEnds(l, l, ReleaseOf(l.t.state));
    var a := l.(t := l.t.(conn := true));
    SetUpFollows(l, a, o);
  }

  lemma RtpFollows(l: Local, o: RtpOutcome)
    requires !l.freed
    ensures Follows(l, RtpKnown(l, o), ByRtp(l.t, o))
  {
    hide Free, Send, Follows;
    var a := l.(t := l.t.(setupStored := false));
    StaysPut(l, l);
    TellsAndEnds(l, l, RtpCreate);
    Ends(l, l);
    Ends(l, a);
    TellsOnly(l, l, RtpCreate);
    TellsOnly(l, a, SetupInd);
  }

  lemma AssignmentFollows(l: Local, o: RtpOutcome)
    requires !l.freed
    ensures Follows(l, AssignmentDone(l, o), ByAssignment(l.t, o))
  {
    hide Send, Follows;
    StaysPut(l, l);
    TellsOnly(l, l, RtpCreate);
  }

  /** Whatever happens to a transaction, it takes the course of its state: the next state, the messages to MNCC in their
      order, and whether a call became active. */
  lemma CourseTaken(l: Local, e: Event)
    requires !l.freed && TransOk(l.t)
    ensures Follows(l, React(l, e), CourseOf(l.t, e))
  {
    hide Free, Send, FromMs, FromMncc, Timeout, Paged, RtpKnown, AssignmentDone, Follows;
    hide ByMs, ByMncc, ByTimer, ByPaging, ByRtp, ByAssignment, TransOk;
    StaysPut(l, l);
    match e {
      case MsMessage(_, m, ok) => MsFollows(l, m, ok);
      case MnccMessage(_, r, o) => MnccFollows(l, r, o);
      case Expiry(_) => TimerCourse(l);
      case PagingResult(_, success, o) => PagingFollows(l, success, o);
      case RtpPort(_, o) => RtpFollows(l, o);
      case Assigned(_, o) => AssignmentFollows(l, o);
      case RtpRefused(_, connect) => TellsOnly(l, l, if connect then RtpConnect else RtpCreate);
      case MnccLost(_) => TellsAndEnds(l, l, RelInd);
      case _ => Ends(l, l);
    }
  }

  lemma TimerCourse(l: Local)
    requires !l.freed && TransOk(l.t)
    ensures Follows(l, if l.t.armed then Timeout(l) else l, ByTimer(l.t))
  {
    hide Timeout, Follows;
    if l.t.armed {
      TimerFollows(l);
    } else {
      StaysPut(l, l);
    }
  }

  /** Nothing but messages of the two sides makes a call active. */
  lemma OthersNotActive(t: Trans, e: Event)
    requires !e.MsMessage? && !e.MnccMessage? && t.state != Active
    ensures CourseOf(t, e).next != Some(Active)
  {
  }

  // ---- Over runs ----

  /** The course of a transaction that an event makes. */
  function FirstCourse(e: Event): Course
    requires e.MsFirst? || (e.MnccFirst? && e.request == SetupReq && e.answer != Reject)
  {
    match e
    case MsFirst(m, accepted, _) =>
      if !accepted then Over([])
      else (match m
            case Setup => To(Initiated, [])
            case EmergSetup => To(Initiated, [])
            case StartDtmf => To(Null, [StartDtmfInd])
            case StopDtmf => To(Null, [StopDtmfInd])
            case StatusEnq => To(Null, [])
            case ReleaseCompl => Over([RelInd])
            case _ => Over([]))
    case MnccFirst(callref, _, OnConnection(o)) =>
      if o == SetupOk then To(CallPresent, [])
      else if o == SetupFailed && callref == 0 then Over([])
      else Over([RelInd])
    case MnccFirst(_, _, Page(started)) => if started then To(Null, []) else Over([])
  }

  /** From r to r' transaction id, which was or would have been t, took this course, and no other was touched. */
  predicate Taken(r: Net, r': Net, id: nat, t: Trans, c: Course) {
    && (id in r'.trans <==> c.next.Some?) && (id in r'.trans ==> r'.trans[id].state == c.next.value)
    && r'.up == r.up + Msgs(c.told, t)
    && r'.trans - {id} == r.trans - {id}
    && r'.counts.activated
       == r.counts.activated + (if t.state != Active && c.next == Some(Active) then 1 else 0)
  }

  lemma PutTaken(r: Net, a: Net, id: nat, l: Local, l': Local, c: Course)
    requires Follows(l, l', c) && l.up == r.up && l.counts == r.counts && a.trans - {id} == r.trans - {id}
    ensures Taken(r, Put(a, id, l'), id, l.t, c)
  {
    assert a.trans[id := l'.t] - {id} == a.trans - {id};
  }

  /** Over every run: an event about a transaction leads it on as its state tells. */
  lemma CourseInRun(n: Net, es: seq<Event>, e: Event)
    requires Start(n) && !e.MsFirst? && !e.MnccFirst? && !e.BridgeFailed?
    ensures var r := Run(n, es);
            e.id in r.trans ==> Taken(r, Next(r, e), e.id, r.trans[e.id], CourseOf(r.trans[e.id], e))
  {
    hide Run, React, Start, TransOk, CourseOf, Follows, Taken, Put;
    Reachable(n, es);
    var r := Run(n, es);
    if e.id in r.trans {
      CourseTaken(Focus(r, e.id), e);
      PutTaken(r, r, e.id, Focus(r, e.id), React(Focus(r, e.id), e), CourseOf(r.trans[e.id], e));
    }
  }

  lemma MsFirstCourse(t: Trans, m: MsMsg, ok: bool)
    requires t.state == Null && t.callref != 0 && !t.mnccInitiated
    ensures ByMs(t, m, ok) == FirstCourse(MsFirst(m, true, ok))
  {
  }

  lemma MnccFirstCourse(t: Trans, o: SetupOutcome)
    requires t.conn && t.state == Null && !t.tidAssigned
    ensures ByMncc(t, SetupReq, o) == FirstCourse(MnccFirst(t.callref, SetupReq, OnConnection(o)))
  {
  }

  /** An event that makes a transaction, likewise. */
  lemma FirstTaken(n: Net, e: Event)
    requires Named(n) && (e.MsFirst? || (e.MnccFirst? && e.request == SetupReq && e.answer != Reject))
    ensures var callref := if e.MsFirst? then NextCallref(n.lastCallref) else e.callref;
            Taken(n, Next(n, e), n.nextId, NewTrans(n.nextId, callref, e.MsFirst?), FirstCourse(e))
  {
    hide FromMs, FromMncc, Free, ByMs, ByMncc, Follows, Taken, Put, TransOk;
    var callref := if e.MsFirst? then NextCallref(n.lastCallref) else e.callref;
    var l := Local(NewTrans(n.nextId, callref, e.MsFirst?), n.up, n.counts, false);
    var a := Alloc(if e.MsFirst? then n.(lastCallref := callref) else n, callref, e.MsFirst?);
    assert a.trans - {n.nextId} == n.trans - {n.nextId};
    match e {
      case MsFirst(m, accepted, ok) =>
        MsFollows(Attach(l), m, ok);
        MsFirstCourse(Attach(l).t, m, ok);
        AttachedFollows(l, FromMs(Attach(l), m, ok), FirstCourse(MsFirst(m, true, ok)));
        Ends(l, l);
        PutTaken(n, a, n.nextId, l, if accepted then FromMs(Attach(l), m, ok) else Free(l), FirstCourse(e));
      case MnccFirst(_, _, OnConnection(o)) =>
        MnccFollows(Attach(l), SetupReq, o);
        MnccFirstCourse(Attach(l).t, o);
        AttachedFollows(l, FromMncc(Attach(l), SetupReq, o), FirstCourse(e));
        PutTaken(n, a, n.nextId, l, FromMncc(Attach(l), SetupReq, o), FirstCourse(e));
      case MnccFirst(_, _, Page(started)) =>
        Ends(l, l);
        StaysPut(l, l);
        PutTaken(n, a, n.nextId, l, if started then l else Free(l), FirstCourse(e));
    }
  }

  /** A request for a call that is not known is answered by one release under its callref, and no call is touched. */
  lemma UnknownRefused(n: Net, callref: Callref, r: Request, answer: Answer)
    requires r != SetupReq || answer == Reject
    ensures var n' := Next(n, MnccFirst(callref, r, answer));
            && |n'.up| == |n.up| + 1 && n'.up[..|n.up|] == n.up
            && n'.up[|n.up|].kind == RelInd && n'.up[|n.up|].callref == callref && n'.up[|n.up|].sender == None
            && n'.trans == n.trans && n'.counts == n.counts
  {
  }

  lemma AttachedFollows(l: Local, l': Local, c: Course)
    requires Follows(Attach(l), l', c)
    ensures Follows(l, l', c)
  {
    assert Msgs(c.told, Attach(l).t) == Msgs(c.told, l.t);
  }

  /** A failed bridge disconnects both calls and tells MNCC nothing. */
  lemma BridgeTaken(n: Net, id: nat, other: nat)
    requires id in n.trans && other in n.trans
    ensures var n' := Next(n, BridgeFailed(id, other));
            && id in n'.trans && n'.trans[id].state == DisconnectInd
            && other in n'.trans && n'.trans[other].state == DisconnectInd
            && n'.up == n.up && n'.trans - {id, other} == n.trans - {id, other}
            && n'.counts.activated == n.counts.activated
  {
    hide Unbridge;
    Unbridged(n, id);
    Unbridged(Unbridge(n, id), other);
  }

  lemma Unbridged(n: Net, id: nat)
    requires id in n.trans
    ensures var n' := Unbridge(n, id);
            && id in n'.trans && n'.trans == n.trans[id := n'.trans[id]] && n'.trans[id].state == DisconnectInd
            && n'.up == n.up && n'.counts.activated == n.counts.activated
  {
    hide NewState, Follows;
    var l := Focus(n, id);
    NewStateQuietly(StartTimer(StopTimer(l), T306));
  }

  lemma NewStateQuietly(l: Local)
    ensures var m := NewState(l, DisconnectInd);
            m.t.state == DisconnectInd && m.up == l.up && m.freed == l.freed && m.counts.activated == l.counts.activated
  {
  }

  /** The events by which a call becomes active: the mobile station acknowledges the connection, MNCC completes the set-up,
      or either side answers a modification. */
  predicate Answers(t: Trans, e: Event) {
    && t.conn
    && match t.state
       case ConnectInd => e.MsMessage? && e.msg == ConnectAck
       case ConnectRequest => e.MnccMessage? && e.request == SetupComplReq
       case MoTermModify => e.MsMessage? && (e.msg == ModifyCompl || e.msg == ModifyReject)
       case MoOrigModify => e.MnccMessage? && (e.request == ModifyRsp || e.request == ModifyRejReq)
       case _ => false
  }

  lemma AnswersExactly(t: Trans, e: Event)
    ensures t.state != Active && CourseOf(t, e).next == Some(Active) <==> Answers(t, e)
  {
    if e.MsMessage? || e.MnccMessage? {
      MessageAnswers(t, e);
    } else if t.state != Active {
      OthersNotActive(t, e);
    }
  }

  lemma MessageAnswers(t: Trans, e: Event)
    requires e.MsMessage? || e.MnccMessage?
    ensures t.state != Active && CourseOf(t, e).next == Some(Active) <==> Answers(t, e)
  {
  }

  function AnswersIn(n: Net, es: seq<Event>): nat {
    if es == [] then 0
    else
      var r, e := Run(n, es[..|es| - 1]), es[|es| - 1];
      AnswersIn(n, es[..|es| - 1])
      + (if !e.MsFirst? && !e.MnccFirst? && !e.BridgeFailed? && e.id in r.trans && Answers(r.trans[e.id], e) then 1 else 0)
  }

  lemma FirstNotActive(e: Event)
    requires e.MsFirst? || (e.MnccFirst? && e.request == SetupReq && e.answer != Reject)
    ensures FirstCourse(e).next != Some(Active)
  {
  }

  lemma EventActivates(n: Net, es: seq<Event>, e: Event)
    requires Start(n)
    ensures var r := Run(n, es);
            var answered := !e.MsFirst? && !e.MnccFirst? && !e.BridgeFailed? && e.id in r.trans && Answers(r.trans[e.id], e);
            Next(r, e).counts.activated == r.counts.activated + (if answered then 1 else 0)
  {
    hide Run, React, Start, Answers, CourseOf, FirstCourse;
    Reachable(n, es);
    var r := Run(n, es);
    if e.BridgeFailed? {
      if e.id in r.trans && e.other in r.trans {
        BridgeTaken(r, e.id, e.other);
      }
    } else if e.MsFirst? || (e.MnccFirst? && e.request == SetupReq && e.answer != Reject) {
      FirstTaken(r, e);
      FirstNotActive(e);
    } else if !e.MnccFirst? {
      CourseInRun(n, es, e);
      if e.id in r.trans {
        AnswersExactly(r.trans[e.id], e);
      }
    }
  }

  /** Over every run the calls counted as activated are those that were answered. */
  lemma {:induction false} ActivatedIsAnswered(n: Net, es: seq<Event>)
    requires Start(n)
    ensures Run(n, es).counts.activated == AnswersIn(n, es)
    decreases |es|
  {
    hide Next, Answers;
    if es != [] {
      ActivatedIsAnswered(n, es[..|es| - 1]);
      EventActivates(n, es[..|es| - 1], es[|es| - 1]);
    }
  }
}
