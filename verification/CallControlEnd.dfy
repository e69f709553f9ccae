/** Whether MNCC is told when a transaction ends. */
module CallControlEnd {
  import opened Options
  import opened CallControlSpec
  import opened CallControlLocal
  import opened CallControlRuns

  /** Whether MNCC hears of it when event e ends a transaction that has a callref. */
  predicate Hears(t: Trans, e: Event) {
    match e
    case MsMessage(_, m, _) => (m == Release && t.state != Null) || m == ReleaseCompl || t.mnccInitiated
    case MnccMessage(_, r, _) => r != RejReq || !t.conn
    case PagingResult(_, success, o) =>
      !success || t.tidAssigned || o == SetupNoTid || o == SetupReleased || t.mnccInitiated
    case MnccLost(_) => false
    case _ => t.mnccInitiated
  }

  predicate EndsAsSaid(l: Local, l': Local, told: bool) {
    l'.freed && l.t.callref != 0 ==> Releases(l'.up, l.t.id) == Releases(l.up, l.t.id) + (if told then 1 else 0)
  }

  /** Freeing from a point m inside a handler. */
  lemma FreeTells(l: Local, m: Local)
    requires !m.freed && m.t.id == l.t.id
    ensures m.up == l.up && m.t.callref == l.t.callref ==> EndsAsSaid(l, Free(m), m.t.mnccInitiated)
    ensures m.up == l.up && m.t.callref == 0 ==> EndsAsSaid(l, Free(m), false)
  {
    hide Free, Releases;
    FreeEffect(m);
  }

  /** Freeing once a release was told under the callref. */
  lemma ToldThenFree(l: Local, m: Local, k: Kind)
    requires !m.freed && m.t.id == l.t.id && m.up == l.up && m.t.callref == l.t.callref && IsRelease(k)
    ensures EndsAsSaid(l, Free(Forget(Send(m, k))), true)
    ensures EndsAsSaid(l, Free(Forget(NewState(Send(m, k), Null))), true)
  {
    hide Free, Releases, Send, NewState;
    SendEffect(m, k);
    NewStateEffect(Send(m, k), Null);
    FreeEffect(Forget(Send(m, k)));
    FreeEffect(Forget(NewState(Send(m, k), Null)));
  }

  /** A release in any state but NULL and a release complete in any state find their routine. */
  lemma ClearsInAnyState(s: State)
    ensures UpHandled(Release, s) <==> s != Null
    ensures UpHandled(ReleaseCompl, s)
  {
    assert s in AllStates();
    UpTableRows(Release, s);
    assert UP_TABLE[18] == UpRow(AllStates() - {Null}, Release);
    assert UP_TABLE[19] == UpRow(AllStates(), ReleaseCompl);
  }

  lemma NeverFrees(l: Local, m: MsMsg, ok: bool)
    requires !l.freed && m !in {Release, ReleaseCompl, Alerting}
    ensures !Up(l, m, ok).freed
  {
  }

  lemma ClearingTells(l: Local)
    requires !l.freed
    ensures EndsAsSaid(l, RxRelease(l), true) && EndsAsSaid(l, RxReleaseCompl(l), true)
  {
    hide Free, Releases, Send, NewState;
    var a := StopTimer(l);
    ToldThenFree(l, a, if a.t.state == ReleaseReq then RelCnf else RelInd);
    ToldThenFree(l, a, RejInd);
  }

  lemma AlertingTells(l: Local, ok: bool)
    requires !l.freed
    ensures EndsAsSaid(l, Up(l, Alerting, ok), l.t.mnccInitiated)
  {
    hide Free, Releases, Send, NewState;
    var a := StartTimer(StopTimer(l), T301);
    NewStateEffect(a, CallReceived);
    SendEffect(NewState(a, CallReceived), AlertInd);
    FreeTells(l, NewState(a, CallReceived));
  }

  lemma UpTells(l: Local, m: MsMsg, ok: bool)
    requires !l.freed
    ensures EndsAsSaid(l, Up(l, m, ok), m == Release || m == ReleaseCompl || l.t.mnccInitiated)
  {
    hide Free, Releases, Send, NewState, RxSetup, RxRelease, RxReleaseCompl;
    if m == Alerting {
      AlertingTells(l, ok);
    } else if m == Release || m == ReleaseCompl {
      ClearingTells(l);
    } else {
      NeverFrees(l, m, ok);
    }
  }

  lemma MsMessageTells(l: Local, m: MsMsg, ok: bool)
    requires !l.freed
    ensures EndsAsSaid(l, FromMs(l, m, ok),
                       (m == Release && l.t.state != Null) || m == ReleaseCompl || l.t.mnccInitiated)
  {
    hide Up, UpHandled, Free, Releases;
    UpTells(l, m, ok);
    FreeTells(l, l);
    ClearsInAnyState(l.t.state);
  }

  lemma TxSetupTells(l: Local, m: Local, o: SetupOutcome)
    requires !m.freed && m.t.id == l.t.id && m.up == l.up && m.t.callref == l.t.callref
    ensures EndsAsSaid(l, TxSetup(m, o),
                       m.t.tidAssigned || o == SetupNoTid || o == SetupReleased || m.t.mnccInitiated)
  {
    hide Free, Releases, Send, NewState;
    var k := if m.t.state == ReleaseReq then RelCnf else RelInd;
    var a := StartTimer(m, T303);
    ToldThenFree(l, m, k);
    ToldThenFree(l, a, k);
    FreeTells(l, a);
    NewStateEffect(a.(t := a.t.(tidAssigned := true)), CallPresent);
  }

  lemma MnccMessageTells(l: Local, r: Request, o: SetupOutcome)
    requires !l.freed
    ensures EndsAsSaid(l, FromMncc(l, r, o), r != RejReq || !l.t.conn)
  {
    hide Free, Releases, Send, NewState, TxSetup, TxRelease, TxDisconnect, DownHandled, RestartsGuard;
    var a := Contacted(l, r);
    if !a.t.conn {
      ToldThenFree(l, a, if r == RelReq then RelCnf else RelInd);
    } else if r == RejReq {
      FreeTells(l, StopTimer(Forget(a)));
    } else if r == SetupReq {
      TxSetupTells(l, a, o);
    } else {
      NeverFreesDown(a, r, o);
    }
  }

  lemma NeverFreesDown(l: Local, r: Request, o: SetupOutcome)
    requires !l.freed && r !in {RejReq, SetupReq}
    ensures !Down(l, r, o).freed
  {
  }

  lemma PagingTells(l: Local, success: bool, o: SetupOutcome)
    requires !l.freed
    ensures EndsAsSaid(l, Paged(l, success, o),
                       !success || l.t.tidAssigned || o == SetupNoTid || o == SetupReleased || l.t.mnccInitiated)
  {
    hide Free, Releases, Send, TxSetup;
    ToldThenFree(l, l, if l.t.state == ReleaseReq then RelCnf else RelInd);
    TxSetupTells(l, l.(t := l.t.(conn := true)), o);
  }

  lemma TimeoutTells(l: Local)
    requires !l.freed
    ensures EndsAsSaid(l, Timeout(l), l.t.mnccInitiated)
  {
    hide Free, Releases, Send, TxRelease, TxDisconnect;
    var f := l.(t := l.t.(armed := false));
    FreeTells(l, f);
    SendEffect(f, DiscInd);
    SendEffect(f, RelInd);
    SendEffect(f, RelCnf);
    TxDisconnectEffect(f);
    TxDisconnectEffect(Send(f, DiscInd));
    TxReleaseEffect(f);
    TxReleaseEffect(Forget(Send(f, RelInd)));
    TxReleaseEffect(Forget(Send(f, RelCnf)));
  }

  lemma RtpTells(l: Local, o: RtpOutcome)
    requires !l.freed && TransOk(l.t)
    ensures EndsAsSaid(l, RtpKnown(l, o), l.t.mnccInitiated) && EndsAsSaid(l, AssignmentDone(l, o), l.t.mnccInitiated)
  {
    hide Free, Releases, Send;
    FreeTells(l, l);
    FreeTells(l, l.(t := l.t.(setupStored := false)));
    SendEffect(l, RtpCreate);
    SendEffect(l.(t := l.t.(setupStored := false)), SetupInd);
  }

  /** An event that ends a transaction with a callref tells MNCC exactly once if Hears says so, and not at all
      otherwise. */
  lemma EndTold(l: Local, e: Event)
    requires !l.freed && TransOk(l.t)
    ensures EndsAsSaid(l, React(l, e), Hears(l.t, e))
  {
    hide TransOk, Free, Timeout, FromMs, FromMncc, Paged, RtpKnown, AssignmentDone, Releases;
    match e {
      case MsMessage(_, m, ok) => MsMessageTells(l, m, ok);
      case MnccMessage(_, r, o) => MnccMessageTells(l, r, o);
      case PagingResult(_, success, o) => PagingTells(l, success, o);
      case Expiry(_) => TimeoutTells(l);
      case RtpPort(_, o) => RtpTells(l, o);
      case Assigned(_, o) => RtpTells(l, o);
      case MnccLost(_) => FreeTells(l, Forget(l));
      case _ => FreeTells(l, l);
    }
  }

  /** The event is about this transaction and about no other. */
  predicate Concerns(e: Event, id: nat) {
    !e.MsFirst? && !e.MnccFirst? && !e.BridgeFailed? && e.id == id
  }

  lemma OthersStay(n: Net, e: Event, id: nat)
    requires Named(n) && id in n.trans && !Concerns(e, id)
    ensures id in Next(n, e).trans
  {
    hide React, FromMs, FromMncc, Free, TransOk;
  }

  /** Over every run and for every event: when a transaction with a callref goes, the event is about it, and MNCC has
      been told of it exactly once if Hears says so at that moment, and never otherwise. */
  lemma GoneTold(n: Net, es: seq<Event>, e: Event, id: nat)
    requires Start(n)
    ensures var r := Run(n, es);
            id in r.trans && r.trans[id].callref != 0 && id !in Next(r, e).trans ==>
              Concerns(e, id) && Releases(Next(r, e).up, id) == if Hears(r.trans[id], e) then 1 else 0
  {
    hide Run, React, Hears, Releases, TransOk, Start, FromMs, FromMncc, Free, TxDisconnect;
    Reachable(n, es);
    var r := Run(n, es);
    if id in r.trans && r.trans[id].callref != 0 {
      if Concerns(e, id) {
        EndTold(Focus(r, id), e);
      } else {
        OthersStay(r, e, id);
      }
    }
  }

  /** Whether MNCC hears of it when an event makes a transaction and ends it at once. */
  predicate HearsAtOnce(e: Event) {
    match e
    case MsFirst(m, accepted, _) => accepted && m == ReleaseCompl
    case MnccFirst(callref, r, answer) => callref != 0 && r == SetupReq && answer.OnConnection?
    case _ => false
  }

  lemma MsFirstTold(r: Net, e: Event)
    requires e.MsFirst? && Releases(r.up, r.nextId) == 0 && r.nextId !in Next(r, e).trans
    ensures Releases(Next(r, e).up, r.nextId) == if HearsAtOnce(e) then 1 else 0
  {
    hide Releases, FromMs, Free;
    var l := Local(NewTrans(r.nextId, NextCallref(r.lastCallref), true), r.up, r.counts, false);
    MsMessageTells(Attach(l), e.msg, e.ok);
    FreeTells(l, l);
  }

  lemma MnccFirstTold(r: Net, e: Event)
    requires e.MnccFirst? && Releases(r.up, r.nextId) == 0 && r.nextId !in Next(r, e).trans
    ensures Releases(Next(r, e).up, r.nextId) == if HearsAtOnce(e) then 1 else 0
  {
    hide Releases, FromMncc, Free, TransOk;
    var l := Local(NewTrans(r.nextId, e.callref, false), r.up, r.counts, false);
    ReleasesAppend(r.up, Msg(RelInd, e.callref, None), r.nextId);
    FreeEffect(l);
    if e.answer.OnConnection? {
      NewFits(l);
      FromMnccSteps(Attach(l), SetupReq, e.answer.outcome);
      MnccMessageTells(Attach(l), SetupReq, e.answer.outcome);
    }
  }

  /** Over every run: a transaction that is made and gone in one event has been told of exactly once if it was to be set
      up under a callref on a connection that MNCC's subscriber already had, or if the mobile station opened it with a
      release complete; in all other cases MNCC hears nothing. */
  lemma GoneAtOnceTold(n: Net, es: seq<Event>, e: Event)
    requires Start(n) && (e.MsFirst? || e.MnccFirst?)
    ensures var r := Run(n, es);
            r.nextId !in Next(r, e).trans ==>
              Releases(Next(r, e).up, r.nextId) == if HearsAtOnce(e) then 1 else 0
  {
    hide Run, Next, Releases, Start, HearsAtOnce;
    Reachable(n, es);
    var r := Run(n, es);
    NothingToldYet(r);
    if r.nextId !in Next(r, e).trans {
      if e.MsFirst? {
        MsFirstTold(r, e);
      } else {
        MnccFirstTold(r, e);
      }
    }
  }

  lemma NothingToldYet(r: Net)
    requires Inv(r)
    ensures Releases(r.up, r.nextId) == 0
  {
  }

  /** Over every run and for every event: a transaction that goes with a callref after MNCC was in contact has been told
      of exactly once, but for MNCC's own rejection of it and for MNCC's own disappearance, of which it is not told at
      all. */
  lemma ContactedTold(n: Net, es: seq<Event>, e: Event, id: nat)
    requires Start(n)
    ensures var r := Run(n, es);
            id in r.trans && r.trans[id].callref != 0 && r.trans[id].mnccInitiated && id !in Next(r, e).trans ==>
              var silent := e.MnccLost? || (e.MnccMessage? && e.request == RejReq && r.trans[id].conn);
              Releases(Next(r, e).up, id) == if silent then 0 else 1
  {
    hide Run, Next, Releases, Start;
    GoneTold(n, es, e, id);
  }

  predicate Quiet(l: Local, l': Local) {
    l'.freed == l.freed && l'.up == l.up && l'.counts == l.counts && l'.t.state != Active
  }

  lemma NewStateQuiet(l: Local, s: State)
    requires l.t.state != Active && s != Active
    ensures Quiet(l, NewState(l, s))
  {
  }

  lemma TxReleaseQuiet(l: Local)
    requires l.t.state != Active
    ensures Quiet(l, TxRelease(l))
  {
    hide NewState;
    var a := StartTimer(StopTimer(l), T308);
    NewStateQuiet(a.(t := a.t.(t308Second := false)), ReleaseReq);
  }

  lemma FreeReleasedQuiet(l: Local)
    requires l.t.state != Active
    ensures Quiet(l, FreeReleased(l))
  {
    hide TxRelease;
    TxReleaseQuiet(l);
  }

  lemma FreedSilently(l: Local)
    requires !l.t.mnccInitiated && l.t.state == Null
    ensures var f := Free(l);
            f.freed && f.up == l.up && f.counts == l.counts
  {
    hide FreeReleased, NewState;
    assert FreeTold(l) == StopTimer(l);
    FreeReleasedQuiet(StopTimer(l));
    NewStateQuiet(FreeReleased(StopTimer(l)), Null);
  }

  /** A call that MNCC asked for and whose paging cannot be started vanishes without any message to MNCC: the request
      itself is not counted as contact. */
  lemma PagingNeverStarted(n: Net, callref: Callref)
    requires Named(n)
    ensures var n' := Next(n, MnccFirst(callref, SetupReq, Page(false)));
            n'.trans == n.trans && n'.up == n.up && n'.counts == n.counts
  {
    hide Free;
    FreedSilently(Focus(Alloc(n, callref, false), n.nextId));
  }

  /** So does a call that was paged, when the set-up then fails for a reason that sends no release of its own. */
  lemma PagedInVain(n: Net, callref: Callref)
    requires Named(n)
    ensures var a := Next(n, MnccFirst(callref, SetupReq, Page(true)));
            var n' := Next(a, PagingResult(n.nextId, true, SetupFailed));
            n.nextId in a.trans && n'.trans == n.trans && n'.up == n.up && n'.counts == n.counts
  {
    hide Free;
    FreedSilently(StartTimer(Attach(Focus(Alloc(n, callref, false), n.nextId)), T303));
  }

  /** A release complete that opens a transaction is passed on: MNCC gets a release indication for a call that it never
      heard of, under a callref made up for it. */
  lemma StrayReleaseComplete(n: Net, ok: bool)
    requires Named(n)
    ensures var n' := Next(n, MsFirst(ReleaseCompl, true, ok));
            && n'.trans == n.trans
            && n'.up == n.up + [Msg(RelInd, NextCallref(n.lastCallref), Some(n.nextId))]
  {
    hide Free;
    var l := Attach(Local(NewTrans(n.nextId, NextCallref(n.lastCallref), true), n.up, n.counts, false));
    var told := Forget(Send(StopTimer(l), RelInd));
    ClearsInAnyState(Null);
    UntoldFree(told);
  }

  lemma UntoldFree(l: Local)
    requires l.t.callref == 0
    ensures Free(l).freed && Free(l).up == l.up
  {
    hide NewState, TxRelease;
    var d := FreeReleased(FreeTold(l));
    assert FreeTold(l) == StopTimer(l) && d == StopTimer(l);
    UpKept(d, Null);
  }

  lemma UpKept(l: Local, s: State)
    ensures NewState(l, s).up == l.up
  {
  }
}
