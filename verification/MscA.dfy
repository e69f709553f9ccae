/** The MSC-A state machine at work: actions, entry functions, use count callback, timer and layer 3 gate, nested in
    one another as the callbacks of msc_a.c are. */
module MscA {
  import opened Options
  import opened MscASpec
  import Spec = MscASpec

  class Connection {
    const sgs: bool            // EUTRAN-SGs: no Clear Complete will come
    const onAccept: seq<Op>    // what evaluating the accepted connection leads to, on entering AUTHENTICATED
    const onCancel: seq<Op>    // what cancelling the VLR's FSMs leads to, on entering RELEASING
    var state: State
    var alive: bool
    var armed: bool
    var uses: multiset<Use>
    var trans: seq<TransType>
    var callLeg: bool
    var stateBefore: State
    var log: seq<Entry>

    function V(): View
      reads this
    {
      View(state, alive, armed, uses, trans, log, sgs)
    }

    /** msc_a_alloc() */
    constructor (sgs: bool, onAccept: seq<Op>, onCancel: seq<Op>)
      ensures V() == View(ValidateL3, true, true, multiset{}, [], [Entered(ValidateL3)], sgs)
      ensures Sound(V()) && Busy(V())
    {
      this.sgs, this.onAccept, this.onCancel := sgs, onAccept, onCancel;
      state, alive, armed, uses, trans, callLeg := ValidateL3, true, true, multiset{}, [], false;
      stateBefore := ValidateL3;
      log := [Entered(ValidateL3)];
    }

    // ---- Use tokens ----

    method GetUse(u: Use)
      modifies `uses
      ensures uses == old(uses) + multiset{u}
    {
      uses := uses + multiset{u};
    }

    /** msc_a_put() with msc_a_use_cb(). */
    method PutUse(u: Use)
      requires u in uses && Sound(V().(uses := uses - multiset{u}))
      modifies this
      ensures Sound(V()) && Busy(V())
      ensures Moves(old(V().(uses := uses - multiset{u})), V())
      ensures |old(uses)| > 1 ==> V() == old(V().(uses := uses - multiset{u}))
      ensures |old(uses)| == 1 && old(alive) ==> (InRelease(state) <==> old(state) != WaitClassmark)
      ensures |old(uses)| == 1 && old(alive) && old(state) == Released ==> !alive
      ensures |old(uses)| == 1 && old(state) == WaitClassmark ==> V() == old(V().(uses := uses - multiset{u}))
      ensures old(InRelease(state)) && old(trans) == [] ==> uses == old(uses) - multiset{u}
      ensures old(state) == Releasing ==> state == Releasing && alive == old(alive)
      ensures InRelease(state) || trans == old(trans)
      decreases Level(V()), 0, 6
    {
      uses := uses - multiset{u};
      if |uses| == 0 {
        hide Sound, Moves, Busy;
        assert !Takes(WaitClassmark, Unused);
        var _ := Dispatch(Unused, []);
      }
    }

    /** msc_a_put_all() */
    method PutAllUse(u: Use)
      requires Sound(V()) && Busy(V()) && !Hold(u) && (!u.Of? || trans == [])
      modifies this
      ensures Sound(V()) && Busy(V()) && Moves(old(V()), V())
      ensures old(InRelease(state)) && old(trans) == [] ==> uses == old(uses)[u := 0] && trans == []
      ensures old(state) == Releasing ==> state == Releasing && alive == old(alive)
      decreases Level(V()), 0, 6
    {
      hide Sound, Moves, Takes;
      ghost var v := V();
      if uses[u] == 0 {
        assert uses[u := 0] == uses;
        MovesRefl(v);
        return;
      }
      TakenAllSound(v, u);
      uses := uses[u := 0];
      ghost var a := V();
      if |uses| == 0 {
        var _ := Dispatch(Unused, []);
        MovesTrans(v, a, V());
        MovesLevel(v, V());
      }
    }

    method CancelReleaseUses()
      requires Sound(V()) && Busy(V()) && InRelease(state) && trans == []
      modifies this
      ensures Sound(V()) && Busy(V()) && Moves(old(V()), V()) && trans == []
      ensures forall u :: uses[u] == if u in CANCELLED then 0 else old(uses[u])
      ensures old(state) == Releasing ==> state == Releasing && alive == old(alive)
      decreases Level(V()), 0, 8
    {
      var i := 0;
      while i < |CANCELLED|
        invariant 0 <= i <= |CANCELLED|
        invariant Sound(V()) && Busy(V()) && InRelease(state) && trans == []
        invariant Moves(old(V()), V())
        invariant forall u :: uses[u] == if u in CANCELLED[..i] then 0 else old(uses[u])
        invariant old(state) == Releasing ==> state == Releasing && alive == old(alive)
      {
        ghost var before := V();
        PutAllUse(CANCELLED[i]);
        MovesTrans(old(V()), before, V());
        i := i + 1;
      }
      assert CANCELLED[..i] == CANCELLED;
    }

    // ---- Transactions ----

    /** trans_free() of a transaction of this connection. */
    method FreeAt(i: nat)
      requires i < |trans| && Sound(V())
      modifies this
      ensures Sound(V()) && Busy(V()) && Moves(old(V()), V())
      ensures |old(uses)| > 1 ==> V() == old(V()).(uses := uses, trans := old(trans[..i] + trans[i + 1..]))
      ensures forall u :: Hold(u) ==> uses[u] == old(uses[u])
      decreases Level(V()), 0, 7
    {
      hide Sound, Moves, Busy, TokensMatch, Level;
      ghost var v := V();
      FreedSound(v, i);
      var t := trans[i];
      trans := trans[..i] + trans[i + 1..];
      PutUse(Of(t));
      MovesTrans(v, Freed(v, i), V());
      MovesHolds(v, V());
    }

    method FreeEach(ghost v: View)
      requires Sound(V()) && ClosedHold in uses && V() == With(v, ClosedHold)
      modifies this
      ensures Sound(V()) && Moves(With(v, ClosedHold), V()) && trans == []
      ensures v.trans == [] ==> V() == With(v, ClosedHold)
      ensures state == v.state && alive == v.alive
      decreases Level(V()), 0, 8
    {
      hide Sound, Busy;
      while trans != []
        invariant Sound(V()) && ClosedHold in uses
        invariant Moves(With(v, ClosedHold), V())
        invariant V() == With(v, ClosedHold).(uses := uses, trans := trans)
        invariant v.trans == [] ==> V() == With(v, ClosedHold)
        decreases |trans|
      {
        ghost var a := V();
        HoldsMore(a, ClosedHold);
        FreeAt(0);
        MovesTrans(With(v, ClosedHold), a, V());
      }
    }

    /** trans_conn_closed() */
    method ConnClosed()
      requires Sound(V()) && InRelease(state)
      modifies this
      ensures Sound(V()) && Busy(V()) && Moves(old(V()), V()) && trans == []
      ensures old(trans) == [] ==> uses == old(uses)
      ensures old(state) == Releasing ==> state == Releasing && alive == old(alive)
      decreases Level(V()), 0, 9
    {
      hide Sound, Moves, Level, Busy, TokensMatch;
      ghost var v := V();
      HoldTaken(v, ClosedHold);
      GetUse(ClosedHold);
      FreeEach(v);
      HoldReturned(v, V(), ClosedHold);
      ghost var b := Without(V(), ClosedHold);
      MovesLevel(v, b);
      PutUse(ClosedHold);
      MovesTrans(v, b, V());
      MovesLevel(b, V());
    }

    // ---- The state machine ----

    method StateChg(s: State)
      requires Sound(V()) && Busy(V())
      requires s == Authenticated && s in Exits(state) ==> AUTHENTICATION in log
      requires s == Released && s in Exits(state) ==> sgs || ConfirmedFrom(log, 0)
      modifies this
      ensures Sound(V()) && Busy(V()) && Moved(old(V()), V())
      ensures s != Released || sgs || s !in old(Exits(state)) ==> Moves(old(V()), V())
      ensures s == Releasing && !old(InRelease(state)) ==> InRelease(state) && Clearing(old(log), V())
      ensures s == Released && old(state) == Releasing ==> state == Released
      ensures s == Released && old(InRelease(state)) && old(trans) == [] ==> uses == old(uses)
      ensures s in old(Exits(state)) && s != old(state) && s !in {Authenticated, Releasing, Released} ==>
                V() == Enter(old(V()), s)
      ensures s !in old(Exits(state)) ==> V() == old(V())
      ensures s in old(Exits(state)) && s != old(state) ==> old(log) + [Entered(s)] <= log
      decreases Level(V()), 0, 2
    {
      hide Sound, Moves, Level;
      ghost var v := V();
      if state == s || s !in Exits(state) {
        MovesRefl(v);
        return;
      }
      EnterSound(v, s);
      state := s;
      armed := Enter(V(), s).armed;
      log := log + [Entered(s)];
      ghost var a := Enter(v, s);
      MovesRefl(a);
      match s {
        case Authenticated =>
          ExecAll(onAccept);
          MovesTrans(v, a, V());
        case Releasing =>
          OnEnterReleasing();
          MovesLevel(a, V());
          ReleasingMoves(v, V());
        case Released =>
          OnEnterReleased();
          MovedOn(v, a, V());
          MovesLevel(a, V());
        case _ =>
      }
      MovesLog(a, V());
    }

    method OnEnterReleasing()
      requires Sound(V()) && alive && state == Releasing
      modifies this
      ensures Sound(V()) && Busy(V()) && Moves(old(V()), V()) && trans == []
      ensures Clearing(old(log), V())
      decreases Level(V()), WeightAll(onCancel) + 1, 9
    {
      hide Sound, Moves, Level;
      ghost var v := V();
      ExecAll(onCancel);
      ghost var a := V();
      MovesLevel(v, a);
      if callLeg {
        var _ := Dispatch(CallLegTerm(false), []);
        MovesTrans(v, a, V());
      }
      ghost var b := V();
      MovesLevel(v, b);
      Clear();
      MovesTrans(v, b, V());
      MovesConfirms(v, b, V());
    }

    /** Transactions and cancelled uses go. */
    method GiveUp()
      requires Sound(V()) && InRelease(state)
      modifies this
      ensures Sound(V()) && Busy(V()) && Moves(old(V()), V()) && trans == []
      ensures old(state) == Releasing ==> state == Releasing && alive == old(alive)
      ensures InRelease(state) && Leftover(uses) && WaitClearComplete !in uses
      decreases Level(V()), 0, 10
    {
      hide Sound, Moves, Level;
      ghost var v := V();
      ConnClosed();
      ghost var c := V();
      MovesLevel(v, c);
      CancelReleaseUses();
      MovesTrans(v, c, V());
      MovesLevel(v, V());
      OnlyLeftover(V());
    }

    /** Then the clearing is asked for, or done where nothing will confirm it. */
    method Clear()
      requires Sound(V()) && InRelease(state)
      modifies this
      ensures Sound(V()) && Busy(V()) && Moves(old(V()), V()) && trans == []
      ensures sgs ==> state == Released
      ensures !sgs && old(state) == Releasing ==> state == Releasing && alive == old(alive)
      ensures !sgs ==> uses[WaitClearComplete] == 1
      ensures Leftover(uses)
      decreases Level(V()), 0, 11
    {
      hide Sound, Moves, Level;
      ghost var v := V();
      GiveUp();
      ghost var d := V();
      MovesLevel(v, d);
      if sgs {
        StateChg(Released);
      } else {
        HoldTaken(d, WaitClearComplete);
        GetUse(WaitClearComplete);
      }
      MovesTrans(v, d, V());
      MovesLevel(d, V());
    }

    method OnEnterReleased()
      requires Sound(V()) && state == Released
      modifies this
      ensures Sound(V()) && Busy(V()) && Moves(old(V()), V())
      ensures old(trans) == [] ==> uses == old(uses)
      ensures |old(uses)| == 0 ==> !alive
      ensures |old(uses)| > 0 ==> V() == old(V())
      decreases Level(V()), 0, 10
    {
      if |uses| == 0 {
        Terminate();
      }
    }

    /** osmo_fsm_inst_term() with msc_a_fsm_cleanup() */
    method Terminate()
      requires Sound(V()) && state == Released
      modifies this
      ensures Sound(V()) && Moves(old(V()), V()) && !alive
      ensures old(trans) == [] ==> uses == old(uses)
      decreases Level(V()), 0, 3
    {
      if !alive {
        return;
      }
      Noted(log, Ended);
      alive := false;
      armed := false;
      log := log + [Ended];
      ghost var before := V();
      assert Moves(old(V()), before);
      ConnClosed();
      MovesTrans(old(V()), before, V());
    }

    method Dispatch(e: Event, body: seq<Op>) returns (ok: bool)
      requires Sound(V())
      requires if e == Unused then |uses| == 0 else Busy(V())
      modifies this
      ensures Sound(V()) && Busy(V()) && Moves(old(V()), V())
      ensures ok == old(alive && Takes(state, e))
      ensures !ok ==> V() == old(V())
      ensures ok ==> old(log) + [Taken(e, old(state))] <= log
      ensures ok && e == CompleteL3Ok ==> alive && state == AuthCiph && uses == old(uses)
      ensures ok && e in {CnClose, MoClose, Unused} ==> InRelease(state)
      ensures ok && e == Unused && old(state) == Released ==> !alive
      ensures e == Unused && old(InRelease(state)) && old(trans) == [] ==> uses == old(uses)
      ensures e == Unused && old(state) == Releasing ==> state == Releasing && alive == old(alive)
      ensures ok && e == TransactionAccepted ==> state == Communicating && uses == old(uses) && trans == old(trans)
      ensures ok && e == AuthDone ==> old(log) + [AUTHENTICATION, Entered(Authenticated)] <= log
      ensures ok && e in {CnClose, MoClose, Unused} && (body == [] || e == Unused) && !old(InRelease(state)) ==>
                Clearing(old(log), V())
      ensures ok && IsRan(e) ==> Done(body, log, |old(log)|)
      decreases Level(V()), if e == Unused then 0 else WeightAll(body) + 1, 5
    {
      hide Sound, Moves, Level;
      ghost var v := V();
      if !alive || !Takes(state, e) {
        MovesRefl(v);
        return false;
      }
      ok := true;
      TakenSound(v, e);
      log := log + [Taken(e, state)];
      ghost var a := V();
      Act(e, body);
      MovesTrans(v, a, V());
      MovesLog(a, V());
    }

    /** The action of the state. */
    method Act(e: Event, body: seq<Op>)
      requires Sound(V()) && alive && Takes(state, e)
      requires if e == Unused then |uses| == 0 else Busy(V())
      requires e == AuthDone ==> AUTHENTICATION in log
      modifies this
      ensures Sound(V()) && Busy(V()) && Moves(old(V()), V())
      ensures e == CompleteL3Ok ==> alive && state == AuthCiph && uses == old(uses)
      ensures e in {CnClose, MoClose, Unused} ==> InRelease(state)
      ensures e == Unused && old(state) == Released ==> !alive
      ensures e == Unused && old(InRelease(state)) && old(trans) == [] ==> uses == old(uses)
      ensures e == Unused && old(state) == Releasing ==> state == Releasing && alive
      ensures e == TransactionAccepted ==> state == Communicating && uses == old(uses) && trans == old(trans)
      ensures e == AuthDone ==> old(log) + [Entered(Authenticated)] <= log
      ensures e in {CnClose, MoClose, Unused} && (body == [] || e == Unused) && !old(InRelease(state)) ==>
                Clearing(old(log), V())
      ensures IsRan(e) ==> Done(body, log, |old(log)|)
      decreases Level(V()), if e == Unused then 0 else WeightAll(body) + 1, 4
    {
      hide Sound, Moves, Level, Done, Clearing;
      match state {
        case ValidateL3 => ActValidateL3(e, body);
        case AuthCiph => ActAuthCiph(e, body);
        case WaitClassmark => ActWaitClassmark(e, body);
        case Authenticated => ActAuthenticated(e, body);
        case Communicating => ActCommunicating(e, body);
        case Releasing => ActReleasing(e, body);
        case Released => Terminate();
      }
      MovesLevel(old(V()), V());
    }

    /** msc_a_ran_dec() */
    method RanDec(body: seq<Op>)
      requires Sound(V()) && Busy(V())
      modifies this
      ensures Sound(V()) && Busy(V()) && Moves(old(V()), V())
      ensures Done(body, log, |old(log)|)
      decreases Level(V()), WeightAll(body) + 1, 2
    {
      hide Sound, Moves, Level, Done;
      ghost var v := V();
      HoldTaken(v, DecodeHold);
      GetUse(DecodeHold);
      ExecAll(body);
      HoldReturned(v, V(), DecodeHold);
      ghost var b := Without(V(), DecodeHold);
      PutUse(DecodeHold);
      MovesTrans(v, b, V());
      MovesLog(b, V());
      DoneLater(body, b.log, |v.log|, log, |v.log|);
    }

    /** A request to close, after the outcome was evaluated. */
    method Close(body: seq<Op>)
      requires Sound(V()) && Busy(V())
      modifies this
      ensures Sound(V()) && Busy(V()) && Moves(old(V()), V()) && InRelease(state)
      ensures Done(body, log, |old(log)|)
      ensures body == [] && !old(InRelease(state)) ==> Clearing(old(log), V())
      decreases Level(V()), WeightAll(body) + 1, 2
    {
      hide Sound, Moves, Level, Done, Clearing;
      ghost var v := V();
      ExecAll(body);
      ghost var a := V();
      MovesLog(v, a);
      MovesLevel(v, a);
      StateChg(Releasing);
      MovesTrans(v, a, V());
      MovesLog(a, V());
      DoneLater(body, a.log, |v.log|, log, |v.log|);
    }

    method ActValidateL3(e: Event, body: seq<Op>)
      requires Sound(V()) && Busy(V()) && alive && state == ValidateL3 && Takes(state, e)
      modifies this
      ensures e == CompleteL3Ok ==> alive && state == AuthCiph && uses == old(uses)
      ensures Sound(V()) && Busy(V()) && Moves(old(V()), V())
      ensures e in {CnClose, MoClose, Unused} ==> InRelease(state)
      ensures e in {CnClose, MoClose, Unused} && (body == [] || e == Unused) ==> Clearing(old(log), V())
      ensures IsRan(e) ==> Done(body, log, |old(log)|)
      decreases Level(V()), if e == Unused then 0 else WeightAll(body) + 1, 3
    {
      hide Sound, Done, Clearing, Level;
      match e {
        case FromICompleteL3 => RanDec(body);
        case FromIAccess => RanDec(body);
        case FromIEnd => RanDec(body);
        case CompleteL3Ok => StateChg(AuthCiph);
        case MoClose => Close(body);
        case CnClose => Close(body);
        case Unused => StateChg(Releasing);
      }
    }

    method ActAuthCiph(e: Event, body: seq<Op>)
      requires Sound(V()) && Busy(V()) && alive && state == AuthCiph && Takes(state, e)
      requires e == AuthDone ==> AUTHENTICATION in log
      modifies this
      ensures e == AuthDone ==> old(log) + [Entered(Authenticated)] <= log
      ensures Sound(V()) && Busy(V()) && Moves(old(V()), V())
      ensures e in {CnClose, MoClose, Unused} ==> InRelease(state)
      ensures e in {CnClose, MoClose, Unused} && (body == [] || e == Unused) ==> Clearing(old(log), V())
      ensures IsRan(e) ==> Done(body, log, |old(log)|)
      decreases Level(V()), if e == Unused then 0 else WeightAll(body) + 1, 3
    {
      hide Sound, Done, Clearing, Level;
      match e {
        case FromIAccess => RanDec(body);
        case FromIEnd => RanDec(body);
        case AuthDone => StateChg(Authenticated);
        case Unused => StateChg(Releasing);
        case MoClose => Close(body);
        case CnClose => Close(body);
      }
    }

    method ActWaitClassmark(e: Event, body: seq<Op>)
      requires Sound(V()) && Busy(V()) && alive && state == WaitClassmark && Takes(state, e)
      modifies this
      ensures Sound(V()) && Busy(V()) && Moves(old(V()), V())
      ensures e in {CnClose, MoClose} ==> InRelease(state)
      ensures e in {CnClose, MoClose, Unused} && (body == [] || e == Unused) ==> Clearing(old(log), V())
      ensures IsRan(e) ==> Done(body, log, |old(log)|)
      ensures e.ClassmarkUpdate? && e.thenCiphering && !e.failed ==> V() == Enter(old(V()), AuthCiph)
      ensures e.ClassmarkUpdate? && e.thenCiphering && e.failed ==> Clearing(old(log), V())
      ensures e.ClassmarkUpdate? && !e.thenCiphering ==>
                match old(stateBefore)
                case AuthCiph => V() == Enter(old(V()), AuthCiph)
                case Releasing => Clearing(old(log), V())
                case _ => V() == old(V())
      decreases Level(V()), if e == Unused then 0 else WeightAll(body) + 1, 3
    {
      hide Sound, Done, Level;
      match e {
        case FromIAccess => RanDec(body);
        case FromIEnd => RanDec(body);
        case ClassmarkUpdate(thenCiphering, failed) =>
          if thenCiphering {
            StateChg(AuthCiph);
            ghost var a := V();
            if failed {
              StateChg(Releasing);
              MovesTrans(old(V()), a, V());
            }
          } else {
            StateChg(stateBefore);
          }
        case MoClose => Close(body);
        case CnClose => Close(body);
      }
    }

    method ActAuthenticated(e: Event, body: seq<Op>)
      requires Sound(V()) && Busy(V()) && alive && state == Authenticated && Takes(state, e)
      modifies this
      ensures Sound(V()) && Busy(V()) && Moves(old(V()), V())
      ensures e in {CnClose, MoClose, Unused} ==> InRelease(state)
      ensures e == TransactionAccepted ==> state == Communicating && uses == old(uses) && trans == old(trans)
      ensures e in {CnClose, MoClose, Unused} && (body == [] || e == Unused) ==> Clearing(old(log), V())
      ensures IsRan(e) ==> Done(body, log, |old(log)|)
      decreases Level(V()), if e == Unused then 0 else WeightAll(body) + 1, 3
    {
      hide Sound, Done, Clearing, Level;
      match e {
        case FromIAccess => RanDec(body);
        case FromIHandover => RanDec(body);
        case FromIEnd => RanDec(body);
        case TransactionAccepted => StateChg(Communicating);
        case MoClose => StateChg(Releasing);
        case CnClose => StateChg(Releasing);
        case Unused => StateChg(Releasing);
      }
    }

    method ActCommunicating(e: Event, body: seq<Op>)
      requires Sound(V()) && Busy(V()) && alive && state == Communicating && Takes(state, e)
      modifies this
      ensures Sound(V()) && Busy(V()) && Moves(old(V()), V())
      ensures e in {CnClose, MoClose, Unused} ==> InRelease(state)
      ensures e == TransactionAccepted ==> state == Communicating && uses == old(uses) && trans == old(trans)
      ensures e in {CnClose, MoClose, Unused} && (body == [] || e == Unused) ==> Clearing(old(log), V())
      ensures IsRan(e) ==> Done(body, log, |old(log)|)
      ensures e == RtpAddress || e == HandoverRequired ==> Done(body, log, |old(log)|)
      decreases Level(V()), if e == Unused then 0 else WeightAll(body) + 1, 3
    {
      hide Sound, Done, Clearing, Level;
      match e {
        case RtpAddress => ExecAll(body);
        case HandoverRequired => ExecAll(body);
        case CallLegTerm(active) => CallLegGone(active, body);
        case MoClose => StateChg(Releasing);
        case CnClose => StateChg(Releasing);
        case Unused => StateChg(Releasing);
        case TransactionAccepted =>
        case RtpComplete =>
        case CallEnded =>
        case HandoverEnd =>
        case FromIAccess => RanDec(body);
        case FromIHandover => RanDec(body);
        case FromIEnd => RanDec(body);
        case FromTHandoverOk => RanDec(body);
        case FromTHandoverFail => RanDec(body);
        case FromTAccess => RanDec(body);
        case FromTEnd => RanDec(body);
      }
    }

    /** A call that loses its call leg loses its transaction. */
    method FreeCall()
      requires Sound(V()) && TransCc in trans
      modifies this
      ensures Sound(V()) && Busy(V()) && Moves(old(V()), V())
      ensures |old(uses)| > 1 ==> multiset(trans) == old(multiset(trans)) - multiset{TransCc}
      decreases Level(V()), 0, 8
    {
      hide Sound, Moves, Level, Busy, TokensMatch;
      var i :| 0 <= i < |trans| && trans[i] == TransCc;
      assert trans == trans[..i] + [TransCc] + trans[i + 1..];
      FreeAt(i);
    }

    /** What a call leg that ends leads to, while a use is held. */
    method DropCall(active: bool, body: seq<Op>)
      requires Sound(V()) && Busy(V()) && CallLegHold in uses
      modifies this
      ensures Sound(V()) && Busy(V()) && Moves(old(V()), V())
      ensures InRelease(state) || Done(body, log, |old(log)|)
      ensures body == [] && active && TransCc in old(trans) ==>
                multiset(trans) == old(multiset(trans)) - multiset{TransCc}
      decreases Level(V()), WeightAll(body) + 1, 1
    {
      hide Sound, Moves, Level, Busy, Done, TokensMatch;
      ghost var a := V();
      MovesRefl(a);
      if active && TransCc in trans {
        HoldsMore(a, CallLegHold);
        FreeCall();
      }
      ghost var b := V();
      MovesLevel(a, b);
      MovesLog(a, b);
      if !InRelease(state) {
        ExecAll(body);
        MovesTrans(a, b, V());
        DoneLater(body, log, |b.log|, log, |a.log|);
      }
    }

    method CallLegGone(active: bool, body: seq<Op>)
      requires Sound(V()) && Busy(V())
      modifies this
      ensures Sound(V()) && Busy(V()) && Moves(old(V()), V())
      ensures InRelease(state) || Done(body, log, |old(log)|)
      ensures body == [] && active && TransCc in old(trans) ==>
                InRelease(state) || multiset(trans) == old(multiset(trans)) - multiset{TransCc}
      decreases Level(V()), WeightAll(body) + 1, 2
    {
      hide Sound, Moves, Level, Busy, Done, TokensMatch;
      callLeg := false;
      ghost var v := V();
      HoldTaken(v, CallLegHold);
      GetUse(CallLegHold);
      DropCall(active, body);
      HoldReturned(v, V(), CallLegHold);
      ghost var c := Without(V(), CallLegHold);
      PutUse(CallLegHold);
      MovesTrans(v, c, V());
      MovesLevel(c, V());
      MovesLog(c, V());
      if !InRelease(c.state) {
        DoneLater(body, c.log, |v.log|, log, |v.log|);
      }
    }

    method ActReleasing(e: Event, body: seq<Op>)
      requires Sound(V()) && alive && state == Releasing && Takes(state, e)
      modifies this
      ensures Sound(V()) && Busy(V()) && Moves(old(V()), V())
      ensures e == Unused ==> V() == old(V())
      ensures IsRan(e) ==> Done(body, log, |old(log)|)
      decreases Level(V()), if e == Unused then 0 else WeightAll(body) + 1, 3
    {
      match e {
        case FromIAccess => RanDec(body);
        case FromIEnd => RanDec(body);
        case CallLegTerm(_) => callLeg := false;
        case _ =>
      }
    }

    // ---- Code that calls back ----

    method ExecAll(ops: seq<Op>)
      requires Sound(V()) && Busy(V())
      modifies this
      ensures Sound(V()) && Busy(V()) && Moves(old(V()), V())
      ensures Done(ops, log, |old(log)|) && (ops == [] ==> V() == old(V()))
      decreases Level(V()), WeightAll(ops), 11
    {
      hide Sound, Moves, Busy, Level;
      MovesRefl(V());
      if ops != [] {
        ghost var v := V();
        Exec(ops[0]);
        ghost var a := V();
        MovesLevel(v, a);
        ExecAll(ops[1..]);
        MovesTrans(v, a, V());
        MovesLog(a, V());
        DoneLater(ops[1..], log, |a.log|, log, |v.log| + 1);
        assert log[|v.log|] == Did(ops[0]);
      }
    }

    method Exec(op: Op)
      requires Sound(V()) && Busy(V())
      modifies this
      ensures Sound(V()) && Busy(V()) && Moves(old(V()), V())
      ensures old(log) + [Did(op)] <= log
      ensures op.Get? && Free(op.use) ==> uses == old(uses) + multiset{op.use}
      ensures op.Put? && Free(op.use) && op.use in old(uses) && |old(uses)| > 1 ==> uses == old(uses) - multiset{op.use}
      ensures op.AttachDirectly? && !old(InRelease(state)) ==> trans == old(trans) + [op.t]
      ensures op.Attach? && old(alive) && Accepted(old(state)) ==> trans == old(trans) + [op.t] && state == Communicating
      ensures op.FreeTrans? && op.index < |old(trans)| && |old(uses)| > 1 ==>
                trans == old(trans)[..op.index] + old(trans)[op.index + 1..]
      ensures op.StartCiphering? && op.needsClassmark && old(state) == AuthCiph ==> state == WaitClassmark
      ensures op.ClearComplete? ==> InRelease(state) && (old(state) == Releasing ==> state == Released)
      ensures op.Dispatch? && op.event in {CnClose, MoClose} && old(alive) && old(Takes(state, op.event)) ==>
                InRelease(state)
      decreases Level(V()), Weight(op), 10
    {
      hide Sound, Moves, Level, Busy;
      NotedSound(V(), Did(op));
      log := log + [Did(op)];
      Perform(op);
      MovesTrans(old(V()), old(V()).(log := old(log) + [Did(op)]), V());
      MovesLog(old(V()).(log := old(log) + [Did(op)]), V());
    }

    method Perform(op: Op)
      requires Sound(V()) && Busy(V())
      modifies this
      ensures Sound(V()) && Busy(V()) && Moves(old(V()), V())
      ensures op.Get? && Free(op.use) ==> uses == old(uses) + multiset{op.use}
      ensures op.Put? && Free(op.use) && op.use in old(uses) && |old(uses)| > 1 ==> uses == old(uses) - multiset{op.use}
      ensures op.AttachDirectly? && !old(InRelease(state)) ==> trans == old(trans) + [op.t]
      ensures op.Attach? && old(alive) && Accepted(old(state)) ==> trans == old(trans) + [op.t] && state == Communicating
      ensures op.FreeTrans? && op.index < |old(trans)| && |old(uses)| > 1 ==>
                trans == old(trans)[..op.index] + old(trans)[op.index + 1..]
      ensures op.StartCiphering? && op.needsClassmark && old(state) == AuthCiph ==> state == WaitClassmark
      ensures op.ClearComplete? ==> InRelease(state) && (old(state) == Releasing ==> state == Released)
      ensures op.Dispatch? && op.event in {CnClose, MoClose} && old(alive) && old(Takes(state, op.event)) ==>
                InRelease(state)
      decreases Level(V()), Weight(op), 9
    {
      hide Sound, Moves, Level, Busy;
      MovesRefl(V());
      match op {
        case Get(u) =>
          if Free(u) {
            HoldTaken(V(), u);
            GetUse(u);
          }
        case Put(u) =>
          if Free(u) && u in uses {
            ghost var a := Without(V(), u);
            FreePut(V(), u);
            PutUse(u);
            MovesTrans(old(V()), a, V());
          }
        case Dispatch(e, body) =>
          if e != Unused {
            var _ := Dispatch(e, body);
          }
        case UpL3(h, r99, duplicate, sameRan, body) => UpL3(h, r99, duplicate, sameRan, body);
        case ClearComplete => ClearComplete();
        case StartCiphering(needsClassmark) =>
          if needsClassmark {
            RequestClassmark();
          }
        case Attach(t) => Attach(t);
        case AttachDirectly(t) => AttachDirectly(t);
        case FreeTrans(i) =>
          if i < |trans| {
            FreeAt(i);
          }
        case StartCallLeg => callLeg := true;
      }
    }

    method ClearComplete()
      requires Sound(V()) && Busy(V())
      modifies this
      ensures Sound(V()) && Busy(V()) && Moves(old(V()), V())
      ensures InRelease(state) && (old(state) == Releasing ==> state == Released)
      ensures old(log) + [Cleared(old(state))] <= log
      decreases Level(V()), 1, 0
    {
      hide Sound, Moves, Moved, Level, Busy;
      ghost var v := V();
      NotedSound(v, Cleared(state));
      log := log + [Cleared(state)];
      ghost var a := V();
      match state {
        case Releasing => Confirm(v, a);
        case Released =>
        case _ =>
          StateChg(Releasing);
          MovesTrans(v, a, V());
          MovesLog(a, V());
      }
    }

    /** The wait is over. */
    method Confirm(ghost v: View, ghost a: View)
      requires Sound(V()) && Busy(V()) && state == Releasing && V() == a
      requires Moves(v, a) && ConfirmedFrom(log, |v.log|)
      modifies this
      ensures Sound(V()) && Busy(V()) && Moves(v, V()) && state == Released && a.log <= log
      decreases Level(V()), 0, 8
    {
      PutAllUse(WaitClearComplete);
      ghost var b := V();
      StateChg(Released);
      MovesConfirmed(v, a, V());
    }

    /** Ciphering needs a classmark first: the state is kept to be restored. */
    method RequestClassmark()
      requires Sound(V()) && Busy(V())
      modifies this
      ensures Sound(V()) && Busy(V()) && Moves(old(V()), V())
      ensures V() == if old(state) == AuthCiph then Enter(old(V()), WaitClassmark) else old(V())
      decreases Level(V()), 1, 0
    {
      stateBefore := state;
      StateChg(WaitClassmark);
    }

    /** A transaction is attached to a connection as it is, which may still be AUTHENTICATED. */
    method AttachDirectly(t: TransType)
      requires Sound(V()) && Busy(V())
      modifies this
      ensures Sound(V()) && Busy(V()) && Moves(old(V()), V())
      ensures trans == if old(InRelease(state)) then old(trans) else old(trans) + [t]
    {
      hide Sound, Moves, Level;
      MovesRefl(V());
      if !InRelease(state) {
        AttachedSound(V(), t);
        trans := trans + [t];
        GetUse(Of(t));
      }
    }

    /** A transaction is attached once the connection has accepted it. */
    method Attach(t: TransType)
      requires Sound(V()) && Busy(V())
      modifies this
      ensures Sound(V()) && Busy(V()) && Moves(old(V()), V())
      ensures old(alive) && Accepted(old(state)) ==> trans == old(trans) + [t] && state == Communicating
      ensures !(old(alive) && Accepted(old(state))) ==> V() == old(V())
      decreases Level(V()), 2, 0
    {
      hide Sound, Moves, Takes, Level;
      ghost var v := V();
      AcceptedTakes(state);
      var ok := Dispatch(TransactionAccepted, []);
      if ok {
        ghost var a := V();
        AttachedSound(a, t);
        trans := trans + [t];
        GetUse(Of(t));
        MovesTrans(v, a, V());
      }
    }

    /** msc_a_up_l3() */
    method UpL3(h: Header, r99: Option<bool>, duplicate: bool, sameRan: bool, body: seq<Op>)
      requires Sound(V()) && Busy(V())
      modifies this
      ensures Sound(V()) && Busy(V()) && Moves(old(V()), V())
      ensures match Gate(old(state), h, r99, duplicate, sameRan)
              case None => V() == old(V())
              case Some(r) => old(log) + [Received(r)] <= log && Done(body, log, |old(log)| + 1)
      decreases Level(V()), WeightAll(body) + 1, 12
    {
      hide Sound, Moves, Level, Exits, Takes, Done, Busy, Gate;
      ghost var v := V();
      MovesRefl(v);
      GateService(state, h, r99, duplicate, sameRan);
      var receiver := FindReceiver(state, h, r99, duplicate, sameRan);
      if receiver == None {
        return;
      }
      ReceivedSound(v, receiver.value);
      log := log + [Received(receiver.value)];
      ghost var a := V();
      ExecAll(body);
      MovesTrans(v, a, V());
      MovesLog(a, V());
    }

    /** The checks of msc_a_up_l3(), one after the other. */
    static method FindReceiver(s: State, h: Header, r99: Option<bool>, duplicate: bool, sameRan: bool)
      returns (r: Option<Receiver>)
      ensures r == Gate(s, h, r99, duplicate, sameRan)
    {
      if r99 == None || duplicate {
        return None;
      }
      if !Accepted(s) && !InitiallyPermitted(h) {
        return None;
      }
      if !sameRan {
        return None;
      }
      if (!r99.value || (h.pdisc != Mm && h.pdisc != Cc && h.pdisc != NcSs)) && h.bit8 {
        return None;
      }
      var bit7Ok := CheckBit7(h);
      r := if bit7Ok then ReceiverOf(h.pdisc) else None;
    }

    static method CheckBit7(h: Header) returns (ok: bool)
      ensures ok <==> (h.pdisc == SmGprs ==> h.bit7) && (h.pdisc in {MmGprs, Sms, Test, OtherPdisc} ==> !h.bit7)
    {
      match h.pdisc {
        case Cc => return true;
        case Mm => return true;
        case NcSs => return true;
        case GroupCc => return true;
        case BcastCc => return true;
        case Loc => return true;
        case Rr => return true;
        case SmGprs => return h.bit7;
        case _ => return !h.bit7;
      }
    }

    // ---- The timer ----

    /** msc_a_fsm_timer_cb(); nothing reads the timer that has fired before it is set again or the instance has ended. */
    method TimerCb(body: seq<Op>)
      requires Sound(V()) && Busy(V()) && alive && armed && (InRelease(state) ==> trans == [])
      modifies this
      ensures Sound(V()) && Busy(V()) && Moves(old(V()), V())
      ensures Left(V()) < old(Left(V())) && old(log) + [Expired(old(state))] <= log
      ensures old(state) == Releasing ==> state == Released
    {
      ghost var v := V();
      NotedSound(v, Expired(state));
      log := log + [Expired(state)];
      ghost var a := V();
      if InRelease(state) {
        if state == Released {
          ReleasedTimeout();
          MovesTrans(v, a, V());
          MovesLog(a, V());
          return;
        }
        Confirm(v, a);
      } else {
        var _ := Dispatch(CnClose, body);
        MovesTrans(v, a, V());
        MovesLog(a, V());
      }
    }

    method ReleasedTimeout()
      requires Sound(V()) && Busy(V()) && alive && state == Released && trans == []
      modifies this
      ensures Sound(V()) && Busy(V()) && Moves(old(V()), V()) && !alive
    {
      hide Sound, Moves, Level;
      ghost var v := V();
      HoldTaken(v, TimerHold);
      GetUse(TimerHold);
      CancelReleaseUses();
      HoldReturned(v, V(), TimerHold);
      MovesLevel(With(v, TimerHold), V());
      ghost var b := Without(V(), TimerHold);
      assert uses == b.uses + multiset{TimerHold};
      if |uses| > 1 {
        PutUse(TimerHold);
        Terminate();
        MovesTrans(v, b, V());
        return;
      }
      PutUse(TimerHold);
      MovesTrans(v, b, V());
      MovesLevel(b, V());
    }

    /** Any sequence of expiries and of things that other code does, one after the other from the main loop. */
    method Run(steps: seq<Step>) returns (fired: nat)
      requires Sound(V()) && Busy(V()) && (InRelease(state) ==> trans == []) && (sgs ==> state != Releasing)
      modifies this
      ensures Sound(V()) && Busy(V()) && (InRelease(state) ==> trans == []) && (sgs ==> state != Releasing)
      ensures fired + Left(V()) <= old(Left(V()))
    {
      hide Sound, Moves;
      fired := 0;
      for i := 0 to |steps|
        invariant Sound(V()) && Busy(V()) && (InRelease(state) ==> trans == []) && (sgs ==> state != Releasing)
        invariant fired + Left(V()) <= old(Left(V()))
      {
        ghost var v := V();
        match steps[i] {
          case Expire(body) =>
            if alive && armed {
              TimerCb(body);
              fired := fired + 1;
              MovesLeft(v, V());
            }
          case Do(op) =>
            Exec(op);
            MovesLeft(v, V());
        }
      }
    }
  }

  /** Of the uses that this code knows, only the wait for Clear Complete and those of functions that run are left. */
  ghost predicate Leftover(uses: multiset<Use>) {
    forall u :: u in uses ==> u.Other? || Hold(u) || u == WaitClearComplete
  }

  lemma OnlyLeftover(v: View)
    requires Sound(v) && v.trans == [] && forall u :: u in CANCELLED ==> u !in v.uses
    ensures Leftover(v.uses) && WaitClearComplete !in v.uses
  {
    hide GateSafe, NoWayBack;
    forall u | u in v.uses
      ensures u.Other? || Hold(u)
    {
      assert u.Of? ==> v.uses[Of(u.t)] == multiset(v.trans)[u.t] == 0;
      AllNamed(u);
    }
    AllNamed(WaitClearComplete);
  }

  lemma AllNamed(u: Use)
    ensures u.Of? || u.Other? || Hold(u) || u in CANCELLED
    ensures WaitClearComplete in CANCELLED
  {
    assert CANCELLED[0] == Lu && CANCELLED[1] == CmServiceCc && CANCELLED[2] == CmServiceSms;
    assert CANCELLED[3] == CmServiceSs && CANCELLED[4] == CmServiceGcc && CANCELLED[5] == CmServiceBcc;
    assert CANCELLED[6] == PagingResponse && CANCELLED[8] == SmsMmts && CANCELLED[10] == WaitClearComplete;
  }

  /** A message from the access network, whose decoding leads to other things. */
  predicate IsRan(e: Event) {
    || e.FromICompleteL3? || e.FromIAccess? || e.FromIHandover? || e.FromIEnd?
    || e.FromTAccess? || e.FromTHandoverOk? || e.FromTHandoverFail? || e.FromTEnd?
  }

  /** Once RELEASING was entered with this log: where nothing will confirm the release, it is done; elsewhere the wait for
      a Clear Complete has begun, unless one came meanwhile. */
  ghost predicate Clearing(before: seq<Entry>, v: View) {
    if v.sgs then v.state == Released
    else || (v.alive && v.state == Releasing && v.uses[WaitClearComplete] == 1)
         || ConfirmedFrom(v.log, |before|)
  }

  /** An expiry of the timer, with what evaluating a failed connection then leads to, or anything else. */
  datatype Step = Expire(body: seq<Op>) | Do(op: Op)

  /** The life of a connection from its allocation on: services are reached only between authentication and release,
      releasing is never left but for RELEASED, a live connection has its timer running unless it is COMMUNICATING and is
      in use if it is RELEASED, and the third expiry of the timer at the latest ends it. */
  method Life(sgs: bool, onAccept: seq<Op>, onCancel: seq<Op>, steps: seq<Step>)
    returns (c: Connection, fired: nat)
    ensures GateSafe(c.log) && NoWayBack(c.log)
    ensures c.alive && c.state != Communicating ==> c.armed
    ensures c.alive && InRelease(c.state) ==> c.trans == []
    ensures c.alive && c.state == Released ==> |c.uses| > 0
    ensures fired + Left(c.V()) <= 3
    ensures if sgs then c.state != Releasing else ReleasedConfirmed(c.log)
  {
    c := new Connection(sgs, onAccept, onCancel);
    fired := c.Run(steps);
  }

  /** A connection whose last use has gone while it waits for a classmark: it lives on, with no use left, until its timer
      expires. */
  method UnusedButWaiting() returns (c: Connection)
    ensures c.alive && c.state == WaitClassmark && c.uses == multiset{} && c.armed
  {
    hide Sound, Moves, Takes;
    c := new Connection(false, [], []);
    HoldTaken(c.V(), Lu);
    c.GetUse(Lu);
    assert Takes(ValidateL3, CompleteL3Ok) by {
      CompleteTaken();
    }
    var ok := c.Dispatch(CompleteL3Ok, []);
    c.RequestClassmark();
    FreePut(c.V(), Lu);
    c.PutUse(Lu);
    SoundArmed(c.V());
  }

  lemma SoundArmed(v: View)
    requires Sound(v) && v.alive && v.state != Communicating
    ensures v.armed
  {
  }

  /** Services are reached only by connections that are accepted. */
  lemma GateService(s: State, h: Header, r99: Option<bool>, duplicate: bool, sameRan: bool)
    ensures var r := Gate(s, h, r99, duplicate, sameRan);
            r.Some? && IsService(r.value) ==> Accepted(s)
  {
  }

  lemma AcceptedTakes(s: State)
    ensures Takes(s, TransactionAccepted) <==> Accepted(s)
  {
  }

  lemma CompleteTaken()
    ensures Takes(ValidateL3, CompleteL3Ok)
  {
  }

  lemma HoldsMore(v: View, u: Use)
    requires Sound(v) && v.trans != [] && Hold(u) && u in v.uses
    ensures |v.uses| > 1
  {
    TokenHeld(v.uses, v.trans, 0);
    var two := multiset{Of(v.trans[0]), u};
    assert v.uses == v.uses - two + two;
  }
}
