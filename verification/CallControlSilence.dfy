/** A call that nobody speaks of any more is cleared by its timers, whatever else happens. */
module CallControlSilence {
  import opened Options
  import opened CallControlSpec
  import opened CallControlLocal
  import opened CallControlRuns

  /** How many expiries a timer is away from the end of the call. */
  function Rank(t: Trans): (r: nat)
    ensures 1 <= r <= 4
  {
    match t.tcurrent
    case Some(T308) => if t.t308Second then 1 else 2
    case Some(T303) => 3
    case Some(T306) => 3
    case _ => 4
  }

  lemma DisconnectedClears(l: Local)
    requires !l.freed && l.t.conn
    ensures var f := Disconnected(l);
            !f.freed && f.t.conn && f.t.armed && f.t.tcurrent == Some(T306)
  {
    hide TxDisconnect, Send;
    SendEffect(l, DiscInd);
    TxDisconnectEffect(l);
    TxDisconnectEffect(Send(l, DiscInd));
  }

  lemma TimeoutClears(l: Local)
    requires !l.freed && TransOk(l.t) && l.t.conn && l.t.armed
    ensures var f := Timeout(l);
            if Rank(l.t) == 1 then f.freed
            else !f.freed && f.t.conn && f.t.armed && Rank(f.t) == Rank(l.t) - 1
  {
    hide Free, TxRelease, Disconnected, Send;
    var f := l.(t := l.t.(armed := false));
    if Rank(l.t) == 4 {
      DisconnectedClears(f);
    } else if Rank(l.t) == 3 {
      var k := if f.t.state == ReleaseReq then RelCnf else RelInd;
      SendEffect(f, k);
      TxReleaseEffect(f);
      TxReleaseEffect(Forget(Send(f, k)));
    } else {
      FreeEffect(f);
      TxReleaseEffect(f);
    }
  }

  /** Neither the mobile station nor MNCC has a message for a transaction. */
  predicate Silent(e: Event, id: nat) {
    match e
    case MsMessage(i, _, _) => i != id
    case MnccMessage(i, _, _) => i != id
    case BridgeFailed(i, other) => i != id && other != id
    case _ => true
  }

  /** Nor does anything else end it: its guard timer, its connection, MNCC's socket or its RTP port. */
  predicate Undisturbed(e: Event, id: nat) {
    && Silent(e, id)
    && (e.GuardExpiry? || e.Closed? || e.MnccLost? || e.RtpPort? ==> e.id != id)
  }

  function Ticks(es: seq<Event>, id: nat): nat {
    if es == [] then 0 else Ticks(es[..|es| - 1], id) + (if es[|es| - 1] == Expiry(id) then 1 else 0)
  }

  predicate Timed(t: Trans) {
    t.conn && t.armed
  }

  /** What a silent event other than its own expiry does to a call whose timer runs. */
  lemma SilentKeeps(l: Local, e: Event)
    requires !l.freed && TransOk(l.t) && Timed(l.t)
    requires !e.MsFirst? && !e.MnccFirst? && !e.BridgeFailed? && !e.MsMessage? && !e.MnccMessage? && !e.Expiry?
    ensures var f := React(l, e);
            && (!f.freed ==> Timed(f.t) && f.t.tcurrent == l.t.tcurrent && f.t.t308Second == l.t.t308Second)
            && (!e.GuardExpiry? && !e.Closed? && !e.MnccLost? && !e.RtpPort? ==> !f.freed)
  {
    hide Free, Send, TransOk, TxSetup, ReleaseInd, FromMs, FromMncc, Timeout, RtpKnown;
    match e {
      case RtpPort(_, o) => RtpPortKeeps(l, o);
      case RtpRefused(_, connect) => SendKeeps(l, if connect then RtpConnect else RtpCreate);
      case Assigned(_, _) => SendKeeps(l, RtpCreate);
      case Closed(_) => FreeEffect(l);
      case GuardExpiry(_) => FreeEffect(l);
      case MnccLost(_) => FreeEffect(Forget(l));
      case _ =>
    }
  }

  lemma SendKeeps(l: Local, k: Kind)
    ensures var f := Send(l, k);
            f.freed == l.freed && (Timed(l.t) ==> Timed(f.t))
            && f.t.tcurrent == l.t.tcurrent && f.t.t308Second == l.t.t308Second
  {
  }

  lemma RtpPortKeeps(l: Local, o: RtpOutcome)
    requires !l.freed && Timed(l.t)
    ensures var f := RtpKnown(l, o);
            !f.freed ==> Timed(f.t) && f.t.tcurrent == l.t.tcurrent && f.t.t308Second == l.t.t308Second
  {
    hide Free, Send;
    var a := l.(t := l.t.(setupStored := false));
    FreeEffect(l);
    FreeEffect(a);
    SendKeeps(l, RtpCreate);
    SendKeeps(a, SetupInd);
  }

  lemma OthersKept(n: Net, e: Event, id: nat)
    requires Named(n) && id in n.trans && Silent(e, id)
    requires !e.MsFirst? && !e.MnccFirst? && !e.BridgeFailed? ==> e.id != id
    ensures id in Next(n, e).trans && Next(n, e).trans[id] == n.trans[id]
  {
    hide React, FromMs, FromMncc, Free, TxDisconnect, TransOk;
  }

  lemma OwnSilent(n: Net, e: Event, id: nat)
    requires Inv(n) && id in n.trans && Timed(n.trans[id]) && Silent(e, id)
    requires !e.MsFirst? && !e.MnccFirst? && !e.BridgeFailed? && e.id == id && !e.Expiry?
    ensures var n' := Next(n, e);
            && (id in n'.trans ==> Timed(n'.trans[id]) && Rank(n'.trans[id]) == Rank(n.trans[id]))
            && (Undisturbed(e, id) ==> id in n'.trans)
  {
    hide React, TransOk, Counted, Told;
    SilentKeeps(Focus(n, id), e);
  }

  lemma OwnExpiry(n: Net, id: nat)
    requires Inv(n) && id in n.trans && Timed(n.trans[id])
    ensures var n' := Next(n, Expiry(id));
            if Rank(n.trans[id]) == 1 then id !in n'.trans
            else id in n'.trans && Timed(n'.trans[id]) && Rank(n'.trans[id]) == Rank(n.trans[id]) - 1
  {
    hide Timeout, Rank, TransOk, Counted, Told;
    TimeoutClears(Focus(n, id));
  }

  /** One silent event: the call is gone, or one expiry nearer to its end exactly if its own timer expired. */
  lemma SilentStep(n: Net, e: Event, id: nat)
    requires Inv(n) && id in n.trans && Timed(n.trans[id]) && Silent(e, id)
    ensures var n', tick := Next(n, e), if e == Expiry(id) then 1 else 0;
            && (id in n'.trans ==> Timed(n'.trans[id]) && Rank(n'.trans[id]) + tick == Rank(n.trans[id]))
            && (tick == Rank(n.trans[id]) ==> id !in n'.trans)
            && (Undisturbed(e, id) && tick < Rank(n.trans[id]) ==> id in n'.trans)
  {
    hide Inv, Next, Rank, Undisturbed, Timed;
    if e == Expiry(id) {
      OwnExpiry(n, id);
    } else if !e.MsFirst? && !e.MnccFirst? && !e.BridgeFailed? && e.id == id {
      OwnSilent(n, e, id);
    } else {
      InvNamed(n);
      OthersKept(n, e, id);
    }
  }

  lemma InvNamed(n: Net)
    requires Inv(n)
    ensures Named(n)
  {
  }

  lemma GoneStays(n: Net, e: Event, id: nat)
    requires id < n.nextId && id !in n.trans
    ensures id < Next(n, e).nextId && id !in Next(n, e).trans
  {
    hide React, FromMs, FromMncc, Free, TxDisconnect;
  }

  lemma Numbered(n: Net, id: nat)
    requires Inv(n) && id in n.trans
    ensures id < n.nextId
  {
  }

  lemma {:induction false} SilentRun(n: Net, quiet: seq<Event>, id: nat)
    requires Inv(n) && id in n.trans && Timed(n.trans[id]) && forall e :: e in quiet ==> Silent(e, id)
    ensures var r := Run(n, quiet);
            && id < r.nextId
            && (id in r.trans ==> Timed(r.trans[id]) && Rank(r.trans[id]) + Ticks(quiet, id) == Rank(n.trans[id]))
            && ((forall e :: e in quiet ==> Undisturbed(e, id)) && Ticks(quiet, id) < Rank(n.trans[id]) ==> id in r.trans)
  {
    hide Inv, Next, Rank, Undisturbed, Silent, Timed;
    Numbered(n, id);
    if quiet != [] {
      var before, e := quiet[..|quiet| - 1], quiet[|quiet| - 1];
      SilentRun(n, before, id);
      RunKeeps(n, before);
      var r := Run(n, before);
      if id in r.trans {
        SilentStep(r, e, id);
        NextKeeps(r, e);
        Kept(r, e, id);
      } else {
        GoneStays(r, e, id);
      }
    }
  }

  lemma Kept(n: Net, e: Event, id: nat)
    requires id < n.nextId
    ensures id < Next(n, e).nextId
  {
    hide React, FromMs, FromMncc, Free, TxDisconnect;
  }

  /** If mobile station and MNCC fall silent about a connected call whose timer runs, at any moment of any run, then
      whatever else happens in the network, the call is gone once its timer has expired as often as the rank of the
      timer tells, which is four times at most; while it is there, every expiry brings the rank down by one; and unless
      something else ends the call, it is there until then. */
  lemma SilentClearing(n: Net, es: seq<Event>, quiet: seq<Event>, id: nat)
    requires Start(n) && forall e :: e in quiet ==> Silent(e, id)
    ensures var r := Run(n, es);
            var q := Run(r, quiet);
            id in r.trans && r.trans[id].conn && r.trans[id].armed ==>
              && 1 <= Rank(r.trans[id]) <= 4
              && (Ticks(quiet, id) >= Rank(r.trans[id]) ==> id !in q.trans)
              && (id in q.trans ==> Rank(q.trans[id]) == Rank(r.trans[id]) - Ticks(quiet, id))
              && ((forall e :: e in quiet ==> Undisturbed(e, id)) ==>
                    (id in q.trans <==> Ticks(quiet, id) < Rank(r.trans[id])))
  {
    hide Run, Inv, Start, Silent, Undisturbed, Ticks;
    Reachable(n, es);
    var r := Run(n, es);
    if id in r.trans && r.trans[id].conn && r.trans[id].armed {
      SilentRun(r, quiet, id);
    }
  }
}
