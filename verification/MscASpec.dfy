/** The life of a connection: the MSC-A state machine of msc_a.c, its use tokens and the layer 3 gate.
    The FSM library is taken as a rule: an event outside the mask of the state is dropped, a transition outside the
    mask is refused, and the entry function runs once the state is set. */
module MscASpec {
  import opened Options

  datatype State = ValidateL3 | AuthCiph | WaitClassmark | Authenticated | Communicating | Releasing | Released

  predicate InRelease(s: State) {
    s == Releasing || s == Released
  }

  /** msc_a_is_accepted() */
  predicate Accepted(s: State) {
    s == Authenticated || s == Communicating
  }

  datatype Event =
    | FromICompleteL3 | FromIAccess | FromIHandover | FromIEnd
    | FromTAccess | FromTHandoverOk | FromTHandoverFail | FromTEnd
    | CompleteL3Ok | ClassmarkUpdate(thenCiphering: bool, failed: bool) | AuthDone | TransactionAccepted
    | CnClose | MoClose | Unused
    | RtpAddress | RtpComplete | CallLegTerm(active: bool) | CallEnded | HandoverRequired | HandoverEnd

  /** in_event_mask */
  predicate Takes(s: State, e: Event) {
    match s
    case ValidateL3 => e in {FromICompleteL3, FromIAccess, FromIEnd, CompleteL3Ok, MoClose, CnClose, Unused}
    case AuthCiph => e in {FromIAccess, FromIEnd, AuthDone, MoClose, CnClose, Unused}
    case WaitClassmark => e.ClassmarkUpdate? || e in {FromIAccess, FromIEnd, MoClose, CnClose}
    case Authenticated =>
      e in {FromIAccess, FromIHandover, FromIEnd, TransactionAccepted, MoClose, CnClose, Unused}
    case Communicating =>
      e.CallLegTerm? || e in {FromIAccess, FromIHandover, FromIEnd, FromTHandoverOk, FromTHandoverFail, FromTAccess,
                              FromTEnd, TransactionAccepted, MoClose, CnClose, Unused, RtpAddress, RtpComplete,
                              CallEnded, HandoverRequired, HandoverEnd}
    case Releasing => e.CallLegTerm? || e in {FromIAccess, FromIEnd, Unused, CallEnded, HandoverEnd, CnClose}
    case Released => e == Unused
  }

  /** out_state_mask */
  function Exits(s: State): set<State> {
    match s
    case ValidateL3 => {ValidateL3, AuthCiph, Releasing}
    case AuthCiph => {WaitClassmark, Authenticated, Releasing}
    case WaitClassmark => {AuthCiph, Releasing}
    case Authenticated => {Releasing, Communicating}
    case Communicating => {Releasing}
    case Releasing => {Released}
    case Released => {}
  }

  /** The states that take an event. */
  function TakenIn(e: Event): set<State> {
    var early, open := {ValidateL3, AuthCiph, WaitClassmark}, {Authenticated, Communicating};
    match e
    case FromICompleteL3 => {ValidateL3}
    case FromIAccess => early + open + {Releasing}
    case FromIEnd => early + open + {Releasing}
    case FromIHandover => open
    case FromTAccess => {Communicating}
    case FromTHandoverOk => {Communicating}
    case FromTHandoverFail => {Communicating}
    case FromTEnd => {Communicating}
    case CompleteL3Ok => {ValidateL3}
    case ClassmarkUpdate(_, _) => {WaitClassmark}
    case AuthDone => {AuthCiph}
    case TransactionAccepted => open
    case CnClose => early + open + {Releasing}
    case MoClose => early + open
    case Unused => early + open + {Releasing, Released} - {WaitClassmark}
    case RtpAddress => {Communicating}
    case RtpComplete => {Communicating}
    case HandoverRequired => {Communicating}
    case CallLegTerm(_) => {Communicating, Releasing}
    case CallEnded => {Communicating, Releasing}
    case HandoverEnd => {Communicating, Releasing}
  }

  /** The masks, event by event: messages from the access network are taken until RELEASED and closing until RELEASING;
      only the classmark wait does not take the end of the last use. */
  lemma TakesExactly(s: State, e: Event)
    ensures Takes(s, e) <==> s in TakenIn(e)
  {
  }

  /** How a state is reached: releasing from every state before it, and the others one after the other. */
  lemma ExitsExactly(s: State, next: State)
    ensures next in Exits(s) <==>
              match next
              case ValidateL3 => s == ValidateL3
              case AuthCiph => s == ValidateL3 || s == WaitClassmark
              case WaitClassmark => s == AuthCiph
              case Authenticated => s == AuthCiph
              case Communicating => s == Authenticated
              case Releasing => !InRelease(s)
              case Released => s == Releasing
  {
  }

  // ---- Use tokens ----

  datatype TransType = TransCc | TransGcc | TransBcc | TransSms | TransSs | TransSilent

  datatype Use =
    | Lu | CmServiceCc | CmServiceSms | CmServiceSs | CmServiceGcc | CmServiceBcc | PagingResponse | SmsMmts
    | Of(t: TransType)         // held by a transaction
    | WaitClearComplete
    | DecodeHold | ClosedHold | TimerHold | CallLegHold  // held by a function for as long as it runs
    | Other(name: nat)

  /** Tokens that other code may get and put as it likes. */
  predicate Free(u: Use) {
    !u.Of? && u !in {WaitClearComplete, DecodeHold, ClosedHold, TimerHold, CallLegHold}
  }

  predicate Hold(u: Use) {
    u in {DecodeHold, ClosedHold, TimerHold, CallLegHold}
  }

  /** What msc_a_cancel_release_uses() takes back. */
  const CANCELLED: seq<Use> := [
    Lu, CmServiceCc, CmServiceSms, CmServiceSs, CmServiceGcc, CmServiceBcc, PagingResponse, Of(TransSms), SmsMmts,
    Of(TransSs), WaitClearComplete
  ]

  // ---- Layer 3 messages ----

  datatype Pdisc = GroupCc | BcastCc | Cc | Mm | Rr | MmGprs | Sms | SmGprs | NcSs | Loc | Test | OtherPdisc

  datatype MsgName =
    | LocUpdRequest | CmServReq | CmReestReq | AuthResp | AuthFail | IdResp | TmsiReallCompl | ImsiDetachInd
    | PagResp | CiphMCompl | OtherName

  /** Discriminator, message and the two bits of the message type octet that may hold a sequence number. */
  datatype Header = Header(pdisc: Pdisc, name: MsgName, bit7: bool, bit8: bool)

  /** msg_is_initially_permitted() */
  predicate InitiallyPermitted(h: Header) {
    match h.pdisc
    case Mm => h.name in {LocUpdRequest, CmServReq, CmReestReq, AuthResp, AuthFail, IdResp, TmsiReallCompl, ImsiDetachInd}
    case Rr => h.name in {PagResp, CiphMCompl}
    case _ => false
  }

  /** The receivers behind msc_a_up_l3(). */
  datatype Receiver = RcvBccGcc | RcvCc | RcvMm | RcvRr | RcvSms | RcvSs | RcvTest

  function ReceiverOf(p: Pdisc): Option<Receiver> {
    match p
    case GroupCc => Some(RcvBccGcc)
    case BcastCc => Some(RcvBccGcc)
    case Cc => Some(RcvCc)
    case Mm => Some(RcvMm)
    case Rr => Some(RcvRr)
    case Sms => Some(RcvSms)
    case NcSs => Some(RcvSs)
    case Test => Some(RcvTest)
    case _ => None
  }

  /** Whose messages a receiver gets. */
  function OwnOf(r: Receiver): set<Pdisc> {
    match r
    case RcvBccGcc => {GroupCc, BcastCc}
    case RcvCc => {Cc}
    case RcvMm => {Mm}
    case RcvRr => {Rr}
    case RcvSms => {Sms}
    case RcvSs => {NcSs}
    case RcvTest => {Test}
  }

  /** What the octet of the message type must look like for its discriminator. */
  predicate TypeOctetOk(h: Header, r99: bool) {
    && (h.bit8 ==> r99 && h.pdisc in {Mm, Cc, NcSs})
    && (h.pdisc == SmGprs ==> h.bit7)
    && (h.pdisc in {MmGprs, Sms, Test, OtherPdisc} ==> !h.bit7)
  }

  /** Who is to receive a layer 3 message in a state, if anyone. */
  function Gate(s: State, h: Header, r99: Option<bool>, duplicate: bool, sameRan: bool): Option<Receiver> {
    if r99.Some? && !duplicate && (Accepted(s) || InitiallyPermitted(h)) && sameRan && TypeOctetOk(h, r99.value)
    then ReceiverOf(h.pdisc) else None
  }

  /** A message reaches a receiver exactly if it is one of the receiver's own and passes all checks. */
  lemma GateExactly(s: State, h: Header, r99: Option<bool>, duplicate: bool, sameRan: bool, r: Receiver)
    ensures Gate(s, h, r99, duplicate, sameRan) == Some(r) <==>
              && h.pdisc in OwnOf(r) && r99.Some? && !duplicate && sameRan
              && (s in {Authenticated, Communicating} || InitiallyPermitted(h))
              && (h.bit8 ==> r99.value && r in {RcvMm, RcvCc, RcvSs}) && (r in {RcvSms, RcvTest} ==> !h.bit7)
  {
  }

  // ---- What other code does to a connection ----

  /** One thing that code called by the state machine may do in turn; body is what that leads to. */
  datatype Op =
    | Get(use: Use)
    | Put(use: Use)
    | Dispatch(event: Event, body: seq<Op>)
    | UpL3(header: Header, r99: Option<bool>, duplicate: bool, sameRan: bool, body: seq<Op>)
    | ClearComplete
    | StartCiphering(needsClassmark: bool)
    | Attach(t: TransType)          // once the connection has accepted the transaction
    | AttachDirectly(t: TransType)  // to a connection that is found in use, or that answered a page
    | FreeTrans(index: nat)
    | StartCallLeg

  function Weight(op: Op): nat {
    match op
    case Dispatch(_, body) => 3 + WeightAll(body)
    case UpL3(_, _, _, _, body) => 3 + WeightAll(body)
    case _ => 3
  }

  function WeightAll(ops: seq<Op>): nat {
    if ops == [] then 0 else 1 + Weight(ops[0]) + WeightAll(ops[1..])
  }

  // ---- What can be observed ----

  datatype Entry =
    | Taken(event: Event, at: State) | Entered(state: State) | Received(receiver: Receiver)
    | Cleared(at: State) | Expired(at: State)  // a Clear Complete came, the timer expired
    | Did(op: Op)                              // other code did this
    | Ended

  const AUTHENTICATION := Taken(AuthDone, AuthCiph)

  datatype View = View(state: State, alive: bool, armed: bool, uses: multiset<Use>, trans: seq<TransType>,
                       log: seq<Entry>, sgs: bool)

  predicate IsService(r: Receiver) {
    r != RcvMm && r != RcvRr
  }

  /** Services are reached only once authentication is done, and never once releasing has begun. */
  ghost predicate GateSafe(log: seq<Entry>) {
    forall i :: 0 <= i < |log| && log[i].Received? && IsService(log[i].receiver) ==>
      AUTHENTICATION in log[..i] && Entered(Releasing) !in log[..i]
  }

  /** After releasing has begun, the only state that can still be entered is RELEASED. */
  ghost predicate NoWayBack(log: seq<Entry>) {
    forall i, j :: 0 <= i < j < |log| && log[i] == Entered(Releasing) && log[j].Entered? ==> log[j].state == Released
  }

  /** What ends the wait for a release to be confirmed. */
  predicate Confirms(e: Entry) {
    e == Cleared(Releasing) || e == Expired(Releasing)
  }

  ghost predicate ConfirmedFrom(log: seq<Entry>, n: nat) {
    exists i :: n <= i < |log| && Confirms(log[i])
  }

  /** These things were done in this order, whatever else they led to. */
  ghost predicate Done(ops: seq<Op>, log: seq<Entry>, from: nat) {
    ops == [] || exists i :: from <= i < |log| && log[i] == Did(ops[0]) && Done(ops[1..], log, i + 1)
  }

  lemma {:induction false} DoneLater(ops: seq<Op>, log: seq<Entry>, from: nat, log': seq<Entry>, from': nat)
    requires Done(ops, log, from) && log <= log' && from' <= from
    ensures Done(ops, log', from')
    decreases |ops|
  {
    if ops != [] {
      var i :| from <= i < |log| && log[i] == Did(ops[0]) && Done(ops[1..], log, i + 1);
      DoneLater(ops[1..], log, i + 1, log', i + 1);
      assert log'[i] == Did(ops[0]);
    }
  }

  /** RELEASED is entered only once the release is confirmed, or the wait for that has timed out. */
  ghost predicate ReleasedConfirmed(log: seq<Entry>) {
    forall i :: 0 <= i < |log| && log[i] == Entered(Released) ==> ConfirmedFrom(log[..i], 0)
  }

  ghost predicate TokensMatch(uses: multiset<Use>, trans: seq<TransType>) {
    forall t :: uses[Of(t)] == multiset(trans)[t]
  }

  ghost predicate Sound(v: View) {
    && (v.alive && v.state != Communicating ==> v.armed)
    && (!v.alive ==> v.state == Released)
    && (Accepted(v.state) ==> AUTHENTICATION in v.log)
    && (Entered(Releasing) in v.log <==> InRelease(v.state))
    && GateSafe(v.log) && NoWayBack(v.log) && (v.sgs || ReleasedConfirmed(v.log))
    && TokensMatch(v.uses, v.trans)
  }

  /** A live connection in RELEASED is still in use. */
  predicate Busy(v: View) {
    v.alive && v.state == Released ==> |v.uses| > 0
  }

  /** How many expiries of the timer are left at most. */
  function Left(v: View): nat {
    if !v.alive then 0
    else if v.state == Released then 1
    else if v.state == Releasing then 2
    else 3
  }

  /** Progress that nested code cannot undo. */
  function Level(v: View): nat {
    if !v.alive then 0
    else match v.state
      case Released => 1
      case Releasing => 2
      case Communicating => 3
      case Authenticated => 4
      case WaitClassmark => 5
      case AuthCiph => 5
      case ValidateL3 => 6
  }

  ghost predicate Moved(v: View, v': View) {
    && v.log <= v'.log
    && Level(v') <= Level(v)
    && (forall u :: Hold(u) ==> v'.uses[u] == v.uses[u])
    && (InRelease(v'.state) ==> v'.trans == [] || (InRelease(v.state) && |v'.trans| <= |v.trans|))
    && (InRelease(v.state) ==> InRelease(v'.state))
    && v.sgs == v'.sgs
    && (v.sgs && v'.state == Releasing ==> v.state == Releasing)
  }

  /** What any piece of code, however nested, does to a connection at most. It leaves RELEASING only if the release is
      confirmed, or where nothing will confirm it. */
  ghost predicate Moves(v: View, v': View) {
    && Moved(v, v')
    && (!v.sgs && v.state != Released && v'.state == Released ==> ConfirmedFrom(v'.log, |v.log|))
  }

  lemma MovesRefl(v: View)
    ensures Moves(v, v)
  {
  }

  lemma MovesTrans(a: View, b: View, c: View)
    requires Moves(a, b) && Moves(b, c)
    ensures Moves(a, c)
  {
  }

  lemma MovesConfirmed(v: View, a: View, v': View)
    requires Moved(v, a) && Moved(a, v') && ConfirmedFrom(a.log, |v.log|)
    ensures Moves(v, v')
  {
    var i :| |v.log| <= i < |a.log| && Confirms(a.log[i]);
    assert v'.log[i] == a.log[i];
  }

  lemma MovedOn(v: View, a: View, v': View)
    requires Moved(v, a) && Moved(a, v')
    ensures Moved(v, v')
    ensures v.sgs || v.state == Released ==> Moves(v, v')
  {
  }

  /** An entry that opens no service and no state keeps the log in order. */
  lemma Noted(log: seq<Entry>, e: Entry)
    requires GateSafe(log) && NoWayBack(log)
    requires e.Received? && IsService(e.receiver) ==> AUTHENTICATION in log && Entered(Releasing) !in log
    requires e.Entered? ==> e.state == Released || Entered(Releasing) !in log
    ensures GateSafe(log + [e]) && NoWayBack(log + [e])
    ensures ReleasedConfirmed(log) && (e == Entered(Released) ==> ConfirmedFrom(log, 0)) ==> ReleasedConfirmed(log + [e])
  {
    var longer := log + [e];
    assert longer[..|log|] == log;
    forall i | 0 <= i < |log|
      ensures longer[..i] == log[..i]
    {
    }
    forall i, j | 0 <= i < j < |longer| && longer[i] == Entered(Releasing) && longer[j].Entered?
      ensures longer[j].state == Released
    {
      assert longer[i] == log[i];
      if j < |log| {
        assert longer[j] == log[j];
      }
    }
  }

  lemma TokenHeld(uses: multiset<Use>, trans: seq<TransType>, i: nat)
    requires TokensMatch(uses, trans) && i < |trans|
    ensures Of(trans[i]) in uses
    ensures TokensMatch(uses - multiset{Of(trans[i])}, trans[..i] + trans[i + 1..])
  {
    assert trans == trans[..i] + [trans[i]] + trans[i + 1..];
  }

  /** A view with one more use, or one less. */
  function With(v: View, u: Use): View {
    v.(uses := v.uses + multiset{u})
  }

  function Without(v: View, u: Use): View {
    v.(uses := v.uses - multiset{u})
  }

  lemma WithSound(v: View, u: Use)
    requires Sound(v) && !u.Of?
    ensures Sound(With(v, u)) && Sound(Without(v, u))
  {
    hide GateSafe, NoWayBack;
    forall t
      ensures With(v, u).uses[Of(t)] == v.uses[Of(t)] && Without(v, u).uses[Of(t)] == v.uses[Of(t)]
    {
    }
  }

  lemma HoldTaken(v: View, u: Use)
    requires Sound(v) && !u.Of?
    ensures Sound(With(v, u)) && Busy(With(v, u)) && Level(With(v, u)) == Level(v)
    ensures !Hold(u) ==> Moves(v, With(v, u))
  {
    hide Sound;
    WithSound(v, u);
  }

  /** A function that holds a token while other code runs finds it again. */
  lemma HoldReturned(v: View, v': View, u: Use)
    requires Sound(v') && Hold(u) && Moves(With(v, u), v')
    ensures u in v'.uses && Sound(Without(v', u)) && Moves(v, Without(v', u)) && Level(v') <= Level(v)
  {
    hide Sound;
    WithSound(v', u);
    assert v'.uses[u] == v.uses[u] + 1;
  }

  lemma FreePut(v: View, u: Use)
    requires Sound(v) && Free(u)
    ensures Sound(Without(v, u)) && Moves(v, Without(v, u))
  {
    hide Sound;
    WithSound(v, u);
  }

  lemma MovesHolds(v: View, v': View)
    requires Moves(v, v')
    ensures forall u :: Hold(u) ==> v'.uses[u] == v.uses[u]
  {
  }

  lemma MovesLevel(v: View, v': View)
    requires Moves(v, v')
    ensures Level(v') <= Level(v) && (InRelease(v.state) ==> InRelease(v'.state))
    ensures InRelease(v.state) && v.trans == [] ==> v'.trans == []
    ensures v.state == Released && Sound(v') ==> v'.state == Released
    ensures !v.alive ==> !v'.alive
  {
  }

  /** The view once a state is entered; the timer runs on, restarts or stops as msc_a_fsm_timeouts tells. */
  function Enter(v: View, s: State): View {
    var armed := match s
                 case ValidateL3 => true
                 case Communicating => false
                 case Releasing => true
                 case Released => true
                 case _ => v.armed;
    v.(state := s, armed := armed, log := v.log + [Entered(s)])
  }

  lemma EnterSound(v: View, s: State)
    requires Sound(v) && s in Exits(v.state) && (s == Authenticated ==> AUTHENTICATION in v.log)
    requires s == Released && !v.sgs ==> ConfirmedFrom(v.log, 0)
    ensures v.alive && Sound(Enter(v, s)) && Level(Enter(v, s)) <= Level(v)
    ensures s !in {ValidateL3, AuthCiph, WaitClassmark} ==> Level(Enter(v, s)) < Level(v)
    ensures s != Releasing ==> Moved(v, Enter(v, s))
    ensures s != Releasing && (s != Released || v.sgs) ==> Moves(v, Enter(v, s))
  {
    Noted(v.log, Entered(s));
  }

  lemma ReleasingMoves(v: View, v': View)
    requires v.state != Released && v.alive && Moves(Enter(v, Releasing), v') && v'.trans == []
    requires v.state == Releasing || (v.sgs ==> v'.state == Released)
    ensures Moves(v, v')
  {
  }

  /** The view once a transaction and its token are gone. */
  function Freed(v: View, i: nat): View
    requires i < |v.trans|
  {
    v.(trans := v.trans[..i] + v.trans[i + 1..], uses := v.uses - multiset{Of(v.trans[i])})
  }

  lemma FreedSound(v: View, i: nat)
    requires Sound(v) && i < |v.trans|
    ensures Of(v.trans[i]) in v.uses && Sound(Freed(v, i)) && Moves(v, Freed(v, i))
    ensures Level(v.(trans := v.trans[..i] + v.trans[i + 1..])) == Level(v)
  {
    TokenHeld(v.uses, v.trans, i);
  }

  lemma MovesLog(v: View, v': View)
    requires Moves(v, v')
    ensures v.log <= v'.log
  {
  }

  /** A receiver is called. */
  lemma ReceivedSound(v: View, r: Receiver)
    requires Sound(v) && (IsService(r) ==> Accepted(v.state))
    ensures var w := v.(log := v.log + [Received(r)]);
            Sound(w) && (Busy(v) ==> Busy(w)) && Moves(v, w) && Level(w) == Level(v)
  {
    Noted(v.log, Received(r));
  }

  lemma AttachedSound(v: View, t: TransType)
    requires Sound(v) && !InRelease(v.state)
    ensures var w := v.(trans := v.trans + [t], uses := v.uses + multiset{Of(t)});
            Sound(w) && Moves(v, w)
  {
    hide GateSafe, NoWayBack;
    assert multiset(v.trans + [t]) == multiset(v.trans) + multiset{t};
  }

  lemma TakenAllSound(v: View, u: Use)
    requires Sound(v) && !Hold(u) && (!u.Of? || v.trans == [])
    ensures var w := v.(uses := v.uses[u := 0]);
            Sound(w) && Moves(v, w)
  {
    hide GateSafe, NoWayBack;
  }

  lemma MovesLeft(v: View, v': View)
    requires Moves(v, v')
    ensures Left(v') <= Left(v)
    ensures InRelease(v'.state) && (InRelease(v.state) ==> v.trans == []) ==> v'.trans == []
    ensures v.sgs && v.state != Releasing ==> v'.state != Releasing
  {
  }

  lemma MovesConfirms(v: View, b: View, v': View)
    requires Moves(v, b) && Moves(b, v') && v.alive && v.state == Releasing && Sound(b)
    ensures if b.state == Releasing then b.alive else b.state == Released
    ensures b.state == Released && !v.sgs ==> ConfirmedFrom(v'.log, |v.log|)
  {
    if b.state == Released && !v.sgs {
      var i :| |v.log| <= i < |b.log| && Confirms(b.log[i]);
      assert v'.log[i] == b.log[i];
    }
  }

  /** A Clear Complete, an expiry or what other code does is noted. */
  lemma NotedSound(v: View, e: Entry)
    requires Sound(v) && (e.Cleared? || e.Expired? || e.Did?)
    ensures var w := v.(log := v.log + [e]);
            && Sound(w) && (Busy(v) ==> Busy(w)) && Moves(v, w) && Level(w) == Level(v)
            && (Confirms(e) ==> ConfirmedFrom(w.log, |v.log|) && ConfirmedFrom(w.log, 0))
  {
    Noted(v.log, e);
    assert (v.log + [e])[|v.log|] == e;
  }

  lemma TakenSound(v: View, e: Event)
    requires Sound(v)
    ensures var w := v.(log := v.log + [Taken(e, v.state)]);
            Sound(w) && Moves(v, w) && Level(w) == Level(v) && Taken(e, v.state) in w.log
  {
    Noted(v.log, Taken(e, v.state));
  }
}
