/** The hold queue of msc_iptrace.c: packets of an A or Iu connection wait until its IMSI is known,
    then they are emitted if that IMSI is traced. */
module HoldQueue {
  import opened Options
  import opened Bytes

  type Pkt = seq<Byte>
  type Imsi = string
  /** What could be built of a CR and of the CC that answers it: one packet of each at most. */
  type CrPkts = s: seq<Pkt> | |s| <= 2

  const PENDING_MAX := 32

  /** The last packets of a list that fit the queue. */
  function Newest(s: seq<Pkt>): (r: seq<Pkt>)
    ensures |r| <= |s| && |r| <= PENDING_MAX
  {
    if |s| <= PENDING_MAX then s else s[|s| - PENDING_MAX..]
  }

  lemma NewestAll(s: seq<Pkt>)
    requires |s| <= PENDING_MAX
    ensures Newest(s) == Newest(s + []) == s
  {
    assert s + [] == s;
  }

  lemma NewestSize(s: seq<Pkt>)
    ensures |Newest(s)| == if |s| > PENDING_MAX then PENDING_MAX else |s|
  {
  }

  /** Losing the oldest twice is losing them once. */
  lemma NewestTwice(a: seq<Pkt>, b: seq<Pkt>)
    ensures Newest(Newest(a) + b) == Newest(a + b)
  {
    if |a| > PENDING_MAX {
      var n := |a| - PENDING_MAX;
      assert a[n..] + b == (a + b)[n..];
      NewestOfRest(a + b, n);
    }
  }

  lemma NewestOfRest(s: seq<Pkt>, n: nat)
    requires n + PENDING_MAX <= |s|
    ensures Newest(s[n..]) == Newest(s)
  {
    var m := |s| - PENDING_MAX;
    assert s[n..][m - n..] == s[m..];
  }

  /** What was emitted and what is held are together what was built, in order, less what was lost at the front. */
  ghost predicate InOrder(emitted: seq<Pkt>, pending: seq<Pkt>, built: seq<Pkt>, cut: nat) {
    cut <= |built| && emitted + pending == built[cut..]
  }

  lemma OrderAfterAdd(emitted: seq<Pkt>, pending: seq<Pkt>, built: seq<Pkt>, cut: nat, list: seq<Pkt>)
    requires InOrder(emitted, pending, built, cut)
    requires emitted == [] || |pending + list| <= PENDING_MAX
    ensures var kept := Newest(pending + list);
            InOrder(emitted, kept, built + list, cut + |pending + list| - |kept|)
  {
    assert (built + list)[cut..] == built[cut..] + list;
    assert emitted + (pending + list) == (built + list)[cut..];
    if emitted == [] {
      assert pending + list == (built + list)[cut..];
    }
  }

  lemma OrderAfterEmit(emitted: seq<Pkt>, built: seq<Pkt>, cut: nat, list: seq<Pkt>)
    requires InOrder(emitted, [], built, cut)
    ensures InOrder(emitted + list, [], built + list, cut)
  {
    assert (built + list)[cut..] == built[cut..] + list;
    assert emitted + [] == emitted;
  }

  /** What the trace code finds out at a call: whether anything is traced, the IMSI of the connection's subscriber if
      that is known by now, and whether the IMSI of the connection is traced. */
  datatype Now = Now(any: bool, subscriber: Option<Imsi>, traced: bool)

  /** What was built for a connection and what was emitted for it since it was last dropped as untraced, how many packets
      the full queue has lost since, how often it was dropped, and whether its IMSI is known. */
  datatype Record = Record(built: seq<Pkt>, emitted: seq<Pkt>, cut: nat, drops: nat, known: bool)

  /** Unless it was dropped meanwhile, a connection has what it had, and has lost nothing if something was emitted. */
  predicate Onward(a: Record, b: Record) {
    && a.drops <= b.drops
    && (a.drops == b.drops ==>
          a.built <= b.built && a.emitted <= b.emitted && a.cut <= b.cut && (a.emitted != [] ==> a.cut == b.cut))
  }

  /** Nor has it lost anything if the IMSI was known. */
  predicate Calm(a: Record, b: Record) {
    Onward(a, b) && (a.known ==> b.known && (a.drops == b.drops ==> a.cut == b.cut))
  }

  lemma CalmTwice(a: Record, b: Record, c: Record)
    requires Calm(a, b) && Calm(b, c)
    ensures Calm(a, c)
  {
  }

  /** The trace fields of struct ran_conn, with the record in ghost fields. */
  class RanConn {
    var imsi: Option<Imsi>
    var pending: seq<Pkt>
    var pendingN: nat
    ghost var built: seq<Pkt>
    ghost var emitted: seq<Pkt>
    ghost var cut: nat
    ghost var drops: nat

    ghost function Past(): Record
      reads this
    {
      Record(built, emitted, cut, drops, imsi.Some?)
    }

    /** The count is the length of the list and within bounds. What was emitted and what is held are together what was
        built, in order, less what was lost at the front. */
    ghost predicate Ordered()
      reads this
    {
      && pendingN == |pending| <= PENDING_MAX
      && (imsi.None? ==> emitted == [])
      && InOrder(emitted, pending, built, cut)
    }

    /** Once something was emitted nothing is held. */
    ghost predicate Valid()
      reads this
    {
      Ordered() && (emitted != [] ==> pending == [])
    }

    ghost predicate Idle()
      reads this
    {
      pending == [] && emitted == []
    }

    ghost predicate Dropped()
      reads this
    {
      Idle() && built == [] && cut == 0
    }

    constructor ()
      ensures Valid() && Dropped() && imsi == None
    {
      imsi, pending, pendingN := None, [], 0;
      built, emitted, cut, drops := [], [], 0, 0;
    }

    /** conn_imsi(): an IMSI once seen is kept. */
    method ConnImsi(subscriber: Option<Imsi>) returns (r: Option<Imsi>)
      requires Ordered()
      modifies `imsi
      ensures Ordered() && imsi == r == if old(imsi).Some? then old(imsi) else subscriber
    {
      if imsi.None? {
        imsi := subscriber;
      }
      r := imsi;
    }

    /** pending_drop(): the IMSI is known and not traced, or no traces are left. */
    method PendingDrop()
      modifies `pending, `pendingN, `built, `emitted, `cut, `drops
      ensures Valid() && Dropped() && drops == old(drops) + 1
    {
      while pending != []
        invariant drops == old(drops)
        decreases |pending|
      {
        pending := pending[1..];
      }
      pendingN := 0;
      built, emitted, cut, drops := [], [], 0, drops + 1;
    }

    /** The first loop of pending_add(). */
    method Append(list: seq<Pkt>)
      requires pendingN == |pending|
      modifies `pending, `pendingN
      ensures pending == old(pending) + list && pendingN == |pending|
    {
      for i := 0 to |list|
        invariant pending == old(pending) + list[..i] && pendingN == |pending|
      {
        assert list[..i + 1] == list[..i] + [list[i]];
        pending := pending + [list[i]];
        pendingN := pendingN + 1;
      }
      assert list[..|list|] == list;
    }

    /** The second loop: the oldest go until the rest fits. */
    method Trim()
      requires pendingN == |pending|
      modifies `pending, `pendingN
      ensures pending == Newest(old(pending)) && pendingN == |pending|
    {
      while pendingN > PENDING_MAX
        invariant pendingN == |pending| <= |old(pending)|
        invariant pendingN == |old(pending)| || pendingN >= PENDING_MAX
        invariant pending == old(pending)[|old(pending)| - pendingN..]
      {
        pending := pending[1..];
        pendingN := pendingN - 1;
      }
    }

    /** pending_add(): append, then lose the oldest. */
    method PendingAdd(list: seq<Pkt>)
      requires Ordered() && (emitted != [] ==> |pending + list| <= PENDING_MAX)
      modifies `pending, `pendingN, `built, `cut
      ensures Ordered()
      ensures pending == Newest(old(pending) + list)
      ensures built == old(built) + list
      ensures cut == old(cut) + |old(pending) + list| - |pending|
    {
      hide InOrder, Newest;
      ghost var all := pending + list;
      OrderAfterAdd(emitted, pending, built, cut, list);
      Append(list);
      Trim();
      built := built + list;
      cut := cut + |all| - |pending|;
    }

    /** list_emit() for packets built just now. */
    method Emit(list: seq<Pkt>)
      requires Valid() && imsi.Some? && pending == []
      modifies `emitted, `built
      ensures Valid() && built == old(built) + list && emitted == old(emitted) + list
    {
      var rest := list;
      while rest != []
        invariant emitted + rest == old(emitted) + list && built == old(built)
        decreases |rest|
      {
        emitted := emitted + [rest[0]];
        rest := rest[1..];
      }
      OrderAfterEmit(old(emitted), built, cut, list);
      built := built + list;
    }

    /** conn_settle(): emit or drop what is held, once the IMSI is known. */
    method Settle(subscriber: Option<Imsi>, traced: bool) returns (r: Option<Imsi>)
      requires Ordered()
      modifies this
      ensures Valid() && imsi == if old(imsi).Some? then old(imsi) else subscriber
      ensures r == if traced then imsi else None
      ensures imsi.None? ==> pending == old(pending) && emitted == old(emitted)
      ensures imsi.Some? && traced ==> pending == [] && emitted == old(emitted) + old(pending)
      ensures imsi.None? || traced ==> built == old(built) && cut == old(cut) && drops == old(drops)
      ensures imsi.Some? && !traced ==> Dropped() && drops == old(drops) + 1
    {
      r := ConnImsi(subscriber);
      if r.None? {
        return;
      }
      if !traced {
        PendingDrop();
        return None;
      }
      while pending != []
        invariant emitted + pending == old(emitted) + old(pending)
        invariant imsi == r && built == old(built) && cut == old(cut) && drops == old(drops)
        decreases |pending|
      {
        emitted := emitted + [pending[0]];
        pending := pending[1..];
      }
      pendingN := 0;
    }

    /** The part of msc_iptrace_sccp_co() that follows once the connection is found. */
    method Take(now: Now, pkts: seq<Pkt>)
      requires Valid()
      modifies this
      ensures Valid() && imsi == if old(imsi).Some? then old(imsi) else now.subscriber
      ensures imsi.None? || now.traced ==> built == old(built) + pkts && drops == old(drops)
      ensures imsi.None? ==> pending == Newest(old(pending) + pkts)
      ensures imsi.None? ==> cut == old(cut) + |old(pending) + pkts| - |pending|
      ensures imsi.Some? && now.traced ==> cut == old(cut)
      ensures imsi.Some? && now.traced && pkts == [] ==> pending == old(pending) && emitted == old(emitted)
      ensures imsi.Some? && now.traced && pkts != [] ==> pending == [] && emitted == old(emitted) + old(pending) + pkts
      ensures imsi.Some? && !now.traced ==> Dropped() && drops == old(drops) + 1
    {
      hide InOrder, Newest;
      var i := ConnImsi(now.subscriber);
      if i.Some? && !now.traced {
        PendingDrop();
        return;
      }
      if pkts == [] {
        NewestAll(pending);
        return;
      }
      if i.Some? {
        var _ := Settle(now.subscriber, now.traced);
        Emit(pkts);
      } else {
        PendingAdd(pkts);
      }
    }
  }

  /** Which connection: the SCCP instance and its connection id. */
  datatype Key = Key(sri: nat, connId: Uint32)

  /** What the code above the trace code does with connections while it handles a message. */
  datatype Op =
    | Co(k: Key, now: Now, pkts: seq<Pkt>)   // sends on a connection
    | Open(k: Key)                           // makes a connection object, if the id is not in use
    | Close(k: Key)                          // discards one

  /** The primitives of sccp_ran_sap_up() that concern connections, with what up_l2() does meanwhile, and whatever else
      makes the code send. */
  datatype Step =
    | Connect(k: Key, any: bool, cr: CrPkts, ops: seq<Op>, now: Now)
    | Arrive(k: Key, at: Now, pkts: seq<Pkt>, ops: seq<Op>, now: Now)
    | Disconnect(k: Key, at: Now, pkts: seq<Pkt>, ops: seq<Op>)
    | Own(ops: seq<Op>)

  // ---- What is built, as the calls tell it ----

  /** IMSI of a connection, and what was built for it since it was opened or last dropped as untraced. */
  datatype Trace = Trace(imsi: Option<Imsi>, built: seq<Pkt>)

  /** All connections, and the CR that waits for one. */
  datatype World = World(traces: map<Key, Trace>, cr: Option<(Key, CrPkts)>)

  function CrOf(w: World, k: Key): seq<Pkt> {
    if w.cr.Some? && w.cr.value.0 == k then w.cr.value.1 else []
  }

  function NoCr(w: World, k: Key): Option<(Key, CrPkts)> {
    if w.cr.Some? && w.cr.value.0 == k then None else w.cr
  }

  /** The next packets of a connection are those of a CR that waits for it and then its own, unless it is untraced. */
  function Continued(t: Trace, now: Now, pkts: seq<Pkt>): Trace {
    var imsi := if t.imsi.Some? then t.imsi else now.subscriber;
    Trace(imsi, if imsi.Some? && !now.traced then [] else t.built + pkts)
  }

  function AfterCo(w: World, k: Key, now: Now, pkts: seq<Pkt>): World {
    if !now.any || k !in w.traces then w
    else World(w.traces[k := Continued(w.traces[k], now, CrOf(w, k) + pkts)], NoCr(w, k))
  }

  function AfterFlush(w: World, k: Key, now: Now): World {
    if k !in w.traces then w.(cr := NoCr(w, k))
    else if !now.any then w.(traces := w.traces[k := w.traces[k].(built := [])])
    else AfterCo(w, k, now, [])
  }

  function AfterOp(w: World, op: Op): World {
    match op
    case Co(k, now, pkts) => AfterCo(w, k, now, pkts)
    case Open(k) => if k in w.traces then w else w.(traces := w.traces[k := Trace(None, [])])
    case Close(k) => w.(traces := w.traces - {k})
  }

  function AfterOps(w: World, ops: seq<Op>): World {
    if ops == [] then w else AfterOp(AfterOps(w, ops[..|ops| - 1]), ops[|ops| - 1])
  }

  lemma {:induction false} AfterFirst(w: World, op: Op, ops: seq<Op>)
    ensures AfterOps(w, [op] + ops) == AfterOps(AfterOp(w, op), ops)
    decreases |ops|
  {
    hide AfterOp;
    var all := [op] + ops;
    if ops == [] {
      assert all[..0] == [] && all[0] == op;
    } else {
      assert all[..|all| - 1] == [op] + ops[..|ops| - 1] && all[|all| - 1] == ops[|ops| - 1];
      AfterFirst(w, op, ops[..|ops| - 1]);
    }
  }

  lemma AfterLast(w: World, ops: seq<Op>, op: Op)
    ensures AfterOps(w, ops + [op]) == AfterOp(AfterOps(w, ops), op)
  {
    assert (ops + [op])[..|ops|] == ops;
  }

  function AfterStep(w: World, step: Step): World {
    match step
    case Connect(k, any, cr, ops, now) =>
      var a := if any then w.(cr := Some((k, cr))) else w;
      AfterFlush(if k in w.traces then a else AfterOps(a, ops), k, now)
    case Arrive(k, at, pkts, ops, now) => AfterFlush(AfterOps(AfterCo(w, k, at, pkts), ops), k, now)
    case Disconnect(k, at, pkts, ops) => AfterOp(AfterOps(AfterCo(w, k, at, pkts), ops), Close(k))
    case Own(ops) => AfterOps(w, ops)
  }

  lemma OneChanged(a: World, b: World, k: Key, t: Trace)
    requires k in a.traces && b.traces.Keys == a.traces.Keys && b.traces[k] == t
    requires forall l :: l in a.traces && l != k ==> b.traces[l] == a.traces[l]
    ensures b.traces == a.traces[k := t]
  {
  }

  function AfterSteps(w: World, steps: seq<Step>): World {
    if steps == [] then w else AfterStep(AfterSteps(w, steps[..|steps| - 1]), steps[|steps| - 1])
  }

  // ---- A connection that is open and traced all the time ----

  predicate IsTraced(now: Now) {
    now.any && now.traced
  }

  predicate Keeps(op: Op, k: Key) {
    match op
    case Co(_, now, _) => IsTraced(now)
    case Open(_) => true
    case Close(l) => l != k
  }

  predicate KeepsAll(ops: seq<Op>, k: Key) {
    forall op :: op in ops ==> Keeps(op, k)
  }

  predicate StepKeeps(step: Step, k: Key) {
    match step
    case Connect(_, any, _, ops, now) => any && KeepsAll(ops, k) && IsTraced(now)
    case Arrive(_, at, _, ops, now) => IsTraced(at) && KeepsAll(ops, k) && IsTraced(now)
    case Disconnect(l, at, _, ops) => l != k && IsTraced(at) && KeepsAll(ops, k)
    case Own(ops) => KeepsAll(ops, k)
  }

  /** The packets that name a connection, in order. */
  function Named(ops: seq<Op>, k: Key): seq<Pkt> {
    if ops == [] then []
    else
      var op := ops[|ops| - 1];
      Named(ops[..|ops| - 1], k) + (if op.Co? && op.k == k then op.pkts else [])
  }

  function NamedIn(w: World, step: Step, k: Key): seq<Pkt> {
    match step
    case Connect(l, _, cr, ops, _) => if l == k then cr else if l in w.traces then [] else Named(ops, k)
    case Arrive(l, _, pkts, ops, _) => (if l == k then pkts else []) + Named(ops, k)
    case Disconnect(_, _, _, ops) => Named(ops, k)
    case Own(ops) => Named(ops, k)
  }

  function NamedBy(w: World, steps: seq<Step>, k: Key): seq<Pkt> {
    if steps == [] then []
    else NamedBy(w, steps[..|steps| - 1], k) + NamedIn(AfterSteps(w, steps[..|steps| - 1]), steps[|steps| - 1], k)
  }

  /** From w to w' this connection stayed and went on with these packets, and no CR waits for it. */
  predicate WentOn(w: World, w': World, k: Key, pkts: seq<Pkt>) {
    k in w.traces && k in w'.traces && CrOf(w', k) == [] && w'.traces[k].built == w.traces[k].built + pkts
  }

  lemma WentOnTwice(a: World, b: World, c: World, k: Key, p: seq<Pkt>, q: seq<Pkt>)
    requires WentOn(a, b, k, p) && WentOn(b, c, k, q)
    ensures WentOn(a, c, k, p + q)
  {
  }

  lemma {:induction false} OpsWentOn(w: World, ops: seq<Op>, k: Key)
    requires k in w.traces && CrOf(w, k) == [] && KeepsAll(ops, k)
    ensures WentOn(w, AfterOps(w, ops), k, Named(ops, k))
    decreases |ops|
  {
    if ops != [] {
      var before, op := ops[..|ops| - 1], ops[|ops| - 1];
      OpsWentOn(w, before, k);
      assert Keeps(op, k);
      OpWentOn(AfterOps(w, before), op, k);
      WentOnTwice(w, AfterOps(w, before), AfterOps(w, ops), k, Named(before, k),
                  if op.Co? && op.k == k then op.pkts else []);
    }
  }

  lemma OpWentOn(w: World, op: Op, k: Key)
    requires k in w.traces && CrOf(w, k) == [] && Keeps(op, k)
    ensures WentOn(w, AfterOp(w, op), k, if op.Co? && op.k == k then op.pkts else [])
  {
  }

  lemma FlushWentOn(w: World, l: Key, now: Now, k: Key)
    requires k in w.traces && (l != k ==> CrOf(w, k) == []) && IsTraced(now)
    ensures WentOn(w, AfterFlush(w, l, now), k, if l == k then CrOf(w, k) else [])
  {
  }

  lemma StepWentOn(w: World, step: Step, k: Key)
    requires k in w.traces && CrOf(w, k) == [] && StepKeeps(step, k)
    ensures WentOn(w, AfterStep(w, step), k, NamedIn(w, step, k))
  {
    hide AfterFlush, AfterOps, Named, KeepsAll;
    match step {
      case Connect(l, any, cr, ops, now) =>
        var a := w.(cr := Some((l, cr)));
        if l in w.traces {
          FlushWentOn(a, l, now, k);
        } else {
          OpsWentOn(a, ops, k);
          FlushWentOn(AfterOps(a, ops), l, now, k);
          WentOnTwice(a, AfterOps(a, ops), AfterStep(w, step), k, Named(ops, k), []);
          assert Named(ops, k) + [] == Named(ops, k);
        }
      case Arrive(l, at, pkts, ops, now) =>
        var a := AfterCo(w, l, at, pkts);
        var first := if l == k then pkts else [];
        OpWentOn(w, Co(l, at, pkts), k);
        OpsWentOn(a, ops, k);
        WentOnTwice(w, a, AfterOps(a, ops), k, first, Named(ops, k));
        FlushWentOn(AfterOps(a, ops), l, now, k);
        WentOnTwice(w, AfterOps(a, ops), AfterStep(w, step), k, first + Named(ops, k), []);
        assert first + Named(ops, k) + [] == first + Named(ops, k);
      case Disconnect(l, at, pkts, ops) =>
        var a := AfterCo(w, l, at, pkts);
        OpWentOn(w, Co(l, at, pkts), k);
        OpsWentOn(a, ops, k);
        WentOnTwice(w, a, AfterOps(a, ops), k, [], Named(ops, k));
        assert [] + Named(ops, k) == Named(ops, k);
      case Own(ops) => OpsWentOn(w, ops, k);
    }
  }

  /** What is built for a connection while it is open and traced is what the steps name it with, in order. */
  lemma {:induction false} BuiltIsNamed(w: World, steps: seq<Step>, k: Key)
    requires k in w.traces && CrOf(w, k) == [] && forall s :: s in steps ==> StepKeeps(s, k)
    ensures WentOn(w, AfterSteps(w, steps), k, NamedBy(w, steps, k))
    decreases |steps|
  {
    hide AfterStep, NamedIn, StepKeeps;
    if steps != [] {
      var before, step := steps[..|steps| - 1], steps[|steps| - 1];
      BuiltIsNamed(w, before, k);
      assert StepKeeps(step, k);
      StepWentOn(AfterSteps(w, before), step, k);
      WentOnTwice(w, AfterSteps(w, before), AfterSteps(w, steps), k, NamedBy(w, before, k),
                  NamedIn(AfterSteps(w, before), step, k));
    }
  }

  /** g_pending_cr, and the connections that the calls of the trace code find. */
  class Tracer {
    var conns: map<Key, RanConn>
    var pendingCr: Option<(Key, CrPkts)>

    /** A CR waits only for a connection that does not exist or has nothing held or emitted, or for connection k. */
    ghost predicate Settling(k: Option<Key>)
      reads this, conns.Values
    {
      && (forall l, m :: l in conns && m in conns && conns[l] == conns[m] ==> l == m)
      && (forall l :: l in conns ==> conns[l].Valid())
      && (pendingCr.Some? && pendingCr.value.0 in conns && k != Some(pendingCr.value.0) ==>
            conns[pendingCr.value.0].Idle())
    }

    ghost predicate Valid()
      reads this, conns.Values
    {
      Settling(None)
    }

    /** The packets of an inbound CR that wait for a connection. */
    ghost function Waiting(k: Key): seq<Pkt>
      reads `pendingCr
    {
      if pendingCr.Some? && pendingCr.value.0 == k then pendingCr.value.1 else []
    }

    ghost function W(): World
      reads this, conns.Values
    {
      World(map k | k in conns :: Trace(conns[k].imsi, conns[k].built), pendingCr)
    }

    /** g_pending_cr once a CR for k is adopted or cleared. */
    ghost function WithoutCr(k: Key): Option<(Key, CrPkts)>
      reads `pendingCr
    {
      if pendingCr.Some? && pendingCr.value.0 == k then None else pendingCr
    }

    constructor ()
      ensures Valid() && conns == map[] && pendingCr == None && W() == World(map[], None)
    {
      conns, pendingCr := map[], None;
    }

    /** ran_conn_create_incoming() */
    method NewConn(k: Key)
      requires Valid() && k !in conns
      modifies `conns
      ensures Valid() && k in conns && fresh(conns[k]) && conns == old(conns)[k := conns[k]]
      ensures conns[k].Dropped() && conns[k].imsi == None
    {
      var c := new RanConn();
      conns := conns[k := c];
    }

    /** A connection goes away with what it holds. */
    method RemoveConn(k: Key)
      requires Valid()
      modifies `conns
      ensures Valid() && conns == old(conns) - {k}
    {
      conns := conns - {k};
    }

    /** msc_iptrace_sccp_rx_cr(): nothing checks whether the connection exists already. */
    method RxCr(k: Key, any: bool, cr: CrPkts)
      requires Valid()
      modifies `pendingCr
      ensures Settling(Some(k)) && (k !in conns || !any ==> Valid())
      ensures pendingCr == if any then Some((k, cr)) else old(pendingCr)
    {
      if any {
        pendingCr := Some((k, cr));
      }
    }

    /** pending_cr_adopt(): the CR is queued for its own connection, behind what that holds. */
    method Adopt(k: Key)
      requires Settling(Some(k)) && k in conns
      modifies `pendingCr, conns[k]
      ensures pendingCr == old(WithoutCr(k))
      ensures conns[k].Ordered() && (old(conns[k].emitted) == [] ==> conns[k].Valid())
      ensures old(Waiting(k)) == [] ==> conns[k].Valid()
      ensures conns[k].built == old(conns[k].built) + old(Waiting(k))
      ensures conns[k].pending == Newest(old(conns[k].pending) + old(Waiting(k)))
      ensures conns[k].cut == old(conns[k].cut) + |old(conns[k].pending) + old(Waiting(k))| - |conns[k].pending|
      ensures conns[k].emitted == old(conns[k].emitted) && conns[k].imsi == old(conns[k].imsi)
      ensures conns[k].drops == old(conns[k].drops)
    {
      hide InOrder;
      var c := conns[k];
      NewestAll(c.pending);
      assert c.pending + [] == c.pending && c.built + [] == c.built;
      if pendingCr.Some? && pendingCr.value.0 == k {
        var list := pendingCr.value.1;
        pendingCr := None;
        c.PendingAdd(list);
      }
    }

    /** msc_iptrace_sccp_co(): one message of a connection, given the packets that could be built of it. */
    method SccpCo(k: Key, now: Now, pkts: seq<Pkt>)
      requires Valid()
      modifies `pendingCr, if k in conns then {conns[k]} else {}
      ensures Valid() && (k in conns ==> Calm(old(conns[k].Past()), conns[k].Past()))
      ensures !now.any || k !in conns ==> pendingCr == old(pendingCr)
      ensures !now.any && k in conns ==> unchanged(conns[k])
      ensures now.any && k in conns ==>
                && pendingCr == old(WithoutCr(k))
                && var c, held, lost := conns[k], old(conns[k].pending) + old(Waiting(k)), old(conns[k].cut);
                   && c.imsi == (if old(conns[k].imsi).Some? then old(conns[k].imsi) else now.subscriber)
                   && (c.imsi.None? || now.traced ==>
                         && c.built == old(conns[k].built) + old(Waiting(k)) + pkts
                         && c.drops == old(conns[k].drops))
                   && (c.imsi.None? ==> c.pending == Newest(held + pkts) && c.cut == lost + |held + pkts| - |c.pending|)
                   && (c.imsi.Some? && now.traced ==> c.cut == lost)
                   && (c.imsi.Some? && now.traced && pkts == [] ==>
                         c.pending == held && c.emitted == old(conns[k].emitted))
                   && (c.imsi.Some? && now.traced && pkts != [] ==>
                         c.pending == [] && c.emitted == old(conns[k].emitted) + held + pkts)
                   && (c.imsi.Some? && !now.traced ==> c.Dropped() && c.drops == old(conns[k].drops) + 1)
    {
      hide InOrder, Newest;
      if now.any && k in conns {
        ghost var held := conns[k].pending + Waiting(k);
        NewestAll(held);
        NewestTwice(held, pkts);
        Adopt(k);
        conns[k].Take(now, pkts);
      }
    }

    /** msc_iptrace_sccp_flush() */
    method Flush(k: Key, now: Now)
      requires Settling(Some(k))
      modifies `pendingCr, if k in conns then {conns[k]} else {}
      ensures Valid() && (k in conns ==> Onward(old(conns[k].Past()), conns[k].Past()))
      ensures k in conns && old(Valid()) ==> Calm(old(conns[k].Past()), conns[k].Past())
      ensures k !in conns || now.any ==> pendingCr == old(WithoutCr(k))
      ensures k in conns && !now.any ==>
                && pendingCr == old(pendingCr) && conns[k].imsi == old(conns[k].imsi)
                && conns[k].Dropped() && conns[k].drops == old(conns[k].drops) + 1
      ensures k in conns && now.any ==>
                var c, held := conns[k], old(conns[k].pending) + old(Waiting(k));
                && c.imsi == (if old(conns[k].imsi).Some? then old(conns[k].imsi) else now.subscriber)
                && (c.imsi.None? ==> c.pending == Newest(held))
                && (c.imsi.Some? && now.traced ==>
                      c.pending == [] && c.emitted == old(conns[k].emitted) + Newest(held))
                && (c.imsi.None? || now.traced ==>
                      && c.built == old(conns[k].built) + old(Waiting(k)) && c.drops == old(conns[k].drops)
                      && c.cut == old(conns[k].cut) + |held| - |Newest(held)|)
                && (c.imsi.Some? && !now.traced ==> c.Dropped() && c.drops == old(conns[k].drops) + 1)
    {
      hide InOrder, Newest;
      if k !in conns {
        if pendingCr.Some? && pendingCr.value.0 == k {
          pendingCr := None;
        }
        return;
      }
      if !now.any {
        conns[k].PendingDrop();
        return;
      }
      NewestSize(conns[k].pending + Waiting(k));
      Adopt(k);
      var _ := conns[k].Settle(now.subscriber, now.traced);
    }

    lemma AlsoSettling(k: Key)
      requires Valid()
      ensures Settling(Some(k))
    {
    }

    lemma OthersApart(k: Key)
      requires Settling(Some(k)) && k in conns
      ensures forall l :: l in conns && l != k ==> conns[l] != conns[k]
    {
    }

    /** msc_iptrace_sccp_co(), as all connections see it. */
    method Sent(k: Key, now: Now, pkts: seq<Pkt>)
      requires Valid()
      modifies `pendingCr, if k in conns then {conns[k]} else {}
      ensures Valid() && W() == AfterCo(old(W()), k, now, pkts)
      ensures k in conns ==> Calm(old(conns[k].Past()), conns[k].Past())
    {
      hide Settling, Newest, Calm;
      AlsoSettling(k);
      if k in conns {
        OthersApart(k);
      }
      ghost var w, t := W(), if k in conns then Trace(conns[k].imsi, conns[k].built) else Trace(None, []);
      SccpCo(k, now, pkts);
      if k in conns {
        OneChanged(w, W(), k, Trace(conns[k].imsi, conns[k].built));
        assert t.built + CrOf(w, k) + pkts == t.built + (CrOf(w, k) + pkts);
      }
    }

    /** msc_iptrace_sccp_flush(), as all connections see it. */
    method Flushed(k: Key, now: Now)
      requires Settling(Some(k))
      modifies `pendingCr, if k in conns then {conns[k]} else {}
      ensures Valid() && W() == AfterFlush(old(W()), k, now)
      ensures k in conns ==> Onward(old(conns[k].Past()), conns[k].Past())
      ensures k in conns && old(Valid()) ==> Calm(old(conns[k].Past()), conns[k].Past())
      ensures k in conns && now.any && conns[k].imsi.Some? && now.traced ==> conns[k].pending == []
      ensures now.any || k !in conns ==> Waiting(k) == []
    {
      hide Settling, Newest, Calm, Onward;
      if k in conns {
        OthersApart(k);
      }
      ghost var w, t := W(), if k in conns then Trace(conns[k].imsi, conns[k].built) else Trace(None, []);
      Flush(k, now);
      if k in conns {
        OneChanged(w, W(), k, Trace(conns[k].imsi, conns[k].built));
        assert t.built + CrOf(w, k) == t.built + (CrOf(w, k) + []);
      } else {
        assert W().traces == w.traces;
      }
    }

    method Opened(k: Key)
      requires Valid()
      modifies `conns
      ensures Valid() && fresh(conns.Values - old(conns.Values)) && W() == AfterOp(old(W()), Open(k))
    {
      hide Settling;
      ghost var w := W();
      if k !in conns {
        NewConn(k);
        assert W().traces == w.traces[k := Trace(None, [])];
      }
    }

    method Closed(k: Key)
      requires Valid()
      modifies `conns
      ensures Valid() && fresh(conns.Values - old(conns.Values)) && W() == AfterOp(old(W()), Close(k))
    {
      hide Settling;
      ghost var w := W();
      RemoveConn(k);
      assert W().traces == w.traces - {k};
    }

    method Do(op: Op)
      requires Valid()
      modifies this, conns.Values
      ensures Valid() && fresh(conns.Values - old(conns.Values))
      ensures W() == AfterOp(old(W()), op)
      ensures forall c :: c in old(conns.Values) ==> Calm(old(c.Past()), c.Past())
    {
      hide Settling;
      match op {
        case Co(k, now, pkts) => Sent(k, now, pkts);
        case Open(k) => Opened(k);
        case Close(k) => Closed(k);
      }
    }

    method DoAll(ops: seq<Op>)
      requires Valid()
      modifies this, conns.Values
      ensures Valid() && fresh(conns.Values - old(conns.Values))
      ensures W() == AfterOps(old(W()), ops)
      ensures forall c :: c in old(conns.Values) ==> Calm(old(c.Past()), c.Past())
    {
      hide Valid, AfterOp;
      for i := 0 to |ops|
        invariant Valid() && fresh(conns.Values - old(conns.Values)) && W() == AfterOps(old(W()), ops[..i])
        invariant forall c :: c in old(conns.Values) ==> Calm(old(c.Past()), c.Past())
      {
        Do(ops[i]);
        assert ops[..i + 1][..i] == ops[..i];
      }
      assert ops[..|ops|] == ops;
    }

    /** N-CONNECT indication for a connection that exists: ran_peer_up_l2() refuses it at once, and then it is flushed.
        Packets are lost exactly if the queue cannot hold those of the CR as well, which it always can once something
        was emitted. The IMSI may be known by then. */
    method Recall(k: Key, any: bool, cr: CrPkts, now: Now)
      requires Valid() && k in conns
      modifies `pendingCr, conns[k]
      ensures Valid() && Onward(old(conns[k].Past()), conns[k].Past())
      ensures !now.any ==> pendingCr == (if any then Some((k, cr)) else old(pendingCr)) && conns[k].imsi == old(conns[k].imsi)
      ensures !now.any ==> conns[k].Dropped() && conns[k].drops == old(conns[k].drops) + 1
      ensures now.any ==>
                var c, list := conns[k], if any then cr else old(Waiting(k));
                var lost := |old(conns[k].pending) + list| - PENDING_MAX;
                && pendingCr == (if any then None else old(WithoutCr(k)))
                && c.imsi == (if old(conns[k].imsi).Some? then old(conns[k].imsi) else now.subscriber)
                && (c.imsi.Some? && now.traced ==>
                      c.pending == [] && c.cut <= |c.built| && c.emitted == c.built[c.cut..])
                && (c.imsi.None? || now.traced ==>
                      && c.built == old(conns[k].built) + list && old(conns[k].emitted) <= c.emitted
                      && c.drops == old(conns[k].drops)
                      && c.cut == old(conns[k].cut) + (if lost > 0 then lost else 0))
                && (lost > 0 ==> old(conns[k].emitted) == [])
                && (c.imsi.Some? && !now.traced ==> c.Dropped() && c.drops == old(conns[k].drops) + 1)
    {
      hide Newest;
      NewestSize(conns[k].pending + if any then cr else Waiting(k));
      RxCr(k, any, cr);
      Flush(k, now);
    }

    /** The same, as all connections see it. */
    method Recalled(k: Key, any: bool, cr: CrPkts, ops: seq<Op>, now: Now)
      requires Valid() && k in conns
      modifies `pendingCr, conns[k]
      ensures Valid() && W() == AfterStep(old(W()), Connect(k, any, cr, ops, now))
      ensures Onward(old(conns[k].Past()), conns[k].Past())
    {
      hide Settling, Newest, Onward;
      AlsoSettling(k);
      OthersApart(k);
      ghost var w, t := W(), Trace(conns[k].imsi, conns[k].built);
      Recall(k, any, cr, now);
      OneChanged(w, W(), k, Trace(conns[k].imsi, conns[k].built));
      ghost var list := if any then cr else CrOf(w, k);
      assert t.built + list == t.built + (list + []);
    }

    /** up_l2() and the flush that follows it. */
    method UpL2(k: Key, ops: seq<Op>, now: Now)
      requires Valid()
      modifies this, conns.Values
      ensures Valid() && fresh(conns.Values - old(conns.Values))
      ensures W() == AfterFlush(AfterOps(old(W()), ops), k, now)
      ensures forall c :: c in old(conns.Values) ==> Calm(old(c.Past()), c.Past())
      ensures now.any ==> Waiting(k) == []
      ensures k in conns && IsTraced(now) && conns[k].imsi.Some? ==> conns[k].pending == []
    {
      hide Settling, Onward, Calm;
      DoAll(ops);
      label done:
      AlsoSettling(k);
      Flushed(k, now);
      forall c | c in old(conns.Values)
        ensures Calm(old(c.Past()), c.Past())
      {
        if k in conns && c == conns[k] {
          CalmTwice(old(c.Past()), old@done(c.Past()), c.Past());
        }
      }
    }

    /** N-CONNECT indication for a new connection, which up_l2() may make. */
    method Inbound(k: Key, any: bool, cr: CrPkts, ops: seq<Op>, now: Now)
      requires Valid() && k !in conns
      modifies this, conns.Values
      ensures Valid() && fresh(conns.Values - old(conns.Values))
      ensures W() == AfterStep(old(W()), Connect(k, any, cr, ops, now))
      ensures forall c :: c in old(conns.Values) ==> Calm(old(c.Past()), c.Past())
      ensures now.any ==> Waiting(k) == []
      ensures k in conns && IsTraced(now) && conns[k].imsi.Some? ==> conns[k].pending == []
    {
      hide Settling, Onward, Calm;
      ghost var w := W();
      RxCr(k, any, cr);
      assert W().traces == w.traces;
      UpL2(k, ops, now);
    }

    /** N-DATA indication */
    method Arrived(k: Key, at: Now, pkts: seq<Pkt>, ops: seq<Op>, now: Now)
      requires Valid()
      modifies this, conns.Values
      ensures Valid() && fresh(conns.Values - old(conns.Values))
      ensures W() == AfterStep(old(W()), Arrive(k, at, pkts, ops, now))
      ensures forall c :: c in old(conns.Values) ==> Calm(old(c.Past()), c.Past())
      ensures now.any ==> Waiting(k) == []
      ensures k in conns && IsTraced(now) && conns[k].imsi.Some? ==> conns[k].pending == []
    {
      hide Valid, Onward, Calm;
      Do(Co(k, at, pkts));
      label sent:
      UpL2(k, ops, now);
      forall c | c in old(conns.Values)
        ensures Calm(old(c.Past()), c.Past())
      {
        CalmTwice(old(c.Past()), old@sent(c.Past()), c.Past());
      }
    }

    /** One primitive, or messages of the code's own accord. Only a CR that comes for a connection again can make that
        connection lose packets although its IMSI is known. */
    method Handle(step: Step)
      requires Valid()
      modifies this, conns.Values
      ensures Valid() && fresh(conns.Values - old(conns.Values))
      ensures W() == AfterStep(old(W()), step)
      ensures forall c :: c in old(conns.Values) ==> Onward(old(c.Past()), c.Past())
      ensures forall c :: c in old(conns.Values) && !(step.Connect? && step.k in old(conns) && old(conns)[step.k] == c) ==>
                Calm(old(c.Past()), c.Past())
    {
      hide Valid;
      match step {
        case Connect(k, any, cr, ops, now) =>
          if k in conns {
            Recalled(k, any, cr, ops, now);
          } else {
            Inbound(k, any, cr, ops, now);
          }
        case Arrive(k, at, pkts, ops, now) => Arrived(k, at, pkts, ops, now);
        case Disconnect(k, at, pkts, ops) =>
          AfterFirst(W(), Co(k, at, pkts), ops);
          AfterLast(W(), [Co(k, at, pkts)] + ops, Close(k));
          DoAll([Co(k, at, pkts)] + ops + [Close(k)]);
        case Own(ops) => DoAll(ops);
      }
    }

    method Run(steps: seq<Step>)
      requires Valid()
      modifies this, conns.Values
      ensures Valid() && fresh(conns.Values - old(conns.Values))
      ensures W() == AfterSteps(old(W()), steps)
      ensures forall c :: c in old(conns.Values) ==> Onward(old(c.Past()), c.Past())
    {
      hide Valid, AfterStep;
      for i := 0 to |steps|
        invariant Valid() && fresh(conns.Values - old(conns.Values)) && W() == AfterSteps(old(W()), steps[..i])
        invariant forall c :: c in old(conns.Values) ==> Onward(old(c.Past()), c.Past())
      {
        Handle(steps[i]);
        assert steps[..i + 1][..i] == steps[..i];
      }
      assert steps[..|steps|] == steps;
    }
  }

  /** After any messages on any connections: what was emitted for a connection is an unbroken part of what was built for
      it, in order and once; what is held is the rest, and nothing is held once something was emitted. So the full queue
      loses packets only in front of all that are ever emitted. */
  method Life(steps: seq<Step>) returns (t: Tracer)
    ensures forall k :: k in t.conns ==>
              var c := t.conns[k];
              && c.cut <= |c.built| && c.emitted + c.pending == c.built[c.cut..]
              && (c.emitted == [] || c.pending == []) && |c.pending| <= PENDING_MAX
              && (c.emitted != [] ==> c.imsi.Some?)
    ensures t.W() == AfterSteps(World(map[], None), steps)
  {
    t := new Tracer();
    t.Run(steps);
  }

  /** A connection whose queue is full and whose IMSI is known: sixteen messages of two packets before that, and then one
      of which nothing could be built. */
  method FullQueue(p: Pkt) returns (t: Tracer, k: Key)
    ensures fresh(t) && t.Valid() && k in t.conns && fresh(t.conns[k])
    ensures t.conns[k].imsi.Some? && t.conns[k].cut == 0 && |t.conns[k].pending| == PENDING_MAX
  {
    hide InOrder, Newest;
    t := new Tracer();
    k := Key(0, 0);
    t.NewConn(k);
    var c := t.conns[k];
    for i := 0 to 16
      invariant t.Valid() && t.conns == map[k := c] && fresh(t) && fresh(c) && t.pendingCr == None
      invariant c.imsi == None && c.cut == 0 && |c.pending| == 2 * i
    {
      NewestSize(c.pending + [] + [p, p]);
      t.SccpCo(k, Now(true, None, true), [p, p]);
    }
    t.SccpCo(k, Now(true, Some("1"), true), []);
  }

  /** A CR that comes again for such a connection makes it lose packets although its IMSI was known. */
  method LostThoughKnown(p: Pkt) returns (c: RanConn)
    ensures c.imsi.Some? && c.cut == 2 <= |c.built| && c.emitted == c.built[2..]
  {
    var t, k := FullQueue(p);
    c := t.conns[k];
    t.Recall(k, true, [p, p], Now(true, None, true));
  }
}
