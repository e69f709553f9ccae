/** Duplicate detection on the message type octet (ran_msg.c), section 11.2.3.2 of 3GPP TS 24.007. */
module DuplicateDetection {
  import opened Options
  import opened Decimal
  import opened MscASpec

  type Octet = x: int | 0 <= x < 256

  /** The counter that a discriminator uses, if any. */
  function Bin(p: Pdisc): Option<nat> {
    match p
    case Mm => Some(0)
    case Cc => Some(0)
    case NcSs => Some(0)
    case GroupCc => Some(1)
    case BcastCc => Some(2)
    case Loc => Some(3)
    case _ => None
  }

  /** How many sequence numbers there are; from R99 on the first bin uses two bits. */
  function Modulo(r99: bool, bin: nat): (m: nat)
    ensures m == 2 || m == 4
  {
    if r99 && bin == 0 then 4 else 2
  }

  /** The octet that a sender gives its message number index of a bin; the bits below bit 7, and bit 8 where it is not
      part of the number, are the message's own. */
  predicate Numbered(r99: bool, bin: nat, index: nat, octet: Octet) {
    (octet / 64) % Modulo(r99, bin) == index % Modulo(r99, bin)
  }

  /** n_sd_next[] and the routine that reads and advances it. */
  class Detector {
    const next: array<nat>

    constructor ()
      ensures fresh(next) && next.Length == 4 && next[..] == [0, 0, 0, 0]
    {
      next := new nat[4](_ => 0);
    }

    /** The sequence number and its modulus, zero where there is none. */
    static method DetermineNsd(r99: bool, p: Pdisc, octet: Octet) returns (modulo: nat, nsd: nat)
      ensures Bin(p) == None <==> modulo == 0
      ensures Bin(p).Some? ==> modulo == Modulo(r99, Bin(p).value) && nsd == (octet / 64) % modulo
    {
      modulo, nsd := 0, 0;
      if r99 {
        match p {
          case Mm => modulo, nsd := 4, (octet / 64) % 4;
          case Cc => modulo, nsd := 4, (octet / 64) % 4;
          case NcSs => modulo, nsd := 4, (octet / 64) % 4;
          case GroupCc => modulo, nsd := 2, (octet / 64) % 2;
          case BcastCc => modulo, nsd := 2, (octet / 64) % 2;
          case Loc => modulo, nsd := 2, (octet / 64) % 2;
          case _ =>
        }
      } else {
        match p {
          case Mm => modulo, nsd := 2, (octet / 64) % 2;
          case Cc => modulo, nsd := 2, (octet / 64) % 2;
          case NcSs => modulo, nsd := 2, (octet / 64) % 2;
          case GroupCc => modulo, nsd := 2, (octet / 64) % 2;
          case BcastCc => modulo, nsd := 2, (octet / 64) % 2;
          case Loc => modulo, nsd := 2, (octet / 64) % 2;
          case _ =>
        }
      }
    }

    /** ran_dec_dtap_undup_is_duplicate() */
    method IsDuplicate(r99: bool, p: Pdisc, octet: Octet) returns (duplicate: bool)
      requires next.Length == 4
      modifies next
      ensures duplicate == !Accepts(old(next[..]), r99, p, octet)
      ensures next[..] == After(old(next[..]), r99, p, octet)
    {
      var modulo, nsd := DetermineNsd(r99, p, octet);
      if modulo == 0 {
        return false;
      }
      var bin := Bin(p).value;
      if nsd != next[bin] {
        return true;
      }
      next[bin] := (nsd + 1) % modulo;
      duplicate := false;
    }
  }

  predicate Accepts(next: seq<nat>, r99: bool, p: Pdisc, octet: Octet)
    requires |next| == 4
  {
    match Bin(p)
    case None => true
    case Some(bin) => (octet / 64) % Modulo(r99, bin) == next[bin]
  }

  function After(next: seq<nat>, r99: bool, p: Pdisc, octet: Octet): (r: seq<nat>)
    requires |next| == 4
    ensures |r| == 4
  {
    match Bin(p)
    case None => next
    case Some(bin) =>
      if Accepts(next, r99, p, octet) then next[bin := ((octet / 64) % Modulo(r99, bin) + 1) % Modulo(r99, bin)]
      else next
  }

  /** Discriminators that share one sequence of numbers: mobility management, call control and supplementary services. */
  predicate Together(p: Pdisc, q: Pdisc) {
    p == q || (p in {Mm, Cc, NcSs} && q in {Mm, Cc, NcSs})
  }

  predicate HasNumbers(p: Pdisc) {
    p in {Mm, Cc, NcSs, GroupCc, BcastCc, Loc}
  }

  /** Messages that share a sequence count for one another; all others leave one another alone. */
  lemma CountTogether(next: seq<nat>, r99: bool, p: Pdisc, q: Pdisc, o: Octet)
    requires |next| == 4
    ensures Together(p, q) && HasNumbers(p) ==>
              && Accepts(next, r99, p, o) == Accepts(next, r99, q, o)
              && After(next, r99, p, o) == After(next, r99, q, o)
  {
  }

  lemma CountApart(next: seq<nat>, r99: bool, p: Pdisc, o: Octet, q: Pdisc, o': Octet)
    requires |next| == 4 && (!Together(p, q) || !HasNumbers(p))
    ensures Accepts(After(next, r99, p, o), r99, q, o') == Accepts(next, r99, q, o')
  {
  }

  /** A message is not accepted twice in a row. */
  lemma NotTwice(next: seq<nat>, r99: bool, p: Pdisc, o: Octet)
    requires |next| == 4 && HasNumbers(p) && Accepts(next, r99, p, o)
    ensures !Accepts(After(next, r99, p, o), r99, p, o)
  {
  }

  // ---- A sender, a channel and the receiver ----

  /** A delivery: the octet as received and, for the discriminators that are numbered, which message of its bin it
      is, counted by the sender without wrap-around. */
  datatype Delivery = Delivery(pdisc: Pdisc, octet: Octet, index: nat)

  predicate WellSent(r99: bool, d: Delivery) {
    Bin(d.pdisc).Some? ==> Numbered(r99, Bin(d.pdisc).value, d.index, d.octet)
  }

  /** The receiver's counters after some deliveries. */
  function Counters(r99: bool, ds: seq<Delivery>): (next: seq<nat>)
    ensures |next| == 4
  {
    if ds == [] then [0, 0, 0, 0]
    else After(Counters(r99, ds[..|ds| - 1]), r99, ds[|ds| - 1].pdisc, ds[|ds| - 1].octet)
  }

  /** The indices that the receiver accepted in a bin, in order. */
  function Accepted(r99: bool, ds: seq<Delivery>, bin: nat): seq<nat> {
    if ds == [] then []
    else
      var before, d := ds[..|ds| - 1], ds[|ds| - 1];
      Accepted(r99, before, bin)
        + (if Bin(d.pdisc) == Some(bin) && Accepts(Counters(r99, before), r99, d.pdisc, d.octet) then [d.index] else [])
  }

  lemma NextModulo(count: nat, m: nat)
    requires m == 2 || m == 4
    ensures (count % m + 1) % m == (count + 1) % m
  {
    var q, r := count / m, count % m;
    assert count == m * q + r;
    if r + 1 == m {
      assert m * (q + 1) == m * q + m;
      Remainder(count + 1, m, q + 1, 0);
      Remainder(r + 1, m, 1, 0);
    } else {
      Remainder(count + 1, m, q, r + 1);
      Remainder(r + 1, m, 0, r + 1);
    }
  }

  /** The counter of a bin is the number of messages accepted in it, modulo its size. */
  lemma {:induction false} CounterCounts(r99: bool, ds: seq<Delivery>, bin: nat)
    requires bin < 4
    ensures Counters(r99, ds)[bin] == |Accepted(r99, ds, bin)| % Modulo(r99, bin)
  {
    if ds != [] {
      var before := ds[..|ds| - 1];
      CounterCounts(r99, before, bin);
      NextModulo(|Accepted(r99, before, bin)|, Modulo(r99, bin));
    }
  }

  /** Exactly when a message is accepted: its index and the number of messages accepted before agree modulo the
      counter. A repetition is mistaken for a new message exactly when they agree by chance. */
  lemma AcceptedExactly(r99: bool, before: seq<Delivery>, d: Delivery, bin: nat)
    requires WellSent(r99, d) && Bin(d.pdisc) == Some(bin)
    ensures Accepts(Counters(r99, before), r99, d.pdisc, d.octet) <==>
            d.index % Modulo(r99, bin) == |Accepted(r99, before, bin)| % Modulo(r99, bin)
  {
    CounterCounts(r99, before, bin);
  }

  /** A repetition that comes a full round late is taken for a new message. */
  lemma LateRepetition()
    ensures var ds := [Delivery(Cc, 0, 0), Delivery(Cc, 64, 1), Delivery(Cc, 128, 2), Delivery(Cc, 192, 3),
                       Delivery(Cc, 0, 0)];
            (forall d :: d in ds ==> WellSent(true, d)) && Accepted(true, ds, 0) == [0, 1, 2, 3, 0]
  {
    var a, b, c, d := Delivery(Cc, 0, 0), Delivery(Cc, 64, 1), Delivery(Cc, 128, 2), Delivery(Cc, 192, 3);
    hide Accepted;
    NoneYet();
    InTurn([], a, [], [a], [0]);
    InTurn([a], b, [0], [a, b], [0, 1]);
    InTurn([a, b], c, [0, 1], [a, b, c], [0, 1, 2]);
    InTurn([a, b, c], d, [0, 1, 2], [a, b, c, d], [0, 1, 2, 3]);
    InTurn([a, b, c, d], a, [0, 1, 2, 3], [a, b, c, d, a], [0, 1, 2, 3, 0]);
  }

  lemma NoneYet()
    ensures Accepted(true, [], 0) == []
  {
  }

  lemma InTurn(before: seq<Delivery>, d: Delivery, got: seq<nat>, after: seq<Delivery>, now: seq<nat>)
    requires d.pdisc == Cc && WellSent(true, d) && Accepted(true, before, 0) == got && d.index % 4 == |got| % 4
    requires after == before + [d] && now == got + [d.index]
    ensures Accepted(true, after, 0) == now
  {
    AcceptedExactly(true, before, d, 0);
    assert after[..|before|] == before;
  }

  /** A message without a number is never dropped and changes no counter. */
  lemma UnnumberedPass(r99: bool, before: seq<Delivery>, d: Delivery)
    requires Bin(d.pdisc) == None
    ensures Accepts(Counters(r99, before), r99, d.pdisc, d.octet)
    ensures Counters(r99, before + [d]) == Counters(r99, before)
  {
    assert (before + [d])[..|before|] == before;
  }

  /** A message leaves the counters of all other bins alone. */
  lemma BinsApart(r99: bool, before: seq<Delivery>, d: Delivery, other: nat)
    requires other < 4 && Bin(d.pdisc) != Some(other)
    ensures Counters(r99, before + [d])[other] == Counters(r99, before)[other]
    ensures Accepted(r99, before + [d], other) == Accepted(r99, before, other)
  {
    assert (before + [d])[..|before|] == before;
  }

  /** The channel keeps the order and repeats a message only while the receiver has not gone a full round of sequence
      numbers past it. */
  ghost predicate InOrder(r99: bool, ds: seq<Delivery>) {
    forall i :: 0 <= i < |ds| && Bin(ds[i].pdisc).Some? ==>
      && WellSent(r99, ds[i])
      && var got := |Accepted(r99, ds[..i], Bin(ds[i].pdisc).value)|;
         ds[i].index <= got < ds[i].index + Modulo(r99, Bin(ds[i].pdisc).value)
  }

  lemma InOrderBefore(r99: bool, ds: seq<Delivery>)
    requires InOrder(r99, ds) && ds != []
    ensures InOrder(r99, ds[..|ds| - 1])
  {
    hide Accepted, WellSent;
    var before := ds[..|ds| - 1];
    forall i | 0 <= i < |before|
      ensures before[..i] == ds[..i] && before[i] == ds[i]
    {
    }
  }

  /** Over such a channel the next message of a bin is accepted, and no other. */
  lemma NextAccepted(r99: bool, ds: seq<Delivery>, bin: nat)
    requires bin < 4 && InOrder(r99, ds) && ds != []
    ensures var got, d := Accepted(r99, ds[..|ds| - 1], bin), ds[|ds| - 1];
            && Accepted(r99, ds, bin) == got + (if Bin(d.pdisc) == Some(bin) && d.index == |got| then [d.index] else [])
            && (Bin(d.pdisc) == Some(bin) ==> d.index <= |got|)
  {
    hide Accepts, Counters, Modulo, Numbered;
    var before, d := ds[..|ds| - 1], ds[|ds| - 1];
    if Bin(d.pdisc) == Some(bin) {
      AcceptedExactly(r99, before, d, bin);
      WindowExact(d.index, |Accepted(r99, before, bin)|, Modulo(r99, bin));
    }
  }

  /** Every message of the bin is below the number accepted. */
  ghost predicate AllAccepted(ds: seq<Delivery>, bin: nat, got: nat) {
    forall i :: 0 <= i < |ds| && Bin(ds[i].pdisc) == Some(bin) ==> ds[i].index < got
  }

  lemma OneMoreDelivered(ds: seq<Delivery>, bin: nat, got: seq<nat>, now: seq<nat>)
    requires ds != [] && AllAccepted(ds[..|ds| - 1], bin, |got|)
    requires var d := ds[|ds| - 1];
             && now == got + (if Bin(d.pdisc) == Some(bin) && d.index == |got| then [d.index] else [])
             && (Bin(d.pdisc) == Some(bin) ==> d.index <= |got|)
    ensures AllAccepted(ds, bin, |now|)
  {
    hide Bin;
    forall i | 0 <= i < |ds| && Bin(ds[i].pdisc) == Some(bin)
      ensures ds[i].index < |now|
    {
      if i < |ds| - 1 {
        assert ds[i] == ds[..|ds| - 1][i];
      }
    }
  }

  /** Over such a channel every message of a bin that gets through is accepted once and in order. */
  lemma {:induction false} ExactlyOnce(r99: bool, ds: seq<Delivery>, bin: nat)
    requires bin < 4 && InOrder(r99, ds)
    ensures forall k :: 0 <= k < |Accepted(r99, ds, bin)| ==> Accepted(r99, ds, bin)[k] == k
    ensures AllAccepted(ds, bin, |Accepted(r99, ds, bin)|)
  {
    if ds == [] {
    } else {
      hide Accepted, InOrder, AllAccepted;
      InOrderBefore(r99, ds);
      ExactlyOnce(r99, ds[..|ds| - 1], bin);
      NextAccepted(r99, ds, bin);
      OneMoreDelivered(ds, bin, Accepted(r99, ds[..|ds| - 1], bin), Accepted(r99, ds, bin));
    }
  }

  /** Within a window as wide as the counter, agreeing modulo the counter is being equal. */
  lemma WindowExact(index: nat, got: nat, m: nat)
    requires (m == 2 || m == 4) && index <= got < index + m
    ensures index % m == got % m <==> index == got
  {
    if m == 2 {
      assert index % 2 == got % 2 <==> index == got;
    } else {
      assert index % 4 == got % 4 <==> index == got;
    }
  }
}
