/** Which connection belongs to which subscriber: the two-way link that msub.c keeps between struct msub and
    struct vlr_subscr. */
module Msub {

  datatype Rat = Unknown | GeranA | UtranIu | EutranSgs

  datatype Layer3 = LocationUpdate | OtherLayer3

  /** The MSC-A role of a connection, as far as it matters here. */
  datatype RoleA = NoRole | Role(inRelease: bool, ran: Rat, layer3: Layer3)

  datatype Result = Done | NotSupported | Invalid

  /** struct vlr_subscr */
  class Subscriber {
    var conn: Connection?
    var tokens: nat        // uses named VSUB_USE_MSUB
    var attachedVia: Rat

    constructor ()
      ensures conn == null && tokens == 0
    {
      conn, tokens, attachedVia := null, 0, Unknown;
    }
  }

  /** struct msub */
  class Connection {
    var vsub: Subscriber?
    var role: RoleA
    const ran: Rat

    constructor (role: RoleA, ran: Rat)
      ensures vsub == null && this.role == role && this.ran == ran
    {
      vsub, this.role, this.ran := null, role, ran;
    }
  }

  /** Whether a connection may take a subscriber over from another. */
  predicate MayReplace(mine: RoleA, other: RoleA) {
    || (other.Role? && (other.inRelease || other.ran == EutranSgs || other.ran == UtranIu))
    || (mine.Role? && mine.layer3 == LocationUpdate)
  }

  /** All connections of msub_list and all subscribers of the VLR. */
  class Registry {
    var conns: set<Connection>
    var subs: set<Subscriber>

    constructor ()
      ensures conns == {} && subs == {} && Valid()
    {
      conns, subs := {}, {};
    }

    /** A connection has a subscriber exactly when the subscriber has that connection, and then, and only then, the
        subscriber is in use by it, once. */
    ghost predicate Valid()
      reads this, conns, subs
    {
      && (forall m :: m in conns && m.vsub != null ==> m.vsub in subs && m.vsub.conn == m)
      && (forall v :: v in subs && v.conn != null ==> v.conn in conns && v.conn.vsub == v)
      && (forall v :: v in subs ==> v.tokens == if v.conn != null then 1 else 0)
    }

    /** msub_alloc() */
    method Add(role: RoleA, ran: Rat) returns (m: Connection)
      requires Valid()
      modifies `conns
      ensures Valid() && fresh(m) && conns == old(conns) + {m} && m.vsub == null
    {
      m := new Connection(role, ran);
      conns := conns + {m};
    }

    method AddSubscriber() returns (v: Subscriber)
      requires Valid()
      modifies `subs
      ensures Valid() && fresh(v) && subs == old(subs) + {v} && v.conn == null
    {
      v := new Subscriber();
      subs := subs + {v};
    }

    method Detach(m: Connection)
      requires Valid() && m in conns && m.vsub != null
      modifies m, m.vsub
      ensures Valid() && m.vsub == null && old(m.vsub).conn == null
      ensures m.role == old(m.role)
    {
      var v := m.vsub;
      if v.conn == m {
        v.conn := null;
      }
      v.tokens := v.tokens - 1;
      m.vsub := null;
    }

    method Attach(m: Connection, v: Subscriber)
      requires Valid() && m in conns && v in subs && m.vsub == null && v.conn == null
      modifies m, v
      ensures Valid() && m.vsub == v && m.role == old(m.role) && v.attachedVia == m.ran
    {
      v.tokens := v.tokens + 1;
      m.vsub := v;
      v.conn := m;
      v.attachedVia := m.ran;
    }

    /** The connection that had the subscriber loses it and is released, or ended if it has no MSC-A role. */
    method Evict(other: Connection)
      requires Valid() && other in conns && other.vsub != null
      modifies this`conns, other, other.vsub
      ensures Valid() && other.vsub == null && old(other.vsub).conn == null
      ensures conns == if other.role == NoRole then old(conns) - {other} else old(conns)
      ensures other.role == if old(other.role).Role? then old(other.role).(inRelease := true) else NoRole
    {
      Detach(other);
      if other.role.Role? {
        if !other.role.inRelease {
          other.role := other.role.(inRelease := true);
        }
      } else {
        conns := conns - {other};
      }
    }

    /** msub_set_vsub() */
    method SetVsub(m: Connection, v: Subscriber?) returns (r: Result)
      requires Valid() && m in conns && (v != null ==> v in subs)
      modifies this`conns, conns, subs
      ensures Valid()
      ensures r == NotSupported <==> old(m.vsub) != v && old(m.vsub) != null && v != null
      ensures r == Invalid <==>
        old(m.vsub) == null && v != null && old(v.conn) != null && !MayReplace(old(m.role), old(v.conn.role))
      ensures r != Done ==> conns == old(conns) && unchanged(old(conns)) && unchanged(subs)
      ensures r == Done ==> m.vsub == v && m in conns
      ensures r == Done ==> forall o :: o in old(conns) && o != m ==>
        o.vsub == if v != null && old(o.vsub) == v && old(m.vsub) != v then null else old(o.vsub)
      ensures r == Done ==> forall w :: w in subs && w != v && w != old(m.vsub) ==> unchanged(w)
      ensures r == Done && v != null && old(m.vsub) != v && old(v.conn) != null ==>
        var o := old(v.conn);
        && conns == (if old(o.role) == NoRole then old(conns) - {o} else old(conns))
        && o.role == (if old(o.role).Role? then old(o.role).(inRelease := true) else NoRole)
      ensures r == Done ==> forall o :: o in old(conns) && !(v != null && old(m.vsub) != v && o == old(v.conn)) ==>
        o.role == old(o.role)
      ensures r == Done && !(v != null && old(m.vsub) != v && old(v.conn) != null) ==> conns == old(conns)
    {
      if m.vsub == v {
        return Done;
      }
      if m.vsub != null && v != null {
        return NotSupported;
      }
      if v != null && v.conn != null {
        if !MayReplace(m.role, v.conn.role) {
          return Invalid;
        }
        Evict(v.conn);
      }
      if m.vsub != null {
        Detach(m);
      }
      if v != null {
        Attach(m, v);
      }
      r := Done;
    }

    /** Whatever is associated with whatever, in any order: the link stays two-way. */
    method Run(calls: seq<(Connection, Subscriber?)>)
      requires Valid() && forall c :: c in calls && c.1 != null ==> c.1 in subs
      modifies this`conns, conns, subs
      ensures Valid() && conns <= old(conns)
    {
      for i := 0 to |calls|
        invariant Valid() && conns <= old(conns) && subs == old(subs)
      {
        if calls[i].0 in conns {
          var _ := SetVsub(calls[i].0, calls[i].1);
        }
      }
    }

    /** msub_for_vsub() finds the one connection of a subscriber, if there is one. */
    method ForVsub(v: Subscriber?) returns (m: Connection?)
      requires Valid() && (v != null ==> v in subs)
      ensures m != null <==> v != null && exists o :: o in conns && o.vsub == v
      ensures m != null ==> m in conns && m.vsub == v && forall o :: o in conns && o.vsub == v ==> o == m
    {
      m := if v == null then null else v.conn;
    }

    /** msub_fsm_cleanup() */
    method Cleanup(m: Connection)
      requires Valid() && m in conns
      modifies this`conns, conns, subs
      ensures Valid() && conns == old(conns) - {m} && m.vsub == null
      ensures forall v :: v in subs ==> v.conn == if old(v.conn) == m then null else old(v.conn)
    {
      var r := SetVsub(m, null);
      conns := conns - {m};
    }
  }
}
