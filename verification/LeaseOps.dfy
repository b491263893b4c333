/**
 Every locked section of the pool is a sequence of six small changes. This module
 names them, says when the code may make each one, and shows that every operation
 of `LeaseModel` is such a sequence. What holds after every change then holds after
 every section, whatever the sections are.
 */
module LeaseOps {
  import opened Wrappers
  import opened LeaseModel

  datatype Op =
    | Refuse                                  // a send that found the queue full
    | FreeLease(key: Key)
    | EndProbation(addr: Addr)
    | Lease(key: Key, ip: Addr, row: Row)
    | Prolong(key: Key, row: Row)
    | Hold(key: Key, until: Time)

  /** On whose behalf a section acts: for nobody, or for a client that asks for its binding or yields it. */
  datatype Speaker = Nobody | Asks(key: Key) | Yields(key: Key)

  /** No probation ends before this one. */
  ghost predicate Earliest(declined: map<Addr, Time>, a: Addr)
    requires a in declined
  {
    forall b :: b in declined ==> declined[a] <= declined[b]
  }

  /**
   Only its own client's IA leases, renews or gives up a binding; everything else may
   only be touched once it has lapsed. A renewal never shortens. A probation ends when
   its time has come, or early as the earliest there is.
   */
  ghost predicate Legal(c: Config, p: Pool, op: Op, mine: Speaker, t: Time) {
    match op
    case Refuse => true
    case FreeLease(k) => k in p.table && (mine == Yields(k) || Expired(p.table[k], t))
    case EndProbation(a) => a in p.declined && (p.declined[a] <= t || Earliest(p.declined, a))
    case Lease(k, ip, row) =>
      && mine == Asks(k) && k !in p.table
      && InPool(c, ip) && ip !in p.taken
      && (c.maxLeases != 0 ==> |p.table| < c.maxLeases)
    case Prolong(k, row) => mine == Asks(k) && k in p.table && p.table[k].row.expires <= row.expires
    case Hold(k, until) => mine == Yields(k) && k in p.table && |p.declined| < c.declineMax
  }

  function Do(p: Pool, op: Op): Pool {
    match op
    case Refuse => Refused(p)
    case FreeLease(k) =>
      if k in p.table then
        var ip := p.table[k].ip;
        Queued(p, Remove(k, ip), Nothing).(table := p.table - {k}, taken := p.taken - {ip})
      else p
    case EndProbation(a) => p.(taken := p.taken - {a}, declined := p.declined - {a})
    case Lease(k, ip, row) => Leased(p, k, ip, row)
    case Prolong(k, row) => if k in p.table then Renewed(p, k, row) else p
    case Hold(k, until) =>
      if k in p.table then
        var ip := p.table[k].ip;
        Queued(p, Remove(k, ip), Nothing).(table := p.table - {k}, declined := p.declined[ip := until])
      else p
  }

  ghost function DoAll(p: Pool, ops: seq<Op>): Pool {
    if ops == [] then p else Do(DoAll(p, ops[..|ops| - 1]), ops[|ops| - 1])
  }

  ghost predicate LegalAll(c: Config, p: Pool, ops: seq<Op>, mine: Speaker, t: Time) {
    ops != [] ==>
      && LegalAll(c, p, ops[..|ops| - 1], mine, t)
      && Legal(c, DoAll(p, ops[..|ops| - 1]), ops[|ops| - 1], mine, t)
  }

  // ----- the partition ---------------------------------------------------------------

  ghost function LeasedAddrs(p: Pool): set<Addr> {
    set k | k in p.table :: p.table[k].ip
  }

  /**
   The allocator's bits are exactly the leased and the quarantined addresses, the
   two do not overlap, and no two clients share an address.
   */
  ghost predicate Partition(c: Config, p: Pool) {
    && p.taken == LeasedAddrs(p) + p.declined.Keys
    && LeasedAddrs(p) !! p.declined.Keys
    && (forall k, j :: k in p.table && j in p.table && k != j ==> p.table[k].ip != p.table[j].ip)
    && (forall a :: a in p.taken ==> InPool(c, a))
    && (forall k :: k in p.table ==> p.table[k].id < p.ids)
  }

  lemma LeasedHas(p: Pool, k: Key)
    requires k in p.table
    ensures p.table[k].ip in LeasedAddrs(p)
  {
  }

  /** Taking a binding out of the table takes exactly its address out of the leased set. */
  lemma LeasedWithout(c: Config, p: Pool, k: Key, q: Pool)
    requires Partition(c, p) && k in p.table && q.table == p.table - {k}
    ensures LeasedAddrs(q) == LeasedAddrs(p) - {p.table[k].ip}
  {
    forall a | a in LeasedAddrs(p) - {p.table[k].ip} ensures a in LeasedAddrs(q) {
      var j :| j in p.table && p.table[j].ip == a;
      assert j in q.table;
    }
  }

  lemma LeasedWith(p: Pool, k: Key, r: Record, q: Pool)
    requires q.table == p.table[k := r]
    requires k in p.table ==> p.table[k].ip == r.ip
    ensures LeasedAddrs(q) == LeasedAddrs(p) + {r.ip}
  {
    assert k in q.table;
    forall a | a in LeasedAddrs(p) ensures a in LeasedAddrs(q) {
      var j :| j in p.table && p.table[j].ip == a;
      assert j in q.table && q.table[j].ip == a;
    }
  }

  lemma FreeKeepsPartition(c: Config, p: Pool, k: Key)
    requires Partition(c, p) && k in p.table
    ensures Partition(c, Do(p, FreeLease(k)))
  {
    LeasedHas(p, k);
    LeasedWithout(c, p, k, Do(p, FreeLease(k)));
  }

  lemma LeaseKeepsPartition(c: Config, p: Pool, k: Key, ip: Addr, row: Row)
    requires Partition(c, p) && k !in p.table && InPool(c, ip) && ip !in p.taken
    ensures Partition(c, Do(p, Lease(k, ip, row)))
  {
    var q := Do(p, Lease(k, ip, row));
    LeasedWith(p, k, Record(p.ids, ip, row), q);
    forall j | j in p.table ensures p.table[j].ip != ip {
      LeasedHas(p, j);
    }
  }

  lemma ProlongKeepsPartition(c: Config, p: Pool, k: Key, row: Row)
    requires Partition(c, p) && k in p.table
    ensures Partition(c, Do(p, Prolong(k, row)))
  {
    LeasedHas(p, k);
    LeasedWith(p, k, p.table[k].(row := row), Do(p, Prolong(k, row)));
  }

  lemma HoldKeepsPartition(c: Config, p: Pool, k: Key, until: Time)
    requires Partition(c, p) && k in p.table
    ensures Partition(c, Do(p, Hold(k, until)))
  {
    LeasedHas(p, k);
    LeasedWithout(c, p, k, Do(p, Hold(k, until)));
  }

  lemma EndProbationKeepsPartition(c: Config, p: Pool, a: Addr)
    requires Partition(c, p) && a in p.declined
    ensures Partition(c, Do(p, EndProbation(a)))
  {
    assert LeasedAddrs(Do(p, EndProbation(a))) == LeasedAddrs(p);
  }

  lemma DoKeepsPartition(c: Config, p: Pool, op: Op, mine: Speaker, t: Time)
    requires Partition(c, p) && Legal(c, p, op, mine, t)
    ensures Partition(c, Do(p, op))
  {
    match op
    case Refuse => assert LeasedAddrs(Do(p, op)) == LeasedAddrs(p);
    case FreeLease(k) => FreeKeepsPartition(c, p, k);
    case EndProbation(a) => EndProbationKeepsPartition(c, p, a);
    case Lease(k, ip, row) => LeaseKeepsPartition(c, p, k, ip, row);
    case Prolong(k, row) => ProlongKeepsPartition(c, p, k, row);
    case Hold(k, until) => HoldKeepsPartition(c, p, k, until);
  }

  lemma {:induction false} DoAllKeepsPartition(c: Config, p: Pool, ops: seq<Op>, mine: Speaker, t: Time)
    requires Partition(c, p) && LegalAll(c, p, ops, mine, t)
    ensures Partition(c, DoAll(p, ops))
  {
    if ops != [] {
      DoAllKeepsPartition(c, p, ops[..|ops| - 1], mine, t);
      DoKeepsPartition(c, DoAll(p, ops[..|ops| - 1]), ops[|ops| - 1], mine, t);
    }
  }

  // ----- bounds ------------------------------------------------------------------------

  /** decline-max bounds the quarantine; max-leases and the start-up size the table. */
  ghost predicate Bounded(c: Config, p: Pool, started: nat) {
    && |p.declined| <= c.declineMax
    && (c.maxLeases != 0 ==> |p.table| <= c.maxLeases || |p.table| <= started)
  }

  lemma FewerKeys<K, V>(m: map<K, V>, k: K)
    ensures k in m ==> |m - {k}| == |m| - 1
    ensures k !in m ==> m - {k} == m
  {
    if k in m {
      assert (m - {k}).Keys == m.Keys - {k};
    }
  }

  lemma MoreKeys<K, V>(m: map<K, V>, k: K, v: V)
    ensures |m[k := v]| == if k in m then |m| else |m| + 1
  {
    assert m[k := v].Keys == m.Keys + {k};
    if k in m {
      assert m.Keys + {k} == m.Keys;
    }
  }

  lemma DoKeepsBounds(c: Config, p: Pool, op: Op, mine: Speaker, t: Time, started: nat)
    requires Partition(c, p) && Legal(c, p, op, mine, t) && Bounded(c, p, started)
    ensures Bounded(c, Do(p, op), started)
  {
    match op
    case Refuse =>
    case FreeLease(k) => FewerKeys(p.table, k);
    case EndProbation(a) => FewerKeys(p.declined, a);
    case Lease(k, ip, row) => MoreKeys(p.table, k, Record(p.ids, ip, row));
    case Prolong(k, row) => MoreKeys(p.table, k, p.table[k].(row := row));
    case Hold(k, until) =>
      FewerKeys(p.table, k);
      MoreKeys(p.declined, p.table[k].ip, until);
  }

  lemma {:induction false} DoAllKeepsBounds(
      c: Config, p: Pool, ops: seq<Op>, mine: Speaker, t: Time, started: nat)
    requires Partition(c, p) && LegalAll(c, p, ops, mine, t) && Bounded(c, p, started)
    ensures Bounded(c, DoAll(p, ops), started)
  {
    if ops != [] {
      var init := ops[..|ops| - 1];
      DoAllKeepsPartition(c, p, init, mine, t);
      DoAllKeepsBounds(c, p, init, mine, t, started);
      DoKeepsBounds(c, DoAll(p, init), ops[|ops| - 1], mine, t, started);
    }
  }

  // ----- composing traces ----------------------------------------------------------------

  lemma {:induction false} Compose(c: Config, p: Pool, a: seq<Op>, b: seq<Op>, mine: Speaker, t: Time)
    requires LegalAll(c, p, a, mine, t) && LegalAll(c, DoAll(p, a), b, mine, t)
    ensures LegalAll(c, p, a + b, mine, t)
    ensures DoAll(p, a + b) == DoAll(DoAll(p, a), b)
  {
    hide Legal, Do;
    if b == [] {
      assert a + b == a;
    } else {
      var init := b[..|b| - 1];
      Compose(c, p, a, init, mine, t);
      assert (a + b)[..|a + b| - 1] == a + init;
    }
  }

  ghost predicate Trace(c: Config, p: Pool, ops: seq<Op>, q: Pool, mine: Speaker, t: Time) {
    LegalAll(c, p, ops, mine, t) && DoAll(p, ops) == q
  }

  lemma One(c: Config, p: Pool, op: Op, mine: Speaker, t: Time)
    requires Legal(c, p, op, mine, t)
    ensures Trace(c, p, [op], Do(p, op), mine, t)
  {
    assert [op][..0] == [];
    assert DoAll(p, []) == p;
    assert LegalAll(c, p, [], mine, t);
  }

  lemma Then(c: Config, p: Pool, a: seq<Op>, q: Pool, b: seq<Op>, r: Pool, mine: Speaker, t: Time)
    requires Trace(c, p, a, q, mine, t) && Trace(c, q, b, r, mine, t)
    ensures Trace(c, p, a + b, r, mine, t)
  {
    Compose(c, p, a, b, mine, t);
  }

  /** A trace in which each change is legal for one of several speakers. */
  ghost predicate LegalAmong(c: Config, p: Pool, ops: seq<Op>, all: set<Speaker>, t: Time) {
    ops != [] ==>
      && LegalAmong(c, p, ops[..|ops| - 1], all, t)
      && exists m :: m in all && Legal(c, DoAll(p, ops[..|ops| - 1]), ops[|ops| - 1], m, t)
  }

  lemma {:induction false} AmongThen(
      c: Config, p: Pool, a: seq<Op>, all: set<Speaker>, b: seq<Op>, m: Speaker, more: set<Speaker>, t: Time)
    requires LegalAmong(c, p, a, all, t) && LegalAll(c, DoAll(p, a), b, m, t) && all <= more && m in more
    ensures LegalAmong(c, p, a + b, more, t)
    ensures DoAll(p, a + b) == DoAll(DoAll(p, a), b)
    decreases |a| + |b|
  {
    hide Legal, Do;
    if b != [] {
      var init := b[..|b| - 1];
      AmongThen(c, p, a, all, init, m, more, t);
      assert (a + b)[..|a + b| - 1] == a + init;
    } else {
      assert a + b == a;
      if a != [] {
        AmongThen(c, p, a[..|a| - 1], all, [], m, more, t);
        assert a[..|a| - 1] + [] == a[..|a| - 1];
      }
    }
  }

  lemma {:induction false} AmongKeepsPartition(c: Config, p: Pool, ops: seq<Op>, all: set<Speaker>, t: Time)
    requires Partition(c, p) && LegalAmong(c, p, ops, all, t)
    ensures Partition(c, DoAll(p, ops))
  {
    hide Partition, Legal, Do;
    if ops != [] {
      var p', op := DoAll(p, ops[..|ops| - 1]), ops[|ops| - 1];
      AmongKeepsPartition(c, p, ops[..|ops| - 1], all, t);
      var m :| m in all && Legal(c, p', op, m, t);
      DoKeepsPartition(c, p', op, m, t);
    }
  }

  predicate Storing(op: Op) {
    op.Lease? || op.Prolong?
  }

  /** A renewal is only ever the first row a client's IA stores. */
  ghost predicate StoresOnce(ops: seq<Op>) {
    forall i, j :: 0 <= i < j < |ops| && ops[j].Prolong? ==> !Storing(ops[i])
  }

  lemma {:induction false} NobodyStores(c: Config, p: Pool, ops: seq<Op>, t: Time)
    requires LegalAll(c, p, ops, Nobody, t)
    ensures forall i :: 0 <= i < |ops| ==> !Storing(ops[i])
  {
    if ops != [] {
      NobodyStores(c, p, ops[..|ops| - 1], t);
    }
  }

  // ----- every operation is a trace --------------------------------------------------------

  lemma ReleaseTrace(c: Config, p: Pool, k: Key, mine: Speaker, t: Time) returns (ops: seq<Op>)
    requires Partition(c, p) && k in p.table && (mine == Yields(k) || Expired(p.table[k], t))
    ensures Trace(c, p, ops, ReleaseLease(p, k).0, mine, t)
    ensures ReleaseLease(p, k).1 == HasRoom(p)
    ensures |ops| == 1 && !Storing(ops[0])
  {
    LeasedHas(p, k);
    ops := [if HasRoom(p) then FreeLease(k) else Refuse];
    One(c, p, ops[0], mine, t);
  }

  lemma {:induction false} SweepExpiredTrace(c: Config, p: Pool, order: seq<Key>, at: Time, mine: Speaker, t: Time)
    returns (ops: seq<Op>)
    requires Partition(c, p) && at <= t
    ensures Trace(c, p, ops, SweepExpired(p, order, at).0, mine, t)
    decreases |order|
  {
    ops := [];
    if order != [] {
      var k := order[|order| - 1];
      ops := SweepExpiredTrace(c, p, order[..|order| - 1], at, mine, t);
      var q := SweepExpired(p, order[..|order| - 1], at).0;
      if k in q.table && Expired(q.table[k], at) {
        DoAllKeepsPartition(c, p, ops, mine, t);
        var more := ReleaseTrace(c, q, k, mine, t);
        Then(c, p, ops, q, more, ReleaseLease(q, k).0, mine, t);
        ops := ops + more;
      }
    }
  }

  lemma FreeDeclinedTrace(c: Config, p: Pool, a: Addr, mine: Speaker, t: Time) returns (ops: seq<Op>)
    requires Partition(c, p) && a in p.declined && (p.declined[a] <= t || Earliest(p.declined, a))
    ensures Trace(c, p, ops, FreeDeclined(c, p, a).0, mine, t)
    ensures FreeDeclined(c, p, a).1
  {
    ops := [EndProbation(a)];
    One(c, p, ops[0], mine, t);
  }

  lemma {:induction false} SweepDeclinedTrace(c: Config, p: Pool, order: seq<Addr>, at: Time, mine: Speaker, t: Time)
    returns (ops: seq<Op>)
    requires Partition(c, p) && at <= t
    ensures Trace(c, p, ops, SweepDeclined(c, p, order, at).0, mine, t)
    decreases |order|
  {
    ops := [];
    if order != [] {
      var a := order[|order| - 1];
      ops := SweepDeclinedTrace(c, p, order[..|order| - 1], at, mine, t);
      var q := SweepDeclined(c, p, order[..|order| - 1], at).0;
      if a in q.declined && q.declined[a] <= at {
        DoAllKeepsPartition(c, p, ops, mine, t);
        var more := FreeDeclinedTrace(c, q, a, mine, t);
        Then(c, p, ops, q, more, FreeDeclined(c, q, a).0, mine, t);
        ops := ops + more;
      }
    }
  }

  lemma ReclaimTrace(c: Config, p: Pool, keys: seq<Key>, addrs: seq<Addr>, at: Time, mine: Speaker, t: Time)
    returns (ops: seq<Op>)
    requires Partition(c, p) && at <= t
    ensures Trace(c, p, ops, Reclaim(c, p, keys, addrs, at).0, mine, t)
  {
    ops := SweepExpiredTrace(c, p, keys, at, mine, t);
    DoAllKeepsPartition(c, p, ops, mine, t);
    var q := SweepExpired(p, keys, at).0;
    var more := SweepDeclinedTrace(c, q, addrs, at, mine, t);
    Then(c, p, ops, q, more, SweepDeclined(c, q, addrs, at).0, mine, t);
    ops := ops + more;
  }

  /** A sweep only takes entries out of the quarantine. */
  lemma {:induction false} DeclinedShrinks(c: Config, p: Pool, order: seq<Addr>, t: Time)
    ensures var q := SweepDeclined(c, p, order, t).0;
      q.declined.Keys <= p.declined.Keys && forall a :: a in q.declined ==> q.declined[a] == p.declined[a]
  {
    if order != [] {
      DeclinedShrinks(c, p, order[..|order| - 1], t);
    }
  }

  lemma {:induction false} SweepKeepsDeclined(p: Pool, order: seq<Key>, t: Time)
    ensures SweepExpired(p, order, t).0.declined == p.declined
  {
    if order != [] {
      SweepKeepsDeclined(p, order[..|order| - 1], t);
    }
  }

  lemma ReclaimShrinks(c: Config, p: Pool, keys: seq<Key>, addrs: seq<Addr>, t: Time)
    ensures var q := Reclaim(c, p, keys, addrs, t).0;
      q.declined.Keys <= p.declined.Keys && forall a :: a in q.declined ==> q.declined[a] == p.declined[a]
  {
    hide SweepDeclined, SweepExpired;
    SweepKeepsDeclined(p, keys, t);
    DeclinedShrinks(c, SweepExpired(p, keys, t).0, addrs, t);
  }

  lemma EvictTrace(c: Config, p: Pool, order: seq<Addr>, mine: Speaker, t: Time) returns (ops: seq<Op>)
    requires Partition(c, p) && forall a :: a in p.declined ==> a in order
    ensures Trace(c, p, ops, EvictOldest(c, p, order).0, mine, t)
    ensures EvictOldest(c, p, order).1 == Oldest(p.declined, order).Some?
  {
    ops := [];
    var oldest := Oldest(p.declined, order);
    if oldest.Some? {
      ops := FreeDeclinedTrace(c, p, oldest.value, mine, t);
    }
  }

  lemma AllocateTrace(c: Config, p: Pool, hint: Option<Addr>, env: Env, mine: Speaker, t: Time)
    returns (ops: seq<Op>)
    requires Partition(c, p) && env.later <= t && Walks(p, env)
    ensures Trace(c, p, ops, Allocate(c, p, hint, env).0, mine, t)
    ensures var r := Allocate(c, p, hint, env); r.1.Some? ==> InPool(c, r.1.value) && r.1.value !in r.0.taken
  {
    if AllocatorAllocate(c, p.taken, hint).Some? {
      ops := [];
      return;
    }
    var (q, freed) := Reclaim(c, p, env.poolKeys, env.poolAddrs, env.later);
    ops := ReclaimTrace(c, p, env.poolKeys, env.poolAddrs, env.later, mine, t);
    if freed > 0 && (c.family.V6? || AllocatorAllocate(c, q.taken, hint).Some?) {
      return;
    }
    DoAllKeepsPartition(c, p, ops, mine, t);
    ReclaimShrinks(c, p, env.poolKeys, env.poolAddrs, env.later);
    var more := EvictTrace(c, q, env.evictAddrs, mine, t);
    Then(c, p, ops, q, more, EvictOldest(c, q, env.evictAddrs).0, mine, t);
    ops := ops + more;
  }

  /** No operation on the way to a free address puts a binding into the table. */
  lemma {:induction false} NoNewKeys(c: Config, p: Pool, ops: seq<Op>, t: Time)
    requires LegalAll(c, p, ops, Nobody, t)
    ensures DoAll(p, ops).table.Keys <= p.table.Keys
    ensures |DoAll(p, ops).table| <= |p.table|
  {
    if ops != [] {
      var init := ops[..|ops| - 1];
      NoNewKeys(c, p, init, t);
      var op := ops[|ops| - 1];
      if op.FreeLease? {
        FewerKeys(DoAll(p, init).table, op.key);
      }
    }
  }

  /** A trace of someone acting on nobody's behalf is also legal for a particular client. */
  lemma {:induction false} ActingFor(c: Config, p: Pool, ops: seq<Op>, mine: Speaker, t: Time)
    requires LegalAll(c, p, ops, Nobody, t)
    ensures LegalAll(c, p, ops, mine, t)
  {
    if ops != [] {
      ActingFor(c, p, ops[..|ops| - 1], mine, t);
    }
  }

  lemma LimitTrace(c: Config, p: Pool, now: Time, env: Env, t: Time) returns (ops: seq<Op>)
    requires Partition(c, p) && now <= t
    ensures var r := AtLeaseLimit(c, p, now, env);
      && Trace(c, p, ops, r.0, Nobody, t)
      && r.0.table.Keys <= p.table.Keys && r.0.declined.Keys <= p.declined.Keys
      && (!r.1 && c.maxLeases != 0 ==> |r.0.table| < c.maxLeases)
  {
    ops := [];
    if c.maxLeases != 0 && |p.table| >= c.maxLeases {
      ReclaimShrinks(c, p, env.limitKeys, env.limitAddrs, now);
      ops := ReclaimTrace(c, p, env.limitKeys, env.limitAddrs, now, Nobody, t);
      NoNewKeys(c, p, ops, t);
    }
  }

  /** The last step of allocateLease: a free address either becomes a lease or the write is refused. */
  lemma LastStep(c: Config, p: Pool, ops: seq<Op>, r: Pool, k: Key, ip: Addr, row: Row, t: Time) returns (all: seq<Op>)
    requires Trace(c, p, ops, r, Nobody, t)
    requires k !in r.table && InPool(c, ip) && ip !in r.taken && (c.maxLeases != 0 ==> |r.table| < c.maxLeases)
    ensures Trace(c, p, all, if HasRoom(r) then Leased(r, k, ip, row) else Refused(r), Asks(k), t)
    ensures forall i :: 0 <= i < |all| ==> !all[i].Prolong?
  {
    var last := if HasRoom(r) then Lease(k, ip, row) else Refuse;
    ActingFor(c, p, ops, Asks(k), t);
    NobodyStores(c, p, ops, t);
    One(c, r, last, Asks(k), t);
    Then(c, p, ops, r, [last], Do(r, last), Asks(k), t);
    all := ops + [last];
  }

  lemma AllocateLeaseTrace(
      c: Config, p: Pool, k: Key, hint: Option<Addr>, hostname: string, now: Time, env: Env, t: Time)
    returns (ops: seq<Op>)
    requires Partition(c, p) && k !in p.table && now <= t && env.later <= t && Walks(p, env)
    ensures Trace(c, p, ops, AllocateLease(c, p, k, hint, hostname, now, env).0, Asks(k), t)
    ensures var r := AllocateLease(c, p, k, hint, hostname, now, env);
      r.1 ==> k in r.0.table && r.0.table[k].row.expires == FreshExpiry(c, now)
    ensures forall i :: 0 <= i < |ops| ==> !ops[i].Prolong?
  {
    hide Partition, AtLeaseLimit, Allocate;
    var (q, full) := AtLeaseLimit(c, p, now, env);
    ops := LimitTrace(c, p, now, env, t);
    DoAllKeepsPartition(c, p, ops, Nobody, t);
    if full {
      ActingFor(c, p, ops, Asks(k), t);
      NobodyStores(c, p, ops, t);
      return;
    }
    var (r, ip) := Allocate(c, q, hint, env);
    var more := AllocateTrace(c, q, hint, env, Nobody, t);
    NoNewKeys(c, q, more, t);
    Then(c, p, ops, q, more, r, Nobody, t);
    if ip.None? {
      ops := ops + more;
      ActingFor(c, p, ops, Asks(k), t);
      NobodyStores(c, p, ops, t);
    } else {
      ops := LastStep(c, p, ops + more, r, k, ip.value, Row(FreshExpiry(c, now), hostname), t);
    }
  }

  lemma SecondsPass(now: Time, t: Time)
    requires now <= t
    ensures Unix(now) <= Unix(t)
  {
  }

  lemma SecondsReached(t: Time, expires: int)
    ensures Rounded(t) >= Unix(t)
    ensures expires * SECOND < t ==> expires <= Rounded(t)
    ensures expires * SECOND >= t ==> expires >= Unix(t)
  {
  }

  lemma NoTrace(c: Config, p: Pool, mine: Speaker, t: Time)
    ensures Trace(c, p, [], p, mine, t)
  {
  }

  lemma RenewTrace(c: Config, p: Pool, k: Key, hostname: string, now: Time, t: Time) returns (ops: seq<Op>)
    requires Partition(c, p) && k in p.table
    ensures Trace(c, p, ops, Renew(c, p, k, hostname, now).0, Asks(k), t)
    ensures var r := Renew(c, p, k, hostname, now);
      k in r.0.table && (r.1 ==> r.0.table[k].row.expires >= Unix(now + c.leaseTime))
    ensures |ops| <= 1
  {
    hide Partition, Trace, Rounded, Unix;
    ops := [];
    SecondsReached(now + c.leaseTime, p.table[k].row.expires);
    NoTrace(c, p, Asks(k), t);
    if p.table[k].row.expires * SECOND < now + c.leaseTime {
      ops := [if HasRoom(p) then Prolong(k, Row(Rounded(now + c.leaseTime), hostname)) else Refuse];
      One(c, p, ops[0], Asks(k), t);
    }
  }

  lemma JoinStores(a: seq<Op>, b: seq<Op>)
    requires |a| == 1 && !Storing(a[0])
    requires |b| <= 1 || forall i :: 0 <= i < |b| ==> !b[i].Prolong?
    ensures StoresOnce(a + b)
  {
  }

  lemma ReleasedTrace(c: Config, p: Pool, k: Key, hostname: string, now: Time, env: Env, t: Time)
    returns (ops: seq<Op>)
    requires Partition(c, p) && k in p.table && Expired(p.table[k], now) && HasRoom(p) && now <= t && env.later <= t
    requires Walks(p, env)
    ensures var r := AllocateLease(c, ReleaseLease(p, k).0, k, Some(p.table[k].ip), hostname, now, env);
      && Trace(c, p, ops, r.0, Asks(k), t)
      && (r.1 ==> k in r.0.table && r.0.table[k].row.expires == FreshExpiry(c, now))
    ensures StoresOnce(ops)
  {
    var q := ReleaseLease(p, k).0;
    SecondsPass(now, t);
    var release := ReleaseTrace(c, p, k, Asks(k), t);
    DoAllKeepsPartition(c, p, release, Asks(k), t);
    var more := AllocateLeaseTrace(c, q, k, Some(p.table[k].ip), hostname, now, env, t);
    Then(c, p, release, q, more, AllocateLease(c, q, k, Some(p.table[k].ip), hostname, now, env).0, Asks(k), t);
    JoinStores(release, more);
    ops := release + more;
  }

  lemma RefusedTrace(c: Config, p: Pool, k: Key, hostname: string, now: Time, t: Time) returns (ops: seq<Op>)
    requires Partition(c, p) && k in p.table
    ensures var r := Renew(c, Refused(p), k, hostname, now);
      && Trace(c, p, ops, r.0, Asks(k), t)
      && k in r.0.table && (r.1 ==> r.0.table[k].row.expires >= Unix(now + c.leaseTime))
    ensures StoresOnce(ops)
  {
    One(c, p, Refuse, Asks(k), t);
    DoKeepsPartition(c, p, Refuse, Asks(k), t);
    var more := RenewTrace(c, Refused(p), k, hostname, now, t);
    Then(c, p, [Refuse], Refused(p), more, Renew(c, Refused(p), k, hostname, now).0, Asks(k), t);
    JoinStores([Refuse], more);
    ops := [Refuse] + more;
  }

  lemma FreshIsLong(c: Config, now: Time)
    ensures FreshExpiry(c, now) >= Unix(now + c.leaseTime)
  {
    SecondsReached(now + c.leaseTime, 0);
  }

  lemma LeasedIsIn(c: Config, p: Pool, k: Key)
    requires Partition(c, p) && k in p.table
    ensures p.table[k].ip in p.taken
  {
    LeasedHas(p, k);
  }

  lemma ReallocateTrace(c: Config, p: Pool, k: Key, hostname: string, now: Time, env: Env, t: Time)
    returns (ops: seq<Op>)
    requires Partition(c, p) && k in p.table && Expired(p.table[k], now) && now <= t && env.later <= t && Walks(p, env)
    ensures Trace(c, p, ops, ReallocateExpired(c, p, k, hostname, now, env).0, Asks(k), t)
    ensures var r := ReallocateExpired(c, p, k, hostname, now, env);
      r.1 ==> k in r.0.table && r.0.table[k].row.expires >= Unix(now + c.leaseTime)
    ensures StoresOnce(ops)
  {
    hide Partition, Trace, AllocateLease, Rounded, Unix, FreshExpiry;
    LeasedIsIn(c, p, k);
    FreshIsLong(c, now);
    if HasRoom(p) {
      ops := ReleasedTrace(c, p, k, hostname, now, env, t);
    } else {
      assert Refused(p).(table := p.table[k := p.table[k]]) == Refused(p);
      ops := RefusedTrace(c, p, k, hostname, now, t);
    }
  }

  lemma RenewKnownTrace(c: Config, p: Pool, k: Key, hostname: string, now: Time, env: Env, t: Time)
    returns (ops: seq<Op>)
    requires Partition(c, p) && k in p.table && now <= t && env.later <= t && Walks(p, env)
    ensures Trace(c, p, ops, RenewKnown(c, p, k, hostname, now, env).0, Asks(k), t)
    ensures var r := RenewKnown(c, p, k, hostname, now, env);
      r.1 ==> k in r.0.table && r.0.table[k].row.expires >= Unix(now + c.leaseTime)
    ensures StoresOnce(ops)
  {
    if Expired(p.table[k], now) {
      ops := ReallocateTrace(c, p, k, hostname, now, env, t);
    } else {
      ops := RenewTrace(c, p, k, hostname, now, t);
    }
  }

  /** Making room in a full quarantine takes one eviction. */
  lemma RoomTrace(c: Config, p: Pool, order: seq<Addr>, mine: Speaker, t: Time) returns (ops: seq<Op>)
    requires Partition(c, p) && |p.declined| <= c.declineMax && c.declineMax > 0
    requires forall a :: a in p.declined ==> a in order
    ensures var q := if |p.declined| >= c.declineMax then EvictOldest(c, p, order).0 else p;
      && Trace(c, p, ops, q, mine, t)
      && |q.declined| < c.declineMax && q.table == p.table
  {
    ops := [];
    if |p.declined| >= c.declineMax {
      ops := EvictTrace(c, p, order, mine, t);
      assert p.declined.Keys != {};
      var a :| a in p.declined.Keys;
      assert a in order;
      FewerKeys(p.declined, Oldest(p.declined, order).value);
    }
  }

  /** The declined record gone, its row on the way out. */
  function Declining(p: Pool, k: Key): Pool
    requires k in p.table
  {
    Queued(p, Remove(k, p.table[k].ip), Nothing).(table := p.table - {k})
  }

  lemma EvictCommutes(c: Config, p: Pool, k: Key, order: seq<Addr>)
    requires k in p.table
    ensures var q := EvictOldest(c, p, order).0;
      k in q.table && EvictOldest(c, Declining(p, k), order).0 == Declining(q, k) && q.table == p.table
  {
    hide Oldest;
    var d := Declining(p, k);
    assert d.declined == p.declined && d.taken == p.taken;
  }

  /** Evicting before or after the declined record has gone makes no difference. */
  lemma HoldBackCommutes(c: Config, p: Pool, k: Key, until: Time, order: seq<Addr>)
    requires k in p.table
    ensures var q := if |p.declined| >= c.declineMax then EvictOldest(c, p, order).0 else p;
      HoldBack(c, p, k, until, order) == Do(q, Hold(k, until))
  {
    hide EvictOldest;
    EvictCommutes(c, p, k, order);
  }

  lemma HoldBackTrace(c: Config, p: Pool, k: Key, until: Time, order: seq<Addr>, t: Time) returns (ops: seq<Op>)
    requires Partition(c, p) && k in p.table && |p.declined| <= c.declineMax && c.declineMax > 0
    requires forall a :: a in p.declined ==> a in order
    ensures Trace(c, p, ops, HoldBack(c, p, k, until, order), Yields(k), t)
    ensures StoresOnce(ops)
  {
    var q := if |p.declined| >= c.declineMax then EvictOldest(c, p, order).0 else p;
    ops := RoomTrace(c, p, order, Nobody, t);
    ActingFor(c, p, ops, Yields(k), t);
    NobodyStores(c, p, ops, t);
    One(c, q, Hold(k, until), Yields(k), t);
    Then(c, p, ops, q, [Hold(k, until)], Do(q, Hold(k, until)), Yields(k), t);
    ops := ops + [Hold(k, until)];
    HoldBackCommutes(c, p, k, until, order);
  }

  lemma RefuseTrace(c: Config, p: Pool, k: Key, t: Time)
    ensures Trace(c, p, [Refuse], Refused(p), Yields(k), t) && StoresOnce([Refuse])
  {
    One(c, p, Refuse, Yields(k), t);
  }

  lemma QuarantineTrace(c: Config, p: Pool, k: Key, now: Time, env: Env, t: Time) returns (ops: seq<Op>)
    requires Partition(c, p) && k in p.table && |p.declined| <= c.declineMax
    requires forall a :: a in p.declined ==> a in env.evictAddrs
    ensures Trace(c, p, ops, Quarantine(c, p, k, now, env).0, Yields(k), t)
    ensures StoresOnce(ops)
  {
    hide Partition, Trace, HoldBack, ReleaseLease;
    var q := Quarantine(c, p, k, now, env).0;
    if Straight(c, p) {
      ops := ReleaseTrace(c, p, k, Yields(k), t);
      assert q == ReleaseLease(p, k).0;
    } else if !HasRoom(p) {
      ops := [Refuse];
      RefuseTrace(c, p, k, t);
    } else {
      ops := HoldBackTrace(c, p, k, ProbationEnd(c, now, env), env.evictAddrs, t);
      assert q == HoldBack(c, p, k, ProbationEnd(c, now, env), env.evictAddrs);
    }
  }

  /** A map walk visits every entry: what Go's range promises for the quarantine scan. */
  ghost predicate Walks(p: Pool, env: Env) {
    forall a :: a in p.declined ==> a in env.evictAddrs
  }

  function Voice(kind: Kind, k: Key): Speaker {
    if kind.Bind? || kind.Extend? then Asks(k) else Yields(k)
  }

  lemma AnswerTrace(c: Config, p: Pool, kind: Kind, ia: IA, hostname: string, now: Time, env: Env, t: Time)
    returns (ops: seq<Op>)
    requires Partition(c, p) && |p.declined| <= c.declineMax && now <= t && env.later <= t
    requires Walks(p, env)
    ensures Trace(c, p, ops, AnswerIA(c, p, kind, ia, hostname, now, env).0, Voice(kind, ia.key), t)
    ensures var (q, a) := AnswerIA(c, p, kind, ia, hostname, now, env);
      a.Bound? ==>
        && ia.key in q.table && q.table[ia.key].id == a.id && q.table[ia.key].ip == a.ip
        && q.table[ia.key].row.expires >= a.until
    ensures StoresOnce(ops)
  {
    ops := [];
    var k := ia.key;
    if k in p.table && (kind.Bind? || kind.Extend?) {
      ops := RenewKnownTrace(c, p, k, hostname, now, env, t);
    } else if kind.Bind? {
      var hint := if c.family.V4? || ia.addrs == [] then None else Some(ia.addrs[0]);
      ops := AllocateLeaseTrace(c, p, k, hint, hostname, now, env, t);
    } else if k in p.table && p.table[k].ip in ia.addrs {
      if kind.Release? {
        ops := ReleaseTrace(c, p, k, Yields(k), t);
      } else if kind.Decline? {
        ops := QuarantineTrace(c, p, k, now, env, t);
      }
    }
  }
}
