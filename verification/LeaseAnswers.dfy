/**
 What each message does to the pool, said on its fields: who is leased what, what is
 held back and until when, what is refused and why, and what a sweep gives back. And
 over whole runs: an address on probation is leased to nobody before its time.
 */
module LeaseAnswers {
  import opened Wrappers
  import opened LeaseModel
  import opened LeaseOps
  import opened LeaseSystem
  import opened LeaseExhaustion

  // ----- giving up -----------------------------------------------------------------------------

  /** The client holds an address and the message names it. */
  predicate Named(p: Pool, ia: IA) {
    ia.key in p.table && p.table[ia.key].ip in ia.addrs
  }

  /** The send to the writer finds the queue full: nothing but that is different. */
  predicate OnlyRefused(p: Pool, q: Pool) {
    q == p.(room := q.room)
  }

  /** The client's row is on its way out and its record gone, nobody else's touched. */
  predicate Dropped(p: Pool, q: Pool, k: Key)
    requires k in p.table
  {
    && q.table == p.table - {k} && q.queue == p.queue + [Entry(p.tickets, Remove(k, p.table[k].ip))]
    && q.pending == p.pending + [Pending(p.tickets, Nothing)] && q.tickets == p.tickets + 1 && q.ids == p.ids
  }

  /** A release frees the address, or says that there is no such binding, or that it could not be done. */
  lemma ReleaseExactly(c: Config, p: Pool, ia: IA, hostname: string, now: Time, env: Env)
    requires Partition(c, p)
    ensures var (q, answer) := AnswerIA(c, p, Release, ia, hostname, now, env);
      if !Named(p, ia) then answer == NoBinding && q == p
      else if p.room != [] && !p.room[0] then answer == NotDone && OnlyRefused(p, q)
      else
        && answer == Done && Dropped(p, q, ia.key)
        && q.taken == p.taken - {p.table[ia.key].ip} && q.declined == p.declined
  {
    if ia.key in p.table {
      LeasedHas(p, ia.key);
    }
  }

  /** Whether a declined address is held back rather than freed. */
  predicate Quarantines(c: Config, p: Pool) {
    c.probation != 0 && c.declineMax > 0 && (c.family == V6 || |p.declined| < c.declineMax)
  }

  /** The quarantine with one entry more; if it was full, the earliest entry has made room. */
  ghost predicate Holds(c: Config, p: Pool, q: Pool, ip: Addr, until: Time) {
    if |p.declined| < c.declineMax then q.declined == p.declined[ip := until] && q.taken == p.taken
    else exists a ::
      && a in p.declined && (forall b :: b in p.declined ==> p.declined[a] <= p.declined[b])
      && q.declined == (p.declined - {a})[ip := until] && q.taken == p.taken - {a}
  }

  /**
   A decline takes the address from its client. Where there is a quarantine with room for
   it (or, in V6, one whose earliest entry makes room) the address stays out of the pool
   until the probation is over, counted from the clock reading of its family; otherwise
   it is free at once.
   */
  lemma DeclineExactly(c: Config, p: Pool, ia: IA, hostname: string, now: Time, env: Env)
    requires Partition(c, p) && |p.declined| <= c.declineMax && Walks(p, env)
    ensures var (q, answer) := AnswerIA(c, p, Decline, ia, hostname, now, env);
      if !Named(p, ia) then answer == NoBinding && q == p
      else if p.room != [] && !p.room[0] then answer == NotDone && OnlyRefused(p, q)
      else
        && answer == Done && Dropped(p, q, ia.key)
        && var ip := p.table[ia.key].ip;
           if Quarantines(c, p) then
             && Holds(c, p, q, ip, (if c.family == V4 then env.later else now) + c.probation)
             && ip in q.taken && ip in q.declined
           else q.taken == p.taken - {ip} && q.declined == p.declined
  {
    hide Quarantine, Dropped, Holds, Quarantines, Partition;
    if Named(p, ia) {
      DeclinedIs(c, p, ia.key, now, env);
    }
  }

  lemma DeclinedIs(c: Config, p: Pool, k: Key, now: Time, env: Env)
    requires Partition(c, p) && |p.declined| <= c.declineMax && Walks(p, env) && k in p.table
    ensures var (q, ok) := Quarantine(c, p, k, now, env);
      if p.room != [] && !p.room[0] then !ok && OnlyRefused(p, q)
      else
        && ok && Dropped(p, q, k)
        && var ip := p.table[k].ip;
           if Quarantines(c, p) then
             && Holds(c, p, q, ip, (if c.family == V4 then env.later else now) + c.probation)
             && ip in q.taken && ip in q.declined
           else q.taken == p.taken - {ip} && q.declined == p.declined
  {
    hide HoldBack, Dropped, Holds, ReleaseLease, Partition;
    LeasedIsTaken(c, p, k);
    if !Quarantines(c, p) {
      ReleasedIs(p, k);
    } else if HasRoom(p) {
      HeldBackIs(c, p, k, (if c.family == V4 then env.later else now) + c.probation, env.evictAddrs);
    }
  }

  lemma ReleasedIs(p: Pool, k: Key)
    requires k in p.table && p.table[k].ip in p.taken
    ensures var (q, ok) := ReleaseLease(p, k);
      if HasRoom(p) then ok && Dropped(p, q, k) && q.taken == p.taken - {p.table[k].ip} && q.declined == p.declined
      else !ok && OnlyRefused(p, q)
  {
  }

  lemma HeldBackIs(c: Config, p: Pool, k: Key, until: Time, order: seq<Addr>)
    requires Partition(c, p) && k in p.table && c.declineMax > 0 && |p.declined| <= c.declineMax
    requires forall a :: a in p.declined ==> a in order
    ensures var q, ip := HoldBack(c, p, k, until, order), p.table[k].ip;
      Dropped(p, q, k) && Holds(c, p, q, ip, until) && ip in q.taken && ip in q.declined
  {
    hide EvictOldest, Partition;
    LeasedIsTaken(c, p, k);
    if |p.declined| >= c.declineMax {
      EvictsEarliest(c, p, k, order);
    }
  }

  /** The eviction a full quarantine makes, the declined record being gone already. */
  lemma EvictsEarliest(c: Config, p: Pool, k: Key, order: seq<Addr>)
    requires Partition(c, p) && k in p.table && c.declineMax > 0 && |p.declined| >= c.declineMax
    requires forall a :: a in p.declined ==> a in order
    ensures var d := Queued(p, Remove(k, p.table[k].ip), Nothing).(table := p.table - {k});
      var o := Oldest(p.declined, order);
      && o.Some? && o.value in p.declined && (forall b :: b in p.declined ==> p.declined[o.value] <= p.declined[b])
      && o.value != p.table[k].ip
      && EvictOldest(c, d, order).0 == d.(declined := p.declined - {o.value}, taken := p.taken - {o.value})
  {
    LeasedHas(p, k);
    assert p.declined.Keys != {};
    var a :| a in p.declined.Keys;
    assert a in order;
  }

  // ----- sweeping ----------------------------------------------------------------------------------

  /** The leases that still run at time t, in seconds. */
  function Running(table: map<Key, Record>, t: Time): map<Key, Record> {
    map k | k in table && table[k].row.expires > t / 1_000_000_000 :: table[k]
  }

  function OnProbation(declined: map<Addr, Time>, t: Time): map<Addr, Time> {
    map a | a in declined && declined[a] > t :: declined[a]
  }

  lemma {:induction false} SweepRuns(c: Config, p: Pool, order: seq<Key>, t: Time)
    requires Partition(c, p) && Roomy(p)
    ensures var q := SweepExpired(p, order, t).0;
      forall k :: k in q.table <==> k in p.table && (k in order ==> p.table[k].row.expires > t / 1_000_000_000)
  {
    if order != [] {
      var k, init := order[|order| - 1], order[..|order| - 1];
      SweepRuns(c, p, init, t);
      SweepExpiredExact(c, p, init, t);
      assert forall j :: j in order <==> j in init || j == k;
      var q := SweepExpired(p, init, t).0;
      if k in q.table && Expired(q.table[k], t) {
        ReleaseSwept(c, q, k);
      }
    }
  }

  lemma {:induction false} SweepProbations(c: Config, p: Pool, order: seq<Addr>, t: Time)
    requires Partition(c, p) && Roomy(p)
    ensures var q := SweepDeclined(c, p, order, t).0;
      && q.table == p.table
      && forall a :: a in q.declined <==> a in p.declined && (a in order ==> p.declined[a] > t)
  {
    if order != [] {
      var a, init := order[|order| - 1], order[..|order| - 1];
      SweepProbations(c, p, init, t);
      SweepDeclinedExact(c, p, init, t);
      assert forall b :: b in order <==> b in init || b == a;
    }
  }

  /**
   A full sweep, when every send finds room: the leases left are exactly those that still
   run, the probations left exactly those not over, and the addresses taken exactly theirs.
   */
  lemma SweepGivesBack(c: Config, p: Pool, keys: seq<Key>, addrs: seq<Addr>, t: Time)
    requires Partition(c, p) && Roomy(p)
    requires (forall k :: k in p.table ==> k in keys) && (forall a :: a in p.declined ==> a in addrs)
    ensures var q := Reclaim(c, p, keys, addrs, t).0;
      && q.table == Running(p.table, t) && q.declined == OnProbation(p.declined, t) && Partition(c, q) && Roomy(q)
      && forall a :: a in q.taken <==> a in q.declined || exists k :: k in q.table && q.table[k].ip == a
  {
    hide SweepExpired, SweepDeclined;
    var mid := SweepExpired(p, keys, t).0;
    SweepExpiredExact(c, p, keys, t);
    SweepRuns(c, p, keys, t);
    SweepDeclinedExact(c, mid, addrs, t);
    SweepProbations(c, mid, addrs, t);
  }

  /** The sweeper's step is such a sweep, at its own time, and its caller waits for the rows it queued. */
  lemma SweeperGivesBack(c: Config, s: Sys, a: Action)
    requires Consistent(c, s) && Enabled(c, s, a) && a.Sweep? && (forall i :: 0 <= i < |a.room| ==> a.room[i])
    requires (forall k :: k in s.pool.table ==> k in a.keys) && (forall b :: b in s.pool.declined ==> b in a.addrs)
    ensures var e := Next(c, s, a);
      && e.pool.table == Running(s.pool.table, a.now) && e.pool.declined == OnProbation(s.pool.declined, a.now)
      && e.clock == a.now && e.pool.pending == [] && e.db == s.db
  {
    hide Reclaim, Partition;
    var p := s.pool.(room := a.room);
    RoomIsOutside(c, s.pool, p);
    SweepGivesBack(c, p, a.keys, a.addrs, a.now);
  }

  // ----- asking, unknown ---------------------------------------------------------------------------

  /** A client that only extends is told when there is nothing to extend. */
  lemma NothingToExtend(c: Config, p: Pool, ia: IA, hostname: string, now: Time, env: Env)
    requires ia.key !in p.table
    ensures AnswerIA(c, p, Extend, ia, hostname, now, env) == (p, NoBinding)
  {
  }

  /** The expiry of a new lease: V4 cuts it down to the second, V6 rounds to the nearest, halves up. */
  predicate IsFreshExpiry(f: Family, e: int, end: Time) {
    if f == V4 then e * 1_000_000_000 <= end < (e + 1) * 1_000_000_000
    else e * 1_000_000_000 - 500_000_000 <= end < e * 1_000_000_000 + 500_000_000
  }

  /** A new record for the client on an address, its row queued behind everything. */
  ghost predicate LeasedTo(c: Config, p: Pool, q: Pool, k: Key, ip: Addr, hostname: string, now: Time) {
    && k in q.table && q.table[k].id == p.ids && q.table[k].ip == ip && q.table[k].row.hostname == hostname
    && IsFreshExpiry(c.family, q.table[k].row.expires, now + c.leaseTime)
    && InPool(c, ip) && ip in q.taken
    && q.queue != [] && q.queue[|q.queue| - 1].write == Store(k, ip, q.table[k].row)
    && (forall j :: j in q.table && j != k ==> j in p.table && q.table[j] == p.table[j] && q.table[j].ip != ip)
  }

  lemma FreshExpiryIs(c: Config, now: Time)
    ensures IsFreshExpiry(c.family, FreshExpiry(c, now), now + c.leaseTime)
  {
  }

  /** What a state keeps on the way to a free address. */
  ghost predicate Thinned(p: Pool, q: Pool) {
    && q.ids == p.ids && q.table.Keys <= p.table.Keys && q.declined.Keys <= p.declined.Keys
    && (forall j :: j in q.table ==> q.table[j] == p.table[j])
    && (forall a :: a in q.declined ==> q.declined[a] == p.declined[a])
  }

  lemma ReclaimThins(c: Config, p: Pool, keys: seq<Key>, addrs: seq<Addr>, t: Time)
    requires Partition(c, p) && Roomy(p)
    ensures var q := Reclaim(c, p, keys, addrs, t).0; Thinned(p, q) && Roomy(q) && Partition(c, q)
    ensures var q := Reclaim(c, p, keys, addrs, t).0;
      forall k :: k in p.table && p.table[k].row.expires > t / 1_000_000_000 ==> k in q.table
  {
    hide SweepExpired, SweepDeclined;
    var mid := SweepExpired(p, keys, t).0;
    SweepExpiredExact(c, p, keys, t);
    SweepRuns(c, p, keys, t);
    SweepDeclinedExact(c, mid, addrs, t);
    SweepProbations(c, mid, addrs, t);
    SweepIds(p, keys, t);
    DeclinedIds(c, mid, addrs, t);
  }

  lemma {:induction false} SweepIds(p: Pool, order: seq<Key>, t: Time)
    ensures SweepExpired(p, order, t).0.ids == p.ids
  {
    if order != [] {
      SweepIds(p, order[..|order| - 1], t);
    }
  }

  lemma {:induction false} DeclinedIds(c: Config, p: Pool, order: seq<Addr>, t: Time)
    ensures SweepDeclined(c, p, order, t).0.ids == p.ids
  {
    if order != [] {
      DeclinedIds(c, p, order[..|order| - 1], t);
    }
  }

  /** The limit counts leases that still run: whatever has lapsed is swept before it says no. */
  lemma LimitExactly(c: Config, p: Pool, now: Time, env: Env)
    requires Partition(c, p) && Roomy(p) && forall k :: k in p.table ==> k in env.limitKeys
    ensures var (q, full) := AtLeaseLimit(c, p, now, env);
      && (full <==> c.maxLeases != 0 && |Running(p.table, now)| >= c.maxLeases)
      && Thinned(p, q) && Roomy(q) && Partition(c, q)
      && (forall k :: k in p.table && p.table[k].row.expires > now / 1_000_000_000 ==> k in q.table)
  {
    hide Reclaim, Partition;
    RunningFewer(p.table, now);
    if c.maxLeases != 0 && |p.table| >= c.maxLeases {
      ReclaimThins(c, p, env.limitKeys, env.limitAddrs, now);
      SweptTable(c, p, env.limitKeys, env.limitAddrs, now);
    }
  }

  lemma RunningFewer(table: map<Key, Record>, t: Time)
    ensures |Running(table, t)| <= |table|
  {
    assert Running(table, t).Keys <= table.Keys;
    assert table.Keys == Running(table, t).Keys + (table.Keys - Running(table, t).Keys);
  }

  lemma SweptTable(c: Config, p: Pool, keys: seq<Key>, addrs: seq<Addr>, t: Time)
    requires Partition(c, p) && Roomy(p) && forall k :: k in p.table ==> k in keys
    ensures Reclaim(c, p, keys, addrs, t).0.table == Running(p.table, t)
  {
    hide SweepExpired, SweepDeclined;
    var mid := SweepExpired(p, keys, t).0;
    SweepExpiredExact(c, p, keys, t);
    SweepRuns(c, p, keys, t);
    SweepProbations(c, mid, addrs, t);
  }

  /** Every pool address has a client whose lease still runs. */
  ghost predicate AllHeld(c: Config, table: map<Key, Record>, t: Time) {
    forall a: Addr :: c.lo <= a <= c.hi ==> HeldAt(table, a, t)
  }

  ghost predicate HeldAt(table: map<Key, Record>, a: Addr, t: Time) {
    exists k :: k in table && table[k].ip == a && table[k].row.expires > t / 1_000_000_000
  }

  lemma HeldIs(c: Config, p: Pool, q: Pool, t: Time)
    requires Partition(c, q) && Thinned(p, q)
    requires forall k :: k in p.table && p.table[k].row.expires > t / 1_000_000_000 ==> k in q.table
    ensures AllHeld(c, p.table, t) <==> q.declined.Keys == {} && HeldAtLeast(c, q, t)
  {
    if AllHeld(c, p.table, t) {
      forall a: Addr | InPool(c, a) ensures exists k :: k in q.table && q.table[k].ip == a && !Expired(q.table[k], t) {
        assert HeldAt(p.table, a, t);
        var k :| k in p.table && p.table[k].ip == a && p.table[k].row.expires > t / 1_000_000_000;
        assert k in q.table;
      }
      forall a: Addr | InPool(c, a) ensures a in LeasedAddrs(q) {
        var k :| k in q.table && q.table[k].ip == a && !Expired(q.table[k], t);
        LeasedHas(q, k);
      }
      assert q.declined.Keys <= LeasedAddrs(q);
      assert q.declined.Keys == q.declined.Keys * LeasedAddrs(q);
    }
    if q.declined.Keys == {} && HeldAtLeast(c, q, t) {
      forall a: Addr | c.lo <= a <= c.hi ensures HeldAt(p.table, a, t) {
        assert InPool(c, a);
        var k :| k in q.table && q.table[k].ip == a && !Expired(q.table[k], t);
        assert k in p.table;
      }
    }
  }

  /**
   A client not known yet, when every send finds room: it is refused if and only if as many
   leases run as are allowed, or every address of the pool is held by a lease that runs.
   Otherwise it gets a lease of its own, on an address nobody else has.
   */
  lemma NewClientExactly(c: Config, p: Pool, ia: IA, hostname: string, now: Time, env: Env)
    requires Partition(c, p) && Roomy(p) && ia.key !in p.table && now <= env.later && Walks(p, env)
    requires (forall k :: k in p.table ==> k in env.limitKeys) && (forall k :: k in p.table ==> k in env.poolKeys)
    ensures var (q, answer) := AnswerIA(c, p, Bind, ia, hostname, now, env);
      if (c.maxLeases != 0 && |Running(p.table, now)| >= c.maxLeases) || AllHeld(c, p.table, env.later)
      then answer == NoAddress && q.table.Keys <= p.table.Keys
      else
        && ia.key in q.table && answer == Bound(q.table[ia.key].id, q.table[ia.key].ip, (now + c.leaseTime) / 1_000_000_000)
        && LeasedTo(c, p, q, ia.key, q.table[ia.key].ip, hostname, now)
  {
    hide Partition, AtLeaseLimit, Allocate, LeasedTo, AllHeld, Thinned;
    var hint := if c.family.V4? || ia.addrs == [] then None else Some(ia.addrs[0]);
    var (l, full) := AtLeaseLimit(c, p, now, env);
    LimitExactly(c, p, now, env);
    ThinnedKeys(p, l);
    if !full {
      AllocateExactly(c, l, hint, env);
      LaterRuns(c, p, l, now, env.later);
      HeldIs(c, p, l, env.later);
      ThinnedTwice(c, p, l, Allocate(c, l, hint, env).0);
      if Allocate(c, l, hint, env).1.Some? {
        var r, ip := Allocate(c, l, hint, env).0, Allocate(c, l, hint, env).1.value;
        RoomyHasRoom(r);
        NewLeaseIs(c, p, r, ia.key, ip, hostname, now);
      }
    }
  }

  lemma RoomyHasRoom(p: Pool)
    requires Roomy(p)
    ensures HasRoom(p)
  {
  }

  lemma ThinnedKeys(p: Pool, q: Pool)
    requires Thinned(p, q)
    ensures q.table.Keys <= p.table.Keys && q.declined.Keys <= p.declined.Keys
  {
  }

  lemma LaterRuns(c: Config, p: Pool, q: Pool, now: Time, later: Time)
    requires now <= later && forall k :: k in p.table && p.table[k].row.expires > now / 1_000_000_000 ==> k in q.table
    ensures forall k :: k in p.table && p.table[k].row.expires > later / 1_000_000_000 ==> k in q.table
  {
  }

  lemma ThinnedTwice(c: Config, p: Pool, q: Pool, r: Pool)
    requires Thinned(p, q) && Thinned(q, r)
    ensures Thinned(p, r) && r.table.Keys <= p.table.Keys
  {
  }

  lemma NewLeaseIs(c: Config, p: Pool, r: Pool, k: Key, ip: Addr, hostname: string, now: Time)
    requires Partition(c, r) && Thinned(p, r) && k !in p.table && InPool(c, ip) && ip !in r.taken
    ensures LeasedTo(c, p, Leased(r, k, ip, Row(FreshExpiry(c, now), hostname)), k, ip, hostname, now)
  {
    FreshExpiryIs(c, now);
    forall j | j in r.table ensures r.table[j].ip != ip {
      LeasedHas(r, j);
    }
  }

  /** What allocation leaves, and when it fails. */
  lemma AllocateExactly(c: Config, p: Pool, hint: Option<Addr>, env: Env)
    requires Partition(c, p) && Roomy(p) && Walks(p, env) && forall k :: k in p.table ==> k in env.poolKeys
    ensures var (q, ip) := Allocate(c, p, hint, env);
      && Thinned(p, q) && Roomy(q) && Partition(c, q)
      && (ip.None? <==> p.declined.Keys == {} && HeldAtLeast(c, p, env.later))
      && (ip.Some? ==> InPool(c, ip.value) && ip.value !in q.taken)
  {
    hide Reclaim, Oldest, HeldAtLeast, Partition, NextClear, Thinned;
    var (q, n) := Reclaim(c, p, env.poolKeys, env.poolAddrs, env.later);
    RefusedExactly(c, p, hint, env);
    ReclaimThins(c, p, env.poolKeys, env.poolAddrs, env.later);
    ThinnedSelf(p);
    EvictThins(c, q, env.evictAddrs);
    ThinnedTwice(c, p, q, EvictOldest(c, q, env.evictAddrs).0);
  }

  lemma ThinnedSelf(p: Pool)
    ensures Thinned(p, p)
  {
  }

  /** RefusedExactlyWhenExhausted with keys that may also name clients no longer in the table. */
  lemma RefusedExactly(c: Config, p: Pool, hint: Option<Addr>, env: Env)
    requires Partition(c, p) && Roomy(p) && Walks(p, env) && forall k :: k in p.table ==> k in env.poolKeys
    ensures Allocate(c, p, hint, env).1.None? <==> p.declined.Keys == {} && HeldAtLeast(c, p, env.later)
  {
    hide Reclaim, Partition;
    RefusedExactlyWhenExhausted(c, p, hint, env);
  }

  lemma EvictThins(c: Config, p: Pool, order: seq<Addr>)
    requires Partition(c, p) && Roomy(p)
    ensures var q := EvictOldest(c, p, order).0; Thinned(p, q) && Roomy(q) && Partition(c, q)
  {
    hide Oldest, Partition;
    var o := Oldest(p.declined, order);
    if o.Some? {
      DeclinedIsTaken(c, p, o.value);
      EndProbationKeepsPartition(c, p, o.value);
    }
  }

  lemma DeclinedIsTaken(c: Config, p: Pool, a: Addr)
    requires Partition(c, p) && a in p.declined
    ensures a in p.taken
  {
  }

  /** Which address: the one asked for (V6) if it is free, or else the lowest that is. */
  lemma FirstChoice(c: Config, p: Pool, ia: IA, hostname: string, now: Time, env: Env)
    requires Partition(c, p) && Roomy(p) && ia.key !in p.table && (c.maxLeases == 0 || |p.table| < c.maxLeases)
    requires exists a: Addr :: InPool(c, a) && a !in p.taken
    ensures var (q, answer) := AnswerIA(c, p, Bind, ia, hostname, now, env);
      && ia.key in q.table && q.taken == p.taken + {q.table[ia.key].ip} && q.table == p.table[ia.key := q.table[ia.key]]
      && var ip := q.table[ia.key].ip;
         if c.family == V6 && ia.addrs != [] && InPool(c, ia.addrs[0]) && ia.addrs[0] !in p.taken then ip == ia.addrs[0]
         else ip !in p.taken && InPool(c, ip) && forall a: Addr :: c.lo <= a < ip ==> a in p.taken
  {
    hide Reclaim, Partition;
    RoomyHasRoom(p);
  }

  // ----- asking, known ------------------------------------------------------------------------------

  /**
   A client with a lease, when every send finds room and the table is within its limit. A
   lease that has enough time left is left as it is. One that has not is renewed, to the
   nearest second, under the name the client now gives. One that has lapsed is given
   back and leased again. Either way the client keeps its address.
   */
  lemma KnownClientExactly(c: Config, p: Pool, kind: Kind, ia: IA, hostname: string, now: Time, env: Env)
    requires Partition(c, p) && Roomy(p) && (kind.Bind? || kind.Extend?) && ia.key in p.table
    requires c.maxLeases == 0 || |p.table| <= c.maxLeases
    ensures var (q, answer) := AnswerIA(c, p, kind, ia, hostname, now, env);
      var r := p.table[ia.key];
      && ia.key in q.table && answer == Bound(q.table[ia.key].id, r.ip, (now + c.leaseTime) / 1_000_000_000)
      && q.table[ia.key].ip == r.ip && q.taken == p.taken && q.declined == p.declined
      && (forall j :: j != ia.key ==> (j in q.table <==> j in p.table) && (j in p.table ==> q.table[j] == p.table[j]))
      && (if r.row.expires <= now / 1_000_000_000 then
            && q.table[ia.key].id == p.ids && q.table[ia.key].row.hostname == hostname
            && IsFreshExpiry(c.family, q.table[ia.key].row.expires, now + c.leaseTime)
            && |q.queue| == |p.queue| + 2 && q.queue[|p.queue|].write == Remove(ia.key, r.ip)
            && q.queue[|p.queue| + 1].write == Store(ia.key, r.ip, q.table[ia.key].row)
          else if r.row.expires * 1_000_000_000 >= now + c.leaseTime then q == p
          else
            && q.table[ia.key].id == r.id && q.table[ia.key].row.hostname == hostname
            && IsFreshExpiry(V6, q.table[ia.key].row.expires, now + c.leaseTime)
            && |q.queue| == |p.queue| + 1 && q.queue[|p.queue|].write == Store(ia.key, r.ip, q.table[ia.key].row))
  {
    hide Reclaim, NextClear, Partition, FreshExpiry, ReallocateExpired;
    RoomyHasRoom(p);
    FreshExpiryIs(c, now);
    if Expired(p.table[ia.key], now) {
      LapsedIsLeasedAgain(c, p, ia.key, hostname, now, env);
    }
  }

  lemma LapsedIsLeasedAgain(c: Config, p: Pool, k: Key, hostname: string, now: Time, env: Env)
    requires Partition(c, p) && Roomy(p) && k in p.table && (c.maxLeases == 0 || |p.table| <= c.maxLeases)
    ensures var (q, ok) := ReallocateExpired(c, p, k, hostname, now, env);
      var r := p.table[k];
      && ok && q.table == p.table[k := Record(p.ids, r.ip, Row(FreshExpiry(c, now), hostname))]
      && q.taken == p.taken && q.declined == p.declined
      && q.queue == p.queue + [Entry(p.tickets, Remove(k, r.ip)), Entry(p.tickets + 1, Store(k, r.ip, q.table[k].row))]
  {
    hide Reclaim, NextClear, Partition, FreshExpiry;
    var ip := p.table[k].ip;
    LeasedIsTaken(c, p, k);
    LeasedInPool(c, p, k);
    RoomyHasRoom(p);
    var q := ReleaseLease(p, k).0;
    RoomyHasRoom(q);
    FewerKeys(p.table, k);
    assert AllocatorAllocate(c, q.taken, Some(ip)) == Some(ip);
  }

  /** With the queue full, a lease that needs renewing is left as it was and the client refused. */
  lemma FullQueueRefuses(c: Config, p: Pool, kind: Kind, ia: IA, hostname: string, now: Time, env: Env)
    requires Partition(c, p) && (kind.Bind? || kind.Extend?) && ia.key in p.table
    requires |p.room| >= 2 && !p.room[0] && !p.room[1] && p.table[ia.key].row.expires * 1_000_000_000 < now + c.leaseTime
    ensures var (q, answer) := AnswerIA(c, p, kind, ia, hostname, now, env);
      answer == NoAddress && OnlyRefused(p, q)
  {
    hide AllocateLease, Partition;
    var q := Refused(p);
    assert q.(table := q.table[ia.key := p.table[ia.key]]) == q;
  }

  /**
   A lapsed lease that cannot be given back, the delete finding the queue full: the client
   keeps the address it has, and if the next send finds room the lease is renewed in place.
   */
  lemma StuckLeaseIsRenewed(c: Config, p: Pool, kind: Kind, ia: IA, hostname: string, now: Time, env: Env)
    requires Partition(c, p) && (kind.Bind? || kind.Extend?) && ia.key in p.table && c.leaseTime > 0
    requires |p.room| >= 2 && !p.room[0] && p.room[1] && p.table[ia.key].row.expires <= now / 1_000_000_000
    ensures var (q, answer) := AnswerIA(c, p, kind, ia, hostname, now, env);
      var r := p.table[ia.key];
      && ia.key in q.table && answer == Bound(r.id, r.ip, (now + c.leaseTime) / 1_000_000_000)
      && q.table == p.table[ia.key := q.table[ia.key]] && q.table[ia.key].id == r.id && q.table[ia.key].ip == r.ip
      && q.table[ia.key].row.hostname == hostname && IsFreshExpiry(V6, q.table[ia.key].row.expires, now + c.leaseTime)
      && q.queue == p.queue + [Entry(p.tickets, Store(ia.key, r.ip, q.table[ia.key].row))] && q.taken == p.taken
  {
    hide AllocateLease, Partition;
    var q := Refused(p);
    assert q.(table := q.table[ia.key := p.table[ia.key]]) == q;
    assert q.room[0] == p.room[1];
  }

  // ----- what cannot happen while the bits are right, and is provided for -------------------------------

  /** The allocator will not free the address: V4 keeps the entry and counts nothing, V6 drops it all the same. */
  lemma FreeFails(c: Config, p: Pool, a: Addr)
    requires a !in p.taken
    ensures var (q, ok) := FreeDeclined(c, p, a);
      if c.family == V4 then q == p && !ok else q == p.(declined := p.declined - {a}) && ok
  {
  }

  /** Nor will it free the address of a lease: the row and the record are gone by then, and the caller is told. */
  lemma ReleaseFails(p: Pool, k: Key)
    requires k in p.table && p.table[k].ip !in p.taken && HasRoom(p)
    ensures var (q, ok) := ReleaseLease(p, k); !ok && Dropped(p, q, k)
  {
  }

  // ----- start-up ---------------------------------------------------------------------------------------

  /** Of several rows for one client the last one read is loaded. */
  lemma {:induction false} LastRowWins(db: Rows, rows: seq<(Key, Addr)>, i: nat)
    requires (forall j :: 0 <= j < |rows| ==> rows[j] in db) && i < |rows|
    requires forall j :: i < j < |rows| ==> rows[j].0 != rows[i].0
    ensures rows[i].0 in Load(db, rows) && Load(db, rows)[rows[i].0] == (rows[i].1, db[rows[i]])
  {
    if i < |rows| - 1 {
      LastRowWins(db, rows[..|rows| - 1], i);
    }
  }
}
