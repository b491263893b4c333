/**
 When a client is refused an address: the pool tries the allocator, sweeps what has
 lapsed and finally takes the quarantine apart, so it only says no when every
 address is held by a lease that still runs.
 */
module LeaseExhaustion {
  import opened Wrappers
  import opened LeaseModel
  import opened LeaseOps
  import opened LeaseSystem

  /** No delete is refused by a full queue. */
  ghost predicate Roomy(p: Pool) {
    forall i :: 0 <= i < |p.room| ==> p.room[i]
  }

  /** A sweep that counts nothing did nothing; one that counts something gave an address back. */
  ghost predicate Swept(c: Config, p: Pool, q: Pool, n: nat) {
    && Partition(c, q) && Roomy(q)
    && q.taken <= p.taken && q.table.Keys <= p.table.Keys && q.declined.Keys <= p.declined.Keys
    && (n == 0 ==> q == p)
    && (n > 0 ==> q.taken != p.taken)
  }

  lemma ReleaseSwept(c: Config, p: Pool, k: Key)
    requires Partition(c, p) && Roomy(p) && k in p.table
    ensures ReleaseLease(p, k).1 && Swept(c, p, ReleaseLease(p, k).0, 1)
    ensures k !in ReleaseLease(p, k).0.table
  {
    LeasedHas(p, k);
    FreeKeepsPartition(c, p, k);
  }

  lemma {:induction false} SweepExpiredExact(c: Config, p: Pool, order: seq<Key>, t: Time)
    requires Partition(c, p) && Roomy(p)
    ensures var (q, n) := SweepExpired(p, order, t);
      && Swept(c, p, q, n)
      && q.declined == p.declined
      && (forall k :: k in order && k in q.table ==> !Expired(q.table[k], t))
      && (forall k :: k in q.table ==> q.table[k] == p.table[k])
  {
    if order != [] {
      var k, init := order[|order| - 1], order[..|order| - 1];
      SweepExpiredExact(c, p, init, t);
      var q := SweepExpired(p, init, t).0;
      if k in q.table && Expired(q.table[k], t) {
        ReleaseSwept(c, q, k);
      }
      assert forall j :: j in order ==> j in init || j == k;
    }
  }

  lemma {:induction false} SweepDeclinedExact(c: Config, p: Pool, order: seq<Addr>, t: Time)
    requires Partition(c, p) && Roomy(p)
    ensures var (q, n) := SweepDeclined(c, p, order, t);
      && Swept(c, p, q, n)
      && (forall a :: a in p.declined && p.declined[a] > t ==> a in q.declined)
      && (forall a :: a in q.declined ==> q.declined[a] == p.declined[a])
  {
    if order != [] {
      var a, init := order[|order| - 1], order[..|order| - 1];
      SweepDeclinedExact(c, p, init, t);
      var q := SweepDeclined(c, p, init, t).0;
      if a in q.declined && q.declined[a] <= t {
        EndProbationKeepsPartition(c, q, a);
      }
    }
  }

  lemma ReclaimExact(c: Config, p: Pool, keys: seq<Key>, addrs: seq<Addr>, t: Time)
    requires Partition(c, p) && Roomy(p)
    ensures var (q, n) := Reclaim(c, p, keys, addrs, t);
      && Swept(c, p, q, n)
      && (n == 0 ==> forall k :: k in keys && k in p.table ==> !Expired(p.table[k], t))
      && (forall a :: a in p.declined && p.declined[a] > t ==> a in q.declined)
      && (forall a :: a in q.declined ==> q.declined[a] == p.declined[a])
  {
    SweepExpiredExact(c, p, keys, t);
    SweepDeclinedExact(c, SweepExpired(p, keys, t).0, addrs, t);
  }

  /** A sweep that freed something leaves an address to allocate. */
  lemma FreedIsAvailable(c: Config, p: Pool, q: Pool, n: nat, hint: Option<Addr>)
    requires Partition(c, p) && Swept(c, p, q, n) && n > 0
    ensures AllocatorAllocate(c, q.taken, hint).Some?
  {
    assert q.taken < p.taken;
    var a :| a in p.taken && a !in q.taken;
    assert InPool(c, a);
  }

  ghost predicate HeldAtLeast(c: Config, p: Pool, t: Time) {
    forall a: Addr :: InPool(c, a) ==> exists k :: k in p.table && p.table[k].ip == a && !Expired(p.table[k], t)
  }

  /**
   Refusal only on true exhaustion, and always then: allocate fails exactly when the
   quarantine is empty and every pool address is held by a lease that still runs.
   */
  lemma RefusedExactlyWhenExhausted(c: Config, p: Pool, hint: Option<Addr>, env: Env)
    requires Partition(c, p) && Roomy(p)
    requires forall k :: k in p.table ==> k in env.poolKeys
    requires forall a :: a in p.declined ==> a in env.evictAddrs
    ensures Allocate(c, p, hint, env).1.None? <==> p.declined.Keys == {} && HeldAtLeast(c, p, env.later)
  {
    var (q, n) := Reclaim(c, p, env.poolKeys, env.poolAddrs, env.later);
    ReclaimExact(c, p, env.poolKeys, env.poolAddrs, env.later);
    if p.declined.Keys == {} && HeldAtLeast(c, p, env.later) {
      NothingToReclaim(c, p, env);
    }
    if n > 0 {
      FreedIsAvailable(c, p, q, n, hint);
    } else if AllocatorAllocate(c, p.taken, hint).None? {
      FullPool(c, p, env);
      Evicted(c, p, env.evictAddrs, hint);
    } else {
      FreeMeansNotHeld(c, p, env.later, hint);
    }
  }

  /** With the quarantine empty and every lease running, there is nothing to reclaim. */
  lemma NothingToReclaim(c: Config, p: Pool, env: Env)
    requires Partition(c, p) && p.declined.Keys == {} && HeldAtLeast(c, p, env.later)
    ensures Reclaim(c, p, env.poolKeys, env.poolAddrs, env.later) == (p, 0)
  {
    NothingLapsed(c, p, env.poolKeys, env.later);
    NothingDeclined(c, p, env.poolAddrs, env.later);
  }

  lemma {:induction false} NothingDeclined(c: Config, p: Pool, order: seq<Addr>, t: Time)
    requires p.declined.Keys == {}
    ensures SweepDeclined(c, p, order, t) == (p, 0)
  {
    if order != [] {
      NothingDeclined(c, p, order[..|order| - 1], t);
    }
  }

  lemma {:induction false} NothingLapsed(c: Config, p: Pool, order: seq<Key>, t: Time)
    requires Partition(c, p) && HeldAtLeast(c, p, t)
    ensures SweepExpired(p, order, t) == (p, 0)
  {
    if order != [] {
      var k := order[|order| - 1];
      NothingLapsed(c, p, order[..|order| - 1], t);
      if k in p.table {
        LeasedHas(p, k);
        assert InPool(c, p.table[k].ip);
      }
    }
  }

  lemma FullPool(c: Config, p: Pool, env: Env)
    requires Partition(c, p) && Roomy(p) && forall k :: k in p.table ==> k in env.poolKeys
    requires forall a: Addr :: InPool(c, a) ==> a in p.taken
    requires Reclaim(c, p, env.poolKeys, env.poolAddrs, env.later).1 == 0
    ensures p.declined.Keys == {} ==> HeldAtLeast(c, p, env.later)
  {
    ReclaimExact(c, p, env.poolKeys, env.poolAddrs, env.later);
    if p.declined.Keys == {} {
      forall a: Addr | InPool(c, a)
        ensures exists k :: k in p.table && p.table[k].ip == a && !Expired(p.table[k], env.later)
      {
        assert a in LeasedAddrs(p);
        var k :| k in p.table && p.table[k].ip == a;
        assert k in env.poolKeys;
      }
    }
  }

  lemma Evicted(c: Config, p: Pool, order: seq<Addr>, hint: Option<Addr>)
    requires Partition(c, p) && forall a :: a in p.declined ==> a in order
    ensures EvictOldest(c, p, order).1 <==> p.declined.Keys != {}
    ensures EvictOldest(c, p, order).1 ==> AllocatorAllocate(c, EvictOldest(c, p, order).0.taken, hint).Some?
  {
    if p.declined.Keys != {} {
      var a :| a in p.declined.Keys;
      assert a in order;
      var oldest := Oldest(p.declined, order).value;
      assert InPool(c, oldest) && oldest !in EvictOldest(c, p, order).0.taken;
    }
  }

  lemma FreeMeansNotHeld(c: Config, p: Pool, t: Time, hint: Option<Addr>)
    requires Partition(c, p) && AllocatorAllocate(c, p.taken, hint).Some?
    ensures !HeldAtLeast(c, p, t)
  {
    var a := AllocatorAllocate(c, p.taken, hint).value;
    forall k | k in p.table ensures p.table[k].ip != a {
      LeasedHas(p, k);
    }
    assert InPool(c, a);
  }

  /** A probation that allocate ends early is one with the earliest end time. */
  lemma EarlyEndIsEarliest(c: Config, p: Pool, hint: Option<Addr>, env: Env, a: Addr, b: Addr)
    requires Partition(c, p) && Roomy(p)
    requires forall x :: x in p.declined ==> x in env.evictAddrs
    requires a in p.declined && p.declined[a] > env.later && a !in Allocate(c, p, hint, env).0.declined
    requires b in p.declined
    ensures p.declined[a] <= p.declined[b]
  {
    var (q, n) := Reclaim(c, p, env.poolKeys, env.poolAddrs, env.later);
    ReclaimExact(c, p, env.poolKeys, env.poolAddrs, env.later);
    if n > 0 {
      FreedIsAvailable(c, p, q, n, hint);
    }
    assert a in q.declined && b in env.evictAddrs;
  }

  /**
   A client that comes back, late or not, keeps its address for at least a full lease
   time, as long as the queue has room and the table is not over its limit.
   */
  lemma KnownClientKeepsItsAddress(c: Config, p: Pool, k: Key, hostname: string, now: Time, env: Env)
    requires Partition(c, p) && Roomy(p) && k in p.table && (c.maxLeases == 0 || |p.table| <= c.maxLeases)
    ensures var (q, ok) := RenewKnown(c, p, k, hostname, now, env);
      && ok && k in q.table && q.table[k].ip == p.table[k].ip
      && q.table[k].row.expires >= Unix(now + c.leaseTime)
  {
    hide Reclaim, NextClear, Partition;
    var ip := p.table[k].ip;
    LeasedIsTaken(c, p, k);
    LeasedInPool(c, p, k);
    if Expired(p.table[k], now) {
      var (q, ok) := ReleaseLease(p, k);
      FewerKeys(p.table, k);
      assert AllocatorAllocate(c, q.taken, Some(ip)) == Some(ip);
    }
  }

  lemma LeasedInPool(c: Config, p: Pool, k: Key)
    requires Partition(c, p) && k in p.table
    ensures InPool(c, p.table[k].ip)
  {
    LeasedHas(p, k);
  }
}
