/**
 The plugin object behind the model: the fields Go keeps under the plugin lock, with
 the loops the source runs over them. Every method is tied to the function of
 `LeaseModel` that the proofs are about; the ghost results name the order in which
 a map walk happened to visit its entries.
 */
module LeasePlugin {
  import opened Wrappers
  import opened LeaseModel
  import opened LeaseSystem
  import LeaseOps
  import L = LeaseModel

  /** The first clear bit of the allocator's bitmap, found by scanning it. */
  method FindClear(c: Config, taken: set<Addr>) returns (found: Option<Addr>)
    ensures found == NextClear(c.lo, c.hi, taken)
  {
    var a := c.lo;
    while a <= c.hi && a in taken
      invariant c.lo <= a <= c.hi + 1
      invariant NextClear(c.lo, c.hi, taken) == NextClear(a, c.hi, taken)
    {
      a := a + 1;
    }
    found := if a <= c.hi then Some(a) else None;
  }

  datatype Attempt = Applied | MatchedNoRow | Busy | Error

  // Extra attempts a write gets while sqlite says the database is locked.
  const BUSY_RETRIES := 3

  function Failing(a: Attempt): bool {
    a.Busy? || a.Error?
  }

  /**
   write: retry while the database is locked and the change has time left. `attempts`
   is what sqlite would answer, `timely` whether the context still runs after each.
   */
  method WriteWithRetries(attempts: seq<Attempt>, timely: seq<bool>) returns (ok: bool, made: nat)
    requires |attempts| == |timely| == BUSY_RETRIES + 1
    ensures 1 <= made <= BUSY_RETRIES + 1
    ensures ok <==> !Failing(attempts[made - 1])
    ensures forall i :: 0 <= i < made - 1 ==> attempts[i].Busy? && timely[i]
    ensures !ok ==> attempts[made - 1].Error? || made == BUSY_RETRIES + 1 || !timely[made - 1]
  {
    made := 0;
    while true
      invariant 0 <= made <= BUSY_RETRIES
      invariant forall i :: 0 <= i < made ==> attempts[i].Busy? && timely[i]
      decreases BUSY_RETRIES - made
    {
      var result := attempts[made];
      if !result.Busy? || made == BUSY_RETRIES || !timely[made] {
        return !Failing(result), made + 1;
      }
      made := made + 1;
    }
  }

  /** A map walk under way: what it has visited, each once, and what is left. */
  ghost predicate Visiting<T(!new)>(order: seq<T>, rest: set<T>, all: set<T>) {
    && (forall x :: x in order ==> x !in rest)
    && (forall x :: x in all <==> x in order || x in rest)
    && (forall i, j :: 0 <= i < j < |order| ==> order[i] != order[j])
  }

  lemma VisitFirst<T(!new)>(all: set<T>)
    ensures Visiting([], all, all)
  {
  }

  lemma VisitNext<T(!new)>(order: seq<T>, rest: set<T>, all: set<T>, x: T)
    requires Visiting(order, rest, all) && x in rest
    ensures Visiting(order + [x], rest - {x}, all) && (order + [x])[..|order|] == order
  {
  }

  lemma VisitDone<T(!new)>(order: seq<T>, all: set<T>)
    requires Visiting(order, {}, all)
    ensures Walk(order, all)
  {
  }

  /** Some order in which a set could be walked, for scans that turn out not to be run. */
  ghost method SomeWalk<T(!new)>(all: set<T>) returns (order: seq<T>)
    ensures Walk(order, all) && forall x :: x in all ==> x in order
  {
    hide Visiting, Walk;
    order := [];
    var rest := all;
    VisitFirst(rest);
    while rest != {}
      invariant Visiting(order, rest, all)
      decreases rest
    {
      var x :| x in rest;
      VisitNext(order, rest, all, x);
      rest, order := rest - {x}, order + [x];
    }
    VisitDone(order, all);
    WalkVisits(order, all);
  }

  lemma WalkVisits<T(!new)>(order: seq<T>, all: set<T>)
    requires Walk(order, all)
    ensures forall x :: x in all ==> x in order
  {
  }

  lemma NothingAnswered(c: Config, p: Pool, kind: Kind, hostname: string, now: Time)
    ensures AnswerAll(c, p, kind, [], hostname, now, []) == (p, []) && WalksAll(c, p, kind, [], hostname, now, [])
  {
  }

  /** One more IA answered, whose scan of the quarantine saw every entry. */
  lemma AnsweredNext(c: Config, p: Pool, kind: Kind, ias: seq<IA>, hostname: string, now: Time, envs: seq<Env>, i: nat,
                     env: Env)
    requires i < |ias| && |envs| == i && WalksAll(c, p, kind, ias[..i], hostname, now, envs)
    requires forall a :: a in AnswerAll(c, p, kind, ias[..i], hostname, now, envs).0.declined ==> a in env.evictAddrs
    ensures var (q, answers) := AnswerAll(c, p, kind, ias[..i], hostname, now, envs);
      var (r, answer) := AnswerIA(c, q, kind, ias[i], hostname, now, env);
      AnswerAll(c, p, kind, ias[..i + 1], hostname, now, envs + [env])
      == (r, answers + [Answered(ias[i].key, answer, |q.pending|, |r.pending|)])
    ensures WalksAll(c, p, kind, ias[..i + 1], hostname, now, envs + [env])
  {
    hide AnswerIA;
    assert ias[..i + 1][..i] == ias[..i] && (envs + [env])[..i] == envs;
    assert LeaseOps.Walks(AnswerAll(c, p, kind, ias[..i], hostname, now, envs).0, env);
  }

  /** Names that are not in the quarantine make no difference to the scan. */
  lemma {:induction false} OldestIgnores(declined: map<Addr, Time>, order: seq<Addr>, more: seq<Addr>)
    requires forall a :: a in more ==> a !in declined
    ensures Oldest(declined, order + more) == Oldest(declined, order)
    decreases |more|
  {
    if more == [] {
      assert order + more == order;
    } else {
      var n := |more| - 1;
      OldestIgnores(declined, order, more[..n]);
      assert (order + more)[..|order + more| - 1] == order + more[..n];
      assert more[n] in more;
    }
  }

  lemma WalkCovers(order: seq<Addr>, more: seq<Addr>, all: set<Addr>, seen: set<Addr>)
    requires Walk(order, all) && Walk(more, seen - all)
    ensures (forall a :: a in more ==> a !in all) && forall a :: a in seen ==> a in order + more
  {
    forall a | a in seen ensures a in order + more {
      if a in all {
        assert a in order;
      } else {
        assert a in seen - all && a in more;
      }
    }
  }

  lemma SweptNext(p: Pool, order: seq<Key>, k: Key, t: Time)
    ensures L.SweepExpired(p, [], t) == (p, 0)
    ensures var (q, n) := L.SweepExpired(p, order, t);
      L.SweepExpired(p, order + [k], t) ==
        if k in q.table && Expired(q.table[k], t)
        then (L.ReleaseLease(q, k).0, if L.ReleaseLease(q, k).1 then n + 1 else n)
        else (q, n)
  {
    assert (order + [k])[..|order|] == order;
  }

  lemma DeclinedNext(c: Config, p: Pool, order: seq<Addr>, a: Addr, t: Time)
    ensures L.SweepDeclined(c, p, [], t) == (p, 0)
    ensures var (q, n) := L.SweepDeclined(c, p, order, t);
      L.SweepDeclined(c, p, order + [a], t) ==
        if a in q.declined && q.declined[a] <= t
        then (L.FreeDeclined(c, q, a).0, if L.FreeDeclined(c, q, a).1 then n + 1 else n)
        else (q, n)
  {
    assert (order + [a])[..|order|] == order;
  }

  lemma OldestNext(declined: map<Addr, Time>, order: seq<Addr>, a: Addr)
    ensures Oldest(declined, []) == None
    ensures var best := Oldest(declined, order);
      Oldest(declined, order + [a]) ==
        if a in declined && (best.None? || declined[a] < declined[best.value]) then Some(a) else best
  {
    assert (order + [a])[..|order|] == order;
  }

  class Plugin {
    const c: Config

    var table: map<Key, Record>
    var declined: map<Addr, Time>
    var taken: set<Addr>
    var pending: seq<Pending>
    var writes: seq<Entry>
    var tickets: nat
    var ids: nat
    var room: seq<bool>

    ghost function View(): Pool
      reads this
    {
      Pool(table, declined, taken, pending, writes, tickets, ids, room)
    }

    /** An empty pool. */
    constructor (c: Config)
      ensures this.c == c && View() == Restored(map[], {})
    {
      this.c := c;
      table, declined, taken := map[], map[], {};
      pending, writes, tickets, ids, room := [], [], 0, 1, [];
    }

    /** The non-blocking send under the lock. */
    method Enqueue(w: Write, undo: Undo) returns (ok: bool)
      modifies this
      ensures (View(), ok) == L.Enqueue(old(View()), w, undo)
    {
      ok := room == [] || room[0];
      room := if room == [] then [] else room[1..];
      if ok {
        writes := writes + [Entry(tickets, w)];
        pending := pending + [Pending(tickets, undo)];
        tickets := tickets + 1;
      }
    }

    method ReleaseLease(k: Key) returns (ok: bool)
      requires k in table
      modifies this
      ensures (View(), ok) == L.ReleaseLease(old(View()), k)
    {
      var ip := table[k].ip;
      ok := Enqueue(Remove(k, ip), Nothing);
      if ok {
        table := table - {k};
        ok := ip in taken;
        taken := taken - {ip};
      }
    }

    method SweepExpired(t: Time) returns (freed: nat, ghost order: seq<Key>)
      modifies this
      ensures Walk(order, old(table.Keys))
      ensures (View(), freed) == L.SweepExpired(old(View()), order, t)
    {
      hide Visiting, Walk, L.ReleaseLease, L.SweepExpired;
      freed, order := 0, [];
      SweptNext(View(), [], "", t);
      var rest := table.Keys;
      VisitFirst(rest);
      while rest != {}
        invariant Visiting(order, rest, old(table.Keys))
        invariant (View(), freed) == L.SweepExpired(old(View()), order, t)
        decreases rest
      {
        var k :| k in rest;
        SweptNext(old(View()), order, k, t);
        VisitNext(order, rest, old(table.Keys), k);
        rest := rest - {k};
        order := order + [k];
        if k in table && Expired(table[k], t) {
          var ok := ReleaseLease(k);
          if ok {
            freed := freed + 1;
          }
        }
      }
      VisitDone(order, old(table.Keys));
    }

    method FreeDeclined(a: Addr) returns (ok: bool)
      modifies this
      ensures (View(), ok) == L.FreeDeclined(c, old(View()), a)
    {
      ok := true;
      if a in taken {
        taken, declined := taken - {a}, declined - {a};
      } else if c.family.V4? {
        ok := false;
      } else {
        declined := declined - {a};
      }
    }

    method SweepDeclined(t: Time) returns (freed: nat, ghost order: seq<Addr>)
      modifies this
      ensures Walk(order, old(declined.Keys))
      ensures (View(), freed) == L.SweepDeclined(c, old(View()), order, t)
    {
      hide Visiting, Walk, L.FreeDeclined, L.SweepDeclined;
      freed, order := 0, [];
      DeclinedNext(c, View(), [], 0, t);
      var rest := declined.Keys;
      VisitFirst(rest);
      while rest != {}
        invariant Visiting(order, rest, old(declined.Keys))
        invariant (View(), freed) == L.SweepDeclined(c, old(View()), order, t)
        decreases rest
      {
        var a :| a in rest;
        DeclinedNext(c, old(View()), order, a, t);
        VisitNext(order, rest, old(declined.Keys), a);
        rest := rest - {a};
        order := order + [a];
        if a in declined && declined[a] <= t {
          var ok := FreeDeclined(a);
          if ok {
            freed := freed + 1;
          }
        }
      }
      VisitDone(order, old(declined.Keys));
    }

    method Reclaim(t: Time) returns (freed: nat, ghost keys: seq<Key>, ghost addrs: seq<Addr>)
      modifies this
      ensures Walk(keys, old(table.Keys))
      ensures (View(), freed) == L.Reclaim(c, old(View()), keys, addrs, t)
    {
      var n, m;
      n, keys := SweepExpired(t);
      m, addrs := SweepDeclined(t);
      freed := n + m;
    }

    /** The scan names, for the record, what had left the quarantine since the section began. */
    method EvictOldest(ghost seen: set<Addr>) returns (evicted: bool, ghost order: seq<Addr>)
      modifies this
      ensures forall a :: a in seen ==> a in order
      ensures (View(), evicted) == L.EvictOldest(c, old(View()), order)
    {
      hide Visiting, Walk, L.FreeDeclined, Oldest;
      order := [];
      OldestNext(declined, [], 0);
      var oldest: Option<Addr> := None;
      var rest := declined.Keys;
      VisitFirst(rest);
      while rest != {}
        invariant Visiting(order, rest, declined.Keys)
        invariant oldest == Oldest(declined, order)
        invariant View() == old(View())
        decreases rest
      {
        var a :| a in rest;
        OldestNext(declined, order, a);
        VisitNext(order, rest, old(declined.Keys), a);
        rest := rest - {a};
        order := order + [a];
        if oldest.None? || declined[a] < declined[oldest.value] {
          oldest := Some(a);
        }
      }
      VisitDone(order, old(declined.Keys));
      ghost var gone := SomeWalk(seen - declined.Keys);
      WalkCovers(order, gone, declined.Keys, seen);
      OldestIgnores(declined, order, gone);
      order := order + gone;
      evicted := false;
      if oldest.Some? {
        evicted := FreeDeclined(oldest.value);
      }
    }

    method AllocatorAllocate(hint: Option<Addr>) returns (ip: Option<Addr>)
      ensures ip == L.AllocatorAllocate(c, taken, hint)
    {
      var first := if hint.Some? && InPool(c, hint.value) then hint.value else c.lo;
      if first !in taken {
        ip := Some(first);
      } else {
        ip := FindClear(c, taken);
      }
    }

    method AtLeaseLimit(now: Time) returns (full: bool, ghost limit: (seq<Key>, seq<Addr>))
      modifies this
      ensures forall env: Env :: (env.limitKeys, env.limitAddrs) == limit ==>
        (View(), full) == L.AtLeaseLimit(c, old(View()), now, env)
    {
      full, limit := false, ([], []);
      if c.maxLeases != 0 && |table| >= c.maxLeases {
        var freed;
        ghost var keys, addrs;
        freed, keys, addrs := Reclaim(now);
        limit := (keys, addrs);
        full := |table| >= c.maxLeases;
      }
    }

    method Allocate(hint: Option<Addr>, later: Time, ghost limit: (seq<Key>, seq<Addr>), ghost seen: set<Addr>)
      returns (ip: Option<Addr>, ghost env: Env)
      modifies this
      ensures env.later == later && (env.limitKeys, env.limitAddrs) == limit
      ensures forall a :: a in seen ==> a in env.evictAddrs
      ensures (View(), ip) == L.Allocate(c, old(View()), hint, env)
    {
      ghost var order := SomeWalk(seen);
      env := Env(later, limit.0, limit.1, [], [], order);
      ip := AllocatorAllocate(hint);
      if ip.Some? {
        return;
      }
      var freed;
      ghost var keys, addrs;
      freed, keys, addrs := Reclaim(later);
      env := env.(poolKeys := keys, poolAddrs := addrs);
      if freed > 0 {
        ip := AllocatorAllocate(hint);
        if c.family.V6? || ip.Some? {
          return;
        }
      }
      var evicted;
      evicted, order := EvictOldest(seen);
      env := env.(evictAddrs := order);
      ip := None;
      if evicted {
        ip := AllocatorAllocate(hint);
      }
    }

    method AllocateLease(k: Key, hint: Option<Addr>, hostname: string, now: Time, later: Time, ghost seen: set<Addr>)
      returns (ok: bool, ghost env: Env)
      modifies this
      ensures env.later == later && forall a :: a in seen ==> a in env.evictAddrs
      ensures (View(), ok) == L.AllocateLease(c, old(View()), k, hint, hostname, now, env)
    {
      hide L.Reclaim, L.Allocate;
      var full;
      ghost var limit;
      full, limit := AtLeaseLimit(now);
      if full {
        ghost var order := SomeWalk(seen);
        return false, Env(later, limit.0, limit.1, [], [], order);
      }
      var ip;
      ip, env := Allocate(hint, later, limit, seen);
      if ip.None? {
        return false, env;
      }
      var record := Record(ids, ip.value, Row(FreshExpiry(c, now), hostname));
      ok := Enqueue(Store(k, ip.value, record.row), DropUnwritten(k, record.id));
      if ok {
        table, taken, ids := table[k := record], taken + {ip.value}, ids + 1;
      }
    }

    method Renew(k: Key, hostname: string, now: Time) returns (ok: bool)
      requires k in table
      modifies this
      ensures (View(), ok) == L.Renew(c, old(View()), k, hostname, now)
    {
      var r := table[k];
      if r.row.expires * SECOND >= now + c.leaseTime {
        return true;
      }
      var row := Row(Rounded(now + c.leaseTime), hostname);
      ok := Enqueue(Store(k, r.ip, row), Shorten(k, r.id, row.expires, r.row));
      if ok {
        table := table[k := r.(row := row)];
      }
    }

    method RenewKnown(k: Key, hostname: string, now: Time, later: Time, ghost seen: set<Addr>)
      returns (ok: bool, ghost env: Env)
      requires k in table
      modifies this
      ensures env.later == later && forall a :: a in seen ==> a in env.evictAddrs
      ensures (View(), ok) == L.RenewKnown(c, old(View()), k, hostname, now, env)
    {
      ghost var order := SomeWalk(seen);
      env := Env(later, [], [], [], [], order);
      if !Expired(table[k], now) {
        ok := Renew(k, hostname, now);
        return;
      }
      var record := table[k];
      ok := ReleaseLease(k);
      if ok {
        ok, env := AllocateLease(k, Some(record.ip), hostname, now, later, seen);
      } else {
        table := table[k := record];
        ok := Renew(k, hostname, now);
      }
    }

    /** A full quarantine lets its oldest entry go. */
    method MakeRoom() returns (ghost order: seq<Addr>)
      modifies this
      ensures forall a :: a in old(declined) ==> a in order
      ensures View() == if |old(declined)| >= c.declineMax then L.EvictOldest(c, old(View()), order).0 else old(View())
    {
      hide Walk, L.EvictOldest;
      if |declined| >= c.declineMax {
        var evicted;
        evicted, order := EvictOldest(declined.Keys);
      } else {
        order := SomeWalk(declined.Keys);
      }
    }

    /** The held-back branch: the address stays taken while it is on probation. */
    method HoldBack(k: Key, until: Time) returns (ok: bool, ghost order: seq<Addr>)
      requires k in table
      modifies this
      ensures (forall a :: a in old(declined) ==> a in order) && ok == HasRoom(old(View()))
      ensures View() == if ok then L.HoldBack(c, old(View()), k, until, order) else Refused(old(View()))
    {
      hide Walk, L.EvictOldest;
      order := SomeWalk(declined.Keys);
      var ip := table[k].ip;
      ok := Enqueue(Remove(k, ip), Nothing);
      if ok {
        table := table - {k};
        order := MakeRoom();
        declined := declined[ip := until];
      }
    }

    method Quarantine(k: Key, now: Time, later: Time) returns (ok: bool, ghost env: Env)
      requires k in table
      modifies this
      ensures env.later == later && forall a :: a in old(declined) ==> a in env.evictAddrs
      ensures (View(), ok) == L.Quarantine(c, old(View()), k, now, env)
    {
      hide Walk, L.HoldBack, L.ReleaseLease;
      ghost var order := SomeWalk(declined.Keys);
      if c.probation == 0 || c.declineMax == 0 || (c.family.V4? && |declined| >= c.declineMax) {
        ok := ReleaseLease(k);
      } else {
        ok, order := HoldBack(k, (if c.family.V4? then later else now) + c.probation);
      }
      env := Env(later, [], [], [], [], order);
    }

    method AnswerIA(kind: Kind, ia: IA, hostname: string, now: Time, later: Time)
      returns (answer: Answer, ghost env: Env)
      modifies this
      ensures env.later == later && forall a :: a in old(declined) ==> a in env.evictAddrs
      ensures (View(), answer) == L.AnswerIA(c, old(View()), kind, ia, hostname, now, env)
    {
      hide Walk, L.RenewKnown, L.AllocateLease, L.ReleaseLease, L.Quarantine;
      var k := ia.key;
      ghost var any := SomeWalk(declined.Keys);
      env := Env(later, [], [], [], [], any);
      var ok := false;
      if kind.Bind? || kind.Extend? {
        if k in table {
          ok, env := RenewKnown(k, hostname, now, later, declined.Keys);
        } else if kind.Bind? {
          var hint := if c.family.V4? || ia.addrs == [] then None else Some(ia.addrs[0]);
          ok, env := AllocateLease(k, hint, hostname, now, later, declined.Keys);
        } else {
          return NoBinding, env;
        }
        answer := if ok && k in table then Bound(table[k].id, table[k].ip, Unix(now + c.leaseTime)) else NoAddress;
        return;
      }
      if k !in table || table[k].ip !in ia.addrs {
        return NoBinding, env;
      }
      if kind.Release? {
        ok := ReleaseLease(k);
      } else {
        ok, env := Quarantine(k, now, later);
      }
      answer := if ok then Done else NotDone;
    }

    /** eachIANA under the lock: every IA is answered and told which queued changes it stands on. */
    method AnswerAll(kind: Kind, ias: seq<IA>, hostname: string, now: Time, later: seq<Time>)
      returns (answers: seq<Answered>, ghost envs: seq<Env>)
      requires |later| == |ias|
      modifies this
      ensures |envs| == |ias| && forall i :: 0 <= i < |ias| ==> envs[i].later == later[i]
      ensures WalksAll(c, old(View()), kind, ias, hostname, now, envs)
      ensures (View(), answers) == L.AnswerAll(c, old(View()), kind, ias, hostname, now, envs)
    {
      hide L.AnswerIA, L.AnswerAll, Walk, WalksAll;
      NothingAnswered(c, View(), kind, hostname, now);
      answers, envs := [], [];
      var i := 0;
      assert ias[..0] == [];
      while i < |ias|
        invariant 0 <= i <= |ias| && |envs| == i
        invariant forall j :: 0 <= j < i ==> envs[j].later == later[j]
        invariant WalksAll(c, old(View()), kind, ias[..i], hostname, now, envs)
        invariant (View(), answers) == L.AnswerAll(c, old(View()), kind, ias[..i], hostname, now, envs)
      {
        var from := |pending|;
        var answer;
        ghost var env;
        answer, env := AnswerIA(kind, ias[i], hostname, now, later[i]);
        AnsweredNext(c, old(View()), kind, ias, hostname, now, envs, i, env);
        answers := answers + [Answered(ias[i].key, answer, from, |pending|)];
        envs := envs + [env];
        i := i + 1;
      }
      assert ias[..i] == ias;
    }

    /** settleAll's second half, with the undos of the failed changes in queue order. */
    method RunUndos(undos: seq<Undo>)
      modifies this
      ensures View() == L.RunUndos(old(View()), undos)
    {
      var i := |undos|;
      assert undos[..i] == undos;
      while i > 0
        invariant 0 <= i <= |undos|
        invariant L.RunUndos(View(), undos[..i]) == L.RunUndos(old(View()), undos)
      {
        i := i - 1;
        assert undos[..i + 1][..i] == undos[..i];
        match undos[i]
        case Nothing =>
        case DropUnwritten(k, id) =>
          if k in table && table[k].id == id {
            table, taken := table - {k}, taken - {table[k].ip};
          }
        case Shorten(k, id, extended, was) =>
          if k in table && table[k].id == id && table[k].row.expires == extended {
            table := table[k := table[k].(row := was)];
          }
      }
      assert undos[..0] == [];
    }
  }

  /**
   The start-up loop over the loaded records: it succeeds exactly when their addresses
   are in the pool and pairwise distinct, and then has taken those and no others.
   */
  method ReplayRecords(c: Config, m: map<Key, (Addr, Row)>) returns (taken: Option<set<Addr>>)
    ensures taken.Some? <==>
      && (forall k :: k in m ==> InPool(c, m[k].0))
      && (forall k, j :: k in m && j in m && k != j ==> m[k].0 != m[j].0)
    ensures taken.Some? ==> taken.value == set k | k in m :: m[k].0
  {
    var held: set<Addr> := {};
    var rest := m.Keys;
    ghost var walk := [];
    while rest != {}
      invariant forall k :: k in m <==> k in walk || k in rest
      invariant forall k :: k in walk ==> k !in rest
      invariant forall i, j :: 0 <= i < j < |walk| ==> walk[i] != walk[j]
      invariant Replay(c, m, walk) == Some(held)
      decreases rest
    {
      var k :| k in rest;
      rest := rest - {k};
      ghost var before := walk;
      walk := walk + [k];
      assert walk[..|walk| - 1] == before && walk[|walk| - 1] == k;
      var ip := m[k].0;
      if AllocatorAllocate(c, held, Some(ip)) != Some(ip) {
        ReplayExactly(c, m, walk);
        return None;
      }
      held := held + {ip};
    }
    ReplayExactly(c, m, walk);
    ReplayedAll(m, walk);
    taken := Some(held);
  }

  lemma ReplayedAll(m: map<Key, (Addr, Row)>, walk: seq<Key>)
    requires (forall k :: k in m <==> k in walk)
    ensures (set i | 0 <= i < |walk| :: m[walk[i]].0) == set k | k in m :: m[k].0
  {
    forall k | k in m ensures m[k].0 in set i | 0 <= i < |walk| :: m[walk[i]].0 {
      var i :| 0 <= i < |walk| && walk[i] == k;
    }
  }
}
