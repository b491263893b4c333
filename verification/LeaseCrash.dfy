/**
 Crash safety of the write-behind lease store: in every run in which no statement
 fails at the database, the lease file plus what is still queued is the lease table,
 and whatever prefix of the queue a crash lets through, the next start succeeds and
 gives every client its address back. Sends refused by a full queue are allowed.
 */
module LeaseCrash {
  import opened Wrappers
  import opened LeaseModel
  import opened LeaseOps
  import opened LeaseSystem

  /** The lease file holds exactly the bindings of the table. */
  ghost predicate Agrees(db: Rows, p: Pool) {
    && (forall k :: k in p.table ==> (k, p.table[k].ip) in db && db[(k, p.table[k].ip)] == p.table[k].row)
    && (forall x :: x in db ==> x.0 in p.table && p.table[x.0].ip == x.1)
  }

  /** One row per client, no address twice, every address in the pool. */
  ghost predicate Replayable(c: Config, db: Rows) {
    && (forall x, y :: x in db && y in db && x != y ==> x.0 != y.0 && x.1 != y.1)
    && (forall x :: x in db ==> InPool(c, x.1))
  }

  /** The lease file once the writer has got through the first `n` queued changes. */
  ghost function Landed(f: Family, db: Rows, queue: seq<Entry>, n: nat): Rows
    requires n <= |queue|
  {
    ApplyAll(f, db, queue[..n])
  }

  ghost predicate Mirrors(c: Config, db: Rows, p: Pool) {
    && Agrees(Landed(c.family, db, p.queue, |p.queue|), p)
    && (forall n: nat :: n <= |p.queue| ==> Replayable(c, Landed(c.family, db, p.queue, n)))
  }

  ghost predicate CrashSafe(c: Config, s: Sys) {
    && Consistent(c, s)
    && Mirrors(c, s.db, s.pool)
    && (forall t :: t in s.done ==> s.done[t])
  }

  lemma TableIsReplayable(c: Config, db: Rows, p: Pool)
    requires Partition(c, p) && Agrees(db, p)
    ensures Replayable(c, db)
  {
    forall k | k in p.table ensures InPool(c, p.table[k].ip) {
      LeasedHas(p, k);
    }
  }

  lemma LandedGrows(f: Family, db: Rows, queue: seq<Entry>, e: Entry, n: nat)
    requires n <= |queue|
    ensures Landed(f, db, queue + [e], n) == Landed(f, db, queue, n)
    ensures Landed(f, db, queue + [e], |queue| + 1) == Apply(f, Landed(f, db, queue, |queue|), e.write)
  {
    var longer := queue + [e];
    assert longer[..n] == queue[..n];
    assert longer[..|queue| + 1] == longer;
    assert longer[..|queue|] == queue == queue[..|queue|];
  }

  /** Every cut of the longer queue is a cut of the old one or all of it. */
  lemma CutsReplayable(c: Config, db: Rows, queue: seq<Entry>, e: Entry, n: nat)
    requires n <= |queue| + 1
    requires forall i: nat :: i <= |queue| ==> Replayable(c, Landed(c.family, db, queue, i))
    requires Replayable(c, Apply(c.family, Landed(c.family, db, queue, |queue|), e.write))
    ensures Replayable(c, Landed(c.family, db, queue + [e], n))
  {
    hide Replayable, Landed;
    LandedGrows(c.family, db, queue, e, if n <= |queue| then n else 0);
  }

  /** A change that queues `w` and moves the table to what `w` makes of its rows. */
  lemma QueuedMirrors(c: Config, db: Rows, p: Pool, q: Pool, w: Write)
    requires Mirrors(c, db, p) && Partition(c, q)
    requires q.queue == p.queue + [Entry(p.tickets, w)]
    requires Agrees(Apply(c.family, Landed(c.family, db, p.queue, |p.queue|), w), q)
    ensures Mirrors(c, db, q)
  {
    hide Replayable, Landed, Partition, Agrees;
    var e := Entry(p.tickets, w);
    TableIsReplayable(c, Apply(c.family, Landed(c.family, db, p.queue, |p.queue|), w), q);
    LandedGrows(c.family, db, p.queue, e, 0);
    forall n: nat | n <= |q.queue| ensures Replayable(c, Landed(c.family, db, q.queue, n)) {
      CutsReplayable(c, db, p.queue, e, n);
    }
  }

  lemma RemovingMirrors(c: Config, db: Rows, p: Pool, q: Pool, k: Key)
    requires Mirrors(c, db, p) && Partition(c, q) && k in p.table && q.table == p.table - {k}
    requires q.queue == p.queue + [Entry(p.tickets, Remove(k, p.table[k].ip))]
    ensures Mirrors(c, db, q)
  {
    hide Replayable, Partition, Landed;
    QueuedMirrors(c, db, p, q, Remove(k, p.table[k].ip));
  }

  lemma StoringMirrors(c: Config, db: Rows, p: Pool, q: Pool, k: Key, r: Record)
    requires Mirrors(c, db, p) && Partition(c, q) && q.table == p.table[k := r]
    requires k in p.table ==> p.table[k].ip == r.ip
    requires q.queue == p.queue + [Entry(p.tickets, Store(k, r.ip, r.row))]
    ensures Mirrors(c, db, q)
  {
    hide Replayable, Partition, Landed;
    QueuedMirrors(c, db, p, q, Store(k, r.ip, r.row));
  }

  lemma SameMirrors(c: Config, db: Rows, p: Pool, q: Pool)
    requires Mirrors(c, db, p) && q.table == p.table && q.queue == p.queue
    ensures Mirrors(c, db, q)
  {
    hide Replayable, Landed;
  }

  lemma DoMirrors(c: Config, db: Rows, p: Pool, op: Op, mine: Speaker, t: Time)
    requires Partition(c, p) && Legal(c, p, op, mine, t) && Mirrors(c, db, p)
    ensures Mirrors(c, db, Do(p, op))
  {
    hide Mirrors, Partition;
    var q := Do(p, op);
    DoKeepsPartition(c, p, op, mine, t);
    match op
    case Refuse => SameMirrors(c, db, p, q);
    case EndProbation(a) => SameMirrors(c, db, p, q);
    case FreeLease(k) => RemovingMirrors(c, db, p, q, k);
    case Hold(k, until) => RemovingMirrors(c, db, p, q, k);
    case Lease(k, ip, row) => StoringMirrors(c, db, p, q, k, Record(p.ids, ip, row));
    case Prolong(k, row) => StoringMirrors(c, db, p, q, k, p.table[k].(row := row));
  }

  lemma {:induction false} DoAllMirrors(c: Config, db: Rows, p: Pool, ops: seq<Op>, mine: Speaker, t: Time)
    requires Partition(c, p) && LegalAll(c, p, ops, mine, t) && Mirrors(c, db, p)
    ensures Mirrors(c, db, DoAll(p, ops))
  {
    if ops != [] {
      var init := ops[..|ops| - 1];
      DoAllMirrors(c, db, p, init, mine, t);
      DoAllKeepsPartition(c, p, init, mine, t);
      DoMirrors(c, db, DoAll(p, init), ops[|ops| - 1], mine, t);
    }
  }

  lemma {:induction false} AnswersMirror(
      c: Config, db: Rows, p: Pool, kind: Kind, ias: seq<IA>, hostname: string, now: Time, envs: seq<Env>, end: Time,
      started: nat)
    requires |envs| == |ias| && now <= end && forall i :: 0 <= i < |envs| ==> envs[i].later <= end
    requires Partition(c, p) && Bounded(c, p, started) && Mirrors(c, db, p)
    requires WalksAll(c, p, kind, ias, hostname, now, envs)
    ensures Mirrors(c, db, AnswerAll(c, p, kind, ias, hostname, now, envs).0)
  {
    if ias != [] {
      var n := |ias| - 1;
      AnswersKeep(c, p, kind, ias[..n], hostname, now, envs[..n], end, started);
      AnswersMirror(c, db, p, kind, ias[..n], hostname, now, envs[..n], end, started);
      var q := AnswerAll(c, p, kind, ias[..n], hostname, now, envs[..n]).0;
      var ops := AnswerTrace(c, q, kind, ias[n], hostname, now, envs[n], end);
      DoAllMirrors(c, db, q, ops, Voice(kind, ias[n].key), end);
    }
  }

  lemma {:induction false} ApplyHeadFirst(f: Family, db: Rows, queue: seq<Entry>)
    requires queue != []
    ensures ApplyAll(f, Apply(f, db, queue[0].write), queue[1..]) == ApplyAll(f, db, queue)
    decreases |queue|
  {
    if |queue| == 1 {
      assert queue[..0] == [];
      assert queue[1..] == [];
      assert ApplyAll(f, db, []) == db;
    } else {
      var init := queue[..|queue| - 1];
      ApplyHeadFirst(f, db, init);
      assert queue[1..][..|queue| - 2] == init[1..];
    }
  }

  lemma LandedShifts(f: Family, db: Rows, queue: seq<Entry>, n: nat)
    requires n < |queue|
    ensures Landed(f, Apply(f, db, queue[0].write), queue[1..], n) == Landed(f, db, queue, n + 1)
  {
    ApplyHeadFirst(f, db, queue[..n + 1]);
    assert queue[..n + 1][1..] == queue[1..][..n];
  }

  lemma WriterMirrors(c: Config, s: Sys)
    requires Mirrors(c, s.db, s.pool) && s.pool.queue != []
    ensures Mirrors(c, Writer(c, s, true).db, Writer(c, s, true).pool)
  {
    var s' := Writer(c, s, true);
    LandedShifts(c.family, s.db, s.pool.queue, |s.pool.queue| - 1);
    forall n: nat | n <= |s'.pool.queue| ensures Replayable(c, Landed(c.family, s'.db, s'.pool.queue, n)) {
      LandedShifts(c.family, s.db, s.pool.queue, n);
    }
  }

  lemma {:induction false} NothingFailed(done: map<nat, bool>, pending: seq<Pending>)
    requires forall t :: t in done ==> done[t]
    ensures Failed(done, pending) == []
  {
    if pending != [] {
      NothingFailed(done, pending[..|pending| - 1]);
    }
  }

  lemma OneRow(c: Config, db: Rows, x: (Key, Addr), y: (Key, Addr))
    requires Replayable(c, db) && x in db && y in db && x.0 == y.0
    ensures x == y
  {
  }

  lemma LoadsExactly(c: Config, db: Rows, rows: seq<(Key, Addr)>)
    requires Replayable(c, db) && Walk(rows, db.Keys)
    ensures forall x :: x in db ==> x.0 in Load(db, rows) && Load(db, rows)[x.0].0 == x.1
  {
    hide Load, Replayable;
    var m := Load(db, rows);
    forall x | x in db ensures x.0 in m && m[x.0].0 == x.1 {
      assert x in db.Keys && x in rows;
      var i :| 0 <= i < |rows| && rows[i] == x;
      OneRow(c, db, x, (x.0, m[x.0].0));
    }
  }

  lemma ReplaySucceeds(c: Config, db: Rows, m: map<Key, (Addr, Row)>, walk: seq<Key>)
    requires Replayable(c, db) && Walk(walk, m.Keys)
    requires forall k :: k in m ==> (k, m[k].0) in db
    ensures Replay(c, m, walk).Some?
  {
    assert forall i :: 0 <= i < |walk| ==> (walk[i], m[walk[i]].0) in db;
    ReplayExactly(c, m, walk);
  }

  /** A replayable lease file always loads, in any row order and any map order, and loads exactly. */
  lemma ReplayableLoads(c: Config, db: Rows, rows: seq<(Key, Addr)>, walk: seq<Key>)
    requires Replayable(c, db) && Walk(rows, db.Keys) && Walk(walk, Load(db, rows).Keys)
    ensures Replay(c, Load(db, rows), walk).Some?
    ensures Agrees(db, Restored(Load(db, rows), Replay(c, Load(db, rows), walk).value))
  {
    LoadsExactly(c, db, rows);
    ReplaySucceeds(c, db, Load(db, rows), walk);
  }

  lemma IdleMirrors(c: Config, db: Rows, p: Pool)
    requires Replayable(c, db) && Agrees(db, p) && p.queue == []
    ensures Mirrors(c, db, p)
  {
    assert Landed(c.family, db, p.queue, 0) == db;
  }

  lemma SectionMirrors(c: Config, s: Sys, a: Action)
    requires CrashSafe(c, s) && Enabled(c, s, a) && (a.Receive? || a.Sweep?)
    ensures Mirrors(c, s.db, Next(c, s, a).pool)
  {
    var p := s.pool.(room := a.room);
    RoomIsOutside(c, s.pool, p);
    SameMirrors(c, s.db, s.pool, p);
    if a.Receive? {
      AnswersMirror(c, s.db, p, a.kind, a.ias, a.hostname, a.now, a.envs, a.end, s.started);
      SameMirrors(c, s.db, AnswerAll(c, p, a.kind, a.ias, a.hostname, a.now, a.envs).0, Next(c, s, a).pool);
    } else {
      var ops := ReclaimTrace(c, p, a.keys, a.addrs, a.now, Nobody, a.now);
      DoAllMirrors(c, s.db, p, ops, Nobody, a.now);
      SameMirrors(c, s.db, DoAll(p, ops), Next(c, s, a).pool);
    }
  }

  lemma RestartMirrors(c: Config, db: Rows, queue: seq<Entry>, rows: seq<(Key, Addr)>, walk: seq<Key>)
    requires forall n: nat :: n <= |queue| ==> Replayable(c, Landed(c.family, db, queue, n))
    requires Walk(rows, db.Keys) && Walk(walk, Load(db, rows).Keys) && Replay(c, Load(db, rows), walk).Some?
    ensures Mirrors(c, db, Restored(Load(db, rows), Replay(c, Load(db, rows), walk).value))
  {
    assert Landed(c.family, db, queue, 0) == db;
    ReplayableLoads(c, db, rows, walk);
    IdleMirrors(c, db, Restored(Load(db, rows), Replay(c, Load(db, rows), walk).value));
  }

  lemma StepKeepsCrashSafe(c: Config, s: Sys, a: Action)
    requires CrashSafe(c, s) && Enabled(c, s, a) && !a.WriteFails?
    ensures CrashSafe(c, Next(c, s, a))
  {
    StepKeepsConsistent(c, s, a);
    match a
    case Receive(_, _, _, _, _, _, _, _) => SectionMirrors(c, s, a);
    case Sweep(_, _, _, _, _) => SectionMirrors(c, s, a);
    case WriteOk => WriterMirrors(c, s);
    case Settle(cid, now) => NothingFailed(s.done, s.calls[cid].pending);
    case Restart(rows, walk) => RestartMirrors(c, s.db, s.pool.queue, rows, walk);
  }

  /** Database plus queue equals table, throughout every run without a failed statement. */
  lemma {:induction false} RunsAreCrashSafe(c: Config, s: Sys, actions: seq<Action>)
    requires CrashSafe(c, s) && Run(c, s, actions)
    requires forall i :: 0 <= i < |actions| ==> !actions[i].WriteFails?
    ensures CrashSafe(c, Final(c, s, actions))
    decreases |actions|
  {
    if actions != [] {
      var s', rest := Next(c, s, actions[0]), actions[1..];
      StepKeepsCrashSafe(c, s, actions[0]);
      RunsAreCrashSafe(c, s', rest);
      assert Final(c, s, actions) == Final(c, s', rest);
    }
  }

  lemma FreshIsCrashSafe(c: Config, now: Time)
    ensures CrashSafe(c, Fresh(now))
  {
    FreshIsConsistent(c, now);
    assert Landed(c.family, map[], Fresh(now).pool.queue, 0) == map[];
  }

  /**
   A crash with any prefix of the queue on disk: the next start succeeds, restores
   one lease per row on its own address, and the new process is crash safe again.
   */
  lemma CrashAnywhere(c: Config, s: Sys, landed: nat, rows: seq<(Key, Addr)>, walk: seq<Key>)
    requires CrashSafe(c, s) && landed <= |s.pool.queue|
    requires Walk(rows, Landed(c.family, s.db, s.pool.queue, landed).Keys)
    requires Walk(walk, Load(Landed(c.family, s.db, s.pool.queue, landed), rows).Keys)
    ensures var db := Landed(c.family, s.db, s.pool.queue, landed);
      && Replay(c, Load(db, rows), walk).Some?
      && var p := Restored(Load(db, rows), Replay(c, Load(db, rows), walk).value);
         && Agrees(db, p)
         && CrashSafe(c, Sys(p, db, map[], map[], s.clock, |Load(db, rows)|))
  {
    var db := Landed(c.family, s.db, s.pool.queue, landed);
    ReplayableLoads(c, db, rows, walk);
    RestartKeeps(c, Load(db, rows), walk);
    IdleMirrors(c, db, Restored(Load(db, rows), Replay(c, Load(db, rows), walk).value));
  }
}
