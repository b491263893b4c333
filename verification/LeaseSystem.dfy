/**
 The pool as a running system: locked sections, the writer goroutine, callers
 waiting for their writes, failures, crashes and restarts, in any interleaving.

 The writer takes no lock, but it only removes from the front of the queue what a
 locked section adds at the back, so a section may be taken as one step.
 */
module LeaseSystem {
  import opened Wrappers
  import opened LeaseModel
  import opened LeaseOps

  type Rows = map<(Key, Addr), Row>

  /** One statement. The primary key is (mac, ip) in V4 and (duid, iaid) in V6. */
  function Apply(f: Family, db: Rows, w: Write): Rows {
    match w
    case Store(k, ip, row) =>
      if f.V4? then db[(k, ip) := row]
      else (map x | x in db && x.0 != k :: db[x])[(k, ip) := row]
    case Remove(k, ip) => db - {(k, ip)}
  }

  function ApplyAll(f: Family, db: Rows, queue: seq<Entry>): Rows {
    if queue == [] then db
    else Apply(f, ApplyAll(f, db, queue[..|queue| - 1]), queue[|queue| - 1].write)
  }

  // A caller between its locked section and its reply.
  datatype Call = Call(keys: seq<Key>, answers: seq<Answered>, pending: seq<Pending>)

  datatype Sys = Sys(
    pool: Pool,
    db: Rows,
    done: map<nat, bool>,    // what each done channel was sent: true for success
    calls: map<nat, Call>,
    clock: Time,
    started: nat)            // leases in the table when the process came up

  datatype Action =
    | Receive(cid: nat, kind: Kind, ias: seq<IA>, hostname: string, now: Time, envs: seq<Env>, end: Time, room: seq<bool>)
    | Sweep(cid: nat, keys: seq<Key>, addrs: seq<Addr>, now: Time, room: seq<bool>)
    | WriteOk
    | WriteFails
    | Settle(cid: nat, now: Time)
    | Restart(rows: seq<(Key, Addr)>, walk: seq<Key>)

  // ----- start-up ------------------------------------------------------------------------

  /** loadRecords: a later row for the same client replaces an earlier one. */
  function Load(db: Rows, rows: seq<(Key, Addr)>): (m: map<Key, (Addr, Row)>)
    requires forall i :: 0 <= i < |rows| ==> rows[i] in db
    ensures forall k :: k in m ==> (k, m[k].0) in db && m[k].1 == db[(k, m[k].0)]
    ensures forall i :: 0 <= i < |rows| ==> rows[i].0 in m
  {
    if rows == [] then map[] else
    var x := rows[|rows| - 1];
    Load(db, rows[..|rows| - 1])[x.0 := (x.1, db[x])]
  }

  /** The replay loop: each stored address has to be the one the allocator hands back. */
  function Replay(c: Config, m: map<Key, (Addr, Row)>, walk: seq<Key>): Option<set<Addr>>
    requires forall i :: 0 <= i < |walk| ==> walk[i] in m
  {
    if walk == [] then Some({}) else
    match Replay(c, m, walk[..|walk| - 1])
    case None => None
    case Some(taken) =>
      var ip := m[walk[|walk| - 1]].0;
      if AllocatorAllocate(c, taken, Some(ip)) == Some(ip) then Some(taken + {ip}) else None
  }

  // Records read at start-up share one id: an undo compares the key as well, and a key's
  // later records all have ids of their own.
  function Restored(m: map<Key, (Addr, Row)>, taken: set<Addr>): Pool {
    Pool(map k | k in m :: Record(0, m[k].0, m[k].1), map[], taken, [], [], 0, 1, [])
  }

  /** Both walks visit everything, once. */
  ghost predicate Walk<T>(order: seq<T>, all: set<T>) {
    && (forall i :: 0 <= i < |order| ==> order[i] in all)
    && (forall x :: x in all ==> x in order)
    && (forall i, j :: 0 <= i < j < |order| ==> order[i] != order[j])
  }

  // ----- steps ----------------------------------------------------------------------------

  /** The scan of the quarantine that an IA may run sees every entry. */
  ghost predicate WalksAll(
      c: Config, p: Pool, kind: Kind, ias: seq<IA>, hostname: string, now: Time, envs: seq<Env>)
    requires |envs| == |ias|
  {
    ias != [] ==>
      var n := |ias| - 1;
      && WalksAll(c, p, kind, ias[..n], hostname, now, envs[..n])
      && Walks(AnswerAll(c, p, kind, ias[..n], hostname, now, envs[..n]).0, envs[n])
  }

  /** settleAll returns once every change of the call has its result. */
  ghost predicate AllDone(s: Sys, call: Call) {
    forall i :: 0 <= i < |call.pending| ==> call.pending[i].ticket in s.done
  }

  ghost predicate Enabled(c: Config, s: Sys, a: Action) {
    match a
    case Receive(cid, kind, ias, hostname, now, envs, end, room) =>
      && cid !in s.calls && s.clock <= now <= end
      && |envs| == |ias|
      && (forall i :: 0 <= i < |envs| ==> envs[i].later <= end)
      && WalksAll(c, s.pool.(room := room), kind, ias, hostname, now, envs)
    case Sweep(cid, keys, addrs, now, room) => cid !in s.calls && s.clock <= now
    case WriteOk => s.pool.queue != []
    case WriteFails => s.pool.queue != []
    case Settle(cid, now) => cid in s.calls && s.clock <= now && AllDone(s, s.calls[cid])
    case Restart(rows, walk) =>
      && Walk(rows, s.db.Keys)
      && Walk(walk, Load(s.db, rows).Keys)
      && Replay(c, Load(s.db, rows), walk).Some?
  }

  function KeysOf(ias: seq<IA>): seq<Key> {
    seq(|ias|, i requires 0 <= i < |ias| => ias[i].key)
  }

  /** The undos of the changes that failed, in the order they were queued. */
  function Failed(done: map<nat, bool>, pending: seq<Pending>): seq<Undo> {
    if pending == [] then [] else
    var n := |pending| - 1;
    var before := Failed(done, pending[..n]);
    if pending[n].ticket in done && !done[pending[n].ticket] then before + [pending[n].undo] else before
  }

  /** withLock hands the caller what the section queued and leaves the list empty. */
  ghost function Park(s: Sys, cid: nat, keys: seq<Key>, answers: seq<Answered>): Sys {
    s.(pool := s.pool.(pending := []), calls := s.calls[cid := Call(keys, answers, s.pool.pending)])
  }

  function Writer(c: Config, s: Sys, ok: bool): Sys
    requires s.pool.queue != []
  {
    var e := s.pool.queue[0];
    s.(pool := s.pool.(queue := s.pool.queue[1..]),
       db := if ok then Apply(c.family, s.db, e.write) else s.db,
       done := s.done[e.ticket := ok])
  }

  ghost function Next(c: Config, s: Sys, a: Action): Sys
    requires Enabled(c, s, a)
  {
    match a
    case Receive(cid, kind, ias, hostname, now, envs, end, room) =>
      var (p, answers) := AnswerAll(c, s.pool.(room := room), kind, ias, hostname, now, envs);
      Park(s.(pool := p, clock := end), cid, KeysOf(ias), answers)
    case Sweep(cid, keys, addrs, now, room) =>
      var p := Reclaim(c, s.pool.(room := room), keys, addrs, now).0;
      Park(s.(pool := p, clock := now), cid, [], [])
    case WriteOk => Writer(c, s, true)
    case WriteFails => Writer(c, s, false)
    case Settle(cid, now) =>
      s.(pool := RunUndos(s.pool, Failed(s.done, s.calls[cid].pending)), calls := s.calls - {cid}, clock := now)
    case Restart(rows, walk) =>
      var m := Load(s.db, rows);
      Sys(Restored(m, Replay(c, m, walk).value), s.db, map[], map[], s.clock, |m|)
  }

  /** A run is any list of actions, each possible where it happens. */
  ghost predicate Run(c: Config, s: Sys, actions: seq<Action>)
    decreases |actions|
  {
    actions == [] || (Enabled(c, s, actions[0]) && Run(c, Next(c, s, actions[0]), actions[1..]))
  }

  ghost function Final(c: Config, s: Sys, actions: seq<Action>): Sys
    requires Run(c, s, actions)
    decreases |actions|
  {
    if actions == [] then s else Final(c, Next(c, s, actions[0]), actions[1..])
  }

  /** A process that has just come up with an empty lease file. */
  function Fresh(now: Time): Sys {
    Sys(Restored(map[], {}), map[], map[], map[], now, 0)
  }

  // ----- the partition and the bounds, in every run ----------------------------------------

  /** What holds between locked sections, whatever fails and whoever overlaps. */
  ghost predicate Consistent(c: Config, s: Sys) {
    && Partition(c, s.pool)
    && Bounded(c, s.pool, s.started)
    && s.pool.pending == []
  }

  lemma RoomIsOutside(c: Config, p: Pool, q: Pool)
    requires q == p.(room := q.room, pending := q.pending, queue := q.queue, tickets := q.tickets)
    ensures Partition(c, p) <==> Partition(c, q)
  {
    assert LeasedAddrs(p) == LeasedAddrs(q);
  }

  /** Dropping a lease whose row was not written. */
  lemma DropKeeps(c: Config, p: Pool, q: Pool, k: Key, started: nat)
    requires Partition(c, p) && Bounded(c, p, started) && k in p.table
    requires q == p.(table := p.table - {k}, taken := p.taken - {p.table[k].ip})
    ensures Partition(c, q) && Bounded(c, q, started)
  {
    hide Partition;
    FreeKeepsPartition(c, p, k);
    FewerKeys(p.table, k);
    RoomIsOutside(c, Do(p, FreeLease(k)), q);
  }

  /** Cutting a renewal back. */
  lemma CutBackKeeps(c: Config, p: Pool, q: Pool, k: Key, row: Row, started: nat)
    requires Partition(c, p) && Bounded(c, p, started) && k in p.table
    requires q == p.(table := p.table[k := p.table[k].(row := row)])
    ensures Partition(c, q) && Bounded(c, q, started)
  {
    hide Partition;
    ProlongKeepsPartition(c, p, k, row);
    MoreKeys(p.table, k, p.table[k].(row := row));
    RoomIsOutside(c, Do(p, Prolong(k, row)), q);
  }

  /** Undoing never frees an address that some client still holds. */
  lemma UndoKeeps(c: Config, p: Pool, u: Undo, started: nat)
    requires Partition(c, p) && Bounded(c, p, started)
    ensures Partition(c, RunUndo(p, u)) && Bounded(c, RunUndo(p, u), started)
  {
    hide Partition, Bounded;
    var q := RunUndo(p, u);
    if q != p {
      if u.DropUnwritten? {
        DropKeeps(c, p, q, u.key, started);
      } else {
        CutBackKeeps(c, p, q, u.key, u.was, started);
      }
    }
  }

  lemma {:induction false} UndosKeep(c: Config, p: Pool, undos: seq<Undo>, started: nat)
    requires Partition(c, p) && Bounded(c, p, started)
    ensures Partition(c, RunUndos(p, undos)) && Bounded(c, RunUndos(p, undos), started)
    decreases |undos|
  {
    if undos == [] {
      return;
    }
    var last, init := undos[|undos| - 1], undos[..|undos| - 1];
    var q := RunUndo(p, last);
    UndoKeeps(c, p, last, started);
    UndosKeep(c, q, init, started);
    assert RunUndos(p, undos) == RunUndos(q, init);
  }

  lemma LeasedIsTaken(c: Config, p: Pool, key: Key)
    requires Partition(c, p) && key in p.table
    ensures p.table[key].ip in p.taken
  {
  }

  /** Late undos of other clients' changes leave a client its lease, and its address taken. */
  lemma {:induction false} UndosSpareOthers(c: Config, p: Pool, undos: seq<Undo>, started: nat, key: Key)
    requires Partition(c, p) && Bounded(c, p, started) && key in p.table
    requires forall u :: u in undos ==> u.Nothing? || u.key != key
    ensures var q := RunUndos(p, undos);
      key in q.table && q.table[key] == p.table[key] && p.table[key].ip in q.taken
    decreases |undos|
  {
    hide Partition, Bounded;
    LeasedIsTaken(c, p, key);
    if undos != [] {
      var last, init := undos[|undos| - 1], undos[..|undos| - 1];
      assert last in undos;
      UndoKeeps(c, p, last, started);
      UndosSpareOthers(c, RunUndo(p, last), init, started, key);
    }
  }

  lemma {:induction false} UndosTouch(p: Pool, undos: seq<Undo>)
    ensures RunUndos(p, undos) == p.(table := RunUndos(p, undos).table, taken := RunUndos(p, undos).taken)
    decreases |undos|
  {
    if undos != [] {
      UndosTouch(RunUndo(p, undos[|undos| - 1]), undos[..|undos| - 1]);
    }
  }

  lemma {:induction false} AnswersKeep(
      c: Config, p: Pool, kind: Kind, ias: seq<IA>, hostname: string, now: Time, envs: seq<Env>, end: Time, started: nat)
    requires |envs| == |ias| && now <= end && forall i :: 0 <= i < |envs| ==> envs[i].later <= end
    requires Partition(c, p) && Bounded(c, p, started)
    requires WalksAll(c, p, kind, ias, hostname, now, envs)
    ensures var q := AnswerAll(c, p, kind, ias, hostname, now, envs).0;
      Partition(c, q) && Bounded(c, q, started)
  {
    if ias != [] {
      var n := |ias| - 1;
      AnswersKeep(c, p, kind, ias[..n], hostname, now, envs[..n], end, started);
      var q := AnswerAll(c, p, kind, ias[..n], hostname, now, envs[..n]).0;
      var ops := AnswerTrace(c, q, kind, ias[n], hostname, now, envs[n], end);
      DoAllKeepsPartition(c, q, ops, Voice(kind, ias[n].key), end);
      DoAllKeepsBounds(c, q, ops, Voice(kind, ias[n].key), end, started);
    }
  }

  lemma AnswerAllSteps(c: Config, p: Pool, kind: Kind, ias: seq<IA>, hostname: string, now: Time, envs: seq<Env>)
    requires |envs| == |ias|
    ensures ias == [] ==> AnswerAll(c, p, kind, ias, hostname, now, envs) == (p, [])
    ensures ias != [] ==>
      var n := |ias| - 1;
      var (q, answers) := AnswerAll(c, p, kind, ias[..n], hostname, now, envs[..n]);
      var (r, answer) := AnswerIA(c, q, kind, ias[n], hostname, now, envs[n]);
      && AnswerAll(c, p, kind, ias, hostname, now, envs)
         == (r, answers + [Answered(ias[n].key, answer, |q.pending|, |r.pending|)])
      && (WalksAll(c, p, kind, ias, hostname, now, envs) ==>
        WalksAll(c, p, kind, ias[..n], hostname, now, envs[..n]) && Walks(q, envs[n]))
  {
    hide AnswerIA, Walks;
  }

  lemma {:induction false} WalksPrefix(
      c: Config, p: Pool, kind: Kind, ias: seq<IA>, hostname: string, now: Time, envs: seq<Env>, n: nat)
    requires |envs| == |ias| && n <= |ias| && WalksAll(c, p, kind, ias, hostname, now, envs)
    ensures WalksAll(c, p, kind, ias[..n], hostname, now, envs[..n])
    ensures n < |ias| ==> Walks(AnswerAll(c, p, kind, ias[..n], hostname, now, envs[..n]).0, envs[n])
    decreases |ias|
  {
    hide AnswerAll, Walks;
    if n == |ias| {
      assert ias[..n] == ias && envs[..n] == envs;
    } else {
      var m := |ias| - 1;
      WalksPrefix(c, p, kind, ias[..m], hostname, now, envs[..m], n);
      assert ias[..m][..n] == ias[..n] && envs[..m][..n] == envs[..n];
    }
  }

  lemma BoundedDeclines(c: Config, p: Pool, started: nat)
    requires Bounded(c, p, started)
    ensures |p.declined| <= c.declineMax
  {
  }

  lemma RoomBounds(c: Config, p: Pool, room: seq<bool>, started: nat)
    requires Bounded(c, p, started)
    ensures Bounded(c, p.(room := room), started)
  {
  }

  // ----- a locked section as one trace --------------------------------------------------------

  /** On whose behalf the IAs from the n-th on speak. */
  ghost function Voices(kind: Kind, ias: seq<IA>, n: nat): set<Speaker> {
    set i | n <= i < |ias| :: Voice(kind, ias[i].key)
  }

  /** The rest of a message, from its n-th IA on. */
  lemma {:induction false} MessageTrace(
      c: Config, p: Pool, kind: Kind, ias: seq<IA>, hostname: string, now: Time, envs: seq<Env>, n: nat, end: Time,
      started: nat)
    returns (ops: seq<Op>)
    requires |envs| == |ias| && n <= |ias| && now <= end && forall i :: 0 <= i < |envs| ==> envs[i].later <= end
    requires Partition(c, p) && Bounded(c, p, started) && WalksAll(c, p, kind, ias, hostname, now, envs)
    ensures var q := AnswerAll(c, p, kind, ias[..n], hostname, now, envs[..n]).0;
      && LegalAmong(c, q, ops, Voices(kind, ias, n), end)
      && DoAll(q, ops) == AnswerAll(c, p, kind, ias, hostname, now, envs).0
    decreases |ias|
  {
    hide Partition, Bounded, AnswerIA, AnswerAll, WalksAll, Legal, Do;
    ops := [];
    if n == |ias| {
      assert ias[..n] == ias && envs[..n] == envs;
    } else {
      var m := |ias| - 1;
      var init := ias[..m];
      AnswerAllSteps(c, p, kind, ias, hostname, now, envs);
      AnswersKeep(c, p, kind, init, hostname, now, envs[..m], end, started);
      ops := MessageTrace(c, p, kind, init, hostname, now, envs[..m], n, end, started);
      assert init[..n] == ias[..n] && envs[..m][..n] == envs[..n];
      var q, r := AnswerAll(c, p, kind, ias[..n], hostname, now, envs[..n]).0, AnswerAll(c, p, kind, init, hostname, now, envs[..m]).0;
      BoundedDeclines(c, r, started);
      var more := AnswerTrace(c, r, kind, ias[m], hostname, now, envs[m], end);
      assert Voices(kind, init, n) <= Voices(kind, ias, n) by {
        assert forall i :: n <= i < m ==> init[i] == ias[i];
      }
      AmongThen(c, q, ops, Voices(kind, init, n), more, Voice(kind, ias[m].key), Voices(kind, ias, n), end);
      ops := ops + more;
    }
  }

  /** When a section lets go of the lock. */
  function Until(a: Action): Time
    requires a.Receive? || a.Sweep?
  {
    if a.Receive? then a.end else a.now
  }

  function Entered(s: Sys, a: Action): Sys
    requires a.Receive? || a.Sweep?
  {
    s.(clock := Until(a), pool := s.pool.(room := a.room))
  }

  ghost function Speakers(a: Action): set<Speaker>
    requires a.Receive? || a.Sweep?
  {
    if a.Receive? then Voices(a.kind, a.ias, 0) else {Nobody}
  }

  /** What a section has to tell its caller. */
  ghost function Says(c: Config, s: Sys, a: Action): seq<Answered>
    requires Enabled(c, s, a) && (a.Receive? || a.Sweep?)
  {
    if a.Receive? then AnswerAll(c, Entered(s, a).pool, a.kind, a.ias, a.hostname, a.now, a.envs).1 else []
  }

  /** Every locked section is one trace of elementary changes, parked with its caller. */
  lemma SectionTrace(c: Config, s: Sys, a: Action) returns (ops: seq<Op>)
    requires Consistent(c, s) && Enabled(c, s, a) && (a.Receive? || a.Sweep?)
    ensures var t := Entered(s, a);
      && Partition(c, t.pool) && LegalAmong(c, t.pool, ops, Speakers(a), t.clock)
      && Next(c, s, a) ==
         Park(t.(pool := DoAll(t.pool, ops)), a.cid, if a.Receive? then KeysOf(a.ias) else [], Says(c, s, a))
  {
    hide Partition, Bounded, AnswerAll, WalksAll, Reclaim, Legal, Do;
    var t := Entered(s, a);
    RoomIsOutside(c, s.pool, t.pool);
    if a.Receive? {
      RoomBounds(c, s.pool, a.room, s.started);
      ops := MessageTrace(c, t.pool, a.kind, a.ias, a.hostname, a.now, a.envs, 0, a.end, s.started);
      NothingYet(c, t.pool, a.kind, a.ias, a.hostname, a.now, a.envs);
    } else {
      ops := ReclaimTrace(c, t.pool, a.keys, a.addrs, a.now, Nobody, a.now);
      AmongThen(c, t.pool, [], {}, ops, Nobody, {Nobody}, a.now);
      assert [] + ops == ops;
    }
  }

  lemma NothingYet(c: Config, p: Pool, kind: Kind, ias: seq<IA>, hostname: string, now: Time, envs: seq<Env>)
    requires |envs| == |ias|
    ensures AnswerAll(c, p, kind, ias[..0], hostname, now, envs[..0]) == (p, [])
  {
  }

  lemma {:induction false} ReplayExactly(c: Config, m: map<Key, (Addr, Row)>, walk: seq<Key>)
    requires forall i :: 0 <= i < |walk| ==> walk[i] in m
    ensures Replay(c, m, walk).Some? <==>
      && (forall i :: 0 <= i < |walk| ==> InPool(c, m[walk[i]].0))
      && (forall i, j :: 0 <= i < j < |walk| ==> m[walk[i]].0 != m[walk[j]].0)
    ensures Replay(c, m, walk).Some? ==> Replay(c, m, walk).value == set i | 0 <= i < |walk| :: m[walk[i]].0
  {
    if walk != [] {
      var n := |walk| - 1;
      var init := walk[..n];
      ReplayExactly(c, m, init);
      assert forall i :: 0 <= i < n ==> init[i] == walk[i];
      if Replay(c, m, init).Some? {
        var ip := m[walk[n]].0;
        var taken := Replay(c, m, init).value;
        assert AllocatorAllocate(c, taken, Some(ip)) == Some(ip) <==> InPool(c, ip) && ip !in taken;
        assert ip in taken <==> exists i :: 0 <= i < n && m[walk[i]].0 == ip;
      }
    }
  }

  /** The addresses of a loaded table, in whatever order it is walked. */
  lemma RestoredAddrs(m: map<Key, (Addr, Row)>, taken: set<Addr>, walk: seq<Key>)
    requires Walk(walk, m.Keys)
    ensures LeasedAddrs(Restored(m, taken)) == set i | 0 <= i < |walk| :: m[walk[i]].0
  {
    var p, all := Restored(m, taken), set i | 0 <= i < |walk| :: m[walk[i]].0;
    forall a | a in all ensures a in LeasedAddrs(p) {
      var i :| 0 <= i < |walk| && m[walk[i]].0 == a;
      assert walk[i] in p.table && p.table[walk[i]].ip == a;
    }
    forall a | a in LeasedAddrs(p) ensures a in all {
      var k :| k in p.table && p.table[k].ip == a;
      assert k in m.Keys && k in walk;
      var i :| 0 <= i < |walk| && walk[i] == k;
    }
  }

  lemma RestoredApart(m: map<Key, (Addr, Row)>, walk: seq<Key>)
    requires Walk(walk, m.Keys)
    requires forall i, j :: 0 <= i < j < |walk| ==> m[walk[i]].0 != m[walk[j]].0
    ensures forall k, j :: k in m && j in m && k != j ==> m[k].0 != m[j].0
  {
    forall k, j | k in m && j in m && k != j ensures m[k].0 != m[j].0 {
      assert k in m.Keys && j in m.Keys && k in walk && j in walk;
      var x :| 0 <= x < |walk| && walk[x] == k;
      var y :| 0 <= y < |walk| && walk[y] == j;
      assert x < y || y < x;
    }
  }

  lemma RestartKeeps(c: Config, m: map<Key, (Addr, Row)>, walk: seq<Key>)
    requires Walk(walk, m.Keys) && Replay(c, m, walk).Some?
    ensures var p := Restored(m, Replay(c, m, walk).value);
      Partition(c, p) && Bounded(c, p, |m|)
  {
    hide Replay, LeasedAddrs;
    ReplayExactly(c, m, walk);
    var taken := Replay(c, m, walk).value;
    RestoredAddrs(m, taken, walk);
    RestoredApart(m, walk);
    assert Restored(m, taken).table.Keys == m.Keys;
  }

  lemma StepKeepsConsistent(c: Config, s: Sys, a: Action)
    requires Consistent(c, s) && Enabled(c, s, a)
    ensures Consistent(c, Next(c, s, a))
  {
    match a
    case Receive(cid, kind, ias, hostname, now, envs, end, room) =>
      var p := s.pool.(room := room);
      RoomIsOutside(c, s.pool, p);
      AnswersKeep(c, p, kind, ias, hostname, now, envs, end, s.started);
      RoomIsOutside(c, AnswerAll(c, p, kind, ias, hostname, now, envs).0, Next(c, s, a).pool);
    case Sweep(cid, keys, addrs, now, room) =>
      var p := s.pool.(room := room);
      RoomIsOutside(c, s.pool, p);
      var ops := ReclaimTrace(c, p, keys, addrs, now, Nobody, now);
      DoAllKeepsPartition(c, p, ops, Nobody, now);
      DoAllKeepsBounds(c, p, ops, Nobody, now, s.started);
      RoomIsOutside(c, DoAll(p, ops), Next(c, s, a).pool);
    case WriteOk => RoomIsOutside(c, s.pool, Next(c, s, a).pool);
    case WriteFails => RoomIsOutside(c, s.pool, Next(c, s, a).pool);
    case Settle(cid, now) =>
      UndosKeep(c, s.pool, Failed(s.done, s.calls[cid].pending), s.started);
      UndosTouch(s.pool, Failed(s.done, s.calls[cid].pending));
    case Restart(rows, walk) => RestartKeeps(c, Load(s.db, rows), walk);
  }

  /**
   In every run, whatever fails and however callers overlap: the allocator's bits
   are the disjoint union of the leased and the quarantined addresses, no address
   has two clients, the quarantine stays within decline-max and the table within
   the larger of max-leases and its size at start-up.
   */
  lemma {:induction false} RunsKeepThePartition(c: Config, s: Sys, actions: seq<Action>)
    requires Consistent(c, s) && Run(c, s, actions)
    ensures Consistent(c, Final(c, s, actions))
    decreases |actions|
  {
    if actions != [] {
      StepKeepsConsistent(c, s, actions[0]);
      RunsKeepThePartition(c, Next(c, s, actions[0]), actions[1..]);
    }
  }

  lemma FreshIsConsistent(c: Config, now: Time)
    ensures Consistent(c, Fresh(now))
  {
    assert LeasedAddrs(Fresh(now).pool) == {};
  }
}
