/**
 The limits of the guarantees, each with a run that crosses it, on a pool of one address.

 A failed delete has no undo, so its row outlives the lease. So does the row of a renewal
 that lands behind a failed first store, when that store's caller drops the lease. Once
 another client has been given the address, two rows name it and the next start refuses
 the lease file.

 A message taken up while the store behind its client's binding is undecided may be
 answered from the record alone, or renew the record to a second the undo looks for.
 Then the client loses what it was told.
 */
module LeaseStranded {
  import opened Wrappers
  import opened LeaseModel
  import opened LeaseSystem
  import opened LeaseTold
  import opened LeaseFailures
  import opened LeaseKept

  /** Start-up succeeds exactly on a lease file whose loaded rows are distinct and in the pool. */
  lemma StartsExactlyWhenDistinct(c: Config, db: Rows, rows: seq<(Key, Addr)>, walk: seq<Key>)
    requires Walk(rows, db.Keys) && Walk(walk, Load(db, rows).Keys)
    ensures var m := Load(db, rows);
      Replay(c, m, walk).Some? <==>
        && (forall k :: k in m ==> InPool(c, m[k].0))
        && (forall k, j :: k in m && j in m && k != j ==> m[k].0 != m[j].0)
  {
    var m := Load(db, rows);
    ReplayExactly(c, m, walk);
    forall k | k in m ensures exists i :: 0 <= i < |walk| && walk[i] == k {
      assert k in m.Keys;
    }
  }

  /** No order of rows and no map order lets the server start from a file with two clients on one address. */
  lemma StrandedForGood(c: Config, db: Rows, rows: seq<(Key, Addr)>, walk: seq<Key>, k: Key, j: Key, ip: Addr)
    requires Walk(rows, db.Keys) && Walk(walk, Load(db, rows).Keys)
    requires k != j && (k, ip) in db && (j, ip) in db && Lone(db, k, ip) && Lone(db, j, ip)
    ensures Replay(c, Load(db, rows), walk).None?
  {
    var m := Load(db, rows);
    StartsExactlyWhenDistinct(c, db, rows, walk);
    assert (k, ip) in db.Keys && (j, ip) in db.Keys;
    assert k in m && j in m;
  }

  /** So it is with what two of the runs below leave behind. */
  lemma TwoOnOne(db: Rows, rows: seq<(Key, Addr)>, walk: seq<Key>)
    requires db.Keys == {("a", 1), ("b", 1)} && Walk(rows, db.Keys) && Walk(walk, Load(db, rows).Keys)
    ensures Replay(ONE, Load(db, rows), walk).None?
  {
    assert ("a", 1) in db.Keys && ("b", 1) in db.Keys;
    assert forall x :: x in db ==> x in db.Keys;
    StrandedForGood(ONE, db, rows, walk, "a", "b", 1);
  }

  // ----- steps of the runs below ---------------------------------------------------------------------

  const ONE: Config := Config(V4, 1, 1, 10 * SECOND, 0, 0, 0)
  const NO_WALK: Env := Env(0, [], [], [], [], [])

  function Ask(cid: nat, kind: Kind, client: Key, now: Time): Action {
    Asking(cid, kind, IA(client, [1]), "", now, NO_WALK, now, [])
  }

  /** The states a list of actions goes through. */
  ghost predicate Path(c: Config, states: seq<Sys>, actions: seq<Action>) {
    && |states| == |actions| + 1
    && forall i :: 0 <= i < |actions| ==> Enabled(c, states[i], actions[i]) && Next(c, states[i], actions[i]) == states[i + 1]
  }

  ghost predicate OnlyStoresFail(states: seq<Sys>, actions: seq<Action>) {
    forall i :: 0 <= i < |actions| && i < |states| && actions[i].WriteFails? ==>
      states[i].pool.queue != [] && states[i].pool.queue[0].write.Store?
  }

  lemma {:induction false} PathRuns(c: Config, states: seq<Sys>, actions: seq<Action>)
    requires Path(c, states, actions)
    ensures Run(c, states[0], actions) && Final(c, states[0], actions) == states[|actions|]
    ensures OnlyStoresFail(states, actions) ==> DeletesLand(c, states[0], actions)
    decreases |actions|
  {
    hide Enabled, Next;
    if actions != [] {
      PathRuns(c, states[1..], actions[1..]);
    }
  }

  lemma {:induction false} PathAt(c: Config, states: seq<Sys>, actions: seq<Action>, n: nat)
    requires Path(c, states, actions) && n <= |actions|
    ensures Run(c, states[0], actions[..n]) && Final(c, states[0], actions[..n]) == states[n]
  {
    hide Enabled, Next, Run, Final;
    PathRuns(c, states[..n + 1], actions[..n]);
  }

  ghost function Parked(s: Sys, q: Pool, cid: nat, client: Key, answer: Answer, now: Time): Sys {
    Park(s.(pool := q, clock := now), cid, [client], [Answered(client, answer, 0, |q.pending|)])
  }

  /** The section of a message from one client, given what its IA did. */
  lemma AskStep(s: Sys, cid: nat, kind: Kind, client: Key, now: Time, q: Pool, answer: Answer)
    requires s.pool.pending == [] && s.pool.room == [] && s.pool.declined == map[]
    requires cid !in s.calls && s.clock <= now && 0 <= now
    requires AnswerIA(ONE, s.pool, kind, IA(client, [1]), "", now, NO_WALK) == (q, answer)
    ensures Enabled(ONE, s, Ask(cid, kind, client, now))
    ensures Next(ONE, s, Ask(cid, kind, client, now)) == Parked(s, q, cid, client, answer, now)
  {
    hide AnswerIA;
    assert s.pool.(room := []) == s.pool;
    AnswerOne(ONE, s.pool, kind, IA(client, [1]), "", now, NO_WALK);
    assert KeysOf([IA(client, [1])]) == [client];
  }

  lemma SettleStep(s: Sys, cid: nat, now: Time, w: Pending)
    requires cid in s.calls && s.calls[cid].pending == [w] && w.ticket in s.done && s.clock <= now
    ensures Enabled(ONE, s, Settle(cid, now))
    ensures Next(ONE, s, Settle(cid, now)) ==
      s.(pool := if s.done[w.ticket] then s.pool else RunUndo(s.pool, w.undo), calls := s.calls - {cid}, clock := now)
  {
    assert [w][..0] == [] && [w.undo][..0] == [];
    assert Failed(s.done, []) == [];
    assert Failed(s.done, [w]) == if s.done[w.ticket] then [] else [w.undo];
    NoUndos(s.pool);
    NoUndos(RunUndo(s.pool, w.undo));
  }

  lemma NewLease(p: Pool, client: Key, now: Time)
    requires p.table == map[] && p.taken == {} && p.room == []
    ensures var until := Unix(now + 10 * SECOND);
      AnswerIA(ONE, p, Bind, IA(client, [1]), "", now, NO_WALK) == (Leased(p, client, 1, Row(until, "")), Bound(p.ids, 1, until))
  {
  }

  lemma RenewsLease(p: Pool, kind: Kind, client: Key, now: Time)
    requires (kind.Bind? || kind.Extend?) && client in p.table && p.room == []
    requires !Expired(p.table[client], now) && p.table[client].row.expires * SECOND < now + 10 * SECOND
    ensures AnswerIA(ONE, p, kind, IA(client, [1]), "", now, NO_WALK)
      == (Renewed(p, client, Row(Rounded(now + 10 * SECOND), "")),
          Bound(p.table[client].id, p.table[client].ip, Unix(now + 10 * SECOND)))
  {
  }

  // ----- a failed delete ---------------------------------------------------------------------------------

  const LOST_DELETE: seq<Action> := [
    Ask(0, Bind, "a", 0), WriteOk, Settle(0, 0),
    Ask(0, Release, "a", 0), WriteFails, Settle(0, 0),
    Ask(0, Bind, "b", 0), WriteOk, Settle(0, 0)]

  const LEASE: Row := Row(10, "")

  /** The delete of a released lease fails, and the address goes to the next client. */
  lemma LostDeleteRun()
    ensures Run(ONE, Fresh(0), LOST_DELETE)
    ensures Final(ONE, Fresh(0), LOST_DELETE).db == map[("a", 1) := LEASE, ("b", 1) := LEASE]
  {
    hide AnswerIA, Next, Enabled, Run, Final, DeletesLand;
    var s0 := Fresh(0);
    NewLease(s0.pool, "a", 0);
    var q0 := Leased(s0.pool, "a", 1, LEASE);
    AskStep(s0, 0, Bind, "a", 0, q0, Bound(1, 1, 10));
    var s1 := Parked(s0, q0, 0, "a", Bound(1, 1, 10), 0);
    WriteStep(ONE, s1, true);
    var s2 := Writer(ONE, s1, true);
    SettleStep(s2, 0, 0, Pending(0, DropUnwritten("a", 1)));
    var s3 := s2.(calls := map[]);
    var q3 := ReleaseLease(s3.pool, "a").0;
    assert AnswerIA(ONE, s3.pool, Release, IA("a", [1]), "", 0, NO_WALK) == (q3, Done) by { Released(s3.pool, "a"); }
    AskStep(s3, 0, Release, "a", 0, q3, Done);
    var s4 := Parked(s3, q3, 0, "a", Done, 0);
    WriteStep(ONE, s4, false);
    var s5 := Writer(ONE, s4, false);
    SettleStep(s5, 0, 0, Pending(1, Nothing));
    var s6 := s5.(calls := map[]);
    NewLease(s6.pool, "b", 0);
    var q6 := Leased(s6.pool, "b", 1, LEASE);
    AskStep(s6, 0, Bind, "b", 0, q6, Bound(2, 1, 10));
    var s7 := Parked(s6, q6, 0, "b", Bound(2, 1, 10), 0);
    WriteStep(ONE, s7, true);
    var s8 := Writer(ONE, s7, true);
    SettleStep(s8, 0, 0, Pending(2, DropUnwritten("b", 2)));
    var s9 := s8.(calls := map[]);
    var states := [s0, s1, s2, s3, s4, s5, s6, s7, s8, s9];
    assert Path(ONE, states, LOST_DELETE);
    PathRuns(ONE, states, LOST_DELETE);
  }

  lemma Released(p: Pool, client: Key)
    requires client in p.table && p.table[client].ip == 1 && 1 in p.taken && p.room == []
    ensures AnswerIA(ONE, p, Release, IA(client, [1]), "", 0, NO_WALK) == (ReleaseLease(p, client).0, Done)
  {
  }

  // ----- a failed first store behind which a renewal lands ---------------------------------------------------

  const SOON: Time := 500_000_000
  const AGAIN: Time := 600_000_000
  const RENEWAL: Row := Row(11, "")

  // A client's first message, its retransmission, and a second client.
  const LOST_STORE: seq<Action> := [
    Ask(0, Bind, "a", SOON), Ask(1, Bind, "a", AGAIN), WriteFails, WriteOk, Settle(1, AGAIN), Settle(0, AGAIN),
    Ask(0, Bind, "b", AGAIN), WriteOk]

  /** Up to the reply to the retransmission. */
  lemma LostStoreStart() returns (states: seq<Sys>)
    ensures |states| == 5 && states[0] == Fresh(0) && Path(ONE, states, LOST_STORE[..4])
    ensures OnlyStoresFail(states, LOST_STORE[..4])
    ensures var s := states[4];
      && Tells(ONE, s, 1, 0, AGAIN) && Reply(s, s.calls[1], 0) == Bound(1, 1, 10)
      && s.pool.table == map["a" := Record(1, 1, RENEWAL)] && s.pool.taken == {1} && s.pool.pending == [] && s.pool.declined == map[]
      && s.pool.queue == [] && s.pool.room == [] && s.pool.ids == 2 && s.pool.tickets == 2
      && s.calls.Keys == {0, 1} && s.calls[0].pending == [Pending(0, DropUnwritten("a", 1))]
      && s.calls[1].pending == [Pending(1, Shorten("a", 1, 11, LEASE))]
      && s.done == map[0 := false, 1 := true] && s.clock == AGAIN && s.db == map[("a", 1) := RENEWAL]
  {
    hide AnswerIA, Next, Enabled;
    var s0 := Fresh(0);
    NewLease(s0.pool, "a", SOON);
    var q0 := Leased(s0.pool, "a", 1, LEASE);
    AskStep(s0, 0, Bind, "a", SOON, q0, Bound(1, 1, 10));
    var s1 := Parked(s0, q0, 0, "a", Bound(1, 1, 10), SOON);
    RenewsLease(s1.pool, Bind, "a", AGAIN);
    var q1 := Renewed(s1.pool, "a", RENEWAL);
    AskStep(s1, 1, Bind, "a", AGAIN, q1, Bound(1, 1, 10));
    var s2 := Parked(s1, q1, 1, "a", Bound(1, 1, 10), AGAIN);
    WriteStep(ONE, s2, false);
    var s3 := Writer(ONE, s2, false);
    WriteStep(ONE, s3, true);
    var s4 := Writer(ONE, s3, true);
    SettleStep(s4, 1, AGAIN, Pending(1, Shorten("a", 1, 11, LEASE)));
    states := [s0, s1, s2, s3, s4];
    assert LOST_STORE[..4] == [Ask(0, Bind, "a", SOON), Ask(1, Bind, "a", AGAIN), WriteFails, WriteOk];
  }

  /** From there to the row of the next client. */
  lemma LostStoreEnd(s4: Sys) returns (states: seq<Sys>)
    requires s4.pool.table == map["a" := Record(1, 1, RENEWAL)] && s4.pool.taken == {1} && s4.pool.pending == [] && s4.pool.declined == map[]
    requires s4.pool.queue == [] && s4.pool.room == [] && s4.pool.ids == 2 && s4.calls.Keys == {0, 1}
    requires s4.calls[0].pending == [Pending(0, DropUnwritten("a", 1))]
    requires s4.calls[1].pending == [Pending(1, Shorten("a", 1, 11, LEASE))]
    requires s4.done == map[0 := false, 1 := true] && s4.clock == AGAIN && s4.db == map[("a", 1) := RENEWAL]
    ensures |states| == 5 && states[0] == s4 && Path(ONE, states, LOST_STORE[4..])
    ensures states[1] == s4.(calls := s4.calls - {1}) && states[4].db == map[("a", 1) := RENEWAL, ("b", 1) := LEASE]
  {
    hide AnswerIA, Next, Enabled;
    SettleStep(s4, 1, AGAIN, Pending(1, Shorten("a", 1, 11, LEASE)));
    var s5 := s4.(calls := s4.calls - {1});
    SettleStep(s5, 0, AGAIN, Pending(0, DropUnwritten("a", 1)));
    var s6 := s5.(calls := s5.calls - {0}, pool := RunUndo(s5.pool, DropUnwritten("a", 1)));
    assert s6.pool.table == map[] && s6.pool.taken == {};
    NewLease(s6.pool, "b", AGAIN);
    var q6 := Leased(s6.pool, "b", 1, LEASE);
    AskStep(s6, 0, Bind, "b", AGAIN, q6, Bound(2, 1, 10));
    var s7 := Parked(s6, q6, 0, "b", Bound(2, 1, 10), AGAIN);
    WriteStep(ONE, s7, true);
    states := [s4, s5, s6, s7, Writer(ONE, s7, true)];
    assert LOST_STORE[4..] == [Settle(1, AGAIN), Settle(0, AGAIN), Ask(0, Bind, "b", AGAIN), WriteOk];
  }

  /**
   No delete is even tried. The retransmission renews in place and is told the address,
   with its own row on disk; the first caller's store failed, so it drops the lease; the
   next client gets the address, and the lease file can never be started from again.
   */
  lemma LostStoreRun()
    ensures Run(ONE, Fresh(0), LOST_STORE) && DeletesLand(ONE, Fresh(0), LOST_STORE)
    ensures Run(ONE, Fresh(0), LOST_STORE[..4])
    ensures var s := Final(ONE, Fresh(0), LOST_STORE[..4]);
      Tells(ONE, s, 1, 0, AGAIN) && Reply(s, s.calls[1], 0) == Bound(1, 1, 10)
    ensures Run(ONE, Fresh(0), LOST_STORE[..5]) && 0 in Final(ONE, Fresh(0), LOST_STORE[..5]).calls
    ensures StrandsFor(ONE, Final(ONE, Fresh(0), LOST_STORE[..5]), 0, "a")
    ensures Final(ONE, Fresh(0), LOST_STORE).db == map[("a", 1) := RENEWAL, ("b", 1) := LEASE]
  {
    hide Next, Enabled, Run, Final, DeletesLand, Tells, Reply, StrandsFor;
    var states := LostStoreStart();
    var more := LostStoreEnd(states[4]);
    var all := states + more[1..];
    assert Path(ONE, all, LOST_STORE) by {
      assert forall i :: 0 <= i < 4 ==> LOST_STORE[..4][i] == LOST_STORE[i] && LOST_STORE[4..][i] == LOST_STORE[i + 4];
    }
    PathRuns(ONE, all, LOST_STORE);
    PathAt(ONE, all, LOST_STORE, 4);
    PathAt(ONE, all, LOST_STORE, 5);
    StrandsHere(all[5]);
  }

  lemma StrandsHere(s: Sys)
    requires s.pool.table == map["a" := Record(1, 1, RENEWAL)] && s.pool.queue == [] && ("a", 1) in s.db
    requires 0 in s.calls && s.calls[0].pending == [Pending(0, DropUnwritten("a", 1))] && 0 in s.done && !s.done[0]
    ensures StrandsFor(ONE, s, 0, "a")
  {
    var pending := s.calls[0].pending;
    assert pending[..0] == [];
    assert Failed(s.done, []) == [];
    assert Failed(s.done, pending) == [DropUnwritten("a", 1)];
  }

  // ----- two renewals to one second ----------------------------------------------------------------------------

  const THREE: Time := 3_000_000_000
  const LATER: Time := 3_300_000_000
  const LONGER: Row := Row(13, "")

  // A lease on disk, and two renewals of which the first fails.
  const CUT_BACK: seq<Action> := [
    Ask(0, Bind, "a", 0), WriteOk, Settle(0, 0),
    Ask(1, Extend, "a", THREE), Ask(2, Extend, "a", LATER), WriteFails, WriteOk, Settle(2, LATER), Settle(1, LATER)]

  lemma CutBackStart() returns (states: seq<Sys>)
    ensures |states| == 4 && states[0] == Fresh(0) && Path(ONE, states, CUT_BACK[..3])
    ensures var s := states[3];
      && s.pool.table == map["a" := Record(1, 1, LEASE)] && s.pool.pending == [] && s.pool.queue == [] && s.pool.room == []
      && s.pool.declined == map[]
      && s.pool.tickets == 1 && s.calls == map[] && s.clock == 0 && s.db == map[("a", 1) := LEASE]
  {
    hide AnswerIA, Next, Enabled;
    var s0 := Fresh(0);
    NewLease(s0.pool, "a", 0);
    var q0 := Leased(s0.pool, "a", 1, LEASE);
    AskStep(s0, 0, Bind, "a", 0, q0, Bound(1, 1, 10));
    var s1 := Parked(s0, q0, 0, "a", Bound(1, 1, 10), 0);
    WriteStep(ONE, s1, true);
    var s2 := Writer(ONE, s1, true);
    SettleStep(s2, 0, 0, Pending(0, DropUnwritten("a", 1)));
    states := [s0, s1, s2, s2.(calls := map[])];
    assert CUT_BACK[..3] == [Ask(0, Bind, "a", 0), WriteOk, Settle(0, 0)];
  }

  /** Both renewals are queued. */
  lemma CutBackAsked(s3: Sys) returns (s4: Sys, s5: Sys)
    requires s3.pool.table == map["a" := Record(1, 1, LEASE)] && s3.pool.pending == [] && s3.pool.queue == []
    requires s3.pool.room == [] && s3.pool.declined == map[] && s3.pool.tickets == 1 && s3.calls == map[] && s3.clock == 0
    ensures Enabled(ONE, s3, Ask(1, Extend, "a", THREE)) && Next(ONE, s3, Ask(1, Extend, "a", THREE)) == s4
    ensures Enabled(ONE, s4, Ask(2, Extend, "a", LATER)) && Next(ONE, s4, Ask(2, Extend, "a", LATER)) == s5
    ensures s5.pool.table == map["a" := Record(1, 1, LONGER)] && s5.clock == LATER && s5.calls.Keys == {1, 2}
    ensures s5.pool.queue == [Entry(1, Store("a", 1, LONGER)), Entry(2, Store("a", 1, LONGER))]
    ensures s5.calls[1].pending == [Pending(1, Shorten("a", 1, 13, LEASE))]
    ensures s5.calls[2].pending == [Pending(2, Shorten("a", 1, 13, LONGER))]
    ensures s5.calls[2].answers == [Answered("a", Bound(1, 1, 13), 0, 1)]
  {
    hide AnswerIA, Next, Enabled;
    RenewsLease(s3.pool, Extend, "a", THREE);
    var q3 := Renewed(s3.pool, "a", LONGER);
    AskStep(s3, 1, Extend, "a", THREE, q3, Bound(1, 1, 13));
    s4 := Parked(s3, q3, 1, "a", Bound(1, 1, 13), THREE);
    RenewsLease(s4.pool, Extend, "a", LATER);
    var q4 := Renewed(s4.pool, "a", LONGER);
    AskStep(s4, 2, Extend, "a", LATER, q4, Bound(1, 1, 13));
    s5 := Parked(s4, q4, 2, "a", Bound(1, 1, 13), LATER);
  }

  /** Up to the reply to the second renewal. */
  lemma CutBackMiddle() returns (states: seq<Sys>)
    ensures |states| == 8 && states[0] == Fresh(0) && Path(ONE, states, CUT_BACK[..7])
    ensures var s := states[7];
      && Tells(ONE, s, 2, 0, LATER) && Reply(s, s.calls[2], 0) == Bound(1, 1, 13)
      && s.pool.table == map["a" := Record(1, 1, LONGER)] && s.calls.Keys == {1, 2} && s.clock == LATER
      && s.calls[1].pending == [Pending(1, Shorten("a", 1, 13, LEASE))] && 1 in s.done && !s.done[1]
      && s.calls[2].pending == [Pending(2, Shorten("a", 1, 13, LONGER))] && 2 in s.done && s.done[2]
  {
    hide AnswerIA, Next, Enabled;
    var start := CutBackStart();
    var s4, s5 := CutBackAsked(start[3]);
    WriteStep(ONE, s5, false);
    var s6 := Writer(ONE, s5, false);
    WriteStep(ONE, s6, true);
    var s7 := Writer(ONE, s6, true);
    SettleStep(s7, 2, LATER, Pending(2, Shorten("a", 1, 13, LONGER)));
    states := start + [s4, s5, s6, s7];
    assert forall i :: 0 <= i < 3 ==> CUT_BACK[..3][i] == CUT_BACK[..7][i];
  }

  /**
   The second renewal lands and its caller is told 13. The first one's undo looks for
   that very second, and cuts the record back to 10.
   */
  lemma CutBackRun()
    ensures Run(ONE, Fresh(0), CUT_BACK) && Run(ONE, Fresh(0), CUT_BACK[..7])
    ensures var s := Final(ONE, Fresh(0), CUT_BACK[..7]);
      Tells(ONE, s, 2, 0, LATER) && Reply(s, s.calls[2], 0) == Bound(1, 1, 13)
    ensures var s := Final(ONE, Fresh(0), CUT_BACK);
      s.pool.table == map["a" := Record(1, 1, LEASE)] && s.clock == LATER && !Held(s, "a", 1, 13)
  {
    hide AnswerIA, Next, Enabled, Run, Final, DeletesLand, Tells, Reply;
    var states := CutBackMiddle();
    var s7 := states[7];
    SettleStep(s7, 2, LATER, Pending(2, Shorten("a", 1, 13, LONGER)));
    var s8 := s7.(calls := s7.calls - {2});
    SettleStep(s8, 1, LATER, Pending(1, Shorten("a", 1, 13, LEASE)));
    var s9 := s8.(calls := s8.calls - {1}, pool := RunUndo(s8.pool, Shorten("a", 1, 13, LEASE)));
    var all := states + [s8, s9];
    assert forall i :: 0 <= i < 7 ==> CUT_BACK[..7][i] == CUT_BACK[i];
    assert Path(ONE, all, CUT_BACK);
    PathRuns(ONE, all, CUT_BACK);
    PathAt(ONE, all, CUT_BACK, 7);
  }

  // ----- an answer that waits for nothing ------------------------------------------------------------------------

  // A client's first message, and its retransmission before the first is on disk.
  const OVERLAP: seq<Action> := [Ask(0, Bind, "a", 0), Ask(1, Bind, "a", 0)]

  /**
   No write has to fail: the retransmission is told the address, its reply waits for
   nothing, and the lease file is empty.
   */
  lemma OverlapRun()
    ensures Run(ONE, Fresh(0), OVERLAP)
    ensures var s := Final(ONE, Fresh(0), OVERLAP);
      && Tells(ONE, s, 1, 0, 0) && Reply(s, s.calls[1], 0) == Bound(1, 1, 10)
      && s.db == map[] && !Held(Next(ONE, s, Settle(1, 0)), "a", 1, 10)
  {
    hide Run, Final, AnswerIA, DeletesLand;
    var s0 := Fresh(0);
    NewLease(s0.pool, "a", 0);
    var q := Leased(s0.pool, "a", 1, LEASE);
    AskStep(s0, 0, Bind, "a", 0, q, Bound(1, 1, 10));
    var s1 := Parked(s0, q, 0, "a", Bound(1, 1, 10), 0);
    AtOnceStep(ONE, s1, 1, Bind, IA("a", [1]), "", 0, NO_WALK, 0, []);
    PathRuns(ONE, [s0, s1, Next(ONE, s1, OVERLAP[1])], OVERLAP);
  }
}
