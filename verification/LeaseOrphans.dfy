/**
 Rows that outlive their lease. A caller whose first store failed drops the lease and
 frees the address. If another store of the same record has been queued in the
 meantime and lands, its row stays behind, and nothing will ever delete it for the
 address's next client. This module says exactly when that happens.
 */
module LeaseOrphans {
  import opened LeaseModel
  import opened LeaseOps
  import opened LeaseSystem
  import opened LeaseTold
  import opened LeaseKept
  import opened LeaseOverlap
  import opened LeaseFailures

  /** A row whose client does not hold its address. */
  ghost predicate Orphaned(db: Rows, p: Pool) {
    exists x :: x in db && !(x.0 in p.table && p.table[x.0].ip == x.1)
  }

  lemma SettledTable(c: Config, s: Sys, cid: nat, now: Time, k: Key)
    requires Consistent(c, s) && Enabled(c, s, Settle(cid, now)) && k in s.pool.table
    ensures var p, q := s.pool, Next(c, s, Settle(cid, now)).pool;
      && (k in q.table <==> DropUnwritten(k, p.table[k].id) !in Failed(s.done, s.calls[cid].pending))
      && (k in q.table ==> q.table[k].ip == p.table[k].ip)
      && q.queue == p.queue && q.declined == p.declined && q.table.Keys <= p.table.Keys
  {
    hide Partition, Failed, RunUndos;
    var undos := Failed(s.done, s.calls[cid].pending);
    UndosTouch(s.pool, undos);
    UndosDropExactly(s.pool, undos, k);
    UndosOnlyRemove(s.pool, undos);
  }

  /**
   In every state of an orderly run: once a caller has settled and what is queued has
   landed, some row has no lease, if and only if that caller dropped a lease of which a
   row was on disk or on its way there.
   */
  lemma OrphanedExactly(c: Config, s: Sys, cid: nat, now: Time, m: Shadow)
    requires Consistent(c, s) && Orderly(c, s, m) && Enabled(c, s, Settle(cid, now))
    ensures var s' := Next(c, s, Settle(cid, now));
      Orphaned(ApplyAll(c.family, s'.db, s'.pool.queue), s'.pool) <==> Strands(c, s, cid)
  {
    hide Partition, Consistent, Failed, RunUndos, Safe, End, Filled;
    var s', rows := Next(c, s, Settle(cid, now)), ApplyAll(c.family, s.db, s.pool.queue);
    EndLands(c, s.db, m, s.pool.queue);
    UndosTouch(s.pool, Failed(s.done, s.calls[cid].pending));
    forall x | x in rows
      ensures x.0 in s.pool.table && s.pool.table[x.0].ip == x.1
      ensures StrandsFor(c, s, cid, x.0) <==> !(x.0 in s'.pool.table && s'.pool.table[x.0].ip == x.1)
    {
      assert x.0 in End(m, s.pool.queue);
      SettledTable(c, s, cid, now, x.0);
    }
    if Strands(c, s, cid) {
      var k :| StrandsFor(c, s, cid, k);
      assert (k, s.pool.table[k].ip) in rows;
    }
  }

  /** The address of a stranded row is free for the next client. */
  lemma StrandedIsFree(c: Config, s: Sys, cid: nat, now: Time, k: Key)
    requires Consistent(c, s) && Enabled(c, s, Settle(cid, now)) && StrandsFor(c, s, cid, k)
    ensures var s' := Next(c, s, Settle(cid, now)); k !in s'.pool.table && s.pool.table[k].ip !in s'.pool.taken
  {
    hide Failed, RunUndos, ApplyAll;
    var s', ip := Next(c, s, Settle(cid, now)), s.pool.table[k].ip;
    StepKeepsConsistent(c, s, Settle(cid, now));
    SettledTable(c, s, cid, now, k);
    LeasedHas(s.pool, k);
    forall j | j in s'.pool.table ensures s'.pool.table[j].ip != ip {
      SettledTable(c, s, cid, now, j);
    }
  }

  // ----- one failed store ---------------------------------------------------------------------------

  /** The file after the queue has landed but for one change. */
  ghost function ApplyBut(f: Family, db: Rows, queue: seq<Entry>, ticket: nat): Rows {
    if queue == [] then db else
    var e := queue[|queue| - 1];
    var before := ApplyBut(f, db, queue[..|queue| - 1], ticket);
    if e.ticket == ticket then before else Apply(f, before, e.write)
  }

  lemma {:induction false} ButAll(f: Family, db: Rows, queue: seq<Entry>, ticket: nat)
    requires forall i :: 0 <= i < |queue| ==> queue[i].ticket != ticket
    ensures ApplyBut(f, db, queue, ticket) == ApplyAll(f, db, queue)
  {
    if queue != [] {
      ButAll(f, db, queue[..|queue| - 1], ticket);
    }
  }

  lemma {:induction false} ButHeadFirst(f: Family, db: Rows, queue: seq<Entry>, ticket: nat)
    requires queue != []
    ensures ApplyBut(f, db, queue, ticket)
      == ApplyBut(f, if queue[0].ticket == ticket then db else Apply(f, db, queue[0].write), queue[1..], ticket)
    decreases |queue|
  {
    hide Apply;
    var n := |queue| - 1;
    if n == 0 {
      assert queue[..0] == [] && queue[1..] == [];
      assert ApplyBut(f, db, queue[..0], ticket) == db;
    } else {
      ButHeadFirst(f, db, queue[..n], ticket);
      assert queue[..n][1..] == queue[1..][..n - 1];
    }
  }

  /** Changes for other clients leave a client's rows alone. */
  lemma {:induction false} ButQuiet(f: Family, db: Rows, queue: seq<Entry>, ticket: nat, n: nat, k: Key, ip: Addr)
    requires n <= |queue| && forall i :: n <= i < |queue| ==> queue[i].write.key != k
    ensures (k, ip) in ApplyBut(f, db, queue, ticket) <==> (k, ip) in ApplyBut(f, db, queue[..n], ticket)
    decreases |queue|
  {
    if n < |queue| {
      var init := queue[..|queue| - 1];
      ButQuiet(f, db, init, ticket, n, k, ip);
      assert init[..n] == queue[..n];
    } else {
      assert queue[..n] == queue;
    }
  }

  /** A section queued something for the client. */
  ghost predicate QueuedFor(p: Pool, q: Pool, k: Key) {
    exists i :: |p.queue| <= i < |q.queue| && q.queue[i].write.key == k
  }

  /** Some step of the run queued something for the client. */
  ghost predicate Requeued(c: Config, s: Sys, actions: seq<Action>, k: Key)
    requires Run(c, s, actions)
    decreases |actions|
  {
    actions != [] &&
      var s' := Next(c, s, actions[0]); QueuedFor(s.pool, s'.pool, k) || Requeued(c, s', actions[1..], k)
  }

  /** The one change that fails is the one with this ticket. */
  ghost predicate FailsOnly(c: Config, s: Sys, actions: seq<Action>, ticket: nat)
    requires Run(c, s, actions)
    decreases |actions|
  {
    actions != [] ==>
      && (actions[0].WriteFails? ==> Head(s) == ticket) && (actions[0].WriteOk? ==> Head(s) != ticket)
      && FailsOnly(c, Next(c, s, actions[0]), actions[1..], ticket)
  }

  /** Record `id` of client `k` is in the table. */
  predicate Has(p: Pool, k: Key, id: nat) {
    k in p.table && p.table[k].id == id
  }

  /** Leaving the one change out, the record's row ends up on disk. */
  ghost predicate RowLands(c: Config, s: Sys, k: Key, ip: Addr, ticket: nat) {
    (k, ip) in ApplyBut(c.family, s.db, s.pool.queue, ticket)
  }

  /** How a step moves the record and its row: nobody but the client's renewals brings the row to disk. */
  ghost predicate Tracks(c: Config, s: Sys, s': Sys, k: Key, id: nat, ticket: nat) {
    Has(s'.pool, k, id) ==>
      && Has(s.pool, k, id) && s'.pool.table[k].ip == s.pool.table[k].ip
      && (RowLands(c, s', k, s.pool.table[k].ip, ticket)
          <==> RowLands(c, s, k, s.pool.table[k].ip, ticket) || QueuedFor(s.pool, s'.pool, k))
  }

  /** A change that queues `w`: it brings the row, or is about somebody else. */
  lemma QueuesTracks(c: Config, s: Sys, q: Pool, w: Write, u: Undo, k: Key, ip: Addr, ticket: nat)
    requires Queues(s.pool, q, w, u) && ticket < s.pool.tickets && (w.key == k ==> w.Store? && w.ip == ip)
    ensures RowLands(c, At(s, q), k, ip, ticket) <==> RowLands(c, s, k, ip, ticket) || QueuedFor(s.pool, q, k)
  {
    var n := |s.pool.queue|;
    assert q.queue[..n] == s.pool.queue && q.queue[n] == Entry(s.pool.tickets, w);
  }

  lemma DoTracks(c: Config, s: Sys, op: Op, m: Speaker, t: Time, k: Key, id: nat, ticket: nat)
    requires Partition(c, s.pool) && Legal(c, s.pool, op, m, t) && id < s.pool.ids && ticket < s.pool.tickets
    ensures Tracks(c, s, At(s, Do(s.pool, op)), k, id, ticket)
    ensures s.pool.queue <= Do(s.pool, op).queue && s.pool.ids <= Do(s.pool, op).ids && s.pool.tickets <= Do(s.pool, op).tickets
  {
    hide Partition, RowLands, QueuedFor;
    var p, q := s.pool, Do(s.pool, op);
    DoShape(c, p, op, m, t);
    if Aside(op) {
      IdleTracks(c, s, q, k, id, ticket);
    } else {
      if op.key != k {
        DoElsewhere(p, op, k);
      }
      if Has(q, k, id) {
        assert Has(p, k, id) && q.table[k].ip == p.table[k].ip && (op.key == k ==> op.Prolong?);
        QueuesTracks(c, s, q, WriteOf(p, op), UndoOf(p, op), k, p.table[k].ip, ticket);
      }
    }
  }

  lemma IdleTracks(c: Config, s: Sys, q: Pool, k: Key, id: nat, ticket: nat)
    requires Idle(s.pool, q)
    ensures Tracks(c, s, At(s, q), k, id, ticket)
  {
  }

  lemma TracksThen(c: Config, s: Sys, t: Sys, u: Sys, k: Key, id: nat, ticket: nat)
    requires Tracks(c, s, t, k, id, ticket) && Tracks(c, t, u, k, id, ticket)
    requires s.pool.queue <= t.pool.queue && t.pool.queue <= u.pool.queue
    ensures Tracks(c, s, u, k, id, ticket)
  {
    hide RowLands;
    var a, b, d := s.pool, t.pool, u.pool;
    if QueuedFor(a, b, k) {
      var i :| |a.queue| <= i < |b.queue| && b.queue[i].write.key == k;
      assert d.queue[i].write.key == k;
    }
    if QueuedFor(a, d, k) && !QueuedFor(b, d, k) {
      var i :| |a.queue| <= i < |d.queue| && d.queue[i].write.key == k;
      assert b.queue[i].write.key == k;
    }
  }

  lemma {:induction false} DoAllTracks(
      c: Config, s: Sys, ops: seq<Op>, all: set<Speaker>, t: Time, k: Key, id: nat, ticket: nat)
    requires Partition(c, s.pool) && LegalAmong(c, s.pool, ops, all, t) && id < s.pool.ids && ticket < s.pool.tickets
    ensures var q := DoAll(s.pool, ops);
      && Tracks(c, s, At(s, q), k, id, ticket)
      && s.pool.queue <= q.queue && s.pool.ids <= q.ids && s.pool.tickets <= q.tickets
  {
    hide Partition, Tracks, Do, Legal;
    if ops != [] {
      var init, op := ops[..|ops| - 1], ops[|ops| - 1];
      var p := DoAll(s.pool, init);
      DoAllTracks(c, s, init, all, t, k, id, ticket);
      AmongKeepsPartition(c, s.pool, init, all, t);
      var m :| m in all && Legal(c, p, op, m, t);
      DoTracks(c, At(s, p), op, m, t, k, id, ticket);
      assert At(At(s, p), Do(p, op)) == At(s, DoAll(s.pool, ops));
      TracksThen(c, s, At(s, p), At(s, DoAll(s.pool, ops)), k, id, ticket);
    } else {
      assert At(s, s.pool) == s;
      TracksItself(c, s, k, id, ticket);
    }
  }

  lemma TracksItself(c: Config, s: Sys, k: Key, id: nat, ticket: nat)
    ensures Tracks(c, s, s, k, id, ticket)
  {
  }

  lemma SameTracks(c: Config, s: Sys, t: Sys, u: Sys, v: Sys, k: Key, id: nat, ticket: nat)
    requires Tracks(c, t, u, k, id, ticket)
    requires t.pool.table == s.pool.table && t.pool.queue == s.pool.queue && t.db == s.db
    requires v.pool.table == u.pool.table && v.pool.queue == u.pool.queue && v.db == u.db
    ensures Tracks(c, s, v, k, id, ticket)
  {
  }

  lemma SectionTracks(c: Config, s: Sys, a: Action, k: Key, id: nat, ticket: nat)
    requires Consistent(c, s) && Enabled(c, s, a) && (a.Receive? || a.Sweep?)
    requires id < s.pool.ids && ticket < s.pool.tickets
    ensures var s' := Next(c, s, a);
      Tracks(c, s, s', k, id, ticket) && s.pool.ids <= s'.pool.ids && s.pool.tickets <= s'.pool.tickets
  {
    hide Tracks, Next, Speakers, Partition, Says, Consistent;
    var t := Entered(s, a);
    var ops := SectionTrace(c, s, a);
    DoAllTracks(c, t, ops, Speakers(a), t.clock, k, id, ticket);
    SameTracks(c, s, t, At(t, DoAll(t.pool, ops)), Next(c, s, a), k, id, ticket);
  }

  lemma WriterTracks(c: Config, s: Sys, ok: bool, k: Key, id: nat, ticket: nat)
    requires Tickets(s) && s.pool.queue != [] && (ok <==> Head(s) != ticket)
    ensures Tracks(c, s, Writer(c, s, ok), k, id, ticket)
  {
    HeadTicket(s);
    hide Tickets, Apply, ApplyBut;
    ButHeadFirst(c.family, s.db, s.pool.queue, ticket);
  }

  lemma SettleTracks(c: Config, s: Sys, cid: nat, now: Time, k: Key, id: nat, ticket: nat)
    requires Consistent(c, s) && Enabled(c, s, Settle(cid, now))
    ensures Tracks(c, s, Next(c, s, Settle(cid, now)), k, id, ticket)
  {
    hide Failed, RunUndos, Partition, ApplyBut;
    var undos := Failed(s.done, s.calls[cid].pending);
    UndosTouch(s.pool, undos);
    UndosKeepIds(s.pool, undos, k);
    if k in s.pool.table {
      UndosDropExactly(s.pool, undos, k);
    }
  }

  lemma StepTracks(c: Config, s: Sys, a: Action, k: Key, id: nat, ticket: nat)
    requires Consistent(c, s) && Tickets(s) && Enabled(c, s, a) && !a.Restart? && id < s.pool.ids && ticket < s.pool.tickets
    requires (a.WriteFails? ==> Head(s) == ticket) && (a.WriteOk? ==> Head(s) != ticket)
    requires ticket in s.done ==> !s.done[ticket]
    ensures var s' := Next(c, s, a);
      && Tracks(c, s, s', k, id, ticket) && id < s'.pool.ids && ticket < s'.pool.tickets
      && (ticket in s'.done ==> !s'.done[ticket])
  {
    hide Tracks, Tickets, Consistent, AnswerAll, Reclaim, RunUndos, Failed;
    match a
    case Receive(_, _, _, _, _, _, _, _) => SectionTracks(c, s, a, k, id, ticket);
    case Sweep(_, _, _, _, _) => SectionTracks(c, s, a, k, id, ticket);
    case WriteOk =>
      HeadTicket(s);
      WriterTracks(c, s, true, k, id, ticket);
    case WriteFails =>
      HeadTicket(s);
      WriterTracks(c, s, false, k, id, ticket);
    case Settle(cid, now) =>
      SettleTracks(c, s, cid, now, k, id, ticket);
      UndosTouch(s.pool, Failed(s.done, s.calls[cid].pending));
  }

  lemma {:induction false} RunTracks(c: Config, s: Sys, actions: seq<Action>, k: Key, id: nat, ticket: nat)
    requires Consistent(c, s) && Tickets(s) && Run(c, s, actions) && NoRestart(actions) && FailsOnly(c, s, actions, ticket)
    requires id < s.pool.ids && ticket < s.pool.tickets && (ticket in s.done ==> !s.done[ticket])
    requires Has(Final(c, s, actions).pool, k, id)
    ensures var e := Final(c, s, actions);
      && Has(s.pool, k, id) && e.pool.table[k].ip == s.pool.table[k].ip
      && (RowLands(c, e, k, e.pool.table[k].ip, ticket)
          <==> RowLands(c, s, k, s.pool.table[k].ip, ticket) || Requeued(c, s, actions, k))
      && Tickets(e) && ticket < e.pool.tickets && (ticket in e.done ==> !e.done[ticket])
    decreases |actions|
  {
    hide Next, Enabled, Tickets, Consistent, RowLands, QueuedFor;
    if actions != [] {
      var s', rest := Next(c, s, actions[0]), actions[1..];
      StepKeepsConsistent(c, s, actions[0]);
      StepTickets(c, s, actions[0]);
      StepTracks(c, s, actions[0], k, id, ticket);
      assert forall i :: 0 <= i < |rest| ==> rest[i] == actions[i + 1];
      RunTracks(c, s', rest, k, id, ticket);
      assert Final(c, s, actions) == Final(c, s', rest);
    }
  }

  /** While only the first store has been queued, leaving it out leaves no row. */
  lemma FirstStoreAlone(c: Config, s: Sys, k: Key, pw: Pending, m: Shadow)
    requires Tickets(s) && Accounted(s, k) && Orderly(c, s, m) && Bare(s, m, k) && k in s.pool.table
    requires Unsure(s, pw) && pw.undo == DropUnwritten(k, s.pool.table[k].id) && Head(s) <= pw.ticket
    ensures !RowLands(c, s, k, s.pool.table[k].ip, pw.ticket)
  {
    hide Unsure, Apply, Fits, Proper, End;
    var queue, i, ip := s.pool.queue, pw.ticket - Head(s), s.pool.table[k].ip;
    assert Backed(s, k, s.pool.table[k], pw);
    var before := queue[..i];
    assert Safe(c, m, before) by {
      forall j | 0 <= j < |before| ensures Fits(c, Before(m, before, j), before[j].write) {
        assert Fits(c, Before(m, queue, j), queue[j].write);
        assert before[..j] == queue[..j];
      }
    }
    EndLands(c, s.db, m, before);
    ButAll(c.family, s.db, before, pw.ticket);
    assert queue[..i + 1][..i] == before;
    forall j | i + 1 <= j < |queue| ensures queue[j].write.key != k {
      assert queue[i + 1..][j - i - 1] == queue[j];
    }
    ButQuiet(c.family, s.db, queue, pw.ticket, i + 1, k, ip);
  }

  /**
   When a failed store strands a row. A new lease's first store is still queued, and of
   all that happens until its caller settles it is the one thing that fails: the caller,
   dropping the lease, leaves a row behind if and only if something else was queued for
   the lease in the meantime. That can only be a renewal, by a message that came before
   the first one was answered.
   */
  lemma FirstStoreStrandsExactly(c: Config, s: Sys, actions: seq<Action>, cid: nat, k: Key, pw: Pending, m: Shadow)
    requires Good(c, s, k) && Consistent(c, s) && Orderly(c, s, m) && Bare(s, m, k) && k in s.pool.table
    requires Unsure(s, pw) && pw.undo == DropUnwritten(k, s.pool.table[k].id) && Head(s) <= pw.ticket
    requires cid in s.calls && pw in s.calls[cid].pending && Run(c, s, actions) && NoRestart(actions)
    requires Unreplied(actions, cid) && FailsOnly(c, s, actions, pw.ticket)
    requires var e := Final(c, s, actions); pw.ticket in e.done && Has(e.pool, k, s.pool.table[k].id)
    ensures cid in Final(c, s, actions).calls
    ensures StrandsFor(c, Final(c, s, actions), cid, k) <==> Requeued(c, s, actions, k)
  {
    hide Run, Final, Tickets, Accounted, Orderly, Bare, Consistent, Unsure, RowLands, Failed, ApplyAll;
    GoodHas(c, s, k);
    var e, ticket := Final(c, s, actions), pw.ticket;
    SameCall(c, s, actions, cid);
    FirstStoreAlone(c, s, k, pw, m);
    UnsureIsOut(s, pw);
    OutIsOld(s, pw);
    RunTracks(c, s, actions, k, s.pool.table[k].id, ticket);
    DoneIsGone(c, e, ticket, k, e.pool.table[k].ip);
    var pending := e.calls[cid].pending;
    FailedExactly(e.done, pending);
    var j :| 0 <= j < |pending| && pending[j] == pw;
  }

  lemma OutIsOld(s: Sys, pw: Pending)
    requires Tickets(s) && Out(s, pw)
    ensures pw.ticket < s.pool.tickets && (!pw.undo.Nothing? ==> pw.undo.id < s.pool.ids)
    ensures Head(s) <= pw.ticket ==> pw.ticket !in s.done
  {
  }

  lemma DoneIsGone(c: Config, s: Sys, ticket: nat, k: Key, ip: Addr)
    requires Tickets(s) && ticket in s.done
    ensures RowLands(c, s, k, ip, ticket) <==> (k, ip) in ApplyAll(c.family, s.db, s.pool.queue)
  {
    ButAll(c.family, s.db, s.pool.queue, ticket);
  }
}
