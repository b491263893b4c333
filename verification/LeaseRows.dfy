/**
 The rows of the lease file under the two schemas, and undoing as the inverse of storing.
 */
module LeaseRows {
  import opened LeaseModel
  import opened LeaseOps
  import opened LeaseSystem

  // ----- one row per client, or per client and address ------------------------------------------

  /** V4 keys its rows by client and address: storing touches no other row. */
  lemma StoredV4(db: Rows, k: Key, ip: Addr, row: Row, x: (Key, Addr))
    ensures var after := Apply(V4, db, Store(k, ip, row));
      if x == (k, ip) then x in after && after[x] == row
      else (x in after <==> x in db) && (x in db ==> after[x] == db[x])
  {
  }

  /** V6 keys them by client: storing replaces the one the client had, wherever that was. */
  lemma StoredV6(db: Rows, k: Key, ip: Addr, row: Row, x: (Key, Addr))
    ensures var after := Apply(V6, db, Store(k, ip, row));
      if x == (k, ip) then x in after && after[x] == row
      else (x in after <==> x in db && x.0 != k) && (x in after ==> after[x] == db[x])
  {
  }

  /** A delete takes out the row of that client at that address and no other. */
  lemma Deleted(f: Family, db: Rows, k: Key, ip: Addr, x: (Key, Addr))
    ensures var after := Apply(f, db, Remove(k, ip));
      (x in after <==> x in db && x != (k, ip)) && (x in after ==> after[x] == db[x])
  {
  }

  ghost predicate OneRowEach(db: Rows) {
    forall x, y :: x in db && y in db && x.0 == y.0 ==> x == y
  }

  lemma ApplyKeepsOne(db: Rows, w: Write)
    requires OneRowEach(db)
    ensures OneRowEach(Apply(V6, db, w))
  {
  }

  /** So in V6 no client ever has two rows, whatever the clients do and whatever fails. */
  lemma {:induction false} OneRowEachInV6(c: Config, s: Sys, actions: seq<Action>)
    requires c.family == V6 && OneRowEach(s.db) && Run(c, s, actions)
    ensures OneRowEach(Final(c, s, actions).db)
    decreases |actions|
  {
    hide AnswerAll, Reclaim, Load, Replay, RunUndos, Enabled;
    if actions != [] {
      var s' := Next(c, s, actions[0]);
      if actions[0].WriteOk? {
        FirstStep(c, s, actions);
        ApplyKeepsOne(s.db, s.pool.queue[0].write);
      } else {
        RowsStay(c, s, actions[0]);
      }
      OneRowEachInV6(c, s', actions[1..]);
    }
  }

  lemma FirstStep(c: Config, s: Sys, actions: seq<Action>)
    requires Run(c, s, actions) && actions != [] && actions[0].WriteOk?
    ensures s.pool.queue != [] && Next(c, s, actions[0]).db == Apply(c.family, s.db, s.pool.queue[0].write)
  {
  }

  /** Only a write that lands changes the lease file. */
  lemma RowsStay(c: Config, s: Sys, a: Action)
    requires Enabled(c, s, a) && !a.WriteOk?
    ensures Next(c, s, a).db == s.db
  {
    hide AnswerAll, Reclaim, Load, Replay, RunUndos;
  }

  // ----- undoing is the inverse of storing --------------------------------------------------------

  /** The stores of a section and their undos, in order. */
  ghost predicate Stores(c: Config, p: Pool, ops: seq<Op>) {
    ops != [] ==>
      var n := |ops| - 1;
      var q := DoAll(p, ops[..n]);
      && Stores(c, p, ops[..n])
      && (match ops[n]
          case Lease(k, ip, row) => k !in q.table && ip !in q.taken
          case Prolong(k, row) => k in q.table
          case _ => false)
  }

  ghost function Undos(p: Pool, ops: seq<Op>): (r: seq<Undo>)
    ensures |r| == |ops|
  {
    if ops == [] then [] else
    var n := |ops| - 1;
    var q := DoAll(p, ops[..n]);
    Undos(p, ops[..n]) + [match ops[n]
      case Lease(k, ip, row) => DropUnwritten(k, q.ids)
      case Prolong(k, row) => if k in q.table then Shorten(k, q.table[k].id, row.expires, q.table[k].row) else Nothing
      case _ => Nothing]
  }

  lemma UndoInverts(c: Config, p: Pool, op: Op)
    requires match op
      case Lease(k, ip, row) => k !in p.table && ip !in p.taken
      case Prolong(k, row) => k in p.table
      case _ => false
    ensures var u := if op.Lease? then DropUnwritten(op.key, p.ids)
                     else Shorten(op.key, p.table[op.key].id, op.row.expires, p.table[op.key].row);
      var q := RunUndo(Do(p, op), u);
      && q.table == p.table && q.taken == p.taken
      && Do(p, op).pending == p.pending + [Pending(p.tickets, u)]
  {
  }

  lemma {:induction false} UndosLookAt(p: Pool, q: Pool, undos: seq<Undo>)
    requires p.table == q.table && p.taken == q.taken
    ensures RunUndos(p, undos).table == RunUndos(q, undos).table && RunUndos(p, undos).taken == RunUndos(q, undos).taken
    decreases |undos|
  {
    if undos != [] {
      UndosLookAt(RunUndo(p, undos[|undos| - 1]), RunUndo(q, undos[|undos| - 1]), undos[..|undos| - 1]);
    }
  }

  /** What a section hands its caller to wait for are these undos. */
  lemma {:induction false} UndosArePending(c: Config, p: Pool, ops: seq<Op>)
    requires Stores(c, p, ops)
    ensures var q := DoAll(p, ops);
      && |q.pending| == |p.pending| + |ops| && p.pending <= q.pending
      && forall i :: 0 <= i < |ops| ==> q.pending[|p.pending| + i].undo == Undos(p, ops)[i]
  {
    hide Do;
    if ops != [] {
      var n := |ops| - 1;
      UndosArePending(c, p, ops[..n]);
      UndoInverts(c, DoAll(p, ops[..n]), ops[n]);
    }
  }

  /**
   If every row a section queued fails to be written, its undos, run last one first, leave
   table and allocator as the section found them, however often it stored for one client.
   */
  lemma {:induction false} UndosUnwind(c: Config, p: Pool, ops: seq<Op>)
    requires Stores(c, p, ops)
    ensures var q := RunUndos(DoAll(p, ops), Undos(p, ops)); q.table == p.table && q.taken == p.taken
  {
    hide Do, RunUndo, RunUndos;
    if ops == [] {
      NothingUndone(p);
    } else {
      var n := |ops| - 1;
      var init, q, undos := ops[..n], DoAll(p, ops[..n]), Undos(p, ops);
      UndosUnwind(c, p, init);
      UndoInverts(c, q, ops[n]);
      var back := RunUndo(DoAll(p, ops), undos[n]);
      LastUndoFirst(DoAll(p, ops), undos);
      assert undos[..n] == Undos(p, init);
      UndosLookAt(back, q, undos[..n]);
    }
  }

  lemma NothingUndone(p: Pool)
    ensures RunUndos(p, []) == p
  {
  }

  lemma LastUndoFirst(p: Pool, undos: seq<Undo>)
    requires undos != []
    ensures RunUndos(p, undos) == RunUndos(RunUndo(p, undos[|undos| - 1]), undos[..|undos| - 1])
  {
  }

  /** Two renewals to different seconds, both failed: last one first is back at the start, the other way round is not. */
  lemma OrderMatters(p: Pool, k: Key, first: Row, second: Row)
    requires k in p.table && first.expires != second.expires && second.expires != p.table[k].row.expires
    ensures var r := p.table[k];
      var q := Renewed(Renewed(p, k, first), k, second);
      var a, b := Shorten(k, r.id, first.expires, r.row), Shorten(k, r.id, second.expires, first);
      RunUndos(q, [a, b]).table == p.table && RunUndo(RunUndo(q, a), b).table == p.table[k := r.(row := first)]
  {
    var r := p.table[k];
    var q := Renewed(Renewed(p, k, first), k, second);
    var a, b := Shorten(k, r.id, first.expires, r.row), Shorten(k, r.id, second.expires, first);
    assert [a, b][..1] == [a] && [a][..0] == [];
    assert RunUndos(q, [a, b]) == RunUndos(RunUndo(q, b), [a]);
    assert RunUndos(RunUndo(q, b), [a]) == RunUndos(RunUndo(RunUndo(q, b), a), []);
  }
}
