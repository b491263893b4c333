/**
 What a client is told is on disk.

 In every interleaving of callers, sweeps and the writer, with any statements
 failing and any sends refused, and whatever other clients do, a reply that names an
 address goes out only when the binding is in the table and a row that lasts as long
 is in the lease file. The invariant follows one binding, and asks something only of
 that binding's client: that it does not have a message taken up while a store behind
 the binding is still undecided, unless what it would fall back to lasts long enough.
 */
module LeaseTold {
  import opened LeaseModel
  import opened LeaseOps
  import opened LeaseSystem

  /** A queued change whose caller has not settled yet. */
  ghost predicate Out(s: Sys, pw: Pending) {
    pw in s.pool.pending || exists cid :: cid in s.calls && pw in s.calls[cid].pending
  }

  /** One that has not landed: still queued, or failed and not undone yet. */
  ghost predicate Unsure(s: Sys, pw: Pending) {
    Out(s, pw) && !(pw.ticket in s.done && s.done[pw.ticket])
  }

  predicate Concerns(u: Undo, k: Key, id: nat) {
    !u.Nothing? && u.key == k && u.id == id
  }

  /** The ticket of the next change the writer picks up. */
  function Head(s: Sys): int {
    s.pool.tickets - |s.pool.queue|
  }

  /**
   First in, first out: the queue holds consecutive tickets, everything older has its
   result, and every change has one caller.
   */
  ghost predicate Tickets(s: Sys) {
    && Head(s) >= 0
    && (forall i :: 0 <= i < |s.pool.queue| ==> s.pool.queue[i].ticket == Head(s) + i)
    && (forall t: nat :: t in s.done <==> t < Head(s))
    && (forall pw :: Out(s, pw) ==> pw.ticket < s.pool.tickets)
    && (forall pw :: Out(s, pw) && !pw.undo.Nothing? ==> pw.undo.id < s.pool.ids)
    && OneCaller(s)
  }

  ghost predicate OneCaller(s: Sys) {
    && (forall cid, did, pw ::
      cid in s.calls && did in s.calls && pw in s.calls[cid].pending && pw in s.calls[did].pending ==> cid == did)
    && (forall cid, pw :: cid in s.calls && pw in s.calls[cid].pending ==> pw !in s.pool.pending)
  }

  ghost predicate Quiet(queue: seq<Entry>, k: Key) {
    forall i :: 0 <= i < |queue| ==> queue[i].write.key != k
  }

  predicate Stored(db: Rows, k: Key, ip: Addr, row: Row) {
    (k, ip) in db && db[(k, ip)] == row
  }

  /** Where the write behind record `r` stands, judged by the undecided change `pw` its caller waits for. */
  ghost predicate Backed(s: Sys, k: Key, r: Record, pw: Pending) {
    var queue, i := s.pool.queue, pw.ticket - Head(s);
    && (pw.undo.Shorten? ==> pw.undo.extended == r.row.expires && Stored(s.db, k, r.ip, pw.undo.was))
    && (if i < 0 then Quiet(queue, k)
        else
          && i < |queue|
          && queue[i].write == Store(k, r.ip, r.row)
          && Quiet(queue[i + 1..], k)
          && (pw.undo.Shorten? ==> Quiet(queue[..i], k)))
  }

  /** No store behind the binding is undecided. */
  ghost predicate Sure(s: Sys, k: Key)
    requires k in s.pool.table
  {
    forall pw :: Unsure(s, pw) ==> !Concerns(pw.undo, k, s.pool.table[k].id)
  }

  /** The binding is on disk, or one undecided store answers for it. */
  ghost predicate Accounted(s: Sys, k: Key) {
    k in s.pool.table ==>
      var r := s.pool.table[k];
      && (forall pw :: Unsure(s, pw) && Concerns(pw.undo, k, r.id) ==> Backed(s, k, r, pw))
      && (forall pw, pv :: Unsure(s, pw) && Unsure(s, pv) && Concerns(pw.undo, k, r.id) && Concerns(pv.undo, k, r.id)
            ==> pw == pv)
      && (Sure(s, k) ==> Quiet(s.pool.queue, k) && Stored(s.db, k, r.ip, r.row))
  }

  /** A renewal that, undone, leaves a row that lasts as long. */
  predicate Lasts(u: Undo, until: int) {
    u.Shorten? && u.was.expires >= until
  }

  /** Whatever becomes of the undecided stores, the binding keeps a row that lasts. */
  ghost predicate Sound(s: Sys, k: Key, until: int)
    requires k in s.pool.table
  {
    forall pw :: Unsure(s, pw) && Concerns(pw.undo, k, s.pool.table[k].id) ==> Lasts(pw.undo, until)
  }

  /** The answer still describes the table. */
  predicate InForce(s: Sys, a: Answered)
    requires a.answer.Bound?
  {
    && a.key in s.pool.table
    && s.pool.table[a.key].id == a.answer.id
    && s.pool.table[a.key].ip == a.answer.ip
    && s.pool.table[a.key].row.expires >= a.answer.until
  }

  /** An undecided store behind the answer is one its own IA waits for, or a renewal that can be undone. */
  ghost predicate Covered(s: Sys, a: Answered, pending: seq<Pending>)
    requires a.answer.Bound? && a.to <= |pending|
  {
    forall pw :: Unsure(s, pw) && Concerns(pw.undo, a.key, a.answer.id) ==>
      (exists j :: a.from <= j < a.to && pending[j] == pw) || Lasts(pw.undo, a.answer.until)
  }

  predicate Waiting(a: Answered, now: Time) {
    a.answer.Bound? && a.answer.until > Unix(now)
  }

  ghost predicate AnswerOk(s: Sys, a: Answered, pending: seq<Pending>) {
    && a.from <= a.to <= |pending|
    && (Waiting(a, s.clock) ==> InForce(s, a) && Covered(s, a, pending))
  }

  ghost predicate AnswersOk(s: Sys, k: Key, answers: seq<Answered>, pending: seq<Pending>) {
    forall i :: 0 <= i < |answers| && answers[i].key == k ==> AnswerOk(s, answers[i], pending)
  }

  ghost predicate CallsOk(s: Sys, k: Key) {
    forall cid :: cid in s.calls ==> AnswersOk(s, k, s.calls[cid].answers, s.calls[cid].pending)
  }

  /** The invariant, for one binding. */
  ghost predicate Good(c: Config, s: Sys, k: Key) {
    Partition(c, s.pool) && Tickets(s) && Accounted(s, k) && CallsOk(s, k)
  }

  // ----- one change --------------------------------------------------------------------------

  function At(s: Sys, p: Pool): Sys {
    s.(pool := p)
  }

  /** A change that leaves the queue alone and no binding altered. */
  ghost predicate Idle(p: Pool, q: Pool) {
    && q.queue == p.queue && q.tickets == p.tickets && q.pending == p.pending && q.table == p.table && q.ids == p.ids
  }

  /** A change that queues `w` with undo `u`. */
  ghost predicate Queues(p: Pool, q: Pool, w: Write, u: Undo) {
    && q.queue == p.queue + [Entry(p.tickets, w)]
    && q.pending == p.pending + [Pending(p.tickets, u)]
    && q.tickets == p.tickets + 1
    && q.ids >= p.ids
    && (!u.Nothing? ==> u.id < q.ids)
  }

  lemma OutGrows(s: Sys, q: Pool, w: Write, u: Undo)
    requires Queues(s.pool, q, w, u)
    ensures forall pw :: Out(At(s, q), pw) <==> Out(s, pw) || pw == Pending(s.pool.tickets, u)
  {
    var added := Pending(s.pool.tickets, u);
    assert q.pending[|s.pool.pending|] == added;
    forall pw | Out(s, pw) ensures Out(At(s, q), pw) {
      if pw in s.pool.pending {
        var i :| 0 <= i < |s.pool.pending| && s.pool.pending[i] == pw;
        assert q.pending[i] == pw;
      }
    }
  }

  lemma UnsureGrows(s: Sys, q: Pool, w: Write, u: Undo)
    requires Tickets(s) && Queues(s.pool, q, w, u)
    ensures forall pw :: Unsure(At(s, q), pw) <==> Unsure(s, pw) || pw == Pending(s.pool.tickets, u)
  {
    OutGrows(s, q, w, u);
  }

  lemma TicketsGrow(s: Sys, q: Pool, w: Write, u: Undo)
    requires Tickets(s) && Queues(s.pool, q, w, u)
    ensures Tickets(At(s, q))
  {
    OutGrows(s, q, w, u);
    var added := Pending(s.pool.tickets, u);
    forall cid, pw | cid in s.calls && pw in s.calls[cid].pending ensures pw !in q.pending {
      assert Out(s, pw);
      assert pw != added;
    }
  }

  /** A binding nobody touched stays accounted for when somebody else's change is queued. */
  lemma AccountedFrame(s: Sys, q: Pool, w: Write, u: Undo, k: Key)
    requires Tickets(s) && Queues(s.pool, q, w, u) && Accounted(s, k)
    requires w.key != k && (u.Nothing? || u.key != k)
    requires k in q.table ==> k in s.pool.table && q.table[k] == s.pool.table[k]
    ensures Accounted(At(s, q), k)
  {
    hide Tickets, Backed;
    var s' := At(s, q);
    UnsureGrows(s, q, w, u);
    if k in q.table {
      var r := q.table[k];
      forall pw | Unsure(s', pw) && Concerns(pw.undo, k, r.id) ensures Backed(s', k, r, pw) {
        assert Unsure(s, pw) && Backed(s, k, r, pw);
        BackedGrows(s, q, w, u, k, r, pw);
      }
    }
  }

  lemma BackedGrows(s: Sys, q: Pool, w: Write, u: Undo, k: Key, r: Record, pw: Pending)
    requires Queues(s.pool, q, w, u) && Backed(s, k, r, pw) && w.key != k
    ensures Backed(At(s, q), k, r, pw)
  {
    var i := pw.ticket - Head(s);
    if 0 <= i {
      assert q.queue[i + 1..] == s.pool.queue[i + 1..] + [Entry(s.pool.tickets, w)];
      assert q.queue[..i] == s.pool.queue[..i];
    }
  }

  /** A fresh lease: the change just queued is the only one that concerns its record. */
  lemma AccountedLease(s: Sys, k: Key, ip: Addr, row: Row)
    requires Tickets(s)
    ensures Accounted(At(s, Leased(s.pool, k, ip, row)), k)
  {
    var p := s.pool;
    var q := Leased(p, k, ip, row);
    var s', u := At(s, q), DropUnwritten(k, p.ids);
    assert Queues(p, q, Store(k, ip, row), u);
    UnsureGrows(s, q, Store(k, ip, row), u);
    assert q.queue[|p.queue| + 1..] == [];
    assert Backed(s', k, q.table[k], Pending(p.tickets, u));
    assert Unsure(s', Pending(p.tickets, u));
  }

  /** A renewal of a binding nothing is undecided about: the old row is on disk to fall back to. */
  lemma AccountedProlong(s: Sys, k: Key, row: Row)
    requires Tickets(s) && k in s.pool.table && Accounted(s, k) && s.pool.table[k].id < s.pool.ids && Sure(s, k)
    ensures Accounted(At(s, Renewed(s.pool, k, row)), k)
  {
    var p := s.pool;
    var r := p.table[k];
    var q := Renewed(p, k, row);
    var s', u := At(s, q), Shorten(k, r.id, row.expires, r.row);
    assert Queues(p, q, Store(k, r.ip, row), u);
    UnsureGrows(s, q, Store(k, r.ip, row), u);
    assert q.queue[|p.queue| + 1..] == [];
    assert q.queue[..|p.queue|] == p.queue;
    assert Backed(s', k, q.table[k], Pending(p.tickets, u));
    assert Unsure(s', Pending(p.tickets, u));
  }

  function WriteOf(p: Pool, op: Op): Write
    requires !op.Refuse? && !op.EndProbation? && (!op.Lease? ==> op.key in p.table)
  {
    match op
    case FreeLease(k) => Remove(k, p.table[k].ip)
    case Hold(k, until) => Remove(k, p.table[k].ip)
    case Lease(k, ip, row) => Store(k, ip, row)
    case Prolong(k, row) => Store(k, p.table[k].ip, row)
  }

  function UndoOf(p: Pool, op: Op): Undo
    requires op.Prolong? ==> op.key in p.table
  {
    match op
    case Lease(k, ip, row) => DropUnwritten(k, p.ids)
    case Prolong(k, row) => Shorten(k, p.table[k].id, row.expires, p.table[k].row)
    case _ => Nothing
  }

  /** A change that touches no binding. */
  predicate Aside(op: Op) {
    op.Refuse? || op.EndProbation?
  }

  lemma DoShape(c: Config, p: Pool, op: Op, m: Speaker, t: Time)
    requires Partition(c, p) && Legal(c, p, op, m, t)
    ensures Aside(op) ==> Idle(p, Do(p, op))
    ensures !Aside(op) ==>
      && Queues(p, Do(p, op), WriteOf(p, op), UndoOf(p, op))
      && (!UndoOf(p, op).Nothing? ==> m == Asks(UndoOf(p, op).key) && UndoOf(p, op).key == op.key)
  {
  }

  lemma DoElsewhere(p: Pool, op: Op, k: Key)
    requires !Aside(op) && k != op.key
    ensures k in Do(p, op).table <==> k in p.table
    ensures k in p.table ==> Do(p, op).table[k] == p.table[k]
  {
  }

  lemma SameAccounted(s: Sys, s': Sys, k: Key)
    requires Accounted(s, k)
    requires forall pw :: Unsure(s', pw) <==> Unsure(s, pw)
    requires s'.pool.table == s.pool.table && s'.pool.queue == s.pool.queue && s'.pool.tickets == s.pool.tickets
    requires s'.db == s.db
    ensures Accounted(s', k)
  {
    assert forall r, pw :: Backed(s, k, r, pw) ==> Backed(s', k, r, pw);
  }

  lemma DoAccounted(c: Config, s: Sys, k: Key, op: Op, m: Speaker, t: Time)
    requires Partition(c, s.pool) && Tickets(s) && Accounted(s, k) && Legal(c, s.pool, op, m, t)
    requires op.Prolong? && op.key == k ==> Sure(s, k)
    ensures Accounted(At(s, Do(s.pool, op)), k)
  {
    hide Partition, Tickets, Accounted, Unsure;
    var p, q := s.pool, Do(s.pool, op);
    DoShape(c, p, op, m, t);
    if Aside(op) {
      UnsureSame(s, q);
      SameAccounted(s, At(s, q), k);
    } else if op.key != k {
      DoElsewhere(p, op, k);
      AccountedFrame(s, q, WriteOf(p, op), UndoOf(p, op), k);
    } else if op.Lease? {
      AccountedLease(s, k, op.ip, op.row);
    } else if op.Prolong? {
      IdIsOld(c, p, k);
      AccountedProlong(s, k, op.row);
    } else {
      NotHeld(At(s, q), k);
    }
  }

  lemma NotHeld(s: Sys, k: Key)
    requires k !in s.pool.table
    ensures Accounted(s, k)
  {
  }

  /** The change takes an unexpired binding from its client. */
  predicate Ends(p: Pool, op: Op, k: Key, t: Time) {
    (op.FreeLease? || op.Hold?) && op.key == k && k in p.table && !Expired(p.table[k], t)
  }

  /** A change that is about other bindings. */
  lemma AnswerElsewhere(s: Sys, q: Pool, w: Write, u: Undo, a: Answered, pending: seq<Pending>)
    requires Tickets(s) && Queues(s.pool, q, w, u) && AnswerOk(s, a, pending) && (u.Nothing? || u.key != a.key)
    requires a.key in s.pool.table ==> a.key in q.table && q.table[a.key] == s.pool.table[a.key]
    ensures AnswerOk(At(s, q), a, pending)
  {
    hide Tickets, Unsure;
    UnsureGrows(s, q, w, u);
  }

  /** A renewal of the binding: what it could be cut back to is what the answer relied on. */
  lemma AnswerProlonged(s: Sys, a: Answered, pending: seq<Pending>, row: Row)
    requires Tickets(s) && AnswerOk(s, a, pending) && a.key in s.pool.table
    requires s.pool.table[a.key].id < s.pool.ids && s.pool.table[a.key].row.expires <= row.expires
    ensures AnswerOk(At(s, Renewed(s.pool, a.key, row)), a, pending)
  {
    hide Tickets, Unsure;
    var p := s.pool;
    var r, q := p.table[a.key], Renewed(p, a.key, row);
    var u := Shorten(a.key, r.id, row.expires, r.row);
    assert Queues(p, q, Store(a.key, r.ip, row), u);
    UnsureGrows(s, q, Store(a.key, r.ip, row), u);
  }

  lemma AnswerOver(s: Sys, s': Sys, a: Answered, pending: seq<Pending>)
    requires AnswerOk(s, a, pending) && !Waiting(a, s.clock) && s'.clock == s.clock
    ensures AnswerOk(s', a, pending)
  {
  }

  lemma IdIsOld(c: Config, p: Pool, k: Key)
    requires Partition(c, p) && k in p.table
    ensures p.table[k].id < p.ids
  {
  }

  lemma IdleAnswerOk(s: Sys, q: Pool, a: Answered, pending: seq<Pending>)
    requires Idle(s.pool, q) && AnswerOk(s, a, pending)
    ensures AnswerOk(At(s, q), a, pending)
  {
    UnsureSame(s, q);
  }

  /** An answer that waits names a binding that is in the table and runs. */
  lemma WaitingRuns(s: Sys, a: Answered, pending: seq<Pending>, t: Time)
    requires AnswerOk(s, a, pending) && Waiting(a, s.clock) && t <= s.clock
    ensures a.key in s.pool.table && !Expired(s.pool.table[a.key], t)
  {
    SecondsPass(t, s.clock);
  }

  /** An answer already given survives every change that does not take its binding away. */
  lemma DoAnswerOk(c: Config, s: Sys, a: Answered, pending: seq<Pending>, op: Op, m: Speaker, t: Time)
    requires Partition(c, s.pool) && Tickets(s) && Legal(c, s.pool, op, m, t) && t <= s.clock
    requires AnswerOk(s, a, pending) && (Ends(s.pool, op, a.key, t) ==> !Waiting(a, s.clock))
    ensures AnswerOk(At(s, Do(s.pool, op)), a, pending)
  {
    hide Partition, Tickets, AnswerOk, Waiting;
    var p, q := s.pool, Do(s.pool, op);
    DoShape(c, p, op, m, t);
    if !Waiting(a, s.clock) {
      AnswerOver(s, At(s, q), a, pending);
    } else if Aside(op) {
      IdleAnswerOk(s, q, a, pending);
    } else {
      WaitingRuns(s, a, pending, t);
      if op.key != a.key {
        DoElsewhere(p, op, a.key);
        AnswerElsewhere(s, q, WriteOf(p, op), UndoOf(p, op), a, pending);
      } else {
        IdIsOld(c, p, a.key);
        assert op.Prolong?;
        AnswerProlonged(s, a, pending, op.row);
      }
    }
  }

  lemma DoTickets(c: Config, s: Sys, op: Op, m: Speaker, t: Time)
    requires Partition(c, s.pool) && Tickets(s) && Legal(c, s.pool, op, m, t)
    ensures Tickets(At(s, Do(s.pool, op)))
  {
    var p, q := s.pool, Do(s.pool, op);
    DoShape(c, p, op, m, t);
    if Aside(op) {
      assert forall pw :: Out(At(s, q), pw) <==> Out(s, pw);
    } else {
      TicketsGrow(s, q, WriteOf(p, op), UndoOf(p, op));
    }
  }

  /** Nobody who was told about the binding still waits to hear it. */
  ghost predicate NoneWaiting(s: Sys, k: Key, now: Time) {
    forall cid, i :: cid in s.calls && 0 <= i < |s.calls[cid].answers| && s.calls[cid].answers[i].key == k ==>
      !Waiting(s.calls[cid].answers[i], now)
  }

  lemma DoKeepsGood(c: Config, s: Sys, k: Key, op: Op, m: Speaker, t: Time)
    requires Good(c, s, k) && Legal(c, s.pool, op, m, t) && t <= s.clock
    requires op.Prolong? && op.key == k ==> Sure(s, k)
    requires Ends(s.pool, op, k, t) ==> NoneWaiting(s, k, s.clock)
    ensures Good(c, At(s, Do(s.pool, op)), k)
  {
    hide Tickets, Accounted, AnswerOk, Legal, Do;
    DoKeepsPartition(c, s.pool, op, m, t);
    DoTickets(c, s, op, m, t);
    DoAccounted(c, s, k, op, m, t);
    var s' := At(s, Do(s.pool, op));
    forall cid | cid in s.calls ensures AnswersOk(s', k, s.calls[cid].answers, s.calls[cid].pending) {
      var answers := s.calls[cid].answers;
      forall i | 0 <= i < |answers| && answers[i].key == k ensures AnswerOk(s', answers[i], s.calls[cid].pending) {
        assert AnswersOk(s, k, answers, s.calls[cid].pending);
        DoAnswerOk(c, s, answers[i], s.calls[cid].pending, op, m, t);
      }
    }
  }

  // ----- one section --------------------------------------------------------------------------

  /** Nothing queued so far in this section is about `k`. */
  ghost predicate Untouched(pending: seq<Pending>, k: Key) {
    forall pw :: pw in pending && !pw.undo.Nothing? ==> pw.undo.key != k
  }

  /** A section only ever adds to what it has queued, and only about its own binding. */
  lemma {:induction false} PendingGrows(c: Config, p: Pool, ops: seq<Op>, m: Speaker, t: Time)
    requires Partition(c, p) && LegalAll(c, p, ops, m, t)
    ensures p.pending <= DoAll(p, ops).pending
    ensures forall j :: |p.pending| <= j < |DoAll(p, ops).pending| ==>
      var u := DoAll(p, ops).pending[j].undo; u.Nothing? || m == Asks(u.key)
  {
    hide Partition, Legal, Do;
    if ops != [] {
      var init, op := ops[..|ops| - 1], ops[|ops| - 1];
      PendingGrows(c, p, init, m, t);
      DoAllKeepsPartition(c, p, init, m, t);
      DoShape(c, DoAll(p, init), op, m, t);
    }
  }

  /** Until the section stores a row for it, a binding's record is the one it had, or gone. */
  lemma {:induction false} Unstored(c: Config, s: Sys, k: Key, ops: seq<Op>, m: Speaker, t: Time)
    requires Partition(c, s.pool) && Tickets(s) && LegalAll(c, s.pool, ops, m, t)
    requires m == Asks(k) ==> forall i :: 0 <= i < |ops| ==> !Storing(ops[i])
    ensures var s' := At(s, DoAll(s.pool, ops));
      && Tickets(s')
      && (k in s'.pool.table ==> k in s.pool.table && s'.pool.table[k] == s.pool.table[k])
      && (forall pw :: Unsure(s', pw) && !pw.undo.Nothing? && pw.undo.key == k ==> Unsure(s, pw))
  {
    hide Partition, Tickets;
    if ops != [] {
      var init, op := ops[..|ops| - 1], ops[|ops| - 1];
      var p := DoAll(s.pool, init);
      var mid := At(s, p);
      Unstored(c, s, k, init, m, t);
      DoAllKeepsPartition(c, s.pool, init, m, t);
      DoTickets(c, mid, op, m, t);
      DoShape(c, p, op, m, t);
      assert At(mid, Do(p, op)) == At(s, DoAll(s.pool, ops));
      if Aside(op) {
        assert forall pw :: Unsure(At(mid, Do(p, op)), pw) <==> Unsure(mid, pw);
      } else {
        UnsureGrows(mid, Do(p, op), WriteOf(p, op), UndoOf(p, op));
        if op.key != k {
          DoElsewhere(p, op, k);
        }
      }
    } else {
      assert At(s, s.pool) == s;
    }
  }

  /** What a section for `m` needs of binding `k`: nothing undecided to build a renewal on, nobody waiting to lose it. */
  ghost predicate Allowed(s: Sys, k: Key, m: Speaker) {
    && (m == Asks(k) && k in s.pool.table ==> Sure(s, k))
    && (m == Yields(k) ==> NoneWaiting(s, k, s.clock))
  }

  lemma {:induction false} DoAllKeepsGood(c: Config, s: Sys, k: Key, ops: seq<Op>, m: Speaker, t: Time)
    requires Good(c, s, k) && LegalAll(c, s.pool, ops, m, t) && t <= s.clock
    requires StoresOnce(ops) && Allowed(s, k, m)
    ensures Good(c, At(s, DoAll(s.pool, ops)), k)
  {
    hide Partition, Tickets, Accounted, AnswersOk, Do;
    if ops != [] {
      var init, op := ops[..|ops| - 1], ops[|ops| - 1];
      var p := DoAll(s.pool, init);
      DoAllKeepsGood(c, s, k, init, m, t);
      if op.Prolong? && op.key == k {
        Unstored(c, s, k, init, m, t);
        assert Sure(At(s, p), k);
      }
      DoKeepsGood(c, At(s, p), k, op, m, t);
      assert At(At(s, p), Do(p, op)) == At(s, DoAll(s.pool, ops));
    } else {
      assert At(s, s.pool) == s;
    }
  }

  /** Answers this section has given already, while it goes on for other bindings. */
  lemma {:induction false} DoAllAnswersOk(
      c: Config, s: Sys, k: Key, answers: seq<Answered>, ops: seq<Op>, m: Speaker, t: Time)
    requires Partition(c, s.pool) && Tickets(s) && LegalAll(c, s.pool, ops, m, t) && t <= s.clock
    requires AnswersOk(s, k, answers, s.pool.pending) && m != Asks(k) && m != Yields(k)
    ensures AnswersOk(At(s, DoAll(s.pool, ops)), k, answers, DoAll(s.pool, ops).pending)
  {
    hide Partition, Tickets, AnswerOk;
    if ops != [] {
      var init, op := ops[..|ops| - 1], ops[|ops| - 1];
      var p := DoAll(s.pool, init);
      DoAllAnswersOk(c, s, k, answers, init, m, t);
      DoAllKeepsPartition(c, s.pool, init, m, t);
      Unstored(c, s, k, init, m, t);
      DoShape(c, p, op, m, t);
      forall i | 0 <= i < |answers| && answers[i].key == k
        ensures AnswerOk(At(s, DoAll(s.pool, ops)), answers[i], Do(p, op).pending)
      {
        DoAnswerOk(c, At(s, p), answers[i], p.pending, op, m, t);
        assert At(At(s, p), Do(p, op)) == At(s, DoAll(s.pool, ops));
        AnswerLonger(At(s, Do(p, op)), answers[i], p.pending, Do(p, op).pending);
      }
    } else {
      assert At(s, s.pool) == s;
    }
  }

  lemma AnswerLonger(s: Sys, a: Answered, pending: seq<Pending>, longer: seq<Pending>)
    requires AnswerOk(s, a, pending) && pending <= longer
    ensures AnswerOk(s, a, longer)
  {
    if Waiting(a, s.clock) {
      forall pw | Unsure(s, pw) && Concerns(pw.undo, a.key, a.answer.id) && !Lasts(pw.undo, a.answer.until)
        ensures exists j :: a.from <= j < a.to && longer[j] == pw
      {
        var j :| a.from <= j < a.to && pending[j] == pw;
        assert longer[j] == pw;
      }
    }
  }

  // ----- one message --------------------------------------------------------------------------

  /** The record already lasts a full lease time: the client is answered and nothing is queued. */
  predicate Lasting(c: Config, r: Record, now: Time) {
    !Expired(r, now) && r.row.expires * SECOND >= now + c.leaseTime
  }

  /**
   What a client has to see to. A message that asks for the binding comes when no store
   behind it is undecided, or is answered from a record whose undecided renewal could
   be undone without cutting short what the client is told. A message that gives the
   binding up does not cross an answer that names it.
   */
  ghost predicate Guard(c: Config, s: Sys, k: Key, kind: Kind, now: Time) {
    if kind.Bind? || kind.Extend? then
      k in s.pool.table ==>
        Sure(s, k) || (Lasting(c, s.pool.table[k], now) && Sound(s, k, Unix(now + c.leaseTime)))
    else NoneWaiting(s, k, now)
  }

  lemma GuardStays(c: Config, s: Sys, k: Key, kind: Kind, now: Time, ops: seq<Op>, m: Speaker, t: Time)
    requires Partition(c, s.pool) && Tickets(s) && LegalAll(c, s.pool, ops, m, t) && m != Asks(k)
    requires Guard(c, s, k, kind, now)
    ensures Guard(c, At(s, DoAll(s.pool, ops)), k, kind, now)
  {
    hide Partition, Tickets;
    Unstored(c, s, k, ops, m, t);
  }

  /** An IA answered from a record that lasts. */
  lemma AnsweredAtOnce(c: Config, p: Pool, kind: Kind, ia: IA, hostname: string, now: Time, env: Env)
    requires (kind.Bind? || kind.Extend?) && ia.key in p.table && Lasting(c, p.table[ia.key], now)
    ensures var r := p.table[ia.key];
      AnswerIA(c, p, kind, ia, hostname, now, env) == (p, Bound(r.id, r.ip, Unix(now + c.leaseTime)))
      && r.row.expires >= Unix(now + c.leaseTime)
  {
    SecondsReached(now + c.leaseTime, p.table[ia.key].row.expires);
  }

  /** A section in progress: what it did keeps the invariant, and its answers about `k` hold. */
  ghost predicate Midway(c: Config, s: Sys, k: Key, answers: seq<Answered>) {
    Good(c, s, k) && AnswersOk(s, k, answers, s.pool.pending)
  }

  /** Before the section comes to `k`, it has not touched it and its client's guard still holds. */
  ghost predicate Ahead(c: Config, s: Sys, k: Key, kind: Kind, now: Time) {
    Untouched(s.pool.pending, k) && Guard(c, s, k, kind, now)
  }

  lemma StillUntouched(c: Config, p: Pool, ops: seq<Op>, m: Speaker, t: Time, k: Key)
    requires Partition(c, p) && LegalAll(c, p, ops, m, t) && Untouched(p.pending, k) && m != Asks(k)
    ensures Untouched(DoAll(p, ops).pending, k)
  {
    hide Partition;
    PendingGrows(c, p, ops, m, t);
    var after := DoAll(p, ops).pending;
    forall pw | pw in after && !pw.undo.Nothing? ensures pw.undo.key != k {
      var j :| 0 <= j < |after| && after[j] == pw;
      if j < |p.pending| {
        assert p.pending[j] == pw;
      }
    }
  }

  /** One IA about another binding. */
  lemma OtherMidway(c: Config, s: Sys, k: Key, answers: seq<Answered>, kind: Kind, now: Time,
                    ops: seq<Op>, q: Pool, m: Speaker, a: Answered)
    requires Midway(c, s, k, answers) && a.key != k && m != Asks(k) && m != Yields(k)
    requires Trace(c, s.pool, ops, q, m, s.clock) && StoresOnce(ops)
    ensures Midway(c, At(s, q), k, answers + [a])
    ensures Ahead(c, s, k, kind, now) ==> Ahead(c, At(s, q), k, kind, now)
  {
    hide Partition, Tickets, Accounted, CallsOk, AnswerOk, Guard, Untouched;
    DoAllKeepsGood(c, s, k, ops, m, s.clock);
    DoAllAnswersOk(c, s, k, answers, ops, m, s.clock);
    if Ahead(c, s, k, kind, now) {
      GuardStays(c, s, k, kind, now, ops, m, s.clock);
      StillUntouched(c, s.pool, ops, m, s.clock, k);
    }
  }

  lemma SameOrNewStep(c: Config, p: Pool, op: Op, m: Speaker, t: Time, k: Key)
    requires Legal(c, p, op, m, t)
    ensures var q := Do(p, op);
      && p.ids <= q.ids
      && (k in q.table ==> q.table[k].id >= p.ids || (k in p.table && q.table[k].id == p.table[k].id))
  {
  }

  /** The record of a binding after a section: the one it had, or a new one. */
  lemma {:induction false} SameOrNew(c: Config, p: Pool, ops: seq<Op>, m: Speaker, t: Time, k: Key)
    requires LegalAll(c, p, ops, m, t)
    ensures var q := DoAll(p, ops);
      && p.ids <= q.ids
      && (k in q.table ==> q.table[k].id >= p.ids || (k in p.table && q.table[k].id == p.table[k].id))
  {
    hide Do, Legal;
    if ops != [] {
      SameOrNew(c, p, ops[..|ops| - 1], m, t, k);
      SameOrNewStep(c, DoAll(p, ops[..|ops| - 1]), ops[|ops| - 1], m, t, k);
    }
  }

  /** The stores that are undecided after a section were so before, or were queued by it. */
  lemma {:induction false} UnsureAfter(c: Config, s: Sys, ops: seq<Op>, m: Speaker, t: Time)
    requires Partition(c, s.pool) && Tickets(s) && LegalAll(c, s.pool, ops, m, t)
    ensures var q := DoAll(s.pool, ops);
      && Tickets(At(s, q)) && |s.pool.pending| <= |q.pending|
      && (forall pw :: Unsure(At(s, q), pw) ==>
        Unsure(s, pw) || exists j :: |s.pool.pending| <= j < |q.pending| && q.pending[j] == pw)
  {
    hide Partition, Tickets, Unsure;
    if ops != [] {
      var init, op := ops[..|ops| - 1], ops[|ops| - 1];
      var p := DoAll(s.pool, init);
      var mid, q := At(s, p), DoAll(s.pool, ops);
      UnsureAfter(c, s, init, m, t);
      DoAllKeepsPartition(c, s.pool, init, m, t);
      DoTickets(c, mid, op, m, t);
      DoShape(c, p, op, m, t);
      assert At(mid, Do(p, op)) == At(s, q);
      forall pw | Unsure(At(s, q), pw)
        ensures Unsure(s, pw) || exists j :: |s.pool.pending| <= j < |q.pending| && q.pending[j] == pw
      {
        if !Aside(op) {
          UnsureGrows(mid, q, WriteOf(p, op), UndoOf(p, op));
          assert q.pending[|p.pending|] == Pending(p.tickets, UndoOf(p, op));
        } else {
          UnsureSame(mid, q);
        }
        if Unsure(mid, pw) && !Unsure(s, pw) {
          var j :| |s.pool.pending| <= j < |p.pending| && p.pending[j] == pw;
          assert q.pending[j] == pw;
        }
      }
    } else {
      assert At(s, s.pool) == s;
    }
  }

  lemma UnsureSame(s: Sys, q: Pool)
    requires Idle(s.pool, q)
    ensures forall pw :: Unsure(At(s, q), pw) <==> Unsure(s, pw)
  {
  }

  /** The IA about the binding itself, when it is not answered at once. */
  lemma MineMidway(c: Config, s: Sys, k: Key, answers: seq<Answered>, ops: seq<Op>, q: Pool, m: Speaker, a: Answered)
    requires Midway(c, s, k, answers) && a.key == k && (forall i :: 0 <= i < |answers| ==> answers[i].key != k)
    requires Trace(c, s.pool, ops, q, m, s.clock) && StoresOnce(ops)
    requires Allowed(s, k, m) && (m == Asks(k) || m == Yields(k))
    requires a.from == |s.pool.pending| && a.to == |q.pending|
    requires a.answer.Bound? ==> m == Asks(k) && InForce(At(s, q), a)
    ensures Midway(c, At(s, q), k, answers + [a])
  {
    hide Partition, Accounted, CallsOk, Unsure, LegalAll;
    var s' := At(s, q);
    DoAllKeepsGood(c, s, k, ops, m, s.clock);
    UnsureAfter(c, s, ops, m, s.clock);
    SameOrNew(c, s.pool, ops, m, s.clock, k);
    if Waiting(a, s.clock) {
      forall pw | Unsure(s', pw) && Concerns(pw.undo, k, a.answer.id)
        ensures exists j :: a.from <= j < a.to && q.pending[j] == pw
      {
        if Unsure(s, pw) {
          UnsureIsOut(s, pw);
        }
      }
      assert Covered(s', a, q.pending);
    }
  }

  lemma UnsureIsOut(s: Sys, pw: Pending)
    requires Unsure(s, pw)
    ensures Out(s, pw)
  {
  }

  lemma AtOnceMidway(c: Config, s: Sys, k: Key, answers: seq<Answered>, a: Answered)
    requires Midway(c, s, k, answers) && a.key == k && a.answer.Bound? && InForce(s, a)
    requires a.from == a.to == |s.pool.pending| && Sound(s, k, a.answer.until)
    ensures Midway(c, s, k, answers + [a])
  {
  }

  /** One IA of a message. */
  lemma AnswerMidway(c: Config, s: Sys, k: Key, answers: seq<Answered>, kind: Kind, ia: IA, hostname: string,
                     now: Time, env: Env)
    requires Midway(c, s, k, answers) && |s.pool.declined| <= c.declineMax && now <= s.clock && env.later <= s.clock
    requires Walks(s.pool, env)
    requires ia.key == k ==> Ahead(c, s, k, kind, now) && forall i :: 0 <= i < |answers| ==> answers[i].key != k
    ensures var (q, answer) := AnswerIA(c, s.pool, kind, ia, hostname, now, env);
      && Midway(c, At(s, q), k, answers + [Answered(ia.key, answer, |s.pool.pending|, |q.pending|)])
      && (ia.key != k && Ahead(c, s, k, kind, now) ==> Ahead(c, At(s, q), k, kind, now))
  {
    hide AnswerIA, Good, AnswersOk, Partition, Untouched, NoneWaiting, Trace;
    var (q, answer) := AnswerIA(c, s.pool, kind, ia, hostname, now, env);
    var a := Answered(ia.key, answer, |s.pool.pending|, |q.pending|);
    GoodIsPartitioned(c, s, k);
    if ia.key == k && (kind.Bind? || kind.Extend?) && k in s.pool.table && Lasting(c, s.pool.table[k], now) {
      AnsweredAtOnce(c, s.pool, kind, ia, hostname, now, env);
      assert At(s, q) == s;
      AtOnceMidway(c, s, k, answers, a);
    } else {
      var ops := AnswerTrace(c, s.pool, kind, ia, hostname, now, env, s.clock);
      if ia.key == k {
        NoneWaitingLater(s, k, now);
        BoundMeansAsked(c, s.pool, kind, ia, hostname, now, env);
        MineMidway(c, s, k, answers, ops, q, Voice(kind, k), a);
      } else {
        OtherMidway(c, s, k, answers, kind, now, ops, q, Voice(kind, ia.key), a);
      }
    }
  }

  lemma BoundMeansAsked(c: Config, p: Pool, kind: Kind, ia: IA, hostname: string, now: Time, env: Env)
    ensures AnswerIA(c, p, kind, ia, hostname, now, env).1.Bound? ==> kind.Bind? || kind.Extend?
  {
    hide RenewKnown, AllocateLease, ReleaseLease, Quarantine;
  }

  lemma NoneWaitingLater(s: Sys, k: Key, now: Time)
    requires now <= s.clock
    ensures NoneWaiting(s, k, now) ==> NoneWaiting(s, k, s.clock)
  {
    SecondsPass(now, s.clock);
  }

  lemma GoodIsPartitioned(c: Config, s: Sys, k: Key)
    requires Good(c, s, k)
    ensures Partition(c, s.pool)
  {
  }

  /** The binding is named at most once in a message. */
  ghost predicate Once(ias: seq<IA>, k: Key) {
    forall i, j :: 0 <= i < j < |ias| ==> ias[i].key != k || ias[j].key != k
  }

  lemma {:induction false} MessageMidway(c: Config, s: Sys, k: Key, kind: Kind, ias: seq<IA>, hostname: string,
                                         now: Time, envs: seq<Env>)
    requires Good(c, s, k) && s.pool.pending == [] && Bounded(c, s.pool, s.started)
    requires |envs| == |ias| && now <= s.clock && forall i :: 0 <= i < |envs| ==> envs[i].later <= s.clock
    requires WalksAll(c, s.pool, kind, ias, hostname, now, envs)
    requires Once(ias, k) && (k in KeysOf(ias) ==> Guard(c, s, k, kind, now))
    ensures var (q, answers) := AnswerAll(c, s.pool, kind, ias, hostname, now, envs);
      && Midway(c, At(s, q), k, answers)
      && (k !in KeysOf(ias) && Guard(c, s, k, kind, now) ==> Ahead(c, At(s, q), k, kind, now))
  {
    hide Good, Midway, AnswersOk, AnswerIA, AnswerAll, WalksAll, Partition, Bounded, Guard, Once, Ahead;
    AnswerAllSteps(c, s.pool, kind, ias, hostname, now, envs);
    if ias == [] {
      assert At(s, s.pool) == s;
      NothingAnswered(c, s, k, kind, now);
    } else {
      var n := |ias| - 1;
      var init := ias[..n];
      GoodIsPartitioned(c, s, k);
      AnswersKeep(c, s.pool, kind, init, hostname, now, envs[..n], s.clock, s.started);
      KeysOfSnoc(ias, k);
      MessageMidway(c, s, k, kind, init, hostname, now, envs[..n]);
      var (q, answers) := AnswerAll(c, s.pool, kind, init, hostname, now, envs[..n]);
      var (r, answer) := AnswerIA(c, q, kind, ias[n], hostname, now, envs[n]);
      BoundedDeclines(c, q, s.started);
      KeysAnswered(c, s.pool, kind, init, hostname, now, envs[..n]);
      AnswerMidway(c, At(s, q), k, answers, kind, ias[n], hostname, now, envs[n]);
      assert At(At(s, q), r) == At(s, r);
    }
  }

  lemma {:induction false} KeysAnswered(
      c: Config, p: Pool, kind: Kind, ias: seq<IA>, hostname: string, now: Time, envs: seq<Env>)
    requires |envs| == |ias|
    ensures var answers := AnswerAll(c, p, kind, ias, hostname, now, envs).1;
      forall i :: 0 <= i < |ias| ==> answers[i].key == ias[i].key
  {
    hide AnswerIA;
    if ias != [] {
      KeysAnswered(c, p, kind, ias[..|ias| - 1], hostname, now, envs[..|ias| - 1]);
    }
  }

  lemma NothingAnswered(c: Config, s: Sys, k: Key, kind: Kind, now: Time)
    requires Good(c, s, k) && s.pool.pending == []
    ensures Midway(c, s, k, []) && (Guard(c, s, k, kind, now) ==> Ahead(c, s, k, kind, now))
  {
  }

  lemma KeysOfSnoc(ias: seq<IA>, k: Key)
    requires ias != []
    ensures var n := |ias| - 1;
      && (k in KeysOf(ias) <==> k in KeysOf(ias[..n]) || k == ias[n].key)
      && (k == ias[n].key && Once(ias, k) ==> k !in KeysOf(ias[..n]) && forall i :: 0 <= i < n ==> ias[i].key != k)
      && (Once(ias, k) ==> Once(ias[..n], k))
  {
    var n := |ias| - 1;
    assert KeysOf(ias) == KeysOf(ias[..n]) + [ias[n].key];
    assert forall i :: 0 <= i < n ==> KeysOf(ias[..n])[i] == ias[i].key;
  }

  // ----- the other steps -------------------------------------------------------------------------

  /** Later on, with the binding and the undecided stores behind it as they were, or fewer of them. */
  lemma AnswerLater(s: Sys, s': Sys, a: Answered, pending: seq<Pending>)
    requires AnswerOk(s, a, pending) && s.clock <= s'.clock
    requires a.key in s.pool.table ==> a.key in s'.pool.table && s'.pool.table[a.key] == s.pool.table[a.key]
    requires a.answer.Bound? && forall pw :: Unsure(s', pw) && Concerns(pw.undo, a.key, a.answer.id) ==> Unsure(s, pw)
    ensures AnswerOk(s', a, pending)
  {
    hide Unsure;
    SecondsPass(s.clock, s'.clock);
  }

  lemma CallsLater(s: Sys, s': Sys, k: Key)
    requires CallsOk(s, k) && s.clock <= s'.clock
    requires forall cid :: cid in s'.calls ==> cid in s.calls && s'.calls[cid] == s.calls[cid]
    requires k in s.pool.table ==> k in s'.pool.table && s'.pool.table[k] == s.pool.table[k]
    requires forall pw :: Unsure(s', pw) ==> Unsure(s, pw)
    ensures CallsOk(s', k)
  {
    hide Unsure, AnswerOk;
    forall cid | cid in s'.calls ensures AnswersOk(s', k, s'.calls[cid].answers, s'.calls[cid].pending) {
      AnswersLater(s, s', k, s.calls[cid].answers, s.calls[cid].pending);
    }
  }

  lemma AnswersLater(s: Sys, s': Sys, k: Key, answers: seq<Answered>, pending: seq<Pending>)
    requires AnswersOk(s, k, answers, pending) && s.clock <= s'.clock
    requires k in s.pool.table ==> k in s'.pool.table && s'.pool.table[k] == s.pool.table[k]
    requires forall pw :: Unsure(s', pw) ==> Unsure(s, pw)
    ensures AnswersOk(s', k, answers, pending)
  {
    hide Unsure, AnswerOk;
    forall i | 0 <= i < |answers| && answers[i].key == k ensures AnswerOk(s', answers[i], pending) {
      if answers[i].answer.Bound? {
        AnswerLater(s, s', answers[i], pending);
      } else {
        NoAnswerOk(s, s', answers[i], pending);
      }
    }
  }

  lemma NoAnswerOk(s: Sys, s': Sys, a: Answered, pending: seq<Pending>)
    requires AnswerOk(s, a, pending) && !a.answer.Bound?
    ensures AnswerOk(s', a, pending)
  {
  }

  /** Time passing, and the room the next section will find, change nothing that is claimed. */
  lemma LaterGood(c: Config, s: Sys, clock: Time, room: seq<bool>, k: Key)
    requires Good(c, s, k) && s.clock <= clock
    ensures Good(c, s.(clock := clock, pool := s.pool.(room := room)), k)
  {
    var s' := s.(clock := clock, pool := s.pool.(room := room));
    RoomIsOutside(c, s.pool, s'.pool);
    assert forall pw :: Out(s', pw) <==> Out(s, pw);
    hide AnswersOk, Partition;
    SameAccounted(s, s', k);
    CallsLater(s, s', k);
  }

  lemma LaterGuard(c: Config, s: Sys, clock: Time, room: seq<bool>, k: Key, kind: Kind, now: Time)
    requires Guard(c, s, k, kind, now)
    ensures Guard(c, s.(clock := clock, pool := s.pool.(room := room)), k, kind, now)
  {
    var s' := s.(clock := clock, pool := s.pool.(room := room));
    assert forall pw :: Unsure(s', pw) <==> Unsure(s, pw);
  }

  /** Taking the lock changes nothing a binding rests on. */
  lemma EnteredSame(s: Sys, a: Action)
    requires a.Receive? || a.Sweep?
    ensures forall pw :: Out(Entered(s, a), pw) <==> Out(s, pw)
    ensures forall pw :: Unsure(Entered(s, a), pw) <==> Unsure(s, pw)
    ensures Tickets(s) ==> Tickets(Entered(s, a))
  {
  }

  lemma ParkOut(s: Sys, cid: nat, keys: seq<Key>, answers: seq<Answered>)
    requires cid !in s.calls
    ensures forall pw :: Out(Park(s, cid, keys, answers), pw) <==> Out(s, pw)
  {
    var s' := Park(s, cid, keys, answers);
    forall pw ensures Out(s', pw) <==> Out(s, pw) {
      if pw in s.pool.pending {
        assert pw in s'.calls[cid].pending;
      } else if Out(s, pw) {
        var did :| did in s.calls && pw in s.calls[did].pending;
        assert pw in s'.calls[did].pending;
      }
    }
  }

  lemma ParkTickets(s: Sys, cid: nat, keys: seq<Key>, answers: seq<Answered>)
    requires Tickets(s) && cid !in s.calls
    ensures Tickets(Park(s, cid, keys, answers))
  {
    ParkOut(s, cid, keys, answers);
  }

  lemma ParkGood(c: Config, s: Sys, k: Key, cid: nat, keys: seq<Key>, answers: seq<Answered>)
    requires Midway(c, s, k, answers) && cid !in s.calls
    ensures Good(c, Park(s, cid, keys, answers), k)
  {
    hide Tickets, Accounted;
    var s' := Park(s, cid, keys, answers);
    RoomIsOutside(c, s.pool, s'.pool);
    ParkOut(s, cid, keys, answers);
    ParkTickets(s, cid, keys, answers);
    hide Partition, AnswerOk;
    SameAccounted(s, s', k);
    forall did | did in s'.calls ensures AnswersOk(s', k, s'.calls[did].answers, s'.calls[did].pending) {
      AnswersLater(s, s', k, s'.calls[did].answers, s'.calls[did].pending);
    }
  }

  // ----- the writer ----------------------------------------------------------------------------

  lemma RowsOfOthers(f: Family, db: Rows, w: Write, k: Key, ip: Addr, row: Row)
    requires w.key != k
    ensures Stored(db, k, ip, row) ==> Stored(Apply(f, db, w), k, ip, row)
  {
  }

  /** The store an undecided change waits for stays backed unless it lands. */
  lemma WriterBacked(c: Config, s: Sys, ok: bool, k: Key, r: Record, pw: Pending)
    requires Tickets(s) && s.pool.queue != [] && Backed(s, k, r, pw)
    requires pw.ticket != Head(s) || !ok
    ensures Backed(Writer(c, s, ok), k, r, pw)
  {
    var e, i := s.pool.queue[0], pw.ticket - Head(s);
    var rest := s.pool.queue[1..];
    if e.write.key != k && pw.undo.Shorten? {
      RowsOfOthers(c.family, s.db, e.write, k, r.ip, pw.undo.was);
    }
    if i > 0 {
      assert rest[i..] == s.pool.queue[i + 1..];
      assert rest[..i - 1] == s.pool.queue[..i][1..];
      if pw.undo.Shorten? {
        assert s.pool.queue[..i][0] == e;
      }
    } else if i == 0 {
      assert rest == s.pool.queue[i + 1..];
    }
  }

  lemma WriterUnsure(c: Config, s: Sys, ok: bool)
    requires Tickets(s) && s.pool.queue != []
    ensures Tickets(Writer(c, s, ok))
    ensures forall pw :: Unsure(Writer(c, s, ok), pw) <==> Unsure(s, pw) && (pw.ticket != Head(s) || !ok)
  {
    var s' := Writer(c, s, ok);
    assert forall pw :: Out(s', pw) <==> Out(s, pw);
  }

  /** Landing the store behind a binding settles it. */
  lemma WriterLands(c: Config, s: Sys, k: Key, r: Record, pw: Pending)
    requires Tickets(s) && s.pool.queue != [] && Backed(s, k, r, pw) && pw.ticket == Head(s)
    ensures var s' := Writer(c, s, true); Quiet(s'.pool.queue, k) && Stored(s'.db, k, r.ip, r.row)
  {
    assert s.pool.queue[1..] == s.pool.queue[0 + 1..];
  }

  lemma WriterAccounted(c: Config, s: Sys, ok: bool, k: Key)
    requires Tickets(s) && s.pool.queue != [] && Accounted(s, k)
    ensures Accounted(Writer(c, s, ok), k)
  {
    hide Tickets, Unsure, Backed;
    var s' := Writer(c, s, ok);
    WriterUnsure(c, s, ok);
    if k in s.pool.table {
      var r := s.pool.table[k];
      forall pw | Unsure(s', pw) && Concerns(pw.undo, k, r.id) ensures Backed(s', k, r, pw) {
        WriterBacked(c, s, ok, k, r, pw);
      }
      if Sure(s', k) {
        if Sure(s, k) {
          RowsOfOthers(c.family, s.db, s.pool.queue[0].write, k, r.ip, r.row);
        } else {
          var pw :| Unsure(s, pw) && Concerns(pw.undo, k, r.id);
          WriterLands(c, s, k, r, pw);
        }
      }
    }
  }

  lemma WriterGood(c: Config, s: Sys, ok: bool, k: Key)
    requires Good(c, s, k) && s.pool.queue != []
    ensures Good(c, Writer(c, s, ok), k)
  {
    hide Tickets, Accounted, AnswersOk;
    var s' := Writer(c, s, ok);
    RoomIsOutside(c, s.pool, s'.pool);
    WriterUnsure(c, s, ok);
    WriterAccounted(c, s, ok, k);
    CallsLater(s, s', k);
  }

  // ----- settling --------------------------------------------------------------------------------

  lemma {:induction false} FailedExactly(done: map<nat, bool>, pending: seq<Pending>)
    ensures forall j :: 0 <= j < |pending| && pending[j].ticket in done && !done[pending[j].ticket] ==>
      pending[j].undo in Failed(done, pending)
    ensures forall u :: u in Failed(done, pending) ==>
      exists j :: 0 <= j < |pending| && pending[j].undo == u && pending[j].ticket in done && !done[pending[j].ticket]
  {
    if pending != [] {
      FailedExactly(done, pending[..|pending| - 1]);
    }
  }

  lemma {:induction false} UndosOnlyRemove(p: Pool, undos: seq<Undo>)
    ensures RunUndos(p, undos).table.Keys <= p.table.Keys
    decreases |undos|
  {
    if undos != [] {
      UndosOnlyRemove(RunUndo(p, undos[|undos| - 1]), undos[..|undos| - 1]);
    }
  }

  /** Undos that do not concern a record leave it where it is. */
  lemma {:induction false} UndosElsewhere(p: Pool, undos: seq<Undo>, k: Key)
    requires k in p.table && forall u :: u in undos ==> !Concerns(u, k, p.table[k].id)
    ensures k in RunUndos(p, undos).table && RunUndos(p, undos).table[k] == p.table[k]
    decreases |undos|
  {
    if undos != [] {
      assert undos[|undos| - 1] in undos;
      UndosElsewhere(RunUndo(p, undos[|undos| - 1]), undos[..|undos| - 1], k);
    }
  }

  /** The one undo that concerns a record is what happens to it. */
  lemma {:induction false} UndosHere(p: Pool, undos: seq<Undo>, k: Key, u: Undo, r: Record)
    requires Concerns(u, k, r.id) && forall v :: v in undos && Concerns(v, k, r.id) ==> v == u
    requires u.Shorten? ==> u.extended == r.row.expires
    requires k in p.table ==> p.table[k] == r || (u.Shorten? && p.table[k] == r.(row := u.was))
    requires u in undos || k !in p.table || (u.Shorten? && p.table[k] == r.(row := u.was))
    ensures var q := RunUndos(p, undos);
      && (k in q.table ==> u.Shorten? && q.table[k] == r.(row := u.was))
      && (k in p.table && u.Shorten? ==> k in q.table)
    decreases |undos|
  {
    if undos != [] {
      var last, init := undos[|undos| - 1], undos[..|undos| - 1];
      assert last in undos;
      var q := RunUndo(p, last);
      assert forall v :: v in init ==> v in undos;
      assert u in undos ==> u in init || u == last;
      UndosHere(q, init, k, u, r);
    }
  }

  /** The system after a caller has settled. */
  ghost predicate Settled(s: Sys, s': Sys, cid: nat) {
    && cid in s.calls && s.pool.pending == [] && AllDone(s, s.calls[cid]) && s.clock <= s'.clock
    && s' == s.(pool := RunUndos(s.pool, Failed(s.done, s.calls[cid].pending)), calls := s.calls - {cid},
                clock := s'.clock)
  }

  /** What is undecided afterwards was so before, and is not the caller's. */
  lemma SettledUnsure(s: Sys, s': Sys, cid: nat)
    requires Tickets(s) && Settled(s, s', cid)
    ensures forall pw :: Out(s', pw) ==> Out(s, pw)
    ensures forall pw :: Unsure(s', pw) <==> Unsure(s, pw) && pw !in s.calls[cid].pending
    ensures s'.pool.pending == [] && s'.pool.queue == s.pool.queue && s'.pool.tickets == s.pool.tickets
    ensures s'.pool.ids == s.pool.ids && Tickets(s')
  {
    UndosTouch(s.pool, Failed(s.done, s.calls[cid].pending));
    hide RunUndos, Failed;
    forall pw | Out(s', pw) ensures Out(s, pw) && pw !in s.calls[cid].pending {
      var did :| did in s'.calls && pw in s'.calls[did].pending;
      assert did in s.calls && did != cid;
    }
    forall pw | Out(s, pw) && pw !in s.calls[cid].pending ensures Out(s', pw) {
      var did :| did in s.calls && pw in s.calls[did].pending;
      assert did in s'.calls;
    }
  }

  /** An undo that runs for a record belongs to an undecided change of the caller's. */
  lemma RunningUndo(s: Sys, cid: nat, u: Undo)
    requires cid in s.calls && u in Failed(s.done, s.calls[cid].pending)
    ensures exists pw :: pw in s.calls[cid].pending && pw.undo == u && Unsure(s, pw)
  {
    var pending := s.calls[cid].pending;
    FailedExactly(s.done, pending);
    var j :| 0 <= j < |pending| && pending[j].undo == u && pending[j].ticket in s.done && !s.done[pending[j].ticket];
    assert Unsure(s, pending[j]);
  }

  /** The settled caller's own undecided store is undone. */
  lemma SettleMine(s: Sys, s': Sys, cid: nat, k: Key, pw: Pending)
    requires Tickets(s) && Accounted(s, k) && Settled(s, s', cid)
    requires k in s.pool.table && pw in s.calls[cid].pending && Unsure(s, pw)
    requires Concerns(pw.undo, k, s.pool.table[k].id)
    ensures Accounted(s', k)
    ensures k in s'.pool.table ==> pw.undo.Shorten? && s'.pool.table[k] == s.pool.table[k].(row := pw.undo.was)
    ensures pw.undo.Shorten? ==> k in s'.pool.table
  {
    var r, call := s.pool.table[k], s.calls[cid];
    var undos := Failed(s.done, call.pending);
    SettledUnsure(s, s', cid);
    FailedExactly(s.done, call.pending);
    assert Backed(s, k, r, pw);
    var j :| 0 <= j < |call.pending| && call.pending[j] == pw;
    assert pw.ticket < Head(s);
    forall u | u in undos && Concerns(u, k, r.id) ensures u == pw.undo {
      RunningUndo(s, cid, u);
    }
    UndosHere(s.pool, undos, k, pw.undo, r);
  }

  /** A binding the settled caller has nothing undecided about is left as it was. */
  lemma SettleOther(s: Sys, s': Sys, cid: nat, k: Key)
    requires Tickets(s) && Accounted(s, k) && Settled(s, s', cid) && k in s.pool.table
    requires forall pw :: pw in s.calls[cid].pending && Unsure(s, pw) ==> !Concerns(pw.undo, k, s.pool.table[k].id)
    ensures k in s'.pool.table && s'.pool.table[k] == s.pool.table[k]
    ensures Accounted(s', k)
  {
    hide Tickets, Unsure;
    var r, undos := s.pool.table[k], Failed(s.done, s.calls[cid].pending);
    SettledUnsure(s, s', cid);
    forall u | u in undos ensures !Concerns(u, k, r.id) {
      RunningUndo(s, cid, u);
    }
    UndosElsewhere(s.pool, undos, k);
    assert forall pw :: Backed(s, k, r, pw) ==> Backed(s', k, r, pw);
    if Sure(s', k) {
      assert Sure(s, k);
    }
  }

  /** An answer of another caller outlives the undo: it relied on no more than the undo leaves. */
  lemma SettleAnswer(c: Config, s: Sys, s': Sys, cid: nat, did: nat, i: nat, k: Key)
    requires Good(c, s, k) && Settled(s, s', cid) && did in s'.calls
    requires i < |s.calls[did].answers| && s.calls[did].answers[i].key == k
    ensures AnswerOk(s', s.calls[did].answers[i], s.calls[did].pending)
  {
    hide Partition, Tickets, Accounted, Unsure, AnswerOk;
    var a, pending := s.calls[did].answers[i], s.calls[did].pending;
    assert AnswersOk(s, k, s.calls[did].answers, pending);
    assert AnswerOk(s, a, pending);
    SettledUnsure(s, s', cid);
    if !Waiting(a, s.clock) {
      AnswerOverLater(s, s', a, pending);
    } else {
      WaitingIs(s, a, pending);
      if pw :| pw in s.calls[cid].pending && Unsure(s, pw) && Concerns(pw.undo, k, s.pool.table[k].id) {
        SettleMine(s, s', cid, k, pw);
        NotTheirs(s, cid, did, pw);
        AnswerCutBack(s, s', a, pending, pw);
      } else {
        SettleOther(s, s', cid, k);
        AnswerLater(s, s', a, pending);
      }
    }
  }

  lemma WaitingIs(s: Sys, a: Answered, pending: seq<Pending>)
    requires AnswerOk(s, a, pending) && Waiting(a, s.clock)
    ensures a.answer.Bound? && InForce(s, a) && a.to <= |pending| && Covered(s, a, pending)
  {
  }

  lemma AnswerOverLater(s: Sys, s': Sys, a: Answered, pending: seq<Pending>)
    requires AnswerOk(s, a, pending) && !Waiting(a, s.clock) && s.clock <= s'.clock
    ensures AnswerOk(s', a, pending)
  {
    SecondsPass(s.clock, s'.clock);
  }

  lemma NotTheirs(s: Sys, cid: nat, did: nat, pw: Pending)
    requires Tickets(s) && cid in s.calls && did in s.calls && cid != did && pw in s.calls[cid].pending
    ensures forall j :: 0 <= j < |s.calls[did].pending| ==> s.calls[did].pending[j] != pw
  {
  }

  lemma AnswerCutBack(s: Sys, s': Sys, a: Answered, pending: seq<Pending>, pw: Pending)
    requires AnswerOk(s, a, pending) && Waiting(a, s.clock)
    requires Unsure(s, pw) && Concerns(pw.undo, a.key, a.answer.id)
    requires forall j :: 0 <= j < |pending| ==> pending[j] != pw
    requires pw.undo.Shorten? ==> a.key in s'.pool.table
    requires a.key in s'.pool.table ==> pw.undo.Shorten? && s'.pool.table[a.key] == s.pool.table[a.key].(row := pw.undo.was)
    requires forall pv :: Unsure(s', pv) ==> Unsure(s, pv)
    ensures AnswerOk(s', a, pending)
  {
    hide Unsure;
  }

  lemma SettleGood(c: Config, s: Sys, cid: nat, now: Time, k: Key)
    requires Good(c, s, k) && Consistent(c, s) && Enabled(c, s, Settle(cid, now))
    ensures Good(c, Next(c, s, Settle(cid, now)), k)
  {
    hide Accounted, AnswerOk, AllDone;
    var s' := Next(c, s, Settle(cid, now));
    StepKeepsConsistent(c, s, Settle(cid, now));
    assert Settled(s, s', cid);
    SettledUnsure(s, s', cid);
    SettleAccounted(s, s', cid, k);
    forall did | did in s'.calls ensures AnswersOk(s', k, s'.calls[did].answers, s'.calls[did].pending) {
      var answers := s.calls[did].answers;
      forall i | 0 <= i < |answers| && answers[i].key == k ensures AnswerOk(s', answers[i], s'.calls[did].pending) {
        SettleAnswer(c, s, s', cid, did, i, k);
      }
    }
  }

  lemma SettleAccounted(s: Sys, s': Sys, cid: nat, k: Key)
    requires Tickets(s) && Accounted(s, k) && Settled(s, s', cid)
    ensures Accounted(s', k)
  {
    hide Tickets, Accounted, Unsure;
    if k !in s.pool.table {
      UndosOnlyRemove(s.pool, Failed(s.done, s.calls[cid].pending));
      NotHeld(s', k);
    } else if pw :| pw in s.calls[cid].pending && Unsure(s, pw) && Concerns(pw.undo, k, s.pool.table[k].id) {
      SettleMine(s, s', cid, k, pw);
    } else {
      SettleOther(s, s', cid, k);
    }
  }

  lemma RestoredGood(c: Config, m: map<Key, (Addr, Row)>, taken: set<Addr>, db: Rows, clock: Time, k: Key)
    requires Partition(c, Restored(m, taken)) && (k in m ==> Stored(db, k, m[k].0, m[k].1))
    ensures Good(c, Sys(Restored(m, taken), db, map[], map[], clock, |m|), k)
  {
    hide Partition;
    var s := Sys(Restored(m, taken), db, map[], map[], clock, |m|);
    assert forall pw :: !Out(s, pw);
  }

  /** A process that has just come up on any lease file it can start from. */
  lemma RestartGood(c: Config, s: Sys, rows: seq<(Key, Addr)>, walk: seq<Key>, k: Key)
    requires Enabled(c, s, Restart(rows, walk))
    ensures Good(c, Next(c, s, Restart(rows, walk)), k)
  {
    var m := Load(s.db, rows);
    RestartKeeps(c, m, walk);
    RestoredGood(c, m, Replay(c, m, walk).value, s.db, s.clock, k);
  }

  /** What a section queues goes behind what was there, under tickets of its own. */
  lemma {:induction false} DoAllTickets(c: Config, s: Sys, ops: seq<Op>, all: set<Speaker>, t: Time)
    requires Partition(c, s.pool) && Tickets(s) && LegalAmong(c, s.pool, ops, all, t)
    ensures var p, q := s.pool, DoAll(s.pool, ops);
      && Tickets(At(s, q)) && p.pending <= q.pending && p.tickets <= q.tickets && Head(At(s, q)) == Head(s)
      && (forall j :: |p.pending| <= j < |q.pending| ==> p.tickets <= q.pending[j].ticket < q.tickets)
  {
    hide Partition, Tickets, Do, Legal;
    if ops != [] {
      var init, op := ops[..|ops| - 1], ops[|ops| - 1];
      var p := DoAll(s.pool, init);
      DoAllTickets(c, s, init, all, t);
      AmongKeepsPartition(c, s.pool, init, all, t);
      var m :| m in all && Legal(c, p, op, m, t);
      DoShape(c, p, op, m, t);
      DoTickets(c, At(s, p), op, m, t);
      assert At(At(s, p), Do(p, op)) == At(s, DoAll(s.pool, ops));
    } else {
      assert At(s, s.pool) == s;
    }
  }

  lemma StepTickets(c: Config, s: Sys, a: Action)
    requires Consistent(c, s) && Tickets(s) && Enabled(c, s, a)
    ensures Tickets(Next(c, s, a))
  {
    hide Tickets, Partition, Speakers, Says, AnswerAll, Reclaim, Replay, Load;
    if a.Receive? || a.Sweep? {
      var t := Entered(s, a);
      var ops := SectionTrace(c, s, a);
      EnteredSame(s, a);
      DoAllTickets(c, t, ops, Speakers(a), t.clock);
      ParkTickets(At(t, DoAll(t.pool, ops)), a.cid, if a.Receive? then KeysOf(a.ias) else [], Says(c, s, a));
    } else if a.WriteOk? || a.WriteFails? {
      WriterUnsure(c, s, a.WriteOk?);
    } else if a.Settle? {
      SettledUnsure(s, Next(c, s, a), a.cid);
    } else {
      RestartGood(c, s, a.rows, a.walk, "");
    }
  }

  // ----- whole runs ------------------------------------------------------------------------------

  /** Every message about the binding respects its guard; other clients may do as they please. */
  ghost predicate Considerate(c: Config, s: Sys, a: Action, k: Key) {
    a.Receive? && k in KeysOf(a.ias) ==> Once(a.ias, k) && Guard(c, s, k, a.kind, a.now)
  }

  ghost predicate ConsiderateRun(c: Config, s: Sys, actions: seq<Action>, k: Key)
    requires Run(c, s, actions)
    decreases |actions|
  {
    actions != [] ==>
      Considerate(c, s, actions[0], k) && ConsiderateRun(c, Next(c, s, actions[0]), actions[1..], k)
  }

  lemma ReceiveGood(c: Config, s: Sys, a: Action, k: Key)
    requires Good(c, s, k) && Consistent(c, s) && Enabled(c, s, a) && a.Receive? && Considerate(c, s, a, k)
    ensures Good(c, Next(c, s, a), k)
  {
    hide Good, Guard, Partition, Bounded, AnswerAll, WalksAll, Midway;
    var keys := KeysOf(a.ias);
    var t := s.(clock := a.end, pool := s.pool.(room := a.room));
    LaterGood(c, s, a.end, a.room, k);
    RoomBounds(c, s.pool, a.room, s.started);
    if k in keys {
      LaterGuard(c, s, a.end, a.room, k, a.kind, a.now);
    } else {
      NotNamed(a.ias, k);
    }
    MessageMidway(c, t, k, a.kind, a.ias, a.hostname, a.now, a.envs);
    var (q, answers) := AnswerAll(c, t.pool, a.kind, a.ias, a.hostname, a.now, a.envs);
    ParkGood(c, At(t, q), k, a.cid, keys, answers);
    assert Park(At(t, q), a.cid, keys, answers) == Next(c, s, a);
  }

  lemma NotNamed(ias: seq<IA>, k: Key)
    requires k !in KeysOf(ias)
    ensures Once(ias, k)
  {
    forall i | 0 <= i < |ias| ensures ias[i].key != k {
      assert KeysOf(ias)[i] == ias[i].key;
    }
  }

  lemma SweepGood(c: Config, s: Sys, a: Action, k: Key)
    requires Good(c, s, k) && Consistent(c, s) && Enabled(c, s, a) && a.Sweep?
    ensures Good(c, Next(c, s, a), k)
  {
    hide Good, Partition, Reclaim;
    var t := s.(clock := a.now, pool := s.pool.(room := a.room));
    LaterGood(c, s, a.now, a.room, k);
    GoodIsPartitioned(c, t, k);
    var ops := ReclaimTrace(c, t.pool, a.keys, a.addrs, a.now, Nobody, a.now);
    NobodyStores(c, t.pool, ops, a.now);
    DoAllKeepsGood(c, t, k, ops, Nobody, a.now);
    var q := DoAll(t.pool, ops);
    SweptMidway(c, At(t, q), k);
    ParkGood(c, At(t, q), k, a.cid, [], []);
    assert Park(At(t, q), a.cid, [], []) == Next(c, s, a);
  }

  lemma SweptMidway(c: Config, s: Sys, k: Key)
    requires Good(c, s, k)
    ensures Midway(c, s, k, [])
  {
  }

  lemma StepKeepsGood(c: Config, s: Sys, a: Action, k: Key)
    requires Good(c, s, k) && Consistent(c, s) && Enabled(c, s, a) && Considerate(c, s, a, k)
    ensures Good(c, Next(c, s, a), k)
  {
    hide Good, Consistent, Considerate;
    match a
    case Receive(_, _, _, _, _, _, _, _) => ReceiveGood(c, s, a, k);
    case Sweep(_, _, _, _, _) => SweepGood(c, s, a, k);
    case WriteOk => WriterGood(c, s, true, k);
    case WriteFails => WriterGood(c, s, false, k);
    case Settle(cid, now) => SettleGood(c, s, cid, now, k);
    case Restart(rows, walk) => RestartGood(c, s, rows, walk, k);
  }

  lemma {:induction false} RunsAreGood(c: Config, s: Sys, actions: seq<Action>, k: Key)
    requires Good(c, s, k) && Consistent(c, s) && Run(c, s, actions) && ConsiderateRun(c, s, actions, k)
    ensures Good(c, Final(c, s, actions), k) && Consistent(c, Final(c, s, actions))
    decreases |actions|
  {
    hide Good, Consistent, Considerate, Enabled, Next;
    if actions != [] {
      var s', rest := Next(c, s, actions[0]), actions[1..];
      StepKeepsConsistent(c, s, actions[0]);
      StepKeepsGood(c, s, actions[0], k);
      RunsAreGood(c, s', rest, k);
      assert Final(c, s, actions) == Final(c, s', rest);
    }
  }

  lemma FreshIsGood(c: Config, now: Time, k: Key)
    ensures Good(c, Fresh(now), k)
  {
    FreshIsConsistent(c, now);
    assert forall pw :: !Out(Fresh(now), pw);
  }

  /** Whatever went before, a binding is accounted for again once its row is on disk and nobody waits over it. */
  lemma AtRestIsGood(c: Config, s: Sys, k: Key)
    requires Consistent(c, s) && Tickets(s)
    requires forall cid, i :: cid in s.calls && 0 <= i < |s.calls[cid].answers| ==> s.calls[cid].answers[i].key != k
    requires k in s.pool.table ==>
      Sure(s, k) && Quiet(s.pool.queue, k) && Stored(s.db, k, s.pool.table[k].ip, s.pool.table[k].row)
    ensures Good(c, s, k)
  {
    hide Partition, Tickets, Unsure, Quiet, Backed;
  }

  // ----- the reply --------------------------------------------------------------------------------

  /** eachIANA's second loop: an IA whose writes did not all land is refused. */
  ghost predicate Wrote(s: Sys, call: Call, i: int)
    requires 0 <= i < |call.answers|
  {
    forall j :: call.answers[i].from <= j < call.answers[i].to && j < |call.pending| ==>
      call.pending[j].ticket in s.done && s.done[call.pending[j].ticket]
  }

  ghost function Reply(s: Sys, call: Call, i: int): Answer
    requires 0 <= i < |call.answers|
  {
    if Wrote(s, call, i) then call.answers[i].answer
    else if call.answers[i].answer.Done? then NotDone else NoAddress
  }

  /** The from/to offsets of a message's answers tile what it queued: no gap, no overlap. */
  lemma {:induction false} OffsetsTile(
      c: Config, p: Pool, kind: Kind, ias: seq<IA>, hostname: string, now: Time, envs: seq<Env>)
    requires |envs| == |ias| && ias != []
    ensures var (q, answers) := AnswerAll(c, p, kind, ias, hostname, now, envs);
      && answers[0].from == |p.pending|
      && answers[|ias| - 1].to == |q.pending|
      && (forall i :: 0 <= i < |ias| - 1 ==> answers[i].to == answers[i + 1].from)
      && (forall i :: 0 <= i < |ias| ==> answers[i].key == ias[i].key)
  {
    hide AnswerIA;
    var n := |ias| - 1;
    if n > 0 {
      OffsetsTile(c, p, kind, ias[..n], hostname, now, envs[..n]);
    } else {
      assert AnswerAll(c, p, kind, ias[..0], hostname, now, envs[..0]) == (p, []);
    }
  }
}
