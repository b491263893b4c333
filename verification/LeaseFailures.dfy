/**
 Crash safety with failing statements. A store that fails leaves the old row or none. It
 does harm only when its caller then drops the lease although a later store of the same
 record has landed or is still to land: that row is left behind. In every run in which no
 delete fails and no settling caller leaves a row behind, whatever the clients do and
 whatever stores fail now or later, the lease file is one the server starts from: at any
 crash point, whichever of the queued stores land. Considerate clients never have a row
 left behind.
 */
module LeaseFailures {
  import opened LeaseModel
  import opened LeaseOps
  import opened LeaseSystem
  import opened LeaseCrash
  import opened LeaseTold

  /** Where each client may have a row. */
  type Shadow = map<Key, Addr>

  ghost predicate Proper(c: Config, m: Shadow) {
    && (forall k :: k in m ==> InPool(c, m[k]))
    && (forall k, j :: k in m && j in m && k != j ==> m[k] != m[j])
  }

  ghost predicate Within(db: Rows, m: Shadow) {
    forall x :: x in db ==> x.0 in m && m[x.0] == x.1
  }

  function Step(m: Shadow, w: Write): Shadow {
    match w
    case Store(k, ip, _) => m[k := ip]
    case Remove(k, _) => m - {k}
  }

  /** A write that moves no client to a second address, and none to an address that is not free. */
  ghost predicate Fits(c: Config, m: Shadow, w: Write) {
    match w
    case Store(k, ip, _) => InPool(c, ip) && forall j :: j in m ==> (m[j] == ip <==> j == k)
    case Remove(k, ip) => k in m ==> m[k] == ip
  }

  function End(m: Shadow, queue: seq<Entry>): Shadow {
    if queue == [] then m else Step(End(m, queue[..|queue| - 1]), queue[|queue| - 1].write)
  }

  ghost predicate Safe(c: Config, m: Shadow, queue: seq<Entry>) {
    Proper(c, m) && forall i :: 0 <= i < |queue| ==> Fits(c, Before(m, queue, i), queue[i].write)
  }

  /** The shadow when the writer comes to entry i. */
  function Before(m: Shadow, queue: seq<Entry>, i: nat): Shadow
    requires i <= |queue|
  {
    End(m, queue[..i])
  }

  ghost predicate Below(m: Shadow, n: Shadow) {
    forall k :: k in m ==> k in n && n[k] == m[k]
  }

  lemma StepBelow(c: Config, m: Shadow, n: Shadow, w: Write)
    requires Below(m, n)
    ensures Below(Step(m, w), Step(n, w)) && (Fits(c, n, w) ==> Fits(c, m, w))
  {
  }

  lemma {:induction false} EndBelow(m: Shadow, n: Shadow, queue: seq<Entry>)
    requires Below(m, n)
    ensures Below(End(m, queue), End(n, queue))
  {
    if queue != [] {
      EndBelow(m, n, queue[..|queue| - 1]);
    }
  }

  lemma SafeBelow(c: Config, m: Shadow, n: Shadow, queue: seq<Entry>)
    requires Below(m, n) && Safe(c, n, queue)
    ensures Safe(c, m, queue)
  {
    hide End, Fits;
    forall i | 0 <= i < |queue| ensures Fits(c, Before(m, queue, i), queue[i].write) {
      EndBelow(m, n, queue[..i]);
      assert Fits(c, Before(n, queue, i), queue[i].write);
      StepBelow(c, Before(m, queue, i), Before(n, queue, i), queue[i].write);
    }
  }

  lemma StepProper(c: Config, m: Shadow, w: Write)
    requires Proper(c, m) && Fits(c, m, w)
    ensures Proper(c, Step(m, w))
  {
  }

  lemma {:induction false} BeforeProper(c: Config, m: Shadow, queue: seq<Entry>, i: nat)
    requires Safe(c, m, queue) && i <= |queue|
    ensures Proper(c, Before(m, queue, i))
  {
    hide Fits, Proper;
    if i > 0 {
      BeforeProper(c, m, queue, i - 1);
      assert queue[..i][..i - 1] == queue[..i - 1];
      StepProper(c, Before(m, queue, i - 1), queue[i - 1].write);
    } else {
      assert queue[..0] == [];
    }
  }

  lemma {:induction false} HeadFirst(m: Shadow, queue: seq<Entry>)
    requires queue != []
    ensures End(m, queue) == End(Step(m, queue[0].write), queue[1..])
  {
    hide Step;
    var n := |queue| - 1;
    if n == 0 {
      assert queue[..0] == [] && queue[1..] == [];
      assert End(m, queue[..0]) == m;
    } else {
      HeadFirst(m, queue[..n]);
      assert queue[..n][1..] == queue[1..][..n - 1];
    }
  }

  lemma BeforeShifts(m: Shadow, queue: seq<Entry>, i: nat)
    requires queue != [] && 1 <= i <= |queue|
    ensures Before(m, queue, i) == Before(Step(m, queue[0].write), queue[1..], i - 1)
  {
    hide End;
    HeadFirst(m, queue[..i]);
    assert queue[..i][1..] == queue[1..][..i - 1];
  }

  /** Dropping the head, done. */
  lemma SafeTail(c: Config, m: Shadow, queue: seq<Entry>)
    requires Safe(c, m, queue) && queue != []
    ensures Safe(c, Step(m, queue[0].write), queue[1..]) && Below(m, m)
  {
    hide End, Fits, Proper, Before;
    var rest := queue[1..];
    AtZero(m, queue);
    StepProper(c, m, queue[0].write);
    forall i | 0 <= i < |rest| ensures Fits(c, Before(Step(m, queue[0].write), rest, i), rest[i].write) {
      BeforeShifts(m, queue, i + 1);
      assert Fits(c, Before(m, queue, i + 1), queue[i + 1].write);
    }
  }

  lemma AtZero(m: Shadow, queue: seq<Entry>)
    ensures Before(m, queue, 0) == m
  {
    assert queue[..0] == [];
  }

  lemma Appended(m: Shadow, queue: seq<Entry>, e: Entry, i: nat)
    requires i <= |queue|
    ensures Before(m, queue + [e], i) == Before(m, queue, i)
    ensures End(m, queue + [e]) == Step(End(m, queue), e.write) && Before(m, queue, |queue|) == End(m, queue)
  {
    hide Step;
    assert (queue + [e])[..i] == queue[..i];
    assert (queue + [e])[..|queue|] == queue == queue[..|queue|];
  }

  lemma SafeAppend(c: Config, m: Shadow, queue: seq<Entry>, e: Entry)
    requires Safe(c, m, queue) && Fits(c, End(m, queue), e.write)
    ensures Safe(c, m, queue + [e])
  {
    hide End, Fits, Proper, Before;
    var longer := queue + [e];
    forall i | 0 <= i < |longer| ensures Fits(c, Before(m, longer, i), longer[i].write) {
      Appended(m, queue, e, i);
      if i < |queue| {
        assert Fits(c, Before(m, queue, i), queue[i].write);
      }
    }
  }

  lemma {:induction false} EndQuiet(m: Shadow, queue: seq<Entry>, k: Key)
    requires Quiet(queue, k)
    ensures k in End(m, queue) <==> k in m
  {
    if queue != [] {
      EndQuiet(m, queue[..|queue| - 1], k);
    }
  }

  // ----- what rows may be left -----------------------------------------------------------------

  /** The lease file after the queued changes, some of the stores having failed. */
  ghost function Surviving(f: Family, db: Rows, queue: seq<Entry>, oks: seq<bool>): Rows
    requires |oks| == |queue|
  {
    if queue == [] then db else
    var n := |queue| - 1;
    var before := Surviving(f, db, queue[..n], oks[..n]);
    if queue[n].write.Store? && !oks[n] then before else Apply(f, before, queue[n].write)
  }

  lemma ApplyWithin(c: Config, db: Rows, m: Shadow, w: Write)
    requires Within(db, m) && Fits(c, m, w)
    ensures Within(Apply(c.family, db, w), Step(m, w))
  {
  }

  lemma SkipWithin(c: Config, db: Rows, m: Shadow, w: Write)
    requires Within(db, m) && Fits(c, m, w) && w.Store?
    ensures Within(db, Step(m, w))
  {
  }

  lemma {:induction false} SurvivingWithin(c: Config, db: Rows, m: Shadow, queue: seq<Entry>, oks: seq<bool>, i: nat)
    requires Within(db, m) && Safe(c, m, queue) && i <= |queue| && |oks| == i
    ensures Within(Surviving(c.family, db, queue[..i], oks), Before(m, queue, i))
  {
    hide Within, Fits, Apply, Proper, Step;
    if i == 0 {
      assert queue[..0] == [];
    } else {
      var w, init := queue[i - 1].write, oks[..i - 1];
      SurvivingWithin(c, db, m, queue, init, i - 1);
      assert queue[..i][..i - 1] == queue[..i - 1];
      var before := Surviving(c.family, db, queue[..i - 1], init);
      assert Fits(c, Before(m, queue, i - 1), w);
      if w.Store? && !oks[i - 1] {
        SkipWithin(c, before, Before(m, queue, i - 1), w);
      } else {
        ApplyWithin(c, before, Before(m, queue, i - 1), w);
      }
    }
  }

  /** Whenever the process dies, whichever queued stores land, the lease file is one it starts from. */
  ghost predicate Restartable(c: Config, s: Sys) {
    forall i, oks :: 0 <= i <= |s.pool.queue| && |oks| == i ==>
      Replayable(c, Surviving(c.family, s.db, s.pool.queue[..i], oks))
  }

  // ----- the invariant ----------------------------------------------------------------------------

  /** The shadow ends within the table. */
  ghost predicate Ends(m: Shadow, queue: seq<Entry>, p: Pool) {
    forall k :: k in End(m, queue) ==> k in p.table && p.table[k].ip == End(m, queue)[k]
  }

  ghost predicate Filled(db: Rows, m: Shadow) {
    forall k :: k in m ==> (k, m[k]) in db
  }

  /**
   The rows of the lease file, and the order in which the queue changes them: no client
   comes to a second address, no address to a second client, and what is left at the
   end belongs to a lease.
   */
  ghost predicate Orderly(c: Config, s: Sys, m: Shadow) {
    Within(s.db, m) && Filled(s.db, m) && Safe(c, m, s.pool.queue) && Ends(m, s.pool.queue, s.pool)
  }

  /** The client has no row when the writer comes to the change with this ticket, or now, if it has been there. */
  ghost predicate BareAt(s: Sys, m: Shadow, k: Key, ticket: nat) {
    var i := ticket - Head(s);
    if i < 0 then k !in m else i <= |s.pool.queue| && k !in Before(m, s.pool.queue, i)
  }

  /** A lease whose first store is undecided has no row to leave behind. */
  ghost predicate Bare(s: Sys, m: Shadow, k: Key) {
    k in s.pool.table ==>
      forall pw :: Unsure(s, pw) && Concerns(pw.undo, k, s.pool.table[k].id) && pw.undo.DropUnwritten? ==>
        BareAt(s, m, k, pw.ticket)
  }

  ghost predicate AllBare(s: Sys, m: Shadow) {
    forall k :: Bare(s, m, k)
  }

  lemma OrderlyIsRestartable(c: Config, s: Sys, m: Shadow)
    requires Orderly(c, s, m)
    ensures Restartable(c, s)
  {
    hide Ends, Filled, Surviving;
    var queue := s.pool.queue;
    forall i, oks | 0 <= i <= |queue| && |oks| == i
      ensures Replayable(c, Surviving(c.family, s.db, queue[..i], oks))
    {
      SurvivingWithin(c, s.db, m, queue, oks, i);
      BeforeProper(c, m, queue, i);
    }
  }

  // ----- one change ---------------------------------------------------------------------------------

  /** A change that queues `w`, with the table moved accordingly. */
  lemma QueuesOrderly(c: Config, s: Sys, q: Pool, w: Write, u: Undo, m: Shadow)
    requires Orderly(c, s, m) && Queues(s.pool, q, w, u) && Fits(c, End(m, s.pool.queue), w)
    requires forall k :: k in Step(End(m, s.pool.queue), w) ==>
      k in q.table && q.table[k].ip == Step(End(m, s.pool.queue), w)[k]
    ensures Orderly(c, At(s, q), m)
  {
    hide Within, Filled, Fits, Proper, Step, End, Before;
    var e := Entry(s.pool.tickets, w);
    SafeAppend(c, m, s.pool.queue, e);
    Appended(m, s.pool.queue, e, |s.pool.queue|);
  }

  lemma QueuesBare(c: Config, s: Sys, q: Pool, w: Write, u: Undo, m: Shadow, k: Key)
    requires Tickets(s) && Bare(s, m, k) && Queues(s.pool, q, w, u)
    requires k in q.table && k != w.key ==> k in s.pool.table && q.table[k] == s.pool.table[k]
    requires k in q.table && k == w.key ==>
      || (k in s.pool.table && q.table[k].id == s.pool.table[k].id && !u.DropUnwritten?)
      || (q.table[k].id >= s.pool.ids && k !in End(m, s.pool.queue))
    requires u.DropUnwritten? ==> u.key == w.key
    ensures Bare(At(s, q), m, k)
  {
    hide End, Before;
    var s', e := At(s, q), Entry(s.pool.tickets, w);
    UnsureGrows(s, q, w, u);
    if k in q.table {
      forall pw | Unsure(s', pw) && Concerns(pw.undo, k, q.table[k].id) && pw.undo.DropUnwritten?
        ensures BareAt(s', m, k, pw.ticket)
      {
        if pw == Pending(s.pool.tickets, u) {
          Appended(m, s.pool.queue, e, |s.pool.queue|);
        } else {
          assert Unsure(s, pw) && pw.undo.id < s.pool.ids;
          var i := pw.ticket - Head(s);
          if i >= 0 {
            Appended(m, s.pool.queue, e, i);
          }
        }
      }
    }
  }

  lemma SameOrderly(c: Config, s: Sys, s': Sys, m: Shadow)
    requires Orderly(c, s, m)
    requires s'.pool.table == s.pool.table && s'.pool.queue == s.pool.queue && s'.db == s.db
    ensures Orderly(c, s', m)
  {
  }

  lemma SameBare(s: Sys, s': Sys, m: Shadow)
    requires AllBare(s, m) && forall pw :: Unsure(s', pw) ==> Unsure(s, pw)
    requires s'.pool.table == s.pool.table && s'.pool.queue == s.pool.queue && s'.pool.tickets == s.pool.tickets
    ensures AllBare(s', m)
  {
    hide Before, Unsure;
    forall k ensures Bare(s', m, k) {
      assert Bare(s, m, k);
    }
  }

  lemma LeaseFits(c: Config, s: Sys, m: Shadow, k: Key, ip: Addr, row: Row)
    requires Partition(c, s.pool) && Ends(m, s.pool.queue, s.pool) && k !in s.pool.table && InPool(c, ip) && ip !in s.pool.taken
    ensures Fits(c, End(m, s.pool.queue), Store(k, ip, row)) && k !in End(m, s.pool.queue)
  {
    hide End;
    var e := End(m, s.pool.queue);
    forall j | j in e ensures e[j] != ip {
      LeasedIsTaken(c, s.pool, j);
    }
  }

  lemma ProlongFits(c: Config, s: Sys, m: Shadow, k: Key, row: Row)
    requires Partition(c, s.pool) && Ends(m, s.pool.queue, s.pool) && k in s.pool.table
    ensures Fits(c, End(m, s.pool.queue), Store(k, s.pool.table[k].ip, row))
  {
    hide End;
    LeasedHas(s.pool, k);
  }

  lemma DoFits(c: Config, s: Sys, op: Op, who: Speaker, t: Time, m: Shadow)
    requires Partition(c, s.pool) && Ends(m, s.pool.queue, s.pool) && Legal(c, s.pool, op, who, t) && !Aside(op)
    ensures var e, w := End(m, s.pool.queue), WriteOf(s.pool, op);
      && Fits(c, e, w)
      && forall k :: k in Step(e, w) ==> k in Do(s.pool, op).table && Do(s.pool, op).table[k].ip == Step(e, w)[k]
    ensures op.Lease? ==> op.key !in End(m, s.pool.queue)
  {
    hide Partition, End;
    var p, q := s.pool, Do(s.pool, op);
    if op.Lease? {
      LeaseFits(c, s, m, op.key, op.ip, op.row);
    } else if op.Prolong? {
      ProlongFits(c, s, m, op.key, op.row);
    }
    forall k | k != op.key ensures k in q.table <==> k in p.table {
      DoElsewhere(p, op, k);
    }
  }

  lemma DoOrderly(c: Config, s: Sys, op: Op, who: Speaker, t: Time, m: Shadow)
    requires Partition(c, s.pool) && Tickets(s) && Orderly(c, s, m) && Legal(c, s.pool, op, who, t)
    ensures Orderly(c, At(s, Do(s.pool, op)), m)
    ensures AllBare(s, m) ==> AllBare(At(s, Do(s.pool, op)), m)
  {
    hide Partition, Tickets, Within, Filled, Safe, Ends, AllBare, End, Step, Fits, Do;
    var p, q := s.pool, Do(s.pool, op);
    DoShape(c, p, op, who, t);
    if Aside(op) {
      SameOrderly(c, s, At(s, q), m);
      UnsureSame(s, q);
      if AllBare(s, m) {
        SameBare(s, At(s, q), m);
      }
    } else {
      DoFits(c, s, op, who, t, m);
      QueuesOrderly(c, s, q, WriteOf(p, op), UndoOf(p, op), m);
      if AllBare(s, m) {
        DoBare(c, s, op, who, t, m);
      }
    }
  }

  lemma DoBare(c: Config, s: Sys, op: Op, who: Speaker, t: Time, m: Shadow)
    requires Partition(c, s.pool) && Tickets(s) && AllBare(s, m) && Legal(c, s.pool, op, who, t) && !Aside(op)
    requires op.Lease? ==> op.key !in End(m, s.pool.queue)
    ensures AllBare(At(s, Do(s.pool, op)), m)
  {
    hide Partition, Tickets, End, Bare;
    var p, q := s.pool, Do(s.pool, op);
    DoShape(c, p, op, who, t);
    forall k ensures Bare(At(s, q), m, k) {
      if k != op.key {
        DoElsewhere(p, op, k);
      }
      QueuesBare(c, s, q, WriteOf(p, op), UndoOf(p, op), m, k);
    }
  }

  lemma {:induction false} DoAllOrderly(c: Config, s: Sys, ops: seq<Op>, all: set<Speaker>, t: Time, m: Shadow)
    requires Partition(c, s.pool) && Tickets(s) && Orderly(c, s, m) && LegalAmong(c, s.pool, ops, all, t)
    ensures Orderly(c, At(s, DoAll(s.pool, ops)), m)
    ensures AllBare(s, m) ==> AllBare(At(s, DoAll(s.pool, ops)), m)
  {
    hide Partition, Tickets, Orderly, AllBare, Legal, Do;
    if ops != [] {
      var init, op := ops[..|ops| - 1], ops[|ops| - 1];
      var p := DoAll(s.pool, init);
      DoAllOrderly(c, s, init, all, t, m);
      DoAllTickets(c, s, init, all, t);
      AmongKeepsPartition(c, s.pool, init, all, t);
      var who :| who in all && Legal(c, p, op, who, t);
      DoOrderly(c, At(s, p), op, who, t, m);
      assert At(At(s, p), Do(p, op)) == At(s, DoAll(s.pool, ops));
    } else {
      assert At(s, s.pool) == s;
    }
  }

  lemma SectionOrderly(c: Config, s: Sys, a: Action, m: Shadow)
    requires Consistent(c, s) && Tickets(s) && Orderly(c, s, m) && Enabled(c, s, a) && (a.Receive? || a.Sweep?)
    ensures Orderly(c, Next(c, s, a), m)
    ensures AllBare(s, m) ==> AllBare(Next(c, s, a), m)
  {
    hide Orderly, AllBare, Next, Speakers, Partition, Tickets, Says, Consistent;
    var t := Entered(s, a);
    var ops := SectionTrace(c, s, a);
    EnteredSame(s, a);
    SameOrderly(c, s, t, m);
    if AllBare(s, m) {
      SameBare(s, t, m);
    }
    DoAllOrderly(c, t, ops, Speakers(a), t.clock, m);
    var u := At(t, DoAll(t.pool, ops));
    ParkOut(u, a.cid, if a.Receive? then KeysOf(a.ias) else [], Says(c, s, a));
    SameOrderly(c, u, Next(c, s, a), m);
    if AllBare(u, m) {
      SameBare(u, Next(c, s, a), m);
    }
  }

  // ----- the writer -----------------------------------------------------------------------------------

  lemma BelowStored(c: Config, m: Shadow, w: Write)
    requires Fits(c, m, w) && w.Store?
    ensures Below(m, Step(m, w))
  {
  }

  lemma WriterBareAt(c: Config, s: Sys, ok: bool, m: Shadow, k: Key, ticket: nat)
    requires s.pool.queue != [] && BareAt(s, m, k, ticket) && Safe(c, m, s.pool.queue)
    requires if ok then ticket > Head(s) || (ticket < Head(s) && Quiet(s.pool.queue, k)) else s.pool.queue[0].write.Store?
    ensures BareAt(Writer(c, s, ok), if ok then Step(m, s.pool.queue[0].write) else m, k, ticket)
  {
    hide End, Fits, Proper, Below, Before;
    var w, queue, i := s.pool.queue[0].write, s.pool.queue, ticket - Head(s);
    AtZero(m, queue);
    if i > 0 {
      BeforeShifts(m, queue, i);
      if !ok {
        assert Fits(c, Before(m, queue, 0), w);
        BelowStored(c, m, w);
        BeforeBelow(m, Step(m, w), queue[1..], i - 1);
      }
    }
  }

  lemma WriterBare(c: Config, s: Sys, ok: bool, m: Shadow, k: Key)
    requires Tickets(s) && Accounted(s, k) && s.pool.queue != [] && Bare(s, m, k) && Safe(c, m, s.pool.queue)
    requires ok || s.pool.queue[0].write.Store?
    ensures Bare(Writer(c, s, ok), if ok then Step(m, s.pool.queue[0].write) else m, k)
  {
    hide Tickets, Unsure, Safe, Step, BareAt;
    var s' := Writer(c, s, ok);
    var m' := if ok then Step(m, s.pool.queue[0].write) else m;
    WriterUnsure(c, s, ok);
    if k in s.pool.table {
      var r := s.pool.table[k];
      forall pw | Unsure(s', pw) && Concerns(pw.undo, k, r.id) && pw.undo.DropUnwritten?
        ensures BareAt(s', m', k, pw.ticket)
      {
        assert Backed(s, k, r, pw);
        WriterBareAt(c, s, ok, m, k, pw.ticket);
      }
    }
  }

  lemma BeforeBelow(m: Shadow, n: Shadow, queue: seq<Entry>, i: nat)
    requires Below(m, n) && i <= |queue|
    ensures Below(Before(m, queue, i), Before(n, queue, i))
    ensures forall k :: k in Before(m, queue, i) ==> k in Before(n, queue, i)
  {
    hide End;
    EndBelow(m, n, queue[..i]);
  }

  lemma FilledStep(c: Config, db: Rows, m: Shadow, w: Write)
    requires Filled(db, m) && Fits(c, m, w)
    ensures Filled(Apply(c.family, db, w), Step(m, w))
  {
  }

  lemma WriterOrderly(c: Config, s: Sys, ok: bool, m: Shadow) returns (m': Shadow)
    requires Tickets(s) && Orderly(c, s, m) && s.pool.queue != []
    requires ok || s.pool.queue[0].write.Store?
    ensures Orderly(c, Writer(c, s, ok), m')
    ensures AllBare(s, m) && (forall k :: Accounted(s, k)) ==> AllBare(Writer(c, s, ok), m')
  {
    hide Tickets, Accounted, End, Before, Fits, Proper, Within, Filled, Below, Bare, Apply;
    var s', w, queue := Writer(c, s, ok), s.pool.queue[0].write, s.pool.queue;
    m' := if ok then Step(m, w) else m;
    if AllBare(s, m) && forall k :: Accounted(s, k) {
      forall k ensures Bare(s', m', k) {
        assert Bare(s, m, k);
        WriterBare(c, s, ok, m, k);
      }
    }
    AtZero(m, queue);
    assert Fits(c, Before(m, queue, 0), w);
    SafeTail(c, m, queue);
    HeadFirst(m, queue);
    if ok {
      ApplyWithin(c, s.db, m, w);
      FilledStep(c, s.db, m, w);
    } else {
      BelowStored(c, m, w);
      SafeBelow(c, m, Step(m, w), queue[1..]);
      EndsBelow(m, Step(m, w), queue[1..], s.pool);
    }
  }

  lemma EndsBelow(m: Shadow, n: Shadow, queue: seq<Entry>, p: Pool)
    requires Below(m, n) && Ends(n, queue, p)
    ensures Ends(m, queue, p)
  {
    hide End;
    EndBelow(m, n, queue);
  }

  // ----- settling ---------------------------------------------------------------------------------------

  lemma {:induction false} UndosKeepIds(p: Pool, undos: seq<Undo>, k: Key)
    ensures var q := RunUndos(p, undos); k in q.table ==> k in p.table && q.table[k].id == p.table[k].id
    decreases |undos|
  {
    if undos != [] {
      UndosKeepIds(RunUndo(p, undos[|undos| - 1]), undos[..|undos| - 1], k);
    }
  }

  /** A client that may have a row by the end of the queue has no lease that an undo would drop. */
  lemma NothingToDrop(s: Sys, cid: nat, m: Shadow, k: Key, u: Undo)
    requires Tickets(s) && Accounted(s, k) && Bare(s, m, k) && cid in s.calls && AllDone(s, s.calls[cid])
    requires k in End(m, s.pool.queue) && k in s.pool.table
    requires u in Failed(s.done, s.calls[cid].pending) && Concerns(u, k, s.pool.table[k].id)
    ensures u.Shorten?
  {
    hide End, Before;
    RunningUndo(s, cid, u);
    var pw :| pw in s.calls[cid].pending && pw.undo == u && Unsure(s, pw);
    assert Backed(s, k, s.pool.table[k], pw);
    assert pw.ticket in s.done;
    if u.DropUnwritten? {
      EndQuiet(m, s.pool.queue, k);
      assert false;
    }
  }

  /** The file once everything queued has landed. */
  lemma {:induction false} EndLands(c: Config, db: Rows, m: Shadow, queue: seq<Entry>)
    requires Within(db, m) && Filled(db, m) && Safe(c, m, queue)
    ensures Within(ApplyAll(c.family, db, queue), End(m, queue)) && Filled(ApplyAll(c.family, db, queue), End(m, queue))
  {
    hide Within, Filled, Fits, Apply, Proper, Step;
    if queue != [] {
      var n := |queue| - 1;
      var init, w := queue[..n], queue[n].write;
      forall i | 0 <= i < |init| ensures Fits(c, Before(m, init, i), init[i].write) {
        assert Fits(c, Before(m, queue, i), queue[i].write);
        assert init[..i] == queue[..i];
      }
      EndLands(c, db, m, init);
      assert Fits(c, Before(m, queue, n), w);
      ApplyWithin(c, ApplyAll(c.family, db, init), End(m, init), w);
      FilledStep(c, ApplyAll(c.family, db, init), End(m, init), w);
    }
  }

  /**
   A settling caller drops the new lease of `k` because its first store failed, and
   yet a row of that lease is on disk or on its way there.
   */
  ghost predicate StrandsFor(c: Config, s: Sys, cid: nat, k: Key)
    requires cid in s.calls
  {
    && k in s.pool.table && DropUnwritten(k, s.pool.table[k].id) in Failed(s.done, s.calls[cid].pending)
    && (k, s.pool.table[k].ip) in ApplyAll(c.family, s.db, s.pool.queue)
  }

  ghost predicate Strands(c: Config, s: Sys, cid: nat)
    requires cid in s.calls
  {
    exists k :: StrandsFor(c, s, cid, k)
  }

  /** Undos drop exactly the leases they are about. */
  lemma {:induction false} UndosDropExactly(p: Pool, undos: seq<Undo>, k: Key)
    requires k in p.table
    ensures k in RunUndos(p, undos).table <==> DropUnwritten(k, p.table[k].id) !in undos
    ensures var q := RunUndos(p, undos); k in q.table ==> q.table[k].id == p.table[k].id && q.table[k].ip == p.table[k].ip
    decreases |undos|
  {
    if undos != [] {
      var last, init := undos[|undos| - 1], undos[..|undos| - 1];
      var q := RunUndo(p, last);
      assert undos == init + [last];
      if k in q.table {
        UndosDropExactly(q, init, k);
      } else {
        UndosOnlyRemove(q, init);
      }
    }
  }

  lemma SettleEnds(c: Config, s: Sys, s': Sys, cid: nat, m: Shadow)
    requires Orderly(c, s, m) && Settled(s, s', cid) && !Strands(c, s, cid)
    ensures Ends(m, s.pool.queue, s'.pool)
  {
    hide End, Safe, RunUndos, Failed, Within, Filled;
    var undos := Failed(s.done, s.calls[cid].pending);
    EndLands(c, s.db, m, s.pool.queue);
    forall k | k in End(m, s.pool.queue) ensures k in s'.pool.table && s'.pool.table[k].ip == End(m, s.pool.queue)[k] {
      FilledAt(ApplyAll(c.family, s.db, s.pool.queue), End(m, s.pool.queue), k);
      assert !StrandsFor(c, s, cid, k);
      UndosDropExactly(s.pool, undos, k);
    }
  }

  lemma FilledAt(db: Rows, m: Shadow, k: Key)
    requires Filled(db, m) && k in m
    ensures (k, m[k]) in db
  {
  }

  lemma SettleOrderly(c: Config, s: Sys, s': Sys, cid: nat, m: Shadow)
    requires Tickets(s) && Orderly(c, s, m) && Settled(s, s', cid) && !Strands(c, s, cid)
    ensures Orderly(c, s', m)
    ensures AllBare(s, m) ==> AllBare(s', m)
  {
    hide Tickets, End, Before, Safe, Within, Filled, Ends, Unsure, RunUndos, Failed, Strands;
    SettledUnsure(s, s', cid);
    SettleEnds(c, s, s', cid, m);
    if AllBare(s, m) {
      forall k ensures Bare(s', m, k) {
        assert Bare(s, m, k);
        UndosKeepIds(s.pool, Failed(s.done, s.calls[cid].pending), k);
      }
    }
  }

  /** In an accounted state nothing strands: a lease that an undo would drop has no row. */
  lemma AccountedNeverStrands(c: Config, s: Sys, cid: nat, m: Shadow)
    requires Tickets(s) && (forall k :: Accounted(s, k)) && Orderly(c, s, m) && AllBare(s, m)
    requires cid in s.calls && AllDone(s, s.calls[cid])
    ensures !Strands(c, s, cid)
  {
    hide Tickets, Accounted, End, Safe, Failed, Filled, Bare, AllDone;
    EndLands(c, s.db, m, s.pool.queue);
    forall k | k in s.pool.table && (k, s.pool.table[k].ip) in ApplyAll(c.family, s.db, s.pool.queue)
      ensures DropUnwritten(k, s.pool.table[k].id) !in Failed(s.done, s.calls[cid].pending)
    {
      assert k in End(m, s.pool.queue) && Accounted(s, k) && Bare(s, m, k);
      if DropUnwritten(k, s.pool.table[k].id) in Failed(s.done, s.calls[cid].pending) {
        NothingToDrop(s, cid, m, k, DropUnwritten(k, s.pool.table[k].id));
      }
    }
  }

  // ----- whole runs ---------------------------------------------------------------------------------------

  function Addresses(l: map<Key, (Addr, Row)>): Shadow {
    map k | k in l :: l[k].0
  }

  /** A process that has loaded every row of a lease file. */
  lemma LoadedOrderly(c: Config, db: Rows, l: map<Key, (Addr, Row)>, taken: set<Addr>, clock: Time)
    requires Replayable(c, db) && (forall x :: x in db ==> x.0 in l && l[x.0].0 == x.1)
    requires forall k :: k in l ==> (k, l[k].0) in db
    ensures var s := Sys(Restored(l, taken), db, map[], map[], clock, |l|);
      Orderly(c, s, Addresses(l)) && AllBare(s, Addresses(l))
  {
    hide Proper, Replayable;
    var s, m := Sys(Restored(l, taken), db, map[], map[], clock, |l|), Addresses(l);
    assert End(m, []) == m;
    assert forall pw :: !Out(s, pw);
    AddressesProper(c, db, l);
  }

  lemma AddressesProper(c: Config, db: Rows, l: map<Key, (Addr, Row)>)
    requires Replayable(c, db) && forall k :: k in l ==> (k, l[k].0) in db
    ensures Proper(c, Addresses(l))
  {
    var m := Addresses(l);
    forall k, j | k in m && j in m && k != j ensures m[k] != m[j] {
      assert (k, m[k]) in db && (j, m[j]) in db;
    }
    forall k | k in m ensures InPool(c, m[k]) {
      assert (k, m[k]) in db;
    }
  }

  lemma RestoredOrderly(c: Config, s: Sys, rows: seq<(Key, Addr)>, walk: seq<Key>) returns (m: Shadow)
    requires Replayable(c, s.db) && Enabled(c, s, Restart(rows, walk))
    ensures Orderly(c, Next(c, s, Restart(rows, walk)), m) && AllBare(Next(c, s, Restart(rows, walk)), m)
  {
    hide Load, Replay, Orderly, AllBare, Restored, Replayable;
    var l := Load(s.db, rows);
    LoadsExactly(c, s.db, rows);
    LoadedOrderly(c, s.db, l, Replay(c, l, walk).value, s.clock);
    m := Addresses(l);
  }

  /** Nothing fails but stores. */
  ghost predicate DeletesLand(c: Config, s: Sys, actions: seq<Action>)
    requires Run(c, s, actions)
    decreases |actions|
  {
    actions != [] ==>
      && (actions[0].WriteFails? ==> s.pool.queue[0].write.Store?)
      && DeletesLand(c, Next(c, s, actions[0]), actions[1..])
  }

  /** No caller that settles leaves a row behind. */
  ghost predicate NeverStrands(c: Config, s: Sys, actions: seq<Action>)
    requires Run(c, s, actions)
    decreases |actions|
  {
    actions != [] ==>
      && (actions[0].Settle? ==> !Strands(c, s, actions[0].cid))
      && NeverStrands(c, Next(c, s, actions[0]), actions[1..])
  }

  lemma StepOrderly(c: Config, s: Sys, a: Action, m: Shadow) returns (m': Shadow)
    requires Consistent(c, s) && Tickets(s) && Orderly(c, s, m) && Enabled(c, s, a)
    requires a.WriteFails? ==> s.pool.queue[0].write.Store?
    requires a.Settle? ==> !Strands(c, s, a.cid)
    ensures Orderly(c, Next(c, s, a), m')
    ensures AllBare(s, m) && (forall k :: Accounted(s, k)) ==> AllBare(Next(c, s, a), m')
  {
    hide Orderly, AllBare, Tickets, Accounted, Partition, AnswerAll, Reclaim, Strands, RunUndos;
    m' := m;
    match a
    case Receive(_, _, _, _, _, _, _, _) => SectionOrderly(c, s, a, m);
    case Sweep(_, _, _, _, _) => SectionOrderly(c, s, a, m);
    case WriteOk => m' := WriterOrderly(c, s, true, m);
    case WriteFails => m' := WriterOrderly(c, s, false, m);
    case Settle(cid, now) => SettleOrderly(c, s, Next(c, s, a), cid, m);
    case Restart(rows, walk) =>
      FileIsReplayable(c, s, m);
      m' := RestoredOrderly(c, s, rows, walk);
  }

  lemma FileIsReplayable(c: Config, s: Sys, m: Shadow)
    requires Orderly(c, s, m)
    ensures Replayable(c, s.db)
  {
  }

  /**
   Whatever the clients do, in every run in which no delete fails and no settling caller
   strands a row, stores may fail as they like: at every point, whichever of the queued
   stores land, the lease file has one row per client and no address twice.
   */
  lemma {:induction false} RunsStayRestartable(c: Config, s: Sys, actions: seq<Action>, m: Shadow) returns (m': Shadow)
    requires Consistent(c, s) && Tickets(s) && Orderly(c, s, m)
    requires Run(c, s, actions) && DeletesLand(c, s, actions) && NeverStrands(c, s, actions)
    ensures var e := Final(c, s, actions); Orderly(c, e, m') && Restartable(c, e) && Consistent(c, e) && Tickets(e)
    decreases |actions|
  {
    hide Consistent, Tickets, Orderly, AllBare, Enabled, Next, Restartable, Strands;
    m' := m;
    if actions != [] {
      var s', rest := Next(c, s, actions[0]), actions[1..];
      StepKeepsConsistent(c, s, actions[0]);
      StepTickets(c, s, actions[0]);
      var mid := StepOrderly(c, s, actions[0], m);
      m' := RunsStayRestartable(c, s', rest, mid);
      assert Final(c, s, actions) == Final(c, s', rest);
    } else {
      OrderlyIsRestartable(c, s, m);
    }
  }

  /** Where every client is considerate, no caller strands a row. */
  lemma {:induction false} ConsiderateNeverStrands(c: Config, s: Sys, actions: seq<Action>, m: Shadow)
    requires (forall k :: Good(c, s, k)) && Consistent(c, s) && Orderly(c, s, m) && AllBare(s, m)
    requires Run(c, s, actions) && DeletesLand(c, s, actions) && (forall k :: ConsiderateRun(c, s, actions, k))
    ensures NeverStrands(c, s, actions)
    decreases |actions|
  {
    hide Good, Consistent, Tickets, Accounted, Orderly, AllBare, Considerate, Next, Strands;
    if actions != [] {
      var a, s', rest := actions[0], Next(c, s, actions[0]), actions[1..];
      forall k ensures Tickets(s) && Accounted(s, k) {
        GoodHas(c, s, k);
      }
      assert Tickets(s) by { GoodHas(c, s, ""); }
      if a.Settle? {
        AccountedNeverStrands(c, s, a.cid, m);
      }
      StepKeepsConsistent(c, s, a);
      forall k ensures Good(c, s', k) && ConsiderateRun(c, s', rest, k) {
        assert Good(c, s, k) && ConsiderateRun(c, s, actions, k);
        StepKeepsGood(c, s, a, k);
      }
      var mid := StepOrderly(c, s, a, m);
      ConsiderateNeverStrands(c, s', rest, mid);
    }
  }

  lemma GoodHas(c: Config, s: Sys, k: Key)
    requires Good(c, s, k)
    ensures Tickets(s) && Accounted(s, k)
  {
  }

  lemma FreshIsOrderly(c: Config, now: Time)
    ensures Orderly(c, Fresh(now), map[]) && AllBare(Fresh(now), map[]) && Tickets(Fresh(now))
    ensures forall k :: Good(c, Fresh(now), k)
  {
    forall k ensures Good(c, Fresh(now), k) {
      FreshIsGood(c, now, k);
    }
    assert Good(c, Fresh(now), "");
    assert End(map[], []) == map[];
  }
}
