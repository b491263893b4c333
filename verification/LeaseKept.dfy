/**
 What a client has been told is kept.

 A reply that names an address to a considerate client leaves the system in a state from
 which nothing but the client itself can take the address away before the second it was
 told: not a failing statement, not a full queue, not another client, and, if the client
 has no second row on disk, not a crash. Whether a state is of this kind is decided,
 exactly, by the stores that are still undecided.
 */
module LeaseKept {
  import opened LeaseModel
  import opened LeaseOps
  import opened LeaseSystem
  import opened LeaseTold
  import opened LeaseFailures

  predicate OnDisk(db: Rows, k: Key, ip: Addr, until: int) {
    (k, ip) in db && db[(k, ip)].expires >= until
  }

  /** The client holds the address in the table and on disk, long enough. */
  predicate Held(s: Sys, k: Key, ip: Addr, until: int) {
    && k in s.pool.table && s.pool.table[k].ip == ip && s.pool.table[k].row.expires >= until
    && OnDisk(s.db, k, ip, until)
  }

  /** Nothing queued for the client would take its row away or cut it short. */
  ghost predicate Prolongs(queue: seq<Entry>, k: Key, ip: Addr, until: int) {
    forall i :: 0 <= i < |queue| && queue[i].write.key == k ==>
      var w := queue[i].write; w.Store? && w.ip == ip && w.row.expires >= until
  }

  /** An undo that leaves a record which runs to `until` running that long: it falls back far enough, or comes too late. */
  predicate Harmless(u: Undo, until: int) {
    u.Shorten? && (u.was.expires >= until || u.extended < until)
  }

  ghost predicate Firm(s: Sys, k: Key, until: int)
    requires k in s.pool.table
  {
    forall pw :: Unsure(s, pw) && Concerns(pw.undo, k, s.pool.table[k].id) ==> Harmless(pw.undo, until)
  }

  ghost predicate Kept(s: Sys, k: Key, ip: Addr, until: int) {
    Held(s, k, ip, until) && Prolongs(s.pool.queue, k, ip, until) && Firm(s, k, until)
  }

  /** The client has no other row. */
  ghost predicate Lone(db: Rows, k: Key, ip: Addr) {
    forall x :: x in db && x.0 == k ==> x.1 == ip
  }

  // ----- one step ---------------------------------------------------------------------------

  lemma DoKept(c: Config, s: Sys, k: Key, ip: Addr, until: int, op: Op, m: Speaker, t: Time)
    requires Partition(c, s.pool) && Tickets(s) && Kept(s, k, ip, until)
    requires Legal(c, s.pool, op, m, t) && m != Yields(k) && Unix(t) < until
    ensures Kept(At(s, Do(s.pool, op)), k, ip, until)
  {
    hide Partition, Tickets, Unsure;
    var p, q := s.pool, Do(s.pool, op);
    DoShape(c, p, op, m, t);
    if Aside(op) {
      UnsureSame(s, q);
    } else {
      UnsureGrows(s, q, WriteOf(p, op), UndoOf(p, op));
      assert forall i :: 0 <= i < |p.queue| ==> q.queue[i] == p.queue[i];
      if op.key != k {
        DoElsewhere(p, op, k);
      }
    }
  }

  lemma {:induction false} DoAllKept(
      c: Config, s: Sys, k: Key, ip: Addr, until: int, ops: seq<Op>, all: set<Speaker>, t: Time)
    requires Partition(c, s.pool) && Tickets(s) && Kept(s, k, ip, until)
    requires LegalAmong(c, s.pool, ops, all, t) && Yields(k) !in all && Unix(t) < until
    ensures Kept(At(s, DoAll(s.pool, ops)), k, ip, until) && Tickets(At(s, DoAll(s.pool, ops)))
  {
    hide Partition, Tickets, Kept, Do, Legal;
    if ops != [] {
      var init, op := ops[..|ops| - 1], ops[|ops| - 1];
      var p := DoAll(s.pool, init);
      DoAllKept(c, s, k, ip, until, init, all, t);
      AmongKeepsPartition(c, s.pool, init, all, t);
      var m :| m in all && Legal(c, p, op, m, t);
      DoKept(c, At(s, p), k, ip, until, op, m, t);
      DoTickets(c, At(s, p), op, m, t);
      assert At(At(s, p), Do(p, op)) == At(s, DoAll(s.pool, ops));
    } else {
      assert At(s, s.pool) == s;
    }
  }

  /** A message that gives the binding up. */
  predicate GivesUp(a: Action, k: Key) {
    a.Receive? && (a.kind.Release? || a.kind.Decline?) && k in KeysOf(a.ias)
  }

  lemma NotYielding(a: Action, k: Key)
    requires (a.Receive? || a.Sweep?) && !GivesUp(a, k)
    ensures Yields(k) !in Speakers(a)
  {
    if a.Receive? {
      forall i | 0 <= i < |a.ias| ensures Voice(a.kind, a.ias[i].key) != Yields(k) {
        assert KeysOf(a.ias)[i] == a.ias[i].key;
      }
    }
  }

  /** A state that differs in nothing the client's binding rests on. */
  lemma SameKept(s: Sys, s': Sys, k: Key, ip: Addr, until: int)
    requires Kept(s, k, ip, until) && forall pw :: Unsure(s', pw) ==> Unsure(s, pw)
    requires s'.pool.table == s.pool.table && s'.pool.queue == s.pool.queue && s'.db == s.db
    ensures Kept(s', k, ip, until)
  {
  }

  lemma SectionKept(c: Config, s: Sys, a: Action, k: Key, ip: Addr, until: int)
    requires Consistent(c, s) && Tickets(s) && Kept(s, k, ip, until) && Enabled(c, s, a) && (a.Receive? || a.Sweep?)
    requires !GivesUp(a, k) && Unix(Until(a)) < until
    ensures Kept(Next(c, s, a), k, ip, until) && Tickets(Next(c, s, a))
  {
    hide Kept, Next, GivesUp, Speakers, Partition, Tickets, Says;
    var t := Entered(s, a);
    var ops := SectionTrace(c, s, a);
    EnteredSame(s, a);
    SameKept(s, t, k, ip, until);
    NotYielding(a, k);
    DoAllKept(c, t, k, ip, until, ops, Speakers(a), t.clock);
    ParkKept(At(t, DoAll(t.pool, ops)), a.cid, if a.Receive? then KeysOf(a.ias) else [], Says(c, s, a), k, ip, until);
  }

  lemma ParkKept(s: Sys, cid: nat, keys: seq<Key>, answers: seq<Answered>, k: Key, ip: Addr, until: int)
    requires Tickets(s) && Kept(s, k, ip, until) && cid !in s.calls
    ensures Kept(Park(s, cid, keys, answers), k, ip, until) && Tickets(Park(s, cid, keys, answers))
  {
    hide Tickets, Kept;
    ParkTickets(s, cid, keys, answers);
    ParkOut(s, cid, keys, answers);
    SameKept(s, Park(s, cid, keys, answers), k, ip, until);
  }

  lemma WriterKept(c: Config, s: Sys, ok: bool, k: Key, ip: Addr, until: int)
    requires Tickets(s) && Kept(s, k, ip, until) && s.pool.queue != []
    ensures Kept(Writer(c, s, ok), k, ip, until) && Tickets(Writer(c, s, ok))
    ensures Lone(s.db, k, ip) ==> Lone(Writer(c, s, ok).db, k, ip)
  {
    hide Tickets, Unsure;
    WriterUnsure(c, s, ok);
    var w := s.pool.queue[0].write;
    if w.key != k {
      RowsOfOthers(c.family, s.db, w, k, ip, s.db[(k, ip)]);
    }
  }

  /** Undos that fall back far enough leave the binding in force. */
  lemma {:induction false} UndosKept(p: Pool, undos: seq<Undo>, k: Key, until: int)
    requires k in p.table && p.table[k].row.expires >= until
    requires forall u :: u in undos && Concerns(u, k, p.table[k].id) ==> Harmless(u, until)
    ensures var q := RunUndos(p, undos);
      && k in q.table && q.table[k].id == p.table[k].id && q.table[k].ip == p.table[k].ip
      && q.table[k].row.expires >= until
    decreases |undos|
  {
    if undos != [] {
      assert undos[|undos| - 1] in undos;
      UndosKept(RunUndo(p, undos[|undos| - 1]), undos[..|undos| - 1], k, until);
    }
  }

  lemma SettleKept(s: Sys, s': Sys, cid: nat, k: Key, ip: Addr, until: int)
    requires Tickets(s) && Kept(s, k, ip, until) && Settled(s, s', cid)
    ensures Kept(s', k, ip, until) && Tickets(s')
  {
    hide Tickets, Unsure, RunUndos;
    var undos := Failed(s.done, s.calls[cid].pending);
    SettledUnsure(s, s', cid);
    forall u | u in undos && Concerns(u, k, s.pool.table[k].id) ensures Harmless(u, until) {
      RunningUndo(s, cid, u);
    }
    UndosKept(s.pool, undos, k, until);
  }

  lemma RestoredKept(m: map<Key, (Addr, Row)>, taken: set<Addr>, db: Rows, clock: Time, k: Key, until: int)
    requires k in m && (k, m[k].0) in db && m[k].1 == db[(k, m[k].0)] && m[k].1.expires >= until
    ensures var s := Sys(Restored(m, taken), db, map[], map[], clock, |m|);
      Kept(s, k, m[k].0, until) && Tickets(s)
  {
    var s := Sys(Restored(m, taken), db, map[], map[], clock, |m|);
    assert forall pw :: !Out(s, pw);
  }

  lemma RestartKept(c: Config, s: Sys, rows: seq<(Key, Addr)>, walk: seq<Key>, k: Key, ip: Addr, until: int)
    requires Kept(s, k, ip, until) && Lone(s.db, k, ip) && Enabled(c, s, Restart(rows, walk))
    ensures var s' := Next(c, s, Restart(rows, walk));
      Kept(s', k, ip, until) && Tickets(s') && s'.db == s.db
  {
    hide Load, Replay, Restored, Firm, Prolongs, Tickets;
    var m := Load(s.db, rows);
    assert (k, ip) in rows;
    var i :| 0 <= i < |rows| && rows[i] == (k, ip);
    assert k in m && (k, m[k].0) in s.db;
    RestoredKept(m, Replay(c, m, walk).value, s.db, s.clock, k, until);
  }

  /** Every step keeps it, up to the second the client was told; a restart does if the client has one row. */
  lemma StepKept(c: Config, s: Sys, a: Action, k: Key, ip: Addr, until: int)
    requires Consistent(c, s) && Tickets(s) && Kept(s, k, ip, until) && Enabled(c, s, a)
    requires !GivesUp(a, k) && Unix(Next(c, s, a).clock) < until && (a.Restart? ==> Lone(s.db, k, ip))
    ensures var s' := Next(c, s, a);
      Kept(s', k, ip, until) && Tickets(s') && (Lone(s.db, k, ip) ==> Lone(s'.db, k, ip))
  {
    hide Tickets, Kept, Consistent, Lone, Reclaim, AnswerAll;
    match a
    case Receive(_, _, _, _, _, _, _, _) => SectionKept(c, s, a, k, ip, until);
    case Sweep(_, _, _, _, _) => SectionKept(c, s, a, k, ip, until);
    case WriteOk => WriterKept(c, s, true, k, ip, until);
    case WriteFails => WriterKept(c, s, false, k, ip, until);
    case Settle(cid, now) =>
      NothingPending(c, s);
      SettleKept(s, Next(c, s, a), cid, k, ip, until);
    case Restart(rows, walk) => RestartKept(c, s, rows, walk, k, ip, until);
  }

  lemma NothingPending(c: Config, s: Sys)
    requires Consistent(c, s)
    ensures s.pool.pending == []
  {
  }

  // ----- whole runs ---------------------------------------------------------------------------

  lemma ClockGrows(c: Config, s: Sys, a: Action)
    requires Enabled(c, s, a)
    ensures s.clock <= Next(c, s, a).clock
  {
    hide AnswerAll, Reclaim, Load, Replay, RunUndos;
  }

  lemma {:induction false} ClockGrowsOn(c: Config, s: Sys, actions: seq<Action>)
    requires Run(c, s, actions)
    ensures s.clock <= Final(c, s, actions).clock
    decreases |actions|
  {
    hide Enabled, Next;
    if actions != [] {
      ClockGrows(c, s, actions[0]);
      ClockGrowsOn(c, Next(c, s, actions[0]), actions[1..]);
    }
  }

  ghost predicate NeverGivesUp(actions: seq<Action>, k: Key) {
    forall i :: 0 <= i < |actions| ==> !GivesUp(actions[i], k)
  }

  ghost predicate NoRestart(actions: seq<Action>) {
    forall i :: 0 <= i < |actions| ==> !actions[i].Restart?
  }

  /**
   A promise that is kept stays kept: over every run, whatever fails, whoever overlaps,
   through crashes and restarts when the client has one row, until the second the
   client was told, unless the client gives the address up itself.
   */
  lemma {:induction false} KeptStays(c: Config, s: Sys, actions: seq<Action>, k: Key, ip: Addr, until: int)
    requires Consistent(c, s) && Tickets(s) && Kept(s, k, ip, until) && Run(c, s, actions)
    requires NeverGivesUp(actions, k) && Unix(Final(c, s, actions).clock) < until
    requires NoRestart(actions) || Lone(s.db, k, ip)
    ensures var e := Final(c, s, actions);
      && Consistent(c, e) && Tickets(e) && Kept(e, k, ip, until)
      && (Lone(s.db, k, ip) ==> Lone(e.db, k, ip))
    decreases |actions|
  {
    hide Enabled, Next, Consistent, Tickets, Kept, Lone, GivesUp;
    if actions != [] {
      var s', rest := Next(c, s, actions[0]), actions[1..];
      ClockGrowsOn(c, s', rest);
      SecondsPass(s'.clock, Final(c, s', rest).clock);
      assert Final(c, s, actions) == Final(c, s', rest);
      assert forall i :: 0 <= i < |rest| ==> rest[i] == actions[i + 1];
      StepKeepsConsistent(c, s, actions[0]);
      StepKept(c, s, actions[0], k, ip, until);
      KeptStays(c, s', rest, k, ip, until);
    }
  }

  // ----- what a client is told ------------------------------------------------------------------

  /** With nothing undecided that would cut it short, an accounted binding is kept. */
  lemma SoundIsKept(c: Config, s: Sys, k: Key, until: int)
    requires Good(c, s, k) && k in s.pool.table && s.pool.table[k].row.expires >= until && Sound(s, k, until)
    ensures Kept(s, k, s.pool.table[k].ip, until)
  {
    hide Partition, Tickets, CallsOk, Unsure;
    var r, queue := s.pool.table[k], s.pool.queue;
    if !Sure(s, k) {
      var pw :| Unsure(s, pw) && Concerns(pw.undo, k, r.id);
      assert Backed(s, k, r, pw);
      var i := pw.ticket - Head(s);
      if i >= 0 {
        QuietAround(queue, i, k);
      }
    }
  }

  lemma QuietAround(queue: seq<Entry>, i: nat, k: Key)
    requires i < |queue| && Quiet(queue[..i], k) && Quiet(queue[i + 1..], k)
    ensures forall j :: 0 <= j < |queue| && j != i ==> queue[j].write.key != k
  {
    forall j | 0 <= j < |queue| && j != i ensures queue[j].write.key != k {
      if j < i {
        assert queue[..i][j] == queue[j];
      } else {
        assert queue[i + 1..][j - i - 1] == queue[j];
      }
    }
  }

  /** The caller is about to reply with an address, in time. */
  ghost predicate Tells(c: Config, s: Sys, cid: nat, i: int, now: Time) {
    && cid in s.calls && Enabled(c, s, Settle(cid, now)) && 0 <= i < |s.calls[cid].answers|
    && Reply(s, s.calls[cid], i).Bound? && Unix(now) < Reply(s, s.calls[cid], i).until
  }

  lemma ToldFromGood(c: Config, s: Sys, cid: nat, i: int, now: Time)
    requires Consistent(c, s) && Tells(c, s, cid, i, now) && Good(c, s, s.calls[cid].answers[i].key)
    ensures var k, told, s' := s.calls[cid].answers[i].key, Reply(s, s.calls[cid], i), Next(c, s, Settle(cid, now));
      && Kept(s', k, told.ip, told.until) && Good(c, s', k)
      && (Sure(s', k) ==> s'.db[(k, told.ip)] == s'.pool.table[k].row)
  {
    hide Partition, Kept;
    var call, a := s.calls[cid], s.calls[cid].answers[i];
    var k, s' := a.key, Next(c, s, Settle(cid, now));
    SecondsPass(s.clock, now);
    assert AnswersOk(s, k, call.answers, call.pending);
    assert AnswerOk(s, a, call.pending);
    forall j | a.from <= j < a.to ensures !Unsure(s, call.pending[j]) {
      assert s.done[call.pending[j].ticket];
    }
    SoundIsKept(c, s, k, a.answer.until);
    assert Settled(s, s', cid);
    SettleKept(s, s', cid, k, a.answer.ip, a.answer.until);
    SettleGood(c, s, cid, now, k);
    KeptIsHeld(s', k, a.answer.ip, a.answer.until);
  }

  lemma KeptIsHeld(s: Sys, k: Key, ip: Addr, until: int)
    requires Kept(s, k, ip, until)
    ensures Held(s, k, ip, until)
  {
  }

  /**
   Told implies stored. From any state that accounts for the binding, over every run in
   which its client is considerate, whatever others do and whatever fails: when a reply
   naming an address goes out within the lifetime it advertises, the client holds that
   address in the table and on disk for at least that long, and will keep it. The row
   on disk is the table's own unless a further renewal is under way.
   */
  lemma ToldImpliesStored(c: Config, s: Sys, actions: seq<Action>, cid: nat, i: int, now: Time, k: Key)
    requires Good(c, s, k) && Consistent(c, s) && Run(c, s, actions) && ConsiderateRun(c, s, actions, k)
    requires Tells(c, Final(c, s, actions), cid, i, now)
    requires Final(c, s, actions).calls[cid].answers[i].key == k
    ensures var e := Final(c, s, actions);
      var told, s' := Reply(e, e.calls[cid], i), Next(c, e, Settle(cid, now));
      && Kept(s', k, told.ip, told.until)
      && (Sure(s', k) ==> s'.db[(k, told.ip)] == s'.pool.table[k].row)
  {
    hide Good, Consistent, Kept, Enabled, Next, Tells;
    RunsAreGood(c, s, actions, k);
    ToldFromGood(c, Final(c, s, actions), cid, i, now);
  }

  // ----- exactly which promises are kept -----------------------------------------------------------

  /** The client holds the address whatever happens, short of a crash, until the second it was told. */
  ghost predicate Dependable(c: Config, s: Sys, k: Key, ip: Addr, until: int) {
    forall actions ::
      (Run(c, s, actions) && NoRestart(actions) && NeverGivesUp(actions, k) && Unix(Final(c, s, actions).clock) < until)
      ==> Held(Final(c, s, actions), k, ip, until)
  }

  /** The writer comes to the end of the queue; only the changes in `lands` land. */
  function Drains(queue: seq<Entry>, lands: set<nat>): seq<Action> {
    if queue == [] then [] else [if queue[0].ticket in lands then WriteOk else WriteFails] + Drains(queue[1..], lands)
  }

  function Drain(c: Config, s: Sys, lands: set<nat>): Sys
    decreases |s.pool.queue|
  {
    if s.pool.queue == [] then s else Drain(c, Writer(c, s, s.pool.queue[0].ticket in lands), lands)
  }

  lemma {:induction false} DrainsOnlyWrite(queue: seq<Entry>, lands: set<nat>)
    ensures forall i :: 0 <= i < |Drains(queue, lands)| ==>
      Drains(queue, lands)[i] == WriteOk || Drains(queue, lands)[i] == WriteFails
  {
    if queue != [] {
      DrainsOnlyWrite(queue[1..], lands);
    }
  }

  lemma WriteStep(c: Config, s: Sys, ok: bool)
    requires s.pool.queue != []
    ensures var a := if ok then WriteOk else WriteFails; Enabled(c, s, a) && Next(c, s, a) == Writer(c, s, ok)
    ensures Writer(c, s, ok).pool.queue == s.pool.queue[1..]
  {
  }

  lemma {:induction false} DrainRuns(c: Config, s: Sys, lands: set<nat>, tail: seq<Action>)
    requires Run(c, Drain(c, s, lands), tail)
    ensures var actions := Drains(s.pool.queue, lands) + tail;
      Run(c, s, actions) && Final(c, s, actions) == Final(c, Drain(c, s, lands), tail)
    decreases |s.pool.queue|
  {
    hide Enabled, Next, Writer;
    var queue, actions := s.pool.queue, Drains(s.pool.queue, lands) + tail;
    if queue == [] {
      assert actions == tail;
    } else {
      var ok := queue[0].ticket in lands;
      WriteStep(c, s, ok);
      DrainRuns(c, Writer(c, s, ok), lands, tail);
      assert actions[0] == (if ok then WriteOk else WriteFails) && actions[1..] == Drains(queue[1..], lands) + tail;
    }
  }

  lemma {:induction false} DrainLeaves(c: Config, s: Sys, lands: set<nat>)
    requires Tickets(s)
    ensures var d := Drain(c, s, lands);
      && Tickets(d) && d.pool.queue == [] && d.pool.table == s.pool.table && d.pool.pending == s.pool.pending
      && d.calls == s.calls && d.clock == s.clock
      && (forall pw :: Unsure(s, pw) && pw.ticket !in lands ==> Unsure(d, pw))
      && (forall pw :: Unsure(d, pw) ==> Unsure(s, pw))
      && (forall t: nat :: Head(s) <= t < s.pool.tickets ==> t in d.done && d.done[t] == (t in lands))
      && (forall t: nat :: t in s.done ==> t in d.done && d.done[t] == s.done[t])
    decreases |s.pool.queue|
  {
    hide Unsure;
    if s.pool.queue != [] {
      var ok := s.pool.queue[0].ticket in lands;
      WriterUnsure(c, s, ok);
      DrainLeaves(c, Writer(c, s, ok), lands);
    }
  }

  lemma {:induction false} DrainKeeps(c: Config, s: Sys, k: Key)
    requires Good(c, s, k)
    ensures Good(c, Drain(c, s, {}), k)
    decreases |s.pool.queue|
  {
    hide Good;
    if s.pool.queue != [] {
      WriterGood(c, s, false, k);
      DrainKeeps(c, Writer(c, s, false), k);
    }
  }

  lemma GoodHasTickets(c: Config, s: Sys, k: Key)
    requires Good(c, s, k)
    ensures Tickets(s) && Accounted(s, k)
  {
  }

  /** With everything queued failed, any caller can settle. */
  lemma DrainedCanSettle(c: Config, d: Sys, cid: nat)
    requires Tickets(d) && d.pool.queue == [] && d.pool.pending == [] && cid in d.calls
    ensures Enabled(c, d, Settle(cid, d.clock)) && Settled(d, Next(c, d, Settle(cid, d.clock)), cid)
  {
    hide RunUndos;
    var pending := d.calls[cid].pending;
    forall i | 0 <= i < |pending| ensures pending[i].ticket in d.done {
      assert Out(d, pending[i]);
    }
  }

  lemma OneStep(c: Config, s: Sys, a: Action)
    requires Enabled(c, s, a)
    ensures Run(c, s, [a]) && Final(c, s, [a]) == Next(c, s, a)
  {
    assert [a][1..] == [];
    assert Run(c, Next(c, s, a), []);
  }

  /** An undecided store that would not fall back far enough: one run in which the client loses out. */
  lemma UndependableRun(c: Config, s: Sys, k: Key, until: int, pw: Pending) returns (actions: seq<Action>)
    requires Good(c, s, k) && Consistent(c, s) && k in s.pool.table
    requires Unsure(s, pw) && Concerns(pw.undo, k, s.pool.table[k].id) && !Lasts(pw.undo, until)
    ensures Run(c, s, actions) && NoRestart(actions) && NeverGivesUp(actions, k)
    ensures Final(c, s, actions).clock == s.clock && !Held(Final(c, s, actions), k, s.pool.table[k].ip, until)
  {
    hide Good, Run, Final, Unsure, Next, Enabled, Consistent, Drain, Settled, Drains;
    NothingPending(c, s);
    UnsureIsOut(s, pw);
    var cid :| cid in s.calls && pw in s.calls[cid].pending;
    GoodHasTickets(c, s, k);
    actions := FailAndSettle(c, s, cid, k);
    var d := Drain(c, s, {});
    DrainLeaves(c, s, {});
    DrainKeeps(c, s, k);
    GoodHasTickets(c, d, k);
    DrainedCanSettle(c, d, cid);
    SettleMine(d, Next(c, d, Settle(cid, d.clock)), cid, k, pw);
  }

  /** Everything that is queued fails, and one caller settles. */
  lemma FailAndSettle(c: Config, s: Sys, cid: nat, k: Key) returns (actions: seq<Action>)
    requires Tickets(s) && s.pool.pending == [] && cid in s.calls
    ensures var d := Drain(c, s, {});
      && Enabled(c, d, Settle(cid, d.clock)) && Run(c, s, actions)
      && Final(c, s, actions) == Next(c, d, Settle(cid, d.clock))
    ensures NoRestart(actions) && NeverGivesUp(actions, k) && Final(c, s, actions).clock == s.clock
  {
    hide Run, Final, Unsure, Next, Enabled, Drain, Settled, Drains, Tickets;
    var d := Drain(c, s, {});
    DrainLeaves(c, s, {});
    DrainedCanSettle(c, d, cid);
    var last := Settle(cid, d.clock);
    OneStep(c, d, last);
    SettleClock(c, d, cid, d.clock);
    DrainRuns(c, s, {}, [last]);
    DrainsOnlyWrite(s.pool.queue, {});
    actions := Drains(s.pool.queue, {}) + [last];
  }

  lemma {:induction false} UndosDrop(p: Pool, undos: seq<Undo>, k: Key, id: nat)
    requires DropUnwritten(k, id) in undos && (k in p.table ==> p.table[k].id == id)
    ensures k !in RunUndos(p, undos).table
    decreases |undos|
  {
    var last, init := undos[|undos| - 1], undos[..|undos| - 1];
    var q := RunUndo(p, last);
    if last == DropUnwritten(k, id) {
      UndosOnlyRemove(q, init);
    } else {
      assert DropUnwritten(k, id) in init;
      UndosDrop(q, init, k, id);
    }
  }

  /**
   Whatever a client was told and however it came to be told, it cannot depend on a
   record whose first store is undecided, or has failed with its caller still to undo it.
   */
  lemma UnwrittenIsUndependable(c: Config, s: Sys, k: Key, ip: Addr, until: int, pw: Pending)
    requires Consistent(c, s) && Tickets(s) && k in s.pool.table && Unix(s.clock) < until
    requires Unsure(s, pw) && pw.undo == DropUnwritten(k, s.pool.table[k].id)
    ensures !Dependable(c, s, k, ip, until)
  {
    hide Run, Final, Unsure, Next, Enabled, Consistent, Tickets, RunUndos;
    NothingPending(c, s);
    UnsureIsOut(s, pw);
    var cid :| cid in s.calls && pw in s.calls[cid].pending;
    var actions := FailAndSettle(c, s, cid, k);
    var d := Drain(c, s, {});
    DrainLeaves(c, s, {});
    DrainedCanSettle(c, d, cid);
    UndoneAfter(d, cid, pw);
    UndosDrop(d.pool, Failed(d.done, d.calls[cid].pending), k, s.pool.table[k].id);
  }

  lemma UndoneAfter(s: Sys, cid: nat, pw: Pending)
    requires cid in s.calls && AllDone(s, s.calls[cid]) && pw in s.calls[cid].pending && Unsure(s, pw)
    ensures pw.undo in Failed(s.done, s.calls[cid].pending)
  {
    var pending := s.calls[cid].pending;
    FailedExactly(s.done, pending);
    var j :| 0 <= j < |pending| && pending[j] == pw;
  }

  /**
   In a state that accounts for a binding which lasts long enough, the client can depend
   on it if and only if every undecided store behind it would fall back to a row that
   lasts as long.
   */
  lemma DependableExactly(c: Config, s: Sys, k: Key, until: int)
    requires Good(c, s, k) && Consistent(c, s) && k in s.pool.table && s.pool.table[k].row.expires >= until
    requires Unix(s.clock) < until
    ensures Dependable(c, s, k, s.pool.table[k].ip, until) <==> Sound(s, k, until)
  {
    hide Good, Consistent, Run, Final, Unsure;
    var ip := s.pool.table[k].ip;
    if Sound(s, k, until) {
      SoundIsKept(c, s, k, until);
      GoodHasTickets(c, s, k);
      forall actions | Run(c, s, actions) && NoRestart(actions) && NeverGivesUp(actions, k)
        && Unix(Final(c, s, actions).clock) < until
        ensures Held(Final(c, s, actions), k, ip, until)
      {
        KeptStays(c, s, actions, k, ip, until);
        KeptIsHeld(Final(c, s, actions), k, ip, until);
      }
    } else {
      var pw :| Unsure(s, pw) && Concerns(pw.undo, k, s.pool.table[k].id) && !Lasts(pw.undo, until);
      var actions := UndependableRun(c, s, k, until, pw);
    }
  }

  /** A message of one IA. */
  function Asking(cid: nat, kind: Kind, ia: IA, hostname: string, now: Time, env: Env, end: Time, room: seq<bool>): Action {
    Receive(cid, kind, [ia], hostname, now, [env], end, room)
  }

  /** A message answered from the record alone leaves everything as it was but the clock. */
  lemma AtOnceStep(c: Config, s: Sys, cid: nat, kind: Kind, ia: IA, hostname: string, now: Time, env: Env, end: Time,
                   room: seq<bool>)
    requires (kind.Bind? || kind.Extend?) && ia.key in s.pool.table && Lasting(c, s.pool.table[ia.key], now)
    requires s.pool.pending == [] && cid !in s.calls && s.clock <= now <= end && env.later <= end && Walks(s.pool, env)
    ensures var a, r := Asking(cid, kind, ia, hostname, now, env, end, room), s.pool.table[ia.key];
      var told := Bound(r.id, r.ip, Unix(now + c.leaseTime));
      && Enabled(c, s, a)
      && var t := Next(c, s, a);
         && t == s.(clock := end, pool := s.pool.(room := room),
                    calls := s.calls[cid := Call([ia.key], [Answered(ia.key, told, 0, 0)], [])])
         && Enabled(c, t, Settle(cid, end)) && Reply(t, t.calls[cid], 0) == told
         && Next(c, t, Settle(cid, end)) == s.(clock := end, pool := s.pool.(room := room))
  {
    hide AnswerIA, RunUndos;
    var a := Asking(cid, kind, ia, hostname, now, env, end, room);
    var p := s.pool.(room := room);
    AnsweredAtOnce(c, p, kind, ia, hostname, now, env);
    AnswerOne(c, p, kind, ia, hostname, now, env);
    assert KeysOf([ia]) == [ia.key];
    var t := Next(c, s, a);
    assert Failed(t.done, []) == [];
    NoUndos(t.pool);
    assert s.calls[cid := t.calls[cid]] - {cid} == s.calls;
  }

  lemma NoUndos(p: Pool)
    ensures RunUndos(p, []) == p
  {
  }

  lemma AnswerOne(c: Config, p: Pool, kind: Kind, ia: IA, hostname: string, now: Time, env: Env)
    ensures var (q, answer) := AnswerIA(c, p, kind, ia, hostname, now, env);
      AnswerAll(c, p, kind, [ia], hostname, now, [env]) == (q, [Answered(ia.key, answer, |p.pending|, |q.pending|)])
    ensures Walks(p, env) ==> WalksAll(c, p, kind, [ia], hostname, now, [env])
  {
    hide AnswerIA;
    var ias, envs := [ia], [env];
    AnswerAllSteps(c, p, kind, ias, hostname, now, envs);
    AnswerAllSteps(c, p, kind, ias[..0], hostname, now, envs[..0]);
    assert ias[..0] == [] && ias[0] == ia && envs[0] == env;
    var (q, answer) := AnswerIA(c, p, kind, ia, hostname, now, env);
    assert [] + [Answered(ia.key, answer, |p.pending|, |q.pending|)] == [Answered(ia.key, answer, |p.pending|, |q.pending|)];
  }

  /**
   A message answered at once, such as a retransmission: the answer can be depended on if
   and only if the client's guard held when the message was taken up. Its reply needs
   to wait for nothing, so nothing else would tell the client.
   */
  lemma AnsweredAtOnceExactly(c: Config, s: Sys, cid: nat, kind: Kind, ia: IA, hostname: string, now: Time, env: Env,
                              end: Time, room: seq<bool>)
    requires Good(c, s, ia.key) && Consistent(c, s) && (kind.Bind? || kind.Extend?) && ia.key in s.pool.table
    requires Lasting(c, s.pool.table[ia.key], now) && cid !in s.calls && s.clock <= now <= end && env.later <= end
    requires Unix(end) < Unix(now + c.leaseTime) && Walks(s.pool, env)
    ensures var a, r := Asking(cid, kind, ia, hostname, now, env, end, room), s.pool.table[ia.key];
      && Enabled(c, s, a) && Tells(c, Next(c, s, a), cid, 0, end)
      && var e := Next(c, Next(c, s, a), Settle(cid, end));
         Dependable(c, e, ia.key, r.ip, Unix(now + c.leaseTime)) <==> Guard(c, s, ia.key, kind, now)
  {
    hide Good, Dependable, AnswerIA, Next, Enabled;
    var k, r := ia.key, s.pool.table[ia.key];
    NothingPending(c, s);
    AtOnceStep(c, s, cid, kind, ia, hostname, now, env, end, room);
    SecondsReached(now + c.leaseTime, r.row.expires);
    var e := s.(clock := end, pool := s.pool.(room := room));
    LaterGood(c, s, end, room, k);
    LaterConsistent(c, s, end, room);
    LaterUnsure(s, end, room);
    DependableExactly(c, e, k, Unix(now + c.leaseTime));
  }

  lemma LaterUnsure(s: Sys, clock: Time, room: seq<bool>)
    ensures forall pw :: Unsure(s.(clock := clock, pool := s.pool.(room := room)), pw) <==> Unsure(s, pw)
  {
    var e := s.(clock := clock, pool := s.pool.(room := room));
    assert forall pw :: Out(e, pw) <==> Out(s, pw);
  }

  lemma LaterConsistent(c: Config, s: Sys, clock: Time, room: seq<bool>)
    requires Consistent(c, s)
    ensures Consistent(c, s.(clock := clock, pool := s.pool.(room := room)))
  {
    RoomIsOutside(c, s.pool, s.pool.(room := room));
  }

  // ----- through crashes, and between clients ----------------------------------------------------------

  /** A run that ends with a reply naming an address. */
  ghost predicate TellingRun(c: Config, s: Sys, actions: seq<Action>, cid: nat, i: int, now: Time, k: Key) {
    && Run(c, s, actions) && ConsiderateRun(c, s, actions, k)
    && Tells(c, Final(c, s, actions), cid, i, now) && Final(c, s, actions).calls[cid].answers[i].key == k
  }

  ghost function Told(c: Config, s: Sys, actions: seq<Action>, cid: nat, i: int): Answer
    requires Run(c, s, actions) && cid in Final(c, s, actions).calls
    requires 0 <= i < |Final(c, s, actions).calls[cid].answers|
  {
    Reply(Final(c, s, actions), Final(c, s, actions).calls[cid], i)
  }

  ghost function After(c: Config, s: Sys, actions: seq<Action>, cid: nat, now: Time): Sys
    requires Run(c, s, actions) && Enabled(c, Final(c, s, actions), Settle(cid, now))
  {
    Next(c, Final(c, s, actions), Settle(cid, now))
  }

  lemma OrderlyIsLone(c: Config, s: Sys, m: Shadow, k: Key, ip: Addr)
    requires Orderly(c, s, m) && (k, ip) in s.db
    ensures Lone(s.db, k, ip)
  {
  }

  /**
   Once told, a client keeps its address in the table and on disk until the second it
   was told: through everything that follows, statements failing, crashes and restarts
   included, unless it gives the address up. Before the reply any stores may have
   failed, as long as deletes landed and no settling caller left a row behind.
   */
  lemma ToldSurvivesEverything(c: Config, s: Sys, m: Shadow, first: seq<Action>, cid: nat, i: int, now: Time, k: Key,
                               rest: seq<Action>)
    requires Consistent(c, s) && Orderly(c, s, m) && Good(c, s, k) && TellingRun(c, s, first, cid, i, now, k)
    requires DeletesLand(c, s, first) && NeverStrands(c, s, first)
    requires Run(c, After(c, s, first, cid, now), rest) && NeverGivesUp(rest, k)
    requires Unix(Final(c, After(c, s, first, cid, now), rest).clock) < Told(c, s, first, cid, i).until
    ensures var told, e := Told(c, s, first, cid, i), Final(c, After(c, s, first, cid, now), rest);
      Held(e, k, told.ip, told.until) && Consistent(c, e)
  {
    hide Good, Run, Final, Next, Enabled, Kept, ConsiderateRun, Orderly, Consistent, Tickets, DeletesLand, NeverStrands;
    var e, told, s' := Final(c, s, first), Told(c, s, first, cid, i), After(c, s, first, cid, now);
    GoodHasTickets(c, s, k);
    ToldImpliesStored(c, s, first, cid, i, now, k);
    var m' := RunsStayRestartable(c, s, first, m);
    StepKeepsConsistent(c, e, Settle(cid, now));
    StepTickets(c, e, Settle(cid, now));
    KeptIsHeld(s', k, told.ip, told.until);
    SettleRows(c, e, cid, now);
    OrderlyIsLone(c, e, m', k, told.ip);
    KeptStays(c, s', rest, k, told.ip, told.until);
    KeptIsHeld(Final(c, s', rest), k, told.ip, told.until);
  }

  lemma SettleRows(c: Config, s: Sys, cid: nat, now: Time)
    requires Enabled(c, s, Settle(cid, now))
    ensures Next(c, s, Settle(cid, now)).db == s.db
  {
  }

  /** Two clients that hold one address are one client. */
  lemma OneHolder(c: Config, s: Sys, k: Key, j: Key, ip: Addr, until: int, until': int)
    requires Consistent(c, s) && Held(s, k, ip, until) && Held(s, j, ip, until')
    ensures k == j
  {
  }

  /**
   No two clients are told one address with overlapping lifetimes: while what one was
   told still runs, and it has not given the address up, nobody else is told it.
   */
  lemma NoTwoToldOneAddress(c: Config, s: Sys, m: Shadow, first: seq<Action>, cid: nat, i: int, now: Time, k: Key,
                            rest: seq<Action>, did: nat, j: int, later: Time, other: Key)
    requires Consistent(c, s) && Orderly(c, s, m) && Good(c, s, k) && TellingRun(c, s, first, cid, i, now, k)
    requires DeletesLand(c, s, first) && NeverStrands(c, s, first)
    requires NeverGivesUp(rest, k) && Good(c, After(c, s, first, cid, now), other)
    requires TellingRun(c, After(c, s, first, cid, now), rest, did, j, later, other)
    requires Unix(later) < Told(c, s, first, cid, i).until
    requires Told(c, After(c, s, first, cid, now), rest, did, j).ip == Told(c, s, first, cid, i).ip
    ensures other == k
  {
    hide Good, Run, Final, Next, Enabled, Kept, ConsiderateRun, Held, Orderly, Consistent, DeletesLand, NeverStrands;
    var told, s' := Told(c, s, first, cid, i), After(c, s, first, cid, now);
    var told', e, e' := Told(c, s', rest, did, j), Final(c, s', rest), After(c, s', rest, did, later);
    RunsKeepThePartition(c, s, first);
    StepKeepsConsistent(c, Final(c, s, first), Settle(cid, now));
    ToldImpliesStored(c, s', rest, did, j, later, other);
    KeptIsHeld(e', other, told'.ip, told'.until);
    Appended(c, s', rest, Settle(did, later));
    var all := rest + [Settle(did, later)];
    assert forall n :: 0 <= n < |all| ==> all[n] == (if n < |rest| then rest[n] else Settle(did, later));
    SettleClock(c, e, did, later);
    ToldSurvivesEverything(c, s, m, first, cid, i, now, k, all);
    OneHolder(c, e', k, other, told.ip, told.until, told'.until);
  }

  lemma SettleClock(c: Config, s: Sys, cid: nat, now: Time)
    requires Enabled(c, s, Settle(cid, now))
    ensures Next(c, s, Settle(cid, now)).clock == now
  {
  }

  lemma {:induction false} Appended(c: Config, s: Sys, actions: seq<Action>, a: Action)
    requires Run(c, s, actions) && Enabled(c, Final(c, s, actions), a)
    ensures Run(c, s, actions + [a]) && Final(c, s, actions + [a]) == Next(c, Final(c, s, actions), a)
    decreases |actions|
  {
    hide Enabled, Next;
    if actions == [] {
      OneStep(c, s, a);
      assert actions + [a] == [a];
    } else {
      Appended(c, Next(c, s, actions[0]), actions[1..], a);
      assert (actions + [a])[0] == actions[0] && (actions + [a])[1..] == actions[1..] + [a];
    }
  }
}
