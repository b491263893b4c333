/**
 When a client's messages overlap: exactly which replies it can depend on.

 A message may be taken up while an earlier store behind the same binding is undecided.
 What its reply is worth then rests on the undo of that store. A new record is dropped,
 whatever has been stored for it since. A renewal is cut back if the record still ends
 in the second the renewal gave it, which a later renewal to the same second does not
 change. So the reply can be depended on exactly when the undo leaves enough, or when
 the message itself moves the record to another second or replaces it.
 */
module LeaseOverlap {
  import opened Wrappers
  import opened LeaseModel
  import opened LeaseOps
  import opened LeaseSystem
  import opened LeaseTold
  import opened LeaseKept

  // ----- the store a reply waits for ----------------------------------------------------------

  predicate StoresFor(w: Write, ip: Addr, until: int) {
    w.Store? && w.ip == ip && w.row.expires >= until
  }

  /** Entry i stores the row, and nothing behind it takes it back. */
  ghost predicate Awaited(queue: seq<Entry>, i: int, k: Key, ip: Addr, until: int) {
    && 0 <= i < |queue| && queue[i].write.key == k
    && forall j :: i <= j < |queue| && queue[j].write.key == k ==> StoresFor(queue[j].write, ip, until)
  }

  /** Once `mine` lands the binding is kept: nothing else undecided can cut it below `until`. */
  ghost predicate Promised(s: Sys, k: Key, ip: Addr, until: int, mine: Pending) {
    && k in s.pool.table && s.pool.table[k].ip == ip && s.pool.table[k].row.expires >= until
    && Awaited(s.pool.queue, mine.ticket - Head(s), k, ip, until)
    && (forall pw :: Unsure(s, pw) && Concerns(pw.undo, k, s.pool.table[k].id) ==> pw == mine || Harmless(pw.undo, until))
  }

  ghost predicate Lost(s: Sys, mine: Pending) {
    mine.ticket in s.done && !s.done[mine.ticket]
  }

  lemma AwaitedGrows(queue: seq<Entry>, e: Entry, i: int, k: Key, ip: Addr, until: int)
    requires Awaited(queue, i, k, ip, until) && (e.write.key == k ==> StoresFor(e.write, ip, until))
    ensures Awaited(queue + [e], i, k, ip, until)
  {
  }

  /** A change that queues something which leaves the client its binding. */
  lemma QueuesPromised(s: Sys, q: Pool, w: Write, u: Undo, k: Key, ip: Addr, until: int, mine: Pending)
    requires Tickets(s) && Promised(s, k, ip, until, mine) && Queues(s.pool, q, w, u) && Leaves(s.pool, q, w, u, k, ip, until)
    ensures Promised(At(s, q), k, ip, until, mine)
  {
    hide Tickets, Unsure, Awaited, Harmless;
    UnsureGrows(s, q, w, u);
    AwaitedGrows(s.pool.queue, Entry(s.pool.tickets, w), mine.ticket - Head(s), k, ip, until);
  }

  ghost predicate Leaves(p: Pool, q: Pool, w: Write, u: Undo, k: Key, ip: Addr, until: int) {
    && k in p.table && k in q.table && q.table[k].id == p.table[k].id && q.table[k].ip == ip && q.table[k].row.expires >= until
    && (w.key == k ==> StoresFor(w, ip, until))
    && (Concerns(u, k, p.table[k].id) ==> Harmless(u, until))
  }

  lemma DoLeaves(c: Config, p: Pool, op: Op, m: Speaker, t: Time, k: Key, ip: Addr, until: int)
    requires Legal(c, p, op, m, t) && !Aside(op) && m != Yields(k) && Unix(t) < until
    requires k in p.table && p.table[k].ip == ip && p.table[k].row.expires >= until
    ensures Leaves(p, Do(p, op), WriteOf(p, op), UndoOf(p, op), k, ip, until)
  {
    if op.key != k {
      DoElsewhere(p, op, k);
    }
  }

  lemma DoPromised(c: Config, s: Sys, k: Key, ip: Addr, until: int, mine: Pending, op: Op, m: Speaker, t: Time)
    requires Partition(c, s.pool) && Tickets(s) && Promised(s, k, ip, until, mine)
    requires Legal(c, s.pool, op, m, t) && m != Yields(k) && Unix(t) < until
    ensures Promised(At(s, Do(s.pool, op)), k, ip, until, mine)
  {
    hide Partition, Tickets, Unsure, Awaited, Harmless, Leaves, Do;
    var p, q := s.pool, Do(s.pool, op);
    DoShape(c, p, op, m, t);
    if Aside(op) {
      UnsureSame(s, q);
    } else {
      DoLeaves(c, p, op, m, t, k, ip, until);
      QueuesPromised(s, q, WriteOf(p, op), UndoOf(p, op), k, ip, until, mine);
    }
  }

  lemma {:induction false} DoAllPromised(
      c: Config, s: Sys, k: Key, ip: Addr, until: int, mine: Pending, ops: seq<Op>, all: set<Speaker>, t: Time)
    requires Partition(c, s.pool) && Tickets(s) && Promised(s, k, ip, until, mine)
    requires LegalAmong(c, s.pool, ops, all, t) && Yields(k) !in all && Unix(t) < until
    ensures Promised(At(s, DoAll(s.pool, ops)), k, ip, until, mine) && Tickets(At(s, DoAll(s.pool, ops)))
  {
    hide Partition, Tickets, Promised, Do, Legal;
    if ops != [] {
      var init, op := ops[..|ops| - 1], ops[|ops| - 1];
      var p := DoAll(s.pool, init);
      DoAllPromised(c, s, k, ip, until, mine, init, all, t);
      AmongKeepsPartition(c, s.pool, init, all, t);
      var m :| m in all && Legal(c, p, op, m, t);
      DoPromised(c, At(s, p), k, ip, until, mine, op, m, t);
      DoTickets(c, At(s, p), op, m, t);
      assert At(At(s, p), Do(p, op)) == At(s, DoAll(s.pool, ops));
    } else {
      assert At(s, s.pool) == s;
    }
  }

  lemma SamePromised(s: Sys, s': Sys, k: Key, ip: Addr, until: int, mine: Pending)
    requires Promised(s, k, ip, until, mine) && forall pw :: Unsure(s', pw) ==> Unsure(s, pw)
    requires s'.pool.table == s.pool.table && s'.pool.queue == s.pool.queue && s'.pool.tickets == s.pool.tickets
    ensures Promised(s', k, ip, until, mine)
  {
  }

  lemma SectionPromised(c: Config, s: Sys, a: Action, k: Key, ip: Addr, until: int, mine: Pending)
    requires Consistent(c, s) && Tickets(s) && Promised(s, k, ip, until, mine)
    requires Enabled(c, s, a) && (a.Receive? || a.Sweep?) && !GivesUp(a, k) && Unix(Until(a)) < until
    ensures Promised(Next(c, s, a), k, ip, until, mine) && Tickets(Next(c, s, a))
  {
    hide Promised, Next, GivesUp, Speakers, Partition, Tickets, Says;
    var t := Entered(s, a);
    var ops := SectionTrace(c, s, a);
    EnteredSame(s, a);
    SamePromised(s, t, k, ip, until, mine);
    NotYielding(a, k);
    DoAllPromised(c, t, k, ip, until, mine, ops, Speakers(a), t.clock);
    ParkPromised(At(t, DoAll(t.pool, ops)), a.cid, if a.Receive? then KeysOf(a.ias) else [], Says(c, s, a), k, ip, until, mine);
  }

  lemma ParkPromised(
      s: Sys, cid: nat, keys: seq<Key>, answers: seq<Answered>, k: Key, ip: Addr, until: int, mine: Pending)
    requires Tickets(s) && Promised(s, k, ip, until, mine) && cid !in s.calls
    ensures Promised(Park(s, cid, keys, answers), k, ip, until, mine) && Tickets(Park(s, cid, keys, answers))
  {
    hide Promised, Tickets;
    ParkTickets(s, cid, keys, answers);
    ParkOut(s, cid, keys, answers);
    SamePromised(s, Park(s, cid, keys, answers), k, ip, until, mine);
  }

  /** The writer brings the store one place forward, lands it, or loses it. */
  lemma WriterPromised(c: Config, s: Sys, ok: bool, k: Key, ip: Addr, until: int, mine: Pending)
    requires Tickets(s) && Promised(s, k, ip, until, mine) && s.pool.queue != []
    ensures var s' := Writer(c, s, ok);
      Tickets(s') && (Promised(s', k, ip, until, mine) || Lost(s', mine) || Kept(s', k, ip, until))
  {
    hide Tickets, Unsure;
    var s' := Writer(c, s, ok);
    WriterUnsure(c, s, ok);
    HeadTicket(s);
    if mine.ticket > Head(s) {
      assert Promised(s', k, ip, until, mine);
    } else if ok {
      assert Kept(s', k, ip, until);
    }
  }

  lemma HeadTicket(s: Sys)
    requires Tickets(s) && s.pool.queue != []
    ensures s.pool.queue[0].ticket == Head(s)
  {
  }

  lemma SettlePromised(s: Sys, s': Sys, cid: nat, did: nat, k: Key, ip: Addr, until: int, mine: Pending)
    requires Tickets(s) && Promised(s, k, ip, until, mine) && Settled(s, s', did)
    requires cid in s.calls && cid != did && mine in s.calls[cid].pending
    ensures Promised(s', k, ip, until, mine) && Tickets(s')
  {
    hide Tickets, Unsure, RunUndos;
    var undos := Failed(s.done, s.calls[did].pending);
    SettledUnsure(s, s', did);
    forall u | u in undos && Concerns(u, k, s.pool.table[k].id) ensures Harmless(u, until) {
      RunningUndo(s, did, u);
      var pw :| pw in s.calls[did].pending && pw.undo == u && Unsure(s, pw);
      NotTheirs(s, did, cid, pw);
    }
    UndosKept(s.pool, undos, k, until);
  }

  // ----- from the message to its reply ------------------------------------------------------------

  /** The binding is kept already, or a store that the answer's IA waits for will see to it. */
  ghost predicate Pledged(s: Sys, k: Key, ip: Addr, until: int, a: Answered, pending: seq<Pending>) {
    || Kept(s, k, ip, until)
    || exists j :: a.from <= j < a.to && j < |pending| &&
         (Promised(s, k, ip, until, pending[j]) || Lost(s, pending[j]))
  }

  ghost predicate Unreplied(actions: seq<Action>, cid: nat) {
    forall i :: 0 <= i < |actions| ==> !actions[i].Settle? || actions[i].cid != cid
  }

  lemma LostStays(c: Config, s: Sys, a: Action, mine: Pending)
    requires Tickets(s) && Lost(s, mine) && Enabled(c, s, a) && !a.Restart?
    ensures Lost(Next(c, s, a), mine)
  {
    hide AnswerAll, Reclaim, RunUndos, Failed;
    if a.WriteOk? || a.WriteFails? {
      HeadTicket(s);
    }
  }

  lemma CallStays(c: Config, s: Sys, a: Action, cid: nat)
    requires Enabled(c, s, a) && !a.Restart? && cid in s.calls && (a.Settle? ==> a.cid != cid)
    ensures cid in Next(c, s, a).calls && Next(c, s, a).calls[cid] == s.calls[cid]
  {
    hide AnswerAll, Reclaim, RunUndos, Failed;
  }

  lemma PromisedStep(c: Config, s: Sys, a: Action, cid: nat, k: Key, ip: Addr, until: int, mine: Pending)
    requires Consistent(c, s) && Tickets(s) && Promised(s, k, ip, until, mine) && Enabled(c, s, a)
    requires cid in s.calls && mine in s.calls[cid].pending && (a.Settle? ==> a.cid != cid) && !a.Restart?
    requires !GivesUp(a, k) && Unix(Next(c, s, a).clock) < until
    ensures var s' := Next(c, s, a);
      Promised(s', k, ip, until, mine) || Lost(s', mine) || Kept(s', k, ip, until)
  {
    hide Tickets, Promised, Kept, Lost, Consistent, Reclaim, AnswerAll;
    match a
    case Receive(_, _, _, _, _, _, _, _) => SectionPromised(c, s, a, k, ip, until, mine);
    case Sweep(_, _, _, _, _) => SectionPromised(c, s, a, k, ip, until, mine);
    case WriteOk => WriterPromised(c, s, true, k, ip, until, mine);
    case WriteFails => WriterPromised(c, s, false, k, ip, until, mine);
    case Settle(did, now) =>
      NothingPending(c, s);
      SettlePromised(s, Next(c, s, a), cid, did, k, ip, until, mine);
  }

  lemma {:induction false} PledgedRuns(
      c: Config, s: Sys, actions: seq<Action>, cid: nat, k: Key, ip: Addr, until: int, a: Answered)
    requires Consistent(c, s) && Tickets(s) && Run(c, s, actions) && NoRestart(actions) && NeverGivesUp(actions, k)
    requires cid in s.calls && Unreplied(actions, cid) && Unix(Final(c, s, actions).clock) < until
    requires Pledged(s, k, ip, until, a, s.calls[cid].pending)
    ensures var e := Final(c, s, actions);
      && Consistent(c, e) && Tickets(e) && cid in e.calls && e.calls[cid] == s.calls[cid]
      && Pledged(e, k, ip, until, a, e.calls[cid].pending)
    decreases |actions|
  {
    hide Enabled, Next, Consistent, Tickets, Promised, Kept, Lost, GivesUp;
    if actions != [] {
      var b, s', rest := actions[0], Next(c, s, actions[0]), actions[1..];
      ClockGrowsOn(c, s', rest);
      SecondsPass(s'.clock, Final(c, s', rest).clock);
      assert Final(c, s, actions) == Final(c, s', rest);
      assert forall i :: 0 <= i < |rest| ==> rest[i] == actions[i + 1];
      StepKeepsConsistent(c, s, b);
      StepTickets(c, s, b);
      CallStays(c, s, b, cid);
      PledgedStep(c, s, b, cid, k, ip, until, a);
      PledgedRuns(c, s', rest, cid, k, ip, until, a);
    }
  }

  lemma PledgedStep(c: Config, s: Sys, b: Action, cid: nat, k: Key, ip: Addr, until: int, a: Answered)
    requires Consistent(c, s) && Tickets(s) && Enabled(c, s, b) && !b.Restart? && !GivesUp(b, k)
    requires cid in s.calls && (b.Settle? ==> b.cid != cid) && Unix(Next(c, s, b).clock) < until
    requires Pledged(s, k, ip, until, a, s.calls[cid].pending)
    ensures Pledged(Next(c, s, b), k, ip, until, a, s.calls[cid].pending)
  {
    hide Enabled, Next, Consistent, Tickets, Promised, Kept, Lost, GivesUp;
    var pending := s.calls[cid].pending;
    if Kept(s, k, ip, until) {
      StepKept(c, s, b, k, ip, until);
    } else {
      var j :| a.from <= j < a.to && j < |pending| && (Promised(s, k, ip, until, pending[j]) || Lost(s, pending[j]));
      if Lost(s, pending[j]) {
        LostStays(c, s, b, pending[j]);
      } else {
        PromisedStep(c, s, b, cid, k, ip, until, pending[j]);
      }
    }
  }

  /**
   Whenever the reply goes out, however the run goes on until then, the client can depend
   on it. A crash loses the reply, and giving the binding up is the client's own doing.
   */
  ghost predicate AlwaysDependable(c: Config, s: Sys, cid: nat, i: int, k: Key) {
    forall actions, now ::
      && Run(c, s, actions) && NoRestart(actions) && NeverGivesUp(actions, k) && Unreplied(actions, cid)
      && Tells(c, Final(c, s, actions), cid, i, now) ==>
        var e := Final(c, s, actions);
        var told := Reply(e, e.calls[cid], i);
        Dependable(c, Next(c, e, Settle(cid, now)), k, told.ip, told.until)
  }

  lemma KeptIsDependable(c: Config, s: Sys, k: Key, ip: Addr, until: int, told: int)
    requires Consistent(c, s) && Tickets(s) && Kept(s, k, ip, until) && told <= until
    ensures Dependable(c, s, k, ip, told)
  {
    hide Run, Final, Consistent, Tickets, Kept;
    forall actions | Run(c, s, actions) && NoRestart(actions) && NeverGivesUp(actions, k)
      && Unix(Final(c, s, actions).clock) < told
      ensures Held(Final(c, s, actions), k, ip, told)
    {
      KeptStays(c, s, actions, k, ip, until);
      KeptIsHeld(Final(c, s, actions), k, ip, until);
    }
  }

  /** A pledge whose reply goes out has been kept. */
  lemma PledgedTells(c: Config, s: Sys, cid: nat, i: int, now: Time, k: Key, until: int)
    requires Consistent(c, s) && Tickets(s) && Tells(c, s, cid, i, now)
    requires var told := Reply(s, s.calls[cid], i);
      told.until <= until && Pledged(s, k, told.ip, until, s.calls[cid].answers[i], s.calls[cid].pending)
    ensures var told := Reply(s, s.calls[cid], i);
      Dependable(c, Next(c, s, Settle(cid, now)), k, told.ip, told.until)
  {
    hide Dependable, Kept, Tickets, RunUndos;
    var call, a := s.calls[cid], s.calls[cid].answers[i];
    var s' := Next(c, s, Settle(cid, now));
    forall j | a.from <= j < a.to && j < |call.pending|
      ensures !Promised(s, k, a.answer.ip, until, call.pending[j]) && !Lost(s, call.pending[j])
    {
      assert call.pending[j].ticket in s.done && s.done[call.pending[j].ticket];
      if Promised(s, k, a.answer.ip, until, call.pending[j]) {
        PromisedIsQueued(s, k, a.answer.ip, until, call.pending[j]);
      }
    }
    StepKeepsConsistent(c, s, Settle(cid, now));
    SettleKept(s, s', cid, k, a.answer.ip, until);
    KeptIsDependable(c, s', k, a.answer.ip, until, a.answer.until);
  }

  lemma PromisedIsQueued(s: Sys, k: Key, ip: Addr, until: int, mine: Pending)
    requires Tickets(s) && Promised(s, k, ip, until, mine)
    ensures mine.ticket !in s.done
  {
  }

  lemma PledgedIsDependable(c: Config, s: Sys, cid: nat, i: nat, k: Key, until: int)
    requires Consistent(c, s) && Tickets(s) && cid in s.calls && i < |s.calls[cid].answers|
    requires var a := s.calls[cid].answers[i];
      a.answer.Bound? && a.answer.until <= until && Pledged(s, k, a.answer.ip, until, a, s.calls[cid].pending)
    ensures AlwaysDependable(c, s, cid, i, k)
  {
    hide Run, Final, Consistent, Tickets, Pledged, Dependable, Next;
    var a := s.calls[cid].answers[i];
    forall actions, now | Run(c, s, actions) && NoRestart(actions) && NeverGivesUp(actions, k)
      && Unreplied(actions, cid) && Tells(c, Final(c, s, actions), cid, i, now)
      ensures var e := Final(c, s, actions);
        var told := Reply(e, e.calls[cid], i);
        Dependable(c, Next(c, e, Settle(cid, now)), k, told.ip, told.until)
    {
      var e := Final(c, s, actions);
      SameCall(c, s, actions, cid);
      SecondsPass(e.clock, now);
      PledgedRuns(c, s, actions, cid, k, a.answer.ip, until, a);
      PledgedTells(c, e, cid, i, now, k, until);
    }
  }

  lemma {:induction false} SameCall(c: Config, s: Sys, actions: seq<Action>, cid: nat)
    requires Run(c, s, actions) && NoRestart(actions) && cid in s.calls && Unreplied(actions, cid)
    ensures cid in Final(c, s, actions).calls && Final(c, s, actions).calls[cid] == s.calls[cid]
    decreases |actions|
  {
    hide Enabled, Next;
    if actions != [] {
      CallStays(c, s, actions[0], cid);
      assert forall i :: 0 <= i < |actions[1..]| ==> actions[1..][i] == actions[i + 1];
      SameCall(c, Next(c, s, actions[0]), actions[1..], cid);
    }
  }

  // ----- what a message finds ---------------------------------------------------------------------

  /** The record has lapsed and is given back before the client is served: its old undos concern nobody. */
  predicate LetGo(p: Pool, k: Key, now: Time)
    requires k in p.table
  {
    Expired(p.table[k], now) && HasRoom(p)
  }

  /** A renewal the message moves out of reach: its undo looks for another second. */
  predicate Outrun(u: Undo, expires: int) {
    u.Shorten? && u.extended != expires
  }

  /**
   What makes a reply dependable, read off the state in which the message comes to the
   binding: every undecided store behind it falls back far enough, or the message queues
   a renewal of its own, to a second that store's undo does not look for.
   */
  ghost predicate Safely(c: Config, s: Sys, k: Key, now: Time) {
    k in s.pool.table ==>
      || LetGo(s.pool, k, now)
      || forall pw :: Unsure(s, pw) && Concerns(pw.undo, k, s.pool.table[k].id) ==>
           || Lasts(pw.undo, Unix(now + c.leaseTime))
           || (!Lasting(c, s.pool.table[k], now) && Outrun(pw.undo, Rounded(now + c.leaseTime)))
  }

  /**
   The same where nothing is known of how the state came about: a record that lasts is
   kept already, and one that is renewed has one floor, the second told or the second
   stored, below which no undecided undo would take it.
   */
  ghost predicate Safeguarded(c: Config, s: Sys, k: Key, now: Time) {
    k in s.pool.table && !LetGo(s.pool, k, now) ==>
      var r, until := s.pool.table[k], Unix(now + c.leaseTime);
      if Lasting(c, r, now) then Kept(s, k, r.ip, until)
      else Firm(s, k, until) || Firm(s, k, Rounded(now + c.leaseTime))
  }

  lemma LeasedPromised(s: Sys, k: Key, ip: Addr, row: Row)
    requires Tickets(s)
    ensures var q := Leased(s.pool, k, ip, row);
      Promised(At(s, q), k, ip, row.expires, Pending(s.pool.tickets, DropUnwritten(k, s.pool.ids)))
  {
    var q, u := Leased(s.pool, k, ip, row), DropUnwritten(k, s.pool.ids);
    assert Queues(s.pool, q, Store(k, ip, row), u);
    UnsureGrows(s, q, Store(k, ip, row), u);
  }

  lemma RenewedPromised(s: Sys, k: Key, row: Row, until: int)
    requires Tickets(s) && k in s.pool.table && s.pool.table[k].id < s.pool.ids && Firm(s, k, until) && until <= row.expires
    ensures var r, q := s.pool.table[k], Renewed(s.pool, k, row);
      Promised(At(s, q), k, r.ip, until, Pending(s.pool.tickets, Shorten(k, r.id, row.expires, r.row)))
  {
    hide Tickets, Unsure;
    var r, q := s.pool.table[k], Renewed(s.pool, k, row);
    var u := Shorten(k, r.id, row.expires, r.row);
    assert Queues(s.pool, q, Store(k, r.ip, row), u);
    UnsureGrows(s, q, Store(k, r.ip, row), u);
  }

  /** An answer that rests on the last change its IA queued. */
  ghost predicate OnItsOwn(s: Sys, q: Pool, k: Key, until: int) {
    && |s.pool.pending| < |q.pending| && k in q.table
    && Promised(At(s, q), k, q.table[k].ip, until, q.pending[|q.pending| - 1])
  }

  /** The way of a new lease to its free address. */
  lemma ToFreeAddress(c: Config, p: Pool, k: Key, hint: Option<Addr>, hostname: string, now: Time, env: Env, t: Time)
    returns (ops: seq<Op>, r: Pool, ip: Addr)
    requires Partition(c, p) && now <= t && env.later <= t && Walks(p, env) && AllocateLease(c, p, k, hint, hostname, now, env).1
    ensures Trace(c, p, ops, r, Nobody, t)
    ensures AllocateLease(c, p, k, hint, hostname, now, env).0 == Leased(r, k, ip, Row(FreshExpiry(c, now), hostname))
  {
    hide Partition, AtLeaseLimit, Allocate, Trace, FreshExpiry;
    var q := AtLeaseLimit(c, p, now, env).0;
    ops := LimitTrace(c, p, now, env, t);
    TraceKeeps(c, p, ops, q, Nobody, t);
    var more := AllocateTrace(c, q, hint, env, Nobody, t);
    r, ip := Allocate(c, q, hint, env).0, Allocate(c, q, hint, env).1.value;
    Then(c, p, ops, q, more, r, Nobody, t);
    ops := ops + more;
  }

  lemma TraceKeeps(c: Config, p: Pool, ops: seq<Op>, q: Pool, m: Speaker, t: Time)
    requires Partition(c, p) && Trace(c, p, ops, q, m, t)
    ensures Partition(c, q)
  {
    DoAllKeepsPartition(c, p, ops, m, t);
  }

  lemma AllocatedPromised(c: Config, s: Sys, k: Key, hint: Option<Addr>, hostname: string, now: Time, env: Env)
    requires Partition(c, s.pool) && Tickets(s) && k !in s.pool.table && now <= s.clock && env.later <= s.clock && Walks(s.pool, env)
    requires AllocateLease(c, s.pool, k, hint, hostname, now, env).1
    ensures OnItsOwn(s, AllocateLease(c, s.pool, k, hint, hostname, now, env).0, k, FreshExpiry(c, now))
  {
    hide Partition, Tickets, AllocateLease, Promised, FreshExpiry, LegalAll, DoAll, Unsure;
    var ops, r, ip := ToFreeAddress(c, s.pool, k, hint, hostname, now, env, s.clock);
    UnsureAfter(c, s, ops, Nobody, s.clock);
    LeasedPromised(At(s, r), k, ip, Row(FreshExpiry(c, now), hostname));
  }

  /** At most one store is undecided, so one floor fits both ways of being safe. */
  lemma SafelyIsSafeguarded(c: Config, s: Sys, k: Key, now: Time)
    requires Good(c, s, k) && Safely(c, s, k, now) && Unix(now) < Unix(now + c.leaseTime)
    ensures Safeguarded(c, s, k, now)
  {
    hide Partition, Tickets, Unsure, CallsOk;
    if k in s.pool.table && !LetGo(s.pool, k, now) {
      var r, until := s.pool.table[k], Unix(now + c.leaseTime);
      SecondsReached(now + c.leaseTime, r.row.expires);
      if Lasting(c, r, now) {
        SoundIsKept(c, s, k, until);
      } else {
        SafelyIsFirm(c, s, k, now);
      }
    }
  }

  lemma SafelyIsFirm(c: Config, s: Sys, k: Key, now: Time)
    requires Accounted(s, k) && k in s.pool.table && Safely(c, s, k, now) && !LetGo(s.pool, k, now)
    requires !Lasting(c, s.pool.table[k], now) && Unix(now) < Unix(now + c.leaseTime)
    ensures Firm(s, k, Unix(now + c.leaseTime)) || Firm(s, k, Rounded(now + c.leaseTime))
  {
    hide Unsure;
    var r := s.pool.table[k];
    assert r.row.expires * SECOND < now + c.leaseTime;
    SecondsReached(now + c.leaseTime, r.row.expires);
    if pw :| Unsure(s, pw) && Concerns(pw.undo, k, r.id) && Lasts(pw.undo, Unix(now + c.leaseTime)) {
      assert Firm(s, k, Unix(now + c.leaseTime));
    } else {
      forall pw | Unsure(s, pw) && Concerns(pw.undo, k, r.id) ensures Harmless(pw.undo, Rounded(now + c.leaseTime)) {
        assert Backed(s, k, r, pw);
      }
    }
  }

  /** What an IA does to a record that neither lasts nor is let go: it renews it in place. */
  lemma Renews(c: Config, p: Pool, k: Key, kind: Kind, ia: IA, hostname: string, now: Time, env: Env) returns (p': Pool)
    requires (kind.Bind? || kind.Extend?) && ia.key == k && k in p.table && !LetGo(p, k, now) && !Lasting(c, p.table[k], now)
    requires AnswerIA(c, p, kind, ia, hostname, now, env).1.Bound? && Unix(now) < Unix(now + c.leaseTime)
    ensures p' == p || p' == Refused(p)
    ensures p.table[k].row.expires * SECOND < now + c.leaseTime
    ensures AnswerIA(c, p, kind, ia, hostname, now, env)
      == (Renewed(p', k, Row(Rounded(now + c.leaseTime), hostname)),
          Bound(p.table[k].id, p.table[k].ip, Unix(now + c.leaseTime)))
  {
    hide AllocateLease, Rounded;
    if Expired(p.table[k], now) {
      assert !HasRoom(p);
      assert Refused(p).(table := p.table[k := p.table[k]]) == Refused(p);
      p' := Refused(p);
    } else {
      p' := p;
    }
  }

  lemma RefusedSame(c: Config, s: Sys)
    requires Partition(c, s.pool) && Tickets(s)
    ensures Tickets(At(s, Refused(s.pool))) && forall pw :: Unsure(At(s, Refused(s.pool)), pw) <==> Unsure(s, pw)
  {
    DoTickets(c, s, Refuse, Nobody, s.clock);
    UnsureSame(s, Refused(s.pool));
  }

  lemma RenewPledged(c: Config, s: Sys, k: Key, kind: Kind, ia: IA, hostname: string, now: Time, env: Env)
    returns (until: int)
    requires Partition(c, s.pool) && Tickets(s) && Safeguarded(c, s, k, now)
    requires (kind.Bind? || kind.Extend?) && ia.key == k && k in s.pool.table
    requires !LetGo(s.pool, k, now) && !Lasting(c, s.pool.table[k], now)
    requires AnswerIA(c, s.pool, kind, ia, hostname, now, env).1.Bound? && Unix(now) < Unix(now + c.leaseTime)
    ensures Unix(now + c.leaseTime) <= until
    ensures OnItsOwn(s, AnswerIA(c, s.pool, kind, ia, hostname, now, env).0, k, until)
  {
    hide Partition, Tickets, Unsure, AnswerIA, Promised, LetGo, Lasting;
    var p' := Renews(c, s.pool, k, kind, ia, hostname, now, env);
    SecondsReached(now + c.leaseTime, s.pool.table[k].row.expires);
    until := if Firm(s, k, Unix(now + c.leaseTime)) then Unix(now + c.leaseTime) else Rounded(now + c.leaseTime);
    RefusedSame(c, s);
    IdIsOld(c, s.pool, k);
    assert At(s, s.pool) == s;
    var t, row := At(s, p'), Row(Rounded(now + c.leaseTime), hostname);
    RenewedPromised(t, k, row, until);
    assert At(t, Renewed(p', k, row)) == At(s, Renewed(p', k, row));
  }

  lemma LetGoPledged(c: Config, s: Sys, k: Key, kind: Kind, ia: IA, hostname: string, now: Time, env: Env)
    requires Partition(c, s.pool) && Tickets(s) && (kind.Bind? || kind.Extend?) && ia.key == k && k in s.pool.table
    requires LetGo(s.pool, k, now) && now <= s.clock && env.later <= s.clock && Walks(s.pool, env)
    requires AnswerIA(c, s.pool, kind, ia, hostname, now, env).1.Bound?
    ensures OnItsOwn(s, AnswerIA(c, s.pool, kind, ia, hostname, now, env).0, k, FreshExpiry(c, now))
  {
    hide Tickets, AllocateLease, Promised, FreshExpiry, Partition;
    var p1 := Do(s.pool, FreeLease(k));
    SecondsPass(now, s.clock);
    DoKeepsPartition(c, s.pool, FreeLease(k), Nobody, s.clock);
    DoTickets(c, s, FreeLease(k), Nobody, s.clock);
    LeasedIsTaken(c, s.pool, k);
    assert ReleaseLease(s.pool, k) == (p1, true);
    AllocatedPromised(c, At(s, p1), k, Some(s.pool.table[k].ip), hostname, now, env);
    var q := AllocateLease(c, p1, k, Some(s.pool.table[k].ip), hostname, now, env).0;
    assert At(At(s, p1), q) == At(s, q);
  }

  /** Whatever the IA does, an answer that is safe is pledged. */
  lemma AskPledged(c: Config, s: Sys, k: Key, kind: Kind, ia: IA, hostname: string, now: Time, env: Env)
    returns (until: int)
    requires Partition(c, s.pool) && Tickets(s) && (kind.Bind? || kind.Extend?) && ia.key == k
    requires Safeguarded(c, s, k, now) && now <= s.clock && env.later <= s.clock && Walks(s.pool, env) && Unix(now) < Unix(now + c.leaseTime)
    requires AnswerIA(c, s.pool, kind, ia, hostname, now, env).1.Bound?
    ensures var (q, answer) := AnswerIA(c, s.pool, kind, ia, hostname, now, env);
      && answer.until <= until
      && Pledged(At(s, q), k, answer.ip, until, Answered(k, answer, |s.pool.pending|, |q.pending|), q.pending)
  {
    hide Partition, Tickets, Unsure, Promised, Kept, AllocateLease, RenewKnown, LetGo, Lasting;
    var q := AnswerIA(c, s.pool, kind, ia, hostname, now, env).0;
    SecondsReached(now + c.leaseTime, 0);
    if k !in s.pool.table {
      until := FreshExpiry(c, now);
      var hint := if c.family.V4? || ia.addrs == [] then None else Some(ia.addrs[0]);
      AllocatedPromised(c, s, k, hint, hostname, now, env);
    } else if LetGo(s.pool, k, now) {
      until := FreshExpiry(c, now);
      LetGoPledged(c, s, k, kind, ia, hostname, now, env);
    } else if Lasting(c, s.pool.table[k], now) {
      until := Unix(now + c.leaseTime);
      AnsweredAtOnce(c, s.pool, kind, ia, hostname, now, env);
      assert At(s, s.pool) == s;
    } else {
      until := RenewPledged(c, s, k, kind, ia, hostname, now, env);
    }
    if k !in s.pool.table || !Lasting(c, s.pool.table[k], now) || LetGo(s.pool, k, now) {
      assert OnItsOwn(s, q, k, until);
      var j := |q.pending| - 1;
      assert |s.pool.pending| <= j < |q.pending| && Promised(At(s, q), k, q.table[k].ip, until, q.pending[j]);
    }
  }

  // ----- a whole message ----------------------------------------------------------------------------

  /** The state in which a message comes to its n-th IA. For the first it is the one it was received in. */
  ghost function Upto(c: Config, s: Sys, a: Action, n: nat): Sys
    requires a.Receive? && |a.envs| == |a.ias| && n <= |a.ias|
  {
    At(Entered(s, a), AnswerAll(c, Entered(s, a).pool, a.kind, a.ias[..n], a.hostname, a.now, a.envs[..n]).0)
  }

  /** A message that asks for `k` once, in its n-th IA, and is answered with an address in time. */
  ghost predicate AskedAndBound(c: Config, s: Sys, a: Action, n: nat, k: Key) {
    && Enabled(c, s, a) && a.Receive? && (a.kind.Bind? || a.kind.Extend?)
    && n < |a.ias| && a.ias[n].key == k && Once(a.ias, k)
    && Says(c, s, a)[n].answer.Bound? && Unix(a.end) < Says(c, s, a)[n].answer.until
  }

  /** The n-th answer of a message, and where its IA leaves the pool. */
  lemma {:induction false} NthAnswer(
      c: Config, p: Pool, kind: Kind, ias: seq<IA>, hostname: string, now: Time, envs: seq<Env>, n: nat)
    requires |envs| == |ias| && n < |ias|
    ensures var q := AnswerAll(c, p, kind, ias[..n], hostname, now, envs[..n]).0;
      var (r, answer) := AnswerIA(c, q, kind, ias[n], hostname, now, envs[n]);
      && AnswerAll(c, p, kind, ias[..n + 1], hostname, now, envs[..n + 1]).0 == r
      && AnswerAll(c, p, kind, ias, hostname, now, envs).1[n] == Answered(ias[n].key, answer, |q.pending|, |r.pending|)
    decreases |ias|
  {
    hide AnswerIA, AnswerAll;
    AnswerAllSteps(c, p, kind, ias, hostname, now, envs);
    var m := |ias| - 1;
    if n == m {
      assert ias[..n + 1] == ias && envs[..n + 1] == envs;
    } else {
      NthAnswer(c, p, kind, ias[..m], hostname, now, envs[..m], n);
      assert ias[..m][..n] == ias[..n] && envs[..m][..n] == envs[..n];
      assert ias[..m][..n + 1] == ias[..n + 1] && envs[..m][..n + 1] == envs[..n + 1];
    }
  }

  /** What a message has done by its n-th IA: the state is sound, and what it queued is its own. */
  lemma UptoIs(c: Config, s: Sys, a: Action, n: nat) returns (ops: seq<Op>)
    requires Consistent(c, s) && Tickets(s) && Enabled(c, s, a) && a.Receive? && n <= |a.ias|
    ensures var t, u := Entered(s, a), Upto(c, s, a, n);
      && Partition(c, t.pool) && Tickets(t) && LegalAmong(c, t.pool, ops, Voices(a.kind, a.ias[..n], 0), a.end)
      && u == At(t, DoAll(t.pool, ops)) && Partition(c, u.pool) && Tickets(u) && Head(u) == Head(s)
    ensures forall j :: 0 <= j < |Upto(c, s, a, n).pool.pending| ==>
      s.pool.tickets <= Upto(c, s, a, n).pool.pending[j].ticket < Upto(c, s, a, n).pool.tickets
  {
    hide Partition, Bounded, Tickets, AnswerAll, WalksAll, Legal, Do;
    var t := Entered(s, a);
    RoomIsOutside(c, s.pool, t.pool);
    RoomBounds(c, s.pool, a.room, s.started);
    EnteredSame(s, a);
    var ias, envs := a.ias[..n], a.envs[..n];
    WalksPrefix(c, t.pool, a.kind, a.ias, a.hostname, a.now, a.envs, n);
    ops := MessageTrace(c, t.pool, a.kind, ias, a.hostname, a.now, envs, 0, a.end, s.started);
    NothingYet(c, t.pool, a.kind, ias, a.hostname, a.now, envs);
    DoAllTickets(c, t, ops, Voices(a.kind, ias, 0), a.end);
    AmongKeepsPartition(c, t.pool, ops, Voices(a.kind, ias, 0), a.end);
  }

  lemma UptoGood(c: Config, s: Sys, a: Action, n: nat, k: Key)
    requires Good(c, s, k) && Consistent(c, s) && AskedAndBound(c, s, a, n, k)
    ensures Good(c, Upto(c, s, a, n), k)
  {
    hide Good, Partition, Bounded, AnswerAll, WalksAll, Guard, Midway;
    var t := Entered(s, a);
    LaterGood(c, s, a.end, a.room, k);
    RoomBounds(c, s.pool, a.room, s.started);
    var ias, envs := a.ias[..n], a.envs[..n];
    WalksPrefix(c, t.pool, a.kind, a.ias, a.hostname, a.now, a.envs, n);
    NotYetNamed(a.ias, n, k);
    MessageMidway(c, t, k, a.kind, ias, a.hostname, a.now, envs);
    MidwayIsGood(c, Upto(c, s, a, n), k, AnswerAll(c, t.pool, a.kind, ias, a.hostname, a.now, envs).1);
  }

  lemma MidwayIsGood(c: Config, s: Sys, k: Key, answers: seq<Answered>)
    requires Midway(c, s, k, answers)
    ensures Good(c, s, k)
  {
  }

  lemma NotYetNamed(ias: seq<IA>, n: nat, k: Key)
    requires n < |ias| && ias[n].key == k && Once(ias, k)
    ensures k !in KeysOf(ias[..n]) && Once(ias[..n], k)
    ensures forall i :: 0 <= i < |ias| && i != n ==> ias[i].key != k
  {
    forall i | 0 <= i < n ensures KeysOf(ias[..n])[i] != k {
      assert ias[..n][i] == ias[i];
    }
  }

  /** The rest of the message: a trace of others' changes, and then the caller waits. */
  lemma RestOf(c: Config, s: Sys, a: Action, n: nat, k: Key) returns (ops: seq<Op>)
    requires Consistent(c, s) && Tickets(s) && AskedAndBound(c, s, a, n, k)
    ensures var u := Upto(c, s, a, n + 1);
      && LegalAmong(c, u.pool, ops, Voices(a.kind, a.ias, n + 1), a.end)
      && Next(c, s, a) == Park(At(u, DoAll(u.pool, ops)), a.cid, KeysOf(a.ias), Says(c, s, a))
    ensures Asks(k) !in Voices(a.kind, a.ias, n + 1) && Yields(k) !in Voices(a.kind, a.ias, n + 1)
  {
    hide Partition, Bounded, AnswerAll, WalksAll, Legal, Do;
    var t := Entered(s, a);
    RoomIsOutside(c, s.pool, t.pool);
    RoomBounds(c, s.pool, a.room, s.started);
    ops := MessageTrace(c, t.pool, a.kind, a.ias, a.hostname, a.now, a.envs, n + 1, a.end, s.started);
    NotYetNamed(a.ias, n, k);
  }

  lemma DoAllPledged(c: Config, s: Sys, k: Key, ip: Addr, until: int, a: Answered, ops: seq<Op>, all: set<Speaker>)
    requires Partition(c, s.pool) && Tickets(s) && Pledged(s, k, ip, until, a, s.pool.pending)
    requires LegalAmong(c, s.pool, ops, all, s.clock) && Yields(k) !in all && Unix(s.clock) < until
    ensures Pledged(At(s, DoAll(s.pool, ops)), k, ip, until, a, DoAll(s.pool, ops).pending)
    ensures Tickets(At(s, DoAll(s.pool, ops)))
  {
    hide Partition, Tickets, Promised, Kept, LegalAmong;
    DoAllTickets(c, s, ops, all, s.clock);
    var q := DoAll(s.pool, ops);
    if Kept(s, k, ip, until) {
      DoAllKept(c, s, k, ip, until, ops, all, s.clock);
    } else {
      var j :| a.from <= j < a.to && j < |s.pool.pending| &&
        (Promised(s, k, ip, until, s.pool.pending[j]) || Lost(s, s.pool.pending[j]));
      assert q.pending[j] == s.pool.pending[j];
      if Promised(s, k, ip, until, s.pool.pending[j]) {
        DoAllPromised(c, s, k, ip, until, s.pool.pending[j], ops, all, s.clock);
      }
    }
  }

  lemma ParkPledged(
      s: Sys, cid: nat, keys: seq<Key>, answers: seq<Answered>, k: Key, ip: Addr, until: int, a: Answered)
    requires Tickets(s) && Pledged(s, k, ip, until, a, s.pool.pending) && cid !in s.calls
    ensures Pledged(Park(s, cid, keys, answers), k, ip, until, a, s.pool.pending)
  {
    hide Tickets, Promised, Kept;
    if Kept(s, k, ip, until) {
      ParkKept(s, cid, keys, answers, k, ip, until);
    } else {
      var j :| a.from <= j < a.to && j < |s.pool.pending| &&
        (Promised(s, k, ip, until, s.pool.pending[j]) || Lost(s, s.pool.pending[j]));
      if Promised(s, k, ip, until, s.pool.pending[j]) {
        ParkPromised(s, cid, keys, answers, k, ip, until, s.pool.pending[j]);
      }
    }
  }

  lemma NthSays(c: Config, s: Sys, a: Action, n: nat, k: Key)
    requires AskedAndBound(c, s, a, n, k)
    ensures var u := Upto(c, s, a, n);
      var (r, answer) := AnswerIA(c, u.pool, a.kind, a.ias[n], a.hostname, a.now, a.envs[n]);
      && Upto(c, s, a, n + 1) == At(u, r)
      && Says(c, s, a)[n] == Answered(k, answer, |u.pool.pending|, |r.pending|)
      && answer.until == Unix(a.now + c.leaseTime) && Unix(a.now) < answer.until
  {
    hide AnswerAll, RenewKnown, AllocateLease;
    NthAnswer(c, Entered(s, a).pool, a.kind, a.ias, a.hostname, a.now, a.envs, n);
    SecondsPass(a.now, a.end);
  }

  /**
   In every state there is, whatever the clients did before and however many stores are
   undecided: a reply whose message found the binding safeguarded can be depended on.
   */
  lemma SafeguardedReply(c: Config, s: Sys, a: Action, n: nat, k: Key)
    requires Consistent(c, s) && Tickets(s) && AskedAndBound(c, s, a, n, k)
    requires Safeguarded(c, Upto(c, s, a, n), k, a.now)
    ensures AlwaysDependable(c, Next(c, s, a), a.cid, n, k)
  {
    hide Partition, Tickets, AnswerAll, AnswerIA, Pledged, Safeguarded, AlwaysDependable, Consistent;
    NthSays(c, s, a, n, k);
    var u, says := Upto(c, s, a, n), Says(c, s, a)[n];
    var earlier := UptoIs(c, s, a, n);
    WalksPrefix(c, Entered(s, a).pool, a.kind, a.ias, a.hostname, a.now, a.envs, n);
    var until := AskPledged(c, u, k, a.kind, a.ias[n], a.hostname, a.now, a.envs[n]);
    var before := UptoIs(c, s, a, n + 1);
    var v := Upto(c, s, a, n + 1);
    var ops := RestOf(c, s, a, n, k);
    DoAllPledged(c, v, k, says.answer.ip, until, says, ops, Voices(a.kind, a.ias, n + 1));
    ParkPledged(At(v, DoAll(v.pool, ops)), a.cid, KeysOf(a.ias), Says(c, s, a), k, says.answer.ip, until, says);
    StepKeepsConsistent(c, s, a);
    StepTickets(c, s, a);
    PledgedIsDependable(c, Next(c, s, a), a.cid, n, k, until);
  }

  lemma SafeReply(c: Config, s: Sys, a: Action, n: nat, k: Key)
    requires Good(c, s, k) && Consistent(c, s) && AskedAndBound(c, s, a, n, k)
    requires Safely(c, Upto(c, s, a, n), k, a.now)
    ensures AlwaysDependable(c, Next(c, s, a), a.cid, n, k)
  {
    hide Good, Tickets, Safely, AlwaysDependable, Consistent, Safeguarded, Says, AnswerAll;
    GoodHasTickets(c, s, k);
    NthSays(c, s, a, n, k);
    UptoGood(c, s, a, n, k);
    SafelyIsSafeguarded(c, Upto(c, s, a, n), k, a.now);
    SafeguardedReply(c, s, a, n, k);
  }

  // ----- an unsafe message ----------------------------------------------------------------------------

  /** The undo of the undecided `pw` takes the record away, or cuts it below `until`, unless the store lands. */
  ghost predicate Doomed(s: Sys, k: Key, until: int, pw: Pending, mine: seq<Pending>) {
    && Unsure(s, pw) && k in s.pool.table && s.pool.table[k].row.expires >= until
    && Concerns(pw.undo, k, s.pool.table[k].id)
    && (pw.undo.Shorten? ==> pw.undo.extended == s.pool.table[k].row.expires && pw.undo.was.expires < until)
    && (forall pv :: Unsure(s, pv) && Concerns(pv.undo, k, s.pool.table[k].id) ==> pv == pw || pv in mine)
  }

  lemma DoDoomed(c: Config, s: Sys, k: Key, until: int, pw: Pending, op: Op, m: Speaker, t: Time)
    requires Partition(c, s.pool) && Tickets(s) && Doomed(s, k, until, pw, s.pool.pending)
    requires Legal(c, s.pool, op, m, t) && m != Asks(k) && m != Yields(k) && Unix(t) < until
    ensures var q := Do(s.pool, op); Doomed(At(s, q), k, until, pw, q.pending)
  {
    hide Partition, Tickets, Unsure;
    var p, q := s.pool, Do(s.pool, op);
    DoShape(c, p, op, m, t);
    if Aside(op) {
      UnsureSame(s, q);
    } else {
      UnsureGrows(s, q, WriteOf(p, op), UndoOf(p, op));
      DoElsewhere(p, op, k);
    }
  }

  lemma {:induction false} DoAllDoomed(
      c: Config, s: Sys, k: Key, until: int, pw: Pending, ops: seq<Op>, all: set<Speaker>, t: Time)
    requires Partition(c, s.pool) && Tickets(s) && Doomed(s, k, until, pw, s.pool.pending)
    requires LegalAmong(c, s.pool, ops, all, t) && Asks(k) !in all && Yields(k) !in all && Unix(t) < until
    ensures var q := DoAll(s.pool, ops); Doomed(At(s, q), k, until, pw, q.pending)
  {
    hide Partition, Tickets, Doomed, Do, Legal;
    if ops != [] {
      var init, op := ops[..|ops| - 1], ops[|ops| - 1];
      var p := DoAll(s.pool, init);
      DoAllDoomed(c, s, k, until, pw, init, all, t);
      DoAllTickets(c, s, init, all, t);
      AmongKeepsPartition(c, s.pool, init, all, t);
      var m :| m in all && Legal(c, p, op, m, t);
      DoDoomed(c, At(s, p), k, until, pw, op, m, t);
      assert At(At(s, p), Do(p, op)) == At(s, DoAll(s.pool, ops));
    } else {
      assert At(s, s.pool) == s;
    }
  }

  lemma ParkDoomed(s: Sys, cid: nat, keys: seq<Key>, answers: seq<Answered>, k: Key, until: int, pw: Pending)
    requires Doomed(s, k, until, pw, s.pool.pending) && cid !in s.calls
    ensures Doomed(Park(s, cid, keys, answers), k, until, pw, s.pool.pending)
  {
    ParkOut(s, cid, keys, answers);
  }

  lemma RenewedDoomed(s: Sys, k: Key, row: Row, until: int, pw: Pending)
    requires Tickets(s) && Accounted(s, k) && k in s.pool.table && s.pool.table[k].id < s.pool.ids && until <= row.expires
    requires Unsure(s, pw) && Concerns(pw.undo, k, s.pool.table[k].id)
    requires pw.undo.Shorten? ==> pw.undo.extended == row.expires && pw.undo.was.expires < until
    ensures var q := Renewed(s.pool, k, row); Doomed(At(s, q), k, until, pw, q.pending)
  {
    hide Tickets, Unsure;
    var r, q := s.pool.table[k], Renewed(s.pool, k, row);
    var u := Shorten(k, r.id, row.expires, r.row);
    assert Queues(s.pool, q, Store(k, r.ip, row), u);
    UnsureGrows(s, q, Store(k, r.ip, row), u);
    assert q.pending[|q.pending| - 1] == Pending(s.pool.tickets, u);
  }

  /** The IA of an unsafe message leaves the binding at the mercy of the undecided store. */
  lemma AskDoomed(c: Config, s: Sys, k: Key, kind: Kind, ia: IA, hostname: string, now: Time, env: Env)
    returns (pw: Pending)
    requires Good(c, s, k) && (kind.Bind? || kind.Extend?) && ia.key == k && !Safely(c, s, k, now)
    requires Unix(now) < Unix(now + c.leaseTime) && AnswerIA(c, s.pool, kind, ia, hostname, now, env).1.Bound?
    ensures var (q, answer) := AnswerIA(c, s.pool, kind, ia, hostname, now, env);
      && Unsure(s, pw) && answer.until == Unix(now + c.leaseTime) && Doomed(At(s, q), k, answer.until, pw, q.pending)
      && k in q.table && q.table[k].ip == answer.ip
  {
    hide Partition, Tickets, CallsOk, Unsure, AnswerIA, LetGo, Lasting;
    var r, until, expires := s.pool.table[k], Unix(now + c.leaseTime), Rounded(now + c.leaseTime);
    pw :| Unsure(s, pw) && Concerns(pw.undo, k, r.id) && !Lasts(pw.undo, until)
      && (Lasting(c, r, now) || !Outrun(pw.undo, expires));
    if Lasting(c, r, now) {
      AnsweredAtOnce(c, s.pool, kind, ia, hostname, now, env);
      assert Backed(s, k, r, pw);
      assert At(s, s.pool) == s;
    } else {
      var p' := Renews(c, s.pool, k, kind, ia, hostname, now, env);
      SecondsReached(now + c.leaseTime, r.row.expires);
      RefusedSame(c, s);
      IdIsOld(c, s.pool, k);
      assert At(s, s.pool) == s;
      var t := At(s, p');
      SameAccounted(s, t, k);
      RenewedDoomed(t, k, Row(expires, hostname), until, pw);
      assert At(t, Renewed(p', k, Row(expires, hostname))) == At(s, Renewed(p', k, Row(expires, hostname)));
    }
  }

  /** What is undecided about a binding that a trace does not speak for was so before. */
  lemma {:induction false} UndecidedBefore(c: Config, s: Sys, ops: seq<Op>, all: set<Speaker>, t: Time, k: Key, pw: Pending)
    requires Partition(c, s.pool) && Tickets(s) && LegalAmong(c, s.pool, ops, all, t) && Asks(k) !in all
    requires Unsure(At(s, DoAll(s.pool, ops)), pw) && !pw.undo.Nothing? && pw.undo.key == k
    ensures Unsure(s, pw)
  {
    hide Partition, Tickets, Unsure, Do;
    if ops != [] {
      var init, op := ops[..|ops| - 1], ops[|ops| - 1];
      var p := DoAll(s.pool, init);
      DoAllTickets(c, s, init, all, t);
      AmongKeepsPartition(c, s.pool, init, all, t);
      var m :| m in all && Legal(c, p, op, m, t);
      DoShape(c, p, op, m, t);
      assert At(At(s, p), Do(p, op)) == At(s, DoAll(s.pool, ops));
      if Aside(op) {
        UnsureSame(At(s, p), Do(p, op));
      } else {
        UnsureGrows(At(s, p), Do(p, op), WriteOf(p, op), UndoOf(p, op));
      }
      UndecidedBefore(c, s, init, all, t, k, pw);
    } else {
      assert At(s, s.pool) == s;
    }
  }

  /** A message under way whose reply the client cannot depend on: another caller waits for the store that decides. */
  ghost predicate Exposed(s: Sys, cid: nat, did: nat, k: Key, until: int, pw: Pending) {
    && cid in s.calls && did in s.calls && did != cid && pw in s.calls[did].pending
    && Doomed(s, k, until, pw, s.calls[cid].pending)
    && (forall j :: 0 <= j < |s.calls[cid].pending| ==>
          pw.ticket < s.calls[cid].pending[j].ticket && Head(s) <= s.calls[cid].pending[j].ticket)
  }

  function Awaits(call: Call): set<nat> {
    set i | 0 <= i < |call.pending| :: call.pending[i].ticket
  }

  /** Only the caller's own changes land. It replies, and the other caller's undo comes after. */
  lemma ExposedDrained(c: Config, s: Sys, cid: nat, did: nat, k: Key, until: int, pw: Pending)
    requires Tickets(s) && s.pool.pending == [] && Exposed(s, cid, did, k, until, pw)
    ensures var d := Drain(c, s, Awaits(s.calls[cid]));
      && Tickets(d) && d.pool.queue == [] && d.pool.pending == [] && d.calls == s.calls && d.clock == s.clock
      && d.pool.table == s.pool.table
      && Doomed(d, k, until, pw, []) && Failed(d.done, s.calls[cid].pending) == []
      && (forall j :: 0 <= j < |s.calls[cid].pending| ==>
            s.calls[cid].pending[j].ticket in d.done && d.done[s.calls[cid].pending[j].ticket])
  {
    hide Unsure, Drain, Failed;
    var call := s.calls[cid];
    var d := Drain(c, s, Awaits(call));
    DrainLeaves(c, s, Awaits(call));
    forall j | 0 <= j < |call.pending|
      ensures call.pending[j].ticket in d.done && d.done[call.pending[j].ticket] && !Unsure(d, call.pending[j])
    {
      assert Out(s, call.pending[j]);
      assert call.pending[j].ticket in Awaits(call);
      Landed(d, call.pending[j]);
    }
    NoneFailed(d.done, call.pending);
  }

  lemma Landed(s: Sys, pw: Pending)
    requires pw.ticket in s.done && s.done[pw.ticket]
    ensures !Unsure(s, pw)
  {
  }

  lemma {:induction false} NoneFailed(done: map<nat, bool>, pending: seq<Pending>)
    requires forall j :: 0 <= j < |pending| ==> pending[j].ticket in done && done[pending[j].ticket]
    ensures Failed(done, pending) == []
  {
    if pending != [] {
      NoneFailed(done, pending[..|pending| - 1]);
    }
  }

  /** The other caller's undo runs: the client loses the binding, or what it was told of it. */
  lemma DoomedIsUndependable(c: Config, s: Sys, did: nat, k: Key, ip: Addr, until: int, pw: Pending)
    requires Consistent(c, s) && Tickets(s) && s.pool.queue == [] && did in s.calls && pw in s.calls[did].pending
    requires Doomed(s, k, until, pw, []) && Unix(s.clock) < until
    ensures !Dependable(c, s, k, ip, until)
  {
    hide Run, Final, Unsure, Next, Enabled, Consistent, Tickets, RunUndos, Failed, Settled;
    NothingPending(c, s);
    if pw.undo.DropUnwritten? {
      UnwrittenIsUndependable(c, s, k, ip, until, pw);
    } else {
      var undos := Failed(s.done, s.calls[did].pending);
      DrainedCanSettle(c, s, did);
      forall u | u in undos && Concerns(u, k, s.pool.table[k].id) ensures u == pw.undo {
        RunningUndo(s, did, u);
      }
      UndoRuns(c, s, did, pw);
      UndosHere(s.pool, undos, k, pw.undo, s.pool.table[k]);
      var last := Settle(did, s.clock);
      OneStep(c, s, last);
      SettleClock(c, s, did, s.clock);
      assert NoRestart([last]) && NeverGivesUp([last], k);
    }
  }

  lemma UndoRuns(c: Config, s: Sys, did: nat, pw: Pending)
    requires Enabled(c, s, Settle(did, s.clock)) && pw in s.calls[did].pending && Unsure(s, pw)
    ensures pw.undo in Failed(s.done, s.calls[did].pending)
    ensures Next(c, s, Settle(did, s.clock)).pool == RunUndos(s.pool, Failed(s.done, s.calls[did].pending))
  {
    UndoneAfter(s, did, pw);
  }

  lemma ExposedReply(c: Config, s: Sys, cid: nat, did: nat, i: nat, k: Key, pw: Pending)
    requires Consistent(c, s) && Tickets(s) && cid in s.calls && i < |s.calls[cid].answers|
    requires var a := s.calls[cid].answers[i].answer;
      a.Bound? && Unix(s.clock) < a.until && Exposed(s, cid, did, k, a.until, pw)
    ensures !AlwaysDependable(c, s, cid, i, k)
  {
    hide Run, Final, Tickets, Consistent, Dependable, Drain, Drains, Failed, Doomed, RunUndos;
    var call := s.calls[cid];
    var told, lands := call.answers[i].answer, Awaits(call);
    var d := Drain(c, s, lands);
    NothingPending(c, s);
    ExposedDrained(c, s, cid, did, k, told.until, pw);
    DrainedCanSettle(c, d, cid);
    assert Run(c, d, []) && Final(c, d, []) == d by { NoRun(c, d); }
    DrainRuns(c, s, lands, []);
    var actions := Drains(s.pool.queue, lands) + [];
    DrainsOnlyWrite(s.pool.queue, lands);
    RunsKeepThePartition(c, s, actions);
    StepKeepsConsistent(c, d, Settle(cid, d.clock));
    StepTickets(c, d, Settle(cid, d.clock));
    NoUndos(d.pool);
    var e := Next(c, d, Settle(cid, d.clock));
    assert e == d.(calls := d.calls - {cid});
    StillDoomed(d, e, cid, did, k, told.until, pw);
    DoomedIsUndependable(c, e, did, k, told.ip, told.until, pw);
    assert Tells(c, Final(c, s, actions), cid, i, d.clock);
  }

  lemma NoRun(c: Config, s: Sys)
    ensures Run(c, s, []) && Final(c, s, []) == s
  {
  }

  lemma StillDoomed(s: Sys, e: Sys, cid: nat, did: nat, k: Key, until: int, pw: Pending)
    requires Doomed(s, k, until, pw, []) && did in s.calls && did != cid && pw in s.calls[did].pending
    requires s.pool.pending == [] && e == s.(calls := s.calls - {cid})
    ensures Doomed(e, k, until, pw, []) && did in e.calls && e.calls[did] == s.calls[did]
  {
    assert forall pv :: Out(e, pv) ==> Out(s, pv);
    assert did in e.calls && Out(e, pw);
  }

  lemma UnsafeReply(c: Config, s: Sys, a: Action, n: nat, k: Key)
    requires Good(c, s, k) && Consistent(c, s) && AskedAndBound(c, s, a, n, k)
    requires !Safely(c, Upto(c, s, a, n), k, a.now)
    ensures !AlwaysDependable(c, Next(c, s, a), a.cid, n, k)
  {
    hide Good, Partition, Tickets, AnswerAll, AnswerIA, Safely, AlwaysDependable, Consistent, Unsure, Voices;
    GoodHasTickets(c, s, k);
    NthSays(c, s, a, n, k);
    UptoGood(c, s, a, n, k);
    var t, u, says := Entered(s, a), Upto(c, s, a, n), Says(c, s, a)[n];
    var pw := AskDoomed(c, u, k, a.kind, a.ias[n], a.hostname, a.now, a.envs[n]);
    var did := OlderCaller(c, s, a, n, k, pw);
    var before := UptoIs(c, s, a, n + 1);
    var v := Upto(c, s, a, n + 1);
    var ops := RestOf(c, s, a, n, k);
    DoAllDoomed(c, v, k, says.answer.until, pw, ops, Voices(a.kind, a.ias, n + 1), a.end);
    var e := At(v, DoAll(v.pool, ops));
    ParkDoomed(e, a.cid, KeysOf(a.ias), Says(c, s, a), k, says.answer.until, pw);
    StepKeepsConsistent(c, s, a);
    StepTickets(c, s, a);
    OwnTickets(c, s, a, pw);
    ExposedReply(c, Next(c, s, a), a.cid, did, n, k, pw);
  }

  /** The undecided store an unsafe message meets is another caller's. */
  lemma OlderCaller(c: Config, s: Sys, a: Action, n: nat, k: Key, pw: Pending) returns (did: nat)
    requires Consistent(c, s) && Tickets(s) && AskedAndBound(c, s, a, n, k)
    requires Unsure(Upto(c, s, a, n), pw) && !pw.undo.Nothing? && pw.undo.key == k
    ensures did in s.calls && pw in s.calls[did].pending && did != a.cid && pw.ticket < s.pool.tickets
  {
    hide Tickets, Unsure, Partition, AnswerAll;
    var t := Entered(s, a);
    var ops := UptoIs(c, s, a, n);
    NotYetNamed(a.ias, n, k);
    assert Asks(k) !in Voices(a.kind, a.ias[..n], 0);
    UndecidedBefore(c, t, ops, Voices(a.kind, a.ias[..n], 0), a.end, k, pw);
    EnteredSame(s, a);
    UnsureIsOut(s, pw);
    did :| did in s.calls && pw in s.calls[did].pending;
    OldTicket(s, pw);
  }

  lemma OldTicket(s: Sys, pw: Pending)
    requires Tickets(s) && Out(s, pw)
    ensures pw.ticket < s.pool.tickets
  {
  }

  lemma OwnTickets(c: Config, s: Sys, a: Action, pw: Pending)
    requires Consistent(c, s) && Tickets(s) && Enabled(c, s, a) && a.Receive?
    requires pw.ticket < s.pool.tickets
    ensures var e := Next(c, s, a);
      && (forall j :: 0 <= j < |e.calls[a.cid].pending| ==>
            pw.ticket < e.calls[a.cid].pending[j].ticket && Head(e) <= e.calls[a.cid].pending[j].ticket)
      && (forall cid :: cid in s.calls ==> cid in e.calls && e.calls[cid] == s.calls[cid])
  {
    hide Tickets, AnswerAll;
    assert a.ias[..|a.ias|] == a.ias && a.envs[..|a.ias|] == a.envs;
    var ops := UptoIs(c, s, a, |a.ias|);
  }

  /** The guard of a considerate client is safe; the converse fails where a renewal outruns another. */
  lemma GuardIsSafe(c: Config, s: Sys, k: Key, kind: Kind, now: Time)
    requires Guard(c, s, k, kind, now) && (kind.Bind? || kind.Extend?)
    ensures Safely(c, s, k, now)
  {
  }

  /**
   The exact condition. A message taken up in an accounted state, whatever stores are
   undecided, asks for a binding and is answered with an address: whenever its reply goes
   out the client can depend on it, if and only if the message came safely.
   */
  lemma DependableExactlyWhenSafe(c: Config, s: Sys, a: Action, n: nat, k: Key)
    requires Good(c, s, k) && Consistent(c, s) && AskedAndBound(c, s, a, n, k)
    ensures AlwaysDependable(c, Next(c, s, a), a.cid, n, k) <==> Safely(c, Upto(c, s, a, n), k, a.now)
  {
    hide Good, Consistent, AlwaysDependable, Safely;
    if Safely(c, Upto(c, s, a, n), k, a.now) {
      SafeReply(c, s, a, n, k);
    } else {
      UnsafeReply(c, s, a, n, k);
    }
  }
}
