/**
 An address on probation is leased to nobody before its time: over every run, whatever
 the clients do and whatever fails, unless it is let go early as the earliest entry of
 the quarantine.
 */
module LeaseProbation {
  import opened LeaseModel
  import opened LeaseOps
  import opened LeaseSystem
  import opened LeaseTold
  import opened LeaseKept

  /** The address is held back until then. */
  predicate Held(p: Pool, ip: Addr, until: Time) {
    ip in p.declined && p.declined[ip] == until
  }

  /** At some point of the section the address is let go, no entry there ending before it. */
  ghost predicate LetGoIn(p: Pool, ops: seq<Op>, ip: Addr) {
    exists i :: 0 <= i < |ops| && LetGoAt(DoAll(p, ops[..i]), ops[i], ip)
  }

  ghost predicate LetGoAt(p: Pool, op: Op, ip: Addr) {
    op == EndProbation(ip) && ip in p.declined && forall b :: b in p.declined ==> p.declined[ip] <= p.declined[b]
  }

  lemma DoHolds(c: Config, p: Pool, op: Op, m: Speaker, t: Time, ip: Addr, until: Time)
    requires Partition(c, p) && Legal(c, p, op, m, t) && Held(p, ip, until) && t < until
    ensures Held(Do(p, op), ip, until) || LetGoAt(p, op, ip)
  {
    if op.Hold? {
      LeasedHas(p, op.key);
    }
  }

  lemma {:induction false} DoAllHolds(
      c: Config, p: Pool, ops: seq<Op>, all: set<Speaker>, t: Time, ip: Addr, until: Time)
    requires Partition(c, p) && LegalAmong(c, p, ops, all, t) && Held(p, ip, until) && t < until
    ensures Held(DoAll(p, ops), ip, until) || LetGoIn(p, ops, ip)
  {
    hide Partition, Legal, Do, LetGoAt, Held;
    if ops != [] {
      var n := |ops| - 1;
      var init, op := ops[..n], ops[n];
      var q := DoAll(p, init);
      DoAllHolds(c, p, init, all, t, ip, until);
      if Held(q, ip, until) {
        AmongKeepsPartition(c, p, init, all, t);
        var m :| m in all && Legal(c, q, op, m, t);
        DoHolds(c, q, op, m, t, ip, until);
      } else {
        var i :| 0 <= i < |init| && LetGoAt(DoAll(p, init[..i]), init[i], ip);
        assert ops[..i] == init[..i] && ops[i] == init[i];
      }
    }
  }

  /** The section, as a list of elementary changes, lets the address go early. */
  ghost predicate LetGoBy(c: Config, s: Sys, a: Action, ip: Addr)
    requires Enabled(c, s, a)
  {
    (a.Receive? || a.Sweep?) && exists ops ::
      LegalAmong(c, Entered(s, a).pool, ops, Speakers(a), Until(a))
      && DoAll(Entered(s, a).pool, ops) == Next(c, s, a).pool.(pending := DoAll(Entered(s, a).pool, ops).pending)
      && LetGoIn(Entered(s, a).pool, ops, ip)
  }

  ghost predicate LetGoEarly(c: Config, s: Sys, actions: seq<Action>, ip: Addr)
    requires Run(c, s, actions)
    decreases |actions|
  {
    actions != [] && (LetGoBy(c, s, actions[0], ip) || LetGoEarly(c, Next(c, s, actions[0]), actions[1..], ip))
  }

  lemma SectionHolds(c: Config, s: Sys, a: Action, ip: Addr, until: Time)
    requires Consistent(c, s) && Enabled(c, s, a) && (a.Receive? || a.Sweep?) && Held(s.pool, ip, until) && Until(a) < until
    ensures Held(Next(c, s, a).pool, ip, until) || LetGoBy(c, s, a, ip)
  {
    hide Next, Speakers, Partition, Says, Consistent, LetGoIn;
    var ops := SectionTrace(c, s, a);
    DoAllHolds(c, Entered(s, a).pool, ops, Speakers(a), Until(a), ip, until);
  }

  lemma StepHolds(c: Config, s: Sys, a: Action, ip: Addr, until: Time)
    requires Consistent(c, s) && Enabled(c, s, a) && !a.Restart? && Held(s.pool, ip, until) && Next(c, s, a).clock < until
    ensures Held(Next(c, s, a).pool, ip, until) || LetGoBy(c, s, a, ip)
  {
    hide AnswerAll, Reclaim, Consistent, LetGoBy, RunUndos;
    if a.Receive? || a.Sweep? {
      SectionHolds(c, s, a, ip, until);
    } else if a.Settle? {
      UndosTouch(s.pool, Failed(s.done, s.calls[a.cid].pending));
    }
  }

  /**
   Over every run without a restart, as long as the clock has not reached the end of its
   probation: the address is still held back and no client has it, or some section let
   it go early, when no entry of the quarantine would have ended before it.
   */
  lemma {:induction false} ProbationHolds(c: Config, s: Sys, actions: seq<Action>, ip: Addr, until: Time)
    requires Consistent(c, s) && Run(c, s, actions) && NoRestart(actions) && Held(s.pool, ip, until)
    requires Final(c, s, actions).clock < until
    ensures var e := Final(c, s, actions);
      || LetGoEarly(c, s, actions, ip)
      || (Held(e.pool, ip, until) && ip in e.pool.taken && forall k :: k in e.pool.table ==> e.pool.table[k].ip != ip)
    decreases |actions|
  {
    hide Enabled, Next, Consistent, LetGoBy, Held;
    if actions == [] {
      NobodyHas(c, s, ip, until);
    } else {
      var s', rest := Next(c, s, actions[0]), actions[1..];
      ClockGrowsOn(c, s', rest);
      StepKeepsConsistent(c, s, actions[0]);
      StepHolds(c, s, actions[0], ip, until);
      assert forall i :: 0 <= i < |rest| ==> rest[i] == actions[i + 1];
      assert Final(c, s, actions) == Final(c, s', rest);
      if Held(s'.pool, ip, until) {
        ProbationHolds(c, s', rest, ip, until);
      }
    }
  }

  lemma NobodyHas(c: Config, s: Sys, ip: Addr, until: Time)
    requires Consistent(c, s) && Held(s.pool, ip, until)
    ensures ip in s.pool.taken && forall k :: k in s.pool.table ==> s.pool.table[k].ip != ip
  {
    forall k | k in s.pool.table ensures s.pool.table[k].ip != ip {
      LeasedHas(s.pool, k);
    }
  }
}
