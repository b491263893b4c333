/**
 What becomes of the jobs handed to the worker: which releases are queued, in what order
 jobs are begun, what a withdrawal rests on, and which reverse records are written.
 */
module DdnsReleases {
  import opened Octets
  import opened DdnsUpdate
  import opened DdnsOwners
  import opened DdnsWorker

  // ----- which releases become withdrawals --------------------------------------------------

  /** The last update the server acknowledged for the name was this client's claim, of all these addresses and more. */
  ghost predicate Wrote(acked: seq<Job>, j: Job) {
    var i := LastFor(acked, j.name);
    i >= 0 && !acked[i].remove && acked[i].dhcid == j.dhcid && forall a :: a in j.addrs ==> a in acked[i].addrs
  }

  /**
   A release joins the queue, at its end, if and only if there is room, the name is still
   registered, and its last acknowledged update was a claim with the release's DHCID that
   covers every address released. Otherwise nothing changes.
   */
  lemma ReleaseQueuesExactly(c: Config, s: State, steps: seq<Step>, j: Job)
    requires Initial(s) && Run(c, s, steps) && Enabled(c, Final(c, s, steps), Release(j))
    ensures var e := Final(c, s, steps);
      Next(c, e, Release(j)) ==
        if |e.queue| < c.queueLen && j.name in e.register.byName && Wrote(e.acked, j)
        then e.(queue := e.queue + [j]) else e
  {
    hide Lawful, ZoneAgrees, Bookkept, RegisterOf, Initial, LastFor, Run, Final;
    RunsAreGood(c, s, steps);
    RegisterAgrees(Final(c, s, steps).acked, c.max);
  }

  /** The running instance's acknowledged updates are among all there were. */
  ghost predicate Subsumed(s: State) {
    forall j :: j in s.acked ==> j in s.everAcked
  }

  /** Some acknowledged claim of the same client covers the withdrawal. */
  ghost predicate Covered(s: State, j: Job) {
    exists k :: k in s.everAcked && !k.remove && k.name == j.name && k.dhcid == j.dhcid && forall a :: a in j.addrs ==> a in k.addrs
  }

  ghost predicate Withdraws(s: State) {
    && Subsumed(s)
    && (forall i :: 0 <= i < |s.queue| && s.queue[i].remove ==> Covered(s, s.queue[i]))
    && (forall i :: 0 <= i < |s.sent| && s.sent[i].job.remove ==> Covered(s, s.sent[i].job))
    && (!s.phase.Idle? && s.phase.job.remove ==> Covered(s, s.phase.job))
  }

  lemma CoveredGrows(s: State, s': State, j: Job)
    requires Covered(s, j) && s.everAcked <= s'.everAcked
    ensures Covered(s', j)
  {
    var k :| k in s.everAcked && !k.remove && k.name == j.name && k.dhcid == j.dhcid && forall a :: a in j.addrs ==> a in k.addrs;
    var i :| 0 <= i < |s.everAcked| && s.everAcked[i] == k;
    assert s'.everAcked[i] == k;
  }

  lemma EverAckedGrows(c: Config, s: State, step: Step)
    requires Enabled(c, s, step)
    ensures s.everAcked <= Next(c, s, step).everAcked
  {
    hide Process, Wire, Remember;
  }

  lemma WroteIsCovered(s: State, j: Job)
    requires Subsumed(s) && Wrote(s.acked, j)
    ensures Covered(s, j)
  {
    assert s.acked[LastFor(s.acked, j.name)] in s.acked;
  }

  /** Where the jobs of the next state come from. */
  lemma JobsComeFrom(c: Config, s: State, step: Step)
    requires Enabled(c, s, step) && !step.Claim? && !step.Release?
    ensures var s' := Next(c, s, step);
      && (forall i :: 0 <= i < |s'.queue| ==> s'.queue[i] in s.queue)
      && (forall i :: 0 <= i < |s'.sent| ==>
            || (i < |s.sent| && s'.sent[i] == s.sent[i]) || s'.sent[i].job in s.queue
            || (!s.phase.Idle? && s'.sent[i].job == s.phase.job))
      && (!s'.phase.Idle? ==> s'.phase.job in s.queue || (!s.phase.Idle? && s'.phase.job == s.phase.job))
  {
    hide Process, Wire, Remember;
  }

  lemma AckedComeFrom(c: Config, s: State, step: Step)
    requires Enabled(c, s, step) && Subsumed(s)
    ensures Subsumed(Next(c, s, step))
  {
    hide Process, Wire, Remember;
  }

  lemma StepWithdraws(c: Config, start: Zone, s: State, step: Step)
    requires Good(c, start, s) && Withdraws(s) && Enabled(c, s, step)
    ensures Withdraws(Next(c, s, step))
  {
    hide Covered, Subsumed, Wrote, Bookkept, ZoneAgrees, Lawful, Next, Enabled;
    var s' := Next(c, s, step);
    EverAckedGrows(c, s, step);
    AckedComeFrom(c, s, step);
    forall j | Covered(s, j) ensures Covered(s', j) {
      CoveredGrows(s, s', j);
    }
    if step.Claim? || step.Release? {
      QueueComesFrom(c, start, s, step);
    } else {
      JobsComeFrom(c, s, step);
    }
  }

  lemma QueueComesFrom(c: Config, start: Zone, s: State, step: Step)
    requires Good(c, start, s) && Withdraws(s) && Enabled(c, s, step) && (step.Claim? || step.Release?)
    ensures var s' := Next(c, s, step);
      && s'.sent == s.sent && s'.phase == s.phase
      && forall i :: 0 <= i < |s'.queue| && s'.queue[i].remove ==> Covered(s, s'.queue[i])
  {
    hide Covered, Subsumed, Bookkept, ZoneAgrees, Lawful, RegisterOf, LastFor;
    if step.Release? && Holds(s.register, step.job.name, step.job.dhcid, step.job.addrs) {
      RegisterAgrees(s.acked, c.max);
      WroteIsCovered(s, step.job);
    }
  }

  lemma {:induction false} RunsWithdraw(c: Config, s: State, steps: seq<Step>)
    requires Initial(s) && Run(c, s, steps)
    ensures Withdraws(Final(c, s, steps))
  {
    hide Next, Enabled, Good;
    if steps != [] {
      var init := steps[..|steps| - 1];
      RunsWithdraw(c, s, init);
      RunsAreGood(c, s, init);
      StepWithdraws(c, s.zone, Final(c, s, init), steps[|steps| - 1]);
    }
  }

  /**
   Over any run, restarts included: nothing is ever sent to withdraw a name but for a
   client whose own claim of it, covering all the addresses, the server acknowledged before.
   */
  lemma EveryWithdrawalIsCovered(c: Config, s: State, steps: seq<Step>, id: nat)
    requires Initial(s) && Run(c, s, steps) && id < |Final(c, s, steps).sent| && Final(c, s, steps).sent[id].job.remove
    ensures Covered(Final(c, s, steps), Final(c, s, steps).sent[id].job)
  {
    hide Run, Final;
    RunsWithdraw(c, s, steps);
  }

  // ----- in the order they were queued ----------------------------------------------------------

  /** The jobs accepted since the process came up, in order. */
  ghost function Accepted(c: Config, s: State, steps: seq<Step>): seq<Job>
    requires Run(c, s, steps)
  {
    if steps == [] then [] else
    var n := |steps| - 1;
    var before, after, jobs := Final(c, s, steps[..n]), Final(c, s, steps), Accepted(c, s, steps[..n]);
    if steps[n].Restart? then []
    else if (steps[n].Claim? || steps[n].Release?) && |after.queue| > |before.queue| then jobs + [steps[n].job] else jobs
  }

  /** The jobs begun since then. */
  ghost function Begun(c: Config, s: State, steps: seq<Step>): seq<Job>
    requires Run(c, s, steps)
  {
    if steps == [] then [] else
    var n := |steps| - 1;
    if steps[n].Restart? then []
    else if steps[n].Begin? then Begun(c, s, steps[..n]) + [Final(c, s, steps).phase.job] else Begun(c, s, steps[..n])
  }

  lemma StepQueues(c: Config, s: State, step: Step)
    requires Enabled(c, s, step)
    ensures var q, q' := s.queue, Next(c, s, step).queue;
      && (step.Claim? || step.Release? ==> q' == q || q' == q + [step.job])
      && (step.Claim? ==> q' == if |q| < c.queueLen then q + [step.job] else q)
      && (step.Begin? ==> [Next(c, s, step).phase.job] + q' == q && Next(c, s, step).phase.Waiting?)
      && (step.Restart? ==> q' == [])
      && (!step.Claim? && !step.Release? && !step.Begin? && !step.Restart? ==> q' == q)
  {
    hide Process, Wire, Remember, Holds;
  }

  /** Every job accepted is begun, in the order of acceptance, unless a restart loses it; a full queue refuses. */
  lemma {:induction false} BegunInOrder(c: Config, s: State, steps: seq<Step>)
    requires Initial(s) && Run(c, s, steps)
    ensures Accepted(c, s, steps) == Begun(c, s, steps) + Final(c, s, steps).queue
  {
    hide Next, Enabled;
    if steps != [] {
      var n := |steps| - 1;
      BegunInOrder(c, s, steps[..n]);
      StepQueues(c, Final(c, s, steps[..n]), steps[n]);
    }
  }

  // ----- what is begun, and how ------------------------------------------------------------------

  /** A claim first asks for a free name, a withdrawal as the owner. */
  lemma BeginsRight(c: Config, s: State)
    requires Enabled(c, s, Begin)
    ensures var j, e := s.queue[0], Next(c, s, Begin);
      e.phase.Waiting? && e.sent == s.sent + [Request(j, if j.remove then Withdrawal else Fresh)] && e.phase.id == |s.sent|
  {
  }

  // ----- the reverse zones --------------------------------------------------------------------------

  /** Delivered, a reverse update leaves one PTR to the name, or none, at the address's own name, and nothing else changed. */
  lemma ReverseDelivered(c: Config, z: Zone, r: Request)
    requires WellFormed(c, r) && r.stage.Reverse?
    ensures var (z', code) := Process(z, Wire(c, r));
      var owner := c.ptr[r.job.addrs[r.stage.i]];
      && code == NoError && OnlyAt(z, z', owner, {PTR})
      && RRset(z', owner, PTR) == (if r.job.remove then {} else {c.packed[r.job.name]})
  {
    hide ApplyAll, ReverseChanges;
    var target := if r.job.remove then [] else c.packed[r.job.name];
    ReverseEffect(z, r.job, c.ptr[r.job.addrs[r.stage.i]], target, c.ttl);
  }

  /** The reverse updates a job calls for, address by address. */
  ghost predicate Reversed(c: Config, s: State, j: Job, n: nat) {
    forall i :: 0 <= i < n && i < |j.addrs| && j.addrs[i] in c.ptr && (j.remove || j.name in c.packed) ==>
      Request(j, Reverse(i)) in s.sent
  }

  /** How far the worker is with the reverse zones of its job. */
  ghost predicate Reversing(c: Config, s: State) {
    match s.phase
    case Idle => true
    case Waiting(j, stage, id) => stage.Reverse? ==> Reversed(c, s, j, stage.i + 1)
    case Reversing(j, next) => Reversed(c, s, j, next)
  }

  lemma ReversedGrows(c: Config, s: State, s': State, j: Job, n: nat)
    requires Reversed(c, s, j, n) && s.sent <= s'.sent
    ensures Reversed(c, s', j, n)
  {
    forall r | r in s.sent ensures r in s'.sent {
      var i :| 0 <= i < |s.sent| && s.sent[i] == r;
      assert s'.sent[i] == r;
    }
  }

  lemma SentGrows(c: Config, s: State, step: Step)
    requires Enabled(c, s, step)
    ensures s.sent <= Next(c, s, step).sent
  {
    hide Process, Wire, Remember;
  }

  lemma NextReverses(c: Config, s: State)
    requires Enabled(c, s, NextReverse) && Reversing(c, s)
    ensures Reversing(c, Next(c, s, NextReverse))
  {
    var j, i, s' := s.phase.job, s.phase.next, Next(c, s, NextReverse);
    ReversedGrows(c, s, s', j, i);
    if i < |j.addrs| && Reverses(c, j, i) {
      assert s'.sent[|s.sent|] == Request(j, Reverse(i));
    }
  }

  lemma StepReverses(c: Config, s: State, step: Step)
    requires Enabled(c, s, step) && Reversing(c, s)
    ensures Reversing(c, Next(c, s, step))
  {
    hide Process, Wire, Remember, Holds, Reversed;
    if step.NextReverse? {
      NextReverses(c, s);
    } else {
      SentGrows(c, s, step);
      if s.phase.Waiting? && s.phase.stage.Reverse? {
        ReversedGrows(c, s, Next(c, s, step), s.phase.job, s.phase.stage.i + 1);
      } else if s.phase.Reversing? {
        ReversedGrows(c, s, Next(c, s, step), s.phase.job, s.phase.next);
      }
      if !s.phase.Idle? {
        NoneReversed(c, Next(c, s, step), s.phase.job);
      }
    }
  }

  lemma NoneReversed(c: Config, s: State, j: Job)
    ensures Reversed(c, s, j, 0)
  {
  }

  lemma {:induction false} RunsReverse(c: Config, s: State, steps: seq<Step>)
    requires Initial(s) && Run(c, s, steps)
    ensures Reversing(c, Final(c, s, steps))
  {
    hide Next, Enabled, Reversing;
    if steps != [] {
      RunsReverse(c, s, steps[..|steps| - 1]);
      StepReverses(c, Final(c, s, steps[..|steps| - 1]), steps[|steps| - 1]);
    } else {
      assert Reversing(c, s) by { StartReverses(c, s); }
    }
  }

  lemma StartReverses(c: Config, s: State)
    requires Initial(s)
    ensures Reversing(c, s)
  {
  }

  /**
   Over any run: a worker that is done with an acknowledged job has sent a reverse update
   for every one of its addresses that lies in a configured network, whatever was answered.
   */
  lemma EveryAddressIsReversed(c: Config, s: State, steps: seq<Step>, step: Step)
    requires Initial(s) && Run(c, s, steps) && Enabled(c, Final(c, s, steps), step) && !step.Restart?
    requires var p := Final(c, s, steps).phase; p.Reversing? || (p.Waiting? && p.stage.Reverse?)
    requires Next(c, Final(c, s, steps), step).phase.Idle?
    ensures var e := Final(c, s, steps); Reversed(c, e, e.phase.job, |e.phase.job.addrs|)
  {
    hide Run, Final, Process, Wire, Remember;
    RunsReverse(c, s, steps);
  }

  /** An acknowledged job goes on to its reverse zones, from the first address, and the register has it. */
  lemma AcknowledgedGoesOn(c: Config, s: State)
    requires s.phase.Waiting? && Forward(s.phase.stage) && (s.phase.id, NoError) in s.answers
    ensures var j, e := s.phase.job, Next(c, s, Hear(NoError));
      && e.phase == DdnsWorker.Reversing(j, 0) && e.acked == s.acked + [j] && e.everAcked == s.everAcked + [j]
      && (if j.remove then j.name !in e.register.byName
          else c.max > 0 ==> j.name in e.register.byName && e.register.byName[j.name] == Holding(j.dhcid, j.addrs))
  {
    hide Process, Wire, Dropped;
    if !s.phase.job.remove && c.max > 0 {
      var j := s.phase.job;
      EvictKeepsLast(Register(s.register.byName[j.name := Holding(j.dhcid, j.addrs)], Dropped(s.register.order, j.name) + [j.name]), c.max);
    }
  }

  lemma {:induction false} EvictKeepsLast(r: Register, max: nat)
    requires r.order != [] && max > 0 && r.order[|r.order| - 1] in r.byName
    requires forall i :: 0 <= i < |r.order| - 1 ==> r.order[i] != r.order[|r.order| - 1]
    ensures var n, e := r.order[|r.order| - 1], Evict(r, max); n in e.byName && e.byName[n] == r.byName[n]
    decreases |r.order|
  {
    if |r.order| > max {
      EvictKeepsLast(Register(r.byName - {r.order[0]}, r.order[1..]), max);
    }
  }

  /**
   An answer that is no acknowledgement: a first claim told that the name is taken asks
   again as the owner; anything else ends the job with nothing remembered.
   */
  lemma RefusedGoesNowhere(c: Config, s: State, code: RCode)
    requires s.phase.Waiting? && Forward(s.phase.stage) && (s.phase.id, code) in s.answers && code != NoError
    ensures var j, e := s.phase.job, Next(c, s, Hear(code));
      && e.register == s.register && e.acked == s.acked && e.everAcked == s.everAcked && e.zone == s.zone
      && (if s.phase.stage.Fresh? && (code == YXRRSET || code == NXRRSET)
          then e.sent == s.sent + [Request(j, Owned)] && e.phase == Waiting(j, Owned, |s.sent|)
          else e.sent == s.sent && e.phase == Idle)
  {
    hide Process, Wire, Remember;
  }

  /**
   A restart forgets what was queued and what was written, and nothing at the server: from
   then on no release is taken for anybody until a claim is acknowledged again.
   */
  lemma RestartForgets(c: Config, s: State, j: Job)
    requires Proper(c, j) && j.remove
    ensures var e := Next(c, s, Restart);
      && e.queue == [] && e.phase == Idle && e.zone == s.zone && e.sent == s.sent && e.answers == s.answers
      && Next(c, e, Release(j)) == e
  {
  }

  /** No answer in time: a forward update is given up with nothing remembered, a reverse one passed over. */
  lemma NoAnswerGoesNowhere(c: Config, s: State)
    requires s.phase.Waiting?
    ensures var j, e := s.phase.job, Next(c, s, GiveUp);
      && e == s.(phase := e.phase)
      && e.phase == if s.phase.stage.Reverse? then DdnsWorker.Reversing(j, s.phase.stage.i + 1) else Idle
  {
    hide Process, Wire, Remember;
  }

  /** An instance writes A records for addresses of four octets, or AAAA records for longer ones, and takes no others. */
  lemma FamiliesApart(c: Config, j: Job)
    ensures Proper(c, j) <==> j.addrs != [] && forall a :: a in j.addrs ==> (|a| == 4 <==> !c.v6)
    ensures Family(c) == if c.v6 then AAAA else A
  {
  }
}
