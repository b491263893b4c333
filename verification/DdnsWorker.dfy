/**
 One instance of `plugins/ddns` against its name server, over a network that loses,
 repeats and delays: handlers queue jobs, the single worker sends one update at a time
 and reads the answer, and whatever was ever sent may reach the server at any later
 time, any number of times.
 */
module DdnsWorker {
  import opened Octets
  import opened DdnsUpdate
  import opened DdnsOwners

  // ----- requests -------------------------------------------------------------------------

  /** Which update of a job a datagram carries. */
  datatype Stage = Fresh | Owned | Withdrawal | Reverse(i: nat)
  datatype Request = Request(job: Job, stage: Stage)

  /**
   `ptr` gives the PTR name of every address inside a configured reverse network, and
   `packed` the wire form of every name that has one; `DdnsName` says what both are.
   */
  datatype Config = Config(ttl: nat, v6: bool, max: nat, queueLen: nat,
    ptr: map<seq<Byte>, Name>, packed: map<Name, seq<Byte>>)

  // Handlers queue jobs with at least one address, all of the instance's own family.
  predicate Proper(c: Config, j: Job) {
    j.addrs != [] && forall a :: a in j.addrs ==> AddressType(a) == (if c.v6 then AAAA else A)
  }

  function Family(c: Config): RType {
    if c.v6 then AAAA else A
  }

  /** A PTR is written only inside a configured network, and only for a name that packs. */
  predicate Reverses(c: Config, j: Job, i: nat) {
    i < |j.addrs| && j.addrs[i] in c.ptr && (j.remove || j.name in c.packed)
  }

  predicate WellFormed(c: Config, r: Request) {
    && Proper(c, r.job)
    && match r.stage
      case Fresh => !r.job.remove
      case Owned => !r.job.remove
      case Withdrawal => r.job.remove
      case Reverse(i) => Reverses(c, r.job, i)
  }

  function Wire(c: Config, r: Request): Update
    requires WellFormed(c, r)
  {
    match r.stage
    case Fresh => Update(FreshPrereqs(r.job), ClaimChanges(r.job, c.ttl))
    case Owned => Update(OwnedPrereqs(r.job), ClaimChanges(r.job, c.ttl))
    case Withdrawal => Update(OwnedPrereqs(r.job), WithdrawChanges(r.job))
    case Reverse(i) =>
      var target := if r.job.remove then [] else c.packed[r.job.name];
      Update([], ReverseChanges(r.job, c.ptr[r.job.addrs[i]], target, c.ttl))
  }

  // ----- the system -----------------------------------------------------------------------

  datatype Phase =
    | Idle
    | Waiting(job: Job, stage: Stage, id: nat)
    | Reversing(job: Job, next: nat)

  /**
   `sent` is every datagram ever sent, by exchange; `answers` every answer the server
   ever gave. `applied` lists the forward updates the server applied, `acked` those it
   acknowledged to the running instance and `everAcked` those of all its lives.
   */
  datatype State = State(
    zone: Zone, sent: seq<Request>, answers: set<(nat, RCode)>,
    queue: seq<Job>, phase: Phase, register: Register,
    applied: seq<Job>, acked: seq<Job>, everAcked: seq<Job>)

  datatype Step =
    | Claim(job: Job)
    | Release(job: Job)
    | Begin
    | Deliver(id: nat)
    | Refuse(id: nat)
    | Hear(code: RCode)
    | GiveUp
    | NextReverse
    | Restart

  function Forward(stage: Stage): bool {
    !stage.Reverse?
  }

  /** Sends a request and waits for its answer. */
  ghost function Send(s: State, j: Job, stage: Stage): State {
    s.(sent := s.sent + [Request(j, stage)], phase := Waiting(j, stage, |s.sent|))
  }

  /** sendForward and forwardExchange once an answer, or the lack of one, is in. */
  ghost function Answered(c: Config, s: State, code: RCode): State
    requires s.phase.Waiting?
  {
    var j := s.phase.job;
    match s.phase.stage
    case Reverse(i) => s.(phase := Reversing(j, i + 1))
    case Fresh =>
      if code == YXRRSET || code == NXRRSET then Send(s, j, Owned) else Settled(c, s, code)
    case Owned => Settled(c, s, code)
    case Withdrawal => Settled(c, s, code)
  }

  ghost function Settled(c: Config, s: State, code: RCode): State
    requires s.phase.Waiting?
  {
    var j := s.phase.job;
    if code != NoError then s.(phase := Idle)
    else s.(phase := Reversing(j, 0), register := Remember(s.register, c.max, j),
        acked := s.acked + [j], everAcked := s.everAcked + [j])
  }

  ghost predicate Enabled(c: Config, s: State, step: Step) {
    match step
    case Claim(j) => Proper(c, j) && !j.remove
    case Release(j) => Proper(c, j) && j.remove
    case Begin => s.phase.Idle? && s.queue != []
    case Deliver(id) => id < |s.sent| && WellFormed(c, s.sent[id])
    case Refuse(id) => id < |s.sent|
    case Hear(code) => s.phase.Waiting? && (s.phase.id, code) in s.answers
    case GiveUp => s.phase.Waiting?
    case NextReverse => s.phase.Reversing?
    case Restart => true
  }

  ghost function Next(c: Config, s: State, step: Step): State
    requires Enabled(c, s, step)
  {
    match step
    case Claim(j) => if |s.queue| < c.queueLen then s.(queue := s.queue + [j]) else s
    case Release(j) =>
      if Holds(s.register, j.name, j.dhcid, j.addrs) && |s.queue| < c.queueLen
      then s.(queue := s.queue + [j]) else s
    case Begin =>
      var j := s.queue[0];
      Send(s.(queue := s.queue[1..]), j, if j.remove then Withdrawal else Fresh)
    case Deliver(id) =>
      var r := s.sent[id];
      var (zone, code) := Process(s.zone, Wire(c, r));
      s.(zone := zone, answers := s.answers + {(id, code)},
        applied := if Forward(r.stage) && code == NoError then s.applied + [r.job] else s.applied)
    case Refuse(id) => s.(answers := s.answers + {(id, Refused)})
    case Hear(code) => Answered(c, s, code)
    case GiveUp => Answered(c, s, Refused)
    case NextReverse =>
      var j, i := s.phase.job, s.phase.next;
      if i >= |j.addrs| then s.(phase := Idle)
      else if !Reverses(c, j, i) then s.(phase := Reversing(j, i + 1))
      else Send(s, j, Reverse(i))
    case Restart => s.(phase := Idle, queue := [], register := EMPTY, acked := [])
  }

  ghost function Final(c: Config, s: State, steps: seq<Step>): State
    requires Run(c, s, steps)
    decreases |steps|, 1
  {
    if steps == [] then s
    else Next(c, Final(c, s, steps[..|steps| - 1]), steps[|steps| - 1])
  }

  ghost predicate Run(c: Config, s: State, steps: seq<Step>)
    decreases |steps|, 0
  {
    steps == [] ||
    (Run(c, s, steps[..|steps| - 1]) && Enabled(c, Final(c, s, steps[..|steps| - 1]), steps[|steps| - 1]))
  }

  /** A start: nothing sent yet, on any zone, whatever its names carry. */
  ghost predicate Initial(s: State) {
    && s.sent == [] && s.answers == {} && s.queue == [] && s.phase == Idle && s.register == EMPTY
    && s.applied == [] && s.acked == [] && s.everAcked == []
  }

  // ----- what one delivery does to the forward records -----------------------------------------

  ghost predicate SameForward(z: Zone, z': Zone, n: Name) {
    forall t :: t != PTR ==> RRset(z', n, t) == RRset(z, n, t)
  }

  /** The forward records a claim leaves, and a withdrawal. */
  ghost predicate Leaves(c: Config, z: Zone, z': Zone, j: Job) {
    && RRset(z', j.name, Family(c)) == (if j.remove then {} else AddressSet(j))
    && RRset(z', j.name, DHCID) == (if j.remove then {} else {j.dhcid})
    && OnlyAt(z, z', j.name, {Family(c), DHCID})
  }

  predicate Admits(z: Zone, r: Request) {
    match r.stage
    case Fresh => RRset(z, r.job.name, DHCID) == {}
    case Owned => RRset(z, r.job.name, DHCID) == {r.job.dhcid}
    case Withdrawal => RRset(z, r.job.name, DHCID) == {r.job.dhcid}
    case Reverse(_) => true
  }

  /** A forward update is applied exactly when the name is free, or held by its own client. */
  lemma DeliverForward(c: Config, z: Zone, r: Request)
    requires WellFormed(c, r) && Forward(r.stage)
    ensures var (z', code) := Process(z, Wire(c, r));
      && (code == NoError <==> Admits(z, r))
      && (if Admits(z, r) then Leaves(c, z, z', r.job) else z' == z)
  {
    hide ApplyAll, CheckFrom, ClaimChanges, WithdrawChanges;
    assert r.job.addrs[0] in r.job.addrs;
    match r.stage
    case Fresh =>
      FreshCheck(z, r.job);
      ClaimEffect(z, r.job, c.ttl);
    case Owned =>
      OwnedCheck(z, r.job);
      ClaimEffect(z, r.job, c.ttl);
    case Withdrawal =>
      OwnedCheck(z, r.job);
      WithdrawEffect(z, r.job);
  }

  lemma DeliverReverse(c: Config, z: Zone, r: Request)
    requires WellFormed(c, r) && r.stage.Reverse?
    ensures var (z', code) := Process(z, Wire(c, r));
      forall n :: SameForward(z, z', n)
  {
    var target := if r.job.remove then [] else c.packed[r.job.name];
    ReverseEffect(z, r.job, c.ptr[r.job.addrs[r.stage.i]], target, c.ttl);
  }

  // ----- the log of applied updates ---------------------------------------------------------------

  /** Whether a name is held after a log of applied updates, and by which claim. */
  predicate Held(applied: seq<Job>, n: Name) {
    var i := LastFor(applied, n);
    i >= 0 && !applied[i].remove
  }

  function Holder(applied: seq<Job>, n: Name): Job
    requires Held(applied, n)
  {
    applied[LastFor(applied, n)]
  }

  /** The DHCIDs a name carries after a log of applied updates, on a zone it started from. */
  function Carried(start: Zone, applied: seq<Job>, n: Name): set<seq<Byte>> {
    if Held(applied, n) then {Holder(applied, n).dhcid}
    else if LastFor(applied, n) >= 0 then {} else RRset(start, n, DHCID)
  }

  /** A free name is only claimed, one that carries a DHCID only touched by that one client. */
  predicate LawfulNext(start: Zone, applied: seq<Job>, j: Job) {
    Carried(start, applied, j.name) == {j.dhcid} || (Carried(start, applied, j.name) == {} && !j.remove)
  }

  ghost predicate Lawful(start: Zone, applied: seq<Job>) {
    forall k :: 0 <= k < |applied| ==> LawfulNext(start, applied[..k], applied[k])
  }

  /** The forward records are exactly what the last applied update of each name left. */
  ghost predicate ZoneAgrees(c: Config, start: Zone, z: Zone, applied: seq<Job>) {
    forall n ::
      && RRset(z, n, DHCID) == Carried(start, applied, n)
      && RRset(z, n, Family(c)) == (if Held(applied, n) then AddressSet(Holder(applied, n))
                                    else if LastFor(applied, n) >= 0 then {} else RRset(start, n, Family(c)))
      && RRset(z, n, if c.v6 then A else AAAA) == RRset(start, n, if c.v6 then A else AAAA)
  }

  lemma ZoneStep(c: Config, start: Zone, z: Zone, z': Zone, applied: seq<Job>, r: Request)
    requires ZoneAgrees(c, start, z, applied) && WellFormed(c, r) && Forward(r.stage)
    requires Admits(z, r) && Leaves(c, z, z', r.job)
    ensures ZoneAgrees(c, start, z', applied + [r.job]) && LawfulNext(start, applied, r.job)
  {
    hide LastFor;
    LastForGrows(applied, r.job);
  }

  lemma ZoneQuiet(c: Config, start: Zone, z: Zone, z': Zone, applied: seq<Job>)
    requires ZoneAgrees(c, start, z, applied) && forall n :: SameForward(z, z', n)
    ensures ZoneAgrees(c, start, z', applied)
  {
    forall n, t | t != PTR ensures RRset(z', n, t) == RRset(z, n, t) {
      assert SameForward(z, z', n);
    }
  }

  lemma LawfulGrows(start: Zone, applied: seq<Job>, j: Job)
    requires Lawful(start, applied) && LawfulNext(start, applied, j)
    ensures Lawful(start, applied + [j])
  {
    hide LawfulNext;
    var all := applied + [j];
    forall k | 0 <= k < |all| ensures LawfulNext(start, all[..k], all[k]) {
      assert k < |applied| ==> all[..k] == applied[..k];
      assert k == |applied| ==> all[..k] == applied;
    }
  }

  // ----- what every reachable state keeps ------------------------------------------------------------

  /** Bookkeeping of requests, answers and acknowledgements. */
  ghost predicate Bookkept(c: Config, s: State) {
    && (forall i :: 0 <= i < |s.sent| ==> WellFormed(c, s.sent[i]))
    && (forall i :: 0 <= i < |s.queue| ==> Proper(c, s.queue[i]))
    && (s.phase.Waiting? ==> s.phase.id < |s.sent| && s.sent[s.phase.id] == Request(s.phase.job, s.phase.stage))
    && (s.phase.Reversing? ==> s.phase.job in s.everAcked && Proper(c, s.phase.job))
    && (forall i :: 0 <= i < |s.sent| ==> s.sent[i].stage.Reverse? ==> s.sent[i].job in s.everAcked)
    && (forall a :: a in s.answers ==> a.0 < |s.sent|)
    && (forall a :: a in s.answers ==> a.1 == NoError ==> Forward(s.sent[a.0].stage) ==> s.sent[a.0].job in s.applied)
    && (forall j :: j in s.everAcked ==> j in s.applied)
  }

  ghost predicate Good(c: Config, start: Zone, s: State) {
    && Bookkept(c, s)
    && s.register == RegisterOf(s.acked, c.max)
    && ZoneAgrees(c, start, s.zone, s.applied) && Lawful(start, s.applied)
  }

  lemma SendKeeps(c: Config, s: State, j: Job, stage: Stage)
    requires Bookkept(c, s) && WellFormed(c, Request(j, stage)) && (stage.Reverse? ==> j in s.everAcked)
    ensures Bookkept(c, Send(s, j, stage))
  {
  }

  lemma SettledKeeps(c: Config, s: State, code: RCode)
    requires Bookkept(c, s) && s.phase.Waiting? && Forward(s.phase.stage)
    requires code == NoError ==> (s.phase.id, code) in s.answers
    ensures Bookkept(c, Settled(c, s, code))
  {
    hide Remember;
  }

  lemma AnsweredKeeps(c: Config, s: State, code: RCode)
    requires Bookkept(c, s) && s.phase.Waiting?
    requires code == NoError ==> (s.phase.id, code) in s.answers
    ensures Bookkept(c, Answered(c, s, code))
  {
    hide Settled, Send;
    if !s.phase.stage.Reverse? {
      SettledKeeps(c, s, code);
      if s.phase.stage.Fresh? {
        SendKeeps(c, s, s.phase.job, Owned);
      }
    }
  }

  lemma DeliverKeeps(c: Config, start: Zone, s: State, id: nat)
    requires Good(c, start, s) && Enabled(c, s, Deliver(id))
    ensures Good(c, start, Next(c, s, Deliver(id)))
  {
    hide Process, Wire, ZoneAgrees, Lawful, LawfulNext, Leaves, SameForward, RegisterOf, WellFormed;
    var r := s.sent[id];
    var (z', code) := Process(s.zone, Wire(c, r));
    if r.stage.Reverse? {
      DeliverReverse(c, s.zone, r);
      ZoneQuiet(c, start, s.zone, z', s.applied);
    } else {
      DeliverForward(c, s.zone, r);
      if code == NoError {
        ZoneStep(c, start, s.zone, z', s.applied, r);
        LawfulGrows(start, s.applied, r.job);
      }
    }
  }

  lemma StepKeeps(c: Config, start: Zone, s: State, step: Step)
    requires Good(c, start, s) && Enabled(c, s, step)
    ensures Good(c, start, Next(c, s, step))
  {
    hide ZoneAgrees, Lawful, RegisterOf, WellFormed, Proper, Process, Wire, Answered, Send, Bookkept;
    match step
    case Deliver(id) => DeliverKeeps(c, start, s, id);
    case _ => QuietKeeps(c, start, s, step);
  }

  lemma QuietKeeps(c: Config, start: Zone, s: State, step: Step)
    requires Good(c, start, s) && Enabled(c, s, step) && !step.Deliver?
    ensures Good(c, start, Next(c, s, step))
  {
    hide ZoneAgrees, Lawful, Process, Wire, Answered, Bookkept, WellFormed, Remember;
    match step
    case Hear(code) => AnsweredGood(c, start, s, code);
    case GiveUp => AnsweredGood(c, start, s, Refused);
    case Restart => LocalKeeps(c, s, step);
    case _ => LocalKeeps(c, s, step);
  }

  lemma AnsweredGood(c: Config, start: Zone, s: State, code: RCode)
    requires Good(c, start, s) && s.phase.Waiting?
    requires code == NoError ==> Bookkept(c, s) && (s.phase.id, code) in s.answers
    ensures Good(c, start, Answered(c, s, code))
  {
    hide ZoneAgrees, Lawful, Bookkept, RegisterOf, Remember;
    AnsweredKeeps(c, s, code);
    RegisterGrows(s, c, code);
  }

  /** Steps that neither deliver nor answer keep the bookkeeping. */
  lemma LocalKeeps(c: Config, s: State, step: Step)
    requires Bookkept(c, s) && Enabled(c, s, step) && !step.Deliver? && !step.Hear? && !step.GiveUp?
    ensures Bookkept(c, Next(c, s, step))
  {
    hide Process, Wire, Answered, Send, Holds, RegisterOf;
    match step
    case Begin =>
      var j := s.queue[0];
      SendKeeps(c, s.(queue := s.queue[1..]), j, if j.remove then Withdrawal else Fresh);
    case NextReverse =>
      var j, i := s.phase.job, s.phase.next;
      if i < |j.addrs| && Reverses(c, j, i) {
        SendKeeps(c, s, j, Reverse(i));
      }
    case _ =>
  }

  lemma RegisterGrows(s: State, c: Config, code: RCode)
    requires s.phase.Waiting? && s.register == RegisterOf(s.acked, c.max)
    ensures var s' := Answered(c, s, code); s'.register == RegisterOf(s'.acked, c.max)
  {
    hide Remember;
    var all := s.acked + [s.phase.job];
    assert all[..|all| - 1] == s.acked;
  }

  /** Every reachable state, over any loss, repetition and delay. */
  lemma {:induction false} RunsAreGood(c: Config, s: State, steps: seq<Step>)
    requires Initial(s) && Run(c, s, steps)
    ensures Good(c, s.zone, Final(c, s, steps))
  {
    hide Good, Next, Enabled, Initial;
    if steps == [] {
      StartIsGood(c, s);
    } else {
      RunsAreGood(c, s, steps[..|steps| - 1]);
      StepKeeps(c, s.zone, Final(c, s, steps[..|steps| - 1]), steps[|steps| - 1]);
    }
  }

  lemma StartIsGood(c: Config, s: State)
    requires Initial(s)
    ensures Good(c, s.zone, s)
  {
  }

  // ----- name ownership --------------------------------------------------------------------------------

  /** While a name carries one client's DHCID, no step of another client's job changes its forward records. */
  lemma ForeignJobsChangeNothing(c: Config, s: State, step: Step, n: Name, dhcid: seq<Byte>)
    requires Enabled(c, s, step) && RRset(s.zone, n, DHCID) == {dhcid}
    requires step.Deliver? ==> s.sent[step.id].job.dhcid != dhcid
    ensures SameForward(s.zone, Next(c, s, step).zone, n)
  {
    hide Process, Wire;
    if step.Deliver? {
      var r := s.sent[step.id];
      if r.stage.Reverse? {
        DeliverReverse(c, s.zone, r);
      } else {
        DeliverForward(c, s.zone, r);
      }
    }
  }

  /**
   No name ever comes to carry two DHCIDs. A name an update was applied to carries at most
   the DHCID of the last one, and then its addresses; any other is as it was.
   */
  lemma OneHolderWithItsAddresses(c: Config, s: State, steps: seq<Step>, n: Name)
    requires Initial(s) && Run(c, s, steps)
    ensures var e := Final(c, s, steps);
      && (|RRset(s.zone, n, DHCID)| <= 1 || LastFor(e.applied, n) >= 0 ==> |RRset(e.zone, n, DHCID)| <= 1)
      && (LastFor(e.applied, n) >= 0 && RRset(e.zone, n, DHCID) != {} ==>
        && Held(e.applied, n)
        && RRset(e.zone, n, DHCID) == {Holder(e.applied, n).dhcid}
        && RRset(e.zone, n, Family(c)) == AddressSet(Holder(e.applied, n)))
      && (LastFor(e.applied, n) < 0 ==>
        RRset(e.zone, n, DHCID) == RRset(s.zone, n, DHCID) && RRset(e.zone, n, Family(c)) == RRset(s.zone, n, Family(c)))
  {
    hide Bookkept, Lawful, LastFor, Initial;
    RunsAreGood(c, s, steps);
  }

  /** In the order the server applied them, a name passes to another client only after its holder withdrew. */
  lemma {:induction false} NoTakeover(start: Zone, applied: seq<Job>, i: nat, k: nat) returns (m: nat)
    requires Lawful(start, applied) && i < k < |applied| && applied[i].name == applied[k].name
    requires !applied[i].remove && applied[k].dhcid != applied[i].dhcid
    ensures i < m < k && applied[m].name == applied[i].name && applied[m].remove && applied[m].dhcid == applied[i].dhcid
    decreases k
  {
    var n := applied[i].name;
    var p := LastFor(applied[..k], n);
    assert applied[..k][i].name == n;
    assert LawfulNext(start, applied[..k], applied[k]);
    if applied[p].dhcid == applied[i].dhcid {
      m := p;
    } else {
      m := NoTakeover(start, applied, i, p);
    }
  }

  /** Nor is a name taken from the client that held it before the server came up. */
  lemma {:induction false} NoTakeoverFromStart(start: Zone, applied: seq<Job>, k: nat, dhcid: seq<Byte>) returns (m: nat)
    requires Lawful(start, applied) && k < |applied| && RRset(start, applied[k].name, DHCID) == {dhcid}
    requires applied[k].dhcid != dhcid
    ensures m < k && applied[m].name == applied[k].name && applied[m].remove && applied[m].dhcid == dhcid
    decreases k
  {
    var n := applied[k].name;
    var p := LastFor(applied[..k], n);
    assert LawfulNext(start, applied[..k], applied[k]);
    if applied[p].dhcid == dhcid {
      m := p;
    } else {
      m := NoTakeoverFromStart(start, applied, p, dhcid);
    }
  }

  lemma EveryRunIsLawful(c: Config, s: State, steps: seq<Step>)
    requires Initial(s) && Run(c, s, steps)
    ensures Lawful(s.zone, Final(c, s, steps).applied)
  {
    hide Bookkept, Lawful, ZoneAgrees, Initial;
    RunsAreGood(c, s, steps);
  }

  ghost predicate Withdrew(applied: seq<Job>, from: nat, n: Name, dhcid: seq<Byte>) {
    exists k :: from <= k < |applied| && applied[k].remove && applied[k].name == n && applied[k].dhcid == dhcid
  }

  lemma HeldStep(c: Config, s: State, step: Step, from: nat, n: Name, dhcid: seq<Byte>)
    requires Enabled(c, s, step) && RRset(s.zone, n, DHCID) == {dhcid} && from <= |s.applied|
    requires !Withdrew(Next(c, s, step).applied, from, n, dhcid)
    ensures RRset(Next(c, s, step).zone, n, DHCID) == {dhcid}
  {
    hide Process, Wire;
    var s' := Next(c, s, step);
    if step.Deliver? {
      var r := s.sent[step.id];
      if r.stage.Reverse? {
        DeliverReverse(c, s.zone, r);
        assert SameForward(s.zone, s'.zone, n);
      } else {
        DeliverForward(c, s.zone, r);
        if Admits(s.zone, r) && r.job.name == n {
          assert s'.applied[|s.applied|] == r.job;
        }
      }
    }
  }

  lemma AppliedGrows(c: Config, s: State, step: Step)
    requires Enabled(c, s, step)
    ensures s.applied <= Next(c, s, step).applied
  {
    hide Process, Wire, Remember;
  }

  /**
   Over any run, whatever is lost, repeated or late: a name that carries a client's
   DHCID goes on carrying it, until a withdrawal of that same client is applied.
   */
  lemma {:induction false} HeldUntilWithdrawn(c: Config, s: State, steps: seq<Step>, n: Name, dhcid: seq<Byte>)
    requires Run(c, s, steps) && RRset(s.zone, n, DHCID) == {dhcid}
    requires !Withdrew(Final(c, s, steps).applied, |s.applied|, n, dhcid)
    ensures RRset(Final(c, s, steps).zone, n, DHCID) == {dhcid}
    ensures s.applied <= Final(c, s, steps).applied
  {
    hide Next, Enabled;
    if steps != [] {
      var init, step := steps[..|steps| - 1], steps[|steps| - 1];
      var mid := Final(c, s, init);
      AppliedGrows(c, mid, step);
      AppliedIsKept(c, s, init);
      HeldUntilWithdrawn(c, s, init, n, dhcid);
      HeldStep(c, mid, step, |s.applied|, n, dhcid);
    }
  }

  lemma {:induction false} AppliedIsKept(c: Config, s: State, steps: seq<Step>)
    requires Run(c, s, steps)
    ensures s.applied <= Final(c, s, steps).applied
  {
    hide Next, Enabled;
    if steps != [] {
      AppliedIsKept(c, s, steps[..|steps| - 1]);
      AppliedGrows(c, Final(c, s, steps[..|steps| - 1]), steps[|steps| - 1]);
    }
  }

  // ----- the register and the reverse zone ----------------------------------------------------------------

  /** The register says what the server last acknowledged, within its bound. */
  lemma RegisterTellsTheTruth(c: Config, s: State, steps: seq<Step>)
    requires Initial(s) && Run(c, s, steps)
    ensures var e := Final(c, s, steps);
      Agrees(e.register, e.acked) && |e.register.order| <= c.max && forall j :: j in e.everAcked ==> j in e.applied
  {
    hide Agrees, Lawful, ZoneAgrees, RegisterOf, Initial;
    RunsAreGood(c, s, steps);
    RegisterAgrees(Final(c, s, steps).acked, c.max);
  }

  /** A PTR update is only ever sent for a job whose forward update the server applied and acknowledged. */
  lemma ReverseOnlyAfterForward(c: Config, s: State, steps: seq<Step>, id: nat)
    requires Initial(s) && Run(c, s, steps) && id < |Final(c, s, steps).sent|
    requires Final(c, s, steps).sent[id].stage.Reverse?
    ensures var e := Final(c, s, steps);
      var r := e.sent[id];
      && r.job in e.everAcked && r.job in e.applied
      && r.stage.i < |r.job.addrs| && r.job.addrs[r.stage.i] in c.ptr
  {
    hide Lawful, ZoneAgrees, RegisterOf, Initial;
    RunsAreGood(c, s, steps);
    assert WellFormed(c, Final(c, s, steps).sent[id]);
  }

  // ----- one exchange nothing disturbs ---------------------------------------------------------------------

  /** The datagram the worker waits on arrives, is processed, and its answer comes back. */
  ghost function Answer(c: Config, s: State): State
    requires s.phase.Waiting? && s.phase.id < |s.sent| && WellFormed(c, s.sent[s.phase.id])
  {
    var code := Process(s.zone, Wire(c, s.sent[s.phase.id])).1;
    Next(c, Next(c, s, Deliver(s.phase.id)), Hear(code))
  }

  /** Whether a job's client may change a name: it is free, or its own. */
  predicate May(z: Zone, j: Job) {
    RRset(z, j.name, DHCID) == {j.dhcid} || (!j.remove && RRset(z, j.name, DHCID) == {})
  }

  /** Waiting on the given stage of a job, with the datagram sent. */
  ghost predicate Asking(c: Config, s: State, j: Job, stage: Stage) {
    && s.phase.Waiting? && s.phase.job == j && s.phase.stage == stage
    && s.phase.id < |s.sent| && s.sent[s.phase.id] == Request(j, stage) && WellFormed(c, Request(j, stage))
  }

  /** The server says yes: the records are changed, the job is remembered, and the reverse zones come next. */
  lemma AdmittedAnswer(c: Config, s: State, j: Job, stage: Stage)
    requires Asking(c, s, j, stage) && Forward(stage) && Admits(s.zone, Request(j, stage))
    ensures var e := Answer(c, s);
      && Leaves(c, s.zone, e.zone, j) && e.phase == Reversing(j, 0) && e.acked == s.acked + [j]
      && e.register == Remember(s.register, c.max, j)
  {
    hide Process, Wire, Leaves, Remember, Admits;
    DeliverForward(c, s.zone, Request(j, stage));
  }

  /** The server says no: nothing changes, and a first claim asks again as the owner. */
  lemma RefusedAnswer(c: Config, s: State, j: Job, stage: Stage)
    requires Asking(c, s, j, stage) && Forward(stage) && !Admits(s.zone, Request(j, stage))
    ensures var e := Answer(c, s);
      && e.zone == s.zone && e.register == s.register && e.acked == s.acked
      && (if stage.Fresh? then Asking(c, e, j, Owned) else e.phase == Idle)
  {
    hide Remember, Wire;
    DeliverForward(c, s.zone, Request(j, stage));
    RefusalCode(c, s.zone, Request(j, stage));
  }

  lemma RefusalCode(c: Config, z: Zone, r: Request)
    requires WellFormed(c, r) && Forward(r.stage) && !Admits(z, r)
    ensures var code := Process(z, Wire(c, r)).1; code == YXRRSET || code == NXRRSET
  {
    hide CheckFrom, ApplyAll, ClaimChanges, WithdrawChanges;
    FreshCheck(z, r.job);
    OwnedCheck(z, r.job);
  }

  /** What becomes of a job when nothing is lost: one exchange, or two when a first claim finds the name taken. */
  ghost function Undisturbed(c: Config, s: State): State
    requires s.phase.Idle? && s.queue != [] && Proper(c, s.queue[0])
  {
    var j := s.queue[0];
    var begun := Next(c, s, Begin);
    var once := Answer(c, begun);
    if once.phase.Waiting? then (if Asking(c, once, j, Owned) then Answer(c, once) else once) else once
  }

  /**
   Undisturbed, a job succeeds exactly when the name is free or its own client's: then
   the zone holds what it asked for and the register knows it; otherwise nothing has
   changed at the server or in the register.
   */
  lemma UndisturbedExactly(c: Config, s: State)
    requires s.phase.Idle? && s.queue != [] && Proper(c, s.queue[0])
    ensures var j, e := s.queue[0], Undisturbed(c, s);
      if May(s.zone, j) then
        && Leaves(c, s.zone, e.zone, j) && e.phase == Reversing(j, 0)
        && e.register == Remember(s.register, c.max, j)
      else
        e.zone == s.zone && e.phase == Idle && e.register == s.register
  {
    hide Leaves, Remember, Answer;
    var j := s.queue[0];
    var stage := if j.remove then Withdrawal else Fresh;
    var begun := Next(c, s, Begin);
    assert Asking(c, begun, j, stage);
    if Admits(s.zone, Request(j, stage)) {
      AdmittedAnswer(c, begun, j, stage);
    } else {
      RefusedAnswer(c, begun, j, stage);
      if stage.Fresh? {
        var once := Answer(c, begun);
        if Admits(s.zone, Request(j, Owned)) {
          AdmittedAnswer(c, once, j, Owned);
        } else {
          RefusedAnswer(c, once, j, Owned);
        }
      }
    }
  }
}
