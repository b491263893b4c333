/**
 The gate between the read loops and the handlers, `server/gate.go`, as a step system:
 any number of run calls, the handlers they start and the one drain of Close, each
 taking its steps in any order the lock and the slots allow.
 */
module Gate {

  datatype Outcome = Started | Overload | Shutdown

  /** Where one call of run is. */
  datatype Call =
    | Called                  // about to try for a slot
    | Overloaded              // found none, drop not counted yet
    | Slotted                 // has a slot, waiting for the lock
    | Locked                  // has the lock, closed not read yet
    | Admitted                // read an open gate
    | Spawned                 // handler on the wait group, lock still held
    | Refusing                // read a closed gate, lock still held
    | Refused                 // lock released, slot still held
    | Uncounted               // slot given back, drop not counted yet
    | Done(outcome: Outcome)

  /** Where one handler is: running, slot given back, off the wait group. */
  datatype Handler = Running | Released | Gone

  datatype Lock = Free | ByCall(id: nat) | ByCloser
  datatype Closer = Before | Closing | Set | Stopped | Waited(finished: bool)

  datatype State = State(
    calls: map<nat, Call>, handlers: map<nat, Handler>,
    slots: nat, mu: Lock, closed: bool, wg: nat, overload: nat, shutdown: nat, closer: Closer)

  const START: State := State(map[], map[], 0, Free, false, 0, 0, 0, Before)

  datatype Step =
    | Arrive(id: nat) | TrySlot(id: nat) | CountOverload(id: nat)
    | LockCall(id: nat) | Check(id: nat) | Spawn(id: nat) | Unlock(id: nat)
    | GiveBack(id: nat) | CountShutdown(id: nat)
    | Release(id: nat) | Leave(id: nat)
    | LockCloser | SetClosed | UnlockCloser | WaitOver | WaitTimesOut

  predicate At(s: State, id: nat, pc: Call) {
    id in s.calls && s.calls[id] == pc
  }

  predicate Enabled(s: State, step: Step) {
    match step
    case Arrive(id) => id !in s.calls
    case TrySlot(id) => At(s, id, Called)
    case CountOverload(id) => At(s, id, Overloaded)
    case LockCall(id) => At(s, id, Slotted) && s.mu == Free
    case Check(id) => At(s, id, Locked)
    case Spawn(id) => At(s, id, Admitted)
    case Unlock(id) => At(s, id, Spawned) || At(s, id, Refusing)
    case GiveBack(id) => At(s, id, Refused) && s.slots > 0
    case CountShutdown(id) => At(s, id, Uncounted)
    case Release(id) => id in s.handlers && s.handlers[id] == Running && s.slots > 0
    case Leave(id) => id in s.handlers && s.handlers[id] == Released && s.wg > 0
    case LockCloser => s.closer == Before && s.mu == Free
    case SetClosed => s.closer == Closing
    case UnlockCloser => s.closer == Set
    case WaitOver => s.closer == Stopped && s.wg == 0
    case WaitTimesOut => s.closer == Stopped
  }

  function Go(s: State, id: nat, pc: Call): State {
    s.(calls := s.calls[id := pc])
  }

  function Next(max: nat, s: State, step: Step): State
    requires Enabled(s, step)
  {
    match step
    case Arrive(id) => Go(s, id, Called)
    case TrySlot(id) => if s.slots < max then Go(s, id, Slotted).(slots := s.slots + 1) else Go(s, id, Overloaded)
    case CountOverload(id) => Go(s, id, Done(Overload)).(overload := s.overload + 1)
    case LockCall(id) => Go(s, id, Locked).(mu := ByCall(id))
    case Check(id) => Go(s, id, if s.closed then Refusing else Admitted)
    case Spawn(id) => Go(s, id, Spawned).(handlers := s.handlers[id := Running], wg := s.wg + 1)
    case Unlock(id) => Go(s, id, if At(s, id, Spawned) then Done(Started) else Refused).(mu := Free)
    case GiveBack(id) => Go(s, id, Uncounted).(slots := s.slots - 1)
    case CountShutdown(id) => Go(s, id, Done(Shutdown)).(shutdown := s.shutdown + 1)
    case Release(id) => s.(handlers := s.handlers[id := Released], slots := s.slots - 1)
    case Leave(id) => s.(handlers := s.handlers[id := Gone], wg := s.wg - 1)
    case LockCloser => s.(closer := Closing, mu := ByCloser)
    case SetClosed => s.(closer := Set, closed := true)
    case UnlockCloser => s.(closer := Stopped, mu := Free)
    case WaitOver => s.(closer := Waited(true))
    case WaitTimesOut => s.(closer := Waited(false))
  }

  ghost predicate Run(max: nat, s: State, steps: seq<Step>)
    decreases |steps|, 0
  {
    steps == [] ||
    (Run(max, s, steps[..|steps| - 1]) && Enabled(Final(max, s, steps[..|steps| - 1]), steps[|steps| - 1]))
  }

  ghost function Final(max: nat, s: State, steps: seq<Step>): State
    requires Run(max, s, steps)
    decreases |steps|, 1
  {
    if steps == [] then s else Next(max, Final(max, s, steps[..|steps| - 1]), steps[|steps| - 1])
  }

  // ----- counting ---------------------------------------------------------------------------

  ghost function Ids<V(!new)>(m: map<nat, V>, p: V -> bool): set<nat> {
    set id | id in m && p(m[id])
  }

  lemma IdsUpdate<V(!new)>(m: map<nat, V>, p: V -> bool, id: nat, v: V)
    ensures |Ids(m[id := v], p)| ==
      |Ids(m, p)| - (if id in m && p(m[id]) then 1 else 0) + (if p(v) then 1 else 0)
  {
    var was, now := Ids(m, p), Ids(m[id := v], p);
    assert now == if p(v) then was + {id} else was - {id};
  }

  predicate HoldsSlot(pc: Call) {
    pc.Slotted? || pc.Locked? || pc.Admitted? || pc.Refusing? || pc.Refused?
  }

  predicate HoldsLock(pc: Call) {
    pc.Locked? || pc.Admitted? || pc.Spawned? || pc.Refusing?
  }

  predicate HasStarted(pc: Call) { pc.Spawned? || pc == Done(Started) }
  predicate IsDone(pc: Call) { pc.Done? }
  predicate ReportedTrue(pc: Call) { pc == Done(Started) }
  predicate IsOverload(pc: Call) { pc == Done(Overload) }
  predicate IsShutdown(pc: Call) { pc == Done(Shutdown) }
  predicate IsRunning(h: Handler) { h == Running }
  predicate IsWaitedFor(h: Handler) { h != Gone }

  // ----- what every interleaving keeps ---------------------------------------------------------

  ghost predicate Counted(max: nat, s: State) {
    && s.slots == |Ids(s.calls, HoldsSlot)| + |Ids(s.handlers, IsRunning)| && s.slots <= max
    && s.wg == |Ids(s.handlers, IsWaitedFor)|
    && s.overload == |Ids(s.calls, IsOverload)|
    && s.shutdown == |Ids(s.calls, IsShutdown)|
  }

  ghost predicate Ordered(s: State) {
    && (forall id :: id in s.calls && HoldsLock(s.calls[id]) ==> s.mu == ByCall(id))
    && (s.mu == ByCloser <==> s.closer == Closing || s.closer == Set)
    && (s.closed <==> s.closer != Before && s.closer != Closing)
    && (forall id :: id in s.calls && s.calls[id] == Admitted ==> !s.closed)
    && (forall id :: id in s.handlers <==> id in s.calls && HasStarted(s.calls[id]))
    && (s.closer == Waited(true) ==> forall id :: id in s.handlers ==> s.handlers[id] == Gone)
  }

  lemma NoneLeft(m: map<nat, Handler>)
    requires |Ids(m, IsWaitedFor)| == 0
    ensures forall id :: id in m ==> m[id] == Gone
  {
    forall id | id in m ensures m[id] == Gone {
      assert id !in Ids(m, IsWaitedFor);
    }
  }

  /** The call a step moves, and where to. */
  lemma CallCounts(s: State, id: nat, pc: Call)
    ensures |Ids(s.calls[id := pc], HoldsSlot)| ==
      |Ids(s.calls, HoldsSlot)| - (if id in s.calls && HoldsSlot(s.calls[id]) then 1 else 0) + (if HoldsSlot(pc) then 1 else 0)
    ensures |Ids(s.calls[id := pc], IsOverload)| ==
      |Ids(s.calls, IsOverload)| - (if id in s.calls && IsOverload(s.calls[id]) then 1 else 0) + (if IsOverload(pc) then 1 else 0)
    ensures |Ids(s.calls[id := pc], IsShutdown)| ==
      |Ids(s.calls, IsShutdown)| - (if id in s.calls && IsShutdown(s.calls[id]) then 1 else 0) + (if IsShutdown(pc) then 1 else 0)
  {
    IdsUpdate(s.calls, HoldsSlot, id, pc);
    IdsUpdate(s.calls, IsOverload, id, pc);
    IdsUpdate(s.calls, IsShutdown, id, pc);
  }

  lemma HandlerCounts(s: State, id: nat, h: Handler)
    ensures |Ids(s.handlers[id := h], IsRunning)| ==
      |Ids(s.handlers, IsRunning)| - (if id in s.handlers && IsRunning(s.handlers[id]) then 1 else 0) + (if IsRunning(h) then 1 else 0)
    ensures |Ids(s.handlers[id := h], IsWaitedFor)| ==
      |Ids(s.handlers, IsWaitedFor)| - (if id in s.handlers && IsWaitedFor(s.handlers[id]) then 1 else 0) + (if IsWaitedFor(h) then 1 else 0)
  {
    IdsUpdate(s.handlers, IsRunning, id, h);
    IdsUpdate(s.handlers, IsWaitedFor, id, h);
  }

  function One(b: bool): int { if b then 1 else 0 }

  /** A step that only moves one call, with the counters moved accordingly. */
  lemma CallMoves(max: nat, s: State, s': State, id: nat, pc: Call)
    requires Counted(max, s) && id in s.calls
    requires s'.calls == s.calls[id := pc] && s'.handlers == s.handlers && s'.wg == s.wg && s'.slots <= max
    requires s'.slots == s.slots - One(HoldsSlot(s.calls[id])) + One(HoldsSlot(pc))
    requires s'.overload == s.overload - One(IsOverload(s.calls[id])) + One(IsOverload(pc))
    requires s'.shutdown == s.shutdown - One(IsShutdown(s.calls[id])) + One(IsShutdown(pc))
    ensures Counted(max, s')
  {
    hide Ids, HoldsSlot, IsOverload, IsShutdown;
    CallCounts(s, id, pc);
  }

  lemma FirstSteps(max: nat, s: State, step: Step)
    requires Counted(max, s) && Enabled(s, step) && (step.TrySlot? || step.CountOverload? || step.LockCall? || step.Check?)
    ensures Counted(max, Next(max, s, step))
  {
    hide Ids;
    var s' := Next(max, s, step);
    CallMoves(max, s, s', step.id, s'.calls[step.id]);
  }

  lemma LastSteps(max: nat, s: State, step: Step)
    requires Counted(max, s) && Enabled(s, step) && (step.Unlock? || step.GiveBack? || step.CountShutdown?)
    ensures Counted(max, Next(max, s, step))
  {
    hide Ids;
    var s' := Next(max, s, step);
    CallMoves(max, s, s', step.id, s'.calls[step.id]);
  }

  lemma SpawnCounts(max: nat, s: State, id: nat)
    requires Counted(max, s) && Ordered(s) && Enabled(s, Spawn(id))
    ensures Counted(max, Next(max, s, Spawn(id)))
  {
    hide Ids;
    CallCounts(s, id, Spawned);
    HandlerCounts(s, id, Running);
  }

  lemma OtherSteps(max: nat, s: State, step: Step)
    requires Counted(max, s) && Enabled(s, step)
    requires step.Arrive? || step.Release? || step.Leave? || step.LockCloser? || step.SetClosed? || step.UnlockCloser?
      || step.WaitOver? || step.WaitTimesOut?
    ensures Counted(max, Next(max, s, step))
  {
    hide Ids;
    if step.Arrive? {
      CallCounts(s, step.id, Called);
    } else if step.Release? {
      HandlerCounts(s, step.id, Released);
    } else if step.Leave? {
      HandlerCounts(s, step.id, Gone);
    }
  }

  lemma StepCounts(max: nat, s: State, step: Step)
    requires Counted(max, s) && Ordered(s) && Enabled(s, step)
    ensures Counted(max, Next(max, s, step))
  {
    hide Counted, Ordered, Next, Enabled;
    if step.TrySlot? || step.CountOverload? || step.LockCall? || step.Check? {
      FirstSteps(max, s, step);
    } else if step.Unlock? || step.GiveBack? || step.CountShutdown? {
      LastSteps(max, s, step);
    } else if step.Spawn? {
      SpawnCounts(max, s, step.id);
    } else {
      OtherSteps(max, s, step);
    }
  }

  lemma CallerOrders(max: nat, s: State, step: Step)
    requires Ordered(s) && Enabled(s, step)
    requires step.Arrive? || step.TrySlot? || step.CountOverload? || step.GiveBack? || step.CountShutdown?
    ensures Ordered(Next(max, s, step))
  {
    hide Ordered;
    var s' := Next(max, s, step);
    PlainMove(s, s', step.id, s'.calls[step.id]);
  }

  /** A call that neither holds the lock nor has started moves to another such place. */
  lemma PlainMove(s: State, s': State, id: nat, pc: Call)
    requires Ordered(s) && s'.calls == s.calls[id := pc] && s'.handlers == s.handlers
    requires s'.mu == s.mu && s'.closed == s.closed && s'.closer == s.closer
    requires !HoldsLock(pc) && !HasStarted(pc) && (id in s.calls ==> !HasStarted(s.calls[id]))
    ensures Ordered(s')
  {
  }

  lemma LockingOrders(max: nat, s: State, step: Step)
    requires Ordered(s) && Enabled(s, step) && (step.LockCall? || step.Check?)
    ensures Ordered(Next(max, s, step))
  {
  }

  lemma SpawnOrders(max: nat, s: State, id: nat)
    requires Ordered(s) && Enabled(s, Spawn(id))
    ensures Ordered(Next(max, s, Spawn(id)))
  {
  }

  lemma UnlockOrders(max: nat, s: State, id: nat)
    requires Ordered(s) && Enabled(s, Unlock(id))
    ensures Ordered(Next(max, s, Unlock(id)))
  {
  }

  lemma HandlerOrders(max: nat, s: State, step: Step)
    requires Ordered(s) && Enabled(s, step) && (step.Release? || step.Leave?)
    ensures Ordered(Next(max, s, step))
  {
  }

  lemma CloserOrders(max: nat, s: State, step: Step)
    requires Counted(max, s) && Ordered(s) && Enabled(s, step)
    requires step.LockCloser? || step.SetClosed? || step.UnlockCloser? || step.WaitOver? || step.WaitTimesOut?
    ensures Ordered(Next(max, s, step))
  {
    hide Ids;
    if step.WaitOver? {
      NoneLeft(s.handlers);
    }
  }

  lemma StepOrders(max: nat, s: State, step: Step)
    requires Counted(max, s) && Ordered(s) && Enabled(s, step)
    ensures Ordered(Next(max, s, step))
  {
    hide Counted, Ordered, Next, Enabled;
    if step.Unlock? {
      UnlockOrders(max, s, step.id);
    } else if step.Spawn? {
      SpawnOrders(max, s, step.id);
    } else if step.LockCall? || step.Check? {
      LockingOrders(max, s, step);
    } else if step.Release? || step.Leave? {
      HandlerOrders(max, s, step);
    } else if step.LockCloser? || step.SetClosed? || step.UnlockCloser? || step.WaitOver? || step.WaitTimesOut? {
      CloserOrders(max, s, step);
    } else {
      CallerOrders(max, s, step);
    }
  }

  lemma {:induction false} RunsKeep(max: nat, steps: seq<Step>)
    requires Run(max, START, steps)
    ensures Counted(max, Final(max, START, steps)) && Ordered(Final(max, START, steps))
  {
    hide Counted, Ordered, Next, Enabled;
    if steps == [] {
      StartKeeps(max);
    } else {
      var mid := Final(max, START, steps[..|steps| - 1]);
      RunsKeep(max, steps[..|steps| - 1]);
      StepCounts(max, mid, steps[|steps| - 1]);
      StepOrders(max, mid, steps[|steps| - 1]);
    }
  }

  lemma StartKeeps(max: nat)
    ensures Counted(max, START) && Ordered(START)
  {
  }

  // ----- the promises ----------------------------------------------------------------------------

  /** At most the configured number of handlers run at once, whatever the interleaving. */
  lemma AtMostMaxRun(max: nat, steps: seq<Step>)
    requires Run(max, START, steps)
    ensures |Ids(Final(max, START, steps).handlers, IsRunning)| <= max
  {
    hide Ids, Final, Run, Ordered;
    RunsKeep(max, steps);
  }

  /** Every completed call is one of started, counted overload or counted shutdown; only the started have a handler. */
  lemma EveryCallIsAccountedFor(max: nat, steps: seq<Step>, id: nat)
    requires Run(max, START, steps)
    ensures var s := Final(max, START, steps);
      && s.overload == |Ids(s.calls, IsOverload)| && s.shutdown == |Ids(s.calls, IsShutdown)|
      && |Ids(s.calls, IsDone)| == |Ids(s.calls, ReportedTrue)| + s.overload + s.shutdown
      && (At(s, id, Done(Started)) ==> id in s.handlers)
      && (id in s.handlers ==> At(s, id, Spawned) || At(s, id, Done(Started)))
  {
    hide Ids, Final, Run;
    RunsKeep(max, steps);
    DoneSplits(Final(max, START, steps).calls);
  }

  lemma DoneSplits(calls: map<nat, Call>)
    ensures |Ids(calls, IsDone)| ==
      |Ids(calls, ReportedTrue)| + |Ids(calls, IsOverload)| + |Ids(calls, IsShutdown)|
  {
    var x, y, z := Ids(calls, ReportedTrue), Ids(calls, IsOverload), Ids(calls, IsShutdown);
    forall id ensures id in Ids(calls, IsDone) <==> id in x + y + z {
      if id in calls && calls[id].Done? {
        match calls[id].outcome
        case Started =>
        case Overload =>
        case Shutdown =>
      }
    }
    assert Ids(calls, IsDone) == x + y + z;
  }

  predicate StopReturned(s: State) {
    s.closer == Stopped || s.closer.Waited?
  }

  lemma StepAfterStop(max: nat, s: State, step: Step)
    requires Ordered(s) && StopReturned(s) && Enabled(s, step)
    ensures var s' := Next(max, s, step);
      && StopReturned(s') && s'.handlers.Keys == s.handlers.Keys
      && (s.closer == Waited(true) ==> s'.closer == Waited(true) && s'.handlers == s.handlers)
  {
  }

  lemma {:induction false} JoinRun(max: nat, x: seq<Step>, y: seq<Step>)
    requires Run(max, START, x) && Run(max, Final(max, START, x), y)
    ensures Run(max, START, x + y) && Final(max, START, x + y) == Final(max, Final(max, START, x), y)
  {
    if y == [] {
      assert x + y == x;
    } else {
      assert (x + y)[..|x + y| - 1] == x + y[..|y| - 1];
      JoinRun(max, x, y[..|y| - 1]);
    }
  }

  /** Once stop has returned no handler joins, over any continuation of any run. */
  lemma {:induction false} NoneJoinsAfterStop(max: nat, x: seq<Step>, y: seq<Step>)
    requires Run(max, START, x) && Run(max, Final(max, START, x), y) && StopReturned(Final(max, START, x))
    ensures var s, s' := Final(max, START, x), Final(max, Final(max, START, x), y);
      && StopReturned(s') && s'.handlers.Keys == s.handlers.Keys
      && (s.closer == Waited(true) ==> s'.closer == Waited(true) && s'.handlers == s.handlers)
  {
    hide Next, Enabled, Ordered, Counted;
    if y != [] {
      var init := y[..|y| - 1];
      NoneJoinsAfterStop(max, x, init);
      JoinRun(max, x, init);
      RunsKeep(max, x + init);
      StepAfterStop(max, Final(max, Final(max, START, x), init), y[|y| - 1]);
    }
  }

  /** A wait that reported true means no handler runs, then or ever after. */
  lemma TrueWaitMeansNoneEverRuns(max: nat, x: seq<Step>, y: seq<Step>)
    requires Run(max, START, x) && Run(max, Final(max, START, x), y)
    requires Final(max, START, x).closer == Waited(true)
    ensures var s' := Final(max, Final(max, START, x), y);
      forall id :: id in s'.handlers ==> s'.handlers[id] == Gone
  {
    hide Final, Run, Counted;
    RunsKeep(max, x);
    NoneJoinsAfterStop(max, x, y);
  }

  /** Giving a slot back never blocks, and leaving the wait group never takes it below zero. */
  lemma ReleasesNeverBlock(max: nat, steps: seq<Step>, id: nat)
    requires Run(max, START, steps)
    ensures var s := Final(max, START, steps);
      && (At(s, id, Refused) ==> Enabled(s, GiveBack(id)))
      && (id in s.handlers && s.handlers[id] == Running ==> Enabled(s, Release(id)))
      && (id in s.handlers && s.handlers[id] == Released ==> Enabled(s, Leave(id)))
  {
    hide Final, Run, Ordered;
    RunsKeep(max, steps);
    var s := Final(max, START, steps);
    if At(s, id, Refused) {
      assert id in Ids(s.calls, HoldsSlot);
    }
    if id in s.handlers && s.handlers[id] == Running {
      assert id in Ids(s.handlers, IsRunning);
    }
    if id in s.handlers && s.handlers[id] == Released {
      assert id in Ids(s.handlers, IsWaitedFor);
    }
  }

  /** How many slots are held: by calls on their way in or out, and by handlers that run. */
  ghost function Held(s: State): nat {
    |Ids(s.calls, HoldsSlot)| + |Ids(s.handlers, IsRunning)|
  }

  /** In every reachable state a call is turned away as overload if and only if all the slots are held. */
  lemma OverloadExactlyWhenFull(max: nat, steps: seq<Step>, id: nat)
    requires Run(max, START, steps) && Enabled(Final(max, START, steps), TrySlot(id))
    ensures var s := Final(max, START, steps);
      var s' := Next(max, s, TrySlot(id));
      if Held(s) == max then At(s', id, Overloaded) && Held(s') == max
      else Held(s) < max && At(s', id, Slotted) && Held(s') == Held(s) + 1
  {
    hide Ids, Final, Run, Ordered;
    RunsKeep(max, steps);
    StepCountsOf(max, steps, id);
  }

  lemma StepCountsOf(max: nat, steps: seq<Step>, id: nat)
    requires Run(max, START, steps) && Enabled(Final(max, START, steps), TrySlot(id))
    ensures Counted(max, Next(max, Final(max, START, steps), TrySlot(id)))
  {
    hide Counted, Ordered, Next, Run, Final;
    RunsKeep(max, steps);
    StepCounts(max, Final(max, START, steps), TrySlot(id));
  }

  /**
   A call that has its slot and reads the gate is admitted if and only if stop has not
   set it closed; the admitted go on to a running handler, the others give their slot back.
   */
  lemma AdmittedExactlyWhenOpen(max: nat, steps: seq<Step>, id: nat)
    requires Run(max, START, steps) && Enabled(Final(max, START, steps), Check(id))
    ensures var s := Final(max, START, steps);
      var s' := Next(max, s, Check(id));
      && At(s', id, if s.closer == Before then Admitted else Refusing)
      && s'.handlers == s.handlers && s'.slots == s.slots
  {
    hide Ids, Final, Run, Counted;
    RunsKeep(max, steps);
  }

  /** No call is stuck but for the lock: from each place it has its next step, and this is where that leads. */
  lemma CallsGoOn(max: nat, s: State, id: nat)
    requires id in s.calls
    ensures match s.calls[id]
      case Called => Enabled(s, TrySlot(id))
      case Overloaded =>
        && Enabled(s, CountOverload(id))
        && At(Next(max, s, CountOverload(id)), id, Done(Overload)) && Next(max, s, CountOverload(id)).overload == s.overload + 1
      case Slotted => s.mu == Free ==> Enabled(s, LockCall(id)) && At(Next(max, s, LockCall(id)), id, Locked)
      case Locked => Enabled(s, Check(id))
      case Admitted =>
        && Enabled(s, Spawn(id)) && At(Next(max, s, Spawn(id)), id, Spawned)
        && Next(max, s, Spawn(id)).handlers == s.handlers[id := Running] && Next(max, s, Spawn(id)).wg == s.wg + 1
      case Spawned => Enabled(s, Unlock(id)) && At(Next(max, s, Unlock(id)), id, Done(Started)) && Next(max, s, Unlock(id)).mu == Free
      case Refusing => Enabled(s, Unlock(id)) && At(Next(max, s, Unlock(id)), id, Refused) && Next(max, s, Unlock(id)).mu == Free
      case Refused => s.slots > 0 ==> At(Next(max, s, GiveBack(id)), id, Uncounted) && Next(max, s, GiveBack(id)).slots == s.slots - 1
      case Uncounted =>
        && Enabled(s, CountShutdown(id))
        && At(Next(max, s, CountShutdown(id)), id, Done(Shutdown)) && Next(max, s, CountShutdown(id)).shutdown == s.shutdown + 1
      case Done(_) => true
  {
  }

  /** Close: it waits for the lock, then reports true once no handler is left, and may always give up with false. */
  lemma CloserGoesOn(max: nat, s: State)
    ensures s.closer == Before && s.mu == Free ==> Enabled(s, LockCloser) && Next(max, s, LockCloser).closer == Closing
    ensures s.closer == Closing ==> Enabled(s, SetClosed) && Next(max, s, SetClosed).closed
    ensures s.closer == Set ==> Enabled(s, UnlockCloser) && Next(max, s, UnlockCloser).mu == Free
    ensures s.closer == Stopped ==> Enabled(s, WaitTimesOut) && Next(max, s, WaitTimesOut).closer == Waited(false)
    ensures s.closer == Stopped && s.wg == 0 ==> Enabled(s, WaitOver) && Next(max, s, WaitOver).closer == Waited(true)
  {
  }

  /** A handler that runs gives its slot back, and then leaves the wait group. */
  lemma HandlersGoOn(max: nat, s: State, id: nat)
    requires id in s.handlers
    ensures s.handlers[id] == Running && s.slots > 0 ==>
      var e := Next(max, s, Release(id)); e.handlers == s.handlers[id := Released] && e.slots == s.slots - 1 && e.wg == s.wg
    ensures s.handlers[id] == Released && s.wg > 0 ==>
      var e := Next(max, s, Leave(id)); e.handlers == s.handlers[id := Gone] && e.wg == s.wg - 1 && e.slots == s.slots
  {
  }

  /** A call that arrives tries for a slot. */
  lemma ArrivesCalled(max: nat, s: State, id: nat)
    requires id !in s.calls
    ensures Next(max, s, Arrive(id)) == s.(calls := s.calls[id := Called])
  {
  }
}
