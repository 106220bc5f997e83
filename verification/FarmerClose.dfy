/**
 * `Farmer::close` comes to an end: it is never stuck, whatever the farms do; every step but the
 * calls of handlers uses up a finite supply of work; and once the handlers are detached no new
 * calls begin.
 */
module FarmerClose {
  import opened Outcomes
  import opened Destructors
  import opened FarmsDriver
  import opened FarmerLifecycle

  function TaskWork(t: Task): nat {
    (if t.running then 1 else 0) + (if t.signalled then 0 else 1)
  }

  /** Turns left to the driver: its farms, and the free places in the channel while it loops. */
  function DriverWork(d: DriverThread): int {
    (match d.phase
     case Absent => 0
     case Looping => 2 + |d.running| + CHANNEL_CAPACITY - |d.queue|
     case Unwinding => 1 + |d.running|
     case Exited => 0)
    + (if d.signalled then 0 else 1)
  }

  /** What is left of a close under way. */
  function Work(s: State): int {
    |s.owner.registered| + TaskWork(s.cacheWorker) + TaskWork(s.delayTask) + DriverWork(s.driver)
  }

  predicate IsHandlerStep(step: Step) {
    step.ByEnvironment? && (step.event.CallBegins? || step.event.HandlerRuns?)
  }

  lemma DriverStepReducesWork(d: DriverThread, inFlight: set<nat>, step: DriverStep)
    requires |d.queue| <= CHANNEL_CAPACITY && DriverEnabled(d, inFlight, step)
    ensures DriverWork(DriverApply(d, step)) < DriverWork(d)
  {
  }

  lemma SignalReducesWork(s: State)
    requires OwnerEnabled(s, SignalTask)
    ensures Work(OwnerApply(s, SignalTask)) < Work(s)
  {
    var s' := OwnerApply(s, SignalTask);
    assert s'.owner == s.owner && s'.driver == s.driver.(signalled := s'.driver.signalled);
  }

  lemma OwnerStepReducesWork(s: State, step: OwnerStep)
    requires OwnerInvariant(s.owner) && OwnerEnabled(s, step)
    requires s.owner.phase == TearingDown(Awaiting) && !step.EndTeardown?
    ensures Work(OwnerApply(s, step)) < Work(s)
    ensures OwnerApply(s, step).owner.phase == TearingDown(Awaiting)
  {
    if step.SignalTask? {
      SignalReducesWork(s);
    } else {
      assert OwnerApply(s, step).driver == s.driver;
    }
  }

  lemma EventStepReducesWork(s: State, step: EventStep)
    requires Invariant(s) && EventEnabled(s, step)
    ensures EventApply(s, step).owner == s.owner
    ensures Work(EventApply(s, step)) <= Work(s) - if IsHandlerStep(ByEnvironment(step)) then 0 else 1
  {
  }

  /** During `close` every step but the calls of handlers uses up work, and the last one ends it. */
  lemma CloseUsesUpWork(s: State, step: Step)
    requires Invariant(s) && Enabled(s, step) && s.owner.phase == TearingDown(Awaiting)
    ensures Apply(s, step).owner.phase == if step == ByOwner(EndTeardown) then Idle else TearingDown(Awaiting)
    ensures step != ByOwner(EndTeardown) ==> Work(Apply(s, step)) <= Work(s) - if IsHandlerStep(step) then 0 else 1
  {
    match step
    case ByDriver(d) => DriverStepReducesWork(s.driver, s.events.inFlight, d);
    case ByOwner(o) =>
      if !o.EndTeardown? {
        OwnerStepReducesWork(s, o);
      }
    case ByEnvironment(e) => EventStepReducesWork(s, e);
    case ByBuilder(_) =>
  }

  /** What is left, calls under way included. */
  function Remaining(s: State): int {
    Work(s) + |s.events.inFlight|
  }

  /** The registrations of the handlers are on top; below them are five others. */
  predicate Detached(s: State) {
    |s.owner.registered| <= 5
  }

  lemma WorkIsLeft(s: State)
    requires Invariant(s) && s.owner.phase == TearingDown(Awaiting)
    ensures Work(s) >= 0
  {
  }

  lemma OwnerKeepsCalls(s: State, step: OwnerStep)
    requires OwnerEnabled(s, step)
    ensures OwnerApply(s, step).events.inFlight == s.events.inFlight
    ensures |OwnerApply(s, step).owner.registered| <= |s.owner.registered|
  {
  }

  lemma CloseOnlyUnregisters(s: State, step: Step)
    requires Enabled(s, step) && s.owner.phase == TearingDown(Awaiting)
    ensures |Apply(s, step).owner.registered| <= |s.owner.registered|
  {
    if step.ByOwner? {
      OwnerKeepsCalls(s, step.own);
    }
  }

  lemma DetachedCallsEnd(s: State, step: EventStep)
    requires OwnerInvariant(s.owner) && HandlerInvariant(s.owner, s.events.handlers) && EventEnabled(s, step)
    requires s.owner.phase == TearingDown(Awaiting) && Detached(s)
    ensures |EventApply(s, step).events.inFlight| <= |s.events.inFlight|
    ensures step.HandlerRuns? ==> |EventApply(s, step).events.inFlight| < |s.events.inFlight|
    ensures !step.CallBegins?
  {
  }

  /** With the handlers detached calls only end. */
  lemma DetachedCallsOnlyEnd(s: State, step: Step)
    requires OwnerInvariant(s.owner) && HandlerInvariant(s.owner, s.events.handlers) && Enabled(s, step)
    requires s.owner.phase == TearingDown(Awaiting) && Detached(s)
    ensures |Apply(s, step).events.inFlight| <= |s.events.inFlight| - if IsHandlerStep(step) then 1 else 0
  {
    match step
    case ByOwner(o) => OwnerKeepsCalls(s, o);
    case ByEnvironment(e) => DetachedCallsEnd(s, e);
    case ByDriver(_) =>
    case ByBuilder(_) =>
  }

  /** What a step of a close uses up: of all that remains, once the handlers are detached. */
  lemma CloseStep(s: State, step: Step)
    requires Invariant(s) && s.owner.phase == TearingDown(Awaiting)
    requires Enabled(s, step) && step != ByOwner(EndTeardown)
    ensures Invariant(Apply(s, step)) && Apply(s, step).owner.phase == TearingDown(Awaiting)
    ensures |Apply(s, step).owner.registered| <= |s.owner.registered|
    ensures Work(Apply(s, step)) <= Work(s) - if IsHandlerStep(step) then 0 else 1
    ensures Detached(s) ==> Remaining(Apply(s, step)) < Remaining(s)
  {
    StepKeepsInvariant(s, step);
    CloseUsesUpWork(s, step);
    CloseOnlyUnregisters(s, step);
    if Detached(s) {
      DetachedCallsOnlyEnd(s, step);
    }
  }

  function OtherThanHandlerSteps(steps: seq<Step>): nat {
    if steps == [] then 0
    else (if IsHandlerStep(steps[0]) then 0 else 1) + OtherThanHandlerSteps(steps[1..])
  }

  /**
   * A close that is still under way has taken a bounded number of steps other than handler calls:
   * the free channel places bound even a driver that never looks at its signal. Once the handlers
   * are detached, the bound is on all steps.
   */
  lemma {:induction false} CloseIsBounded(s: State, steps: seq<Step>)
    requires Invariant(s) && s.owner.phase == TearingDown(Awaiting)
    requires Executable(s, steps) && ByOwner(EndTeardown) !in steps
    ensures Execute(s, steps).owner.phase == TearingDown(Awaiting)
    ensures OtherThanHandlerSteps(steps) <= Work(s)
    ensures Detached(s) ==> |steps| <= Remaining(s)
    decreases |steps|
  {
    if steps == [] {
      WorkIsLeft(s);
    } else {
      CloseStep(s, steps[0]);
      CloseIsBounded(Apply(s, steps[0]), steps[1..]);
    }
  }

  /** Steps that need no farm to end and no sector to be plotted. */
  predicate Guaranteed(step: Step) {
    match step
    case ByDriver(d) => !d.FarmEnds?
    case ByEnvironment(e) => !e.CallBegins?
    case _ => true
  }

  /** `close` cannot get stuck: some guaranteed step can be taken until it has ended. */
  lemma CloseIsNeverStuck(s: State)
    requires Invariant(s) && s.owner.phase == TearingDown(Awaiting)
    ensures exists step :: Guaranteed(step) && Enabled(s, step)
  {
    var o, d := s.owner, s.driver;
    var step: Step;
    if o.registered == [] {
      step := ByOwner(EndTeardown);
    } else if !Awaits(o) {
      step := ByOwner(Consume);
    } else if !TaskOf(s, Last(o.registered).payload).signalled {
      step := ByOwner(SignalTask);
    } else if !TaskOf(s, Last(o.registered).payload).running {
      step := ByOwner(JoinTask);
    } else if Last(o.registered).payload.PieceCacheWorker? {
      step := ByEnvironment(CacheWorkerEnds);
    } else if Last(o.registered).payload.PlottingDelayTask? {
      step := ByEnvironment(DelayTaskEnds);
    } else if d.phase.Looping? {
      step := ByDriver(if d.running == {} then StreamExhausted else TakeSignal);
    } else if s.events.inFlight != {} {
      var i :| i in s.events.inFlight;
      step := ByEnvironment(HandlerRuns(i));
    } else if d.running != {} {
      var i :| i in d.running;
      step := ByDriver(DropFarm(i));
    } else {
      step := ByDriver(DriverExits);
    }
    assert Guaranteed(step) && Enabled(s, step);
  }

  // ---------------------------------------------------------------------------------------
  // Fair runs
  // ---------------------------------------------------------------------------------------

  ghost predicate Follows(run: nat -> State, schedule: nat -> Step, k: nat) {
    Enabled(run(k), schedule(k)) && run(k + 1) == Apply(run(k), schedule(k))
  }

  /** A run that goes on for ever. */
  ghost predicate IsEndless(run: nat -> State, schedule: nat -> Step) {
    forall k :: Follows(run, schedule, k)
  }

  /** Some time from `k` on the owner gets a turn, or has no handler to detach. */
  ghost predicate GetsTurn(run: nat -> State, schedule: nat -> Step, k: nat) {
    exists j: nat :: k <= j && (schedule(j).ByOwner? || !Enabled(run(j), ByOwner(Consume)))
  }

  /** Handler calls do not starve the owner. Nothing is asked of farms, driver and background tasks. */
  ghost predicate OwnerIsNotStarved(run: nat -> State, schedule: nat -> Step) {
    forall k :: GetsTurn(run, schedule, k)
  }

  ghost predicate NeverEnds(schedule: nat -> Step) {
    forall k :: schedule(k) != ByOwner(EndTeardown)
  }

  ghost predicate IsClosing(s: State) {
    Invariant(s) && s.owner.phase == TearingDown(Awaiting)
  }

  lemma CloseStepInRun(run: nat -> State, schedule: nat -> Step, k: nat)
    requires IsEndless(run, schedule) && IsClosing(run(k)) && schedule(k) != ByOwner(EndTeardown)
    ensures IsClosing(run(k + 1))
    ensures |run(k + 1).owner.registered| <= |run(k).owner.registered|
    ensures Detached(run(k)) ==> Remaining(run(k + 1)) < Remaining(run(k))
  {
    assert Follows(run, schedule, k);
    CloseStep(run(k), schedule(k));
  }

  lemma {:induction false} ClosingUpTo(run: nat -> State, schedule: nat -> Step, k: nat)
    requires IsEndless(run, schedule) && IsClosing(run(0))
    requires forall j: nat :: j < k ==> schedule(j) != ByOwner(EndTeardown)
    ensures IsClosing(run(k))
  {
    if k > 0 {
      ClosingUpTo(run, schedule, k - 1);
      assert Follows(run, schedule, k - 1);
      CloseStep(run(k - 1), schedule(k - 1));
    }
  }

  lemma StillClosing(run: nat -> State, schedule: nat -> Step, k: nat)
    requires IsEndless(run, schedule) && NeverEnds(schedule) && IsClosing(run(0))
    ensures IsClosing(run(k))
  {
    ClosingUpTo(run, schedule, k);
  }

  /** One step of a quantity that falls, or at least does not rise. */
  ghost predicate Falls(f: nat -> int, strictly: bool, k: nat) {
    f(k + 1) <= f(k) - if strictly then 1 else 0
  }

  lemma {:induction false} FallsThroughout(f: nat -> int, strictly: bool, n: nat, m: nat)
    requires forall k :: n <= k ==> Falls(f, strictly, k)
    ensures f(n + m) <= f(n) - if strictly then m else 0
  {
    if m > 0 {
      FallsThroughout(f, strictly, n, m - 1);
      assert Falls(f, strictly, n + m - 1);
    }
  }

  lemma RegistrationsShrink(run: nat -> State, schedule: nat -> Step, k: nat, j: nat)
    requires IsEndless(run, schedule) && NeverEnds(schedule) && IsClosing(run(0)) && k <= j
    ensures |run(j).owner.registered| <= |run(k).owner.registered|
  {
    var registrations := (i: nat) => |run(i).owner.registered|;
    forall i | k <= i ensures Falls(registrations, false, i) {
      StillClosing(run, schedule, i);
      CloseStepInRun(run, schedule, i);
    }
    FallsThroughout(registrations, false, k, j - k);
  }

  /** While a handler is attached, detaching the next one is what the owner can do, and all it can do. */
  lemma OwnerDetaches(s: State)
    requires Invariant(s) && s.owner.phase == TearingDown(Awaiting) && !Detached(s)
    ensures Enabled(s, ByOwner(Consume))
    ensures forall o :: OwnerEnabled(s, o) ==> o == Consume
    ensures |OwnerApply(s, Consume).owner.registered| < |s.owner.registered|
  {
    assert Last(s.owner.registered) == EntryAt(|s.owner.registered| - 1);
  }

  lemma DetachingStepInRun(run: nat -> State, schedule: nat -> Step, k: nat)
    requires IsEndless(run, schedule) && NeverEnds(schedule) && IsClosing(run(0)) && !Detached(run(k))
    requires schedule(k).ByOwner? || !Enabled(run(k), ByOwner(Consume))
    ensures |run(k + 1).owner.registered| < |run(k).owner.registered|
  {
    StillClosing(run, schedule, k);
    OwnerDetaches(run(k));
    assert Follows(run, schedule, k);
  }

  lemma TurnDetaches(run: nat -> State, schedule: nat -> Step, k: nat) returns (n: nat)
    requires IsEndless(run, schedule) && NeverEnds(schedule) && OwnerIsNotStarved(run, schedule)
    requires IsClosing(run(0)) && !Detached(run(k))
    ensures |run(n).owner.registered| < |run(k).owner.registered|
  {
    assert GetsTurn(run, schedule, k);
    n :| k <= n && (schedule(n).ByOwner? || !Enabled(run(n), ByOwner(Consume)));
    RegistrationsShrink(run, schedule, k, n);
    if !Detached(run(n)) {
      DetachingStepInRun(run, schedule, n);
      n := n + 1;
    }
  }

  lemma {:induction false} HandlersGetDetached(run: nat -> State, schedule: nat -> Step, k: nat) returns (n: nat)
    requires IsEndless(run, schedule) && NeverEnds(schedule) && OwnerIsNotStarved(run, schedule)
    requires IsClosing(run(0))
    ensures Detached(run(n))
    decreases |run(k).owner.registered|
  {
    n := k;
    if !Detached(run(k)) {
      n := TurnDetaches(run, schedule, k);
      n := HandlersGetDetached(run, schedule, n);
    }
  }

  lemma RemainingRunsOut(run: nat -> State, schedule: nat -> Step, n: nat, m: nat)
    requires IsEndless(run, schedule) && NeverEnds(schedule) && IsClosing(run(0)) && Detached(run(n))
    ensures 0 <= Remaining(run(n + m)) <= Remaining(run(n)) - m
  {
    StillClosing(run, schedule, n + m);
    WorkIsLeft(run(n + m));
    var remaining := (k: nat) => Remaining(run(k));
    forall i | n <= i ensures Falls(remaining, true, i) {
      StillClosing(run, schedule, i);
      RegistrationsShrink(run, schedule, n, i);
      CloseStepInRun(run, schedule, i);
    }
    FallsThroughout(remaining, true, n, m);
  }

  lemma {:induction false} FirstEnd(schedule: nat -> Step, n: nat) returns (k: nat)
    requires schedule(n) == ByOwner(EndTeardown)
    ensures schedule(k) == ByOwner(EndTeardown)
    ensures forall j: nat :: j < k ==> schedule(j) != ByOwner(EndTeardown)
  {
    k := n;
    if j: nat :| j < n && schedule(j) == ByOwner(EndTeardown) {
      k := FirstEnd(schedule, j);
    }
  }

  /** Step `k` ends the close, and from it on `close` has answered as the farms ended. */
  ghost predicate AnswersAt(run: nat -> State, schedule: nat -> Step, k: nat) {
    && schedule(k) == ByOwner(EndTeardown)
    && run(k + 1).closed.Some? && Tells(run(k + 1).closed.value, run(k).driver.outcomes)
  }

  /**
   * `close` terminates: a run in which handler calls do not starve it for ever ends the close, with
   * its answer, even if no farm ends and the driver never looks at its signal. As it is never stuck,
   * this leaves it no way to go on for ever.
   */
  lemma CloseTerminates(run: nat -> State, schedule: nat -> Step)
    requires IsEndless(run, schedule) && OwnerIsNotStarved(run, schedule) && IsClosing(run(0))
    ensures exists k :: AnswersAt(run, schedule, k)
  {
    if NeverEnds(schedule) {
      var n := HandlersGetDetached(run, schedule, 0);
      RemainingRunsOut(run, schedule, n, 0);
      RemainingRunsOut(run, schedule, n, Remaining(run(n)) + 1);
      assert false;
    } else {
      var n :| schedule(n) == ByOwner(EndTeardown);
      var k := FirstEnd(schedule, n);
      ClosingUpTo(run, schedule, k);
      AnswerAt(run, schedule, k);
    }
  }

  lemma AnswerAt(run: nat -> State, schedule: nat -> Step, k: nat)
    requires IsEndless(run, schedule) && IsClosing(run(k)) && schedule(k) == ByOwner(EndTeardown)
    ensures AnswersAt(run, schedule, k)
  {
    assert Follows(run, schedule, k);
    CloseAnswers(run(k));
  }

  // ---------------------------------------------------------------------------------------
  // Closing from any point
  // ---------------------------------------------------------------------------------------

  lemma GuaranteedStepsEndClose(s: State, step: Step)
    requires Invariant(s) && s.owner.phase == TearingDown(Awaiting)
    requires Enabled(s, step) && Guaranteed(step) && step != ByOwner(EndTeardown)
    ensures Remaining(Apply(s, step)) < Remaining(s)
    ensures Apply(s, step).driver.outcomes == s.driver.outcomes
  {
    CloseUsesUpWork(s, step);
    OutcomesGrow(s, step);
    CallsOnlyEnd(s, step);
  }

  lemma CallsOnlyEnd(s: State, step: Step)
    requires Enabled(s, step) && Guaranteed(step) && s.owner.phase == TearingDown(Awaiting)
    ensures |Apply(s, step).events.inFlight| <= |s.events.inFlight| - if IsHandlerStep(step) then 1 else 0
  {
    match step
    case ByOwner(o) => OwnerKeepsCalls(s, o);
    case ByEnvironment(_) =>
    case ByDriver(_) =>
    case ByBuilder(_) =>
  }

  /** From any point of a close, guaranteed steps alone lead to its answer; no farm need end for it. */
  lemma {:induction false} CloseCanEnd(s: State) returns (end: State)
    requires Reachable(s) && s.owner.phase == TearingDown(Awaiting)
    ensures Reachable(end) && end.closed.Some? && end.driver.outcomes == s.driver.outcomes
    decreases RemainingIn(s)
  {
    ReachableInvariant(s);
    CloseIsNeverStuck(s);
    var step :| Guaranteed(step) && Enabled(s, step);
    end := Reach(s, step);
    if step == ByOwner(EndTeardown) {
      CloseAnswers(s);
    } else {
      GuaranteedStepsEndClose(s, step);
      CloseUsesUpWork(s, step);
      ReachableInvariant(end);
      WorkIsLeft(end);
      end := CloseCanEnd(end);
    }
  }

  function RemainingIn(s: State): nat {
    if Remaining(s) < 0 then 0 else Remaining(s)
  }
}
