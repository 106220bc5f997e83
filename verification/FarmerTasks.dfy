/**
 * The workers of a farmer: they run until they end by themselves or are asked to, they are not asked
 * to while the farmer lives, and a close leaves none of them behind.
 */
module FarmerTasks {
  import opened Outcomes
  import opened Destructors
  import opened FarmsDriver
  import opened FarmerLifecycle

  predicate Stopped(t: Task) {
    t.signalled && !t.running
  }

  /** A worker is signalled only when its cleanup is the newest registration left, or is consumed. */
  ghost predicate SignalInvariant(s: State) {
    var o := s.owner;
    && (o.phase.Building? || o.phase.Live? ==>
          !s.cacheWorker.signalled && !s.delayTask.signalled && !s.driver.signalled)
    && (s.cacheWorker.signalled ==> |o.registered| <= 1)
    && (s.delayTask.signalled ==> |o.registered| <= 3)
    && (s.driver.signalled ==> |o.registered| <= 5)
  }

  /** What a close has gone past is stopped. */
  ghost predicate JoinInvariant(s: State) {
    var n := |s.owner.registered|;
    && (n >= 5 || At(s.owner, DriverSpawned) ==> !s.driver.phase.Absent?)
    && (s.owner.phase.Live? ==> n >= 5)
    && (s.owner.phase == TearingDown(Awaiting) || s.closed.Some? ==>
          && (n < 1 ==> Stopped(s.cacheWorker))
          && (n < 3 ==> Stopped(s.delayTask))
          && (n < 5 ==> s.driver.phase.Exited? && s.driver.signalled))
  }

  /** A worker that outlasts its cleanup has been asked to stop. */
  ghost predicate OutlastInvariant(s: State) {
    var n := |s.owner.registered|;
    s.owner.phase.TearingDown? || s.owner.phase.Idle? ==>
      && (s.cacheWorker.running && n < 1 ==> s.cacheWorker.signalled)
      && (s.delayTask.running && n < 3 ==> s.delayTask.signalled)
      && (Active(s.driver) && n < 5 ==> s.driver.signalled)
  }

  /** Before they are spawned, workers do not run. */
  ghost predicate SpawnInvariant(s: State) {
    s.owner.phase.Building? ==>
      && (s.cacheWorker.running ==> |s.owner.registered| >= 1)
      && (s.delayTask.running ==> |s.owner.registered| >= 3)
      && (Active(s.driver) ==> |s.owner.registered| >= 5 || At(s.owner, DriverSpawned))
  }

  ghost predicate TaskInvariant(s: State) {
    SignalInvariant(s) && JoinInvariant(s) && OutlastInvariant(s) && SpawnInvariant(s)
  }

  lemma BuildKeepsTasks(s: State, step: BuildStep)
    requires Invariant(s) && TaskInvariant(s) && BuildEnabled(s, step)
    ensures TaskInvariant(BuildApply(s, step))
  {
  }

  lemma ConsumeKeepsSignals(s: State)
    requires OwnerInvariant(s.owner) && SignalInvariant(s) && OwnerEnabled(s, Consume)
    ensures SignalInvariant(OwnerApply(s, Consume))
  {
    assert Last(s.owner.registered) == EntryAt(|s.owner.registered| - 1);
  }

  lemma ConsumeKeepsJoins(s: State)
    requires OwnerInvariant(s.owner) && JoinInvariant(s) && OwnerEnabled(s, Consume) && s.closed.None?
    ensures JoinInvariant(OwnerApply(s, Consume))
  {
    var s' := OwnerApply(s, Consume);
    assert Last(s.owner.registered) == EntryAt(|s.owner.registered| - 1);
    assert s'.driver.phase == s.driver.phase && s'.owner.phase == s.owner.phase && s'.closed == s.closed;
    if s.owner.phase == TearingDown(Awaiting) {
      assert s'.driver == s.driver && s'.cacheWorker == s.cacheWorker && s'.delayTask == s.delayTask;
    }
  }

  lemma ConsumeKeepsOutlasting(s: State)
    requires OwnerInvariant(s.owner) && JoinInvariant(s) && OutlastInvariant(s) && OwnerEnabled(s, Consume)
    ensures OutlastInvariant(OwnerApply(s, Consume))
  {
    assert Last(s.owner.registered) == EntryAt(|s.owner.registered| - 1);
  }

  lemma ConsumeKeepsTasks(s: State)
    requires Invariant(s) && TaskInvariant(s) && OwnerEnabled(s, Consume)
    ensures TaskInvariant(OwnerApply(s, Consume))
  {
    ConsumeKeepsSignals(s);
    ConsumeKeepsJoins(s);
    ConsumeKeepsOutlasting(s);
    assert OwnerApply(s, Consume).owner.phase == s.owner.phase;
  }

  lemma SignalKeepsTasks(s: State)
    requires Invariant(s) && TaskInvariant(s) && OwnerEnabled(s, SignalTask)
    ensures TaskInvariant(OwnerApply(s, SignalTask))
  {
    assert Last(s.owner.registered) == EntryAt(|s.owner.registered| - 1);
  }

  lemma JoinKeepsTasks(s: State)
    requires Invariant(s) && TaskInvariant(s) && OwnerEnabled(s, JoinTask)
    ensures TaskInvariant(OwnerApply(s, JoinTask))
  {
    assert Last(s.owner.registered) == EntryAt(|s.owner.registered| - 1);
  }

  lemma OwnerKeepsTasks(s: State, step: OwnerStep)
    requires Invariant(s) && TaskInvariant(s) && OwnerEnabled(s, step)
    ensures TaskInvariant(OwnerApply(s, step))
  {
    match step
    case Consume => ConsumeKeepsTasks(s);
    case SignalTask => SignalKeepsTasks(s);
    case JoinTask => JoinKeepsTasks(s);
    case BeginClose =>
    case BeginDrop =>
    case EndTeardown =>
  }

  lemma DriverGoesOn(d: DriverThread, inFlight: set<nat>, step: DriverStep)
    requires DriverEnabled(d, inFlight, step)
    ensures DriverApply(d, step).signalled == d.signalled
    ensures !d.phase.Exited? && !d.phase.Absent? && !DriverApply(d, step).phase.Absent?
  {
  }

  lemma DriverKeepsTasks(s: State, step: DriverStep)
    requires TaskInvariant(s) && DriverEnabled(s.driver, s.events.inFlight, step)
    ensures TaskInvariant(s.(driver := DriverApply(s.driver, step)))
  {
    DriverGoesOn(s.driver, s.events.inFlight, step);
  }

  lemma EventKeepsTasks(s: State, step: EventStep)
    requires TaskInvariant(s) && EventEnabled(s, step)
    ensures TaskInvariant(EventApply(s, step))
  {
  }

  lemma StepKeepsTasks(s: State, step: Step)
    requires Invariant(s) && TaskInvariant(s) && Enabled(s, step)
    ensures TaskInvariant(Apply(s, step))
  {
    match step
    case ByBuilder(b) => BuildKeepsTasks(s, b);
    case ByOwner(o) => OwnerKeepsTasks(s, o);
    case ByDriver(d) => DriverKeepsTasks(s, d);
    case ByEnvironment(e) => EventKeepsTasks(s, e);
  }

  lemma {:induction false} RunKeepsTasks(s: State, steps: seq<Step>)
    requires Invariant(s) && TaskInvariant(s) && Executable(s, steps)
    ensures TaskInvariant(Execute(s, steps))
    decreases |steps|
  {
    if steps != [] {
      StepKeepsTasks(s, steps[0]);
      StepKeepsInvariant(s, steps[0]);
      RunKeepsTasks(Apply(s, steps[0]), steps[1..]);
    }
  }

  lemma ReachableTasks(s: State)
    requires Reachable(s)
    ensures Invariant(s) && TaskInvariant(s)
  {
    var steps :| Executable(START, steps) && Execute(START, steps) == s;
    RunKeepsInvariant(START, steps);
    RunKeepsTasks(START, steps);
  }

  /** When `close` has answered nothing of the farmer is left: no worker, handler, call or slot. */
  lemma CloseLeavesNothing(s: State)
    requires Reachable(s) && s.closed.Some?
    ensures Stopped(s.cacheWorker) && Stopped(s.delayTask)
    ensures s.driver.phase.Exited? && s.driver.running == {}
    ensures s.events.handlers == {} && s.events.inFlight == {} && !s.events.panicked
    ensures s.owner.registered == [] && s.slots == Slots(false, false)
  {
    ReachableTasks(s);
    assert Attached(s.owner) == 0;
  }

  /**
   * No worker is asked to stop while the farmer is built or lives; and every worker that is still
   * there when the farmer is gone has been asked to.
   */
  lemma WorkersAreSignalledInTime(s: State)
    requires Reachable(s)
    ensures s.owner.phase.Building? || s.owner.phase.Live? ==>
              !s.cacheWorker.signalled && !s.delayTask.signalled && !s.driver.signalled
    ensures s.owner.phase.Idle? ==>
              && (s.cacheWorker.running ==> s.cacheWorker.signalled)
              && (s.delayTask.running ==> s.delayTask.signalled)
              && (Active(s.driver) ==> s.driver.signalled)
  {
    ReachableTasks(s);
  }

  // ---------------------------------------------------------------------------------------
  // Until they end
  // ---------------------------------------------------------------------------------------

  /** Neither of the background tasks is spawned anew. */
  ghost predicate NoneSpawned(steps: seq<Step>) {
    forall step :: step in steps && step.ByBuilder? ==>
      !step.build.BeginBuild? && !step.build.SpawnCacheWorker? && !step.build.SpawnDelayTask?
  }

  lemma OwnerLeavesRunning(s: State, step: OwnerStep)
    requires OwnerEnabled(s, step)
    ensures OwnerApply(s, step).cacheWorker.running == s.cacheWorker.running
    ensures OwnerApply(s, step).delayTask.running == s.delayTask.running
  {
  }

  lemma TasksOnlyEnd(s: State, step: Step)
    requires Enabled(s, step) && NoneSpawned([step])
    ensures Apply(s, step).cacheWorker.running <==> s.cacheWorker.running && step != ByEnvironment(CacheWorkerEnds)
    ensures Apply(s, step).delayTask.running <==> s.delayTask.running && step != ByEnvironment(DelayTaskEnds)
  {
    assert step in [step];
    match step
    case ByBuilder(_) =>
    case ByOwner(o) => OwnerLeavesRunning(s, o);
    case ByDriver(_) =>
    case ByEnvironment(_) =>
  }

  /** Nothing but its own end stops a background task: signals and joins do not. */
  lemma {:induction false} TasksRunUntilTheyEnd(s: State, steps: seq<Step>)
    requires Executable(s, steps) && NoneSpawned(steps)
    ensures Execute(s, steps).cacheWorker.running <==>
            s.cacheWorker.running && ByEnvironment(CacheWorkerEnds) !in steps
    ensures Execute(s, steps).delayTask.running <==>
            s.delayTask.running && ByEnvironment(DelayTaskEnds) !in steps
    decreases |steps|
  {
    if steps != [] {
      assert steps[0] in steps && forall step :: step in steps <==> step == steps[0] || step in steps[1..];
      TasksOnlyEnd(s, steps[0]);
      TasksRunUntilTheyEnd(Apply(s, steps[0]), steps[1..]);
    }
  }
}
