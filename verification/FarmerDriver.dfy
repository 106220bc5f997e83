/**
 * When and how the driver of a farmer leaves its loop, and what becomes of a driver that outlasts
 * its farmer.
 */
module FarmerDriver {
  import opened Outcomes
  import opened Destructors
  import opened FarmsDriver
  import opened FarmerLifecycle
  import opened FarmerClose
  import opened FarmerTasks

  ghost predicate OnlyEnds(markers: seq<Message<nat, FarmerLifecycle.Error>>) {
    forall i :: 0 <= i < |markers| ==> markers[i] == Ok(Value(None))
  }

  /** The driver was asked to stop, and that is the last thing in the queue. */
  ghost predicate WasCancelled(d: DriverThread) {
    d.signalled && |d.queue| == |d.outcomes| + 1 && Last(d.queue) == Ok(Cancelled(DropSignalReceived))
  }

  /** Every farm has ended, and the queue is full with markers of the end of the stream. */
  ghost predicate RanOut(d: DriverThread) {
    |d.outcomes| <= |d.queue| == 256 && OnlyEnds(d.queue[|d.outcomes|..]) && d.running == {}
  }

  /** What follows the outcomes in the queue of a driver whose receiver is there. */
  ghost predicate MarkerInvariant(d: DriverThread) {
    && (d.phase.Absent? ==> d.queue == [] && d.outcomes == [])
    && (d.phase.Looping? ==> |d.outcomes| <= |d.queue| && OnlyEnds(d.queue[|d.outcomes|..]))
    && (d.phase.Unwinding? || d.phase.Exited? ==> WasCancelled(d) || RanOut(d))
  }

  lemma DriverKeepsMarkers(d: DriverThread, inFlight: set<nat>, step: DriverStep, farms: nat)
    requires farms <= CHANNEL_CAPACITY && !d.receiverDropped && QueueInvariant(d, farms)
    requires MarkerInvariant(d) && DriverEnabled(d, inFlight, step)
    ensures MarkerInvariant(DriverApply(d, step))
  {
    DriverKeepsQueue(d, inFlight, step, farms);
    if step.StreamExhausted? && HasRoom(d) {
      var d' := DriverApply(d, step);
      assert d'.queue[|d.outcomes|..] == d.queue[|d.outcomes|..] + [Ok(Value(None))];
    }
  }

  lemma OthersKeepMarkers(s: State, step: Step)
    requires Enabled(s, step) && !step.ByDriver? && MarkerInvariant(s.driver)
    ensures MarkerInvariant(Apply(s, step).driver)
  {
    match step
    case ByBuilder(_) =>
    case ByOwner(_) =>
      var d' := Apply(s, step).driver;
      assert d' == s.driver.(signalled := d'.signalled, receiverDropped := d'.receiverDropped);
      assert s.driver.signalled ==> d'.signalled;
    case ByEnvironment(_) =>
  }

  lemma StepKeepsMarkers(s: State, step: Step)
    requires Invariant(s) && Enabled(s, step)
    requires !s.driver.receiverDropped ==> MarkerInvariant(s.driver)
    ensures !Apply(s, step).driver.receiverDropped ==> MarkerInvariant(Apply(s, step).driver)
  {
    if s.driver.receiverDropped {
      DroppedStaysDropped(s, step);
    } else if step.ByDriver? {
      DriverKeepsMarkers(s.driver, s.events.inFlight, step.drive, s.owner.farms);
    } else {
      OthersKeepMarkers(s, step);
    }
  }

  lemma DroppedStaysDropped(s: State, step: Step)
    requires Invariant(s) && Enabled(s, step) && s.driver.receiverDropped
    ensures Apply(s, step).driver.receiverDropped || Apply(s, step).driver == NO_DRIVER
  {
    match step
    case ByBuilder(_) =>
    case ByOwner(_) => assert Apply(s, step).driver == s.driver.(signalled := Apply(s, step).driver.signalled);
    case ByDriver(_) =>
    case ByEnvironment(_) =>
  }

  lemma {:induction false} RunKeepsMarkers(s: State, steps: seq<Step>)
    requires Invariant(s) && Executable(s, steps)
    requires !s.driver.receiverDropped ==> MarkerInvariant(s.driver)
    ensures !Execute(s, steps).driver.receiverDropped ==> MarkerInvariant(Execute(s, steps).driver)
    decreases |steps|
  {
    if steps != [] {
      StepKeepsMarkers(s, steps[0]);
      StepKeepsInvariant(s, steps[0]);
      RunKeepsMarkers(Apply(s, steps[0]), steps[1..]);
    }
  }

  /**
   * While there is a receiver the driver leaves its loop only for one of two reasons: it was asked
   * to stop, and its last message says so; or all farms have ended and the channel is full of end
   * markers. So the driver of a farmer that lives goes on until every farm has ended.
   */
  lemma DriverStopsForAReason(s: State)
    requires Reachable(s) && !s.driver.receiverDropped
    requires !s.driver.phase.Looping? && !s.driver.phase.Absent?
    ensures WasCancelled(s.driver) || RanOut(s.driver)
    ensures s.owner.phase.Live? ==> RanOut(s.driver)
  {
    var steps :| Executable(START, steps) && Execute(START, steps) == s;
    RunKeepsMarkers(START, steps);
    ReachableTasks(s);
  }

  // ---------------------------------------------------------------------------------------
  // Winding down
  // ---------------------------------------------------------------------------------------

  /** Turns left of a driver that nobody listens to any more, and of the calls that hold it up. */
  function WindDown(s: State): nat {
    (match s.driver.phase case Absent => 0 case Looping => 2 case Unwinding => 1 case Exited => 0)
    + |s.driver.running| + |s.events.inFlight|
  }

  /** A driver that outlasts its farmer has a turn left, or a call that it waits for has. */
  lemma OutlastingDriverGoesOn(s: State) returns (step: Step)
    requires Reachable(s) && s.owner.phase.Idle? && Active(s.driver)
    ensures Guaranteed(step) && Enabled(s, step)
    ensures Apply(s, step).owner == s.owner && WindDown(Apply(s, step)) < WindDown(s)
  {
    WorkersAreSignalledInTime(s);
    ReachableInvariant(s);
    var d := s.driver;
    if d.phase.Looping? {
      step := ByDriver(if d.running == {} then StreamExhausted else TakeSignal);
    } else if s.events.inFlight != {} {
      var i :| i in s.events.inFlight;
      step := ByEnvironment(HandlerRuns(i));
    } else if d.running != {} {
      var i :| i in d.running;
      step := ByDriver(DropFarm(i));
    } else {
      step := ByDriver(DriverExits);
    }
  }

  lemma {:induction false} DriverWindsDown(s: State) returns (end: State)
    requires Reachable(s) && s.owner.phase.Idle?
    ensures Reachable(end) && end.owner.phase.Idle? && !Active(end.driver)
    decreases WindDown(s)
  {
    end := s;
    if Active(s.driver) {
      var step := OutlastingDriverGoesOn(s);
      end := Reach(s, step);
      end := DriverWindsDown(end);
    }
  }

  /**
   * A farmer that is gone, closed or dropped, leaves room for another: right away if it was closed,
   * and in any case once its driver has wound down, for which no farm need end by itself.
   */
  lemma AnotherFarmerCanFollow(s: State, n: nat)
    requires Reachable(s) && s.owner.phase.Idle? && n > 0
    ensures s.closed.Some? ==> !Active(s.driver)
    ensures Enabled(s, ByBuilder(BeginBuild(n))) <==> !Active(s.driver)
    ensures exists end :: Reachable(end) && Enabled(end, ByBuilder(BeginBuild(n)))
  {
    if s.closed.Some? {
      CloseLeavesNothing(s);
    }
    var end := DriverWindsDown(s);
    assert Enabled(end, ByBuilder(BeginBuild(n)));
  }
}
