/**
 * When a dropped farmer is harmless. A drop discards the cleanup of the driver instead of joining
 * it, so farms and handler calls can outlast the index slot, and a handler that then runs panics.
 */
module FarmerDrop {
  import opened Outcomes
  import opened Destructors
  import opened FarmerLifecycle
  import opened FarmerScenarios

  /** In some interleaving that is about this farmer only, a handler finds the index slot empty. */
  ghost predicate CanPanic(s: State) {
    exists steps :: Executable(s, steps) && NoneStartsAfresh(steps) && Execute(s, steps).events.panicked
  }

  /** The farmer is being dropped, or is gone. */
  predicate Dismissed(s: State) {
    s.owner.phase == TearingDown(Discarding) || s.owner.phase.Idle?
  }

  /** A handler call is under way, or one can still begin. */
  predicate Threatened(s: State) {
    s.events.inFlight != {} || s.events.handlers * s.driver.running != {}
  }

  lemma OwnerOnlyDetaches(s: State, step: OwnerStep)
    requires OwnerEnabled(s, step) && Dismissed(s)
    ensures var s' := OwnerApply(s, step);
            && Dismissed(s')
            && s'.events == s.events.(handlers := s'.events.handlers)
            && s'.events.handlers <= s.events.handlers && s'.driver.running == s.driver.running
  {
  }

  lemma DriverOnlyFinishes(d: DriverThread, inFlight: set<nat>, step: DriverStep)
    requires DriverEnabled(d, inFlight, step)
    ensures DriverApply(d, step).running <= d.running
  {
  }

  lemma HarmlessStaysHarmless(s: State, step: Step)
    requires Enabled(s, step) && !StartsAfresh(step)
    requires Dismissed(s) && !Threatened(s) && !s.events.panicked
    ensures var s' := Apply(s, step); Dismissed(s') && !Threatened(s') && !s'.events.panicked
  {
    match step
    case ByBuilder(_) =>
    case ByOwner(o) => OwnerOnlyDetaches(s, o);
    case ByDriver(d) => DriverOnlyFinishes(s.driver, s.events.inFlight, d);
    case ByEnvironment(_) =>
  }

  lemma {:induction false} HarmlessIsSafe(s: State, steps: seq<Step>)
    requires Executable(s, steps) && NoneStartsAfresh(steps)
    requires Dismissed(s) && !Threatened(s) && !s.events.panicked
    ensures !Execute(s, steps).events.panicked
    decreases |steps|
  {
    if steps != [] {
      HarmlessStaysHarmless(s, steps[0]);
      HarmlessIsSafe(Apply(s, steps[0]), steps[1..]);
    }
  }

  lemma PanicIsNear(s: State, step: Step)
    requires Enabled(s, step) && !StartsAfresh(step) && CanPanic(Apply(s, step))
    ensures CanPanic(s)
  {
    var rest :| Executable(Apply(s, step), rest) && NoneStartsAfresh(rest)
                && Execute(Apply(s, step), rest).events.panicked;
    RunBegins(s, step, rest);
    assert NoneStartsAfresh([step] + rest);
  }

  lemma DropGoesOn(s: State)
    requires Dismissed(s) && s.owner.registered != [] && OwnerInvariant(s.owner)
    ensures Enabled(s, ByOwner(Consume))
    ensures var s' := Apply(s, ByOwner(Consume));
            && Dismissed(s') && s'.events.inFlight == s.events.inFlight
            && |s'.owner.registered| < |s.owner.registered|
  {
  }

  lemma CallWithoutIndexPanics(s: State, farm: nat)
    requires SlotInvariant(s.owner, s.slots) && Dismissed(s) && |s.owner.registered| <= 3
    requires farm in s.events.inFlight
    ensures CanPanic(s)
  {
    var step := ByEnvironment(HandlerRuns(farm));
    var s' := Apply(s, step);
    assert s'.events.panicked;
    assert Executable(s', []) && Execute(s', []) == s' && NoneStartsAfresh([]);
    PanicIsNear(s, step);
  }

  /** While a call is under way the drop can go on until the index slot is empty, and then the call. */
  lemma {:induction false} CallCanPanic(s: State, farm: nat)
    requires Invariant(s) && Dismissed(s) && farm in s.events.inFlight
    ensures CanPanic(s)
    decreases |s.owner.registered|
  {
    if |s.owner.registered| > 3 {
      DropGoesOn(s);
      StepKeepsInvariant(s, ByOwner(Consume));
      CallCanPanic(Apply(s, ByOwner(Consume)), farm);
      PanicIsNear(s, ByOwner(Consume));
    } else {
      CallWithoutIndexPanics(s, farm);
    }
  }

  /** At every point of a drop: a handler can panic exactly if a call is under way or can still begin. */
  lemma DroppingCanPanicIff(s: State)
    requires Invariant(s) && Dismissed(s) && !s.events.panicked
    ensures CanPanic(s) <==> Threatened(s)
  {
    if s.events.inFlight != {} {
      var farm :| farm in s.events.inFlight;
      CallCanPanic(s, farm);
    } else if Threatened(s) {
      var farm :| farm in s.events.handlers * s.driver.running;
      var step := ByEnvironment(CallBegins(farm));
      StepKeepsInvariant(s, step);
      CallCanPanic(Apply(s, step), farm);
      PanicIsNear(s, step);
    } else {
      forall steps | Executable(s, steps) && NoneStartsAfresh(steps)
        ensures !Execute(s, steps).events.panicked
      {
        HarmlessIsSafe(s, steps);
      }
    }
  }

  /** The two ways in which a farmer is given up without being closed. */
  predicate GivesUp(step: Step) {
    step == ByOwner(BeginDrop) || step == ByBuilder(FailBuild)
  }

  lemma GivingUpThreatens(s: State, step: Step)
    requires Invariant(s) && Enabled(s, step) && GivesUp(step)
    ensures Dismissed(Apply(s, step)) && !Apply(s, step).events.panicked
    ensures Threatened(Apply(s, step)) <==> s.driver.running != {}
  {
    var s' := Apply(s, step);
    assert s'.events == s.events && s'.driver.running == s.driver.running && !s.events.panicked;
    if s.driver.running != {} {
      var farm :| farm in s.driver.running;
      assert farm in s.events.handlers * s.driver.running;
    }
  }

  /**
   * The handler's `expect` can fail for a farmer that is dropped, or whose build is abandoned,
   * exactly if one of its farms is unfinished at that moment, which is known before the drop.
   */
  lemma GivenUpFarmerCanPanicIff(s: State, step: Step)
    requires Reachable(s) && Enabled(s, step) && GivesUp(step)
    ensures CanPanic(Apply(s, step)) <==> s.driver.running != {}
  {
    ReachableInvariant(s);
    StepKeepsInvariant(s, step);
    GivingUpThreatens(s, step);
    DroppingCanPanicIff(Apply(s, step));
  }

  lemma FinishedStaysFinished(s: State, step: Step)
    requires Enabled(s, step) && !StartsAfresh(step)
    requires s.driver.running == {} && s.events.inFlight == {}
    ensures var s' := Apply(s, step);
            s'.driver.running == {} && s'.events.inFlight == {} && s'.events.panicked == s.events.panicked
  {
    match step
    case ByBuilder(_) =>
    case ByOwner(_) =>
    case ByDriver(d) => DriverOnlyFinishes(s.driver, s.events.inFlight, d);
    case ByEnvironment(_) =>
  }

  lemma {:induction false} FinishedIsSafe(s: State, steps: seq<Step>)
    requires Executable(s, steps) && NoneStartsAfresh(steps)
    requires s.driver.running == {} && s.events.inFlight == {}
    ensures Execute(s, steps).events.panicked == s.events.panicked
    decreases |steps|
  {
    if steps != [] {
      FinishedStaysFinished(s, steps[0]);
      FinishedIsSafe(Apply(s, steps[0]), steps[1..]);
    }
  }

  /** Whatever becomes of a live farmer, its handlers can panic exactly if a farm is unfinished. */
  lemma LiveFarmerCanPanicIff(s: State)
    requires Reachable(s) && s.owner.phase.Live?
    ensures CanPanic(s) <==> s.driver.running != {}
  {
    ReachableInvariant(s);
    if s.driver.running != {} {
      GivenUpFarmerCanPanicIff(s, ByOwner(BeginDrop));
      PanicIsNear(s, ByOwner(BeginDrop));
    } else {
      forall steps | Executable(s, steps) && NoneStartsAfresh(steps)
        ensures !Execute(s, steps).events.panicked
      {
        FinishedIsSafe(s, steps);
      }
    }
  }

  // ---------------------------------------------------------------------------------------
  // Such farmers exist
  // ---------------------------------------------------------------------------------------

  lemma {:induction false} ReachableContinues(s: State, steps: seq<Step>)
    requires Reachable(s) && Executable(s, steps)
    ensures Reachable(Execute(s, steps))
    decreases |steps|
  {
    if steps != [] {
      var s' := Reach(s, steps[0]);
      ReachableContinues(s', steps[1..]);
    }
  }

  /** A live farmer that is merely dropped can clear the index slot under a handler that is running. */
  lemma DroppedFarmerCanPanic()
    ensures exists s :: Reachable(s) && s.events.panicked
  {
    var live := BuiltFarmer(1);
    assert 0 in live.driver.running;
    GivenUpFarmerCanPanicIff(live, ByOwner(BeginDrop));
    var s := Reach(live, ByOwner(BeginDrop));
    var steps :| Executable(s, steps) && NoneStartsAfresh(steps) && Execute(s, steps).events.panicked;
    ReachableContinues(s, steps);
  }
}
