/** What the steps of a farmer's life can lead to: every number of farms, failure and answer. */
module FarmerScenarios {
  import opened Outcomes
  import opened Destructors
  import opened FarmsDriver
  import opened FarmerLifecycle
  import opened FarmerClose

  // ---------------------------------------------------------------------------------------
  // Building
  // ---------------------------------------------------------------------------------------

  const RUNNING: Task := Task(true, false)

  /** A farmer of `n` farms whose build has come to `point`. */
  ghost predicate BuiltTo(s: State, n: nat, point: BuildPoint) {
    && Reachable(s)
    && At(s.owner, point) && s.owner.farms == n
    && !s.discarded && s.closed.None?
  }

  lemma BuildToCache(n: nat) returns (begun: State, worker: State, s: State)
    requires n > 0
    ensures BuiltTo(begun, n, Begun) && BuiltTo(worker, n, CacheWorkerUp) && BuiltTo(s, n, CacheUp)
    ensures s.cacheWorker == RUNNING && s.driver == NO_DRIVER && s.events == START.events
  {
    assert Executable(START, []) && Execute(START, []) == START;
    begun := Reach(START, ByBuilder(BeginBuild(n)));
    worker := Reach(begun, ByBuilder(SpawnCacheWorker));
    s := Reach(worker, ByBuilder(PublishCache));
    s := Reach(s, ByBuilder(RegisterCacheClear));
  }

  lemma BuildToDelayTask(n: nat) returns (s: State)
    requires n > 0
    ensures BuiltTo(s, n, DelayTaskUp)
    ensures s.cacheWorker == s.delayTask == RUNNING && s.driver == NO_DRIVER && s.events == START.events
  {
    var begun, worker;
    begun, worker, s := BuildToCache(n);
    s := Reach(s, ByBuilder(SpawnDelayTask));
  }

  lemma BuildToDriver(n: nat) returns (s: State)
    requires 0 < n <= 256
    ensures BuiltTo(s, n, DriverUp(0))
    ensures s.cacheWorker == s.delayTask == RUNNING
    ensures s.driver == NO_DRIVER.(phase := Looping, running := Farms(n))
    ensures s.events == Events(Farms(n), {}, false)
  {
    s := BuildToDelayTask(n);
    s := Reach(s, ByBuilder(PublishReaders));
    s := Reach(s, ByBuilder(RegisterReadersClear));
    s := Reach(s, ByBuilder(AttachHandlers));
    s := Reach(s, ByBuilder(SpawnDriver));
    s := Reach(s, ByBuilder(RegisterDriver));
  }

  /** Everything of a farmer but the phase and the registrations. */
  ghost predicate SameWorkers(a: State, b: State) {
    a.cacheWorker == b.cacheWorker && a.delayTask == b.delayTask && a.driver == b.driver && a.events == b.events
  }

  lemma {:induction false} RegisterHandlers(s: State, n: nat, k: nat) returns (s': State)
    requires BuiltTo(s, n, DriverUp(k)) && k <= n
    ensures BuiltTo(s', n, DriverUp(n)) && SameWorkers(s, s')
    decreases n - k
  {
    s' := s;
    if k < n {
      s' := Reach(s, ByBuilder(RegisterHandler));
      s' := RegisterHandlers(s', n, k + 1);
    }
  }

  /** A live farmer of `n` farms, none of which has ended; both background tasks run. */
  lemma BuiltFarmer(n: nat) returns (s: State)
    requires 0 < n <= 256
    ensures Reachable(s) && s.owner.phase.Live? && s.owner.farms == n && s.closed.None?
    ensures s.cacheWorker == s.delayTask == RUNNING
    ensures s.driver == NO_DRIVER.(phase := Looping, running := Farms(n))
    ensures s.events == Events(Farms(n), {}, false)
  {
    s := BuildToDriver(n);
    s := RegisterHandlers(s, n, 0);
    s := Reach(s, ByBuilder(FinishBuild));
  }

  lemma LiveFarms(s: State)
    requires Invariant(s) && s.owner.phase.Live?
    ensures 0 < s.owner.farms <= 256
  {
  }

  /** A farmer can be built with any number of farms from 1 to 256, and with no other number. */
  lemma FarmerCanBeBuiltIff(n: nat)
    ensures (exists s :: Reachable(s) && s.owner.phase.Live? && s.owner.farms == n) <==> 0 < n <= 256
  {
    if 0 < n <= 256 {
      var s := BuiltFarmer(n);
    }
    if s :| Reachable(s) && s.owner.phase.Live? && s.owner.farms == n {
      ReachableInvariant(s);
      LiveFarms(s);
    }
  }

  /** Where a build can fail: at each of its errors and of its awaits. */
  predicate IsFailurePoint(point: BuildPoint, n: nat) {
    point == Begun || point == CacheWorkerUp || point == CacheUp || point == DelayTaskUp || point == DriverUp(n)
  }

  lemma BuildCanReach(n: nat, point: BuildPoint) returns (s: State)
    requires n > 0 && IsFailurePoint(point, n) && (point.DriverUp? ==> n <= 256)
    ensures BuiltTo(s, n, point)
  {
    var begun, worker, cache := BuildToCache(n);
    if point.Begun? {
      s := begun;
    } else if point.CacheWorkerUp? {
      s := worker;
    } else if point.CacheUp? {
      s := cache;
    } else if point.DelayTaskUp? {
      s := BuildToDelayTask(n);
    } else {
      s := BuildToDriver(n);
      s := RegisterHandlers(s, n, 0);
    }
  }

  lemma FailingPoint(s: State, point: BuildPoint)
    requires Invariant(s) && At(s.owner, point) && BuildEnabled(s, FailBuild)
    ensures IsFailurePoint(point, s.owner.farms) && (point.DriverUp? ==> s.owner.farms <= 256)
  {
  }

  /**
   * A build of so many farms can fail exactly at its errors and awaits, at the last of them only if
   * the farms are not too many; in particular never between publishing to a slot and registering
   * the cleanup of that slot.
   */
  lemma BuildCanFailIff(n: nat, point: BuildPoint)
    requires n > 0
    ensures (exists s :: BuiltTo(s, n, point) && Enabled(s, ByBuilder(FailBuild))) <==>
            IsFailurePoint(point, n) && (point.DriverUp? ==> n <= 256)
  {
    if IsFailurePoint(point, n) && (point.DriverUp? ==> n <= 256) {
      var s := BuildCanReach(n, point);
      assert BuiltTo(s, n, point) && Enabled(s, ByBuilder(FailBuild));
    }
    if s :| BuiltTo(s, n, point) && Enabled(s, ByBuilder(FailBuild)) {
      ReachableInvariant(s);
      FailingPoint(s, point);
    }
  }

  // ---------------------------------------------------------------------------------------
  // Closing
  // ---------------------------------------------------------------------------------------

  /** The farms from number `k` on are running. */
  ghost predicate OthersRun(s: State, outcomes: seq<Outcome>, k: nat) {
    && k <= |outcomes|
    && Reachable(s) && s.owner.phase.Live? && s.owner.farms == |outcomes| && s.events.inFlight == {}
    && s.driver.phase.Looping? && !s.driver.receiverDropped
    && s.driver.outcomes == outcomes[..k] && |s.driver.queue| == k
    && forall i: nat :: i in s.driver.running <==> k <= i < |outcomes|
  }

  lemma NextFarmEnds(s: State, outcomes: seq<Outcome>, k: nat) returns (s': State)
    requires OthersRun(s, outcomes, k) && k < |outcomes| <= 256
    ensures OthersRun(s', outcomes, k + 1)
  {
    s' := Reach(s, ByDriver(FarmEnds(k, outcomes[k])));
    assert outcomes[..k + 1] == outcomes[..k] + [outcomes[k]];
  }

  lemma {:induction false} AllFarmsEnd(s: State, outcomes: seq<Outcome>, k: nat) returns (s': State)
    requires OthersRun(s, outcomes, k) && |outcomes| <= 256
    ensures OthersRun(s', outcomes, |outcomes|)
    decreases |outcomes| - k
  {
    s' := s;
    if k < |outcomes| {
      s' := NextFarmEnds(s, outcomes, k);
      s' := AllFarmsEnd(s', outcomes, k + 1);
    }
  }

  /** A live farmer can be closed at any time, and the close can answer without another farm ending. */
  lemma LiveFarmerCanClose(s: State)
    requires Reachable(s) && s.owner.phase.Live?
    ensures exists end :: Reachable(end) && end.closed.Some?
                          && end.driver.outcomes == s.driver.outcomes && Tells(end.closed.value, s.driver.outcomes)
  {
    var end := Reach(s, ByOwner(BeginClose));
    end := CloseCanEnd(end);
    CloseAnswersEarliestFailure(end);
  }

  /** Farms can end in any way, and whatever it is, `close` can be there to answer for it. */
  lemma EveryAnswerHappens(outcomes: seq<Outcome>)
    requires 0 < |outcomes| <= 256
    ensures exists s :: Reachable(s) && s.driver.outcomes == outcomes
                        && s.closed.Some? && Tells(s.closed.value, outcomes)
  {
    var s := BuiltFarmer(|outcomes|);
    s := AllFarmsEnd(s, outcomes, 0);
    assert outcomes[..|outcomes|] == outcomes;
    LiveFarmerCanClose(s);
  }
}
