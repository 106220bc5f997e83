/**
 * The life of a farmer on one node as a step system: the owner, which builds the farmer (and may
 * fail on the way), closes it or drops it; the farm driver thread; the farms, which plot sectors
 * and call the handlers attached to them; two background tasks. Shared with the node are the slot
 * of the piece cache and the slot of the piece index (here only whether they are filled).
 *
 * About the farms, which are not part of the repository, the model takes the following: a farm
 * calls handlers only between the start of the driver and the end of its own future; a call that
 * is under way keeps its farm from ending or from being dropped; detaching a handler prevents new
 * calls but does not wait for one that is under way.
 */
module FarmerLifecycle {
  import opened Outcomes
  import opened Destructors
  import opened FarmsDriver
  import PieceIndexing

  type Error = string
  type Outcome = Result<nat, Error>

  /** What the farmer registers for cleanup, in this order. */
  datatype Cleanup =
    | PieceCacheWorker | ClearPieceCache | PlottingDelayTask | ClearReaders | Driver
    | SectorHandler(farm: nat)

  /** The registration with number `k`; a complete farmer has five and one for each farm. */
  function EntryAt(k: nat): Entry<Cleanup> {
    if k == 0 then Entry(Async, PieceCacheWorker)
    else if k == 1 then Entry(Sync, ClearPieceCache)
    else if k == 2 then Entry(Async, PlottingDelayTask)
    else if k == 3 then Entry(Sync, ClearReaders)
    else if k == 4 then Entry(Async, Driver)
    else Entry(Item, SectorHandler(k - 5))
  }

  /** How far `Config::build` has come; the number is that of the entries registered by then. */
  datatype BuildPoint =
    | Begun             // 0; creating the erasure coding can fail
    | CacheWorkerUp     // 1; thread pools and opening the farms can fail
    | CachePublished    // 1; the cache slot is filled, its clearing not yet registered
    | CacheUp           // 2; an await, where the build can be abandoned
    | DelayTaskUp       // 3; collecting the plotted pieces can fail
    | ReadersPublished  // 3; the index slot is filled, its clearing not yet registered
    | ReadersUp         // 4
    | HandlersOn        // 4
    | DriverSpawned     // 4
    | DriverUp(handlers: nat)  // 5 and the handlers registered so far

  datatype Phase = Idle | Building(point: BuildPoint) | Live | TearingDown(mode: Mode)

  datatype Owner = Owner(phase: Phase, farms: nat, registered: seq<Entry<Cleanup>>)

  datatype Slots = Slots(cache: bool, readers: bool)

  datatype Task = Task(running: bool, signalled: bool)

  datatype DriverPhase = Absent | Looping | Unwinding | Exited

  datatype DriverThread = DriverThread(
    phase: DriverPhase,
    signalled: bool,
    running: set<nat>,                // farms whose future the driver owns
    outcomes: seq<Outcome>,           // of the farms that have ended, in order
    queue: seq<Message<nat, Error>>,  // the result channel
    receiverDropped: bool)

  datatype Events = Events(
    handlers: set<nat>,  // farms with the handler attached
    inFlight: set<nat>,  // farms that have begun a call of the handler
    panicked: bool)      // a handler found the index slot empty

  datatype State = State(
    owner: Owner,
    slots: Slots,
    cacheWorker: Task,
    delayTask: Task,
    driver: DriverThread,
    events: Events,
    discarded: bool,                       // the driver's cleanup was discarded, not awaited
    closed: Option<Result<(), Error>>)     // what `close` answered

  const NO_DRIVER: DriverThread := DriverThread(Absent, false, {}, [], [], false)
  const NO_TASK: Task := Task(false, false)

  const START: State := State(
    Owner(Idle, 0, []), Slots(false, false), NO_TASK, NO_TASK, NO_DRIVER, Events({}, {}, false), false, None)

  // ---------------------------------------------------------------------------------------
  // Config::build
  // ---------------------------------------------------------------------------------------

  datatype BuildStep =
    | BeginBuild(farms: nat)
    | SpawnCacheWorker | PublishCache | RegisterCacheClear | SpawnDelayTask
    | PublishReaders | RegisterReadersClear | AttachHandlers | SpawnDriver | RegisterDriver
    | RegisterHandler | FinishBuild
    | FailBuild  // an error, or the build future abandoned at an await

  predicate At(o: Owner, point: BuildPoint) {
    o.phase == Building(point)
  }

  predicate AllRegistered(o: Owner) {
    At(o, DriverUp(o.farms))
  }

  predicate BuildEnabled(s: State, step: BuildStep) {
    var o := s.owner;
    match step
    // One farmer at a time; an earlier one that was dropped has wound down.
    case BeginBuild(farms) => o.phase.Idle? && farms > 0 && (s.driver.phase.Absent? || s.driver.phase.Exited?)
    case SpawnCacheWorker => At(o, Begun)
    case PublishCache => At(o, CacheWorkerUp)
    case RegisterCacheClear => At(o, CachePublished)
    case SpawnDelayTask => At(o, CacheUp)
    case PublishReaders => At(o, DelayTaskUp) && o.farms <= PieceIndexing.MAX_FARMS
    case RegisterReadersClear => At(o, ReadersPublished)
    case AttachHandlers => At(o, ReadersUp)
    case SpawnDriver => At(o, HandlersOn)
    case RegisterDriver => At(o, DriverSpawned)
    case RegisterHandler =>
      o.phase.Building? && o.phase.point.DriverUp? && o.phase.point.handlers < o.farms
    case FinishBuild => AllRegistered(o)
    case FailBuild => At(o, Begun) || At(o, CacheWorkerUp) || At(o, CacheUp) || At(o, DelayTaskUp) || AllRegistered(o)
  }

  function Registered(o: Owner, entry: Entry<Cleanup>, point: BuildPoint): Owner {
    o.(phase := Building(point), registered := o.registered + [entry])
  }

  function Goto(o: Owner, point: BuildPoint): Owner {
    o.(phase := Building(point))
  }

  function BuildApply(s: State, step: BuildStep): State
    requires BuildEnabled(s, step)
  {
    var o := s.owner;
    match step
    case BeginBuild(farms) =>
      START.(owner := Owner(Building(Begun), farms, []), slots := s.slots)
    case SpawnCacheWorker =>
      s.(owner := Registered(o, Entry(Async, PieceCacheWorker), CacheWorkerUp), cacheWorker := Task(true, false))
    case PublishCache => s.(owner := Goto(o, CachePublished), slots := s.slots.(cache := true))
    case RegisterCacheClear => s.(owner := Registered(o, Entry(Sync, ClearPieceCache), CacheUp))
    case SpawnDelayTask =>
      s.(owner := Registered(o, Entry(Async, PlottingDelayTask), DelayTaskUp), delayTask := Task(true, false))
    case PublishReaders => s.(owner := Goto(o, ReadersPublished), slots := s.slots.(readers := true))
    case RegisterReadersClear => s.(owner := Registered(o, Entry(Sync, ClearReaders), ReadersUp))
    case AttachHandlers => s.(owner := Goto(o, HandlersOn), events := s.events.(handlers := Farms(o.farms)))
    case SpawnDriver =>
      s.(owner := Goto(o, DriverSpawned), driver := NO_DRIVER.(phase := Looping, running := Farms(o.farms)))
    case RegisterDriver => s.(owner := Registered(o, Entry(Async, Driver), DriverUp(0)))
    case RegisterHandler =>
      var i := o.phase.point.handlers;
      s.(owner := Registered(o, Entry(Item, SectorHandler(i)), DriverUp(i + 1)))
    case FinishBuild => s.(owner := o.(phase := Live))
    case FailBuild =>
      s.(owner := o.(phase := TearingDown(Discarding)), driver := s.driver.(receiverDropped := true))
  }

  /** The indices below `n`. */
  function Farms(n: nat): (farms: set<nat>)
    ensures |farms| == n
    ensures forall i: nat :: i in farms <==> i < n
  {
    if n == 0 then {} else Farms(n - 1) + {n - 1}
  }

  // ---------------------------------------------------------------------------------------
  // Farmer::close, and drop
  // ---------------------------------------------------------------------------------------

  datatype OwnerStep =
    | BeginClose | BeginDrop
    | Consume  // a closure is run, an item dropped, a future discarded
    | SignalTask | JoinTask  // a future is awaited: it sends its signal, then joins
    | EndTeardown

  predicate Awaits(o: Owner) {
    o.phase == TearingDown(Awaiting) && o.registered != [] && Last(o.registered).tag.Async?
  }

  function TaskOf(s: State, c: Cleanup): Task {
    match c
    case PieceCacheWorker => s.cacheWorker
    case PlottingDelayTask => s.delayTask
    case _ => Task(s.driver.phase.Looping? || s.driver.phase.Unwinding?, s.driver.signalled)
  }

  predicate OwnerEnabled(s: State, step: OwnerStep) {
    var o := s.owner;
    match step
    case BeginClose => o.phase.Live?
    case BeginDrop => o.phase.Live?
    case Consume => o.phase.TearingDown? && o.registered != [] && !Awaits(o)
    case SignalTask => Awaits(o) && !TaskOf(s, Last(o.registered).payload).signalled
    case JoinTask =>
      && Awaits(o) && TaskOf(s, Last(o.registered).payload).signalled
      && !TaskOf(s, Last(o.registered).payload).running
    case EndTeardown => o.phase.TearingDown? && o.registered == []
  }

  function Signal(s: State, c: Cleanup): State {
    match c
    case PieceCacheWorker => s.(cacheWorker := s.cacheWorker.(signalled := true))
    case PlottingDelayTask => s.(delayTask := s.delayTask.(signalled := true))
    case _ => s.(driver := s.driver.(signalled := true))
  }

  function Perform(s: State, action: Action<Cleanup>): State {
    match action
    case RunSync(c) => s.(slots := if c.ClearPieceCache? then s.slots.(cache := false) else s.slots.(readers := false))
    case DropItem(c) =>
      s.(events := s.events.(handlers := if c.SectorHandler? then s.events.handlers - {c.farm} else s.events.handlers))
    case DiscardAsync(c) => Signal(s, c).(discarded := s.discarded || c.Driver?)
    case AwaitAsync(_) => s
  }

  function Popped(s: State): State
    requires s.owner.registered != []
  {
    s.(owner := s.owner.(registered := DropLast(s.owner.registered)))
  }

  function OwnerApply(s: State, step: OwnerStep): State
    requires OwnerEnabled(s, step)
  {
    var o := s.owner;
    match step
    case BeginClose => s.(owner := o.(phase := TearingDown(Awaiting)))
    // The receiver is a field before the destructor set, and goes first.
    case BeginDrop =>
      s.(owner := o.(phase := TearingDown(Discarding)), driver := s.driver.(receiverDropped := true))
    case Consume => Popped(Perform(s, Act(o.phase.mode, Last(o.registered))))
    case SignalTask => Signal(s, Last(o.registered).payload)
    case JoinTask => Popped(s)
    case EndTeardown =>
      s.(owner := o.(phase := Idle),
         closed := if o.phase.mode.Awaiting? then Some(FirstError(s.driver.queue)) else s.closed)
  }

  // ---------------------------------------------------------------------------------------
  // Driver, farms and background tasks
  // ---------------------------------------------------------------------------------------

  datatype DriverStep =
    | FarmEnds(farm: nat, outcome: Outcome) | StreamExhausted | TakeSignal
    | DropFarm(farm: nat) | DriverExits

  predicate DriverEnabled(d: DriverThread, inFlight: set<nat>, step: DriverStep) {
    match step
    case FarmEnds(i, _) => d.phase.Looping? && i in d.running && i !in inFlight
    case StreamExhausted => d.phase.Looping? && d.running == {}
    case TakeSignal => d.phase.Looping? && d.running != {} && d.signalled
    case DropFarm(i) => d.phase.Unwinding? && i in d.running && i !in inFlight
    case DriverExits => d.phase.Unwinding? && d.running == {}
  }

  predicate HasRoom(d: DriverThread) {
    !d.receiverDropped && |d.queue| < CHANNEL_CAPACITY
  }

  /** `try_send`; a failure ends the loop. */
  function TrySend(d: DriverThread, m: Message<nat, Error>): DriverThread {
    if HasRoom(d) then d.(queue := d.queue + [m]) else d.(phase := Unwinding)
  }

  function DriverApply(d: DriverThread, step: DriverStep): DriverThread {
    match step
    case FarmEnds(i, outcome) =>
      TrySend(d.(running := d.running - {i}, outcomes := d.outcomes + [outcome]), Report(Some(outcome)))
    case StreamExhausted => TrySend(d, Report(None))
    case TakeSignal => TrySend(d, Cancellation()).(phase := Unwinding)
    case DropFarm(i) => d.(running := d.running - {i})
    case DriverExits => d.(phase := Exited)
  }

  datatype EventStep = CallBegins(farm: nat) | HandlerRuns(farm: nat) | CacheWorkerEnds | DelayTaskEnds

  predicate EventEnabled(s: State, step: EventStep) {
    match step
    case CallBegins(i) => i in s.driver.running && i in s.events.handlers && i !in s.events.inFlight
    case HandlerRuns(i) => i in s.events.inFlight
    case CacheWorkerEnds => s.cacheWorker.running
    case DelayTaskEnds => s.delayTask.running
  }

  function EventApply(s: State, step: EventStep): State {
    var e := s.events;
    match step
    case CallBegins(i) => s.(events := e.(inFlight := e.inFlight + {i}))
    case HandlerRuns(i) =>
      s.(events := e.(inFlight := e.inFlight - {i}, panicked := e.panicked || !s.slots.readers))
    case CacheWorkerEnds => s.(cacheWorker := s.cacheWorker.(running := false))
    case DelayTaskEnds => s.(delayTask := s.delayTask.(running := false))
  }

  // ---------------------------------------------------------------------------------------
  // The invariant
  // ---------------------------------------------------------------------------------------

  predicate Active(d: DriverThread) {
    d.phase.Looping? || d.phase.Unwinding?
  }

  function EntriesAt(point: BuildPoint): nat {
    match point
    case Begun => 0
    case CacheWorkerUp => 1
    case CachePublished => 1
    case CacheUp => 2
    case DelayTaskUp => 3
    case ReadersPublished => 3
    case ReadersUp => 4
    case HandlersOn => 4
    case DriverSpawned => 4
    case DriverUp(handlers) => 5 + handlers
  }

  /** The destructor set holds the first entries, as many as the phase calls for. */
  ghost predicate OwnerInvariant(o: Owner) {
    && |o.registered| <= 5 + o.farms
    && (!o.phase.Idle? ==> o.farms > 0)
    && (forall k :: 0 <= k < |o.registered| ==> o.registered[k] == EntryAt(k))
    && match o.phase
       case Idle => o.registered == []
       case Building(point) => |o.registered| == EntriesAt(point)
       case Live => |o.registered| == 5 + o.farms
       case TearingDown(_) => true
  }

  /** A slot is filled only while its clearing is registered or is about to be. */
  ghost predicate SlotInvariant(o: Owner, slots: Slots) {
    && (slots.cache <==> |o.registered| >= 2 || At(o, CachePublished))
    && (slots.readers <==> |o.registered| >= 4 || At(o, ReadersPublished))
  }

  /** How many farms have the handler attached: all while farming, and as many as are registered. */
  function Attached(o: Owner): nat {
    if At(o, HandlersOn) || At(o, DriverSpawned) || (o.phase.Building? && o.phase.point.DriverUp?) then o.farms
    else if |o.registered| > 5 then |o.registered| - 5
    else 0
  }

  ghost predicate HandlerInvariant(o: Owner, handlers: set<nat>) {
    forall i: nat :: i in handlers <==> i < Attached(o)
  }

  ghost predicate DriverInvariant(s: State) {
    var d := s.driver;
    && (Active(d) ==> s.discarded || |s.owner.registered| >= 5 || At(s.owner, DriverSpawned))
    && (!d.phase.Absent? ==> s.owner.farms <= CHANNEL_CAPACITY)
    && (s.slots.readers ==> s.owner.farms <= CHANNEL_CAPACITY)
    && (s.owner.phase.Building? && EntriesAt(s.owner.phase.point) < 5 && !At(s.owner, DriverSpawned) ==>
          d.phase.Absent?)
    && (s.discarded ==> d.receiverDropped)
    && (d.receiverDropped ==> s.owner.phase == TearingDown(Discarding) || s.owner.phase.Idle?)
    && (s.owner.phase.TearingDown? ==> (d.receiverDropped <==> s.owner.phase.mode.Discarding?))
    && (d.phase.Absent? || d.phase.Exited? ==> d.running == {})
    && d.running <= Farms(s.owner.farms)
  }

  ghost predicate EventInvariant(s: State) {
    && s.events.inFlight <= s.driver.running
    && (s.events.panicked ==> s.discarded)
  }

  function ReportAll(outcomes: seq<Outcome>): (r: seq<Message<nat, Error>>)
    ensures |r| == |outcomes|
  {
    seq(|outcomes|, i requires 0 <= i < |outcomes| => Report(Some(outcomes[i])))
  }

  /** The queue is every outcome so far, in order, and then markers. */
  ghost predicate QueueFits(outcomes: seq<Outcome>, queue: seq<Message<nat, Error>>) {
    && |outcomes| <= |queue| <= CHANNEL_CAPACITY
    && queue[..|outcomes|] == ReportAll(outcomes)
    && (forall m :: m in queue[|outcomes|..] ==> m.Ok?)
  }

  /** While the driver loops every farm is either running or has its outcome recorded. */
  ghost predicate LoopFits(phase: DriverPhase, running: set<nat>, outcomes: nat, queued: nat, farms: nat) {
    phase.Looping? ==> outcomes + |running| == farms && (running != {} ==> queued == outcomes)
  }

  ghost predicate QueueInvariant(d: DriverThread, farms: nat) {
    QueueFits(d.outcomes, d.queue) && LoopFits(d.phase, d.running, |d.outcomes|, |d.queue|, farms)
  }

  ghost predicate Invariant(s: State) {
    && OwnerInvariant(s.owner)
    && SlotInvariant(s.owner, s.slots)
    && HandlerInvariant(s.owner, s.events.handlers)
    && DriverInvariant(s)
    && EventInvariant(s)
    && (!s.driver.receiverDropped ==> QueueInvariant(s.driver, s.owner.farms))
    && (s.closed.Some? ==> s.owner.phase.Idle? && !s.driver.receiverDropped && !Active(s.driver)
                           && s.closed.value == FirstError(ReportAll(s.driver.outcomes)))
  }

  lemma RegisteredInOrder(o: Owner, entry: Entry<Cleanup>, point: BuildPoint)
    requires OwnerInvariant(o) && o.farms > 0 && entry == EntryAt(|o.registered|)
    requires |o.registered| + 1 == EntriesAt(point) <= 5 + o.farms
    ensures OwnerInvariant(Registered(o, entry, point))
  {
  }

  lemma BuildKeepsRegistrations(s: State, step: BuildStep)
    requires OwnerInvariant(s.owner) && BuildEnabled(s, step)
    ensures OwnerInvariant(BuildApply(s, step).owner)
  {
    var o := BuildApply(s, step).owner;
    if o.phase.Building? && |o.registered| == |s.owner.registered| + 1 {
      RegisteredInOrder(s.owner, Last(o.registered), o.phase.point);
    }
  }

  lemma BuildKeepsSlots(s: State, step: BuildStep)
    requires OwnerInvariant(s.owner) && SlotInvariant(s.owner, s.slots) && BuildEnabled(s, step)
    ensures SlotInvariant(BuildApply(s, step).owner, BuildApply(s, step).slots)
  {
  }

  lemma BuildKeepsHandlers(s: State, step: BuildStep)
    requires OwnerInvariant(s.owner) && HandlerInvariant(s.owner, s.events.handlers) && BuildEnabled(s, step)
    ensures HandlerInvariant(BuildApply(s, step).owner, BuildApply(s, step).events.handlers)
  {
  }

  lemma BeginningKeepsInvariant(s: State, farms: nat)
    requires Invariant(s) && BuildEnabled(s, BeginBuild(farms))
    ensures Invariant(BuildApply(s, BeginBuild(farms)))
  {
  }

  lemma SpawningDriverKeepsInvariant(s: State)
    requires Invariant(s) && BuildEnabled(s, SpawnDriver)
    ensures Invariant(BuildApply(s, SpawnDriver))
  {
    BuildKeepsRegistrations(s, SpawnDriver);
    BuildKeepsSlots(s, SpawnDriver);
    BuildKeepsHandlers(s, SpawnDriver);
  }

  lemma FailingKeepsInvariant(s: State)
    requires Invariant(s) && BuildEnabled(s, FailBuild)
    ensures Invariant(BuildApply(s, FailBuild))
  {
    BuildKeepsRegistrations(s, FailBuild);
    BuildKeepsSlots(s, FailBuild);
    BuildKeepsHandlers(s, FailBuild);
  }

  /** Most build steps leave the driver as it is. */
  lemma BuildLeavesDriver(s: State, step: BuildStep)
    requires BuildEnabled(s, step)
    requires !step.BeginBuild? && !step.SpawnDriver? && !step.FailBuild?
    ensures var s' := BuildApply(s, step);
            && s'.driver == s.driver && s'.discarded == s.discarded && s'.closed == s.closed
            && s'.owner.farms == s.owner.farms && s.owner.phase.Building? && !s'.owner.phase.TearingDown?
            && s'.events.inFlight == s.events.inFlight && s'.events.panicked == s.events.panicked
  {
  }

  lemma OtherBuildStepsKeepDriver(s: State, step: BuildStep)
    requires Invariant(s) && BuildEnabled(s, step)
    requires !step.BeginBuild? && !step.SpawnDriver? && !step.FailBuild?
    ensures DriverInvariant(BuildApply(s, step))
  {
    BuildLeavesDriver(s, step);
  }

  lemma OtherBuildStepsKeepInvariant(s: State, step: BuildStep)
    requires Invariant(s) && BuildEnabled(s, step)
    requires !step.BeginBuild? && !step.SpawnDriver? && !step.FailBuild?
    ensures Invariant(BuildApply(s, step))
  {
    BuildKeepsRegistrations(s, step);
    BuildKeepsSlots(s, step);
    BuildKeepsHandlers(s, step);
    BuildLeavesDriver(s, step);
    OtherBuildStepsKeepDriver(s, step);
  }

  lemma BuildKeepsInvariant(s: State, step: BuildStep)
    requires Invariant(s) && BuildEnabled(s, step)
    ensures Invariant(BuildApply(s, step))
  {
    match step
    case BeginBuild(farms) => BeginningKeepsInvariant(s, farms);
    case SpawnDriver => SpawningDriverKeepsInvariant(s);
    case FailBuild => FailingKeepsInvariant(s);
    case _ => OtherBuildStepsKeepInvariant(s, step);
  }

  lemma DriverKeepsQueue(d: DriverThread, inFlight: set<nat>, step: DriverStep, farms: nat)
    requires farms <= CHANNEL_CAPACITY && !d.receiverDropped
    requires QueueInvariant(d, farms) && DriverEnabled(d, inFlight, step)
    ensures QueueInvariant(DriverApply(d, step), farms)
    ensures step.TakeSignal? ==> HasRoom(d)
  {
  }

  lemma ConsumeKeepsRegistrations(s: State)
    requires OwnerInvariant(s.owner) && SlotInvariant(s.owner, s.slots) && OwnerEnabled(s, Consume)
    ensures OwnerInvariant(OwnerApply(s, Consume).owner)
    ensures SlotInvariant(OwnerApply(s, Consume).owner, OwnerApply(s, Consume).slots)
  {
    assert Last(s.owner.registered) == EntryAt(|s.owner.registered| - 1);
  }

  lemma ConsumeKeepsHandlers(s: State)
    requires OwnerInvariant(s.owner) && HandlerInvariant(s.owner, s.events.handlers) && OwnerEnabled(s, Consume)
    ensures HandlerInvariant(OwnerApply(s, Consume).owner, OwnerApply(s, Consume).events.handlers)
  {
    assert Last(s.owner.registered) == EntryAt(|s.owner.registered| - 1);
  }

  lemma ConsumingClosureKeepsInvariant(s: State)
    requires Invariant(s) && OwnerEnabled(s, Consume) && Last(s.owner.registered).tag.Sync?
    ensures Invariant(OwnerApply(s, Consume))
  {
    ConsumeKeepsRegistrations(s);
    ConsumeKeepsHandlers(s);
    assert Last(s.owner.registered) == EntryAt(|s.owner.registered| - 1);
  }

  lemma ConsumingItemKeepsInvariant(s: State)
    requires Invariant(s) && OwnerEnabled(s, Consume) && Last(s.owner.registered).tag.Item?
    ensures Invariant(OwnerApply(s, Consume))
  {
    ConsumeKeepsRegistrations(s);
    ConsumeKeepsHandlers(s);
    assert Last(s.owner.registered) == EntryAt(|s.owner.registered| - 1);
  }

  lemma ConsumingFutureKeepsInvariant(s: State)
    requires Invariant(s) && OwnerEnabled(s, Consume) && Last(s.owner.registered).tag.Async?
    ensures Invariant(OwnerApply(s, Consume))
  {
    ConsumeKeepsRegistrations(s);
    ConsumeKeepsHandlers(s);
    assert Last(s.owner.registered) == EntryAt(|s.owner.registered| - 1);
  }

  lemma ConsumeKeepsInvariant(s: State)
    requires Invariant(s) && OwnerEnabled(s, Consume)
    ensures Invariant(OwnerApply(s, Consume))
  {
    match Last(s.owner.registered).tag
    case Sync => ConsumingClosureKeepsInvariant(s);
    case Async => ConsumingFutureKeepsInvariant(s);
    case Item => ConsumingItemKeepsInvariant(s);
  }

  lemma SignalKeepsInvariant(s: State)
    requires Invariant(s) && OwnerEnabled(s, SignalTask)
    ensures Invariant(OwnerApply(s, SignalTask))
  {
    var s' := OwnerApply(s, SignalTask);
    assert s'.driver == s.driver.(signalled := s'.driver.signalled);
    assert s'.owner == s.owner && s'.slots == s.slots && s'.events == s.events;
  }

  lemma JoinKeepsInvariant(s: State)
    requires Invariant(s) && OwnerEnabled(s, JoinTask)
    ensures Invariant(OwnerApply(s, JoinTask))
  {
    assert Last(s.owner.registered) == EntryAt(|s.owner.registered| - 1);
  }

  lemma EndingKeepsInvariant(s: State)
    requires Invariant(s) && OwnerEnabled(s, EndTeardown)
    ensures Invariant(OwnerApply(s, EndTeardown))
  {
    var d := s.driver;
    if s.owner.phase.mode.Awaiting? {
      FirstErrorIgnoresMarkers(d.queue[..|d.outcomes|], d.queue[|d.outcomes|..]);
      assert d.queue == d.queue[..|d.outcomes|] + d.queue[|d.outcomes|..];
    }
  }

  lemma OwnerKeepsInvariant(s: State, step: OwnerStep)
    requires Invariant(s) && OwnerEnabled(s, step)
    ensures Invariant(OwnerApply(s, step))
  {
    match step
    case Consume => ConsumeKeepsInvariant(s);
    case SignalTask => SignalKeepsInvariant(s);
    case JoinTask => JoinKeepsInvariant(s);
    case BeginClose =>
    case BeginDrop =>
    case EndTeardown => EndingKeepsInvariant(s);
  }

  lemma DriverKeepsInvariant(s: State, step: DriverStep)
    requires Invariant(s) && DriverEnabled(s.driver, s.events.inFlight, step)
    ensures Invariant(s.(driver := DriverApply(s.driver, step)))
  {
    if !s.driver.receiverDropped {
      DriverKeepsQueue(s.driver, s.events.inFlight, step, s.owner.farms);
    }
  }

  lemma EventKeepsInvariant(s: State, step: EventStep)
    requires Invariant(s) && EventEnabled(s, step)
    ensures Invariant(EventApply(s, step))
  {
  }

  // ---------------------------------------------------------------------------------------
  // Runs
  // ---------------------------------------------------------------------------------------

  datatype Step =
    | ByBuilder(build: BuildStep)
    | ByOwner(own: OwnerStep)
    | ByDriver(drive: DriverStep)
    | ByEnvironment(event: EventStep)

  predicate Enabled(s: State, step: Step) {
    match step
    case ByBuilder(b) => BuildEnabled(s, b)
    case ByOwner(o) => OwnerEnabled(s, o)
    case ByDriver(d) => DriverEnabled(s.driver, s.events.inFlight, d)
    case ByEnvironment(e) => EventEnabled(s, e)
  }

  function Apply(s: State, step: Step): State
    requires Enabled(s, step)
  {
    match step
    case ByBuilder(b) => BuildApply(s, b)
    case ByOwner(o) => OwnerApply(s, o)
    case ByDriver(d) => s.(driver := DriverApply(s.driver, d))
    case ByEnvironment(e) => EventApply(s, e)
  }

  lemma StepKeepsInvariant(s: State, step: Step)
    requires Invariant(s) && Enabled(s, step)
    ensures Invariant(Apply(s, step))
  {
    match step
    case ByBuilder(b) => BuildKeepsInvariant(s, b);
    case ByOwner(o) => OwnerKeepsInvariant(s, o);
    case ByDriver(d) => DriverKeepsInvariant(s, d);
    case ByEnvironment(e) => EventKeepsInvariant(s, e);
  }

  predicate Executable(s: State, steps: seq<Step>)
    decreases |steps|
  {
    steps == [] || (Enabled(s, steps[0]) && Executable(Apply(s, steps[0]), steps[1..]))
  }

  function Execute(s: State, steps: seq<Step>): State
    requires Executable(s, steps)
    decreases |steps|
  {
    if steps == [] then s else Execute(Apply(s, steps[0]), steps[1..])
  }

  lemma {:induction false} RunKeepsInvariant(s: State, steps: seq<Step>)
    requires Invariant(s) && Executable(s, steps)
    ensures Invariant(Execute(s, steps))
    decreases |steps|
  {
    if steps != [] {
      StepKeepsInvariant(s, steps[0]);
      RunKeepsInvariant(Apply(s, steps[0]), steps[1..]);
    }
  }

  /** Some interleaving leads from the start to `s`. */
  ghost predicate Reachable(s: State) {
    exists steps :: Executable(START, steps) && Execute(START, steps) == s
  }

  lemma ReachableInvariant(s: State)
    requires Reachable(s)
    ensures Invariant(s)
  {
    var steps :| Executable(START, steps) && Execute(START, steps) == s;
    RunKeepsInvariant(START, steps);
  }

  lemma {:induction false} RunExtends(s: State, steps: seq<Step>, step: Step)
    requires Executable(s, steps) && Enabled(Execute(s, steps), step)
    ensures Executable(s, steps + [step])
    ensures Execute(s, steps + [step]) == Apply(Execute(s, steps), step)
    decreases |steps|
  {
    if steps == [] {
      assert steps + [step] == [step];
    } else {
      assert (steps + [step])[1..] == steps[1..] + [step];
      RunExtends(Apply(s, steps[0]), steps[1..], step);
    }
  }

  lemma Reach(s: State, step: Step) returns (s': State)
    requires Reachable(s) && Enabled(s, step)
    ensures s' == Apply(s, step) && Reachable(s')
  {
    s' := Apply(s, step);
    var steps :| Executable(START, steps) && Execute(START, steps) == s;
    RunExtends(START, steps, step);
  }

  /** A run of one step and then the rest. */
  lemma RunBegins(s: State, step: Step, rest: seq<Step>)
    requires Enabled(s, step) && Executable(Apply(s, step), rest)
    ensures Executable(s, [step] + rest) && Execute(s, [step] + rest) == Execute(Apply(s, step), rest)
  {
    assert ([step] + rest)[1..] == rest;
  }

  /**
   * For any history of builds, failing or not, closes and drops: both slots are empty whenever no
   * farmer is there; a filled slot has its clearing registered, or registering it is the builder's
   * next step, which cannot fail; and the index is never there without the cache, which the node
   * asks first.
   */
  lemma SlotsFollowTheFarmer(s: State)
    requires Reachable(s)
    ensures s.owner.phase.Idle? ==> !s.slots.cache && !s.slots.readers
    ensures s.slots.cache ==> Entry(Sync, ClearPieceCache) in s.owner.registered || At(s.owner, CachePublished)
    ensures s.slots.readers ==> Entry(Sync, ClearReaders) in s.owner.registered || At(s.owner, ReadersPublished)
    ensures s.slots.readers ==> s.slots.cache
  {
    ReachableInvariant(s);
    if |s.owner.registered| >= 2 {
      assert s.owner.registered[1] == EntryAt(1);
    }
    if |s.owner.registered| >= 4 {
      assert s.owner.registered[3] == EntryAt(3);
    }
  }

  /**
   * In every interleaving of sector events, driver steps and `close`, a handler that is about to
   * run finds the index slot filled, and its farm's number fits a byte: neither of its `expect`s
   * fails. The exception is a farmer whose driver was discarded instead of awaited.
   */
  lemma HandlerFindsTheIndex(s: State)
    requires Reachable(s) && !s.discarded
    ensures forall i :: i in s.events.inFlight ==> s.slots.readers && i < 256
    ensures !s.events.panicked
  {
    ReachableInvariant(s);
  }

  /** The outcome with which a step ends a farm, if it does. */
  function Ended(step: Step): seq<Outcome> {
    if step.ByDriver? && step.drive.FarmEnds? then [step.drive.outcome] else []
  }

  /** The outcomes with which farms end in a stretch of a run. */
  function EndedWith(steps: seq<Step>): seq<Outcome> {
    if steps == [] then [] else Ended(steps[0]) + EndedWith(steps[1..])
  }

  predicate StartsAfresh(step: Step) {
    step.ByBuilder? && (step.build.SpawnDriver? || step.build.BeginBuild?)
  }

  /** A stretch of a run that is about one farmer only. */
  ghost predicate NoneStartsAfresh(steps: seq<Step>) {
    forall step :: step in steps ==> !StartsAfresh(step)
  }

  lemma OutcomesGrow(s: State, step: Step)
    requires Enabled(s, step) && !StartsAfresh(step)
    ensures Apply(s, step).driver.outcomes == s.driver.outcomes + Ended(step)
  {
    if step.ByOwner? {
      assert Apply(s, step).driver.outcomes == s.driver.outcomes;
    }
  }

  lemma Associative(a: seq<Outcome>, b: seq<Outcome>, c: seq<Outcome>)
    ensures (a + b) + c == a + (b + c)
  {
  }

  lemma {:induction false} OutcomesAppend(s: State, steps: seq<Step>)
    requires Executable(s, steps) && NoneStartsAfresh(steps)
    ensures Execute(s, steps).driver.outcomes == s.driver.outcomes + EndedWith(steps)
    decreases |steps|
  {
    if steps != [] {
      var s' := Apply(s, steps[0]);
      OutcomesGrow(s, steps[0]);
      OutcomesAppend(s', steps[1..]);
      Associative(s.driver.outcomes, Ended(steps[0]), EndedWith(steps[1..]));
    }
  }

  /** The outcomes recorded are those of the farms that ended since the driver was spawned, in order. */
  lemma OutcomesAreTheFarms(s: State, steps: seq<Step>)
    requires Enabled(s, ByBuilder(SpawnDriver)) && Executable(Apply(s, ByBuilder(SpawnDriver)), steps)
    requires NoneStartsAfresh(steps)
    ensures Execute(Apply(s, ByBuilder(SpawnDriver)), steps).driver.outcomes == EndedWith(steps)
  {
    OutcomesAppend(Apply(s, ByBuilder(SpawnDriver)), steps);
  }

  /** `e` is the error of the farm that ended first with one. */
  ghost predicate FailsFirst(outcomes: seq<Outcome>, e: Error) {
    exists i :: 0 <= i < |outcomes| && outcomes[i] == Err(e) && forall j :: 0 <= j < i ==> outcomes[j].Ok?
  }

  /** An answer of `close` tells how the farms ended: with whose error first, or none with one. */
  ghost predicate Tells(answer: Result<(), Error>, outcomes: seq<Outcome>) {
    && (answer.Ok? <==> forall i :: 0 <= i < |outcomes| ==> outcomes[i].Ok?)
    && (forall e :: answer == Err(e) <==> FailsFirst(outcomes, e))
  }

  lemma FirstErrorTells(outcomes: seq<Outcome>)
    ensures Tells(FirstError(ReportAll(outcomes)), outcomes)
  {
    var reports := ReportAll(outcomes);
    FirstErrorIsEarliest(reports);
    assert forall i :: 0 <= i < |reports| ==> (reports[i].Ok? <==> outcomes[i].Ok?);
    assert forall i :: 0 <= i < |reports| ==> forall e :: reports[i] == Err(e) <==> outcomes[i] == Err(e);
    if FirstError(reports).Err? {
      var e := FirstError(reports).error;
      var i :| 0 <= i < |reports| && reports[i] == Err(e) && forall j :: 0 <= j < i ==> reports[j].Ok?;
      assert outcomes[i] == Err(e);
    }
  }

  /**
   * A close that comes to its end answers, with the error of the farm that ended first with one, or
   * with success exactly when no farm ended with an error.
   */
  lemma CloseAnswers(s: State)
    requires Invariant(s) && s.owner.phase == TearingDown(Awaiting) && Enabled(s, ByOwner(EndTeardown))
    ensures var s' := Apply(s, ByOwner(EndTeardown));
            s'.owner.phase.Idle? && s'.closed.Some? && Tells(s'.closed.value, s.driver.outcomes)
  {
    StepKeepsInvariant(s, ByOwner(EndTeardown));
    FirstErrorTells(s.driver.outcomes);
  }

  /**
   * `close` answers with the error of the farm that ended first with one, or with success when no
   * farm ended with an error: every outcome was queued, in order, ahead of the markers. The answer
   * stays what it is until another farmer is built.
   */
  lemma CloseAnswersEarliestFailure(s: State)
    requires Reachable(s)
    ensures s.closed.Some? ==> Tells(s.closed.value, s.driver.outcomes)
    ensures s.owner.phase == TearingDown(Awaiting) && Enabled(s, ByOwner(EndTeardown)) ==>
              var s' := Apply(s, ByOwner(EndTeardown));
              s'.closed.Some? && Tells(s'.closed.value, s.driver.outcomes)
  {
    ReachableInvariant(s);
    FirstErrorTells(s.driver.outcomes);
    if s.owner.phase == TearingDown(Awaiting) && Enabled(s, ByOwner(EndTeardown)) {
      CloseAnswers(s);
    }
  }

  // ---------------------------------------------------------------------------------------
  // Teardown
  // ---------------------------------------------------------------------------------------

  /** What a step does with a registration: an awaited future is done with when it is joined. */
  function ActionsOf(s: State, step: Step): seq<Action<Cleanup>>
    requires Enabled(s, step)
  {
    match step
    case ByOwner(Consume) => [Act(s.owner.phase.mode, Last(s.owner.registered))]
    case ByOwner(JoinTask) => [AwaitAsync(Last(s.owner.registered).payload)]
    case _ => []
  }

  function ActionsDone(s: State, steps: seq<Step>): seq<Action<Cleanup>>
    requires Executable(s, steps)
    decreases |steps|
  {
    if steps == [] then [] else ActionsOf(s, steps[0]) + ActionsDone(Apply(s, steps[0]), steps[1..])
  }

  lemma StepTearsDown(s: State, step: Step)
    requires s.owner.phase.TearingDown? && Enabled(s, step) && step != ByOwner(EndTeardown)
    ensures var s' := Apply(s, step);
            && s'.owner.phase == s.owner.phase
            && Teardown(s.owner.registered, s.owner.phase.mode)
               == ActionsOf(s, step) + Teardown(s'.owner.registered, s.owner.phase.mode)
  {
    if s.owner.registered != [] {
      TeardownRound(s.owner.registered, s.owner.phase.mode);
    }
  }

  /**
   * In any interleaving a close or a drop does with the registrations what the destructor set does:
   * the actions so far and those of tearing the rest down are the teardown of the whole. It can end
   * when no registration is left, so the actions by then are exactly that teardown.
   */
  lemma {:induction false} TeardownIsTheSets(s: State, steps: seq<Step>)
    requires s.owner.phase.TearingDown? && Executable(s, steps) && ByOwner(EndTeardown) !in steps
    ensures var end, mode := Execute(s, steps), s.owner.phase.mode;
            && end.owner.phase == TearingDown(mode)
            && Teardown(s.owner.registered, mode) == ActionsDone(s, steps) + Teardown(end.owner.registered, mode)
            && (Enabled(end, ByOwner(EndTeardown)) ==> ActionsDone(s, steps) == Teardown(s.owner.registered, mode))
    decreases |steps|
  {
    if steps != [] {
      StepTearsDown(s, steps[0]);
      TeardownIsTheSets(Apply(s, steps[0]), steps[1..]);
    }
  }

  // ---------------------------------------------------------------------------------------
  // Lookups by the node
  // ---------------------------------------------------------------------------------------

  /** What a lookup is asked with shows the two slots as they are. */
  ghost predicate ShowsSlots(
      s: State, cache: Option<PieceIndexing.PieceIndex -> Option<PieceIndexing.Piece>>, index: PieceIndexing.IndexView)
  {
    (cache.Some? <==> s.slots.cache) && (index.Filled? <==> s.slots.readers)
  }

  /**
   * In every state of a farmer's life the node's lookup has an answer exactly while the cache slot
   * is filled, so none when no farmer is there and one throughout a farmer's life. It is the cached
   * piece if there is one, whatever the index slot holds; on a cache miss it is a piece exactly if
   * the index slot is filled and some sector has it, given that index and disks agree.
   */
  lemma LookupFollowsTheFarmer(
      s: State, piece: PieceIndexing.PieceIndex,
      cache: Option<PieceIndexing.PieceIndex -> Option<PieceIndexing.Piece>>, index: PieceIndexing.IndexView,
      reader: PieceIndexing.Entry -> Option<PieceIndexing.Piece>, plotted: PieceIndexing.Plotted)
    requires Reachable(s) && ShowsSlots(s, cache, index)
    ensures var answer := PieceIndexing.NodeGetPieceByIndex(piece, cache, index, reader);
            && (answer.None? <==> !s.slots.cache)
            && (s.owner.phase.Idle? ==> answer.None?)
            && (s.owner.phase.Live? ==> answer.Some?)
            && (cache.Some? && cache.value(piece).Some? ==> answer == Some(cache.value(piece)))
            && (cache.Some? && cache.value(piece).None? && !s.slots.readers ==> answer == Some(None))
            && (cache.Some? && cache.value(piece).None? && s.slots.readers
                && PieceIndexing.Agrees(index.entries, plotted)
                && (forall e :: PieceIndexing.OnDisk(plotted, e) ==> reader(e).Some?) ==>
                  (answer.value.Some? <==> exists e :: PieceIndexing.OnDisk(plotted, e) && e.piece == piece))
  {
    SlotsFollowTheFarmer(s);
    ReachableInvariant(s);
    if cache.Some? && cache.value(piece).None? && index.Filled? && PieceIndexing.Agrees(index.entries, plotted) {
      PieceIndexing.MissFindsPlottedPieces(piece, cache.value, index.entries, plotted, reader);
    }
  }
}
