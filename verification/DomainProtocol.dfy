/**
 * Domain start-up and shutdown as a step system: the owner, which builds the domain and later
 * closes or drops it; the bootstrapper task; the runner task. They share two one-shot result
 * channels, two drop signals, the progress cell and the RPC slot. A step is one turn of one party
 * between two awaits; any sequence of enabled steps is an interleaving.
 */
module DomainProtocol {
  import opened Outcomes
  import opened Destructors

  datatype Progress = Default | BuildingStarted | Bootstrapped | PreparingToStart | Starting

  /** Why the runner was cancelled: by which of the two signals, and when. */
  datatype Reason = BootstrapperCancelled | SignalWhileBootstrapping | SignalWhileRunning

  /** An error of a task, or one of the two about channels that were closed without a message. */
  datatype Error = TaskError(detail: string) | NoBootMessage | NoRunnerMessage

  type Report = Result<TaskOutput<(), Reason>, Error>

  /** What the bootstrapper sends: bootstrap data, a cancellation, or an error. */
  datatype BootMessage = Data | BootCancelled | BootError(error: Error)

  datatype BootPhase = BootUnspawned | BootNew | Fetching | BootDone

  datatype Boot = Boot(phase: BootPhase, signalled: bool, message: Option<BootMessage>)

  datatype RunnerPhase =
    | RunnerUnspawned
    | Waiting      // first select: bootstrap result or drop signal
    | GotData      // about to write `Bootstrapped`
    | CreatingSpec
    | Configuring  // awaits `configuration`, not cancellable
    | Configured   // about to write `PreparingToStart`
    | Preparing    // awaits `prepare_for_start`, not cancellable
    | Prepared     // about to fill the RPC slot
    | RpcStored    // about to write `Starting`
    | Running      // second select: domain task or drop signal
    | RunnerDone

  datatype Runner = Runner(
    phase: RunnerPhase,
    signalled: bool,
    sent: seq<Report>,       // everything sent on the result channel
    signalTaken: bool,       // the drop receiver has completed
    polledAgain: bool,       // ... and was polled after that
    sawBootCancelled: bool,  // took the "bootstrapping task was cancelled" branch
    sawNoBootMessage: bool)  // found the bootstrap channel closed and empty

  /** The two entries of the domain's destructor set. */
  datatype Worker = BootWorker | RunnerWorker

  datatype OwnerPhase =
    | Building  // `DomainConfig::build` is spawning and registering
    | Open
    | Closing   // inside `async_drop` of `Domain::close`
    | Closed(result: Result<(), Error>)
    | Dropping  // inside drop of the domain
    | Dropped

  datatype State = State(
    owner: OwnerPhase,
    registered: seq<Entry<Worker>>,
    boot: Boot,
    runner: Runner,
    progress: Progress,
    rpc: bool)  // the RPC slot is filled

  const START: State := State(
    Building, [],
    Boot(BootUnspawned, false, None),
    Runner(RunnerUnspawned, false, [], false, false, false, false),
    Default, false)

  /** How the domain's own task ended, as its join handle reports it. */
  datatype Exit = Finished | RunError(error: Error) | JoinError(error: Error)

  datatype BuildStep = SpawnBootstrapper | RegisterBootstrapper | SpawnRunner | RegisterRunner

  datatype BootStep = BootStarts | FetchReturns(fetched: Result<(), Error>) | BootTakesSignal

  datatype RunnerStep =
    | TakeBootMessage | BootChannelEmpty | TakeSignalWaiting
    | WriteBootstrapped | CreateSpec(spec: Result<(), Error>) | ConfigurationReturns
    | WritePreparing | PrepareReturns(prepared: Result<(), Error>) | StoreRpc | WriteStarting
    | DomainExits(exit: Exit) | TakeSignalRunning

  datatype OwnerStep =
    | BeginClose | SendSignal | Join | ReadResult  // `Domain::close`
    | BeginDrop | DiscardFuture | EndDrop          // drop of the domain

  datatype Step =
    | ByBuilder(build: BuildStep)
    | ByBootstrapper(boot: BootStep)
    | ByRunner(run: RunnerStep)
    | ByOwner(own: OwnerStep)

  // ---------------------------------------------------------------------------------------
  // Steps
  // ---------------------------------------------------------------------------------------

  predicate BuildEnabled(s: State, step: BuildStep) {
    && s.owner.Building?
    && match step
       case SpawnBootstrapper => s.boot.phase.BootUnspawned?
       case RegisterBootstrapper => !s.boot.phase.BootUnspawned? && |s.registered| == 0
       case SpawnRunner => |s.registered| == 1 && s.runner.phase.RunnerUnspawned?
       case RegisterRunner => |s.registered| == 1 && !s.runner.phase.RunnerUnspawned?
  }

  function BuildApply(s: State, step: BuildStep): State {
    match step
    case SpawnBootstrapper => s.(boot := s.boot.(phase := BootNew))
    case RegisterBootstrapper => s.(registered := s.registered + [Entry(Async, BootWorker)])
    case SpawnRunner => s.(runner := s.runner.(phase := Waiting))
    case RegisterRunner => s.(registered := s.registered + [Entry(Async, RunnerWorker)], owner := Open)
  }

  predicate BootEnabled(b: Boot, step: BootStep) {
    match step
    case BootStarts => b.phase.BootNew?
    case FetchReturns(_) => b.phase.Fetching?
    case BootTakesSignal => b.phase.Fetching? && b.signalled
  }

  function BootApply(s: State, step: BootStep): State {
    match step
    case BootStarts => s.(progress := BuildingStarted, boot := s.boot.(phase := Fetching))
    case FetchReturns(fetched) =>
      var m := match fetched case Ok(_) => Data case Err(e) => BootError(e);
      s.(boot := s.boot.(message := Some(m), phase := BootDone))
    case BootTakesSignal => s.(boot := s.boot.(message := Some(BootCancelled), phase := BootDone))
  }

  predicate RunnerEnabled(b: Boot, r: Runner, step: RunnerStep) {
    match step
    case TakeBootMessage => r.phase.Waiting? && b.message.Some?
    case BootChannelEmpty => r.phase.Waiting? && b.message.None? && b.phase.BootDone?
    case TakeSignalWaiting => r.phase.Waiting? && r.signalled
    case WriteBootstrapped => r.phase.GotData?
    case CreateSpec(_) => r.phase.CreatingSpec?
    case ConfigurationReturns => r.phase.Configuring?
    case WritePreparing => r.phase.Configured?
    case PrepareReturns(_) => r.phase.Preparing?
    case StoreRpc => r.phase.Prepared?
    case WriteStarting => r.phase.RpcStored?
    case DomainExits(_) => r.phase.Running?
    case TakeSignalRunning => r.phase.Running? && (r.signalled || r.signalTaken)
  }

  /** How many turns are left at most. */
  function RunnerMeasure(r: RunnerPhase): nat {
    match r
    case RunnerUnspawned => 10
    case Waiting => 9
    case GotData => 8
    case CreatingSpec => 7
    case Configuring => 6
    case Configured => 5
    case Preparing => 4
    case Prepared => 3
    case RpcStored => 2
    case Running => 1
    case RunnerDone => 0
  }

  /** Every way out of the runner: one message on the result channel, then the end. */
  function Finish(r: Runner, report: Report): Runner {
    r.(sent := r.sent + [report], phase := RunnerDone)
  }

  /** The drop receiver completes; completing it twice would be polling it once too often. */
  function TakeSignal(r: Runner): Runner {
    r.(polledAgain := r.polledAgain || r.signalTaken, signalTaken := true)
  }

  function TakeMessage(r: Runner, m: BootMessage): Runner {
    match m
    case Data => r.(phase := GotData)
    case BootCancelled => Finish(r, Ok(Cancelled(BootstrapperCancelled))).(sawBootCancelled := true)
    case BootError(e) => Finish(r, Err(e))
  }

  function NextRunner(b: Boot, r: Runner, step: RunnerStep): (next: Runner)
    requires RunnerEnabled(b, r, step)
    ensures RunnerMeasure(next.phase) < RunnerMeasure(r.phase)
    ensures next.signalled == r.signalled
  {
    match step
    case TakeBootMessage => TakeMessage(r, b.message.value)
    case BootChannelEmpty => Finish(r, Err(NoBootMessage)).(sawNoBootMessage := true)
    case TakeSignalWaiting => Finish(TakeSignal(r), Ok(Cancelled(SignalWhileBootstrapping)))
    case WriteBootstrapped => r.(phase := CreatingSpec)
    case CreateSpec(spec) => if spec.Ok? then r.(phase := Configuring) else Finish(r, Err(spec.error))
    case ConfigurationReturns => r.(phase := Configured)
    case WritePreparing => r.(phase := Preparing)
    case PrepareReturns(p) => if p.Ok? then r.(phase := Prepared) else Finish(r, Err(p.error))
    case StoreRpc => r.(phase := RpcStored)
    case WriteStarting => r.(phase := Running)
    case DomainExits(exit) => Finish(r, if exit.Finished? then Ok(Value(())) else Err(exit.error))
    case TakeSignalRunning => Finish(TakeSignal(r), Ok(Cancelled(SignalWhileRunning)))
  }

  /** The runner's writes to the progress cell. */
  function WrittenProgress(p: Progress, step: RunnerStep): Progress {
    match step
    case WriteBootstrapped => Bootstrapped
    case WritePreparing => PreparingToStart
    case WriteStarting => Starting
    case _ => p
  }

  function RunnerApply(s: State, step: RunnerStep): State
    requires RunnerEnabled(s.boot, s.runner, step)
  {
    s.(runner := NextRunner(s.boot, s.runner, step),
       progress := WrittenProgress(s.progress, step),
       rpc := s.rpc || step.StoreRpc?)
  }

  /** The worker whose cleanup comes next: the destructor set consumes the newest entry first. */
  function NextWorker(s: State): Worker
    requires s.registered != []
  {
    Last(s.registered).payload
  }

  function Signalled(s: State, w: Worker): bool {
    if w.RunnerWorker? then s.runner.signalled else s.boot.signalled
  }

  function Done(s: State, w: Worker): bool {
    if w.RunnerWorker? then s.runner.phase.RunnerDone? else s.boot.phase.BootDone?
  }

  /** The drop sender fires, or is dropped; the receiver can complete either way. */
  function Signal(s: State, w: Worker): State {
    if w.RunnerWorker? then s.(runner := s.runner.(signalled := true)) else s.(boot := s.boot.(signalled := true))
  }

  predicate OwnerEnabled(s: State, step: OwnerStep) {
    match step
    case BeginClose => s.owner.Open?
    case SendSignal => s.owner.Closing? && s.registered != [] && !Signalled(s, NextWorker(s))
    case Join =>
      s.owner.Closing? && s.registered != [] && Signalled(s, NextWorker(s)) && Done(s, NextWorker(s))
    case ReadResult => s.owner.Closing? && s.registered == []
    case BeginDrop => s.owner.Open?
    case DiscardFuture => s.owner.Dropping? && s.registered != []
    case EndDrop => s.owner.Dropping? && s.registered == []
  }

  /** `Domain::close` after the joins: a channel closed without a message is an error of its own. */
  function CloseResult(sent: seq<Report>): Result<(), Error> {
    if sent == [] then Err(NoRunnerMessage)
    else match sent[0] case Ok(_) => Ok(()) case Err(e) => Err(e)
  }

  function OwnerApply(s: State, step: OwnerStep): State
    requires OwnerEnabled(s, step)
  {
    match step
    case BeginClose => s.(owner := Closing)
    case SendSignal => Signal(s, NextWorker(s))
    case Join => s.(registered := DropLast(s.registered))
    case ReadResult => s.(owner := Closed(CloseResult(s.runner.sent)))
    case BeginDrop => s.(owner := Dropping)
    case DiscardFuture => Signal(s, NextWorker(s)).(registered := DropLast(s.registered))
    case EndDrop => s.(owner := Dropped)
  }

  predicate Enabled(s: State, step: Step) {
    match step
    case ByBuilder(b) => BuildEnabled(s, b)
    case ByBootstrapper(b) => BootEnabled(s.boot, b)
    case ByRunner(r) => RunnerEnabled(s.boot, s.runner, r)
    case ByOwner(o) => OwnerEnabled(s, o)
  }

  function Apply(s: State, step: Step): State
    requires Enabled(s, step)
  {
    match step
    case ByBuilder(b) => BuildApply(s, b)
    case ByBootstrapper(b) => BootApply(s, b)
    case ByRunner(r) => RunnerApply(s, r)
    case ByOwner(o) => OwnerApply(s, o)
  }

  // ---------------------------------------------------------------------------------------
  // The invariant
  // ---------------------------------------------------------------------------------------

  const FULL_SET: seq<Entry<Worker>> := [Entry(Async, BootWorker), Entry(Async, RunnerWorker)]

  /** The destructor set holds a prefix of its two entries, all of them outside set-up and teardown. */
  ghost predicate RegistrationInvariant(s: State) {
    && (s.registered == [] || s.registered == FULL_SET[..1] || s.registered == FULL_SET)
    && (s.owner.Open? ==> |s.registered| == 2)
    && (s.owner.Closed? || s.owner.Dropped? ==> s.registered == [])
    && (if s.owner.Building? then
          && |s.registered| <= 1
          && (s.registered != [] ==> !s.boot.phase.BootUnspawned?)
          && (!s.runner.phase.RunnerUnspawned? ==> |s.registered| == 1)
        else
          !s.boot.phase.BootUnspawned? && !s.runner.phase.RunnerUnspawned?)
  }

  /** `close` signals the bootstrapper only after it has joined the runner; it and drop signal both. */
  ghost predicate ShutdownInvariant(s: State) {
    && (s.owner.Building? || s.owner.Open? ==> !s.boot.signalled && !s.runner.signalled)
    && (s.owner.Closing? && |s.registered| == 2 ==> !s.boot.signalled)
    && ((s.owner.Closing? && |s.registered| < 2) || s.owner.Closed? ==> s.runner.phase.RunnerDone?)
    && ((s.owner.Closing? && s.registered == []) || s.owner.Closed? ==> s.boot.phase.BootDone?)
    && (s.owner.Closing? || s.owner.Closed? || s.owner.Dropping? || s.owner.Dropped? ==>
          (|s.registered| < 2 ==> s.runner.signalled) && (s.registered == [] ==> s.boot.signalled))
    && (s.owner.Closed? ==> s.owner.result == CloseResult(s.runner.sent))
    && (s.runner.sawBootCancelled ==> s.owner.Dropping? || s.owner.Dropped?)
  }

  /** Each task sends one message, as its last act, and the drop receiver completes at most once. */
  ghost predicate MessageInvariant(b: Boot, r: Runner) {
    && (b.message.Some? <==> b.phase.BootDone?)
    && (b.message == Some(BootCancelled) ==> b.signalled)
    && |r.sent| == (if r.phase.RunnerDone? then 1 else 0)
    && (r.signalTaken ==> r.phase.RunnerDone?)
    && !r.polledAgain && !r.sawNoBootMessage
  }

  function ProgressRank(p: Progress): nat {
    match p
    case Default => 0
    case BuildingStarted => 1
    case Bootstrapped => 2
    case PreparingToStart => 3
    case Starting => 4
  }

  /** The bootstrapper has not written yet, or has written and the runner not. */
  function EarlyProgress(b: BootPhase): Progress {
    if b.BootUnspawned? || b.BootNew? then Default else BuildingStarted
  }

  /** What the progress cell holds in each phase of the runner. */
  ghost predicate ProgressInvariant(s: State) {
    var started := !s.boot.phase.BootUnspawned? && !s.boot.phase.BootNew?;
    && (match s.runner.phase
        case RunnerUnspawned => s.progress == EarlyProgress(s.boot.phase)
        case Waiting => s.progress == EarlyProgress(s.boot.phase)
        case GotData => s.progress == BuildingStarted
        case CreatingSpec => s.progress == Bootstrapped
        case Configuring => s.progress == Bootstrapped
        case Configured => s.progress == Bootstrapped
        case Preparing => s.progress == PreparingToStart
        case Prepared => s.progress == PreparingToStart
        case RpcStored => s.progress == PreparingToStart && s.rpc
        case Running => s.progress == Starting
        case RunnerDone => s.progress == Default || s.boot.phase.BootDone? || s.boot.phase.Fetching?)
    && (s.progress == Default <==> !started)
    && (ProgressRank(s.progress) >= 2 || s.runner.phase.GotData? ==> s.boot.phase.BootDone?)
    && (s.rpc ==> ProgressRank(s.progress) >= 3)
    && (s.progress == Starting ==> s.rpc)
  }

  ghost predicate Invariant(s: State) {
    && RegistrationInvariant(s)
    && ShutdownInvariant(s)
    && MessageInvariant(s.boot, s.runner)
    && ProgressInvariant(s)
  }

  /** What no step ever takes back. */
  ghost predicate OnlyGrows(s: State, s': State) {
    && ProgressRank(s.progress) <= ProgressRank(s'.progress)
    && (s.rpc ==> s'.rpc)
    && s.runner.sent <= s'.runner.sent
  }

  lemma BuildKeepsInvariant(s: State, step: BuildStep)
    requires Invariant(s) && BuildEnabled(s, step)
    ensures Invariant(BuildApply(s, step)) && OnlyGrows(s, BuildApply(s, step))
  {
  }

  lemma BootKeepsInvariant(s: State, step: BootStep)
    requires Invariant(s) && BootEnabled(s.boot, step)
    ensures Invariant(BootApply(s, step)) && OnlyGrows(s, BootApply(s, step))
  {
  }

  lemma RunnerKeepsInvariant(s: State, step: RunnerStep)
    requires Invariant(s) && RunnerEnabled(s.boot, s.runner, step)
    ensures Invariant(RunnerApply(s, step)) && OnlyGrows(s, RunnerApply(s, step))
  {
  }

  lemma OwnerKeepsInvariant(s: State, step: OwnerStep)
    requires Invariant(s) && OwnerEnabled(s, step)
    ensures Invariant(OwnerApply(s, step)) && OnlyGrows(s, OwnerApply(s, step))
  {
    if s.registered != [] {
      assert DropLast(s.registered) == FULL_SET[..|s.registered| - 1];
    }
  }

  lemma StepKeepsInvariant(s: State, step: Step)
    requires Invariant(s) && Enabled(s, step)
    ensures Invariant(Apply(s, step)) && OnlyGrows(s, Apply(s, step))
  {
    match step
    case ByBuilder(b) => BuildKeepsInvariant(s, b);
    case ByBootstrapper(b) => BootKeepsInvariant(s, b);
    case ByRunner(r) => RunnerKeepsInvariant(s, r);
    case ByOwner(o) => OwnerKeepsInvariant(s, o);
  }

  // ---------------------------------------------------------------------------------------
  // Runs
  // ---------------------------------------------------------------------------------------

  predicate Executable(s: State, steps: seq<Step>)
    decreases |steps|
  {
    steps == [] || (Enabled(s, steps[0]) && Executable(Apply(s, steps[0]), steps[1..]))
  }

  function Execute(s: State, steps: seq<Step>): State
    requires Executable(s, steps)
    decreases |steps|
  {
    if steps == [] then s else Execute(Apply(s, steps[0]), steps[1..])
  }

  /**
   * From any reachable state on, in any interleaving: progress never goes back although two tasks
   * write it, the RPC slot is not emptied, and what was sent stays sent.
   */
  lemma {:induction false} RunKeepsInvariant(s: State, steps: seq<Step>)
    requires Invariant(s) && Executable(s, steps)
    ensures Invariant(Execute(s, steps)) && OnlyGrows(s, Execute(s, steps))
    decreases |steps|
  {
    if steps != [] {
      StepKeepsInvariant(s, steps[0]);
      RunKeepsInvariant(Apply(s, steps[0]), steps[1..]);
    }
  }

  /** Some interleaving leads from the start to `s`. */
  ghost predicate Reachable(s: State) {
    exists steps :: Executable(START, steps) && Execute(START, steps) == s
  }

  lemma ReachableInvariant(s: State)
    requires Reachable(s)
    ensures Invariant(s)
  {
    var steps :| Executable(START, steps) && Execute(START, steps) == s;
    RunKeepsInvariant(START, steps);
  }

  /**
   * In every interleaving: the runner sends exactly one message, and has done so when it ends; its
   * drop receiver is not polled once completed; it never finds the bootstrap channel closed and
   * empty. Close and drop signal both tasks. So `close` never sees a closed empty channel, and
   * fails exactly with the error sent.
   */
  lemma OneResult(s: State)
    requires Reachable(s)
    ensures |s.runner.sent| == (if s.runner.phase.RunnerDone? then 1 else 0)
    ensures !s.runner.polledAgain && !s.runner.sawNoBootMessage
    ensures s.owner.Closed? || s.owner.Dropped? ==> s.runner.signalled && s.boot.signalled
    ensures s.owner.Closed? ==>
              && s.runner.phase.RunnerDone? && s.boot.phase.BootDone?
              && s.owner.result == match s.runner.sent[0] case Ok(_) => Ok(()) case Err(e) => Err(e)
  {
    ReachableInvariant(s);
  }

  /** `m`, which carries no data, reached the bootstrap channel: it was there, or a step put it there. */
  ghost predicate BootSent(s: State, steps: seq<Step>, m: BootMessage)
    requires !m.Data?
  {
    || s.boot.message == Some(m)
    || (m.BootCancelled? && ByBootstrapper(BootTakesSignal) in steps)
    || (m.BootError? && ByBootstrapper(FetchReturns(Err(m.error))) in steps)
  }

  /** The steps contain what `report` tells about: how the domain ended, failed or was cancelled. */
  ghost predicate Happened(s: State, steps: seq<Step>, report: Report) {
    match report
    case Ok(Value(_)) => ByRunner(DomainExits(Finished)) in steps
    case Ok(Cancelled(SignalWhileBootstrapping)) => ByRunner(TakeSignalWaiting) in steps
    case Ok(Cancelled(SignalWhileRunning)) => ByRunner(TakeSignalRunning) in steps
    case Ok(Cancelled(BootstrapperCancelled)) =>
      ByRunner(TakeBootMessage) in steps && BootSent(s, steps, BootCancelled)
    case Err(e) =>
      || ByRunner(CreateSpec(Err(e))) in steps
      || ByRunner(PrepareReturns(Err(e))) in steps
      || ByRunner(DomainExits(RunError(e))) in steps
      || ByRunner(DomainExits(JoinError(e))) in steps
      || (ByRunner(TakeBootMessage) in steps && BootSent(s, steps, BootError(e)))
  }

  /** Once the runner has ended it takes no step, and what it sent is final. */
  lemma {:induction false} EndedRunnerRests(s: State, steps: seq<Step>)
    requires s.runner.phase.RunnerDone? && Executable(s, steps)
    ensures forall step :: step in steps ==> !step.ByRunner?
    ensures Execute(s, steps).runner.sent == s.runner.sent
    decreases |steps|
  {
    if steps != [] {
      EndedRunnerRests(Apply(s, steps[0]), steps[1..]);
    }
  }

  /** What happens in the rest of a run happens in the run. */
  lemma HappensInTail(s: State, steps: seq<Step>, report: Report)
    requires steps != [] && Enabled(s, steps[0])
    requires Happened(Apply(s, steps[0]), steps[1..], report)
    ensures Happened(s, steps, report)
  {
    assert forall step :: step in steps[1..] ==> step in steps;
    assert steps[0] in steps;
    forall m: BootMessage | !m.Data? && BootSent(Apply(s, steps[0]), steps[1..], m)
      ensures BootSent(s, steps, m)
    {
      if steps[0].ByBootstrapper? && steps[0].boot.FetchReturns? && m.BootError? {
        assert s.boot.message == Some(m) || ByBootstrapper(FetchReturns(Err(m.error))) in steps;
      }
    }
  }

  /** The step that ends the runner is what its message tells about. */
  lemma EndingStepIsReported(s: State, step: RunnerStep, steps: seq<Step>)
    requires RunnerEnabled(s.boot, s.runner, step) && MessageInvariant(s.boot, s.runner)
    requires RunnerApply(s, step).runner.phase.RunnerDone? && ByRunner(step) in steps
    ensures |RunnerApply(s, step).runner.sent| == 1 && Happened(s, steps, RunnerApply(s, step).runner.sent[0])
  {
  }

  /**
   * The runner reports what happened to it: a message in which the domain ended, failed with some
   * error, or was cancelled is sent only in runs in which it did, on the runner's own account or
   * as told by the bootstrapper.
   */
  lemma {:induction false} MessageTellsWhatHappened(s: State, steps: seq<Step>)
    requires Invariant(s) && !s.runner.phase.RunnerDone? && Executable(s, steps)
    ensures var sent := Execute(s, steps).runner.sent; sent != [] ==> |sent| == 1 && Happened(s, steps, sent[0])
    decreases |steps|
  {
    if steps != [] {
      var s' := Apply(s, steps[0]);
      StepKeepsInvariant(s, steps[0]);
      if s'.runner.phase.RunnerDone? {
        EndedRunnerRests(s', steps[1..]);
        EndingStepIsReported(s, steps[0].run, steps);
      } else {
        MessageTellsWhatHappened(s', steps[1..]);
        var sent := Execute(s', steps[1..]).runner.sent;
        if sent != [] {
          HappensInTail(s, steps, sent[0]);
        }
      }
    }
  }

  /** A failure that the runner meets, or is told of. */
  ghost predicate RunnerFails(s: State, step: Step, e: Error) {
    || step == ByRunner(CreateSpec(Err(e)))
    || step == ByRunner(PrepareReturns(Err(e)))
    || step == ByRunner(DomainExits(RunError(e)))
    || step == ByRunner(DomainExits(JoinError(e)))
    || (step == ByRunner(TakeBootMessage) && s.boot.message == Some(BootError(e)))
  }

  /** No failure is swallowed: after one, whatever else happens, `close` fails with that error. */
  lemma FailureIsReported(s: State, step: Step, e: Error, steps: seq<Step>)
    requires Reachable(s) && Enabled(s, step) && RunnerFails(s, step, e)
    requires Executable(Apply(s, step), steps)
    ensures var end := Execute(Apply(s, step), steps);
            && end.runner.sent == [Err(e)]
            && (end.owner.Closed? ==> end.owner.result == Err(e))
  {
    ReachableInvariant(s);
    StepKeepsInvariant(s, step);
    var s' := Apply(s, step);
    assert s'.runner.phase.RunnerDone? && s'.runner.sent == [Err(e)];
    EndedRunnerRests(s', steps);
    RunKeepsInvariant(s', steps);
  }

  /** What a step does with a registration: an awaited future is done with when it is joined. */
  function ActionsOf(s: State, step: Step): seq<Action<Worker>>
    requires Enabled(s, step)
  {
    match step
    case ByOwner(Join) => [AwaitAsync(NextWorker(s))]
    case ByOwner(DiscardFuture) => [DiscardAsync(NextWorker(s))]
    case _ => []
  }

  function ActionsDone(s: State, steps: seq<Step>): seq<Action<Worker>>
    requires Executable(s, steps)
    decreases |steps|
  {
    if steps == [] then [] else ActionsOf(s, steps[0]) + ActionsDone(Apply(s, steps[0]), steps[1..])
  }

  /** The two ways of giving a domain up, before they have ended. */
  predicate Teardowns(o: OwnerPhase, mode: Mode) {
    if mode.Awaiting? then o.Closing? else o.Dropping?
  }

  ghost predicate AllAsync(stack: seq<Entry<Worker>>) {
    forall e :: e in stack ==> e.tag.Async?
  }

  lemma StepTearsDown(s: State, step: Step, mode: Mode)
    requires AllAsync(s.registered) && Teardowns(s.owner, mode) && Enabled(s, step)
    requires step != ByOwner(ReadResult) && step != ByOwner(EndDrop)
    ensures var s' := Apply(s, step);
            && AllAsync(s'.registered) && Teardowns(s'.owner, mode)
            && Teardown(s.registered, mode) == ActionsOf(s, step) + Teardown(s'.registered, mode)
  {
    if s.registered != [] {
      TeardownRound(s.registered, mode);
    }
  }

  lemma {:induction false} RunTearsDown(s: State, steps: seq<Step>, mode: Mode)
    requires AllAsync(s.registered) && Teardowns(s.owner, mode) && Executable(s, steps)
    requires ByOwner(ReadResult) !in steps && ByOwner(EndDrop) !in steps
    ensures var end := Execute(s, steps);
            && Teardowns(end.owner, mode)
            && Teardown(s.registered, mode) == ActionsDone(s, steps) + Teardown(end.registered, mode)
    decreases |steps|
  {
    if steps != [] {
      StepTearsDown(s, steps[0], mode);
      RunTearsDown(Apply(s, steps[0]), steps[1..], mode);
    }
  }

  /**
   * In any interleaving `close` and drop do with the registrations what the destructor set does: by
   * the time the result is read, or the drop ends, the actions are the teardown of the whole set.
   */
  lemma TeardownIsTheSets(s: State, steps: seq<Step>, mode: Mode)
    requires Reachable(s) && Teardowns(s.owner, mode) && Executable(s, steps)
    requires ByOwner(ReadResult) !in steps && ByOwner(EndDrop) !in steps
    ensures var end := Execute(s, steps);
            && Teardown(s.registered, mode) == ActionsDone(s, steps) + Teardown(end.registered, mode)
            && (Enabled(end, ByOwner(if mode.Awaiting? then ReadResult else EndDrop)) ==>
                  ActionsDone(s, steps) == Teardown(s.registered, mode))
  {
    ReachableInvariant(s);
    RunTearsDown(s, steps, mode);
  }

  /** A started domain can be called, and nothing can be called before it is being prepared. */
  lemma ProgressAndRpcAgree(s: State)
    requires Reachable(s)
    ensures s.progress == Starting ==> s.rpc
    ensures ProgressRank(s.progress) < ProgressRank(PreparingToStart) ==> !s.rpc
  {
    ReachableInvariant(s);
  }

  /** The "bootstrapping task was cancelled" branch of the runner is only for dropped domains. */
  lemma BootCancellationOnlyAfterDrop(s: State)
    requires Reachable(s) && s.runner.sawBootCancelled
    ensures s.owner.Dropping? || s.owner.Dropped?
  {
    ReachableInvariant(s);
  }

  lemma {:induction false} RunExtends(s: State, steps: seq<Step>, step: Step)
    requires Executable(s, steps) && Enabled(Execute(s, steps), step)
    ensures Executable(s, steps + [step])
    ensures Execute(s, steps + [step]) == Apply(Execute(s, steps), step)
    decreases |steps|
  {
    if steps == [] {
      assert steps + [step] == [step];
    } else {
      assert (steps + [step])[1..] == steps[1..] + [step];
      RunExtends(Apply(s, steps[0]), steps[1..], step);
    }
  }

  /** A run of one step and then the rest. */
  lemma RunBegins(s: State, step: Step, rest: seq<Step>)
    requires Enabled(s, step) && Executable(Apply(s, step), rest)
    ensures Executable(s, [step] + rest) && Execute(s, [step] + rest) == Execute(Apply(s, step), rest)
  {
    assert ([step] + rest)[1..] == rest;
  }

  lemma Reach(s: State, step: Step) returns (s': State)
    requires Reachable(s) && Enabled(s, step)
    ensures s' == Apply(s, step) && Reachable(s')
  {
    s' := Apply(s, step);
    var steps :| Executable(START, steps) && Execute(START, steps) == s;
    RunExtends(START, steps, step);
  }

  /** A built domain of which neither task has had a turn. */
  lemma BuiltDomain() returns (s: State)
    ensures Reachable(s)
    ensures s == START.(owner := Open, registered := FULL_SET,
                        boot := START.boot.(phase := BootNew), runner := START.runner.(phase := Waiting))
  {
    assert Executable(START, []) && Execute(START, []) == START;
    s := Reach(START, ByBuilder(SpawnBootstrapper));
    s := Reach(s, ByBuilder(RegisterBootstrapper));
    s := Reach(s, ByBuilder(SpawnRunner));
    s := Reach(s, ByBuilder(RegisterRunner));
  }

  /** ... and dropping a domain while it bootstraps can lead there. */
  lemma BootCancellationAfterDrop()
    ensures exists s :: Reachable(s) && s.owner.Dropped? && s.runner.sawBootCancelled
  {
    var s := BuiltDomain();
    s := Reach(s, ByBootstrapper(BootStarts));
    s := Reach(s, ByOwner(BeginDrop));
    s := Reach(s, ByOwner(DiscardFuture));
    s := Reach(s, ByOwner(DiscardFuture));
    s := Reach(s, ByBootstrapper(BootTakesSignal));
    s := Reach(s, ByRunner(TakeBootMessage));
    s := Reach(s, ByOwner(EndDrop));
  }

  // ---------------------------------------------------------------------------------------
  // Termination of close
  // ---------------------------------------------------------------------------------------

  function BootMeasure(b: BootPhase): nat {
    match b case BootUnspawned => 3 case BootNew => 2 case Fetching => 1 case BootDone => 0
  }

  function OwnerMeasure(s: State): int {
    match s.owner
    case Building => 6 - |s.registered|
    case Open => 4
    case Closing => 1 + |s.registered|
    case Dropping => 1 + |s.registered|
    case Closed(_) => 0
    case Dropped => 0
  }

  /** Remaining turns of the runner and the bootstrapper, remaining cleanups, unsent signals. */
  function Measure(s: State): int {
    BootMeasure(s.boot.phase) + RunnerMeasure(s.runner.phase) + OwnerMeasure(s)
    + (if s.boot.signalled then 0 else 1) + (if s.runner.signalled then 0 else 1)
  }

  lemma OwnerDecreasesMeasure(s: State, step: OwnerStep)
    requires RegistrationInvariant(s) && OwnerEnabled(s, step)
    ensures Measure(OwnerApply(s, step)) < Measure(s)
  {
    if s.registered != [] {
      assert NextWorker(s) == if |s.registered| == 2 then RunnerWorker else BootWorker;
    }
  }

  lemma BuildDecreasesMeasure(s: State, step: BuildStep)
    requires BuildEnabled(s, step)
    ensures Measure(BuildApply(s, step)) < Measure(s)
  {
  }

  lemma BootDecreasesMeasure(s: State, step: BootStep)
    requires BootEnabled(s.boot, step)
    ensures Measure(BootApply(s, step)) < Measure(s)
  {
  }

  lemma RunnerDecreasesMeasure(s: State, step: RunnerStep)
    requires RunnerEnabled(s.boot, s.runner, step)
    ensures Measure(RunnerApply(s, step)) < Measure(s)
  {
  }

  lemma StepDecreasesMeasure(s: State, step: Step)
    requires Invariant(s) && Enabled(s, step)
    ensures Measure(Apply(s, step)) < Measure(s)
  {
    match step
    case ByBuilder(b) => BuildDecreasesMeasure(s, b);
    case ByBootstrapper(b) => BootDecreasesMeasure(s, b);
    case ByRunner(r) => RunnerDecreasesMeasure(s, r);
    case ByOwner(o) => OwnerDecreasesMeasure(s, o);
  }

  lemma {:induction false} RunsAreShort(s: State, steps: seq<Step>)
    requires Invariant(s) && Executable(s, steps)
    ensures |steps| <= Measure(s)
    decreases |steps|
  {
    if steps != [] {
      StepDecreasesMeasure(s, steps[0]);
      StepKeepsInvariant(s, steps[0]);
      RunsAreShort(Apply(s, steps[0]), steps[1..]);
    }
  }

  /**
   * Steps that happen without help from the network or the domain: all but the end of the fetch
   * and of the running domain. `configuration` and `prepare_for_start` are taken to return.
   */
  predicate Guaranteed(step: Step) {
    match step
    case ByBootstrapper(b) => !b.FetchReturns?
    case ByRunner(r) => !r.DomainExits?
    case _ => true
  }

  /** A step that can be taken whenever a close is under way. */
  function NextMove(s: State): Step {
    if s.registered == [] then ByOwner(ReadResult)
    else if !Signalled(s, NextWorker(s)) then ByOwner(SendSignal)
    else if Done(s, NextWorker(s)) then ByOwner(Join)
    else if NextWorker(s).BootWorker? then
      ByBootstrapper(if s.boot.phase.BootNew? then BootStarts else BootTakesSignal)
    else
      ByRunner(match s.runner.phase
               case GotData => WriteBootstrapped
               case CreatingSpec => CreateSpec(Ok(()))
               case Configuring => ConfigurationReturns
               case Configured => WritePreparing
               case Preparing => PrepareReturns(Ok(()))
               case Prepared => StoreRpc
               case RpcStored => WriteStarting
               case Running => TakeSignalRunning
               case _ => TakeSignalWaiting)
  }

  lemma CloseIsNeverStuck(s: State)
    requires Invariant(s) && s.owner.Closing?
    ensures Enabled(s, NextMove(s)) && Guaranteed(NextMove(s))
  {
    if s.registered != [] {
      assert NextWorker(s) == if |s.registered| == 2 then RunnerWorker else BootWorker;
    }
  }

  lemma {:induction false} ClosingStaysClosing(s: State, steps: seq<Step>)
    requires Invariant(s) && Executable(s, steps)
    requires s.owner.Closing? || s.owner.Closed?
    ensures Execute(s, steps).owner.Closing? || Execute(s, steps).owner.Closed?
    decreases |steps|
  {
    if steps != [] {
      StepKeepsInvariant(s, steps[0]);
      ClosingStaysClosing(Apply(s, steps[0]), steps[1..]);
    }
  }

  /**
   * `close` terminates and is free of deadlock: a run from a closing state has a bounded number of
   * steps, and one that no guaranteed step can extend has ended with the domain closed.
   */
  lemma CloseTerminates(s: State, steps: seq<Step>)
    requires Reachable(s) && s.owner.Closing? && Executable(s, steps)
    ensures |steps| <= Measure(s)
    ensures (forall step :: Guaranteed(step) ==> !Enabled(Execute(s, steps), step)) ==> Execute(s, steps).owner.Closed?
  {
    ReachableInvariant(s);
    RunsAreShort(s, steps);
    RunKeepsInvariant(s, steps);
    ClosingStaysClosing(s, steps);
    var end := Execute(s, steps);
    if end.owner.Closing? {
      CloseIsNeverStuck(end);
    }
  }
}
