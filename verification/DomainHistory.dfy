/**
 * What a run of a domain has done decides what state it is in: the runner follows a fixed schedule
 * and leaves it in one of nine ways, each with a report of its own; the bootstrapper's message tells
 * how its fetch ended; progress and RPC slot tell how far the runner has come.
 */
module DomainHistory {
  import opened Outcomes
  import opened Destructors
  import opened DomainProtocol

  /** The runner's turns of a run, in order. */
  function Turns(steps: seq<Step>): seq<RunnerStep> {
    if steps == [] then []
    else Turns(DropLast(steps)) + if Last(steps).ByRunner? then [Last(steps).run] else []
  }

  /** The bootstrapper's turns. */
  function BootTurns(steps: seq<Step>): seq<BootStep> {
    if steps == [] then []
    else BootTurns(DropLast(steps)) + if Last(steps).ByBootstrapper? then [Last(steps).boot] else []
  }

  lemma TurnsGrow(steps: seq<Step>, step: Step)
    ensures Turns(steps + [step]) == Turns(steps) + if step.ByRunner? then [step.run] else []
    ensures BootTurns(steps + [step]) == BootTurns(steps) + if step.ByBootstrapper? then [step.boot] else []
  {
    assert DropLast(steps + [step]) == steps;
  }

  // ---------------------------------------------------------------------------------------
  // The schedule and the exits
  // ---------------------------------------------------------------------------------------

  /** The turn with number `k` of a runner that gets as far as running the domain. */
  predicate Scheduled(k: nat, turn: RunnerStep) {
    match k
    case 0 => turn.TakeBootMessage?
    case 1 => turn.WriteBootstrapped?
    case 2 => turn.CreateSpec? && turn.spec.Ok?
    case 3 => turn.ConfigurationReturns?
    case 4 => turn.WritePreparing?
    case 5 => turn.PrepareReturns? && turn.prepared.Ok?
    case 6 => turn.StoreRpc?
    case 7 => turn.WriteStarting?
    case _ => false
  }

  ghost predicate OnSchedule(turns: seq<RunnerStep>) {
    forall k :: 0 <= k < |turns| ==> Scheduled(k, turns[k])
  }

  /** The ways to leave the schedule after so many turns, and what each of them reports. */
  ghost predicate Exits(done: nat, turn: RunnerStep, message: Option<BootMessage>, report: Report) {
    match turn
    case TakeBootMessage =>
      done == 0 && message.Some?
      && (match message.value
          case Data => false
          case BootCancelled => report == Ok(Cancelled(BootstrapperCancelled))
          case BootError(e) => report == Err(e))
    case TakeSignalWaiting => done == 0 && report == Ok(Cancelled(SignalWhileBootstrapping))
    case CreateSpec(spec) => done == 2 && spec.Err? && report == Err(spec.error)
    case PrepareReturns(prepared) => done == 5 && prepared.Err? && report == Err(prepared.error)
    case DomainExits(exit) =>
      done == 8
      && (match exit
          case Finished => report == Ok(Value(()))
          case RunError(e) => report == Err(e)
          case JoinError(e) => report == Err(e))
    case TakeSignalRunning => done == 8 && report == Ok(Cancelled(SignalWhileRunning))
    case _ => false
  }

  function TurnsBy(phase: RunnerPhase): nat {
    match phase
    case RunnerUnspawned => 0
    case Waiting => 0
    case GotData => 1
    case CreatingSpec => 2
    case Configuring => 3
    case Configured => 4
    case Preparing => 5
    case Prepared => 6
    case RpcStored => 7
    case Running => 8
    case RunnerDone => 9
  }

  /** The runner is on its schedule, and its phase says how far; or it has left it and has reported. */
  ghost predicate RunnerTells(r: Runner, message: Option<BootMessage>, turns: seq<RunnerStep>) {
    if r.phase.RunnerDone? then
      && turns != [] && OnSchedule(DropLast(turns))
      && |r.sent| == 1 && Exits(|turns| - 1, Last(turns), message, r.sent[0])
      && (|turns| > 1 ==> message == Some(Data))
    else
      && OnSchedule(turns) && |turns| == TurnsBy(r.phase)
      && r.sent == []
      && (turns != [] ==> message == Some(Data))
  }

  /** Signals are taken only when they were sent. */
  ghost predicate SignalsTell(r: Runner, turns: seq<RunnerStep>) {
    TakeSignalWaiting in turns || TakeSignalRunning in turns ==> r.signalled
  }

  /** How the fetch ended is what the message says. */
  ghost predicate BootTells(b: Boot, turns: seq<BootStep>) {
    match b.phase
    case BootUnspawned => turns == [] && b.message == None
    case BootNew => turns == [] && b.message == None
    case Fetching => turns == [BootStarts] && b.message == None
    case BootDone =>
      && |turns| == 2 && turns[0] == BootStarts
      && (match turns[1]
          case BootStarts => false
          case FetchReturns(fetched) =>
            b.message == Some(match fetched case Ok(_) => Data case Err(e) => BootError(e))
          case BootTakesSignal => b.message == Some(BootCancelled))
  }

  /** The progress cell holds what was written last, and the RPC slot what was stored. */
  ghost predicate CellsTell(s: State, turns: seq<RunnerStep>, bootTurns: seq<BootStep>) {
    && s.progress == (if WriteStarting in turns then Starting
                      else if WritePreparing in turns then PreparingToStart
                      else if WriteBootstrapped in turns then Bootstrapped
                      else if BootStarts in bootTurns then BuildingStarted
                      else Default)
    && (s.rpc <==> StoreRpc in turns)
  }

  ghost predicate HistoryTells(s: State, steps: seq<Step>) {
    && RunnerTells(s.runner, s.boot.message, Turns(steps))
    && SignalsTell(s.runner, Turns(steps))
    && BootTells(s.boot, BootTurns(steps))
    && CellsTell(s, Turns(steps), BootTurns(steps))
  }

  lemma SignalTurnTells(b: Boot, r: Runner, step: RunnerStep, turns: seq<RunnerStep>)
    requires RunnerEnabled(b, r, step) && MessageInvariant(b, r) && SignalsTell(r, turns)
    ensures SignalsTell(NextRunner(b, r, step), turns + [step])
  {
  }

  lemma TurnIsScheduledOrExit(b: Boot, r: Runner, step: RunnerStep)
    requires RunnerEnabled(b, r, step) && MessageInvariant(b, r) && r.sent == []
    ensures var next := NextRunner(b, r, step);
            if next.phase.RunnerDone? then
              |next.sent| == 1 && Exits(TurnsBy(r.phase), step, b.message, next.sent[0])
            else
              next.sent == [] && Scheduled(TurnsBy(r.phase), step) && TurnsBy(next.phase) == TurnsBy(r.phase) + 1
              && (step.TakeBootMessage? ==> b.message == Some(Data))
  {
  }

  lemma RunnerTurnTells(b: Boot, r: Runner, step: RunnerStep, turns: seq<RunnerStep>)
    requires RunnerEnabled(b, r, step) && MessageInvariant(b, r) && RunnerTells(r, b.message, turns)
    ensures RunnerTells(NextRunner(b, r, step), b.message, turns + [step])
  {
    assert DropLast(turns + [step]) == turns;
    TurnIsScheduledOrExit(b, r, step);
  }

  lemma RunnerWritesCells(s: State, step: RunnerStep, turns: seq<RunnerStep>, bootTurns: seq<BootStep>)
    requires RunnerEnabled(s.boot, s.runner, step)
    requires RunnerTells(s.runner, s.boot.message, turns) && CellsTell(s, turns, bootTurns)
    ensures CellsTell(RunnerApply(s, step), turns + [step], bootTurns)
  {
  }

  lemma BootTurnTells(s: State, step: BootStep, turns: seq<RunnerStep>, bootTurns: seq<BootStep>)
    requires BootEnabled(s.boot, step) && ProgressInvariant(s) && MessageInvariant(s.boot, s.runner)
    requires RunnerTells(s.runner, s.boot.message, turns)
    requires BootTells(s.boot, bootTurns) && CellsTell(s, turns, bootTurns)
    ensures BootTells(BootApply(s, step).boot, bootTurns + [step])
    ensures RunnerTells(s.runner, BootApply(s, step).boot.message, turns)
    ensures CellsTell(BootApply(s, step), turns, bootTurns + [step])
  {
  }

  lemma BuilderTells(s: State, step: BuildStep, turns: seq<RunnerStep>, bootTurns: seq<BootStep>)
    requires BuildEnabled(s, step) && RunnerTells(s.runner, s.boot.message, turns)
    requires BootTells(s.boot, bootTurns) && CellsTell(s, turns, bootTurns)
    ensures var s' := BuildApply(s, step);
            && RunnerTells(s'.runner, s'.boot.message, turns)
            && BootTells(s'.boot, bootTurns) && CellsTell(s', turns, bootTurns)
  {
  }

  lemma OwnerTells(s: State, step: OwnerStep, turns: seq<RunnerStep>, bootTurns: seq<BootStep>)
    requires OwnerEnabled(s, step) && RunnerTells(s.runner, s.boot.message, turns) && SignalsTell(s.runner, turns)
    requires BootTells(s.boot, bootTurns) && CellsTell(s, turns, bootTurns)
    ensures var s' := OwnerApply(s, step);
            && RunnerTells(s'.runner, s'.boot.message, turns) && SignalsTell(s'.runner, turns)
            && BootTells(s'.boot, bootTurns) && CellsTell(s', turns, bootTurns)
  {
    OwnerOnlySignals(s, step);
  }

  /** Nothing that the history tells about is changed by signals, but that they were sent. */
  ghost predicate OnlySignals(s: State, s': State) {
    && (s'.runner == s.runner || s'.runner == s.runner.(signalled := true))
    && (s'.boot == s.boot || s'.boot == s.boot.(signalled := true))
    && s'.progress == s.progress && s'.rpc == s.rpc
  }

  lemma SignalOnlySignals(s: State, w: Worker)
    ensures OnlySignals(s, Signal(s, w))
  {
  }

  lemma OwnerOnlySignals(s: State, step: OwnerStep)
    requires OwnerEnabled(s, step)
    ensures OnlySignals(s, OwnerApply(s, step))
  {
    if step.SendSignal? || step.DiscardFuture? {
      SignalOnlySignals(s, NextWorker(s));
    }
  }

  lemma StepTells(s: State, step: Step, steps: seq<Step>)
    requires Invariant(s) && Enabled(s, step) && HistoryTells(s, steps)
    ensures HistoryTells(Apply(s, step), steps + [step])
  {
    TurnsGrow(steps, step);
    var turns, bootTurns := Turns(steps), BootTurns(steps);
    match step {
      case ByRunner(r) =>
        RunnerTurnTells(s.boot, s.runner, r, turns);
        SignalTurnTells(s.boot, s.runner, r, turns);
        RunnerWritesCells(s, r, turns, bootTurns);
      case ByBootstrapper(b) => BootTurnTells(s, b, turns, bootTurns);
      case ByBuilder(b) => BuilderTells(s, b, turns, bootTurns);
      case ByOwner(o) => OwnerTells(s, o, turns, bootTurns);
    }
    assert Turns(steps + [step]) == if step.ByRunner? then turns + [step.run] else turns;
    assert BootTurns(steps + [step]) == if step.ByBootstrapper? then bootTurns + [step.boot] else bootTurns;
  }

  lemma {:induction false} RunTells(s: State, past: seq<Step>, steps: seq<Step>)
    requires Invariant(s) && HistoryTells(s, past) && Executable(s, steps)
    ensures HistoryTells(Execute(s, steps), past + steps)
    decreases |steps|
  {
    if steps == [] {
      assert past + steps == past;
    } else {
      var s', longer := Apply(s, steps[0]), past + [steps[0]];
      assert past + steps == longer + steps[1..];
      StepTells(s, steps[0], past);
      StepKeepsInvariant(s, steps[0]);
      RunTells(s', longer, steps[1..]);
      assert Execute(s, steps) == Execute(s', steps[1..]);
    }
  }

  /**
   * In every interleaving: the runner's turns follow the schedule; it ends only by one of the exits,
   * and its one report is the one of that exit; the bootstrap message tells how the fetch ended; the
   * two cells hold what was written last.
   */
  lemma HistoryDecides(steps: seq<Step>)
    requires Executable(START, steps)
    ensures HistoryTells(Execute(START, steps), steps)
  {
    assert Executable(START, []) && Execute(START, []) == START;
    ReachableInvariant(START);
    RunTells(START, [], steps);
    assert [] + steps == steps;
  }

  // ---------------------------------------------------------------------------------------
  // A fetch decides
  // ---------------------------------------------------------------------------------------

  lemma {:induction false} TurnIsStep(steps: seq<Step>, step: Step)
    ensures step in steps && step.ByBootstrapper? <==> step.ByBootstrapper? && step.boot in BootTurns(steps)
  {
    if steps != [] {
      TurnIsStep(DropLast(steps), step);
      assert steps == DropLast(steps) + [Last(steps)];
    }
  }

  /** The runner has been given data, or is about to be past that point. */
  predicate HasData(phase: RunnerPhase) {
    !phase.RunnerUnspawned? && !phase.Waiting? && !phase.RunnerDone?
  }

  /**
   * A failed fetch is never swallowed: the runner never gets as far as having data; unless a drop
   * signal ends it first, the error is its one message, and what `close` fails with.
   */
  lemma FailedFetchIsReported(steps: seq<Step>, e: DomainProtocol.Error)
    requires Executable(START, steps) && ByBootstrapper(FetchReturns(Err(e))) in steps
    ensures var end := Execute(START, steps);
            && !HasData(end.runner.phase)
            && (end.runner.phase.RunnerDone? ==>
                  end.runner.sent == [Err(e)] || end.runner.sent == [Ok(Cancelled(SignalWhileBootstrapping))])
            && (end.owner.Closed? ==>
                  end.owner.result == if ByRunner(TakeSignalWaiting) in steps then Ok(()) else Err(e))
  {
    var end := Execute(START, steps);
    HistoryDecides(steps);
    TurnIsStep(steps, ByBootstrapper(FetchReturns(Err(e))));
    SignalIsATurn(steps);
    FailedFetchEndsRunner(end.runner, Turns(steps), e);
    OneResult(end);
  }

  lemma FailedFetchEndsRunner(r: Runner, turns: seq<RunnerStep>, e: DomainProtocol.Error)
    requires RunnerTells(r, Some(BootError(e)), turns)
    ensures !HasData(r.phase)
    ensures r.phase.RunnerDone? ==>
              r.sent == if TakeSignalWaiting in turns then [Ok(Cancelled(SignalWhileBootstrapping))] else [Err(e)]
  {
    if r.phase.RunnerDone? {
      assert turns == [Last(turns)];
    }
  }

  lemma {:induction false} SignalIsATurn(steps: seq<Step>)
    ensures ByRunner(TakeSignalWaiting) in steps <==> TakeSignalWaiting in Turns(steps)
  {
    if steps != [] {
      SignalIsATurn(DropLast(steps));
      assert steps == DropLast(steps) + [Last(steps)];
    }
  }

  /** Data reaches the runner only in runs in which the fetch has returned it. */
  lemma DataWasFetched(steps: seq<Step>)
    requires Executable(START, steps)
    ensures var end := Execute(START, steps);
            HasData(end.runner.phase) || (end.runner.phase.RunnerDone? && |Turns(steps)| > 1) ==>
              exists step :: step in steps && step.ByBootstrapper? && step.boot.FetchReturns? && step.boot.fetched.Ok?
  {
    HistoryDecides(steps);
    var end := Execute(START, steps);
    if end.boot.message == Some(Data) {
      TurnIsStep(steps, ByBootstrapper(BootTurns(steps)[1]));
    }
  }

  /** A domain that is neither closed nor dropped is never cancelled: no exit of it is a signal. */
  lemma OpenDomainIsNotCancelled(steps: seq<Step>)
    requires Executable(START, steps)
    ensures var end := Execute(START, steps);
            (end.owner.Building? || end.owner.Open?) && end.runner.sent != [] ==>
              end.runner.sent[0].Err? || end.runner.sent[0] == Ok(Value(()))
  {
    var end := Execute(START, steps);
    HistoryDecides(steps);
    RunKeepsInvariantFromStart(steps);
    if end.runner.sent != [] {
      assert Last(Turns(steps)) in Turns(steps);
    }
  }

  lemma RunKeepsInvariantFromStart(steps: seq<Step>)
    requires Executable(START, steps)
    ensures Invariant(Execute(START, steps))
  {
    ReachableInvariant(Execute(START, steps));
  }

  // ---------------------------------------------------------------------------------------
  // Every exit is taken by some run
  // ---------------------------------------------------------------------------------------

  /** Adds a step to a run. */
  lemma Then(steps: seq<Step>, step: Step) returns (longer: seq<Step>)
    requires Executable(START, steps) && Enabled(Execute(START, steps), step)
    ensures longer == steps + [step] && Executable(START, longer)
    ensures Execute(START, longer) == Apply(Execute(START, steps), step)
    ensures Turns(longer) == Turns(steps) + if step.ByRunner? then [step.run] else []
  {
    longer := steps + [step];
    RunExtends(START, steps, step);
    TurnsGrow(steps, step);
  }

  /** Both tasks are there and the bootstrapper fetches; nobody has been signalled. */
  lemma RunToFetching() returns (steps: seq<Step>)
    ensures Executable(START, steps) && Turns(steps) == []
    ensures Execute(START, steps) ==
            START.(owner := Open, registered := FULL_SET, progress := BuildingStarted,
                   boot := START.boot.(phase := Fetching), runner := START.runner.(phase := Waiting))
  {
    steps := [];
    assert Executable(START, steps) && Execute(START, steps) == START;
    steps := Then(steps, ByBuilder(SpawnBootstrapper));
    steps := Then(steps, ByBuilder(RegisterBootstrapper));
    steps := Then(steps, ByBuilder(SpawnRunner));
    steps := Then(steps, ByBuilder(RegisterRunner));
    steps := Then(steps, ByBootstrapper(BootStarts));
  }

  /** ... and the runner has gone through the first `k` turns of its schedule. */
  lemma {:induction false} RunToTurn(k: nat) returns (steps: seq<Step>)
    requires 1 <= k <= 8
    ensures Executable(START, steps) && |Turns(steps)| == k
    ensures var s := Execute(START, steps);
            && s.owner.Open? && s.registered == FULL_SET
            && TurnsBy(s.runner.phase) == k && !s.runner.phase.RunnerDone? && !s.runner.phase.RunnerUnspawned?
            && !s.runner.signalled
  {
    if k == 1 {
      steps := RunToFetching();
      steps := Then(steps, ByBootstrapper(FetchReturns(Ok(()))));
      steps := Then(steps, ByRunner(TakeBootMessage));
    } else {
      steps := RunToTurn(k - 1);
      var turn := match k
        case 2 => WriteBootstrapped
        case 3 => CreateSpec(Ok(()))
        case 4 => ConfigurationReturns
        case 5 => WritePreparing
        case 6 => PrepareReturns(Ok(()))
        case 7 => StoreRpc
        case _ => WriteStarting;
      steps := Then(steps, ByRunner(turn));
    }
  }

  /** The runner has been signalled by a close or a drop. */
  lemma ThenSignal(steps: seq<Step>) returns (longer: seq<Step>)
    requires Executable(START, steps) && Execute(START, steps).owner.Open?
    requires Execute(START, steps).registered == FULL_SET && !Execute(START, steps).runner.signalled
    ensures Executable(START, longer) && Turns(longer) == Turns(steps)
    ensures Execute(START, longer).runner == Execute(START, steps).runner.(signalled := true)
    ensures Execute(START, longer).boot == Execute(START, steps).boot
  {
    longer := Then(steps, ByOwner(BeginClose));
    longer := Then(longer, ByOwner(SendSignal));
  }

  /** The bootstrap message is there, whichever it is. */
  lemma RunToMessage(message: BootMessage) returns (steps: seq<Step>)
    ensures Executable(START, steps) && Turns(steps) == []
    ensures Execute(START, steps).boot.message == Some(message) && Execute(START, steps).runner.phase.Waiting?
  {
    steps := RunToFetching();
    match message {
      case Data => steps := Then(steps, ByBootstrapper(FetchReturns(Ok(()))));
      case BootError(e) => steps := Then(steps, ByBootstrapper(FetchReturns(Err(e))));
      case BootCancelled =>
        steps := Then(steps, ByOwner(BeginDrop));
        steps := Then(steps, ByOwner(DiscardFuture));
        steps := Then(steps, ByOwner(DiscardFuture));
        steps := Then(steps, ByBootstrapper(BootTakesSignal));
    }
  }

  /** Somewhere a runner ends after so many turns with this one, and reports this. */
  ghost predicate Happens(done: nat, turn: RunnerStep, report: Report) {
    exists steps :: Executable(START, steps) && |Turns(steps)| == done + 1 && Last(Turns(steps)) == turn
                    && Execute(START, steps).runner.sent == [report]
  }

  /** The table of exits is exact: each of them is taken by some run, and no run ends otherwise. */
  lemma ExitsHappen(done: nat, turn: RunnerStep, report: Report)
    ensures Happens(done, turn, report) <==> exists message :: Exits(done, turn, message, report)
  {
    if Happens(done, turn, report) {
      var steps :| Executable(START, steps) && |Turns(steps)| == done + 1 && Last(Turns(steps)) == turn
                   && Execute(START, steps).runner.sent == [report];
      HistoryDecides(steps);
      assert Exits(done, turn, Execute(START, steps).boot.message, report);
    }
    if message :| Exits(done, turn, message, report) {
      ExitHappens(done, turn, message, report);
    }
  }

  /** A run up to the exit. */
  lemma RunToExit(done: nat, turn: RunnerStep, message: Option<BootMessage>, report: Report)
    returns (steps: seq<Step>)
    requires Exits(done, turn, message, report)
    ensures Executable(START, steps) && |Turns(steps)| == done
    ensures var s := Execute(START, steps);
            RunnerEnabled(s.boot, s.runner, turn) && (turn.TakeBootMessage? ==> s.boot.message == message)
  {
    if turn.TakeBootMessage? {
      steps := RunToMessage(message.value);
    } else if done == 0 {
      steps := RunToFetching();
      steps := ThenSignal(steps);
    } else {
      steps := RunToTurn(done);
      if turn.TakeSignalRunning? {
        steps := ThenSignal(steps);
      }
    }
  }

  lemma ExitHappens(done: nat, turn: RunnerStep, message: Option<BootMessage>, report: Report)
    requires Exits(done, turn, message, report)
    ensures Happens(done, turn, report)
  {
    var steps := RunToExit(done, turn, message, report);
    var s := Execute(START, steps);
    HistoryDecides(steps);
    ExitReports(s.boot, s.runner, done, turn, message, report);
    steps := Then(steps, ByRunner(turn));
    assert Last(Turns(steps)) == turn;
  }

  lemma ExitReports(
      b: Boot, r: Runner, done: nat, turn: RunnerStep, message: Option<BootMessage>, report: Report)
    requires Exits(done, turn, message, report) && r.sent == []
    requires RunnerEnabled(b, r, turn) && (turn.TakeBootMessage? ==> b.message == message)
    ensures NextRunner(b, r, turn).sent == [report]
  {
  }

  /** An open domain can be closed or dropped at any time; a drop goes through at once. */
  lemma OpenDomainCanBeGivenUp(s: State)
    requires Reachable(s) && s.owner.Open?
    ensures Enabled(s, ByOwner(BeginClose))
    ensures exists end :: Reachable(end) && end.owner.Dropped? && end.boot.phase == s.boot.phase
                          && end.runner.phase == s.runner.phase && end.boot.signalled && end.runner.signalled
  {
    ReachableInvariant(s);
    var end := Reach(s, ByOwner(BeginDrop));
    end := Reach(end, ByOwner(DiscardFuture));
    end := Reach(end, ByOwner(DiscardFuture));
    end := Reach(end, ByOwner(EndDrop));
  }
}
