/**
 * `Node::close`: the domain, if there is one, is closed first; then the node's own destructor set,
 * which holds the task-manager task, is run; then the task's result is read. The domain takes part
 * with all of its own steps.
 */
module NodeShutdown {
  import opened Outcomes
  import D = DomainProtocol

  datatype Reason = DropSignalReceived

  datatype Error = DomainFailed(domain: D.Error) | ManagerFailed(detail: string) | NoManagerMessage

  type Report = Result<TaskOutput<(), Reason>, Error>

  /** The task that waits for a drop signal, the task manager and the network runner at once. */
  datatype Manager = Manager(running: bool, signalled: bool, sent: seq<Report>)

  datatype Phase =
    | NodeOpen
    | ClosingDomain    // inside `domain.close()`
    | StoppingManager  // inside `async_drop` of the node's destructors
    | ReadingResult
    | NodeClosed(result: Result<(), Error>)

  datatype State = State(domain: Option<D.State>, manager: Manager, phase: Phase)

  datatype Step =
    | OfDomain(step: D.Step)
    | ManagerTakesSignal | ManagerEnds(result: Result<(), string>) | NetworkEnds
    | BeginClose | DomainShutDown | SignalManager | JoinManager | ReadManagerResult

  /** A node that has just been built, with or without a domain. */
  ghost predicate Built(s: State) {
    && (s.domain.Some? ==> D.Reachable(s.domain.value) && s.domain.value.owner.Open?)
    && s.manager == Manager(true, false, [])
    && s.phase.NodeOpen?
  }

  predicate Enabled(s: State, step: Step) {
    match step
    case OfDomain(d) =>
      // Only the node begins to close its domain.
      && s.domain.Some? && D.Enabled(s.domain.value, d)
      && d != D.ByOwner(D.BeginClose) && d != D.ByOwner(D.BeginDrop)
    case ManagerTakesSignal => s.manager.running && s.manager.signalled
    case ManagerEnds(_) => s.manager.running
    case NetworkEnds => s.manager.running
    case BeginClose => s.phase.NodeOpen? && (s.domain.Some? ==> s.domain.value.owner.Open?)
    case DomainShutDown => s.phase.ClosingDomain? && s.domain.Some? && s.domain.value.owner.Closed?
    case SignalManager => s.phase.StoppingManager? && !s.manager.signalled
    case JoinManager => s.phase.StoppingManager? && s.manager.signalled && !s.manager.running
    case ReadManagerResult => s.phase.ReadingResult?
  }

  function Ends(m: Manager, report: Report): Manager {
    m.(running := false, sent := m.sent + [report])
  }

  function ManagerResult(sent: seq<Report>): Result<(), Error> {
    if sent == [] then Err(NoManagerMessage)
    else match sent[0] case Ok(_) => Ok(()) case Err(e) => Err(e)
  }

  function Apply(s: State, step: Step): State
    requires Enabled(s, step)
  {
    match step
    case OfDomain(d) => s.(domain := Some(D.Apply(s.domain.value, d)))
    case ManagerTakesSignal => s.(manager := Ends(s.manager, Ok(Cancelled(DropSignalReceived))))
    case ManagerEnds(r) =>
      s.(manager := Ends(s.manager, if r.Ok? then Ok(Value(())) else Err(ManagerFailed(r.error))))
    case NetworkEnds => s.(manager := Ends(s.manager, Ok(Value(()))))
    case BeginClose =>
      if s.domain.Some? then
        s.(domain := Some(D.Apply(s.domain.value, D.ByOwner(D.BeginClose))), phase := ClosingDomain)
      else s.(phase := StoppingManager)
    case DomainShutDown =>
      (match s.domain.value.owner.result
       case Ok(_) => s.(phase := StoppingManager)
       // `?` returns at once: the node's destructors are dropped, the manager's future unrun.
       case Err(e) => s.(manager := s.manager.(signalled := true), phase := NodeClosed(Err(DomainFailed(e)))))
    case SignalManager => s.(manager := s.manager.(signalled := true))
    case JoinManager => s.(phase := ReadingResult)
    case ReadManagerResult => s.(phase := NodeClosed(ManagerResult(s.manager.sent)))
  }

  ghost predicate DomainIsDown(s: State) {
    s.domain.Some? ==>
      && s.domain.value.owner.Closed?
      && s.domain.value.runner.phase.RunnerDone?
      && s.domain.value.boot.phase.BootDone?
  }

  /** The error with which the domain closed, if there is a domain and it closed with one. */
  function DomainError(s: State): Option<D.Error> {
    if s.domain.Some? && s.domain.value.owner.Closed? && s.domain.value.owner.result.Err?
    then Some(s.domain.value.owner.result.error)
    else None
  }

  ghost predicate Invariant(s: State) {
    && (s.domain.Some? ==> D.Invariant(s.domain.value))
    && (s.phase.NodeOpen? && s.domain.Some? ==> s.domain.value.owner.Open?)
    && (s.phase.ClosingDomain? ==>
          s.domain.Some? && (s.domain.value.owner.Closing? || s.domain.value.owner.Closed?))
    && (!s.phase.NodeOpen? && !s.phase.ClosingDomain? ==> DomainIsDown(s))
    && |s.manager.sent| == (if s.manager.running then 0 else 1)
    && (s.phase.NodeOpen? || s.phase.ClosingDomain? ==> !s.manager.signalled)
    && (s.phase.ReadingResult? ==> !s.manager.running)
    && (s.phase.ReadingResult? || s.phase.NodeClosed? ==> s.manager.signalled)
    && (Ok(Cancelled(DropSignalReceived)) in s.manager.sent ==> s.manager.signalled)
    && (s.phase.StoppingManager? || s.phase.ReadingResult? ==> DomainError(s) == None)
    && (s.phase.NodeClosed? ==>
          match DomainError(s)
          case Some(e) => s.phase.result == Err(DomainFailed(e))
          case None => !s.manager.running && s.phase.result == ManagerResult(s.manager.sent))
  }

  lemma StepKeepsInvariant(s: State, step: Step)
    requires Invariant(s) && Enabled(s, step)
    ensures Invariant(Apply(s, step))
  {
    match step
    case OfDomain(d) =>
      D.StepKeepsInvariant(s.domain.value, d);
    case BeginClose =>
      if s.domain.Some? {
        D.StepKeepsInvariant(s.domain.value, D.ByOwner(D.BeginClose));
      }
    case _ =>
  }

  predicate Executable(s: State, steps: seq<Step>)
    decreases |steps|
  {
    steps == [] || (Enabled(s, steps[0]) && Executable(Apply(s, steps[0]), steps[1..]))
  }

  function Execute(s: State, steps: seq<Step>): State
    requires Executable(s, steps)
    decreases |steps|
  {
    if steps == [] then s else Execute(Apply(s, steps[0]), steps[1..])
  }

  lemma {:induction false} RunKeepsInvariant(s: State, steps: seq<Step>)
    requires Invariant(s) && Executable(s, steps)
    ensures Invariant(Execute(s, steps))
    decreases |steps|
  {
    if steps != [] {
      StepKeepsInvariant(s, steps[0]);
      RunKeepsInvariant(Apply(s, steps[0]), steps[1..]);
    }
  }

  lemma BuiltInvariant(s: State)
    requires Built(s)
    ensures Invariant(s)
  {
    if s.domain.Some? {
      D.ReachableInvariant(s.domain.value);
    }
  }

  /**
   * In every interleaving the task manager is stopped only when the domain is down with both of
   * its tasks, and its result is there when it is read. The node's result is the domain's error,
   * in which case the task manager is left unjoined, or else what the task manager sent.
   */
  lemma NodeCloses(s: State, steps: seq<Step>)
    requires Built(s) && Executable(s, steps)
    ensures var end := Execute(s, steps);
            && (end.manager.signalled ==> DomainIsDown(end))
            && (end.phase.ReadingResult? ==> |end.manager.sent| == 1)
            && (end.phase.NodeClosed? ==> end.manager.signalled)
            && (Ok(Cancelled(DropSignalReceived)) in end.manager.sent ==> end.manager.signalled)
            && (end.phase.NodeClosed? ==>
                  match DomainError(end)
                  case Some(e) => end.phase.result == Err(DomainFailed(e))
                  case None =>
                    && |end.manager.sent| == 1
                    && end.phase.result ==
                       match end.manager.sent[0] case Ok(_) => Ok(()) case Err(e) => Err(e))
  {
    BuiltInvariant(s);
    RunKeepsInvariant(s, steps);
  }

  /** A step with which the task manager's task ends. */
  predicate EndsManager(step: Step) {
    step.ManagerTakesSignal? || step.ManagerEnds? || step.NetworkEnds?
  }

  lemma {:induction false} EndedManagerRests(s: State, steps: seq<Step>)
    requires !s.manager.running && Executable(s, steps)
    ensures forall step :: step in steps ==> !EndsManager(step)
    ensures Execute(s, steps).manager.sent == s.manager.sent && !Execute(s, steps).manager.running
    decreases |steps|
  {
    if steps != [] {
      EndedManagerRests(Apply(s, steps[0]), steps[1..]);
    }
  }

  lemma ManagerReports(s: State, step: Step)
    requires s.manager.running && s.manager.sent == [] && Enabled(s, step)
    ensures var m := Apply(s, step).manager;
            && (m.running <==> !EndsManager(step))
            && (m.running ==> m.sent == [])
            && (!m.running ==>
                  m.sent == match step
                            case ManagerTakesSignal => [Ok(Cancelled(DropSignalReceived))]
                            case ManagerEnds(Err(detail)) => [Err(ManagerFailed(detail))]
                            case _ => [Ok(Value(()))])
  {
  }

  /** The message in terms of the steps: one of its own for each of the ways to end. */
  ghost predicate MessageTells(m: Manager, steps: seq<Step>) {
    && |m.sent| == (if m.running then 0 else 1)
    && (m.running <==> forall step :: step in steps ==> !EndsManager(step))
    && (forall detail :: m.sent == [Err(ManagerFailed(detail))] <==> ManagerEnds(Err(detail)) in steps)
    && (m.sent == [Ok(Cancelled(DropSignalReceived))] <==> ManagerTakesSignal in steps)
    && (m.sent == [Ok(Value(()))] <==>
        exists step :: step in steps && (step.NetworkEnds? || (step.ManagerEnds? && step.result.Ok?)))
    && (m.sent != [] && m.sent[0].Err? ==> m.sent[0].error.ManagerFailed?)
  }

  lemma MessageOfTheEnd(s: State, steps: seq<Step>)
    requires steps != [] && s.manager.running && s.manager.sent == [] && Enabled(s, steps[0])
    requires EndsManager(steps[0]) && forall step :: step in steps[1..] ==> !EndsManager(step)
    ensures MessageTells(Apply(s, steps[0]).manager, steps)
  {
    ManagerReports(s, steps[0]);
    assert forall step :: step in steps <==> step == steps[0] || step in steps[1..];
    assert steps[0] in steps;
  }

  lemma MessageOfTheRest(m: Manager, steps: seq<Step>)
    requires steps != [] && !EndsManager(steps[0]) && MessageTells(m, steps[1..])
    ensures MessageTells(m, steps)
  {
    assert forall step :: step in steps <==> step == steps[0] || step in steps[1..];
  }

  /**
   * In every run the task manager's task sends one message, when it ends: its failure as an error,
   * the drop signal as a cancellation, any other end as a success.
   */
  lemma {:induction false} ManagerMessageTells(s: State, steps: seq<Step>)
    requires s.manager.running && s.manager.sent == [] && Executable(s, steps)
    ensures MessageTells(Execute(s, steps).manager, steps)
    decreases |steps|
  {
    if steps != [] {
      var s' := Apply(s, steps[0]);
      ManagerReports(s, steps[0]);
      if s'.manager.running {
        ManagerMessageTells(s', steps[1..]);
        MessageOfTheRest(Execute(s, steps).manager, steps);
      } else {
        EndedManagerRests(s', steps[1..]);
        MessageOfTheEnd(s, steps);
      }
    }
  }

  /** What a node's step is to its domain. */
  function DomainSteps(s: State, steps: seq<Step>): seq<D.Step>
    requires Executable(s, steps)
    decreases |steps|
  {
    if steps == [] then []
    else
      (match steps[0]
       case OfDomain(d) => [d]
       case BeginClose => if s.domain.Some? then [D.ByOwner(D.BeginClose)] else []
       case _ => [])
      + DomainSteps(Apply(s, steps[0]), steps[1..])
  }

  /** The domain's part of a run of the node is a run of the domain. */
  lemma {:induction false} DomainTakesItsSteps(s: State, steps: seq<Step>)
    requires s.domain.Some? && Executable(s, steps)
    ensures Execute(s, steps).domain.Some?
    ensures D.Executable(s.domain.value, DomainSteps(s, steps))
    ensures D.Execute(s.domain.value, DomainSteps(s, steps)) == Execute(s, steps).domain.value
    decreases |steps|
  {
    if steps != [] {
      var s', rest := Apply(s, steps[0]), DomainSteps(Apply(s, steps[0]), steps[1..]);
      DomainTakesItsSteps(s', steps[1..]);
      match steps[0] {
        case OfDomain(d) => D.RunBegins(s.domain.value, d, rest);
        case BeginClose => D.RunBegins(s.domain.value, D.ByOwner(D.BeginClose), rest);
        case _ => assert DomainSteps(s, steps) == rest;
      }
    }
  }

  /**
   * What `Node::close` answers, in terms of what happened: the domain's error if it closed with
   * one; otherwise the failure with which the task manager ended; and success if there was neither,
   * as in every ordinary shutdown.
   */
  lemma NodeResultIff(s: State, steps: seq<Step>)
    requires Built(s) && Executable(s, steps) && Execute(s, steps).phase.NodeClosed?
    ensures var end := Execute(s, steps);
            var domainFails := end.domain.Some? && end.domain.value.owner.Closed?
                               && end.domain.value.owner.result.Err?;
            && (forall e :: end.phase.result == Err(DomainFailed(e)) <==>
                            domainFails && end.domain.value.owner.result == Err(e))
            && (forall detail :: end.phase.result == Err(ManagerFailed(detail)) <==>
                                 !domainFails && ManagerEnds(Err(detail)) in steps)
            && (end.phase.result == Ok(()) <==>
                !domainFails && forall detail :: ManagerEnds(Err(detail)) !in steps)
  {
    NodeCloses(s, steps);
    ManagerMessageTells(s, steps);
  }

  lemma {:induction false} RunExtends(s: State, steps: seq<Step>, step: Step)
    requires Executable(s, steps) && Enabled(Execute(s, steps), step)
    ensures Executable(s, steps + [step])
    ensures Execute(s, steps + [step]) == Apply(Execute(s, steps), step)
    decreases |steps|
  {
    if steps == [] {
      assert steps + [step] == [step];
    } else {
      assert (steps + [step])[1..] == steps[1..] + [step];
      RunExtends(Apply(s, steps[0]), steps[1..], step);
    }
  }

  /** From any state of a built node a few guaranteed steps more lead to a closed one. */
  lemma {:induction false} NodeCanClose(s: State, steps: seq<Step>) returns (more: seq<Step>)
    requires Built(s) && Executable(s, steps)
    ensures Executable(s, steps + more) && Execute(s, steps + more).phase.NodeClosed?
    ensures forall step :: step in more ==> Guaranteed(step)
    decreases Measure(s) - |steps|
  {
    more := [];
    assert steps + more == steps;
    BuiltInvariant(s);
    RunKeepsInvariant(s, steps);
    var end := Execute(s, steps);
    if !end.phase.NodeClosed? {
      CloseIsNeverStuck(end);
      RunExtends(s, steps, NextMove(end));
      RunsAreShort(s, steps + [NextMove(end)]);
      var rest := NodeCanClose(s, steps + [NextMove(end)]);
      more := [NextMove(end)] + rest;
      assert steps + more == steps + [NextMove(end)] + rest;
    }
  }

  /** In whichever way the task ends by itself, the node can close with the result of that. */
  lemma EveryManagerResultHappens(s: State, end: Step) returns (steps: seq<Step>)
    requires Built(s) && s.domain.None? && EndsManager(end) && !end.ManagerTakesSignal?
    ensures end in steps && Executable(s, steps) && Execute(s, steps).phase.NodeClosed?
    ensures Execute(s, steps).phase.result ==
            if end.ManagerEnds? && end.result.Err? then Err(ManagerFailed(end.result.error)) else Ok(())
  {
    var first := [end];
    assert first[1..] == [];
    assert Executable(s, first);
    var more := NodeCanClose(s, first);
    steps := first + more;
    assert forall detail :: ManagerEnds(Err(detail)) in steps <==> ManagerEnds(Err(detail)) == end;
    DomainStaysAbsent(s, steps);
    NodeResultIff(s, steps);
  }

  lemma {:induction false} DomainStaysAbsent(s: State, steps: seq<Step>)
    requires s.domain.None? && Executable(s, steps)
    ensures Execute(s, steps).domain.None?
    decreases |steps|
  {
    if steps != [] {
      DomainStaysAbsent(Apply(s, steps[0]), steps[1..]);
    }
  }

  // ---------------------------------------------------------------------------------------
  // Termination
  // ---------------------------------------------------------------------------------------

  function PhaseMeasure(p: Phase): nat {
    match p
    case NodeOpen => 4
    case ClosingDomain => 3
    case StoppingManager => 2
    case ReadingResult => 1
    case NodeClosed(_) => 0
  }

  function Measure(s: State): int {
    (if s.domain.Some? then D.Measure(s.domain.value) else 0)
    + PhaseMeasure(s.phase)
    + (if s.manager.running then 1 else 0) + (if s.manager.signalled then 0 else 1)
  }

  lemma StepDecreasesMeasure(s: State, step: Step)
    requires Invariant(s) && Enabled(s, step)
    ensures Measure(Apply(s, step)) < Measure(s)
  {
    match step
    case OfDomain(d) =>
      D.StepDecreasesMeasure(s.domain.value, d);
    case BeginClose =>
      if s.domain.Some? {
        D.StepDecreasesMeasure(s.domain.value, D.ByOwner(D.BeginClose));
      }
    case _ =>
  }

  lemma {:induction false} RunsAreShort(s: State, steps: seq<Step>)
    requires Invariant(s) && Executable(s, steps)
    ensures |steps| <= Measure(s)
    decreases |steps|
  {
    if s.domain.Some? {
      D.RunsAreShort(s.domain.value, []);
    }
    if steps != [] {
      StepDecreasesMeasure(s, steps[0]);
      StepKeepsInvariant(s, steps[0]);
      RunsAreShort(Apply(s, steps[0]), steps[1..]);
    }
  }

  /** Steps that happen without help from the network, the domain or the task manager. */
  predicate Guaranteed(step: Step) {
    match step
    case OfDomain(d) => D.Guaranteed(d)
    case ManagerEnds(_) => false
    case NetworkEnds => false
    case _ => true
  }

  function NextMove(s: State): Step {
    match s.phase
    case NodeOpen => BeginClose
    case ClosingDomain =>
      if s.domain.Some? && s.domain.value.owner.Closing? then OfDomain(D.NextMove(s.domain.value)) else DomainShutDown
    case StoppingManager =>
      if !s.manager.signalled then SignalManager else if s.manager.running then ManagerTakesSignal else JoinManager
    case ReadingResult => ReadManagerResult
    case NodeClosed(_) => ReadManagerResult
  }

  lemma CloseIsNeverStuck(s: State)
    requires Invariant(s) && !s.phase.NodeClosed?
    ensures Enabled(s, NextMove(s)) && Guaranteed(NextMove(s))
  {
    if s.phase.ClosingDomain? && s.domain.value.owner.Closing? {
      D.CloseIsNeverStuck(s.domain.value);
    }
  }

  /** `Node::close` terminates: runs are bounded, and one that cannot go on has closed the node. */
  lemma NodeCloseTerminates(s: State, steps: seq<Step>)
    requires Built(s) && Executable(s, steps)
    ensures |steps| <= Measure(s)
    ensures (forall step :: Guaranteed(step) ==> !Enabled(Execute(s, steps), step)) ==>
              Execute(s, steps).phase.NodeClosed?
  {
    BuiltInvariant(s);
    RunsAreShort(s, steps);
    RunKeepsInvariant(s, steps);
    if !Execute(s, steps).phase.NodeClosed? {
      CloseIsNeverStuck(Execute(s, steps));
    }
  }
}
