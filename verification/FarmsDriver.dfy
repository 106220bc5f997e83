/**
 * The farm driver: a loop that reports what `select` answers into a bounded channel that nobody
 * reads before `Farmer::close`, and the drain in `close`. Rounds are numbered; `select(i)` is the
 * answer of round `i`, and `open(i)` says whether the receiving side still exists then.
 */
module FarmsDriver {
  import opened Outcomes

  /** Room in the result channel. */
  const CHANNEL_CAPACITY: nat := 256

  /** The one reason for which the driver reports a cancellation. */
  datatype Reason = DropSignalReceived

  type Message<+Id, +E> = Result<TaskOutput<Option<Id>, Reason>, E>

  /** One answer of `select`: what the stream of farms yields next, or the drop signal. */
  datatype Selected<+Id, +E> = NextFarm(outcome: Option<Result<Id, E>>) | DropSignal

  function Report<Id, E>(outcome: Option<Result<Id, E>>): Message<Id, E> {
    match outcome
    case None => Ok(Value(None))
    case Some(Ok(id)) => Ok(Value(Some(id)))
    case Some(Err(e)) => Err(e)
  }

  function Cancellation<Id, E>(): Message<Id, E> {
    Ok(Cancelled(DropSignalReceived))
  }

  /** The reports of the first `k` rounds. */
  function Reports<Id, E>(select: nat -> Selected<Id, E>, k: nat): (r: seq<Message<Id, E>>)
    ensures |r| == k
  {
    seq(k, i requires 0 <= i < k => if select(i).NextFarm? then Report(select(i).outcome) else Cancellation())
  }

  /** The driver leaves its loop in round `k`, and `queue` is what it has sent by then. */
  ghost predicate StopsAt<Id, E>(
      select: nat -> Selected<Id, E>, open: nat -> bool, queue: seq<Message<Id, E>>, k: nat)
  {
    && k <= CHANNEL_CAPACITY
    && (forall i: nat :: i < k ==> select(i).NextFarm? && open(i))
    && (match select(k)
        case NextFarm(_) => (!open(k) || k == CHANNEL_CAPACITY) && queue == Reports(select, k)
        case DropSignal =>
          queue == Reports(select, k) + if open(k) && k < CHANNEL_CAPACITY then [Cancellation()] else [])
  }

  /**
   * The loop ends whatever `select` answers, drop signal or not: every round that does not end it
   * takes one place in the channel.
   */
  method RunFarmsDriver<Id, E>(select: nat -> Selected<Id, E>, open: nat -> bool)
    returns (queue: seq<Message<Id, E>>)
    ensures exists k: nat :: StopsAt(select, open, queue, k)
  {
    queue := [];
    while true
      invariant |queue| <= CHANNEL_CAPACITY
      invariant forall i: nat :: i < |queue| ==> select(i).NextFarm? && open(i)
      invariant queue == Reports(select, |queue|)
      decreases CHANNEL_CAPACITY - |queue|
    {
      ghost var k := |queue|;
      match select(|queue|)
      case NextFarm(outcome) =>
        // `try_send` fails on a closed channel and on a full one alike.
        if !open(|queue|) || |queue| == CHANNEL_CAPACITY {
          assert StopsAt(select, open, queue, k);
          return;
        }
        queue := queue + [Report(outcome)];
      case DropSignal =>
        if open(|queue|) && |queue| < CHANNEL_CAPACITY {
          queue := queue + [Cancellation()];
        }
        assert StopsAt(select, open, queue, k);
        return;
    }
  }

  /**
   * How `select` behaves over `n` farms: each farm ends once; while one is unfinished the stream
   * yields an outcome or the drop signal is taken; an exhausted stream yields `None` at once.
   */
  ghost predicate Drives<Id, E>(select: nat -> Selected<Id, E>, n: nat) {
    forall i: nat ::
      if i < n then select(i).DropSignal? || select(i).outcome.Some?
      else select(i) == NextFarm(None)
  }

  /** The number of farms whose outcome was taken before the driver left its loop. */
  ghost function Finished(n: nat, k: nat): nat {
    if k < n then k else n
  }

  /**
   * With at most 256 farms and an open channel, every outcome that was taken is queued, in the
   * order of completion, the id or the error with it, and ahead of any marker: of the cancellation,
   * which then always finds room, or of the end-of-stream markers that fill the channel.
   */
  lemma NoOutcomeIsLost<Id, E>(
      select: nat -> Selected<Id, E>, open: nat -> bool, n: nat, queue: seq<Message<Id, E>>, k: nat)
    requires n <= CHANNEL_CAPACITY
    requires Drives(select, n)
    requires forall i: nat :: open(i)
    requires StopsAt(select, open, queue, k)
    ensures Finished(n, k) <= |queue|
    ensures queue[..Finished(n, k)] == Reports(select, Finished(n, k))
    ensures forall i :: 0 <= i < Finished(n, k) ==>
              && select(i).NextFarm? && select(i).outcome.Some?
              && (forall id :: queue[i] == Ok(Value(Some(id))) <==> select(i).outcome.value == Ok(id))
              && (forall e :: queue[i] == Err(e) <==> select(i).outcome.value == Err(e))
    ensures queue[Finished(n, k)..] ==
            if select(k).DropSignal? then [Ok(Cancelled(DropSignalReceived))]
            else seq(256 - n, _ => Ok(Value(None)))
    ensures select(k).DropSignal? <==> k < n
  {
    assert forall i :: 0 <= i < Finished(n, k) ==> queue[i] == Reports(select, Finished(n, k))[i];
    if select(k).DropSignal? {
      assert k < n;
      assert queue[k..] == [Cancellation<Id, E>()];
    } else {
      assert forall i: nat :: n <= i < k ==> Reports(select, k)[i] == Report<Id, E>(None);
      assert queue[n..] == seq(CHANNEL_CAPACITY - n, _ => Report<Id, E>(None));
    }
  }

  /** A closed receiver ends the driver with its next message at the latest, and gets nothing more. */
  lemma ClosedReceiverEndsDriver<Id, E>(
      select: nat -> Selected<Id, E>, open: nat -> bool, queue: seq<Message<Id, E>>, k: nat, closed: nat)
    requires StopsAt(select, open, queue, k) && !open(closed)
    ensures k <= closed && |queue| <= closed
  {
  }

  /** The bound on the number of farms is the right one: with a farm more, an outcome is lost. */
  lemma AllQueuedIffAtMost256<Id, E>(
      select: nat -> Selected<Id, E>, open: nat -> bool, n: nat, queue: seq<Message<Id, E>>, k: nat)
    requires Drives(select, n)
    requires forall i: nat :: open(i) && select(i).NextFarm?
    requires StopsAt(select, open, queue, k)
    ensures Reports(select, n) <= queue <==> n <= 256
  {
    if n <= CHANNEL_CAPACITY {
      NoOutcomeIsLost(select, open, n, queue, k);
    }
  }

  // ---------------------------------------------------------------------------------------
  // Farmer::close
  // ---------------------------------------------------------------------------------------

  function FirstError<Id, E>(queue: seq<Message<Id, E>>): Result<(), E> {
    if queue == [] then Ok(())
    else if queue[0].Err? then Err(queue[0].error)
    else FirstError(queue[1..])
  }

  /** The drain of the closed receiver: it stops at the first error. */
  method DrainResults<Id, E>(queue: seq<Message<Id, E>>) returns (r: Result<(), E>)
    ensures r == FirstError(queue)
    ensures r.Ok? <==> forall i :: 0 <= i < |queue| ==> queue[i].Ok?
  {
    var receiver := queue;
    while receiver != []
      invariant FirstError(receiver) == FirstError(queue)
      invariant |receiver| <= |queue| && receiver == queue[|queue| - |receiver|..]
      invariant forall i :: 0 <= i < |queue| - |receiver| ==> queue[i].Ok?
      decreases |receiver|
    {
      var taskResult := receiver[0];
      receiver := receiver[1..];
      if taskResult.Err? {
        return Err(taskResult.error);
      }
    }
    r := Ok(());
  }

  /** Messages that carry no error do not change what the drain answers. */
  lemma {:induction false} FirstErrorIgnoresMarkers<Id, E>(
      outcomes: seq<Message<Id, E>>, markers: seq<Message<Id, E>>)
    requires forall m :: m in markers ==> m.Ok?
    ensures FirstError(outcomes + markers) == FirstError(outcomes)
  {
    if outcomes != [] {
      assert (outcomes + markers)[1..] == outcomes[1..] + markers;
      FirstErrorIgnoresMarkers(outcomes[1..], markers);
    } else if markers != [] {
      assert outcomes + markers == markers && markers[0] in markers;
      assert forall m :: m in markers[1..] ==> m in markers;
      FirstErrorIgnoresMarkers(outcomes, markers[1..]);
      assert outcomes + markers[1..] == markers[1..];
    } else {
      assert outcomes + markers == [];
    }
  }

  lemma {:induction false} FirstErrorIsEarliest<Id, E>(queue: seq<Message<Id, E>>)
    ensures match FirstError(queue)
            case Ok(_) => forall i :: 0 <= i < |queue| ==> queue[i].Ok?
            case Err(e) => exists i :: 0 <= i < |queue| && queue[i] == Err(e) && forall j :: 0 <= j < i ==> queue[j].Ok?
  {
    if queue != [] && queue[0].Ok? {
      FirstErrorIsEarliest(queue[1..]);
      if FirstError(queue).Err? {
        var e := FirstError(queue).error;
        var i :| 0 <= i < |queue| - 1 && queue[1..][i] == Err(e) && forall j :: 0 <= j < i ==> queue[1..][j].Ok?;
        forall j | 0 <= j < i + 1 ensures queue[j].Ok? {
          if j > 0 {
            assert queue[j] == queue[1..][j - 1];
          }
        }
        assert queue[i + 1] == Err(e);
      } else {
        forall i | 0 <= i < |queue| ensures queue[i].Ok? {
          if i > 0 {
            assert queue[i] == queue[1..][i - 1];
          }
        }
      }
    }
  }

  predicate FarmSucceeds<Id, E>(selected: Selected<Id, E>) {
    selected.NextFarm? && selected.outcome.Some? && selected.outcome.value.Ok?
  }

  /**
   * `close` answers with the error of the farm that failed first, or with success when no farm
   * that ended has failed.
   */
  lemma CloseReportsEarliestFailure<Id, E>(
      select: nat -> Selected<Id, E>, open: nat -> bool, n: nat, queue: seq<Message<Id, E>>, k: nat)
    requires n <= CHANNEL_CAPACITY
    requires Drives(select, n)
    requires forall i: nat :: open(i)
    requires StopsAt(select, open, queue, k)
    ensures match FirstError(queue)
            case Ok(_) =>
              forall i: nat :: i < Finished(n, k) ==> FarmSucceeds(select(i))
            case Err(e) =>
              exists i: nat :: i < Finished(n, k) && select(i) == NextFarm(Some(Err(e)))
                               && forall j: nat :: j < i ==> FarmSucceeds(select(j))
  {
    NoOutcomeIsLost(select, open, n, queue, k);
    var m := Finished(n, k);
    var outcomes := Reports(select, m);
    assert queue == outcomes + queue[m..];
    FirstErrorIgnoresMarkers(outcomes, queue[m..]);
    FirstErrorIsEarliest(outcomes);
    assert forall i: nat :: i < m ==>
             select(i).NextFarm? && select(i).outcome.Some? && outcomes[i] == Report(select(i).outcome);
    if FirstError(queue).Ok? {
      forall i: nat | i < m ensures select(i).outcome.value.Ok? {
        assert outcomes[i].Ok?;
      }
    } else {
      var e := FirstError(queue).error;
      var i :| 0 <= i < m && outcomes[i] == Err(e) && forall j :: 0 <= j < i ==> outcomes[j].Ok?;
      assert select(i) == NextFarm(Some(Err(e)));
      forall j: nat | j < i ensures select(j).outcome.value.Ok? {
        assert outcomes[j].Ok?;
      }
    }
  }
}
