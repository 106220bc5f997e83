/**
 * The initial-plotting counter of a farm. Any number of progress streams share it: each item that
 * the watch channel yields to a stream fetches the counter and increments it, under one lock, and
 * the stream is cut at the first value that is not below the total.
 */
module PlottingProgress {
  import opened Outcomes

  /** One subscriber: what its stream has emitted, and whether the stream has ended. */
  datatype Stream = Stream(emitted: seq<nat>, ended: bool, cut: bool)

  datatype State = State(start: nat, current: nat, total: nat, streams: seq<Stream>)

  function Fresh(start: nat, total: nat): State {
    State(start, start, total, [])
  }

  /** A subscription; when the counter equals the total its stream has ended already. */
  function Subscribed(s: State): State {
    s.(streams := s.streams + [Stream([], s.current == s.total, false)])
  }

  /** The watch channel yields an item to stream `i`; an ended stream takes none. */
  function Delivered(s: State, i: nat): State
    requires i < |s.streams|
  {
    var st := s.streams[i];
    if st.ended then s
    else if s.current < s.total then
      s.(current := s.current + 1, streams := s.streams[i := st.(emitted := st.emitted + [s.current])])
    else
      s.(current := s.current + 1, streams := s.streams[i := st.(ended := true, cut := true)])
  }

  /** A farm with its counter and its subscribers. */
  class Farm {
    const start: nat
    var current: nat
    const total: nat
    var streams: seq<Stream>

    function View(): State
      reads this
    {
      State(start, current, total, streams)
    }

    constructor (start: nat, total: nat)
      ensures View() == Fresh(start, total)
    {
      this.start, this.current, this.total := start, start, total;
      streams := [];
    }

    /** `subscribe_initial_plotting_progress`. */
    method Subscribe() returns (id: nat)
      modifies this
      ensures id == |old(streams)| && View() == Subscribed(old(View()))
    {
      id := |streams|;
      if current == total {
        streams := streams + [Stream([], true, false)];
        return;
      }
      streams := streams + [Stream([], false, false)];
    }

    /** One item of the watch channel reaches stream `i`: the closure of `filter_map`, then the cut. */
    method Deliver(i: nat) returns (item: Option<nat>)
      requires i < |streams|
      modifies this
      ensures View() == Delivered(old(View()), i)
      ensures streams[i].emitted == old(streams[i].emitted) + match item case Some(v) => [v] case None => []
    {
      if streams[i].ended {
        return None;
      }
      var plottingProgress := current;
      current := current + 1;
      if plottingProgress < total {
        streams := streams[i := streams[i].(emitted := streams[i].emitted + [plottingProgress])];
        item := Some(plottingProgress);
      } else {
        streams := streams[i := streams[i].(ended := true, cut := true)];
        item := None;
      }
    }
  }

  // ---------------------------------------------------------------------------------------
  // Interleavings
  // ---------------------------------------------------------------------------------------

  datatype Step = Subscribe | Deliver(stream: nat)

  /** Any sequence of subscriptions and deliveries; a delivery to nobody does nothing. */
  function After(s: State, steps: seq<Step>): State {
    if steps == [] then s
    else
      var before := After(s, steps[..|steps| - 1]);
      match steps[|steps| - 1]
      case Subscribe => Subscribed(before)
      case Deliver(i) => if i < |before.streams| then Delivered(before, i) else before
  }

  /** How often `v` was emitted, counting all streams. */
  function Times(streams: seq<Stream>, v: nat): nat {
    if streams == [] then 0
    else Times(streams[..|streams| - 1], v) + multiset(streams[|streams| - 1].emitted)[v]
  }

  /** The number of all emissions. */
  function Emissions(streams: seq<Stream>): nat {
    if streams == [] then 0
    else Emissions(streams[..|streams| - 1]) + |streams[|streams| - 1].emitted|
  }

  function Min(a: nat, b: nat): nat {
    if a <= b then a else b
  }

  function Max(a: nat, b: nat): nat {
    if a <= b then b else a
  }

  /** The number of streams that were cut by a value past the end. */
  function Cuts(streams: seq<Stream>): nat {
    if streams == [] then 0
    else Cuts(streams[..|streams| - 1]) + if streams[|streams| - 1].cut then 1 else 0
  }

  ghost predicate Increasing(xs: seq<nat>) {
    forall i, j :: 0 <= i < j < |xs| ==> xs[i] < xs[j]
  }

  /** The values below the total that the counter has passed. */
  ghost predicate Given(s: State, v: nat) {
    s.start <= v < Min(s.current, s.total)
  }

  ghost predicate TimesInvariant(s: State) {
    forall v: nat :: Times(s.streams, v) == if Given(s, v) then 1 else 0
  }

  ghost predicate TotalsInvariant(s: State) {
    && s.start <= s.current
    && Emissions(s.streams) == Max(s.start, Min(s.current, s.total)) - s.start
    && s.current == Max(s.start, Min(s.current, s.total)) + Cuts(s.streams)
  }

  ghost predicate StreamInvariant(st: Stream, current: nat) {
    && Increasing(st.emitted)
    && (forall v :: v in st.emitted ==> v < current)
    && (st.cut ==> st.ended)
  }

  ghost predicate Invariant(s: State) {
    && TimesInvariant(s)
    && TotalsInvariant(s)
    && forall st :: st in s.streams ==> StreamInvariant(st, s.current)
  }

  /** Replacing one stream changes the counts by the difference of the two. */
  lemma {:induction false} UpdateCounts(streams: seq<Stream>, i: nat, st: Stream)
    requires i < |streams|
    ensures Emissions(streams[i := st]) + |streams[i].emitted| == Emissions(streams) + |st.emitted|
    ensures Cuts(streams[i := st]) + (if streams[i].cut then 1 else 0) == Cuts(streams) + if st.cut then 1 else 0
  {
    var last := |streams| - 1;
    if i == last {
      assert streams[i := st][..last] == streams[..last];
    } else {
      assert streams[i := st][..last] == streams[..last][i := st];
      UpdateCounts(streams[..last], i, st);
    }
  }

  lemma {:induction false} UpdateTimes(streams: seq<Stream>, i: nat, st: Stream, v: nat)
    requires i < |streams|
    ensures Times(streams[i := st], v) + multiset(streams[i].emitted)[v] == Times(streams, v) + multiset(st.emitted)[v]
  {
    var last := |streams| - 1;
    if i == last {
      assert streams[i := st][..last] == streams[..last];
    } else {
      assert streams[i := st][..last] == streams[..last][i := st];
      UpdateTimes(streams[..last], i, st, v);
    }
  }

  lemma AppendCounts(streams: seq<Stream>, st: Stream)
    requires st.emitted == [] && !st.cut
    ensures Emissions(streams + [st]) == Emissions(streams) && Cuts(streams + [st]) == Cuts(streams)
  {
    assert (streams + [st])[..|streams|] == streams;
  }

  lemma AppendTimes(streams: seq<Stream>, st: Stream, v: nat)
    requires st.emitted == []
    ensures Times(streams + [st], v) == Times(streams, v)
  {
    assert (streams + [st])[..|streams|] == streams;
  }

  lemma SubscribedKeepsInvariant(s: State)
    requires Invariant(s)
    ensures Invariant(Subscribed(s))
  {
    var s' := Subscribed(s);
    var st := Stream([], s.current == s.total, false);
    AppendCounts(s.streams, st);
    forall v: nat ensures Times(s'.streams, v) == if Given(s', v) then 1 else 0 {
      AppendTimes(s.streams, st, v);
    }
    assert StreamInvariant(st, s.current);
  }

  lemma DeliveredKeepsTimes(s: State, i: nat)
    requires Invariant(s) && i < |s.streams|
    ensures TimesInvariant(Delivered(s, i))
  {
    var s' := Delivered(s, i);
    forall v: nat ensures Times(s'.streams, v) == if Given(s', v) then 1 else 0 {
      if !s.streams[i].ended {
        UpdateTimes(s.streams, i, s'.streams[i], v);
        assert Given(s', v) <==> Given(s, v) || (v == s.current && v < s.total);
      }
    }
  }

  lemma DeliveredKeepsTotals(s: State, i: nat)
    requires Invariant(s) && i < |s.streams|
    ensures TotalsInvariant(Delivered(s, i))
  {
    assert StreamInvariant(s.streams[i], s.current);
    if !s.streams[i].ended {
      UpdateCounts(s.streams, i, Delivered(s, i).streams[i]);
    }
  }

  lemma AppendingKeepsIncreasing(xs: seq<nat>, v: nat)
    requires Increasing(xs) && forall x :: x in xs ==> x < v
    ensures Increasing(xs + [v])
  {
    forall i, j | 0 <= i < j < |xs + [v]| ensures (xs + [v])[i] < (xs + [v])[j] {
      assert xs[i] in xs;
    }
  }

  lemma DeliveredKeepsInvariant(s: State, i: nat)
    requires Invariant(s) && i < |s.streams|
    ensures Invariant(Delivered(s, i))
  {
    DeliveredKeepsTimes(s, i);
    DeliveredKeepsTotals(s, i);
    var s' := Delivered(s, i);
    forall st | st in s'.streams ensures StreamInvariant(st, s'.current) {
      var k :| 0 <= k < |s'.streams| && s'.streams[k] == st;
      assert StreamInvariant(s.streams[k], s.current);
      AppendingKeepsIncreasing(s.streams[k].emitted, s.current);
    }
  }

  lemma {:induction false} InvariantAfter(start: nat, total: nat, steps: seq<Step>)
    ensures Invariant(After(Fresh(start, total), steps))
    ensures After(Fresh(start, total), steps).start == start && After(Fresh(start, total), steps).total == total
  {
    if steps != [] {
      InvariantAfter(start, total, steps[..|steps| - 1]);
      var before := After(Fresh(start, total), steps[..|steps| - 1]);
      match steps[|steps| - 1] {
        case Subscribe => SubscribedKeepsInvariant(before);
        case Deliver(i) =>
          if i < |before.streams| {
            DeliveredKeepsInvariant(before, i);
          }
      }
    }
  }

  lemma {:induction false} CutsBound(streams: seq<Stream>)
    ensures Cuts(streams) <= |streams|
  {
    if streams != [] {
      CutsBound(streams[..|streams| - 1]);
    }
  }

  /**
   * In every interleaving of subscriptions and deliveries: no value is emitted twice, by one stream
   * or by two; together the streams have emitted exactly the interval from the start to the
   * counter, or to the total if that is less; each stream is strictly increasing; and the counter
   * passes the total (or the start, if that is greater) by at most one for each stream. What it
   * counts is the items that streams have taken: emissions and cuts, not sectors.
   */
  lemma EmissionsPartitionTheInterval(start: nat, total: nat, steps: seq<Step>, v: nat)
    ensures var s := After(Fresh(start, total), steps);
            && Times(s.streams, v) == (if start <= v < Min(s.current, total) then 1 else 0)
            && (start <= total ==> Emissions(s.streams) == Min(s.current, total) - start <= total - start)
            && (forall i :: 0 <= i < |s.streams| ==> Increasing(s.streams[i].emitted))
            && start <= s.current <= Max(start, total) + |s.streams|
            && s.current == start + Emissions(s.streams) + Cuts(s.streams)
  {
    InvariantAfter(start, total, steps);
    var s := After(Fresh(start, total), steps);
    CutsBound(s.streams);
    assert Times(s.streams, v) == if Given(s, v) then 1 else 0;
    assert forall i :: 0 <= i < |s.streams| ==> StreamInvariant(s.streams[i], s.current);
  }

  lemma {:induction false} SharedCountsTwice(streams: seq<Stream>, i: nat, j: nat, v: nat)
    requires i < j < |streams|
    requires v in streams[i].emitted && v in streams[j].emitted
    ensures Times(streams, v) >= 2
  {
    var last := |streams| - 1;
    assert forall k :: 0 <= k < last ==> streams[..last][k] == streams[k];
    if j < last {
      SharedCountsTwice(streams[..last], i, j, v);
    } else {
      EmittedSomewhere(streams[..last], i, v);
    }
  }

  lemma {:induction false} EmittedSomewhere(streams: seq<Stream>, i: nat, v: nat)
    requires i < |streams| && v in streams[i].emitted
    ensures Times(streams, v) >= 1
  {
    var last := |streams| - 1;
    if i < last {
      assert streams[..last][i] == streams[i];
      EmittedSomewhere(streams[..last], i, v);
    }
  }

  /** No two streams share a value, whatever the interleaving. */
  lemma StreamsAreDisjoint(start: nat, total: nat, steps: seq<Step>, i: nat, j: nat, v: nat)
    requires i < j < |After(Fresh(start, total), steps).streams|
    ensures var streams := After(Fresh(start, total), steps).streams;
            !(v in streams[i].emitted && v in streams[j].emitted)
  {
    EmissionsPartitionTheInterval(start, total, steps, v);
    var streams := After(Fresh(start, total), steps).streams;
    if v in streams[i].emitted && v in streams[j].emitted {
      SharedCountsTwice(streams, i, j, v);
    }
  }

  // ---------------------------------------------------------------------------------------
  // What subscribers get
  // ---------------------------------------------------------------------------------------

  /** The state after the first `p` steps of a history. */
  function Before(start: nat, total: nat, steps: seq<Step>, p: nat): State
    requires p <= |steps|
  {
    After(Fresh(start, total), steps[..p])
  }

  lemma LastStep(start: nat, total: nat, steps: seq<Step>, step: Step)
    ensures var s := After(Fresh(start, total), steps);
            After(Fresh(start, total), steps + [step]) ==
            match step
            case Subscribe => Subscribed(s)
            case Deliver(i) => if i < |s.streams| then Delivered(s, i) else s
  {
    assert (steps + [step])[..|steps|] == steps;
  }

  /**
   * After any history a subscription gets an empty stream of its own, open exactly if the items
   * taken so far do not add up to the total; it takes nothing from the counter or from others.
   */
  lemma SubscriptionIsOpenIff(start: nat, total: nat, steps: seq<Step>)
    ensures var s := After(Fresh(start, total), steps);
            var s' := After(Fresh(start, total), steps + [Subscribe]);
            && |s'.streams| == |s.streams| + 1 && s'.streams[..|s.streams|] == s.streams
            && s'.current == s.current
            && s'.streams[|s.streams|].emitted == []
            && (!s'.streams[|s.streams|].ended <==> start + Emissions(s.streams) + Cuts(s.streams) != total)
  {
    LastStep(start, total, steps, Subscribe);
    InvariantAfter(start, total, steps);
  }

  /**
   * After any history a delivery to an open stream raises the counter by one, and emits its value
   * if that is below the total and ends the stream if not; an ended stream takes nothing.
   */
  lemma DeliveryTakesTheCounter(start: nat, total: nat, steps: seq<Step>, i: nat)
    requires i < |After(Fresh(start, total), steps).streams|
    ensures var s := After(Fresh(start, total), steps);
            var s' := After(Fresh(start, total), steps + [Deliver(i)]);
            && |s'.streams| == |s.streams|
            && (forall j :: 0 <= j < |s.streams| && j != i ==> s'.streams[j] == s.streams[j])
            && s'.current == s.current + (if s.streams[i].ended then 0 else 1)
            && s'.streams[i].emitted ==
               s.streams[i].emitted + (if !s.streams[i].ended && s.current < total then [s.current] else [])
            && (s'.streams[i].ended <==> s.streams[i].ended || s.current >= total)
  {
    LastStep(start, total, steps, Deliver(i));
    InvariantAfter(start, total, steps);
  }

  /** Step `p` of the history is the subscription of stream `i`, at a time when none was open to it. */
  ghost predicate BornEnded(start: nat, total: nat, steps: seq<Step>, i: nat, p: nat) {
    && p < |steps| && steps[p] == Subscribe
    && |Before(start, total, steps, p).streams| == i
    && Before(start, total, steps, p).current == total
  }

  /** Step `p` of the history is a delivery to stream `i` when the counter is not below the total. */
  ghost predicate ReachedTotal(start: nat, total: nat, steps: seq<Step>, i: nat, p: nat) {
    && p < |steps| && steps[p] == Deliver(i)
    && i < |Before(start, total, steps, p).streams|
    && Before(start, total, steps, p).current >= total
  }

  lemma PrefixTells(start: nat, total: nat, steps: seq<Step>, i: nat)
    requires steps != []
    ensures var n := |steps| - 1;
            && (forall p: nat :: p < n ==> (BornEnded(start, total, steps, i, p) <==>
                                            BornEnded(start, total, steps[..n], i, p)))
            && (forall p: nat :: p < n ==> (ReachedTotal(start, total, steps, i, p) <==>
                                            ReachedTotal(start, total, steps[..n], i, p)))
  {
    assert forall p :: 0 <= p < |steps| - 1 ==> steps[..|steps| - 1][..p] == steps[..p];
  }

  /**
   * After any history a stream has ended exactly if it was subscribed when the counter equalled the
   * total, or an item has reached it when the counter was not below the total.
   */
  lemma {:induction false} EndedIff(start: nat, total: nat, steps: seq<Step>, i: nat)
    ensures var s := After(Fresh(start, total), steps);
            i < |s.streams| && s.streams[i].ended <==>
            || (exists p: nat :: BornEnded(start, total, steps, i, p))
            || (exists p: nat :: ReachedTotal(start, total, steps, i, p))
  {
    if steps != [] {
      var n := |steps| - 1;
      var s, s' := Before(start, total, steps, n), After(Fresh(start, total), steps);
      EndedIff(start, total, steps[..n], i);
      PrefixTells(start, total, steps, i);
      InvariantAfter(start, total, steps[..n]);
      if i < |s'.streams| && s'.streams[i].ended && !(i < |s.streams| && s.streams[i].ended) {
        assert BornEnded(start, total, steps, i, n) || ReachedTotal(start, total, steps, i, n);
      }
    }
  }

  /** One subscription, and then so many items for it. */
  function Sole(items: nat): seq<Step> {
    if items == 0 then [Subscribe] else Sole(items - 1) + [Deliver(0)]
  }

  /** The only stream has emitted so many values from the start on, up to the total, and then ended. */
  ghost predicate GotAll(s: State, start: nat, total: nat, items: nat)
    requires start <= total
  {
    && |s.streams| == 1
    && |s.streams[0].emitted| == Min(items, total - start)
    && (forall k :: 0 <= k < |s.streams[0].emitted| ==> s.streams[0].emitted[k] == start + k)
    && (s.streams[0].ended <==> items > total - start)
    && s.current == start + Min(items, total - start + 1)
  }

  lemma NextItem(s: State, start: nat, total: nat, items: nat)
    requires start < total == s.total && GotAll(s, start, total, items)
    ensures GotAll(Delivered(s, 0), start, total, items + 1)
  {
  }

  /** A sole subscriber gets every value from the start on, up to the total, and then the end. */
  lemma {:induction false} SoleSubscriberGetsAll(start: nat, total: nat, items: nat)
    requires start < total
    ensures GotAll(After(Fresh(start, total), Sole(items)), start, total, items)
  {
    if items == 0 {
      LastStep(start, total, [], Subscribe);
      assert [] + [Subscribe] == Sole(0);
    } else {
      SoleSubscriberGetsAll(start, total, items - 1);
      InvariantAfter(start, total, Sole(items - 1));
      LastStep(start, total, Sole(items - 1), Deliver(0));
      NextItem(After(Fresh(start, total), Sole(items - 1)), start, total, items - 1);
    }
  }
}
