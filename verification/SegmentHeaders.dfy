/** Segment-header requests of the DSN, answered from the node's segment-header store. */
module SegmentHeaders {
  import opened Outcomes

  /** The two kinds of request: given segments, or the last so many. */
  datatype Request = SegmentIndexes(indexes: seq<nat>) | LastSegmentHeaders(number: nat)

  /** The store; `maxIndex` is absent while only the genesis block is archived. */
  datatype Store<H> = Store(headers: map<nat, H>, maxIndex: Option<nat>)

  function RangeInclusive(max: nat): seq<nat> {
    seq(max + 1, i requires 0 <= i <= max => i)
  }

  function Reversed(s: seq<nat>): (r: seq<nat>)
    ensures |r| == |s|
    ensures forall i :: 0 <= i < |s| ==> r[i] == s[|s| - 1 - i]
  {
    seq(|s|, i requires 0 <= i < |s| => s[|s| - 1 - i])
  }

  function Take(s: seq<nat>, n: nat): seq<nat> {
    if n <= |s| then s[..n] else s
  }

  function RequestedIndexes<H>(req: Request, store: Store<H>, limit: nat): seq<nat> {
    match req
    case SegmentIndexes(indexes) => indexes
    case LastSegmentHeaders(number) =>
      var headersLimit := if number > limit then limit else number;
      var max := match store.maxIndex case Some(m) => m case None => 0;
      Take(Reversed(RangeInclusive(max)), headersLimit)
  }

  /** Collecting into an option: the first missing header makes the whole answer absent. */
  function Collect<H>(indexes: seq<nat>, headers: map<nat, H>): Option<seq<H>> {
    if indexes == [] then Some([])
    else if indexes[0] !in headers then None
    else
      match Collect(indexes[1..], headers)
      case None => None
      case Some(rest) => Some([headers[indexes[0]]] + rest)
  }

  /** `get_segment_header_by_segment_indexes`. */
  function GetSegmentHeaders<H>(req: Request, store: Store<H>, limit: nat): Option<seq<H>> {
    Collect(RequestedIndexes(req, store, limit), store.headers)
  }

  /** All or nothing, and in the order of the request. */
  lemma {:induction false} CollectIsAllOrNothing<H>(indexes: seq<nat>, headers: map<nat, H>)
    ensures Collect(indexes, headers).Some? <==> forall i :: 0 <= i < |indexes| ==> indexes[i] in headers
    ensures Collect(indexes, headers).Some? ==>
              && |Collect(indexes, headers).value| == |indexes|
              && forall i :: 0 <= i < |indexes| ==>
                   indexes[i] in headers && Collect(indexes, headers).value[i] == headers[indexes[i]]
  {
    if indexes != [] {
      CollectIsAllOrNothing(indexes[1..], headers);
      assert forall i :: 1 <= i < |indexes| ==> indexes[i] == indexes[1..][i - 1];
    }
  }

  /**
   * A request for the last headers gets those at max, max - 1, ... in this order, `n` of them, the
   * least of number, limit and max + 1, or nothing if one of these is missing; an empty archive
   * counts as one whose last segment is 0.
   */
  lemma LastHeadersCountDown<H>(number: nat, store: Store<H>, limit: nat, n: nat)
    requires var max := if store.maxIndex.Some? then store.maxIndex.value else 0;
             n <= number && n <= limit && n <= max + 1 && (n == number || n == limit || n == max + 1)
    ensures var max := if store.maxIndex.Some? then store.maxIndex.value else 0;
            var answer := GetSegmentHeaders(LastSegmentHeaders(number), store, limit);
            && (answer.Some? <==> forall m: nat :: max - n < m <= max ==> m in store.headers)
            && (answer.Some? ==>
                  && |answer.value| == n
                  && forall i :: 0 <= i < |answer.value| ==>
                       max - i in store.headers && answer.value[i] == store.headers[max - i])
  {
    var max := if store.maxIndex.Some? then store.maxIndex.value else 0;
    var indexes := RequestedIndexes(LastSegmentHeaders(number), store, limit);
    assert |indexes| == n && forall i :: 0 <= i < |indexes| ==> indexes[i] == max - i;
    CollectIsAllOrNothing(indexes, store.headers);
    if forall i :: 0 <= i < |indexes| ==> indexes[i] in store.headers {
      forall m: nat | max - n < m <= max ensures m in store.headers {
        assert indexes[max - m] == m;
      }
    }
  }

  /** A request for given segments gets exactly their headers, or nothing if one is missing. */
  lemma GivenHeadersInOrder<H>(indexes: seq<nat>, store: Store<H>, limit: nat)
    ensures var answer := GetSegmentHeaders(SegmentIndexes(indexes), store, limit);
            && (answer.Some? <==> forall i :: 0 <= i < |indexes| ==> indexes[i] in store.headers)
            && (answer.Some? ==>
                  && |answer.value| == |indexes|
                  && forall i :: 0 <= i < |indexes| ==>
                       indexes[i] in store.headers && answer.value[i] == store.headers[indexes[i]])
  {
    CollectIsAllOrNothing(indexes, store.headers);
  }
}
