/**
 * `DestructorSet`: three separate vectors and a vector of order tags that together behave like
 * one LIFO stack of cleanups. A payload of type `T` stands for a closure, a future or an item.
 * What a teardown does to the payloads is recorded as a sequence of actions.
 */
module Destructors {
  import opened Outcomes

  datatype ToDestruct = Sync | Async | Item

  /** One registration: which vector it went to, and what was registered. */
  datatype Entry<+T> = Entry(tag: ToDestruct, payload: T)

  /** What a teardown does with one payload. */
  datatype Action<+T> =
    | RunSync(f: T)
    | AwaitAsync(fut: T)
    | DiscardAsync(fut: T)
    | DropItem(item: T)

  /** `async_drop` awaits the asynchronous cleanups, a plain drop discards them unrun. */
  datatype Mode = Awaiting | Discarding

  datatype Error = AlreadyRan | AsyncDisabled | OnlySyncConfigured

  // ---------------------------------------------------------------------------------------
  // The stack that the vectors represent
  // ---------------------------------------------------------------------------------------

  function DropLast<T>(s: seq<T>): seq<T>
    requires s != []
  {
    s[..|s| - 1]
  }

  function Last<T>(s: seq<T>): T
    requires s != []
  {
    s[|s| - 1]
  }

  ghost function Tags<T>(stack: seq<Entry<T>>): seq<ToDestruct> {
    if stack == [] then [] else Tags(DropLast(stack)) + [Last(stack).tag]
  }

  /** The payloads registered under one tag, oldest first. */
  ghost function Payloads<T>(stack: seq<Entry<T>>, tag: ToDestruct): seq<T> {
    if stack == [] then []
    else Payloads(DropLast(stack), tag) + if Last(stack).tag == tag then [Last(stack).payload] else []
  }

  lemma PartsGrow<T>(stack: seq<Entry<T>>, entry: Entry<T>)
    ensures Tags(stack + [entry]) == Tags(stack) + [entry.tag]
    ensures forall tag ::
              Payloads(stack + [entry], tag) == Payloads(stack, tag) + if entry.tag == tag then [entry.payload] else []
  {
    assert DropLast(stack + [entry]) == stack;
  }

  /** The teardown of `stack` has come as far as `log`, with `rest` left. */
  ghost predicate Remains<T>(stack: seq<Entry<T>>, mode: Mode, rest: seq<Entry<T>>, log: seq<Action<T>>) {
    log + Teardown(rest, mode) == Teardown(stack, mode)
  }

  lemma RemainsAfter<T>(stack: seq<Entry<T>>, mode: Mode, rest: seq<Entry<T>>, log: seq<Action<T>>)
    requires rest != [] && Remains(stack, mode, rest, log)
    ensures Remains(stack, mode, DropLast(rest), log + [Act(mode, Last(rest))])
  {
    TeardownRound(rest, mode);
  }

  /** The newest entry is the last of its vector and of the tags; the rest are those of the others. */
  lemma NewestIsLast<T>(stack: seq<Entry<T>>)
    requires stack != []
    ensures var (rest, newest) := (DropLast(stack), Last(stack));
            && Tags(stack) != [] && Last(Tags(stack)) == newest.tag && DropLast(Tags(stack)) == Tags(rest)
            && Payloads(stack, newest.tag) != []
            && Last(Payloads(stack, newest.tag)) == newest.payload
            && DropLast(Payloads(stack, newest.tag)) == Payloads(rest, newest.tag)
            && forall tag :: tag != newest.tag ==> Payloads(stack, tag) == Payloads(rest, tag)
  {
  }

  /** The tags and the three vectors determine the registration sequence they came from. */
  lemma {:induction false} VectorsDetermineStack<T>(a: seq<Entry<T>>, b: seq<Entry<T>>)
    requires Tags(a) == Tags(b)
    requires forall tag :: Payloads(a, tag) == Payloads(b, tag)
    ensures a == b
  {
    if a != [] && b != [] {
      var a', b' := DropLast(a), DropLast(b);
      assert Tags(a') == DropLast(Tags(a)) == DropLast(Tags(b)) == Tags(b');
      var tag := Last(a).tag;
      assert tag == Last(Tags(a)) == Last(Tags(b)) == Last(b).tag;
      assert Last(a).payload == Last(Payloads(a, tag)) == Last(Payloads(b, tag)) == Last(b).payload;
      forall other ensures Payloads(a', other) == Payloads(b', other) {
        if other == tag {
          assert Payloads(a', tag) == DropLast(Payloads(a, tag)) == DropLast(Payloads(b, tag)) == Payloads(b', tag);
        } else {
          assert Payloads(a', other) == Payloads(a, other) == Payloads(b, other) == Payloads(b', other);
        }
      }
      VectorsDetermineStack(a', b');
      assert a == a' + [Last(a)] && b == b' + [Last(b)];
    }
  }

  // ---------------------------------------------------------------------------------------
  // Tearing a stack down
  // ---------------------------------------------------------------------------------------

  function Act<T>(mode: Mode, entry: Entry<T>): Action<T> {
    match entry.tag
    case Sync => RunSync(entry.payload)
    case Async => if mode.Awaiting? then AwaitAsync(entry.payload) else DiscardAsync(entry.payload)
    case Item => DropItem(entry.payload)
  }

  /** The registration that an action consumes. */
  function Consumed<T>(action: Action<T>): Entry<T> {
    match action
    case RunSync(f) => Entry(Sync, f)
    case AwaitAsync(f) => Entry(Async, f)
    case DiscardAsync(f) => Entry(Async, f)
    case DropItem(i) => Entry(Item, i)
  }

  /** The reverse of the registration sequence, one action for each entry. */
  function Teardown<T>(stack: seq<Entry<T>>, mode: Mode): (actions: seq<Action<T>>)
    ensures |actions| == |stack|
    ensures forall k :: 0 <= k < |stack| ==> Consumed(actions[k]) == stack[|stack| - 1 - k]
  {
    seq(|stack|, k requires 0 <= k < |stack| => Act(mode, stack[|stack| - 1 - k]))
  }

  /** A teardown acts on the newest entry and goes on with the entries below it. */
  lemma TeardownRound<T>(stack: seq<Entry<T>>, mode: Mode)
    requires stack != []
    ensures Teardown(stack, mode) == [Act(mode, Last(stack))] + Teardown(DropLast(stack), mode)
  {
  }

  ghost function ConsumedEntries<T>(actions: seq<Action<T>>): multiset<Entry<T>> {
    if actions == [] then multiset{}
    else multiset{Consumed(actions[0])} + ConsumedEntries(actions[1..])
  }

  /** The actions consume the entries of the stack in exact reverse, each as often as it is there. */
  ghost predicate ConsumesInReverse<T>(actions: seq<Action<T>>, stack: seq<Entry<T>>) {
    && |actions| == |stack|
    && (forall k :: 0 <= k < |stack| ==> Consumed(actions[k]) == stack[|stack| - 1 - k])
    && ConsumedEntries(actions) == multiset(stack)
  }

  ghost predicate NoneAwaited<T>(actions: seq<Action<T>>) {
    forall a :: a in actions ==> !a.AwaitAsync?
  }

  ghost predicate NoneDiscarded<T>(actions: seq<Action<T>>) {
    forall a :: a in actions ==> !a.DiscardAsync?
  }

  lemma {:induction false} TeardownConsumesEachOnce<T>(stack: seq<Entry<T>>, mode: Mode)
    ensures ConsumedEntries(Teardown(stack, mode)) == multiset(stack)
  {
    if stack != [] {
      TeardownConsumesEachOnce(DropLast(stack), mode);
      TeardownRound(stack, mode);
      assert stack == DropLast(stack) + [Last(stack)];
      assert Teardown(stack, mode)[1..] == Teardown(DropLast(stack), mode);
    }
  }

  lemma TeardownConsumesInReverse<T>(stack: seq<Entry<T>>, mode: Mode)
    ensures ConsumesInReverse(Teardown(stack, mode), stack)
    ensures if mode.Awaiting? then NoneDiscarded(Teardown(stack, mode)) else NoneAwaited(Teardown(stack, mode))
  {
    TeardownConsumesEachOnce(stack, mode);
    assert forall k :: 0 <= k < |stack| ==> Teardown(stack, mode)[k] == Act(mode, stack[|stack| - 1 - k]);
  }

  // ---------------------------------------------------------------------------------------
  // Histories of registrations
  // ---------------------------------------------------------------------------------------

  /** What a set looks like from outside: its stack and its two flags. */
  datatype View<T> = View(stack: seq<Entry<T>>, alreadyRan: bool, allowAsync: bool)

  /** Registering under `tag` is refused. */
  predicate Refuses<T>(v: View<T>, tag: ToDestruct) {
    v.alreadyRan || (tag.Async? && !v.allowAsync)
  }

  function Register<T>(v: View<T>, entry: Entry<T>): View<T> {
    if Refuses(v, entry.tag) then v else v.(stack := v.stack + [entry])
  }

  /** The actions of giving the set up through `async_drop`, implicit drop included. */
  function CloseActions<T>(v: View<T>): seq<Action<T>> {
    if v.alreadyRan then []
    else Teardown(v.stack, if v.allowAsync then Awaiting else Discarding)
  }

  /** The actions of letting the set go out of scope. */
  function DropActions<T>(v: View<T>): seq<Action<T>> {
    if v.alreadyRan then [] else Teardown(v.stack, Discarding)
  }

  function RegisterAll<T>(v: View<T>, entries: seq<Entry<T>>): View<T> {
    if entries == [] then v else Register(RegisterAll(v, DropLast(entries)), Last(entries))
  }

  /** The registrations that a set accepts, in order. */
  function Accepted<T>(entries: seq<Entry<T>>, allowAsync: bool): seq<Entry<T>> {
    if entries == [] then []
    else Accepted(DropLast(entries), allowAsync)
         + if allowAsync || !Last(entries).tag.Async? then [Last(entries)] else []
  }

  ghost predicate HasAsync<T>(stack: seq<Entry<T>>) {
    exists e :: e in stack && e.tag.Async?
  }

  /** A set that can still be given up is consumed once and in reverse on either path. */
  lemma GivingUpIsLifo<T>(v: View<T>)
    requires !v.alreadyRan
    requires v.allowAsync || !HasAsync(v.stack)
    ensures ConsumesInReverse(CloseActions(v), v.stack) && NoneDiscarded(CloseActions(v))
    ensures ConsumesInReverse(DropActions(v), v.stack) && NoneAwaited(DropActions(v))
  {
    TeardownConsumesInReverse(v.stack, Discarding);
    if v.allowAsync {
      TeardownConsumesInReverse(v.stack, Awaiting);
    } else {
      forall a | a in CloseActions(v) ensures !a.DiscardAsync? {
        var k :| 0 <= k < |v.stack| && a == CloseActions(v)[k];
        assert Consumed(a) in v.stack;
      }
    }
  }

  /**
   * For any history of registrations on a new set: the set never reports that it already ran (only
   * `async_drop` sets the flag, and it takes the set with it), asynchronous entries are refused
   * exactly when disabled, and giving the set up in either way consumes each accepted entry once,
   * in exact reverse: `async_drop` discards no future, a plain drop awaits none.
   */
  lemma HistoryIsLifo<T>(entries: seq<Entry<T>>, allowAsync: bool)
    ensures var v := RegisterAll(View([], false, allowAsync), entries);
            && v == View(Accepted(entries, allowAsync), false, allowAsync)
            && ConsumesInReverse(CloseActions(v), v.stack) && NoneDiscarded(CloseActions(v))
            && ConsumesInReverse(DropActions(v), v.stack) && NoneAwaited(DropActions(v))
  {
    var v := View(Accepted(entries, allowAsync), false, allowAsync);
    RegisteredAreAccepted(entries, allowAsync);
    if !allowAsync {
      AcceptedWithoutAsync(entries);
    }
    GivingUpIsLifo(v);
  }

  lemma {:induction false} RegisteredAreAccepted<T>(entries: seq<Entry<T>>, allowAsync: bool)
    ensures RegisterAll(View([], false, allowAsync), entries) == View(Accepted(entries, allowAsync), false, allowAsync)
  {
    if entries != [] {
      RegisteredAreAccepted(DropLast(entries), allowAsync);
    }
  }

  lemma {:induction false} AcceptedWithoutAsync<T>(entries: seq<Entry<T>>)
    ensures !HasAsync(Accepted(entries, false))
  {
    if entries != [] {
      AcceptedWithoutAsync(DropLast(entries));
    }
  }

  // ---------------------------------------------------------------------------------------
  // The set itself
  // ---------------------------------------------------------------------------------------

  /** Objects whose drop glue is the cleanup; a deferred closure is one of them. */
  class DropCollection<T> {
    var vec: seq<T>

    constructor ()
      ensures vec == []
    {
      vec := [];
    }

    method Push(t: T)
      modifies this
      ensures vec == old(vec) + [t]
    {
      vec := vec + [t];
    }

    method Drain() returns (all: seq<T>)
      modifies this
      ensures all == old(vec) && vec == []
    {
      all := vec;
      vec := [];
    }
  }

  /** Pinned futures, not started. */
  class AsyncDropFutures<T> {
    var vec: seq<T>

    constructor ()
      ensures vec == []
    {
      vec := [];
    }

    method Push(fut: T)
      modifies this
      ensures vec == old(vec) + [fut]
    {
      vec := vec + [fut];
    }

    method Drain() returns (all: seq<T>)
      modifies this
      ensures all == old(vec) && vec == []
    {
      all := vec;
      vec := [];
    }
  }

  class DestructorSet<T> {
    const itemsToDrop: DropCollection<T>
    const syncDestructors: DropCollection<T>
    const asyncDestructors: AsyncDropFutures<T>
    var order: seq<ToDestruct>
    var alreadyRan: bool
    const allowAsync: bool
    /** The registrations not yet consumed; `VectorsDetermineStack` says that `Valid` fixes it. */
    ghost var stack: seq<Entry<T>>

    ghost predicate Valid()
      reads this, itemsToDrop, syncDestructors, asyncDestructors
    {
      && itemsToDrop != syncDestructors
      && order == Tags(stack)
      && syncDestructors.vec == Payloads(stack, Sync)
      && asyncDestructors.vec == Payloads(stack, Async)
      && itemsToDrop.vec == Payloads(stack, Item)
    }

    ghost function Abstract(): View<T>
      reads this
    {
      View(stack, alreadyRan, allowAsync)
    }

    /** A set with asynchronous destructors allowed. */
    constructor New()
      ensures Valid() && Abstract() == View([], false, true)
      ensures fresh(itemsToDrop) && fresh(syncDestructors) && fresh(asyncDestructors)
    {
      itemsToDrop := new DropCollection<T>();
      syncDestructors := new DropCollection<T>();
      asyncDestructors := new AsyncDropFutures<T>();
      order, stack := [], [];
      alreadyRan, allowAsync := false, true;
    }

    constructor NewWithoutAsync()
      ensures Valid() && Abstract() == View([], false, false)
      ensures fresh(itemsToDrop) && fresh(syncDestructors) && fresh(asyncDestructors)
    {
      itemsToDrop := new DropCollection<T>();
      syncDestructors := new DropCollection<T>();
      asyncDestructors := new AsyncDropFutures<T>();
      order, stack := [], [];
      alreadyRan, allowAsync := false, false;
    }

    method AddSyncDestructor(f: T) returns (r: Result<(), Error>)
      requires Valid()
      modifies this, syncDestructors
      ensures Valid() && Abstract() == Register(old(Abstract()), Entry(Sync, f))
      ensures r == if old(alreadyRan) then Err(AlreadyRan) else Ok(())
      ensures stack == old(stack) + if r.Ok? then [Entry(Sync, f)] else []
    {
      if alreadyRan {
        return Err(AlreadyRan);
      }
      order := order + [Sync];
      syncDestructors.Push(f);
      stack := stack + [Entry(Sync, f)];
      PartsGrow(old(stack), Entry(Sync, f));
      return Ok(());
    }

    method AddAsyncDestructor(fut: T) returns (r: Result<(), Error>)
      requires Valid()
      modifies this, asyncDestructors
      ensures Valid() && Abstract() == Register(old(Abstract()), Entry(Async, fut))
      ensures r == if old(alreadyRan) then Err(AlreadyRan) else if allowAsync then Ok(()) else Err(AsyncDisabled)
      ensures stack == old(stack) + if r.Ok? then [Entry(Async, fut)] else []
    {
      if alreadyRan {
        return Err(AlreadyRan);
      }
      if !allowAsync {
        return Err(AsyncDisabled);
      }
      order := order + [Async];
      asyncDestructors.Push(fut);
      stack := stack + [Entry(Async, fut)];
      PartsGrow(old(stack), Entry(Async, fut));
      return Ok(());
    }

    method AddItemsToDrop(t: T) returns (r: Result<(), Error>)
      requires Valid()
      modifies this, itemsToDrop
      ensures Valid() && Abstract() == Register(old(Abstract()), Entry(Item, t))
      ensures r == if old(alreadyRan) then Err(AlreadyRan) else Ok(())
      ensures stack == old(stack) + if r.Ok? then [Entry(Item, t)] else []
    {
      if alreadyRan {
        return Err(AlreadyRan);
      }
      order := order + [Item];
      itemsToDrop.Push(t);
      stack := stack + [Entry(Item, t)];
      PartsGrow(old(stack), Entry(Item, t));
      return Ok(());
    }

    /**
     * The teardown loop, which drop and `async_drop` spell out alike but for what they do with a
     * future. Taking the last element of a drained vector is the `expect` of the source; that the
     * element exists is part of what is verified.
     */
    method ConsumeAll(mode: Mode) returns (log: seq<Action<T>>)
      requires Valid()
      modifies this, itemsToDrop, syncDestructors, asyncDestructors
      ensures Valid() && Abstract() == old(Abstract()).(stack := [])
      ensures log == Teardown(old(Abstract()).stack, mode)
    {
      var syncFns := syncDestructors.Drain();
      var asyncFns := asyncDestructors.Drain();
      var items := itemsToDrop.Drain();
      var tags := order;
      ghost var rest := stack;
      order, stack := [], [];
      log := [];
      while tags != []
        invariant tags == Tags(rest)
        invariant syncFns == Payloads(rest, Sync)
        invariant asyncFns == Payloads(rest, Async)
        invariant items == Payloads(rest, Item)
        invariant Remains(old(stack), mode, rest, log)
        modifies {}
        decreases |tags|
      {
        NewestIsLast(rest);
        RemainsAfter(old(stack), mode, rest, log);
        var tag := Last(tags);
        var payload: T;
        match tag {
          case Sync => payload, syncFns := Last(syncFns), DropLast(syncFns);
          case Async => payload, asyncFns := Last(asyncFns), DropLast(asyncFns);
          case Item => payload, items := Last(items), DropLast(items);
        }
        assert Last(rest) == Entry(tag, payload);
        log := log + [Act(mode, Entry(tag, payload))];
        tags := DropLast(tags);
        rest := DropLast(rest);
      }
    }

    /** Drop: whatever is left is consumed in reverse, futures discarded unrun. */
    method Drop() returns (log: seq<Action<T>>)
      requires Valid()
      modifies this, itemsToDrop, syncDestructors, asyncDestructors
      ensures Valid() && log == DropActions(old(Abstract()))
      ensures Abstract() == if old(alreadyRan) then old(Abstract()) else old(Abstract()).(stack := [])
    {
      if alreadyRan {
        return [];
      }
      log := ConsumeAll(Discarding);
    }

    /** The body of `async_drop`, up to the point where the set goes out of scope. */
    method RunDestructors() returns (r: Result<(), Error>, log: seq<Action<T>>)
      requires Valid()
      modifies this, itemsToDrop, syncDestructors, asyncDestructors
      ensures Valid()
      ensures r == if old(alreadyRan) then Err(AlreadyRan)
                   else if allowAsync then Ok(()) else Err(OnlySyncConfigured)
      ensures log == if r.Ok? then Teardown(old(Abstract()).stack, Awaiting) else []
      ensures Abstract() == if r.Ok? then View([], true, true) else old(Abstract())
    {
      if alreadyRan {
        return Err(AlreadyRan), [];
      }
      if !allowAsync {
        return Err(OnlySyncConfigured), [];
      }
      log := ConsumeAll(Awaiting);
      alreadyRan := true;
      r := Ok(());
    }

    /**
     * `async_drop`, which takes the set by value: the body, and then the drop of the set on every
     * way out. After a run that drop does nothing; after a refusal it does the work instead.
     */
    method AsyncDrop() returns (r: Result<(), Error>, log: seq<Action<T>>)
      requires Valid()
      modifies this, itemsToDrop, syncDestructors, asyncDestructors
      ensures Valid()
      ensures r.Ok? <==> allowAsync && !old(alreadyRan)
      ensures log == CloseActions(old(Abstract()))
      ensures old(alreadyRan) || Abstract().stack == []
    {
      var rest;
      r, log := RunDestructors();
      rest := Drop();
      log := log + rest;
    }
  }
}
