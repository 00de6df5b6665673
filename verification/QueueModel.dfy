/** The bounded queue between a socket and its consumers, in its two overflow disciplines. */
module QueueModel {
  import opened Prelude

  datatype Overflow = Coalesce | NeverDrop

  datatype Item<T> = Item(key: string, value: T, enqueuedAt: int)

  datatype Queue<T> = Queue(
    overflow: Overflow,
    capacity: int,
    items: seq<Item<T>>,
    index: map<string, nat>,
    overloaded: bool,
    droppedHold: bool,
    enqueued: nat,
    processed: nat,
    dropped: nat,
    coalesced: nat,
    overloadEvents: nat)

  function Empty<T>(overflow: Overflow, capacity: int): Queue<T> {
    Queue(overflow, capacity, [], map[], false, false, 0, 0, 0, 0, 0)
  }

  function IndexOf<T>(items: seq<Item<T>>): map<string, nat> {
    if items == [] then map[] else IndexOf(items[..|items| - 1])[items[|items| - 1].key := |items| - 1]
  }

  /** Overload clears only within capacity and with no unobserved drop. */
  function Reassessed<T>(q: Queue<T>): Queue<T> {
    var over := |q.items| > q.capacity;
    if over && !q.overloaded then q.(overloaded := true, overloadEvents := q.overloadEvents + 1)
    else if !over && q.overloaded && !q.droppedHold then q.(overloaded := false)
    else q
  }

  /** A dropped snapshot is never silent. */
  function WithoutOldest<T>(q: Queue<T>): Queue<T> {
    if q.items == [] then q
    else
      q.(items := q.items[1..],
      index := IndexOf(q.items[1..]),
      dropped := q.dropped + 1,
      droppedHold := true,
      overloaded := true,
      overloadEvents := if q.overloaded then q.overloadEvents else q.overloadEvents + 1)
  }

  /** A new distinct key: at capacity the oldest snapshot makes room. */
  function Appended<T>(q: Queue<T>, item: Item<T>): Queue<T> {
    var q1 := if |q.items| >= q.capacity then WithoutOldest(q) else q;
    q1.(items := q1.items + [item], index := q1.index[item.key := |q1.items|])
  }

  /** The same key again: the payload is replaced, the slot and its enqueue time stay. */
  function Replaced<T>(q: Queue<T>, i: nat, value: T): Queue<T>
    requires i < |q.items|
  {
    q.(items := q.items[i := q.items[i].(value := value)], coalesced := q.coalesced + 1)
  }

  function Inserted<T>(q: Queue<T>, value: T, key: string, now: int): Queue<T> {
    if q.overflow.NeverDrop? then q.(items := q.items + [Item(key, value, now)])
    else if key in q.index && q.index[key] < |q.items| then Replaced(q, q.index[key], value)
    else Appended(q, Item(key, value, now))
  }

  function Enqueued<T>(q: Queue<T>, value: T, key: string, now: int): Queue<T> {
    Reassessed(Inserted(q.(enqueued := q.enqueued + 1), value, key, now))
  }

  function Dequeued<T>(q: Queue<T>): Queue<T> {
    if q.items == [] then q
    else
      Reassessed(q.(items := q.items[1..],
      index := if q.overflow.Coalesce? then IndexOf(q.items[1..]) else q.index,
      processed := q.processed + 1,
      droppedHold := false))
  }

  function Drained<T>(q: Queue<T>): Queue<T> {
    Reassessed(q.(items := [], index := map[], processed := q.processed + |q.items|, droppedHold := false))
  }

  // ---- what every operation keeps ----------------------------------------------------------

  /** The index and the list say the same thing, and so no key occurs twice. */
  predicate Agrees<T>(items: seq<Item<T>>, index: map<string, nat>) {
    && (forall i :: 0 <= i < |items| ==> items[i].key in index && index[items[i].key] == i)
    && (forall key :: key in index ==> index[key] < |items| && items[index[key]].key == key)
  }

  predicate Sound<T>(q: Queue<T>) {
    && (q.overflow.Coalesce? ==> Agrees(q.items, q.index) && |q.items| <= Max(1, q.capacity))
    && (q.overflow.NeverDrop? ==> q.index == map[] && q.dropped == q.coalesced == 0 && !q.droppedHold)
    && q.enqueued == q.processed + q.dropped + q.coalesced + |q.items|
    && (q.capacity >= 0 ==> (q.overloaded <==> |q.items| > q.capacity || q.droppedHold))
    && (q.droppedHold ==> q.overloaded)
  }

  predicate DistinctKeys<T>(items: seq<Item<T>>) {
    forall i, j :: 0 <= i < j < |items| ==> items[i].key != items[j].key
  }

  lemma {:induction false} IndexAgrees<T>(items: seq<Item<T>>)
    requires DistinctKeys(items)
    ensures Agrees(items, IndexOf(items))
  {
    if items != [] {
      IndexAgrees(items[..|items| - 1]);
    }
  }

  lemma AgreementIsDistinct<T>(items: seq<Item<T>>, index: map<string, nat>)
    requires Agrees(items, index)
    ensures DistinctKeys(items)
  {
  }

  lemma DropKeepsAgreement<T>(q: Queue<T>)
    requires q.overflow.Coalesce? && Agrees(q.items, q.index)
    ensures Agrees(WithoutOldest(q).items, WithoutOldest(q).index)
  {
    AgreementIsDistinct(q.items, q.index);
    if q.items != [] {
      IndexAgrees(q.items[1..]);
    }
  }

  lemma AppendKeepsAgreement<T>(q: Queue<T>, item: Item<T>)
    requires q.overflow.Coalesce? && Agrees(q.items, q.index) && item.key !in q.index
    ensures Agrees(Appended(q, item).items, Appended(q, item).index)
  {
    DropKeepsAgreement(q);
    var q1 := WithoutOldest(q);
    assert forall j :: 0 <= j < |q1.items| ==> q1.items[j] in q.items;
  }

  lemma EnqueueKeepsSound<T>(q: Queue<T>, value: T, key: string, now: int)
    requires Sound(q)
    ensures Sound(Enqueued(q, value, key, now))
  {
    if q.overflow.Coalesce? && key !in q.index {
      AppendKeepsAgreement(q.(enqueued := q.enqueued + 1), Item(key, value, now));
    }
  }

  lemma DequeueKeepsSound<T>(q: Queue<T>)
    requires Sound(q)
    ensures Sound(Dequeued(q))
  {
    if q.overflow.Coalesce? && q.items != [] {
      AgreementIsDistinct(q.items, q.index);
      IndexAgrees(q.items[1..]);
    }
  }

  // ---- runs --------------------------------------------------------------------------------

  datatype Op<T> = Put(value: T, key: string, now: int) | Take | TakeAll

  /** The queue, everything ever put, and everything delivered, oldest first. */
  datatype World<T> = World(q: Queue<T>, log: seq<Item<T>>, delivered: seq<Item<T>>)

  function Step<T>(w: World<T>, op: Op<T>): World<T> {
    match op
    case Put(value, key, now) => World(Enqueued(w.q, value, key, now), w.log + [Item(key, value, now)], w.delivered)
    case Take =>
      if w.q.items == [] then w else World(Dequeued(w.q), w.log, w.delivered + [w.q.items[0]])
    case TakeAll => World(Drained(w.q), w.log, w.delivered + w.q.items)
  }

  function Run<T>(w: World<T>, ops: seq<Op<T>>): World<T> {
    if ops == [] then w else Step(Run(w, ops[..|ops| - 1]), ops[|ops| - 1])
  }

  function Start<T>(overflow: Overflow, capacity: int): World<T> {
    World(Empty(overflow, capacity), [], [])
  }

  function LatestFor<T>(log: seq<Item<T>>, key: string): Option<T> {
    if log == [] then None
    else if log[|log| - 1].key == key then Some(log[|log| - 1].value)
    else LatestFor(log[..|log| - 1], key)
  }

  ghost predicate Faithful<T>(w: World<T>) {
    && Sound(w.q)
    && (w.q.overflow.Coalesce? ==>
          forall i :: 0 <= i < |w.q.items| ==> LatestFor(w.log, w.q.items[i].key) == Some(w.q.items[i].value))
    && (w.q.overflow.NeverDrop? ==> w.delivered + w.q.items == w.log)
  }

  lemma PutKeepsFaithful<T>(w: World<T>, value: T, key: string, now: int)
    requires Faithful(w)
    ensures Faithful(Step(w, Put(value, key, now)))
  {
    var w' := Step(w, Put(value, key, now));
    EnqueueKeepsSound(w.q, value, key, now);
    assert w'.log[..|w'.log| - 1] == w.log;
    if w.q.overflow.Coalesce? {
      forall i | 0 <= i < |w'.q.items|
        ensures LatestFor(w'.log, w'.q.items[i].key) == Some(w'.q.items[i].value)
      {
        PutKeepsOthers(w.q, value, key, now, i);
      }
    }
  }

  /** After a put, a slot holds the new value under its key or an item that was there before. */
  lemma PutKeepsOthers<T>(q: Queue<T>, value: T, key: string, now: int, i: nat)
    requires Sound(q) && q.overflow.Coalesce? && i < |Enqueued(q, value, key, now).items|
    ensures var item := Enqueued(q, value, key, now).items[i];
            if item.key == key then item.value == value
            else exists j :: 0 <= j < |q.items| && q.items[j] == item
  {
    var item := Enqueued(q, value, key, now).items[i];
    if key !in q.index && item.key != key {
      assert item in q.items;
    } else if key in q.index && item.key != key {
      assert q.items[i] == item;
    }
  }

  lemma TakeKeepsFaithful<T>(w: World<T>)
    requires Faithful(w)
    ensures Faithful(Step(w, Take))
  {
    DequeueKeepsSound(w.q);
    if w.q.items != [] {
      assert w.q.items == [w.q.items[0]] + w.q.items[1..];
    }
  }

  lemma {:induction false} RunKeepsFaithful<T>(w: World<T>, ops: seq<Op<T>>)
    requires Faithful(w)
    ensures Faithful(Run(w, ops))
  {
    if ops != [] {
      var before := Run(w, ops[..|ops| - 1]);
      RunKeepsFaithful(w, ops[..|ops| - 1]);
      match ops[|ops| - 1]
      case Put(value, key, now) => PutKeepsFaithful(before, value, key, now);
      case Take => TakeKeepsFaithful(before);
      case TakeAll =>
    }
  }

  lemma StepKeepsPolicy<T>(w: World<T>, op: Op<T>)
    ensures Step(w, op).q.overflow == w.q.overflow && Step(w, op).q.capacity == w.q.capacity
  {
  }

  lemma {:induction false} RunKeepsPolicy<T>(w: World<T>, ops: seq<Op<T>>)
    ensures Run(w, ops).q.overflow == w.q.overflow && Run(w, ops).q.capacity == w.q.capacity
  {
    if ops != [] {
      RunKeepsPolicy(w, ops[..|ops| - 1]);
      StepKeepsPolicy(Run(w, ops[..|ops| - 1]), ops[|ops| - 1]);
    }
  }

  /** Never-drop is a plain first-in first-out queue: nothing lost, merged or reordered, whatever the pressure. */
  lemma NeverDropIsFifo<T>(capacity: int, ops: seq<Op<T>>)
    ensures var w := Run(Start<T>(NeverDrop, capacity), ops);
            w.delivered + w.q.items == w.log && w.q.dropped == 0 && w.q.coalesced == 0
  {
    RunKeepsFaithful(Start<T>(NeverDrop, capacity), ops);
    RunKeepsPolicy(Start<T>(NeverDrop, capacity), ops);
  }

  /**
   * Coalescing keeps one slot per key within a positive capacity, and whatever is delivered next is
   * the latest value put for its key.
   */
  lemma CoalesceDeliversLatest<T>(capacity: int, ops: seq<Op<T>>)
    requires capacity > 0
    ensures var w := Run(Start<T>(Coalesce, capacity), ops);
            && |w.q.items| <= capacity
            && DistinctKeys(w.q.items)
            && Agrees(w.q.items, w.q.index)
            && (forall i :: 0 <= i < |w.q.items| ==> LatestFor(w.log, w.q.items[i].key) == Some(w.q.items[i].value))
  {
    RunKeepsFaithful(Start<T>(Coalesce, capacity), ops);
    RunKeepsPolicy(Start<T>(Coalesce, capacity), ops);
    AgreementIsDistinct(Run(Start<T>(Coalesce, capacity), ops).q.items, Run(Start<T>(Coalesce, capacity), ops).q.index);
  }

  /** In both disciplines every item is accounted for, and overload is exactly pressure or an unseen drop. */
  lemma EveryItemIsAccountedFor<T>(overflow: Overflow, capacity: int, ops: seq<Op<T>>)
    ensures var q := Run(Start<T>(overflow, capacity), ops).q;
            && q.enqueued == q.processed + q.dropped + q.coalesced + |q.items|
            && (capacity >= 0 ==> (q.overloaded <==> |q.items| > capacity || q.droppedHold))
  {
    RunKeepsFaithful(Start<T>(overflow, capacity), ops);
    RunKeepsPolicy(Start<T>(overflow, capacity), ops);
  }

  /** Every operation but a plain take looks at the pressure. */
  predicate Looked<T>(ops: seq<Op<T>>) {
    ops != [] && (!ops[|ops| - 1].Take? || Looked(ops[..|ops| - 1]))
  }

  /** Even an empty queue is above a negative capacity. */
  lemma LookingFlags<T>(w: World<T>, op: Op<T>)
    requires w.q.capacity < 0 && (!w.q.overloaded ==> w.q.items == [])
    ensures var q := Step(w, op).q;
            (q.overloaded <==> w.q.overloaded || !op.Take?) && (!q.overloaded ==> q.items == [])
  {
  }

  lemma {:induction false} OverloadedOnceLooked<T>(overflow: Overflow, capacity: int, ops: seq<Op<T>>)
    requires capacity < 0
    ensures var q := Run(Start<T>(overflow, capacity), ops).q;
            (q.overloaded <==> Looked(ops)) && (!q.overloaded ==> q.items == [])
  {
    if ops != [] {
      var before, op := ops[..|ops| - 1], ops[|ops| - 1];
      OverloadedOnceLooked(overflow, capacity, before);
      RunKeepsPolicy(Start<T>(overflow, capacity), before);
      LookingFlags(Run(Start<T>(overflow, capacity), before), op);
    }
  }

  /**
   * Exactly when the overload flag tells the truth: with a capacity of at least zero always, and
   * with a negative one only once an operation has looked, because an empty queue starts unflagged.
   */
  lemma OverloadIsExactIff<T>(overflow: Overflow, capacity: int, ops: seq<Op<T>>)
    ensures var q := Run(Start<T>(overflow, capacity), ops).q;
            (q.overloaded <==> |q.items| > capacity || q.droppedHold) <==> (capacity >= 0 || Looked(ops))
  {
    if capacity >= 0 {
      EveryItemIsAccountedFor(overflow, capacity, ops);
    } else {
      OverloadedOnceLooked(overflow, capacity, ops);
    }
  }

  // ---- what a put does to the list ---------------------------------------------------------

  predicate Holds<T>(items: seq<Item<T>>, key: string) {
    exists i :: 0 <= i < |items| && items[i].key == key
  }

  lemma HoldsIffIndexed<T>(q: Queue<T>, key: string)
    requires Agrees(q.items, q.index)
    ensures Holds(q.items, key) <==> key in q.index
  {
    if key in q.index {
      assert q.items[q.index[key]].key == key;
    }
  }

  /** Below capacity a new key goes last, and nothing moves or leaves. */
  lemma PutBelowCapacity<T>(q: Queue<T>, value: T, key: string, now: int)
    requires Sound(q) && q.overflow.Coalesce? && !Holds(q.items, key) && |q.items| < q.capacity
    ensures var q' := Enqueued(q, value, key, now);
            && q'.items == q.items + [Item(key, value, now)]
            && q'.dropped == q.dropped && q'.coalesced == q.coalesced && q'.enqueued == q.enqueued + 1
            && (q'.overloaded ==> q.overloaded)
  {
    HoldsIffIndexed(q, key);
  }

  /** At capacity exactly the head makes room, and that is not silent; an empty queue has nobody to drop. */
  lemma PutAtCapacity<T>(q: Queue<T>, value: T, key: string, now: int)
    requires Sound(q) && q.overflow.Coalesce? && !Holds(q.items, key) && |q.items| >= q.capacity
    ensures var q' := Enqueued(q, value, key, now);
            && q'.coalesced == q.coalesced && q'.enqueued == q.enqueued + 1
            && if q.items == [] then q'.items == [Item(key, value, now)] && q'.dropped == q.dropped
               else
                 && q'.items == q.items[1..] + [Item(key, value, now)]
                 && q'.dropped == q.dropped + 1 && q'.overloaded && q'.droppedHold
  {
    HoldsIffIndexed(q, key);
  }

  /** A repeated key keeps its slot and its enqueue time; only its value changes. */
  lemma PutAgain<T>(q: Queue<T>, value: T, now: int, i: nat)
    requires Sound(q) && q.overflow.Coalesce? && i < |q.items|
    ensures var q' := Enqueued(q, value, q.items[i].key, now);
            && q'.items == q.items[i := Item(q.items[i].key, value, q.items[i].enqueuedAt)]
            && q'.dropped == q.dropped && q'.coalesced == q.coalesced + 1 && q'.enqueued == q.enqueued + 1
  {
  }

  /** Never-drop appends whatever the depth. */
  lemma PutNeverDrops<T>(q: Queue<T>, value: T, key: string, now: int)
    requires Sound(q) && q.overflow.NeverDrop?
    ensures var q' := Enqueued(q, value, key, now);
            q'.items == q.items + [Item(key, value, now)] && q'.dropped == q.dropped && q'.enqueued == q.enqueued + 1
  {
  }

  /** A take hands out the head and observes a latched drop; overload is then exactly pressure. */
  lemma TakeOutcome<T>(q: Queue<T>)
    requires Sound(q) && q.items != []
    ensures var q' := Dequeued(q);
            && q'.items == q.items[1..] && q'.processed == q.processed + 1
            && q'.dropped == q.dropped && !q'.droppedHold
            && (q'.overloaded <==> |q'.items| > q.capacity)
  {
  }

  /** Draining hands out everything and observes a latched drop. */
  lemma DrainOutcome<T>(q: Queue<T>)
    requires Sound(q)
    ensures var q' := Drained(q);
            && q'.items == [] && q'.index == map[] && q'.processed == q.processed + |q.items|
            && q'.dropped == q.dropped && !q'.droppedHold
            && (q'.overloaded <==> 0 > q.capacity)
  {
  }

  /** One overload event is counted exactly when the flag rises. */
  lemma OverloadEventIffRaised<T>(w: World<T>, op: Op<T>)
    requires Sound(w.q)
    ensures var q, q' := w.q, Step(w, op).q;
            q'.overloadEvents == q.overloadEvents + if q'.overloaded && !q.overloaded then 1 else 0
  {
  }

  // ---- nothing is lost without pressure ----------------------------------------------------

  lemma PutHolds<T>(w: World<T>, value: T, key: string, now: int)
    requires Faithful(w) && w.q.overflow.Coalesce?
    ensures Holds(Step(w, Put(value, key, now)).q.items, key)
  {
    var items := Step(w, Put(value, key, now)).q.items;
    if Holds(w.q.items, key) {
      var i :| 0 <= i < |w.q.items| && w.q.items[i].key == key;
      PutAgain(w.q, value, now, i);
      assert items[i].key == key;
    } else if |w.q.items| < w.q.capacity {
      PutBelowCapacity(w.q, value, key, now);
      assert items[|items| - 1].key == key;
    } else {
      PutAtCapacity(w.q, value, key, now);
      assert items[|items| - 1].key == key;
    }
  }

  /** Room for a key: it has a slot already, or there is one left. */
  predicate Room<T>(q: Queue<T>, key: string) {
    Holds(q.items, key) || |q.items| < q.capacity
  }

  /** Every put of the run found room. */
  predicate NoPressure<T>(w: World<T>, ops: seq<Op<T>>) {
    forall i :: 0 <= i < |ops| && ops[i].Put? ==> Room(Run(w, ops[..i]).q, ops[i].key)
  }

  lemma PutKeepsHolding<T>(q: Queue<T>, value: T, key: string, now: int, kept: string)
    requires Sound(q) && q.overflow.Coalesce? && Room(q, key) && Holds(q.items, kept)
    ensures Holds(Enqueued(q, value, key, now).items, kept)
  {
    var k :| 0 <= k < |q.items| && q.items[k].key == kept;
    var items := Enqueued(q, value, key, now).items;
    if Holds(q.items, key) {
      var i :| 0 <= i < |q.items| && q.items[i].key == key;
      PutAgain(q, value, now, i);
      assert items[k].key == kept;
    } else {
      PutBelowCapacity(q, value, key, now);
      assert items[k] == q.items[k];
    }
  }

  lemma TakeKeepsOrDelivers<T>(w: World<T>, op: Op<T>, kept: string)
    requires op.Take? || op.TakeAll?
    requires Holds(w.q.items, kept)
    ensures w.delivered <= Step(w, op).delivered
    ensures Holds(Step(w, op).q.items, kept) || Holds(Step(w, op).delivered[|w.delivered|..], kept)
  {
    var k :| 0 <= k < |w.q.items| && w.q.items[k].key == kept;
    var w' := Step(w, op);
    var out := w'.delivered[|w.delivered|..];
    if op.TakeAll? {
      assert out == w.q.items;
    } else if k == 0 {
      assert out == [w.q.items[0]];
      assert out[0].key == kept;
    } else {
      assert w'.q.items[k - 1] == w.q.items[k];
    }
  }

  lemma HoldsLater<T>(a: seq<Item<T>>, b: seq<Item<T>>, from: nat, kept: string)
    requires from <= |a| && a <= b && Holds(a[from..], kept)
    ensures Holds(b[from..], kept)
  {
    var i :| 0 <= i < |a[from..]| && a[from..][i].key == kept;
    assert b[from..][i] == a[from..][i];
  }

  lemma HoldsNew<T>(a: seq<Item<T>>, b: seq<Item<T>>, from: nat, kept: string)
    requires from <= |a| && a <= b && Holds(b[|a|..], kept)
    ensures Holds(b[from..], kept)
  {
    var i :| 0 <= i < |b[|a|..]| && b[|a|..][i].key == kept;
    assert b[from..][i + |a| - from] == b[|a|..][i];
  }

  /** Nothing is lost without pressure: a queued key stays queued until it is delivered. */
  lemma {:induction false} QueuedUntilDelivered<T>(w: World<T>, ops: seq<Op<T>>, key: string)
    requires Faithful(w) && w.q.overflow.Coalesce? && Holds(w.q.items, key) && NoPressure(w, ops)
    ensures w.delivered <= Run(w, ops).delivered
    ensures Holds(Run(w, ops).q.items, key) || Holds(Run(w, ops).delivered[|w.delivered|..], key)
  {
    if ops != [] {
      var before, op := ops[..|ops| - 1], ops[|ops| - 1];
      var mid, end := Run(w, before), Run(w, ops);
      assert forall i :: 0 <= i < |before| ==> before[..i] == ops[..i];
      QueuedUntilDelivered(w, before, key);
      RunKeepsFaithful(w, before);
      RunKeepsPolicy(w, before);
      assert mid.delivered <= end.delivered;
      if !Holds(mid.q.items, key) {
        HoldsLater(mid.delivered, end.delivered, |w.delivered|, key);
      } else if op.Put? {
        assert ops[..|ops| - 1] == before;
        PutKeepsHolding(mid.q, op.value, op.key, op.now, key);
      } else {
        TakeKeepsOrDelivers(mid, op, key);
        if !Holds(end.q.items, key) {
          HoldsNew(mid.delivered, end.delivered, |w.delivered|, key);
        }
      }
    }
  }

  /** So every key put is still queued or was delivered since, unless a later put met a full queue. */
  lemma PutIsQueuedOrDelivered<T>(w: World<T>, value: T, key: string, now: int, ops: seq<Op<T>>)
    requires Faithful(w) && w.q.overflow.Coalesce? && NoPressure(Step(w, Put(value, key, now)), ops)
    ensures var put := Step(w, Put(value, key, now));
            var end := Run(put, ops);
            Holds(end.q.items, key) || (put.delivered <= end.delivered && Holds(end.delivered[|put.delivered|..], key))
  {
    PutHolds(w, value, key, now);
    PutKeepsFaithful(w, value, key, now);
    StepKeepsPolicy(w, Put(value, key, now));
    QueuedUntilDelivered(Step(w, Put(value, key, now)), ops, key);
  }
}
