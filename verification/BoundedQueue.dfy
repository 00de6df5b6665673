/** The queue object itself. */
module BoundedQueues {
  import opened Prelude
  import opened QueueModel

  class BoundedQueue<T> {
    const overflow: Overflow
    const capacity: int
    var items: seq<Item<T>>
    var indexByKey: map<string, nat>
    var overloaded: bool
    var droppedHold: bool
    var enqueuedCount: nat
    var processedCount: nat
    var droppedCount: nat
    var coalescedCount: nat
    var overloadEventCount: nat

    ghost function View(): Queue<T>
      reads this
    {
      Queue(overflow, capacity, items, indexByKey, overloaded, droppedHold,
            enqueuedCount, processedCount, droppedCount, coalescedCount, overloadEventCount)
    }

    ghost predicate Valid()
      reads this
    {
      Sound(View())
    }

    constructor (overflow: Overflow, capacity: int)
      ensures Valid() && View() == Empty(overflow, capacity)
    {
      this.overflow, this.capacity := overflow, capacity;
      items, indexByKey, overloaded, droppedHold := [], map[], false, false;
      enqueuedCount, processedCount, droppedCount, coalescedCount, overloadEventCount := 0, 0, 0, 0, 0;
    }

    method Reassess()
      modifies this`overloaded, this`overloadEventCount
      ensures View() == Reassessed(old(View()))
    {
      var over := |items| > capacity;
      if over && !overloaded {
        overloaded, overloadEventCount := true, overloadEventCount + 1;
      } else if !over && overloaded && |items| <= capacity && !droppedHold {
        overloaded := false;
      }
    }

    /** Rebuild the index after the head left. */
    method Reindex()
      modifies this`indexByKey
      ensures indexByKey == IndexOf(items)
    {
      var index: map<string, nat> := map[];
      for i := 0 to |items|
        invariant index == IndexOf(items[..i])
      {
        assert items[..i + 1][..i] == items[..i];
        index := index[items[i].key := i];
      }
      assert items[..|items|] == items;
      indexByKey := index;
    }

    method DropOldest()
      modifies this
      ensures View() == WithoutOldest(old(View()))
    {
      if |items| == 0 {
        return;
      }
      items := items[1..];
      Reindex();
      droppedCount, droppedHold := droppedCount + 1, true;
      if !overloaded {
        overloaded, overloadEventCount := true, overloadEventCount + 1;
      }
    }

    method Append(item: Item<T>)
      modifies this
      ensures View() == Appended(old(View()), item)
    {
      if |items| >= capacity {
        DropOldest();
      }
      indexByKey := indexByKey[item.key := |items|];
      items := items + [item];
    }

    method Insert(value: T, key: string, now: int)
      requires overflow.Coalesce? ==> Agrees(items, indexByKey)
      modifies this
      ensures View() == Inserted(old(View()), value, key, now)
    {
      if overflow.NeverDrop? {
        items := items + [Item(key, value, now)];
      } else if key in indexByKey {
        var i := indexByKey[key];
        items := items[i := items[i].(value := value)];
        coalescedCount := coalescedCount + 1;
      } else {
        Append(Item(key, value, now));
      }
    }

    method InsertAndReassess(value: T, key: string, now: int)
      requires overflow.Coalesce? ==> Agrees(items, indexByKey)
      modifies this
      ensures View() == Enqueued(old(View()), value, key, now)
    {
      ghost var q := View().(enqueued := enqueuedCount + 1);
      enqueuedCount := enqueuedCount + 1;
      assert View() == q;
      Insert(value, key, now);
      assert View() == Inserted(q, value, key, now);
      Reassess();
    }

    method Enqueue(value: T, key: string, now: int)
      requires Valid()
      modifies this
      ensures Valid() && View() == Enqueued(old(View()), value, key, now)
    {
      EnqueueKeepsSound(View(), value, key, now);
      InsertAndReassess(value, key, now);
    }

    method Dequeue() returns (value: Option<T>)
      requires Valid()
      modifies this
      ensures Valid() && View() == Dequeued(old(View()))
      ensures value == if old(items) == [] then None else Some(old(items)[0].value)
    {
      DequeueKeepsSound(View());
      if |items| == 0 {
        return None;
      }
      value := Some(items[0].value);
      items := items[1..];
      processedCount, droppedHold := processedCount + 1, false;
      if overflow.Coalesce? {
        Reindex();
      }
      Reassess();
    }

    method DrainAll() returns (values: seq<T>)
      requires Valid()
      modifies this
      ensures Valid() && View() == Drained(old(View()))
      ensures |values| == |old(items)| && forall i :: 0 <= i < |values| ==> values[i] == old(items)[i].value
    {
      values := seq(|items|, i requires 0 <= i < |items| reads this => items[i].value);
      processedCount := processedCount + |items|;
      items, indexByKey, droppedHold := [], map[], false;
      Reassess();
    }
  }
}
