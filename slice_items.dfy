/** The ordered store of slice_priority_queue_items.go (a second `SlicePriorityQueueItems`): a slice kept sorted
    by non-increasing priority, re-sorted after every change. Its `Get` reads
    the front without a guard, so callers must not call it on an empty store. */
module SliceItems {
  import opened QueueItem
  import opened Ordering

  class SlicePriorityQueueItems {
    var items: seq<Item>

    /** The class invariant: the slice is sorted, front first. */
    ghost predicate Valid()
      reads this
    {
      Descending(items)
    }

    constructor ()
      ensures Valid() && items == []
    {
      items := [];
    }

    /** Re-sorts the slice: some descending permutation of what it held. */
    method Order()
      modifies this
      ensures Descending(items)
      ensures |items| == |old(items)|
      ensures multiset(items) == old(multiset(items))
    {
      var s := items;
      var a := new Item[|s|](k requires 0 <= k < |s| => s[k]);
      assert a[..] == s;
      SortByPriority(a);
      items := a[..];
    }

    /** Appends the item and re-sorts. */
    method Insert(item: Item)
      modifies this
      ensures Valid()
      ensures |items| == |old(items)| + 1
      ensures multiset(items) == old(multiset(items)) + multiset{item}
    {
      items := items + [item];
      Order();
    }

    /** Pops the front (a maximum) and re-sorts. */
    method Get() returns (item: Item)
      requires Valid()
      requires |items| > 0
      modifies this
      ensures Valid()
      ensures item == old(items)[0]
      ensures IsMax(item, old(multiset(items)))
      ensures |items| == |old(items)| - 1
      ensures multiset(items) == old(multiset(items)) - multiset{item}
    {
      HeadIsMax(items);
      item := items[0];
      assert items == [item] + items[1..];
      items := items[1..];
      Order();
    }

    /** The number of stored items. */
    method Len() returns (n: int)
      ensures n == |items|
    {
      n := |items|;
    }
  }
}
