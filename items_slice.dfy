/** The ordered store of priority_queue_items_slice.go: a slice kept sorted by
    non-increasing priority, re-sorted after every change. This is the store
    the queue uses. Its `Get` is guarded and yields `nil` on an empty slice. */
module ItemsSlice {
  import opened QueueItem
  import opened Ordering

  class SlicePriorityQueueItems {
    var items: seq<Item>

    /** The class invariant: the slice is sorted, front first. */
    ghost predicate Valid()
      reads this
    {
      Descending(items)
    }

    constructor ()
      ensures Valid() && items == []
    {
      items := [];
    }

    /** Re-sorts the slice: some descending permutation of what it held. */
    method Order()
      modifies this
      ensures Descending(items)
      ensures |items| == |old(items)|
      ensures multiset(items) == old(multiset(items))
    {
      var s := items;
      var a := new Item[|s|](k requires 0 <= k < |s| => s[k]);
      assert a[..] == s;
      SortByPriority(a);
      items := a[..];
    }

    /** Appends the item and re-sorts. */
    method Insert(item: Item)
      modifies this
      ensures Valid()
      ensures |items| == |old(items)| + 1
      ensures multiset(items) == old(multiset(items)) + multiset{item}
    {
      items := items + [item];
      Order();
    }

    /** Pops the front (a maximum) and re-sorts; `None` when the slice is empty. */
    method Get() returns (item: Option<Item>)
      requires Valid()
      modifies this
      ensures Valid()
      ensures old(items) == [] ==> item == None && items == old(items)
      ensures old(items) != [] ==>
        && item == Some(old(items)[0])
        && IsMax(item.value, old(multiset(items)))
        && |items| == |old(items)| - 1
        && multiset(items) == old(multiset(items)) - multiset{item.value}
    {
      if |items| > 0 {
        HeadIsMax(items);
        var front := items[0];
        assert items == [front] + items[1..];
        items := items[1..];
        Order();
        return Some(front);
      }
      return None;
    }

    /** The number of stored items. */
    method Len() returns (n: int)
      ensures n == |items|
    {
      n := |items|;
    }
  }
}
