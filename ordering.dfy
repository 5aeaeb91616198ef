/** The ordering every store keeps: non-increasing priority from the front,
    established by sorting the whole slice after each change. */
module Ordering {
  import opened QueueItem

  /** Every item is at least as urgent as every item behind it. */
  ghost predicate Descending(s: seq<Item>) {
    forall i, j :: 0 <= i < j < |s| ==> s[i].priority >= s[j].priority
  }

  /** `x` is one of the items of `store` and none of them has a higher priority. */
  ghost predicate IsMax(x: Item, store: multiset<Item>) {
    x in store && forall y :: y in store ==> y.priority <= x.priority
  }

  /** The front of a descending slice is a maximum of its contents. */
  lemma HeadIsMax(s: seq<Item>)
    requires Descending(s) && |s| > 0
    ensures IsMax(s[0], multiset(s))
  {
  }

  /** Exchanges two cells of the array and nothing else. */
  method Swap(a: array<Item>, i: nat, j: nat)
    requires i < a.Length && j < a.Length
    modifies a
    ensures a[..] == old(a[..])[i := old(a[j])][j := old(a[i])]
    ensures multiset(a[..]) == old(multiset(a[..]))
  {
    a[i], a[j] := a[j], a[i];
  }

  /** Sorts the array in place by non-increasing priority. Go's `sort.Slice`
      is not stable, so the contract fixes only the outcome: a descending
      permutation of the input. This is an insertion sort. */
  method SortByPriority(a: array<Item>)
    modifies a
    ensures Descending(a[..])
    ensures multiset(a[..]) == old(multiset(a[..]))
  {
    var i := 0;
    while i < a.Length
      invariant 0 <= i <= a.Length
      invariant forall k, m :: 0 <= k < m < i ==> a[k].priority >= a[m].priority
      invariant multiset(a[..]) == old(multiset(a[..]))
    {
      var j := i;
      while j > 0 && a[j - 1].priority < a[j].priority
        invariant 0 <= j <= i
        invariant forall k, m :: 0 <= k < m <= i && k != j && m != j ==> a[k].priority >= a[m].priority
        invariant forall m :: j < m <= i ==> a[j].priority >= a[m].priority
        invariant multiset(a[..]) == old(multiset(a[..]))
      {
        Swap(a, j - 1, j);
        j := j - 1;
      }
      i := i + 1;
    }
  }
}
