/** The coordinator of queue.go (`priorityQueue`). Every public operation runs
    under one lock in the source, so each is one atomic transition here.
    The abstract state is `QueueView`; each operation has a specification
    function on it, and the class's methods are proved against those. */
module Queue {
  import opened QueueItem
  import opened Ordering
  import ItemsSlice

  /** The context handed out with each checkout, together with its cancel
      function: cancelling marks it, and cancelling twice is harmless. */
  class Context {
    var cancelled: bool

    constructor ()
      ensures !cancelled
    {
      cancelled := false;
    }

    method Cancel()
      modifies this
      ensures cancelled
    {
      cancelled := true;
    }
  }

  /** The queue's state with the ordered store seen as a multiset (the order
      among equal priorities is unspecified). */
  datatype QueueView = QueueView(
    store: multiset<Item>,
    waiting: map<Handle, Item>,
    inProgress: set<Handle>,
    cancelFns: map<Handle, Context>,
    closed: bool,
    drainClosed: bool)

  /** The bookkeeping invariant the operations keep:
      - a cancel function is registered exactly for the handles in progress,
        so the cancel lookup in Insert always finds one;
      - `waiting` is keyed by each item's own handle;
      - a waiting handle that is not checked out has its latest submission
        in the store, so no submission is lost. */
  ghost predicate Inv(v: QueueView) {
    && v.cancelFns.Keys == v.inProgress
    && (forall h :: h in v.waiting ==> v.waiting[h].handle == h)
    && (forall h :: h in v.waiting && h !in v.inProgress ==> v.waiting[h] in v.store)
  }

  /** The state built by the constructor. */
  ghost function Init(drainClosed: bool): QueueView {
    QueueView(multiset{}, map[], {}, map[], false, drainClosed)
  }

  /** Insert: dropped on a closed queue; otherwise the item becomes the
      handle's latest submission, and it is added to the store unless the
      handle is checked out (then the checkout's context is cancelled and the
      submission waits for Done). A handle already waiting is NOT skipped. */
  ghost function InsertSpec(v: QueueView, item: Item): QueueView {
    if v.closed then v
    else if item.handle in v.inProgress then v.(waiting := v.waiting[item.handle := item])
    else v.(waiting := v.waiting[item.handle := item], store := v.store + multiset{item})
  }

  /** Get waits while the store is empty and the queue is open. */
  ghost predicate Blocks(v: QueueView) {
    |v.store| == 0 && !v.closed
  }

  /** Get reports "no more work" on a closed queue, unless it drains and
      items remain. */
  ghost predicate Stops(v: QueueView) {
    v.closed && (!v.drainClosed || |v.store| == 0)
  }

  /** A successful Get of `item`: it leaves the store, its handle moves from
      waiting to in progress, and `ctx` is registered as its context. */
  ghost function DequeueSpec(v: QueueView, item: Item, ctx: Context): QueueView {
    v.(store := v.store - multiset{item},
       waiting := v.waiting - {item.handle},
       inProgress := v.inProgress + {item.handle},
       cancelFns := v.cancelFns[item.handle := ctx])
  }

  /** Done: the handle leaves in-progress and its context is forgotten; if a
      submission for it is waiting, that latest submission joins the store. */
  ghost function DoneSpec(v: QueueView, item: Item): QueueView {
    var h := item.handle;
    var v' := v.(inProgress := v.inProgress - {h}, cancelFns := v.cancelFns - {h});
    if h in v.waiting then v'.(store := v.store + multiset{v.waiting[h]}) else v'
  }

  /** Close sets the flag and nothing else. */
  ghost function CloseSpec(v: QueueView): QueueView {
    v.(closed := true)
  }

  lemma InitInv(drainClosed: bool)
    ensures Inv(Init(drainClosed))
  {
  }

  lemma InsertKeepsInv(v: QueueView, item: Item)
    requires Inv(v)
    ensures Inv(InsertSpec(v, item))
  {
  }

  lemma DequeueKeepsInv(v: QueueView, item: Item, ctx: Context)
    requires Inv(v)
    ensures Inv(DequeueSpec(v, item, ctx))
  {
  }

  lemma DoneKeepsInv(v: QueueView, item: Item)
    requires Inv(v)
    ensures Inv(DoneSpec(v, item))
  {
  }

  lemma CloseKeepsInv(v: QueueView)
    requires Inv(v)
    ensures Inv(CloseSpec(v))
  {
  }

  class PriorityQueue {
    const items: ItemsSlice.SlicePriorityQueueItems
    var waiting: map<Handle, Item>
    var inProgress: set<Handle>
    var cancelFns: map<Handle, Context>
    var closed: bool
    const drainClosed: bool

    ghost function View(): QueueView
      reads this, items
    {
      QueueView(multiset(items.items), waiting, inProgress, cancelFns, closed, drainClosed)
    }

    /** The store is sorted, the bookkeeping invariant holds, and every
        checkout has a context of its own. */
    ghost predicate Valid()
      reads this, items
    {
      && items.Valid()
      && Inv(View())
      && (forall h1, h2 :: h1 in cancelFns && h2 in cancelFns && h1 != h2 ==> cancelFns[h1] != cancelFns[h2])
    }

    /** New. The source always passes `false` for `drainClosed`; here it is a
        parameter so that both Get behaviours on a closed queue are reachable. */
    constructor New(drainClosed: bool)
      ensures Valid() && fresh(items)
      ensures View() == Init(drainClosed)
    {
      items := new ItemsSlice.SlicePriorityQueueItems();
      waiting := map[];
      inProgress := {};
      cancelFns := map[];
      closed := false;
      this.drainClosed := drainClosed;
      InitInv(drainClosed);
    }

    method Insert(item: Item)
      requires Valid()
      modifies this, items, (if !closed && item.handle in cancelFns then {cancelFns[item.handle]} else {})
      ensures Valid()
      ensures View() == InsertSpec(old(View()), item)
      ensures !old(closed) && item.handle in old(inProgress) ==> old(cancelFns)[item.handle].cancelled
    {
      InsertKeepsInv(View(), item);
      if closed {
        return;
      }
      var handle := item.handle;
      waiting := waiting[handle := item];
      if handle in inProgress {
        var fn := cancelFns[handle];
        fn.Cancel();
        return;
      }
      items.Insert(item);
    }

    /** Get. Instead of waiting, a call that would wait returns `blocked` and
        changes nothing; the caller retries after another operation. */
    method Get() returns (blocked: bool, item: Option<Item>, ctx: Option<Context>, ok: bool)
      requires Valid()
      modifies this, items
      ensures Valid()
      ensures blocked == Blocks(old(View()))
      ensures ok == (!Blocks(old(View())) && !Stops(old(View())))
      ensures !ok ==> item == None && ctx == None && View() == old(View())
      ensures ok ==>
        && item.Some? && ctx.Some? && fresh(ctx.value) && !ctx.value.cancelled
        && IsMax(item.value, old(View()).store)
        && View() == DequeueSpec(old(View()), item.value, ctx.value)
    {
      var n := items.Len();
      if n == 0 && !closed {
        return true, None, None, false;
      }
      if closed && drainClosed {
        if n == 0 {
          return false, None, None, false;
        }
      } else if closed {
        return false, None, None, false;
      }
      ghost var before := View();
      var got := items.Get();
      var it := got.value;
      var handle := it.handle;
      waiting := waiting - {handle};
      inProgress := inProgress + {handle};
      ghost var fns := cancelFns;
      var c := new Context();
      assert forall h :: h in fns ==> fns[h] != c;
      cancelFns := cancelFns[handle := c];
      DequeueKeepsInv(before, it, c);
      return false, Some(it), Some(c), true;
    }

    method Done(item: Item)
      requires Valid()
      modifies this, items
      ensures Valid()
      ensures View() == DoneSpec(old(View()), item)
    {
      DoneKeepsInv(View(), item);
      var handle := item.handle;
      inProgress := inProgress - {handle};
      cancelFns := cancelFns - {handle};
      if handle in waiting {
        items.Insert(waiting[handle]);
      }
    }

    /** The number of queued items; a snapshot that changes nothing. */
    method Len() returns (n: int)
      ensures n == |View().store|
    {
      n := items.Len();
    }

    method Close()
      requires Valid()
      modifies this
      ensures Valid()
      ensures View() == CloseSpec(old(View()))
    {
      CloseKeepsInv(View());
      closed := true;
    }
  }
}
