/** Properties of the coordinator's transitions (module Queue): what each
    operation does to the bookkeeping, and what holds along any sequence of
    operations. */
module QueueProperties {
  import opened QueueItem
  import opened Ordering
  import opened Queue

  /** One atomic call. A Get that waits or reports "no more work" changes
      nothing, so only successful Gets appear; `ctx` is the context it creates. */
  datatype Op =
    | InsertOp(item: Item)
    | GetOp(item: Item, ctx: Context)
    | DoneOp(item: Item)
    | CloseOp

  ghost function Step(v: QueueView, op: Op): QueueView {
    match op
    case InsertOp(item) => InsertSpec(v, item)
    case GetOp(item, ctx) => DequeueSpec(v, item, ctx)
    case DoneOp(item) => DoneSpec(v, item)
    case CloseOp => CloseSpec(v)
  }

  /** A successful Get needs an open or draining queue with items, and takes a
      maximum-priority item; the other calls can always happen. */
  ghost predicate Legal(v: QueueView, op: Op) {
    op.GetOp? ==> !Blocks(v) && !Stops(v) && IsMax(op.item, v.store)
  }

  ghost function Run(v: QueueView, ops: seq<Op>): QueueView
    decreases |ops|
  {
    if ops == [] then v else Run(Step(v, ops[0]), ops[1..])
  }

  ghost predicate LegalRun(v: QueueView, ops: seq<Op>)
    decreases |ops|
  {
    ops == [] || (Legal(v, ops[0]) && LegalRun(Step(v, ops[0]), ops[1..]))
  }

  // ---- single operations -------------------------------------------------

  /** Insert on a closed queue changes nothing; on an open one it records the
      item as the handle's latest submission and leaves in-progress and the
      cancel functions alone. A handle not checked out gets one more store
      entry even when it is already waiting; a checked-out handle gets none,
      and its cancel function is registered for the lookup to find. */
  lemma InsertEffect(v: QueueView, item: Item)
    requires Inv(v)
    ensures v.closed ==> InsertSpec(v, item) == v
    ensures !v.closed ==>
      var v' := InsertSpec(v, item);
      && v'.waiting == v.waiting[item.handle := item]
      && v'.inProgress == v.inProgress && v'.cancelFns == v.cancelFns
      && v'.closed == v.closed && v'.drainClosed == v.drainClosed
      && (item.handle !in v.inProgress ==>
            v'.store == v.store + multiset{item} && |v'.store| == |v.store| + 1)
      && (item.handle in v.inProgress ==>
            v'.store == v.store && item.handle in v.cancelFns)
  {
  }

  /** On a closed queue that does not drain, Get reports "no more work" and
      does not wait, whatever the store holds. */
  lemma GetClosedNoDrain(v: QueueView)
    requires v.closed && !v.drainClosed
    ensures !Blocks(v) && Stops(v)
  {
  }

  /** On a closed draining queue, Get stops exactly when the store is empty. */
  lemma GetClosedDrain(v: QueueView)
    requires v.closed && v.drainClosed
    ensures !Blocks(v)
    ensures Stops(v) <==> |v.store| == 0
  {
  }

  /** A successful Get hands out an item at least as urgent as every item
      left, shrinks the store by one, and moves the handle from waiting to
      in progress with a registered context. */
  lemma DequeueEffect(v: QueueView, item: Item, ctx: Context)
    requires Inv(v) && IsMax(item, v.store)
    ensures var v' := DequeueSpec(v, item, ctx);
      && |v'.store| == |v.store| - 1
      && (forall y :: y in v'.store ==> y.priority <= item.priority)
      && item.handle !in v'.waiting
      && item.handle in v'.inProgress
      && item.handle in v'.cancelFns && v'.cancelFns[item.handle] == ctx
      && v'.closed == v.closed && v'.drainClosed == v.drainClosed
  {
  }

  /** Done retires the checkout; a waiting resubmission (the latest one)
      goes back into the store and stays waiting, otherwise the store and
      waiting are untouched. */
  lemma DoneEffect(v: QueueView, item: Item)
    requires Inv(v)
    ensures var v' := DoneSpec(v, item);
      && item.handle !in v'.inProgress && item.handle !in v'.cancelFns
      && v'.waiting == v.waiting
      && v'.closed == v.closed && v'.drainClosed == v.drainClosed
      && (item.handle in v.waiting ==>
            v'.store == v.store + multiset{v.waiting[item.handle]} && |v'.store| == |v.store| + 1)
      && (item.handle !in v.waiting ==> v'.store == v.store)
  {
  }

  /** Close is idempotent and only sets the flag. */
  lemma CloseEffect(v: QueueView)
    ensures CloseSpec(v).closed
    ensures CloseSpec(CloseSpec(v)) == CloseSpec(v)
    ensures CloseSpec(v).(closed := v.closed) == v
  {
  }

  // ---- sequences of operations ------------------------------------------

  lemma StepKeepsInv(v: QueueView, op: Op)
    requires Inv(v)
    ensures Inv(Step(v, op))
  {
    match op
    case InsertOp(item) => InsertKeepsInv(v, item);
    case GetOp(item, ctx) => DequeueKeepsInv(v, item, ctx);
    case DoneOp(item) => DoneKeepsInv(v, item);
    case CloseOp => CloseKeepsInv(v);
  }

  /** The invariant holds after any sequence of calls from the initial state,
      so the cancel lookup in Insert always finds an entry. */
  lemma {:induction false} RunKeepsInv(v: QueueView, ops: seq<Op>)
    requires Inv(v)
    ensures Inv(Run(v, ops))
    decreases |ops|
  {
    if ops != [] {
      StepKeepsInv(v, ops[0]);
      RunKeepsInv(Step(v, ops[0]), ops[1..]);
    }
  }

  lemma ReachableInv(drainClosed: bool, ops: seq<Op>)
    ensures Inv(Run(Init(drainClosed), ops))
  {
    InitInv(drainClosed);
    RunKeepsInv(Init(drainClosed), ops);
  }

  /** Once closed, a queue stays closed, keeps its drain setting, and admits
      no submission: its waiting map only loses entries. */
  lemma {:induction false} ClosedIsFinal(v: QueueView, ops: seq<Op>)
    requires v.closed
    ensures Run(v, ops).closed && Run(v, ops).drainClosed == v.drainClosed
    ensures Run(v, ops).waiting.Keys <= v.waiting.Keys
    ensures forall h :: h in Run(v, ops).waiting ==> Run(v, ops).waiting[h] == v.waiting[h]
    decreases |ops|
  {
    if ops != [] {
      ClosedIsFinal(Step(v, ops[0]), ops[1..]);
    }
  }

  /** Without draining, nothing is dispatched after Close: no successful Get
      can happen and the store never shrinks. */
  lemma {:induction false} NoDispatchAfterClose(v: QueueView, ops: seq<Op>)
    requires v.closed && !v.drainClosed && LegalRun(v, ops)
    ensures forall i :: 0 <= i < |ops| ==> !ops[i].GetOp?
    ensures v.store <= Run(v, ops).store
    decreases |ops|
  {
    if ops != [] {
      var v' := Step(v, ops[0]);
      assert !ops[0].GetOp?;
      assert v.store <= v'.store;
      NoDispatchAfterClose(v', ops[1..]);
      forall i | 0 <= i < |ops| ensures !ops[i].GetOp? {
        if i > 0 { assert ops[i] == ops[1..][i - 1]; }
      }
    }
  }

  ghost predicate OnlyGets(ops: seq<Op>) {
    forall i :: 0 <= i < |ops| ==> ops[i].GetOp?
  }

  /** Every item handed out by a run of Gets was in the store at its start. */
  lemma {:induction false} GetsDrawFromStore(v: QueueView, ops: seq<Op>)
    requires LegalRun(v, ops) && OnlyGets(ops)
    ensures forall i :: 0 <= i < |ops| ==> ops[i].item in v.store
    decreases |ops|
  {
    if ops != [] {
      var v' := Step(v, ops[0]);
      assert OnlyGets(ops[1..]) by {
        forall i | 0 <= i < |ops| - 1 ensures ops[1..][i].GetOp? {
          assert ops[1..][i] == ops[i + 1];
        }
      }
      GetsDrawFromStore(v', ops[1..]);
      forall i | 0 <= i < |ops| ensures ops[i].item in v.store {
        if i > 0 {
          assert ops[i] == ops[1..][i - 1];
          assert v'.store <= v.store;
        }
      }
    }
  }

  /** Successive Gets with nothing in between hand out items in
      non-increasing priority order. */
  lemma {:induction false} GetsInPriorityOrder(v: QueueView, ops: seq<Op>)
    requires LegalRun(v, ops) && OnlyGets(ops)
    ensures forall i, j :: 0 <= i < j < |ops| ==> ops[i].item.priority >= ops[j].item.priority
    decreases |ops|
  {
    if ops != [] {
      var v' := Step(v, ops[0]);
      assert OnlyGets(ops[1..]) by {
        forall i | 0 <= i < |ops| - 1 ensures ops[1..][i].GetOp? {
          assert ops[1..][i] == ops[i + 1];
        }
      }
      GetsInPriorityOrder(v', ops[1..]);
      GetsDrawFromStore(v, ops);
      forall i, j | 0 <= i < j < |ops| ensures ops[i].item.priority >= ops[j].item.priority {
        if i == 0 {
          assert IsMax(ops[0].item, v.store);
        } else {
          assert ops[i] == ops[1..][i - 1] && ops[j] == ops[1..][j - 1];
        }
      }
    }
  }

  /** Submitting a handle again while it is checked out neither grows the
      store nor is lost: Done puts the latest submission back. */
  lemma DeferredRequeue(v: QueueView, x: Item, again: Item, ctx: Context)
    requires Inv(v) && !v.closed && IsMax(x, v.store) && again.handle == x.handle
    ensures var v1 := DequeueSpec(v, x, ctx);
      var v2 := InsertSpec(v1, again);
      var v3 := DoneSpec(v2, x);
      && |v2.store| == |v1.store| == |v.store| - 1
      && v3.store == v.store - multiset{x} + multiset{again}
      && x.handle in v3.waiting && v3.waiting[x.handle] == again
      && x.handle !in v3.inProgress
  {
  }

  /** Two submissions of one handle before any Get leave two store entries,
      and the second can be handed out while the first is still checked out:
      the same handle is then in progress twice over. */
  lemma DuplicateSubmissionDoubleCheckout(a: Item, c1: Context, c2: Context)
    ensures var ops := [InsertOp(a), InsertOp(a), GetOp(a, c1), GetOp(a, c2)];
      var v := Run(Init(false), ops[..3]);
      && LegalRun(Init(false), ops)
      && a.handle in v.inProgress
      && Legal(v, ops[3])
  {
    var v0 := Init(false);
    var v1 := Step(v0, InsertOp(a));
    var v2 := Step(v1, InsertOp(a));
    var v3 := Step(v2, GetOp(a, c1));
    assert v2.store == multiset{a, a};
    assert v3.store == multiset{a};
    var v4 := Step(v3, GetOp(a, c2));
    assert Legal(v3, GetOp(a, c2));
    assert Legal(v2, GetOp(a, c1));
    var ops := [InsertOp(a), InsertOp(a), GetOp(a, c1), GetOp(a, c2)];
    assert ops[1..] == [InsertOp(a), GetOp(a, c1), GetOp(a, c2)];
    assert ops[2..] == [GetOp(a, c1), GetOp(a, c2)];
    assert ops[3..] == [GetOp(a, c2)];
    assert LegalRun(v3, ops[3..]) by { assert ops[3..][1..] == []; }
    assert LegalRun(v2, ops[2..]) by { assert ops[2..][1..] == ops[3..]; }
    assert LegalRun(v1, ops[1..]) by { assert ops[1..][1..] == ops[2..]; }
    var pre := ops[..3];
    assert pre == [InsertOp(a), InsertOp(a), GetOp(a, c1)];
    assert Run(v3, []) == v3;
    assert Run(v2, [GetOp(a, c1)]) == v3 by { assert [GetOp(a, c1)][1..] == []; }
    assert Run(v1, pre[1..]) == v3 by {
      assert pre[1..] == [InsertOp(a), GetOp(a, c1)];
      assert pre[1..][1..] == [GetOp(a, c1)];
    }
  }
}
