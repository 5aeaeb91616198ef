# Priority work queue — Dafny model

This project models the core of a Go priority work queue (package `queue`).
Producers `Insert` items, workers `Get` the most urgent one, and workers
report completion with `Done`. A handle (an item's identity) that is
re-submitted while it is checked out is recorded in `waiting`. It is queued
again when `Done` is called, and the checkout's context is cancelled. `Close`
stops admission. Depending on `drainClosed`, `Get` then either stops at once
or hands out what is left.

Layout:

- `queue_item.dfy` (module `QueueItem`): the item (`handle`, `priority`) and `Option` for Go's `nil`.
- `ordering.dfy` (module `Ordering`): the descending order every store keeps, what a maximum item is, and the in-place sort that `order()` performs.
- `items_slice.dfy` (module `ItemsSlice`): the store of `priority_queue_items_slice.go`. Its `Get` is guarded. The queue uses this store.
- `items.dfy` (module `Items`): the store of `items.go`. Its `Get` is unguarded.
- `slice_items.dfy` (module `SliceItems`): the store of `slice_priority_queue_items.go`. Its `Get` is unguarded.
- `queue.dfy` (module `Queue`): the coordinator `priorityQueue`. It has an abstract state `QueueView` (the store seen as a multiset), one specification function per operation, the bookkeeping invariant `Inv`, and the class `PriorityQueue`. `Insert`, `Done` and `Close` ensure `View() == <Op>Spec(old(View()))`. `Get` ensures `View() == DequeueSpec(old(View()), item, ctx)` when it returns `ok`, and an unchanged view otherwise. `Len` changes nothing and returns the size of the store.
- `queue_properties.dfy` (module `QueueProperties`): the effect of each operation, and lemmas over arbitrary sequences of operations (`Run`).

Each store is a class with a `seq` field. `Insert` appends and re-sorts. `Get`
pops the front and re-sorts. `Order` copies the slice into an array, sorts it
in place and stores it back. Go's `sort.Slice` is not stable, so `Order` is
specified only as "some permutation of the old contents, sorted by
non-increasing priority".

`Inv` states three facts:

- cancel functions are registered exactly for the handles in progress, so the lookup in `Insert` always finds one;
- `waiting` is keyed by each item's own handle;
- a waiting handle that is not checked out has its latest submission in the store, so no submission is lost.

## Behaviour worth knowing

- `Insert` does not skip a handle that is already waiting. A second submission of a handle that is not checked out adds a second store entry and overwrites `waiting`. This is what queue.go:44-59 does, and the model does the same (`InsertSpec`, `QueueProperties.InsertEffect`). A deduplicating queue would make such an `Insert` a no-op, so that `Len()` stayed 1.
- Because of this, one handle can be handed out twice without a `Done` in between. `QueueProperties.DuplicateSubmissionDoubleCheckout` shows the trace: insert `a`, insert `a`, get `a`, get `a`. The first `Get` then leaves a copy of `a` in the store while its handle is in progress. So the code does not guarantee that an in-progress handle is absent from the store, or that one handle is never checked out twice at once, and the model does not claim either.
- `Insert` of a checked-out handle cancels that checkout's context (queue.go:52-53). Each checkout gets a context of its own (queue.go:87), so this cancels no other checkout. On a closed queue `Insert` returns first and cancels nothing (queue.go:39-42).
- `drainClosed` is always `false` in `New` (queue.go:31). Here it is a constructor parameter, so that both behaviours of `Get` on a closed queue can be stated.

## Model

| member | source | states |
|---|---|---|
| Ordering.HeadIsMax | priority_queue_items_slice.go:27-31 | the front of a descending slice has a priority at least that of every item in it |
| Ordering.SortByPriority | priority_queue_items_slice.go:16-20 | the sort used by `order` leaves the array sorted by non-increasing priority and a permutation of its old contents |
| ItemsSlice.SlicePriorityQueueItems.constructor | priority_queue_items_slice.go:12-14 | a new store is empty and sorted |
| ItemsSlice.SlicePriorityQueueItems.Order | priority_queue_items_slice.go:16-20 | `order` only permutes the slice (same length, same multiset) and leaves it descending |
| ItemsSlice.SlicePriorityQueueItems.Insert | priority_queue_items_slice.go:22-25 | the length grows by exactly one, the contents are the old multiset plus the item, and the slice is sorted |
| ItemsSlice.SlicePriorityQueueItems.Get | priority_queue_items_slice.go:27-34 | on an empty slice it returns `nil` and changes nothing; otherwise it returns the old front, which is a maximum, the length shrinks by one, the contents lose exactly that item, and the slice stays sorted |
| ItemsSlice.SlicePriorityQueueItems.Len | priority_queue_items_slice.go:36-38 | returns the slice length and changes nothing |
| Items.PriorityQueueItems.constructor | items.go:19-21 | a new store is empty and sorted |
| Items.PriorityQueueItems.Order | items.go:23-27 | `order` only permutes the slice and leaves it descending |
| Items.PriorityQueueItems.Insert | items.go:29-32 | the length grows by one, the contents are the old multiset plus the item, and the slice is sorted |
| Items.PriorityQueueItems.Get | items.go:34-38 | requires a non-empty store (the front is read unguarded); returns a maximum-priority item, the length shrinks by one, the contents lose exactly that item, and the slice stays sorted |
| Items.PriorityQueueItems.Len | items.go:40-42 | returns the slice length and changes nothing |
| SliceItems.SlicePriorityQueueItems.constructor | slice_priority_queue_items.go:9-11 | a new store is empty and sorted |
| SliceItems.SlicePriorityQueueItems.Order | slice_priority_queue_items.go:13-17 | `order` only permutes the slice and leaves it descending |
| SliceItems.SlicePriorityQueueItems.Insert | slice_priority_queue_items.go:19-22 | the length grows by one, the contents are the old multiset plus the item, and the slice is sorted |
| SliceItems.SlicePriorityQueueItems.Get | slice_priority_queue_items.go:24-28 | requires a non-empty store; returns a maximum-priority item, the length shrinks by exactly one, the contents lose that item, and the slice stays sorted |
| SliceItems.SlicePriorityQueueItems.Len | slice_priority_queue_items.go:30-32 | returns the slice length and changes nothing |
| Queue.Context.Cancel | queue.go:52-53 | calling a checkout's cancel function marks its context cancelled |
| Queue.InitInv | queue.go:23-33 | the state built by `New` satisfies the bookkeeping invariant |
| Queue.InsertKeepsInv | queue.go:35-60 | `Insert` preserves the invariant |
| Queue.DequeueKeepsInv | queue.go:81-90 | a successful `Get` preserves the invariant, including "every waiting, not checked-out handle has its latest submission in the store" |
| Queue.DoneKeepsInv | queue.go:93-108 | `Done` preserves the invariant |
| Queue.CloseKeepsInv | queue.go:116-121 | `Close` preserves the invariant |
| Queue.PriorityQueue.New | queue.go:23-33 | the queue starts open and empty, with nothing waiting or in progress and no cancel functions, and is valid |
| Queue.PriorityQueue.Insert | queue.go:35-60 | the new state is `InsertSpec` of the old one. It changes nothing when closed. Otherwise it overwrites `waiting[handle]` and either adds the item to the store or, for a checked-out handle, leaves the store alone and cancels that checkout's context. On a closed queue no context is in its frame, so none can change. The invariant is kept, and no two checkouts share a context |
| Queue.PriorityQueue.Get | queue.go:62-91 | reports `blocked` exactly when the store is empty and the queue open. It fails with `(nil, nil, false)` and no change when blocked, or when closed and either not draining or empty. Otherwise it returns `ok`, a maximum-priority item of the old store and a fresh uncancelled context, and the new state is `DequeueSpec` of the old one |
| Queue.PriorityQueue.Done | queue.go:93-108 | the new state is `DoneSpec` of the old one, and the invariant is kept |
| Queue.PriorityQueue.Len | queue.go:110-114 | returns the number of stored items and changes nothing |
| Queue.PriorityQueue.Close | queue.go:116-121 | the new state is the old one with `closed` set, and the invariant is kept |
| QueueProperties.InsertEffect | queue.go:39-59 | when closed, `Insert` changes nothing. When open, it sets `waiting[handle]` to the item and leaves in-progress, the cancel functions and the flags alone. A handle not in progress adds exactly one store entry, even if it is already waiting. An in-progress handle leaves the store unchanged and has a cancel function to look up |
| QueueProperties.GetClosedNoDrain | queue.go:71-78 | on a closed, non-draining queue `Get` neither waits nor dispatches, whatever the store holds |
| QueueProperties.GetClosedDrain | queue.go:72-76 | on a closed, draining queue `Get` does not wait, and it stops exactly when the store is empty |
| QueueProperties.DequeueEffect | queue.go:81-90 | a successful `Get` shrinks the store by one. The item's priority is at least that of every item left. The handle leaves `waiting` and enters in-progress with the new context registered, and the flags are unchanged |
| QueueProperties.DoneEffect | queue.go:97-107 | `Done` removes the handle from in-progress and the cancel map and keeps `waiting`. If the handle is waiting, its latest submission is added to the store (one more entry); otherwise the store is unchanged |
| QueueProperties.CloseEffect | queue.go:116-121 | `Close` sets `closed`, is idempotent, and changes nothing else |
| QueueProperties.StepKeepsInv | queue.go:35-121 | every operation preserves the invariant |
| QueueProperties.RunKeepsInv | queue.go:35-121 | the invariant holds after any sequence of operations from a state that satisfies it |
| QueueProperties.ReachableInv | queue.go:23-121 | every state reachable from `New` satisfies the invariant, so the cancel lookup at lines 52-53 always succeeds |
| QueueProperties.ClosedIsFinal | queue.go:39-42 | after `Close` the queue stays closed, keeps its drain setting, and admits nothing: `waiting` only loses entries and never changes a value |
| QueueProperties.NoDispatchAfterClose | queue.go:77-78 | on a closed, non-draining queue no successful `Get` can occur in any run, and the store never shrinks |
| QueueProperties.GetsDrawFromStore | queue.go:81 | every item handed out by a run of `Get`s was in the store when the run started |
| QueueProperties.GetsInPriorityOrder | queue.go:81 | successive `Get`s with no other call in between hand out items in non-increasing priority |
| QueueProperties.DeferredRequeue | queue.go:47-54 | re-submitting a checked-out handle leaves the store size unchanged. After `Done`, the store holds the re-submission in place of the dispatched item, and the handle is waiting and no longer in progress |
| QueueProperties.DuplicateSubmissionDoubleCheckout | queue.go:44-58 | two submissions of one handle let the second copy be handed out while the first is still checked out |

## Left out

- The mutex and condition variable (`Lock`, `Unlock`, `Wait`, `Signal`, `Broadcast`, `NewCond`): every operation is one atomic step, and which blocked worker a signal wakes is not modelled.
- Queue.PriorityQueue.Get: the wait loop at queue.go:66-69 is not a loop here. A call that would wait returns `blocked` and leaves the state unchanged; in Go the call suspends until another operation changes the state.
- `context.WithCancel`: a context is an object whose only state is its cancellation flag. The context tree and `Background` are not modelled.
- Go slice aliasing: `order` sorts a copy of the slice and stores it back, so sharing of the backing array between `append`, the reslice and callers is not modelled.
- The algorithm inside `sort.Slice`: replaced by an insertion sort with the same contract (a descending permutation). The order among equal priorities is not fixed.
- The handle type `T` is `int`. The item interface of items.go has only `Priority()`; all three stores use the same item type, which also carries a handle.
- `NewSimpleMap`, `NewMapSet`, `Map` and `Set` are not part of this model: Dafny's `map` and `set` stand in for them. set.go and priority_queue_items_interface.go declare interfaces only and have no behaviour to model.
