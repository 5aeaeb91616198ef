/** The item abstraction shared by the ordered stores and the queue:
    an item exposes a priority (higher is served first) and a handle,
    the identity used as a key by the queue's bookkeeping. */
module QueueItem {

  /** The handle type; any value with equality serves as a map key. */
  type Handle = int

  /** A unit of work as the queue sees it. Two items with equal handles are
      "the same work" even when their priorities differ. */
  datatype Item = Item(handle: Handle, priority: int)

  /** Go's `nil` for an interface value. */
  datatype Option<T> = None | Some(value: T)
}
