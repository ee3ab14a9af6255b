/** `tsqueue` as one thread sees it while it owns `muxQueue`: each member function changes the deque in place.

    The lock-level protocol around these bodies is in `TsqueueProtocol`; `Linearizability` shows that under any
    interleaving the calls behave like the methods of this class, executed one after another. */
module TsQueueClass {
  import opened AtomicDeque

  class TsQueue<T> {
    var deqQueue: seq<T>

    constructor ()
      ensures deqQueue == []
    {
      deqQueue := [];
    }

    // The caller must know the deque to be non-empty: the standard leaves `front` of an empty one undefined.
    method Front() returns (item: T)
      requires deqQueue != []
      ensures Perform(deqQueue, AtomicDeque.Front) == Defined(deqQueue, Item(item))
    {
      item := deqQueue[0];
    }

    method Back() returns (item: T)
      requires deqQueue != []
      ensures Perform(deqQueue, AtomicDeque.Back) == Defined(deqQueue, Item(item))
    {
      item := deqQueue[|deqQueue| - 1];
    }

    method PushBack(item: T)
      modifies this
      ensures Perform(old(deqQueue), AtomicDeque.PushBack(item)) == Defined(deqQueue, Done)
    {
      deqQueue := deqQueue + [item];
    }

    method PushFront(item: T)
      modifies this
      ensures Perform(old(deqQueue), AtomicDeque.PushFront(item)) == Defined(deqQueue, Done)
    {
      deqQueue := [item] + deqQueue;
    }

    method Empty() returns (empty: bool)
      ensures Perform(deqQueue, AtomicDeque.Empty) == Defined(deqQueue, Flag(empty))
    {
      empty := |deqQueue| == 0;
    }

    method Count() returns (count: nat)
      ensures Perform(deqQueue, AtomicDeque.Count) == Defined(deqQueue, Size(count))
    {
      count := |deqQueue|;
    }

    method Clear()
      modifies this
      ensures Perform(old(deqQueue), AtomicDeque.Clear) == Defined(deqQueue, Done)
    {
      deqQueue := [];
    }

    method PopFront() returns (item: T)
      requires deqQueue != []
      modifies this
      ensures Perform(old(deqQueue), AtomicDeque.PopFront) == Defined(deqQueue, Item(item))
    {
      item := deqQueue[0];
      deqQueue := deqQueue[1..];
    }

    method PopBack() returns (item: T)
      requires deqQueue != []
      modifies this
      ensures Perform(old(deqQueue), AtomicDeque.PopBack) == Defined(deqQueue, Item(item))
    {
      item := deqQueue[|deqQueue| - 1];
      deqQueue := deqQueue[..|deqQueue| - 1];
    }
  }
}
