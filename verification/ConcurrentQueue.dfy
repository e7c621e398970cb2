/** A queue whose operations are atomic: each runs under the queue's lock. */
module ConcurrentQueues {
  class ConcurrentQueue<T> {
    var queue: seq<T>

    constructor ()
      ensures queue == []
    {
      queue := [];
    }

    method Empty() returns (empty: bool)
      ensures empty <==> queue == []
    {
      empty := |queue| == 0;
    }

    method Push(t: T)
      modifies this
      ensures queue == old(queue) + [t]
    {
      queue := queue + [t];
    }

    method Pop() returns (t: T)
      requires queue != []
      modifies this
      ensures [t] + queue == old(queue)
    {
      t := queue[0];
      queue := queue[1..];
    }
  }
}
