/** The session's pending-work queues: host declarations imported but not yet
    handed to the host context (`RegisteredExternalDecls`) and conformances
    whose witnesses may still be missing (`DelayedProtocolConformances`). Both
    are appended to, in order. */
module PendingWork {

  /** `push_back` on a queue. */
  function Push<T>(queue: seq<T>, item: T): (r: seq<T>)
    ensures |r| == |queue| + 1
    ensures r[..|queue|] == queue
    ensures r[|queue|] == item
  {
    queue + [item]
  }

  /** Successive pushes, one per item. */
  function PushEach<T>(queue: seq<T>, items: seq<T>): seq<T>
    decreases |items|
  {
    if items == [] then queue else PushEach(Push(queue, items[0]), items[1..])
  }

  /** Successive pushes keep what was queued and add the items after it, in
      the order they were pushed. */
  lemma {:induction false} PushEachAppends<T>(queue: seq<T>, items: seq<T>)
    decreases |items|
    ensures PushEach(queue, items) == queue + items
  {
    if items != [] {
      PushEachAppends(Push(queue, items[0]), items[1..]);
      assert Push(queue, items[0]) + items[1..] == queue + items;
    }
  }

  /** An item pushed before another stands before it in the queue. */
  lemma PushedEarlierStandsEarlier<T>(queue: seq<T>, items: seq<T>, i: nat, j: nat)
    requires i < j < |items|
    ensures var q := PushEach(queue, items);
            |queue| + j < |q| && q[|queue| + i] == items[i] && q[|queue| + j] == items[j]
  {
    PushEachAppends(queue, items);
  }
}
