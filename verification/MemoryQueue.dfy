/** The bounded in-memory queue (internal/broker/memory_queue.go) as a value:
    what each method does to the pending messages. */
module MemoryQueue {
  import opened Sequences

  /** `live` is false once Close has set the channel to nil. */
  datatype Queue<T> = Queue(items: seq<T>, size: nat, live: bool) {
    ghost predicate Valid() {
      && |items| <= size
      && (!live ==> items == [])
    }
  }

  const DEFAULT_SIZE: nat := 10000

  function New<T>(size: int): (q: Queue<T>)
    ensures q.Valid() && q.live && q.items == []
    ensures q.size == if size > 0 then size else 10000
  {
    Queue([], if size <= 0 then DEFAULT_SIZE else size, true)
  }

  predicate Accepts<T>(q: Queue<T>) { q.live && |q.items| < q.size }

  function Enqueue<T>(q: Queue<T>, x: T): Queue<T> {
    if Accepts(q) then q.(items := q.items + [x]) else q
  }

  /** The message handed out, if any; Dequeue fails on a closed or empty queue. */
  function Front<T>(q: Queue<T>): Option<T> {
    if q.live && q.items != [] then Some(q.items[0]) else None
  }

  function Dequeue<T>(q: Queue<T>): Queue<T> {
    if q.live && q.items != [] then q.(items := q.items[1..]) else q
  }

  function Close<T>(q: Queue<T>): Queue<T> {
    q.(items := [], live := false)
  }
}
