/** MemoryMessageQueue and the queue-mode handlers as they run, over byte slices on
    the heap (internal/broker/memory_queue.go and broker.go).  A handler here runs
    without interference; QueueBroker says what happens when handlers interleave.
    The point of the heap is aliasing: every frame of up to 64 KiB on a producer
    connection is read into one and the same buffer. */
module QueueObjects {
  import opened Framing
  import opened Sequences
  import opened Streams
  import MQ = MemoryQueue

  /** The bytes held by a sequence of slices. */
  function Contents(q: seq<array<Byte>>): (bs: seq<Bytes>)
    reads q
    ensures |bs| == |q| && forall i :: 0 <= i < |q| ==> bs[i] == q[i][..]
  {
    if q == [] then [] else [q[0][..]] + Contents(q[1..])
  }

  /** append([]byte(nil), msg[:n]...) */
  method Copy(msg: array<Byte>, n: nat) returns (copy: array<Byte>)
    requires n <= msg.Length
    ensures fresh(copy) && copy[..] == msg[..n]
  {
    copy := new Byte[n];
    for i := 0 to n
      invariant copy[..i] == msg[..i]
    {
      copy[i] := msg[i];
    }
  }

  class MemoryMessageQueue {
    /** The channel's buffer; `live` is false once the channel is nil. */
    var queue: seq<array<Byte>>
    var live: bool
    const size: nat

    ghost predicate Valid()
      reads this
    {
      |queue| <= size && (!live ==> queue == [])
    }

    ghost function State(): (q: MQ.Queue<Bytes>)
      reads this, queue
    {
      MQ.Queue(Contents(queue), size, live)
    }

    constructor (size: int)
      ensures Valid() && State() == MQ.New(size) && fresh(this)
    {
      this.size := if size <= 0 then MQ.DEFAULT_SIZE else size;
      queue := [];
      live := true;
    }

    /** The queue keeps a copy of its own, so that what it holds cannot change when
        the caller reuses the slice. */
    method Enqueue(msg: array<Byte>, n: nat) returns (ok: bool)
      requires Valid() && n <= msg.Length
      modifies this
      ensures Valid() && State() == MQ.Enqueue(old(State()), msg[..n])
      ensures ok == MQ.Accepts(old(State()))
      ensures forall a :: a in queue ==> a in old(queue) || fresh(a)
    {
      if !live {
        return false;
      }
      var copy := Copy(msg, n);
      if |queue| < size {
        queue := queue + [copy];
        return true;
      }
      return false;
    }

    method Dequeue() returns (msg: Option<array<Byte>>)
      requires Valid()
      modifies this
      ensures Valid() && State() == MQ.Dequeue(old(State()))
      ensures msg.Some? <==> MQ.Front(old(State())).Some?
      ensures msg.Some? ==> old(queue) == [msg.value] + queue && msg.value[..] == MQ.Front(old(State())).value
    {
      if !live || queue == [] {
        return None;
      }
      msg := Some(queue[0]);
      queue := queue[1..];
    }

    method IsFull() returns (full: bool)
      requires Valid()
      ensures full <==> |State().items| == size
    {
      full := |queue| >= size;
    }

    method Len() returns (n: nat)
      ensures n == |State().items|
    {
      n := |queue|;
    }

    method Close()
      requires Valid()
      modifies this
      ensures Valid() && State() == MQ.Close(old(State()))
    {
      if live {
        queue := [];
        live := false;
      }
    }
  }

  function EnqueueAll<T>(q: MQ.Queue<T>, xs: seq<T>): MQ.Queue<T>
    decreases |xs|
  {
    if xs == [] then q else EnqueueAll(MQ.Enqueue(q, xs[0]), xs[1..])
  }

  /** A full queue keeps refusing: the messages kept are the first ones that fit. */
  lemma {:induction false} EnqueueAllKeepsFirst<T>(q: MQ.Queue<T>, xs: seq<T>)
    requires q.Valid()
    ensures var room := if q.live then q.size - |q.items| else 0;
            EnqueueAll(q, xs) == q.(items := q.items + xs[..if |xs| <= room then |xs| else room])
    decreases |xs|
  {
    var room := if q.live then q.size - |q.items| else 0;
    if xs == [] {
      assert q.items + xs[..0] == q.items;
    } else {
      EnqueueAllKeepsFirst(MQ.Enqueue(q, xs[0]), xs[1..]);
      if room == 0 {
        assert q.items + xs[..0] == q.items + xs[1..][..0];
      } else {
        var k := if |xs| <= room then |xs| else room;
        assert (q.items + [xs[0]]) + xs[1..][..k - 1] == q.items + xs[..k];
      }
    }
  }

  const BUFFER_SIZE: nat := 64 * 1024

  /** handleProducer in queue mode.  Although every frame may be read into the same
      buffer, afterwards the queue holds, message by message, exactly the bodies the
      peer framed: no ReadFrame changed a message already queued. */
  method HandleProducer(r: Reader, q: MemoryMessageQueue)
    requires q.Valid()
    modifies r, q
    ensures q.Valid()
    ensures q.State() == EnqueueAll(old(q.State()), Decode(old(r.rest)).bodies)
  {
    var buf := new Byte[BUFFER_SIZE];
    while true
      invariant q.Valid() && fresh(buf) && buf !in q.queue
      invariant forall a :: a in q.queue ==> a in old(q.queue) || fresh(a)
      invariant EnqueueAll(q.State(), Decode(r.rest).bodies) == EnqueueAll(old(q.State()), Decode(old(r.rest)).bodies)
      decreases |r.rest|
    {
      ghost var before, state := r.rest, q.State();
      var body, n, err := ReadFrame(r, buf);
      assert q.State() == state;
      if err.Some? {
        assert EnqueueAll(state, []) == state;
        return;
      }
      assert Decode(before).bodies == [body[..n]] + Decode(r.rest).bodies;
      var ok := q.Enqueue(body, n);
    }
  }

  lemma WireSnoc(before: Bytes, delivered: seq<Bytes>, body: Bytes)
    ensures before + Frames(delivered) + Frame(body)[..4 + |body|] == before + Frames(delivered + [body])
  {
    FramesSnoc(delivered, body);
    assert Frame(body)[..4 + |body|] == Frame(body);
  }

  /** One iteration of handleConsumerQueue: dequeue a message and write its frame. */
  method ServeOne(w: Connection, q: MemoryMessageQueue) returns (taken: Option<Bytes>, n: nat, ok: bool)
    requires q.Valid() && w.Valid()
    modifies w, q
    ensures w.Valid() && q.Valid() && q.State() == MQ.Dequeue(old(q.State()))
    ensures taken == MQ.Front(old(q.State()))
    ensures taken.None? ==> w.wire == old(w.wire)
    ensures taken.Some? ==> n <= 4 + |taken.value| && (ok ==> n == 4 + |taken.value|)
                            && (!ok ==> w.Broken()) && w.wire == old(w.wire) + Frame(taken.value)[..n]
  {
    n, ok := 0, false;
    var msg := q.Dequeue();
    if msg.None? {
      return None, 0, false;
    }
    taken := Some(msg.value[..]);
    n, ok := WriteFrame(w, msg.value[..]);
  }

  lemma TakeFirst(delivered: seq<Bytes>, items: seq<Bytes>, left: seq<Bytes>, body: Bytes)
    requires items != [] && items[0] == body && left == items[1..]
    ensures delivered + items == delivered + [body] + left
  {
    assert items == [body] + left;
  }

  /** handleConsumerQueue: dequeue and write until the queue is closed or momentarily
      empty, or a write fails.  What was pending is split into what was delivered,
      the one message lost by a failed write, and what is left; the wire holds the
      delivered frames and the accepted part of the lost one.  A message is lost only
      where the connection breaks, so all is delivered on one that never does. */
  method HandleConsumer(w: Connection, q: MemoryMessageQueue)
    returns (delivered: seq<Bytes>, lost: Option<Bytes>, n: nat)
    requires q.Valid() && w.Valid()
    modifies w, q
    ensures q.Valid() && w.Valid()
    ensures lost.Some? ==> w.Broken()
    ensures old(q.State()).items == delivered + Opt(lost) + q.State().items
    ensures lost.None? ==> q.State().items == []
    ensures lost.Some? ==> n <= 4 + |lost.value|
    ensures w.wire == old(w.wire) + Frames(delivered) + (if lost.Some? then Frame(lost.value)[..n] else [])
  {
    delivered, lost, n := [], None, 0;
    while true
      invariant q.Valid() && w.Valid()
      invariant old(q.State()).items == delivered + q.State().items
      invariant w.wire == old(w.wire) + Frames(delivered)
      decreases |q.State().items|
    {
      ghost var items, before := q.State().items, w.wire;
      var taken, k, ok := ServeOne(w, q);
      if taken.None? {
        assert before + [] == before && delivered + [] == delivered;
        return;
      }
      TakeFirst(delivered, items, q.State().items, taken.value);
      if !ok {
        lost, n := taken, k;
        return;
      }
      WireSnoc(old(w.wire), delivered, taken.value);
      delivered := delivered + [taken.value];
    }
  }
}
