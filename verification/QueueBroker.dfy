/** The broker in queue mode as an interleaved step machine: any number of
    connections, each served by its own goroutine, sharing one MemoryMessageQueue.
    Every queue method is one atomic step; reading a frame and writing a frame are
    steps of their own.  A step that is not enabled leaves the state unchanged, so
    every sequence of steps is a run. */
module QueueBroker {
  import opened Framing
  import opened Endpoints
  import opened Runs
  import Roles
  import MemoryQueue

  datatype Conn =
    | Accepted(input: Bytes)
    | Dropped
    /** `holding` says that the last body read has yet to be enqueued. */
    | Producer(intake: Intake, holding: bool, reading: bool)
    | Consumer(outlet: Outlet, live: bool)

  /** `accepted`, `takers` and `discarded` are histories: the global enqueue order,
      which connection dequeued the i-th message, and what Close made unreachable. */
  datatype State = State(queue: MemoryQueue.Queue<Msg>, conns: map<ConnId, Conn>,
                         accepted: seq<Msg>, takers: seq<ConnId>, discarded: seq<Msg>)

  datatype Step =
    | Connect(c: ConnId, input: Bytes)
    | ReadRole(c: ConnId)
    | ReadFrame(c: ConnId)
    | Enqueue(c: ConnId)
    | Dequeue(c: ConnId)
    | Write(c: ConnId, bytes: nat, ok: bool)
    | Close

  function Init(size: int): State {
    State(MemoryQueue.New(size), map[], [], [], [])
  }

  function Update(s: State, c: ConnId, x: Conn): State {
    s.(conns := s.conns[c := x])
  }

  function NewProducer(input: Bytes, payload: Bytes): Conn { Producer(NewIntake(input, payload), false, true) }

  function NewConsumer(): Conn { Consumer(NewOutlet(), true) }

  function ApplyReadRole(s: State, c: ConnId): State {
    if c in s.conns && s.conns[c].Accepted? then
      match Roles.Serve(s.conns[c].input)
      case AsProducer(rest) => Update(s, c, NewProducer(s.conns[c].input, rest))
      case AsConsumer(_) => Update(s, c, NewConsumer())
      case Dropped => Update(s, c, Dropped)
    else s
  }

  function ApplyReadFrame(s: State, c: ConnId): State {
    if c in s.conns && s.conns[c].Producer? && s.conns[c].reading && !s.conns[c].holding then
      var p := s.conns[c];
      if ReadOne(p.intake.rest).Body? then Update(s, c, p.(intake := ReadNext(p.intake), holding := true))
      else Update(s, c, p.(reading := false))
    else s
  }

  function ApplyEnqueue(s: State, c: ConnId): State {
    if c in s.conns && s.conns[c].Producer? && s.conns[c].holding && s.conns[c].intake.read != [] then
      var p := s.conns[c];
      var n := |p.intake.read| - 1;
      var m := Msg(|s.accepted|, c, n, p.intake.read[n]);
      Update(s, c, p.(holding := false)).(
        queue := MemoryQueue.Enqueue(s.queue, m),
        accepted := if MemoryQueue.Accepts(s.queue) then s.accepted + [m] else s.accepted)
    else s
  }

  predicate CanTake(s: State, c: ConnId) {
    c in s.conns && s.conns[c].Consumer? && s.conns[c].live && s.conns[c].outlet.inFlight.None?
  }

  function ApplyDequeue(s: State, c: ConnId): State {
    if CanTake(s, c) then
      var k := s.conns[c];
      match MemoryQueue.Front(s.queue)
      case None => Update(s, c, k.(live := false))
      case Some(m) =>
        Update(s, c, k.(outlet := Take(k.outlet, m))).(
          queue := MemoryQueue.Dequeue(s.queue), takers := s.takers + [c])
    else s
  }

  function ApplyWrite(s: State, c: ConnId, bytes: nat, ok: bool): State {
    if c in s.conns && s.conns[c].Consumer? && CanWrite(s.conns[c].outlet, bytes, ok) then
      var k := s.conns[c];
      Update(s, c, Consumer(Written(k.outlet, bytes, ok), k.live && ok))
    else s
  }

  function ApplyClose(s: State): State {
    s.(queue := MemoryQueue.Close(s.queue), discarded := s.discarded + s.queue.items)
  }

  function Apply(s: State, step: Step): State {
    match step
    case Connect(c, input) => if c in s.conns then s else Update(s, c, Accepted(input))
    case ReadRole(c) => ApplyReadRole(s, c)
    case ReadFrame(c) => ApplyReadFrame(s, c)
    case Enqueue(c) => ApplyEnqueue(s, c)
    case Dequeue(c) => ApplyDequeue(s, c)
    case Write(c, bytes, ok) => ApplyWrite(s, c, bytes, ok)
    case Close => ApplyClose(s)
  }

  function Exec(s: State, steps: seq<Step>): State { Run(Apply, s, steps) }

  /** The messages that `c` dequeued, in order. */
  function TakenBy(accepted: seq<Msg>, takers: seq<ConnId>, c: ConnId): seq<Msg>
    requires |takers| <= |accepted|
  {
    if takers == [] then [] else
    var n := |takers| - 1;
    TakenBy(accepted, takers[..n], c) + if takers[n] == c then [accepted[n]] else []
  }

  // --------------------------------------------------------------- invariant

  ghost predicate QueueInv(s: State) {
    && s.queue.Valid()
    && (forall i :: 0 <= i < |s.accepted| ==> s.accepted[i].tag == i)
    && |s.takers| <= |s.accepted|
    && s.accepted[|s.takers|..] == s.queue.items + s.discarded
    && (s.queue.live ==> s.discarded == [])
    && (forall i :: 0 <= i < |s.takers| ==> s.takers[i] in s.conns && s.conns[s.takers[i]].Consumer?)
  }

  ghost predicate ConnInv(s: State, c: ConnId)
    requires c in s.conns && |s.takers| <= |s.accepted|
  {
    match s.conns[c]
    case Producer(intake, holding, _) => IntakeInv(intake) && (holding ==> intake.read != [])
    case Consumer(outlet, live) =>
      && OutletInv(outlet)
      && Log(outlet) == TakenBy(s.accepted, s.takers, c)
      && (outlet.lost.Some? ==> !live)
    case _ => true
  }

  ghost predicate ConnsInv(s: State)
    requires |s.takers| <= |s.accepted|
  {
    forall c :: c in s.conns ==> ConnInv(s, c)
  }

  /** How many of a producer's frames have left its hands. */
  function Settled(p: Conn): int
    requires p.Producer?
  {
    |p.intake.read| - if p.holding then 1 else 0
  }

  /** `m` is a frame that its origin has already handed over. */
  ghost predicate Sourced(s: State, m: Msg) {
    && m.origin in s.conns
    && s.conns[m.origin].Producer?
    && m.index < Settled(s.conns[m.origin])
    && m.body == s.conns[m.origin].intake.read[m.index]
  }

  ghost predicate OriginInv(s: State) {
    && (forall i :: 0 <= i < |s.accepted| ==> Sourced(s, s.accepted[i]))
    && InOriginOrder(s.accepted)
  }

  ghost predicate Inv(s: State) {
    QueueInv(s) && ConnsInv(s) && OriginInv(s)
  }

  // ------------------------------------------------------------ preservation

  lemma {:induction false} TakenByFrame(a: seq<Msg>, b: seq<Msg>, takers: seq<ConnId>, c: ConnId)
    requires |takers| <= |a| && a <= b
    ensures TakenBy(a, takers, c) == TakenBy(b, takers, c)
  {
    if takers != [] {
      TakenByFrame(a, b, takers[..|takers| - 1], c);
    }
  }

  lemma TakenByMore(a: seq<Msg>, takers: seq<ConnId>, t: ConnId, c: ConnId)
    requires |takers| < |a|
    ensures TakenBy(a, takers + [t], c) == TakenBy(a, takers, c) + if t == c then [a[|takers|]] else []
  {
    assert (takers + [t])[..|takers|] == takers;
  }

  lemma InitInv(size: int)
    ensures Inv(Init(size))
  {}

  /** Nothing that leaves the producers alone affects the origins. */
  lemma OriginFrame(s: State, s': State)
    requires OriginInv(s) && s'.accepted == s.accepted
    requires forall c :: c in s.conns && s.conns[c].Producer? ==> c in s'.conns && s'.conns[c] == s.conns[c]
    ensures OriginInv(s')
  {
    forall i | 0 <= i < |s'.accepted| ensures Sourced(s', s'.accepted[i]) {
      assert Sourced(s, s.accepted[i]);
    }
  }

  /** A step of one connection that leaves the queue's history alone. */
  lemma ConnsFrame(s: State, c: ConnId, x: Conn)
    requires |s.takers| <= |s.accepted| && ConnsInv(s)
    requires ConnInv(Update(s, c, x), c)
    ensures ConnsInv(Update(s, c, x))
  {
    var s' := Update(s, c, x);
    forall d | d in s'.conns && d != c ensures ConnInv(s', d) {
      assert ConnInv(s, d);
    }
  }

  /** The enqueue order grows and the connections stay. */
  lemma ConnsKept(s: State, s': State)
    requires |s.takers| <= |s.accepted| && ConnsInv(s)
    requires s'.conns == s.conns && s'.takers == s.takers && s.accepted <= s'.accepted
    ensures ConnsInv(s')
  {
    forall d | d in s'.conns ensures ConnInv(s', d) {
      assert ConnInv(s, d);
      TakenByFrame(s.accepted, s'.accepted, s.takers, d);
    }
  }

  lemma ConnectInv(s: State, c: ConnId, input: Bytes)
    requires Inv(s) && c !in s.conns
    ensures Inv(Update(s, c, Accepted(input)))
  {
    OriginFrame(s, Update(s, c, Accepted(input)));
    ConnsFrame(s, c, Accepted(input));
  }

  lemma {:induction false} NotTaken(s: State, c: ConnId, n: nat)
    requires QueueInv(s) && n <= |s.takers|
    requires c !in s.conns || !s.conns[c].Consumer?
    ensures TakenBy(s.accepted, s.takers[..n], c) == []
  {
    if n > 0 {
      assert s.takers[..n][..n - 1] == s.takers[..n - 1];
      NotTaken(s, c, n - 1);
    }
  }

  /** A connection that has not been served yet takes up its role. */
  lemma ServeInv(s: State, c: ConnId, x: Conn)
    requires Inv(s) && c in s.conns && s.conns[c].Accepted?
    requires x == Dropped || x == NewConsumer() || (x.Producer? && !x.holding && IntakeInv(x.intake))
    ensures Inv(Update(s, c, x))
  {
    OriginFrame(s, Update(s, c, x));
    NotTaken(s, c, |s.takers|);
    assert s.takers[..|s.takers|] == s.takers;
    ConnsFrame(s, c, x);
  }

  lemma ReadRoleInv(s: State, c: ConnId)
    requires Inv(s)
    ensures Inv(ApplyReadRole(s, c))
  {
    if c in s.conns && s.conns[c].Accepted? {
      match Roles.Serve(s.conns[c].input)
      case AsProducer(rest) => ServeInv(s, c, NewProducer(s.conns[c].input, rest));
      case AsConsumer(_) => ServeInv(s, c, NewConsumer());
      case Dropped => ServeInv(s, c, Dropped);
    }
  }

  /** A producer moving on keeps what it has already handed over. */
  lemma ProducerMoves(s: State, c: ConnId, p: Conn)
    requires Inv(s) && c in s.conns && s.conns[c].Producer?
    requires p.Producer? && IntakeInv(p.intake) && (p.holding ==> p.intake.read != [])
    requires s.conns[c].intake.read <= p.intake.read && Settled(s.conns[c]) <= Settled(p)
    ensures Inv(Update(s, c, p))
  {
    ConnsFrame(s, c, p);
    forall i | 0 <= i < |s.accepted| ensures Sourced(Update(s, c, p), s.accepted[i]) {
      assert Sourced(s, s.accepted[i]);
    }
  }

  lemma ReadFrameInv(s: State, c: ConnId)
    requires Inv(s)
    ensures Inv(ApplyReadFrame(s, c))
  {
    var s' := ApplyReadFrame(s, c);
    if s' != s {
      assert ConnInv(s, c);
      var p := s.conns[c];
      if ReadOne(p.intake.rest).Body? {
        ReadNextInv(p.intake);
      }
      ProducerMoves(s, c, s'.conns[c]);
    }
  }

  lemma EnqueueInv(s: State, c: ConnId)
    requires Inv(s)
    ensures Inv(ApplyEnqueue(s, c))
  {
    if c in s.conns && s.conns[c].Producer? && s.conns[c].holding && s.conns[c].intake.read != [] {
      assert ConnInv(s, c);
      var p := s.conns[c];
      var s1 := Update(s, c, p.(holding := false));
      ProducerMoves(s, c, p.(holding := false));
      if MemoryQueue.Accepts(s.queue) {
        var n := |p.intake.read| - 1;
        var m := Msg(|s.accepted|, c, n, p.intake.read[n]);
        HandedOver(s, c);
        AcceptInv(s1, m);
        assert ApplyEnqueue(s, c) == s1.(queue := MemoryQueue.Enqueue(s1.queue, m), accepted := s1.accepted + [m]);
      } else {
        assert ApplyEnqueue(s, c) == s1;
      }
    }
  }

  /** While a producer still holds its last frame, no accepted message is that frame. */
  lemma HandedOver(s: State, c: ConnId)
    requires OriginInv(s) && c in s.conns && s.conns[c].Producer? && s.conns[c].holding
    ensures forall i :: 0 <= i < |s.accepted| && s.accepted[i].origin == c ==> s.accepted[i].index < |s.conns[c].intake.read| - 1
  {
    forall i | 0 <= i < |s.accepted| && s.accepted[i].origin == c
      ensures s.accepted[i].index < |s.conns[c].intake.read| - 1
    {
      assert Sourced(s, s.accepted[i]);
    }
  }

  /** The queue takes in a message its origin has just handed over. */
  lemma AcceptInv(s: State, m: Msg)
    requires Inv(s) && MemoryQueue.Accepts(s.queue)
    requires m.tag == |s.accepted| && Sourced(s, m)
    requires forall i :: 0 <= i < |s.accepted| && s.accepted[i].origin == m.origin ==> s.accepted[i].index < m.index
    ensures Inv(s.(queue := MemoryQueue.Enqueue(s.queue, m), accepted := s.accepted + [m]))
  {
    var s' := s.(queue := MemoryQueue.Enqueue(s.queue, m), accepted := s.accepted + [m]);
    var n := |s.takers|;
    assert s'.accepted[n..] == s.accepted[n..] + [m];
    ConnsKept(s, s');
    AcceptOrigin(s, s', m);
  }

  lemma AcceptOrigin(s: State, s': State, m: Msg)
    requires OriginInv(s) && Sourced(s, m)
    requires forall i :: 0 <= i < |s.accepted| && s.accepted[i].origin == m.origin ==> s.accepted[i].index < m.index
    requires s'.conns == s.conns && s'.accepted == s.accepted + [m]
    ensures OriginInv(s')
  {
    forall i | 0 <= i < |s'.accepted| ensures Sourced(s', s'.accepted[i]) {
      assert i < |s.accepted| ==> Sourced(s, s.accepted[i]);
    }
  }

  /** A consumer moving on within what it has already dequeued. */
  lemma ConsumerMoves(s: State, c: ConnId, k: Conn)
    requires Inv(s) && c in s.conns && s.conns[c].Consumer?
    requires k.Consumer? && OutletInv(k.outlet) && Log(k.outlet) == Log(s.conns[c].outlet)
    requires k.outlet.lost.Some? ==> !k.live
    ensures Inv(Update(s, c, k))
  {
    assert ConnInv(s, c);
    ConnsFrame(s, c, k);
    OriginFrame(s, Update(s, c, k));
  }

  lemma DequeueInv(s: State, c: ConnId)
    requires Inv(s)
    ensures Inv(ApplyDequeue(s, c))
  {
    if CanTake(s, c) {
      assert ConnInv(s, c);
      if MemoryQueue.Front(s.queue).None? {
        ConsumerMoves(s, c, s.conns[c].(live := false));
      } else {
        TakeQueueInv(s, c);
        TakeConns(s, c);
        OriginFrame(s, ApplyDequeue(s, c));
      }
    }
  }

  lemma TakeQueueInv(s: State, c: ConnId)
    requires QueueInv(s) && CanTake(s, c) && MemoryQueue.Front(s.queue).Some?
    ensures QueueInv(ApplyDequeue(s, c))
    ensures s.accepted[|s.takers|] == s.queue.items[0]
  {
    var n := |s.takers|;
    assert s.accepted[n] == s.accepted[n..][0] == s.queue.items[0];
    assert s.accepted[n + 1..] == s.accepted[n..][1..];
  }

  lemma TakeConns(s: State, c: ConnId)
    requires |s.takers| < |s.accepted| && ConnsInv(s)
    requires CanTake(s, c) && MemoryQueue.Front(s.queue).Some?
    requires s.accepted[|s.takers|] == s.queue.items[0]
    ensures ConnsInv(ApplyDequeue(s, c))
  {
    var s' := ApplyDequeue(s, c);
    forall d | d in s'.conns ensures ConnInv(s', d) {
      assert ConnInv(s, d);
      TakenByMore(s.accepted, s.takers, c, d);
    }
  }

  lemma WriteInv(s: State, c: ConnId, bytes: nat, ok: bool)
    requires Inv(s)
    ensures Inv(ApplyWrite(s, c, bytes, ok))
  {
    if c in s.conns && s.conns[c].Consumer? && CanWrite(s.conns[c].outlet, bytes, ok) {
      assert ConnInv(s, c);
      WrittenInv(s.conns[c].outlet, bytes, ok);
      ConsumerMoves(s, c, ApplyWrite(s, c, bytes, ok).conns[c]);
    }
  }

  lemma CloseInv(s: State)
    requires Inv(s)
    ensures Inv(ApplyClose(s))
  {
    assert s.queue.items + s.discarded == [] + (s.discarded + s.queue.items);
    OriginFrame(s, ApplyClose(s));
    ConnsKept(s, ApplyClose(s));
  }

  lemma StepInv(s: State, step: Step)
    requires Inv(s)
    ensures Inv(Apply(s, step))
  {
    hide Inv, ApplyReadRole, ApplyReadFrame, ApplyEnqueue, ApplyDequeue, ApplyWrite, ApplyClose;
    match step
    case Connect(c, input) => if c !in s.conns { ConnectInv(s, c, input); }
    case ReadRole(c) => ReadRoleInv(s, c);
    case ReadFrame(c) => ReadFrameInv(s, c);
    case Enqueue(c) => EnqueueInv(s, c);
    case Dequeue(c) => DequeueInv(s, c);
    case Write(c, bytes, ok) => WriteInv(s, c, bytes, ok);
    case Close => CloseInv(s);
  }

  /** Every interleaving keeps the invariant. */
  lemma {:induction false} RunInv(size: int, steps: seq<Step>)
    ensures Inv(Exec(Init(size), steps))
  {
    if steps == [] {
      InitInv(size);
    } else {
      RunInv(size, steps[..|steps| - 1]);
      StepInv(Exec(Init(size), steps[..|steps| - 1]), steps[|steps| - 1]);
    }
  }
}
