/** The broker in broadcast mode as an interleaved step machine.  Each method of
    BroadcastRegistry that holds the lock is one step.  BroadcastMessage takes its
    snapshot under the lock and sends after releasing it, so it is one snapshot
    step, in any map order, followed by one step per send.  A send on a closed
    channel and a second close of a channel panic, which ends the process: they
    set `fault`, after which no step changes anything. */
module BroadcastBroker {
  import opened Framing
  import opened Endpoints
  import opened Runs
  import Roles

  type ConsumerId = string
  type ChanId = nat

  /** A buffered channel, with the identity it was registered under, the consumer
      connection that ranges over it, and two histories: everything it ever
      accepted and how often it was closed. */
  datatype Channel = Channel(id: ConsumerId, owner: ConnId, cap: nat, items: seq<Msg>, closed: bool,
                             history: seq<Msg>, closes: nat)

  /** Where a producer handler is: waiting for a frame, holding one that has yet to
      be broadcast, or sending it to the channels left of its snapshot. */
  datatype Phase = Reading | Holding | Sending(tag: nat, targets: seq<ChanId>) | Stopped

  /** Where a consumer handler is: not registered yet, in its range loop, out of
      the loop with the deferred Unregister still to run, or finished. */
  datatype Stage = Starting | Ranging | Leaving | Left

  datatype Conn =
    | Accepted(input: Bytes)
    | Dropped
    | Producer(intake: Intake, phase: Phase)
    | Consumer(outlet: Outlet, stage: Stage, id: ConsumerId, ch: ChanId)

  datatype Fault = NoFault | SendOnClosed(p: ConnId, ch: ChanId) | CloseOfClosed

  datatype State = State(chans: seq<Channel>, registry: map<ConsumerId, ChanId>, conns: map<ConnId, Conn>,
                         broadcasts: nat, fault: Fault)

  datatype Step =
    | Connect(c: ConnId, input: Bytes)
    | ReadRole(c: ConnId)
    | ReadFrame(c: ConnId)
    | Snapshot(c: ConnId, order: seq<ChanId>)
    | Send(c: ConnId)
    | Register(c: ConnId, id: ConsumerId, cap: nat)
    | Receive(c: ConnId)
    | Write(c: ConnId, bytes: nat, ok: bool)
    | Unregister(c: ConnId)
    | CloseRegistry

  const Init: State := State([], map[], map[], 0, NoFault)

  function Update(s: State, c: ConnId, x: Conn): State {
    s.(conns := s.conns[c := x])
  }

  function ApplyReadRole(s: State, c: ConnId): State {
    if c in s.conns && s.conns[c].Accepted? then
      match Roles.Serve(s.conns[c].input)
      case AsProducer(rest) => Update(s, c, Producer(NewIntake(s.conns[c].input, rest), Reading))
      case AsConsumer(_) => Update(s, c, Consumer(NewOutlet(), Starting, "", 0))
      case Dropped => Update(s, c, Dropped)
    else s
  }

  function ApplyReadFrame(s: State, c: ConnId): State {
    if c in s.conns && s.conns[c].Producer? && s.conns[c].phase.Reading? then
      var p := s.conns[c];
      if ReadOne(p.intake.rest).Body? then Update(s, c, Producer(ReadNext(p.intake), Holding))
      else Update(s, c, p.(phase := Stopped))
    else s
  }

  predicate NoDup(order: seq<ChanId>) {
    forall i, j :: 0 <= i < j < |order| ==> order[i] != order[j]
  }

  /** `order` is one way of ranging over the map's channels. */
  predicate Enumerates(order: seq<ChanId>, registry: map<ConsumerId, ChanId>) {
    && NoDup(order)
    && (forall ch :: ch in order ==> ch in registry.Values)
    && (forall ch :: ch in registry.Values ==> ch in order)
  }

  function SendTo(tag: nat, targets: seq<ChanId>): Phase {
    if targets == [] then Reading else Sending(tag, targets)
  }

  function ApplySnapshot(s: State, c: ConnId, order: seq<ChanId>): State {
    if c in s.conns && s.conns[c].Producer? && s.conns[c].phase.Holding? && Enumerates(order, s.registry) then
      Update(s, c, s.conns[c].(phase := SendTo(s.broadcasts, order))).(broadcasts := s.broadcasts + 1)
    else s
  }

  predicate CanSend(s: State, c: ConnId) {
    && c in s.conns && s.conns[c].Producer? && s.conns[c].phase.Sending?
    && s.conns[c].phase.targets != [] && s.conns[c].phase.targets[0] < |s.chans|
    && s.conns[c].intake.read != []
  }

  /** The message a broadcasting producer is sending. */
  function Current(s: State, c: ConnId): Msg
    requires CanSend(s, c)
  {
    var read := s.conns[c].intake.read;
    Msg(s.conns[c].phase.tag, c, |read| - 1, read[|read| - 1])
  }

  function Accept(ch: Channel, m: Msg): Channel {
    ch.(items := ch.items + [m], history := ch.history + [m])
  }

  /** One non-blocking send.  A full channel ends the whole broadcast. */
  function ApplySend(s: State, c: ConnId): State {
    if CanSend(s, c) then
      var p := s.conns[c];
      var i := p.phase.targets[0];
      var ch := s.chans[i];
      if ch.closed then s.(fault := SendOnClosed(c, i))
      else if |ch.items| < ch.cap then
        Update(s, c, p.(phase := SendTo(p.phase.tag, p.phase.targets[1..]))).(
          chans := s.chans[i := Accept(ch, Current(s, c))])
      else Update(s, c, p.(phase := Reading))
    else s
  }

  predicate FreshId(s: State, id: ConsumerId) {
    forall i :: 0 <= i < |s.chans| ==> s.chans[i].id != id
  }

  function ApplyRegister(s: State, c: ConnId, id: ConsumerId, cap: nat): State {
    if c in s.conns && s.conns[c].Consumer? && s.conns[c].stage.Starting? && FreshId(s, id) && cap > 0 then
      var i := |s.chans|;
      Update(s, c, Consumer(s.conns[c].outlet, Ranging, id, i)).(
        chans := s.chans + [Channel(id, c, cap, [], false, [], 0)],
        registry := s.registry[id := i])
    else s
  }

  predicate CanReceive(s: State, c: ConnId) {
    && c in s.conns && s.conns[c].Consumer? && s.conns[c].stage.Ranging? && s.conns[c].outlet.inFlight.None?
    && s.conns[c].ch < |s.chans|
    && (s.chans[s.conns[c].ch].items != [] || s.chans[s.conns[c].ch].closed)
  }

  /** The next iteration of the range loop: a message, or the end of the loop once
      the channel is closed and drained.  On an open empty channel it blocks. */
  function ApplyReceive(s: State, c: ConnId): State {
    if CanReceive(s, c) then
      var k := s.conns[c];
      var ch := s.chans[k.ch];
      if ch.items != [] then
        Update(s, c, k.(outlet := Take(k.outlet, ch.items[0]))).(chans := s.chans[k.ch := ch.(items := ch.items[1..])])
      else Update(s, c, k.(stage := Leaving))
    else s
  }

  predicate CanFinishWrite(s: State, c: ConnId, bytes: nat, ok: bool) {
    c in s.conns && s.conns[c].Consumer? && s.conns[c].stage.Ranging? && CanWrite(s.conns[c].outlet, bytes, ok)
  }

  function ApplyWrite(s: State, c: ConnId, bytes: nat, ok: bool): State {
    if CanFinishWrite(s, c, bytes, ok) then
      var k := s.conns[c];
      Update(s, c, k.(outlet := Written(k.outlet, bytes, ok), stage := if ok then Ranging else Leaving))
    else s
  }

  function Shut(ch: Channel): Channel {
    ch.(closed := true, closes := ch.closes + 1)
  }

  function ShutAll(chans: seq<Channel>, which: set<ChanId>): (r: seq<Channel>)
    ensures |r| == |chans|
    ensures forall i :: 0 <= i < |chans| ==> r[i] == if i in which then Shut(chans[i]) else chans[i]
  {
    seq(|chans|, i requires 0 <= i < |chans| => if i in which then Shut(chans[i]) else chans[i])
  }

  /** Closing the channels `which` panics when one of them is closed already. */
  predicate ClosePanics(s: State, which: set<ChanId>) {
    exists i :: i in which && i < |s.chans| && s.chans[i].closed
  }

  function ApplyUnregister(s: State, c: ConnId): State {
    if c in s.conns && s.conns[c].Consumer? && s.conns[c].stage.Leaving? then
      var k := s.conns[c];
      var s' := Update(s, c, k.(stage := Left));
      if k.id in s.registry then
        var which := {s.registry[k.id]};
        if ClosePanics(s, which) then s.(fault := CloseOfClosed)
        else s'.(chans := ShutAll(s.chans, which), registry := s.registry - {k.id})
      else s'
    else s
  }

  function ApplyClose(s: State): State {
    if ClosePanics(s, s.registry.Values) then s.(fault := CloseOfClosed)
    else s.(chans := ShutAll(s.chans, s.registry.Values), registry := map[])
  }

  function Apply(s: State, step: Step): State {
    if !s.fault.NoFault? then s else
    match step
    case Connect(c, input) => if c in s.conns then s else Update(s, c, Accepted(input))
    case ReadRole(c) => ApplyReadRole(s, c)
    case ReadFrame(c) => ApplyReadFrame(s, c)
    case Snapshot(c, order) => ApplySnapshot(s, c, order)
    case Send(c) => ApplySend(s, c)
    case Register(c, id, cap) => ApplyRegister(s, c, id, cap)
    case Receive(c) => ApplyReceive(s, c)
    case Write(c, bytes, ok) => ApplyWrite(s, c, bytes, ok)
    case Unregister(c) => ApplyUnregister(s, c)
    case CloseRegistry => ApplyClose(s)
  }

  function Exec(s: State, steps: seq<Step>): State { Run(Apply, s, steps) }

  // --------------------------------------------------------------- invariant

  ghost predicate InMap(s: State, i: ChanId)
    requires i < |s.chans|
  {
    s.chans[i].id in s.registry && s.registry[s.chans[i].id] == i
  }

  /** A channel that was ever registered is open exactly while it is in the map. */
  ghost predicate RegistryInv(s: State) {
    && (forall id :: id in s.registry ==> s.registry[id] < |s.chans| && s.chans[s.registry[id]].id == id)
    && (forall i, j :: 0 <= i < j < |s.chans| ==> s.chans[i].id != s.chans[j].id)
    && (forall i :: 0 <= i < |s.chans| ==> (s.chans[i].closed <==> !InMap(s, i)))
    && (forall i :: 0 <= i < |s.chans| ==> s.chans[i].closes == if s.chans[i].closed then 1 else 0)
  }

  /** A channel holds what it accepted and its consumer has not taken yet. */
  ghost predicate ChanInv(s: State, i: ChanId)
    requires i < |s.chans|
  {
    var ch := s.chans[i];
    && |ch.items| <= ch.cap
    && ch.owner in s.conns && s.conns[ch.owner].Consumer?
    && !s.conns[ch.owner].stage.Starting? && s.conns[ch.owner].ch == i
    && ch.history == Log(s.conns[ch.owner].outlet) + ch.items
  }

  ghost predicate ConsumerInv(s: State, c: ConnId)
    requires c in s.conns && s.conns[c].Consumer?
  {
    var k := s.conns[c];
    && OutletInv(k.outlet)
    && (k.outlet.inFlight.Some? ==> k.stage.Ranging?)
    && (k.outlet.lost.Some? ==> k.stage.Leaving? || k.stage.Left?)
    && (k.stage.Starting? ==> k.outlet == NewOutlet())
    && (!k.stage.Starting? ==> k.ch < |s.chans| && s.chans[k.ch].owner == c && s.chans[k.ch].id == k.id)
    && (k.stage.Left? ==> s.chans[k.ch].closed)
    && ((k.stage.Leaving? || k.stage.Left?) && k.outlet.lost.None? ==>
          s.chans[k.ch].closed && s.chans[k.ch].items == [])
  }

  ghost predicate ProducerInv(p: Conn, chans: nat)
    requires p.Producer?
  {
    && IntakeInv(p.intake)
    && (p.phase.Holding? || p.phase.Sending? ==> p.intake.read != [])
    && (p.phase.Sending? ==>
          && p.phase.targets != [] && NoDup(p.phase.targets)
          && forall i :: 0 <= i < |p.phase.targets| ==> p.phase.targets[i] < chans)
  }

  ghost predicate ConnInv(s: State, c: ConnId)
    requires c in s.conns
  {
    && (s.conns[c].Consumer? ==> ConsumerInv(s, c))
    && (s.conns[c].Producer? ==> ProducerInv(s.conns[c], |s.chans|))
  }

  /** How many of a producer's frames channel `i` may already hold. */
  ghost function Reached(p: Conn, i: ChanId): int
    requires p.Producer?
  {
    |p.intake.read| - if p.phase.Holding? || (p.phase.Sending? && i in p.phase.targets) then 1 else 0
  }

  ghost predicate Sourced(s: State, i: ChanId, m: Msg) {
    && m.origin in s.conns
    && s.conns[m.origin].Producer?
    && m.index < Reached(s.conns[m.origin], i)
    && m.body == s.conns[m.origin].intake.read[m.index]
  }

  ghost predicate HistoryInv(s: State, i: ChanId)
    requires i < |s.chans|
  {
    && (forall j :: 0 <= j < |s.chans[i].history| ==> Sourced(s, i, s.chans[i].history[j]))
    && InOriginOrder(s.chans[i].history)
  }

  ghost predicate ChansInv(s: State) { forall i :: 0 <= i < |s.chans| ==> ChanInv(s, i) }
  ghost predicate ConnsInv(s: State) { forall c :: c in s.conns ==> ConnInv(s, c) }
  ghost predicate HistoriesInv(s: State) { forall i :: 0 <= i < |s.chans| ==> HistoryInv(s, i) }

  ghost predicate Inv(s: State) {
    && RegistryInv(s) && ChansInv(s) && ConnsInv(s) && HistoriesInv(s)
    && !s.fault.CloseOfClosed?
  }

  // -------------------------------------------- steps of one connection only

  /** Producers are as they were, channels have no new messages. */
  lemma HistoriesFrame(s: State, s': State)
    requires HistoriesInv(s) && |s.chans| <= |s'.chans|
    requires forall i :: 0 <= i < |s.chans| ==> s'.chans[i].history == s.chans[i].history
    requires forall i :: |s.chans| <= i < |s'.chans| ==> s'.chans[i].history == []
    requires forall c :: c in s.conns && s.conns[c].Producer? ==> c in s'.conns && s'.conns[c] == s.conns[c]
    ensures HistoriesInv(s')
  {
    forall i | 0 <= i < |s'.chans| ensures HistoryInv(s', i) {
      if i < |s.chans| {
        assert HistoryInv(s, i);
        forall j | 0 <= j < |s'.chans[i].history| ensures Sourced(s', i, s'.chans[i].history[j]) {
          assert Sourced(s, i, s.chans[i].history[j]);
        }
      }
    }
  }

  lemma ConnsFrame(s: State, c: ConnId, x: Conn)
    requires ConnsInv(s) && ConnInv(Update(s, c, x), c)
    ensures ConnsInv(Update(s, c, x))
  {
    var s' := Update(s, c, x);
    forall d | d in s'.conns && d != c ensures ConnInv(s', d) {
      assert ConnInv(s, d);
    }
  }

  /** The registered consumers, as far as channels can tell, are as they were. */
  lemma ChansFrame(s: State, c: ConnId, x: Conn)
    requires ChansInv(s)
    requires c in s.conns && s.conns[c].Consumer? && !s.conns[c].stage.Starting? ==>
               && x.Consumer? && !x.stage.Starting? && x.ch == s.conns[c].ch
               && Log(x.outlet) == Log(s.conns[c].outlet)
    ensures ChansInv(Update(s, c, x))
  {
    var s' := Update(s, c, x);
    forall i | 0 <= i < |s'.chans| ensures ChanInv(s', i) {
      assert ChanInv(s, i);
    }
  }

  lemma RegistryFrame(s: State, c: ConnId, x: Conn)
    requires RegistryInv(s)
    ensures RegistryInv(Update(s, c, x))
  {
    assert forall i :: 0 <= i < |s.chans| ==> InMap(Update(s, c, x), i) == InMap(s, i);
  }

  /** A connection takes up a role, or is accepted in the first place. */
  lemma NewConnInv(s: State, c: ConnId, x: Conn)
    requires Inv(s) && (c in s.conns ==> s.conns[c].Accepted?)
    requires ConnInv(Update(s, c, x), c)
    ensures Inv(Update(s, c, x))
  {
    RegistryFrame(s, c, x);
    ChansFrame(s, c, x);
    ConnsFrame(s, c, x);
    HistoriesFrame(s, Update(s, c, x));
  }

  lemma ReadRoleInv(s: State, c: ConnId)
    requires Inv(s)
    ensures Inv(ApplyReadRole(s, c))
  {
    if c in s.conns && s.conns[c].Accepted? {
      match Roles.Serve(s.conns[c].input)
      case AsProducer(rest) => NewConnInv(s, c, Producer(NewIntake(s.conns[c].input, rest), Reading));
      case AsConsumer(_) => NewConnInv(s, c, Consumer(NewOutlet(), Starting, "", 0));
      case Dropped => NewConnInv(s, c, Dropped);
    }
  }

  /** A producer moving on keeps what channels already hold of it. */
  lemma ProducerMoves(s: State, c: ConnId, p: Conn)
    requires Inv(s) && c in s.conns && s.conns[c].Producer?
    requires p.Producer? && ProducerInv(p, |s.chans|)
    requires s.conns[c].intake.read <= p.intake.read
    requires forall i :: Reached(s.conns[c], i) <= Reached(p, i)
    ensures Inv(Update(s, c, p))
  {
    RegistryFrame(s, c, p);
    ChansFrame(s, c, p);
    ConnsFrame(s, c, p);
    ProducerHistories(s, c, p);
  }

  lemma ProducerHistories(s: State, c: ConnId, p: Conn)
    requires HistoriesInv(s) && c in s.conns && s.conns[c].Producer?
    requires p.Producer? && s.conns[c].intake.read <= p.intake.read
    requires forall i :: Reached(s.conns[c], i) <= Reached(p, i)
    ensures HistoriesInv(Update(s, c, p))
  {
    var s' := Update(s, c, p);
    forall i | 0 <= i < |s'.chans| ensures HistoryInv(s', i) {
      assert HistoryInv(s, i);
      forall j | 0 <= j < |s'.chans[i].history| ensures Sourced(s', i, s'.chans[i].history[j]) {
        assert Sourced(s, i, s.chans[i].history[j]);
        assert Reached(s.conns[c], i) <= Reached(p, i);
      }
    }
  }

  lemma ReadFrameInv(s: State, c: ConnId)
    requires Inv(s)
    ensures Inv(ApplyReadFrame(s, c))
  {
    var s' := ApplyReadFrame(s, c);
    if s' != s {
      assert ConnInv(s, c);
      var p := s.conns[c];
      if ReadOne(p.intake.rest).Body? {
        ReadNextInv(p.intake);
      }
      ProducerMoves(s, c, s'.conns[c]);
    }
  }

  lemma SnapshotInv(s: State, c: ConnId, order: seq<ChanId>)
    requires Inv(s)
    ensures Inv(ApplySnapshot(s, c, order))
  {
    var s' := ApplySnapshot(s, c, order);
    if s' != s {
      assert ConnInv(s, c);
      forall i | 0 <= i < |order| ensures order[i] < |s.chans| {
        assert order[i] in order && order[i] in s.registry.Values;
      }
      ProducerMoves(s, c, s'.conns[c]);
      CounterInv(Update(s, c, s'.conns[c]), s');
    }
  }

  /** The broadcast counter plays no part in the invariant. */
  lemma CounterInv(s: State, s': State)
    requires Inv(s) && s' == s.(broadcasts := s'.broadcasts)
    ensures Inv(s')
  {
    assert forall i :: 0 <= i < |s.chans| ==> InMap(s', i) == InMap(s, i);
    forall i | 0 <= i < |s.chans| ensures ChanInv(s', i) { assert ChanInv(s, i); }
    forall c | c in s.conns ensures ConnInv(s', c) { assert ConnInv(s, c); }
    HistoriesFrame(s, s');
  }

  // -------------------------------------------------------------------- send

  lemma SendInv(s: State, c: ConnId)
    requires Inv(s)
    ensures Inv(ApplySend(s, c))
  {
    if CanSend(s, c) {
      assert ConnInv(s, c);
      var p := s.conns[c];
      var i := p.phase.targets[0];
      if s.chans[i].closed {
        FaultInv(s, ApplySend(s, c));
      } else if |s.chans[i].items| < s.chans[i].cap {
        AcceptInv(s, c);
      } else {
        ProducerMoves(s, c, p.(phase := Reading));
      }
    }
  }

  lemma FaultInv(s: State, s': State)
    requires Inv(s) && s' == s.(fault := s'.fault) && !s'.fault.CloseOfClosed?
    ensures Inv(s')
  {
    assert forall i :: 0 <= i < |s.chans| ==> InMap(s', i) == InMap(s, i);
    forall i | 0 <= i < |s.chans| ensures ChanInv(s', i) { assert ChanInv(s, i); }
    forall c | c in s.conns ensures ConnInv(s', c) { assert ConnInv(s, c); }
    HistoriesFrame(s, s');
  }

  ghost predicate HasRoom(s: State, c: ConnId) {
    && CanSend(s, c)
    && !s.chans[s.conns[c].phase.targets[0]].closed
    && |s.chans[s.conns[c].phase.targets[0]].items| < s.chans[s.conns[c].phase.targets[0]].cap
  }

  lemma AcceptInv(s: State, c: ConnId)
    requires Inv(s) && HasRoom(s, c)
    ensures Inv(ApplySend(s, c))
  {
    var s' := ApplySend(s, c);
    assert forall i :: 0 <= i < |s.chans| ==> InMap(s', i) == InMap(s, i);
    assert ConnInv(s, c);
    AcceptChans(s, c);
    AcceptConns(s, c);
    forall i | 0 <= i < |s'.chans| ensures HistoryInv(s', i) {
      assert HistoryInv(s, i);
      AcceptHistory(s, c, i);
    }
  }

  lemma AcceptChans(s: State, c: ConnId)
    requires ChansInv(s) && HasRoom(s, c)
    ensures ChansInv(ApplySend(s, c))
  {
    forall i | 0 <= i < |s.chans| ensures ChanInv(ApplySend(s, c), i) {
      assert ChanInv(s, i);
    }
  }

  lemma AcceptConns(s: State, c: ConnId)
    requires ConnsInv(s) && HasRoom(s, c)
    ensures ConnsInv(ApplySend(s, c))
  {
    var s' := ApplySend(s, c);
    forall d | d in s'.conns ensures ConnInv(s', d) {
      assert ConnInv(s, d);
    }
  }

  lemma AcceptHistory(s: State, c: ConnId, i: ChanId)
    requires HasRoom(s, c) && ProducerInv(s.conns[c], |s.chans|)
    requires i < |s.chans| && HistoryInv(s, i)
    ensures HistoryInv(ApplySend(s, c), i)
  {
    var s' := ApplySend(s, c);
    var p, p' := s.conns[c], s'.conns[c];
    var t := p.phase.targets;
    assert forall k :: 0 <= k < |t[1..]| ==> t[1..][k] == t[k + 1];
    assert t[0] !in t[1..];
    assert i != t[0] ==> (i in t <==> i in t[1..]);
    assert Reached(p, i) <= Reached(p', i);
    var h := s.chans[i].history;
    forall j | 0 <= j < |h| ensures Sourced(s', i, h[j]) && (i == t[0] && h[j].origin == c ==> h[j].index < |p.intake.read| - 1) {
      assert Sourced(s, i, h[j]);
    }
  }

  // ---------------------------------------------------------------- consumers

  lemma RegisterInv(s: State, c: ConnId, id: ConsumerId, cap: nat)
    requires Inv(s)
    ensures Inv(ApplyRegister(s, c, id, cap))
  {
    var s' := ApplyRegister(s, c, id, cap);
    if s' != s {
      assert ConnInv(s, c);
      RegisterRegistry(s, c, id, cap);
      forall i | 0 <= i < |s'.chans| ensures ChanInv(s', i) {
        assert i < |s.chans| ==> ChanInv(s, i);
      }
      forall d | d in s'.conns ensures ConnInv(s', d) {
        assert ConnInv(s, d);
      }
      HistoriesFrame(s, s');
    }
  }

  lemma RegisterRegistry(s: State, c: ConnId, id: ConsumerId, cap: nat)
    requires RegistryInv(s) && ApplyRegister(s, c, id, cap) != s
    ensures RegistryInv(ApplyRegister(s, c, id, cap))
  {
    var s' := ApplyRegister(s, c, id, cap);
    assert forall i :: 0 <= i < |s.chans| ==> s'.chans[i] == s.chans[i] && InMap(s', i) == InMap(s, i);
    assert InMap(s', |s.chans|);
  }

  /** A consumer moving on within what it has already taken. */
  lemma ConsumerMoves(s: State, c: ConnId, k: Conn)
    requires Inv(s) && c in s.conns && s.conns[c].Consumer? && !s.conns[c].stage.Starting?
    requires k.Consumer? && !k.stage.Starting? && k.ch == s.conns[c].ch
    requires Log(k.outlet) == Log(s.conns[c].outlet) && ConsumerInv(Update(s, c, k), c)
    ensures Inv(Update(s, c, k))
  {
    RegistryFrame(s, c, k);
    ChansFrame(s, c, k);
    ConnsFrame(s, c, k);
    HistoriesFrame(s, Update(s, c, k));
  }

  lemma ReceiveInv(s: State, c: ConnId)
    requires Inv(s)
    ensures Inv(ApplyReceive(s, c))
  {
    if CanReceive(s, c) {
      assert ConnInv(s, c);
      var k := s.conns[c];
      if s.chans[k.ch].items != [] {
        TakeInv(s, c);
      } else {
        ConsumerMoves(s, c, k.(stage := Leaving));
      }
    }
  }

  ghost predicate CanTake(s: State, c: ConnId) {
    CanReceive(s, c) && s.chans[s.conns[c].ch].items != []
  }

  lemma TakeInv(s: State, c: ConnId)
    requires Inv(s) && CanTake(s, c)
    ensures Inv(ApplyReceive(s, c))
  {
    var s' := ApplyReceive(s, c);
    assert forall i :: 0 <= i < |s.chans| ==> InMap(s', i) == InMap(s, i);
    assert RegistryInv(s');
    TakeChans(s, c);
    TakeConns(s, c);
    HistoriesFrame(s, s');
  }

  lemma TakeChans(s: State, c: ConnId)
    requires ChansInv(s) && ConnsInv(s) && CanTake(s, c)
    ensures ChansInv(ApplyReceive(s, c))
  {
    assert ConnInv(s, c);
    forall i | 0 <= i < |s.chans| ensures ChanInv(ApplyReceive(s, c), i) {
      assert ChanInv(s, i);
      TakeChan(s, c, i);
    }
  }

  lemma TakeChan(s: State, c: ConnId, i: ChanId)
    requires CanTake(s, c) && s.conns[c].outlet.lost.None? && s.chans[s.conns[c].ch].owner == c
    requires i < |s.chans| && ChanInv(s, i)
    ensures ChanInv(ApplyReceive(s, c), i)
  {
    var k := s.conns[c];
    var items := s.chans[k.ch].items;
    TakeLog(k.outlet, items[0]);
    assert Log(k.outlet) + items == (Log(k.outlet) + [items[0]]) + items[1..];
  }

  lemma TakeConns(s: State, c: ConnId)
    requires ConnsInv(s) && CanTake(s, c)
    ensures ConnsInv(ApplyReceive(s, c))
  {
    assert ConnInv(s, c);
    forall d | d in s.conns ensures ConnInv(ApplyReceive(s, c), d) {
      assert ConnInv(s, d);
      TakeConn(s, c, d);
    }
  }

  lemma TakeConn(s: State, c: ConnId, d: ConnId)
    requires CanTake(s, c) && ConnInv(s, c)
    requires d in s.conns && ConnInv(s, d)
    ensures ConnInv(ApplyReceive(s, c), d)
  {}

  lemma WriteInv(s: State, c: ConnId, bytes: nat, ok: bool)
    requires Inv(s)
    ensures Inv(ApplyWrite(s, c, bytes, ok))
  {
    if CanFinishWrite(s, c, bytes, ok) {
      assert ConnInv(s, c);
      WrittenInv(s.conns[c].outlet, bytes, ok);
      ConsumerMoves(s, c, ApplyWrite(s, c, bytes, ok).conns[c]);
    }
  }

  /** Closing registered channels and taking them out of the map. */
  lemma ShutInv(s: State, ids: set<ConsumerId>, s': State)
    requires Inv(s) && ids <= s.registry.Keys
    requires s' == s.(chans := ShutAll(s.chans, set id | id in ids :: s.registry[id]), registry := s.registry - ids)
    ensures Inv(s')
  {
    ShutRegistry(s, ids, s');
    forall i | 0 <= i < |s'.chans| ensures ChanInv(s', i) { assert ChanInv(s, i); }
    forall d | d in s'.conns ensures ConnInv(s', d) { assert ConnInv(s, d); }
    HistoriesFrame(s, s');
  }

  lemma ShutRegistry(s: State, ids: set<ConsumerId>, s': State)
    requires RegistryInv(s) && ids <= s.registry.Keys
    requires s' == s.(chans := ShutAll(s.chans, set id | id in ids :: s.registry[id]), registry := s.registry - ids)
    ensures RegistryInv(s')
  {
    var which := set id | id in ids :: s.registry[id];
    forall i | 0 <= i < |s.chans|
      ensures i in which <==> InMap(s, i) && s.chans[i].id in ids
      ensures InMap(s', i) <==> InMap(s, i) && i !in which
    {
      if InMap(s, i) && s.chans[i].id in ids {
        assert s.registry[s.chans[i].id] == i;
      }
    }
  }

  /** Registered channels are open, so closing them never panics. */
  lemma NoClosePanic(s: State, which: set<ChanId>)
    requires RegistryInv(s) && which <= s.registry.Values
    ensures !ClosePanics(s, which)
  {
    forall i | i in which && i < |s.chans| ensures !s.chans[i].closed {
      var id :| id in s.registry && s.registry[id] == i;
      assert InMap(s, i);
    }
  }

  lemma UnregisterInv(s: State, c: ConnId)
    requires Inv(s)
    ensures Inv(ApplyUnregister(s, c))
  {
    if c in s.conns && s.conns[c].Consumer? && s.conns[c].stage.Leaving? {
      assert ConnInv(s, c);
      var k := s.conns[c];
      if k.id in s.registry {
        RemoveInv(s, c);
      } else {
        assert !InMap(s, k.ch);
        MarkLeft(s, c);
      }
    }
  }

  lemma RemoveInv(s: State, c: ConnId)
    requires Inv(s) && RegistryInv(s) && c in s.conns && s.conns[c].Consumer? && s.conns[c].stage.Leaving?
    requires s.conns[c].id in s.registry && ConsumerInv(s, c)
    ensures Inv(ApplyUnregister(s, c))
  {
    hide Inv, RegistryInv, ConsumerInv, ApplyUnregister, ShutAll;
    var k := s.conns[c];
    RemovedIs(s, c);
    assert (set id | id in {k.id} :: s.registry[id]) == {s.registry[k.id]};
    ShutInv(s, {k.id}, Removed(s, k.id));
    MarkLeft(Removed(s, k.id), c);
  }

  lemma MarkLeft(s: State, c: ConnId)
    requires Inv(s) && c in s.conns && s.conns[c].Consumer? && s.conns[c].stage.Leaving?
    requires s.conns[c].ch < |s.chans| && s.chans[s.conns[c].ch].closed
    ensures Inv(Update(s, c, s.conns[c].(stage := Left)))
  {
    assert ConnInv(s, c);
    ConsumerMoves(s, c, s.conns[c].(stage := Left));
  }

  /** The registry without `id`, whose channel is closed. */
  ghost function Removed(s: State, id: ConsumerId): State
    requires id in s.registry
  {
    s.(chans := ShutAll(s.chans, {s.registry[id]}), registry := s.registry - {id})
  }

  lemma RemovedIs(s: State, c: ConnId)
    requires RegistryInv(s) && c in s.conns && s.conns[c].Consumer? && s.conns[c].stage.Leaving?
    requires s.conns[c].id in s.registry && ConsumerInv(s, c)
    ensures ApplyUnregister(s, c) == Update(Removed(s, s.conns[c].id), c, s.conns[c].(stage := Left))
    ensures var s1 := Removed(s, s.conns[c].id);
            s1.conns == s.conns && s.conns[c].ch < |s1.chans| && s1.chans[s.conns[c].ch].closed
  {
    var k := s.conns[c];
    assert s.registry[k.id] in s.registry.Values;
    NoClosePanic(s, {s.registry[k.id]});
    assert s.registry[k.id] == k.ch;
  }

  lemma CloseInv(s: State)
    requires Inv(s)
    ensures Inv(ApplyClose(s))
  {
    NoClosePanic(s, s.registry.Values);
    var ids := s.registry.Keys;
    assert (set id | id in ids :: s.registry[id]) == s.registry.Values;
    assert s.registry - ids == map[];
    ShutInv(s, ids, ApplyClose(s));
  }

  lemma StepInv(s: State, step: Step)
    requires Inv(s)
    ensures Inv(Apply(s, step))
  {
    hide Inv, ApplyReadRole, ApplyReadFrame, ApplySnapshot, ApplySend, ApplyRegister, ApplyReceive, ApplyWrite,
         ApplyUnregister, ApplyClose;
    if s.fault.NoFault? {
      match step
      case Connect(c, input) => if c !in s.conns { NewConnInv(s, c, Accepted(input)); }
      case ReadRole(c) => ReadRoleInv(s, c);
      case ReadFrame(c) => ReadFrameInv(s, c);
      case Snapshot(c, order) => SnapshotInv(s, c, order);
      case Send(c) => SendInv(s, c);
      case Register(c, id, cap) => RegisterInv(s, c, id, cap);
      case Receive(c) => ReceiveInv(s, c);
      case Write(c, bytes, ok) => WriteInv(s, c, bytes, ok);
      case Unregister(c) => UnregisterInv(s, c);
      case CloseRegistry => CloseInv(s);
    }
  }

  /** Every interleaving keeps the invariant. */
  lemma {:induction false} RunInv(steps: seq<Step>)
    ensures Inv(Exec(Init, steps))
  {
    if steps != [] {
      RunInv(steps[..|steps| - 1]);
      StepInv(Exec(Init, steps[..|steps| - 1]), steps[|steps| - 1]);
    }
  }
}
