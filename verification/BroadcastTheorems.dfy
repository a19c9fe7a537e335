/** What every run of the broadcast-mode broker guarantees: channel lifecycle,
    order and at-most-once per producer and consumer, when a send can panic, and
    what a consumer receives before a shutdown completes. */
module BroadcastTheorems {
  import opened Framing
  import opened Sequences
  import opened Endpoints
  import opened BroadcastBroker
  import opened Runs
  import Roles

  ghost predicate IsConsumer(s: State, c: ConnId) { c in s.conns && s.conns[c].Consumer? }

  ghost predicate IsRegistered(s: State, c: ConnId) { IsConsumer(s, c) && !s.conns[c].stage.Starting? }

  // --------------------------------------------------------------- lifecycle

  /** In every run a once-registered channel is open exactly while it is in the
      map and is closed at most once; closing never panics, even when the registry
      is closed before a handler's deferred Unregister. */
  lemma Lifecycle(steps: seq<Step>, i: ChanId)
    requires i < |Exec(Init, steps).chans|
    ensures var s := Exec(Init, steps);
            && (s.chans[i].closed <==> !InMap(s, i))
            && s.chans[i].closes <= 1
            && !s.fault.CloseOfClosed?
  {
    RunInv(steps);
  }

  /** `step` unregisters channel `i` or closes the registry while it holds `i`. */
  ghost predicate Closes(s: State, step: Step, i: ChanId) {
    && s.fault.NoFault? && i < |s.chans| && InMap(s, i)
    && match step
       case Unregister(c) => IsConsumer(s, c) && s.conns[c].stage.Leaving? && s.conns[c].ch == i
       case CloseRegistry => true
       case _ => false
  }

  lemma ClosesIff(s: State, step: Step, i: ChanId)
    requires Inv(s) && i < |s.chans|
    ensures i < |Apply(s, step).chans|
    ensures Apply(s, step).chans[i].closed <==> s.chans[i].closed || Closes(s, step, i)
  {
    if s.fault.NoFault? {
      match step
      case CloseRegistry =>
        NoClosePanic(s, s.registry.Values);
        if InMap(s, i) {
          assert s.registry[s.chans[i].id] in s.registry.Values;
        }
      case Unregister(c) => UnregisterCloses(s, c, i);
      case _ =>
    }
  }

  lemma UnregisterCloses(s: State, c: ConnId, i: ChanId)
    requires Inv(s) && i < |s.chans|
    ensures |ApplyUnregister(s, c).chans| == |s.chans|
    ensures ApplyUnregister(s, c).chans[i].closed <==>
              s.chans[i].closed || (IsConsumer(s, c) && s.conns[c].stage.Leaving? && InMap(s, i) && s.conns[c].ch == i)
  {
    if IsConsumer(s, c) && s.conns[c].stage.Leaving? {
      assert ConnInv(s, c);
      var k := s.conns[c];
      if k.id in s.registry {
        assert s.registry[k.id] in s.registry.Values;
        NoClosePanic(s, {s.registry[k.id]});
      }
    }
  }

  lemma {:induction false} ExecInv(s: State, steps: seq<Step>)
    requires Inv(s)
    ensures Inv(Exec(s, steps))
  {
    if steps != [] {
      ExecInv(s, steps[..|steps| - 1]);
      StepInv(Exec(s, steps[..|steps| - 1]), steps[|steps| - 1]);
    }
  }

  /** Step `j` of the run unregisters or closes channel `i`. */
  ghost predicate ClosesAt(s: State, mid: seq<Step>, j: nat, i: ChanId) {
    j < |mid| && Closes(Exec(s, mid[..j]), mid[j], i)
  }

  ghost predicate ClosedDuring(s: State, mid: seq<Step>, i: ChanId) {
    exists j: nat :: ClosesAt(s, mid, j, i)
  }

  lemma ClosesAtInit(s: State, mid: seq<Step>, j: nat, i: ChanId)
    requires j < |mid| - 1
    ensures ClosesAt(s, mid, j, i) <==> ClosesAt(s, mid[..|mid| - 1], j, i)
  {
    assert mid[..|mid| - 1][..j] == mid[..j];
  }

  lemma ClosedDuringSnoc(s: State, mid: seq<Step>, i: ChanId)
    requires mid != []
    ensures ClosedDuring(s, mid, i) <==> ClosedDuring(s, mid[..|mid| - 1], i) || ClosesAt(s, mid, |mid| - 1, i)
  {
    var n := |mid| - 1;
    if j: nat :| ClosesAt(s, mid, j, i) {
      if j < n { ClosesAtInit(s, mid, j, i); }
    }
    if j: nat :| ClosesAt(s, mid[..n], j, i) {
      ClosesAtInit(s, mid, j, i);
    }
  }

  /** An open channel is closed later exactly when an Unregister or a Close of it
      happened in between. */
  lemma {:induction false} ClosedIffClosedDuring(s: State, mid: seq<Step>, i: ChanId)
    requires Inv(s) && i < |s.chans| && !s.chans[i].closed
    ensures i < |Exec(s, mid).chans|
    ensures Exec(s, mid).chans[i].closed <==> ClosedDuring(s, mid, i)
  {
    if mid != [] {
      var n := |mid| - 1;
      ClosedIffClosedDuring(s, mid[..n], i);
      ExecInv(s, mid[..n]);
      ClosesIff(Exec(s, mid[..n]), mid[n], i);
      ClosedDuringSnoc(s, mid, i);
    }
  }

  // --------------------------------------------------------- when sends panic

  /** Producer `c` is past the snapshot numbered `tag`; if it is still sending that
      broadcast, it sends only to channels of the snapshot. */
  ghost predicate Continues(s: State, c: ConnId, tag: nat, order: seq<ChanId>) {
    && c in s.conns && s.conns[c].Producer? && tag < s.broadcasts
    && (s.conns[c].phase.Sending? && s.conns[c].phase.tag == tag ==>
          forall i :: 0 <= i < |s.conns[c].phase.targets| ==> s.conns[c].phase.targets[i] in order)
  }

  lemma StepContinues(s: State, step: Step, c: ConnId, tag: nat, order: seq<ChanId>)
    requires Continues(s, c, tag, order)
    ensures Continues(Apply(s, step), c, tag, order)
  {
    if step == Send(c) && CanSend(s, c) {
      var t := s.conns[c].phase.targets;
      assert forall i :: 0 <= i < |t[1..]| ==> t[1..][i] == t[i + 1];
    }
  }

  lemma {:induction false} RunContinues(s: State, mid: seq<Step>, c: ConnId, tag: nat, order: seq<ChanId>)
    requires Continues(s, c, tag, order)
    ensures Continues(Exec(s, mid), c, tag, order)
  {
    if mid != [] {
      RunContinues(s, mid[..|mid| - 1], c, tag, order);
      StepContinues(Exec(s, mid[..|mid| - 1]), mid[|mid| - 1], c, tag, order);
    }
  }

  ghost predicate CanSnapshot(s: State, c: ConnId, order: seq<ChanId>) {
    && s.fault.NoFault? && c in s.conns && s.conns[c].Producer? && s.conns[c].phase.Holding?
    && Enumerates(order, s.registry)
  }

  /** The broadcast that began with the snapshot numbered `tag` has a next send. */
  ghost predicate AboutToSend(s: State, c: ConnId, tag: nat) {
    s.fault.NoFault? && CanSend(s, c) && s.conns[c].phase.tag == tag
  }

  /** A broadcast's send panics exactly when an Unregister or a Close of its target
      fell between that broadcast's snapshot and the send. */
  lemma {:induction false} SendPanicsIffClosedBetween(before: seq<Step>, c: ConnId, order: seq<ChanId>, mid: seq<Step>)
    requires CanSnapshot(Exec(Init, before), c, order)
    requires var s0 := Exec(Init, before);
             AboutToSend(Exec(Apply(s0, Snapshot(c, order)), mid), c, s0.broadcasts)
    ensures var s1 := Apply(Exec(Init, before), Snapshot(c, order));
            var s2 := Exec(s1, mid);
            Apply(s2, Send(c)).fault.SendOnClosed? <==> ClosedDuring(s1, mid, s2.conns[c].phase.targets[0])
  {
    RunInv(before);
    SendPanicsIff(Exec(Init, before), c, order, mid);
  }

  lemma {:induction false} SendPanicsIff(s0: State, c: ConnId, order: seq<ChanId>, mid: seq<Step>)
    requires Inv(s0) && CanSnapshot(s0, c, order)
    requires AboutToSend(Exec(Apply(s0, Snapshot(c, order)), mid), c, s0.broadcasts)
    ensures var s1 := Apply(s0, Snapshot(c, order));
            var s2 := Exec(s1, mid);
            Apply(s2, Send(c)).fault.SendOnClosed? <==> ClosedDuring(s1, mid, s2.conns[c].phase.targets[0])
  {
    var s1 := Apply(s0, Snapshot(c, order));
    var s2 := Exec(s1, mid);
    var i := s2.conns[c].phase.targets[0];
    SnapshotTargets(s0, c, order);
    RunContinues(s1, mid, c, s0.broadcasts, order);
    assert i in order;
    StepInv(s0, Snapshot(c, order));
    ClosedIffClosedDuring(s1, mid, i);
    SendPanics(s2, c);
  }

  lemma SendPanics(s: State, c: ConnId)
    requires s.fault.NoFault? && CanSend(s, c)
    ensures Apply(s, Send(c)).fault.SendOnClosed? <==> s.chans[s.conns[c].phase.targets[0]].closed
  {}

  /** A snapshot lists open channels only. */
  lemma SnapshotTargets(s: State, c: ConnId, order: seq<ChanId>)
    requires Inv(s) && CanSnapshot(s, c, order)
    ensures var s1 := Apply(s, Snapshot(c, order));
            && Continues(s1, c, s.broadcasts, order) && s1.chans == s.chans
            && forall i :: i in order ==> i < |s.chans| && !s.chans[i].closed
  {
    NoClosePanic(s, s.registry.Values);
    forall i | i in order ensures i < |s.chans| && !s.chans[i].closed {
      SnapshotInRange(s, i);
    }
  }

  lemma SnapshotInRange(s: State, i: ChanId)
    requires RegistryInv(s) && i in s.registry.Values
    ensures i < |s.chans|
  {
    var id :| id in s.registry && s.registry[id] == i;
  }

  // --------------------------------------------------------- order, end to end

  lemma HistoryFits(s: State, i: ChanId, j: nat)
    requires Inv(s) && i < |s.chans| && j < |s.chans[i].history|
    ensures Fits(s.chans[i].history[j].body)
  {
    assert HistoryInv(s, i);
    var m := s.chans[i].history[j];
    assert Sourced(s, i, m);
    assert ConnInv(s, m.origin);
    assert Fits(s.conns[m.origin].intake.read[m.index]);
  }

  /** What a channel accepted from one producer, up to any point, is a subsequence
      of that producer's frames, each at most once. */
  lemma PrefixSourced(s: State, i: ChanId, r: seq<Msg>, p: ConnId)
    requires Inv(s) && i < |s.chans| && r <= s.chans[i].history && p in s.conns && s.conns[p].Producer?
    ensures Embeds(Bodies(FromOrigin(r, p)), Decode(s.conns[p].intake.payload).bodies, Indices(FromOrigin(r, p)))
  {
    assert HistoryInv(s, i);
    assert ConnInv(s, p);
    var h := s.chans[i].history;
    forall j | 0 <= j < |r| && r[j].origin == p
      ensures r[j].index < |s.conns[p].intake.read| && r[j].body == s.conns[p].intake.read[r[j].index]
    {
      assert Sourced(s, i, h[j]);
    }
    FromOriginEmbeds(r, p, Decode(s.conns[p].intake.payload).bodies);
  }

  /** Broadcast order over every run, whatever the map order and other producers do:
      a peer that sent a producer role line and the frames of `bodies`, up to any
      byte, has in every consumer's channel history a subsequence of the bodies that
      arrive, each at most once: those wholly sent, up to the first one over the bound
      - all of them when all fit and all was sent. */
  lemma {:induction false} BroadcastOrder(steps: seq<Step>, i: ChanId, p: ConnId, crs: nat, bodies: seq<Bytes>, cut: nat)
    requires Readable(bodies) && cut <= |Frames(bodies)|
    requires var s := Exec(Init, steps);
             && i < |s.chans|
             && p in s.conns && s.conns[p].Producer?
             && s.conns[p].intake.input == Roles.Opening(Roles.PRODUCER, crs, Frames(bodies)[..cut])
    ensures var f := FromOrigin(Exec(Init, steps).chans[i].history, p);
            && Embeds(Bodies(f), Arriving(bodies, cut), Indices(f)) && Subsequence(Bodies(f), Arriving(bodies, cut))
            && (AllFit(bodies) && cut == |Frames(bodies)| ==> Subsequence(Bodies(f), bodies))
  {
    var s := Exec(Init, steps);
    RunInv(steps);
    PeerFrames(s, p, crs, bodies, cut);
    PrefixSourced(s, i, s.chans[i].history, p);
    var f := FromOrigin(s.chans[i].history, p);
    EmbedsIntro(Bodies(f), Arriving(bodies, cut), Indices(f));
  }

  /** What the handler of such a peer can read. */
  lemma PeerFrames(s: State, p: ConnId, crs: nat, bodies: seq<Bytes>, cut: nat)
    requires Inv(s) && p in s.conns && s.conns[p].Producer?
    requires Readable(bodies) && cut <= |Frames(bodies)|
    requires s.conns[p].intake.input == Roles.Opening(Roles.PRODUCER, crs, Frames(bodies)[..cut])
    ensures Decode(s.conns[p].intake.payload).bodies == Arriving(bodies, cut)
    ensures AllFit(bodies) && cut == |Frames(bodies)| ==> Arriving(bodies, cut) == bodies
  {
    assert ConnInv(s, p);
    Roles.ServedAsProducer(s.conns[p].intake.input, Frames(bodies)[..cut]);
    TruncationOfAny(bodies, cut);
    if AllFit(bodies) {
      AllArrive(bodies);
    }
  }

  lemma ConsumerChannel(s: State, c: ConnId)
    requires Inv(s) && IsRegistered(s, c)
    ensures s.conns[c].ch < |s.chans| && OutletInv(s.conns[c].outlet)
    ensures var ch := s.chans[s.conns[c].ch]; ch.history == Log(s.conns[c].outlet) + ch.items
  {
    assert ConnInv(s, c);
    assert ChanInv(s, s.conns[c].ch);
  }

  /** The bytes written to a consumer decode to a prefix of what its channel ever
      accepted, even when a write failed part way. */
  lemma {:induction false} ConsumerSeesPrefix(steps: seq<Step>, c: ConnId)
    requires IsRegistered(Exec(Init, steps), c)
    ensures var s := Exec(Init, steps);
            && s.conns[c].ch < |s.chans|
            && Decode(s.conns[c].outlet.wire).bodies == Bodies(Received(s.conns[c].outlet))
            && Received(s.conns[c].outlet) <= s.chans[s.conns[c].ch].history
  {
    var s := Exec(Init, steps);
    RunInv(steps);
    ConsumerChannel(s, c);
    var k := s.conns[c].outlet;
    var h := s.chans[s.conns[c].ch].history;
    forall j | 0 <= j < |Log(k)| ensures Fits(Log(k)[j].body) {
      assert Log(k)[j] == h[j];
      HistoryFits(s, s.conns[c].ch, j);
    }
    WireDecodes(k);
    ReceivedIsLogged(k);
  }

  /** From producer bytes to consumer bytes: what a consumer receives from such a
      peer is, in every run, a subsequence of the bodies that arrive. */
  lemma {:induction false} EndToEnd(steps: seq<Step>, p: ConnId, c: ConnId, crs: nat, bodies: seq<Bytes>, cut: nat)
    requires Readable(bodies) && cut <= |Frames(bodies)| && IsRegistered(Exec(Init, steps), c)
    requires var s := Exec(Init, steps);
             && p in s.conns && s.conns[p].Producer?
             && s.conns[p].intake.input == Roles.Opening(Roles.PRODUCER, crs, Frames(bodies)[..cut])
    ensures var r := Bodies(FromOrigin(Received(Exec(Init, steps).conns[c].outlet), p));
            && Subsequence(r, Arriving(bodies, cut))
            && (AllFit(bodies) && cut == |Frames(bodies)| ==> Subsequence(r, bodies))
  {
    var s := Exec(Init, steps);
    RunInv(steps);
    PeerFrames(s, p, crs, bodies, cut);
    ConsumerSeesPrefix(steps, c);
    var r := Received(s.conns[c].outlet);
    PrefixSourced(s, s.conns[c].ch, r, p);
    EmbedsIntro(Bodies(FromOrigin(r, p)), Arriving(bodies, cut), Indices(FromOrigin(r, p)));
  }

  // ---------------------------------------------------------------- shutdown

  ghost predicate HasLeft(s: State, c: ConnId) {
    IsConsumer(s, c) && (s.conns[c].stage.Leaving? || s.conns[c].stage.Left?)
  }

  /** A handler that left its loop without a failed write has written exactly what
      its channel ever accepted, in order, and the channel is closed for good. */
  lemma {:induction false} DrainedWhenLeft(steps: seq<Step>, c: ConnId)
    requires HasLeft(Exec(Init, steps), c) && Exec(Init, steps).conns[c].outlet.lost.None?
    ensures var s := Exec(Init, steps);
            && s.conns[c].ch < |s.chans| && s.chans[s.conns[c].ch].closed
            && s.conns[c].outlet.wire == Frames(Bodies(s.chans[s.conns[c].ch].history))
            && s.conns[c].outlet.delivered == s.chans[s.conns[c].ch].history
  {
    RunInv(steps);
    LeftIsDrained(Exec(Init, steps), c);
  }

  lemma LeftIsDrained(s: State, c: ConnId)
    requires Inv(s) && HasLeft(s, c) && s.conns[c].outlet.lost.None?
    ensures s.conns[c].ch < |s.chans| && s.chans[s.conns[c].ch].closed
    ensures s.conns[c].outlet.delivered == s.chans[s.conns[c].ch].history
    ensures s.conns[c].outlet.wire == Frames(Bodies(s.chans[s.conns[c].ch].history))
  {
    assert ConnInv(s, c);
    ConsumerChannel(s, c);
  }

  /** A closed channel accepts nothing more. */
  lemma ClosedStep(s: State, step: Step, i: ChanId)
    requires Inv(s) && i < |s.chans| && s.chans[i].closed
    ensures i < |Apply(s, step).chans|
    ensures Apply(s, step).chans[i].closed && Apply(s, step).chans[i].history == s.chans[i].history
    ensures |Apply(s, step).chans[i].items| <= |s.chans[i].items|
  {
    ClosesIff(s, step, i);
    ClosedKept(s, step, i);
  }

  lemma ClosedKept(s: State, step: Step, i: ChanId)
    requires i < |s.chans| && s.chans[i].closed
    ensures i < |Apply(s, step).chans| && Apply(s, step).chans[i].history == s.chans[i].history
    ensures |Apply(s, step).chans[i].items| <= |s.chans[i].items|
  {}

  /** How many loop steps a handler still has to take once its channel is closed. */
  ghost function Remaining(s: State, c: ConnId): nat {
    if IsRegistered(s, c) && s.conns[c].ch < |s.chans| && s.conns[c].stage.Ranging? then
      2 * |s.chans[s.conns[c].ch].items| + |Opt(s.conns[c].outlet.inFlight)| + 1
    else 0
  }

  /** `step` is an enabled step of the range loop of `c`. */
  ghost predicate LoopStep(s: State, step: Step, c: ConnId) {
    && s.fault.NoFault?
    && match step
       case Receive(d) => d == c && CanReceive(s, c)
       case Write(d, bytes, ok) => d == c && CanFinishWrite(s, c, bytes, ok)
       case _ => false
  }

  ghost predicate Draining(s: State, c: ConnId) {
    IsRegistered(s, c) && s.conns[c].ch < |s.chans| && s.chans[s.conns[c].ch].closed
  }

  /** On a closed channel the loop is never stuck: it can always take a step. */
  lemma LoopNeverStuck(s: State, c: ConnId) returns (step: Step)
    requires Draining(s, c) && s.conns[c].stage.Ranging? && s.fault.NoFault?
    ensures LoopStep(s, step, c) && (step.Write? ==> step.ok)
  {
    var k := s.conns[c].outlet;
    step := if k.inFlight.None? then Receive(c) else Write(c, 4 + |k.inFlight.value.body|, true);
  }

  ghost predicate WritesSucceed(step: Step, c: ConnId) {
    step.Write? && step.c == c ==> step.ok
  }

  lemma DrainStep(s: State, step: Step, c: ConnId)
    requires Inv(s) && Draining(s, c) && WritesSucceed(step, c)
    ensures var s' := Apply(s, step);
            && Draining(s', c) && s'.conns[c].ch == s.conns[c].ch
            && s'.conns[c].outlet.lost == s.conns[c].outlet.lost
            && Remaining(s', c) + (if LoopStep(s, step, c) then 1 else 0) <= Remaining(s, c)
  {
    var i := s.conns[c].ch;
    ClosedStep(s, step, i);
    ConsumerKept(s, step, c);
    if LoopStep(s, step, c) {
      LoopStepProgress(s, step, c);
    }
  }

  /** Nobody but the handler of `c` moves it; only its own steps change it. */
  lemma ConsumerKept(s: State, step: Step, c: ConnId)
    requires IsRegistered(s, c) && WritesSucceed(step, c)
    ensures var s' := Apply(s, step);
            && IsRegistered(s', c) && s'.conns[c].ch == s.conns[c].ch
            && s'.conns[c].outlet.lost == s.conns[c].outlet.lost
            && (!LoopStep(s, step, c) ==> s'.conns[c].outlet == s.conns[c].outlet
                                          && (s'.conns[c].stage.Ranging? ==> s.conns[c].stage.Ranging?))
  {}

  lemma LoopStepProgress(s: State, step: Step, c: ConnId)
    requires Draining(s, c) && LoopStep(s, step, c) && WritesSucceed(step, c)
    ensures Draining(Apply(s, step), c) && Apply(s, step).fault.NoFault?
    ensures Remaining(Apply(s, step), c) == Remaining(s, c) - 1
  {}

  /** How many enabled loop steps of `c` the run contains. */
  ghost function LoopSteps(s: State, steps: seq<Step>, c: ConnId): nat {
    if steps == [] then 0 else
    var n := |steps| - 1;
    LoopSteps(s, steps[..n], c) + if LoopStep(Exec(s, steps[..n]), steps[n], c) then 1 else 0
  }

  lemma {:induction false} DrainRun(s: State, steps: seq<Step>, c: ConnId)
    requires Inv(s) && Draining(s, c)
    requires AllWritesSucceed(steps, c)
    ensures var s' := Exec(s, steps);
            && Inv(s') && Draining(s', c) && s'.conns[c].ch == s.conns[c].ch
            && s'.conns[c].outlet.lost == s.conns[c].outlet.lost
            && s'.chans[s.conns[c].ch].history == s.chans[s.conns[c].ch].history
            && Remaining(s', c) + LoopSteps(s, steps, c) <= Remaining(s, c)
  {
    if steps != [] {
      var n := |steps| - 1;
      var y := Exec(s, steps[..n]);
      DrainRun(s, steps[..n], c);
      StepInv(y, steps[n]);
      ClosedStep(y, steps[n], y.conns[c].ch);
      DrainStep(y, steps[n], c);
    }
  }

  /** Draining on shutdown.  Take any run that closes the registry while a consumer
      is in its loop, go on in any way in which that consumer's writes succeed, and
      let its handler take as many loop steps as Remaining says: it has then ended,
      having written exactly the messages its channel ever accepted, in order. */
  lemma {:induction false} DrainsOnShutdown(before: seq<Step>, after: seq<Step>, c: ConnId)
    requires RangesBeforeClose(before, c) && AllWritesSucceed(after, c)
    requires var s := Apply(Exec(Init, before), CloseRegistry); LoopSteps(s, after, c) >= Remaining(s, c)
    ensures Drained(Exec(Apply(Exec(Init, before), CloseRegistry), after), c)
  {
    var s := Apply(Exec(Init, before), CloseRegistry);
    AfterClose(before, c);
    DrainRun(s, after, c);
    LeftIsDrained(Exec(s, after), c);
  }

  ghost predicate AllWritesSucceed(steps: seq<Step>, c: ConnId) {
    forall j :: 0 <= j < |steps| ==> WritesSucceed(steps[j], c)
  }

  /** The continuations DrainsOnShutdown speaks of exist: from any state with a closed
      channel the handler's own steps, its writes succeeding, suffice. */
  lemma {:induction false} LoopCanFinish(s: State, c: ConnId) returns (after: seq<Step>)
    requires Inv(s) && Draining(s, c) && s.fault.NoFault?
    ensures AllWritesSucceed(after, c) && LoopSteps(s, after, c) == Remaining(s, c) == |after|
    ensures Exec(s, after).fault.NoFault?
  {
    after := [];
    ghost var y := s;
    while Remaining(y, c) > 0
      invariant y == Exec(s, after) && Inv(y) && Draining(y, c) && y.fault.NoFault?
      invariant AllWritesSucceed(after, c)
      invariant LoopSteps(s, after, c) == |after| && |after| + Remaining(y, c) == Remaining(s, c)
      decreases Remaining(y, c)
    {
      var step := LoopNeverStuck(y, c);
      LoopStepProgress(y, step, c);
      StepInv(y, step);
      assert (after + [step])[..|after|] == after;
      y, after := Apply(y, step), after + [step];
    }
  }

  ghost predicate RangesBeforeClose(before: seq<Step>, c: ConnId) {
    var s := Exec(Init, before);
    s.fault.NoFault? && IsRegistered(s, c) && s.conns[c].stage.Ranging?
  }

  /** The channel's whole history is on the wire and the handler has ended. */
  ghost predicate Drained(s: State, c: ConnId) {
    && HasLeft(s, c) && s.conns[c].ch < |s.chans|
    && s.conns[c].outlet.wire == Frames(Bodies(s.chans[s.conns[c].ch].history))
  }

  lemma AfterClose(before: seq<Step>, c: ConnId)
    requires RangesBeforeClose(before, c)
    ensures var s := Apply(Exec(Init, before), CloseRegistry);
            Inv(s) && Draining(s, c) && s.conns[c].outlet.lost.None?
  {
    var s0 := Exec(Init, before);
    RunInv(before);
    StepInv(s0, CloseRegistry);
    NoClosePanic(s0, s0.registry.Values);
    ConsumerChannel(s0, c);
    assert ConnInv(s0, c);
    ClosesIff(s0, CloseRegistry, s0.conns[c].ch);
  }

  /** After a Close of the registry, however the run has gone on since, the handler
      alone can finish, and then it has written what its channel ever accepted. */
  lemma {:induction false} HandlerCanFinish(before: seq<Step>, mid: seq<Step>, c: ConnId) returns (after: seq<Step>)
    requires RangesBeforeClose(before, c) && AllWritesSucceed(mid, c)
    requires Exec(Apply(Exec(Init, before), CloseRegistry), mid).fault.NoFault?
    ensures AllWritesSucceed(after, c)
    ensures Drained(Exec(Apply(Exec(Init, before), CloseRegistry), mid + after), c)
  {
    var s := Apply(Exec(Init, before), CloseRegistry);
    AfterClose(before, c);
    DrainRun(s, mid, c);
    var y := Exec(s, mid);
    after := LoopCanFinish(y, c);
    DrainRun(y, after, c);
    LeftIsDrained(Exec(y, after), c);
    RunAppend(Apply, s, mid, after);
  }

  /** And no continuation stops short: when no loop step of the handler is left to
      take, everything its channel ever accepted has been written. */
  lemma {:induction false} QuietMeansDrained(before: seq<Step>, after: seq<Step>, c: ConnId)
    requires RangesBeforeClose(before, c) && AllWritesSucceed(after, c)
    requires var s := Exec(Apply(Exec(Init, before), CloseRegistry), after);
             s.fault.NoFault? && forall step :: !LoopStep(s, step, c)
    ensures Drained(Exec(Apply(Exec(Init, before), CloseRegistry), after), c)
  {
    var s := Apply(Exec(Init, before), CloseRegistry);
    AfterClose(before, c);
    DrainRun(s, after, c);
    var y := Exec(s, after);
    if y.conns[c].stage.Ranging? {
      var step := LoopNeverStuck(y, c);
    }
    LeftIsDrained(y, c);
  }

  // ----------------------------------------------------- fan-out, undisturbed

  ghost predicate Room(ch: Channel) { !ch.closed && |ch.items| < ch.cap }

  /** How many targets are served before the first one without room. */
  ghost function Served(chans: seq<Channel>, targets: seq<ChanId>): (f: nat)
    requires forall i :: 0 <= i < |targets| ==> targets[i] < |chans|
    ensures f <= |targets|
    ensures forall i :: 0 <= i < f ==> Room(chans[targets[i]])
    ensures f < |targets| ==> !Room(chans[targets[f]])
  {
    if targets == [] || !Room(chans[targets[0]]) then 0
    else
      assert forall i :: 0 <= i < |targets[1..]| ==> targets[1..][i] == targets[i + 1];
      1 + Served(chans, targets[1..])
  }

  function Sends(c: ConnId, n: nat): (steps: seq<Step>)
    ensures |steps| == n
  {
    seq(n, i => Send(c))
  }

  ghost predicate Broadcasting(s: State, c: ConnId) {
    && s.fault.NoFault? && CanSend(s, c) && NoDup(s.conns[c].phase.targets)
    && forall i :: 0 <= i < |s.conns[c].phase.targets| ==>
         s.conns[c].phase.targets[i] < |s.chans| && !s.chans[s.conns[c].phase.targets[i]].closed
  }

  /** After `n` undisturbed sends, all with room: exactly the first `n` targets have
      the message, and the broadcast goes on with the others. */
  ghost predicate Progress(s: State, s': State, c: ConnId, n: nat)
    requires Broadcasting(s, c) && n <= |s.conns[c].phase.targets|
  {
    var t := s.conns[c].phase.targets;
    && s'.fault.NoFault? && |s'.chans| == |s.chans|
    && (forall i :: 0 <= i < |s.chans| ==>
          s'.chans[i] == if i in t[..n] then Accept(s.chans[i], Current(s, c)) else s.chans[i])
    && s'.conns == s.conns[c := s.conns[c].(phase := SendTo(s.conns[c].phase.tag, t[n..]))]
  }

  lemma {:induction false} ServesInOrder(s: State, c: ConnId, n: nat)
    requires Broadcasting(s, c) && n <= Served(s.chans, s.conns[c].phase.targets)
    ensures Progress(s, Exec(s, Sends(c, n)), c, n)
  {
    var t := s.conns[c].phase.targets;
    if n == 0 {
      assert t[0..] == t;
      assert s.conns[c := s.conns[c]] == s.conns;
    } else {
      ServesInOrder(s, c, n - 1);
      assert Sends(c, n)[..n - 1] == Sends(c, n - 1);
      ServeNext(s, Exec(s, Sends(c, n - 1)), c, n - 1);
    }
  }

  lemma ServeNext(s: State, y: State, c: ConnId, n: nat)
    requires Broadcasting(s, c) && n < Served(s.chans, s.conns[c].phase.targets)
    requires Progress(s, y, c, n)
    ensures Progress(s, Apply(y, Send(c)), c, n + 1)
  {
    var t := s.conns[c].phase.targets;
    assert t[n..][0] == t[n] && t[n..][1..] == t[n + 1..];
    assert t[..n + 1] == t[..n] + [t[n]];
    assert t[n] !in t[..n];
  }

  /** The send that finds no room ends the broadcast. */
  lemma RefuseNext(s: State, y: State, c: ConnId, n: nat)
    requires Broadcasting(s, c) && n == Served(s.chans, s.conns[c].phase.targets) < |s.conns[c].phase.targets|
    requires Progress(s, y, c, n)
    ensures Apply(y, Send(c)) == Update(y, c, s.conns[c].(phase := Reading))
    ensures Apply(y, Send(c)).conns == s.conns[c := s.conns[c].(phase := Reading)]
  {
    var t := s.conns[c].phase.targets;
    assert t[n..][0] == t[n];
    assert t[n] !in t[..n];
    assert y.chans[t[n]] == s.chans[t[n]];
  }

  /** The outcome of a whole broadcast of the message `c` is sending. */
  ghost predicate FannedOut(s: State, s': State, c: ConnId)
    requires Broadcasting(s, c)
  {
    var t := s.conns[c].phase.targets;
    var f := Served(s.chans, t);
    && |s'.chans| == |s.chans|
    && (forall i :: 0 <= i < |s.chans| ==>
          s'.chans[i] == if i in t[..f] then Accept(s.chans[i], Current(s, c)) else s.chans[i])
    && (f == |t| <==> forall i :: 0 <= i < |t| ==> Room(s.chans[t[i]]))
    && s'.conns == s.conns[c := s.conns[c].(phase := Reading)]
    && s'.registry == s.registry && s'.fault.NoFault?
  }

  /** Broadcast fan-out taken without interference, for any visiting order: it
      succeeds exactly when every channel of the snapshot had room, and then each
      history grew by exactly that message; otherwise the channels that got it are
      exactly those visited before the first full one.  Either way the producer is
      reading again and nothing else changed. */
  lemma {:induction false} FanOut(s: State, c: ConnId)
    requires Broadcasting(s, c)
    ensures FannedOut(s, Exec(s, Sends(c, |s.conns[c].phase.targets|)), c)
  {
    var t := s.conns[c].phase.targets;
    var f := Served(s.chans, t);
    ServesInOrder(s, c, f);
    SendsKeepRegistry(s, c, |t|);
    if f == |t| {
      assert t[f..] == [];
    } else {
      var y := Exec(s, Sends(c, f));
      RefuseNext(s, y, c, f);
      assert Sends(c, f + 1)[..f] == Sends(c, f);
      Idle(s, c, f + 1, |t|);
    }
  }

  /** A slow consumer is not isolated from the others: once a full channel is met,
      every channel visited after it misses the message, room or not. */
  lemma {:induction false} FullChannelCutsOffTheRest(s: State, c: ConnId, i: nat, j: nat)
    requires Broadcasting(s, c)
    requires i < j < |s.conns[c].phase.targets| && !Room(s.chans[s.conns[c].phase.targets[i]])
    ensures var t := s.conns[c].phase.targets;
            var s' := Exec(s, Sends(c, |t|));
            |s'.chans| == |s.chans| && s'.chans[t[j]] == s.chans[t[j]]
  {
    FanOut(s, c);
    var t := s.conns[c].phase.targets;
    var f := Served(s.chans, t);
    assert f <= i;
    assert t[j] !in t[..f];
  }

  lemma {:induction false} SendsKeepRegistry(s: State, c: ConnId, n: nat)
    ensures Exec(s, Sends(c, n)).registry == s.registry
  {
    if n > 0 {
      assert Sends(c, n)[..n - 1] == Sends(c, n - 1);
      SendsKeepRegistry(s, c, n - 1);
    }
  }

  lemma {:induction false} Idle(s: State, c: ConnId, m: nat, n: nat)
    requires m <= n && !CanSend(Exec(s, Sends(c, m)), c)
    ensures Exec(s, Sends(c, n)) == Exec(s, Sends(c, m))
    decreases n - m
  {
    if m < n {
      assert Sends(c, n)[..n - 1] == Sends(c, n - 1);
      Idle(s, c, m, n - 1);
    }
  }

  // ----------------------------------------------------------------- progress

  /** A producer waits for a frame that its peer has sent. */
  ghost predicate FrameReady(s: State, p: ConnId) {
    && s.fault.NoFault? && p in s.conns && s.conns[p].Producer? && s.conns[p].phase.Reading?
    && ReadOne(s.conns[p].intake.rest).Body?
  }

  /** The state of `p` in the middle of its next broadcast, before any send. */
  lemma SnapshotTaken(s: State, p: ConnId, order: seq<ChanId>)
    requires Inv(s) && FrameReady(s, p) && Enumerates(order, s.registry) && order != []
    ensures var y := Exec(s, [ReadFrame(p), Snapshot(p, order)]);
            var r := ReadOne(s.conns[p].intake.rest);
            && y.chans == s.chans && y.registry == s.registry && Broadcasting(y, p)
            && y.conns[p].phase == Sending(s.broadcasts, order)
            && Current(y, p) == Msg(s.broadcasts, p, |s.conns[p].intake.read|, r.body)
            && y.conns[p].intake.rest == r.rest && y.conns[p].intake.read == s.conns[p].intake.read + [r.body]
            && y.conns.Keys == s.conns.Keys && y.broadcasts == s.broadcasts + 1
            && (forall d :: d in s.conns && d != p ==> y.conns[d] == s.conns[d])
  {
    RunTwo(Apply, s, ReadFrame(p), Snapshot(p, order));
    forall i | 0 <= i < |order| ensures order[i] < |s.chans| && !s.chans[order[i]].closed {
      assert order[i] in order;
      SnapshotInRange(s, order[i]);
      NoClosePanic(s, {order[i]});
    }
  }

  /** From `s` to `s'` the next frame of `p` went to the registered channels, each of
      them, and nothing else happened. */
  ghost predicate WentOut(s: State, s': State, p: ConnId)
    requires FrameReady(s, p)
  {
    var r := ReadOne(s.conns[p].intake.rest);
    var m := Msg(s.broadcasts, p, |s.conns[p].intake.read|, r.body);
    && |s'.chans| == |s.chans|
    && (forall i :: 0 <= i < |s.chans| ==>
          s'.chans[i] == if i in s.registry.Values then Accept(s.chans[i], m) else s.chans[i])
    && p in s'.conns && s'.conns[p].Producer? && s'.conns[p].phase.Reading? && s'.fault.NoFault?
    && s'.conns[p].intake.rest == r.rest && s'.conns[p].intake.read == s.conns[p].intake.read + [r.body]
    && s'.registry == s.registry && s'.conns.Keys == s.conns.Keys
    && (forall d :: d in s.conns && d != p ==> s'.conns[d] == s.conns[d])
  }

  lemma ReachesSome(s: State, p: ConnId, order: seq<ChanId>)
    requires Inv(s) && FrameReady(s, p) && Enumerates(order, s.registry) && order != []
    requires forall i :: i in s.registry.Values && i < |s.chans| ==> Room(s.chans[i])
    ensures WentOut(s, Exec(s, [ReadFrame(p), Snapshot(p, order)] + Sends(p, |order|)), p)
  {
    var first := [ReadFrame(p), Snapshot(p, order)];
    var y := Exec(s, first);
    SnapshotTaken(s, p, order);
    RunAppend(Apply, s, first, Sends(p, |order|));
    FanOut(y, p);
    forall i | 0 <= i < |order| ensures Room(y.chans[order[i]]) {
      assert order[i] in order;
    }
    assert order[..|order|] == order;
  }


  /** With nobody registered the frame is read and dropped. */
  lemma ReachesNobody(s: State, p: ConnId)
    requires FrameReady(s, p) && s.registry.Values == {}
    ensures WentOut(s, Exec(s, [ReadFrame(p), Snapshot(p, [])] + Sends(p, 0)), p)
  {
    assert [ReadFrame(p), Snapshot(p, [])] + Sends(p, 0) == [ReadFrame(p), Snapshot(p, [])];
    RunTwo(Apply, s, ReadFrame(p), Snapshot(p, []));
  }

  /** When no interference strikes and every registered channel has room, the next
      frame of a producer reaches all of them, and exactly them; nobody, when nobody is
      registered.  Either way the producer is ready for its next frame. */
  lemma {:induction false} BroadcastReachesAll(s: State, p: ConnId, order: seq<ChanId>)
    requires Inv(s) && FrameReady(s, p) && Enumerates(order, s.registry)
    requires forall i :: i in s.registry.Values && i < |s.chans| ==> Room(s.chans[i])
    ensures WentOut(s, Exec(s, [ReadFrame(p), Snapshot(p, order)] + Sends(p, |order|)), p)
  {
    if order == [] {
      assert s.registry.Values == {};
      ReachesNobody(s, p);
    } else {
      ReachesSome(s, p, order);
    }
  }

  // ------------------------------------------------ runs that panic or starve

  /** Between a snapshot and its first send a Close of the registry always makes that
      send panic. */
  lemma {:induction false} CloseBeforeSendPanics(s: State, c: ConnId, order: seq<ChanId>)
    requires Inv(s) && CanSnapshot(s, c, order) && order != []
    ensures Exec(s, [Snapshot(c, order), CloseRegistry, Send(c)]).fault == SendOnClosed(c, order[0])
  {
    var s1 := Apply(s, Snapshot(c, order));
    RunThree(Apply, s, Snapshot(c, order), CloseRegistry, Send(c));
    StepInv(s, Snapshot(c, order));
    assert ConnInv(s, c);
    assert order[0] in order;
    SnapshotInRange(s, order[0]);
    CloseShuts(s1, order[0]);
    ClosedSendPanics(Apply(s1, CloseRegistry), c);
  }

  lemma CloseShuts(s: State, i: ChanId)
    requires Inv(s) && s.fault.NoFault? && i in s.registry.Values && i < |s.chans|
    ensures var y := Apply(s, CloseRegistry);
            y.conns == s.conns && y.fault.NoFault? && |y.chans| == |s.chans| && y.chans[i].closed
  {
    NoClosePanic(s, s.registry.Values);
  }

  lemma ClosedSendPanics(y: State, c: ConnId)
    requires y.fault.NoFault? && CanSend(y, c) && y.chans[y.conns[c].phase.targets[0]].closed
    ensures Apply(y, Send(c)).fault == SendOnClosed(c, y.conns[c].phase.targets[0])
  {}

  lemma ArrivesAsProducer(s: State, c: ConnId, payload: Bytes)
    requires s.fault.NoFault? && c !in s.conns
    ensures var input := Roles.Opening(Roles.PRODUCER, 0, payload);
            Exec(s, [Connect(c, input), ReadRole(c)]) == Update(s, c, Producer(NewIntake(input, payload), Reading))
  {
    var input := Roles.Opening(Roles.PRODUCER, 0, payload);
    Roles.ServedAsProducer(input, payload);
    RunTwo(Apply, s, Connect(c, input), ReadRole(c));
    var p := Producer(NewIntake(input, payload), Reading);
    assert s.conns[c := Accepted(input)][c := p] == s.conns[c := p];
  }

  function Join(c: ConnId, id: ConsumerId, cap: nat): seq<Step> {
    [Connect(c, Roles.Opening(Roles.CONSUMER, 0, [])), ReadRole(c), Register(c, id, cap)]
  }

  lemma Joins(s: State, c: ConnId, id: ConsumerId, cap: nat)
    requires s.fault.NoFault? && c !in s.conns && FreshId(s, id) && cap > 0
    ensures Exec(s, Join(c, id, cap)) ==
            Update(s, c, Consumer(NewOutlet(), Ranging, id, |s.chans|)).(
              chans := s.chans + [Channel(id, c, cap, [], false, [], 0)], registry := s.registry[id := |s.chans|])
  {
    var line := Roles.Opening(Roles.CONSUMER, 0, []);
    Roles.ServedAsConsumer(line, []);
    RunThree(Apply, s, Connect(c, line), ReadRole(c), Register(c, id, cap));
    var k := Consumer(NewOutlet(), Ranging, id, |s.chans|);
    assert s.conns[c := Accepted(line)][c := Consumer(NewOutlet(), Starting, "", 0)][c := k] == s.conns[c := k];
  }

  /** A producer with something to say and one consumer. */
  function SetUp(payload: Bytes, cap: nat): seq<Step> {
    [Connect(0, Roles.Opening(Roles.PRODUCER, 0, payload)), ReadRole(0)] + Join(1, "a", cap)
  }

  lemma SetUpState(payload: Bytes, cap: nat)
    requires cap > 0
    ensures var s := Exec(Init, SetUp(payload, cap));
            && s.fault.NoFault? && s.registry == map["a" := 0] && s.chans == [Channel("a", 1, cap, [], false, [], 0)]
            && s.conns.Keys == {0, 1} && s.broadcasts == 0
            && s.conns[1] == Consumer(NewOutlet(), Ranging, "a", 0)
            && s.conns[0] == Producer(NewIntake(Roles.Opening(Roles.PRODUCER, 0, payload), payload), Reading)
  {
    var first := [Connect(0, Roles.Opening(Roles.PRODUCER, 0, payload)), ReadRole(0)];
    ArrivesAsProducer(Init, 0, payload);
    Joins(Exec(Init, first), 1, "a", cap);
    RunAppend(Apply, Init, first, Join(1, "a", cap));
  }

  /** The shutdown results are not empty: this run has a consumer in its loop, and a
      continuation in which its handler takes the steps it needs. */
  lemma {:induction false} ShutdownRun(payload: Bytes) returns (after: seq<Step>)
    ensures RangesBeforeClose(SetUp(payload, 1), 1) && AllWritesSucceed(after, 1)
    ensures var s := Apply(Exec(Init, SetUp(payload, 1)), CloseRegistry); LoopSteps(s, after, 1) >= Remaining(s, 1) > 0
  {
    var s := Exec(Init, SetUp(payload, 1));
    SetUpState(payload, 1);
    RunInv(SetUp(payload, 1));
    assert s.registry["a"] == 0;
    CloseShuts(s, 0);
    AfterClose(SetUp(payload, 1), 1);
    after := LoopCanFinish(Apply(s, CloseRegistry), 1);
  }

  /** A panic is reachable, with every message: nine steps from the start. */
  lemma {:induction false} PanickingRun(body: Bytes)
    requires Fits(body)
    ensures var run := SetUp(Frame(body), 1) + [ReadFrame(0)] + [Snapshot(0, [0]), CloseRegistry, Send(0)];
            Exec(Init, run).fault == SendOnClosed(0, 0)
  {
    var start := SetUp(Frame(body), 1) + [ReadFrame(0)];
    var s := Exec(Init, SetUp(Frame(body), 1));
    SetUpState(Frame(body), 1);
    assert Frame(body) + [] == Frame(body);
    ReadOneOfFrame(body, []);
    RunAppend(Apply, Init, SetUp(Frame(body), 1), [ReadFrame(0)]);
    RunOne(Apply, s, ReadFrame(0));
    RunInv(start);
    assert s.registry["a"] == 0 && s.registry.Values == {0};
    CloseBeforeSendPanics(Exec(Init, start), 0, [0]);
    RunAppend(Apply, Init, start, [Snapshot(0, [0]), CloseRegistry, Send(0)]);
  }

  /** One message fills the first consumer's channel; then a second consumer joins. */
  function Filling(payload: Bytes): seq<Step> {
    SetUp(payload, 1) + ([ReadFrame(0), Snapshot(0, [0])] + Sends(0, 1)) + Join(2, "b", 1)
  }

  lemma FilledState(a: Bytes, b: Bytes)
    requires Fits(a) && Fits(b)
    ensures var s := Exec(Init, SetUp(Frame(a) + Frame(b), 1) + ([ReadFrame(0), Snapshot(0, [0])] + Sends(0, 1)));
            && |s.chans| == 1 && !Room(s.chans[0]) && s.chans[0].id == "a" && s.registry == map["a" := 0]
            && FrameReady(s, 0) && s.conns.Keys == {0, 1}
  {
    var payload := Frame(a) + Frame(b);
    var fan := [ReadFrame(0), Snapshot(0, [0])] + Sends(0, 1);
    var s := Exec(Init, SetUp(payload, 1));
    SetUpState(payload, 1);
    RunInv(SetUp(payload, 1));
    ReadOneOfFrame(a, Frame(b));
    assert Frame(b) + [] == Frame(b);
    ReadOneOfFrame(b, []);
    assert s.registry["a"] == 0 && s.registry.Values == {0};
    BroadcastReachesAll(s, 0, [0]);
    RunAppend(Apply, Init, SetUp(payload, 1), fan);
  }

  lemma FillingState(a: Bytes, b: Bytes)
    requires Fits(a) && Fits(b)
    ensures var s := Exec(Init, Filling(Frame(a) + Frame(b)));
            && |s.chans| == 2 && !Room(s.chans[0]) && s.chans[1] == Channel("b", 2, 1, [], false, [], 0)
            && s.registry == map["a" := 0, "b" := 1]
            && FrameReady(s, 0)
  {
    var filled := SetUp(Frame(a) + Frame(b), 1) + ([ReadFrame(0), Snapshot(0, [0])] + Sends(0, 1));
    FilledState(a, b);
    Joins(Exec(Init, filled), 2, "b", 1);
    RunAppend(Apply, Init, filled, Join(2, "b", 1));
  }

  /** A consumer with an empty channel can miss a message because of another one. */
  lemma {:induction false} StarvingRun(a: Bytes, b: Bytes)
    requires Fits(a) && Fits(b)
    ensures var run := Filling(Frame(a) + Frame(b)) + ([ReadFrame(0), Snapshot(0, [0, 1])] + Sends(0, 2));
            var s := Exec(Init, run);
            && |s.chans| == 2 && InMap(s, 1) && Room(s.chans[1]) && s.chans[1].history == []
            && 0 in s.conns && s.conns[0].Producer? && s.conns[0].phase.Reading?
  {
    var start := Filling(Frame(a) + Frame(b));
    var first := [ReadFrame(0), Snapshot(0, [0, 1])];
    var s := Exec(Init, start);
    FillingState(a, b);
    RunInv(start);
    assert s.registry["a"] == 0 && s.registry["b"] == 1 && s.registry.Values == {0, 1};
    SnapshotTaken(s, 0, [0, 1]);
    var y := Exec(s, first);
    FullChannelCutsOffTheRest(y, 0, 0, 1);
    FanOut(y, 0);
    RunAppend(Apply, s, first, Sends(0, 2));
    RunAppend(Apply, Init, start, first + Sends(0, 2));
  }
}
