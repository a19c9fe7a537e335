/** Which messages reach which consumers of the broadcast-mode broker: what a consumer
    can still receive, and how far each broadcast has spread. */
module BroadcastDelivery {
  import opened Framing
  import opened Sequences
  import opened Endpoints
  import opened Runs
  import opened BroadcastBroker
  import opened BroadcastTheorems
  import Roles

  // --------------------------------------- which messages can be received

  /** The `j`-th message `c` has received is `m`. */
  ghost predicate ReceivedAt(s: State, c: ConnId, j: nat, m: Msg) {
    && IsRegistered(s, c)
    && j < |Received(s.conns[c].outlet)| && Received(s.conns[c].outlet)[j] == m
  }

  /** Some continuation brings it to `c`. */
  ghost predicate Receivable(s: State, c: ConnId, j: nat, m: Msg) {
    exists steps: seq<Step> :: ReceivedAt(Exec(s, steps), c, j, m)
  }

  /** Once a write has failed nothing more happens on that connection. */
  lemma LostStep(s: State, step: Step, c: ConnId)
    requires Inv(s) && IsRegistered(s, c) && s.conns[c].outlet.lost.Some?
    ensures IsRegistered(Apply(s, step), c) && Apply(s, step).conns[c].outlet == s.conns[c].outlet
  {
    assert ConnInv(s, c);
    OutletKept(s, step, c);
  }

  lemma OutletKept(s: State, step: Step, c: ConnId)
    requires IsRegistered(s, c) && !s.conns[c].stage.Ranging?
    ensures IsRegistered(Apply(s, step), c) && Apply(s, step).conns[c].outlet == s.conns[c].outlet
  {}

  lemma {:induction false} LostRun(s: State, steps: seq<Step>, c: ConnId)
    requires Inv(s) && IsRegistered(s, c) && s.conns[c].outlet.lost.Some?
    ensures IsRegistered(Exec(s, steps), c) && Exec(s, steps).conns[c].outlet == s.conns[c].outlet
  {
    if steps != [] {
      var n := |steps| - 1;
      LostRun(s, steps[..n], c);
      ExecInv(s, steps[..n]);
      LostStep(Exec(s, steps[..n]), steps[n], c);
    }
  }

  /** `c` is in its loop and all its writes have succeeded. */
  ghost predicate Serving(s: State, c: ConnId) {
    && s.fault.NoFault? && IsRegistered(s, c) && s.conns[c].stage.Ranging?
    && s.conns[c].outlet.lost.None? && s.conns[c].ch < |s.chans|
  }

  ghost function HistoryOf(s: State, c: ConnId): seq<Msg>
    requires IsRegistered(s, c) && s.conns[c].ch < |s.chans|
  {
    s.chans[s.conns[c].ch].history
  }

  /** Steps to go until everything accepted so far is delivered. */
  ghost function Undelivered(s: State, c: ConnId): int
    requires Serving(s, c)
  {
    2 * (|HistoryOf(s, c)| - |s.conns[c].outlet.delivered|) - |Opt(s.conns[c].outlet.inFlight)|
  }

  lemma NextDelivery(s: State, c: ConnId) returns (step: Step)
    requires Inv(s) && Serving(s, c) && |s.conns[c].outlet.delivered| < |HistoryOf(s, c)|
    ensures var s' := Apply(s, step);
            && Serving(s', c) && HistoryOf(s', c) == HistoryOf(s, c) && Undelivered(s', c) < Undelivered(s, c)
  {
    ConsumerChannel(s, c);
    var k := s.conns[c].outlet;
    step := if k.inFlight.None? then Receive(c) else Write(c, 4 + |k.inFlight.value.body|, true);
    if k.inFlight.None? {
      assert Log(k) == k.delivered;
    }
  }

  lemma ReachesPosition(s: State, c: ConnId, j: nat)
    requires Inv(s) && Serving(s, c) && j < |HistoryOf(s, c)|
    ensures Receivable(s, c, j, HistoryOf(s, c)[j])
  {
    var after: seq<Step>, y := [], s;
    while |y.conns[c].outlet.delivered| <= j
      invariant y == Exec(s, after) && Inv(y) && Serving(y, c) && HistoryOf(y, c) == HistoryOf(s, c)
      decreases Undelivered(y, c)
    {
      var step := NextDelivery(y, c);
      StepInv(y, step);
      assert (after + [step])[..|after|] == after;
      y, after := Apply(y, step), after + [step];
    }
    ReceivedIsAccepted(y, c);
    assert ReceivedAt(Exec(s, after), c, j, HistoryOf(s, c)[j]);
  }

  lemma ReceivedIsAccepted(s: State, c: ConnId)
    requires Inv(s) && IsRegistered(s, c)
    ensures s.conns[c].ch < |s.chans| && Received(s.conns[c].outlet) <= HistoryOf(s, c)
    ensures |s.conns[c].outlet.delivered| <= |Received(s.conns[c].outlet)|
  {
    ConsumerChannel(s, c);
    ReceivedIsLogged(s.conns[c].outlet);
  }

  /** Exactly which of the messages its channel accepted a consumer can still receive:
      all of them as long as none of its writes has failed, and from then on only
      those it has received already, whatever room its channel had. */
  lemma {:induction false} ReceivableIff(s: State, c: ConnId, j: nat)
    requires Inv(s) && s.fault.NoFault? && IsRegistered(s, c)
    requires s.conns[c].ch < |s.chans| && j < |HistoryOf(s, c)|
    ensures Receivable(s, c, j, HistoryOf(s, c)[j]) <==>
              s.conns[c].outlet.lost.None? || j < |Received(s.conns[c].outlet)|
  {
    var m := HistoryOf(s, c)[j];
    ReceivedIsAccepted(s, c);
    if j < |Received(s.conns[c].outlet)| {
      assert Exec(s, []) == s;
      assert ReceivedAt(Exec(s, []), c, j, m);
    } else if s.conns[c].outlet.lost.Some? {
      forall steps: seq<Step> ensures !ReceivedAt(Exec(s, steps), c, j, m) {
        LostRun(s, steps, c);
      }
    } else {
      if !s.conns[c].stage.Ranging? {
        LeftIsDrained(s, c);
      }
      ReachesPosition(s, c, j);
    }
  }

  // ------------------------------------------- a run that strands a message

  const Fan: seq<Step> := [ReadFrame(0), Snapshot(0, [0])] + Sends(0, 1)

  ghost predicate OneConsumer(s: State, items: seq<Msg>) {
    && Inv(s) && s.fault.NoFault? && s.registry == map["a" := 0]
    && s.chans == [Channel("a", 1, 2, items, false, items, 0)]
    && s.conns.Keys == {0, 1} && s.conns[0].Producer? && s.conns[0].phase.Reading?
    && s.conns[1] == Consumer(NewOutlet(), Ranging, "a", 0)
  }

  lemma FanOnce(s: State, items: seq<Msg>, body: Bytes, rest: Bytes)
    requires OneConsumer(s, items) && |items| < 2 && Fits(body)
    requires s.conns[0].intake.rest == Frame(body) + rest
    ensures var s' := Exec(s, Fan);
            var m := Msg(s.broadcasts, 0, |s.conns[0].intake.read|, body);
            && OneConsumer(s', items + [m]) && s'.conns[0].intake.rest == rest
            && |s'.chans| == 1 && s'.chans[0].history == items + [m]
  {
    ReadOneOfFrame(body, rest);
    assert s.registry["a"] == 0 && s.registry.Values == {0};
    BroadcastReachesAll(s, 0, [0]);
    ExecInv(s, Fan);
  }

  /** A consumer reads nothing more after a failed write, so what its channel had room
      for and accepted is stranded there: for all messages `a` and `b` and every number
      of bytes after which the write of `a` fails, there is a run in which `b` is
      accepted and no continuation brings it to the consumer. */
  lemma {:induction false} StrandingRun(a: Bytes, b: Bytes, k: nat)
    requires Fits(a) && Fits(b) && k <= 4 + |a|
    ensures var s := Exec(Init, SetUp(Frame(a) + Frame(b), 2) + Fan + Fan + [Receive(1), Write(1, k, false)]);
            && s.fault.NoFault? && IsRegistered(s, 1) && s.conns[1].ch < |s.chans|
            && Bodies(HistoryOf(s, 1)) == [a, b]
            && !Receivable(s, 1, 1, HistoryOf(s, 1)[1])
  {
    var run := SetUp(Frame(a) + Frame(b), 2) + Fan + Fan;
    StrandingStart(a, b);
    var s := Exec(Init, run);
    var items := s.chans[0].history;
    var last := [Receive(1), Write(1, k, false)];
    RunTwo(Apply, s, last[0], last[1]);
    RunAppend(Apply, Init, run, last);
    RunInv(run + last);
    var s' := Exec(Init, run + last);
    WriteStrands(s, items, k);
    ReceivableIff(s', 1, 1);
  }

  lemma WriteStrands(s: State, items: seq<Msg>, k: nat)
    requires OneConsumer(s, items) && |items| == 2 && k <= 4 + |items[0].body|
    ensures var s' := Apply(Apply(s, Receive(1)), Write(1, k, false));
            && s'.fault.NoFault? && IsRegistered(s', 1) && s'.conns[1].ch == 0 < |s'.chans|
            && s'.chans[0].history == items && s'.conns[1].outlet.lost.Some?
            && |Received(s'.conns[1].outlet)| <= 1
  {
    hide Inv;
  }

  lemma OneConsumerAtStart(payload: Bytes)
    ensures var s := Exec(Init, SetUp(payload, 2)); OneConsumer(s, []) && s.conns[0].intake.rest == payload
  {
    SetUpState(payload, 2);
    RunInv(SetUp(payload, 2));
  }

  lemma StrandingStart(a: Bytes, b: Bytes)
    requires Fits(a) && Fits(b)
    ensures var s := Exec(Init, SetUp(Frame(a) + Frame(b), 2) + Fan + Fan);
            |s.chans| == 1 && OneConsumer(s, s.chans[0].history) && Bodies(s.chans[0].history) == [a, b]
  {
    hide Inv, Apply, SetUp, Fan, Frame;
    var setUp := SetUp(Frame(a) + Frame(b), 2);
    OneConsumerAtStart(Frame(a) + Frame(b));
    FanOnce(Exec(Init, setUp), [], a, Frame(b));
    RunAppend(Apply, Init, setUp, Fan);
    var y := Exec(Init, setUp + Fan);
    assert Frame(b) + [] == Frame(b);
    FanOnce(y, y.chans[0].history, b, []);
    RunAppend(Apply, Init, setUp + Fan, Fan);
  }

  // ------------------------------------------------- a consumer that comes late

  /** Registration is possible at any time, after a Close of the registry too: a
      consumer that joins then gets the next broadcast, and none of the closed channels
      does. */
  lemma {:induction false} LateConsumerIsServed(s: State, p: ConnId, c: ConnId, id: ConsumerId, cap: nat)
    requires Inv(s) && FrameReady(s, p) && c !in s.conns && FreshId(s, id) && cap > 0
    ensures var n := |s.chans|;
            var run := [CloseRegistry] + Join(c, id, cap) + ([ReadFrame(p), Snapshot(p, [n])] + Sends(p, 1));
            var s' := Exec(s, run);
            var m := Msg(s.broadcasts, p, |s.conns[p].intake.read|, ReadOne(s.conns[p].intake.rest).body);
            && |s'.chans| == n + 1
            && s'.chans[n] == Channel(id, c, cap, [m], false, [m], 0)
            && forall i :: 0 <= i < n ==> s'.chans[i].closed && s'.chans[i].history == s.chans[i].history
  {
    var n := |s.chans|;
    var send := [ReadFrame(p), Snapshot(p, [n])] + Sends(p, 1);
    var y := Apply(s, CloseRegistry);
    ClosedForAll(s);
    RunOne(Apply, s, CloseRegistry);
    Joins(y, c, id, cap);
    var z := Exec(y, Join(c, id, cap));
    StepInv(s, CloseRegistry);
    ExecInv(y, Join(c, id, cap));
    assert z.registry[id] == n && z.registry.Values == {n};
    BroadcastReachesAll(z, p, [n]);
    RunAppend(Apply, s, [CloseRegistry], Join(c, id, cap));
    RunAppend(Apply, s, [CloseRegistry] + Join(c, id, cap), send);
  }

  lemma ClosedForAll(s: State)
    requires Inv(s) && s.fault.NoFault?
    ensures var y := Apply(s, CloseRegistry);
            && y == s.(chans := y.chans, registry := map[]) && |y.chans| == |s.chans|
            && forall i :: 0 <= i < |s.chans| ==>
                 y.chans[i].closed && y.chans[i].history == s.chans[i].history && y.chans[i].id == s.chans[i].id
  {
    NoClosePanic(s, s.registry.Values);
    forall i | 0 <= i < |s.chans| ensures Apply(s, CloseRegistry).chans[i].closed {
      ClosesIff(s, CloseRegistry, i);
    }
  }

  // ------------------------------------------------ how far a broadcast spread

  /** Broadcasts are numbered in the order of their snapshots, so every number in use
      is below the next one. */
  ghost predicate TagsInv(s: State) {
    && (forall i, j :: 0 <= i < |s.chans| && 0 <= j < |s.chans[i].history| ==> s.chans[i].history[j].tag < s.broadcasts)
    && (forall d :: d in s.conns && s.conns[d].Producer? && s.conns[d].phase.Sending? ==> s.conns[d].phase.tag < s.broadcasts)
  }

  lemma StepTags(s: State, step: Step)
    requires TagsInv(s)
    ensures TagsInv(Apply(s, step))
  {
    hide Apply;
    var s' := Apply(s, step);
    CounterGrows(s, step);
    forall i, j | 0 <= i < |s'.chans| && 0 <= j < |s'.chans[i].history| ensures s'.chans[i].history[j].tag < s'.broadcasts {
      HistoryTags(s, step, i, j);
    }
    forall d | d in s'.conns && s'.conns[d].Producer? && s'.conns[d].phase.Sending?
      ensures s'.conns[d].phase.tag < s'.broadcasts
    {
      PhaseTag(s, step, d);
    }
  }

  lemma HistoryTags(s: State, step: Step, i: ChanId, j: nat)
    requires TagsInv(s) && i < |Apply(s, step).chans| && j < |Apply(s, step).chans[i].history|
    ensures Apply(s, step).chans[i].history[j].tag < s.broadcasts
  {}

  lemma PhaseTag(s: State, step: Step, d: ConnId)
    requires TagsInv(s)
    requires d in Apply(s, step).conns && Apply(s, step).conns[d].Producer? && Apply(s, step).conns[d].phase.Sending?
    ensures Apply(s, step).conns[d].phase.tag < Apply(s, step).broadcasts
  {}

  lemma {:induction false} RunTags(steps: seq<Step>)
    ensures TagsInv(Exec(Init, steps))
  {
    if steps != [] {
      RunTags(steps[..|steps| - 1]);
      StepTags(Exec(Init, steps[..|steps| - 1]), steps[|steps| - 1]);
    }
  }

  ghost predicate HasTag(h: seq<Msg>, tag: nat) { exists j :: 0 <= j < |h| && h[j].tag == tag }

  /** `c` may still be sending the broadcast of `m`, and then to the channels left of
      `order` after the first `k`; nobody else is. */
  ghost predicate SendsOn(s: State, c: ConnId, m: Msg, order: seq<ChanId>, k: nat)
    requires k <= |order|
  {
    && c in s.conns && s.conns[c].Producer?
    && (s.conns[c].phase.Sending? && s.conns[c].phase.tag == m.tag ==>
          && s.conns[c].phase.targets == order[k..]
          && |s.conns[c].intake.read| == m.index + 1 && s.conns[c].intake.read[m.index] == m.body)
    && (forall d :: d in s.conns && d != c && s.conns[d].Producer? && s.conns[d].phase.Sending? ==>
          s.conns[d].phase.tag != m.tag)
  }

  /** The channels that hold the broadcast of `m` are exactly the first `k` of `order`,
      and all of them hold that one message. */
  ghost predicate SpreadTo(chans: seq<Channel>, m: Msg, order: seq<ChanId>, k: nat)
    requires k <= |order|
  {
    && (forall i :: 0 <= i < k ==> order[i] < |chans|)
    && (forall i :: 0 <= i < |chans| ==> (HasTag(chans[i].history, m.tag) <==> i in order[..k]))
    && (forall i, j :: 0 <= i < |chans| && 0 <= j < |chans[i].history| && chans[i].history[j].tag == m.tag ==>
          chans[i].history[j] == m)
  }

  ghost predicate Spread(s: State, c: ConnId, m: Msg, order: seq<ChanId>, k: nat) {
    && k <= |order| && NoDup(order) && m.origin == c && m.tag < s.broadcasts
    && SendsOn(s, c, m, order, k) && SpreadTo(s.chans, m, order, k)
  }

  /** Channels as they were, or with a message of another broadcast, or new. */
  ghost predicate OnlyOthers(chans: seq<Channel>, chans': seq<Channel>, tag: nat) {
    && |chans| <= |chans'|
    && (forall i :: 0 <= i < |chans| ==>
          || chans'[i].history == chans[i].history
          || (|chans'[i].history| == |chans[i].history| + 1 && chans[i].history <= chans'[i].history
              && chans'[i].history[|chans[i].history|].tag != tag))
    && (forall i :: |chans| <= i < |chans'| ==> chans'[i].history == [])
  }

  lemma SpreadKept(chans: seq<Channel>, chans': seq<Channel>, m: Msg, order: seq<ChanId>, k: nat)
    requires k <= |order| && SpreadTo(chans, m, order, k) && OnlyOthers(chans, chans', m.tag)
    ensures SpreadTo(chans', m, order, k)
  {
    forall i | 0 <= i < |chans'| ensures HasTag(chans'[i].history, m.tag) <==> i in order[..k] {
      if i < |chans| {
        var h, h' := chans[i].history, chans'[i].history;
        if HasTag(h, m.tag) {
          var j :| 0 <= j < |h| && h[j].tag == m.tag;
          assert h'[j] == h[j];
        }
        if HasTag(h', m.tag) {
          var j :| 0 <= j < |h'| && h'[j].tag == m.tag;
          assert j < |h| && h[j] == h'[j];
        }
      }
    }
  }

  /** The next send of this broadcast finds room. */
  lemma SpreadOn(chans: seq<Channel>, m: Msg, order: seq<ChanId>, k: nat)
    requires k < |order| && NoDup(order) && order[k] < |chans| && SpreadTo(chans, m, order, k)
    ensures SpreadTo(chans[order[k] := Accept(chans[order[k]], m)], m, order, k + 1)
  {
    var chans' := chans[order[k] := Accept(chans[order[k]], m)];
    assert order[..k + 1] == order[..k] + [order[k]];
    var h := chans[order[k]].history;
    assert (h + [m])[|h|] == m && HasTag(h + [m], m.tag);
    assert forall i :: 0 <= i < |chans| && i != order[k] ==> chans'[i] == chans[i];
  }

  /** `step` is a send of this broadcast to a channel with room. */
  ghost predicate Spreads(s: State, step: Step, c: ConnId, tag: nat) {
    s.fault.NoFault? && step == Send(c) && HasRoom(s, c) && s.conns[c].phase.tag == tag
  }

  lemma OthersStep(s: State, step: Step, c: ConnId, m: Msg, order: seq<ChanId>, k: nat)
    requires Spread(s, c, m, order, k) && !Spreads(s, step, c, m.tag)
    ensures OnlyOthers(s.chans, Apply(s, step).chans, m.tag)
  {
    hide SpreadTo;
  }

  lemma SendersStep(s: State, step: Step, c: ConnId, m: Msg, order: seq<ChanId>, k: nat)
    requires Spread(s, c, m, order, k) && !Spreads(s, step, c, m.tag)
    ensures m.tag < Apply(s, step).broadcasts && SendsOn(Apply(s, step), c, m, order, k)
  {
    hide SpreadTo, Apply;
    var s' := Apply(s, step);
    CounterGrows(s, step);
    OwnStep(s, step, c, m.tag);
    forall d | d in s'.conns && d != c && s'.conns[d].Producer? && s'.conns[d].phase.Sending?
      ensures s'.conns[d].phase.tag != m.tag
    {
      OtherStep(s, step, d, m.tag);
    }
  }

  lemma CounterGrows(s: State, step: Step)
    ensures s.broadcasts <= Apply(s, step).broadcasts
  {}

  /** A producer that is sending a broadcast after a step that did not spread it was
      doing so before, with the same channels to go. */
  lemma OwnStep(s: State, step: Step, c: ConnId, tag: nat)
    requires c in s.conns && s.conns[c].Producer? && tag < s.broadcasts && !Spreads(s, step, c, tag)
    ensures var s' := Apply(s, step);
            && c in s'.conns && s'.conns[c].Producer?
            && (s'.conns[c].phase.Sending? && s'.conns[c].phase.tag == tag ==> s'.conns[c] == s.conns[c])
  {}

  lemma OtherStep(s: State, step: Step, d: ConnId, tag: nat)
    requires tag < s.broadcasts
    requires d in s.conns && s.conns[d].Producer? && s.conns[d].phase.Sending? ==> s.conns[d].phase.tag != tag
    requires d in Apply(s, step).conns && Apply(s, step).conns[d].Producer? && Apply(s, step).conns[d].phase.Sending?
    ensures Apply(s, step).conns[d].phase.tag != tag
  {}

  lemma SpreadStep(s: State, step: Step, c: ConnId, m: Msg, order: seq<ChanId>, k: nat) returns (k': nat)
    requires Spread(s, c, m, order, k)
    ensures k <= k' && Spread(Apply(s, step), c, m, order, k')
    ensures !Spreads(s, step, c, m.tag) ==> k' == k
  {
    if Spreads(s, step, c, m.tag) {
      k' := k + 1;
      assert order[k..][0] == order[k] && order[k..][1..] == order[k + 1..];
      assert Current(s, c) == m;
      SpreadOn(s.chans, m, order, k);
    } else {
      k' := k;
      OthersStep(s, step, c, m, order, k);
      SendersStep(s, step, c, m, order, k);
      SpreadKept(s.chans, Apply(s, step).chans, m, order, k);
    }
  }

  lemma {:induction false} SpreadRun(s: State, steps: seq<Step>, c: ConnId, m: Msg, order: seq<ChanId>, k: nat) returns (k': nat)
    requires Spread(s, c, m, order, k)
    ensures k <= k' && Spread(Exec(s, steps), c, m, order, k')
  {
    if steps == [] {
      k' := k;
    } else {
      var n := |steps| - 1;
      k' := SpreadRun(s, steps[..n], c, m, order, k);
      k' := SpreadStep(Exec(s, steps[..n]), steps[n], c, m, order, k');
    }
  }

  /** The message producer `c` holds in `s`, numbered as its next snapshot will be. */
  ghost function Next(s: State, c: ConnId): Msg
    requires c in s.conns && s.conns[c].Producer? && s.conns[c].intake.read != []
  {
    var read := s.conns[c].intake.read;
    Msg(s.broadcasts, c, |read| - 1, read[|read| - 1])
  }

  lemma SnapshotSpread(s: State, c: ConnId, order: seq<ChanId>)
    requires TagsInv(s) && CanSnapshot(s, c, order) && s.conns[c].intake.read != []
    ensures Spread(Apply(s, Snapshot(c, order)), c, Next(s, c), order, 0)
  {
    assert order[0..] == order && order[..0] == [];
  }

  /** All or a leading part, over every interleaving: whatever happens after a
      snapshot, the channels that hold its broadcast are exactly the first few of its
      visiting order, each holds the very same message, once, and as long as the
      producer is still sending it the others are its targets. */
  lemma {:induction false} BroadcastSpreads(before: seq<Step>, c: ConnId, order: seq<ChanId>, mid: seq<Step>) returns (k: nat)
    requires CanSnapshot(Exec(Init, before), c, order)
    ensures var s0 := Exec(Init, before);
            var s := Exec(Apply(s0, Snapshot(c, order)), mid);
            && s0.conns[c].intake.read != []
            && Spread(s, c, Next(s0, c), order, k)
            && forall i, j, j' :: 0 <= i < |s.chans| && 0 <= j < j' < |s.chans[i].history| ==>
                 !(s.chans[i].history[j].tag == s0.broadcasts == s.chans[i].history[j'].tag)
  {
    var s0 := Exec(Init, before);
    RunInv(before);
    RunTags(before);
    assert ConnInv(s0, c);
    var s1 := Apply(s0, Snapshot(c, order));
    SnapshotSpread(s0, c, order);
    k := SpreadRun(s1, mid, c, Next(s0, c), order, 0);
    StepInv(s0, Snapshot(c, order));
    ExecInv(s1, mid);
    OnlyOnce(Exec(s1, mid), c, Next(s0, c), order, k);
  }

  lemma OnlyOnce(s: State, c: ConnId, m: Msg, order: seq<ChanId>, k: nat)
    requires Inv(s) && Spread(s, c, m, order, k)
    ensures forall i, j, j' :: 0 <= i < |s.chans| && 0 <= j < j' < |s.chans[i].history| ==>
              !(s.chans[i].history[j].tag == m.tag == s.chans[i].history[j'].tag)
  {
    forall i, j, j' | 0 <= i < |s.chans| && 0 <= j < j' < |s.chans[i].history|
      ensures !(s.chans[i].history[j].tag == m.tag == s.chans[i].history[j'].tag)
    {
      assert HistoryInv(s, i);
      assert InOriginOrder(s.chans[i].history);
    }
  }

  // ----------------------------------- who receives a finished broadcast

  /** Producer `c` is done with broadcast `tag`, one way or another. */
  ghost predicate Finished(s: State, c: ConnId, tag: nat) {
    c in s.conns && s.conns[c].Producer? && !(s.conns[c].phase.Sending? && s.conns[c].phase.tag == tag)
  }

  /** A finished broadcast spreads no further. */
  lemma {:induction false} FinishedRun(s: State, steps: seq<Step>, c: ConnId, m: Msg, order: seq<ChanId>, k: nat)
    requires Spread(s, c, m, order, k) && Finished(s, c, m.tag)
    ensures Spread(Exec(s, steps), c, m, order, k) && Finished(Exec(s, steps), c, m.tag)
  {
    hide Spread, Apply;
    if steps != [] {
      var n := |steps| - 1;
      var y := Exec(s, steps[..n]);
      FinishedRun(s, steps[..n], c, m, order, k);
      var k' := SpreadStep(y, steps[n], c, m, order, k);
      FinishedStep(y, steps[n], c, m, order, k);
    }
  }

  lemma FinishedStep(s: State, step: Step, c: ConnId, m: Msg, order: seq<ChanId>, k: nat)
    requires Spread(s, c, m, order, k) && Finished(s, c, m.tag)
    ensures !Spreads(s, step, c, m.tag) && Finished(Apply(s, step), c, m.tag)
  {
    OwnStep(s, step, c, m.tag);
  }

  lemma {:induction false} RegisteredRun(s: State, steps: seq<Step>, d: ConnId)
    requires IsRegistered(s, d)
    ensures IsRegistered(Exec(s, steps), d) && Exec(s, steps).conns[d].ch == s.conns[d].ch
  {
    if steps != [] {
      RegisteredRun(s, steps[..|steps| - 1], d);
      RegisteredStep(Exec(s, steps[..|steps| - 1]), steps[|steps| - 1], d);
    }
  }

  lemma RegisteredStep(s: State, step: Step, d: ConnId)
    requires IsRegistered(s, d)
    ensures IsRegistered(Apply(s, step), d) && Apply(s, step).conns[d].ch == s.conns[d].ch
  {}

  /** Some continuation brings `m` to `d`. */
  ghost predicate Obtainable(s: State, d: ConnId, m: Msg) {
    exists j: nat :: Receivable(s, d, j, m)
  }

  /** No write to `d` has failed, or `m` got there before. */
  ghost predicate Unbroken(s: State, d: ConnId, m: Msg)
    requires IsConsumer(s, d)
  {
    s.conns[d].outlet.lost.None? || m in Received(s.conns[d].outlet)
  }

  /** Who receives a finished broadcast: the consumer of a channel can get it exactly
      when the channel is among those the broadcast reached and no write to that
      consumer has failed before it. */
  lemma {:induction false} ObtainableIff(s: State, c: ConnId, m: Msg, order: seq<ChanId>, k: nat, i: ChanId)
    requires Inv(s) && s.fault.NoFault? && Spread(s, c, m, order, k) && Finished(s, c, m.tag) && i < |s.chans|
    ensures var d := s.chans[i].owner;
            && IsRegistered(s, d) && s.conns[d].ch == i
            && (Obtainable(s, d, m) <==> i in order[..k] && Unbroken(s, d, m))
  {
    assert ChanInv(s, i);
    var d := s.chans[i].owner;
    if j: nat :| Receivable(s, d, j, m) {
      ObtainedWasReached(s, c, m, order, k, d, j);
    }
    if i in order[..k] && Unbroken(s, d, m) {
      ReachedIsObtainable(s, c, m, order, k, d);
    }
  }

  lemma ObtainedWasReached(s: State, c: ConnId, m: Msg, order: seq<ChanId>, k: nat, d: ConnId, j: nat)
    requires Inv(s) && Spread(s, c, m, order, k) && Finished(s, c, m.tag) && IsRegistered(s, d)
    requires Receivable(s, d, j, m)
    ensures s.conns[d].ch in order[..k] && Unbroken(s, d, m)
  {
    var steps: seq<Step> :| ReceivedAt(Exec(s, steps), d, j, m);
    var s' := Exec(s, steps);
    ExecInv(s, steps);
    FinishedRun(s, steps, c, m, order, k);
    RegisteredRun(s, steps, d);
    ReceivedIsAccepted(s', d);
    assert HistoryOf(s', d)[j] == m;
    assert HasTag(HistoryOf(s', d), m.tag);
    if s.conns[d].outlet.lost.Some? {
      LostRun(s, steps, d);
    }
  }

  lemma ReachedIsObtainable(s: State, c: ConnId, m: Msg, order: seq<ChanId>, k: nat, d: ConnId)
    requires Inv(s) && s.fault.NoFault? && Spread(s, c, m, order, k) && IsRegistered(s, d)
    requires s.conns[d].ch < |s.chans| && s.conns[d].ch in order[..k] && Unbroken(s, d, m)
    ensures Obtainable(s, d, m)
  {
    var h := HistoryOf(s, d);
    assert HasTag(h, m.tag);
    if s.conns[d].outlet.lost.None? {
      var j :| 0 <= j < |h| && h[j].tag == m.tag;
      ReceivableIff(s, d, j);
    } else {
      var j :| 0 <= j < |Received(s.conns[d].outlet)| && Received(s.conns[d].outlet)[j] == m;
      ReceivedIsAccepted(s, d);
      ReceivableIff(s, d, j);
    }
  }

  /** Exactly when every consumer of the snapshot can get the message of a finished
      broadcast: every channel had room when its turn came, and no write to any of the
      consumers has failed before it. */
  lemma {:induction false} EveryConsumerIff(s: State, c: ConnId, m: Msg, order: seq<ChanId>, k: nat)
    requires Inv(s) && s.fault.NoFault? && Spread(s, c, m, order, k) && Finished(s, c, m.tag)
    requires forall n :: 0 <= n < |order| ==> order[n] < |s.chans| && IsConsumer(s, s.chans[order[n]].owner)
    ensures (forall n :: 0 <= n < |order| ==> Obtainable(s, s.chans[order[n]].owner, m)) <==>
              k == |order| && forall n :: 0 <= n < |order| ==> Unbroken(s, s.chans[order[n]].owner, m)
  {
    hide Obtainable, Unbroken;
    forall n | 0 <= n < |order|
      ensures Obtainable(s, s.chans[order[n]].owner, m) <==> n < k && Unbroken(s, s.chans[order[n]].owner, m)
    {
      ObtainableIff(s, c, m, order, k, order[n]);
      assert n < k ==> order[..k][n] == order[n];
    }
    if k < |order| {
      assert !Obtainable(s, s.chans[order[k]].owner, m);
    }
  }

  lemma {:induction false} ChansGrow(s: State, steps: seq<Step>)
    ensures |s.chans| <= |Exec(s, steps).chans|
  {
    if steps != [] {
      ChansGrow(s, steps[..|steps| - 1]);
      ChansGrowStep(Exec(s, steps[..|steps| - 1]), steps[|steps| - 1]);
    }
  }

  lemma ChansGrowStep(s: State, step: Step)
    ensures |s.chans| <= |Apply(s, step).chans|
  {}

  /** The same for every run: after a snapshot, any steps, and the end of its
      broadcast, without a panic. */
  lemma {:induction false} BroadcastIsReceivedIff(before: seq<Step>, c: ConnId, order: seq<ChanId>, mid: seq<Step>) returns (k: nat)
    requires CanSnapshot(Exec(Init, before), c, order)
    requires var s0 := Exec(Init, before);
             var s := Exec(Apply(s0, Snapshot(c, order)), mid);
             s.fault.NoFault? && Finished(s, c, s0.broadcasts)
    ensures var s0 := Exec(Init, before);
            var s := Exec(Apply(s0, Snapshot(c, order)), mid);
            && s0.conns[c].intake.read != []
            && var m := Next(s0, c);
            && Spread(s, c, m, order, k)
            && (forall n :: 0 <= n < |order| ==> order[n] < |s.chans| && IsConsumer(s, s.chans[order[n]].owner))
            && ((forall n :: 0 <= n < |order| ==> Obtainable(s, s.chans[order[n]].owner, m)) <==>
                  k == |order| && forall n :: 0 <= n < |order| ==> Unbroken(s, s.chans[order[n]].owner, m))
  {
    hide Spread, Obtainable, Unbroken, Enumerates;
    var s0 := Exec(Init, before);
    var s1 := Apply(s0, Snapshot(c, order));
    var s := Exec(s1, mid);
    k := BroadcastSpreads(before, c, order, mid);
    RunInv(before);
    StepInv(s0, Snapshot(c, order));
    ExecInv(s1, mid);
    SnapshotTargets(s0, c, order);
    ChansGrow(s1, mid);
    forall n | 0 <= n < |order| ensures order[n] < |s.chans| && IsConsumer(s, s.chans[order[n]].owner) {
      assert order[n] in order;
      assert ChanInv(s, order[n]);
    }
    EveryConsumerIff(s, c, Next(s0, c), order, k);
  }

  // ------------------------------------------------- handlers that have ended

  /** A handler that has returned: nothing it did changes any more. */
  ghost predicate Returned(x: Conn) {
    match x
    case Accepted(_) => false
    case Dropped => true
    case Producer(_, phase) => phase.Stopped?
    case Consumer(_, stage, _, _) => stage.Left?
  }

  lemma ReturnedStep(s: State, step: Step, c: ConnId)
    requires c in s.conns && Returned(s.conns[c])
    ensures c in Apply(s, step).conns && Apply(s, step).conns[c] == s.conns[c]
  {}

  lemma {:induction false} ReturnedRun(s: State, steps: seq<Step>, c: ConnId)
    requires c in s.conns && Returned(s.conns[c])
    ensures c in Exec(s, steps).conns && Exec(s, steps).conns[c] == s.conns[c]
  {
    if steps != [] {
      ReturnedRun(s, steps[..|steps| - 1], c);
      ReturnedStep(Exec(s, steps[..|steps| - 1]), steps[|steps| - 1], c);
    }
  }

  /** A producer whose next frame cannot be read is done: nothing of what its peer sent
      after that is ever read. */
  lemma {:induction false} ReadErrorEndsProducer(s: State, c: ConnId, steps: seq<Step>)
    requires s.fault.NoFault? && c in s.conns && s.conns[c].Producer? && s.conns[c].phase.Reading?
    requires ReadOne(s.conns[c].intake.rest).Failed?
    ensures var s' := Exec(s, [ReadFrame(c)] + steps);
            c in s'.conns && s'.conns[c] == Producer(s.conns[c].intake, Stopped)
  {
    RunAppend(Apply, s, [ReadFrame(c)], steps);
    RunOne(Apply, s, ReadFrame(c));
    ReturnedRun(Apply(s, ReadFrame(c)), steps, c);
  }

  /** The deferred Unregister always completes: it takes the consumer's channel out of
      the map and closes it, unless a Close of the registry had done so before, touches
      no other channel, and is the last thing that happens to the handler. */
  lemma {:induction false} UnregisterCompletes(s: State, c: ConnId, steps: seq<Step>)
    requires Inv(s) && s.fault.NoFault? && IsRegistered(s, c) && s.conns[c].stage.Leaving?
    ensures var y := Apply(s, Unregister(c));
            var s' := Exec(s, [Unregister(c)] + steps);
            && y.fault.NoFault? && OnlyClosed(s, y, s.conns[c].ch)
            && c in s'.conns && s'.conns[c] == s.conns[c].(stage := Left)
  {
    var y := Apply(s, Unregister(c));
    Unregistered(s, c);
    RunAppend(Apply, s, [Unregister(c)], steps);
    RunOne(Apply, s, Unregister(c));
    ReturnedRun(y, steps, c);
  }

  /** Channel `ch` is closed and out of the map in `y`, the others are as in `s`. */
  ghost predicate OnlyClosed(s: State, y: State, ch: ChanId) {
    && ch < |s.chans| == |y.chans| && y.chans[ch].closed && !InMap(y, ch)
    && forall i :: 0 <= i < |s.chans| && i != ch ==> y.chans[i] == s.chans[i] && (InMap(y, i) <==> InMap(s, i))
  }

  lemma Unregistered(s: State, c: ConnId)
    requires Inv(s) && s.fault.NoFault? && IsRegistered(s, c) && s.conns[c].stage.Leaving?
    ensures var y := Apply(s, Unregister(c));
            && y.fault.NoFault? && OnlyClosed(s, y, s.conns[c].ch)
            && c in y.conns && y.conns[c] == s.conns[c].(stage := Left)
  {
    hide Inv, ConsumerInv, RegistryInv, OnlyClosed, ApplyUnregister, ShutAll, Removed;
    var k := s.conns[c];
    InvHere(s, c);
    var x := k.(stage := Left);
    if k.id in s.registry {
      RemovedIs(s, c);
      RemovedOnly(s, c);
      OnlyClosedUpdate(s, Removed(s, k.id), k.ch, c, x);
    } else {
      NotInMap(s, c);
      OnlyClosedUpdate(s, s, k.ch, c, x);
    }
  }

  lemma OnlyClosedUpdate(s: State, y: State, ch: ChanId, c: ConnId, x: Conn)
    requires OnlyClosed(s, y, ch)
    ensures OnlyClosed(s, Update(y, c, x), ch)
  {
    assert forall i :: 0 <= i < |y.chans| ==> InMap(Update(y, c, x), i) == InMap(y, i);
  }

  lemma NotInMap(s: State, c: ConnId)
    requires RegistryInv(s) && IsRegistered(s, c) && s.conns[c].stage.Leaving? && ConsumerInv(s, c)
    requires s.conns[c].id !in s.registry
    ensures ApplyUnregister(s, c) == Update(s, c, s.conns[c].(stage := Left)) && OnlyClosed(s, s, s.conns[c].ch)
  {
    assert !InMap(s, s.conns[c].ch);
  }

  lemma RemovedOnly(s: State, c: ConnId)
    requires RegistryInv(s) && IsRegistered(s, c) && ConsumerInv(s, c) && s.conns[c].id in s.registry
    ensures OnlyClosed(s, Removed(s, s.conns[c].id), s.conns[c].ch) && Removed(s, s.conns[c].id).fault == s.fault
  {
    hide RegistryInv, ConsumerInv;
    var k := s.conns[c];
    var y := Removed(s, k.id);
    RegisteredAs(s, c);
    forall i | 0 <= i < |s.chans| && i != k.ch ensures y.chans[i] == s.chans[i] && (InMap(y, i) <==> InMap(s, i)) {
      OtherId(s, k.ch, i);
    }
  }

  lemma InvHere(s: State, c: ConnId)
    requires Inv(s) && IsConsumer(s, c)
    ensures RegistryInv(s) && ConsumerInv(s, c)
  {
    assert ConnInv(s, c);
  }

  lemma RegisteredAs(s: State, c: ConnId)
    requires RegistryInv(s) && IsRegistered(s, c) && ConsumerInv(s, c) && s.conns[c].id in s.registry
    ensures s.conns[c].ch < |s.chans| && s.chans[s.conns[c].ch].id == s.conns[c].id
    ensures s.registry[s.conns[c].id] == s.conns[c].ch
  {}

  lemma OtherId(s: State, i: ChanId, j: ChanId)
    requires RegistryInv(s) && i < |s.chans| && j < |s.chans| && i != j
    ensures s.chans[i].id != s.chans[j].id
  {
    assert i < j || j < i;
  }

  // ------------------------------------------------------------- role dispatch

  ghost predicate SameRole(x: Conn, y: Conn) {
    (x.Producer? ==> y.Producer?) && (x.Consumer? ==> y.Consumer?) && (x.Dropped? ==> y.Dropped?)
  }

  lemma {:induction false} RoleKept(s: State, steps: seq<Step>, c: ConnId)
    requires c in s.conns && !s.conns[c].Accepted?
    ensures c in Exec(s, steps).conns && SameRole(s.conns[c], Exec(s, steps).conns[c])
  {
    if steps != [] {
      RoleKept(s, steps[..|steps| - 1], c);
      RoleKeptStep(Exec(s, steps[..|steps| - 1]), steps[|steps| - 1], c);
    }
  }

  lemma RoleKeptStep(s: State, step: Step, c: ConnId)
    requires c in s.conns && !s.conns[c].Accepted?
    ensures c in Apply(s, step).conns && SameRole(s.conns[c], Apply(s, step).conns[c])
  {}

  /** The first line decides for good, in every continuation. */
  lemma {:induction false} FirstLineDecides(s: State, c: ConnId, steps: seq<Step>)
    requires s.fault.NoFault? && c in s.conns && s.conns[c].Accepted?
    ensures var s' := Exec(s, [ReadRole(c)] + steps);
            && c in s'.conns
            && (s'.conns[c].Producer? <==> Roles.OpensAs(s.conns[c].input, Roles.PRODUCER))
            && (s'.conns[c].Consumer? <==> Roles.OpensAs(s.conns[c].input, Roles.CONSUMER))
            && (s'.conns[c].Dropped? <==>
                  !Roles.OpensAs(s.conns[c].input, Roles.PRODUCER) && !Roles.OpensAs(s.conns[c].input, Roles.CONSUMER))
  {
    RunAppend(Apply, s, [ReadRole(c)], steps);
    RunOne(Apply, s, ReadRole(c));
    Roles.RoleIff(s.conns[c].input);
    RoleKept(Apply(s, ReadRole(c)), steps, c);
  }

  // --------------------------------------------------------------- map order

  /** A snapshot may visit the registered channels in any order, each once: the
      admissible orders are the permutations of what the map holds. */
  lemma {:induction false} AnyOrder(order: seq<ChanId>, registry: map<ConsumerId, ChanId>)
    ensures Enumerates(order, registry) <==> multiset(order) == multiset(registry.Values)
  {
    forall ch ensures multiset(order)[ch] <= 1 <==> forall i, j :: 0 <= i < j < |order| && order[i] == ch ==> order[j] != ch {
      CountAtMostOnce(order, ch);
    }
    if Enumerates(order, registry) {
      forall ch ensures multiset(order)[ch] == multiset(registry.Values)[ch] {
        assert ch in order <==> ch in multiset(order);
      }
    }
    if multiset(order) == multiset(registry.Values) {
      forall ch ensures ch in order <==> ch in registry.Values {
        assert ch in order <==> ch in multiset(order);
      }
      forall i, j | 0 <= i < j < |order| ensures order[i] != order[j] {
        assert multiset(order)[order[i]] <= 1;
      }
    }
  }

  lemma {:induction false} CountAtMostOnce(order: seq<ChanId>, ch: ChanId)
    ensures multiset(order)[ch] <= 1 <==> forall i, j :: 0 <= i < j < |order| && order[i] == ch ==> order[j] != ch
  {
    if order != [] {
      var n := |order| - 1;
      var init := order[..n];
      assert order == init + [order[n]];
      CountAtMostOnce(init, ch);
      assert multiset(order) == multiset(init) + multiset{order[n]};
      assert ch in init <==> multiset(init)[ch] > 0;
      if order[n] == ch && ch in init {
        var i :| 0 <= i < n && init[i] == ch;
        assert order[i] == ch && order[n] == ch;
      }
    }
  }
}
