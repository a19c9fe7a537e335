/** What every run of the queue-mode broker guarantees, from the bytes producers
    send to the bytes consumers receive. */
module QueueTheorems {
  import opened Framing
  import opened Sequences
  import opened Endpoints
  import opened QueueBroker
  import opened Runs
  import Roles
  import MemoryQueue

  // ------------------------------------------------------ what was dequeued

  /** The dequeue of `m` went to `c`. */
  ghost predicate Took(accepted: seq<Msg>, takers: seq<ConnId>, c: ConnId, m: Msg) {
    && m.tag < |takers| && takers[m.tag] == c
    && m.tag < |accepted| && accepted[m.tag] == m
  }

  ghost predicate TagsIncrease(ms: seq<Msg>) {
    forall i, j :: 0 <= i < j < |ms| ==> ms[i].tag < ms[j].tag
  }

  /** In an enqueue order whose tags are positions, TakenBy(c) is exactly the set
      of messages whose dequeue went to `c`, in order and each once. */
  lemma {:induction false} TakenBySpec(accepted: seq<Msg>, takers: seq<ConnId>, c: ConnId)
    requires |takers| <= |accepted|
    requires forall i :: 0 <= i < |accepted| ==> accepted[i].tag == i
    ensures forall m :: m in TakenBy(accepted, takers, c) <==> Took(accepted, takers, c, m)
    ensures TagsIncrease(TakenBy(accepted, takers, c))
  {
    if takers != [] {
      var n := |takers| - 1;
      var init := takers[..n];
      TakenBySpec(accepted, init, c);
      var t := TakenBy(accepted, init, c);
      forall i | 0 <= i < |t| ensures t[i].tag < n {
        assert t[i] in t;
        assert Took(accepted, init, c, t[i]);
      }
      forall m ensures m in TakenBy(accepted, takers, c) <==> Took(accepted, takers, c, m) {
        assert m.tag < n ==> init[m.tag] == takers[m.tag];
      }
    }
  }

  ghost predicate IsConsumer(s: State, c: ConnId) { c in s.conns && s.conns[c].Consumer? }

  lemma LogSpec(s: State, c: ConnId)
    requires Inv(s) && IsConsumer(s, c)
    ensures forall m :: m in Log(s.conns[c].outlet) <==> Took(s.accepted, s.takers, c, m)
    ensures TagsIncrease(Log(s.conns[c].outlet))
  {
    assert ConnInv(s, c);
    TakenBySpec(s.accepted, s.takers, c);
  }

  // ------------------------------------------------------------ conservation

  /** Where an accepted message can be. */
  datatype Place =
    | DeliveredTo(c: ConnId, i: nat)
    | InFlight(c: ConnId)
    | LostAt(c: ConnId)
    | Pending(i: nat)
    | Discarded(i: nat)

  ghost predicate At(s: State, p: Place, m: Msg) {
    match p
    case DeliveredTo(c, i) => IsConsumer(s, c) && i < |s.conns[c].outlet.delivered| && s.conns[c].outlet.delivered[i] == m
    case InFlight(c) => IsConsumer(s, c) && s.conns[c].outlet.inFlight == Some(m)
    case LostAt(c) => IsConsumer(s, c) && s.conns[c].outlet.lost == Some(m)
    case Pending(i) => i < |s.queue.items| && s.queue.items[i] == m
    case Discarded(i) => i < |s.discarded| && s.discarded[i] == m
  }

  ghost predicate AtConsumer(p: Place) { p.DeliveredTo? || p.InFlight? || p.LostAt? }

  /** A place at a consumer, as an index into what that consumer dequeued. */
  ghost function LogIndex(s: State, p: Place): nat
    requires AtConsumer(p) && IsConsumer(s, p.c)
  {
    if p.DeliveredTo? then p.i else |s.conns[p.c].outlet.delivered|
  }

  /** The place determines the message's number in the enqueue order. */
  ghost predicate Explains(s: State, p: Place, m: Msg) {
    match p
    case Pending(i) => m.tag == |s.takers| + i
    case Discarded(i) => m.tag == |s.takers| + |s.queue.items| + i
    case _ =>
      && m.tag < |s.takers| && s.takers[m.tag] == p.c && IsConsumer(s, p.c)
      && LogIndex(s, p) < |Log(s.conns[p.c].outlet)| && Log(s.conns[p.c].outlet)[LogIndex(s, p)] == m
  }

  lemma AtExplains(s: State, p: Place, m: Msg)
    requires Inv(s) && At(s, p, m)
    ensures Explains(s, p, m)
    ensures m.tag < |s.accepted| && s.accepted[m.tag] == m
  {
    var n := |s.takers|;
    var tail := s.accepted[n..];
    if AtConsumer(p) {
      AtLog(s, p, m);
    } else {
      var i := if p.Pending? then p.i else |s.queue.items| + p.i;
      assert tail[i] == m;
      assert s.accepted[n + i] == tail[i];
    }
  }

  lemma AtLog(s: State, p: Place, m: Msg)
    requires Inv(s) && AtConsumer(p) && At(s, p, m)
    ensures Explains(s, p, m) && Took(s.accepted, s.takers, p.c, m)
  {
    LogSpec(s, p.c);
    assert ConnInv(s, p.c);
    assert Log(s.conns[p.c].outlet)[LogIndex(s, p)] == m;
    assert m in Log(s.conns[p.c].outlet);
    assert Took(s.accepted, s.takers, p.c, m);
  }

  lemma SamePlace(s: State, p: Place, q: Place, m: Msg)
    requires Inv(s) && At(s, p, m) && At(s, q, m)
    ensures p == q
  {
    AtExplains(s, p, m);
    AtExplains(s, q, m);
    if AtConsumer(p) && AtConsumer(q) {
      LogSpec(s, p.c);
      assert ConnInv(s, p.c);
    }
  }

  lemma SomePlace(s: State, n: nat) returns (p: Place)
    requires Inv(s) && n < |s.accepted|
    ensures At(s, p, s.accepted[n])
  {
    var m := s.accepted[n];
    var t := |s.takers|;
    if n < t {
      p := LogPlace(s, s.takers[n], m);
    } else {
      assert m == s.accepted[t..][n - t];
      p := if n - t < |s.queue.items| then Pending(n - t) else Discarded(n - t - |s.queue.items|);
    }
  }

  lemma LogPlace(s: State, c: ConnId, m: Msg) returns (p: Place)
    requires Inv(s) && IsConsumer(s, c) && Took(s.accepted, s.takers, c, m)
    ensures At(s, p, m)
  {
    LogSpec(s, c);
    var k := s.conns[c].outlet;
    assert m in Log(k);
    var i :| 0 <= i < |Log(k)| && Log(k)[i] == m;
    assert i >= |k.delivered| ==> m in Opt(k.inFlight) + Opt(k.lost);
    p := if i < |k.delivered| then DeliveredTo(c, i) else if k.inFlight == Some(m) then InFlight(c) else LostAt(c);
  }

  ghost predicate Placed(s: State, m: Msg) { exists p :: At(s, p, m) }

  /** Each accepted message is at exactly one place, and nothing else is anywhere. */
  ghost predicate Conserved(s: State) {
    && (forall n :: 0 <= n < |s.accepted| ==> Placed(s, s.accepted[n]))
    && (forall p, q, m :: At(s, p, m) && At(s, q, m) ==> p == q)
    && (forall p, m :: At(s, p, m) ==> m.tag < |s.accepted| && s.accepted[m.tag] == m)
  }

  /** Conservation: in every reachable state each accepted message is at exactly
      one place - delivered to one consumer, in flight to one, lost by one failed
      write, pending, or discarded by Close - and nothing else is anywhere. */
  lemma {:induction false} Conservation(size: int, steps: seq<Step>)
    ensures Conserved(Exec(Init(size), steps))
  {
    var s := Exec(Init(size), steps);
    RunInv(size, steps);
    forall n | 0 <= n < |s.accepted| ensures Placed(s, s.accepted[n]) {
      var p := SomePlace(s, n);
    }
    forall p, q, m | At(s, p, m) && At(s, q, m) ensures p == q {
      SamePlace(s, p, q, m);
    }
    forall p, m | At(s, p, m) ensures m.tag < |s.accepted| && s.accepted[m.tag] == m {
      AtExplains(s, p, m);
    }
  }

  lemma {:induction false} SizeKept(s: State, steps: seq<Step>)
    ensures Exec(s, steps).queue.size == s.queue.size
  {
    if steps != [] {
      SizeKept(s, steps[..|steps| - 1]);
    }
  }

  /** What is pending is always the tail of the enqueue order, within the bound. */
  lemma {:induction false} PendingIsSuffix(size: int, steps: seq<Step>)
    ensures var s := Exec(Init(size), steps);
            && s.queue.size == (if size > 0 then size else 10000) && |s.queue.items| <= s.queue.size && |s.takers| <= |s.accepted|
            && (s.queue.live ==> s.accepted == s.accepted[..|s.takers|] + s.queue.items)
            && (!s.queue.live ==> s.queue.items == [] && s.accepted == s.accepted[..|s.takers|] + s.discarded)
  {
    var s := Exec(Init(size), steps);
    RunInv(size, steps);
    SizeKept(Init(size), steps);
    var n := |s.takers|;
    assert s.accepted == s.accepted[..n] + s.accepted[n..];
  }

  // -------------------------------------------------------------- end to end

  lemma ReceivedSpec(s: State, c: ConnId)
    requires Inv(s) && IsConsumer(s, c)
    ensures var r := Received(s.conns[c].outlet);
            && Embeds(r, s.accepted, Tags(r))
            && (forall i :: 0 <= i < |r| ==> r[i].tag < |s.takers| && s.takers[r[i].tag] == c)
  {
    LogSpec(s, c);
    assert ConnInv(s, c);
    ReceivedIsLogged(s.conns[c].outlet);
    PrefixTook(s.accepted, s.takers, c, Log(s.conns[c].outlet), Received(s.conns[c].outlet));
  }

  lemma PrefixTook(accepted: seq<Msg>, takers: seq<ConnId>, c: ConnId, log: seq<Msg>, r: seq<Msg>)
    requires r <= log && TagsIncrease(log)
    requires forall m :: m in log ==> Took(accepted, takers, c, m)
    ensures Embeds(r, accepted, Tags(r))
    ensures forall i :: 0 <= i < |r| ==> r[i].tag < |takers| && takers[r[i].tag] == c
  {
    forall i | 0 <= i < |r| ensures Took(accepted, takers, c, r[i]) {
      assert r[i] == log[i] && log[i] in log;
    }
  }

  lemma AcceptedFits(s: State, m: Msg)
    requires Inv(s) && Sourced(s, m)
    ensures Fits(m.body)
  {
    assert ConnInv(s, m.origin);
    assert Fits(s.conns[m.origin].intake.read[m.index]);
  }

  lemma ConsumerDecodes(s: State, c: ConnId)
    requires Inv(s) && IsConsumer(s, c)
    ensures Decode(s.conns[c].outlet.wire).bodies == Bodies(Received(s.conns[c].outlet))
  {
    assert ConnInv(s, c);
    LogSpec(s, c);
    var t := Log(s.conns[c].outlet);
    forall i | 0 <= i < |t| ensures Fits(t[i].body) {
      assert t[i] in t;
      AcceptedFits(s, t[i]);
    }
    WireDecodes(s.conns[c].outlet);
  }

  /** Whatever the interleaving, the bytes written to a consumer decode to a
      subsequence of the global enqueue order. */
  lemma {:induction false} ConsumerSeesSubsequence(size: int, steps: seq<Step>, c: ConnId)
    requires IsConsumer(Exec(Init(size), steps), c)
    ensures var s := Exec(Init(size), steps);
            var r := Received(s.conns[c].outlet);
            && Decode(s.conns[c].outlet.wire).bodies == Bodies(r)
            && Embeds(Bodies(r), Bodies(s.accepted), Tags(r))
            && Subsequence(Decode(s.conns[c].outlet.wire).bodies, Bodies(s.accepted))
  {
    var s := Exec(Init(size), steps);
    RunInv(size, steps);
    ConsumerDecodes(s, c);
    ReceivedSpec(s, c);
    var r := Received(s.conns[c].outlet);
    EmbedsIntro(Bodies(r), Bodies(s.accepted), Tags(r));
  }

  /** No accepted message reaches two consumers, nor one consumer twice. */
  lemma {:induction false} AtMostOnce(size: int, steps: seq<Step>, c: ConnId, d: ConnId, i: nat, j: nat)
    requires var s := Exec(Init(size), steps);
             && IsConsumer(s, c) && IsConsumer(s, d)
             && i < |Received(s.conns[c].outlet)| && j < |Received(s.conns[d].outlet)|
             && Received(s.conns[c].outlet)[i].tag == Received(s.conns[d].outlet)[j].tag
    ensures c == d && i == j
  {
    var s := Exec(Init(size), steps);
    RunInv(size, steps);
    ReceivedSpec(s, c);
    ReceivedSpec(s, d);
    if c == d {
      var ts := Tags(Received(s.conns[c].outlet));
      assert ts[i] == ts[j];
    }
  }

  // --------------------------------------------------- order per producer

  lemma ReceivedInOrder(s: State, c: ConnId)
    requires Inv(s) && IsConsumer(s, c)
    ensures InOriginOrder(Received(s.conns[c].outlet))
  {
    ReceivedSpec(s, c);
    var r := Received(s.conns[c].outlet);
    forall i, j | 0 <= i < j < |r| && r[i].origin == r[j].origin ensures r[i].index < r[j].index {
      assert Tags(r)[i] < Tags(r)[j];
      assert s.accepted[r[i].tag] == r[i] && s.accepted[r[j].tag] == r[j];
    }
  }

  lemma OriginOrder(s: State, c: ConnId, p: ConnId)
    requires Inv(s) && IsConsumer(s, c)
    requires p in s.conns && s.conns[p].Producer?
    ensures var f := FromOrigin(Received(s.conns[c].outlet), p);
            Embeds(Bodies(f), Decode(s.conns[p].intake.payload).bodies, Indices(f))
  {
    var r := Received(s.conns[c].outlet);
    ReceivedInOrder(s, c);
    ReceivedSpec(s, c);
    assert ConnInv(s, p);
    forall i | 0 <= i < |r| ensures Sourced(s, r[i]) {
      assert s.accepted[Tags(r)[i]] == r[i];
    }
    FromOriginEmbeds(r, p, Decode(s.conns[p].intake.payload).bodies);
  }

  /** From producer bytes to consumer bytes: when a peer sends a producer role line
      and the frames of `bodies`, up to any byte, then in every run, at every
      consumer, what it receives from that peer is a subsequence of the bodies that
      arrive: those wholly sent, up to the first one over the bound - all of them
      when all fit and all was sent. */
  lemma {:induction false} EndToEnd(size: int, steps: seq<Step>, p: ConnId, c: ConnId, crs: nat, bodies: seq<Bytes>, cut: nat)
    requires Readable(bodies) && cut <= |Frames(bodies)|
    requires var s := Exec(Init(size), steps);
             && IsConsumer(s, c)
             && p in s.conns && s.conns[p].Producer?
             && s.conns[p].intake.input == Roles.Opening(Roles.PRODUCER, crs, Frames(bodies)[..cut])
    ensures var r := Bodies(FromOrigin(Received(Exec(Init(size), steps).conns[c].outlet), p));
            && Subsequence(r, Arriving(bodies, cut))
            && (AllFit(bodies) && cut == |Frames(bodies)| ==> Subsequence(r, bodies))
  {
    var s := Exec(Init(size), steps);
    RunInv(size, steps);
    assert ConnInv(s, p);
    Roles.ServedAsProducer(s.conns[p].intake.input, Frames(bodies)[..cut]);
    TruncationOfAny(bodies, cut);
    OriginOrder(s, c, p);
    var f := FromOrigin(Received(s.conns[c].outlet), p);
    EmbedsIntro(Bodies(f), Arriving(bodies, cut), Indices(f));
    if AllFit(bodies) {
      AllArrive(bodies);
    }
  }

  // ------------------------------------------------------- whole-run histories

  /** Nothing ever leaves a history: not the enqueue order, not who took what,
      not what a consumer was sent, not what a connection's peer sent. */
  ghost predicate Grows(s: State, s': State) {
    && s.accepted <= s'.accepted
    && s.takers <= s'.takers
    && s.discarded <= s'.discarded
    && forall c :: c in s.conns ==> c in s'.conns && ConnGrows(s.conns[c], s'.conns[c])
  }

  ghost predicate ConnGrows(x: Conn, y: Conn) {
    match x
    case Accepted(input) => (y.Accepted? ==> y.input == input) && (y.Producer? ==> y.intake.input == input)
    case Dropped => y.Dropped?
    case Producer(p, _, _) =>
      y.Producer? && y.intake.input == p.input && y.intake.payload == p.payload && p.read <= y.intake.read
    case Consumer(k, _) =>
      && y.Consumer? && k.delivered <= y.outlet.delivered && k.wire <= y.outlet.wire
      && (k.lost.Some? ==> y.outlet.lost == k.lost && y.outlet.lostBytes == k.lostBytes)
  }

  lemma StepGrows(s: State, step: Step)
    requires Inv(s)
    ensures Grows(s, Apply(s, step))
  {
    var s' := Apply(s, step);
    StepHistories(s, step);
    forall c | c in s.conns ensures c in s'.conns && ConnGrows(s.conns[c], s'.conns[c]) {
      assert ConnInv(s, c);
      StepConnGrows(s, step, c);
    }
  }

  lemma StepHistories(s: State, step: Step)
    ensures var s' := Apply(s, step);
            s.accepted <= s'.accepted && s.takers <= s'.takers && s.discarded <= s'.discarded
  {}

  lemma StepConnGrows(s: State, step: Step, c: ConnId)
    requires c in s.conns && LostIsFinal(s.conns[c])
    ensures c in Apply(s, step).conns && ConnGrows(s.conns[c], Apply(s, step).conns[c])
  {
    match step
    case Connect(_, _) =>
    case ReadRole(d) => RoleGrows(s, d, c);
    case ReadFrame(d) => IntakeGrows(s, d, c);
    case Enqueue(d) => EnqueueGrows(s, d, c);
    case Dequeue(d) => DequeueGrows(s, d, c);
    case Write(d, bytes, ok) => WriteGrows(s, d, bytes, ok, c);
    case Close =>
  }

  /** After a failed write a consumer has nothing in hand. */
  ghost predicate LostIsFinal(x: Conn) {
    x.Consumer? && x.outlet.lost.Some? ==> x.outlet.inFlight.None?
  }

  lemma RoleGrows(s: State, d: ConnId, c: ConnId)
    requires c in s.conns
    ensures c in ApplyReadRole(s, d).conns && ConnGrows(s.conns[c], ApplyReadRole(s, d).conns[c])
  {}

  lemma IntakeGrows(s: State, d: ConnId, c: ConnId)
    requires c in s.conns
    ensures c in ApplyReadFrame(s, d).conns && ConnGrows(s.conns[c], ApplyReadFrame(s, d).conns[c])
  {}

  lemma EnqueueGrows(s: State, d: ConnId, c: ConnId)
    requires c in s.conns
    ensures c in ApplyEnqueue(s, d).conns && ConnGrows(s.conns[c], ApplyEnqueue(s, d).conns[c])
  {}

  lemma DequeueGrows(s: State, d: ConnId, c: ConnId)
    requires c in s.conns && LostIsFinal(s.conns[c])
    ensures c in ApplyDequeue(s, d).conns && ConnGrows(s.conns[c], ApplyDequeue(s, d).conns[c])
  {}

  lemma WriteGrows(s: State, d: ConnId, bytes: nat, ok: bool, c: ConnId)
    requires c in s.conns && LostIsFinal(s.conns[c])
    ensures c in ApplyWrite(s, d, bytes, ok).conns && ConnGrows(s.conns[c], ApplyWrite(s, d, bytes, ok).conns[c])
  {}

  lemma {:induction false} ExecGrows(s: State, steps: seq<Step>)
    requires Inv(s)
    ensures Inv(Exec(s, steps)) && Grows(s, Exec(s, steps))
  {
    if steps != [] {
      var n := |steps| - 1;
      var y := Exec(s, steps[..n]);
      ExecGrows(s, steps[..n]);
      StepInv(y, steps[n]);
      StepGrows(y, steps[n]);
      GrowsTransitive(s, y, Apply(y, steps[n]));
    }
  }

  lemma GrowsTransitive(x: State, y: State, z: State)
    requires Grows(x, y) && Grows(y, z)
    ensures Grows(x, z)
  {}

  lemma {:induction false} RunGrows(size: int, a: seq<Step>, b: seq<Step>)
    ensures Grows(Exec(Init(size), a), Exec(Init(size), a + b))
  {
    RunInv(size, a);
    ExecGrows(Exec(Init(size), a), b);
    RunAppend(Apply, Init(size), a, b);
  }

  /** A received message sits where its consumer delivered or lost it. */
  lemma ReceivedPlace(s: State, d: ConnId, j: nat)
    requires Inv(s) && IsConsumer(s, d) && j < |Received(s.conns[d].outlet)|
    ensures var k, m := s.conns[d].outlet, Received(s.conns[d].outlet)[j];
            || (j < |k.delivered| && At(s, DeliveredTo(d, j), m))
            || (At(s, LostAt(d), m) && k.lostBytes == 4 + |m.body|)
  {}

  /** Delivery is at most once, not exactly once: a message whose write failed short
      of its whole frame never reaches any consumer, however the run goes on. */
  lemma {:induction false} LostForever(size: int, a: seq<Step>, b: seq<Step>, c: ConnId, bytes: nat, d: ConnId, j: nat)
    requires var s := Exec(Init(size), a);
             IsConsumer(s, c) && CanWrite(s.conns[c].outlet, bytes, false) && bytes < 4 + |s.conns[c].outlet.inFlight.value.body|
    requires var s := Exec(Init(size), a + [Write(c, bytes, false)] + b);
             IsConsumer(s, d) && j < |Received(s.conns[d].outlet)|
    ensures var m := Exec(Init(size), a).conns[c].outlet.inFlight.value;
            Received(Exec(Init(size), a + [Write(c, bytes, false)] + b).conns[d].outlet)[j] != m
  {
    var s := Exec(Init(size), a);
    var m := s.conns[c].outlet.inFlight.value;
    var more := a + [Write(c, bytes, false)];
    RunAppend(Apply, Init(size), a, [Write(c, bytes, false)]);
    RunOne(Apply, s, Write(c, bytes, false));
    RunGrows(size, more, b);
    RunInv(size, more + b);
    LostStays(Exec(Init(size), more), Exec(Init(size), more + b), c, m, d, j);
  }

  lemma LostStays(s: State, s': State, c: ConnId, m: Msg, d: ConnId, j: nat)
    requires Inv(s') && Grows(s, s') && At(s, LostAt(c), m) && s.conns[c].outlet.lostBytes < 4 + |m.body|
    requires IsConsumer(s', d) && j < |Received(s'.conns[d].outlet)|
    ensures Received(s'.conns[d].outlet)[j] != m
  {
    assert ConnGrows(s.conns[c], s'.conns[c]);
    assert At(s', LostAt(c), m);
    if Received(s'.conns[d].outlet)[j] == m {
      ReceivedPlace(s', d, j);
      if j < |s'.conns[d].outlet.delivered| {
        SamePlace(s', LostAt(c), DeliveredTo(d, j), m);
      } else {
        SamePlace(s', LostAt(c), LostAt(d), m);
      }
    }
  }

  /** Close is final: whatever happens afterwards, no message is accepted, none is
      dequeued, and what was pending stays discarded. */
  lemma {:induction false} CloseIsFinal(s: State, steps: seq<Step>)
    requires Inv(s)
    ensures var s' := Exec(ApplyClose(s), steps);
            && !s'.queue.live && s'.queue.items == []
            && s'.accepted == s.accepted && s'.takers == s.takers
            && s'.discarded == s.accepted[|s.takers|..]
  {
    if steps == [] {
      assert s.queue.items + s.discarded == s.discarded + s.queue.items;
    } else {
      CloseIsFinal(s, steps[..|steps| - 1]);
      ClosedStep(Exec(ApplyClose(s), steps[..|steps| - 1]), steps[|steps| - 1]);
    }
  }

  lemma ClosedStep(s: State, step: Step)
    requires !s.queue.live && s.queue.items == []
    ensures var s' := Apply(s, step);
            && s'.queue == s.queue && s'.accepted == s.accepted
            && s'.takers == s.takers && s'.discarded == s.discarded
  {
    assert s.discarded + [] == s.discarded;
  }

  // ----------------------------------------------------------------- progress

  /** A consumer takes and writes each of the pending messages. */
  function DrainSteps(items: seq<Msg>, c: ConnId): seq<Step> {
    if items == [] then []
    else [Dequeue(c), Write(c, 4 + |items[0].body|, true)] + DrainSteps(items[1..], c)
  }

  lemma DrainOne(s: State, c: ConnId)
    requires CanTake(s, c) && s.queue.live && s.queue.items != []
    ensures var m := s.queue.items[0];
            var s' := Apply(Apply(s, Dequeue(c)), Write(c, 4 + |m.body|, true));
            && CanTake(s', c) && s'.queue == s.queue.(items := s.queue.items[1..])
            && s'.conns[c].outlet.delivered == s.conns[c].outlet.delivered + [m]
            && s'.conns[c].outlet.wire == s.conns[c].outlet.wire + Frame(m.body)
            && s'.accepted == s.accepted
  {
    var m := s.queue.items[0];
    assert Frame(m.body)[..4 + |m.body|] == Frame(m.body);
  }

  /** Nothing accepted gets stuck: from any state in which the queue is open, an idle
      consumer whose writes succeed delivers everything pending, in order. */
  lemma {:induction false} DrainDelivers(s: State, c: ConnId)
    requires CanTake(s, c) && s.queue.live
    ensures var s' := Exec(s, DrainSteps(s.queue.items, c));
            && CanTake(s', c) && s'.queue.live && s'.queue.items == [] && s'.accepted == s.accepted
            && s'.conns[c].outlet.delivered == s.conns[c].outlet.delivered + s.queue.items
            && s'.conns[c].outlet.wire == s.conns[c].outlet.wire + Frames(Bodies(s.queue.items))
    decreases |s.queue.items|
  {
    var items := s.queue.items;
    if items == [] {
      assert s.conns[c].outlet.delivered + [] == s.conns[c].outlet.delivered;
      assert s.conns[c].outlet.wire + Frames(Bodies([])) == s.conns[c].outlet.wire;
    } else {
      var first := [Dequeue(c), Write(c, 4 + |items[0].body|, true)];
      var y := Exec(s, first);
      RunTwo(Apply, s, first[0], first[1]);
      DrainOne(s, c);
      DrainDelivers(y, c);
      RunAppend(Apply, s, first, DrainSteps(items[1..], c));
      DrainSplit(s.conns[c].outlet, items);
    }
  }

  lemma DrainSplit(k: Outlet, items: seq<Msg>)
    requires items != []
    ensures k.delivered + [items[0]] + items[1..] == k.delivered + items
    ensures k.wire + Frame(items[0].body) + Frames(Bodies(items[1..])) == k.wire + Frames(Bodies(items))
  {
    assert items == [items[0]] + items[1..];
    assert Bodies(items)[1..] == Bodies(items[1..]);
    assert Frames(Bodies(items)) == Frame(items[0].body) + Frames(Bodies(items[1..]));
  }

  /** A producer reads and enqueues `n` frames. */
  function FillSteps(c: ConnId, n: nat): seq<Step> {
    if n == 0 then [] else [ReadFrame(c), Enqueue(c)] + FillSteps(c, n - 1)
  }

  ghost predicate IdleProducer(s: State, c: ConnId) {
    c in s.conns && s.conns[c].Producer? && s.conns[c].reading && !s.conns[c].holding
  }

  /** One frame, read and handed to the queue.  Refused or not, the producer is ready
      for its next frame. */
  lemma FillOne(s: State, c: ConnId)
    requires IdleProducer(s, c) && ReadOne(s.conns[c].intake.rest).Body?
    ensures var p, r := s.conns[c].intake, ReadOne(s.conns[c].intake.rest);
            var m := Msg(|s.accepted|, c, |p.read|, r.body);
            var s' := Apply(Apply(s, ReadFrame(c)), Enqueue(c));
            && IdleProducer(s', c) && s'.conns[c].intake == p.(read := p.read + [r.body], rest := r.rest)
            && (if s.queue.live && |s.queue.items| < s.queue.size
                then s'.accepted == s.accepted + [m] && s'.queue == s.queue.(items := s.queue.items + [m])
                else s'.accepted == s.accepted && s'.queue == s.queue)
  {}

  lemma FillSplit(ms: seq<Msg>, m: Msg, bodies: seq<Bytes>, n: nat)
    requires bodies != [] && m.body == bodies[0] && 0 < n <= |bodies|
    ensures Bodies(ms + [m]) + bodies[1..][..n - 1] == Bodies(ms) + bodies[..n]
  {
    BodiesSnoc(ms, m);
    assert bodies[..n] == [bodies[0]] + bodies[1..][..n - 1];
  }

  /** How many messages the queue takes in before it refuses. */
  function RoomLeft(s: State): int { if s.queue.live then s.queue.size - |s.queue.items| else 0 }

  function Min(a: int, b: int): int { if a <= b then a else b }

  /** A producer left alone has every frame it has left read, and the queue takes in
      the first of them, in order, as many as it has room for: a refusal loses the
      message and nothing else. */
  lemma {:induction false} FillAccepts(s: State, c: ConnId)
    requires IdleProducer(s, c) && s.queue.Valid()
    ensures var bodies := Decode(s.conns[c].intake.rest).bodies;
            var kept := bodies[..Min(|bodies|, RoomLeft(s))];
            var s' := Exec(s, FillSteps(c, |bodies|));
            && IdleProducer(s', c) && s'.queue.live == s.queue.live
            && s'.conns[c].intake.read == s.conns[c].intake.read + bodies
            && Bodies(s'.accepted) == Bodies(s.accepted) + kept
            && Bodies(s'.queue.items) == Bodies(s.queue.items) + kept
    decreases |s.conns[c].intake.rest|
  {
    hide Apply;
    var p := s.conns[c].intake;
    var bodies := Decode(p.rest).bodies;
    if ReadOne(p.rest).Failed? {
      assert bodies == [] && p.read + [] == p.read;
      assert Bodies(s.accepted) + [] == Bodies(s.accepted);
      assert Bodies(s.queue.items) + [] == Bodies(s.queue.items);
    } else {
      var first := [ReadFrame(c), Enqueue(c)];
      var y := Exec(s, first);
      RunTwo(Apply, s, first[0], first[1]);
      FillOne(s, c);
      FillAccepts(y, c);
      RunAppend(Apply, s, first, FillSteps(c, |bodies| - 1));
      FillStep(s, y, c);
    }
  }

  /** How the claim for the remaining frames gives the claim for all of them. */
  lemma FillStep(s: State, y: State, c: ConnId)
    requires IdleProducer(s, c) && s.queue.Valid() && ReadOne(s.conns[c].intake.rest).Body?
    requires var p, r := s.conns[c].intake, ReadOne(s.conns[c].intake.rest);
             var m := Msg(|s.accepted|, c, |p.read|, r.body);
             if s.queue.live && |s.queue.items| < s.queue.size
             then y.accepted == s.accepted + [m] && y.queue == s.queue.(items := s.queue.items + [m])
             else y.accepted == s.accepted && y.queue == s.queue
    ensures var p, r := s.conns[c].intake, ReadOne(s.conns[c].intake.rest);
            var bodies, more := Decode(p.rest).bodies, Decode(r.rest).bodies;
            && bodies == [r.body] + more && p.read + [r.body] + more == p.read + bodies
            && Bodies(y.accepted) + more[..Min(|more|, RoomLeft(y))] == Bodies(s.accepted) + bodies[..Min(|bodies|, RoomLeft(s))]
            && Bodies(y.queue.items) + more[..Min(|more|, RoomLeft(y))] == Bodies(s.queue.items) + bodies[..Min(|bodies|, RoomLeft(s))]
  {
    var r := ReadOne(s.conns[c].intake.rest);
    var bodies := Decode(s.conns[c].intake.rest).bodies;
    assert bodies[1..] == Decode(r.rest).bodies;
    if RoomLeft(s) > 0 {
      var m := Msg(|s.accepted|, c, |s.conns[c].intake.read|, r.body);
      FillSplit(s.accepted, m, bodies, Min(|bodies|, RoomLeft(s)));
      FillSplit(s.queue.items, m, bodies, Min(|bodies|, RoomLeft(s)));
    }
  }

  // ------------------------------------------------- handlers that have ended

  /** A handler that has returned: nothing it did changes any more. */
  ghost predicate Returned(x: Conn) {
    match x
    case Accepted(_) => false
    case Dropped => true
    case Producer(_, holding, reading) => !holding && !reading
    case Consumer(outlet, live) => !live && outlet.inFlight.None?
  }

  lemma ReturnedStep(s: State, step: Step, c: ConnId)
    requires c in s.conns && Returned(s.conns[c])
    ensures c in Apply(s, step).conns && Apply(s, step).conns[c] == s.conns[c]
  {}

  lemma {:induction false} ReturnedRun(s: State, steps: seq<Step>, c: ConnId)
    requires c in s.conns && Returned(s.conns[c])
    ensures c in Exec(s, steps).conns && Exec(s, steps).conns[c] == s.conns[c]
  {
    if steps != [] {
      ReturnedRun(s, steps[..|steps| - 1], c);
      ReturnedStep(Exec(s, steps[..|steps| - 1]), steps[|steps| - 1], c);
    }
  }

  lemma ReturnsAfter(s: State, step: Step, steps: seq<Step>, c: ConnId)
    requires c in Apply(s, step).conns && Returned(Apply(s, step).conns[c])
    ensures var s' := Exec(s, [step] + steps); c in s'.conns && s'.conns[c] == Apply(s, step).conns[c]
  {
    RunAppend(Apply, s, [step], steps);
    RunOne(Apply, s, step);
    ReturnedRun(Apply(s, step), steps, c);
  }

  /** A consumer does not wait for messages: on a queue that is closed or momentarily
      empty its handler returns, and whatever happens afterwards, nothing more is ever
      written to it. */
  lemma {:induction false} EmptyQueueEndsConsumer(s: State, c: ConnId, steps: seq<Step>)
    requires CanTake(s, c) && (!s.queue.live || s.queue.items == [])
    ensures var s' := Exec(s, [Dequeue(c)] + steps);
            IsConsumer(s', c) && !s'.conns[c].live && s'.conns[c].outlet == s.conns[c].outlet
  {
    ReturnsAfter(s, Dequeue(c), steps, c);
  }

  /** Neither does it retry: a failed write, after however many bytes, is the last thing
      that happens on the connection. */
  lemma {:induction false} FailedWriteEndsConsumer(s: State, c: ConnId, k: nat, steps: seq<Step>)
    requires IsConsumer(s, c) && s.conns[c].outlet.inFlight.Some? && k <= 4 + |s.conns[c].outlet.inFlight.value.body|
    ensures var m, had := s.conns[c].outlet.inFlight.value, s.conns[c].outlet;
            var s' := Exec(s, [Write(c, k, false)] + steps);
            && IsConsumer(s', c) && !s'.conns[c].live
            && s'.conns[c].outlet == Outlet(had.delivered, None, Some(m), k, had.wire + Frame(m.body)[..k])
  {
    ReturnsAfter(s, Write(c, k, false), steps, c);
  }

  /** A producer whose next frame cannot be read is done: nothing of what its peer sent
      after that is ever read. */
  lemma {:induction false} ReadErrorEndsProducer(s: State, c: ConnId, steps: seq<Step>)
    requires IdleProducer(s, c) && ReadOne(s.conns[c].intake.rest).Failed?
    ensures var s' := Exec(s, [ReadFrame(c)] + steps);
            c in s'.conns && s'.conns[c] == Producer(s.conns[c].intake, false, false)
  {
    ReturnsAfter(s, ReadFrame(c), steps, c);
  }

  // ------------------------------------------------------------- role dispatch

  ghost predicate SameRole(x: Conn, y: Conn) {
    (x.Producer? ==> y.Producer?) && (x.Consumer? ==> y.Consumer?) && (x.Dropped? ==> y.Dropped?)
  }

  lemma {:induction false} RoleKept(s: State, steps: seq<Step>, c: ConnId)
    requires c in s.conns && !s.conns[c].Accepted?
    ensures c in Exec(s, steps).conns && SameRole(s.conns[c], Exec(s, steps).conns[c])
  {
    if steps != [] {
      RoleKept(s, steps[..|steps| - 1], c);
      RoleKeptStep(Exec(s, steps[..|steps| - 1]), steps[|steps| - 1], c);
    }
  }

  lemma RoleKeptStep(s: State, step: Step, c: ConnId)
    requires c in s.conns && !s.conns[c].Accepted?
    ensures c in Apply(s, step).conns && SameRole(s.conns[c], Apply(s, step).conns[c])
  {}

  /** The first line decides for good: once it is read, the connection is a producer
      exactly when its input opens with the producer line, a consumer exactly when it
      opens with the consumer line, and dropped otherwise, in every continuation. */
  lemma {:induction false} FirstLineDecides(s: State, c: ConnId, steps: seq<Step>)
    requires c in s.conns && s.conns[c].Accepted?
    ensures var s' := Exec(s, [ReadRole(c)] + steps);
            && c in s'.conns
            && (s'.conns[c].Producer? <==> Roles.OpensAs(s.conns[c].input, Roles.PRODUCER))
            && (s'.conns[c].Consumer? <==> Roles.OpensAs(s.conns[c].input, Roles.CONSUMER))
            && (s'.conns[c].Dropped? <==>
                  !Roles.OpensAs(s.conns[c].input, Roles.PRODUCER) && !Roles.OpensAs(s.conns[c].input, Roles.CONSUMER))
  {
    var y := Apply(s, ReadRole(c));
    RunAppend(Apply, s, [ReadRole(c)], steps);
    RunOne(Apply, s, ReadRole(c));
    Roles.RoleIff(s.conns[c].input);
    RoleKept(y, steps, c);
  }

  // --------------------------------------- which messages can be delivered

  ghost predicate ReceivedBy(s: State, m: Msg, d: ConnId) {
    IsConsumer(s, d) && m in Received(s.conns[d].outlet)
  }

  /** Some continuation brings `m` to some consumer. */
  ghost predicate Deliverable(s: State, m: Msg) {
    exists steps: seq<Step>, d: ConnId :: ReceivedBy(Exec(s, steps), m, d)
  }

  /** The write of `m` at `c` failed short of the whole frame. */
  ghost predicate LostShort(s: State, m: Msg, c: ConnId) {
    At(s, LostAt(c), m) && s.conns[c].outlet.lostBytes < 4 + |m.body|
  }

  /** `m` was pending when the queue was closed, or a write of it failed short. */
  ghost predicate Doomed(s: State, m: Msg) {
    m in s.discarded || exists c :: LostShort(s, m, c)
  }

  lemma DeliverableIntro(s: State, m: Msg, steps: seq<Step>, d: ConnId)
    requires ReceivedBy(Exec(s, steps), m, d)
    ensures Deliverable(s, m)
  {}

  lemma ReceivedNow(s: State, m: Msg, d: ConnId)
    requires ReceivedBy(s, m, d)
    ensures Deliverable(s, m)
  {
    assert Exec(s, []) == s;
    DeliverableIntro(s, m, [], d);
  }

  lemma DiscardedStays(s: State, s': State, m: Msg, d: ConnId)
    requires Inv(s') && Grows(s, s') && m in s.discarded
    ensures !ReceivedBy(s', m, d)
  {
    var i :| 0 <= i < |s.discarded| && s.discarded[i] == m;
    assert At(s', Discarded(i), m);
    if ReceivedBy(s', m, d) {
      var j :| 0 <= j < |Received(s'.conns[d].outlet)| && Received(s'.conns[d].outlet)[j] == m;
      ReceivedPlace(s', d, j);
      var p := if j < |s'.conns[d].outlet.delivered| then DeliveredTo(d, j) else LostAt(d);
      SamePlace(s', Discarded(i), p, m);
    }
  }

  lemma DoomedStays(s: State, m: Msg)
    requires Inv(s) && Doomed(s, m)
    ensures !Deliverable(s, m)
  {
    forall steps: seq<Step>, d: ConnId ensures !ReceivedBy(Exec(s, steps), m, d) {
      var s' := Exec(s, steps);
      ExecGrows(s, steps);
      if m in s.discarded {
        DiscardedStays(s, s', m, d);
      } else if ReceivedBy(s', m, d) {
        var c :| LostShort(s, m, c);
        var j :| 0 <= j < |Received(s'.conns[d].outlet)| && Received(s'.conns[d].outlet)[j] == m;
        LostStays(s, s', c, m, d, j);
      }
    }
  }

  /** A connection number that is not in use. */
  lemma FreshConn(s: State) returns (c: ConnId)
    ensures c !in s.conns
  {
    c := Above(s.conns.Keys);
  }

  lemma {:induction false} Above(ids: set<ConnId>) returns (c: ConnId)
    ensures forall d :: d in ids ==> d < c
  {
    c := 0;
    if ids != {} {
      var d :| d in ids;
      var e := Above(ids - {d});
      c := if d < e then e else d + 1;
      assert forall x :: x in ids ==> x == d || x in ids - {d};
    }
  }

  function ConsumerArrives(c: ConnId): seq<Step> {
    [Connect(c, Roles.Opening(Roles.CONSUMER, 0, [])), ReadRole(c)]
  }

  lemma ArrivesAsConsumer(s: State, c: ConnId)
    requires c !in s.conns
    ensures Exec(s, ConsumerArrives(c)) == Update(s, c, NewConsumer())
  {
    var line := Roles.Opening(Roles.CONSUMER, 0, []);
    Roles.ServedAsConsumer(line, []);
    RunTwo(Apply, s, Connect(c, line), ReadRole(c));
    assert s.conns[c := Accepted(line)][c := NewConsumer()] == s.conns[c := NewConsumer()];
  }

  lemma PendingDeliverable(s: State, i: nat)
    requires s.queue.live && i < |s.queue.items|
    ensures Deliverable(s, s.queue.items[i])
  {
    var c := FreshConn(s);
    var y := Update(s, c, NewConsumer());
    ArrivesAsConsumer(s, c);
    DrainDelivers(y, c);
    var drain := DrainSteps(y.queue.items, c);
    RunAppend(Apply, s, ConsumerArrives(c), drain);
    assert [] + s.queue.items == s.queue.items;
    DeliverableIntro(s, s.queue.items[i], ConsumerArrives(c) + drain, c);
  }

  lemma InFlightDeliverable(s: State, c: ConnId)
    requires IsConsumer(s, c) && s.conns[c].outlet.inFlight.Some?
    ensures Deliverable(s, s.conns[c].outlet.inFlight.value)
  {
    var m := s.conns[c].outlet.inFlight.value;
    var step := Write(c, 4 + |m.body|, true);
    RunOne(Apply, s, step);
    DeliverableIntro(s, m, [step], c);
  }

  /** Exactly which accepted messages can still reach a consumer, in every state a
      run can be in: all but those that Close discarded and those whose write failed
      short of the whole frame. */
  lemma {:induction false} DeliverableIff(s: State, m: Msg)
    requires Inv(s) && m in s.accepted
    ensures Deliverable(s, m) <==> !Doomed(s, m)
  {
    if Doomed(s, m) {
      DoomedStays(s, m);
    } else {
      var n :| 0 <= n < |s.accepted| && s.accepted[n] == m;
      var p := SomePlace(s, n);
      match p
      case DeliveredTo(c, i) => ReceivedNow(s, m, c);
      case InFlight(c) => InFlightDeliverable(s, c);
      case LostAt(c) => LostWhole(s, m, c);
      case Pending(i) => PendingDeliverable(s, i);
      case Discarded(i) =>
    }
  }

  /** A lost message whose failing write had accepted every byte was received. */
  lemma LostWhole(s: State, m: Msg, c: ConnId)
    requires Inv(s) && At(s, LostAt(c), m) && !LostShort(s, m, c)
    ensures Deliverable(s, m)
  {
    assert ConnInv(s, c);
    ReceivedNow(s, m, c);
  }

  // ------------------------------------------------- runs that lose a message

  /** A new consumer dequeues the oldest message and its write fails after `k` bytes. */
  function FailAfter(c: ConnId, k: nat): seq<Step> {
    ConsumerArrives(c) + [Dequeue(c), Write(c, k, false)]
  }

  lemma FailedWriteLoses(s: State, c: ConnId, k: nat)
    requires Inv(s) && c !in s.conns && s.queue.items != [] && k < 4 + |s.queue.items[0].body|
    ensures LostShort(Exec(s, FailAfter(c, k)), s.queue.items[0], c)
  {
    ArrivesAsConsumer(s, c);
    var y := Update(s, c, NewConsumer());
    RunAppend(Apply, s, ConsumerArrives(c), [Dequeue(c), Write(c, k, false)]);
    RunTwo(Apply, y, Dequeue(c), Write(c, k, false));
  }

  /** A producer connects, is read and has its one message accepted. */
  function HandOver(body: Bytes): seq<Step> {
    [Connect(0, Roles.Opening(Roles.PRODUCER, 0, Frames([body]))), ReadRole(0)] + FillSteps(0, 1)
  }

  lemma HandedOverState(size: int, body: Bytes)
    requires Fits(body)
    ensures var s := Exec(Init(size), HandOver(body));
            && s.queue.items == s.accepted == [Msg(0, 0, 0, body)]
            && s.conns.Keys == {0} && s.conns[0].Producer?
  {
    var input := Roles.Opening(Roles.PRODUCER, 0, Frames([body]));
    var s0, first := Init(size), [Connect(0, input), ReadRole(0)];
    var y := Update(s0, 0, NewProducer(input, Frames([body])));
    Roles.ServedAsProducer(input, Frames([body]));
    RunTwo(Apply, s0, first[0], first[1]);
    assert s0.conns[0 := Accepted(input)][0 := y.conns[0]] == y.conns;
    assert Frames([body]) == Frame(body) + [];
    ReadOneOfFrame(body, []);
    FillOne(y, 0);
    assert MemoryQueue.Accepts(y.queue);
    assert FillSteps(0, 1) == [ReadFrame(0), Enqueue(0)];
    RunTwo(Apply, y, ReadFrame(0), Enqueue(0));
    RunAppend(Apply, s0, first, FillSteps(0, 1));
  }

  /** Delivery is not guaranteed: for every message and every number of bytes short of
      its frame there is a run that accepts it, loses it, and from whose end no
      continuation delivers it. */
  lemma {:induction false} LosingRun(size: int, body: Bytes, k: nat)
    requires Fits(body) && k < 4 + |body|
    ensures var s := Exec(Init(size), HandOver(body) + FailAfter(1, k));
            var m := Msg(0, 0, 0, body);
            m in s.accepted && LostShort(s, m, 1) && !Deliverable(s, m)
  {
    var run, m := HandOver(body) + FailAfter(1, k), Msg(0, 0, 0, body);
    var y := Exec(Init(size), HandOver(body));
    HandedOverState(size, body);
    RunInv(size, HandOver(body));
    FailedWriteLoses(y, 1, k);
    RunAppend(Apply, Init(size), HandOver(body), FailAfter(1, k));
    RunGrows(size, HandOver(body), FailAfter(1, k));
    RunInv(size, run);
    assert y.accepted[0] == m;
    DoomedStays(Exec(Init(size), run), m);
  }

  /** The same when the queue is closed while the message is pending. */
  lemma {:induction false} DiscardingRun(size: int, body: Bytes)
    requires Fits(body)
    ensures var s := Exec(Init(size), HandOver(body) + [Close]);
            var m := Msg(0, 0, 0, body);
            m in s.accepted && m in s.discarded && !Deliverable(s, m)
  {
    var run, m := HandOver(body) + [Close], Msg(0, 0, 0, body);
    var y := Exec(Init(size), HandOver(body));
    HandedOverState(size, body);
    RunAppend(Apply, Init(size), HandOver(body), [Close]);
    RunOne(Apply, y, Close);
    RunInv(size, run);
    DoomedStays(Exec(Init(size), run), m);
  }
}
