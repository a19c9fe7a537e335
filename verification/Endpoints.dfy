/** The two ends of a served connection, shared by both delivery modes: what a
    producer handler has read from its peer, and what a consumer handler has
    written to its peer. */
module Endpoints {
  import opened Framing
  import opened Sequences
  import Roles

  type ConnId = nat

  /** A message inside the broker: a number given when it was handed over, the
      connection it came from, and its place among that connection's frames. */
  datatype Msg = Msg(tag: nat, origin: ConnId, index: nat, body: Bytes)

  function Bodies(ms: seq<Msg>): (bs: seq<Bytes>)
    ensures |bs| == |ms| && forall i :: 0 <= i < |ms| ==> bs[i] == ms[i].body
  {
    seq(|ms|, i requires 0 <= i < |ms| => ms[i].body)
  }

  function Tags(ms: seq<Msg>): (ts: seq<nat>)
    ensures |ts| == |ms| && forall i :: 0 <= i < |ms| ==> ts[i] == ms[i].tag
  {
    seq(|ms|, i requires 0 <= i < |ms| => ms[i].tag)
  }

  function Indices(ms: seq<Msg>): (ts: seq<nat>)
    ensures |ts| == |ms| && forall i :: 0 <= i < |ms| ==> ts[i] == ms[i].index
  {
    seq(|ms|, i requires 0 <= i < |ms| => ms[i].index)
  }

  lemma BodiesSnoc(ms: seq<Msg>, m: Msg)
    ensures Bodies(ms + [m]) == Bodies(ms) + [m.body]
  {}

  // ------------------------------------------------------------------ intake

  /** `input` is all the peer sends, `payload` what follows the role line, `read`
      the bodies read so far and `rest` the bytes not yet read. */
  datatype Intake = Intake(input: Bytes, payload: Bytes, read: seq<Bytes>, rest: Bytes)

  function NewIntake(input: Bytes, payload: Bytes): Intake { Intake(input, payload, [], payload) }

  /** One successful ReadFrame. */
  function ReadNext(p: Intake): Intake
    requires ReadOne(p.rest).Body?
  {
    p.(read := p.read + [ReadOne(p.rest).body], rest := ReadOne(p.rest).rest)
  }

  /** The bodies read are a prefix of what the peer framed. */
  ghost predicate IntakeInv(p: Intake) {
    && Roles.Serve(p.input) == Roles.AsProducer(p.payload)
    && Decode(p.payload).bodies == p.read + Decode(p.rest).bodies
    && AllFit(p.read)
  }

  lemma ReadNextInv(p: Intake)
    requires IntakeInv(p) && ReadOne(p.rest).Body?
    ensures IntakeInv(ReadNext(p))
  {
    var b := ReadOne(p.rest).body;
    assert Fits(b);
    var more := Decode(ReadNext(p).rest).bodies;
    assert Decode(p.rest).bodies == [b] + more;
    assert p.read + ([b] + more) == p.read + [b] + more;
  }

  // ------------------------------------------------------------------ outlet

  /** What a consumer handler did with the messages it took: those written in
      full, the one in hand, and the one whose WriteFrame failed after putting
      `lostBytes` bytes on the wire. */
  datatype Outlet = Outlet(delivered: seq<Msg>, inFlight: Option<Msg>, lost: Option<Msg>, lostBytes: nat, wire: Bytes)

  function NewOutlet(): Outlet { Outlet([], None, None, 0, []) }

  /** Everything the handler ever took, in order. */
  function Log(k: Outlet): seq<Msg> {
    k.delivered + Opt(k.inFlight) + Opt(k.lost)
  }

  function Take(k: Outlet, m: Msg): Outlet { k.(inFlight := Some(m)) }

  lemma TakeLog(k: Outlet, m: Msg)
    requires k.inFlight.None? && k.lost.None?
    ensures Log(Take(k, m)) == Log(k) + [m]
  {}

  /** The connection accepts `bytes` of the frame; success means all of them. */
  predicate CanWrite(k: Outlet, bytes: nat, ok: bool) {
    && k.inFlight.Some?
    && bytes <= 4 + |k.inFlight.value.body|
    && (ok ==> bytes == 4 + |k.inFlight.value.body|)
  }

  /** WriteFrame of the message in hand. */
  function Written(k: Outlet, bytes: nat, ok: bool): Outlet
    requires CanWrite(k, bytes, ok)
  {
    var m := k.inFlight.value;
    var k' := k.(inFlight := None, wire := k.wire + Frame(m.body)[..bytes]);
    if ok then k'.(delivered := k.delivered + [m]) else k'.(lost := Some(m), lostBytes := bytes)
  }

  /** The bytes of a failed WriteFrame. */
  function Partial(k: Outlet): Bytes {
    if k.lost.Some? && k.lostBytes <= 4 + |k.lost.value.body| then Frame(k.lost.value.body)[..k.lostBytes] else []
  }

  ghost predicate OutletInv(k: Outlet) {
    && k.wire == Frames(Bodies(k.delivered)) + Partial(k)
    && (k.lost.Some? ==> k.inFlight.None? && k.lostBytes <= 4 + |k.lost.value.body|)
  }

  lemma WrittenInv(k: Outlet, bytes: nat, ok: bool)
    requires OutletInv(k) && CanWrite(k, bytes, ok)
    ensures OutletInv(Written(k, bytes, ok))
    ensures Log(Written(k, bytes, ok)) == Log(k)
  {
    var m := k.inFlight.value;
    if ok {
      BodiesSnoc(k.delivered, m);
      FramesSnoc(Bodies(k.delivered), m.body);
      assert Frame(m.body)[..bytes] == Frame(m.body);
    }
  }

  /** The messages whose frames are complete on the wire: the delivered ones, and
      the lost one when its failing write had accepted every byte. */
  function Received(k: Outlet): seq<Msg> {
    k.delivered + if k.lost.Some? && k.lostBytes == 4 + |k.lost.value.body| then [k.lost.value] else []
  }

  lemma ReceivedIsLogged(k: Outlet)
    requires OutletInv(k)
    ensures Received(k) <= Log(k)
  {}

  /** Wherever a write fails, the peer decodes exactly the complete frames. */
  lemma WireDecodes(k: Outlet)
    requires OutletInv(k)
    requires forall i :: 0 <= i < |Log(k)| ==> Fits(Log(k)[i].body)
    ensures Decode(k.wire).bodies == Bodies(Received(k))
  {
    var bs := Bodies(k.delivered);
    assert AllFit(bs) by {
      assert forall i :: 0 <= i < |bs| ==> bs[i] == Log(k)[i].body;
    }
    if k.lost.Some? {
      assert Log(k)[|k.delivered|] == k.lost.value;
      DecodeAfterFailedWrite(bs, k.lost.value.body, k.lostBytes);
      BodiesSnoc(k.delivered, k.lost.value);
    } else {
      DecodeFrames(bs);
      assert k.wire == Frames(bs);
    }
  }

  // ------------------------------------------------------ order per producer

  function FromOrigin(ms: seq<Msg>, p: ConnId): seq<Msg> {
    if ms == [] then []
    else (if ms[0].origin == p then [ms[0]] else []) + FromOrigin(ms[1..], p)
  }

  /** Messages of one origin appear in the order in which it framed them. */
  ghost predicate InOriginOrder(ms: seq<Msg>) {
    forall i, j :: 0 <= i < j < |ms| && ms[i].origin == ms[j].origin ==> ms[i].index < ms[j].index
  }

  lemma {:induction false} FromOriginMembers(ms: seq<Msg>, p: ConnId)
    ensures forall m :: m in FromOrigin(ms, p) <==> m in ms && m.origin == p
  {
    if ms != [] {
      FromOriginMembers(ms[1..], p);
      assert ms == [ms[0]] + ms[1..];
    }
  }

  lemma {:induction false} FromOriginSpec(ms: seq<Msg>, p: ConnId)
    requires InOriginOrder(ms)
    ensures Increasing(Indices(FromOrigin(ms, p)))
  {
    if ms != [] {
      var rest, f := ms[1..], FromOrigin(ms[1..], p);
      FromOriginSpec(rest, p);
      FromOriginMembers(rest, p);
      forall i | 0 <= i < |f| && ms[0].origin == p ensures ms[0].index < f[i].index {
        assert f[i] in rest;
      }
    }
  }

  /** Messages that are each a frame of their origin, in origin order, restrict to
      a subsequence of that origin's frames. */
  lemma FromOriginEmbeds(ms: seq<Msg>, p: ConnId, frames: seq<Bytes>)
    requires InOriginOrder(ms)
    requires forall i :: 0 <= i < |ms| && ms[i].origin == p ==> ms[i].index < |frames| && ms[i].body == frames[ms[i].index]
    ensures Embeds(Bodies(FromOrigin(ms, p)), frames, Indices(FromOrigin(ms, p)))
  {
    FromOriginSpec(ms, p);
    FromOriginMembers(ms, p);
    var f := FromOrigin(ms, p);
    forall i | 0 <= i < |f| ensures f[i].index < |frames| && f[i].body == frames[f[i].index] {
      assert f[i] in ms;
    }
  }
}
