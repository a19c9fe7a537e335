/** BroadcastRegistry, its channels and the broadcast-mode producer handler as they
    run, over byte slices on the heap (internal/broker/consumer_registry.go and
    broker.go).  Methods here run without interference; BroadcastBroker says what
    happens when they interleave. */
module BroadcastObjects {
  import opened Framing
  import opened Sequences
  import opened Streams
  import opened QueueObjects

  class Channel {
    var items: seq<array<Byte>>
    var closed: bool
    const cap: nat

    constructor (cap: nat)
      ensures items == [] && !closed && this.cap == cap
    {
      items := [];
      closed := false;
      this.cap := cap;
    }
  }

  class BroadcastRegistry {
    var consumers: map<string, Channel>

    /** Registered channels are open, within capacity, and registered once. */
    ghost predicate Valid()
      reads this, consumers.Values
    {
      && (forall ch :: ch in consumers.Values ==> !ch.closed && |ch.items| <= ch.cap)
      && (forall a, b :: a in consumers && b in consumers && a != b ==> consumers[a] != consumers[b])
    }

    constructor ()
      ensures Valid() && consumers == map[]
    {
      consumers := map[];
    }

    /** `id` is the fresh identity the registry gives the consumer.  Any channel is
        taken; the registry stays valid when it is an open one not yet registered. */
    method RegisterConsumer(ch: Channel, id: string)
      requires id !in consumers
      modifies this
      ensures consumers == old(consumers)[id := ch]
      ensures old(Valid()) && ch !in old(consumers.Values) && !ch.closed && |ch.items| <= ch.cap ==> Valid()
    {
      consumers := consumers[id := ch];
    }

    method UnregisterConsumer(id: string)
      requires Valid()
      modifies this, consumers.Values`closed
      ensures Valid() && consumers == old(consumers) - {id}
      ensures forall ch :: ch in old(consumers.Values) ==>
                (ch.closed <==> id in old(consumers) && ch == old(consumers)[id])
    {
      if id in consumers {
        consumers[id].closed := true;
        consumers := consumers - {id};
      }
    }

    method GetConsumerCount() returns (n: nat)
      ensures n == |consumers|
    {
      n := |consumers|;
    }

    /** Close: every registered channel is closed, once, and the map is empty. */
    method Close()
      requires Valid()
      modifies this, consumers.Values`closed
      ensures Valid() && consumers == map[]
      ensures forall ch :: ch in old(consumers.Values) ==> ch.closed
    {
      while consumers != map[]
        invariant Valid() && consumers.Keys <= old(consumers).Keys
        invariant forall id :: id in consumers ==> consumers[id] == old(consumers)[id]
        invariant forall id :: id in old(consumers) && id !in consumers ==> old(consumers)[id].closed
        decreases |consumers.Keys|
      {
        var id :| id in consumers;
        assert consumers[id] in consumers.Values;
        ghost var keys := consumers.Keys;
        consumers[id].closed := true;
        consumers := consumers - {id};
        assert consumers.Keys == keys - {id};
      }
    }

    /** The snapshot: the registered channels, in whatever order the map yields. */
    method Snapshot() returns (chans: seq<Channel>)
      requires Valid()
      ensures forall ch :: ch in chans <==> ch in consumers.Values
      ensures forall i, j :: 0 <= i < j < |chans| ==> chans[i] != chans[j]
    {
      chans := [];
      var left := consumers.Keys;
      while left != {}
        invariant left <= consumers.Keys
        invariant forall id :: id in consumers && id !in left ==> consumers[id] in chans
        invariant forall ch :: ch in chans ==> exists id :: id in consumers && id !in left && consumers[id] == ch
        invariant forall i, j :: 0 <= i < j < |chans| ==> chans[i] != chans[j]
        decreases |left|
      {
        var id :| id in left;
        assert consumers[id] !in chans;
        chans := chans + [consumers[id]];
        left := left - {id};
      }
    }

    /** BroadcastMessage without interference.  `order` is the visiting order and
        `served` the number of channels reached: all of them exactly when it returns
        success, else those before the first full one.  Each channel reached got a
        slice of its own with the message's bytes; all others are as they were. */
    method BroadcastMessage(msg: array<Byte>, n: nat) returns (ok: bool, order: seq<Channel>, served: nat)
      requires Valid() && n <= msg.Length
      modifies consumers.Values`items
      ensures Valid() && served <= |order| && (ok <==> served == |order|)
      ensures forall ch :: ch in order <==> ch in consumers.Values
      ensures Distinct(order)
      ensures forall ch :: ch in consumers.Values && ch in order[..served] ==>
                Got(ch, old(ch.items), msg[..n]) && fresh(ch.items[|old(ch.items)|])
      ensures forall ch, ch' | ch in consumers.Values && ch' in consumers.Values ::
                ch in order[..served] && ch' in order[..served] && ch != ch' ==> Newest(ch) != Newest(ch')
      ensures forall ch :: ch in consumers.Values && ch !in order[..served] ==> ch.items == old(ch.items)
      ensures forall ch :: ch in consumers.Values && served < |order| && ch == order[served] ==> |ch.items| == ch.cap
    {
      order := Snapshot();
      ok, served := SendAll(order, msg, n);
    }
  }

  ghost predicate Distinct(order: seq<Channel>) {
    forall i, j :: 0 <= i < j < |order| ==> order[i] != order[j]
  }

  /** The slice a channel accepted last, if any. */
  ghost function Newest(ch: Channel): Option<array<Byte>>
    reads ch
  {
    if ch.items == [] then None else Some(ch.items[|ch.items| - 1])
  }

  /** The sends of one broadcast: a copy each, up to the first full channel. */
  method SendAll(order: seq<Channel>, msg: array<Byte>, n: nat) returns (ok: bool, served: nat)
    requires Distinct(order) && n <= msg.Length
    requires forall ch :: ch in order ==> |ch.items| <= ch.cap
    modifies (set ch | ch in order)`items
    ensures served <= |order| && (ok <==> served == |order|)
    ensures forall i :: 0 <= i < served ==>
              Got(order[i], old(order[i].items), msg[..n]) && fresh(order[i].items[|old(order[i].items)|])
    ensures forall i, j :: 0 <= i < j < served ==> Newest(order[i]) != Newest(order[j])
    ensures forall i :: served <= i < |order| ==> order[i].items == old(order[i].items)
    ensures served < |order| ==> |order[served].items| == order[served].cap
    ensures forall ch :: ch in order ==> |ch.items| <= ch.cap
  {
    served := 0;
    while served < |order|
      invariant served <= |order|
      invariant forall i :: 0 <= i < |order| ==> |order[i].items| <= order[i].cap
      invariant forall i :: 0 <= i < served ==>
                  Got(order[i], old(order[i].items), msg[..n]) && fresh(order[i].items[|old(order[i].items)|])
      invariant forall i, j :: 0 <= i < j < served ==> Newest(order[i]) != Newest(order[j])
      invariant forall i :: served <= i < |order| ==> order[i].items == old(order[i].items)
    {
      var sent := SendOne(order[served], msg, n);
      if !sent {
        return false, served;
      }
      served := served + 1;
    }
    ok := true;
  }

  /** One non-blocking send of a copy. */
  method SendOne(ch: Channel, msg: array<Byte>, n: nat) returns (sent: bool)
    requires n <= msg.Length && |ch.items| <= ch.cap
    modifies ch`items
    ensures sent <==> old(|ch.items|) < ch.cap
    ensures sent ==> Got(ch, old(ch.items), msg[..n]) && fresh(ch.items[|old(ch.items)|]) && |ch.items| <= ch.cap
    ensures !sent ==> ch.items == old(ch.items)
  {
    var copy := Copy(msg, n);
    sent := |ch.items| < ch.cap;
    if sent {
      ch.items := ch.items + [copy];
    }
  }

  /** The channel accepted one more slice, holding exactly `body`. */
  ghost predicate Got(ch: Channel, before: seq<array<Byte>>, body: Bytes)
    reads ch, ch.items
  {
    && |ch.items| == |before| + 1
    && ch.items[..|before|] == before
    && ch.items[|before|][..] == body
  }

  ghost predicate AllRoom(reg: BroadcastRegistry)
    reads reg, reg.consumers.Values
  {
    forall ch :: ch in reg.consumers.Values ==> |ch.items| < ch.cap
  }

  /** One broadcast as a channel sees it: nothing, or one more message - and that for
      all channels when all have room. */
  method BroadcastOne(reg: BroadcastRegistry, msg: array<Byte>, n: nat)
    requires reg.Valid() && n <= msg.Length
    modifies reg.consumers.Values`items
    ensures reg.Valid()
    ensures forall ch :: ch in reg.consumers.Values ==>
              || Contents(ch.items) == old(Contents(ch.items))
              || Contents(ch.items) == old(Contents(ch.items)) + [msg[..n]]
    ensures old(AllRoom(reg)) ==>
              forall ch :: ch in reg.consumers.Values ==> Contents(ch.items) == old(Contents(ch.items)) + [msg[..n]]
    ensures forall ch :: ch in reg.consumers.Values ==> forall a :: a in ch.items ==> a in old(ch.items) || fresh(a)
  {
    var ok, order, served := reg.BroadcastMessage(msg, n);
    if served < |order| {
      assert order[served] in reg.consumers.Values && order[served] !in order[..served];
      assert !old(AllRoom(reg));
    }
    forall ch | ch in reg.consumers.Values
      ensures Contents(ch.items) == old(Contents(ch.items)) || Contents(ch.items) == old(Contents(ch.items)) + [msg[..n]]
      ensures forall a :: a in ch.items ==> a in old(ch.items) || fresh(a)
      ensures served == |order| ==> Contents(ch.items) == old(Contents(ch.items)) + [msg[..n]]
    {
      assert order[..|order|] == order;
      if ch in order[..served] {
        assert ch.items == old(ch.items) + [ch.items[|old(ch.items)|]];
      }
    }
  }

  /** What a channel holds is what it held before and then some of `bodies`, in
      order. */
  ghost predicate Extended(ch: Channel, before: seq<Bytes>, bodies: seq<Bytes>)
    reads ch, ch.items
  {
    before <= Contents(ch.items) && Subsequence(Contents(ch.items)[|before|..], bodies)
  }

  lemma SubsequenceGrows(a: seq<Bytes>, b: seq<Bytes>, x: Bytes)
    requires Subsequence(a, b)
    ensures Subsequence(a, b + [x]) && Subsequence(a + [x], b + [x])
  {
    var idx: seq<nat> :| Embeds(a, b, idx);
    EmbedsIntro(a, b + [x], idx);
    EmbedsIntro(a + [x], b + [x], idx + [|b|]);
  }

  lemma SnocExtends(before: seq<Bytes>, now: seq<Bytes>, next: seq<Bytes>, seen: seq<Bytes>, x: Bytes)
    requires before <= now && Subsequence(now[|before|..], seen)
    requires next == now || next == now + [x]
    ensures before <= next && Subsequence(next[|before|..], seen + [x])
  {
    SubsequenceGrows(now[|before|..], seen, x);
    assert (now + [x])[|before|..] == now[|before|..] + [x];
  }

  /** All slices held by registered channels. */
  ghost function Slices(reg: BroadcastRegistry): (slices: set<array<Byte>>)
    reads reg, reg.consumers.Values
    ensures forall ch, a :: ch in reg.consumers.Values && a in ch.items ==> a in slices
  {
    set ch, a | ch in reg.consumers.Values && a in ch.items :: a
  }

  /** Every registered channel could take `n` messages on top of what it held at the
      `start`. */
  ghost predicate RoomFor(reg: BroadcastRegistry, start: map<Channel, seq<Bytes>>, n: nat)
    reads reg
  {
    forall ch :: ch in reg.consumers.Values ==> ch in start && |start[ch]| + n <= ch.cap
  }

  /** Every registered channel holds what it held at the `start` and then all of the
      bodies `seen` since. */
  ghost predicate HeldAll(reg: BroadcastRegistry, start: map<Channel, seq<Bytes>>, seen: seq<Bytes>)
    reads reg, reg.consumers.Values, Slices(reg)
  {
    forall ch :: ch in reg.consumers.Values ==> ch in start && Contents(ch.items) == start[ch] + seen
  }

  /** Every registered channel holds what it held at the `start` and then some of
      the bodies `seen` since, in order - all of them when there was room. */
  ghost predicate Held(reg: BroadcastRegistry, start: map<Channel, seq<Bytes>>, seen: seq<Bytes>)
    reads reg, reg.consumers.Values, Slices(reg)
  {
    && (forall ch :: ch in reg.consumers.Values ==> ch in start && Extended(ch, start[ch], seen))
    && (RoomFor(reg, start, |seen|) ==> HeldAll(reg, start, seen))
  }

  /** No registered channel holds the read buffer itself. */
  ghost predicate Apart(reg: BroadcastRegistry, buf: array<Byte>)
    reads reg, reg.consumers.Values
  {
    forall ch :: ch in reg.consumers.Values ==> buf !in ch.items
  }

  lemma AllHoldOneMore(reg: BroadcastRegistry, start: map<Channel, seq<Bytes>>, seen: seq<Bytes>, x: Bytes,
                       before: map<Channel, seq<Bytes>>)
    requires forall ch :: ch in reg.consumers.Values ==>
               ch in start && ch in before && before[ch] == start[ch] + seen && Contents(ch.items) == before[ch] + [x]
    ensures HeldAll(reg, start, seen + [x])
  {
    forall ch | ch in reg.consumers.Values ensures Contents(ch.items) == start[ch] + (seen + [x]) {
      assert start[ch] + seen + [x] == start[ch] + (seen + [x]);
    }
  }

  /** The broadcast of one body, on top of what the channels hold already. */
  method HoldOneMore(reg: BroadcastRegistry, msg: array<Byte>, n: nat, buf: array<Byte>,
                     ghost start: map<Channel, seq<Bytes>>, ghost seen: seq<Bytes>)
    requires reg.Valid() && n <= msg.Length && Apart(reg, buf) && Held(reg, start, seen)
    modifies reg.consumers.Values`items
    ensures reg.Valid() && Apart(reg, buf) && Held(reg, start, seen + [msg[..n]])
  {
    ghost var room := RoomFor(reg, start, |seen| + 1);
    if room {
      assert RoomFor(reg, start, |seen|) && HeldAll(reg, start, seen);
      assert AllRoom(reg);
    }
    BroadcastOne(reg, msg, n);
    if room {
      AllHoldOneMore(reg, start, seen, msg[..n], map ch | ch in reg.consumers.Values :: old(Contents(ch.items)));
    }
    forall ch | ch in reg.consumers.Values ensures Extended(ch, start[ch], seen + [msg[..n]]) {
      SnocExtends(start[ch], old(Contents(ch.items)), Contents(ch.items), seen, msg[..n]);
    }
  }

  /** ReadFrame into a buffer that no channel holds changes nothing they hold. */
  method ReadKeeping(r: Reader, buf: array<Byte>, reg: BroadcastRegistry,
                     ghost start: map<Channel, seq<Bytes>>, ghost seen: seq<Bytes>)
    returns (body: array<Byte>, n: nat, err: Option<ReadError>)
    requires reg.Valid() && Apart(reg, buf) && Held(reg, start, seen)
    modifies r, buf
    ensures reg.Valid() && Apart(reg, buf) && Held(reg, start, seen)
    ensures err.None? ==> n <= body.Length && ReadOne(old(r.rest)) == Body(body[..n], r.rest)
    ensures err.Some? ==> Decode(old(r.rest)).bodies == []
  {
    body, n, err := ReadFrame(r, buf);
  }

  method NewBuffer(reg: BroadcastRegistry) returns (buf: array<Byte>)
    ensures fresh(buf) && buf.Length == BUFFER_SIZE && Apart(reg, buf)
  {
    buf := new Byte[BUFFER_SIZE];
  }

  lemma HeldAtStart(reg: BroadcastRegistry, start: map<Channel, seq<Bytes>>)
    requires forall ch :: ch in reg.consumers.Values ==> ch in start && start[ch] == Contents(ch.items)
    ensures Held(reg, start, [])
  {
    assert HeldAll(reg, start, []) by {
      assert forall ch :: ch in reg.consumers.Values ==> start[ch] + [] == start[ch];
    }
    forall ch | ch in reg.consumers.Values ensures Extended(ch, start[ch], []) {
      EmbedsIntro<Bytes>([], [], []);
      assert Contents(ch.items)[|Contents(ch.items)|..] == [];
    }
  }

  /** handleProducer in broadcast mode.  Although every frame may be read into the
      same buffer, each channel ends up with its old messages untouched, followed by
      a subsequence of the bodies the peer framed - by all of them when every channel
      had room for them. */
  method HandleProducer(r: Reader, reg: BroadcastRegistry, ghost start: map<Channel, seq<Bytes>>)
    requires reg.Valid()
    requires forall ch :: ch in reg.consumers.Values ==> ch in start && start[ch] == Contents(ch.items)
    modifies r, reg.consumers.Values`items
    ensures reg.Valid() && Held(reg, start, Decode(old(r.rest)).bodies)
    ensures RoomFor(reg, start, |Decode(old(r.rest)).bodies|) ==> HeldAll(reg, start, Decode(old(r.rest)).bodies)
  {
    hide Held, HeldAll, RoomFor, Apart, Decode;
    ghost var seen: seq<Bytes> := [];
    var buf := NewBuffer(reg);
    HeldAtStart(reg, start);
    while true
      invariant reg.Valid() && fresh(buf) && Apart(reg, buf) && Held(reg, start, seen)
      invariant seen + Decode(r.rest).bodies == Decode(old(r.rest)).bodies
      decreases |r.rest|
    {
      ghost var before := r.rest;
      var body, n, err := ReadKeeping(r, buf, reg, start, seen);
      if err.Some? {
        assert seen + [] == seen;
        HeldWithRoom(reg, start, seen);
        return;
      }
      DecodeMore(before, r.rest, body[..n], seen);
      HoldOneMore(reg, body, n, buf, start, seen);
      seen := seen + [body[..n]];
    }
  }

  lemma HeldWithRoom(reg: BroadcastRegistry, start: map<Channel, seq<Bytes>>, seen: seq<Bytes>)
    requires Held(reg, start, seen)
    ensures RoomFor(reg, start, |seen|) ==> HeldAll(reg, start, seen)
  {}

  lemma DecodeMore(s: Bytes, rest: Bytes, b: Bytes, seen: seq<Bytes>)
    requires ReadOne(s) == Body(b, rest)
    ensures seen + Decode(s).bodies == seen + [b] + Decode(rest).bodies
  {
    assert seen + ([b] + Decode(rest).bodies) == seen + [b] + Decode(rest).bodies;
  }

  /** One iteration of the range loop. */
  method RangeOne(w: Connection, ch: Channel) returns (body: Bytes, n: nat, ok: bool)
    requires ch.items != [] && w.Valid()
    modifies w, ch`items
    ensures w.Valid() && (!ok ==> w.Broken())
    ensures Contents(ch.items) == old(Contents(ch.items))[1..] && body == old(Contents(ch.items))[0]
    ensures n <= 4 + |body| && (ok ==> n == 4 + |body|)
    ensures w.wire == old(w.wire) + Frame(body)[..n]
  {
    var msg := ch.items[0];
    ch.items := ch.items[1..];
    body := msg[..];
    n, ok := WriteFrame(w, body);
  }

  /** The range loop of handleConsumerBroadcast, as far as it gets alone: to a failed
      write, to the end of a closed channel, or to where it waits on an open one.
      What the channel held is split into what was delivered, the one message lost by
      a failed write, and what is left; without a failed write nothing is left, and a
      write fails only where the connection breaks. */
  method HandleConsumer(w: Connection, ch: Channel)
    returns (delivered: seq<Bytes>, lost: Option<Bytes>, n: nat, waits: bool)
    requires w.Valid()
    modifies w, ch`items
    ensures w.Valid() && (lost.Some? ==> w.Broken())
    ensures old(Contents(ch.items)) == delivered + Opt(lost) + Contents(ch.items)
    ensures lost.None? ==> ch.items == []
    ensures lost.Some? ==> n <= 4 + |lost.value|
    ensures waits <==> lost.None? && !ch.closed
    ensures w.wire == old(w.wire) + Frames(delivered) + (if lost.Some? then Frame(lost.value)[..n] else [])
  {
    delivered, lost, n, waits := [], None, 0, false;
    while ch.items != []
      invariant w.Valid() && old(Contents(ch.items)) == delivered + Contents(ch.items)
      invariant w.wire == old(w.wire) + Frames(delivered)
      decreases |ch.items|
    {
      ghost var items := Contents(ch.items);
      var body, k, ok := RangeOne(w, ch);
      TakeFirst(delivered, items, Contents(ch.items), body);
      if !ok {
        lost, n := Some(body), k;
        return;
      }
      WireSnoc(old(w.wire), delivered, body);
      delivered := delivered + [body];
    }
    waits := !ch.closed;
    assert w.wire + [] == w.wire && delivered + [] == delivered;
  }
}
