/** Length-prefixed framing: a 4-byte big-endian length followed by the body
    (internal/protocol/frame.go).  A connection is the finite sequence of bytes
    its peer will ever send, followed by end of file. */
module Framing {

  type Byte = x: int | 0 <= x < 256
  type Bytes = seq<Byte>

  const MAX_FRAME_SIZE: nat := 1024 * 1024
  const UINT32_RANGE: nat := 0x1_0000_0000

  // ---------------------------------------------------------------- headers

  function Pow256(k: nat): (p: nat)
    ensures p > 0
  {
    if k == 0 then 1 else 256 * Pow256(k - 1)
  }

  /** The `k` low-order bytes of `n`, most significant first. */
  function BigEndian(n: nat, k: nat): (h: Bytes)
    ensures |h| == k
  {
    if k == 0 then [] else BigEndian(n / 256, k - 1) + [n % 256]
  }

  function FromBigEndian(h: Bytes): (n: nat)
    ensures n < Pow256(|h|)
  {
    if h == [] then 0
    else
      var low: int := h[|h| - 1];
      256 * FromBigEndian(h[..|h| - 1]) + low
  }

  lemma {:induction false} FromBigEndianOfBigEndian(n: nat, k: nat)
    requires n < Pow256(k)
    ensures FromBigEndian(BigEndian(n, k)) == n
  {
    if k > 0 {
      var h := BigEndian(n / 256, k - 1);
      FromBigEndianOfBigEndian(n / 256, k - 1);
      assert (h + [n % 256])[..k - 1] == h;
    }
  }

  lemma {:induction false} BigEndianOfFromBigEndian(h: Bytes)
    ensures BigEndian(FromBigEndian(h), |h|) == h
  {
    if h != [] {
      var init := h[..|h| - 1];
      BigEndianOfFromBigEndian(init);
      var low: int := h[|h| - 1];
      var n := FromBigEndian(h);
      assert n / 256 == FromBigEndian(init) && n % 256 == low;
      assert h == init + [h[|h| - 1]];
    }
  }

  lemma Uint32Range()
    ensures Pow256(4) == UINT32_RANGE
  {
    assert Pow256(2) == 0x1_0000;
  }

  /** The prefix WriteFrame emits: the length narrowed to 32 bits. */
  function Header(body: Bytes): (h: Bytes)
    ensures |h| == 4
  {
    BigEndian(|body| % UINT32_RANGE, 4)
  }

  lemma BigEndian4(n: nat)
    requires n < UINT32_RANGE
    ensures BigEndian(n, 4) == [n / 0x100_0000, n / 0x1_0000 % 256, n / 0x100 % 256, n % 256]
  {
    var a, b, c := n / 256, n / 0x1_0000, n / 0x100_0000;
    assert b == a / 256 && c == b / 256 && c % 256 == c;
    assert BigEndian(n, 4) == BigEndian(a, 3) + [n % 256];
    assert BigEndian(a, 3) == BigEndian(b, 2) + [a % 256];
    assert BigEndian(b, 2) == BigEndian(c, 1) + [b % 256];
    assert BigEndian(c, 1) == BigEndian(c / 256, 0) + [c % 256];
  }

  lemma FromBigEndian4(h: Bytes)
    requires |h| == 4
    ensures var b0: int, b1: int, b2: int, b3: int := h[0], h[1], h[2], h[3];
            FromBigEndian(h) == ((b0 * 256 + b1) * 256 + b2) * 256 + b3
  {
    assert h[..3][..2] == h[..2] && h[..2][..1] == h[..1] && h[..1][..0] == [];
    assert FromBigEndian(h[..3]) == 256 * FromBigEndian(h[..2]) + h[2] as int;
    assert FromBigEndian(h[..2]) == 256 * FromBigEndian(h[..1]) + h[1] as int;
    assert FromBigEndian(h[..1]) == 256 * FromBigEndian([]) + h[0] as int;
  }

  /** The header, byte by byte: the length modulo 2^32, most significant byte first. */
  lemma {:induction false} HeaderBytes(body: Bytes)
    ensures var n := |body| % 4294967296;
            Header(body) == [n / 16777216, n / 65536 % 256, n / 256 % 256, n % 256]
  {
    BigEndian4(|body| % UINT32_RANGE);
  }

  /** Everything a successful WriteFrame puts on the wire. */
  function Frame(body: Bytes): (f: Bytes)
    ensures |f| == 4 + |body|
  {
    Header(body) + body
  }

  function Frames(bodies: seq<Bytes>): Bytes {
    if bodies == [] then [] else Frame(bodies[0]) + Frames(bodies[1..])
  }

  ghost predicate Fits(body: Bytes) { |body| <= MAX_FRAME_SIZE }

  ghost predicate AllFit(bodies: seq<Bytes>) {
    forall i :: 0 <= i < |bodies| ==> Fits(bodies[i])
  }

  // ---------------------------------------------------------------- reading

  datatype ReadError = EOF | UnexpectedEOF | ShortBuffer

  /** Outcome of one ReadFrame: the body and the bytes left, or an error. */
  datatype ReadResult = Body(body: Bytes, rest: Bytes) | Failed(error: ReadError)

  /** io.ReadFull: end of file is clean only when no byte at all was read. */
  function ReadFullError(available: nat, wanted: nat): ReadError
    requires available < wanted
  {
    if available == 0 then EOF else UnexpectedEOF
  }

  /** ReadFrame once the header said `n`. */
  function ReadBody(n: nat, t: Bytes): (r: ReadResult)
    ensures r.Body? ==> |t| == |r.body| + |r.rest|
  {
    if n > MAX_FRAME_SIZE then Failed(ShortBuffer)
    else if |t| < n then Failed(ReadFullError(|t|, n))
    else Body(t[..n], t[n..])
  }

  function ReadOne(s: Bytes): (r: ReadResult)
    ensures r.Body? ==> |s| == 4 + |r.body| + |r.rest|
  {
    if |s| < 4 then Failed(ReadFullError(|s|, 4))
    else ReadBody(FromBigEndian(s[..4]), s[4..])
  }

  /** The bodies a read loop obtains before it stops, and why it stops. */
  datatype Decoded = Decoded(bodies: seq<Bytes>, error: ReadError)

  function Decode(s: Bytes): Decoded
    decreases |s|
  {
    match ReadOne(s)
    case Failed(e) => Decoded([], e)
    case Body(b, rest) =>
      var d := Decode(rest);
      Decoded([b] + d.bodies, d.error)
  }

  // ------------------------------------------------- one frame: arithmetic

  lemma ReadOneSplit(h: Bytes, t: Bytes)
    requires |h| == 4
    ensures ReadOne(h + t) == ReadBody(FromBigEndian(h), t)
  {
    assert (h + t)[..4] == h && (h + t)[4..] == t;
  }

  lemma ReadOneAfterHeader(body: Bytes, t: Bytes)
    ensures ReadOne(Header(body) + t) == ReadBody(|body| % UINT32_RANGE, t)
  {
    ReadOneSplit(Header(body), t);
    Uint32Range();
    FromBigEndianOfBigEndian(|body| % UINT32_RANGE, 4);
  }

  lemma ReadBodyWhole(body: Bytes, rest: Bytes)
    requires Fits(body)
    ensures ReadBody(|body|, body + rest) == Body(body, rest)
  {
    assert (body + rest)[..|body|] == body && (body + rest)[|body|..] == rest;
  }

  lemma FrameThen(body: Bytes, rest: Bytes)
    ensures Frame(body) + rest == Header(body) + (body + rest)
  {}

  lemma ReadOneOfFrame(body: Bytes, rest: Bytes)
    requires Fits(body)
    ensures ReadOne(Frame(body) + rest) == Body(body, rest)
  {
    FrameThen(body, rest);
    ReadOneAfterHeader(body, body + rest);
    ReadBodyWhole(body, rest);
  }

  /** Exactly which frames survive a write followed by a read.  Above the bound
      the reader refuses; from 2^32 the length wraps, so the reader refuses or
      returns a strictly shorter body. */
  lemma FrameArithmetic(body: Bytes)
    ensures ReadOne(Frame(body)) == Body(body, []) <==> |body| <= 1048576
    ensures 1048576 < |body| < 4294967296 ==> ReadOne(Frame(body)) == Failed(ShortBuffer)
    ensures |body| >= 4294967296 ==>
              var n := |body| % 4294967296;
              ReadOne(Frame(body)) == if n > 1048576 then Failed(ShortBuffer) else Body(body[..n], body[n..])
  {
    ReadOneAfterHeader(body, body);
    if |body| <= MAX_FRAME_SIZE {
      assert body[..|body|] == body;
    }
  }

  // ------------------------------------------------------- streams of frames

  lemma {:induction false} FramesAppend(a: seq<Bytes>, b: seq<Bytes>)
    ensures Frames(a + b) == Frames(a) + Frames(b)
  {
    if a == [] {
      assert a + b == b;
    } else {
      assert (a + b)[1..] == a[1..] + b;
      FramesAppend(a[1..], b);
    }
  }

  lemma FramesSnoc(a: seq<Bytes>, b: Bytes)
    ensures Frames(a + [b]) == Frames(a) + Frame(b)
  {
    FramesAppend(a, [b]);
    assert Frames([b]) == Frame(b);
  }

  lemma DecodeFrameThen(body: Bytes, t: Bytes)
    requires Fits(body)
    ensures Decode(Frame(body) + t) == Decoded([body] + Decode(t).bodies, Decode(t).error)
  {
    ReadOneOfFrame(body, t);
  }

  lemma FramesThen(bodies: seq<Bytes>, t: Bytes)
    requires bodies != []
    ensures Frames(bodies) + t == Frame(bodies[0]) + (Frames(bodies[1..]) + t)
  {}

  lemma SeqCons(bodies: seq<Bytes>, more: seq<Bytes>)
    requires bodies != []
    ensures [bodies[0]] + (bodies[1..] + more) == bodies + more
  {}

  lemma DecodePrepend(bodies: seq<Bytes>, r: Bytes, more: seq<Bytes>)
    requires bodies != [] && Fits(bodies[0])
    requires Decode(r).bodies == bodies[1..] + more
    ensures Decode(Frame(bodies[0]) + r) == Decoded(bodies + more, Decode(r).error)
  {
    DecodeFrameThen(bodies[0], r);
    SeqCons(bodies, more);
  }

  /** Reading past a whole number of well-sized frames. */
  lemma {:induction false} DecodeFramesThen(bodies: seq<Bytes>, t: Bytes)
    requires AllFit(bodies)
    ensures Decode(Frames(bodies) + t) == Decoded(bodies + Decode(t).bodies, Decode(t).error)
  {
    if bodies == [] {
      assert Frames(bodies) + t == t;
      assert bodies + Decode(t).bodies == Decode(t).bodies;
    } else {
      DecodeFramesThen(bodies[1..], t);
      FramesThen(bodies, t);
      DecodePrepend(bodies, Frames(bodies[1..]) + t, Decode(t).bodies);
    }
  }

  /** Stream inversion. */
  lemma {:induction false} DecodeFrames(bodies: seq<Bytes>)
    requires AllFit(bodies)
    ensures Decode(Frames(bodies)) == Decoded(bodies, EOF)
  {
    DecodeFramesThen(bodies, []);
    assert Frames(bodies) + [] == Frames(bodies);
  }

  lemma FrameFirst(b: Bytes, bs: seq<Bytes>, rest: Bytes)
    requires Frames(bs) <= rest
    ensures Frames([b] + bs) <= Frame(b) + rest
    ensures (Frame(b) + rest)[|Frames([b] + bs)|..] == rest[|Frames(bs)|..]
  {
    assert ([b] + bs)[1..] == bs;
    assert Frames([b] + bs) == Frame(b) + Frames(bs);
  }

  lemma ReadOneSound(s: Bytes)
    requires ReadOne(s).Body?
    ensures Fits(ReadOne(s).body)
    ensures s == Frame(ReadOne(s).body) + ReadOne(s).rest
  {
    var r := ReadOne(s);
    ReadOneHeader(s);
    assert s[4..] == r.body + r.rest;
    assert s == s[..4] + s[4..];
    FrameThen(r.body, r.rest);
  }

  lemma ReadOneHeader(s: Bytes)
    requires ReadOne(s).Body?
    ensures Header(ReadOne(s).body) == s[..4]
  {
    BigEndianOfFromBigEndian(s[..4]);
  }

  /** The other direction, on every byte sequence: what a read loop returned is,
      re-framed, exactly the part of the stream it consumed. */
  lemma {:induction false} DecodeSound(s: Bytes)
    ensures AllFit(Decode(s).bodies)
    ensures Frames(Decode(s).bodies) <= s
    ensures ReadOne(s[|Frames(Decode(s).bodies)|..]) == Failed(Decode(s).error)
    decreases |s|
  {
    match ReadOne(s)
    case Failed(e) =>
      assert s[0..] == s;
    case Body(b, rest) =>
      DecodeSound(rest);
      ReadOneSound(s);
      var bs := Decode(rest).bodies;
      assert Decode(s).bodies == [b] + bs && ([b] + bs)[1..] == bs;
      FrameFirst(b, bs, rest);
  }

  // ------------------------------------------------------------- truncation

  /** How many of the frames lie wholly within the first `cut` bytes. */
  function WholeFrames(bodies: seq<Bytes>, cut: nat): (k: nat)
    ensures k <= |bodies|
  {
    if bodies == [] || cut < 4 + |bodies[0]| then 0
    else 1 + WholeFrames(bodies[1..], cut - (4 + |bodies[0]|))
  }

  /** WholeFrames is the number it claims to be. */
  lemma {:induction false} WholeFramesSpec(bodies: seq<Bytes>, cut: nat, j: nat)
    requires j <= |bodies|
    ensures |Frames(bodies[..j])| <= cut <==> j <= WholeFrames(bodies, cut)
  {
    if j == 0 {
    } else if cut < 4 + |bodies[0]| {
      assert bodies[..j][0] == bodies[0];
    } else {
      assert bodies[..j][1..] == bodies[1..][..j - 1];
      WholeFramesSpec(bodies[1..], cut - (4 + |bodies[0]|), j - 1);
    }
  }

  lemma WholeFramesOfAll(bodies: seq<Bytes>)
    ensures WholeFrames(bodies, |Frames(bodies)|) == |bodies|
  {
    WholeFramesSpec(bodies, |Frames(bodies)|, |bodies|);
    assert bodies[..|bodies|] == bodies;
  }

  /** A frame cut short is never mistaken for a body; the end of file looks clean
      exactly when nothing or exactly the header was there. */
  lemma ReadOneOfCutFrame(body: Bytes, k: nat)
    requires Fits(body) && k < 4 + |body|
    ensures ReadOne(Frame(body)[..k]) == Failed(if k == 0 || k == 4 then EOF else UnexpectedEOF)
  {
    hide Header, FromBigEndian;
    if k >= 4 {
      FrameCut(body, k);
      ReadOneAfterHeader(body, body[..k - 4]);
    }
  }

  lemma FrameCut(body: Bytes, k: nat)
    requires 4 <= k <= 4 + |body|
    ensures Frame(body)[..k] == Header(body) + body[..k - 4]
  {}

  lemma {:induction false} CutFrames(bodies: seq<Bytes>, cut: nat)
    requires cut <= |Frames(bodies)|
    ensures var k := WholeFrames(bodies, cut);
            var done := Frames(bodies[..k]);
            && |done| <= cut
            && (k == |bodies| ==> cut == |done|)
            && (k < |bodies| ==> cut - |done| < 4 + |bodies[k]|)
            && Frames(bodies)[..cut] == done + (if k < |bodies| then Frame(bodies[k])[..cut - |done|] else [])
  {
    hide Header, WholeFrames;
    var k := WholeFrames(bodies, cut);
    var done := Frames(bodies[..k]);
    WholeFramesSpec(bodies, cut, k);
    FramesAppend(bodies[..k], bodies[k..]);
    assert bodies[..k] + bodies[k..] == bodies;
    if k < |bodies| {
      WholeFramesSpec(bodies, cut, k + 1);
      assert bodies[..k + 1] == bodies[..k] + [bodies[k]];
      FramesSnoc(bodies[..k], bodies[k]);
      CutInside(done, Frame(bodies[k]), Frames(bodies[k..][1..]), cut);
    }
  }

  lemma CutInside(done: Bytes, frame: Bytes, rest: Bytes, cut: nat)
    requires |done| <= cut <= |done| + |frame|
    ensures (done + (frame + rest))[..cut] == done + frame[..cut - |done|]
  {}

  lemma DecodeCut(whole: seq<Bytes>, next: Bytes, over: nat)
    requires AllFit(whole) && Fits(next) && over < 4 + |next|
    ensures Decode(Frames(whole) + Frame(next)[..over]) ==
            Decoded(whole, if over == 0 || over == 4 then EOF else UnexpectedEOF)
  {
    ReadOneOfCutFrame(next, over);
    DecodeFramesThen(whole, Frame(next)[..over]);
  }

  /** Cutting a stream of frames at any byte yields exactly the wholly contained
      bodies and then an error, which is a clean EOF exactly on a frame boundary
      or just after the header of a non-empty body. */
  lemma Truncation(bodies: seq<Bytes>, cut: nat)
    requires AllFit(bodies)
    requires cut <= |Frames(bodies)|
    ensures var k := WholeFrames(bodies, cut);
            var over := cut - |Frames(bodies[..k])|;
            Decode(Frames(bodies)[..cut]) ==
            Decoded(bodies[..k], if over == 0 || over == 4 then EOF else UnexpectedEOF)
  {
    var k := WholeFrames(bodies, cut);
    CutFrames(bodies, cut);
    var over := cut - |Frames(bodies[..k])|;
    assert AllFit(bodies[..k]);
    if k < |bodies| {
      assert Fits(bodies[k]);
      DecodeCut(bodies[..k], bodies[k], over);
    } else {
      DecodeFrames(bodies[..k]);
      assert bodies[..k] == bodies && Frames(bodies)[..cut] == Frames(bodies);
    }
  }

  // --------------------------------------------------------- failed writes

  /** What a connection holds after the frames of `sent` and a further WriteFrame
      of `next` that stopped after `k` bytes.  Decoding recovers exactly the fully
      written messages; the failed one is among them exactly when the failing
      write had nevertheless accepted all its bytes. */
  lemma DecodeAfterFailedWrite(sent: seq<Bytes>, next: Bytes, k: nat)
    requires AllFit(sent) && Fits(next)
    requires k <= 4 + |next|
    ensures Decode(Frames(sent) + Frame(next)[..k]).bodies == sent <==> k < 4 + |next|
    ensures k == 4 + |next| ==> Decode(Frames(sent) + Frame(next)[..k]) == Decoded(sent + [next], EOF)
  {
    if k < 4 + |next| {
      DecodeCut(sent, next, k);
    } else {
      assert Frame(next)[..k] == Frame(next);
      FramesSnoc(sent, next);
      DecodeFrames(sent + [next]);
    }
  }

  // -------------------------------------------------------- oversized bodies

  /** The bodies before the first one over the bound. */
  ghost function FittingPrefix(bodies: seq<Bytes>): (p: seq<Bytes>)
    ensures p <= bodies && AllFit(p)
    ensures |p| < |bodies| ==> !Fits(bodies[|p|])
  {
    if bodies == [] || !Fits(bodies[0]) then []
    else
      assert bodies == [bodies[0]] + bodies[1..];
      [bodies[0]] + FittingPrefix(bodies[1..])
  }

  /** The reader refuses what the header says about `body`, after the length was
      narrowed to 32 bits. */
  ghost predicate Refused(body: Bytes) { |body| % UINT32_RANGE > MAX_FRAME_SIZE }

  /** All bodies fit, or the reader refuses the first that does not. */
  ghost predicate Readable(bodies: seq<Bytes>) {
    var n := |FittingPrefix(bodies)|;
    n < |bodies| ==> Refused(bodies[n])
  }

  lemma FittingUnique(bodies: seq<Bytes>, p: seq<Bytes>)
    requires p <= bodies && AllFit(p) && (|p| < |bodies| ==> !Fits(bodies[|p|]))
    ensures p == FittingPrefix(bodies)
  {
    assert |p| == |FittingPrefix(bodies)|;
  }

  lemma FittingOfAll(bodies: seq<Bytes>)
    requires AllFit(bodies)
    ensures FittingPrefix(bodies) == bodies && Readable(bodies)
  {
    FittingUnique(bodies, bodies);
  }

  lemma FittingOfPart(bodies: seq<Bytes>, k: nat)
    requires k <= |bodies|
    ensures var p := FittingPrefix(bodies); FittingPrefix(bodies[..k]) == if k <= |p| then p[..k] else p
  {
    var p := FittingPrefix(bodies);
    FittingUnique(bodies[..k], if k <= |p| then p[..k] else p);
  }

  /** The rest of a stream whose next frame is over the bound. */
  lemma ReadOversized(body: Bytes, t: Bytes)
    requires !Fits(body)
    ensures Refused(body) ==> ReadOne(Header(body) + t) == Failed(ShortBuffer)
    ensures !Refused(body) && body <= t ==> ReadOne(Header(body) + t).Body?
  {
    ReadOneAfterHeader(body, t);
  }

  lemma SplitAt(bodies: seq<Bytes>, n: nat)
    requires n < |bodies|
    ensures Frames(bodies) == Frames(bodies[..n]) + (Header(bodies[n]) + (bodies[n] + Frames(bodies[n + 1..])))
  {
    assert bodies == bodies[..n] + bodies[n..];
    FramesAppend(bodies[..n], bodies[n..]);
    assert bodies[n..][1..] == bodies[n + 1..];
    FrameThen(bodies[n], Frames(bodies[n + 1..]));
  }

  /** Reading the frames of any bodies: the loop returns exactly those before the
      first one over the bound, and then refuses - unless that one's length wraps to
      something within the bound, and then it returns at least one body more. */
  lemma {:induction false} DecodeFramesOfAny(bodies: seq<Bytes>)
    ensures Decode(Frames(bodies)).bodies == FittingPrefix(bodies) <==> Readable(bodies)
    ensures Readable(bodies) ==> Decode(Frames(bodies)).error == if AllFit(bodies) then EOF else ShortBuffer
  {
    var n := |FittingPrefix(bodies)|;
    if n == |bodies| {
      DecodeFrames(bodies);
    } else {
      assert !AllFit(bodies);
      DecodePastFitting(bodies, n);
    }
  }

  lemma DecodePastFitting(bodies: seq<Bytes>, n: nat)
    requires n < |bodies| && AllFit(bodies[..n]) && !Fits(bodies[n])
    ensures Refused(bodies[n]) ==> Decode(Frames(bodies)) == Decoded(bodies[..n], ShortBuffer)
    ensures !Refused(bodies[n]) ==> |Decode(Frames(bodies)).bodies| > n
  {
    var t := bodies[n] + Frames(bodies[n + 1..]);
    SplitAt(bodies, n);
    ReadOversized(bodies[n], t);
    DecodeFramesThen(bodies[..n], Header(bodies[n]) + t);
  }

  /** The same for a stream that is cut at any byte. */
  lemma {:induction false} TruncationOfAny(bodies: seq<Bytes>, cut: nat)
    requires Readable(bodies) && cut <= |Frames(bodies)|
    ensures Decode(Frames(bodies)[..cut]).bodies == Arriving(bodies, cut)
  {
    hide Header, Frame, Frames, Decode, ReadOne, WholeFrames, FittingPrefix;
    var p, k := FittingPrefix(bodies), WholeFrames(bodies, cut);
    CutFrames(bodies, cut);
    FittingOfPart(bodies, k);
    var whole := bodies[..k];
    var over := cut - |Frames(whole)|;
    if k > |p| {
      assert whole[..|p|] == p;
      RefusedInside(whole, |p|, if k < |bodies| then Frame(bodies[k])[..over] else []);
    } else if k < |bodies| {
      assert whole == p[..k] && (k < |p| ==> bodies[k] == p[k]);
      CutFrameFails(bodies[k], over);
      DecodeThenFails(whole, Frame(bodies[k])[..over]);
    } else {
      assert whole == p[..k];
      DecodeThenFails(whole, []);
    }
  }

  lemma DecodeThenFails(whole: seq<Bytes>, t: Bytes)
    requires AllFit(whole) && (t == [] || ReadOne(t).Failed?)
    ensures Decode(Frames(whole) + t).bodies == whole
  {
    DecodeFramesThen(whole, t);
  }

  lemma CutFrameFails(body: Bytes, k: nat)
    requires Fits(body) || Refused(body)
    requires k < 4 + |body|
    ensures ReadOne(Frame(body)[..k]).Failed?
  {
    if k >= 4 {
      FrameCut(body, k);
      ReadOneAfterHeader(body, body[..k - 4]);
    }
  }

  lemma RefusedInside(bodies: seq<Bytes>, n: nat, t: Bytes)
    requires n < |bodies| && AllFit(bodies[..n]) && !Fits(bodies[n]) && Refused(bodies[n])
    ensures Decode(Frames(bodies) + t).bodies == bodies[..n]
  {
    SplitAt(bodies, n);
    var more := bodies[n] + Frames(bodies[n + 1..]) + t;
    assert Frames(bodies) + t == Frames(bodies[..n]) + (Header(bodies[n]) + more);
    ReadOversized(bodies[n], more);
    DecodeFramesThen(bodies[..n], Header(bodies[n]) + more);
  }

  /** What a read loop gets of the frames of `bodies`, cut at any byte. */
  ghost function Arriving(bodies: seq<Bytes>, cut: nat): seq<Bytes> {
    FittingPrefix(bodies[..WholeFrames(bodies, cut)])
  }

  /** Without a cut and within the bound, everything arrives. */
  lemma AllArrive(bodies: seq<Bytes>)
    requires AllFit(bodies)
    ensures Readable(bodies) && Arriving(bodies, |Frames(bodies)|) == bodies
  {
    WholeFramesOfAll(bodies);
    FittingOfAll(bodies);
    assert bodies[..|bodies|] == bodies;
  }
}
