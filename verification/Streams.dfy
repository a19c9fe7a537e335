/** WriteFrame and ReadFrame on a connection (internal/protocol/frame.go), with the
    byte slices they fill: the header array and the caller's reusable buffer. */
module Streams {
  import opened Framing
  import opened Sequences

  /** The writing half of a connection: the bytes its peer will see.  It breaks after
      `limit` bytes in all, or never. */
  class Connection {
    var wire: Bytes
    const limit: Option<nat>

    ghost predicate Valid()
      reads this
    {
      limit.Some? ==> |wire| <= limit.value
    }

    ghost predicate Broken()
      reads this
    {
      limit == Some(|wire|)
    }

    constructor (limit: Option<nat>)
      ensures Valid() && wire == [] && this.limit == limit
    {
      wire, this.limit := [], limit;
    }

    /** As io.Writer demands, success means that all bytes were accepted.  A write
        fails only where the connection breaks; one that ends just there may succeed
        or fail. */
    method Write(data: Bytes) returns (n: nat, ok: bool)
      requires Valid()
      modifies this
      ensures Valid() && n <= |data| && (ok ==> n == |data|) && (!ok ==> Broken())
      ensures wire == old(wire) + data[..n]
    {
      n, ok := |data|, true;
      if limit.Some? && |wire| + |data| >= limit.value {
        n := limit.value - |wire|;
        ok := *;
        if n < |data| {
          ok := false;
        }
      }
      wire := wire + data[..n];
    }
  }

  /** WriteFrame: the header and then the body, stopping at the first failure.
      `n` counts the bytes that reached the wire.  It fails only where the connection
      breaks. */
  method WriteFrame(w: Connection, body: Bytes) returns (n: nat, ok: bool)
    requires w.Valid()
    modifies w
    ensures w.Valid() && n <= 4 + |body| && (ok ==> n == 4 + |body|) && (!ok ==> w.Broken())
    ensures w.wire == old(w.wire) + Frame(body)[..n]
  {
    var len := |body| % UINT32_RANGE;
    var h := new Byte[4];
    h[0], h[1], h[2], h[3] := len / 0x100_0000, len / 0x1_0000 % 256, len / 0x100 % 256, len % 256;
    BigEndian4(len);
    assert h[..] == Header(body);
    n, ok := w.Write(h[..]);
    assert Header(body)[..n] == Frame(body)[..n];
    if !ok {
      return;
    }
    var k;
    k, ok := w.Write(body);
    n := 4 + k;
    FrameCut(body, n);
  }

  /** The reading half of a connection: the bytes not yet read. */
  class Reader {
    var rest: Bytes

    constructor (input: Bytes)
      ensures rest == input
    {
      rest := input;
    }

    /** io.ReadFull into buf[..n]. */
    method ReadFull(buf: array<Byte>, n: nat) returns (err: Option<ReadError>)
      requires n <= buf.Length
      modifies this, buf
      ensures n <= |old(rest)| ==> err == None && buf[..n] == old(rest)[..n] && rest == old(rest)[n..]
      ensures n > |old(rest)| ==> err == Some(ReadFullError(|old(rest)|, n)) && rest == []
    {
      var m := if n <= |rest| then n else |rest|;
      for i := 0 to m
        invariant rest == old(rest)
        invariant buf[..i] == rest[..i]
      {
        buf[i] := rest[i];
      }
      err := if n <= |rest| then None else Some(ReadFullError(|rest|, n));
      rest := rest[m..];
    }
  }

  /** ReadFrame: the caller's buffer is reused whenever it is large enough, so the
      body returned aliases `buf` exactly when its length is at most buf.Length. */
  method ReadFrame(r: Reader, buf: array<Byte>) returns (body: array<Byte>, n: nat, err: Option<ReadError>)
    modifies r, buf
    ensures body == buf || fresh(body)
    ensures match ReadOne(old(r.rest))
            case Body(b, rest) =>
              && err == None && n == |b| && n <= body.Length && body[..n] == b && r.rest == rest
              && (body == buf <==> |b| <= buf.Length)
            case Failed(e) => err == Some(e)
  {
    body, n := buf, 0;
    ghost var s := r.rest;
    var h := new Byte[4];
    err := r.ReadFull(h, 4);
    if err.Some? {
      return;
    }
    assert s[..4] == h[..];
    FromBigEndian4(h[..]);
    var b0: int, b1: int, b2: int, b3: int := h[0], h[1], h[2], h[3];
    n := ((b0 * 256 + b1) * 256 + b2) * 256 + b3;
    if n > MAX_FRAME_SIZE {
      err := Some(ShortBuffer);
      return;
    }
    if buf.Length < n {
      body := new Byte[n];
    }
    err := r.ReadFull(body, n);
  }
}
