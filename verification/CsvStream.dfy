/** The CSV reader's state machine and the loop that streams its rows to the broker
    (internal/producer/csv_reader.go and producer.go).  What the file yields after
    its header is a finite sequence of records and read errors, then end of file. */
module CsvStream {
  import opened Framing
  import opened Sequences
  import opened Streams
  import opened Rows
  import Roles
  import Labels

  datatype Event = Record(fields: seq<string>) | Broken(message: string)

  datatype RowResult = GotRow(row: Row) | EndOfFile | RowError(message: string)

  datatype RawResult = GotRecord(fields: seq<string>) | RawEnd | RawError(message: string)

  class MetricsCSVReader {
    const header: seq<string>
    /** What csv.Reader has yet to yield. */
    var source: seq<Event>
    var rowNum: nat
    var hasError: bool
    var lastError: Option<string>

    constructor (header: seq<string>, source: seq<Event>)
      ensures this.header == header && this.source == source
      ensures rowNum == 0 && !hasError && lastError == None
    {
      this.header := header;
      this.source := source;
      rowNum, hasError, lastError := 0, false, None;
    }

    method HasNextRow() returns (more: bool)
      ensures more == !hasError
    {
      more := !hasError;
    }

    /** The next record, once: the first end of file or read error is sticky, after
        which nothing more is read and every call fails. */
    method GetRawRow() returns (r: RawResult)
      modifies this
      ensures old(hasError) ==> r.RawError? && unchanged(this)
      ensures !old(hasError) && old(source) == [] ==>
                r == RawEnd && hasError && source == [] && rowNum == old(rowNum) && lastError == old(lastError)
      ensures !old(hasError) && old(source) != [] && old(source)[0].Broken? ==>
                && r == RawError(old(source)[0].message) && hasError && lastError == Some(old(source)[0].message)
                && source == old(source)[1..] && rowNum == old(rowNum)
      ensures !old(hasError) && old(source) != [] && old(source)[0].Record? ==>
                && r == GotRecord(old(source)[0].fields) && !hasError && lastError == old(lastError)
                && source == old(source)[1..] && rowNum == old(rowNum) + 1
    {
      if hasError {
        return RawError(lastError.GetOr("reader is in error state"));
      }
      if source == [] {
        hasError := true;
        return RawEnd;
      }
      var event := source[0];
      source := source[1..];
      match event {
        case Broken(message) =>
          hasError, lastError := true, Some(message);
          r := RawError(message);
        case Record(fields) =>
          rowNum := rowNum + 1;
          r := GotRecord(fields);
      }
    }

    /** GetNextRow reads like GetRawRow and names the fields. */
    method GetNextRow() returns (r: RowResult)
      modifies this
      ensures old(hasError) ==> r.RowError? && unchanged(this)
      ensures !old(hasError) && old(source) == [] ==>
                r == EndOfFile && hasError && source == [] && rowNum == old(rowNum) && lastError == old(lastError)
      ensures !old(hasError) && old(source) != [] && old(source)[0].Broken? ==>
                && r == RowError(old(source)[0].message) && hasError && lastError == Some(old(source)[0].message)
                && source == old(source)[1..] && rowNum == old(rowNum)
      ensures !old(hasError) && old(source) != [] && old(source)[0].Record? ==>
                && r == GotRow(RowOf(header, old(source)[0].fields, |header|)) && !hasError && lastError == old(lastError)
                && source == old(source)[1..] && rowNum == old(rowNum) + 1
    {
      var raw := GetRawRow();
      match raw {
        case RawError(message) => r := RowError(message);
        case RawEnd => r := EndOfFile;
        case GotRecord(fields) =>
          var row := BuildRow(header, fields);
          r := GotRow(row);
      }
    }
  }

  /** The libraries the loop calls, by row number: the clock, json.Marshal of the
      payload, and the marshalled message around it (with its id and time). */
  datatype Env = Env(now: nat -> string, marshal: (nat, Payload) -> Option<Bytes>, wrap: (nat, Bytes) -> Option<Bytes>)

  /** A file to stream: its header, the columns to rewrite, and the environment. */
  datatype Job = Job(header: seq<string>, ts: int, labels: int, env: Env)

  function PayloadOf(job: Job, n: nat, fields: seq<string>): Payload {
    TransformRow(RowOf(job.header, fields, |job.header|), job.ts, job.labels, job.env.now(n))
  }

  /** What becomes of the n-th record: a body to send, a payload that cannot be
      marshalled and is skipped, or a message that cannot be marshalled. */
  datatype Encoding = Send(body: Bytes) | Skip | Unsendable

  function Encode(job: Job, n: nat, e: Event): Encoding {
    if e.Broken? then Skip else
    match job.env.marshal(n, PayloadOf(job, n, e.fields))
    case None => Skip
    case Some(payload) =>
      match job.env.wrap(n, payload)
      case None => Unsendable
      case Some(body) => Send(body)
  }

  /** What is sent of the n-th record, in terms of the record alone: under each column's
      name the field, nothing under a column with an empty field (timestamp aside), and
      no other names.  Only under an empty name the time or parsed labels may stand. */
  ghost predicate PayloadIs(job: Job, n: nat, fields: seq<string>, payload: Payload) {
    && (forall k :: k in payload ==> k in job.header)
    && forall i :: 0 <= i < |job.header| && IsLast(job.header, i) ==>
         Lookup(payload, job.header[i]) ==
         if i >= |fields| || fields[i] == "" then (if job.header[i] == "timestamp" then Some(Text("")) else None)
         else if job.header[i] != "" || (job.ts < 0 && job.labels < 0) then Some(Text(fields[i]))
         else if job.ts >= 0 then Some(Text(job.env.now(n)))
         else Some(LabelSet(Labels.Parse(fields[i])))
  }

  /** A record whose payload cannot be marshalled is skipped, one whose message cannot
      be marshalled ends the call, and any other is sent: as the wrapped, marshalled
      payload that holds exactly that record's fields. */
  lemma {:induction false} EncodeSpec(job: Job, n: nat, fields: seq<string>)
    ensures var payload := PayloadOf(job, n, fields);
            var body := job.env.marshal(n, payload);
            && PayloadIs(job, n, fields, payload)
            && (body.None? ==> Encode(job, n, Record(fields)) == Skip)
            && (body.Some? && job.env.wrap(n, body.value).None? ==> Encode(job, n, Record(fields)) == Unsendable)
            && (body.Some? && job.env.wrap(n, body.value).Some? ==>
                  Encode(job, n, Record(fields)) == Send(job.env.wrap(n, body.value).value))
  {
    PayloadHolds(job, n, fields);
  }

  lemma PayloadHolds(job: Job, n: nat, fields: seq<string>)
    ensures PayloadIs(job, n, fields, PayloadOf(job, n, fields))
  {
    hide TransformRow, RowOf, Labels.Parse;
    var header, payload, now := job.header, PayloadOf(job, n, fields), job.env.now(n);
    assert forall k :: Lookup(payload, k) == Transformed(header, fields, job.ts, job.labels, now, k);
    forall k | k in payload ensures k in header {
      assert Lookup(payload, k).Some?;
      TransformRowDrops(header, fields, job.ts, job.labels, now, k);
    }
    forall i | 0 <= i < |header| && IsLast(header, i)
      ensures Lookup(payload, header[i]) ==
              if i >= |fields| || fields[i] == "" then (if header[i] == "timestamp" then Some(Text("")) else None)
              else if header[i] != "" || (job.ts < 0 && job.labels < 0) then Some(Text(fields[i]))
              else if job.ts >= 0 then Some(Text(now))
              else Some(LabelSet(Labels.Parse(fields[i])))
    {
      TransformRowHolds(header, fields, job.ts, job.labels, now, i);
    }
  }

  /** The bodies of the first `n` records, in record order. */
  function Sendable(job: Job, events: seq<Event>, n: nat): seq<Bytes>
    requires n <= |events|
  {
    if n == 0 then []
    else
      Sendable(job, events, n - 1) +
      match Encode(job, n - 1, events[n - 1]) case Send(b) => [b] case _ => []
  }

  /** The first `n` events are records that can be sent or have to be skipped. */
  ghost predicate Streamable(job: Job, events: seq<Event>, n: nat)
    requires n <= |events|
  {
    forall i :: 0 <= i < n ==> events[i].Record? && !Encode(job, i, events[i]).Unsendable?
  }

  /** Why StreamCSVMetrics returned. */
  datatype Outcome = Completed | ReadFailed | EncodeFailed | WriteFailed(accepted: nat)

  /** What handling one record may do: report `sent` and `outcome`, having put
      `piece` on the wire. */
  ghost predicate RowOutcome(e: Encoding, sent: bool, outcome: Outcome, piece: Bytes) {
    match e
    case Skip => !sent && outcome == Completed && piece == []
    case Unsendable => !sent && outcome == EncodeFailed && piece == []
    case Send(body) =>
      || (sent && outcome == Completed && piece == Frame(body))
      || (!sent && outcome.WriteFailed? && outcome.accepted <= 4 + |body| && piece == Frame(body)[..outcome.accepted])
  }

  /** One record: transform, marshal, wrap, write. */
  method StreamRow(job: Job, n: nat, fields: seq<string>, row: Row, conn: Connection)
    returns (sent: bool, outcome: Outcome, ghost piece: Bytes)
    requires row == RowOf(job.header, fields, |job.header|)
    requires conn.Valid()
    modifies conn
    ensures conn.Valid() && (outcome.WriteFailed? ==> conn.Broken())
    ensures conn.wire == old(conn.wire) + piece
    ensures RowOutcome(Encode(job, n, Record(fields)), sent, outcome, piece)
  {
    piece := [];
    assert conn.wire + [] == conn.wire;
    var payload := TransformRowLoop(row, job.ts, job.labels, job.env.now(n));
    var marshalled := job.env.marshal(n, payload);
    if marshalled.None? {
      return false, Completed, piece;
    }
    var message := job.env.wrap(n, marshalled.value);
    if message.None? {
      return false, EncodeFailed, piece;
    }
    var k, ok := WriteFrame(conn, message.value);
    piece := Frame(message.value)[..k];
    if !ok {
      return false, WriteFailed(k), piece;
    }
    assert Frame(message.value)[..k] == Frame(message.value);
    return true, Completed, piece;
  }

  /** What a finished call put on the wire, for each way it can end.  `used` counts
      the records consumed. */
  ghost predicate Accounts(job: Job, events: seq<Event>, used: nat, count: nat, outcome: Outcome, sent: Bytes) {
    && used <= |events|
    && match outcome
       case Completed =>
         && used == |events| && Streamable(job, events, used)
         && count == |Sendable(job, events, used)| && sent == Frames(Sendable(job, events, used))
       case ReadFailed =>
         && used < |events| && events[used].Broken? && Streamable(job, events, used)
         && count == |Sendable(job, events, used)| && sent == Frames(Sendable(job, events, used))
       case EncodeFailed =>
         && used > 0 && Streamable(job, events, used - 1) && Encode(job, used - 1, events[used - 1]).Unsendable?
         && count == |Sendable(job, events, used - 1)| && sent == Frames(Sendable(job, events, used - 1))
       case WriteFailed(k) =>
         && used > 0 && Streamable(job, events, used - 1) && Encode(job, used - 1, events[used - 1]).Send?
         && count == |Sendable(job, events, used - 1)|
         && k <= 4 + |Encode(job, used - 1, events[used - 1]).body|
         && sent == Frames(Sendable(job, events, used - 1)) + Frame(Encode(job, used - 1, events[used - 1]).body)[..k]
  }

  /** The loop's state after `used` records. */
  ghost predicate Streaming(job: Job, events: seq<Event>, used: nat, count: nat, sent: Bytes) {
    && used <= |events| && Streamable(job, events, used)
    && count == |Sendable(job, events, used)| && sent == Frames(Sendable(job, events, used))
  }

  lemma StreamStarts(job: Job, events: seq<Event>)
    ensures Streaming(job, events, 0, 0, [])
  {}

  lemma StreamEnds(job: Job, events: seq<Event>, used: nat, count: nat, sent: Bytes)
    requires Streaming(job, events, used, count, sent) && used == |events|
    ensures Accounts(job, events, used, count, Completed, sent)
  {}

  lemma StreamBreaks(job: Job, events: seq<Event>, used: nat, count: nat, sent: Bytes)
    requires Streaming(job, events, used, count, sent) && used < |events| && events[used].Broken?
    ensures Accounts(job, events, used, count, ReadFailed, sent)
  {}

  /** One more record: the loop goes on, or the call is over and accounted for. */
  lemma NextRow(job: Job, events: seq<Event>, n: nat, count: nat, sent: Bytes, ok: bool, outcome: Outcome, piece: Bytes)
    requires Streaming(job, events, n, count, sent) && n < |events| && events[n].Record?
    requires RowOutcome(Encode(job, n, events[n]), ok, outcome, piece)
    ensures outcome == Completed ==> Streaming(job, events, n + 1, if ok then count + 1 else count, sent + piece)
    ensures outcome != Completed ==> Accounts(job, events, n + 1, count, outcome, sent + piece)
  {
    var bodies := Sendable(job, events, n);
    assert bodies + [] == bodies && sent + [] == sent;
    if ok {
      FramesSnoc(bodies, Encode(job, n, events[n]).body);
    }
  }

  /** StreamCSVMetrics terminates on every finite file, and on every exit the count
      it returns is the number of frames it wrote in full and successfully, in record
      order; without an error every record was consumed and only payloads that could
      not be marshalled were skipped.  A write fails only where the connection breaks. */
  method StreamCSVMetrics(job: Job, events: seq<Event>, conn: Connection)
    returns (count: nat, outcome: Outcome, used: nat, ghost sent: Bytes)
    requires conn.Valid()
    modifies conn
    ensures conn.Valid() && (outcome.WriteFailed? ==> conn.Broken())
    ensures conn.wire == old(conn.wire) + sent
    ensures Accounts(job, events, used, count, outcome, sent)
  {
    hide Accounts, Streaming, RowOutcome;
    var reader := new MetricsCSVReader(job.header, events);
    count, used, outcome, sent := 0, 0, Completed, [];
    StreamStarts(job, events);
    var more := reader.HasNextRow();
    while more
      invariant fresh(reader) && reader.header == job.header && more && !reader.hasError
      invariant outcome == Completed && Streaming(job, events, used, count, sent)
      invariant used == reader.rowNum <= |events| && reader.source == events[used..]
      invariant conn.Valid() && conn.wire == old(conn.wire) + sent
      decreases |reader.source|
    {
      var r := reader.GetNextRow();
      match r {
        case EndOfFile =>
          StreamEnds(job, events, used, count, sent);
          return;
        case RowError(_) =>
          outcome := ReadFailed;
          StreamBreaks(job, events, used, count, sent);
          return;
        case GotRow(row) =>
          var n, ok := used, false;
          ghost var piece;
          used := used + 1;
          ok, outcome, piece := StreamRow(job, n, events[n].fields, row, conn);
          NextRow(job, events, n, count, sent, ok, outcome, piece);
          sent := sent + piece;
          if outcome != Completed {
            return;
          }
          if ok {
            count := count + 1;
          }
      }
      more := reader.HasNextRow();
    }
  }

  lemma WholeFramesOfMore(bodies: seq<Bytes>, body: Bytes, k: nat)
    requires k <= 4 + |body|
    ensures WholeFrames(bodies + [body], |Frames(bodies)| + k) == |bodies| <==> k < 4 + |body|
  {
    var all, n := bodies + [body], |bodies|;
    assert all[..n] == bodies && all[..n + 1] == all;
    FramesSnoc(bodies, body);
    WholeFramesSpec(all, |Frames(bodies)| + k, n);
    WholeFramesSpec(all, |Frames(bodies)| + k, n + 1);
  }

  /** The returned count is the number of complete frames on the wire on every exit
      but one: a failing write that had nevertheless accepted its whole frame. */
  lemma CountMatchesWire(job: Job, events: seq<Event>, used: nat, count: nat, outcome: Outcome, sent: Bytes)
    requires Accounts(job, events, used, count, outcome, sent)
    ensures sent <= Frames(Sendable(job, events, used))
    ensures WholeFrames(Sendable(job, events, used), |sent|) == count <==>
              !(outcome.WriteFailed? && outcome.accepted == 4 + |Encode(job, used - 1, events[used - 1]).body|)
  {
    var all := Sendable(job, events, used);
    WholeFramesOfAll(all);
    if outcome.WriteFailed? {
      var body := Encode(job, used - 1, events[used - 1]).body;
      var bodies := Sendable(job, events, used - 1);
      FramesSnoc(bodies, body);
      WholeFramesOfMore(bodies, body, outcome.accepted);
    } else if outcome.EncodeFailed? {
      assert Sendable(job, events, used - 1) + [] == Sendable(job, events, used - 1);
    }
  }

  /** From CSV records to the broker: after the role line the broker serves the
      connection as a producer and reads, in record order, the bodies of the records
      whose frames are complete, up to the first one over the bound, which ends its
      read loop.  It reads `count` of them exactly when none of the counted bodies is
      over the bound and no failing write had accepted a whole frame within it. */
  lemma {:induction false} BrokerReadsRows(job: Job, events: seq<Event>, used: nat, count: nat, outcome: Outcome, sent: Bytes)
    requires Accounts(job, events, used, count, outcome, sent)
    requires Readable(Sendable(job, events, used))
    ensures Roles.Serve(Roles.PRODUCER + [Roles.LF] + sent) == Roles.AsProducer(sent)
    ensures var all := Sendable(job, events, used);
            && Decode(sent).bodies == Arriving(all, |sent|)
            && count <= |all|
            && (|Decode(sent).bodies| == count <==>
                  && AllFit(all[..count])
                  && !(outcome.WriteFailed? && outcome.accepted == 4 + |all[count]| && Fits(all[count])))
  {
    var all := Sendable(job, events, used);
    SentIsCut(job, events, used, count, outcome, sent);
    TruncationOfAny(all, |sent|);
    FittingCount(all, count, WholeFrames(all, |sent|));
    assert Roles.PRODUCER + [Roles.LF] + sent == Roles.Opening(Roles.PRODUCER, 0, sent);
    Roles.ServedAsProducer(Roles.PRODUCER + [Roles.LF] + sent, sent);
  }

  /** What was sent is the frames of all records, cut after `count` frames or, when a
      failing write had accepted everything, after one more. */
  lemma SentIsCut(job: Job, events: seq<Event>, used: nat, count: nat, outcome: Outcome, sent: Bytes)
    requires Accounts(job, events, used, count, outcome, sent)
    ensures var all := Sendable(job, events, used);
            && |sent| <= |Frames(all)| && sent == Frames(all)[..|sent|]
            && count <= |all| && (outcome.WriteFailed? ==> count < |all|)
            && WholeFrames(all, |sent|) ==
                 if outcome.WriteFailed? && outcome.accepted == 4 + |all[count]| then count + 1 else count
  {
    var all := Sendable(job, events, used);
    CountMatchesWire(job, events, used, count, outcome, sent);
    if outcome.WriteFailed? {
      var bodies, body := Sendable(job, events, used - 1), Encode(job, used - 1, events[used - 1]).body;
      assert all == bodies + [body];
      if outcome.accepted == 4 + |body| {
        FramesSnoc(bodies, body);
        assert Frame(body)[..outcome.accepted] == Frame(body);
        WholeFramesOfAll(all);
      }
    }
  }

  lemma FittingCount(all: seq<Bytes>, count: nat, k: nat)
    requires count <= k <= |all| && k <= count + 1
    ensures |FittingPrefix(all[..k])| == count <==> AllFit(all[..count]) && !(k == count + 1 && Fits(all[count]))
  {
    var p := FittingPrefix(all[..k]);
    assert forall i :: 0 <= i < |p| ==> Fits(all[i]) by {
      assert forall i :: 0 <= i < |p| ==> p[i] == all[i];
    }
  }
}
