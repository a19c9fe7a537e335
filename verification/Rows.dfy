/** Turning a CSV row into a payload, by name through a map and by position
    (internal/producer/transformers.go and csv_reader.go). */
module Rows {
  import opened Sequences
  import Labels

  type Row = map<string, string>

  datatype Value = Text(text: string) | LabelSet(labels: Labels.Map)

  type Payload = map<string, Value>

  /** A field of the record; short records are padded with empty fields. */
  function Field(record: seq<string>, i: nat): string {
    if i < |record| then record[i] else ""
  }

  /** The row map GetNextRow builds from the first `n` columns. */
  function RowOf(header: seq<string>, record: seq<string>, n: nat): Row
    requires n <= |header|
  {
    if n == 0 then map[] else RowOf(header, record, n - 1)[header[n - 1] := Field(record, n - 1)]
  }

  method BuildRow(header: seq<string>, record: seq<string>) returns (row: Row)
    ensures row == RowOf(header, record, |header|)
  {
    row := map[];
    for i := 0 to |header|
      invariant row == RowOf(header, record, i)
    {
      if i < |record| {
        row := row[header[i] := record[i]];
      } else {
        row := row[header[i] := ""];
      }
    }
  }

  // ---------------------------------------------------------- by name (slow)

  /** getColumnNameByIndex knows no names: it answers "" for every index. */
  function ColumnNameByIndex(row: Row, idx: int): string { "" }

  /** An empty value is skipped, except in the column called timestamp. */
  predicate Kept(col: string, val: string) { val != "" || col == "timestamp" }

  function NamedValue(row: Row, col: string, ts: int, labels: int, now: string): Value
    requires col in row
  {
    var val := row[col];
    if ts >= 0 && col == ColumnNameByIndex(row, ts) then Text(now)
    else if labels >= 0 && col == ColumnNameByIndex(row, labels) then
      LabelSet(if val != "" then Labels.Parse(val) else map[])
    else Text(val)
  }

  function TransformRow(row: Row, ts: int, labels: int, now: string): Payload {
    map col | col in row && Kept(col, row[col]) :: NamedValue(row, col, ts, labels, now)
  }

  /** TransformRow as it runs, ranging over the map in any order. */
  method TransformRowLoop(row: Row, ts: int, labels: int, now: string) returns (payload: Payload)
    ensures payload == TransformRow(row, ts, labels, now)
  {
    hide Labels.Parse;
    payload := map[];
    var left := row.Keys;
    while left != {}
      invariant left <= row.Keys
      invariant payload == map col | col in row && col !in left && Kept(col, row[col]) :: NamedValue(row, col, ts, labels, now)
      decreases |left|
    {
      var col :| col in left;
      left := left - {col};
      var val := row[col];
      if val == "" && col != "timestamp" {
        continue;
      }
      if ts >= 0 && col == ColumnNameByIndex(row, ts) {
        payload := payload[col := Text(now)];
      } else if labels >= 0 && col == ColumnNameByIndex(row, labels) {
        if val != "" {
          var parsed := Labels.ParseLabels(val);
          payload := payload[col := LabelSet(parsed)];
        } else {
          payload := payload[col := LabelSet(map[])];
        }
      } else {
        payload := payload[col := Text(val)];
      }
    }
  }

  // ------------------------------------------------------ by position (fast)

  /** What column `i` contributes to the payload, if anything. */
  function IndexedValue(i: nat, val: string, ts: int, labels: int, now: string): Option<Value> {
    if i == ts then Some(Text(now))
    else if i == labels && val != "" then Some(LabelSet(Labels.Parse(val)))
    else if val != "" then Some(Text(val))
    else None
  }

  function AddColumn(payload: Payload, col: string, v: Option<Value>): Payload {
    match v case None => payload case Some(x) => payload[col := x]
  }

  /** The payload after the first `n` columns. */
  function TransformRaw(header: seq<string>, record: seq<string>, ts: int, labels: int, now: string, n: nat): Payload
    requires n <= |header|
  {
    if n == 0 then map[]
    else AddColumn(TransformRaw(header, record, ts, labels, now, n - 1), header[n - 1],
                   IndexedValue(n - 1, Field(record, n - 1), ts, labels, now))
  }

  method TransformRowWithRaw(header: seq<string>, record: seq<string>, ts: int, labels: int, now: string)
    returns (payload: Payload)
    ensures payload == TransformRaw(header, record, ts, labels, now, |header|)
  {
    hide Labels.Parse;
    payload := map[];
    for i := 0 to |header|
      invariant payload == TransformRaw(header, record, ts, labels, now, i)
    {
      var val := "";
      if i < |record| {
        val := record[i];
      }
      if i == ts {
        payload := payload[header[i] := Text(now)];
      } else if i == labels && val != "" {
        var parsed := Labels.ParseLabels(val);
        payload := payload[header[i] := LabelSet(parsed)];
      } else if val != "" {
        payload := payload[header[i] := Text(val)];
      }
    }
  }

  // --------------------------------------------------------------- agreement

  function Lookup<V>(m: map<string, V>, k: string): Option<V> {
    if k in m then Some(m[k]) else None
  }

  /** Header names are distinct and none is empty. */
  ghost predicate Ordinary(header: seq<string>) {
    && (forall i :: 0 <= i < |header| ==> header[i] != "")
    && (forall i, j :: 0 <= i < j < |header| ==> header[i] != header[j])
  }

  /** The last of the first `n` columns called `col`, whose field the row map holds. */
  function LastColumn(header: seq<string>, col: string, n: nat): (i: Option<nat>)
    requires n <= |header|
    ensures i.Some? ==> i.value < n && header[i.value] == col
    ensures forall j :: 0 <= j < n && header[j] == col ==> i.Some? && j <= i.value
  {
    if n == 0 then None else if header[n - 1] == col then Some(n - 1) else LastColumn(header, col, n - 1)
  }

  /** The row map, for every header, repeated and empty names included. */
  lemma {:induction false} RowOfSpec(header: seq<string>, record: seq<string>, col: string, n: nat)
    requires n <= |header|
    ensures Lookup(RowOf(header, record, n), col) ==
            match LastColumn(header, col, n)
            case None => None
            case Some(i) => Some(if i < |record| then record[i] else "")
  {
    if n > 0 {
      RowOfSpec(header, record, col, n - 1);
    }
  }

  /** What a caller finds in the payload under a column's name. */
  function Transformed(header: seq<string>, record: seq<string>, ts: int, labels: int, now: string, col: string): Option<Value> {
    Lookup(TransformRow(RowOf(header, record, |header|), ts, labels, now), col)
  }

  /** Exactly when the way through the map rewrites a column, for every header: the
      timestamp replaces the field of a column whose name is empty, wherever it
      stands, and labels are parsed in such a column only when there is no timestamp
      index.  The indices themselves are never looked at, only their signs. */
  lemma {:induction false} TransformRowRewritesIff(header: seq<string>, record: seq<string>, ts: int, labels: int, now: string, i: nat)
    requires i < |header| && LastColumn(header, header[i], |header|) == Some(i)
    requires Kept(header[i], Field(record, i)) && Field(record, i) != now
    ensures var v := Transformed(header, record, ts, labels, now, header[i]);
            && (v == Some(Text(now)) <==> ts >= 0 && header[i] == "")
            && (v.Some? && v.value.LabelSet? <==> ts < 0 && labels >= 0 && header[i] == "")
            && (v.Some? && v.value.LabelSet? ==> v.value.labels == Labels.Parse(Field(record, i)))
            && (v == Some(Text(Field(record, i))) <==> header[i] != "" || (ts < 0 && labels < 0))
  {
    hide Labels.Parse, TransformRow, RowOf;
    TransformedKept(header, record, ts, labels, now, i);
  }

  lemma TransformedKept(header: seq<string>, record: seq<string>, ts: int, labels: int, now: string, i: nat)
    requires i < |header| && LastColumn(header, header[i], |header|) == Some(i) && Kept(header[i], Field(record, i))
    ensures Transformed(header, record, ts, labels, now, header[i]) ==
            Some(if header[i] != "" || (ts < 0 && labels < 0) then Text(Field(record, i))
                 else if ts >= 0 then Text(now)
                 else LabelSet(Labels.Parse(Field(record, i))))
  {
    hide Labels.Parse;
    RowOfSpec(header, record, header[i], |header|);
    assert header[i] == "" ==> Field(record, i) != "";
  }

  /** A field that is not kept leaves no trace, and no column is invented. */
  lemma {:induction false} TransformRowDrops(header: seq<string>, record: seq<string>, ts: int, labels: int, now: string, col: string)
    ensures Transformed(header, record, ts, labels, now, col).None? <==>
              match LastColumn(header, col, |header|)
              case None => true
              case Some(i) => col != "timestamp" && (i < |record| ==> record[i] == "")
  {
    RowOfSpec(header, record, col, |header|);
  }

  /** Column `i` is the last of its name. */
  ghost predicate IsLast(header: seq<string>, i: nat) {
    i < |header| && forall j :: i < j < |header| ==> header[j] != header[i]
  }

  /** What the way through the map puts under the name of a column, in terms of the
      record alone: the field as it stands, nothing for an empty one (timestamp
      aside), and something else only under an empty name. */
  lemma {:induction false} TransformRowHolds(header: seq<string>, record: seq<string>, ts: int, labels: int, now: string, i: nat)
    requires IsLast(header, i)
    ensures var v := Transformed(header, record, ts, labels, now, header[i]);
            if i >= |record| || record[i] == "" then v == if header[i] == "timestamp" then Some(Text("")) else None
            else if header[i] != "" then v == Some(Text(record[i]))
            else if ts >= 0 then v == Some(Text(now))
            else if labels >= 0 then v == Some(LabelSet(Labels.Parse(record[i])))
            else v == Some(Text(record[i]))
  {
    hide Labels.Parse;
    assert LastColumn(header, header[i], |header|) == Some(i);
    TransformRowDrops(header, record, ts, labels, now, header[i]);
    if Kept(header[i], Field(record, i)) {
      TransformedKept(header, record, ts, labels, now, i);
    }
  }

  /** The last of the first `n` columns called `col` that contributes a value: the one
      at the timestamp index, or one whose field is not empty. */
  function LastFilled(header: seq<string>, record: seq<string>, ts: int, col: string, n: nat): (i: Option<nat>)
    requires n <= |header|
    ensures i.Some? ==> i.value < n && header[i.value] == col && (i.value == ts || Field(record, i.value) != "")
    ensures forall j :: 0 <= j < n && header[j] == col && (j == ts || Field(record, j) != "") ==> i.Some? && j <= i.value
  {
    if n == 0 then None
    else if header[n - 1] == col && (n - 1 == ts || Field(record, n - 1) != "") then Some(n - 1)
    else LastFilled(header, record, ts, col, n - 1)
  }

  /** The payload built by position, for every header: under each name stands what the
      last contributing column of that name holds. */
  lemma {:induction false} TransformRawSpec(header: seq<string>, record: seq<string>, ts: int, labels: int, now: string, col: string, n: nat)
    requires n <= |header|
    ensures Lookup(TransformRaw(header, record, ts, labels, now, n), col) ==
            match LastFilled(header, record, ts, col, n)
            case None => None
            case Some(i) => IndexedValue(i, Field(record, i), ts, labels, now)
  {
    hide Labels.Parse;
    if n > 0 {
      TransformRawSpec(header, record, ts, labels, now, col, n - 1);
    }
  }

  /** What the way by position puts under the name of a column, in terms of the record
      alone: the time at the timestamp index, parsed labels at the labels index, else
      the field as it stands, and nothing for an empty one. */
  lemma {:induction false} TransformRawHolds(header: seq<string>, record: seq<string>, ts: int, labels: int, now: string, i: nat)
    requires IsLast(header, i)
    ensures var v := Lookup(TransformRaw(header, record, ts, labels, now, |header|), header[i]);
            if i == ts then v == Some(Text(now))
            else if i < |record| && record[i] != "" then
              v == Some(if i == labels then LabelSet(Labels.Parse(record[i])) else Text(record[i]))
            else (forall j :: 0 <= j < i ==> header[j] != header[i]) ==> v == None
  {
    hide Labels.Parse, TransformRaw;
    TransformRawSpec(header, record, ts, labels, now, header[i], |header|);
  }

  /** `i` is the last column of its name and neither of the two indexed ones. */
  ghost predicate PlainColumn(header: seq<string>, ts: int, labels: int, i: nat) {
    i < |header| && i != ts && i != labels && LastColumn(header, header[i], |header|) == Some(i)
  }

  /** Exactly when both ways agree on the name of such a column, for every header.  A
      field that is not empty comes out the same unless the way through the map
      rewrites it, which takes an empty name.  An empty field agrees when it is not the
      timestamp column, which only the way through the map keeps, and no earlier column
      of that name shows through, which only the way by position allows. */
  ghost predicate WaysAgree(header: seq<string>, record: seq<string>, ts: int, labels: int, now': string, i: nat)
    requires i < |header|
  {
    var col, field := header[i], Field(record, i);
    if field == "" then col != "timestamp" && LastFilled(header, record, ts, col, |header|).None?
    else col != "" || (ts < 0 && labels < 0) || (ts >= 0 && field == now')
  }

  /** `now` and `now'` are the times the two ways read off the clock.  With ordinary
      names the ways differ on an empty timestamp column only; and neither way ever
      invents a column. */
  lemma {:induction false} TransformsAgree(header: seq<string>, record: seq<string>, ts: int, labels: int, now: string, now': string, i: nat)
    requires PlainColumn(header, ts, labels, i) && now != ""
    ensures var fast := TransformRaw(header, record, ts, labels, now, |header|);
            var slow := TransformRow(RowOf(header, record, |header|), ts, labels, now');
            && (Lookup(fast, header[i]) == Lookup(slow, header[i]) <==> WaysAgree(header, record, ts, labels, now', i))
            && (Ordinary(header) ==>
                  (WaysAgree(header, record, ts, labels, now', i) <==> !(header[i] == "timestamp" && Field(record, i) == "")))
            && (forall k :: k in fast || k in slow ==> k in header)
  {
    hide Labels.Parse, TransformRaw, TransformRow, RowOf;
    var fast := TransformRaw(header, record, ts, labels, now, |header|);
    var slow := TransformRow(RowOf(header, record, |header|), ts, labels, now');
    assert Lookup(slow, header[i]) == Transformed(header, record, ts, labels, now', header[i]);
    TransformRawSpec(header, record, ts, labels, now, header[i], |header|);
    TransformRowDrops(header, record, ts, labels, now', header[i]);
    if Kept(header[i], Field(record, i)) {
      TransformedKept(header, record, ts, labels, now', i);
    }
    forall k | k in fast || k in slow ensures k in header {
      TransformRawSpec(header, record, ts, labels, now, k, |header|);
      assert Lookup(slow, k) == Transformed(header, record, ts, labels, now', k);
      TransformRowDrops(header, record, ts, labels, now', k);
    }
  }
}
