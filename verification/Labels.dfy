/** ParseLabels (internal/producer/transformers.go): a scanner that splits at the
    commas outside quotes, and an extractor that reads key="value" from each part.
    The text is a sequence of characters. */
module Labels {
  import opened Sequences

  type Map = map<string, string>

  // ----------------------------------------------------------------- scanner

  /** The scanner's variables: finished parts, the part being built, two flags. */
  datatype Scan = Scan(parts: seq<string>, current: string, inQuotes: bool, escaped: bool)

  const Start: Scan := Scan([], [], false, false)

  function ScanChar(s: Scan, ch: char): Scan {
    if s.escaped then s.(current := s.current + [ch], escaped := false)
    else if ch == '\\' then s.(current := s.current + [ch], escaped := true)
    else if ch == '"' then s.(current := s.current + [ch], inQuotes := !s.inQuotes)
    else if ch == ',' && !s.inQuotes then s.(parts := s.parts + [s.current], current := [])
    else s.(current := s.current + [ch])
  }

  function ScanFrom(s: Scan, raw: string): Scan {
    if raw == [] then s else ScanChar(ScanFrom(s, raw[..|raw| - 1]), raw[|raw| - 1])
  }

  /** After the loop a part that is not empty is flushed. */
  function Flush(s: Scan): seq<string> {
    if s.current != [] then s.parts + [s.current] else s.parts
  }

  function Split(raw: string): seq<string> { Flush(ScanFrom(Start, raw)) }

  lemma {:induction false} ScanAppend(s: Scan, a: string, b: string)
    ensures ScanFrom(s, a + b) == ScanFrom(ScanFrom(s, a), b)
  {
    if b == [] {
      assert a + b == a;
    } else {
      var n := |b| - 1;
      assert (a + b)[..|a| + n] == a + b[..n];
      ScanAppend(s, a, b[..n]);
    }
  }

  // -------------------------------------------------- declarative specification

  /** Length of the run of backslashes that ends just before position `i`. */
  function Backslashes(raw: string, i: nat): nat
    requires i <= |raw|
  {
    if i == 0 || raw[i - 1] != '\\' then 0 else 1 + Backslashes(raw, i - 1)
  }

  /** A character is escaped when an odd number of backslashes precedes it. */
  predicate Escaped(raw: string, i: nat)
    requires i <= |raw|
  {
    Backslashes(raw, i) % 2 == 1
  }

  /** Number of unescaped quotes before position `i`. */
  function Quotes(raw: string, i: nat): nat
    requires i <= |raw|
  {
    if i == 0 then 0
    else Quotes(raw, i - 1) + if raw[i - 1] == '"' && !Escaped(raw, i - 1) then 1 else 0
  }

  /** A comma separates exactly when it is unescaped and an even number of
      unescaped quotes precedes it. */
  predicate Separates(raw: string, i: nat)
    requires i < |raw|
  {
    raw[i] == ',' && !Escaped(raw, i) && Quotes(raw, i) % 2 == 0
  }

  /** Where the part that contains position `n` begins: just after the last
      separator before `n`. */
  function PartStart(raw: string, n: nat): (b: nat)
    requires n <= |raw|
    ensures b <= n
    ensures b > 0 ==> Separates(raw, b - 1)
    ensures forall i :: b <= i < n ==> !Separates(raw, i)
  {
    if n == 0 then 0 else if Separates(raw, n - 1) then n else PartStart(raw, n - 1)
  }

  /** For each separator before `n`, in order, the text since the one before it. */
  function PartsBefore(raw: string, n: nat): seq<string>
    requires n <= |raw|
  {
    if n == 0 then []
    else PartsBefore(raw, n - 1) + if Separates(raw, n - 1) then [raw[PartStart(raw, n - 1)..n - 1]] else []
  }

  lemma EscapedNext(raw: string, i: nat)
    requires i < |raw|
    ensures Escaped(raw, i + 1) <==> raw[i] == '\\' && !Escaped(raw, i)
  {}

  lemma QuotesNext(raw: string, i: nat)
    requires i < |raw|
    ensures Quotes(raw, i + 1) % 2 == 1 <==> ((raw[i] == '"' && !Escaped(raw, i)) <==> Quotes(raw, i) % 2 == 0)
  {}

  /** The scanner's variables at every position, without the scanner. */
  function ScanAt(raw: string, n: nat): Scan
    requires n <= |raw|
  {
    Scan(PartsBefore(raw, n), raw[PartStart(raw, n)..n], Quotes(raw, n) % 2 == 1, Escaped(raw, n))
  }

  lemma ScanAtStep(raw: string, m: nat)
    requires m < |raw|
    ensures ScanAt(raw, m + 1) == ScanChar(ScanAt(raw, m), raw[m])
  {
    EscapedNext(raw, m);
    QuotesNext(raw, m);
    var b := PartStart(raw, m);
    if Separates(raw, m) {
      assert raw[m + 1..m + 1] == [];
      assert PartsBefore(raw, m + 1) == PartsBefore(raw, m) + [raw[b..m]];
    } else {
      assert raw[b..m] + [raw[m]] == raw[b..m + 1];
      assert PartsBefore(raw, m + 1) == PartsBefore(raw, m);
    }
  }

  lemma ScanAtZero(raw: string)
    ensures ScanFrom(Start, raw[..0]) == ScanAt(raw, 0)
  {
    assert raw[..0] == [] && raw[0..0] == [];
  }

  lemma ScanFromStep(raw: string, m: nat)
    requires m < |raw|
    ensures ScanFrom(Start, raw[..m + 1]) == ScanChar(ScanFrom(Start, raw[..m]), raw[m])
  {
    assert raw[..m + 1][..m] == raw[..m];
  }

  lemma {:induction false} ScanState(raw: string, n: nat)
    requires n <= |raw|
    ensures ScanFrom(Start, raw[..n]) == ScanAt(raw, n)
  {
    hide ScanAt, ScanChar, ScanFrom;
    if n == 0 {
      ScanAtZero(raw);
    } else {
      ScanState(raw, n - 1);
      ScanFromStep(raw, n - 1);
      ScanAtStep(raw, n - 1);
    }
  }

  /** The splitter meets its declarative specification on every text: the parts are
      the texts between separators, plus the tail after the last separator unless
      that tail is empty. */
  lemma {:induction false} SplitSpec(raw: string)
    ensures var b := PartStart(raw, |raw|);
            Split(raw) == PartsBefore(raw, |raw|) + if b < |raw| then [raw[b..]] else []
  {
    ScanState(raw, |raw|);
    assert raw[..|raw|] == raw;
    var b := PartStart(raw, |raw|);
    assert raw[b..|raw|] == raw[b..];
  }

  /** Each part followed by a comma. */
  function Terminated(parts: seq<string>): string {
    if parts == [] then [] else Terminated(parts[..|parts| - 1]) + parts[|parts| - 1] + ","
  }

  lemma TerminatedSnoc(parts: seq<string>, part: string)
    ensures Terminated(parts + [part]) == Terminated(parts) + part + ","
  {
    assert (parts + [part])[..|parts|] == parts;
  }

  lemma Tile(raw: string, b: nat, n: nat)
    requires b <= n < |raw| && raw[n] == ','
    ensures raw[..b] + raw[b..n] + "," == raw[..n + 1]
  {
    assert raw[..b] + raw[b..n] == raw[..n];
    assert raw[..n] + [raw[n]] == raw[..n + 1];
  }

  lemma {:induction false} PartsTile(raw: string, n: nat)
    requires n <= |raw|
    ensures Terminated(PartsBefore(raw, n)) == raw[..PartStart(raw, n)]
  {
    if n == 0 {
      assert raw[..0] == [];
    } else {
      PartsTile(raw, n - 1);
      if Separates(raw, n - 1) {
        var b := PartStart(raw, n - 1);
        TerminatedSnoc(PartsBefore(raw, n - 1), raw[b..n - 1]);
        Tile(raw, b, n - 1);
      } else {
        assert PartsBefore(raw, n) == PartsBefore(raw, n - 1);
      }
    }
  }

  /** Rejoining the parts with commas restores the text, up to the one empty final
      part that is dropped: terminating each part by a comma gives the text itself
      when it ends in a separator (or is empty), and the text and a comma otherwise. */
  lemma RejoinRestores(raw: string)
    ensures Terminated(Split(raw)) ==
            if raw == [] || Separates(raw, |raw| - 1) then raw else raw + ","
  {
    SplitSpec(raw);
    PartsTile(raw, |raw|);
    var b := PartStart(raw, |raw|);
    assert raw == raw[..b] + raw[b..];
    if b < |raw| {
      TerminatedSnoc(PartsBefore(raw, |raw|), raw[b..]);
      assert !Separates(raw, |raw| - 1);
    } else {
      assert raw[..b] == raw;
      assert Split(raw) == PartsBefore(raw, |raw|);
    }
  }

  // --------------------------------------------------------------- extraction

  /** unicode.IsSpace */
  predicate IsSpace(ch: char) {
    || ch == ' ' || '\t' <= ch <= '\r' || ch == '\U{85}' || ch == '\U{A0}' || ch == '\U{1680}'
    || ch == '\U{2028}' || ch == '\U{2029}' || ch == '\U{202F}' || ch == '\U{205F}' || ch == '\U{3000}'
    || '\U{2000}' <= ch <= '\U{200A}'
  }

  function TrimLeft(s: string): string {
    if s != [] && IsSpace(s[0]) then TrimLeft(s[1..]) else s
  }

  function TrimRight(s: string): string {
    if s != [] && IsSpace(s[|s| - 1]) then TrimRight(s[..|s| - 1]) else s
  }

  /** strings.TrimSpace */
  function TrimSpace(s: string): string { TrimRight(TrimLeft(s)) }

  predicate Trimmed(s: string) {
    s == [] || (!IsSpace(s[0]) && !IsSpace(s[|s| - 1]))
  }

  lemma {:induction false} TrimSpaceSpec(s: string)
    ensures Trimmed(TrimSpace(s))
    ensures Trimmed(s) ==> TrimSpace(s) == s
  {
    TrimLeftSpec(s);
    TrimRightSpec(TrimLeft(s));
  }

  lemma {:induction false} TrimLeftSpec(s: string)
    ensures TrimLeft(s) != [] ==> !IsSpace(TrimLeft(s)[0])
  {
    if s != [] && IsSpace(s[0]) {
      TrimLeftSpec(s[1..]);
    }
  }

  lemma {:induction false} TrimRightSpec(s: string)
    ensures TrimRight(s) <= s
    ensures TrimRight(s) != [] ==> !IsSpace(TrimRight(s)[|TrimRight(s)| - 1])
  {
    if s != [] && IsSpace(s[|s| - 1]) {
      TrimRightSpec(s[..|s| - 1]);
    }
  }

  /** strings.Index(s, "="), with the length standing for "none". */
  function IndexOfEquals(s: string): (i: nat)
    ensures i <= |s|
    ensures i < |s| ==> s[i] == '='
    ensures forall j :: 0 <= j < i ==> s[j] != '='
  {
    if s == [] || s[0] == '=' then 0 else 1 + IndexOfEquals(s[1..])
  }

  function Unquote(v: string): string {
    if |v| >= 2 && v[0] == '"' && v[|v| - 1] == '"' then v[1..|v| - 1] else v
  }

  /** What one part contributes: a key and value, or nothing. */
  function Extract(part: string): Option<(string, string)> {
    var p := TrimSpace(part);
    var eq := IndexOfEquals(p);
    if eq == |p| then None
    else Some((TrimSpace(p[..eq]), Unquote(TrimSpace(p[eq + 1..]))))
  }

  function AddPart(m: Map, part: string): Map {
    match Extract(part) case None => m case Some((k, v)) => m[k := v]
  }

  /** Parts are read in order; a later part overrides an earlier one. */
  function AddParts(m: Map, parts: seq<string>): Map {
    if parts == [] then m else AddPart(AddParts(m, parts[..|parts| - 1]), parts[|parts| - 1])
  }

  function Parse(raw: string): Map { AddParts(map[], Split(raw)) }

  /** The first loop of ParseLabels, over the characters. */
  method SplitLoop(raw: string) returns (parts: seq<string>)
    ensures parts == Split(raw)
  {
    var current: string, inQuotes, escaped := [], false, false;
    parts := [];
    for i := 0 to |raw|
      invariant Scan(parts, current, inQuotes, escaped) == ScanFrom(Start, raw[..i])
    {
      var ch := raw[i];
      assert raw[..i + 1][..i] == raw[..i];
      if escaped {
        current, escaped := current + [ch], false;
      } else if ch == '\\' {
        current, escaped := current + [ch], true;
      } else if ch == '"' {
        inQuotes, current := !inQuotes, current + [ch];
      } else if ch == ',' && !inQuotes {
        parts, current := parts + [current], [];
      } else {
        current := current + [ch];
      }
    }
    assert raw[..|raw|] == raw;
    if |current| > 0 {
      parts := parts + [current];
    }
  }

  /** ParseLabels: split, then read each part, later parts overriding earlier ones. */
  method ParseLabels(raw: string) returns (labels: Map)
    ensures labels == Parse(raw)
  {
    labels := map[];
    if raw == "" {
      return;
    }
    var parts := SplitLoop(raw);
    for i := 0 to |parts|
      invariant labels == AddParts(map[], parts[..i])
    {
      assert parts[..i + 1][..i] == parts[..i];
      match Extract(parts[i]) {
        case None =>
        case Some((key, val)) => labels := labels[key := val];
      }
    }
    assert parts[..|parts|] == parts;
  }

  // ------------------------------------------------------------ compositional

  /** Scanning `a` ends outside quotes and not after a backslash. */
  predicate Balanced(a: string) {
    var s := ScanFrom(Start, a);
    !s.inQuotes && !s.escaped
  }

  lemma {:induction false} ScanShift(p: seq<string>, s: Scan, b: string)
    ensures ScanFrom(s.(parts := p + s.parts), b) ==
            var t := ScanFrom(s, b); t.(parts := p + t.parts)
  {
    if b != [] {
      ScanShift(p, s, b[..|b| - 1]);
      var t := ScanFrom(s, b[..|b| - 1]);
      assert (p + t.parts) + [t.current] == p + (t.parts + [t.current]);
    }
  }

  lemma ScanOne(s: Scan, ch: char)
    ensures ScanFrom(s, [ch]) == ScanChar(s, ch)
  {
    assert [ch][..0] == [];
  }

  /** A comma after balanced text starts afresh. */
  lemma ScanComma(a: string, b: string)
    requires Balanced(a)
    ensures var s, t := ScanFrom(Start, a), ScanFrom(Start, b);
            ScanFrom(Start, a + "," + b) == t.(parts := s.parts + [s.current] + t.parts)
  {
    var s := ScanFrom(Start, a);
    var p := s.parts + [s.current];
    ScanAppend(Start, a, ",");
    ScanOne(s, ',');
    assert p + [] == p;
    assert ScanFrom(Start, a + ",") == Start.(parts := p + Start.parts);
    ScanAppend(Start, a + ",", b);
    ScanShift(p, Start, b);
  }

  lemma SplitAppend(a: string, b: string)
    requires Balanced(a)
    ensures var s := ScanFrom(Start, a); Split(a + "," + b) == s.parts + [s.current] + Split(b)
  {
    ScanComma(a, b);
    var s, t := ScanFrom(Start, a), ScanFrom(Start, b);
    var p := s.parts + [s.current];
    assert (p + t.parts) + [t.current] == p + (t.parts + [t.current]);
  }

  lemma {:induction false} AddPartsOver(m: Map, parts: seq<string>)
    ensures AddParts(m, parts) == m + AddParts(map[], parts)
  {
    if parts != [] {
      AddPartsOver(m, parts[..|parts| - 1]);
    }
  }

  lemma {:induction false} AddPartsAppend(m: Map, a: seq<string>, b: seq<string>)
    ensures AddParts(m, a + b) == AddParts(AddParts(m, a), b)
  {
    if b == [] {
      assert a + b == a;
    } else {
      assert (a + b)[..|a + b| - 1] == a + b[..|b| - 1];
      AddPartsAppend(m, a, b[..|b| - 1]);
    }
  }

  lemma EmptyPartAddsNothing(m: Map)
    ensures AddPart(m, []) == m
  {}

  /** ParseLabels is compositional: after balanced text, parsing more text
      overrides what was parsed before - for empty texts and trailing commas too. */
  lemma ParseAppend(a: string, b: string)
    requires Balanced(a)
    ensures Parse(a + "," + b) == Parse(a) + Parse(b)
  {
    var s := ScanFrom(Start, a);
    SplitAppend(a, b);
    AddPartsAppend(map[], s.parts + [s.current], Split(b));
    AddPartsOver(AddParts(map[], s.parts + [s.current]), Split(b));
    assert (s.parts + [s.current])[..|s.parts|] == s.parts;
    EmptyPartAddsNothing(AddParts(map[], s.parts));
  }

  lemma AddPartsOne(part: string)
    ensures AddParts(map[], [part]) == AddPart(map[], part)
  {
    assert [part][..0] == [];
  }

  // ------------------------------------- and only after balanced text

  /** A key longer than anything in a text of length `n`. */
  function LongKey(n: nat): (k: string)
    ensures |k| == n + 1 && Trimmed(k) && forall i :: 0 <= i < |k| ==> k[i] == 'x'
  {
    seq(n + 1, i => 'x')
  }

  /** Text without special characters goes to the current part. */
  lemma {:induction false} ScanOrdinary(s: Scan, t: string)
    requires !s.escaped && forall i :: 0 <= i < |t| ==> t[i] != '\\' && t[i] != '"' && t[i] != ','
    ensures ScanFrom(s, t) == s.(current := s.current + t)
  {
    if t == [] {
      assert s.current + t == s.current;
    } else {
      var n := |t| - 1;
      ScanOrdinary(s, t[..n]);
      assert s.current + t[..n] + [t[n]] == s.current + t;
    }
  }

  /** A comma inside quotes or after a backslash does not separate, so what follows
      it is swallowed by the part before it. */
  lemma SplitSwallows(a: string, b: string)
    requires !Balanced(a) && b != [] && forall i :: 0 <= i < |b| ==> b[i] != '\\' && b[i] != '"' && b[i] != ','
    ensures var s := ScanFrom(Start, a); Split(a + "," + b) == s.parts + [s.current + "," + b]
  {
    var s := ScanFrom(Start, a);
    ScanAppend(Start, a, ",");
    ScanOne(s, ',');
    ScanAppend(Start, a + ",", b);
    ScanOrdinary(ScanChar(s, ','), b);
  }

  lemma {:induction false} ScanSizes(a: string)
    ensures var s := ScanFrom(Start, a);
            |s.current| <= |a| && forall i :: 0 <= i < |s.parts| ==> |s.parts[i]| <= |a|
  {
    if a != [] {
      ScanSizes(a[..|a| - 1]);
    }
  }

  /** Trimming on the left drops spaces only. */
  lemma {:induction false} TrimLeftDrops(s: string)
    ensures |TrimLeft(s)| <= |s| && TrimLeft(s) == s[|s| - |TrimLeft(s)|..]
    ensures forall i :: 0 <= i < |s| - |TrimLeft(s)| ==> IsSpace(s[i])
  {
    if s != [] && IsSpace(s[0]) {
      TrimLeftDrops(s[1..]);
    }
  }

  lemma TrimShortens(s: string)
    ensures |TrimSpace(s)| <= |s|
  {
    TrimLeftDrops(s);
    TrimRightSpec(TrimLeft(s));
  }

  lemma KeyIsShort(part: string)
    ensures Extract(part).Some? ==> |Extract(part).value.0| <= |part|
  {
    var p := TrimSpace(part);
    TrimShortens(part);
    TrimShortens(p[..IndexOfEquals(p)]);
  }

  lemma {:induction false} KeysAreShort(parts: seq<string>, n: nat)
    requires forall i :: 0 <= i < |parts| ==> |parts[i]| <= n
    ensures forall k :: k in AddParts(map[], parts) ==> |k| <= n
  {
    if parts != [] {
      KeysAreShort(parts[..|parts| - 1], n);
      KeyIsShort(parts[|parts| - 1]);
    }
  }

  /** A part in which a comma precedes the long key does not have that key. */
  lemma SwallowedKey(cur: string, n: nat)
    requires |cur| <= n
    ensures var e := Extract(cur + "," + LongKey(n) + "="); e.Some? ==> e.value.0 != LongKey(n)
  {
    var k := LongKey(n);
    var part := cur + "," + k + "=";
    var p := TrimLeft(part);
    TrimLeftDrops(part);
    var j := |part| - |p|;
    assert j <= |cur| by { assert part[|cur|] == ','; }
    assert part[|part| - 1] == '=' && p[|p| - 1] == '=';
    assert TrimSpace(part) == p;
    var eq := IndexOfEquals(p);
    TrimShortens(p[..eq]);
    if eq < |p| - 1 {
      assert part[j + eq] == '=';
    } else {
      TrimLeftSpec(part);
      assert p[eq - 1] == part[|part| - 2] == 'x';
      TrimSpaceSpec(p[..eq]);
    }
  }

  lemma LongKeyExtracts(n: nat)
    ensures var e := Extract(LongKey(n) + "="); e.Some? && e.value.0 == LongKey(n)
  {
    var k := LongKey(n);
    var part := k + "=";
    TrimSpaceSpec(part);
    assert part[|k|] == '=' && part[..|k|] == k;
    assert IndexOfEquals(part) == |k|;
    TrimSpaceSpec(k);
  }

  lemma LongKeyParses(n: nat)
    ensures LongKey(n) in Parse(LongKey(n) + "=")
  {
    hide Extract;
    var part := LongKey(n) + "=";
    ScanOrdinary(Start, part);
    assert [] + part == part;
    assert Split(part) == [part];
    AddPartsOne(part);
    LongKeyExtracts(n);
  }

  /** After text that is not balanced, some continuation breaks the equation. */
  lemma ParseAppendFails(a: string)
    requires !Balanced(a)
    ensures var b := LongKey(|a|) + "="; Parse(a + "," + b) != Parse(a) + Parse(b)
  {
    var k := LongKey(|a|);
    var b := k + "=";
    var s := ScanFrom(Start, a);
    SplitSwallows(a, b);
    var last := s.current + "," + b;
    assert last == s.current + "," + k + "=";
    ScanSizes(a);
    KeysAreShort(s.parts, |a|);
    SwallowedKey(s.current, |a|);
    assert (s.parts + [last])[..|s.parts|] == s.parts;
    assert k !in Parse(a + "," + b);
    LongKeyParses(|a|);
  }

  /** Exactly when ParseLabels is compositional: parsing `a`, a comma and any further
      text overrides what parsing `a` gives, for all further texts, exactly when
      scanning `a` ends outside quotes and not after a backslash. */
  lemma {:induction false} ParseAppendIff(a: string)
    ensures (forall b :: Parse(a + "," + b) == Parse(a) + Parse(b)) <==> Balanced(a)
  {
    if Balanced(a) {
      forall b ensures Parse(a + "," + b) == Parse(a) + Parse(b) {
        ParseAppend(a, b);
      }
    } else {
      ParseAppendFails(a);
    }
  }

  // ------------------------------------------------------------------ printer

  function Quoted(v: string): string { ['"'] + v + ['"'] }

  /** Blanks: spaces, tabs and line ends. */
  predicate Blank(w: string) {
    forall i :: 0 <= i < |w| ==> w[i] == ' ' || w[i] == '\t' || w[i] == '\n' || w[i] == '\r'
  }

  /** The two sides of an equals sign, with something before and after. */
  function Joined(w: string, left: string, right: string, w': string): string {
    w + (left + "=" + right) + w'
  }

  /** A key and a value, with the blanks printed around them. */
  datatype Item = Item(w1: string, key: string, w2: string, w3: string, value: string, w4: string) {
    function Text(): string { Joined(w1, key + w2, w3 + Quoted(value), w4) }

    predicate Ok() {
      Blank(w1) && Blank(w2) && Blank(w3) && Blank(w4) && KeyOk(key) && ValueOk(value)
    }
  }

  /** The format ParseLabels documents: key="value" items joined by commas. */
  function Print(ps: seq<Item>): string {
    if ps == [] then []
    else if |ps| == 1 then ps[0].Text()
    else Print(ps[..|ps| - 1]) + "," + ps[|ps| - 1].Text()
  }

  predicate Plain(ch: char) { ch != '=' && ch != ',' && ch != '"' && ch != '\\' }

  /** A key without outer spaces and without characters of the syntax. */
  predicate KeyOk(k: string) {
    Trimmed(k) && forall i :: 0 <= i < |k| ==> Plain(k[i])
  }

  /** A value with no unescaped quote and no dangling backslash. */
  predicate ValueOk(v: string) {
    && (forall i :: 0 <= i < |v| && v[i] == '"' ==> Escaped(v, i))
    && !Escaped(v, |v|)
  }

  /** Later items override earlier ones. */
  function LastWins(ps: seq<Item>): Map {
    if ps == [] then map[] else LastWins(ps[..|ps| - 1])[ps[|ps| - 1].key := ps[|ps| - 1].value]
  }

  lemma {:induction false} ScanQuotedText(s: Scan, v: string, n: nat)
    requires s.inQuotes && !s.escaped && n <= |v| && ValueOk(v)
    ensures ScanFrom(s, v[..n]) == s.(current := s.current + v[..n], escaped := Escaped(v, n))
  {
    if n == 0 {
      assert s.current + v[..0] == s.current;
    } else {
      var m := n - 1;
      ScanQuotedText(s, v, m);
      assert v[..n][..m] == v[..m];
      EscapedNext(v, m);
      assert (s.current + v[..m]) + [v[m]] == s.current + v[..n];
    }
  }

  lemma ScanQuoted(s: Scan, v: string)
    requires !s.inQuotes && !s.escaped && ValueOk(v)
    ensures ScanFrom(s, Quoted(v)) == s.(current := s.current + Quoted(v))
  {
    var q := ScanChar(s, '"');
    ScanOne(s, '"');
    ScanAppend(s, ['"'], v);
    assert v[..|v|] == v;
    ScanQuotedText(q, v, |v|);
    ScanAppend(s, ['"'] + v, ['"']);
    ScanOne(ScanFrom(q, v), '"');
    assert s.current + ['"'] + v + ['"'] == s.current + Quoted(v);
  }

  /** A printed item is scanned as one part, and leaves the scanner balanced. */
  lemma ScanItem(p: Item)
    requires p.Ok()
    ensures ScanFrom(Start, p.Text()) == Start.(current := p.Text())
  {
    hide ScanChar, ScanFrom, Quoted;
    var front := p.w1 + (p.key + p.w2) + "=" + p.w3;
    assert p.Text() == front + Quoted(p.value) + p.w4;
    ScanOrdinary(Start, front);
    assert [] + front == front;
    ScanAppend(Start, front, Quoted(p.value));
    ScanQuoted(ScanFrom(Start, front), p.value);
    ScanAppend(Start, front + Quoted(p.value), p.w4);
    ScanOrdinary(ScanFrom(Start, front + Quoted(p.value)), p.w4);
  }

  // Trimming, extraction: what one part means, blank by blank.

  lemma {:induction false} TrimLeftBlank(w: string, t: string)
    requires Blank(w)
    ensures TrimLeft(w + t) == TrimLeft(t)
  {
    if w == [] {
      assert w + t == t;
    } else {
      assert (w + t)[1..] == w[1..] + t;
      TrimLeftBlank(w[1..], t);
    }
  }

  lemma {:induction false} TrimRightBlank(t: string, w: string)
    requires Blank(w)
    ensures TrimRight(t + w) == TrimRight(t)
  {
    if w == [] {
      assert t + w == t;
    } else {
      assert (t + w)[..|t + w| - 1] == t + w[..|w| - 1];
      TrimRightBlank(t, w[..|w| - 1]);
    }
  }

  /** TrimSpace takes away the blanks around a text and no more. */
  lemma TrimPadded(w: string, t: string, w': string)
    requires Blank(w) && Blank(w') && Trimmed(t)
    ensures TrimSpace(w + t + w') == t
  {
    assert w + t + w' == w + (t + w');
    TrimLeftBlank(w, t + w');
    if t == [] {
      assert t + w' == w' + [];
      TrimLeftBlank(w', []);
    } else {
      assert (t + w')[0] == t[0];
      TrimRightBlank(t, w');
    }
  }

  lemma FirstEquals(front: string, back: string)
    requires forall i :: 0 <= i < |front| ==> front[i] != '='
    ensures IndexOfEquals(front + "=" + back) == |front|
  {
    var t := front + "=" + back;
    assert t[|front|] == '=' && forall i :: 0 <= i < |front| ==> t[i] == front[i];
  }

  /** What a part means, blanks aside: the trimmed text up to the first equals sign is
      the key, the trimmed text after it the value. */
  lemma ExtractPadded(w1: string, k: string, w2: string, w3: string, u: string, w4: string)
    requires Blank(w1) && Blank(w2) && Blank(w3) && Blank(w4) && KeyOk(k) && Trimmed(u)
    ensures Extract(Joined(w1, k + w2, w3 + u, w4)) == Some((k, Unquote(u)))
  {
    hide Extract, KeyOk, Trimmed, Unquote;
    var o1, m2 := if k == [] then w1 + w2 else w1, if k == [] then [] else w2;
    var m3, o4 := if u == [] then [] else w3, if u == [] then w3 + w4 else w4;
    if k == [] {
      assert k + w2 == w2 && k + m2 == [];
      BlanksLeft(w1, w2, w3 + u, w4);
    }
    if u == [] {
      assert w3 + u == w3 && m3 + u == [];
      BlanksRight(o1, k + m2, w3, w4);
    }
    assert Joined(w1, k + w2, w3 + u, w4) == Joined(o1, k + m2, m3 + u, o4);
    ExtractCore(o1, k, m2, m3, u, o4);
  }

  lemma BlanksLeft(w1: string, w2: string, right: string, w4: string)
    ensures Joined(w1, w2, right, w4) == Joined(w1 + w2, [], right, w4)
  {
    assert w1 + (w2 + "=" + right) == w1 + w2 + ([] + "=" + right);
  }

  lemma BlanksRight(w1: string, left: string, w3: string, w4: string)
    ensures Joined(w1, left, w3, w4) == Joined(w1, left, [], w3 + w4)
  {
    assert left + "=" + w3 == (left + "=" + []) + w3;
    assert w1 + ((left + "=" + []) + w3) + w4 == w1 + (left + "=" + []) + (w3 + w4);
  }

  /** The same where the part, trimmed, begins with the key or the equals sign and ends
      with the value or the equals sign. */
  lemma ExtractCore(w1: string, k: string, w2: string, w3: string, u: string, w4: string)
    requires Blank(w1) && Blank(w2) && Blank(w3) && Blank(w4) && KeyOk(k) && Trimmed(u)
    requires (k == [] ==> w2 == []) && (u == [] ==> w3 == [])
    ensures Extract(Joined(w1, k + w2, w3 + u, w4)) == Some((k, Unquote(u)))
  {
    hide Unquote, TrimSpace;
    var front, back := k + w2, w3 + u;
    var p := front + "=" + back;
    CoreTrimmed(k, w2, w3, u);
    TrimPadded(w1, p, w4);
    FirstEquals(front, back);
    assert p[..|front|] == front && p[|front| + 1..] == back;
    TrimPadded([], k, w2);
    assert [] + k + w2 == front;
    TrimPadded(w3, u, []);
    assert w3 + u + [] == back;
  }

  lemma CoreTrimmed(k: string, w2: string, w3: string, u: string)
    requires Trimmed(k) && Trimmed(u) && (k == [] ==> w2 == []) && (u == [] ==> w3 == [])
    ensures Trimmed(k + w2 + "=" + (w3 + u))
  {
    var p := k + w2 + "=" + (w3 + u);
    assert p[0] == if k == [] then '=' else k[0];
    assert p[|p| - 1] == if u == [] then '=' else u[|u| - 1];
  }

  /** A quoted value loses its quotes and keeps everything between them. */
  lemma {:induction false} ExtractQuoted(p: Item)
    requires p.Ok()
    ensures Extract(p.Text()) == Some((p.key, p.value))
  {
    var q := Quoted(p.value);
    ExtractPadded(p.w1, p.key, p.w2, p.w3, q, p.w4);
    assert q[1..|q| - 1] == p.value;
  }

  /** Any other value is kept as it is, a lone or unmatched quote included. */
  lemma {:induction false} ExtractBare(w1: string, k: string, w2: string, w3: string, u: string, w4: string)
    requires Blank(w1) && Blank(w2) && Blank(w3) && Blank(w4) && KeyOk(k) && Trimmed(u)
    requires |u| < 2 || u[0] != '"' || u[|u| - 1] != '"'
    ensures Extract(Joined(w1, k + w2, w3 + u, w4)) == Some((k, u))
  {
    ExtractPadded(w1, k, w2, w3, u, w4);
  }

  lemma {:induction false} TrimRightDrops(s: string)
    ensures TrimRight(s) <= s
    ensures forall i :: |TrimRight(s)| <= i < |s| ==> IsSpace(s[i])
  {
    if s != [] && IsSpace(s[|s| - 1]) {
      TrimRightDrops(s[..|s| - 1]);
    }
  }

  /** Exactly the parts without an equals sign contribute nothing. */
  lemma {:induction false} ExtractNoneIff(part: string)
    ensures Extract(part).None? <==> '=' !in part
  {
    var t := TrimLeft(part);
    var p := TrimRight(t);
    TrimLeftDrops(part);
    TrimRightDrops(t);
    var j := |part| - |t|;
    assert forall i :: 0 <= i < |p| ==> p[i] == part[j + i];
    forall i | 0 <= i < |part| && part[i] == '=' ensures '=' in p {
      assert j <= i && t[i - j] == '=';
      assert p[i - j] == '=';
    }
    assert IndexOfEquals(p) < |p| ==> p[IndexOfEquals(p)] == '=';
  }

  /** The white space that is trimmed is Unicode's. */
  lemma SpacesAre(ch: char)
    ensures IsSpace(ch) <==>
              ch in [' ', '\t', '\n', '\U{0B}', '\U{0C}', '\r', '\U{85}', '\U{A0}', '\U{1680}', '\U{2000}',
                     '\U{2001}', '\U{2002}', '\U{2003}', '\U{2004}', '\U{2005}', '\U{2006}', '\U{2007}', '\U{2008}',
                     '\U{2009}', '\U{200A}', '\U{2028}', '\U{2029}', '\U{202F}', '\U{205F}', '\U{3000}']
  {}

  lemma ParseItem(p: Item)
    requires p.Ok()
    ensures Balanced(p.Text()) && Parse(p.Text()) == map[p.key := p.value]
  {
    ScanItem(p);
    ExtractQuoted(p);
    assert Split(p.Text()) == [p.Text()];
    AddPartsOne(p.Text());
  }

  lemma BalancedAppend(a: string, b: string)
    requires Balanced(a) && Balanced(b)
    ensures Balanced(a + "," + b)
  {
    ScanComma(a, b);
  }

  lemma ParseMore(text: string, p: Item)
    requires Balanced(text) && p.Ok()
    ensures Balanced(text + "," + p.Text()) && Parse(text + "," + p.Text()) == Parse(text)[p.key := p.value]
  {
    ParseItem(p);
    ParseAppend(text, p.Text());
    BalancedAppend(text, p.Text());
    assert Parse(text) + map[p.key := p.value] == Parse(text)[p.key := p.value];
  }

  lemma ParseEmpty()
    ensures Balanced([]) && Parse([]) == map[]
  {}

  /** ParseLabels undoes the printer: blanks around keys and values are dropped, commas,
      equals signs, spaces and escape sequences inside values are kept verbatim, and
      the last value of a key wins. */
  lemma {:induction false} ParsePrint(ps: seq<Item>)
    requires forall i :: 0 <= i < |ps| ==> ps[i].Ok()
    ensures Balanced(Print(ps)) && Parse(Print(ps)) == LastWins(ps)
  {
    hide Parse, Balanced, Item.Text, Item.Ok;
    if ps == [] {
      ParseEmpty();
    } else if |ps| == 1 {
      ParseItem(ps[0]);
      LastWinsOne(ps[0]);
      assert ps == [ps[0]];
    } else {
      var n := |ps| - 1;
      ParsePrint(ps[..n]);
      ParseMore(Print(ps[..n]), ps[n]);
    }
  }

  lemma LastWinsOne(p: Item)
    ensures LastWins([p]) == map[p.key := p.value]
  {
    assert [p][..0] == [];
  }

  /** The last item with a key gives its value, and there are no other keys. */
  lemma {:induction false} LastWinsSpec(ps: seq<Item>, i: nat)
    requires i < |ps| && forall j :: i < j < |ps| ==> ps[j].key != ps[i].key
    ensures ps[i].key in LastWins(ps) && LastWins(ps)[ps[i].key] == ps[i].value
    ensures forall k :: k in LastWins(ps) ==> exists j :: 0 <= j < |ps| && ps[j].key == k
  {
    var n := |ps| - 1;
    LastWinsKeys(ps);
    if i < n {
      LastWinsSpec(ps[..n], i);
    }
  }

  lemma {:induction false} LastWinsKeys(ps: seq<Item>)
    ensures forall k :: k in LastWins(ps) ==> exists j :: 0 <= j < |ps| && ps[j].key == k
  {
    if ps != [] {
      var n := |ps| - 1;
      LastWinsKeys(ps[..n]);
      forall k | k in LastWins(ps) ensures exists j :: 0 <= j < |ps| && ps[j].key == k {
        if k == ps[n].key {
          assert ps[n].key == k;
        } else {
          assert k in LastWins(ps[..n]);
          var j :| 0 <= j < |ps[..n]| && ps[..n][j].key == k;
          assert ps[j].key == k;
        }
      }
    }
  }

  /** A quote after a backslash does not end a value, and neither it nor a comma after
      it separates. */
  lemma {:induction false} EscapedQuote(key: string, a: string, b: string)
    requires KeyOk(key)
    requires forall i :: 0 <= i < |a| ==> a[i] != '\\' && a[i] != '"'
    requires forall i :: 0 <= i < |b| ==> b[i] != '\\' && b[i] != '"'
    ensures Parse(key + "=\"" + a + "\\\"" + b + "\"") == map[key := a + "\\\"" + b]
  {
    var v := a + "\\\"" + b;
    var n := |a|;
    assert v[n] == '\\' && v[n + 1] == '"' && forall i :: n + 2 <= i < |v| ==> v[i] == b[i - n - 2];
    NotEscaped(v, n);
    EscapedNext(v, n);
    assert Escaped(v, n + 1);
    assert !Escaped(v, |v|);
    var p := Item([], key, [], [], v, []);
    assert p.Text() == key + "=\"" + a + "\\\"" + b + "\"";
    ParseItem(p);
  }

  lemma NotEscaped(v: string, n: nat)
    requires n <= |v| && forall i :: 0 <= i < n ==> v[i] != '\\'
    ensures !Escaped(v, n)
  {}
}
