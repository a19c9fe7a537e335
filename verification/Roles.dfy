/** The role line that opens every connection (internal/broker/broker.go,
    HandleConn and trimLine). */
module Roles {
  import opened Framing

  const CR: Byte := 13
  const LF: Byte := 10
  const PRODUCER: Bytes := [80, 82, 79, 68, 85, 67, 69, 82]
  const CONSUMER: Bytes := [67, 79, 78, 83, 85, 77, 69, 82]

  predicate IsLineEnd(b: Byte) { b == CR || b == LF }

  function TrimLine(s: Bytes): Bytes {
    if |s| > 0 && IsLineEnd(s[|s| - 1]) then TrimLine(s[..|s| - 1]) else s
  }

  /** trimLine: the longest prefix that does not end in a line ending. */
  method TrimLineLoop(line: Bytes) returns (s: Bytes)
    ensures s == TrimLine(line)
    ensures s <= line
    ensures s != [] ==> !IsLineEnd(s[|s| - 1])
    ensures forall i :: |s| <= i < |line| ==> IsLineEnd(line[i])
  {
    s := line;
    while |s| > 0 && IsLineEnd(s[|s| - 1])
      invariant s <= line
      invariant TrimLine(s) == TrimLine(line)
      invariant forall i :: |s| <= i < |line| ==> IsLineEnd(line[i])
    {
      s := s[..|s| - 1];
    }
  }

  function FirstIndex(s: Bytes, b: Byte): (i: nat)
    ensures i <= |s|
    ensures i < |s| ==> s[i] == b
    ensures forall j :: 0 <= j < i ==> s[j] != b
  {
    if s == [] then 0 else if s[0] == b then 0 else 1 + FirstIndex(s[1..], b)
  }

  /** What HandleConn does with a connection whose peer sends `input`: serve it
      in a role, with the bytes after the line still unread, or drop it. */
  datatype Dispatch = AsProducer(rest: Bytes) | AsConsumer(rest: Bytes) | Dropped

  function Serve(input: Bytes): Dispatch {
    var i := FirstIndex(input, LF);
    if i == |input| then Dropped
    else
      var role := TrimLine(input[..i + 1]);
      if role == PRODUCER then AsProducer(input[i + 1..])
      else if role == CONSUMER then AsConsumer(input[i + 1..])
      else Dropped
  }

  function Repeat(b: Byte, k: nat): (s: Bytes)
    ensures |s| == k && forall i :: 0 <= i < k ==> s[i] == b
  {
    seq(k, i => b)
  }

  /** A role word, any number of carriage returns, a newline, and the rest. */
  function Opening(word: Bytes, crs: nat, rest: Bytes): Bytes {
    word + Repeat(CR, crs) + [LF] + rest
  }

  lemma {:induction false} TrimOfPadded(word: Bytes, pad: Bytes)
    requires word != [] && !IsLineEnd(word[|word| - 1])
    requires forall i :: 0 <= i < |pad| ==> IsLineEnd(pad[i])
    ensures TrimLine(word + pad) == word
    decreases |pad|
  {
    if pad == [] {
      assert word + pad == word;
    } else {
      var n := |pad| - 1;
      assert (word + pad)[..|word| + n] == word + pad[..n];
      TrimOfPadded(word, pad[..n]);
    }
  }

  lemma {:induction false} TrimSplits(s: Bytes)
    ensures TrimLine(s) <= s
    ensures forall i :: |TrimLine(s)| <= i < |s| ==> IsLineEnd(s[i])
  {
    if |s| > 0 && IsLineEnd(s[|s| - 1]) {
      TrimSplits(s[..|s| - 1]);
    }
  }

  /** A word that can be a role: not empty, and free of line endings. */
  ghost predicate IsWord(word: Bytes) {
    word != [] && forall i :: 0 <= i < |word| ==> !IsLineEnd(word[i])
  }

  lemma OpeningTrims(word: Bytes, crs: nat, rest: Bytes)
    requires IsWord(word)
    ensures var input := Opening(word, crs, rest);
            var i := FirstIndex(input, LF);
            i < |input| && TrimLine(input[..i + 1]) == word && input[i + 1..] == rest
  {
    var input := Opening(word, crs, rest);
    var i := |word| + crs;
    assert input[i] == LF;
    assert forall j :: 0 <= j < i ==> input[j] != LF;
    assert FirstIndex(input, LF) == i;
    var pad := Repeat(CR, crs) + [LF];
    assert input[..i + 1] == word + pad;
    TrimOfPadded(word, pad);
  }

  lemma TrimmedIsOpening(input: Bytes, word: Bytes) returns (crs: nat)
    requires IsWord(word)
    requires var i := FirstIndex(input, LF); i < |input| && TrimLine(input[..i + 1]) == word
    ensures input == Opening(word, crs, input[FirstIndex(input, LF) + 1..])
  {
    var i := FirstIndex(input, LF);
    var line := input[..i + 1];
    TrimSplits(line);
    assert word <= line && line[i] == LF;
    assert |word| <= i by { assert word[|word| - 1] == line[|word| - 1]; }
    crs := i - |word|;
    assert forall j :: |word| <= j < i ==> line[j] == CR;
    assert line == word + Repeat(CR, crs) + [LF];
    assert input == line + input[i + 1..];
  }

  /** The two role lines, in ASCII: PRODUCER and CONSUMER, carriage returns, a newline. */
  lemma {:induction false} RoleLines(crs: nat, rest: Bytes)
    ensures Serve([80, 82, 79, 68, 85, 67, 69, 82] + Repeat(13, crs) + [10] + rest) == AsProducer(rest)
    ensures Serve([67, 79, 78, 83, 85, 77, 69, 82] + Repeat(13, crs) + [10] + rest) == AsConsumer(rest)
  {
    OpeningTrims(PRODUCER, crs, rest);
    OpeningTrims(CONSUMER, crs, rest);
  }

  /** Exactly which byte sequences are served as a producer, and with which rest. */
  lemma ServedAsProducer(input: Bytes, rest: Bytes)
    ensures Serve(input) == AsProducer(rest) <==> exists crs: nat :: input == Opening(PRODUCER, crs, rest)
  {
    if Serve(input) == AsProducer(rest) {
      var crs := TrimmedIsOpening(input, PRODUCER);
    }
    if crs: nat :| input == Opening(PRODUCER, crs, rest) {
      OpeningTrims(PRODUCER, crs, rest);
    }
  }

  /** Exactly which byte sequences are served as a consumer. */
  lemma ServedAsConsumer(input: Bytes, rest: Bytes)
    ensures Serve(input) == AsConsumer(rest) <==> exists crs: nat :: input == Opening(CONSUMER, crs, rest)
  {
    if Serve(input) == AsConsumer(rest) {
      var crs := TrimmedIsOpening(input, CONSUMER);
    }
    if crs: nat :| input == Opening(CONSUMER, crs, rest) {
      OpeningTrims(CONSUMER, crs, rest);
    }
  }

  /** `input` opens with `word` as its role line. */
  ghost predicate OpensAs(input: Bytes, word: Bytes) {
    exists crs: nat, rest: Bytes :: input == Opening(word, crs, rest)
  }

  lemma {:induction false} RoleIff(input: Bytes)
    ensures Serve(input).AsProducer? <==> OpensAs(input, PRODUCER)
    ensures Serve(input).AsConsumer? <==> OpensAs(input, CONSUMER)
  {
    if Serve(input).AsProducer? {
      ServedAsProducer(input, Serve(input).rest);
    }
    if Serve(input).AsConsumer? {
      ServedAsConsumer(input, Serve(input).rest);
    }
    if OpensAs(input, PRODUCER) {
      var crs: nat, rest: Bytes :| input == Opening(PRODUCER, crs, rest);
      ServedAsProducer(input, rest);
    }
    if OpensAs(input, CONSUMER) {
      var crs: nat, rest: Bytes :| input == Opening(CONSUMER, crs, rest);
      ServedAsConsumer(input, rest);
    }
  }
}
