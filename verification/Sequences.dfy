/** Subsequences, by their embedding. */
module Sequences {

  datatype Option<+T> = None | Some(value: T) {
    function GetOr(default: T): T { if None? then default else value }
  }

  function Opt<T>(o: Option<T>): seq<T> {
    match o case None => [] case Some(x) => [x]
  }

  ghost predicate Increasing(idx: seq<nat>) {
    forall i, j :: 0 <= i < j < |idx| ==> idx[i] < idx[j]
  }

  /** `idx` says where each element of `a` sits in `b`, in order. */
  ghost predicate Embeds<T>(a: seq<T>, b: seq<T>, idx: seq<nat>) {
    && |idx| == |a|
    && Increasing(idx)
    && forall i :: 0 <= i < |a| ==> idx[i] < |b| && a[i] == b[idx[i]]
  }

  ghost predicate Subsequence<T>(a: seq<T>, b: seq<T>) {
    exists idx: seq<nat> :: Embeds(a, b, idx)
  }

  lemma EmbedsIntro<T>(a: seq<T>, b: seq<T>, idx: seq<nat>)
    requires Embeds(a, b, idx)
    ensures Subsequence(a, b)
  {}
}
