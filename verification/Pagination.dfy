/** Sorting and paginating the GPU list (internal/metrics/implementations.go and
    service.go), with Go's 64-bit integers written out. */
module Pagination {
  import opened Sequences

  // ------------------------------------------------------------------- order

  /** Go's string order; comparing UTF-8 bytes and comparing code points agree. */
  predicate Le(a: string, b: string) {
    if a == [] then true
    else if b == [] then false
    else if a[0] != b[0] then a[0] < b[0]
    else Le(a[1..], b[1..])
  }

  lemma {:induction false} LeTotal(a: string, b: string)
    ensures Le(a, b) || Le(b, a)
    ensures Le(a, b) && Le(b, a) ==> a == b
  {
    if a != [] && b != [] && a[0] == b[0] {
      LeTotal(a[1..], b[1..]);
      assert a == [a[0]] + a[1..] && b == [b[0]] + b[1..];
    }
  }

  lemma {:induction false} LeTransitive(a: string, b: string, c: string)
    requires Le(a, b) && Le(b, c)
    ensures Le(a, c)
  {
    if a != [] && b != [] && c != [] && a[0] == b[0] == c[0] {
      LeTransitive(a[1..], b[1..], c[1..]);
    }
  }

  /** The order is the lexicographic one: a prefix comes first, else the first
      character in which the strings differ decides. */
  lemma {:induction false} LeSpec(a: string, b: string)
    ensures Le(a, b) <==> a <= b || exists k: nat :: SmallerAt(a, b, k)
  {
    if a != [] && b != [] {
      if a[0] != b[0] {
        assert a[0] < b[0] ==> SmallerAt(a, b, 0);
        assert forall k: nat :: 0 < k && SmallerAt(a, b, k) ==> a[..k][0] == b[..k][0];
      } else {
        LeSpec(a[1..], b[1..]);
        assert a == [a[0]] + a[1..] && b == [b[0]] + b[1..];
        LeTail(a, b);
      }
    }
  }

  /** `a` and `b` differ first at `k`, where `a` has the smaller character. */
  ghost predicate SmallerAt(a: string, b: string, k: nat) {
    k < |a| && k < |b| && a[..k] == b[..k] && a[k] < b[k]
  }

  lemma LeTail(a: string, b: string)
    requires a != [] && b != [] && a[0] == b[0]
    ensures (exists k: nat :: SmallerAt(a, b, k)) <==> exists k: nat :: SmallerAt(a[1..], b[1..], k)
  {
    if k: nat :| SmallerAt(a, b, k) {
      assert k > 0 && a[1..][..k - 1] == a[..k][1..] && b[1..][..k - 1] == b[..k][1..];
      assert SmallerAt(a[1..], b[1..], k - 1);
    }
    if k: nat :| SmallerAt(a[1..], b[1..], k) {
      assert a[..k + 1] == [a[0]] + a[1..][..k] && b[..k + 1] == [b[0]] + b[1..][..k];
      assert SmallerAt(a, b, k + 1);
    }
  }

  datatype SortOrder = Ascending | Descending

  predicate Before(order: SortOrder, a: string, b: string) {
    if order.Ascending? then Le(a, b) else Le(b, a)
  }

  ghost predicate SortedBy(order: SortOrder, s: seq<string>) {
    forall i, j :: 0 <= i < j < |s| ==> Before(order, s[i], s[j])
  }

  function Insert(order: SortOrder, x: string, s: seq<string>): seq<string> {
    if s == [] || Before(order, x, s[0]) then [x] + s else [s[0]] + Insert(order, x, s[1..])
  }

  function Sort(order: SortOrder, s: seq<string>): seq<string> {
    if s == [] then [] else Insert(order, s[0], Sort(order, s[1..]))
  }

  lemma {:induction false} InsertPermutes(order: SortOrder, x: string, s: seq<string>)
    ensures multiset(Insert(order, x, s)) == multiset(s) + multiset{x}
  {
    if s != [] && !Before(order, x, s[0]) {
      InsertPermutes(order, x, s[1..]);
      assert s == [s[0]] + s[1..];
    }
  }

  /** `x` may stand before everything in `s`. */
  ghost predicate BeforeAll(order: SortOrder, x: string, s: seq<string>) {
    forall i :: 0 <= i < |s| ==> Before(order, x, s[i])
  }

  lemma ConsSorted(order: SortOrder, x: string, s: seq<string>)
    requires SortedBy(order, s) && BeforeAll(order, x, s)
    ensures SortedBy(order, [x] + s)
  {}

  lemma BeforeFirst(order: SortOrder, x: string, s: seq<string>)
    requires SortedBy(order, s) && s != [] && Before(order, x, s[0])
    ensures BeforeAll(order, x, s)
  {
    forall j | 0 < j < |s| ensures Before(order, x, s[j]) {
      BeforeTransitive(order, x, s[0], s[j]);
    }
  }

  lemma BeforeInserted(order: SortOrder, first: string, x: string, s: seq<string>)
    requires BeforeAll(order, first, s) && Before(order, first, x)
    ensures BeforeAll(order, first, Insert(order, x, s))
  {
    InsertPermutes(order, x, s);
    var t := Insert(order, x, s);
    forall j | 0 <= j < |t| ensures Before(order, first, t[j]) {
      assert t[j] in multiset(t);
      assert t[j] == x || t[j] in s;
    }
  }

  lemma {:induction false} InsertSorts(order: SortOrder, x: string, s: seq<string>)
    requires SortedBy(order, s)
    ensures SortedBy(order, Insert(order, x, s))
  {
    if s != [] {
      if Before(order, x, s[0]) {
        BeforeFirst(order, x, s);
        ConsSorted(order, x, s);
      } else {
        InsertSorts(order, x, s[1..]);
        LeTotal(x, s[0]);
        BeforeInserted(order, s[0], x, s[1..]);
        ConsSorted(order, s[0], Insert(order, x, s[1..]));
      }
    }
  }

  lemma BeforeTransitive(order: SortOrder, a: string, b: string, c: string)
    requires Before(order, a, b) && Before(order, b, c)
    ensures Before(order, a, c)
  {
    if order.Ascending? { LeTransitive(a, b, c); } else { LeTransitive(c, b, a); }
  }

  lemma {:induction false} SortFacts(order: SortOrder, s: seq<string>)
    ensures SortedBy(order, Sort(order, s))
    ensures multiset(Sort(order, s)) == multiset(s)
    ensures |Sort(order, s)| == |s|
  {
    if s != [] {
      SortFacts(order, s[1..]);
      InsertSorts(order, s[0], Sort(order, s[1..]));
      InsertPermutes(order, s[0], Sort(order, s[1..]));
      assert s == [s[0]] + s[1..];
    }
    assert |multiset(Sort(order, s))| == |multiset(s)|;
  }

  /** The order is total, so whatever the algorithm, the sorted slice is this one. */
  lemma {:induction false} SortIsDetermined(order: SortOrder, a: seq<string>, b: seq<string>)
    requires SortedBy(order, a) && SortedBy(order, b) && multiset(a) == multiset(b)
    ensures a == b
  {
    SameLength(a, b);
    if a != [] {
      SameFirst(order, a, b);
      WithoutFirst(a);
      WithoutFirst(b);
      SortIsDetermined(order, a[1..], b[1..]);
      assert a == [a[0]] + a[1..] && b == [b[0]] + b[1..];
    }
  }

  /** Sorting gives a permutation that climbs in ascending order and falls in
      descending order. */
  lemma {:induction false} SortSpec(order: SortOrder, s: seq<string>)
    ensures multiset(Sort(order, s)) == multiset(s) && |Sort(order, s)| == |s|
    ensures order == Ascending ==> forall i, j :: 0 <= i < j < |s| ==> Le(Sort(order, s)[i], Sort(order, s)[j])
    ensures order == Descending ==> forall i, j :: 0 <= i < j < |s| ==> Le(Sort(order, s)[j], Sort(order, s)[i])
  {
    SortFacts(order, s);
  }

  lemma SameLength(a: seq<string>, b: seq<string>)
    requires multiset(a) == multiset(b)
    ensures |a| == |b|
  {
    assert |a| == |multiset(a)|;
  }

  lemma WithoutFirst(s: seq<string>)
    requires s != []
    ensures multiset(s[1..]) == multiset(s) - multiset{s[0]}
  {
    assert s == [s[0]] + s[1..];
  }

  lemma SameFirst(order: SortOrder, a: seq<string>, b: seq<string>)
    requires SortedBy(order, a) && SortedBy(order, b) && multiset(a) == multiset(b)
    requires a != [] && b != []
    ensures a[0] == b[0]
  {
    assert a[0] in multiset(b) && b[0] in multiset(a);
    var i :| 0 <= i < |b| && b[i] == a[0];
    var j :| 0 <= j < |a| && a[j] == b[0];
    LeTotal(a[0], b[0]);
  }

  function Reverse(s: seq<string>): (r: seq<string>)
    ensures |r| == |s| && forall i :: 0 <= i < |s| ==> r[i] == s[|s| - 1 - i]
  {
    seq(|s|, i requires 0 <= i < |s| => s[|s| - 1 - i])
  }

  lemma {:induction false} ReverseMultiset(s: seq<string>)
    ensures multiset(Reverse(s)) == multiset(s)
  {
    if s != [] {
      ReverseMultiset(s[1..]);
      assert Reverse(s) == Reverse(s[1..]) + [s[0]];
      assert s == [s[0]] + s[1..];
    } else {
      assert Reverse(s) == s;
    }
  }

  /** Descending output is the reverse of ascending output. */
  lemma DescendingIsReverse(s: seq<string>)
    ensures Sort(Descending, s) == Reverse(Sort(Ascending, s))
  {
    SortFacts(Ascending, s);
    SortFacts(Descending, s);
    var up := Sort(Ascending, s);
    ReverseMultiset(up);
    SortIsDetermined(Descending, Sort(Descending, s), Reverse(up));
  }

  /** SortStrings reorders the slice in place. */
  method SortStrings(items: array<string>, order: SortOrder)
    modifies items
    ensures items[..] == Sort(order, old(items[..]))
    ensures forall i, j :: 0 <= i < j < items.Length ==>
              if order == Ascending then Le(items[i], items[j]) else Le(items[j], items[i])
  {
    var sorted := Sort(order, items[..]);
    SortSpec(order, items[..]);
    for i := 0 to items.Length
      invariant items[..i] == sorted[..i]
    {
      items[i] := sorted[i];
    }
  }

  // ------------------------------------------------------------- 64-bit pages

  const MAX_INT: int := 0x7FFF_FFFF_FFFF_FFFF
  const RANGE: int := 0x1_0000_0000_0000_0000

  /** Two's-complement wrap-around to 64 bits. */
  function Wrap(x: int): (w: int)
    ensures -MAX_INT - 1 <= w <= MAX_INT
    ensures -MAX_INT - 1 <= x <= MAX_INT ==> w == x
  {
    (x + MAX_INT + 1) % RANGE - MAX_INT - 1
  }

  function CalculateOffset(page: int, limit: int): int {
    Wrap(Wrap(page - 1) * limit)
  }

  /** The offset is the mathematical one modulo 2^64, within the 64-bit range. */
  lemma OffsetWraps(page: int, limit: int)
    requires 1 <= page <= MAX_INT
    ensures -0x8000_0000_0000_0000 <= CalculateOffset(page, limit) < 0x8000_0000_0000_0000
    ensures (CalculateOffset(page, limit) - (page - 1) * limit) % 0x1_0000_0000_0000_0000 == 0
  {
    var x := (page - 1) * limit;
    WrapSpec(x);
  }

  lemma WrapSpec(x: int)
    ensures (Wrap(x) - x) % RANGE == 0
  {
    var y := x + MAX_INT + 1;
    assert Wrap(x) - x == -(y / RANGE) * RANGE;
    MultipleOfRange(-(y / RANGE));
  }

  lemma MultipleOfRange(q: int)
    ensures (q * RANGE) % RANGE == 0
  {}

  /** A slice expression out of range panics. */
  datatype PageResult = Page(items: seq<string>) | Panic

  function PaginateSlice(items: seq<string>, offset: int, limit: int): PageResult {
    if offset >= |items| then Page([])
    else
      var sum := Wrap(offset + limit);
      var end := if sum > |items| then |items| else sum;
      if 0 <= offset <= end then Page(items[offset..end]) else Panic
  }

  /** Page `page` of the list in unbounded arithmetic. */
  function MathPage(items: seq<string>, page: int, limit: int): seq<string>
    requires page >= 1 && limit >= 1
  {
    var offset := (page - 1) * limit;
    if offset >= |items| then []
    else items[offset..if offset + limit > |items| then |items| else offset + limit]
  }

  lemma OffsetIsMultiple(page: int, limit: int)
    requires page >= 2 && limit >= 1
    ensures (page - 1) * limit >= limit
  {
    assert (page - 1) * limit == limit + (page - 2) * limit;
    assert (page - 2) * limit >= 0;
  }

  /** The 64-bit computation gives the mathematical page exactly when the offset
      does not overflow, or overflows to something past the end of the list. */
  lemma PageAgreement(items: seq<string>, page: int, limit: int)
    requires 1 <= page <= MAX_INT && 1 <= limit <= MAX_INT && |items| <= 0x4000_0000_0000_0000
    ensures PaginateSlice(items, CalculateOffset(page, limit), limit) == Page(MathPage(items, page, limit)) <==>
              (page - 1) * limit <= MAX_INT || CalculateOffset(page, limit) >= |items|
  {
    var offset := (page - 1) * limit;
    assert Wrap(page - 1) == page - 1;
    if page >= 2 {
      OffsetIsMultiple(page, limit);
    }
    if offset > MAX_INT {
      assert MathPage(items, page, limit) == [];
      OverflowedPage(items, CalculateOffset(page, limit), limit);
    } else {
      assert offset >= 0;
    }
  }

  /** From a wrong offset inside the list the code never returns an empty page. */
  lemma OverflowedPage(items: seq<string>, w: int, limit: int)
    requires 1 <= limit <= MAX_INT && |items| <= MAX_INT
    ensures PaginateSlice(items, w, limit) == Page([]) <==> w >= |items|
  {}

  /** A page far beyond the end whose offset wraps to zero: the first page again. */
  lemma OverflowReturnsFirstPage(items: seq<string>)
    requires 1 <= |items| <= 0x1_0000_0000
    ensures var page, limit := 0x1_0000_0001, 0x1_0000_0000;
            MathPage(items, page, limit) == [] &&
            PaginateSlice(items, CalculateOffset(page, limit), limit) == Page(items)
  {
    assert items[0..|items|] == items;
  }

  // --------------------------------------------------------------- partition

  /** Pages 1 to n, one after the other. */
  function PagesUpTo(items: seq<string>, limit: int, n: nat): seq<string>
    requires limit >= 1
  {
    if n == 0 then [] else PagesUpTo(items, limit, n - 1) + MathPage(items, n, limit)
  }

  function Min(a: int, b: int): int { if a <= b then a else b }

  lemma {:induction false} PagesAreAPrefix(items: seq<string>, limit: int, n: nat)
    requires limit >= 1
    ensures n * limit >= 0
    ensures PagesUpTo(items, limit, n) == items[..Min(n * limit, |items|)]
  {
    if n > 0 {
      PagesAreAPrefix(items, limit, n - 1);
      var offset := (n - 1) * limit;
      assert n * limit == offset + limit;
      if offset < |items| {
        var end := Min(offset + limit, |items|);
        assert items[..offset] + items[offset..end] == items[..end];
      }
    }
  }

  /** The number of pages: the length divided by the limit, rounded up. */
  function PageCount(len: nat, limit: int): nat
    requires limit >= 1
  {
    (len + limit - 1) / limit
  }

  lemma PageCountSpec(len: nat, limit: int)
    requires limit >= 1
    ensures PageCount(len, limit) * limit >= len
    ensures len > 0 ==> (PageCount(len, limit) - 1) * limit < len
  {
    var q := PageCount(len, limit);
    assert q * limit == len + limit - 1 - (len + limit - 1) % limit;
    assert (q - 1) * limit == q * limit - limit;
  }

  /** What ListGPUs returns for one page. */
  function GpuPage(ids: seq<string>, order: SortOrder, page: int, limit: int): PageResult {
    PaginateSlice(Sort(order, ids), CalculateOffset(page, limit), limit)
  }

  /** Pages partition the sorted list: pages 1 to PageCount put together are all of
      the sorted permutation. */
  lemma {:induction false} PagesPartition(ids: seq<string>, order: SortOrder, limit: int)
    requires limit >= 1
    ensures PagesUpTo(Sort(order, ids), limit, PageCount(|ids|, limit)) == Sort(order, ids)
  {
    var items, n := Sort(order, ids), PageCount(|ids|, limit);
    SortFacts(order, ids);
    PageCountSpec(|ids|, limit);
    PagesAreAPrefix(items, limit, n);
    assert items[..|items|] == items;
  }

  /** Each of these pages is what the 64-bit code returns. */
  lemma {:induction false} PagesAreComputed(ids: seq<string>, order: SortOrder, limit: int, page: int)
    requires 1 <= limit <= MAX_INT && |ids| <= 0x4000_0000_0000_0000
    requires 1 <= page <= PageCount(|ids|, limit)
    ensures GpuPage(ids, order, page, limit) == Page(MathPage(Sort(order, ids), page, limit))
  {
    var n := PageCount(|ids|, limit);
    SortFacts(order, ids);
    PageCountSpec(|ids|, limit);
    TimesMonotonic(page - 1, n - 1, limit);
    TimesAtLeast(page - 1, limit);
    PageAgreement(Sort(order, ids), page, limit);
  }

  /** Every later page is empty, exactly as long as its offset does not overflow or
      overflows to something past the end. */
  lemma {:induction false} LaterPagesAreEmpty(ids: seq<string>, order: SortOrder, limit: int, page: int)
    requires 1 <= limit <= MAX_INT && |ids| <= 0x4000_0000_0000_0000
    requires PageCount(|ids|, limit) < page <= MAX_INT
    ensures MathPage(Sort(order, ids), page, limit) == []
    ensures GpuPage(ids, order, page, limit) == Page([]) <==>
              (page - 1) * limit <= MAX_INT || CalculateOffset(page, limit) >= |ids|
  {
    SortFacts(order, ids);
    PageCountSpec(|ids|, limit);
    TimesMonotonic(PageCount(|ids|, limit), page - 1, limit);
    PageAgreement(Sort(order, ids), page, limit);
  }

  /** Exactly when ListGPUs crashes: the offset wraps below zero, or to a place in the
      list from which the end of the page wraps below zero in turn. */
  lemma CrashesIff(ids: seq<string>, order: SortOrder, limit: int, page: int)
    requires 1 <= limit <= MAX_INT && |ids| <= MAX_INT
    ensures var w := CalculateOffset(page, limit);
            GpuPage(ids, order, page, limit).Panic? <==> w < 0 || (w < |ids| && w + limit > MAX_INT)
  {
    hide Sort, PaginateSlice, Wrap;
    SortFacts(order, ids);
    SlicePanicsIff(Sort(order, ids), CalculateOffset(page, limit), limit);
  }

  lemma SlicePanicsIff(items: seq<string>, w: int, limit: int)
    requires 1 <= limit <= MAX_INT && |items| <= MAX_INT && -MAX_INT - 1 <= w <= MAX_INT
    ensures PaginateSlice(items, w, limit).Panic? <==> w < 0 || (w < |items| && w + limit > MAX_INT)
  {}

  /** A page whose offset is 2^63 and wraps below zero. */
  lemma OverflowCrashes(ids: seq<string>, order: SortOrder)
    requires |ids| <= MAX_INT
    ensures GpuPage(ids, order, 0x4000_0000_0000_0001, 2).Panic?
  {
    CrashesIff(ids, order, 2, 0x4000_0000_0000_0001);
  }

  lemma TimesAtLeast(a: nat, limit: int)
    requires limit >= 1
    ensures a * limit >= a
  {
    assert a * limit == a + a * (limit - 1);
    assert a * (limit - 1) >= 0;
  }

  lemma TimesMonotonic(a: int, b: int, limit: int)
    requires a <= b && limit >= 1
    ensures a * limit <= b * limit
  {
    assert (b - a) * limit >= 0;
    assert b * limit == a * limit + (b - a) * limit;
  }

  // ----------------------------------------------------------------- ListGPUs

  datatype ListError = InvalidLimit | InvalidPage | StoreFailed

  datatype ListResult = Response(total: nat, page: int, limit: int, items: seq<string>) | Failed(error: ListError) | Crashed

  /** ListGPUs: validate, fetch, sort the store's slice in place, paginate.  A store
      that fails is None. */
  method ListGPUs(store: Option<array<string>>, page: int, limit: int, order: SortOrder) returns (r: ListResult)
    requires -MAX_INT - 1 <= page <= MAX_INT && -MAX_INT - 1 <= limit <= MAX_INT
    modifies if store.Some? then {store.value} else {}
    ensures limit <= 0 ==> r == Failed(InvalidLimit)
    ensures limit > 0 && page <= 0 ==> r == Failed(InvalidPage)
    ensures limit > 0 && page > 0 && store.None? ==> r == Failed(StoreFailed)
    ensures r.Failed? && store.Some? ==> store.value[..] == old(store.value[..])
    ensures limit > 0 && page > 0 && store.Some? ==>
              var ids := old(store.value[..]);
              && store.value[..] == Sort(order, ids)
              && r == match GpuPage(ids, order, page, limit)
                      case Page(items) => Response(|ids|, page, limit, items)
                      case Panic => Crashed
  {
    if limit <= 0 {
      return Failed(InvalidLimit);
    }
    if page <= 0 {
      return Failed(InvalidPage);
    }
    if store.None? {
      return Failed(StoreFailed);
    }
    SortStrings(store.value, order);
    var offset := CalculateOffset(page, limit);
    match PaginateSlice(store.value[..], offset, limit) {
      case Page(items) => r := Response(store.value.Length, page, limit, items);
      case Panic => r := Crashed;
    }
  }
}
