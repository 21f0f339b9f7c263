/** The pagination contract: clamped requests, a saturating 32-bit offset, and pages that partition the
    ordered result of a list query. */
module Pagination {
  import opened Options

  const MAX_INT32 := 0x7FFF_FFFF

  newtype int32 = x: int | -0x8000_0000 <= x <= MAX_INT32
  newtype int64 = x: int | -0x8000_0000_0000_0000 <= x <= 0x7FFF_FFFF_FFFF_FFFF

  const MAX_PAGE_SIZE: int64 := 100

  datatype Params = Params(page: int64, pageSize: int64)

  datatype Meta = Meta(actualPage: int64, totalPages: int64, actualCount: int, totalCount: int64,
                       hasNext: bool, hasPrevious: bool)

  /** What ParseParams guarantees and the rest relies on. */
  predicate Clamped(p: Params) {
    p.page >= 1 && 1 <= p.pageSize <= MAX_PAGE_SIZE
  }

  /** The query values as strconv.Atoi reads them; None for a missing or malformed one. */
  method ParseParams(pageRaw: Option<int64>, pageSizeRaw: Option<int64>) returns (p: Params)
    ensures Clamped(p)
    ensures pageRaw.Some? && pageRaw.value >= 1 ==> p.page == pageRaw.value
    ensures pageRaw.None? || pageRaw.value < 1 ==> p.page == 1
    ensures pageSizeRaw.Some? ==>
      p.pageSize == if pageSizeRaw.value < 1 then 1 else if pageSizeRaw.value > 100 then 100 else pageSizeRaw.value
    ensures pageSizeRaw.None? ==> p.pageSize == 20
  {
    var page := 1;
    if pageRaw.Some? { page := pageRaw.value; }
    if page < 1 { page := 1; }
    var pageSize := 20;
    if pageSizeRaw.Some? { pageSize := pageSizeRaw.value; }
    if pageSize < 1 { pageSize := 1; }
    if pageSize > MAX_PAGE_SIZE { pageSize := MAX_PAGE_SIZE; }
    p := Params(page, pageSize);
  }

  function Limit(p: Params): int32
    requires Clamped(p)
  {
    p.pageSize as int32
  }

  lemma MulMono(a: int, b: int, size: int)
    requires a <= b && size >= 0
    ensures a * size <= b * size
  {
    assert (b - a) * size >= 0;
  }

  lemma DivisionGuards(max: int, skip: int, size: int)
    requires size >= 1
    ensures skip <= max / size <==> skip * size <= max
  {
    var q := max / size;
    assert (q + 1) * size == q * size + size;
    assert q * size <= max < q * size + size;
    if skip <= q {
      MulMono(skip, q, size);
    } else {
      MulMono(q + 1, skip, size);
    }
  }

  /** No step of it overflows; a page far past the data saturates. */
  function Offset(p: Params): (r: int32)
    requires Clamped(p)
    ensures r as int == if (p.page as int - 1) * p.pageSize as int <= MAX_INT32
      then (p.page as int - 1) * p.pageSize as int else MAX_INT32
  {
    DivisionGuards(MAX_INT32, p.page as int - 1, p.pageSize as int);
    var pagesToSkip := p.page - 1;
    if pagesToSkip > MAX_INT32 as int64 / p.pageSize then MAX_INT32 as int32
    else (pagesToSkip * p.pageSize) as int32
  }

  function TotalPages(total: int, size: int): int
    requires size >= 1
  {
    if total > 0 then (total + size - 1) / size else 0
  }

  /** int64 arithmetic wraps around. */
  function Wrapped(x: int): int {
    (x + 0x8000_0000_0000_0000) % 0x1_0000_0000_0000_0000 - 0x8000_0000_0000_0000
  }

  /** Go's division: towards zero. */
  function Quotient(x: int, y: int): int
    requires y >= 1
  {
    if x >= 0 then x / y else -(-x / y)
  }

  /** BuildResponse, without the rows themselves. total_pages is right unless rounding up wraps around,
      for a count within a page of the largest int64; then it is not even positive. */
  method BuildResponse(docs: int, totalCount: int64, p: Params) returns (m: Meta)
    requires Clamped(p)
    ensures m.actualPage == p.page && m.actualCount == docs && m.totalCount == totalCount
    ensures totalCount as int <= 0x8000_0000_0000_0000 - p.pageSize as int ==>
      m.totalPages as int == TotalPages(totalCount as int, p.pageSize as int)
    ensures totalCount as int > 0x8000_0000_0000_0000 - p.pageSize as int ==>
      m.totalPages as int <= 0 < TotalPages(totalCount as int, p.pageSize as int)
    ensures m.hasNext <==> p.page < m.totalPages
    ensures m.hasPrevious <==> p.page > 1
  {
    var totalPages: int64 := 0;
    if totalCount > 0 {
      var rounded := Wrapped(totalCount as int + p.pageSize as int - 1);
      QuotientFits(totalCount as int, p.pageSize as int);
      totalPages := Quotient(rounded, p.pageSize as int) as int64;
    }
    m := Meta(p.page, totalPages, docs, totalCount, p.page < totalPages, p.page > 1);
  }

  lemma QuotientFits(total: int, size: int)
    requires 0 < total <= 0x7FFF_FFFF_FFFF_FFFF && 1 <= size <= MAX_PAGE_SIZE as int
    ensures -0x8000_0000_0000_0000 <= Quotient(Wrapped(total + size - 1), size) <= 0x7FFF_FFFF_FFFF_FFFF
    ensures total <= 0x8000_0000_0000_0000 - size ==>
      Quotient(Wrapped(total + size - 1), size) == TotalPages(total, size)
    ensures total > 0x8000_0000_0000_0000 - size ==>
      Quotient(Wrapped(total + size - 1), size) <= 0 < TotalPages(total, size)
  {
    var sum := total + size - 1;
    LastPageCovers(total, size);
    if total <= 0x8000_0000_0000_0000 - size {
      assert Wrapped(sum) == sum;
    } else {
      assert Wrapped(sum) == sum - 0x1_0000_0000_0000_0000;
      QuotientOfNegative(-Wrapped(sum), size);
    }
  }

  lemma QuotientOfNegative(x: int, size: int)
    requires 0 < x && size >= 1
    ensures 0 <= x / size <= x
  {
    var q := x / size;
    assert q * size <= x < q * size + size;
    if q > x {
      MulMono(x, q - 1, size);
      MulMono(1, size, x);
    }
    if q < 0 {
      MulMono(q, -1, size);
    }
  }

  // ---------------------------------------------------------------- pages of an ordered list

  function Min(a: int, b: int): int {
    if a <= b then a else b
  }

  /** LIMIT and OFFSET over the ordered rows. */
  function PageOf<T>(rows: seq<T>, p: Params): seq<T>
    requires Clamped(p)
  {
    rows[Min(Offset(p) as int, |rows|)..Min(Offset(p) as int + Limit(p) as int, |rows|)]
  }

  /** Pages 1 to k, one after another. */
  function FirstPages<T>(rows: seq<T>, size: int64, k: nat): seq<T>
    requires 1 <= size <= MAX_PAGE_SIZE && k <= 0x7FFF_FFFF_FFFF_FFFF
  {
    if k == 0 then [] else FirstPages(rows, size, k - 1) + PageOf(rows, Params(k as int64, size))
  }

  /** The k-th page starts where the k - 1 before it end. */
  lemma PageIsNext<T>(rows: seq<T>, size: int64, page: int64, done: int)
    requires 1 <= size <= MAX_PAGE_SIZE && page >= 1 && done == (page as int - 1) * size as int && |rows| <= MAX_INT32
    ensures PageOf(rows, Params(page, size)) == rows[Min(done, |rows|)..Min(done + size as int, |rows|)]
  {
    MulMono(0, page as int - 1, size as int);
    if done <= MAX_INT32 {
      assert Offset(Params(page, size)) as int == done;
    } else {
      assert Offset(Params(page, size)) as int == MAX_INT32;
    }
  }

  lemma NextMultiple(k: int, size: int)
    ensures k * size == (k - 1) * size + size
  {
  }

  lemma {:induction false} FirstPagesArePrefix<T>(rows: seq<T>, size: int64, k: nat)
    requires 1 <= size <= MAX_PAGE_SIZE && k <= 0x7FFF_FFFF_FFFF_FFFF && |rows| <= MAX_INT32
    ensures FirstPages(rows, size, k) == rows[..Min(k * size as int, |rows|)]
  {
    if k == 0 {
    } else {
      var done := (k - 1) * size as int;
      FirstPagesArePrefix(rows, size, k - 1);
      MulMono(0, k - 1, size as int);
      NextMultiple(k, size as int);
      PageIsNext(rows, size, k as int64, done);
      Joined(rows, done, size as int);
    }
  }

  lemma Joined<T>(rows: seq<T>, done: int, size: int)
    requires done >= 0 && size >= 0
    ensures rows[..Min(done, |rows|)] + rows[Min(done, |rows|)..Min(done + size, |rows|)]
      == rows[..Min(done + size, |rows|)]
  {
  }

  /** Rounding up: the last page starts before the end of the rows and the pages cover them all. */
  lemma LastPageCovers(n: int, size: int)
    requires n >= 1 && size >= 1
    ensures (TotalPages(n, size) - 1) * size < n <= TotalPages(n, size) * size
    ensures 1 <= TotalPages(n, size) <= n
  {
    var t := TotalPages(n, size);
    assert t * size <= n + size - 1 < t * size + size;
    assert (t - 1) * size == t * size - size;
    if t > n {
      MulMono(n, t - 1, size);
      MulMono(1, size, n);
    }
    if t < 1 {
      MulMono(t, 0, size);
    }
  }

  lemma PageStartsInside(n: int, size: int, page: int)
    requires n >= 0 && size >= 1 && page >= 1
    ensures page <= TotalPages(n, size) <==> (page - 1) * size < n
  {
    var t := TotalPages(n, size);
    if n > 0 {
      LastPageCovers(n, size);
    }
    if page <= t {
      MulMono(page - 1, t - 1, size);
    } else {
      MulMono(t, page - 1, size);
    }
  }

  lemma SliceHasRows<T>(rows: seq<T>, offset: int, limit: int)
    requires offset >= 0 && limit >= 1
    ensures rows[Min(offset, |rows|)..Min(offset + limit, |rows|)] != [] <==> offset < |rows|
  {
  }

  /** A page has rows exactly when its number is at most total_pages; so has_next_page tells whether
      the next page has any. */
  lemma PageHasRowsExactly<T>(rows: seq<T>, p: Params)
    requires Clamped(p) && |rows| <= MAX_INT32
    ensures PageOf(rows, p) != [] <==> p.page as int <= TotalPages(|rows|, p.pageSize as int)
  {
    var done := (p.page as int - 1) * p.pageSize as int;
    PageStartsInside(|rows|, p.pageSize as int, p.page as int);
    MulMono(0, p.page as int - 1, p.pageSize as int);
    PageIsNext(rows, p.pageSize, p.page, done);
    SliceHasRows(rows, done, p.pageSize as int);
  }

  /** Up to MaxInt32 rows, pages 1 to total_pages put together are the list. */
  lemma PagesPartition<T>(rows: seq<T>, size: int64)
    requires 1 <= size <= MAX_PAGE_SIZE && |rows| <= MAX_INT32
    ensures 0 <= TotalPages(|rows|, size as int) <= MAX_INT32
    ensures FirstPages(rows, size, TotalPages(|rows|, size as int)) == rows
  {
    if rows != [] {
      LastPageCovers(|rows|, size as int);
      FirstPagesArePrefix(rows, size, TotalPages(|rows|, size as int));
    }
  }

  lemma FarOffset(page: int64, size: int64)
    requires 1 <= size <= MAX_PAGE_SIZE && page as int > MAX_INT32 + 1
    ensures Offset(Params(page, size)) as int == MAX_INT32
  {
    MulMono(1, size as int, page as int - 1);
  }

  /** The bound is exact: beyond MaxInt32 rows the saturated offset serves a row on every far page. */
  lemma FarPagesEmptyExactly<T>(rows: seq<T>, size: int64)
    requires 1 <= size <= MAX_PAGE_SIZE
    ensures |rows| <= MAX_INT32
      <==> forall page: int64 :: page as int > MAX_INT32 + 1 ==> PageOf(rows, Params(page, size)) == []
  {
    forall page: int64 | page as int > MAX_INT32 + 1
      ensures PageOf(rows, Params(page, size)) != [] <==> MAX_INT32 < |rows| {
      FarOffset(page, size);
      SliceHasRows(rows, MAX_INT32, size as int);
    }
    var far := (MAX_INT32 + 2) as int64;
    assert PageOf(rows, Params(far, size)) != [] <==> MAX_INT32 < |rows|;
  }

  // ---------------------------------------------------------------- the order behind the pages

  datatype Row = Row(id: string, createdAt: int)

  predicate Less(a: string, b: string) {
    b != [] && (a == [] || a[0] < b[0] || (a[0] == b[0] && Less(a[1..], b[1..])))
  }

  /** ORDER BY created_at DESC, id DESC. */
  predicate Before(a: Row, b: Row) {
    a.createdAt > b.createdAt || (a.createdAt == b.createdAt && Less(b.id, a.id))
  }

  predicate Ordered(rows: seq<Row>) {
    forall i, j :: 0 <= i < j < |rows| ==> Before(rows[i], rows[j])
  }

  /** rows is an answer of the list query: the rows its filters keep, in its order. */
  ghost predicate Answers(rows: seq<Row>, table: set<Row>, keep: Row -> bool) {
    Ordered(rows) && (forall r :: r in rows <==> r in table && keep(r))
  }

  /** Where the strings part, the smaller character comes first; a proper prefix comes before the longer. */
  lemma {:induction false} LessMeans(a: string, b: string)
    ensures Less(a, b) <==> exists n :: PartAt(a, b, n)
  {
    if b == [] {
    } else if a == [] || a[0] != b[0] {
      assert Less(a, b) ==> PartAt(a, b, 0);
      forall n | PartAt(a, b, n) ensures n == 0 {
        if n > 0 {
          PartLater(a, b, n);
        }
      }
    } else {
      LessMeans(a[1..], b[1..]);
      forall n | n > 0 ensures PartAt(a, b, n) <==> PartAt(a[1..], b[1..], n - 1) {
        PartLater(a, b, n);
      }
      if n :| PartAt(a[1..], b[1..], n) {
        assert PartAt(a, b, n + 1);
      }
    }
  }

  /** The strings agree up to n, where a ends or has the smaller character. */
  predicate PartAt(a: string, b: string, n: int) {
    0 <= n <= |a| && n < |b| && a[..n] == b[..n] && (n == |a| || a[n] < b[n])
  }

  lemma PartLater(a: string, b: string, n: int)
    requires n > 0
    ensures PartAt(a, b, n) <==> a != [] && b != [] && a[0] == b[0] && PartAt(a[1..], b[1..], n - 1)
  {
    if n <= |a| && n < |b| {
      assert a[..n] == [a[0]] + a[1..][..n - 1] && b[..n] == [b[0]] + b[1..][..n - 1];
      assert a[1..][..n - 1] == a[..n][1..] && b[1..][..n - 1] == b[..n][1..];
    }
  }

  /** An answer shows the kept rows, newer ones first, and of one moment the greater id first. */
  lemma AnswerMeans(rows: seq<Row>, table: set<Row>, keep: Row -> bool)
    requires Answers(rows, table, keep)
    ensures forall r :: r in rows <==> r in table && keep(r)
    ensures forall i, j :: 0 <= i < j < |rows| ==> rows[i].createdAt >= rows[j].createdAt
    ensures forall i, j :: 0 <= i < j < |rows| && rows[i].createdAt == rows[j].createdAt ==>
      Less(rows[j].id, rows[i].id)
  {
  }

  ghost function Kept(table: set<Row>, keep: Row -> bool): set<Row> {
    set r | r in table && keep(r)
  }

  lemma {:induction false} LessIsStrict(a: string, b: string)
    ensures !(Less(a, b) && Less(b, a))
  {
    if a == [] || b == [] {
    } else {
      LessIsStrict(a[1..], b[1..]);
    }
  }

  lemma {:induction false} SameRowsSameOrder(a: seq<Row>, b: seq<Row>)
    requires Ordered(a) && Ordered(b) && (forall r :: r in a <==> r in b)
    ensures a == b
  {
    assert a != [] ==> a[0] in b;
    assert b != [] ==> b[0] in a;
    if a == [] || b == [] {
      return;
    }
    if a[0] != b[0] {
      assert a[0] in b && b[0] in a;
      LessIsStrict(a[0].id, b[0].id);
      assert false;
    }
    HeadIsApart(a);
    HeadIsApart(b);
    forall r ensures r in a[1..] <==> r in b[1..] {
      assert a == [a[0]] + a[1..] && b == [b[0]] + b[1..];
      assert r in a <==> r in b;
    }
    SameRowsSameOrder(a[1..], b[1..]);
  }

  lemma HeadIsApart(a: seq<Row>)
    requires Ordered(a) && a != []
    ensures a[0] !in a[1..] && Ordered(a[1..])
  {
    LessIsStrict(a[0].id, a[0].id);
  }

  lemma {:induction false} OrderedCount(a: seq<Row>)
    requires Ordered(a)
    ensures |set r | r in a| == |a|
  {
    if a == [] {
    } else {
      HeadIsApart(a);
      OrderedCount(a[1..]);
      assert a == [a[0]] + a[1..];
      assert (set r | r in a) == {a[0]} + (set r | r in a[1..]);
    }
  }

  lemma {:induction false} LessIsTotal(a: string, b: string)
    requires a != b
    ensures Less(a, b) || Less(b, a)
  {
    if a == [] || b == [] {
    } else if a[0] == b[0] {
      assert a == [a[0]] + a[1..] && b == [b[0]] + b[1..];
      LessIsTotal(a[1..], b[1..]);
    }
  }

  lemma {:induction false} LessIsTransitive(a: string, b: string, c: string)
    requires Less(a, b) && Less(b, c)
    ensures Less(a, c)
  {
    if a == [] {
    } else if a[0] == b[0] && b[0] == c[0] {
      LessIsTransitive(a[1..], b[1..], c[1..]);
    }
  }

  /** No two rows of a table tie. */
  lemma BeforeIsTotal(a: Row, b: Row)
    requires a != b
    ensures Before(a, b) || Before(b, a)
  {
    if a.createdAt == b.createdAt {
      LessIsTotal(a.id, b.id);
    }
  }

  lemma BeforeIsTransitive(a: Row, b: Row, c: Row)
    requires Before(a, b) && Before(b, c)
    ensures Before(a, c)
  {
    if a.createdAt == b.createdAt == c.createdAt {
      LessIsTransitive(c.id, b.id, a.id);
    }
  }

  /** A row put in its place. */
  lemma {:induction false} Placed(rows: seq<Row>, r: Row) returns (out: seq<Row>)
    requires Ordered(rows) && r !in rows
    ensures Ordered(out) && (forall x :: x in out <==> x in rows || x == r)
  {
    if rows == [] {
      out := [r];
    } else if Before(r, rows[0]) {
      out := [r] + rows;
      forall i | 0 <= i < |rows| ensures Before(r, rows[i]) {
        if i > 0 { BeforeIsTransitive(r, rows[0], rows[i]); }
      }
    } else {
      BeforeIsTotal(r, rows[0]);
      HeadIsApart(rows);
      var rest := Placed(rows[1..], r);
      out := [rows[0]] + rest;
      assert rows == [rows[0]] + rows[1..];
      forall i | 0 <= i < |rest| ensures Before(rows[0], rest[i]) {
        assert rest[i] in rest;
        if rest[i] != r {
          var k :| 0 <= k < |rows[1..]| && rows[1..][k] == rest[i];
        }
      }
    }
  }

  lemma {:induction false} Arranged(kept: set<Row>) returns (rows: seq<Row>)
    ensures Ordered(rows) && (forall r :: r in rows <==> r in kept)
    decreases kept
  {
    if kept == {} {
      rows := [];
    } else {
      var r :| r in kept;
      var rest := Arranged(kept - {r});
      rows := Placed(rest, r);
    }
  }

  /** The query always has an answer. */
  lemma SomeAnswer(table: set<Row>, keep: Row -> bool) returns (rows: seq<Row>)
    ensures Answers(rows, table, keep)
  {
    rows := Arranged(Kept(table, keep));
  }

  /** It has one only, and the sibling COUNT query reports its length. */
  lemma OneAnswer(a: seq<Row>, b: seq<Row>, table: set<Row>, keep: Row -> bool)
    requires Answers(a, table, keep) && Answers(b, table, keep)
    ensures a == b && |a| == |Kept(table, keep)|
  {
    forall r ensures r in a <==> r in b {
      assert r in a <==> r in table && keep(r);
    }
    SameRowsSameOrder(a, b);
    OrderedCount(a);
    assert (set r | r in a) == Kept(table, keep);
  }

  /** Page k taken from the k-th run of the query, all pages one after another. */
  function Gathered(runs: seq<seq<Row>>, size: int64): seq<Row>
    requires 1 <= size <= MAX_PAGE_SIZE && |runs| <= MAX_INT32
  {
    if runs == [] then []
    else Gathered(runs[..|runs| - 1], size) + PageOf(runs[|runs| - 1], Params(|runs| as int64, size))
  }

  lemma {:induction false} GatheredFromOne(runs: seq<seq<Row>>, rows: seq<Row>, size: int64)
    requires 1 <= size <= MAX_PAGE_SIZE && |runs| <= MAX_INT32
    requires forall i :: 0 <= i < |runs| ==> runs[i] == rows
    ensures Gathered(runs, size) == FirstPages(rows, size, |runs|)
  {
    if runs == [] {
    } else {
      GatheredFromOne(runs[..|runs| - 1], rows, size);
    }
  }

  /** Each page is fetched by its own request. While the table does not change, fetching as many
      pages as the count announces gives every matching row once, in order. */
  lemma SeparateRequestsPartition(runs: seq<seq<Row>>, table: set<Row>, keep: Row -> bool, size: int64)
    requires 1 <= size <= MAX_PAGE_SIZE && |Kept(table, keep)| <= MAX_INT32
    requires forall i :: 0 <= i < |runs| ==> Answers(runs[i], table, keep)
    requires |runs| == TotalPages(|Kept(table, keep)|, size as int)
    ensures |runs| <= MAX_INT32
    ensures Answers(Gathered(runs, size), table, keep)
  {
    var n := |Kept(table, keep)|;
    if n == 0 {
      forall r ensures !(r in table && keep(r)) {
        assert r !in Kept(table, keep);
      }
      return;
    }
    LastPageCovers(n, size as int);
    forall i | 0 <= i < |runs| ensures runs[i] == runs[0] && |runs[i]| == n {
      OneAnswer(runs[i], runs[0], table, keep);
    }
    GatheredFromOne(runs, runs[0], size);
    PagesPartition(runs[0], size);
  }

  predicate OrderedByDate(rows: seq<Row>) {
    forall i, j :: 0 <= i < j < |rows| ==> rows[i].createdAt >= rows[j].createdAt
  }

  /** Without the id as a tie-break two runs may disagree, and pages repeat one row and skip another. */
  lemma DateAloneRepeatsARow() returns (a: seq<Row>, b: seq<Row>)
    ensures |a| == 2 && OrderedByDate(a) && OrderedByDate(b) && multiset(a) == multiset(b)
    ensures PageOf(a, Params(1, 1)) == PageOf(b, Params(2, 1)) == [a[0]]
    ensures a[1] !in PageOf(a, Params(1, 1)) + PageOf(b, Params(2, 1))
  {
    a := [Row("a", 0), Row("b", 0)];
    b := [Row("b", 0), Row("a", 0)];
    assert Offset(Params(1, 1)) == 0 && Offset(Params(2, 1)) == 1;
  }
}
