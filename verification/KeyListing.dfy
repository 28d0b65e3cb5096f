/**
 The paged status listing of a multi-key channel: every key with its state, optionally filtered by
 status, cut into pages. Pages partition the filtered list whatever page size is asked for.
 */
module KeyListing {
  import opened MultiKey
  import U = Utf8Truncate

  const PREVIEW := 10
  const DEFAULT_PAGE_SIZE := 50

  datatype Line = Line(index: int, status: int, time: int, reason: string, preview: seq<U.Byte>)

  datatype Listing = Listing(lines: seq<Line>, total: int, page: int, pageSize: int, totalPages: int,
                             enabled: int, manual: int, auto: int)

  function LineOf(e: Entry, i: int): Line {
    Line(i, e.status,
         if e.status != ENABLED && e.time.Some? then e.time.value else 0,
         if e.status != ENABLED && e.reason.Some? then e.reason.value else "",
         Preview(U.Utf8(e.key)))
  }

  const DOTS: seq<U.Byte> := [46, 46, 46]

  /** The first ten bytes of a longer key. */
  function Preview(key: seq<U.Byte>): seq<U.Byte> {
    if |key| > PREVIEW then key[..PREVIEW] + DOTS else key
  }

  /** The preview is text exactly when the key is short or its tenth byte ends a character. */
  lemma PreviewIsTextIff(key: string)
    ensures var bytes := U.Utf8(key);
            U.Valid(Preview(bytes)) <==> |bytes| <= PREVIEW || U.RuneStart(bytes[PREVIEW])
  {
    var bytes := U.Utf8(key);
    U.Utf8IsValid(key);
    if |bytes| > PREVIEW {
      U.BoundaryIff(bytes, PREVIEW);
      U.DotsAreValid();
      var cut := bytes[..PREVIEW];
      if U.Valid(cut) { U.ValidConcat(cut, DOTS); }
      if U.Valid(cut + DOTS) {
        U.BoundaryIff(cut + DOTS, PREVIEW);
        assert (cut + DOTS)[..PREVIEW] == cut;
      }
    }
  }

  /** The lines of the first `n` entries that pass the status filter. */
  function Lines(es: seq<Entry>, wanted: Option<int>, n: nat): seq<Line>
    requires n <= |es|
  {
    if n == 0 then []
    else
      var rest := Lines(es, wanted, n - 1);
      if wanted.None? || es[n - 1].status == wanted.value then rest + [LineOf(es[n - 1], n - 1)] else rest
  }

  function Count(es: seq<Entry>, status: int, n: nat): nat
    requires n <= |es|
  {
    if n == 0 then 0 else Count(es, status, n - 1) + if es[n - 1].status == status then 1 else 0
  }

  /** What a line shows of its key: a disabled one with its time and reason, an enabled one without. */
  ghost predicate Shows(line: Line, e: Entry, i: int) {
    && line.index == i && line.status == e.status
    && line.time == (if e.status == ENABLED || e.time.None? then 0 else e.time.value)
    && line.reason == (if e.status == ENABLED || e.reason.None? then "" else e.reason.value)
    && var bytes := U.Utf8(e.key);
       line.preview == if |bytes| <= 10 then bytes else bytes[..10] + [46, 46, 46]
  }

  /** A line shows the state of its key, and the key itself cut after ten bytes. */
  lemma LineShows(e: Entry, i: int)
    ensures Shows(LineOf(e, i), e, i)
  {
  }

  predicate Passes(e: Entry, wanted: Option<int>) { wanted.None? || e.status == wanted.value }

  /** Every entry that passes the filter has its line, after those of the entries before it. */
  lemma {:induction false} EntryIsListed(es: seq<Entry>, wanted: Option<int>, n: nat, i: nat)
    requires i < n <= |es| && Passes(es[i], wanted)
    ensures var j := |Lines(es, wanted, i)|; j < |Lines(es, wanted, n)| && Lines(es, wanted, n)[j] == LineOf(es[i], i)
    decreases n
  {
    if i < n - 1 { EntryIsListed(es, wanted, n - 1, i); }
  }

  /** Every line is that of an entry that passes the filter, with as many lines before it as entries that do. */
  lemma {:induction false} LineComesFrom(es: seq<Entry>, wanted: Option<int>, n: nat, j: nat) returns (i: nat)
    requires n <= |es| && j < |Lines(es, wanted, n)|
    ensures i < n && Passes(es[i], wanted) && |Lines(es, wanted, i)| == j
    ensures Lines(es, wanted, n)[j] == LineOf(es[i], i)
    decreases n
  {
    if j < |Lines(es, wanted, n - 1)| {
      i := LineComesFrom(es, wanted, n - 1, j);
    } else {
      i := n - 1;
    }
  }

  function PageCount(total: nat, pageSize: int): int
    requires pageSize >= 1
  {
    if total == 0 then 1 else (total + pageSize - 1) / pageSize
  }

  /** Positions before page `n + 1`. */
  function Offset(n: nat, pageSize: int): nat
    requires pageSize >= 1
  {
    if n == 0 then 0 else Offset(n - 1, pageSize) + pageSize
  }

  lemma {:induction false} OffsetIsProduct(n: nat, pageSize: int)
    requires pageSize >= 1
    ensures Offset(n, pageSize) == n * pageSize
  {
    if n > 0 {
      OffsetIsProduct(n - 1, pageSize);
      assert n * pageSize == (n - 1) * pageSize + pageSize;
    }
  }

  function Cut<T>(s: seq<T>, page: int, pageSize: int): seq<T>
    requires pageSize >= 1 && page >= 1
  {
    var start := Offset(page - 1, pageSize);
    if start < |s| then s[start..if start + pageSize > |s| then |s| else start + pageSize] else []
  }

  /** The page count is the least number of pages that holds everything, and at least one. */
  lemma PageCountCovers(total: nat, pageSize: int)
    requires pageSize >= 1
    ensures var n := PageCount(total, pageSize);
            && n >= 1 && total <= Offset(n, pageSize)
            && (total > 0 ==> Offset(n - 1, pageSize) < total)
    ensures total == 0 ==> (total + pageSize - 1) / pageSize == 0 && PageCount(total, pageSize) == 1
  {
    if total > 0 {
      var x := total + pageSize - 1;
      var q := x / pageSize;
      assert x == q * pageSize + x % pageSize;
      assert q >= 1 by {
        assert x >= pageSize;
      }
      OffsetIsProduct(q, pageSize);
      OffsetIsProduct(q - 1, pageSize);
      assert (q - 1) * pageSize == q * pageSize - pageSize;
    }
  }

  /** One key counted under its status. */
  method Tally(es: seq<Entry>, i: nat, enabled: int, manual: int, auto: int) returns (e: int, m: int, a: int)
    requires i < |es|
    requires enabled == Count(es, ENABLED, i) && manual == Count(es, MANUAL, i) && auto == Count(es, AUTO, i)
    ensures e == Count(es, ENABLED, i + 1) && m == Count(es, MANUAL, i + 1) && a == Count(es, AUTO, i + 1)
  {
    e, m, a := enabled, manual, auto;
    if es[i].status == ENABLED { e := e + 1; }
    else if es[i].status == MANUAL { m := m + 1; }
    else if es[i].status == AUTO { a := a + 1; }
  }

  /** One pass over the keys: the filtered lines and the overall statistics. */
  method Gather(es: seq<Entry>, wanted: Option<int>) returns (all: seq<Line>, enabled: int, manual: int, auto: int)
    ensures all == Lines(es, wanted, |es|)
    ensures enabled == Count(es, ENABLED, |es|) && manual == Count(es, MANUAL, |es|) && auto == Count(es, AUTO, |es|)
  {
    enabled, manual, auto, all := 0, 0, 0, [];
    var i := 0;
    while i < |es|
      invariant 0 <= i <= |es|
      invariant all == Lines(es, wanted, i)
      invariant enabled == Count(es, ENABLED, i) && manual == Count(es, MANUAL, i) && auto == Count(es, AUTO, i)
    {
      enabled, manual, auto := Tally(es, i, enabled, manual, auto);
      if wanted.None? || es[i].status == wanted.value { all := all + [LineOf(es[i], i)]; }
      i := i + 1;
    }
  }

  /** The page arithmetic: defaults, clamping to the last page, and the cut. */
  method Paginate(all: seq<Line>, page: int, pageSize: int) returns (lines: seq<Line>, number: int, totalPages: int)
    requires pageSize >= 1
    ensures totalPages == PageCount(|all|, pageSize)
    ensures 1 <= number <= totalPages && (1 <= page <= totalPages ==> number == page)
    ensures (page < 1 ==> number == 1) && (page > totalPages ==> number == totalPages)
    ensures lines == Cut(all, number, pageSize)
  {
    number := if page <= 0 then 1 else page;
    totalPages := (|all| + pageSize - 1) / pageSize;
    PageCountCovers(|all|, pageSize);
    if totalPages == 0 { totalPages := 1; }
    if number > totalPages { number := totalPages; }
    var start := (number - 1) * pageSize;
    OffsetIsProduct(number - 1, pageSize);
    var end := start + pageSize;
    if end > |all| { end := |all|; }
    lines := if start < |all| then all[start..end] else [];
  }

  method ListKeys(es: seq<Entry>, page: int, pageSize: int, wanted: Option<int>) returns (r: Listing)
    ensures r.pageSize == if pageSize <= 0 then DEFAULT_PAGE_SIZE else pageSize
    ensures r.total == |Lines(es, wanted, |es|)| && r.totalPages == PageCount(r.total, r.pageSize)
    ensures 1 <= r.page <= r.totalPages
    ensures 1 <= page <= r.totalPages ==> r.page == page
    ensures (page < 1 ==> r.page == 1) && (page > r.totalPages ==> r.page == r.totalPages)
    ensures r.lines == Cut(Lines(es, wanted, |es|), r.page, r.pageSize)
    ensures r.enabled == Count(es, ENABLED, |es|) && r.manual == Count(es, MANUAL, |es|) && r.auto == Count(es, AUTO, |es|)
  {
    var size := if pageSize <= 0 then DEFAULT_PAGE_SIZE else pageSize;
    var all, enabled, manual, auto := Gather(es, wanted);
    var lines, number, totalPages := Paginate(all, page, size);
    r := Listing(lines, |all|, number, size, totalPages, enabled, manual, auto);
  }

  /** The first `n` pages, one after the other. */
  function Pages<T>(s: seq<T>, n: nat, pageSize: int): seq<T>
    requires pageSize >= 1
  {
    if n == 0 then [] else Pages(s, n - 1, pageSize) + Cut(s, n, pageSize)
  }

  lemma {:induction false} PagesArePrefix<T>(s: seq<T>, n: nat, pageSize: int)
    requires pageSize >= 1
    ensures Pages(s, n, pageSize) == if Offset(n, pageSize) >= |s| then s else s[..Offset(n, pageSize)]
  {
    if n > 0 { PagesArePrefix(s, n - 1, pageSize); }
  }

  /** Reading all pages in turn yields every listed key once, in order, for every page size; none is empty. */
  lemma PagesCover<T>(s: seq<T>, pageSize: int)
    requires pageSize >= 1
    ensures Pages(s, PageCount(|s|, pageSize), pageSize) == s
    ensures |s| > 0 ==> Cut(s, PageCount(|s|, pageSize), pageSize) != []
  {
    PageCountCovers(|s|, pageSize);
    PagesArePrefix(s, PageCount(|s|, pageSize), pageSize);
  }

  lemma {:induction false} SumOfCounts(es: seq<Entry>, n: nat)
    requires n <= |es| && forall i :: 0 <= i < |es| ==> es[i].status in {ENABLED, MANUAL, AUTO}
    ensures Count(es, ENABLED, n) + Count(es, MANUAL, n) + Count(es, AUTO, n) == n
  {
    if n > 0 { SumOfCounts(es, n - 1); }
  }

  lemma {:induction false} AllListed(es: seq<Entry>, n: nat)
    requires n <= |es|
    ensures |Lines(es, None, n)| == n
  {
    if n > 0 { AllListed(es, n - 1); }
  }

  lemma {:induction false} CountedListed(es: seq<Entry>, status: int, n: nat)
    requires n <= |es|
    ensures |Lines(es, Some(status), n)| == Count(es, status, n)
  {
    if n > 0 { CountedListed(es, status, n - 1); }
  }

  /** The three counters add up to the number of keys when every status is one of the three. */
  lemma CountsAddUp(es: seq<Entry>, n: nat)
    requires n <= |es| && forall i :: 0 <= i < |es| ==> es[i].status in {ENABLED, MANUAL, AUTO}
    ensures Count(es, ENABLED, n) + Count(es, MANUAL, n) + Count(es, AUTO, n) == n
    ensures |Lines(es, None, n)| == n
    ensures forall status :: |Lines(es, Some(status), n)| == Count(es, status, n)
  {
    SumOfCounts(es, n);
    AllListed(es, n);
    forall status ensures |Lines(es, Some(status), n)| == Count(es, status, n) { CountedListed(es, status, n); }
  }
}
