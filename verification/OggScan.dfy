/**
 The Opus duration scanner over an Ogg stream: page layout as in section 6 of RFC 3533, the 48 kHz
 granule clock of section 4 of RFC 7845.
 */
module OggScan {

  type Byte = x: int | 0 <= x < 256

  const HEADER := 27
  const TWO_63 := 0x8000_0000_0000_0000
  const TWO_64 := 0x1_0000_0000_0000_0000

  // ---------------------------------------------------------------- what the scanner visits

  datatype Visit = Visit(at: nat, granule: int)

  /** A whole header that begins with "OggS". */
  predicate Captures(data: seq<Byte>, pos: nat) {
    && pos + HEADER <= |data|
    && data[pos] == 79 && data[pos + 1] == 103 && data[pos + 2] == 103 && data[pos + 3] == 83
  }

  /** The bytes from `lo` to before `hi` as one number, least significant first. */
  function Unsigned(data: seq<Byte>, lo: nat, hi: nat): nat
    requires lo <= hi <= |data|
    decreases hi - lo
  {
    if lo == hi then 0 else data[lo] + 256 * Unsigned(data, lo + 1, hi)
  }

  /** Bytes 6 to 13 of the header as a 64-bit two's complement number. */
  function Granule(data: seq<Byte>, pos: nat): int
    requires pos + HEADER <= |data|
  {
    Signed(Unsigned(data, pos + 6, pos + 14))
  }

  function Signed(u: int): int { if u < TWO_63 then u else u - TWO_64 }

  function Sum(data: seq<Byte>, lo: nat, hi: nat): nat
    requires lo <= hi <= |data|
    decreases hi
  {
    if lo == hi then 0 else Sum(data, lo, hi - 1) + data[hi - 1]
  }

  /** Where the page at `pos` ends by its segment table; the end of the data when the table is cut off. */
  function After(data: seq<Byte>, pos: nat): (r: nat)
    requires pos + HEADER <= |data|
    ensures r > pos
  {
    var body := pos + HEADER + data[pos + 26];
    if body > |data| then |data| else body + Sum(data, pos + HEADER, body)
  }

  /** The pages taken from `pos` on: one byte forward without a capture pattern, a whole page with one. */
  function Scan(data: seq<Byte>, pos: nat): seq<Visit>
    decreases |data| - pos
  {
    if pos + HEADER > |data| then []
    else if !Captures(data, pos) then Scan(data, pos + 1)
    else [Visit(pos, Granule(data, pos))] + Scan(data, After(data, pos))
  }

  /** The largest granule position seen, but never below zero. */
  function Best(visits: seq<Visit>): nat {
    if visits == [] then 0
    else var rest := Best(visits[1..]); if visits[0].granule > rest then visits[0].granule else rest
  }

  /** `best` is the largest granule position of the pages, or 0 when none is positive. */
  ghost predicate IsBest(visits: seq<Visit>, best: int) {
    && best >= 0 && (forall i :: 0 <= i < |visits| ==> visits[i].granule <= best)
    && (best == 0 || exists i :: 0 <= i < |visits| && visits[i].granule == best)
  }

  lemma {:induction false} BestIsMaximum(visits: seq<Visit>)
    ensures IsBest(visits, Best(visits))
  {
    if visits != [] {
      var rest := visits[1..];
      BestIsMaximum(rest);
      forall i | 0 <= i < |visits| ensures visits[i].granule <= Best(visits) {
        if i > 0 { assert visits[i] == rest[i - 1]; }
      }
      if visits[0].granule <= Best(rest) && Best(rest) > 0 {
        var i :| 0 <= i < |rest| && rest[i].granule == Best(rest);
        assert visits[i + 1].granule == Best(visits);
      }
    }
  }

  const OGGS: seq<Byte> := [0x4F, 0x67, 0x67, 0x53]

  /** A whole header lies there, and it begins with "OggS". */
  ghost predicate IsHeader(data: seq<Byte>, v: Visit) {
    && v.at + 27 <= |data| && data[v.at..v.at + 4] == OGGS
    && v.granule == Granule(data, v.at)
  }

  /** Every page taken begins with "OggS", and each begins after the one before, past its header. */
  lemma {:induction false} VisitsAreHeaders(data: seq<Byte>, pos: nat)
    ensures forall v :: v in Scan(data, pos) ==> v.at >= pos && IsHeader(data, v)
    ensures forall i :: 0 < i < |Scan(data, pos)| ==> Scan(data, pos)[i].at > Scan(data, pos)[i - 1].at
    decreases |data| - pos
  {
    if pos + HEADER <= |data| {
      if !Captures(data, pos) {
        VisitsAreHeaders(data, pos + 1);
      } else {
        var visits, rest := Scan(data, pos), Scan(data, After(data, pos));
        VisitsAreHeaders(data, After(data, pos));
        assert data[pos..pos + 4] == OGGS;
        assert visits == [Visit(pos, Granule(data, pos))] + rest;
        if rest != [] { assert rest[0] in rest; }
        forall i | 0 < i < |visits| ensures visits[i].at > visits[i - 1].at {
          assert visits[i] == rest[i - 1];
          if i > 1 { assert visits[i - 1] == rest[i - 2]; }
        }
      }
    }
  }

  /** A sum over the table is made of its entries, and splits anywhere. */
  lemma {:induction false} SumSplits(data: seq<Byte>, lo: nat, mid: nat, hi: nat)
    requires lo <= mid <= hi <= |data|
    ensures Sum(data, lo, hi) == Sum(data, lo, mid) + Sum(data, mid, hi)
    ensures lo < hi ==> Sum(data, lo, lo + 1) == data[lo]
    decreases hi
  {
    if mid < hi { SumSplits(data, lo, mid, hi - 1); }
    if lo < hi { assert Sum(data, lo, lo + 1) == Sum(data, lo, lo) + data[lo]; }
  }

  // ---------------------------------------------------------------- the scanning loop

  function Max(a: int, b: int): int { if a >= b then a else b }

  /** What is still to come counts towards the best granule position of the whole scan. */
  ghost predicate Remaining(data: seq<Byte>, pos: nat, total: int) {
    Best(Scan(data, 0)) == Max(total, Best(Scan(data, pos)))
  }

  lemma Skip(data: seq<Byte>, pos: nat, total: int)
    requires Remaining(data, pos, total) && pos + HEADER <= |data| && !Captures(data, pos)
    ensures Remaining(data, pos + 1, total)
  {
  }

  lemma Take(data: seq<Byte>, pos: nat, total: int)
    requires Remaining(data, pos, total) && Captures(data, pos) && total >= 0
    ensures Remaining(data, After(data, pos), Max(total, Granule(data, pos)))
  {
    var seen := Scan(data, pos);
    assert seen[0] == Visit(pos, Granule(data, pos)) && seen[1..] == Scan(data, After(data, pos));
  }

  /**
   The position of the reader moves strictly forward in every round, the step back by 26 included,
   so the loop ends on every input; what it keeps is the best granule position of the pages visited.
   */
  method GetOpusDuration(data: seq<Byte>) returns (totalGranulePos: int, duration: real)
    ensures IsBest(Scan(data, 0), totalGranulePos)
    ensures duration == totalGranulePos as real / 48000.0
  {
    totalGranulePos := 0;
    var pos := 0;
    while true
      invariant pos >= 0 && totalGranulePos >= 0
      invariant Remaining(data, pos, totalGranulePos)
      decreases |data| - pos
    {
      if pos >= |data| { break; }
      var n := if |data| - pos < HEADER then |data| - pos else HEADER;
      var start := pos;
      pos := pos + n;
      if n < HEADER { break; }
      if !Captures(data, start) {
        Skip(data, start, totalGranulePos);
        pos := pos - 26;
        continue;
      }
      Take(data, start, totalGranulePos);
      var granulePos := Granule(data, start);
      if granulePos > totalGranulePos { totalGranulePos := granulePos; }
      var numSegments := data[start + 26];
      if pos + numSegments > |data| { break; }
      var pageSize := AddUp(data, pos, numSegments);
      pos := pos + numSegments + pageSize;
    }
    BestIsMaximum(Scan(data, 0));
    duration := totalGranulePos as real / 48000.0;
  }

  method AddUp(data: seq<Byte>, table: nat, numSegments: nat) returns (pageSize: nat)
    requires table + numSegments <= |data|
    ensures pageSize == Sum(data, table, table + numSegments)
  {
    pageSize := 0;
    for k := 0 to numSegments
      invariant pageSize == Sum(data, table, table + k)
    {
      pageSize := pageSize + data[table + k];
    }
  }

  // ---------------------------------------------------------------- the bytes of whole pages

  /** The bytes of one page: header, segment table, and as much body as the table adds up to. */
  predicate IsPage(c: seq<Byte>) {
    Captures(c, 0) && HEADER + c[26] <= |c| && After(c, 0) == |c|
  }

  predicate ArePages(cs: seq<seq<Byte>>) {
    forall i :: 0 <= i < |cs| ==> IsPage(cs[i])
  }

  ghost predicate Holds(data: seq<Byte>, pos: nat, c: seq<Byte>) {
    pos + |c| <= |data| && forall k :: 0 <= k < |c| ==> data[pos + k] == c[k]
  }

  /** The pages one after the other from `pos`, and then fewer bytes than a header takes. */
  ghost predicate Stream(data: seq<Byte>, pos: nat, cs: seq<seq<Byte>>)
    decreases |cs|
  {
    if cs == [] then pos <= |data| < pos + HEADER
    else Holds(data, pos, cs[0]) && Stream(data, pos + |cs[0]|, cs[1..])
  }

  /** Where each page starts, with its granule position. */
  function Visits(cs: seq<seq<Byte>>, at: nat): seq<Visit>
    requires ArePages(cs)
  {
    if cs == [] then [] else [Visit(at, Granule(cs[0], 0))] + Visits(cs[1..], at + |cs[0]|)
  }

  lemma {:induction false} SameSum(data: seq<Byte>, pos: nat, c: seq<Byte>, lo: nat, hi: nat)
    requires Holds(data, pos, c) && lo <= hi <= |c|
    ensures Sum(data, pos + lo, pos + hi) == Sum(c, lo, hi)
    decreases hi
  {
    if lo < hi {
      SameSum(data, pos, c, lo, hi - 1);
      assert data[pos + (hi - 1)] == c[hi - 1];
    }
  }

  lemma {:induction false} SameUnsigned(data: seq<Byte>, pos: nat, c: seq<Byte>, lo: nat, hi: nat)
    requires Holds(data, pos, c) && lo <= hi <= |c|
    ensures Unsigned(data, pos + lo, pos + hi) == Unsigned(c, lo, hi)
    decreases hi - lo
  {
    if lo < hi { SameUnsigned(data, pos, c, lo + 1, hi); }
  }

  /** A page is read the same wherever it lies. */
  lemma ReadAnywhere(data: seq<Byte>, pos: nat, c: seq<Byte>)
    requires IsPage(c) && Holds(data, pos, c)
    ensures Captures(data, pos) && Granule(data, pos) == Granule(c, 0) && After(data, pos) == pos + |c|
  {
    assert data[pos + 0] == c[0];
    SameUnsigned(data, pos, c, 6, 14);
    SameSum(data, pos, c, HEADER, HEADER + c[26]);
  }

  /** The visits follow one another from `pos`, and what is left is too short for a header. */
  ghost predicate Tiles(data: seq<Byte>, pos: nat, visits: seq<Visit>)
    decreases |visits|
  {
    if visits == [] then pos + HEADER > |data|
    else
      && Captures(data, pos) && visits[0] == Visit(pos, Granule(data, pos))
      && Tiles(data, After(data, pos), visits[1..])
  }

  lemma {:induction false} TilesAreVisited(data: seq<Byte>, pos: nat, visits: seq<Visit>)
    requires Tiles(data, pos, visits)
    ensures Scan(data, pos) == visits
    decreases |visits|
  {
    if visits != [] {
      TilesAreVisited(data, After(data, pos), visits[1..]);
      assert visits == [visits[0]] + visits[1..];
    }
  }

  lemma OneMoreTile(data: seq<Byte>, pos: nat, v: Visit, visits: seq<Visit>)
    requires Captures(data, pos) && v == Visit(pos, Granule(data, pos))
    requires Tiles(data, After(data, pos), visits)
    ensures Tiles(data, pos, [v] + visits)
  {
    assert ([v] + visits)[1..] == visits;
  }

  lemma {:induction false} StreamTiles(data: seq<Byte>, pos: nat, cs: seq<seq<Byte>>)
    requires ArePages(cs) && Stream(data, pos, cs)
    ensures Tiles(data, pos, Visits(cs, pos))
    decreases |cs|
  {
    if cs != [] {
      var c := cs[0];
      ReadAnywhere(data, pos, c);
      StreamTiles(data, pos + |c|, cs[1..]);
      OneMoreTile(data, pos, Visit(pos, Granule(c, 0)), Visits(cs[1..], pos + |c|));
    }
  }

  /** A stream of pages is scanned as exactly those pages, whatever short tail follows. */
  lemma ScanVisitsThePages(data: seq<Byte>, pos: nat, cs: seq<seq<Byte>>)
    requires ArePages(cs) && Stream(data, pos, cs)
    ensures Scan(data, pos) == Visits(cs, pos)
  {
    StreamTiles(data, pos, cs);
    TilesAreVisited(data, pos, Visits(cs, pos));
  }

  function Flatten(cs: seq<seq<Byte>>): seq<Byte> {
    if cs == [] then [] else cs[0] + Flatten(cs[1..])
  }

  lemma FlattenFirst(before: seq<Byte>, cs: seq<seq<Byte>>, tail: seq<Byte>)
    requires cs != []
    ensures before + Flatten(cs) + tail == (before + cs[0]) + Flatten(cs[1..]) + tail
    ensures Holds(before + Flatten(cs) + tail, |before|, cs[0])
  {
  }

  lemma {:induction false} FlattenStreams(before: seq<Byte>, cs: seq<seq<Byte>>, tail: seq<Byte>)
    requires |tail| < HEADER
    ensures Stream(before + Flatten(cs) + tail, |before|, cs)
    decreases |cs|
  {
    if cs != [] {
      FlattenFirst(before, cs, tail);
      FlattenStreams(before + cs[0], cs[1..], tail);
    }
  }

  // ---------------------------------------------------------------- pages as records

  datatype Page = Page(version: Byte, headerType: Byte, granule: int,
                       serial: nat, sequence: nat, checksum: nat, segments: seq<Byte>, body: seq<Byte>)

  predicate WellFormed(p: Page) {
    && -TWO_63 <= p.granule < TWO_63 && |p.segments| <= 255
    && |p.body| == Sum(p.segments, 0, |p.segments|)
  }

  function LittleEndian(v: nat, n: nat): (r: seq<Byte>)
    ensures |r| == n
  {
    if n == 0 then [] else [v % 256] + LittleEndian(v / 256, n - 1)
  }

  function Pow256(n: nat): (r: nat)
    ensures r > 0
  {
    if n == 0 then 1 else 256 * Pow256(n - 1)
  }

  lemma {:induction false} LittleEndianRoundTrip(c: seq<Byte>, lo: nat, n: nat, v: nat)
    requires lo + n <= |c| && c[lo..lo + n] == LittleEndian(v, n) && v < Pow256(n)
    ensures Unsigned(c, lo, lo + n) == v
    decreases n
  {
    if n > 0 {
      assert c[lo] == c[lo..lo + n][0];
      assert c[lo + 1..lo + 1 + (n - 1)] == c[lo..lo + n][1..] == LittleEndian(v / 256, n - 1);
      LittleEndianRoundTrip(c, lo + 1, n - 1, v / 256);
    }
  }

  function Bits(i: int): nat
    requires -TWO_63 <= i < TWO_63
  {
    if i < 0 then i + TWO_64 else i
  }

  function Header(p: Page): (r: seq<Byte>)
    requires WellFormed(p)
    ensures |r| == HEADER
  {
    [79, 103, 103, 83, p.version, p.headerType] + LittleEndian(Bits(p.granule), 8)
    + LittleEndian(p.serial, 4) + LittleEndian(p.sequence, 4) + LittleEndian(p.checksum, 4)
    + [|p.segments|]
  }

  function Serialize(p: Page): seq<Byte>
    requires WellFormed(p)
  {
    Header(p) + p.segments + p.body
  }

  lemma GranuleRoundTrip(c: seq<Byte>, g: int)
    requires -TWO_63 <= g < TWO_63 && |c| >= HEADER && c[6..14] == LittleEndian(Bits(g), 8)
    ensures Granule(c, 0) == g
  {
    assert Pow256(8) == TWO_64 by { assert Pow256(4) == 0x1_0000_0000; }
    LittleEndianRoundTrip(c, 6, 8, Bits(g));
  }

  lemma HeaderThen(h: seq<Byte>, segments: seq<Byte>, body: seq<Byte>)
    requires Captures(h, 0) && |h| == HEADER && h[26] == |segments| && |body| == Sum(segments, 0, |segments|)
    ensures var c := h + segments + body; IsPage(c) && c[6..14] == h[6..14]
  {
    var c := h + segments + body;
    assert Holds(c, HEADER, segments);
    SameSum(c, HEADER, segments, 0, |segments|);
  }

  /** A record of the layout in RFC 3533 is serialized as one page that reads back its granule position. */
  lemma SerializedIsPage(p: Page)
    requires WellFormed(p)
    ensures IsPage(Serialize(p)) && Granule(Serialize(p), 0) == p.granule
  {
    var h := Header(p);
    HeaderThen(h, p.segments, p.body);
    assert h[6..14] == LittleEndian(Bits(p.granule), 8);
    GranuleRoundTrip(Serialize(p), p.granule);
  }

  ghost predicate AreSerialized(ps: seq<Page>, cs: seq<seq<Byte>>) {
    |cs| == |ps| && forall i :: 0 <= i < |ps| ==> WellFormed(ps[i]) && cs[i] == Serialize(ps[i])
  }

  /** One visit per page, in order, with the page's own granule position. */
  ghost predicate Matches(visits: seq<Visit>, ps: seq<Page>) {
    |visits| == |ps| && forall i :: 0 <= i < |ps| ==> visits[i].granule == ps[i].granule
  }

  lemma {:induction false} VisitsMatch(ps: seq<Page>, cs: seq<seq<Byte>>, at: nat)
    requires AreSerialized(ps, cs)
    ensures ArePages(cs) && Matches(Visits(cs, at), ps)
    decreases |ps|
  {
    if ps != [] {
      SerializedIsPage(ps[0]);
      VisitsMatch(ps[1..], cs[1..], at + |cs[0]|);
      assert forall i :: 1 <= i < |cs| ==> cs[i] == cs[1..][i - 1];
      var visits, rest := Visits(cs, at), Visits(cs[1..], at + |cs[0]|);
      forall i | 1 <= i < |ps| ensures visits[i].granule == ps[i].granule {
        assert visits[i] == rest[i - 1] && ps[i] == ps[1..][i - 1];
      }
    }
  }

  /** Scanning serialized pages visits each of them once, in order, with its own granule position. */
  lemma SerializedScan(data: seq<Byte>, pos: nat, ps: seq<Page>, cs: seq<seq<Byte>>)
    requires AreSerialized(ps, cs) && Stream(data, pos, cs)
    ensures Matches(Scan(data, pos), ps)
  {
    VisitsMatch(ps, cs, pos);
    ScanVisitsThePages(data, pos, cs);
  }

  /** `best` is the largest granule position among the pages, or 0 when none is positive. */
  ghost predicate IsBestOf(ps: seq<Page>, best: int) {
    && best >= 0 && (forall i :: 0 <= i < |ps| ==> ps[i].granule <= best)
    && (best == 0 || exists i :: 0 <= i < |ps| && ps[i].granule == best)
  }

  lemma BestOfPages(visits: seq<Visit>, ps: seq<Page>, best: int)
    requires Matches(visits, ps)
    ensures IsBest(visits, best) <==> IsBestOf(ps, best)
  {
    assert forall i :: 0 <= i < |ps| ==> visits[i].granule == ps[i].granule;
  }

  lemma BestOfStream(data: seq<Byte>, pos: nat, ps: seq<Page>, cs: seq<seq<Byte>>, total: int)
    requires AreSerialized(ps, cs) && Stream(data, pos, cs)
    ensures IsBest(Scan(data, pos), total) <==> IsBestOf(ps, total)
  {
    SerializedScan(data, pos, ps, cs);
    BestOfPages(Scan(data, pos), ps, total);
  }

  lemma WholeFile(data: seq<Byte>, cs: seq<seq<Byte>>, tail: seq<Byte>)
    requires data == Flatten(cs) + tail && |tail| < HEADER
    ensures Stream(data, 0, cs)
  {
    FlattenStreams([], cs, tail);
    assert [] + Flatten(cs) + tail == data;
  }

  /**
   In a file of well-formed pages, one serialized after the other, and a tail shorter than a header, the
   best of what the scanner visits is the pages' largest granule position, or 0 when none is positive.
   */
  lemma SerializedDuration(data: seq<Byte>, ps: seq<Page>, cs: seq<seq<Byte>>, tail: seq<Byte>, total: int)
    requires AreSerialized(ps, cs) && data == Flatten(cs) + tail && |tail| < HEADER
    ensures IsBest(Scan(data, 0), total) <==> IsBestOf(ps, total)
  {
    WholeFile(data, cs, tail);
    BestOfStream(data, 0, ps, cs, total);
  }

  function Image(p: Page): seq<Byte> { if WellFormed(p) then Serialize(p) else [] }

  function Images(ps: seq<Page>): (cs: seq<seq<Byte>>)
    ensures |cs| == |ps| && forall i :: 0 <= i < |ps| ==> cs[i] == Image(ps[i])
  {
    if ps == [] then [] else [Image(ps[0])] + Images(ps[1..])
  }

  /** The duration of such a file, from pages to seconds. */
  method DurationOfPages(ps: seq<Page>, tail: seq<Byte>) returns (total: int, duration: real)
    requires (forall i :: 0 <= i < |ps| ==> WellFormed(ps[i])) && |tail| < HEADER
    ensures IsBestOf(ps, total) && duration == total as real / 48000.0
  {
    var cs := Images(ps);
    var data := Flatten(cs) + tail;
    total, duration := GetOpusDuration(data);
    SerializedDuration(data, ps, cs, tail, total);
  }

  // ---------------------------------------------------------------- resynchronisation

  predicate Clean(data: seq<Byte>, lo: nat, hi: nat) {
    forall i :: lo <= i < hi ==> !Captures(data, i)
  }

  lemma {:induction false} CleanIsSkipped(data: seq<Byte>, lo: nat, hi: nat)
    requires lo <= hi && Clean(data, lo, hi)
    ensures Scan(data, lo) == Scan(data, hi)
    decreases hi - lo
  {
    if lo < hi {
      assert !Captures(data, lo);
      CleanIsSkipped(data, lo + 1, hi);
    }
  }

  lemma FirstCapture(data: seq<Byte>, lo: nat, hi: nat) returns (k: nat)
    requires !Clean(data, lo, hi)
    ensures lo <= k < hi && Captures(data, k) && Clean(data, lo, k)
  {
    k := lo;
    while !Captures(data, k)
      invariant lo <= k < hi && Clean(data, lo, k)
      invariant !Clean(data, k, hi)
      decreases hi - k
    {
      k := k + 1;
    }
  }

  /** Where a capture pattern comes first, the scanner's next page is there. */
  lemma NextPageIsThere(data: seq<Byte>, lo: nat, hi: nat)
    requires !Clean(data, lo, hi)
    ensures Scan(data, lo) != [] && Scan(data, lo)[0].at < hi
  {
    var k := FirstCapture(data, lo, hi);
    CleanIsSkipped(data, lo, k);
    assert Scan(data, k)[0].at == k;
  }

  lemma NothingFoundIff(data: seq<Byte>, lo: nat)
    requires lo <= |data|
    ensures Scan(data, lo) == [] <==> Clean(data, lo, |data|)
  {
    if Clean(data, lo, |data|) {
      CleanIsSkipped(data, lo, |data|);
    } else {
      NextPageIsThere(data, lo, |data|);
    }
  }

  /** Pages with junk before each: `gap` bytes, a page, and so on; what follows the last page is junk too. */
  datatype Layout = End | Next(gap: nat, page: seq<Byte>, rest: Layout)

  /** The data has this layout from `pos`. */
  ghost predicate LaidOut(data: seq<Byte>, pos: nat, l: Layout)
    decreases l
  {
    match l
    case End => pos <= |data|
    case Next(gap, page, rest) =>
      IsPage(page) && Holds(data, pos + gap, page) && LaidOut(data, pos + gap + |page|, rest)
  }

  /** The pages of a layout, with their granule positions. */
  ghost function PagesOf(pos: nat, l: Layout): seq<Visit>
    decreases l
  {
    match l
    case End => []
    case Next(gap, page, rest) =>
      [Visit(pos + gap, if IsPage(page) then Granule(page, 0) else 0)] + PagesOf(pos + gap + |page|, rest)
  }

  /** No capture pattern begins in any gap, nor after the last page. */
  ghost predicate GapsClean(data: seq<Byte>, pos: nat, l: Layout)
    decreases l
  {
    match l
    case End => Clean(data, pos, |data|)
    case Next(gap, page, rest) => Clean(data, pos, pos + gap) && GapsClean(data, pos + gap + |page|, rest)
  }

  lemma SameTails(v: Visit, a: seq<Visit>, b: seq<Visit>)
    ensures [v] + a == [v] + b <==> a == b
  {
    assert ([v] + a)[1..] == a && ([v] + b)[1..] == b;
  }

  lemma FoundPage(data: seq<Byte>, pos: nat, at: nat, c: seq<Byte>)
    requires pos <= at && IsPage(c) && Holds(data, at, c) && Clean(data, pos, at)
    ensures Scan(data, pos) == [Visit(at, Granule(c, 0))] + Scan(data, at + |c|)
  {
    CleanIsSkipped(data, pos, at);
    ReadAnywhere(data, at, c);
  }

  /** One gap and the page after it. */
  lemma ResyncNext(data: seq<Byte>, pos: nat, at: nat, c: seq<Byte>, rest: seq<Visit>)
    requires pos <= at && IsPage(c) && Holds(data, at, c)
    ensures Scan(data, pos) == [Visit(at, Granule(c, 0))] + rest <==>
            Clean(data, pos, at) && Scan(data, at + |c|) == rest
  {
    if Clean(data, pos, at) {
      FoundPage(data, pos, at, c);
      SameTails(Visit(at, Granule(c, 0)), Scan(data, at + |c|), rest);
    } else {
      NextPageIsThere(data, pos, at);
    }
  }

  /** Among junk before, between and after the pages the scanner finds exactly the pages iff every gap is clean. */
  lemma {:induction false} ResyncIff(data: seq<Byte>, pos: nat, l: Layout)
    requires LaidOut(data, pos, l)
    ensures Scan(data, pos) == PagesOf(pos, l) <==> GapsClean(data, pos, l)
    decreases l
  {
    match l
    case End => NothingFoundIff(data, pos);
    case Next(gap, page, rest) =>
      var at := pos + gap;
      ResyncNext(data, pos, at, page, PagesOf(at + |page|, rest));
      ResyncIff(data, at + |page|, rest);
  }

  /** In particular, after leading junk the scanner finds exactly the pages iff no capture pattern begins in it. */
  lemma LeadingJunkIff(data: seq<Byte>, junk: nat, cs: seq<seq<Byte>>)
    requires ArePages(cs) && Stream(data, junk, cs)
    ensures Scan(data, 0) == Visits(cs, junk) <==> Clean(data, 0, junk)
  {
    ScanVisitsThePages(data, junk, cs);
    if Clean(data, 0, junk) {
      CleanIsSkipped(data, 0, junk);
    } else {
      NextPageIsThere(data, 0, junk);
      if cs != [] { assert Visits(cs, junk)[0].at == junk; }
    }
  }
}
