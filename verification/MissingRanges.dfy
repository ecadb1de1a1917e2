/** The missing ranges an acknowledgement reports: merged, then cut into bounded pieces, with 64-bit
    arithmetic that wraps around. */
module MissingRanges {

  const U64: nat := 0x1_0000_0000_0000_0000
  const MAX_RANGES: nat := 8
  const MAX_WIDTH: nat := 512

  datatype Range = Range(first: int, last: int)

  function Wrap(n: int): int {
    n % U64
  }

  predicate ValidRange(r: Range) {
    1 <= r.first <= r.last < U64
  }

  /** As read from the table: valid, ordered by first sequence. */
  predicate Readable(rs: seq<Range>) {
    && (forall i :: 0 <= i < |rs| ==> ValidRange(rs[i]))
    && (forall i :: 0 < i < |rs| ==> rs[i - 1].first <= rs[i].first)
  }

  predicate Covers(rs: seq<Range>, q: int) {
    exists i :: 0 <= i < |rs| && rs[i].first <= q <= rs[i].last
  }

  /** Ascending, with at least one sequence between neighbours. */
  predicate NonAdjacent(rs: seq<Range>) {
    forall i :: 0 < i < |rs| ==> rs[i - 1].last + 1 < rs[i].first
  }

  // ----- Merging -----

  function MergeOne(merged: seq<Range>, item: Range): seq<Range> {
    if merged == [] || item.first > Wrap(merged[|merged| - 1].last + 1) then merged + [item]
    else
      var tail := merged[|merged| - 1];
      merged[|merged| - 1 := if item.last > tail.last then tail.(last := item.last) else tail]
  }

  function Merge(rs: seq<Range>): seq<Range> {
    if rs == [] then [] else MergeOne(Merge(rs[..|rs| - 1]), rs[|rs| - 1])
  }

  method MergeMissingRanges(ranges: seq<Range>) returns (merged: seq<Range>)
    ensures merged == Merge(ranges)
  {
    if |ranges| < 2 {
      assert |ranges| == 1 ==> ranges[..0] == [] && ranges == [] + [ranges[0]];
      return ranges;
    }
    merged := [];
    for i := 0 to |ranges|
      invariant merged == Merge(ranges[..i])
    {
      assert ranges[..i + 1][..i] == ranges[..i];
      var item := ranges[i];
      if |merged| == 0 || item.first > Wrap(merged[|merged| - 1].last + 1) {
        merged := merged + [item];
      } else if item.last > merged[|merged| - 1].last {
        merged := merged[|merged| - 1 := Range(merged[|merged| - 1].first, item.last)];
      }
    }
    assert ranges[..|ranges|] == ranges;
  }

  lemma {:induction false} CoversSnoc(rs: seq<Range>, r: Range, q: int)
    ensures Covers(rs + [r], q) <==> Covers(rs, q) || r.first <= q <= r.last
  {
    var all := rs + [r];
    if i :| 0 <= i < |rs| && rs[i].first <= q <= rs[i].last { assert all[i] == rs[i]; }
    if r.first <= q <= r.last { assert all[|rs|] == r; }
  }

  lemma {:induction false} MergeOneCovers(merged: seq<Range>, item: Range, q: int)
    requires merged != [] ==> merged[|merged| - 1].first <= item.first && 0 <= merged[|merged| - 1].last < U64
    requires ValidRange(item)
    ensures Covers(MergeOne(merged, item), q) <==> Covers(merged, q) || item.first <= q <= item.last
  {
    if merged == [] || item.first > Wrap(merged[|merged| - 1].last + 1) {
      CoversSnoc(merged, item, q);
    } else {
      var most, tail := merged[..|merged| - 1], merged[|merged| - 1];
      var grown := if item.last > tail.last then tail.(last := item.last) else tail;
      assert merged == most + [tail] && MergeOne(merged, item) == most + [grown];
      CoversSnoc(most, tail, q);
      CoversSnoc(most, grown, q);
    }
  }

  lemma {:induction false} MergeTail(rs: seq<Range>)
    requires Readable(rs) && rs != []
    ensures var m := Merge(rs);
      m != [] && 1 <= m[|m| - 1].first <= rs[|rs| - 1].first && rs[|rs| - 1].last <= m[|m| - 1].last < U64
  {
    var most := rs[..|rs| - 1];
    if most != [] { MergeTail(most); }
  }

  /** Merging keeps the union, wherever the sequences lie. */
  lemma {:induction false} MergeKeepsUnion(rs: seq<Range>, q: int)
    requires Readable(rs)
    ensures Covers(Merge(rs), q) <==> Covers(rs, q)
  {
    if rs != [] {
      var most, item := rs[..|rs| - 1], rs[|rs| - 1];
      MergeKeepsUnion(most, q);
      if most != [] {
        MergeTail(most);
        assert rs[|rs| - 2].first <= rs[|rs| - 1].first;
      }
      MergeOneCovers(Merge(most), item, q);
      assert rs == most + [item];
      CoversSnoc(most, item, q);
    }
  }

  /** Some range ends at the top of the 64-bit space and another follows it. */
  predicate WrapsEarly(rs: seq<Range>) {
    exists i :: 0 <= i < |rs| - 1 && rs[i].last == U64 - 1
  }

  lemma {:induction false} WrapsEarlyPrefix(rs: seq<Range>)
    requires rs != []
    ensures WrapsEarly(rs) <==> WrapsEarly(rs[..|rs| - 1]) || (|rs| >= 2 && rs[|rs| - 2].last == U64 - 1)
  {
    var most := rs[..|rs| - 1];
    if i :| 0 <= i < |most| - 1 && most[i].last == U64 - 1 { assert rs[i].last == U64 - 1; }
    if i :| 0 <= i < |rs| - 1 && rs[i].last == U64 - 1 { if i < |most| - 1 { assert most[i].last == U64 - 1; } }
  }

  /** How far the merged tail reaches while nothing wrapped. */
  lemma {:induction false} TopOnlyLast(rs: seq<Range>)
    requires Readable(rs) && rs != [] && !WrapsEarly(rs)
    ensures var m := Merge(rs); m != [] && (m[|m| - 1].last == U64 - 1 <==> rs[|rs| - 1].last == U64 - 1)
  {
    var most := rs[..|rs| - 1];
    WrapsEarlyPrefix(rs);
    if most != [] {
      TopOnlyLast(most);
      MergeTail(most);
    }
  }

  lemma {:induction false} MergeSeparates(rs: seq<Range>)
    requires Readable(rs) && !WrapsEarly(rs)
    ensures NonAdjacent(Merge(rs))
  {
    if rs != [] {
      var most, item := rs[..|rs| - 1], rs[|rs| - 1];
      WrapsEarlyPrefix(rs);
      MergeSeparates(most);
      if most != [] {
        TopOnlyLast(most);
        MergeTail(most);
        var m := Merge(most);
        assert Wrap(m[|m| - 1].last + 1) == m[|m| - 1].last + 1;
      }
    }
  }

  lemma {:induction false} WrappedStaysAdjacent(rs: seq<Range>)
    requires Readable(rs) && WrapsEarly(rs)
    ensures !NonAdjacent(Merge(rs))
  {
    var most, item := rs[..|rs| - 1], rs[|rs| - 1];
    WrapsEarlyPrefix(rs);
    MergeTail(most);
    if WrapsEarly(most) {
      WrappedStaysAdjacent(most);
      AdjacentStays(Merge(most), item);
    } else {
      TopOnlyLast(most);
      OverlapAppended(Merge(most), item);
    }
  }

  lemma {:induction false} AdjacentStays(m: seq<Range>, item: Range)
    requires !NonAdjacent(m)
    ensures !NonAdjacent(MergeOne(m, item))
  {
    var i :| 0 < i < |m| && m[i - 1].last + 1 >= m[i].first;
    var after := MergeOne(m, item);
    assert after[i - 1] == m[i - 1] && after[i].first == m[i].first;
  }

  lemma {:induction false} OverlapAppended(m: seq<Range>, item: Range)
    requires m != [] && m[|m| - 1].last == U64 - 1 && ValidRange(item)
    ensures !NonAdjacent(MergeOne(m, item))
  {
    assert Wrap(m[|m| - 1].last + 1) == 0;
    var after := MergeOne(m, item);
    assert after == m + [item];
    assert after[|m| - 1] == m[|m| - 1] && after[|m|] == item;
  }

  /** The merged ranges are ascending and apart exactly when no range that ends at the top of the
      64-bit space is followed by another: there the comparison wraps to zero and appends an overlap. */
  lemma {:induction false} MergeSeparatesExactly(rs: seq<Range>)
    requires Readable(rs)
    ensures NonAdjacent(Merge(rs)) <==> !WrapsEarly(rs)
  {
    if WrapsEarly(rs) { WrappedStaysAdjacent(rs); } else { MergeSeparates(rs); }
  }

  // ----- Bounding -----

  /** Ascending and disjoint. */
  predicate Ascending(rs: seq<Range>) {
    && (forall i :: 0 <= i < |rs| ==> ValidRange(rs[i]))
    && (forall i, j :: 0 <= i < j < |rs| ==> rs[i].last < rs[j].first)
  }

  predicate Small(rs: seq<Range>) {
    && |rs| <= MAX_RANGES
    && (forall i :: 0 <= i < |rs| ==> ValidRange(rs[i]) && rs[i].last - rs[i].first < MAX_WIDTH)
  }

  /** Everything covered below `upTo` and nothing else. */
  ghost predicate CoversUpTo(out: seq<Range>, rs: seq<Range>, upTo: int) {
    forall q: int :: Covers(out, q) <==> Covers(rs, q) && q < upTo
  }

  /** One range in consecutive pieces of at most MAX_WIDTH. */
  function PiecesOf(first: int, last: int): seq<Range>
    decreases last - first
  {
    if first > last then []
    else if last - first < MAX_WIDTH then [Range(first, last)]
    else [Range(first, first + MAX_WIDTH - 1)] + PiecesOf(first + MAX_WIDTH, last)
  }

  function Pieces(rs: seq<Range>): seq<Range> {
    if rs == [] then [] else Pieces(rs[..|rs| - 1]) + PiecesOf(rs[|rs| - 1].first, rs[|rs| - 1].last)
  }

  function FirstFew(rs: seq<Range>): seq<Range> {
    if |rs| <= MAX_RANGES then rs else rs[..MAX_RANGES]
  }

  predicate Representable(rs: seq<Range>) {
    forall i :: 0 <= i < |rs| ==> 0 <= rs[i].first && rs[i].last < U64
  }

  /** The first pieces of any list of ranges, overlapping and empty ones included. */
  method BoundedMissingRanges(ranges: seq<Range>) returns (bounded: seq<Range>)
    requires Representable(ranges)
    ensures bounded == FirstFew(Pieces(ranges))
  {
    bounded := [];
    for i := 0 to |ranges|
      invariant |bounded| <= MAX_RANGES && bounded == Pieces(ranges[..i])
    {
      assert ranges[..i + 1][..i] == ranges[..i];
      var item := ranges[i];
      var first := item.first;
      while first <= item.last
        invariant |bounded| <= MAX_RANGES && bounded + PiecesOf(first, item.last) == Pieces(ranges[..i + 1])
        decreases item.last - first
      {
        if |bounded| == MAX_RANGES {
          PiecesPrefix(ranges, i + 1);
          FullIsFirstFew(bounded, PiecesOf(first, item.last), Pieces(ranges));
          return;
        }
        var last := Wrap(first + MAX_WIDTH - 1);
        if last < first || last > item.last {
          last := item.last;
        }
        NextPiece(bounded, first, last, item.last);
        bounded := bounded + [Range(first, last)];
        if last == item.last || last == U64 - 1 {
          break;
        }
        first := last + 1;
      }
    }
    assert ranges[..|ranges|] == ranges;
  }

  lemma {:induction false} NextPiece(bounded: seq<Range>, first: int, last: int, end: int)
    requires first <= last <= end
    requires last == if end - first < MAX_WIDTH then end else first + MAX_WIDTH - 1
    ensures bounded + PiecesOf(first, end) == bounded + [Range(first, last)] + PiecesOf(last + 1, end)
  {
    Associates(bounded, [Range(first, last)], PiecesOf(last + 1, end));
    if last == end { assert [Range(first, last)] + [] == [Range(first, last)]; }
  }

  lemma {:induction false} Associates(a: seq<Range>, b: seq<Range>, c: seq<Range>)
    ensures a + (b + c) == a + b + c
  {
  }

  lemma {:induction false} PiecesPrefix(rs: seq<Range>, n: nat)
    requires n <= |rs|
    ensures Pieces(rs[..n]) <= Pieces(rs)
    decreases |rs| - n
  {
    if n == |rs| {
      assert rs[..n] == rs;
    } else {
      PiecesPrefix(rs, n + 1);
      assert rs[..n + 1][..n] == rs[..n];
    }
  }

  lemma {:induction false} FullIsFirstFew(bounded: seq<Range>, rest: seq<Range>, all: seq<Range>)
    requires |bounded| == MAX_RANGES && bounded + rest <= all && rest != []
    ensures bounded == FirstFew(all)
  {
    assert all[..|bounded + rest|][..MAX_RANGES] == bounded;
  }

  // ----- What the pieces cover -----

  lemma {:induction false} CoversConcat(a: seq<Range>, b: seq<Range>, q: int)
    ensures Covers(a + b, q) <==> Covers(a, q) || Covers(b, q)
  {
    var all := a + b;
    if i :| 0 <= i < |a| && a[i].first <= q <= a[i].last { assert all[i] == a[i]; }
    if i :| 0 <= i < |b| && b[i].first <= q <= b[i].last { assert all[|a| + i] == b[i]; }
  }

  lemma {:induction false} PiecesOfCover(first: int, last: int, q: int)
    ensures Covers(PiecesOf(first, last), q) <==> first <= q <= last
    decreases last - first
  {
    if first <= last && last - first >= MAX_WIDTH {
      PiecesOfCover(first + MAX_WIDTH, last, q);
      CoversConcat([Range(first, first + MAX_WIDTH - 1)], PiecesOf(first + MAX_WIDTH, last), q);
      CoversSnoc([], Range(first, first + MAX_WIDTH - 1), q);
      assert [] + [Range(first, first + MAX_WIDTH - 1)] == [Range(first, first + MAX_WIDTH - 1)];
    } else if first <= last {
      CoversSnoc([], Range(first, last), q);
      assert [] + [Range(first, last)] == [Range(first, last)];
    }
  }

  lemma {:induction false} PiecesCover(rs: seq<Range>, q: int)
    ensures Covers(Pieces(rs), q) <==> Covers(rs, q)
  {
    if rs != [] {
      var most, r := rs[..|rs| - 1], rs[|rs| - 1];
      PiecesCover(most, q);
      PiecesOfCover(r.first, r.last, q);
      CoversConcat(Pieces(most), PiecesOf(r.first, r.last), q);
      assert rs == most + [r];
      CoversSnoc(most, r, q);
    }
  }

  /** Ascending and disjoint pieces between two bounds. */
  predicate Tiles(ps: seq<Range>, from: int, to: int) {
    && (forall i :: 0 <= i < |ps| ==> from <= ps[i].first <= ps[i].last <= to && ps[i].last - ps[i].first < MAX_WIDTH)
    && (forall i, j :: 0 <= i < j < |ps| ==> ps[i].last < ps[j].first)
  }

  lemma {:induction false} TilesConcat(a: seq<Range>, b: seq<Range>, from: int, mid: int, next: int, to: int)
    requires Tiles(a, from, mid) && Tiles(b, next, to) && from <= mid < next <= to
    ensures Tiles(a + b, from, to)
  {
  }

  lemma {:induction false} PiecesOfTile(first: int, last: int)
    requires first <= last
    ensures Tiles(PiecesOf(first, last), first, last)
    ensures |PiecesOf(first, last)| == (last - first) / MAX_WIDTH + 1
    decreases last - first
  {
    if last - first >= MAX_WIDTH {
      PiecesOfTile(first + MAX_WIDTH, last);
      TilesConcat([Range(first, first + MAX_WIDTH - 1)], PiecesOf(first + MAX_WIDTH, last),
        first, first + MAX_WIDTH - 1, first + MAX_WIDTH, last);
    }
  }

  /** How many pieces a list needs. */
  function PieceCount(rs: seq<Range>): nat
    requires forall i :: 0 <= i < |rs| ==> ValidRange(rs[i])
  {
    if rs == [] then 0 else
      assert ValidRange(rs[|rs| - 1]);
      PieceCount(rs[..|rs| - 1]) + (rs[|rs| - 1].last - rs[|rs| - 1].first) / MAX_WIDTH + 1
  }

  lemma {:induction false} PiecesTile(rs: seq<Range>)
    requires Ascending(rs)
    ensures Tiles(Pieces(rs), 1, if rs == [] then 1 else rs[|rs| - 1].last)
    ensures |Pieces(rs)| == PieceCount(rs)
  {
    if rs != [] {
      var most, r := rs[..|rs| - 1], rs[|rs| - 1];
      PiecesTile(most);
      PiecesOfTile(r.first, r.last);
      if most != [] {
        assert most[|most| - 1] == rs[|rs| - 2] && rs[|rs| - 2].last < r.first;
        TilesConcat(Pieces(most), PiecesOf(r.first, r.last), 1, most[|most| - 1].last, r.first, r.last);
      }
    }
  }

  /** An initial part of ascending pieces covers everything below the first piece left out. */
  lemma {:induction false} InitialPart(ps: seq<Range>, k: nat, from: int, to: int)
    requires Tiles(ps, from, to) && k <= |ps| && to < U64
    ensures CoversUpTo(ps[..k], ps, if k < |ps| then ps[k].first else U64)
  {
    var some, upTo := ps[..k], if k < |ps| then ps[k].first else U64;
    forall q: int ensures Covers(some, q) <==> Covers(ps, q) && q < upTo {
      if i :| 0 <= i < |some| && some[i].first <= q <= some[i].last { assert ps[i] == some[i]; }
      if i :| 0 <= i < |ps| && ps[i].first <= q <= ps[i].last {
        if i < k { assert some[i] == ps[i]; } else if k < i { assert ps[k].last < ps[i].first; }
      }
    }
  }

  function CutAt(rs: seq<Range>): int {
    if |Pieces(rs)| <= MAX_RANGES then U64 else Pieces(rs)[MAX_RANGES].first
  }

  /** At most MAX_RANGES pieces of at most MAX_WIDTH: of disjoint ranges an initial part, and all of
      them exactly when that many pieces are enough. */
  lemma {:induction false} BoundedCovers(rs: seq<Range>)
    requires Ascending(rs)
    ensures var bounded := FirstFew(Pieces(rs));
      && Small(bounded) && CoversUpTo(bounded, rs, CutAt(rs))
      && (CutAt(rs) == U64 <==> PieceCount(rs) <= MAX_RANGES)
      && (PieceCount(rs) > MAX_RANGES ==> Covers(rs, CutAt(rs)))
  {
    PiecesTile(rs);
    var ps := Pieces(rs);
    var to := if rs == [] then 1 else rs[|rs| - 1].last;
    InitialPart(ps, if |ps| <= MAX_RANGES then |ps| else MAX_RANGES, 1, to);
    assert |ps| <= MAX_RANGES ==> ps[..|ps|] == ps;
    forall q: int ensures Covers(FirstFew(ps), q) <==> Covers(rs, q) && q < CutAt(rs) {
      PiecesCover(rs, q);
    }
    if |ps| > MAX_RANGES {
      assert ps[MAX_RANGES].first <= ps[MAX_RANGES].first <= ps[MAX_RANGES].last;
      PiecesCover(rs, CutAt(rs));
    }
  }

  // ----- Together -----

  lemma {:induction false} SeparatedIsAscending(rs: seq<Range>, i: nat, j: nat)
    requires NonAdjacent(rs) && i < j < |rs| && forall k :: 0 <= k < |rs| ==> ValidRange(rs[k])
    ensures rs[i].last < rs[j].first
    decreases j
  {
    assert rs[j - 1].last + 1 < rs[j].first;
    if i < j - 1 { SeparatedIsAscending(rs, i, j - 1); }
  }

  lemma {:induction false} MergedValid(rs: seq<Range>)
    requires Readable(rs)
    ensures forall k :: 0 <= k < |Merge(rs)| ==> ValidRange(Merge(rs)[k])
  {
    if rs != [] { MergedValid(rs[..|rs| - 1]); }
  }

  // ----- The acknowledgement -----

  /** The query is limited before anything is merged. */
  function Limited(rows: seq<Range>): seq<Range> {
    FirstFew(rows)
  }

  function Reported(rows: seq<Range>): seq<Range> {
    FirstFew(Pieces(Merge(Limited(rows))))
  }

  /** As the query orders them.  Rows hold signed 64-bit numbers. */
  predicate Ordered(rows: seq<Range>) {
    && (forall i :: 0 <= i < |rows| ==> rows[i].last < U64 / 2)
    && (forall i :: 0 < i < |rows| ==> rows[i - 1].first <= rows[i].first)
  }

  /** The rows the query returns are checked as they are scanned, merged and cut. */
  method ReportMissing(rows: seq<Range>) returns (reported: seq<Range>, ok: bool)
    requires Ordered(rows)
    ensures ok <==> forall i :: 0 <= i < |rows| && i < MAX_RANGES ==> ValidRange(rows[i])
    ensures ok ==> reported == Reported(rows)
  {
    var ranges: seq<Range> := [];
    for i := 0 to |Limited(rows)|
      invariant ranges == rows[..i] && forall k :: 0 <= k < i ==> ValidRange(rows[k])
    {
      if rows[i].first < 1 || rows[i].last < rows[i].first {
        return [], false;
      }
      ranges := ranges + [rows[i]];
    }
    assert ranges == Limited(rows);
    var merged := MergeMissingRanges(ranges);
    MergedValid(ranges);
    reported := BoundedMissingRanges(merged);
    ok := true;
  }

  /** The rows of a good table: every one of them can be reported. */
  predicate Table(rows: seq<Range>) {
    Ordered(rows) && forall i :: 0 <= i < |rows| ==> ValidRange(rows[i])
  }

  lemma {:induction false} MergedAscending(rows: seq<Range>)
    requires Table(rows)
    ensures Ascending(Merge(Limited(rows)))
  {
    var some := Limited(rows);
    var merged := Merge(some);
    MergeSeparates(some);
    MergedValid(some);
    forall i, j | 0 <= i < j < |merged| ensures merged[i].last < merged[j].first { SeparatedIsAscending(merged, i, j); }
  }

  function MaxLast(rs: seq<Range>): int {
    if rs == [] then 0
    else if rs[|rs| - 1].last > MaxLast(rs[..|rs| - 1]) then rs[|rs| - 1].last else MaxLast(rs[..|rs| - 1])
  }

  lemma {:induction false} MaxLastIsMax(rs: seq<Range>)
    requires forall i :: 0 <= i < |rs| ==> ValidRange(rs[i])
    ensures forall i :: 0 <= i < |rs| ==> rs[i].last <= MaxLast(rs)
    ensures if rs == [] then MaxLast(rs) == 0 else exists i :: 0 <= i < |rs| && rs[i].last == MaxLast(rs)
  {
    if rs != [] {
      var most := rs[..|rs| - 1];
      MaxLastIsMax(most);
      if most != [] { var i :| 0 <= i < |most| && most[i].last == MaxLast(most); assert rs[i].last == MaxLast(most); }
      forall i | 0 <= i < |rs|
        ensures rs[i].last <= MaxLast(rs)
      {
        if i < |most| { assert most[i].last <= MaxLast(most); }
      }
    }
  }

  lemma {:induction false} FirstsAscend(rows: seq<Range>, i: nat, j: nat)
    requires Ordered(rows) && i <= j < |rows|
    ensures rows[i].first <= rows[j].first
    decreases j
  {
    if i < j { FirstsAscend(rows, i, j - 1); }
  }

  /** What the limit leaves out lies above everything it lets through. */
  lemma {:induction false} LimitKeepsInitialPart(rows: seq<Range>)
    requires Table(rows)
    ensures CoversUpTo(Limited(rows), rows, LimitedUpTo(rows))
  {
    var some := Limited(rows);
    MaxLastIsMax(some);
    forall q: int ensures Covers(some, q) <==> Covers(rows, q) && q < LimitedUpTo(rows) {
      if i :| 0 <= i < |some| && some[i].first <= q <= some[i].last { assert rows[i] == some[i]; }
      if i :| 0 <= i < |rows| && rows[i].first <= q <= rows[i].last {
        if i < |some| { assert some[i] == rows[i]; }
        else if q <= MaxLast(some) {
          var k :| 0 <= k < |some| && some[k].last == MaxLast(some);
          FirstsAscend(rows, k, i);
          assert some[k].first <= q <= some[k].last;
        }
      }
    }
  }

  /** Where the limit of the query stops. */
  function LimitedUpTo(rows: seq<Range>): int {
    if |rows| <= MAX_RANGES then U64 else MaxLast(Limited(rows)) + 1
  }

  function Least(a: int, b: int): int {
    if a < b then a else b
  }

  /** Where the report stops: at the limit of the query or at the limit of the acknowledgement. */
  function ReportedUpTo(rows: seq<Range>): int {
    Least(CutAt(Merge(Limited(rows))), LimitedUpTo(rows))
  }

  lemma {:induction false} InitialPartOf(
    out: seq<Range>, merged: seq<Range>, some: seq<Range>, rows: seq<Range>, cut: int, limit: int)
    requires CoversUpTo(out, merged, cut) && CoversUpTo(some, rows, limit)
    requires Readable(some) && merged == Merge(some)
    ensures CoversUpTo(out, rows, Least(cut, limit))
  {
    forall q: int ensures Covers(out, q) <==> Covers(rows, q) && q < Least(cut, limit) {
      MergeKeepsUnion(some, q);
      assert Covers(out, q) <==> Covers(merged, q) && q < cut;
      assert Covers(some, q) <==> Covers(rows, q) && q < limit;
    }
  }

  /** What an acknowledgement reports is an initial part of what the whole table is missing. */
  lemma {:induction false} ReportIsInitialPart(rows: seq<Range>)
    requires Table(rows)
    ensures Small(Reported(rows)) && CoversUpTo(Reported(rows), rows, ReportedUpTo(rows))
  {
    var some := Limited(rows);
    MergedAscending(rows);
    BoundedCovers(Merge(some));
    LimitKeepsInitialPart(rows);
    InitialPartOf(Reported(rows), Merge(some), some, rows, CutAt(Merge(some)), LimitedUpTo(rows));
  }

  /** Rows past the limit add nothing to the rows within it. */
  predicate LimitHarmless(rows: seq<Range>) {
    forall k :: MAX_RANGES <= k < |rows| ==> rows[k].last <= MaxLast(Limited(rows))
  }

  ghost predicate CoversAll(out: seq<Range>, rows: seq<Range>) {
    forall q :: Covers(rows, q) ==> Covers(out, q)
  }

  predicate AllBelow(rows: seq<Range>, bound: int) {
    forall k :: 0 <= k < |rows| ==> rows[k].last < bound
  }

  lemma {:induction false} AllReported(out: seq<Range>, rows: seq<Range>, upTo: int)
    requires CoversUpTo(out, rows, upTo) && forall i :: 0 <= i < |rows| ==> ValidRange(rows[i])
    ensures CoversAll(out, rows) <==> AllBelow(rows, upTo)
  {
    forall k | 0 <= k < |rows| ensures Covers(rows, rows[k].last) { assert ValidRange(rows[k]); }
  }

  lemma {:induction false} LimitHarmlessExactly(rows: seq<Range>)
    requires Table(rows)
    ensures AllBelow(rows, LimitedUpTo(rows)) <==> LimitHarmless(rows)
  {
    var some := Limited(rows);
    MaxLastIsMax(some);
    forall k | 0 <= k < |some| ensures rows[k].last <= MaxLast(some) { assert some[k] == rows[k]; }
  }

  /** Fitting into the acknowledgement, for rows the limit did not touch. */
  lemma {:induction false} FitsExactly(some: seq<Range>, merged: seq<Range>)
    requires Readable(some) && merged == Merge(some) && Ascending(merged)
    ensures AllBelow(some, CutAt(merged)) <==> PieceCount(merged) <= MAX_RANGES
  {
    BoundedCovers(merged);
    if PieceCount(merged) > MAX_RANGES {
      MergeKeepsUnion(some, CutAt(merged));
      assert Covers(some, CutAt(merged));
    }
  }

  lemma {:induction false} LimitedReadable(rows: seq<Range>, some: seq<Range>)
    requires Table(rows) && some == Limited(rows)
    ensures Readable(some)
  {
    forall i | 0 <= i < |some| ensures some[i] == rows[i] {}
  }

  lemma {:induction false} LimitedFits(rows: seq<Range>, some: seq<Range>, merged: seq<Range>)
    requires Table(rows) && some == Limited(rows) && merged == Merge(some) && Ascending(merged)
    ensures AllBelow(some, CutAt(merged)) <==> PieceCount(merged) <= MAX_RANGES
  {
    LimitedReadable(rows, some);
    FitsExactly(some, merged);
  }

  /** It is all of it exactly when no row past the eighth reaches beyond the first eight, and the
      first eight, merged, fit into eight pieces. */
  lemma {:induction false} ReportIsAllExactly(rows: seq<Range>, merged: seq<Range>)
    requires Table(rows) && merged == Merge(Limited(rows))
    ensures Ascending(merged)
    ensures CoversAll(Reported(rows), rows) <==> PieceCount(merged) <= MAX_RANGES && LimitHarmless(rows)
  {
    MergedAscending(rows);
    ReportIsInitialPart(rows);
    LimitHarmlessExactly(rows);
    LimitedFits(rows, Limited(rows), merged);
    assert ReportedUpTo(rows) == Least(CutAt(merged), LimitedUpTo(rows));
    AllBelowExactly(rows, Reported(rows), CutAt(merged), ReportedUpTo(rows));
  }

  lemma {:induction false} AllBelowExactly(rows: seq<Range>, out: seq<Range>, cut: int, upTo: int)
    requires Table(rows) && CoversUpTo(out, rows, upTo) && upTo == Least(cut, LimitedUpTo(rows))
    ensures CoversAll(out, rows) <==> AllBelow(Limited(rows), cut) && AllBelow(rows, LimitedUpTo(rows))
  {
    AllReported(out, rows, upTo);
    BelowBoth(rows, cut);
  }

  /** Of rows the limit does no harm to, all lie below a bound when the first few do. */
  lemma {:induction false} BelowBoth(rows: seq<Range>, cut: int)
    requires Table(rows)
    ensures AllBelow(rows, Least(cut, LimitedUpTo(rows))) <==>
      AllBelow(Limited(rows), cut) && AllBelow(rows, LimitedUpTo(rows))
  {
    var some := Limited(rows);
    MaxLastIsMax(some);
    forall k | 0 <= k < |some| ensures some[k] == rows[k] {}
    if AllBelow(some, cut) && AllBelow(rows, LimitedUpTo(rows)) {
      forall k | 0 <= k < |rows| ensures rows[k].last < cut {
        if k >= |some| { assert rows[k].last <= MaxLast(some); }
      }
    }
  }

  // ----- A table whose ninth row is never reported -----

  /** One session misses 1 to 100; another misses seven sequences below that, and 16 to 200. */
  function NineRows(): seq<Range> {
    seq(9, i => NinthOf(i))
  }

  function NinthOf(i: int): Range {
    if i == 0 then Range(1, 100) else if i < 8 then Range(2 * i, 2 * i) else Range(16, 200)
  }

  lemma {:induction false} MergedIntoFirst(rs: seq<Range>)
    requires rs != [] && forall i :: 0 <= i < |rs| ==> rs[i].first <= rs[0].last && rs[i].last <= rs[0].last < U64 - 1
    requires 0 <= rs[0].last
    ensures Merge(rs) == [rs[0]]
  {
    if |rs| == 1 {
      assert rs[..0] == [];
    } else {
      MergedIntoFirst(rs[..|rs| - 1]);
    }
  }

  /** The report has room for seven more ranges and still leaves 200 out. */
  lemma {:induction false} NinthRowIsSilent()
    ensures Table(NineRows()) && Covers(NineRows(), 200)
    ensures Reported(NineRows()) == [Range(1, 100)]
  {
    var rows := NineRows();
    assert |rows| == 9 && forall i :: 0 <= i < 9 ==> rows[i] == NinthOf(i);
    assert rows[8].first <= 200 <= rows[8].last;
    MergedIntoFirst(Limited(rows));
    OnePiece(rows[0]);
  }

  lemma {:induction false} OnePiece(r: Range)
    requires r.first <= r.last < r.first + MAX_WIDTH
    ensures FirstFew(Pieces([r])) == [r]
  {
    assert [r][..0] == [];
  }
}
