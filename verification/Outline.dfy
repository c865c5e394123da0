/** The sweep that finds the lines of a file outside every top-level declaration. */
module Outline {
  const MAX_LISTED: nat := 12

  /** First and last line of a declaration, or of a gap. */
  datatype Span = Span(first: int, last: int)

  ghost function Lines(s: Span): (cells: set<int>)
    ensures forall n :: n in cells <==> s.first <= n <= s.last
    decreases s.last - s.first
  {
    if s.last < s.first then {} else Lines(Span(s.first, s.last - 1)) + {s.last}
  }

  /** The lines of all the spans together. */
  ghost function Cells(spans: seq<Span>): set<int> {
    if spans == [] then {} else Cells(spans[..|spans| - 1]) + Lines(spans[|spans| - 1])
  }

  lemma {:induction false} InCells(spans: seq<Span>, n: int)
    ensures n in Cells(spans) <==> exists i :: 0 <= i < |spans| && spans[i].first <= n <= spans[i].last
  {
    if spans != [] {
      InCells(spans[..|spans| - 1], n);
      assert forall i :: 0 <= i < |spans| - 1 ==> spans[..|spans| - 1][i] == spans[i];
      assert n in Lines(spans[|spans| - 1]) <==> spans[|spans| - 1].first <= n <= spans[|spans| - 1].last;
    }
  }

  function Length(s: Span): nat { if s.last < s.first then 0 else s.last - s.first + 1 }

  function TotalLength(spans: seq<Span>): nat {
    if spans == [] then 0 else TotalLength(spans[..|spans| - 1]) + Length(spans[|spans| - 1])
  }

  lemma {:induction false} LinesCount(s: Span)
    ensures |Lines(s)| == Length(s)
    decreases Length(s)
  {
    if s.first <= s.last {
      LinesCount(Span(s.first, s.last - 1));
      assert Lines(s) == Lines(Span(s.first, s.last - 1)) + {s.last};
    } else {
      assert Lines(s) == {};
    }
  }

  // ----- Sorting ----------------------------------------------------------------------------------

  ghost predicate Sorted(spans: seq<Span>) { forall i, j :: 0 <= i < j < |spans| ==> spans[i].first <= spans[j].first }

  /** A stable insertion, after every span that starts no later. */
  function Insert(spans: seq<Span>, s: Span): seq<Span> {
    if spans == [] || spans[|spans| - 1].first <= s.first then spans + [s]
    else Insert(spans[..|spans| - 1], s) + [spans[|spans| - 1]]
  }

  function ByStart(spans: seq<Span>): seq<Span> {
    if spans == [] then [] else Insert(ByStart(spans[..|spans| - 1]), spans[|spans| - 1])
  }

  lemma SortedSnoc(spans: seq<Span>, s: Span)
    requires Sorted(spans) && forall t :: t in spans ==> t.first <= s.first
    ensures Sorted(spans + [s])
  {}

  lemma SortedFront(spans: seq<Span>)
    requires Sorted(spans) && spans != []
    ensures Sorted(spans[..|spans| - 1]) && forall t :: t in spans ==> t.first <= spans[|spans| - 1].first
  {}

  lemma {:induction false} InsertKeepsSorted(spans: seq<Span>, s: Span)
    requires Sorted(spans)
    ensures Sorted(Insert(spans, s)) && multiset(Insert(spans, s)) == multiset(spans) + multiset{s}
  {
    hide Sorted;
    if spans != [] {
      var init, last := spans[..|spans| - 1], spans[|spans| - 1];
      assert spans == init + [last];
      SortedFront(spans);
      if last.first > s.first {
        InsertKeepsSorted(init, s);
        var t := Insert(init, s);
        forall x | x in t ensures x.first <= last.first {
          assert x in multiset(t);
          assert x in spans || x == s;
        }
        SortedSnoc(t, last);
      } else {
        SortedSnoc(spans, s);
      }
    } else {
      EmptyIsSorted();
      SortedSnoc([], s);
    }
  }

  lemma EmptyIsSorted()
    ensures Sorted([])
  {}

  lemma {:induction false} ByStartSorts(spans: seq<Span>)
    ensures Sorted(ByStart(spans)) && multiset(ByStart(spans)) == multiset(spans)
  {
    hide Sorted;
    if spans == [] {
      EmptyIsSorted();
    } else {
      var front, last := spans[..|spans| - 1], spans[|spans| - 1];
      assert spans == front + [last] && multiset(front + [last]) == multiset(front) + multiset{last};
      ByStartSorts(front);
      InsertKeepsSorted(ByStart(front), last);
      hide Insert;
    }
  }

  lemma SameCells(a: seq<Span>, b: seq<Span>)
    requires multiset(a) == multiset(b)
    ensures Cells(a) == Cells(b)
  {
    hide Cells;
    forall i | 0 <= i < |a| ensures a[i] in b { assert a[i] in multiset(a); }
    forall i | 0 <= i < |b| ensures b[i] in a { assert b[i] in multiset(b); }
    forall n ensures n in Cells(a) <==> n in Cells(b) {
      InCells(a, n);
      InCells(b, n);
    }
  }

  // ----- The sweep --------------------------------------------------------------------------------

  datatype Sweep = Sweep(covered: nat, gaps: seq<Span>)

  /** Gaps and declarations share out lines 1..next-1; the gaps all end before `bound`. */
  ghost predicate Swept(done: seq<Span>, covered: nat, gaps: seq<Span>, next: int) {
    && next >= 1
    && covered == |Cells(done)| && Cells(done) !! Cells(gaps)
    && Cells(done) + Cells(gaps) == Lines(Span(1, next - 1))
    && TotalLength(gaps) == |Cells(gaps)|
  }

  lemma CellsSnoc(spans: seq<Span>, s: Span)
    ensures Cells(spans + [s]) == Cells(spans) + Lines(s)
  {}

  lemma SizeOfBoth(a: set<int>, b: set<int>)
    requires a !! b
    ensures |a + b| == |a| + |b|
  {}

  lemma TotalSnoc(spans: seq<Span>, s: Span)
    ensures TotalLength(spans + [s]) == TotalLength(spans) + Length(s)
  {}

  lemma LinesJoin(a: int, b: int, c: int)
    requires a <= b
    ensures Lines(Span(a, b - 1)) + Lines(Span(b, c)) == Lines(Span(a, if b <= c then c else b - 1))
    ensures Lines(Span(a, b - 1)) !! Lines(Span(b, c))
  {}

  /** Recording the lines next..last of a gap. */
  lemma AddGap(done: seq<Span>, covered: nat, gaps: seq<Span>, next: int, last: int)
    requires Swept(done, covered, gaps, next) && next <= last
    ensures Swept(done, covered, gaps + [Span(next, last)], last + 1)
  {
    var gap := Span(next, last);
    CellsSnoc(gaps, gap);
    TotalSnoc(gaps, gap);
    LinesCount(gap);
    hide Cells, Lines, TotalLength;
    assert Cells(gaps) <= Lines(Span(1, next - 1)) && Cells(done) <= Lines(Span(1, next - 1));
    LinesJoin(1, next, last);
    SizeOfBoth(Cells(gaps), Lines(gap));
  }

  ghost predicate Before(gaps: seq<Span>, bound: int) { forall n :: n in Cells(gaps) ==> n < bound }

  lemma BeforeNext(gaps: seq<Span>, spans: seq<Span>, i: nat)
    requires Sorted(spans) && i < |spans| && Before(gaps, spans[i].first)
    ensures i + 1 < |spans| ==> Before(gaps, spans[i + 1].first)
  {}

  // ----- Gaps are maximal -------------------------------------------------------------------------

  ghost predicate Ascending(gaps: seq<Span>) { forall i, j :: 0 <= i < j < |gaps| ==> gaps[i].last < gaps[j].first }

  /** Bounded on either side by a covered line or by an end of the file. */
  ghost predicate Bordered(g: Span, covered: set<int>, total: int) {
    1 <= g.first <= g.last && (g.first == 1 || g.first - 1 in covered) && (g.last == total || g.last + 1 in covered)
  }

  /** The gaps so far are in order, each between covered lines, and `next` follows one. */
  ghost predicate Between(gaps: seq<Span>, covered: set<int>, next: int) {
    && Ascending(gaps) && next >= 1 && (next == 1 || next - 1 in covered)
    && forall i :: 0 <= i < |gaps| ==> Enclosed(gaps[i], covered, next)
  }

  ghost predicate Enclosed(g: Span, covered: set<int>, next: int) {
    1 <= g.first <= g.last < next && (g.first == 1 || g.first - 1 in covered) && g.last + 1 in covered
  }

  lemma NothingBetween()
    ensures Between([], {}, 1)
  {}

  lemma StaysBetween(gaps: seq<Span>, covered: set<int>, next: int, more: set<int>, later: int)
    requires Between(gaps, covered, next) && next <= later && (later == next || later - 1 in more)
    ensures Between(gaps, covered + more, later)
  {
    forall i | 0 <= i < |gaps| ensures Enclosed(gaps[i], covered + more, later) {
      assert Enclosed(gaps[i], covered, next);
    }
  }

  lemma OneMoreBetween(gaps: seq<Span>, covered: set<int>, next: int, g: Span, later: int)
    requires Ascending(gaps) && forall i :: 0 <= i < |gaps| ==> Enclosed(gaps[i], covered, next)
    requires g.first == next && Enclosed(g, covered, later) && later >= 1 && later - 1 in covered
    ensures Between(gaps + [g], covered, later)
  {
    forall i | 0 <= i < |gaps| ensures Enclosed(gaps[i], covered, later) && gaps[i].last < next {
      assert Enclosed(gaps[i], covered, next);
    }
  }

  /** One turn of the sweep puts its gap after the others, with the new declaration behind it. */
  lemma AdvanceBetween(gaps: seq<Span>, covered: set<int>, next: int, s: Span)
    requires Between(gaps, covered, next) && s.first <= s.last
    ensures
      var gapped := if next < s.first then gaps + [Span(next, s.first - 1)] else gaps;
      Between(gapped, covered + Lines(s), if next < s.last + 1 then s.last + 1 else next)
  {
    var lines := Lines(s);
    assert s.first in lines && s.last in lines;
    hide Lines;
    if next < s.first {
      StaysBetween(gaps, covered, next, lines, next);
      OneMoreBetween(gaps, covered + lines, next, Span(next, s.first - 1), s.last + 1);
    } else {
      StaysBetween(gaps, covered, next, lines, if next < s.last + 1 then s.last + 1 else next);
    }
  }

  /** The last gap may end with the file. */
  lemma GapsAreMaximal(gaps: seq<Span>, covered: set<int>, next: int, total: int)
    requires Between(gaps, covered, next)
    ensures
      var all := if next <= total then gaps + [Span(next, total)] else gaps;
      Ascending(all) && forall g :: g in all ==> Bordered(g, covered, total)
  {
    forall i | 0 <= i < |gaps| ensures Bordered(gaps[i], covered, total) { assert Enclosed(gaps[i], covered, next); }
  }

  /** Three uncovered lines in a row lie within one gap. */
  lemma RunInOneGap(gaps: seq<Span>, covered: set<int>, total: int, n: int)
    requires Ascending(gaps) && forall g :: g in gaps ==> Bordered(g, covered, total)
    requires 1 <= n && n + 2 <= total && n + 1 !in covered && n + 2 !in covered
    requires n in Cells(gaps) && n + 1 in Cells(gaps) && n + 2 in Cells(gaps)
    ensures exists k :: 0 <= k < |gaps| && gaps[k].first <= n && n + 2 <= gaps[k].last
  {
    InCells(gaps, n);
    InCells(gaps, n + 1);
    InCells(gaps, n + 2);
    hide Cells;
    var i :| 0 <= i < |gaps| && gaps[i].first <= n <= gaps[i].last;
    var j :| 0 <= j < |gaps| && gaps[j].first <= n + 1 <= gaps[j].last;
    var k :| 0 <= k < |gaps| && gaps[k].first <= n + 2 <= gaps[k].last;
    assert gaps[i] in gaps && gaps[j] in gaps;
    assert gaps[i].last != n && gaps[j].last != n + 1;
  }

  /** Counting the lines of a declaration that no earlier one counted: those from `next` on. */
  lemma AddSpan(done: seq<Span>, covered: nat, gaps: seq<Span>, next: int, s: Span)
    requires Swept(done, covered, gaps, next) && 1 <= s.first <= s.last && s.first <= next
    requires Before(gaps, s.first)
    ensures Swept(done + [s], covered + Length(Span(next, s.last)), gaps, if next <= s.last then s.last + 1 else next)
  {
    var rest := Span(next, s.last);
    CellsSnoc(done, s);
    LinesCount(rest);
    hide Cells, Lines, TotalLength;
    var after := if next <= s.last then s.last + 1 else next;
    forall n | n in Lines(s) ensures n in Cells(done) + Lines(rest) {
      assert n < next ==> n in Lines(Span(1, next - 1));
    }
    LinesJoin(1, next, s.last);
    NewLines(Cells(done), Cells(gaps), Lines(s), Lines(rest), Lines(Span(1, next - 1)));
  }

  /** The lines of a declaration, of which only `uncounted` were not counted before. */
  lemma NewLines(done: set<int>, gaps: set<int>, lines: set<int>, uncounted: set<int>, before: set<int>)
    requires done !! gaps && done + gaps == before && before !! uncounted
    requires uncounted <= lines && lines <= done + uncounted
    ensures done + lines !! gaps && done + lines + gaps == before + uncounted
    ensures |done + lines| == |done| + |uncounted|
  {}

  /** The last line of the file or of the last declaration, whichever is later. */
  ghost predicate Extent(e: int, spans: seq<Span>, total: nat) {
    && total <= e && (forall i :: 0 <= i < |spans| ==> spans[i].last <= e)
    && (e == total || exists i :: 0 <= i < |spans| && spans[i].last == e)
  }

  lemma ExtentSnoc(e: int, spans: seq<Span>, s: Span)
    requires Extent(e, spans, 0)
    ensures Extent(if e < s.last then s.last else e, spans + [s], 0)
  {
    var all := spans + [s];
    assert all[|spans|] == s;
    if e != 0 && s.last <= e {
      var i :| 0 <= i < |spans| && spans[i].last == e;
      assert all[i].last == e;
    }
  }

  lemma SameExtent(e: int, a: seq<Span>, b: seq<Span>, total: nat)
    requires multiset(a) == multiset(b) && Extent(e, a, total)
    ensures Extent(e, b, total)
  {
    forall i | 0 <= i < |a| ensures a[i] in b { assert a[i] in multiset(a); }
    forall i | 0 <= i < |b| ensures b[i] in a { assert b[i] in multiset(b); }
  }

  /** Every declaration well formed and numbered from line 1. */
  predicate Numbered(symbols: seq<Span>) { forall i :: 0 <= i < |symbols| ==> 1 <= symbols[i].first <= symbols[i].last }

  /** One turn of the sweep: a gap if the declaration starts later, then the lines not yet counted. */
  lemma Advance(done: seq<Span>, covered: nat, gaps: seq<Span>, next: int, s: Span)
    requires Swept(done, covered, gaps, next) && 1 <= s.first <= s.last
    requires Before(gaps, s.first)
    ensures
      var gapped := if next < s.first then gaps + [Span(next, s.first - 1)] else gaps;
      var start := if next < s.first then s.first else next;
      && Swept(done + [s], covered + Length(Span(start, s.last)), gapped, if start <= s.last then s.last + 1 else start)
      && Before(gapped, s.first)
  {
    hide Swept, Cells, Lines, Length;
    if next < s.first {
      AddGap(done, covered, gaps, next, s.first - 1);
      CellsSnoc(gaps, Span(next, s.first - 1));
      AddSpan(done, covered, gaps + [Span(next, s.first - 1)], s.first, s);
    } else {
      AddSpan(done, covered, gaps, next, s);
    }
  }

  method SweepSpans(symbols: seq<Span>, total: nat) returns (r: Sweep, ghost extent: int)
    requires Numbered(symbols)
    ensures r.covered == |Cells(symbols)| && TotalLength(r.gaps) == |Cells(r.gaps)|
    ensures Extent(extent, symbols, total)
    ensures Cells(symbols) !! Cells(r.gaps) && Cells(symbols) + Cells(r.gaps) == Lines(Span(1, extent))
    ensures Ascending(r.gaps) && forall g :: g in r.gaps ==> Bordered(g, Cells(symbols), total)
  {
    hide Between, Ascending, Bordered;
    hide Swept, Extent, Length, TotalLength, Cells, Lines, Sorted, Before, ByStart;
    var spans := ByStart(symbols);
    ByStartSorts(symbols);
    SameCells(spans, symbols);
    SortedIsNumbered(symbols, spans);
    var gaps: seq<Span> := [];
    var next: int := 1;
    var covered: nat := 0;
    NothingSwept(spans);
    NothingBetween();
    NoCells(spans);
    for i := 0 to |spans|
      invariant Swept(spans[..i], covered, gaps, next) && Extent(next - 1, spans[..i], 0)
      invariant i < |spans| ==> Before(gaps, spans[i].first)
      invariant Between(gaps, Cells(spans[..i]), next)
    {
      var s := spans[i];
      assert spans[..i + 1] == spans[..i] + [s];
      Advance(spans[..i], covered, gaps, next, s);
      ExtentSnoc(next - 1, spans[..i], s);
      AdvanceBetween(gaps, Cells(spans[..i]), next, s);
      CellsSnoc(spans[..i], s);
      if s.first > next { gaps := gaps + [Span(next, s.first - 1)]; }
      covered := covered + Length(Span(if s.first > next then s.first else next, s.last));
      next := if next < s.last + 1 then s.last + 1 else next;
      BeforeNext(gaps, spans, i);
    }
    assert spans[..|spans|] == spans;
    extent := next - 1;
    GapsAreMaximal(gaps, Cells(spans), next, total);
    if next <= total {
      AddGap(spans, covered, gaps, next, total);
      gaps, extent := gaps + [Span(next, total)], total;
    }
    r := Sweep(covered, gaps);
    Finished(spans, r.covered, r.gaps, next, extent, total);
    SameExtent(extent, spans, symbols, total);
  }

  lemma SortedIsNumbered(symbols: seq<Span>, spans: seq<Span>)
    requires Numbered(symbols) && multiset(spans) == multiset(symbols)
    ensures Numbered(spans)
  {
    forall i | 0 <= i < |spans| ensures 1 <= spans[i].first <= spans[i].last { assert spans[i] in multiset(symbols); }
  }

  lemma NoCells(spans: seq<Span>)
    ensures Cells(spans[..0]) == {}
  {}

  lemma NothingSwept(spans: seq<Span>)
    ensures Swept(spans[..0], 0, [], 1) && Extent(0, spans[..0], 0) && (spans != [] ==> Before([], spans[0].first))
  {}

  lemma Finished(spans: seq<Span>, covered: nat, gaps: seq<Span>, next: int, extent: int, total: nat)
    requires Extent(next - 1, spans, 0) && Swept(spans, covered, gaps, extent + 1)
    requires extent == if next <= total then total else next - 1
    ensures Extent(extent, spans, total)
    ensures covered == |Cells(spans)| && TotalLength(gaps) == |Cells(gaps)|
    ensures Cells(spans) !! Cells(gaps) && Cells(spans) + Cells(gaps) == Lines(Span(1, extent))
  {}

  /** When every declaration ends within the file, the lines covered and the lines in gaps add up to it. */
  lemma CoverageAddsUp(symbols: seq<Span>, total: nat, gaps: seq<Span>, extent: int)
    requires Extent(extent, symbols, total) && forall i :: 0 <= i < |symbols| ==> symbols[i].last <= total
    requires Cells(symbols) !! Cells(gaps) && Cells(symbols) + Cells(gaps) == Lines(Span(1, extent))
    requires TotalLength(gaps) == |Cells(gaps)|
    ensures |Cells(symbols)| + TotalLength(gaps) == total
  {
    LinesCount(Span(1, total));
    hide Cells, Lines;
    SizeOfBoth(Cells(symbols), Cells(gaps));
  }

  // ----- What is said -----------------------------------------------------------------------------

  /** Nothing, or how much is covered and which gaps of three lines or more to read. */
  datatype Notice = Silent | Uncovered(covered: nat, listed: seq<Span>)

  predicate WorthListing(s: Span) { s.last - s.first >= 2 }

  function LongGaps(gaps: seq<Span>): seq<Span> {
    if gaps == [] then []
    else
      var earlier, last := LongGaps(gaps[..|gaps| - 1]), gaps[|gaps| - 1];
      if WorthListing(last) then earlier + [last] else earlier
  }

  lemma {:induction false} LongGapsAreGaps(gaps: seq<Span>)
    ensures forall s :: s in LongGaps(gaps) <==> s in gaps && WorthListing(s)
    ensures Ascending(gaps) ==> Ascending(LongGaps(gaps))
  {
    if gaps != [] {
      var front, last := gaps[..|gaps| - 1], gaps[|gaps| - 1];
      LongGapsAreGaps(front);
      assert gaps == front + [last];
      forall i | 0 <= i < |LongGaps(front)| && Ascending(gaps) ensures LongGaps(front)[i].last < last.first {
        assert LongGaps(front)[i] in front;
      }
    }
  }

  /** Three uncovered lines of the file, from n on, not all within the ranges listed. */
  ghost predicate LeftOut(n: int, total: int, covered: set<int>, listed: seq<Span>) {
    1 <= n && n + 2 <= total && Lines(Span(n, n + 2)) !! covered && !(Lines(Span(n, n + 2)) <= Cells(listed))
  }

  /**
   Silent exactly when at least half the file is covered. Otherwise the ranges listed are, in order,
   maximal gaps of at least three lines, and no stretch of three uncovered lines is left out unless
   twelve gaps before it are listed.
   */
  method UncoveredNotice(symbols: seq<Span>, total: nat) returns (notice: Notice)
    requires Numbered(symbols)
    ensures notice.Silent? <==> |Cells(symbols)| * 2 >= total
    ensures notice.Uncovered? ==> notice.covered == |Cells(symbols)| && |notice.listed| <= MAX_LISTED
    ensures notice.Uncovered? ==> Cells(notice.listed) !! Cells(symbols) && Ascending(notice.listed)
    ensures notice.Uncovered? ==>
              forall s :: s in notice.listed ==> s.last - s.first >= 2 && Bordered(s, Cells(symbols), total)
    ensures notice.Uncovered? ==>
              forall n :: LeftOut(n, total, Cells(symbols), notice.listed) ==>
                |notice.listed| == MAX_LISTED && notice.listed[MAX_LISTED - 1].last < n
  {
    hide Cells, Lines, Ascending, Bordered, LeftOut;
    var swept, extent := SweepSpans(symbols, total);
    if swept.covered * 2 >= total { return Silent; }
    var long := LongGaps(swept.gaps);
    LongGapsAreGaps(swept.gaps);
    var listed := if |long| <= MAX_LISTED then long else long[..MAX_LISTED];
    notice := Uncovered(swept.covered, listed);
    ListedAreGaps(swept.gaps, long, listed);
    forall n | LeftOut(n, total, Cells(symbols), listed)
      ensures |listed| == MAX_LISTED && listed[MAX_LISTED - 1].last < n
    {
      OnlyLaterAreLeftOut(symbols, swept.gaps, long, listed, extent, total, n);
    }
  }

  lemma ListedAreGaps(gaps: seq<Span>, long: seq<Span>, listed: seq<Span>)
    requires (forall s :: s in long ==> s in gaps && WorthListing(s)) && listed <= long && Ascending(long)
    ensures Cells(listed) <= Cells(gaps) && Ascending(listed) && forall s :: s in listed ==>
            s in gaps && WorthListing(s)
  {
    hide Cells;
    forall i | 0 <= i < |listed| ensures listed[i] in gaps && WorthListing(listed[i]) { assert listed[i] == long[i]; }
    forall n | n in Cells(listed) ensures n in Cells(gaps) {
      InCells(listed, n);
      InCells(gaps, n);
    }
  }

  lemma OnlyLaterAreLeftOut(symbols: seq<Span>, gaps: seq<Span>, long: seq<Span>, listed: seq<Span>, extent: int,
                            total: nat, n: int)
    requires Extent(extent, symbols, total) && LeftOut(n, total, Cells(symbols), listed)
    requires Cells(symbols) !! Cells(gaps) && Cells(symbols) + Cells(gaps) == Lines(Span(1, extent))
    requires Ascending(gaps) && forall g :: g in gaps ==> Bordered(g, Cells(symbols), total)
    requires Ascending(long) && forall s :: s in gaps && WorthListing(s) ==> s in long
    requires listed == if |long| <= MAX_LISTED then long else long[..MAX_LISTED]
    ensures |listed| == MAX_LISTED && listed[MAX_LISTED - 1].last < n
  {
    hide Cells, Bordered;
    assert forall m :: n <= m <= n + 2 ==> m in Lines(Span(1, extent)) && m in Lines(Span(n, n + 2));
    RunInOneGap(gaps, Cells(symbols), total, n);
    var k :| 0 <= k < |gaps| && gaps[k].first <= n && n + 2 <= gaps[k].last;
    assert gaps[k] in gaps && WorthListing(gaps[k]);
    var j :| 0 <= j < |long| && long[j] == gaps[k];
    ListedRun(listed, j, long, n);
  }

  /** A stretch within a listed range is listed. */
  lemma ListedRun(listed: seq<Span>, j: nat, long: seq<Span>, n: int)
    requires j < |long| && listed <= long && long[j].first <= n && n + 2 <= long[j].last
    ensures j < |listed| ==> Lines(Span(n, n + 2)) <= Cells(listed)
  {
    hide Cells;
    if j < |listed| {
      forall m | m in Lines(Span(n, n + 2)) ensures m in Cells(listed) {
        InCells(listed, m);
        assert listed[j].first <= m <= listed[j].last;
      }
    }
  }
}
