/** Finding a symbol again, by its locator or by a position, in a fresh forest of drafts. */
module Relocation {
  import opened Common
  import opened Symbols

  const MAX_AMBIGUOUS_CANDIDATES: nat := 32

  // ----- Identity ---------------------------------------------------------------------------------

  /** Semantic identity; a container absent on either side is unspecified, not different. */
  predicate SameIdentity(candidate: Locator, target: Locator) {
    && candidate.documentUri == target.documentUri && candidate.name == target.name && candidate.kind == target.kind
    && (candidate.containerName.Some? && target.containerName.Some? ==> candidate.containerName == target.containerName)
  }

  /** A symbol the locator may be speaking of: it says nothing else of it, or names no container. */
  predicate Describes(l: Locator, full: Locator) {
    && full.documentUri == l.documentUri && full.name == l.name && full.kind == l.kind
    && (l.containerName == None || l.containerName == full.containerName)
  }

  /** Two locators have one identity exactly when they may be speaking of one symbol. */
  lemma SameIdentityIff(a: Locator, b: Locator)
    ensures SameIdentity(a, b) <==> exists full :: Describes(a, full) && Describes(b, full)
  {
    if SameIdentity(a, b) {
      var full := if a.containerName.Some? then a else b;
      assert Describes(a, full) && Describes(b, full);
    }
  }

  /** The matching nodes of a forest, at every depth, with their multiplicity. */
  ghost function Matching(target: Locator, ds: seq<Draft>): multiset<Draft> {
    multiset(Filter(target, Drafts(ds)))
  }

  function Filter(target: Locator, ds: seq<Draft>): seq<Draft> {
    if ds == [] then []
    else
      var earlier := Filter(target, ds[..|ds| - 1]);
      if SameIdentity(ds[|ds| - 1].locator, target) then earlier + [ds[|ds| - 1]] else earlier
  }

  lemma {:induction false} FilterConcat(target: Locator, a: seq<Draft>, b: seq<Draft>)
    ensures Filter(target, a + b) == Filter(target, a) + Filter(target, b)
  {
    if b == [] {
      assert a + b == a;
    } else {
      assert (a + b)[..|a + b| - 1] == a + b[..|b| - 1];
      FilterConcat(target, a, b[..|b| - 1]);
    }
  }

  lemma {:induction false} FilterKeepsMatches(target: Locator, ds: seq<Draft>)
    ensures forall d :: d in Filter(target, ds) ==> d in ds && SameIdentity(d.locator, target)
    ensures forall d :: d in ds && SameIdentity(d.locator, target) ==> d in Filter(target, ds)
  {
    if ds != [] {
      FilterKeepsMatches(target, ds[..|ds| - 1]);
      assert ds == ds[..|ds| - 1] + [ds[|ds| - 1]];
    }
  }

  /** The stack walk visits every node once: it returns the matching nodes, neither more nor fewer. */
  method CollectMatches(target: Locator, drafts: seq<Draft>) returns (matches: seq<Draft>)
    ensures multiset(matches) == Matching(target, drafts)
  {
    matches := [];
    var pending := drafts;
    while pending != []
      invariant multiset(matches) + Matching(target, pending) == Matching(target, drafts)
      decreases |Drafts(pending)|
    {
      var draft, below := pending[|pending| - 1], pending[..|pending| - 1];
      assert pending == below + [draft];
      DraftsSnoc(below, draft);
      DraftsConcat(below, draft.children);
      FilterConcat(target, Drafts(below) + [draft], Drafts(draft.children));
      FilterConcat(target, Drafts(below), [draft]);
      FilterConcat(target, Drafts(below), Drafts(draft.children));
      assert [draft][..0] == [];
      if SameIdentity(draft.locator, target) { matches := matches + [draft]; }
      pending := below + draft.children;
    }
  }

  // ----- Relocation -------------------------------------------------------------------------------

  datatype Outcome = Resolved(draft: Draft) | NotFound | Ambiguous(candidates: seq<Locator>)

  function WithRange(ms: seq<Draft>, r: Range): seq<Draft> {
    if ms == [] then []
    else
      var earlier := WithRange(ms[..|ms| - 1], r);
      if ms[|ms| - 1].locator.selectionRange == r then earlier + [ms[|ms| - 1]] else earlier
  }

  function Locators(ms: seq<Draft>): (r: seq<Locator>)
    ensures |r| == |ms| && forall i :: 0 <= i < |r| ==> r[i] == ms[i].locator
  {
    seq(|ms|, i requires 0 <= i < |ms| => ms[i].locator)
  }

  /** The only match, or the only one of several that still carries the original selection range. */
  ghost predicate Decisive(target: Locator, ms: multiset<Draft>, d: Draft) {
    || ms == multiset{d}
    || (d.locator.selectionRange == target.selectionRange && ms[d] == 1
        && forall e :: e in ms && e.locator.selectionRange == target.selectionRange ==> e == d)
  }

  lemma {:induction false} WithRangeCounts(ms: seq<Draft>, r: Range)
    ensures forall d :: multiset(WithRange(ms, r))[d] == if d.locator.selectionRange == r then multiset(ms)[d] else 0
  {
    if ms != [] {
      WithRangeCounts(ms[..|ms| - 1], r);
      assert ms == ms[..|ms| - 1] + [ms[|ms| - 1]];
    }
  }

  lemma OneOfItsRange(ms: seq<Draft>, target: Locator, d: Draft)
    requires |ms| >= 2 && Decisive(target, multiset(ms), d)
    ensures |WithRange(ms, target.selectionRange)| == 1
  {
    var exact := WithRange(ms, target.selectionRange);
    WithRangeCounts(ms, target.selectionRange);
    assert |multiset(ms)| == |ms|;
    assert multiset(exact) == multiset{d};
    assert |multiset(exact)| == |exact|;
  }

  ghost predicate Reports(target: Locator, ms: multiset<Draft>, outcome: Outcome) {
    && (outcome.NotFound? <==> ms == multiset{})
    && (outcome.Resolved? <==> exists d :: d in ms && Decisive(target, ms, d))
    && (outcome.Resolved? ==> outcome.draft in ms && Decisive(target, ms, outcome.draft))
    && (outcome.Ambiguous? ==>
          && 2 <= |outcome.candidates| <= MAX_AMBIGUOUS_CANDIDATES
          && (|outcome.candidates| == |ms| || |outcome.candidates| == MAX_AMBIGUOUS_CANDIDATES)
          && exists chosen: seq<Draft> :: multiset(chosen) <= ms && Locators(chosen) == outcome.candidates)
  }

  /**
   Not found exactly when nothing matches, resolved exactly when one match is decisive, and otherwise
   at least two and at most 32 genuine matches are reported.
   */
  method RelocateSymbol(target: Locator, drafts: seq<Draft>) returns (outcome: Outcome)
    ensures Reports(target, Matching(target, drafts), outcome)
  {
    hide Matching, Reports;
    var matches := CollectMatches(target, drafts);
    outcome := Choose(target, matches);
  }

  method Choose(target: Locator, matches: seq<Draft>) returns (outcome: Outcome)
    ensures Reports(target, multiset(matches), outcome)
  {
    assert |matches| == |multiset(matches)|;
    if |matches| == 0 { return NotFound; }
    if |matches| == 1 {
      assert matches == [matches[0]];
      assert matches[0] in multiset(matches);
      return Resolved(matches[0]);
    }
    var exact := WithRange(matches, target.selectionRange);
    WithRangeCounts(matches, target.selectionRange);
    if |exact| == 1 {
      assert exact == [exact[0]];
      assert forall d :: multiset(exact)[d] == if d == exact[0] then 1 else 0;
      assert Decisive(target, multiset(matches), exact[0]);
      return Resolved(exact[0]);
    }
    outcome := TooMany(target, matches);
  }

  method TooMany(target: Locator, matches: seq<Draft>) returns (outcome: Outcome)
    requires |matches| >= 2 && |WithRange(matches, target.selectionRange)| != 1
    ensures Reports(target, multiset(matches), outcome)
  {
    assert |matches| == |multiset(matches)|;
    forall d | d in multiset(matches) ensures !Decisive(target, multiset(matches), d) {
      if Decisive(target, multiset(matches), d) { OneOfItsRange(matches, target, d); }
    }
    var reported := if |matches| < MAX_AMBIGUOUS_CANDIDATES then matches else matches[..MAX_AMBIGUOUS_CANDIDATES];
    outcome := Ambiguous(Locators(reported));
    assert matches == reported + matches[|reported|..];
    assert multiset(reported) <= multiset(matches) && Locators(reported) == outcome.candidates;
  }

  /** A locator minted from this forest resolves, if it does, only to a symbol with its own range. */
  lemma OwnLocatorResolvesToItself(ds: seq<Draft>, minted: Draft, d: Draft)
    requires minted in Drafts(ds)
    requires d in Matching(minted.locator, ds) && Decisive(minted.locator, Matching(minted.locator, ds), d)
    ensures d.locator.selectionRange == minted.locator.selectionRange
  {
    FilterKeepsMatches(minted.locator, Drafts(ds));
    assert minted in Matching(minted.locator, ds);
  }

  // ----- Finding by position ----------------------------------------------------------------------

  predicate RangeContains(r: Range, p: Position) { ComparePosition(r.start, p) <= 0 && ComparePosition(p, r.end) <= 0 }

  function FindAt(ds: seq<Draft>, p: Position): Option<Draft> {
    if ds == [] then None
    else if !RangeContains(ds[0].range, p) then FindAt(ds[1..], p)
    else match FindAt(ds[0].children, p) case Some(d) => Some(d) case None => Some(ds[0])
  }

  /** The lines and columns of a closed range. */
  lemma RangeContainsIff(r: Range, p: Position)
    ensures RangeContains(r, p) <==>
      && (r.start.line < p.line || (r.start.line == p.line && r.start.character <= p.character))
      && (p.line < r.end.line || (p.line == r.end.line && p.character <= r.end.character))
  {}

  ghost predicate NoneContains(ds: seq<Draft>, p: Position) {
    forall i :: 0 <= i < |ds| ==> !RangeContains(ds[i].range, p)
  }

  /** The first of the siblings that contains the position. */
  ghost predicate FirstAt(ds: seq<Draft>, p: Position, i: nat) {
    i < |ds| && RangeContains(ds[i].range, p) && NoneContains(ds[..i], p)
  }

  /** Going down from the first of the siblings that contains the position, `d` is where no child does. */
  ghost predicate FirstDown(ds: seq<Draft>, p: Position, d: Draft)
    decreases ds
  {
    exists i: nat :: FirstAt(ds, p, i)
                     && if NoneContains(ds[i].children, p) then d == ds[i] else FirstDown(ds[i].children, p, d)
  }

  /** On any forest, overlapping or not, exactly that symbol is found. */
  lemma {:induction false} FoundIff(ds: seq<Draft>, p: Position, d: Draft)
    ensures FindAt(ds, p) == Some(d) <==> FirstDown(ds, p, d)
    decreases ds
  {
    hide RangeContains, FindAt;
    FoundIsInnermost(ds, p);
    if !NoneContains(ds, p) {
      var i := FirstContaining(ds, p);
      OnlyOneIsFirst(ds, p, i);
      FoundUnderFirst(ds, p, i);
      FoundIsInnermost(ds[i].children, p);
      FoundIff(ds[i].children, p, d);
    } else {
      NoneIsFirst(ds, p);
    }
  }

  lemma FirstContaining(ds: seq<Draft>, p: Position) returns (i: nat)
    requires !NoneContains(ds, p)
    ensures FirstAt(ds, p, i)
  {
    hide RangeContains;
    i := 0;
    while !RangeContains(ds[i].range, p)
      invariant i < |ds| && NoneContains(ds[..i], p)
      decreases |ds| - i
    {
      i := i + 1;
    }
  }

  lemma OnlyOneIsFirst(ds: seq<Draft>, p: Position, i: nat)
    requires FirstAt(ds, p, i)
    ensures forall j: nat :: FirstAt(ds, p, j) ==> j == i
  {
    hide RangeContains;
    forall j: nat | FirstAt(ds, p, j) ensures j == i {
      if j < i { NotBefore(ds, p, i, j); } else if i < j { NotBefore(ds, p, j, i); }
    }
  }

  lemma NotBefore(ds: seq<Draft>, p: Position, i: nat, j: nat)
    requires FirstAt(ds, p, i) && j < i
    ensures !RangeContains(ds[j].range, p)
  {
    hide RangeContains;
    assert ds[..i][j] == ds[j];
  }

  lemma NoneIsFirst(ds: seq<Draft>, p: Position)
    requires NoneContains(ds, p)
    ensures forall i: nat :: !FirstAt(ds, p, i)
  {
    hide RangeContains;
  }

  lemma {:induction false} FoundUnderFirst(ds: seq<Draft>, p: Position, i: nat)
    requires FirstAt(ds, p, i)
    ensures
      var below := FindAt(ds[i].children, p);
      FindAt(ds, p) == if below.Some? then below else Some(ds[i])
  {
    hide RangeContains;
    if i > 0 {
      assert ds[..i][0] == ds[0];
      assert ds[1..][..i - 1] == ds[..i][1..];
      FoundUnderFirst(ds[1..], p, i - 1);
    }
  }

  method FindSymbolAtPosition(drafts: seq<Draft>, p: Position) returns (found: Option<Draft>)
    ensures found == FindAt(drafts, p)
    decreases drafts
  {
    found := None;
    for i := 0 to |drafts|
      invariant found == None && FindAt(drafts, p) == FindAt(drafts[i..], p)
    {
      assert drafts[i..][0] == drafts[i] && drafts[i..][1..] == drafts[i + 1..];
      if !RangeContains(drafts[i].range, p) { continue; }
      var inner := FindSymbolAtPosition(drafts[i].children, p);
      found := if inner.Some? then inner else Some(drafts[i]);
      return found;
    }
  }

  /** Closed ranges with no position in common. */
  predicate Apart(a: Range, b: Range) { ComparePosition(a.end, b.start) < 0 || ComparePosition(b.end, a.start) < 0 }

  /** Siblings share no position, and children lie within their parent, at every depth. */
  ghost predicate Laminar(ds: seq<Draft>)
    decreases ds
  {
    && (forall i, j :: 0 <= i < j < |ds| ==> Apart(ds[i].range, ds[j].range))
    && (forall i :: 0 <= i < |ds| ==>
          && (forall j :: 0 <= j < |ds[i].children| ==> ContainsRange(ds[i].range, ds[i].children[j].range))
          && Laminar(ds[i].children))
  }

  ghost predicate AtOrBelow(d: Draft, e: Draft) { d == e || d in Drafts(e.children) }

  /** Whatever the forest, the symbol found contains the position and none of its children does. */
  lemma {:induction false} FoundIsInnermost(ds: seq<Draft>, p: Position)
    ensures FindAt(ds, p).Some? ==>
      var d := FindAt(ds, p).value;
      d in Drafts(ds) && RangeContains(d.range, p) && forall i :: 0 <= i < |d.children| ==>
        !RangeContains(d.children[i].range, p)
    ensures FindAt(ds, p).None? <==> forall i :: 0 <= i < |ds| ==> !RangeContains(ds[i].range, p)
  {
    if ds != [] {
      FoundIsInnermost(ds[0].children, p);
      FoundIsInnermost(ds[1..], p);
      assert RangeContains(ds[0].range, p) || forall i :: 0 < i < |ds| ==> ds[i] == ds[1..][i - 1];
    }
  }

  lemma {:induction false} NodesLieWithin(ds: seq<Draft>, e: Draft, p: Position)
    requires Laminar(ds) && e in Drafts(ds) && RangeContains(e.range, p)
    ensures exists i :: 0 <= i < |ds| && RangeContains(ds[i].range, p) && AtOrBelow(e, ds[i])
    decreases ds
  {
    hide Apart;
    if e == ds[0] {
    } else if e in Drafts(ds[0].children) {
      NodesLieWithin(ds[0].children, e, p);
      var i :| 0 <= i < |ds[0].children| && RangeContains(ds[0].children[i].range, p)
        && AtOrBelow(e, ds[0].children[i]);
      assert ContainsRange(ds[0].range, ds[0].children[i].range);
    } else {
      TailIsLaminar(ds);
      NodesLieWithin(ds[1..], e, p);
      var i :| 0 <= i < |ds[1..]| && RangeContains(ds[1..][i].range, p) && AtOrBelow(e, ds[1..][i]);
      assert ds[1..][i] == ds[i + 1];
    }
  }

  lemma TailIsLaminar(ds: seq<Draft>)
    requires Laminar(ds) && ds != []
    ensures Laminar(ds[1..])
  {}

  /**
   In a laminar forest the search misses nothing: it finds a symbol exactly when some node contains
   the position, and the one it finds lies at or below every node that does.
   */
  lemma {:induction false} FoundIsDeepest(ds: seq<Draft>, p: Position)
    requires Laminar(ds)
    ensures FindAt(ds, p).None? <==> forall e :: e in Drafts(ds) ==> !RangeContains(e.range, p)
    ensures FindAt(ds, p).Some? ==> forall e :: e in Drafts(ds) && RangeContains(e.range, p) ==>
            AtOrBelow(FindAt(ds, p).value, e)
    decreases ds
  {
    FoundIsInnermost(ds, p);
    forall e | e in Drafts(ds) && RangeContains(e.range, p)
      ensures FindAt(ds, p).Some? && AtOrBelow(FindAt(ds, p).value, e)
    {
      if RangeContains(ds[0].range, p) {
        OnlyFirstContains(ds, e, p);
        FoundIsInnermost(ds[0].children, p);
        FoundIsDeepest(ds[0].children, p);
      } else {
        TailIsLaminar(ds);
        FoundIsDeepest(ds[1..], p);
        NotUnderFirst(ds, e, p);
      }
    }
  }

  lemma OnlyFirstContains(ds: seq<Draft>, e: Draft, p: Position)
    requires Laminar(ds) && e in Drafts(ds) && RangeContains(e.range, p) && RangeContains(ds[0].range, p)
    ensures AtOrBelow(e, ds[0])
  {
    NodesLieWithin(ds, e, p);
    var i :| 0 <= i < |ds| && RangeContains(ds[i].range, p) && AtOrBelow(e, ds[i]);
    assert i > 0 ==> Apart(ds[0].range, ds[i].range);
  }

  lemma AncestorContains(d: Draft, e: Draft, p: Position)
    requires Laminar([d]) && e in Drafts(d.children) && RangeContains(e.range, p)
    ensures RangeContains(d.range, p)
  {
    assert [d][0] == d;
    NodesLieWithin(d.children, e, p);
    var i :| 0 <= i < |d.children| && RangeContains(d.children[i].range, p);
    assert ContainsRange(d.range, d.children[i].range);
  }

  lemma NotUnderFirst(ds: seq<Draft>, e: Draft, p: Position)
    requires Laminar(ds) && e in Drafts(ds) && RangeContains(e.range, p) && !RangeContains(ds[0].range, p)
    ensures e in Drafts(ds[1..])
  {
    if e in Drafts(ds[0].children) { AncestorContains(ds[0], e, p); }
  }
}
