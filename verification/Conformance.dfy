/** The rules every adapter's symbol responses are judged by, and their declarative reading. */
module Conformance {
  import opened Common
  import opened Symbols
  import opened Registry
  import SymbolMapper
  import WorkspaceUri

  datatype Workspace = Workspace(workspaceId: string, workspaceEpoch: int, roots: seq<string>,
                                 platform: WorkspaceUri.Platform)

  /** The identity a response is bound to, and the document it answers for. */
  datatype Subject = Subject(workspace: Workspace, adapterId: string, sessionId: string, requestedUri: string)

  datatype DocumentReference = DocumentReference(uri: string, workspaceId: string, workspaceEpoch: int)

  // ----- Geometry and scope -----------------------------------------------------------------------

  predicate WellFormed(r: Range) {
    r.start.line < r.end.line || (r.start.line == r.end.line && r.start.character <= r.end.character)
  }

  predicate Contains(outer: Range, inner: Range) {
    var startsBefore := outer.start.line < inner.start.line
                        || (outer.start.line == inner.start.line && outer.start.character <= inner.start.character);
    var endsAfter := inner.end.line < outer.end.line
                     || (inner.end.line == outer.end.line && inner.end.character <= outer.end.character);
    startsBefore && endsAfter
  }

  /** The checker's geometry and the mapper's agree. */
  lemma GeometryAgrees(a: Range, b: Range)
    ensures WellFormed(a) <==> ComparePosition(a.start, a.end) <= 0
    ensures Contains(a, b) <==> ContainsRange(a, b)
  {}

  predicate WithinAnyRoot(uri: string, w: Workspace) {
    exists i :: 0 <= i < |w.roots| && WorkspaceUri.IsUriWithinWorkspaceRoot(w.platform, uri, w.roots[i])
  }

  // ----- The rules a symbol can break, in the order they are reported -----------------------------

  function Rule(broken: bool, rule: string): seq<string> { if broken then [rule] else [] }

  function BindingRules(s: Symbol, subject: Subject, seen: set<string>): seq<string> {
    Rule(s.handle.adapterId != subject.adapterId, "handle.bound-to-adapter")
    + Rule(s.handle.sessionId != subject.sessionId, "handle.bound-to-session")
    + Rule(s.handle.validUntilEpoch != subject.workspace.workspaceEpoch, "handle.bound-to-epoch")
    + Rule(s.handle.id in seen, "handle.unique-in-response")
  }

  function GeometryRules(s: Symbol): seq<string> {
    Rule(!WellFormed(s.range), "range.well-formed")
    + Rule(!WellFormed(s.locator.selectionRange), "selection-range.well-formed")
    + Rule(!Contains(s.range, s.locator.selectionRange), "selection-range.within-declaration")
  }

  function DocumentRules(s: Symbol, subject: Subject, seen: set<string>): seq<string> {
    BindingRules(s, subject, seen) + GeometryRules(s)
    + Rule(s.locator.documentUri != subject.requestedUri, "locator.same-document")
    + Rule(!WithinAnyRoot(s.locator.documentUri, subject.workspace), "locator.within-a-root")
    + Rule(SymbolMapper.Blank(s.locator.name), "locator.named")
  }

  function SearchRules(s: Symbol, subject: Subject, seen: set<string>): seq<string> {
    BindingRules(s, subject, seen)
    + Rule(|s.children| > 0, "search.hits-are-flat")
    + Rule(!WithinAnyRoot(s.locator.documentUri, subject.workspace), "locator.within-a-root")
    + Rule(SymbolMapper.Blank(s.locator.name), "locator.named")
    + GeometryRules(s)
  }

  function HeaderRules(d: DocumentReference, subject: Subject): seq<string> {
    Rule(d.uri != subject.requestedUri, "document.matches-request")
    + Rule(d.workspaceId != subject.workspace.workspaceId, "document.belongs-to-workspace")
    + Rule(d.workspaceEpoch != subject.workspace.workspaceEpoch, "document.current-epoch")
  }

  /** The recursive walk: what it reports, and the handles it has seen. */
  function Walk(ss: seq<Symbol>, subject: Subject, seen: set<string>): (seq<string>, set<string>) {
    if ss == [] then ([], seen)
    else
      var below := Walk(ss[0].children, subject, seen + {ss[0].handle.id});
      var after := Walk(ss[1..], subject, below.1);
      (DocumentRules(ss[0], subject, seen) + below.0 + after.0, after.1)
  }

  function WalkHits(ss: seq<Symbol>, subject: Subject, seen: set<string>): seq<string> {
    if ss == [] then []
    else SearchRules(ss[0], subject, seen) + WalkHits(ss[1..], subject, seen + {ss[0].handle.id})
  }

  // ----- The checks as the source runs them -------------------------------------------------------

  class SymbolChecker {
    const subject: Subject
    var violations: seq<string>
    var seenHandles: set<string>

    constructor (subject: Subject)
      ensures this.subject == subject && violations == [] && seenHandles == {}
    {
      this.subject, violations, seenHandles := subject, [], {};
    }

    method WalkAll(symbols: seq<Symbol>)
      modifies this
      ensures var r := Walk(symbols, subject, old(seenHandles));
        violations == old(violations) + r.0 && seenHandles == r.1
      decreases symbols
    {
      hide DocumentRules;
      for i := 0 to |symbols|
        invariant var whole, rest := Walk(symbols, subject, old(seenHandles)), Walk(symbols[i..], subject, seenHandles);
          old(violations) + whole.0 == violations + rest.0 && whole.1 == rest.1
      {
        var symbol := symbols[i];
        assert symbols[i..][0] == symbol && symbols[i..][1..] == symbols[i + 1..];
        ghost var v0, below := violations, Walk(symbol.children, subject, seenHandles + {symbol.handle.id});
        ghost var after := Walk(symbols[i + 1..], subject, below.1).0;
        var broken := DocumentRules(symbol, subject, seenHandles);
        violations := violations + broken;
        seenHandles := seenHandles + {symbol.handle.id};
        WalkAll(symbol.children);
        assert violations + after == v0 + (broken + below.0 + after);
      }
    }

    method CheckDocumentSymbols(document: DocumentReference, symbols: seq<Symbol>)
      requires violations == [] && seenHandles == {}
      modifies this
      ensures violations == HeaderRules(document, subject) + Walk(symbols, subject, {}).0
    {
      hide HeaderRules, DocumentRules;
      violations := violations + HeaderRules(document, subject);
      WalkAll(symbols);
    }

    method CheckSearchSymbols(symbols: seq<Symbol>, limit: int)
      requires violations == [] && seenHandles == {}
      modifies this
      ensures violations == WalkHits(symbols, subject, {}) + Rule(|symbols| > limit, "search.within-requested-limit")
    {
      hide SearchRules;
      for i := 0 to |symbols|
        invariant WalkHits(symbols, subject, {}) == violations + WalkHits(symbols[i..], subject, seenHandles)
      {
        var symbol := symbols[i];
        assert symbols[i..][0] == symbol && symbols[i..][1..] == symbols[i + 1..];
        violations := violations + SearchRules(symbol, subject, seenHandles);
        seenHandles := seenHandles + {symbol.handle.id};
      }
      violations := violations + Rule(|symbols| > limit, "search.within-requested-limit");
    }
  }

  // ----- What a clean report means ----------------------------------------------------------------

  ghost predicate Bound(s: Symbol, subject: Subject) {
    s.handle.adapterId == subject.adapterId && s.handle.sessionId == subject.sessionId
    && s.handle.validUntilEpoch == subject.workspace.workspaceEpoch
  }

  ghost predicate Sound(s: Symbol, subject: Subject) {
    && Bound(s, subject) && WellFormed(s.range) && WellFormed(s.locator.selectionRange)
    && Contains(s.range, s.locator.selectionRange)
    && WithinAnyRoot(s.locator.documentUri, subject.workspace) && !SymbolMapper.Blank(s.locator.name)
  }

  ghost predicate AllSound(ns: seq<Symbol>, subject: Subject, uri: Option<string>) {
    forall i :: 0 <= i < |ns| ==> Sound(ns[i], subject) && (uri.Some? ==> ns[i].locator.documentUri == uri.value)
  }

  lemma NodeRulesEmptyIff(s: Symbol, subject: Subject, seen: set<string>)
    ensures DocumentRules(s, subject, seen) == [] <==>
      Sound(s, subject) && s.locator.documentUri == subject.requestedUri && s.handle.id !in seen
    ensures SearchRules(s, subject, seen) == [] <==> Sound(s, subject) && s.children == [] && s.handle.id !in seen
  {}

  /**
   The walk over a document's tree reports nothing exactly when every node at every depth is sound
   and no handle appears twice, and it has then seen exactly the handles of the tree.
   */
  lemma {:induction false} WalkIsCleanIff(ss: seq<Symbol>, subject: Subject, seen: set<string>)
    ensures Walk(ss, subject, seen).0 == [] <==>
      AllSound(Nodes(ss), subject, Some(subject.requestedUri)) && DistinctIds(Nodes(ss)) && HandleIds(Nodes(ss)) !! seen
    ensures Walk(ss, subject, seen).1 == seen + HandleIds(Nodes(ss))
  {
    hide Sound, DocumentRules, AllSound, DistinctIds, HandleIds;
    if ss != [] {
      var id := ss[0].handle.id;
      var a, b, c := [ss[0]], Nodes(ss[0].children), Nodes(ss[1..]);
      WalkIsCleanIff(ss[0].children, subject, seen + {id});
      WalkIsCleanIff(ss[1..], subject, seen + {id} + HandleIds(b));
      NodeRulesEmptyIff(ss[0], subject, seen);
      OneHandle(ss[0]);
      OneSymbol(ss[0], subject);
      IdsConcat(a, b);
      IdsConcat(a + b, c);
      DistinctSplits(a, b);
      DistinctSplits(a + b, c);
      SoundSplits(a, b, subject, Some(subject.requestedUri));
      SoundSplits(a + b, c, subject, Some(subject.requestedUri));
      assert seen + {id} + HandleIds(b) + HandleIds(c) == seen + HandleIds(a + b + c);
    } else {
      EmptyIsClean(subject);
      assert seen + HandleIds([]) == seen;
    }
  }

  lemma EmptyIsClean(subject: Subject)
    ensures HandleIds([]) == {} && DistinctIds([])
    ensures AllSound([], subject, Some(subject.requestedUri)) && AllFlat([], subject)
  {}

  lemma DistinctSplits(a: seq<Symbol>, b: seq<Symbol>)
    ensures DistinctIds(a + b) <==> DistinctIds(a) && DistinctIds(b) && HandleIds(a) !! HandleIds(b)
  {
    var c := a + b;
    if DistinctIds(c) {
      forall i, j | 0 <= i < j < |a| ensures a[i].handle.id != a[j].handle.id { assert a[i] == c[i] && a[j] == c[j]; }
      forall i, j | 0 <= i < j < |b| ensures b[i].handle.id != b[j].handle.id {
        assert b[i] == c[|a| + i] && b[j] == c[|a| + j];
      }
      forall x | x in HandleIds(a) ensures x !in HandleIds(b) {
        var i :| 0 <= i < |a| && a[i].handle.id == x;
        forall j | 0 <= j < |b| ensures b[j].handle.id != x { assert a[i] == c[i] && b[j] == c[|a| + j]; }
      }
    }
    IdsConcat(a, b);
  }

  lemma SoundSplits(a: seq<Symbol>, b: seq<Symbol>, subject: Subject, uri: Option<string>)
    ensures AllSound(a + b, subject, uri) <==> AllSound(a, subject, uri) && AllSound(b, subject, uri)
  {
    hide Sound;
    var c := a + b;
    if AllSound(c, subject, uri) {
      forall i | 0 <= i < |a| ensures Sound(a[i], subject) && (uri.Some? ==> a[i].locator.documentUri == uri.value) {
        assert a[i] == c[i];
      }
      forall i | 0 <= i < |b| ensures Sound(b[i], subject) && (uri.Some? ==> b[i].locator.documentUri == uri.value) {
        assert b[i] == c[|a| + i];
      }
    }
  }

  lemma OneHandle(s: Symbol)
    ensures HandleIds([s]) == {s.handle.id} && DistinctIds([s])
  {
    assert [s][0] == s;
  }

  lemma OneSymbol(s: Symbol, subject: Subject)
    ensures AllSound([s], subject, Some(subject.requestedUri)) <==>
            Sound(s, subject) && s.locator.documentUri == subject.requestedUri
  {
    hide Sound;
    assert [s][0] == s;
  }

  ghost predicate AllFlat(ss: seq<Symbol>, subject: Subject) {
    forall i :: 0 <= i < |ss| ==> Sound(ss[i], subject) && ss[i].children == []
  }

  lemma AllFlatSplits(ss: seq<Symbol>, subject: Subject)
    requires ss != []
    ensures AllFlat(ss, subject) <==> Sound(ss[0], subject) && ss[0].children == [] && AllFlat(ss[1..], subject)
  {
    hide Sound;
    if AllFlat(ss, subject) {
      forall i | 0 <= i < |ss[1..]| ensures Sound(ss[1..][i], subject) && ss[1..][i].children == [] {
        assert ss[1..][i] == ss[i + 1];
      }
    }
  }

  lemma HandlesSplit(ss: seq<Symbol>)
    requires ss != []
    ensures HandleIds(ss) == {ss[0].handle.id} + HandleIds(ss[1..])
    ensures DistinctIds(ss) <==> DistinctIds(ss[1..]) && ss[0].handle.id !in HandleIds(ss[1..])
  {
    hide DistinctIds, HandleIds;
    assert ss == [ss[0]] + ss[1..];
    OneHandle(ss[0]);
    IdsConcat([ss[0]], ss[1..]);
    DistinctSplits([ss[0]], ss[1..]);
  }

  /** A search response reports nothing exactly when its hits are sound, flat and distinct. */
  lemma {:induction false} HitsAreCleanIff(ss: seq<Symbol>, subject: Subject, seen: set<string>)
    ensures WalkHits(ss, subject, seen) == [] <==> AllFlat(ss, subject) && DistinctIds(ss) && HandleIds(ss) !! seen
  {
    hide Sound, SearchRules, DistinctIds, HandleIds, AllFlat;
    if ss != [] {
      HitsAreCleanIff(ss[1..], subject, seen + {ss[0].handle.id});
      NodeRulesEmptyIff(ss[0], subject, seen);
      HandlesSplit(ss);
      AllFlatSplits(ss, subject);
    } else {
      EmptyIsClean(subject);
    }
  }

  // ----- Which rules are reported -----------------------------------------------------------------

  /** The symbol breaks the rule of that name, when the handles in `seen` came before it. */
  predicate Breaks(s: Symbol, subject: Subject, seen: set<string>, rule: string) {
    || (rule == "handle.bound-to-adapter" && s.handle.adapterId != subject.adapterId)
    || (rule == "handle.bound-to-session" && s.handle.sessionId != subject.sessionId)
    || (rule == "handle.bound-to-epoch" && s.handle.validUntilEpoch != subject.workspace.workspaceEpoch)
    || (rule == "handle.unique-in-response" && s.handle.id in seen)
    || (rule == "range.well-formed" && !WellFormed(s.range))
    || (rule == "selection-range.well-formed" && !WellFormed(s.locator.selectionRange))
    || (rule == "selection-range.within-declaration" && !Contains(s.range, s.locator.selectionRange))
    || (rule == "locator.within-a-root" && !WithinAnyRoot(s.locator.documentUri, subject.workspace))
    || (rule == "locator.named" && SymbolMapper.Blank(s.locator.name))
  }

  predicate BreaksInDocument(s: Symbol, subject: Subject, seen: set<string>, rule: string) {
    Breaks(s, subject, seen, rule) || (rule == "locator.same-document" && s.locator.documentUri != subject.requestedUri)
  }

  predicate BreaksInSearch(s: Symbol, subject: Subject, seen: set<string>, rule: string) {
    Breaks(s, subject, seen, rule) || (rule == "search.hits-are-flat" && s.children != [])
  }

  lemma NodeReports(s: Symbol, subject: Subject, seen: set<string>, rule: string)
    ensures rule in DocumentRules(s, subject, seen) <==> BreaksInDocument(s, subject, seen, rule)
    ensures rule in SearchRules(s, subject, seen) <==> BreaksInSearch(s, subject, seen, rule)
  {
    hide BindingRules, GeometryRules, WellFormed, Contains, WithinAnyRoot, SymbolMapper.Blank;
    BindingReports(s, subject, seen, rule);
    GeometryReports(s, rule);
  }

  lemma BindingReports(s: Symbol, subject: Subject, seen: set<string>, rule: string)
    ensures rule in BindingRules(s, subject, seen) <==>
      || (rule == "handle.bound-to-adapter" && s.handle.adapterId != subject.adapterId)
      || (rule == "handle.bound-to-session" && s.handle.sessionId != subject.sessionId)
      || (rule == "handle.bound-to-epoch" && s.handle.validUntilEpoch != subject.workspace.workspaceEpoch)
      || (rule == "handle.unique-in-response" && s.handle.id in seen)
  {}

  lemma GeometryReports(s: Symbol, rule: string)
    ensures rule in GeometryRules(s) <==>
      || (rule == "range.well-formed" && !WellFormed(s.range))
      || (rule == "selection-range.well-formed" && !WellFormed(s.locator.selectionRange))
      || (rule == "selection-range.within-declaration" && !Contains(s.range, s.locator.selectionRange))
  {
    hide WellFormed, Contains;
  }

  /** Some node, among those before it, breaks the rule in a document's response. */
  ghost predicate BrokenInTree(ns: seq<Symbol>, subject: Subject, seen: set<string>, rule: string) {
    exists i :: 0 <= i < |ns| && BreaksInDocument(ns[i], subject, seen + HandleIds(ns[..i]), rule)
  }

  lemma BrokenInTreeSplits(a: seq<Symbol>, b: seq<Symbol>, subject: Subject, seen: set<string>, rule: string)
    ensures BrokenInTree(a + b, subject, seen, rule) <==>
              BrokenInTree(a, subject, seen, rule) || BrokenInTree(b, subject, seen + HandleIds(a), rule)
  {
    hide BreaksInDocument, HandleIds;
    var c := a + b;
    forall i | 0 <= i < |a| ensures c[i] == a[i] && c[..i] == a[..i] {}
    forall i | 0 <= i < |b|
      ensures c[|a| + i] == b[i] && seen + HandleIds(c[..|a| + i]) == seen + HandleIds(a) + HandleIds(b[..i])
    {
      assert c[..|a| + i] == a + b[..i];
      IdsConcat(a, b[..i]);
    }
    if i :| 0 <= i < |c| && BreaksInDocument(c[i], subject, seen + HandleIds(c[..i]), rule) {
      if i >= |a| { assert c[|a| + (i - |a|)] == b[i - |a|]; }
    }
    if i :| 0 <= i < |b| && BreaksInDocument(b[i], subject, seen + HandleIds(a) + HandleIds(b[..i]), rule) {
      assert BreaksInDocument(c[|a| + i], subject, seen + HandleIds(c[..|a| + i]), rule);
    }
  }

  lemma OneNodeBroken(s: Symbol, subject: Subject, seen: set<string>, rule: string)
    ensures BrokenInTree([s], subject, seen, rule) <==> BreaksInDocument(s, subject, seen, rule)
  {
    hide BreaksInDocument;
    assert [s][..0] == [] && seen + HandleIds([]) == seen && [s][0] == s;
  }

  /** A rule is reported of a tree exactly when some node, at any depth, breaks it. */
  lemma {:induction false} WalkReportsIff(ss: seq<Symbol>, subject: Subject, seen: set<string>, rule: string)
    ensures rule in Walk(ss, subject, seen).0 <==> BrokenInTree(Nodes(ss), subject, seen, rule)
  {
    hide DocumentRules, BreaksInDocument, BrokenInTree, HandleIds;
    if ss != [] {
      var id := ss[0].handle.id;
      var a, b, c := [ss[0]], Nodes(ss[0].children), Nodes(ss[1..]);
      WalkIsCleanIff(ss[0].children, subject, seen + {id});
      WalkReportsIff(ss[0].children, subject, seen + {id}, rule);
      WalkReportsIff(ss[1..], subject, seen + {id} + HandleIds(b), rule);
      NodeReports(ss[0], subject, seen, rule);
      OneNodeBroken(ss[0], subject, seen, rule);
      OneHandle(ss[0]);
      BrokenInTreeSplits(a, b, subject, seen, rule);
      BrokenInTreeSplits(a + b, c, subject, seen, rule);
      IdsConcat(a, b);
      assert seen + HandleIds(a + b) == seen + {id} + HandleIds(b);
    } else {
      NothingBroken(subject, seen, rule);
    }
  }

  lemma NothingBroken(subject: Subject, seen: set<string>, rule: string)
    ensures !BrokenInTree([], subject, seen, rule) && !BrokenInHits([], subject, seen, rule)
  {}

  ghost predicate BrokenInHits(ss: seq<Symbol>, subject: Subject, seen: set<string>, rule: string) {
    exists i :: 0 <= i < |ss| && BreaksInSearch(ss[i], subject, seen + HandleIds(ss[..i]), rule)
  }

  lemma BrokenInHitsCons(s: Symbol, rest: seq<Symbol>, subject: Subject, seen: set<string>, rule: string)
    ensures BrokenInHits([s] + rest, subject, seen, rule) <==>
              BreaksInSearch(s, subject, seen, rule) || BrokenInHits(rest, subject, seen + {s.handle.id}, rule)
  {
    hide BreaksInSearch, HandleIds;
    var ss, later := [s] + rest, seen + {s.handle.id};
    EmptyIsClean(subject);
    assert ss[..0] == [] && seen + HandleIds(ss[..0]) == seen;
    forall i | 0 <= i < |rest|
      ensures rest[i] == ss[i + 1] && seen + HandleIds(ss[..i + 1]) == later + HandleIds(rest[..i])
    {
      assert ss[..i + 1] == [s] + rest[..i];
      OneHandle(s);
      IdsConcat([s], rest[..i]);
    }
    if i :| 0 <= i < |rest| && BreaksInSearch(rest[i], subject, later + HandleIds(rest[..i]), rule) {
      assert BreaksInSearch(ss[i + 1], subject, seen + HandleIds(ss[..i + 1]), rule);
    }
    if i :| 0 <= i < |ss| && BreaksInSearch(ss[i], subject, seen + HandleIds(ss[..i]), rule) {
      if i > 0 { assert rest[i - 1] == ss[i - 1 + 1]; }
    }
  }

  /** A rule is reported of a search exactly when some hit breaks it. */
  lemma {:induction false} HitsReportIff(ss: seq<Symbol>, subject: Subject, seen: set<string>, rule: string)
    ensures rule in WalkHits(ss, subject, seen) <==> BrokenInHits(ss, subject, seen, rule)
  {
    hide SearchRules, BreaksInSearch, HandleIds, BrokenInHits;
    if ss != [] {
      assert ss == [ss[0]] + ss[1..];
      HitsReportIff(ss[1..], subject, seen + {ss[0].handle.id}, rule);
      NodeReports(ss[0], subject, seen, rule);
      BrokenInHitsCons(ss[0], ss[1..], subject, seen, rule);
    } else {
      NothingBroken(subject, seen, rule);
    }
  }

  /** The header's rules are reported each for its own mismatch. */
  lemma HeaderReportsIff(d: DocumentReference, subject: Subject, rule: string)
    ensures rule in HeaderRules(d, subject) <==>
      || (rule == "document.matches-request" && d.uri != subject.requestedUri)
      || (rule == "document.belongs-to-workspace" && d.workspaceId != subject.workspace.workspaceId)
      || (rule == "document.current-epoch" && d.workspaceEpoch != subject.workspace.workspaceEpoch)
  {}

  /**
   A document's response is clean exactly when it answers for the document asked for, in its workspace
   and epoch, and every node at every depth is sound and no handle appears twice.
   */
  lemma DocumentIsCleanIff(d: DocumentReference, ss: seq<Symbol>, subject: Subject)
    ensures HeaderRules(d, subject) + Walk(ss, subject, {}).0 == [] <==>
      && d == DocumentReference(subject.requestedUri, subject.workspace.workspaceId, subject.workspace.workspaceEpoch)
      && AllSound(Nodes(ss), subject, Some(subject.requestedUri)) && DistinctIds(Nodes(ss))
  {
    hide Walk, AllSound, DistinctIds;
    WalkIsCleanIff(ss, subject, {});
  }
}
