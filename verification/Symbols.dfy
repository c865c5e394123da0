/** The symbol shapes shared by the mapper, the handle registry, relocation and the conformance rules. */
module Symbols {
  import opened Common

  datatype Position = Position(line: int, character: int)
  datatype Range = Range(start: Position, end: Position)

  datatype Locator = Locator(documentUri: string, name: string, kind: string, containerName: Option<string>,
                             selectionRange: Range)

  datatype Draft = Draft(locator: Locator, range: Range, children: seq<Draft>)

  datatype Handle = Handle(adapterId: string, sessionId: string, id: string, validUntilEpoch: int)
  datatype Symbol = Symbol(handle: Handle, locator: Locator, range: Range, children: seq<Symbol>)

  function ComparePosition(a: Position, b: Position): int {
    if a.line == b.line then a.character - b.character else a.line - b.line
  }

  predicate ContainsRange(outer: Range, inner: Range) {
    ComparePosition(outer.start, inner.start) <= 0 && ComparePosition(inner.end, outer.end) <= 0
  }

  /** Every draft of a forest, parents before children. */
  ghost function Drafts(ds: seq<Draft>): seq<Draft> {
    if ds == [] then [] else [ds[0]] + Drafts(ds[0].children) + Drafts(ds[1..])
  }

  /** Every symbol of a forest, parents before children. */
  ghost function Nodes(ss: seq<Symbol>): seq<Symbol> {
    if ss == [] then [] else [ss[0]] + Nodes(ss[0].children) + Nodes(ss[1..])
  }

  lemma {:induction false} DraftsConcat(a: seq<Draft>, b: seq<Draft>)
    ensures Drafts(a + b) == Drafts(a) + Drafts(b)
  {
    if a == [] {
      assert a + b == b;
    } else {
      assert (a + b)[1..] == a[1..] + b;
      DraftsConcat(a[1..], b);
    }
  }

  lemma {:induction false} NodesConcat(a: seq<Symbol>, b: seq<Symbol>)
    ensures Nodes(a + b) == Nodes(a) + Nodes(b)
  {
    if a == [] {
      assert a + b == b;
    } else {
      assert (a + b)[1..] == a[1..] + b;
      NodesConcat(a[1..], b);
    }
  }

  lemma NodesSnoc(a: seq<Symbol>, s: Symbol)
    ensures Nodes(a + [s]) == Nodes(a) + [s] + Nodes(s.children)
  {
    NodesConcat(a, [s]);
  }

  lemma DraftsSnoc(a: seq<Draft>, d: Draft)
    ensures Drafts(a + [d]) == Drafts(a) + [d] + Drafts(d.children)
  {
    DraftsConcat(a, [d]);
  }
}
