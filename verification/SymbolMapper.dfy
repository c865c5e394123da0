/**
 The mapper from untrusted provider output to symbol drafts. The output is a graph of objects that
 may be cyclic, shared or malformed; `heap` gives the data fields of each object.
 */
module SymbolMapper {
  import opened Common
  import opened Symbols

  const MAX_DOCUMENT_SYMBOLS: nat := 5000
  const MAX_SYMBOL_DEPTH: nat := 64
  const MAX_SYMBOL_TEXT_LENGTH: nat := 1024
  const MAX_SAFE_INTEGER: int := 9007199254740991

  const SYMBOL_KINDS: seq<string> := [
    "file", "module", "namespace", "package", "class", "method", "property", "field", "constructor", "enum",
    "interface", "function", "variable", "constant", "string", "number", "boolean", "array", "object", "key",
    "null", "enumMember", "struct", "event", "operator", "typeParameter"]

  // ----- Untrusted values -------------------------------------------------------------------------

  /** A JavaScript number, or something that is not one. */
  datatype Number = NotANumber | Fractional | Integer(n: int)
  datatype RawPosition = RawPosition(line: Number, character: Number)
  datatype RawRange = NotARange | RawRange(start: RawPosition, end: RawPosition)

  /** An element of an array: an object of the heap, or anything else. */
  datatype Value = Ref(r: nat) | NotAnObject

  /** `None` where a field is absent or not of the expected type. `uri` is what `toString()` gives. */
  datatype Location = Location(uri: Option<string>, range: RawRange)
  datatype Object = Object(name: Option<string>, kind: Number, range: RawRange, selectionRange: RawRange,
                           children: Option<seq<Value>>, containerName: ContainerName, location: Option<Location>)
  datatype ContainerName = Absent | Malformed | Text(text: string)

  type Heap = nat -> Object

  predicate SafeNatural(x: Number) { x.Integer? && 0 <= x.n <= MAX_SAFE_INTEGER }
  predicate IsPosition(p: RawPosition) { SafeNatural(p.line) && SafeNatural(p.character) }
  predicate IsRange(r: RawRange) { r.RawRange? && IsPosition(r.start) && IsPosition(r.end) }

  predicate IsDocumentSymbol(heap: Heap, v: Value) {
    v.Ref? && var o := heap(v.r);
    o.name.Some? && o.kind != NotANumber && IsRange(o.range) && IsRange(o.selectionRange) && o.children.Some?
  }

  predicate IsSymbolInformation(heap: Heap, v: Value) {
    v.Ref? && var o := heap(v.r);
    o.name.Some? && o.kind != NotANumber && o.containerName.Text? && o.location.Some? && o.location.value.uri.Some?
    && IsRange(o.location.value.range)
  }

  // ----- Field checks; `None` is a thrown error ---------------------------------------------------

  function PositionOf(p: RawPosition): Position requires IsPosition(p) { Position(p.line.n, p.character.n) }

  function MapRange(r: RawRange): Option<Range> {
    if !IsRange(r) then None
    else
      var mapped := Range(PositionOf(r.start), PositionOf(r.end));
      if ComparePosition(mapped.start, mapped.end) > 0 then None else Some(mapped)
  }

  function SymbolKind(kind: Number): Option<string> {
    if !kind.Integer? || kind.n < 0 || kind.n >= |SYMBOL_KINDS| then None else Some(SYMBOL_KINDS[kind.n])
  }

  /** ECMAScript white space and line terminators. */
  predicate IsWhiteSpace(c: char) {
    c in [' ', '\t', '\n', '\r', '\U{000B}', '\U{000C}', '\U{00A0}', '\U{1680}', '\U{2028}', '\U{2029}', '\U{202F}',
          '\U{205F}', '\U{3000}', '\U{FEFF}'] || '\U{2000}' <= c <= '\U{200A}'
  }

  /** Whether `trim()` leaves nothing. */
  predicate Blank(s: string) { forall i :: 0 <= i < |s| ==> IsWhiteSpace(s[i]) }

  function SymbolText(s: string): Option<string> {
    if Blank(s) || |s| > MAX_SYMBOL_TEXT_LENGTH then None else Some(s)
  }

  /** The container of a flat symbol: an empty name is no container. */
  function OptionalSymbolText(s: string): Option<Option<string>> {
    if s == "" then Some(None)
    else match SymbolText(s) case Some(t) => Some(Some(t)) case None => None
  }

  /** The draft of one hierarchical symbol, without its children. */
  function MapHead(o: Object, uri: string, container: Option<string>): Option<Draft> {
    if o.name.None? || SymbolText(o.name.value).None? || SymbolKind(o.kind).None? || MapRange(o.range).None?
       || MapRange(o.selectionRange).None? then None
    else
      var range, selection := MapRange(o.range).value, MapRange(o.selectionRange).value;
      if !ContainsRange(range, selection) || o.children.None? then None
      else Some(Draft(Locator(uri, o.name.value, SymbolKind(o.kind).value, container, selection), range, []))
  }

  /** The draft of one flat symbol, whose single range serves as both. */
  function MapFlat(o: Object, uri: string): Option<Draft> {
    if o.location.None? || o.location.value.uri != Some(uri) || o.name.None? || SymbolText(o.name.value).None?
       || SymbolKind(o.kind).None? || MapRange(o.location.value.range).None? || !o.containerName.Text?
       || OptionalSymbolText(o.containerName.text).None? then None
    else
      var range := MapRange(o.location.value.range).value;
      Some(Draft(Locator(uri, o.name.value, SymbolKind(o.kind).value, OptionalSymbolText(o.containerName.text).value,
                         range), range, []))
  }

  // ----- The bounded walk, as the source threads it ------------------------------------------------

  /** How many symbols have been entered, and which objects. */
  datatype Walk = Walk(count: nat, seen: set<nat>)

  predicate MayEnter(v: Value, depth: nat, w: Walk) {
    v.Ref? && depth <= MAX_SYMBOL_DEPTH && w.count < MAX_DOCUMENT_SYMBOLS && v.r !in w.seen
  }

  function Enter(v: Value, w: Walk): Walk requires v.Ref? { Walk(w.count + 1, w.seen + {v.r}) }

  /** What a walk over `vs` yields, or `None` where it throws. */
  function MapForest(heap: Heap, vs: seq<Value>, uri: string, container: Option<string>, depth: nat,
                     w: Walk): Option<(seq<Draft>, Walk)>
    decreases MAX_SYMBOL_DEPTH + 1 - depth, |vs|
  {
    if vs == [] then Some(([], w))
    else if !MayEnter(vs[0], depth, w) then None
    else
      var o := heap(vs[0].r);
      match MapHead(o, uri, container)
      case None => None
      case Some(head) =>
        match MapForest(heap, o.children.value, uri, o.name, depth + 1, Enter(vs[0], w))
        case None => None
        case Some((children, w1)) =>
          match MapForest(heap, vs[1..], uri, container, depth, w1)
          case None => None
          case Some((rest, w2)) => Some(([head.(children := children)] + rest, w2))
  }

  function MapFlatList(heap: Heap, vs: seq<Value>, uri: string, w: Walk): Option<(seq<Draft>, Walk)> {
    if vs == [] then Some(([], w))
    else if !MayEnter(vs[0], 0, w) then None
    else
      match MapFlat(heap(vs[0].r), uri)
      case None => None
      case Some(draft) =>
        match MapFlatList(heap, vs[1..], uri, Enter(vs[0], w))
        case None => None
        case Some((rest, w1)) => Some(([draft] + rest, w1))
  }

  datatype Provided = Nothing | NotAnArray | Array(items: seq<Value>)
  datatype Mapped = Undefined | Thrown | Accepted(drafts: seq<Draft>)

  function MapDocumentSymbols(heap: Heap, value: Provided, uri: string): Mapped {
    match value
    case Nothing => Undefined
    case NotAnArray => Thrown
    case Array(vs) =>
      if |vs| > MAX_DOCUMENT_SYMBOLS then Thrown
      else if vs == [] then Accepted([])
      else if forall i :: 0 <= i < |vs| ==> IsDocumentSymbol(heap, vs[i]) then
        match MapForest(heap, vs, uri, None, 0, Walk(0, {})) { case None => Thrown case Some((ds, _)) => Accepted(ds) }
      else if forall i :: 0 <= i < |vs| ==> IsSymbolInformation(heap, vs[i]) then
        match MapFlatList(heap, vs, uri, Walk(0, {})) { case None => Thrown case Some((ds, _)) => Accepted(ds) }
      else Thrown
  }

  // ----- What is accepted, and what it becomes ----------------------------------------------------

  predicate Natural(x: Number, n: int) { x == Integer(n) && 0 <= n <= 9007199254740991 }

  /** The four numbers of a range, taken over as they are, and not running backwards. */
  predicate SpanOf(raw: RawRange, r: Range) {
    && raw.RawRange? && Natural(raw.start.line, r.start.line) && Natural(raw.start.character, r.start.character)
    && Natural(raw.end.line, r.end.line) && Natural(raw.end.character, r.end.character)
    && (r.start.line < r.end.line || (r.start.line == r.end.line && r.start.character <= r.end.character))
  }

  /** A text taken over as it is: at most 1,024 characters, not all of them white space. */
  predicate TextOf(text: Option<string>, t: string) {
    text == Some(t) && |t| <= 1024 && exists i :: 0 <= i < |t| && !IsWhiteSpace(t[i])
  }

  predicate KindOf(kind: Number, name: string) {
    exists k :: 0 <= k < |SYMBOL_KINDS| && kind == Integer(k) && name == SYMBOL_KINDS[k]
  }

  /** The container a flat symbol names, if any. */
  predicate ContainerOf(c: ContainerName, container: Option<string>) {
    match c
    case Absent => container.None?
    case Malformed => false
    case Text(t) => if t == "" then container.None? else container.Some? && TextOf(Some(t), container.value)
  }

  /** `d`, whatever its children, shows the hierarchical object under its container's name. */
  predicate ImageOf(o: Object, uri: string, container: Option<string>, d: Draft) {
    && d.locator.documentUri == uri && d.locator.containerName == container
    && TextOf(o.name, d.locator.name) && KindOf(o.kind, d.locator.kind)
    && SpanOf(o.range, d.range) && SpanOf(o.selectionRange, d.locator.selectionRange)
    && ContainsRange(d.range, d.locator.selectionRange) && o.children.Some?
  }

  /** `d` shows the flat object, whose one range serves as both. */
  predicate FlatImageOf(o: Object, uri: string, d: Draft) {
    && o.location.Some? && d.locator.documentUri == uri && d.children == []
    && TextOf(o.name, d.locator.name) && KindOf(o.kind, d.locator.kind)
    && SpanOf(o.location.value.range, d.range) && d.locator.selectionRange == d.range
    && ContainerOf(o.containerName, d.locator.containerName)
  }

  lemma SpanIff(raw: RawRange, r: Range)
    ensures MapRange(raw) == Some(r) <==> SpanOf(raw, r)
  {}

  lemma TextIff(s: string)
    ensures SymbolText(s) == Some(s) <==> TextOf(Some(s), s)
    ensures SymbolText(s).Some? ==> SymbolText(s) == Some(s)
  {}

  lemma KindIff(kind: Number, name: string)
    ensures SymbolKind(kind) == Some(name) <==> KindOf(kind, name)
  {
    if SymbolKind(kind) == Some(name) { assert SYMBOL_KINDS[kind.n] == name; }
  }

  /** The field checks accept exactly the objects that have an image, and give that image. */
  lemma HeadIff(o: Object, uri: string, container: Option<string>, d: Draft)
    ensures ImageOf(o, uri, container, d) <==>
              MapHead(o, uri, container).Some? && d == MapHead(o, uri, container).value.(children := d.children)
  {
    hide MapRange, SymbolText, SymbolKind, SpanOf, TextOf, KindOf;
    if o.name.Some? { TextIff(o.name.value); TextIff(d.locator.name); }
    KindIff(o.kind, d.locator.kind);
    SpanIff(o.range, d.range);
    SpanIff(o.selectionRange, d.locator.selectionRange);
    OwnText(o.name, d.locator.name);
    if MapHead(o, uri, container).Some? && d == MapHead(o, uri, container).value.(children := d.children) {
      assert MapRange(o.range) == Some(d.range) && SymbolKind(o.kind) == Some(d.locator.kind);
    }
  }

  lemma OwnText(text: Option<string>, t: string)
    ensures TextOf(text, t) ==> text == Some(t)
  {}

  lemma FlatIff(o: Object, uri: string, d: Draft)
    ensures MapFlat(o, uri) == Some(d) <==>
              FlatImageOf(o, uri, d) && o.location.value.uri == Some(uri) && o.containerName.Text?
  {
    hide MapRange, SymbolText, SymbolKind, SpanOf, TextOf, KindOf;
    if o.name.Some? { TextIff(o.name.value); }
    if o.containerName.Text? {
      TextIff(o.containerName.text);
      if d.locator.containerName.Some? { OwnText(Some(o.containerName.text), d.locator.containerName.value); }
    }
    KindIff(o.kind, d.locator.kind);
    if o.location.Some? { SpanIff(o.location.value.range, d.range); }
    OwnText(o.name, d.locator.name);
  }

  /** A finite unfolding of part of the object graph, node by node. */
  datatype Tree = Tree(r: nat, children: seq<Tree>)

  ghost function Refs(ts: seq<Tree>): seq<nat> {
    if ts == [] then [] else [ts[0].r] + Refs(ts[0].children) + Refs(ts[1..])
  }

  ghost function Height(ts: seq<Tree>): nat {
    if ts == [] then 0
    else
      var first, rest := 1 + Height(ts[0].children), Height(ts[1..]);
      if first > rest then first else rest
  }

  ghost function Elements(s: seq<nat>): set<nat> { set i | 0 <= i < |s| :: s[i] }

  ghost predicate Distinct(s: seq<nat>) { forall i, j :: 0 <= i < j < |s| ==> s[i] != s[j] }

  /** `ts` is the unfolding of `vs`, every node of it maps, and `ds` is its image. */
  ghost predicate Unfolds(heap: Heap, vs: seq<Value>, ts: seq<Tree>, uri: string, container: Option<string>,
                          ds: seq<Draft>)
    decreases ts
  {
    if ts == [] then vs == [] && ds == []
    else
      && vs != [] && ds != [] && vs[0] == Ref(ts[0].r)
      && var o := heap(ts[0].r);
      && ImageOf(o, uri, container, ds[0])
      && Unfolds(heap, o.children.value, ts[0].children, uri, o.name, ds[0].children)
      && Unfolds(heap, vs[1..], ts[1..], uri, container, ds[1..])
  }

  /** The unfolding fits the bounds left at this point of the walk, entering no object twice. */
  ghost predicate Fits(ts: seq<Tree>, depth: nat, w: Walk) {
    && Distinct(Refs(ts)) && Elements(Refs(ts)) !! w.seen
    && (ts != [] ==> w.count + |Refs(ts)| <= MAX_DOCUMENT_SYMBOLS && depth + Height(ts) - 1 <= MAX_SYMBOL_DEPTH)
  }

  ghost function After(ts: seq<Tree>, w: Walk): Walk { Walk(w.count + |Refs(ts)|, w.seen + Elements(Refs(ts))) }

  lemma ElementsConcat(a: seq<nat>, b: seq<nat>)
    ensures Elements(a + b) == Elements(a) + Elements(b)
    ensures Distinct(a + b) <==> Distinct(a) && Distinct(b) && Elements(a) !! Elements(b)
  {
    forall x | x in Elements(a) + Elements(b) ensures x in Elements(a + b) {
      if x in Elements(a) {
        var i :| 0 <= i < |a| && a[i] == x;
        assert (a + b)[i] == x;
      } else {
        var i :| 0 <= i < |b| && b[i] == x;
        assert (a + b)[|a| + i] == x;
      }
    }
    if Distinct(a) && Distinct(b) && Elements(a) !! Elements(b) {
      forall i, j | 0 <= i < j < |a + b| ensures (a + b)[i] != (a + b)[j] {
        if i < |a| <= j { assert a[i] in Elements(a) && b[j - |a|] in Elements(b); }
      }
    }
    if Distinct(a + b) {
      assert Distinct(a) by { forall i, j | 0 <= i < j < |a| ensures a[i] != a[j] { assert (a + b)[i] != (a + b)[j]; } }
      assert Distinct(b) by {
        forall i, j | 0 <= i < j < |b| ensures b[i] != b[j] { assert (a + b)[|a| + i] != (a + b)[|a| + j]; }
      }
      forall x | x in Elements(a) ensures x !in Elements(b) {
        var i :| 0 <= i < |a| && a[i] == x;
        forall j | 0 <= j < |b| ensures b[j] != x { assert (a + b)[i] != (a + b)[|a| + j]; }
      }
    }
  }

  /** How the bounds of a forest split over its first tree and the rest. */
  lemma FitsSplits(ts: seq<Tree>, depth: nat, w: Walk)
    requires ts != []
    ensures var w1 := Enter(Ref(ts[0].r), w);
      && (Fits(ts, depth, w) <==> MayEnter(Ref(ts[0].r), depth, w) && Fits(ts[0].children, depth + 1, w1)
                                  && Fits(ts[1..], depth, After(ts[0].children, w1)))
      && After(ts, w) == After(ts[1..], After(ts[0].children, w1))
  {
    var a, b, c := [ts[0].r], Refs(ts[0].children), Refs(ts[1..]);
    assert Elements(a) == {ts[0].r} by { assert a[0] == ts[0].r; }
    ElementsConcat(a, b);
    ElementsConcat(a + b, c);
    var w1 := Enter(Ref(ts[0].r), w);
    var w2 := After(ts[0].children, w1);
    assert w2.seen == w.seen + Elements(a) + Elements(b);
    assert Height(ts) == if 1 + Height(ts[0].children) > Height(ts[1..]) then 1 + Height(ts[0].children)
                         else Height(ts[1..]);
    if Fits(ts, depth, w) {
      assert ts[0].r in Elements(a);
      assert Fits(ts[0].children, depth + 1, w1);
      assert Fits(ts[1..], depth, w2);
    }
    if MayEnter(Ref(ts[0].r), depth, w) && Fits(ts[0].children, depth + 1, w1) && Fits(ts[1..], depth, w2) {
      assert Elements(a) !! Elements(b) && Elements(a + b) !! Elements(c);
      assert Distinct(a);
      assert Elements(Refs(ts)) == Elements(a) + Elements(b) + Elements(c);
    }
  }

  /** Whatever the walk returns is the image of a tree that fits. */
  lemma {:induction false} AcceptedIsTree(heap: Heap, vs: seq<Value>, uri: string, container: Option<string>,
                                          depth: nat, w: Walk)
    returns (ts: seq<Tree>)
    requires MapForest(heap, vs, uri, container, depth, w).Some?
    ensures var (ds, w1) := MapForest(heap, vs, uri, container, depth, w).value;
      Unfolds(heap, vs, ts, uri, container, ds) && Fits(ts, depth, w) && w1 == After(ts, w)
    decreases MAX_SYMBOL_DEPTH + 1 - depth, |vs|
  {
    ts := [];
    if vs == [] {
      assert w.seen + Elements(Refs(ts)) == w.seen;
    } else {
      var o := heap(vs[0].r);
      var children := AcceptedIsTree(heap, o.children.value, uri, o.name, depth + 1, Enter(vs[0], w));
      var rest := AcceptedIsTree(heap, vs[1..], uri, container, depth,
                                 MapForest(heap, o.children.value, uri, o.name, depth + 1, Enter(vs[0], w)).value.1);
      ts := [Tree(vs[0].r, children)] + rest;
      assert ts[1..] == rest;
      FitsSplits(ts, depth, w);
      var ds := MapForest(heap, vs, uri, container, depth, w).value.0;
      assert ds[1..] == MapForest(heap, vs[1..], uri, container, depth, After(children, Enter(vs[0], w))).value.0;
      HeadIff(o, uri, container, ds[0]);
    }
  }

  /** Every tree that fits is accepted, with exactly its image. */
  lemma {:induction false} TreeIsAccepted(heap: Heap, vs: seq<Value>, ts: seq<Tree>, uri: string,
                                          container: Option<string>, ds: seq<Draft>, depth: nat, w: Walk)
    requires Unfolds(heap, vs, ts, uri, container, ds) && Fits(ts, depth, w)
    ensures MapForest(heap, vs, uri, container, depth, w) == Some((ds, After(ts, w)))
    decreases ts
  {
    hide TextOf, KindOf, SpanOf, MapHead;
    if ts == [] {
      assert w.seen + Elements(Refs(ts)) == w.seen;
    } else {
      var o := heap(ts[0].r);
      FitsSplits(ts, depth, w);
      var w1 := Enter(vs[0], w);
      TreeIsAccepted(heap, o.children.value, ts[0].children, uri, o.name, ds[0].children, depth + 1, w1);
      TreeIsAccepted(heap, vs[1..], ts[1..], uri, container, ds[1..], depth, After(ts[0].children, w1));
      assert ds == [ds[0]] + ds[1..];
      HeadIff(o, uri, container, ds[0]);
    }
  }

  /** A forest of distinct objects, each well formed, of at most 5000 nodes and depth at most 64. */
  ghost predicate BoundedTree(heap: Heap, vs: seq<Value>, ts: seq<Tree>, uri: string, ds: seq<Draft>) {
    && Unfolds(heap, vs, ts, uri, None, ds) && Distinct(Refs(ts))
    && |Refs(ts)| <= 5000 && Height(ts) <= 65
  }

  /** At most 5000 distinct flat objects of the document, one draft for each. */
  ghost predicate FlatImages(heap: Heap, vs: seq<Value>, uri: string, ds: seq<Draft>) {
    && |ds| == |vs| <= 5000
    && (forall i :: 0 <= i < |vs| ==>
          && vs[i].Ref? && FlatImageOf(heap(vs[i].r), uri, ds[i])
          && heap(vs[i].r).location.value.uri == Some(uri) && heap(vs[i].r).containerName.Text?)
    && forall i, j :: 0 <= i < j < |vs| ==> vs[i] != vs[j]
  }

  predicate HasNumbers(raw: RawRange) {
    && raw.RawRange? && SafeNatural(raw.start.line) && SafeNatural(raw.start.character)
    && SafeNatural(raw.end.line) && SafeNatural(raw.end.character)
  }

  /** A root has the fields of a hierarchical symbol, whatever is in them. */
  predicate LooksHierarchical(heap: Heap, v: Value) {
    && v.Ref? && heap(v.r).name.Some? && heap(v.r).kind != NotANumber && heap(v.r).children.Some?
    && HasNumbers(heap(v.r).range) && HasNumbers(heap(v.r).selectionRange)
  }

  lemma LooksIff(heap: Heap, v: Value)
    ensures IsDocumentSymbol(heap, v) <==> LooksHierarchical(heap, v)
  {}

  lemma ImagesLook(heap: Heap, vs: seq<Value>, uri: string, ds: seq<Draft>, i: nat)
    requires i < |vs| && FlatImages(heap, vs, uri, ds)
    ensures IsSymbolInformation(heap, vs[i])
  {
    hide TextOf, IsWhiteSpace;
    OwnText(heap(vs[i].r).name, ds[i].locator.name);
  }

  lemma {:induction false} TreeLooks(heap: Heap, vs: seq<Value>, ts: seq<Tree>, uri: string, container: Option<string>,
                                     ds: seq<Draft>, i: nat)
    requires Unfolds(heap, vs, ts, uri, container, ds) && i < |vs|
    ensures IsDocumentSymbol(heap, vs[i])
    decreases ts
  {
    if i > 0 { TreeLooks(heap, vs[1..], ts[1..], uri, container, ds[1..], i - 1); }
  }

  /**
   Provider output is accepted exactly when it unfolds to such a forest, or when some root is not
   hierarchical and all are such flat objects; the drafts are then its image, node by node. A cyclic
   or shared graph has no such unfolding.
   */
  lemma AcceptedIffBoundedTree(heap: Heap, vs: seq<Value>, uri: string, ds: seq<Draft>)
    ensures MapDocumentSymbols(heap, Array(vs), uri) == Accepted(ds) <==>
      || (exists ts :: BoundedTree(heap, vs, ts, uri, ds))
      || (FlatImages(heap, vs, uri, ds) && exists i :: 0 <= i < |vs| && !LooksHierarchical(heap, vs[i]))
  {
    if vs == [] {
      assert BoundedTree(heap, vs, [], uri, []);
      return;
    }
    forall i | 0 <= i < |vs| ensures IsDocumentSymbol(heap, vs[i]) <==> LooksHierarchical(heap, vs[i]) {
      LooksIff(heap, vs[i]);
    }
    hide IsDocumentSymbol, LooksHierarchical;
    HierarchicalIff(heap, vs, uri, ds);
    FlatAcceptedIff(heap, vs, uri, ds);
    if ts :| BoundedTree(heap, vs, ts, uri, ds) {
      forall i | 0 <= i < |vs| ensures IsDocumentSymbol(heap, vs[i]) { TreeLooks(heap, vs, ts, uri, None, ds, i); }
    }
  }

  lemma HierarchicalIff(heap: Heap, vs: seq<Value>, uri: string, ds: seq<Draft>)
    requires vs != []
    ensures (forall i :: 0 <= i < |vs| ==> IsDocumentSymbol(heap, vs[i])) ==>
      (MapDocumentSymbols(heap, Array(vs), uri) == Accepted(ds) <==> exists ts :: BoundedTree(heap, vs, ts, uri, ds))
  {
    var start := Walk(0, {});
    if forall i :: 0 <= i < |vs| ==> IsDocumentSymbol(heap, vs[i]) {
      if MapDocumentSymbols(heap, Array(vs), uri) == Accepted(ds) {
        var ts := AcceptedIsTree(heap, vs, uri, None, 0, start);
        assert Fits(ts, 0, start);
        RootsAreNodes(heap, vs, ts, uri, None, ds);
        assert BoundedTree(heap, vs, ts, uri, ds);
      }
      forall ts | BoundedTree(heap, vs, ts, uri, ds)
        ensures MapDocumentSymbols(heap, Array(vs), uri) == Accepted(ds)
      {
        RootsAreNodes(heap, vs, ts, uri, None, ds);
        TreeIsAccepted(heap, vs, ts, uri, None, ds, 0, start);
      }
    }
  }

  lemma FlatAcceptedIff(heap: Heap, vs: seq<Value>, uri: string, ds: seq<Draft>)
    requires vs != []
    ensures (exists i :: 0 <= i < |vs| && !IsDocumentSymbol(heap, vs[i])) ==>
      (MapDocumentSymbols(heap, Array(vs), uri) == Accepted(ds) <==> FlatImages(heap, vs, uri, ds))
  {
    hide IsDocumentSymbol, IsSymbolInformation;
    if FlatImages(heap, vs, uri, ds) {
      forall i | 0 <= i < |vs| ensures IsSymbolInformation(heap, vs[i]) { ImagesLook(heap, vs, uri, ds, i); }
    }
    FlatListIff(heap, vs, uri, Walk(0, {}), ds);
  }

  /** A list of flat objects is mapped exactly to its image, when none of it was entered before. */
  lemma {:induction false} FlatListIff(heap: Heap, vs: seq<Value>, uri: string, w: Walk, ds: seq<Draft>)
    ensures
      var r := MapFlatList(heap, vs, uri, w);
      (r.Some? && r.value.0 == ds) <==>
        && |ds| == |vs| && (vs != [] ==> w.count + |vs| <= 5000)
        && (forall i :: 0 <= i < |vs| ==>
              && vs[i].Ref? && vs[i].r !in w.seen && FlatImageOf(heap(vs[i].r), uri, ds[i])
              && heap(vs[i].r).location.value.uri == Some(uri) && heap(vs[i].r).containerName.Text?)
        && forall i, j :: 0 <= i < j < |vs| ==> vs[i] != vs[j]
  {
    hide MapFlat, FlatImageOf;
    if vs != [] && ds != [] && vs[0].Ref? {
      var rest, tail := vs[1..], ds[1..];
      FlatListIff(heap, rest, uri, Enter(vs[0], w), tail);
      FlatIff(heap(vs[0].r), uri, ds[0]);
    }
  }

  lemma {:induction false} RootsAreNodes(heap: Heap, vs: seq<Value>, ts: seq<Tree>, uri: string,
                                         container: Option<string>, ds: seq<Draft>)
    requires Unfolds(heap, vs, ts, uri, container, ds)
    ensures |vs| == |ts| == |ds| && |ts| <= |Refs(ts)| == |Drafts(ds)|
    decreases ts
  {
    if ts != [] {
      RootsAreNodes(heap, heap(ts[0].r).children.value, ts[0].children, uri, heap(ts[0].r).name, ds[0].children);
      RootsAreNodes(heap, vs[1..], ts[1..], uri, container, ds[1..]);
    }
  }

  /** Following positions in arrays of children, from `vs` on, one comes to the object `r`. */
  ghost predicate Leads(heap: Heap, vs: seq<Value>, path: seq<nat>, r: nat)
    decreases |path|
  {
    && path != [] && path[0] < |vs| && vs[path[0]].Ref?
    && var o := vs[path[0]].r;
    if |path| == 1 then o == r else heap(o).children.Some? && Leads(heap, heap(o).children.value, path[1..], r)
  }

  /** An object to which two different paths lead, one of them perhaps through the object itself, is refused. */
  lemma SharedObjectsAreRefused(heap: Heap, vs: seq<Value>, uri: string, container: Option<string>, depth: nat, w: Walk,
                                p: seq<nat>, q: seq<nat>, r: nat)
    requires p != q && Leads(heap, vs, p, r) && Leads(heap, vs, q, r)
    ensures MapForest(heap, vs, uri, container, depth, w).None?
  {
    if MapForest(heap, vs, uri, container, depth, w).Some? {
      var ts := AcceptedIsTree(heap, vs, uri, container, depth, w);
      OnePathEach(heap, vs, ts, uri, container, MapForest(heap, vs, uri, container, depth, w).value.0, p, q, r);
    }
  }

  lemma FirstAndRest(ts: seq<Tree>)
    requires ts != []
    ensures Elements(Refs(ts)) == {ts[0].r} + Elements(Refs(ts[0].children)) + Elements(Refs(ts[1..]))
    ensures Distinct(Refs(ts)) ==>
      && Distinct(Refs(ts[0].children)) && Distinct(Refs(ts[1..])) && ts[0].r !in Elements(Refs(ts[0].children))
      && ({ts[0].r} + Elements(Refs(ts[0].children))) !! Elements(Refs(ts[1..]))
  {
    var a, b, c := [ts[0].r], Refs(ts[0].children), Refs(ts[1..]);
    assert Elements(a) == {ts[0].r} by { assert a[0] == ts[0].r; }
    ElementsConcat(a, b);
    ElementsConcat(a + b, c);
  }

  function Shifted(path: seq<nat>): seq<nat>
    requires path != [] && path[0] > 0
  {
    [path[0] - 1] + path[1..]
  }

  /** A path that does not start at the first object is a path among the others. */
  lemma PathAmongOthers(heap: Heap, vs: seq<Value>, path: seq<nat>, r: nat)
    requires Leads(heap, vs, path, r) && path[0] > 0
    ensures Leads(heap, vs[1..], Shifted(path), r)
  {
    assert vs[1..][path[0] - 1] == vs[path[0]] && Shifted(path)[1..] == path[1..];
  }

  lemma {:induction false} PathIsRef(heap: Heap, vs: seq<Value>, ts: seq<Tree>, uri: string, container: Option<string>,
                                     ds: seq<Draft>, path: seq<nat>, r: nat)
    requires Unfolds(heap, vs, ts, uri, container, ds) && Leads(heap, vs, path, r)
    ensures r in Elements(Refs(ts))
    decreases ts
  {
    FirstAndRest(ts);
    if path[0] > 0 {
      PathAmongOthers(heap, vs, path, r);
      PathIsRef(heap, vs[1..], ts[1..], uri, container, ds[1..], Shifted(path), r);
    } else if |path| > 1 {
      var o := heap(ts[0].r);
      PathIsRef(heap, o.children.value, ts[0].children, uri, o.name, ds[0].children, path[1..], r);
    }
  }

  /** In an unfolding without repetition a single path leads to each object. */
  lemma {:induction false} OnePathEach(heap: Heap, vs: seq<Value>, ts: seq<Tree>, uri: string,
                                       container: Option<string>, ds: seq<Draft>, p: seq<nat>, q: seq<nat>, r: nat)
    requires Unfolds(heap, vs, ts, uri, container, ds) && Distinct(Refs(ts))
    requires Leads(heap, vs, p, r) && Leads(heap, vs, q, r)
    ensures p == q
    decreases ts
  {
    hide Refs, Elements, Distinct, TextOf, KindOf, SpanOf;
    FirstAndRest(ts);
    FirstPathsStayFirst(heap, vs, ts, uri, container, ds, p, q, r);
    var o := heap(ts[0].r);
    if p[0] > 0 {
      PathAmongOthers(heap, vs, p, r);
      PathAmongOthers(heap, vs, q, r);
      OnePathEach(heap, vs[1..], ts[1..], uri, container, ds[1..], Shifted(p), Shifted(q), r);
      assert p == [Shifted(p)[0] + 1] + Shifted(p)[1..] && q == [Shifted(q)[0] + 1] + Shifted(q)[1..];
    } else if |p| > 1 {
      OnePathEach(heap, o.children.value, ts[0].children, uri, o.name, ds[0].children, p[1..], q[1..], r);
      assert p == [p[0]] + p[1..] && q == [q[0]] + q[1..];
    } else {
      assert p == [0] && q == [0];
    }
  }

  /** Two paths to one object both go through the first tree or both do not, and end there or both go on. */
  lemma FirstPathsStayFirst(heap: Heap, vs: seq<Value>, ts: seq<Tree>, uri: string, container: Option<string>,
                            ds: seq<Draft>, p: seq<nat>, q: seq<nat>, r: nat)
    requires Unfolds(heap, vs, ts, uri, container, ds) && Distinct(Refs(ts)) && ts != []
    requires Leads(heap, vs, p, r) && Leads(heap, vs, q, r)
    ensures (p[0] == 0 <==> q[0] == 0) && (p[0] == 0 ==> (|p| == 1 <==> |q| == 1))
  {
    FirstAndRest(ts);
    WherePathsGo(heap, vs, ts, uri, container, ds, p, r);
    WherePathsGo(heap, vs, ts, uri, container, ds, q, r);
  }

  lemma WherePathsGo(heap: Heap, vs: seq<Value>, ts: seq<Tree>, uri: string, container: Option<string>, ds: seq<Draft>,
                     path: seq<nat>, r: nat)
    requires Unfolds(heap, vs, ts, uri, container, ds) && ts != [] && Leads(heap, vs, path, r)
    ensures path[0] > 0 ==> r in Elements(Refs(ts[1..]))
    ensures path[0] == 0 && |path| > 1 ==> r in Elements(Refs(ts[0].children))
    ensures path == [0] ==> r == ts[0].r
  {
    var o := heap(ts[0].r);
    if path[0] > 0 {
      PathAmongOthers(heap, vs, path, r);
      PathIsRef(heap, vs[1..], ts[1..], uri, container, ds[1..], Shifted(path), r);
    } else if |path| > 1 {
      PathIsRef(heap, o.children.value, ts[0].children, uri, o.name, ds[0].children, path[1..], r);
    }
  }

  // ----- What every draft satisfies ---------------------------------------------------------------

  ghost predicate WellFormedDraft(d: Draft, uri: string) {
    && d.locator.documentUri == uri && !Blank(d.locator.name)
    && ComparePosition(d.range.start, d.range.end) <= 0
    && ComparePosition(d.locator.selectionRange.start, d.locator.selectionRange.end) <= 0
    && ContainsRange(d.range, d.locator.selectionRange)
  }

  ghost predicate AllWellFormed(ds: seq<Draft>, uri: string) {
    forall i :: 0 <= i < |Drafts(ds)| ==> WellFormedDraft(Drafts(ds)[i], uri)
  }

  lemma {:induction false} ForestIsWellFormed(heap: Heap, vs: seq<Value>, uri: string, container: Option<string>,
                                              depth: nat, w: Walk)
    requires MapForest(heap, vs, uri, container, depth, w).Some?
    ensures AllWellFormed(MapForest(heap, vs, uri, container, depth, w).value.0, uri)
    decreases MAX_SYMBOL_DEPTH + 1 - depth, |vs|
  {
    if vs != [] {
      var o := heap(vs[0].r);
      ForestIsWellFormed(heap, o.children.value, uri, o.name, depth + 1, Enter(vs[0], w));
      ForestIsWellFormed(heap, vs[1..], uri, container, depth,
                         MapForest(heap, o.children.value, uri, o.name, depth + 1, Enter(vs[0], w)).value.1);
      var ds := MapForest(heap, vs, uri, container, depth, w).value.0;
      var a, b := Drafts(ds[0].children), Drafts(ds[1..]);
      assert Drafts(ds) == [ds[0]] + a + b;
      forall i | 0 <= i < |Drafts(ds)| ensures WellFormedDraft(Drafts(ds)[i], uri) {
        if 0 < i <= |a| { assert Drafts(ds)[i] == a[i - 1]; }
        if i > |a| { assert Drafts(ds)[i] == b[i - |a| - 1]; }
      }
    }
  }

  lemma {:induction false} FlatListIsWellFormed(heap: Heap, vs: seq<Value>, uri: string, w: Walk)
    requires MapFlatList(heap, vs, uri, w).Some?
    ensures var ds := MapFlatList(heap, vs, uri, w).value.0;
      AllWellFormed(ds, uri) && |Drafts(ds)| == |vs| && (vs != [] ==> w.count + |vs| <= MAX_DOCUMENT_SYMBOLS)
  {
    if vs != [] {
      FlatListIsWellFormed(heap, vs[1..], uri, Enter(vs[0], w));
      var ds := MapFlatList(heap, vs, uri, w).value.0;
      assert Drafts(ds) == [ds[0]] + Drafts(ds[1..]);
      forall i | 0 <= i < |Drafts(ds)| ensures WellFormedDraft(Drafts(ds)[i], uri) {
        if i > 0 { assert Drafts(ds)[i] == Drafts(ds[1..])[i - 1]; }
      }
    }
  }

  /** Whatever shape the provider chose, an accepted result is well formed throughout and bounded. */
  lemma AcceptedIsWellFormed(heap: Heap, value: Provided, uri: string)
    requires MapDocumentSymbols(heap, value, uri).Accepted?
    ensures AllWellFormed(MapDocumentSymbols(heap, value, uri).drafts, uri)
    ensures |Drafts(MapDocumentSymbols(heap, value, uri).drafts)| <= MAX_DOCUMENT_SYMBOLS
  {
    var vs, start := value.items, Walk(0, {});
    if vs != [] {
      if forall i :: 0 <= i < |vs| ==> IsDocumentSymbol(heap, vs[i]) {
        ForestIsWellFormed(heap, vs, uri, None, 0, start);
        var ts := AcceptedIsTree(heap, vs, uri, None, 0, start);
        RootsAreNodes(heap, vs, ts, uri, None, MapDocumentSymbols(heap, value, uri).drafts);
      } else {
        FlatListIsWellFormed(heap, vs, uri, start);
      }
    }
  }

  // ----- The walk as one mutated state --------------------------------------------------------------

  ghost function Prepend(done: seq<Draft>, r: Option<(seq<Draft>, Walk)>): Option<(seq<Draft>, Walk)> {
    match r
    case None => None
    case Some((ds, w)) => Some((done + ds, w))
  }

  /** The count and the set of objects that one mapping shares between all its recursive calls. */
  class SymbolWalk {
    var count: nat
    var seen: set<nat>

    constructor ()
      ensures View() == Walk(0, {})
    {
      count, seen := 0, {};
    }

    function View(): Walk reads this { Walk(count, seen) }

    method EnterSymbol(v: Value, depth: nat) returns (ok: bool)
      modifies this
      ensures ok == MayEnter(v, depth, old(View()))
      ensures View() == if ok then Enter(v, old(View())) else old(View())
    {
      if !v.Ref? || depth > MAX_SYMBOL_DEPTH || count >= MAX_DOCUMENT_SYMBOLS || v.r in seen { return false; }
      seen := seen + {v.r};
      count := count + 1;
      return true;
    }

    method MapSymbols(heap: Heap, vs: seq<Value>, uri: string, container: Option<string>, depth: nat)
      returns (drafts: Option<seq<Draft>>)
      modifies this
      ensures var r := MapForest(heap, vs, uri, container, depth, old(View()));
        if r.Some? then drafts == Some(r.value.0) && View() == r.value.1 else drafts.None?
      decreases MAX_SYMBOL_DEPTH + 1 - depth
    {
      var done: seq<Draft> := [];
      assert vs[0..] == vs;
      ghost var whole := MapForest(heap, vs, uri, container, depth, View());
      assert whole.Some? ==> done + whole.value.0 == whole.value.0;
      for i := 0 to |vs|
        invariant MapForest(heap, vs, uri, container, depth, old(View()))
                  == Prepend(done, MapForest(heap, vs[i..], uri, container, depth, View()))
      {
        assert vs[i..][0] == vs[i] && vs[i..][1..] == vs[i + 1..];
        var ok := EnterSymbol(vs[i], depth);
        if !ok { return None; }
        var o := heap(vs[i].r);
        var head := MapHead(o, uri, container);
        if head == None { return None; }
        var children := MapSymbols(heap, o.children.value, uri, o.name, depth + 1);
        if children == None { return None; }
        ghost var rest := MapForest(heap, vs[i + 1..], uri, container, depth, View());
        assert rest.Some? ==> done + ([head.value.(children := children.value)] + rest.value.0)
                              == done + [head.value.(children := children.value)] + rest.value.0;
        done := done + [head.value.(children := children.value)];
      }
      assert done + [] == done;
      return Some(done);
    }
  }
}
