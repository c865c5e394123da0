/** Results that may be cut short, and the flag that has to say so. */
module WorkspaceSearch {
  import opened Common
  import opened Symbols
  import opened SymbolMapper

  const MAX_SEARCH_SCAN: nat := 20000
  const MAX_LOCATION_SCAN: nat := 20000
  const MAX_SYMBOL_LOCATIONS: nat := 1000

  // ----- Workspace symbol search ------------------------------------------------------------------

  /** The URI an entry can be attributed to, if any. */
  function SearchUri(heap: Heap, v: Value): Option<string> {
    if !v.Ref? || heap(v.r).location.None? || heap(v.r).location.value.uri == Some("") then None
    else heap(v.r).location.value.uri
  }

  function MapSearchEntry(heap: Heap, v: Value, uri: string): Option<Draft>
    requires v.Ref?
  {
    var o := heap(v.r);
    if o.name.None? || o.containerName.Malformed? || o.location.None? || SymbolText(o.name.value).None?
       || SymbolKind(o.kind).None? || MapRange(o.location.value.range).None? then None
    else
      var container := if o.containerName.Text? then OptionalSymbolText(o.containerName.text) else Some(None);
      var range := MapRange(o.location.value.range).value;
      match container
      case None => None
      case Some(c) => Some(Draft(Locator(uri, o.name.value, SymbolKind(o.kind).value, c, range), range, []))
  }

  datatype Options = Options(within: string -> bool, kinds: Option<set<string>>, limit: int)

  /** An entry the workspace may hold but the result cannot carry. */
  predicate Lost(heap: Heap, v: Value, o: Options) {
    var uri := SearchUri(heap, v);
    uri.None? || (o.within(uri.value) && MapSearchEntry(heap, v, uri.value).None?)
  }

  /** The draft of an entry that is in scope, representable and of a requested kind. */
  function Hit(heap: Heap, v: Value, o: Options): Option<Draft> {
    var uri := SearchUri(heap, v);
    if uri.None? || !o.within(uri.value) then None
    else
      var d := MapSearchEntry(heap, v, uri.value);
      if d.None? || (o.kinds.Some? && d.value.locator.kind !in o.kinds.value) then None else d
  }

  function Hits(heap: Heap, vs: seq<Value>, o: Options): seq<Draft> {
    if vs == [] then []
    else
      var earlier := Hits(heap, vs[..|vs| - 1], o);
      match Hit(heap, vs[|vs| - 1], o) case None => earlier case Some(d) => earlier + [d]
  }

  lemma {:induction false} HitsOfPrefix(heap: Heap, vs: seq<Value>, o: Options, k: nat)
    requires k <= |vs|
    ensures Hits(heap, vs[..k], o) <= Hits(heap, vs, o)
  {
    if k < |vs| {
      HitsOfPrefix(heap, vs[..|vs| - 1], o, k);
      assert vs[..|vs| - 1][..k] == vs[..k];
    } else {
      assert vs[..k] == vs;
    }
  }

  // ----- What a hit is ----------------------------------------------------------------------------

  /** The entry can be attributed to the document: it has a location with a URI that is not empty. */
  predicate AttributedTo(heap: Heap, v: Value, uri: string) {
    v.Ref? && heap(v.r).location.Some? && heap(v.r).location.value.uri == Some(uri) && uri != ""
  }

  /** `d` shows the entry, which lies within the workspace and is of a requested kind. */
  predicate IsHit(heap: Heap, v: Value, o: Options, d: Draft) {
    && AttributedTo(heap, v, d.locator.documentUri) && o.within(d.locator.documentUri)
    && FlatImageOf(heap(v.r), d.locator.documentUri, d) && (o.kinds.Some? ==> d.locator.kind in o.kinds.value)
  }

  lemma EntryIff(heap: Heap, v: Value, uri: string, d: Draft)
    requires v.Ref?
    ensures MapSearchEntry(heap, v, uri) == Some(d) <==> FlatImageOf(heap(v.r), uri, d)
  {
    hide MapRange, SymbolText, SymbolKind, SpanOf, TextOf, KindOf;
    var o := heap(v.r);
    if o.name.Some? { TextIff(o.name.value); }
    if o.containerName.Text? {
      TextIff(o.containerName.text);
      if d.locator.containerName.Some? { OwnText(Some(o.containerName.text), d.locator.containerName.value); }
    }
    KindIff(o.kind, d.locator.kind);
    if o.location.Some? { SpanIff(o.location.value.range, d.range); }
    OwnText(o.name, d.locator.name);
  }

  /** An entry becomes exactly the drafts it is a hit as. */
  lemma HitIff(heap: Heap, v: Value, o: Options, d: Draft)
    ensures Hit(heap, v, o) == Some(d) <==> IsHit(heap, v, o, d)
  {
    hide MapSearchEntry, FlatImageOf;
    if v.Ref? {
      EntryIff(heap, v, d.locator.documentUri, d);
      var uri := SearchUri(heap, v);
      if uri.Some? && MapSearchEntry(heap, v, uri.value).Some? {
        EntryIff(heap, v, uri.value, MapSearchEntry(heap, v, uri.value).value);
        ImageIsOfUri(heap(v.r), uri.value, MapSearchEntry(heap, v, uri.value).value);
      }
    }
  }

  lemma ImageIsOfUri(o: Object, uri: string, d: Draft)
    requires FlatImageOf(o, uri, d)
    ensures d.locator.documentUri == uri
  {}

  /** An entry is lost exactly when no document can be named for it, or one within the workspace shows nothing. */
  lemma LostIff(heap: Heap, v: Value, o: Options)
    ensures Lost(heap, v, o) <==>
      || (forall uri :: !AttributedTo(heap, v, uri))
      || (exists uri :: AttributedTo(heap, v, uri) && o.within(uri) && forall d :: !FlatImageOf(heap(v.r), uri, d))
  {
    hide MapSearchEntry, FlatImageOf;
    var uri := SearchUri(heap, v);
    if uri.Some? {
      assert AttributedTo(heap, v, uri.value);
      forall d ensures MapSearchEntry(heap, v, uri.value) == Some(d) <==> FlatImageOf(heap(v.r), uri.value, d) {
        EntryIff(heap, v, uri.value, d);
      }
      if MapSearchEntry(heap, v, uri.value).Some? {
        assert FlatImageOf(heap(v.r), uri.value, MapSearchEntry(heap, v, uri.value).value);
      }
    }
  }

  ghost predicate Ascending(at: seq<nat>, n: nat) {
    && (forall k :: 0 <= k < |at| ==> at[k] < n)
    && forall j, k :: 0 <= j < k < |at| ==> at[j] < at[k]
  }

  /** The hits are those of the entries at certain places, in order, and no other entry is one. */
  lemma {:induction false} HitsAreTheEntries(heap: Heap, vs: seq<Value>, o: Options) returns (at: seq<nat>)
    ensures |at| == |Hits(heap, vs, o)| && Ascending(at, |vs|)
    ensures forall k :: 0 <= k < |at| ==> IsHit(heap, vs[at[k]], o, Hits(heap, vs, o)[k])
    ensures forall i, d :: 0 <= i < |vs| && IsHit(heap, vs[i], o, d) ==> i in at
  {
    hide Hit, IsHit;
    at := [];
    if vs != [] {
      var n := |vs| - 1;
      var hit := Hit(heap, vs[n], o);
      at := HitsAreTheEntries(heap, vs[..n], o);
      forall d ensures hit == Some(d) <==> IsHit(heap, vs[n], o, d) { HitIff(heap, vs[n], o, d); }
      if hit.Some? { at := at + [n]; }
    }
  }

  datatype Search = Undefined | Thrown | Found(drafts: seq<Draft>, incomplete: bool)

  /**
   The hits of the entries examined, and a flag that is false only when every entry was examined and
   none was lost. Entries are left unexamined only past the scan bound or once the limit is reached.
   */
  method MapWorkspaceSymbols(heap: Heap, value: Provided, o: Options) returns (r: Search, ghost examined: nat)
    ensures r.Undefined? <==> value.Nothing?
    ensures r.Thrown? <==> value.NotAnArray? || (value.Array? && o.limit < 1)
    ensures r.Found? ==>
      && examined <= |value.items| && examined <= MAX_SEARCH_SCAN
      && r.drafts == Hits(heap, value.items[..examined], o) && |r.drafts| <= o.limit
      && (examined < |value.items| && examined < MAX_SEARCH_SCAN ==> |r.drafts| == o.limit)
      && (r.incomplete <==> examined < |value.items| || exists i :: 0 <= i < examined && Lost(heap, value.items[i], o))
  {
    examined := 0;
    if value.Nothing? { return Search.Undefined, 0; }
    if value.NotAnArray? || o.limit < 1 { return Search.Thrown, 0; }
    var vs := value.items;
    var drafts: seq<Draft> := [];
    var incomplete := false;
    var scanned := if |vs| < MAX_SEARCH_SCAN then |vs| else MAX_SEARCH_SCAN;
    if |vs| > scanned { incomplete := true; }
    var index := 0;
    while index < scanned
      invariant index <= scanned && drafts == Hits(heap, vs[..index], o) && |drafts| <= o.limit
      invariant incomplete <==> |vs| > scanned || exists i :: 0 <= i < index && Lost(heap, vs[i], o)
    {
      if |drafts| >= o.limit {
        incomplete := true;
        return Found(drafts, incomplete), index;
      }
      var entry := vs[index];
      assert vs[..index + 1][..index] == vs[..index] && vs[..index + 1][index] == entry;
      index := index + 1;
      var uri := SearchUri(heap, entry);
      if uri == None { incomplete := true; assert Lost(heap, vs[index - 1], o); continue; }
      if !o.within(uri.value) { continue; }
      var draft := MapSearchEntry(heap, entry, uri.value);
      if draft == None { incomplete := true; assert Lost(heap, vs[index - 1], o); continue; }
      if o.kinds.Some? && draft.value.locator.kind !in o.kinds.value { continue; }
      drafts := drafts + [draft.value];
    }
    return Found(drafts, incomplete), index;
  }

  /** A complete result carries every hit the provider returned; any result is a prefix of them. */
  lemma CompleteMeansNothingLost(heap: Heap, vs: seq<Value>, o: Options, r: Search, examined: nat)
    requires r.Found? && examined <= |vs| && r.drafts == Hits(heap, vs[..examined], o)
    requires r.incomplete <==> examined < |vs| || exists i :: 0 <= i < examined && Lost(heap, vs[i], o)
    ensures r.drafts <= Hits(heap, vs, o)
    ensures !r.incomplete ==> r.drafts == Hits(heap, vs, o) && forall i :: 0 <= i < |vs| ==> !Lost(heap, vs[i], o)
  {
    HitsOfPrefix(heap, vs, o, examined);
    if !r.incomplete { assert vs[..examined] == vs; }
  }

  lemma {:induction false} HitsAreWellFormed(heap: Heap, vs: seq<Value>, o: Options, i: nat)
    requires i < |Hits(heap, vs, o)|
    ensures var d := Hits(heap, vs, o)[i];
      WellFormedDraft(d, d.locator.documentUri) && o.within(d.locator.documentUri) && d.children == []
      && (o.kinds.Some? ==> d.locator.kind in o.kinds.value)
  {
    if i < |Hits(heap, vs[..|vs| - 1], o)| { HitsAreWellFormed(heap, vs[..|vs| - 1], o, i); }
  }

  // ----- Provider locations -----------------------------------------------------------------------

  datatype ProviderLocation = ProviderLocation(uri: string, range: Range)

  function InScope(entries: seq<Option<ProviderLocation>>, within: string -> bool): seq<ProviderLocation> {
    if entries == [] then []
    else
      var earlier, last := InScope(entries[..|entries| - 1], within), entries[|entries| - 1];
      if last.Some? && within(last.value.uri) then earlier + [last.value] else earlier
  }

  /** `kept` are the locations of the entries at those places, and no other entry is within the workspace. */
  ghost predicate Selects(entries: seq<Option<ProviderLocation>>, within: string -> bool, at: seq<nat>,
                          kept: seq<ProviderLocation>) {
    && |at| == |kept| && Ascending(at, |entries|)
    && (forall k :: 0 <= k < |at| ==> entries[at[k]] == Some(kept[k]) && within(kept[k].uri))
    && forall i :: 0 <= i < |entries| && entries[i].Some? && within(entries[i].value.uri) ==> i in at
  }

  /** The locations in scope are those of the entries at certain places, in order, and no other is within. */
  lemma {:induction false} InScopeAreTheEntries(entries: seq<Option<ProviderLocation>>, within: string -> bool)
    returns (at: seq<nat>)
    ensures Selects(entries, within, at, InScope(entries, within))
  {
    hide Selects;
    if entries == [] {
      at := [];
      NothingSelected(within);
    } else {
      var n := |entries| - 1;
      at := InScopeAreTheEntries(entries[..n], within);
      SelectsSnoc(entries[..n], entries[n], within, at, InScope(entries[..n], within));
      assert entries == entries[..n] + [entries[n]];
      if entries[n].Some? && within(entries[n].value.uri) { at := at + [n]; }
    }
  }

  lemma NothingSelected(within: string -> bool)
    ensures Selects([], within, [], [])
  {}

  lemma SelectsSnoc(earlier: seq<Option<ProviderLocation>>, last: Option<ProviderLocation>, within: string -> bool,
                    at: seq<nat>, kept: seq<ProviderLocation>)
    requires Selects(earlier, within, at, kept)
    ensures
      if last.Some? && within(last.value.uri) then
        Selects(earlier + [last], within, at + [|earlier|], kept + [last.value])
      else Selects(earlier + [last], within, at, kept)
  {}

  lemma {:induction false} InScopeOfPrefix(entries: seq<Option<ProviderLocation>>, within: string -> bool, k: nat)
    requires k <= |entries|
    ensures InScope(entries[..k], within) <= InScope(entries, within)
  {
    if k < |entries| {
      InScopeOfPrefix(entries[..|entries| - 1], within, k);
      assert entries[..|entries| - 1][..k] == entries[..k];
    } else {
      assert entries[..k] == entries;
    }
  }

  /** Where an in-scope entry past the ceiling stops the scan. */
  lemma CeilingStops(scan: seq<Option<ProviderLocation>>, within: string -> bool, index: nat)
    requires index < |scan| && scan[index].Some? && within(scan[index].value.uri)
    requires |InScope(scan[..index], within)| == MAX_SYMBOL_LOCATIONS
    ensures |InScope(scan, within)| > MAX_SYMBOL_LOCATIONS
    ensures InScope(scan, within)[..MAX_SYMBOL_LOCATIONS] == InScope(scan[..index], within)
    ensures forall k :: index < k < |scan| ==> |InScope(scan[..k], within)| > MAX_SYMBOL_LOCATIONS
  {
    assert scan[..index + 1][..index] == scan[..index];
    InScopeOfPrefix(scan, within, index + 1);
    forall k | index < k < |scan| ensures |InScope(scan[..k], within)| > MAX_SYMBOL_LOCATIONS {
      InScopeOfPrefix(scan[..k], within, index + 1);
      assert scan[..k][..index + 1] == scan[..index + 1];
    }
  }

  /**
   The in-scope locations up to the ceiling. The flag is set exactly when the scan bound or the
   in-scope ceiling was exceeded; an entry that cannot be mapped fails the call if it is reached.
   `entries` is what the per-entry mapping makes of the provider's array.
   */
  method MapProviderLocations(entries: seq<Option<ProviderLocation>>, within: string -> bool)
    returns (r: Option<(seq<ProviderLocation>, bool)>)
    ensures var scan := if |entries| < MAX_LOCATION_SCAN then entries else entries[..MAX_LOCATION_SCAN];
      var all := InScope(scan, within);
      && (r.Some? ==> r.value.0 == (if |all| > MAX_SYMBOL_LOCATIONS then all[..MAX_SYMBOL_LOCATIONS] else all)
                      && (r.value.1 <==> |entries| > MAX_LOCATION_SCAN || |all| > MAX_SYMBOL_LOCATIONS))
      && (r.None? <==>
            exists k :: 0 <= k < |scan| && scan[k].None? && |InScope(scan[..k], within)| <= MAX_SYMBOL_LOCATIONS)
  {
    var locations: seq<ProviderLocation> := [];
    var scanned := if |entries| < MAX_LOCATION_SCAN then |entries| else MAX_LOCATION_SCAN;
    var truncated := |entries| > scanned;
    ghost var scan := entries[..scanned];
    assert |entries| < MAX_LOCATION_SCAN ==> scan == entries;
    for index := 0 to scanned
      invariant locations == InScope(scan[..index], within) && |locations| <= MAX_SYMBOL_LOCATIONS
      invariant truncated <==> |entries| > scanned
      invariant forall k :: 0 <= k < index ==> scan[k].Some?
    {
      var mapped := entries[index];
      assert scan[..index + 1][..index] == scan[..index];
      if mapped == None { return None; }
      if !within(mapped.value.uri) { continue; }
      if |locations| >= MAX_SYMBOL_LOCATIONS {
        CeilingStops(scan, within, index);
        return Some((locations, true));
      }
      locations := locations + [mapped.value];
    }
    assert scan[..scanned] == scan;
    return Some((locations, truncated));
  }

  // ----- Fitting a response -----------------------------------------------------------------------

  /**
   Halves an oversized result until it fits. The flag says whether anything is missing: what was
   already incomplete, or what was dropped here; and no more was dropped than a halving too few.
   */
  method FitSearchResult(symbols: seq<Symbol>, incomplete: bool, fits: seq<Symbol> -> bool)
    returns (kept: seq<Symbol>, truncated: bool)
    ensures kept <= symbols && (kept == [] || fits(kept))
    ensures truncated <==> incomplete || kept != symbols
    ensures fits(symbols) ==> kept == symbols
    ensures kept != symbols ==> exists m :: |kept| < m <= |symbols| && |kept| == m / 2 && !fits(symbols[..m])
  {
    kept, truncated := symbols, incomplete;
    while |kept| > 0 && !fits(kept)
      invariant kept <= symbols && (truncated <==> incomplete || kept != symbols)
      invariant kept != symbols ==> exists m :: |kept| < m <= |symbols| && |kept| == m / 2 && !fits(symbols[..m])
      invariant fits(symbols) ==> kept == symbols
      decreases |kept|
    {
      assert symbols[..|kept|] == kept;
      kept := kept[..|kept| / 2];
      truncated := true;
    }
  }
}
