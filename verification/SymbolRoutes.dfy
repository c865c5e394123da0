/** From provider output to a response: mapped, given handles, and clean by the conformance rules. */
module SymbolRoutes {
  import opened Common
  import opened Symbols
  import opened Registry
  import opened HandleRegistry
  import opened Conformance
  import SymbolMapper
  import WorkspaceSearch

  /** The response is judged in the session, adapter and epoch its handles were minted for. */
  ghost predicate Agrees(c: Context, subject: Subject) {
    c.adapterId == subject.adapterId && c.sessionId == subject.sessionId
      && c.workspaceEpoch == subject.workspace.workspaceEpoch
  }

  /** Any result that mirrors an accepted forest passes the walk, at every depth. */
  /** A node minted for a well-formed draft inside a root is sound. */
  lemma MintedIsSound(d: Draft, n: Symbol, c: Context, subject: Subject)
    requires SymbolMapper.WellFormedDraft(d, d.locator.documentUri) && Agrees(c, subject)
    requires WithinAnyRoot(d.locator.documentUri, subject.workspace)
    requires n.locator == d.locator && n.range == d.range
    requires n.handle.adapterId == c.adapterId && n.handle.sessionId == c.sessionId
    requires n.handle.validUntilEpoch == c.workspaceEpoch
    ensures Sound(n, subject)
  {
    hide WithinAnyRoot;
    GeometryAgrees(d.range, d.range);
    GeometryAgrees(d.locator.selectionRange, d.range);
    GeometryAgrees(d.range, d.locator.selectionRange);
  }

  lemma DocumentResponseIsClean(drafts: seq<Draft>, symbols: seq<Symbol>, c: Context, subject: Subject)
    requires SymbolMapper.AllWellFormed(drafts, subject.requestedUri)
    requires Mirrors(symbols, drafts, c) && DistinctIds(Nodes(symbols)) && Agrees(c, subject)
    requires WithinAnyRoot(subject.requestedUri, subject.workspace)
    ensures Walk(symbols, subject, {}).0 == []
  {
    hide Sound, WithinAnyRoot, Walk, Mirrors, Agrees, DistinctIds;
    var ns, ds := Nodes(symbols), Drafts(drafts);
    MirrorsNodeByNode(symbols, drafts, c);
    forall i | 0 <= i < |ns| ensures Sound(ns[i], subject) && ns[i].locator.documentUri == subject.requestedUri {
      assert SymbolMapper.WellFormedDraft(ds[i], subject.requestedUri);
      MintedIsSound(ds[i], ns[i], c, subject);
    }
    WalkIsCleanIff(symbols, subject, {});
  }

  /** Any prefix of a flat result over in-scope, well-formed hits passes the search rules. */
  lemma SearchResponseIsClean(drafts: seq<Draft>, symbols: seq<Symbol>, kept: seq<Symbol>, c: Context, subject: Subject)
    requires forall i :: 0 <= i < |drafts| ==> SymbolMapper.WellFormedDraft(drafts[i], drafts[i].locator.documentUri)
                                               && WithinAnyRoot(drafts[i].locator.documentUri, subject.workspace)
    requires Mirrors(symbols, Flat(drafts), c) && DistinctIds(Nodes(symbols)) && Agrees(c, subject) && kept <= symbols
    ensures WalkHits(kept, subject, {}) == [] && |kept| <= |drafts|
  {
    hide AllFlat, WalkHits, Mirrors, Agrees, DistinctIds, SymbolMapper.WellFormedDraft, WithinAnyRoot;
    LeavesAreTheirOwnNodes(Flat(drafts));
    LeafSymbolsAreTheirOwnNodes(symbols, Flat(drafts), c);
    HitsAreSound(drafts, symbols, c, subject);
    PrefixIsFlatAndDistinct(symbols, kept, subject);
    assert HandleIds(kept) !! {};
    HitsAreCleanIff(kept, subject, {});
  }

  lemma HitsAreSound(drafts: seq<Draft>, symbols: seq<Symbol>, c: Context, subject: Subject)
    requires forall i :: 0 <= i < |drafts| ==> SymbolMapper.WellFormedDraft(drafts[i], drafts[i].locator.documentUri)
                                               && WithinAnyRoot(drafts[i].locator.documentUri, subject.workspace)
    requires Mirrors(symbols, Flat(drafts), c) && Agrees(c, subject)
    requires forall i :: 0 <= i < |symbols| ==> symbols[i].children == []
    ensures |symbols| == |drafts| && AllFlat(symbols, subject)
  {
    hide Sound, WithinAnyRoot, Agrees, SymbolMapper.WellFormedDraft;
    forall i | 0 <= i < |symbols| ensures Sound(symbols[i], subject) {
      MintedIsSound(drafts[i], symbols[i], c, subject);
    }
  }

  lemma PrefixIsFlatAndDistinct(symbols: seq<Symbol>, kept: seq<Symbol>, subject: Subject)
    requires kept <= symbols && AllFlat(symbols, subject) && DistinctIds(symbols)
    ensures AllFlat(kept, subject) && DistinctIds(kept)
  {
    hide Sound;
    assert forall i :: 0 <= i < |kept| ==> kept[i] == symbols[i];
  }

  lemma {:induction false} LeafSymbolsAreTheirOwnNodes(ss: seq<Symbol>, ds: seq<Draft>, c: Context)
    requires Mirrors(ss, ds, c) && forall i :: 0 <= i < |ds| ==> ds[i].children == []
    ensures Nodes(ss) == ss && forall i :: 0 <= i < |ss| ==> ss[i].children == []
  {
    if ss != [] {
      forall i | 0 <= i < |ss[1..]| ensures Mirrors(ss[1..][i].children, ds[1..][i].children, c) {
        assert ss[1..][i] == ss[i + 1] && ds[1..][i] == ds[i + 1];
      }
      LeafSymbolsAreTheirOwnNodes(ss[1..], ds[1..], c);
      assert Mirrors(ss[0].children, ds[0].children, c);
      assert ss == [ss[0]] + [] + ss[1..];
    }
  }

  /** A response, or the error code the request ends with. */
  datatype Answer<+T> = Answered(value: T) | CapabilityUnavailable | ProviderFailed

  /**
   `document/getSymbols`, once both reads agree on the revision of a document inside a root. `minted`
   is what the registry gave out; a response too large to send is refused after that.
   */
  method AnswerDocumentSymbols(handles: VscodeSymbolHandleRegistry, heap: SymbolMapper.Heap,
                               value: SymbolMapper.Provided, c: Context, fits: seq<Symbol> -> bool,
                               ghost subject: Subject)
    returns (r: Answer<seq<Symbol>>, ghost minted: Option<seq<Symbol>>, ghost dropped: nat)
    requires handles.Valid() && Agrees(c, subject) && c.documentUri == subject.requestedUri
    requires WithinAnyRoot(c.documentUri, subject.workspace)
    modifies handles
    ensures handles.Valid()
    ensures r.CapabilityUnavailable? <==> value.Nothing?
    ensures
      var mapped := SymbolMapper.MapDocumentSymbols(heap, value, c.documentUri);
      && (mapped.Accepted? ==>
            Decided(minted.Some?, handles.random, old(handles.drawn), handles.drawn, old(handles.records),
                    old(handles.Growth(mapped.drafts, c)), handles.maxHandles))
      && (minted.Some? ==>
            && mapped.Accepted? && Mirrors(minted.value, mapped.drafts, c) && Walk(minted.value, subject, {}).0 == []
            && handles.ResolveAtHome(Nodes(minted.value), DocumentHandle, c))
    ensures r.Answered? <==> minted.Some? && fits(minted.value)
    ensures r.Answered? ==> minted == Some(r.value)
    ensures dropped <= |old(handles.transientGenerations)|
    ensures
      var survivors := old(handles.records) - Union(old(handles.transientGenerations)[..dropped]);
      && (minted.Some? ==>
            DocumentReplaced(old(handles.documentHandles), survivors, handles.records, handles.documentHandles,
                             minted.value, SymbolMapper.MapDocumentSymbols(heap, value, c.documentUri).drafts, c))
      && (minted.None? ==> handles.documentHandles == old(handles.documentHandles) && handles.records == survivors)
  {
    NothingDropped(handles.records, handles.transientGenerations);
    hide Walk, WithinAnyRoot, Decided, VscodeSymbolHandleRegistry.ResolveAtHome, Mirrors, Union;
    minted, dropped := None, 0;
    var mapped := SymbolMapper.MapDocumentSymbols(heap, value, c.documentUri);
    assert mapped.Undefined? <==> value.Nothing?;
    hide SymbolMapper.MapDocumentSymbols;
    if mapped.Undefined? { return CapabilityUnavailable, None, 0; }
    if mapped.Thrown? { return ProviderFailed, None, 0; }
    var symbols;
    symbols, dropped := handles.Materialize(mapped.drafts, c);
    if symbols == None { return ProviderFailed, None, dropped; }
    SymbolMapper.AcceptedIsWellFormed(heap, value, c.documentUri);
    DocumentResponseIsClean(mapped.drafts, symbols.value, c, subject);
    minted := symbols;
    r := if fits(symbols.value) then Answered(symbols.value) else ProviderFailed;
  }

  lemma NothingDropped(records: map<string, Record>, gs: seq<set<string>>)
    ensures records - Union(gs[..0]) == records
  {}

  /**
   `workspace/searchSymbols`, once the workspace is known to be the one the search began in. `drafts`
   is what the mapper kept and `minted` what the registry gave out for it.
   */
  method AnswerWorkspaceSearch(handles: VscodeSymbolHandleRegistry, heap: SymbolMapper.Heap,
                               value: SymbolMapper.Provided, o: WorkspaceSearch.Options, c: Context,
                               fits: seq<Symbol> -> bool, ghost subject: Subject)
    returns (r: Answer<(seq<Symbol>, bool)>, ghost drafts: seq<Draft>, ghost minted: Option<seq<Symbol>>)
    requires handles.Valid() && Agrees(c, subject)
    requires forall uri :: o.within(uri) ==> WithinAnyRoot(uri, subject.workspace)
    modifies handles
    ensures handles.Valid() && handles.documentHandles == old(handles.documentHandles)
    ensures r.CapabilityUnavailable? <==> value.Nothing?
    ensures value.Array? && o.limit >= 1 ==>
      && drafts <= WorkspaceSearch.Hits(heap, value.items, o) && |drafts| <= o.limit
      && Decided(minted.Some?, handles.random, old(handles.drawn), handles.drawn, old(handles.records), |drafts|,
                 handles.maxHandles)
    ensures minted.Some? ==> value.Array? && o.limit >= 1 && Mirrors(minted.value, Flat(drafts), c)
    ensures minted.Some? && fits([]) ==> r.Answered?
    ensures r.Answered? ==>
      && minted.Some? && r.value.0 <= minted.value && fits(r.value.0)
      && WalkHits(r.value.0, subject, {}) == [] && handles.ResolveAtHome(r.value.0, TransientHandle, c)
    ensures r.Answered? && !r.value.1 ==>
            r.value.0 == minted.value && drafts == WorkspaceSearch.Hits(heap, value.items, o)
  {
    hide WalkHits, WithinAnyRoot, Decided, VscodeSymbolHandleRegistry.ResolveAtHome, Mirrors, WorkspaceSearch.Hits,
         Agrees;
    drafts, minted := [], None;
    var found, examined := WorkspaceSearch.MapWorkspaceSymbols(heap, value, o);
    if found.Undefined? { return CapabilityUnavailable, drafts, minted; }
    if found.Thrown? { return ProviderFailed, drafts, minted; }
    drafts := found.drafts;
    WorkspaceSearch.CompleteMeansNothingLost(heap, value.items, o, found, examined);
    var symbols, reserved, dropped, survivors := handles.MaterializeTransient(found.drafts, c);
    if symbols == None { return ProviderFailed, drafts, minted; }
    minted := symbols;
    var kept, truncated := WorkspaceSearch.FitSearchResult(symbols.value, found.incomplete, fits);
    forall i | 0 <= i < |found.drafts|
      ensures SymbolMapper.WellFormedDraft(found.drafts[i], found.drafts[i].locator.documentUri)
              && WithinAnyRoot(found.drafts[i].locator.documentUri, subject.workspace)
    {
      WorkspaceSearch.HitsAreWellFormed(heap, value.items[..examined], o, i);
    }
    SearchResponseIsClean(found.drafts, symbols.value, kept, c, subject);
    KeptResolve(handles, found.drafts, symbols.value, kept, c);
    r := if fits(kept) then Answered((kept, truncated)) else ProviderFailed;
  }

  /** The results kept are among those minted, so they resolve as those do. */
  lemma KeptResolve(handles: VscodeSymbolHandleRegistry, drafts: seq<Draft>, symbols: seq<Symbol>, kept: seq<Symbol>,
                    c: Context)
    requires Mirrors(symbols, Flat(drafts), c) && handles.ResolveAtHome(Nodes(symbols), TransientHandle, c)
    requires kept <= symbols
    ensures handles.ResolveAtHome(kept, TransientHandle, c)
  {
    LeafSymbolsAreTheirOwnNodes(symbols, Flat(drafts), c);
    forall i | 0 <= i < |kept| ensures kept[i] == Nodes(symbols)[i] {}
  }
}
