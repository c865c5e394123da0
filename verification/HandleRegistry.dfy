/** The registry as the adapter holds it, updated in place by every result and every invalidation. */
module HandleRegistry {
  import opened Common
  import opened Symbols
  import opened Registry

  class VscodeSymbolHandleRegistry {
    const maxHandles: nat
    /** The random source: the n-th identifier it ever yields. */
    const random: nat -> string
    var drawn: nat
    var records: map<string, Record>
    var documentHandles: map<string, set<string>>
    var transientGenerations: seq<set<string>>
    var transientByDocument: map<string, set<string>>

    /** Both indexes agree with the records, and the generations share out the transient ones. */
    ghost predicate Consistent() reads this {
      && Indexes(records, DocumentHandle, documentHandles)
      && Indexes(records, TransientHandle, transientByDocument)
      && Generations(records, transientGenerations)
    }

    ghost predicate Valid() reads this {
      && Consistent()
      && |transientGenerations| <= MAX_TRANSIENT_GENERATIONS && |records| <= maxHandles
    }

    constructor (maxHandles: nat, random: nat -> string)
      requires maxHandles >= 1
      ensures Valid() && records == map[] && this.maxHandles == maxHandles && this.random == random
    {
      this.maxHandles, this.random, drawn := maxHandles, random, 0;
      records, documentHandles, transientGenerations, transientByDocument := map[], map[], [], map[];
    }

    // ----- Resolution -----------------------------------------------------------------------------

    function Resolve(handle: Handle, c: Context): (r: Option<Resolved>)
      reads this
      ensures handle.id !in records ==> r.None?
      ensures r.Some? ==> handle.adapterId == c.adapterId && handle.sessionId == c.sessionId
                          && handle.validUntilEpoch == c.workspaceEpoch
    {
      Lookup(records, handle, c)
    }

    /** Every node of a result resolves to its own locator in its own context, and in no other. */
    ghost predicate ResolveAtHome(ns: seq<Symbol>, kind: Kind, c: Context) reads this {
      forall i, d :: 0 <= i < |ns| ==> Resolve(ns[i].handle, d) == AtHome(ns[i], kind, c, d)
    }

    // ----- Eviction -------------------------------------------------------------------------------

    method EvictOldestTransient()
      requires Consistent()
      modifies this
      ensures Consistent() && documentHandles == old(documentHandles) && drawn == old(drawn)
      ensures
        if old(transientGenerations) == [] then
          transientGenerations == [] && records == old(records)
        else
          && transientGenerations == old(transientGenerations[1..])
          && records == old(records) - old(transientGenerations[0])
          && forall handle: Handle, d :: handle.id in old(transientGenerations[0]) ==> Resolve(handle, d).None?
    {
      hide Indexes, Generations;
      if transientGenerations == [] { return; }
      OldestGenerationGoes(records, transientGenerations);
      var oldest := transientGenerations[0];
      transientGenerations := transientGenerations[1..];
      ghost var r0, g := records, transientGenerations;
      var rest := oldest;
      while rest != {}
        invariant rest <= oldest && rest <= Transients(records)
        invariant records == r0 - (oldest - rest)
        invariant documentHandles == old(documentHandles) && drawn == old(drawn) && transientGenerations == g
        invariant Indexes(records, DocumentHandle, documentHandles)
                  && Indexes(records, TransientHandle, transientByDocument)
        decreases rest
      {
        var id :| id in rest;
        rest := rest - {id};
        DropTransient(id);
        assert records == r0 - (oldest - rest);
      }
      assert oldest - rest == oldest;
    }

    /** Deletes one transient record and its index entry, and the entry itself once it is empty. */
    method DropTransient(id: string)
      requires Indexes(records, DocumentHandle, documentHandles)
               && Indexes(records, TransientHandle, transientByDocument)
      requires id in Transients(records)
      modifies this
      ensures Indexes(records, DocumentHandle, documentHandles)
              && Indexes(records, TransientHandle, transientByDocument)
      ensures records == old(records) - {id}
      ensures documentHandles == old(documentHandles) && drawn == old(drawn)
              && transientGenerations == old(transientGenerations)
    {
      hide Indexes;
      IndexesDropTransient(records, documentHandles, transientByDocument, id);
      var k := KeyOf(records[id]);
      var left := transientByDocument[k] - {id};
      records := records - {id};
      transientByDocument := if left == {} then transientByDocument - {k} else transientByDocument[k := left];
    }

    /**
     Evicts whole transient generations, oldest first and no more than needed. Only the documents'
     own handles can make a request fail.
     */
    method ReserveCapacity(additional: int) returns (ok: bool, ghost dropped: nat)
      requires Consistent()
      modifies this
      ensures Consistent() && documentHandles == old(documentHandles) && drawn == old(drawn)
      ensures OldestDropped(old(records), old(transientGenerations), records, transientGenerations, dropped)
      ensures Permanent(records) == Permanent(old(records))
      ensures ok == (|Permanent(records)| + additional <= maxHandles)
      ensures ok ==> |records| + additional <= maxHandles
      ensures Needed(old(records), old(transientGenerations), dropped, additional, maxHandles)
    {
      hide Indexes, Generations, Union, Permanent, OldestDropped, Needed;
      dropped := 0;
      DropNone(records, transientGenerations, additional, maxHandles);
      while |records| + additional > maxHandles && transientGenerations != []
        invariant Consistent() && documentHandles == old(documentHandles) && drawn == old(drawn)
        invariant OldestDropped(old(records), old(transientGenerations), records, transientGenerations, dropped)
        invariant Permanent(records) == Permanent(old(records))
        invariant Needed(old(records), old(transientGenerations), dropped, additional, maxHandles)
        decreases |transientGenerations|
      {
        DropOneMore(old(records), old(transientGenerations), records, transientGenerations, dropped);
        OldestGenerationGoes(records, transientGenerations);
        EvictOldestTransient();
        dropped := dropped + 1;
      }
      ok := |records| + additional <= maxHandles;
      FitsBesideDocuments(records, transientGenerations, additional, maxHandles);
    }

    // ----- Minting --------------------------------------------------------------------------------

    method CreateHandleId(staged: map<string, Record>) returns (id: Option<string>)
      modifies this`drawn
      ensures old(drawn) <= drawn
      ensures id.Some? ==> id.value !in records && id.value !in staged && Drawn(random, old(drawn), drawn, id.value)
      ensures id.None? ==>
        && drawn == old(drawn) + MAX_DRAW_ATTEMPTS
        && forall n: nat :: old(drawn) <= n < drawn ==> random(n) in records || random(n) in staged
    {
      for attempt := 0 to MAX_DRAW_ATTEMPTS
        invariant drawn == old(drawn) + attempt
        invariant forall n: nat :: old(drawn) <= n < drawn ==> random(n) in records || random(n) in staged
      {
        var candidate := random(drawn);
        drawn := drawn + 1;
        if candidate !in records && candidate !in staged { return Some(candidate); }
      }
      return None;
    }

    /** Mints a handle for every draft, parents before their children, without touching the registry. */
    method MaterializeDrafts(drafts: seq<Draft>, c: Context, kind: Kind, before: map<string, Record>)
      returns (symbols: Option<seq<Symbol>>, staged: map<string, Record>)
      modifies this`drawn
      ensures old(drawn) <= drawn
      ensures symbols.Some? ==>
        && Mints(symbols.value, drafts, c, kind, before, staged, records.Keys)
        && DrawnSince(random, old(drawn), drawn, before.Keys, staged.Keys)
      ensures symbols.None? ==> SixteenTaken(random, old(drawn), drawn, records.Keys + before.Keys)
      decreases drafts
    {
      hide Mints, RecordFor, Drawn, DrawnSince, SixteenTaken;
      var done: seq<Symbol> := [];
      staged := before;
      MintsNothing(c, kind, before, records.Keys);
      NothingDrawn(random, drawn, before.Keys);
      assert drafts[..0] == [];
      for i := 0 to |drafts|
        invariant Mints(done, drafts[..i], c, kind, before, staged, records.Keys)
        invariant old(drawn) <= drawn && DrawnSince(random, old(drawn), drawn, before.Keys, staged.Keys)
      {
        var draft := drafts[i];
        ghost var m1, from := staged, drawn;
        var id := CreateHandleId(staged);
        if id == None {
          StagedTaken(random, old(drawn), from, records.Keys, before.Keys, staged.Keys);
          return None, staged;
        }
        staged := staged[id.value := RecordFor(kind, c, draft.locator)];
        OneMoreStaged(random, old(drawn), from, drawn, before.Keys, m1, staged, id.value);
        ghost var m2, mid := staged, drawn;
        var children;
        children, staged := MaterializeDrafts(draft.children, c, kind, staged);
        if children == None {
          TakenWidens(random, old(drawn), mid, drawn, records.Keys, before.Keys, m2.Keys);
          return None, staged;
        }
        DrawnThrough(random, old(drawn), mid, drawn, before.Keys, m2.Keys, staged.Keys);
        var symbol := Symbol(Handle(c.adapterId, c.sessionId, id.value, c.workspaceEpoch), draft.locator, draft.range,
                             children.value);
        MintsOneMore(done, drafts[..i], symbol, draft, c, kind, before, m1, staged, records.Keys);
        done := done + [symbol];
        assert drafts[..i + 1] == drafts[..i] + [draft];
      }
      assert drafts[..|drafts|] == drafts;
      return Some(done), staged;
    }

    /** The stack walk counts exactly the handles the recursive mint creates. */
    static method CountDrafts(drafts: seq<Draft>) returns (count: nat)
      ensures count == |Drafts(drafts)|
    {
      count := 0;
      var stack := drafts;
      while stack != []
        invariant count + |Drafts(stack)| == |Drafts(drafts)|
        decreases |Drafts(stack)|
      {
        var draft := stack[|stack| - 1];
        DraftsSnoc(stack[..|stack| - 1], draft);
        assert stack == stack[..|stack| - 1] + [draft];
        stack := stack[..|stack| - 1];
        count := count + 1;
        DraftsConcat(stack, draft.children);
        stack := stack + draft.children;
      }
    }

    /** The part of a result that can be refused: room for its handles, then a handle for each. */
    method ReserveAndMint(additional: int, drafts: seq<Draft>, c: Context, kind: Kind)
      returns (symbols: Option<seq<Symbol>>, staged: map<string, Record>, ghost dropped: nat)
      requires Valid()
      modifies this
      ensures Valid() && documentHandles == old(documentHandles) && dropped <= |old(transientGenerations)|
      ensures OldestDropped(old(records), old(transientGenerations), records, transientGenerations, dropped)
      ensures records == old(records) - Union(old(transientGenerations)[..dropped])
      ensures Permanent(old(records)) <= records.Keys
      ensures Needed(old(records), old(transientGenerations), dropped, additional, maxHandles)
      ensures symbols.Some? ==>
        |records| + additional <= maxHandles && Mints(symbols.value, drafts, c, kind, map[], staged, records.Keys)
      ensures Decided(symbols.Some?, random, old(drawn), drawn, old(records), additional, maxHandles)
    {
      hide Indexes, Generations, Union, Mints, OldestDropped, Permanent, SixteenTaken, NeverRepeats, DrawnSince, Needed;
      staged := map[];
      var ok;
      ok, dropped := ReserveCapacity(additional);
      DroppedFacts(old(records), old(transientGenerations), records, transientGenerations, dropped);
      if !ok { return None, staged, dropped; }
      symbols, staged := MaterializeDrafts(drafts, c, kind, staged);
      if symbols == None { TakenAmongMore(random, old(drawn), drawn, records.Keys + {}, old(records).Keys); }
      LuckIsEnough(random, old(drawn), drawn, old(records).Keys);
    }

    // ----- Results --------------------------------------------------------------------------------

    /** How many more handles a document would hold than it does. */
    ghost function Growth(drafts: seq<Draft>, c: Context): int reads this {
      var key := Key(c.workspaceId, c.documentUri);
      |Drafts(drafts)| - if key in documentHandles then |documentHandles[key]| else 0
    }

    /** Replaces exactly this document's handles; a refusal loses at most transient ones. */
    method Materialize(drafts: seq<Draft>, c: Context) returns (symbols: Option<seq<Symbol>>, ghost dropped: nat)
      requires Valid()
      modifies this
      ensures Valid() && dropped <= |old(transientGenerations)|
      ensures symbols.None? ==> documentHandles == old(documentHandles)
                                && records == old(records) - Union(old(transientGenerations)[..dropped])
      ensures symbols.Some? ==>
        DocumentReplaced(old(documentHandles), old(records) - Union(old(transientGenerations)[..dropped]),
                         records, documentHandles, symbols.value, drafts, c)
      ensures symbols.Some? ==> ResolveAtHome(Nodes(symbols.value), DocumentHandle, c)
      ensures Decided(symbols.Some?, random, old(drawn), drawn, old(records), old(Growth(drafts, c)), maxHandles)
      ensures Needed(old(records), old(transientGenerations), dropped, old(Growth(drafts, c)), maxHandles)
    {
      hide Needed, Decided, Permanent, Drafts, OldestDropped, Key, Mirrors;
      hide Indexes, Generations, Union, Mints, Nodes, DocumentReplaced;
      var count := CountDrafts(drafts);
      var documentKey := Key(c.workspaceId, c.documentUri);
      var replacedCount := if documentKey in documentHandles then |documentHandles[documentKey]| else 0;
      var result, staged;
      ghost var growth := Growth(drafts, c);
      result, staged, dropped := ReserveAndMint(count - replacedCount, drafts, c, DocumentHandle);
      assert growth == Growth(drafts, c) == count - replacedCount;
      if result == None { return None, dropped; }
      ReplaceHandles(result.value, drafts, c, staged);
      return result, dropped;
    }

    /** The end of a successful request: the document's old handles go, and the staged ones come. */
    method ReplaceHandles(ghost symbols: seq<Symbol>, ghost drafts: seq<Draft>, c: Context, staged: map<string, Record>)
      requires Valid() && Mints(symbols, drafts, c, DocumentHandle, map[], staged, records.Keys)
      requires |records| + Growth(drafts, c) <= maxHandles
      modifies this
      ensures Valid() && drawn == old(drawn)
      ensures DocumentReplaced(old(documentHandles), old(records), records, documentHandles, symbols, drafts, c)
      ensures ResolveAtHome(Nodes(symbols), DocumentHandle, c)
    {
      hide Indexes, Generations, Union, Mints, Nodes, DocumentReplaced;
      var documentKey := Key(c.workspaceId, c.documentUri);
      ghost var survivors := records;
      StagedRecords(symbols, drafts, c, DocumentHandle, staged, records.Keys);
      ReplacementFits(records, documentHandles, documentKey, staged, maxHandles);
      InvalidateDocument(c.workspaceId, c.documentUri);
      InstallDocument(documentKey, staged);
      InstalledReplaces(old(documentHandles), survivors, records, documentHandles, symbols, drafts, c, staged);
      ReplacedResolve(old(documentHandles), survivors, records, documentHandles, symbols, drafts, c);
    }

    /** How many of so many generations are past the bound. */
    static function PastBound(generations: int): int {
      if generations > MAX_TRANSIENT_GENERATIONS then generations - MAX_TRANSIENT_GENERATIONS else 0
    }

    /**
     Adds one generation of results; neither success nor refusal costs a document any handle, and of
     the earlier generations `reserved`, no more than needed, make room, and then those past five go.
     */
    method MaterializeTransient(drafts: seq<Draft>, c: Context)
      returns (symbols: Option<seq<Symbol>>, ghost reserved: nat, ghost dropped: nat,
               ghost survivors: map<string, Record>)
      requires Valid()
      modifies this
      ensures Valid() && documentHandles == old(documentHandles) && dropped <= |old(transientGenerations)|
      ensures Needed(old(records), old(transientGenerations), reserved, |drafts|, maxHandles)
      ensures dropped == reserved + if symbols.Some? then PastBound(|old(transientGenerations)| - reserved + 1) else 0
      ensures symbols.None? ==> records == old(records) - Union(old(transientGenerations)[..dropped])
      ensures Permanent(old(records)) <= survivors.Keys
      ensures symbols.Some? ==>
        GenerationAdded(old(records), old(transientGenerations), survivors, records, transientGenerations,
                        symbols.value, drafts, c, dropped)
      ensures symbols.Some? ==> ResolveAtHome(Nodes(symbols.value), TransientHandle, c)
      ensures Decided(symbols.Some?, random, old(drawn), drawn, old(records), |drafts|, maxHandles)
    {
      hide Decided, Indexes, Generations, Union, Mints, Nodes, GenerationAdded, Drafts, Needed, Permanent, Mirrors;
      ghost var r0, g0 := records, transientGenerations;
      var result, staged;
      result, staged, reserved := ReserveAndMint(|drafts|, Flat(drafts), c, TransientHandle);
      survivors := records;
      if result == None { return None, reserved, reserved, survivors; }
      ghost var evicted := AddResults(result.value, drafts, c, staged, r0, g0, reserved);
      return result, reserved, reserved + evicted, survivors;
    }

    /** The end of a successful search: one more generation, and those past five go. */
    method AddResults(ghost symbols: seq<Symbol>, ghost drafts: seq<Draft>, ghost c: Context,
                      staged: map<string, Record>, ghost r0: map<string, Record>, ghost g0: seq<set<string>>,
                      ghost reserved: nat)
      returns (ghost evicted: nat)
      requires Valid() && OldestDropped(r0, g0, records, transientGenerations, reserved)
               && |records| + |drafts| <= maxHandles
      requires Mints(symbols, Flat(drafts), c, TransientHandle, map[], staged, records.Keys)
      modifies this
      ensures Valid() && documentHandles == old(documentHandles) && drawn == old(drawn)
      ensures evicted == PastBound(|old(transientGenerations)| + 1) && reserved + evicted <= |g0|
      ensures GenerationAdded(r0, g0, old(records), records, transientGenerations, symbols, drafts, c,
                              reserved + evicted)
      ensures ResolveAtHome(Nodes(symbols), TransientHandle, c)
    {
      hide Indexes, Generations, Union, Mints, Nodes, GenerationAdded, Transients, Drafts, Flat, OldestDropped,
           Permanent, Mirrors, DistinctIds, HandleIds, Recorded, RecordFor;
      ghost var survivors, g1 := records, transientGenerations;
      StagedRecords(symbols, Flat(drafts), c, TransientHandle, staged, records.Keys);
      LeavesAreTheirOwnNodes(Flat(drafts));
      evicted := AddGeneration(staged);
      SearchAddsGeneration(r0, g0, survivors, g1, reserved, records, transientGenerations, evicted, symbols, drafts, c,
                           staged);
      AddedResolve(r0, g0, survivors, records, transientGenerations, symbols, drafts, c, reserved + evicted);
    }

    method AddGeneration(staged: map<string, Record>) returns (ghost evicted: nat)
      requires Consistent() && |transientGenerations| <= MAX_TRANSIENT_GENERATIONS && staged.Keys !! records.Keys
      requires |records| + |staged| <= maxHandles && forall id :: id in staged ==> staged[id].kind == TransientHandle
      modifies this
      ensures Valid() && documentHandles == old(documentHandles) && drawn == old(drawn)
              && evicted <= |old(transientGenerations)|
      ensures evicted == PastBound(|old(transientGenerations)| + 1)
      ensures OldestDropped(old(records) + staged, old(transientGenerations) + [staged.Keys], records,
                            transientGenerations, evicted)
    {
      hide Indexes, Generations, Union, OldestDropped;
      AdditionFits(records, staged);
      InstallGeneration(staged);
      evicted := TrimGenerations();
    }

    method TrimGenerations() returns (ghost evicted: nat)
      requires Consistent()
      modifies this
      ensures Consistent() && documentHandles == old(documentHandles) && drawn == old(drawn)
      ensures |transientGenerations| <= MAX_TRANSIENT_GENERATIONS
      ensures OldestDropped(old(records), old(transientGenerations), records, transientGenerations, evicted)
      ensures evicted == PastBound(|old(transientGenerations)|)
      ensures |records| <= |old(records)|
    {
      hide Indexes, Generations, Union;
      evicted := 0;
      DropNone(records, transientGenerations, 0, maxHandles);
      while |transientGenerations| > MAX_TRANSIENT_GENERATIONS
        invariant Consistent() && documentHandles == old(documentHandles) && drawn == old(drawn)
        invariant OldestDropped(old(records), old(transientGenerations), records, transientGenerations, evicted)
        invariant evicted > 0 ==> |transientGenerations| >= MAX_TRANSIENT_GENERATIONS
        decreases |transientGenerations|
      {
        DropOneMore(old(records), old(transientGenerations), records, transientGenerations, evicted);
        EvictOldestTransient();
        evicted := evicted + 1;
      }
      RemovalShrinks(old(records), Union(old(transientGenerations)[..evicted]));
    }

    method InstallGeneration(staged: map<string, Record>)
      requires Consistent() && staged.Keys !! records.Keys
      requires forall id :: id in staged ==> staged[id].kind == TransientHandle
      modifies this
      ensures Consistent() && records == old(records) + staged && documentHandles == old(documentHandles)
      ensures transientGenerations == old(transientGenerations) + [staged.Keys] && drawn == old(drawn)
    {
      hide Indexes, Generations;
      ghost var r0 := records;
      NewGeneration(records, transientGenerations, staged, staged.Keys);
      var generation, rest := {}, staged.Keys;
      while rest != {}
        invariant generation == staged.Keys - rest && rest <= staged.Keys
        invariant records == r0 + map id | id in generation && id in staged :: staged[id]
        invariant documentHandles == old(documentHandles) && transientGenerations == old(transientGenerations)
                  && drawn == old(drawn)
        invariant Indexes(records, DocumentHandle, documentHandles)
                  && Indexes(records, TransientHandle, transientByDocument)
        decreases rest
      {
        var id :| id in rest;
        rest := rest - {id};
        IndexesAddTransient(records, transientByDocument, id, staged[id]);
        DocumentsIgnoreTransient(records, documentHandles, id, staged[id]);
        records := records[id := staged[id]];
        generation := generation + {id};
        var documentKey := KeyOf(staged[id]);
        var byDocument := if documentKey in transientByDocument then transientByDocument[documentKey] else {};
        transientByDocument := transientByDocument[documentKey := byDocument + {id}];
      }
      assert generation == staged.Keys;
      assert (map id | id in generation && id in staged :: staged[id]) == staged;
      transientGenerations := transientGenerations + [generation];
    }

    method InstallDocument(documentKey: string, staged: map<string, Record>)
      requires Consistent() && documentKey !in documentHandles && staged.Keys !! records.Keys
      requires forall id :: id in staged ==> staged[id].kind == DocumentHandle && KeyOf(staged[id]) == documentKey
      modifies this
      ensures Consistent() && records == old(records) + staged && drawn == old(drawn)
      ensures documentHandles == old(documentHandles)[documentKey := staged.Keys]
              && transientGenerations == old(transientGenerations)
    {
      hide Indexes, Generations;
      IndexesAddDocument(records, documentHandles, documentKey, staged);
      OtherKindUnaffected(records, TransientHandle, transientByDocument, staged);
      GenerationsIgnoreDocuments(records, transientGenerations, records + staged);
      var ids := CopyRecords(staged);
      documentHandles := documentHandles[documentKey := ids];
    }

    method CopyRecords(staged: map<string, Record>) returns (ids: set<string>)
      requires staged.Keys !! records.Keys
      modifies this`records
      ensures records == old(records) + staged && ids == staged.Keys
    {
      var rest := staged.Keys;
      ids := {};
      while rest != {}
        invariant ids == staged.Keys - rest && rest <= staged.Keys
        invariant records == old(records) + map id | id in ids && id in staged :: staged[id]
        decreases rest
      {
        var id :| id in rest;
        rest := rest - {id};
        records := records[id := staged[id]];
        ids := ids + {id};
      }
      assert ids == staged.Keys;
      assert (map id | id in ids && id in staged :: staged[id]) == staged;
    }

    /** Forgets every handle of one document, its own and its transient ones, and no other. */
    method InvalidateDocument(workspaceId: string, documentUri: string)
      requires Consistent()
      modifies this
      ensures Consistent() && records == Without(old(records), Key(workspaceId, documentUri)) && drawn == old(drawn)
      ensures documentHandles == old(documentHandles) - {Key(workspaceId, documentUri)}
      ensures |transientGenerations| == |old(transientGenerations)|
      ensures forall i :: 0 <= i < |transientGenerations| ==> transientGenerations[i] <= old(transientGenerations)[i]
      ensures
        forall handle: Handle, d ::
          Resolve(handle, d) ==
          if handle.id in old(records) && KeyOf(old(records)[handle.id]) == Key(workspaceId, documentUri) then None
          else old(Resolve(handle, d))
    {
      hide Indexes, Generations;
      var documentKey := Key(workspaceId, documentUri);
      WithoutIsRemoval(records, documentHandles, transientByDocument, documentKey);
      IndexesForget(records, DocumentHandle, documentHandles, documentKey);
      IndexesForget(records, TransientHandle, transientByDocument, documentKey);
      ghost var r0 := records;
      if documentKey in documentHandles {
        records := records - documentHandles[documentKey];
        documentHandles := documentHandles - {documentKey};
      }
      GenerationsIgnoreDocuments(r0, transientGenerations, records);
      assert documentHandles == old(documentHandles) - {documentKey};
      if documentKey !in transientByDocument {
        assert transientByDocument - {documentKey} == transientByDocument && records == Without(r0, documentKey);
        return;
      }
      ForgetTransients(transientByDocument[documentKey]);
      transientByDocument := transientByDocument - {documentKey};
      assert records == Without(r0, documentKey);
    }

    /** Deletes transient records from the primary map and from whatever generation holds them. */
    method ForgetTransients(ids: set<string>)
      requires Generations(records, transientGenerations)
      modifies this`records, this`transientGenerations
      ensures records == old(records) - ids && Generations(records, transientGenerations)
      ensures |transientGenerations| == |old(transientGenerations)|
      ensures forall i :: 0 <= i < |transientGenerations| ==>
              transientGenerations[i] == old(transientGenerations)[i] - ids
    {
      var rest := ids;
      while rest != {}
        invariant rest <= ids && records == old(records) - (ids - rest)
        invariant |transientGenerations| == |old(transientGenerations)|
        invariant forall i :: 0 <= i < |transientGenerations| ==>
                  transientGenerations[i] == old(transientGenerations)[i] - (ids - rest)
        decreases rest
      {
        var id :| id in rest;
        rest := rest - {id};
        records := records - {id};
        var gs := transientGenerations;
        transientGenerations := seq(|gs|, i requires 0 <= i < |gs| => gs[i] - {id});
      }
      assert ids - rest == ids;
      GenerationsForget(old(records), old(transientGenerations), ids, transientGenerations);
    }

    method InvalidateAll()
      modifies this
      ensures Valid() && records == map[] && drawn == old(drawn)
      ensures forall handle: Handle, d :: Resolve(handle, d).None?
    {
      records, documentHandles, transientGenerations, transientByDocument := map[], map[], [], map[];
    }
  }
}
