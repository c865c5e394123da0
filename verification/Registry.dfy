/**
 The symbol handle registry: one map of live handles, two per-document indexes over it, and a FIFO
 of transient generations, under one capacity.
 */
module Registry {
  import opened Common
  import opened Symbols

  const MAX_TRANSIENT_GENERATIONS: nat := 5
  const MAX_DRAW_ATTEMPTS: nat := 16

  datatype Kind = DocumentHandle | TransientHandle
  datatype Record = Record(kind: Kind, workspaceId: string, documentUri: string, editorVersion: Option<int>,
                           locator: Locator)

  /** `documentUri` names the document of a `materialize`; a transient result names its own. */
  datatype Context = Context(adapterId: string, sessionId: string, workspaceId: string, documentUri: string,
                             editorVersion: Option<int>, workspaceEpoch: int)

  datatype Resolved = Resolved(kind: Kind, documentUri: string, editorVersion: Option<int>, locator: Locator)

  function Key(workspaceId: string, documentUri: string): string { workspaceId + ['\0'] + documentUri }

  function KeyOf(r: Record): string { Key(r.workspaceId, r.documentUri) }

  /** Distinct documents get distinct keys as long as workspace identifiers hold no NUL. */
  lemma KeyIsInjective(w1: string, u1: string, w2: string, u2: string)
    requires '\0' !in w1 && '\0' !in w2 && Key(w1, u1) == Key(w2, u2)
    ensures w1 == w2 && u1 == u2
  {
    var k := Key(w1, u1);
    assert k[|w1|] == '\0' && k[|w2|] == '\0';
    assert forall i :: 0 <= i < |w1| ==> k[i] == w1[i] && w1[i] != '\0';
    assert forall i :: 0 <= i < |w2| ==> k[i] == w2[i] && w2[i] != '\0';
    assert w1 == k[..|w1|] && w2 == k[..|w2|];
    assert u1 == k[|w1| + 1..] && u2 == k[|w2| + 1..];
  }

  /** Only this adapter's handles, of this physical session, epoch and workspace, resolve. */
  function Lookup(records: map<string, Record>, handle: Handle, c: Context): Option<Resolved> {
    if handle.adapterId != c.adapterId || handle.sessionId != c.sessionId
       || handle.validUntilEpoch != c.workspaceEpoch then None
    else if handle.id !in records || records[handle.id].workspaceId != c.workspaceId then None
    else var r := records[handle.id]; Some(Resolved(r.kind, r.documentUri, r.editorVersion, r.locator))
  }

  // ----- What a result promises -------------------------------------------------------------------

  /** The same forest, with a handle of this session and epoch on every node. */
  ghost predicate Mirrors(ss: seq<Symbol>, ds: seq<Draft>, c: Context) {
    && |ss| == |ds|
    && forall i :: 0 <= i < |ss| ==>
      && ss[i].locator == ds[i].locator && ss[i].range == ds[i].range
      && ss[i].handle.adapterId == c.adapterId && ss[i].handle.sessionId == c.sessionId
      && ss[i].handle.validUntilEpoch == c.workspaceEpoch
      && Mirrors(ss[i].children, ds[i].children, c)
  }

  ghost function HandleIds(ns: seq<Symbol>): set<string> { set i | 0 <= i < |ns| :: ns[i].handle.id }

  ghost predicate DistinctIds(ns: seq<Symbol>) {
    forall i, j :: 0 <= i < j < |ns| ==> ns[i].handle.id != ns[j].handle.id
  }

  /** What is kept for a handle: a document's tree belongs to that document, a hit to its own. */
  function RecordFor(kind: Kind, c: Context, l: Locator): Record {
    Record(kind, c.workspaceId, if kind == DocumentHandle then c.documentUri else l.documentUri, c.editorVersion, l)
  }

  ghost predicate Recorded(ns: seq<Symbol>, records: map<string, Record>, kind: Kind, c: Context) {
    forall i :: 0 <= i < |ns| ==>
      ns[i].handle.id in records && records[ns[i].handle.id] == RecordFor(kind, c, ns[i].locator)
  }

  /** `symbols` mirrors `drafts`, and its handles are new, distinct and staged with their own locators. */
  ghost predicate Mints(symbols: seq<Symbol>, drafts: seq<Draft>, c: Context, kind: Kind,
                        before: map<string, Record>, after: map<string, Record>, taken: set<string>) {
    var ns := Nodes(symbols);
    && Mirrors(symbols, drafts, c) && DistinctIds(ns)
    && HandleIds(ns) !! before.Keys && HandleIds(ns) !! taken
    && after.Keys == before.Keys + HandleIds(ns)
    && (forall id :: id in before ==> after[id] == before[id])
    && Recorded(ns, after, kind, c)
  }

  // ----- Identifiers drawn ------------------------------------------------------------------------

  ghost predicate Drawn(random: nat -> string, from: nat, to: nat, id: string) {
    exists j: nat :: from <= j < to && random(j) == id
  }

  /** Sixteen draws in a row, each an identifier taken before or drawn already since `from`. */
  ghost predicate SixteenTaken(random: nat -> string, from: nat, to: nat, taken: set<string>) {
    exists n: nat :: from <= n && n + MAX_DRAW_ATTEMPTS <= to && TakenFrom(random, from, n, taken)
  }

  ghost predicate TakenFrom(random: nat -> string, from: nat, n: nat, taken: set<string>) {
    forall i: nat :: n <= i < n + MAX_DRAW_ATTEMPTS ==> random(i) in taken || Drawn(random, from, n, random(i))
  }

  /** A source that repeats nothing from here on, and nothing taken. */
  ghost predicate NeverRepeats(random: nat -> string, from: nat, taken: set<string>) {
    && (forall i: nat :: from <= i ==> random(i) !in taken)
    && (forall i: nat, j: nat :: from <= i < j ==> random(i) != random(j))
  }

  lemma NeverSixteenTaken(random: nat -> string, from: nat, to: nat, taken: set<string>)
    requires NeverRepeats(random, from, taken)
    ensures !SixteenTaken(random, from, to, taken)
  {
    forall n: nat | from <= n ensures !TakenFrom(random, from, n, taken) {
      assert random(n) !in taken && !Drawn(random, from, n, random(n));
    }
  }

  /** Every identifier of `more` was taken before or has been drawn since. */
  ghost predicate DrawnSince(random: nat -> string, from: nat, to: nat, taken: set<string>, more: set<string>) {
    forall id :: id in more ==> id in taken || Drawn(random, from, to, id)
  }

  lemma DrawnLater(random: nat -> string, from: nat, mid: nat, to: nat, taken: set<string>, more: set<string>)
    requires DrawnSince(random, from, mid, taken, more) && mid <= to
    ensures DrawnSince(random, from, to, taken, more)
  {
    forall id | id in more ensures id in taken || Drawn(random, from, to, id) {
      if id !in taken {
        var j: nat :| from <= j < mid && random(j) == id;
        assert from <= j < to;
      }
    }
  }

  lemma DrawnThrough(random: nat -> string, from: nat, mid: nat, to: nat, a: set<string>, b: set<string>,
                     c: set<string>)
    requires from <= mid <= to && DrawnSince(random, from, mid, a, b) && DrawnSince(random, mid, to, b, c)
    ensures DrawnSince(random, from, to, a, c)
  {
    DrawnLater(random, from, mid, to, a, b);
    forall id | id in c ensures id in a || Drawn(random, from, to, id) {
      if id !in b {
        var j: nat :| mid <= j < to && random(j) == id;
        assert from <= j < to;
      }
    }
  }

  /** Sixteen draws that met `held` or what has been staged. */
  lemma StagedTaken(random: nat -> string, from: nat, n: nat, held: set<string>, before: set<string>,
                    staged: set<string>)
    requires from <= n && DrawnSince(random, from, n, before, staged)
    requires forall i: nat :: n <= i < n + MAX_DRAW_ATTEMPTS ==> random(i) in held || random(i) in staged
    ensures SixteenTaken(random, from, n + MAX_DRAW_ATTEMPTS, held + before)
  {
    assert TakenFrom(random, from, n, held + before);
  }

  /** What was staged meanwhile was drawn meanwhile. */
  lemma TakenWidens(random: nat -> string, from: nat, mid: nat, to: nat, held: set<string>, before: set<string>,
                    staged: set<string>)
    requires from <= mid && SixteenTaken(random, mid, to, held + staged)
             && DrawnSince(random, from, mid, before, staged)
    ensures SixteenTaken(random, from, to, held + before)
  {
    var taken, more := held + before, held + staged;
    var n: nat :| mid <= n && n + MAX_DRAW_ATTEMPTS <= to && TakenFrom(random, mid, n, more);
    forall i: nat | n <= i < n + MAX_DRAW_ATTEMPTS ensures random(i) in taken || Drawn(random, from, n, random(i)) {
      if random(i) in more {
        if random(i) !in taken {
          var j: nat :| from <= j < mid && random(j) == random(i);
          assert from <= j < n;
        }
      } else {
        var j: nat :| mid <= j < n && random(j) == random(i);
        assert from <= j < n;
      }
    }
    assert TakenFrom(random, from, n, taken);
  }

  lemma TakenAmongMore(random: nat -> string, from: nat, to: nat, taken: set<string>, more: set<string>)
    requires SixteenTaken(random, from, to, taken) && taken <= more
    ensures SixteenTaken(random, from, to, more)
  {
    var n: nat :| from <= n && n + MAX_DRAW_ATTEMPTS <= to && TakenFrom(random, from, n, taken);
    assert TakenFrom(random, from, n, more);
  }

  lemma NothingDrawn(random: nat -> string, from: nat, taken: set<string>)
    ensures DrawnSince(random, from, from, taken, taken)
  {}

  lemma OneMoreStaged(random: nat -> string, from: nat, mid: nat, to: nat, taken: set<string>,
                      m: map<string, Record>, n: map<string, Record>, id: string)
    requires DrawnSince(random, from, mid, taken, m.Keys) && from <= mid <= to && Drawn(random, mid, to, id)
    requires n.Keys == m.Keys + {id}
    ensures DrawnSince(random, from, to, taken, n.Keys)
  {
    var j: nat :| mid <= j < to && random(j) == id;
    assert from <= j < to;
    DrawnLater(random, from, mid, to, taken, m.Keys);
  }

  lemma LuckIsEnough(random: nat -> string, from: nat, to: nat, taken: set<string>)
    ensures NeverRepeats(random, from, taken) ==> !SixteenTaken(random, from, to, taken)
  {
    if NeverRepeats(random, from, taken) { NeverSixteenTaken(random, from, to, taken); }
  }

  /**
   A request is refused only for want of room beside the documents' handles or of an identifier in
   sixteen draws; with a source that never repeats, exactly for want of room.
   */
  ghost predicate Decided(ok: bool, random: nat -> string, from: nat, to: nat, records: map<string, Record>,
                          additional: int, max: int) {
    && (!ok ==> |Permanent(records)| + additional > max || SixteenTaken(random, from, to, records.Keys))
    && (NeverRepeats(random, from, records.Keys) ==> (ok <==> |Permanent(records)| + additional <= max))
  }

  lemma MintsNothing(c: Context, kind: Kind, m: map<string, Record>, taken: set<string>)
    ensures Mints([], [], c, kind, m, m, taken)
  {}

  /** A symbol bound to this context that carries its draft's own locator and range. */
  predicate Carries(s: Symbol, d: Draft, c: Context) {
    && s.locator == d.locator && s.range == d.range && s.handle.adapterId == c.adapterId
    && s.handle.sessionId == c.sessionId && s.handle.validUntilEpoch == c.workspaceEpoch
  }

  lemma MintsOneMore(ss: seq<Symbol>, ds: seq<Draft>, s: Symbol, d: Draft, c: Context, kind: Kind,
                     m0: map<string, Record>, m1: map<string, Record>, m2: map<string, Record>, taken: set<string>)
    requires Mints(ss, ds, c, kind, m0, m1, taken)
    requires s.handle.id !in m1 && s.handle.id !in taken && Carries(s, d, c)
    requires Mints(s.children, d.children, c, kind, m1[s.handle.id := RecordFor(kind, c, d.locator)], m2, taken)
    ensures Mints(ss + [s], ds + [d], c, kind, m0, m2, taken)
  {
    hide Recorded, DistinctIds, HandleIds, Nodes, Mirrors, RecordFor;
    var a, b, id := Nodes(ss), Nodes(s.children), s.handle.id;
    var mid := m1[id := RecordFor(kind, c, d.locator)];
    NodesSnoc(ss, s);
    IdsOneMore(a, s, b);
    RecordedOneMore(a, s, b, m1, mid, m2, kind, c);
    MirrorsSnoc(ss, ds, s, d, c);
    assert HandleIds(a) <= m1.Keys && id !in m1 && HandleIds(b) !! mid.Keys && mid.Keys == m1.Keys + {id};
  }

  lemma MirrorsSnoc(ss: seq<Symbol>, ds: seq<Draft>, s: Symbol, d: Draft, c: Context)
    requires Mirrors(ss, ds, c) && Mirrors(s.children, d.children, c) && Carries(s, d, c)
    ensures Mirrors(ss + [s], ds + [d], c)
  {}

  lemma IdsOneMore(a: seq<Symbol>, s: Symbol, b: seq<Symbol>)
    requires DistinctIds(a) && DistinctIds(b)
    ensures HandleIds(a + [s] + b) == HandleIds(a) + {s.handle.id} + HandleIds(b)
    ensures s.handle.id !in HandleIds(a) + HandleIds(b) && HandleIds(a) !! HandleIds(b) ==> DistinctIds(a + [s] + b)
  {
    assert HandleIds([s]) == {s.handle.id} by { assert [s][0].handle.id == s.handle.id; }
    IdsConcat(a, [s]);
    IdsConcat(a + [s], b);
  }

  lemma RecordedOneMore(a: seq<Symbol>, s: Symbol, b: seq<Symbol>, m1: map<string, Record>, mid: map<string, Record>,
                        m2: map<string, Record>, kind: Kind, c: Context)
    requires Recorded(a, m1, kind, c) && s.handle.id !in m1 && mid == m1[s.handle.id := RecordFor(kind, c, s.locator)]
    requires Recorded(b, m2, kind, c) && forall id :: id in mid ==> id in m2 && m2[id] == mid[id]
    ensures Recorded(a + [s] + b, m2, kind, c)
  {}

  lemma IdsConcat(a: seq<Symbol>, b: seq<Symbol>)
    ensures HandleIds(a + b) == HandleIds(a) + HandleIds(b)
    ensures DistinctIds(a) && DistinctIds(b) && HandleIds(a) !! HandleIds(b) ==> DistinctIds(a + b)
  {
    forall x | x in HandleIds(a) + HandleIds(b) ensures x in HandleIds(a + b) {
      if x in HandleIds(a) {
        var i :| 0 <= i < |a| && a[i].handle.id == x;
        assert (a + b)[i].handle.id == x;
      } else {
        var i :| 0 <= i < |b| && b[i].handle.id == x;
        assert (a + b)[|a| + i].handle.id == x;
      }
    }
    if DistinctIds(a) && DistinctIds(b) && HandleIds(a) !! HandleIds(b) {
      forall i, j | 0 <= i < j < |a + b| ensures (a + b)[i].handle.id != (a + b)[j].handle.id {
        if i < |a| <= j {
          assert a[i].handle.id in HandleIds(a) && b[j - |a|].handle.id in HandleIds(b);
        }
      }
    }
  }

  lemma RecordedInLarger(a: seq<Symbol>, m: map<string, Record>, n: map<string, Record>, kind: Kind, c: Context)
    requires Recorded(a, m, kind, c) && forall id :: id in m ==> id in n && n[id] == m[id]
    ensures Recorded(a, n, kind, c)
  {}

  lemma RecordedGrows(a: seq<Symbol>, m: map<string, Record>, n: map<string, Record>, kind: Kind, c: Context)
    requires Recorded(a, m, kind, c) && forall i :: 0 <= i < |a| ==>
             a[i].handle.id in n && n[a[i].handle.id] == m[a[i].handle.id]
    ensures Recorded(a, n, kind, c)
  {}

  /** The adapter, physical session, workspace and epoch in which a handle given out in `c` is good. */
  predicate SameHome(c: Context, d: Context) {
    && d.adapterId == c.adapterId && d.sessionId == c.sessionId
    && d.workspaceId == c.workspaceId && d.workspaceEpoch == c.workspaceEpoch
  }

  /** What a node given out in `c` resolves to in `d`: its own locator at home, and nothing anywhere else. */
  function AtHome(n: Symbol, kind: Kind, c: Context, d: Context): Option<Resolved> {
    if !SameHome(c, d) then None
    else
      var uri := if kind == DocumentHandle then c.documentUri else n.locator.documentUri;
      Some(Resolved(kind, uri, c.editorVersion, n.locator))
  }

  /** Every node of a result resolves to exactly its own locator, and only in its own context. */
  ghost predicate AllResolve(ns: seq<Symbol>, records: map<string, Record>, kind: Kind, c: Context) {
    forall i, d :: 0 <= i < |ns| ==> Lookup(records, ns[i].handle, d) == AtHome(ns[i], kind, c, d)
  }

  lemma RecordedResolve(ss: seq<Symbol>, ds: seq<Draft>, records: map<string, Record>, kind: Kind, c: Context)
    requires Mirrors(ss, ds, c) && Recorded(Nodes(ss), records, kind, c)
    ensures AllResolve(Nodes(ss), records, kind, c)
  {
    MirrorsNodeByNode(ss, ds, c);
  }

  lemma {:induction false} IdsCount(ns: seq<Symbol>)
    requires DistinctIds(ns)
    ensures |HandleIds(ns)| == |ns|
  {
    if ns != [] {
      var last := |ns| - 1;
      IdsCount(ns[..last]);
      assert HandleIds(ns) == HandleIds(ns[..last]) + {ns[last].handle.id} by {
        forall x | x in HandleIds(ns) ensures x in HandleIds(ns[..last]) + {ns[last].handle.id} {
          var i :| 0 <= i < |ns| && ns[i].handle.id == x;
          if i < last { assert ns[..last][i].handle.id == x; }
        }
      }
      assert ns[last].handle.id !in HandleIds(ns[..last]);
    }
  }

  /** Node by node, a mirrored forest carries its drafts and this context's handle binding. */
  /** The node carries its draft's locator and range, and the binding of the context. */
  ghost predicate MirrorsNode(n: Symbol, d: Draft, c: Context) {
    && n.locator == d.locator && n.range == d.range && |n.children| == |d.children|
    && n.handle.adapterId == c.adapterId && n.handle.sessionId == c.sessionId
    && n.handle.validUntilEpoch == c.workspaceEpoch
  }

  lemma {:induction false} MirrorsNodeByNode(ss: seq<Symbol>, ds: seq<Draft>, c: Context)
    requires Mirrors(ss, ds, c)
    ensures |Nodes(ss)| == |Drafts(ds)|
    ensures forall i :: 0 <= i < |Nodes(ss)| ==> MirrorsNode(Nodes(ss)[i], Drafts(ds)[i], c)
  {
    if ss != [] {
      FirstAndTailMirror(ss, ds, c);
      hide Mirrors, MirrorsNode;
      MirrorsNodeByNode(ss[0].children, ds[0].children, c);
      MirrorsNodeByNode(ss[1..], ds[1..], c);
      assert Nodes(ss) == [ss[0]] + Nodes(ss[0].children) + Nodes(ss[1..]);
      assert Drafts(ds) == [ds[0]] + Drafts(ds[0].children) + Drafts(ds[1..]);
      hide Nodes, Drafts;
    }
  }

  lemma FirstAndTailMirror(ss: seq<Symbol>, ds: seq<Draft>, c: Context)
    requires Mirrors(ss, ds, c) && ss != []
    ensures ds != [] && MirrorsNode(ss[0], ds[0], c) && Mirrors(ss[0].children, ds[0].children, c)
    ensures Mirrors(ss[1..], ds[1..], c)
  {
    assert Mirrors(ss[0].children, ds[0].children, c);
    forall i | 0 <= i < |ss[1..]| ensures Mirrors(ss[1..][i].children, ds[1..][i].children, c) {
      assert ss[1..][i] == ss[i + 1] && ds[1..][i] == ds[i + 1];
    }
  }

  // ----- The indexes ------------------------------------------------------------------------------

  ghost function Group(records: map<string, Record>, kind: Kind, k: string): set<string> {
    set id | id in records && records[id].kind == kind && KeyOf(records[id]) == k
  }

  /** The index is the grouping of the live records of one kind; only a document entry may be empty. */
  ghost predicate Indexes(records: map<string, Record>, kind: Kind, index: map<string, set<string>>) {
    && (forall k :: k in index ==> index[k] == Group(records, kind, k) && (kind == TransientHandle ==> index[k] != {}))
    && (forall id :: id in records && records[id].kind == kind ==> KeyOf(records[id]) in index)
  }

  ghost function Union(gs: seq<set<string>>): set<string> {
    set i, id | 0 <= i < |gs| && id in gs[i] :: id
  }

  ghost function Transients(records: map<string, Record>): set<string> {
    set id | id in records && records[id].kind == TransientHandle
  }

  /** The generations share out the transient handles. */
  ghost predicate Generations(records: map<string, Record>, gs: seq<set<string>>) {
    && Union(gs) == Transients(records)
    && (forall i, j :: 0 <= i < j < |gs| ==> gs[i] !! gs[j])
  }

  lemma UnionShift(gs: seq<set<string>>)
    requires gs != [] && forall i, j :: 0 <= i < j < |gs| ==> gs[i] !! gs[j]
    ensures gs[0] <= Union(gs) && Union(gs[1..]) == Union(gs) - gs[0]
  {}

  lemma OldestGenerationGoes(records: map<string, Record>, gs: seq<set<string>>)
    requires Generations(records, gs) && gs != []
    ensures gs[0] <= Transients(records) && Generations(records - gs[0], gs[1..])
    ensures Permanent(records - gs[0]) == Permanent(records)
  {
    UnionShift(gs);
    forall i, j | 0 <= i < j < |gs[1..]| ensures gs[1..][i] !! gs[1..][j] {
      assert gs[1..][i] == gs[i + 1] && gs[1..][j] == gs[j + 1];
    }
  }

  /** Forgetting some transient handles everywhere keeps the sharing. */
  lemma GenerationsForget(records: map<string, Record>, gs: seq<set<string>>, gone: set<string>, kept: seq<set<string>>)
    requires Generations(records, gs) && |kept| == |gs|
    requires forall i :: 0 <= i < |gs| ==> kept[i] == gs[i] - gone
    ensures Generations(records - gone, kept)
  {
    forall id | id in Union(gs) && id !in gone ensures id in Union(kept) {
      var i :| 0 <= i < |gs| && id in gs[i];
      assert id in kept[i];
    }
    forall id | id in Union(kept) ensures id in Union(gs) - gone {
      var i :| 0 <= i < |kept| && id in kept[i];
      assert id in gs[i];
    }
    assert Transients(records - gone) == Transients(records) - gone;
  }

  lemma NewGeneration(records: map<string, Record>, gs: seq<set<string>>, more: map<string, Record>, g: set<string>)
    requires Generations(records, gs) && g == more.Keys && more.Keys !! records.Keys
    requires forall id :: id in more ==> more[id].kind == TransientHandle
    ensures Generations(records + more, gs + [g])
  {
    var r := gs + [g];
    assert r[|gs|] == g;
    forall id | id in Union(gs) + g ensures id in Union(r) {
      if id in Union(gs) {
        var i :| 0 <= i < |gs| && id in gs[i];
        assert id in r[i];
      }
    }
    forall id | id in Union(r) ensures id in Union(gs) + g {
      var i :| 0 <= i < |r| && id in r[i];
      if i < |gs| { assert id in gs[i]; }
    }
    assert Transients(records + more) == Transients(records) + g;
    forall i | 0 <= i < |gs| ensures gs[i] !! g { assert gs[i] <= Union(gs); }
  }

  lemma GenerationsIgnoreDocuments(records: map<string, Record>, gs: seq<set<string>>, other: map<string, Record>)
    requires Generations(records, gs) && Transients(records) == Transients(other)
    ensures Generations(other, gs)
  {}

  // ----- What a call may lose ---------------------------------------------------------------------

  /** Some number of the oldest generations are gone, and nothing else. */
  ghost predicate OldestDropped(r0: map<string, Record>, g0: seq<set<string>>, r1: map<string, Record>,
                                g1: seq<set<string>>, n: nat) {
    n <= |g0| && g1 == g0[n..] && r1 == r0 - Union(g0[..n])
  }

  /** No shorter eviction would have made room. */
  ghost predicate Needed(r0: map<string, Record>, g0: seq<set<string>>, n: nat, additional: int, max: nat) {
    forall m :: 0 <= m < n && m <= |g0| ==> |r0 - Union(g0[..m])| + additional > max
  }

  lemma DropNone(r: map<string, Record>, g: seq<set<string>>, additional: int, max: nat)
    ensures OldestDropped(r, g, r, g, 0) && Needed(r, g, 0, additional, max)
  {}

  lemma DroppedFacts(r0: map<string, Record>, g0: seq<set<string>>, r1: map<string, Record>, g1: seq<set<string>>,
                     n: nat)
    requires OldestDropped(r0, g0, r1, g1, n)
    ensures n <= |g0| && |g1| <= |g0| && r1 == r0 - Union(g0[..n]) && |r1| <= |r0| && Permanent(r1) <= r1.Keys
  {}

  lemma DropOneMore(r0: map<string, Record>, g0: seq<set<string>>, r1: map<string, Record>, g1: seq<set<string>>,
                    n: nat)
    requires OldestDropped(r0, g0, r1, g1, n) && g1 != []
    ensures OldestDropped(r0, g0, r1 - g1[0], g1[1..], n + 1)
    ensures forall additional, max :: Needed(r0, g0, n, additional, max) && |r1| + additional > max ==>
            Needed(r0, g0, n + 1, additional, max)
  {
    assert Union(g0[..n + 1]) == Union(g0[..n]) + g0[n] by {
      forall id | id in Union(g0[..n + 1]) ensures id in Union(g0[..n]) + g0[n] {
        var i :| 0 <= i < n + 1 && id in g0[..n + 1][i];
        if i < n { assert id in g0[..n][i]; }
      }
      forall id | id in Union(g0[..n]) ensures id in Union(g0[..n + 1]) {
        var i :| 0 <= i < n && id in g0[..n][i];
        assert id in g0[..n + 1][i];
      }
      assert g0[..n + 1][n] == g0[n];
    }
    assert g0[n..][1..] == g0[n + 1..];
  }

  ghost function Without(records: map<string, Record>, k: string): map<string, Record> {
    map id | id in records && KeyOf(records[id]) != k :: records[id]
  }

  lemma IndexesForget(records: map<string, Record>, kind: Kind, index: map<string, set<string>>, k: string)
    requires Indexes(records, kind, index)
    ensures Indexes(Without(records, k), kind, index - {k})
  {}

  lemma WithoutIsRemoval(records: map<string, Record>, documents: map<string, set<string>>,
                         transients: map<string, set<string>>, k: string)
    requires Indexes(records, DocumentHandle, documents) && Indexes(records, TransientHandle, transients)
    ensures Without(records, k) == records - (if k in documents then documents[k] else {})
            - (if k in transients then transients[k] else {})
    ensures Transients(records - (if k in documents then documents[k] else {})) == Transients(records)
  {
    assert Group(records, DocumentHandle, k) == if k in documents then documents[k] else {};
    assert Group(records, TransientHandle, k) == if k in transients then transients[k] else {};
  }

  lemma IndexesAddDocument(records: map<string, Record>, index: map<string, set<string>>, k: string,
                           more: map<string, Record>)
    requires Indexes(records, DocumentHandle, index) && k !in index && more.Keys !! records.Keys
    requires forall id :: id in more ==> more[id].kind == DocumentHandle && KeyOf(more[id]) == k
    ensures Indexes(records + more, DocumentHandle, index[k := more.Keys])
  {}

  lemma OtherKindUnaffected(records: map<string, Record>, kind: Kind, index: map<string, set<string>>,
                            more: map<string, Record>)
    requires Indexes(records, kind, index) && more.Keys !! records.Keys
    requires forall id :: id in more ==> more[id].kind != kind
    ensures Indexes(records + more, kind, index)
  {}

  /** The documents' own handles. */
  ghost function Permanent(records: map<string, Record>): set<string> { records.Keys - Transients(records) }

  /** Once eviction has stopped, the request fits exactly when it fits beside the documents' own handles. */
  lemma FitsBesideDocuments(records: map<string, Record>, gs: seq<set<string>>, additional: int, max: int)
    requires Generations(records, gs) && (|records| + additional <= max || gs == [])
    ensures |records| + additional <= max <==> |Permanent(records)| + additional <= max
  {}

  lemma RemovalShrinks(m: map<string, Record>, gone: set<string>)
    ensures |m - gone| <= |m|
  {}

  /** Everything staged from nothing carries its own minted record. */
  lemma StagedRecords(ss: seq<Symbol>, ds: seq<Draft>, c: Context, kind: Kind, staged: map<string, Record>,
                      taken: set<string>)
    requires Mints(ss, ds, c, kind, map[], staged, taken)
    ensures staged.Keys == HandleIds(Nodes(ss)) && staged.Keys !! taken && |staged| == |Drafts(ds)|
    ensures Mirrors(ss, ds, c) && DistinctIds(Nodes(ss)) && Recorded(Nodes(ss), staged, kind, c)
    ensures forall id :: id in staged ==>
            staged[id].kind == kind && staged[id] == RecordFor(kind, c, staged[id].locator)
  {
    var ns := Nodes(ss);
    forall id | id in staged ensures staged[id] == RecordFor(kind, c, staged[id].locator) {
      var i :| 0 <= i < |ns| && ns[i].handle.id == id;
    }
    IdsCount(ns);
    MirrorsNodeByNode(ss, ds, c);
    assert |staged| == |staged.Keys|;
  }

  /** Where the capacity of a replaced document comes from. */
  lemma ReplacementFits(records: map<string, Record>, documents: map<string, set<string>>, k: string,
                        more: map<string, Record>, max: nat)
    requires Indexes(records, DocumentHandle, documents) && more.Keys !! records.Keys
    requires |records| + |more| - (if k in documents then |documents[k]| else 0) <= max
    ensures |Without(records, k) + more| <= max
  {
    var gone := if k in documents then documents[k] else {};
    assert gone == Group(records, DocumentHandle, k);
    var left := Without(records, k);
    assert left.Keys <= records.Keys - gone;
    SubsetSize(gone, records.Keys);
    SubsetSize(left.Keys, records.Keys - gone);
    assert (left + more).Keys == left.Keys + more.Keys && left.Keys !! more.Keys;
    assert |left + more| == |left.Keys + more.Keys| == |left.Keys| + |more.Keys|;
    assert |records| == |records.Keys| && |more| == |more.Keys|;
  }

  lemma AddThenRemove(a: map<string, Record>, b: map<string, Record>)
    requires a.Keys !! b.Keys
    ensures (a + b) - b.Keys == a
  {}

  /**
   What a document's new tree did to the registry: its handles are new, and of the handles left by
   the eviction it replaced exactly those of its own document.
   */
  ghost predicate DocumentReplaced(d0: map<string, set<string>>, survivors: map<string, Record>,
                                   r1: map<string, Record>, d1: map<string, set<string>>,
                                   symbols: seq<Symbol>, drafts: seq<Draft>, c: Context) {
    var ns, k := Nodes(symbols), Key(c.workspaceId, c.documentUri);
    && Mirrors(symbols, drafts, c) && DistinctIds(ns) && HandleIds(ns) !! survivors.Keys
    && r1 - HandleIds(ns) == Without(survivors, k) && Recorded(ns, r1, DocumentHandle, c)
    && AllResolve(ns, r1, DocumentHandle, c)
    && d1 == d0[k := HandleIds(ns)]
  }

  lemma InstalledReplaces(d0: map<string, set<string>>, survivors: map<string, Record>,
                          r1: map<string, Record>, d1: map<string, set<string>>,
                          symbols: seq<Symbol>, drafts: seq<Draft>, c: Context, staged: map<string, Record>)
    requires Mints(symbols, drafts, c, DocumentHandle, map[], staged, survivors.Keys)
    requires r1 == Without(survivors, Key(c.workspaceId, c.documentUri)) + staged
    requires d1 == (d0 - {Key(c.workspaceId, c.documentUri)})[Key(c.workspaceId, c.documentUri) := staged.Keys]
    ensures DocumentReplaced(d0, survivors, r1, d1, symbols, drafts, c)
  {
    hide Nodes, Drafts, Recorded, DistinctIds, HandleIds, Mirrors, AllResolve;
    StagedRecords(symbols, drafts, c, DocumentHandle, staged, survivors.Keys);
    AddThenRemove(Without(survivors, Key(c.workspaceId, c.documentUri)), staged);
    RecordedGrows(Nodes(symbols), staged, r1, DocumentHandle, c);
    RecordedResolve(symbols, drafts, r1, DocumentHandle, c);
  }

  lemma ReplacedResolve(d0: map<string, set<string>>, survivors: map<string, Record>,
                        r1: map<string, Record>, d1: map<string, set<string>>,
                        symbols: seq<Symbol>, drafts: seq<Draft>, c: Context)
    requires DocumentReplaced(d0, survivors, r1, d1, symbols, drafts, c)
    ensures AllResolve(Nodes(symbols), r1, DocumentHandle, c)
  {
    hide AllResolve;
  }

  lemma AdditionFits(a: map<string, Record>, b: map<string, Record>)
    ensures |a + b| <= |a| + |b|
  {}

  // ----- Transient results ------------------------------------------------------------------------

  /** Hits are minted without their children. */
  function Flat(drafts: seq<Draft>): (r: seq<Draft>)
    ensures |r| == |drafts| && forall i :: 0 <= i < |r| ==> r[i] == Draft(drafts[i].locator, drafts[i].range, [])
  {
    seq(|drafts|, i requires 0 <= i < |drafts| => Draft(drafts[i].locator, drafts[i].range, []))
  }

  lemma {:induction false} LeavesAreTheirOwnNodes(ds: seq<Draft>)
    requires forall i :: 0 <= i < |ds| ==> ds[i].children == []
    ensures Drafts(ds) == ds
  {
    if ds != [] {
      LeavesAreTheirOwnNodes(ds[1..]);
      assert ds == [ds[0]] + [] + ds[1..];
    }
  }

  lemma IndexesAddTransient(records: map<string, Record>, index: map<string, set<string>>, id: string, r: Record)
    requires Indexes(records, TransientHandle, index) && id !in records && r.kind == TransientHandle
    ensures var k := KeyOf(r);
      Indexes(records[id := r], TransientHandle, index[k := (if k in index then index[k] else {}) + {id}])
  {}

  lemma IndexesDropTransient(records: map<string, Record>, documents: map<string, set<string>>,
                             index: map<string, set<string>>, id: string)
    requires Indexes(records, DocumentHandle, documents) && Indexes(records, TransientHandle, index)
             && id in Transients(records)
    ensures var k := KeyOf(records[id]); k in index && id in index[k]
    ensures Indexes(records - {id}, DocumentHandle, documents)
    ensures var k := KeyOf(records[id]); var left := index[k] - {id};
      Indexes(records - {id}, TransientHandle, if left == {} then index - {k} else index[k := left])
  {}

  lemma DocumentsIgnoreTransient(records: map<string, Record>, index: map<string, set<string>>, id: string, r: Record)
    requires Indexes(records, DocumentHandle, index) && id !in records && r.kind == TransientHandle
    ensures Indexes(records[id := r], DocumentHandle, index)
  {}

  /**
   What a search did to the registry: a new generation at the end of the queue, and the oldest ones
   gone from its front.
   */
  ghost predicate GenerationAdded(r0: map<string, Record>, g0: seq<set<string>>, survivors: map<string, Record>,
                                  r1: map<string, Record>, g1: seq<set<string>>,
                                  symbols: seq<Symbol>, drafts: seq<Draft>, c: Context, n: nat) {
    var ns := Nodes(symbols);
    && Mirrors(symbols, Flat(drafts), c) && DistinctIds(ns) && HandleIds(ns) !! survivors.Keys
    && n <= |g0| && g1 == g0[n..] + [HandleIds(ns)] && r1 - HandleIds(ns) == r0 - Union(g0[..n])
    && AllResolve(ns, r1, TransientHandle, c)
  }

  lemma UnionConcat(a: seq<set<string>>, b: seq<set<string>>)
    ensures Union(a + b) == Union(a) + Union(b)
  {
    forall id | id in Union(a) + Union(b) ensures id in Union(a + b) {
      if id in Union(a) {
        var i :| 0 <= i < |a| && id in a[i];
        assert id in (a + b)[i];
      } else {
        var i :| 0 <= i < |b| && id in b[i];
        assert id in (a + b)[|a| + i];
      }
    }
  }

  /** Dropping `n` generations, adding one, then dropping `e` more of the old ones. */
  lemma DropsAddUp(r0: map<string, Record>, g0: seq<set<string>>, r1: map<string, Record>, g1: seq<set<string>>, n: nat,
                   staged: map<string, Record>, r2: map<string, Record>, g2: seq<set<string>>, e: nat)
    requires OldestDropped(r0, g0, r1, g1, n) && e <= |g1| && staged.Keys !! r1.Keys && Union(g1) <= r1.Keys
    requires OldestDropped(r1 + staged, g1 + [staged.Keys], r2, g2, e)
    ensures n + e <= |g0| && g2 == g0[n + e..] + [staged.Keys]
    ensures r2 - staged.Keys == r0 - Union(g0[..n + e])
    ensures forall id :: id in staged ==> id in r2 && r2[id] == staged[id]
  {
    hide Union;
    assert (g1 + [staged.Keys])[..e] == g1[..e];
    UnionConcat(g1[..e], g1[e..]);
    assert g1[..e] + g1[e..] == g1;
    UnionConcat(g0[..n], g1[..e]);
    assert g0[..n + e] == g0[..n] + g1[..e];
    var gone := Union(g1[..e]);
    assert gone <= r1.Keys;
    assert r2 == (r1 + staged) - gone;
    assert r2 - staged.Keys == r1 - gone;
  }

  lemma SearchAddsGeneration(r0: map<string, Record>, g0: seq<set<string>>, survivors: map<string, Record>,
                             g1: seq<set<string>>, n: nat, r2: map<string, Record>, g2: seq<set<string>>, e: nat,
                             symbols: seq<Symbol>, drafts: seq<Draft>, c: Context, staged: map<string, Record>)
    requires OldestDropped(r0, g0, survivors, g1, n) && e <= |g1| && Generations(survivors, g1)
    requires Mints(symbols, Flat(drafts), c, TransientHandle, map[], staged, survivors.Keys)
    requires OldestDropped(survivors + staged, g1 + [staged.Keys], r2, g2, e)
    ensures n + e <= |g0| && GenerationAdded(r0, g0, survivors, r2, g2, symbols, drafts, c, n + e)
  {
    hide Mints, Nodes, Mirrors, Recorded, AllResolve, DistinctIds, HandleIds, Union, Flat, OldestDropped;
    StagedRecords(symbols, Flat(drafts), c, TransientHandle, staged, survivors.Keys);
    DropsAddUp(r0, g0, survivors, g1, n, staged, r2, g2, e);
    RecordedInLarger(Nodes(symbols), staged, r2, TransientHandle, c);
    RecordedResolve(symbols, Flat(drafts), r2, TransientHandle, c);
  }

  lemma AddedResolve(r0: map<string, Record>, g0: seq<set<string>>, survivors: map<string, Record>,
                     r1: map<string, Record>, g1: seq<set<string>>,
                     symbols: seq<Symbol>, drafts: seq<Draft>, c: Context, n: nat)
    requires GenerationAdded(r0, g0, survivors, r1, g1, symbols, drafts, c, n)
    ensures AllResolve(Nodes(symbols), r1, TransientHandle, c)
  {
    hide AllResolve;
  }

  /** A search never revokes a handle a document handed out. */
  lemma SearchKeepsDocuments(r0: map<string, Record>, g0: seq<set<string>>, survivors: map<string, Record>,
                             r1: map<string, Record>, g1: seq<set<string>>,
                             symbols: seq<Symbol>, drafts: seq<Draft>, c: Context, n: nat, id: string)
    requires Generations(r0, g0) && GenerationAdded(r0, g0, survivors, r1, g1, symbols, drafts, c, n)
    requires Permanent(r0) <= survivors.Keys && id in r0 && r0[id].kind == DocumentHandle
    ensures id in r1 && r1[id] == r0[id]
  {
    UnionConcat(g0[..n], g0[n..]);
    assert g0[..n] + g0[n..] == g0;
    assert id !in Union(g0[..n]);
    var left := r0 - Union(g0[..n]);
    assert id in left && left[id] == r0[id];
    assert id in Permanent(r0) && id !in HandleIds(Nodes(symbols));
    assert (r1 - HandleIds(Nodes(symbols)))[id] == r1[id];
  }
}
