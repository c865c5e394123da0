/**
 Editor events on their way to the daemon: changes wait in a per-document debounce, saves and closes
 flush it, and everything queued runs one task at a time.
 */
module EventBridge {
  import opened Common

  const MAX_DEBOUNCED_DOCUMENTS: nat := 1024

  datatype Kind = Opened | Changed | Saved | Closed

  /** `serial` counts the events heard: an editor may report the same document twice without changing it. */
  datatype DocumentEvent = DocumentEvent(uri: string, kind: Kind, serial: nat)

  datatype DropReason = Disposed | NoNotifier | SendFailed | Skipped
  datatype Fate = Sent | Dropped(reason: DropReason)

  // ----- Compression ------------------------------------------------------------------------------

  /** `out` is `input` with some changes left out, each of them directly followed by another change. */
  ghost predicate Thins(input: seq<DocumentEvent>, out: seq<DocumentEvent>) {
    if input == [] then out == []
    else
      || (out != [] && out[0] == input[0] && Thins(input[1..], out[1..]))
      || (|input| >= 2 && input[0].kind.Changed? && input[1].kind.Changed? && Thins(input[1..], out))
  }

  lemma {:induction false} LastIsKept(input: seq<DocumentEvent>, out: seq<DocumentEvent>)
    requires Thins(input, out)
    ensures |out| <= |input| && (input == [] <==> out == [])
    ensures input != [] ==> out[|out| - 1] == input[|input| - 1]
  {
    if input != [] {
      if out != [] && out[0] == input[0] && Thins(input[1..], out[1..]) {
        LastIsKept(input[1..], out[1..]);
      } else {
        LastIsKept(input[1..], out);
      }
    }
  }

  lemma {:induction false} ThinsSnoc(input: seq<DocumentEvent>, out: seq<DocumentEvent>, e: DocumentEvent)
    requires Thins(input, out)
    ensures Thins(input + [e], out + [e])
  {
    if input == [] {
      assert [e][1..] == [] && Thins([e], [e]);
      assert input + [e] == [e] && out + [e] == [e];
    } else {
      assert (input + [e])[1..] == input[1..] + [e];
      if out != [] && out[0] == input[0] && Thins(input[1..], out[1..]) {
        ThinsSnoc(input[1..], out[1..], e);
        assert (out + [e])[1..] == out[1..] + [e];
      } else {
        ThinsSnoc(input[1..], out, e);
      }
    }
  }

  /** A waiting change may give way to the next one. */
  lemma {:induction false} ThinsReplace(input: seq<DocumentEvent>, out: seq<DocumentEvent>, c: DocumentEvent,
                                        d: DocumentEvent)
    requires Thins(input, out + [c]) && c.kind.Changed? && d.kind.Changed?
    ensures Thins(input + [d], out + [d])
  {
    LastIsKept(input, out + [c]);
    assert (input + [d])[1..] == input[1..] + [d];
    if Thins(input[1..], (out + [c])[1..]) && (out + [c])[0] == input[0] {
      if out == [] {
        LastIsKept(input[1..], (out + [c])[1..]);
        assert input == [c] && input + [d] == [c, d] && [c, d][1..] == [d] && [d][1..] == [];
        assert Thins([d], [d]) && out + [d] == [d];
      } else {
        assert (out + [c])[1..] == out[1..] + [c] && (out + [d])[1..] == out[1..] + [d];
        ThinsReplace(input[1..], out[1..], c, d);
      }
    } else {
      ThinsReplace(input[1..], out, c, d);
    }
  }

  /** The blocks of changes between consecutive other events, empty blocks included. */
  function Blocks(s: seq<DocumentEvent>): (bs: seq<seq<DocumentEvent>>)
    ensures |bs| >= 1
  {
    if s == [] then [[]]
    else
      var rest := Blocks(s[1..]);
      if s[0].kind.Changed? then [[s[0]] + rest[0]] + rest[1..] else [[]] + rest
  }

  function Marks(s: seq<DocumentEvent>): seq<DocumentEvent> {
    if s == [] then []
    else if s[0].kind.Changed? then Marks(s[1..]) else [s[0]] + Marks(s[1..])
  }

  /** No longer than before, empty only if it was, and ending with the same change. */
  ghost predicate Shortens(before: seq<DocumentEvent>, after: seq<DocumentEvent>) {
    && |after| <= |before| && (before == [] <==> after == [])
    && (before != [] ==> after[|after| - 1] == before[|before| - 1])
  }

  ghost predicate BlocksShorten(input: seq<DocumentEvent>, out: seq<DocumentEvent>) {
    && Marks(out) == Marks(input) && |Blocks(out)| == |Blocks(input)|
    && forall k :: 0 <= k < |Blocks(input)| ==> Shortens(Blocks(input)[k], Blocks(out)[k])
  }

  /** The blocks of a longer sequence, one by one. */
  lemma BlocksCons(e: DocumentEvent, s: seq<DocumentEvent>)
    ensures Marks([e] + s) == if e.kind.Changed? then Marks(s) else [e] + Marks(s)
    ensures
      var a, b := Blocks(s), Blocks([e] + s);
      if e.kind.Changed? then |b| == |a| && b[0] == [e] + a[0] && forall k :: 1 <= k < |a| ==> b[k] == a[k]
      else |b| == |a| + 1 && b[0] == [] && forall k :: 0 <= k < |a| ==> b[k + 1] == a[k]
  {
    assert ([e] + s)[1..] == s;
  }

  lemma KeepingShortens(e: DocumentEvent, input: seq<DocumentEvent>, out: seq<DocumentEvent>)
    requires BlocksShorten(input, out)
    ensures BlocksShorten([e] + input, [e] + out)
  {
    BlocksCons(e, input);
    BlocksCons(e, out);
    hide Blocks, Marks;
    var a, b, c, d := Blocks(input), Blocks(out), Blocks([e] + input), Blocks([e] + out);
    forall k | 0 <= k < |c| ensures Shortens(c[k], d[k]) {
      var j := if e.kind.Changed? || k == 0 then k else k - 1;
      assert Shortens(a[j], b[j]);
    }
  }

  lemma DroppingShortens(e: DocumentEvent, input: seq<DocumentEvent>, out: seq<DocumentEvent>)
    requires BlocksShorten(input, out) && e.kind.Changed? && input != [] && input[0].kind.Changed?
    ensures BlocksShorten([e] + input, out)
  {}

  /**
   A thinned sequence keeps every save and close, in order, and between them each block of changes
   becomes a non-empty block no longer than it, ending with the same change.
   */
  lemma {:induction false} ThinningShortensBlocks(input: seq<DocumentEvent>, out: seq<DocumentEvent>)
    requires Thins(input, out)
    ensures BlocksShorten(input, out)
  {
    if input != [] {
      assert input == [input[0]] + input[1..];
      if out != [] && out[0] == input[0] && Thins(input[1..], out[1..]) {
        ThinningShortensBlocks(input[1..], out[1..]);
        assert out == [out[0]] + out[1..];
        KeepingShortens(input[0], input[1..], out[1..]);
      } else {
        ThinningShortensBlocks(input[1..], out);
        DroppingShortens(input[0], input[1..], out);
      }
    }
  }

  // ----- The bridge -------------------------------------------------------------------------------

  datatype Pending = Pending(event: DocumentEvent, timer: nat)
  datatype Task = Notify(event: DocumentEvent) | Gesture
  datatype Status = Queued | Running | Settled(fate: Fate)

  /** A link of the promise chain; it may start once the link before it has settled, however it did. */
  datatype Link = Link(task: Task, status: Status)

  datatype State = State(
    pending: map<string, Pending>, armed: map<nat, string>, nextTimer: nat, live: bool, disposed: bool,
    chain: seq<Link>, heard: seq<DocumentEvent>, dropped: seq<(DocumentEvent, DropReason)>)

  const FRESH := State(map[], map[], 0, false, false, [], [], [])

  function Serialize(s: State, task: Task): State { s.(chain := s.chain + [Link(task, Queued)]) }

  function QueueDocument(s: State, e: DocumentEvent): State {
    if s.disposed then s.(dropped := s.dropped + [(e, Disposed)])
    else if !s.live then s.(dropped := s.dropped + [(e, NoNotifier)])
    else Serialize(s, Notify(e))
  }

  function Unpend(s: State, uri: string): State
    requires uri in s.pending
  {
    s.(pending := s.pending - {uri}, armed := s.armed - {s.pending[uri].timer})
  }

  function Flush(s: State, uri: string): State {
    if uri !in s.pending then s else QueueDocument(Unpend(s, uri), s.pending[uri].event)
  }

  function Debounce(s: State, e: DocumentEvent): State {
    if e.uri !in s.pending && |s.pending| >= MAX_DEBOUNCED_DOCUMENTS then QueueDocument(s, e)
    else
      var cleared := if e.uri in s.pending then s.armed - {s.pending[e.uri].timer} else s.armed;
      s.(pending := s.pending[e.uri := Pending(e, s.nextTimer)], armed := cleared[s.nextTimer := e.uri],
         nextTimer := s.nextTimer + 1)
  }

  /** A timer that is still armed fires; its callback looks for its own entry. */
  function FireTimer(s: State, timer: nat): State {
    if timer !in s.armed then s
    else
      var uri, spent := s.armed[timer], s.(armed := s.armed - {timer});
      if uri !in s.pending || s.pending[uri].timer != timer then spent
      else QueueDocument(spent.(pending := s.pending - {uri}), s.pending[uri].event)
  }

  function Next(s: State, uri: string, kind: Kind): DocumentEvent { DocumentEvent(uri, kind, |s.heard|) }

  /** The listeners are gone once the bridge is disposed. */
  function HearEvent(s: State, e: DocumentEvent): State {
    if s.disposed then s
    else
      var h := s.(heard := s.heard + [e]);
      match e.kind
      case Opened => QueueDocument(h, e)
      case Changed => Debounce(h, e)
      case Saved => QueueDocument(Flush(h, e.uri), e)
      case Closed => QueueDocument(Flush(h, e.uri), e)
  }

  predicate MayStart(chain: seq<Link>, i: nat) {
    i < |chain| && chain[i].status.Queued? && (i == 0 || chain[i - 1].status.Settled?)
  }

  function WithStatus(s: State, i: nat, status: Status): State
    requires i < |s.chain|
  {
    s.(chain := s.chain[i := s.chain[i].(status := status)])
  }

  datatype Event =
    | Hear(uri: string, kind: Kind) | Fire(timer: nat) | GestureHeard | SetLiveNotifier | Dispose
    | Start(link: nat) | Settle(link: nat, fate: Fate)

  function Step(s: State, e: Event): State {
    match e
    case Hear(uri, kind) => HearEvent(s, Next(s, uri, kind))
    case Fire(timer) => FireTimer(s, timer)
    case GestureHeard => if s.disposed || !s.live then s else Serialize(s, Gesture)
    case SetLiveNotifier => s.(live := true)
    case Dispose => s.(disposed := true, pending := map[], armed := map[])
    case Start(i) => if MayStart(s.chain, i) then WithStatus(s, i, Running) else s
    case Settle(i, fate) => if i < |s.chain| && s.chain[i].status.Running? then WithStatus(s, i, Settled(fate)) else s
  }

  function Run(s: State, es: seq<Event>): State {
    if es == [] then s else Step(Run(s, es[..|es| - 1]), es[|es| - 1])
  }

  // ----- Per-document traces ----------------------------------------------------------------------

  /** The events of one document, with or without its openings. */
  function Of(es: seq<DocumentEvent>, uri: string, opens: bool): seq<DocumentEvent> {
    if es == [] then []
    else
      var earlier, last := Of(es[..|es| - 1], uri, opens), es[|es| - 1];
      if last.uri == uri && (opens || !last.kind.Opened?) then earlier + [last] else earlier
  }

  function Queue(chain: seq<Link>): seq<DocumentEvent> {
    if chain == [] then []
    else
      var earlier, last := Queue(chain[..|chain| - 1]), chain[|chain| - 1];
      if last.task.Notify? then earlier + [last.task.event] else earlier
  }

  function Waiting(s: State, uri: string): seq<DocumentEvent> {
    if uri in s.pending then [s.pending[uri].event] else []
  }

  ghost predicate Faithful(s: State, uri: string, opens: bool) {
    Thins(Of(s.heard, uri, opens), Of(Queue(s.chain), uri, opens) + Waiting(s, uri))
  }

  /** Every waiting change has its own armed timer, and no timer is armed for anything else. */
  ghost predicate Timed(pending: map<string, Pending>, armed: map<nat, string>, nextTimer: nat) {
    && |pending.Keys| <= MAX_DEBOUNCED_DOCUMENTS
    && (forall uri :: uri in pending ==>
          && pending[uri].event.uri == uri && pending[uri].event.kind.Changed?
          && pending[uri].timer in armed && armed[pending[uri].timer] == uri)
    && (forall t :: t in armed ==> t < nextTimer && armed[t] in pending && pending[armed[t]].timer == t)
  }

  ghost predicate TimersInv(s: State) { Timed(s.pending, s.armed, s.nextTimer) }

  /** Whatever is not waiting for its turn comes after settled tasks only. */
  ghost predicate InOrder(chain: seq<Link>) {
    forall i, j :: 0 <= i < j < |chain| && !chain[j].status.Queued? ==> chain[i].status.Settled?
  }

  lemma OfSnoc(es: seq<DocumentEvent>, e: DocumentEvent, uri: string, opens: bool)
    ensures Of(es + [e], uri, opens) ==
            if e.uri == uri && (opens || !e.kind.Opened?) then Of(es, uri, opens) + [e] else Of(es, uri, opens)
  {}

  lemma QueueSnoc(chain: seq<Link>, l: Link)
    ensures Queue(chain + [l]) == if l.task.Notify? then Queue(chain) + [l.task.event] else Queue(chain)
  {}

  lemma {:induction false} QueueIgnoresStatus(chain: seq<Link>, i: nat, status: Status)
    requires i < |chain|
    ensures Queue(chain[i := chain[i].(status := status)]) == Queue(chain)
  {
    var t, n := chain[i := chain[i].(status := status)], |chain| - 1;
    if i == n {
      assert t[..n] == chain[..n];
    } else {
      assert t[..n] == chain[..n][i := chain[..n][i].(status := status)];
      QueueIgnoresStatus(chain[..n], i, status);
    }
  }

  // ----- What every step keeps --------------------------------------------------------------------

  lemma DroppingKeepsTimed(pending: map<string, Pending>, armed: map<nat, string>, nextTimer: nat, uri: string)
    requires Timed(pending, armed, nextTimer) && uri in pending
    ensures Timed(pending - {uri}, armed - {pending[uri].timer}, nextTimer)
  {}

  lemma AddingKeepsTimed(pending: map<string, Pending>, armed: map<nat, string>, nextTimer: nat, e: DocumentEvent)
    requires Timed(pending, armed, nextTimer) && e.uri !in pending && |pending.Keys| < MAX_DEBOUNCED_DOCUMENTS
             && e.kind.Changed?
    ensures Timed(pending[e.uri := Pending(e, nextTimer)], armed[nextTimer := e.uri], nextTimer + 1)
  {}

  lemma ReplacingKeepsTimed(pending: map<string, Pending>, armed: map<nat, string>, nextTimer: nat, e: DocumentEvent)
    requires Timed(pending, armed, nextTimer) && e.uri in pending && e.kind.Changed?
    ensures Timed(pending[e.uri := Pending(e, nextTimer)], (armed - {pending[e.uri].timer})[nextTimer := e.uri],
                  nextTimer + 1)
  {}

  lemma DebounceKeepsTimers(s: State, e: DocumentEvent)
    requires TimersInv(s) && e.kind.Changed?
    ensures TimersInv(Debounce(s, e))
  {
    hide Timed;
    if e.uri in s.pending {
      ReplacingKeepsTimed(s.pending, s.armed, s.nextTimer, e);
    } else if |s.pending| < MAX_DEBOUNCED_DOCUMENTS {
      assert |s.pending| == |s.pending.Keys|;
      AddingKeepsTimed(s.pending, s.armed, s.nextTimer, e);
    }
  }

  lemma BoundedPending(s: State)
    requires TimersInv(s)
    ensures |s.pending.Keys| <= MAX_DEBOUNCED_DOCUMENTS
    ensures forall t :: t in s.armed ==> s.armed[t] in s.pending && s.pending[s.armed[t]].timer == t
  {}

  lemma StepKeepsTimers(s: State, e: Event)
    requires TimersInv(s)
    ensures TimersInv(Step(s, e))
  {
    hide Timed, Debounce, Flush;
    match e
    case Hear(uri, kind) =>
      var event := Next(s, uri, kind);
      DebounceOrUnpend(s.(heard := s.heard + [event]), event);
    case Fire(timer) =>
      BoundedPending(s);
      if timer in s.armed { DroppingKeepsTimed(s.pending, s.armed, s.nextTimer, s.armed[timer]); }
    case Dispose => NothingTimed(s.nextTimer);
    case _ =>
  }

  lemma DebounceOrUnpend(s: State, e: DocumentEvent)
    requires TimersInv(s)
    ensures e.kind.Changed? ==> TimersInv(Debounce(s, e))
    ensures TimersInv(Flush(s, e.uri))
  {
    hide Timed, Debounce;
    if e.kind.Changed? { DebounceKeepsTimers(s, e); }
    if e.uri in s.pending { DroppingKeepsTimed(s.pending, s.armed, s.nextTimer, e.uri); }
  }

  lemma NothingTimed(nextTimer: nat)
    ensures Timed(map[], map[], nextTimer)
  {}

  /** Tasks start in the order they were queued, one at a time, and a failure holds nobody up. */
  lemma StepKeepsOrder(s: State, e: Event)
    requires InOrder(s.chain)
    ensures InOrder(Step(s, e).chain)
  {
    match e
    case Hear(uri, kind) => HearExtendsChain(s, Next(s, uri, kind));
    case Fire(_) =>
    case GestureHeard =>
    case SetLiveNotifier =>
    case Dispose =>
    case Start(i) => if MayStart(s.chain, i) { StartKeepsOrder(s.chain, i); }
    case Settle(i, fate) =>
  }

  ghost predicate OnlyQueued(before: seq<Link>, after: seq<Link>) {
    before <= after && forall i :: |before| <= i < |after| ==> after[i].status.Queued?
  }

  lemma HearExtendsChain(s: State, e: DocumentEvent)
    ensures OnlyQueued(s.chain, HearEvent(s, e).chain)
  {
    var h := s.(heard := s.heard + [e]);
    QueueingExtends(h, e);
    if e.uri in s.pending {
      QueueingExtends(Unpend(h, e.uri), s.pending[e.uri].event);
      QueueingExtends(Flush(h, e.uri), e);
    }
    hide QueueDocument;
  }

  lemma QueueingExtends(s: State, e: DocumentEvent)
    ensures OnlyQueued(s.chain, QueueDocument(s, e).chain) && |QueueDocument(s, e).chain| <= |s.chain| + 1
  {}

  lemma StartKeepsOrder(chain: seq<Link>, i: nat)
    requires InOrder(chain) && MayStart(chain, i)
    ensures InOrder(chain[i := chain[i].(status := Running)])
  {}

  /** A document event that reaches the queue is the next one of its document there. */
  lemma QueueingAppends(s: State, e: DocumentEvent, uri: string, opens: bool)
    requires s.live && !s.disposed
    ensures QueueDocument(s, e) == s.(chain := s.chain + [Link(Notify(e), Queued)])
    ensures Of(Queue(QueueDocument(s, e).chain), uri, opens) ==
            if e.uri == uri && (opens || !e.kind.Opened?) then Of(Queue(s.chain), uri, opens) + [e]
            else Of(Queue(s.chain), uri, opens)
  {}

  /** A document is opened while one of its changes still waits. */
  predicate Overtakes(s: State, e: Event, uri: string) {
    e.Hear? && e.kind.Opened? && e.uri == uri && uri in s.pending
  }

  ghost predicate Talking(s: State) { s.live && !s.disposed && TimersInv(s) }

  /** Flushing moves the waiting change to the queue, so what is queued and waiting stays the same. */
  lemma FlushMovesWaiting(s: State, flushed: string, uri: string, opens: bool)
    requires Talking(s)
    ensures
      var t := Flush(s, flushed);
      && t.live && !t.disposed && t.heard == s.heard
      && Of(Queue(t.chain), uri, opens) + Waiting(t, uri) == Of(Queue(s.chain), uri, opens) + Waiting(s, uri)
      && Waiting(Flush(s, uri), uri) == []
  {}

  lemma HeardChange(s: State, e: DocumentEvent, uri: string, opens: bool)
    requires Talking(s) && Faithful(s, uri, opens) && e.kind.Changed?
    ensures Faithful(HearEvent(s, e), uri, opens)
  {
    hide Of, Queue, Thins;
    OfSnoc(s.heard, e, uri, opens);
    QueueingAppends(s.(heard := s.heard + [e]), e, uri, opens);
    if e.uri == uri {
      var input, out := Of(s.heard, uri, opens), Of(Queue(s.chain), uri, opens);
      assert out + [] == out && out + [e] + [] == out + [e];
      if uri in s.pending { ThinsReplace(input, out, s.pending[uri].event, e); } else { ThinsSnoc(input, out, e); }
    }
  }

  lemma HeardMark(s: State, e: DocumentEvent, uri: string, opens: bool)
    requires Talking(s) && Faithful(s, uri, opens) && (e.kind.Saved? || e.kind.Closed?)
    ensures Faithful(HearEvent(s, e), uri, opens)
  {
    hide Of, Queue, Thins, Flush;
    FlushMovesWaiting(s.(heard := s.heard + [e]), e.uri, uri, opens);
    var f := Flush(s.(heard := s.heard + [e]), e.uri);
    OfSnoc(s.heard, e, uri, opens);
    QueueingAppends(f, e, uri, opens);
    if e.uri == uri {
      var out := Of(Queue(f.chain), uri, opens);
      assert out + [] == out && out + [e] + [] == out + [e];
      ThinsSnoc(Of(s.heard, uri, opens), out, e);
    }
  }

  lemma HeardOpening(s: State, e: DocumentEvent, uri: string, opens: bool)
    requires Talking(s) && Faithful(s, uri, opens) && e.kind.Opened?
    ensures Faithful(HearEvent(s, e), uri, opens) <==> !(opens && e.uri == uri && uri in s.pending)
  {
    hide Of, Queue, Thins;
    OfSnoc(s.heard, e, uri, opens);
    QueueingAppends(s.(heard := s.heard + [e]), e, uri, opens);
    if e.uri == uri && opens {
      var input, out := Of(s.heard, uri, opens), Of(Queue(s.chain), uri, opens);
      assert out + [] == out && out + [e] + [] == out + [e];
      if uri in s.pending {
        var t := HearEvent(s, e);
        if Faithful(t, uri, opens) { LastIsKept(input + [e], out + [e] + Waiting(t, uri)); }
      } else {
        ThinsSnoc(input, out, e);
      }
    }
  }

  lemma TimerMovesWaiting(s: State, timer: nat, uri: string, opens: bool)
    requires Talking(s) && Faithful(s, uri, opens)
    ensures Faithful(FireTimer(s, timer), uri, opens)
  {
    hide Of, Queue, Thins, Flush;
    BoundedPending(s);
    if timer in s.armed { FlushMovesWaiting(s, s.armed[timer], uri, opens); FiringIsFlushing(s, timer); }
  }

  lemma FiringIsFlushing(s: State, timer: nat)
    requires TimersInv(s) && timer in s.armed
    ensures FireTimer(s, timer) == Flush(s, s.armed[timer])
  {}

  /**
   Nothing a live bridge does ever reorders a document's changes, saves and closes, or drops one that
   no later change replaces. Openings keep their place too, except exactly when a document is opened
   while a change of it still waits.
   */
  lemma FaithfulExactlyUnlessOvertaken(s: State, e: Event, uri: string, opens: bool)
    requires Talking(s) && Faithful(s, uri, opens) && !e.Dispose?
    ensures Talking(Step(s, e))
    ensures Faithful(Step(s, e), uri, opens) <==> !(opens && Overtakes(s, e, uri))
  {
    hide Of, Queue, Thins, HearEvent, FireTimer, TimersInv;
    StepKeepsTimers(s, e);
    KeepsTalking(s, e);
    match e
    case Hear(heard, kind) =>
      var event := Next(s, heard, kind);
      match kind {
        case Opened => HeardOpening(s, event, uri, opens);
        case Changed => HeardChange(s, event, uri, opens);
        case Saved => HeardMark(s, event, uri, opens);
        case Closed => HeardMark(s, event, uri, opens);
      }
    case Fire(timer) => TimerMovesWaiting(s, timer, uri, opens);
    case GestureHeard => QueueSnoc(s.chain, Link(Gesture, Queued));
    case Start(i) => if i < |s.chain| { QueueIgnoresStatus(s.chain, i, Running); }
    case Settle(i, fate) => if i < |s.chain| { QueueIgnoresStatus(s.chain, i, Settled(fate)); }
    case SetLiveNotifier =>
  }

  lemma KeepsTalking(s: State, e: Event)
    requires s.live && !s.disposed && !e.Dispose?
    ensures Step(s, e).live && !Step(s, e).disposed
  {}

  /** In every run, failures or not: settled tasks, then at most one running, then those still queued. */
  lemma {:induction false} TasksRunInOrder(s: State, es: seq<Event>)
    requires InOrder(s.chain)
    ensures InOrder(Run(s, es).chain)
  {
    hide InOrder, Step;
    if es != [] {
      TasksRunInOrder(s, es[..|es| - 1]);
      StepKeepsOrder(Run(s, es[..|es| - 1]), es[|es| - 1]);
    }
  }

  const LIVE := FRESH.(live := true)

  ghost predicate Undisturbed(es: seq<Event>, uri: string) {
    forall k :: 0 <= k < |es| ==> !Overtakes(Run(LIVE, es[..k]), es[k], uri)
  }

  lemma {:induction false} RunIsFaithful(es: seq<Event>, uri: string, opens: bool, k: nat)
    requires Event.Dispose !in es && k <= |es| && (opens ==> Undisturbed(es, uri))
    ensures Talking(Run(LIVE, es[..k])) && Faithful(Run(LIVE, es[..k]), uri, opens)
  {
    if k == 0 {
      StartsTalking(uri, opens);
    } else {
      RunIsFaithful(es, uri, opens, k - 1);
      assert es[..k][..k - 1] == es[..k - 1] && es[k - 1] in es;
      FaithfulExactlyUnlessOvertaken(Run(LIVE, es[..k - 1]), es[k - 1], uri, opens);
    }
  }

  lemma StartsTalking(uri: string, opens: bool)
    ensures Talking(LIVE) && Faithful(LIVE, uri, opens)
  {}

  /**
   A document's queued and waiting events, openings included, are a thinning of those heard at every
   moment of a run exactly when it is never opened while a change of it waits.
   */
  lemma FaithfulThroughoutIff(es: seq<Event>, uri: string)
    requires Event.Dispose !in es
    ensures (forall k :: 0 <= k <= |es| ==> Faithful(Run(LIVE, es[..k]), uri, true)) <==> Undisturbed(es, uri)
  {
    hide Step, Faithful, Talking, Overtakes;
    if Undisturbed(es, uri) {
      forall k | 0 <= k <= |es| ensures Faithful(Run(LIVE, es[..k]), uri, true) { RunIsFaithful(es, uri, true, k); }
    } else {
      var k :| 0 <= k < |es| && Overtakes(Run(LIVE, es[..k]), es[k], uri);
      assert es[..k + 1][..k] == es[..k] && es[k] in es;
      RunIsFaithful(es, uri, false, k);
      if Faithful(Run(LIVE, es[..k]), uri, true) {
        FaithfulExactlyUnlessOvertaken(Run(LIVE, es[..k]), es[k], uri, true);
      }
      assert !Faithful(Run(LIVE, es[..k]), uri, true) || !Faithful(Run(LIVE, es[..k + 1]), uri, true);
    }
  }

  // ----- The host's discipline --------------------------------------------------------------------

  /** Whether a document is open, after what was heard, when those in `open` were open at first. */
  predicate IsOpen(open: set<string>, heard: seq<DocumentEvent>, uri: string) {
    if heard == [] then uri in open
    else
      var last := heard[|heard| - 1];
      if last.uri == uri && last.kind.Opened? then true
      else if last.uri == uri && last.kind.Closed? then false
      else IsOpen(open, heard[..|heard| - 1], uri)
  }

  /** A document is opened only while closed, and changed, saved or closed only while open. */
  ghost predicate Disciplined(open: set<string>, es: seq<Event>) {
    forall k :: 0 <= k < |es| && es[k].Hear? ==>
      (es[k].kind.Opened? <==> !IsOpen(open, Run(LIVE, es[..k]).heard, es[k].uri))
  }

  /** Only open documents have a change waiting: closing one flushes it. */
  ghost predicate WaitsOnlyWhileOpen(open: set<string>, s: State) {
    forall uri :: uri in s.pending ==> IsOpen(open, s.heard, uri)
  }

  lemma IsOpenSnoc(open: set<string>, heard: seq<DocumentEvent>, e: DocumentEvent, uri: string)
    ensures IsOpen(open, heard + [e], uri) ==
            if e.uri == uri && e.kind.Opened? then true
            else if e.uri == uri && e.kind.Closed? then false
            else IsOpen(open, heard, uri)
  {
    assert (heard + [e])[..|heard|] == heard;
  }

  lemma StepKeepsWaitsOnlyWhileOpen(open: set<string>, s: State, e: Event)
    requires Talking(s) && WaitsOnlyWhileOpen(open, s) && !e.Dispose?
    requires e.Hear? ==> (e.kind.Opened? <==> !IsOpen(open, s.heard, e.uri))
    ensures WaitsOnlyWhileOpen(open, Step(s, e))
  {
    hide IsOpen, Queue, Of;
    if e.Hear? {
      forall uri | uri in Step(s, e).pending ensures IsOpen(open, Step(s, e).heard, uri) {
        IsOpenSnoc(open, s.heard, Next(s, e.uri, e.kind), uri);
      }
    }
  }

  lemma {:induction false} DisciplinedWaitsOnlyWhileOpen(open: set<string>, es: seq<Event>, k: nat)
    requires Event.Dispose !in es && Disciplined(open, es) && k <= |es|
    ensures WaitsOnlyWhileOpen(open, Run(LIVE, es[..k]))
  {
    hide Step, IsOpen, WaitsOnlyWhileOpen, Talking;
    if k == 0 {
      NothingWaits(open);
      assert es[..0] == [];
    } else {
      DisciplinedWaitsOnlyWhileOpen(open, es, k - 1);
      RunIsFaithful(es, "", false, k - 1);
      assert es[..k][..k - 1] == es[..k - 1] && es[k - 1] in es;
      StepKeepsWaitsOnlyWhileOpen(open, Run(LIVE, es[..k - 1]), es[k - 1]);
    }
  }

  lemma NothingWaits(open: set<string>)
    ensures WaitsOnlyWhileOpen(open, LIVE)
  {}

  /** A host that opens only closed documents never lets an opening overtake a change. */
  lemma DisciplineDisturbsNothing(open: set<string>, es: seq<Event>, uri: string)
    requires Event.Dispose !in es && Disciplined(open, es)
    ensures Undisturbed(es, uri)
  {
    hide Step, Run, IsOpen;
    forall k | 0 <= k < |es| ensures !Overtakes(Run(LIVE, es[..k]), es[k], uri) {
      DisciplinedWaitsOnlyWhileOpen(open, es, k);
    }
  }

  /**
   Over every run of such a host without disposal: once no change of a document waits, its queue is
   what was heard of it, openings, saves and closes in their places, with each block of changes cut
   to a non-empty block no longer than it that ends with the same change; and never more than 1,024
   documents have a change waiting.
   */
  lemma DrainedQueueCompresses(open: set<string>, es: seq<Event>, uri: string)
    requires Event.Dispose !in es && Disciplined(open, es) && uri !in Run(LIVE, es).pending
    ensures |Run(LIVE, es).pending| <= MAX_DEBOUNCED_DOCUMENTS
    ensures BlocksShorten(Of(Run(LIVE, es).heard, uri, true), Of(Queue(Run(LIVE, es).chain), uri, true))
  {
    DisciplineDisturbsNothing(open, es, uri);
    DrainedIsCompressed(es, uri, true);
  }

  /** Without its openings a document's queue is compressed whatever the host does. */
  lemma DrainedIsCompressed(es: seq<Event>, uri: string, opens: bool)
    requires Event.Dispose !in es && uri !in Run(LIVE, es).pending && (opens ==> Undisturbed(es, uri))
    ensures |Run(LIVE, es).pending| <= MAX_DEBOUNCED_DOCUMENTS
    ensures BlocksShorten(Of(Run(LIVE, es).heard, uri, opens), Of(Queue(Run(LIVE, es).chain), uri, opens))
  {
    hide Of, Queue, Thins, BlocksShorten;
    RunIsFaithful(es, uri, opens, |es|);
    assert es[..|es|] == es;
    var s := Run(LIVE, es);
    var out := Of(Queue(s.chain), uri, opens);
    assert out + Waiting(s, uri) == out;
    ThinningShortensBlocks(Of(s.heard, uri, opens), out);
    BoundedPending(s);
    assert |s.pending| == |s.pending.Keys|;
  }

  // ----- Disposal ---------------------------------------------------------------------------------

  lemma {:induction false} ThinnedOccurrences(input: seq<DocumentEvent>, out: seq<DocumentEvent>)
    requires Thins(input, out)
    ensures multiset(out) <= multiset(input)
  {
    if input != [] {
      assert input == [input[0]] + input[1..];
      if out != [] && out[0] == input[0] && Thins(input[1..], out[1..]) {
        assert out == [out[0]] + out[1..];
        ThinnedOccurrences(input[1..], out[1..]);
      } else {
        ThinnedOccurrences(input[1..], out);
      }
    }
  }

  lemma HeardTwice(input: seq<DocumentEvent>, out: seq<DocumentEvent>, c: DocumentEvent)
    requires Thins(input, out) && Thins(input, out + [c])
    ensures multiset(input)[c] >= 2
  {
    LastIsKept(input, out);
    LastIsKept(input, out + [c]);
    ThinnedOccurrences(input, out + [c]);
    assert out[|out| - 1] == c && multiset(out)[c] >= 1;
  }

  ghost predicate Numbered(heard: seq<DocumentEvent>) {
    forall i :: 0 <= i < |heard| ==> heard[i].serial == i
  }

  lemma {:induction false} RunNumbers(es: seq<Event>)
    ensures Numbered(Run(LIVE, es).heard)
  {
    if es != [] {
      RunNumbers(es[..|es| - 1]);
      StepHears(Run(LIVE, es[..|es| - 1]), es[|es| - 1]);
    }
  }

  lemma StepHears(s: State, e: Event)
    ensures Step(s, e).heard == if e.Hear? && !s.disposed then s.heard + [Next(s, e.uri, e.kind)] else s.heard
  {}

  lemma {:induction false} OfSelects(es: seq<DocumentEvent>, uri: string, opens: bool)
    ensures multiset(Of(es, uri, opens)) <= multiset(es)
  {
    if es != [] {
      OfSelects(es[..|es| - 1], uri, opens);
      assert es == es[..|es| - 1] + [es[|es| - 1]];
    }
  }

  lemma {:induction false} NumberedOnce(heard: seq<DocumentEvent>, e: DocumentEvent)
    requires Numbered(heard)
    ensures multiset(heard)[e] <= 1
  {
    if heard != [] {
      var earlier, last := heard[..|heard| - 1], heard[|heard| - 1];
      NumberedOnce(earlier, e);
      assert heard == earlier + [last] && last !in earlier;
    }
  }

  lemma ForgottenIffWaiting(s: State, uri: string, opens: bool)
    requires Talking(s) && Faithful(s, uri, opens) && Numbered(s.heard)
    ensures Faithful(Step(s, Dispose), uri, opens) <==> uri !in s.pending
  {
    hide Of, Queue, Thins;
    var input, out := Of(s.heard, uri, opens), Of(Queue(s.chain), uri, opens);
    assert out + [] == out;
    if uri in s.pending && Thins(input, out) {
      HeardTwice(input, out, s.pending[uri].event);
      OfSelects(s.heard, uri, opens);
      NumberedOnce(s.heard, s.pending[uri].event);
    }
  }

  /**
   Disposal at any moment of a run forgets the waiting changes without reporting them: a document's
   trace stays whole exactly when no change of it waited.
   */
  lemma DisposalLosesWhatWaits(es: seq<Event>, uri: string, opens: bool)
    requires Event.Dispose !in es && (opens ==> Undisturbed(es, uri))
    ensures
      var s, t := Run(LIVE, es), Run(LIVE, es + [Event.Dispose]);
      (Faithful(t, uri, opens) <==> uri !in s.pending) && t.dropped == s.dropped && t.chain == s.chain
  {
    hide Faithful, Talking;
    RunIsFaithful(es, uri, opens, |es|);
    assert es[..|es|] == es;
    RunNumbers(es);
    RunSnoc(LIVE, es, Event.Dispose);
    ForgottenIffWaiting(Run(LIVE, es), uri, opens);
  }

  /** A change followed by disposal is neither queued nor waiting, nor named among the dropped. */
  lemma AChangeIsLostUnnamed(uri: string)
    ensures
      var t := Run(LIVE, [Hear(uri, Changed), Event.Dispose]);
      && t.heard == [DocumentEvent(uri, Changed, 0)] && t.chain == [] && t.pending == map[] && t.dropped == []
      && !Faithful(t, uri, false)
  {
    var e := DocumentEvent(uri, Changed, 0);
    FirstChangeWaits(e);
    RunSnoc(LIVE, [], Hear(uri, Changed));
    RunSnoc(LIVE, [Hear(uri, Changed)], Event.Dispose);
    assert [] + [Hear(uri, Changed)] == [Hear(uri, Changed)];
    assert [Hear(uri, Changed)] + [Event.Dispose] == [Hear(uri, Changed), Event.Dispose];
    hide HearEvent;
    assert [e][..0] == [] && Of([e], uri, false) == [e];
  }

  lemma RunSnoc(s: State, es: seq<Event>, e: Event)
    ensures Run(s, es + [e]) == Step(Run(s, es), e)
  {
    assert (es + [e])[..|es|] == es;
  }

  lemma FirstChangeWaits(e: DocumentEvent)
    requires e.kind.Changed?
    ensures var t := HearEvent(LIVE, e); t.heard == [e] && t.chain == [] && t.dropped == [] && e.uri in t.pending
  {}

  // ----- The object -------------------------------------------------------------------------------

  class VscodeEventBridge {
    var pendingChanges: map<string, Pending>
    var timers: map<nat, string>
    var nextTimer: nat
    var live: bool
    var disposed: bool
    var chain: seq<Link>
    var dropped: seq<(DocumentEvent, DropReason)>
    var heard: seq<DocumentEvent>  // what the editor reported

    ghost function View(): State reads this {
      State(pendingChanges, timers, nextTimer, live, disposed, chain, heard, dropped)
    }

    constructor ()
      ensures View() == FRESH
    {
      pendingChanges, timers, nextTimer, live, disposed := map[], map[], 0, false, false;
      chain, dropped, heard := [], [], [];
    }

    method EnqueueDocument(e: DocumentEvent)
      modifies this
      ensures View() == QueueDocument(old(View()), e)
      ensures disposed || !live ==>
        chain == old(chain) && dropped == old(dropped) + [(e, if disposed then Disposed else NoNotifier)]
      ensures !disposed && live ==> dropped == old(dropped) && chain == old(chain) + [Link(Notify(e), Queued)]
    {
      if disposed {
        dropped := dropped + [(e, Disposed)];
      } else if !live {
        dropped := dropped + [(e, NoNotifier)];
      } else {
        chain := chain + [Link(Notify(e), Queued)];
      }
    }

    method DebounceDocumentChange(e: DocumentEvent)
      modifies this
      ensures View() == Debounce(old(View()), e)
    {
      var waits := e.uri in pendingChanges;
      if waits { timers := timers - {pendingChanges[e.uri].timer}; }
      if !waits && |pendingChanges| >= MAX_DEBOUNCED_DOCUMENTS {
        EnqueueDocument(e);
        return;
      }
      timers := timers[nextTimer := e.uri];
      pendingChanges := pendingChanges[e.uri := Pending(e, nextTimer)];
      nextTimer := nextTimer + 1;
    }

    method FlushPendingChange(uri: string)
      modifies this
      ensures View() == Flush(old(View()), uri)
    {
      if uri !in pendingChanges { return; }
      var pending := pendingChanges[uri];
      timers := timers - {pending.timer};
      pendingChanges := pendingChanges - {uri};
      EnqueueDocument(pending.event);
    }

    method OnTimer(timer: nat)
      modifies this
      ensures View() == Step(old(View()), Fire(timer))
    {
      if timer !in timers { return; }
      var uri := timers[timer];
      timers := timers - {timer};
      if uri !in pendingChanges || pendingChanges[uri].timer != timer { return; }
      var pending := pendingChanges[uri];
      pendingChanges := pendingChanges - {uri};
      EnqueueDocument(pending.event);
    }

    method OnDocumentEvent(uri: string, kind: Kind)
      modifies this
      ensures View() == Step(old(View()), Hear(uri, kind))
    {
      hide Debounce, Flush;
      if disposed { return; }
      var e := DocumentEvent(uri, kind, |heard|);
      heard := heard + [e];
      match kind
      case Opened => EnqueueDocument(e);
      case Changed => DebounceDocumentChange(e);
      case Saved =>
        FlushPendingChange(e.uri);
        EnqueueDocument(e);
      case Closed =>
        FlushPendingChange(e.uri);
        EnqueueDocument(e);
    }

    method Dispose()
      modifies this
      ensures View() == Step(old(View()), Event.Dispose)
    {
      disposed, pendingChanges, timers := true, map[], map[];
    }

    /** The next link of the chain runs once the one before it has settled, whether or not it failed. */
    method RunNext(i: nat, fate: Fate) returns (ran: bool)
      modifies this
      ensures ran <==> MayStart(old(chain), i)
      ensures ran ==> i < |old(chain)| && old(chain)[i].status.Queued? && (i > 0 ==> old(chain)[i - 1].status.Settled?)
      ensures ran ==> chain == old(chain)[i := Link(old(chain)[i].task, Settled(fate))]
      ensures !ran ==> chain == old(chain)
      ensures View() == Step(Step(old(View()), Start(i)), if ran then Settle(i, fate) else Start(i))
    {
      ran := MayStart(chain, i);
      if ran {
        chain := chain[i := chain[i].(status := Running)];
        chain := chain[i := chain[i].(status := Settled(fate))];
      }
    }
  }
}
