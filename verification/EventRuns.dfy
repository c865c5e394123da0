/**
 How far the bridge compresses: when a change reaches the queue, which one it is, and what waits in
 between.
 */
module EventRuns {
  import opened Common
  import opened EventBridge

  // ----- One event --------------------------------------------------------------------------------

  /** The timer of a change that waits runs out. */
  predicate RunsOut(s: State, e: Event, uri: string) {
    e.Fire? && uri in s.pending && s.pending[uri].timer == e.timer
  }

  /** A save or a close, before which a waiting change is flushed. */
  predicate Flushes(e: Event, uri: string) { e.Hear? && e.uri == uri && (e.kind.Saved? || e.kind.Closed?) }

  predicate Changes(e: Event, uri: string) { e.Hear? && e.uri == uri && e.kind.Changed? }

  /** The change finds none of its document waiting, and those of 1,024 others. */
  predicate FindsNoRoom(s: State, e: Event, uri: string) {
    Changes(e, uri) && uri !in s.pending && |s.pending| >= 1024
  }

  /** What the event puts at the end of a document's queue. */
  function Adds(s: State, e: Event, uri: string): seq<DocumentEvent> {
    var waiting := if uri in s.pending then [s.pending[uri].event] else [];
    if RunsOut(s, e, uri) then waiting
    else if Flushes(e, uri) then waiting + [DocumentEvent(uri, e.kind, |s.heard|)]
    else if FindsNoRoom(s, e, uri) || (e.Hear? && e.uri == uri && e.kind.Opened?) then
      [DocumentEvent(uri, e.kind, |s.heard|)]
    else []
  }

  /** A document's queue grows as said; its change waits as said, under its own timer. */
  ghost predicate Stepped(s: State, e: Event, uri: string, t: State) {
    && Of(Queue(t.chain), uri, true) == Of(Queue(s.chain), uri, true) + Adds(s, e, uri)
    && (uri in t.pending <==>
          if RunsOut(s, e, uri) || Flushes(e, uri) then false
          else uri in s.pending || (Changes(e, uri) && !FindsNoRoom(s, e, uri)))
    && (uri in t.pending && Changes(e, uri) ==>
          && t.pending[uri].event == DocumentEvent(uri, Changed, |s.heard|)
          && t.pending[uri].timer !in s.armed && t.pending[uri].timer in t.armed
          && (uri in s.pending ==> s.pending[uri].timer !in t.armed))
    && (uri in t.pending && !Changes(e, uri) ==> uri in s.pending && t.pending[uri] == s.pending[uri])
  }

  /**
   What one event of a live bridge does to one document: a change replaces the one that waits and
   starts a new timer, unless there is no room; it reaches the queue when that timer runs out, or
   before a save or a close.
   */
  lemma DocumentStep(s: State, e: Event, uri: string)
    requires Talking(s) && !e.Dispose?
    ensures Stepped(s, e, uri, Step(s, e))
  {
    hide Of, Queue, Stepped, Flush, TimersInv;
    match e
    case Hear(heard, kind) =>
      match kind {
        case Opened => OpeningStep(s, heard, uri);
        case Changed => ChangeStep(s, heard, uri);
        case Saved => MarkStep(s, heard, kind, uri);
        case Closed => MarkStep(s, heard, kind, uri);
      }
    case Fire(timer) => TimerStep(s, timer, uri);
    case GestureHeard => GestureStep(s, uri);
    case SetLiveNotifier => NotifierStep(s, e, uri);
    case Start(i) => ChainStep(s, e, i, uri);
    case Settle(i, _) => ChainStep(s, e, i, uri);
  }

  lemma OpeningStep(s: State, heard: string, uri: string)
    requires Talking(s)
    ensures Stepped(s, Hear(heard, Opened), uri, Step(s, Hear(heard, Opened)))
  {
    hide Of, Queue, TimersInv;
    var e := Next(s, heard, Opened);
    QueueingAppends(s.(heard := s.heard + [e]), e, uri, true);
  }

  lemma ChangeStep(s: State, heard: string, uri: string)
    requires Talking(s)
    ensures Stepped(s, Hear(heard, Changed), uri, Step(s, Hear(heard, Changed)))
  {
    hide Of, Queue;
    var e := Next(s, heard, Changed);
    QueueingAppends(s.(heard := s.heard + [e]), e, uri, true);
  }

  /** A flush moves the waiting change of its own document to the queue, and no other. */
  lemma FlushStep(s: State, flushed: string, uri: string)
    requires Talking(s)
    ensures
      var t := Flush(s, flushed);
      && t.live && !t.disposed && t.heard == s.heard
      && Of(Queue(t.chain), uri, true)
         == Of(Queue(s.chain), uri, true) + (if flushed == uri && uri in s.pending then [s.pending[uri].event] else [])
      && (uri in t.pending <==> uri in s.pending && flushed != uri)
      && (uri in t.pending ==> t.pending[uri] == s.pending[uri])
  {
    hide Of, Queue;
    if flushed in s.pending { QueueingAppends(Unpend(s, flushed), s.pending[flushed].event, uri, true); }
  }

  lemma MarkStep(s: State, heard: string, kind: Kind, uri: string)
    requires Talking(s) && (kind.Saved? || kind.Closed?)
    ensures Stepped(s, Hear(heard, kind), uri, Step(s, Hear(heard, kind)))
  {
    hide Of, Queue, Flush, Timed;
    var e := Next(s, heard, kind);
    var h := s.(heard := s.heard + [e]);
    FlushStep(h, heard, uri);
    QueueingAppends(Flush(h, heard), e, uri, true);
    assert Of(Queue(s.chain), uri, true) + [] == Of(Queue(s.chain), uri, true);
  }

  lemma TimerStep(s: State, timer: nat, uri: string)
    requires Talking(s)
    ensures Stepped(s, Fire(timer), uri, Step(s, Fire(timer)))
  {
    hide Of, Queue, Flush;
    if timer in s.armed {
      FlushStep(s, s.armed[timer], uri);
      FiringIsFlushing(s, timer);
    }
  }

  lemma GestureStep(s: State, uri: string)
    requires Talking(s)
    ensures Stepped(s, GestureHeard, uri, Step(s, GestureHeard))
  {
    hide Of, Queue;
    QueueSnoc(s.chain, Link(Gesture, Queued));
  }

  lemma NotifierStep(s: State, e: Event, uri: string)
    requires Talking(s) && e.SetLiveNotifier?
    ensures Stepped(s, e, uri, Step(s, e))
  {
    hide Of, Queue;
  }

  lemma ChainStep(s: State, e: Event, i: nat, uri: string)
    requires Talking(s) && (e == Start(i) || (e.Settle? && e.link == i))
    ensures Stepped(s, e, uri, Step(s, e))
  {
    hide Of, Queue;
    if i < |s.chain| { QueueIgnoresStatus(s.chain, i, if e.Start? then Running else Settled(e.fate)); }
  }

  // ----- Runs -------------------------------------------------------------------------------------

  /** The change of the document heard last, if any. */
  function Latest(heard: seq<DocumentEvent>, uri: string): seq<DocumentEvent> {
    if heard == [] then []
    else
      var last := heard[|heard| - 1];
      if last.uri == uri && last.kind.Changed? then [last] else Latest(heard[..|heard| - 1], uri)
  }

  /** A change of the document reaches the queue: its timer runs out, it is flushed, or there is no room. */
  predicate Moves(s: State, e: Event, uri: string) {
    RunsOut(s, e, uri) || (Flushes(e, uri) && uri in s.pending) || FindsNoRoom(s, e, uri)
  }

  /**
   A document's queue as the run makes it: whenever a change moves, the one heard last by then; and
   every opening, save and close as it is heard.
   */
  function Emitted(es: seq<Event>, uri: string): seq<DocumentEvent> {
    if es == [] then []
    else
      var s, e := Run(LIVE, es[..|es| - 1]), es[|es| - 1];
      Emitted(es[..|es| - 1], uri)
      + (if Moves(s, e, uri) then Latest(Run(LIVE, es).heard, uri) else [])
      + (if e.Hear? && e.uri == uri && !e.kind.Changed? then [DocumentEvent(uri, e.kind, |s.heard|)] else [])
  }

  /** What waits is the change heard last. */
  ghost predicate LatestWaits(s: State, uri: string) {
    uri in s.pending ==> Latest(s.heard, uri) == [s.pending[uri].event]
  }

  lemma LatestSnoc(heard: seq<DocumentEvent>, e: DocumentEvent, uri: string)
    ensures Latest(heard + [e], uri) == if e.uri == uri && e.kind.Changed? then [e] else Latest(heard, uri)
  {
    assert (heard + [e])[..|heard|] == heard;
  }

  lemma EmitsStep(s: State, e: Event, uri: string)
    requires Talking(s) && !e.Dispose? && LatestWaits(s, uri)
    ensures
      var t := Step(s, e);
      && LatestWaits(t, uri)
      && Adds(s, e, uri) == (if Moves(s, e, uri) then Latest(t.heard, uri) else [])
         + (if e.Hear? && e.uri == uri && !e.kind.Changed? then [DocumentEvent(uri, e.kind, |s.heard|)] else [])
      && (Moves(s, e, uri) ==> |Latest(t.heard, uri)| == 1)
  {
    hide Step, Of, Queue, Latest, Talking;
    DocumentStep(s, e, uri);
    StepHears(s, e);
    if e.Hear? { LatestSnoc(s.heard, Next(s, e.uri, e.kind), uri); }
    StillTalks(s);
  }

  lemma StillTalks(s: State)
    requires Talking(s)
    ensures s.live && !s.disposed
  {}

  lemma {:induction false} EmittedWaits(es: seq<Event>, uri: string)
    requires Event.Dispose !in es
    ensures Talking(Run(LIVE, es)) && LatestWaits(Run(LIVE, es), uri)
    ensures Of(Queue(Run(LIVE, es).chain), uri, true) == Emitted(es, uri)
  {
    hide Step, Talking, LatestWaits, Of, Queue, Adds, Moves;
    RunIsFaithful(es, uri, false, |es|);
    assert es[..|es|] == es;
    if es == [] {
      NothingEmitted(uri);
    } else {
      var before, e := es[..|es| - 1], es[|es| - 1];
      assert es == before + [e] && e in es;
      EmittedWaits(before, uri);
      EmitsStep(Run(LIVE, before), e, uri);
      DocumentStep(Run(LIVE, before), e, uri);
    }
  }

  lemma NothingEmitted(uri: string)
    ensures LatestWaits(LIVE, uri) && Of(Queue(LIVE.chain), uri, true) == []
  {}

  /**
   Over every run without disposal, whatever the host does: a document's queue is exactly its openings,
   saves and closes, and one change for each time its timer ran out, it was flushed, or it found no
   room, each being the change heard last at that moment; and what waits is the change heard last.
   */
  lemma QueueIsEmitted(es: seq<Event>, uri: string)
    requires Event.Dispose !in es
    ensures Of(Queue(Run(LIVE, es).chain), uri, true) == Emitted(es, uri)
    ensures uri in Run(LIVE, es).pending ==> Latest(Run(LIVE, es).heard, uri) == [Run(LIVE, es).pending[uri].event]
    ensures forall k :: 0 <= k < |es| && Moves(Run(LIVE, es[..k]), es[k], uri) ==>
      |Latest(Run(LIVE, es[..k + 1]).heard, uri)| == 1
  {
    hide Step, Moves, Latest;
    EmittedWaits(es, uri);
    forall k | 0 <= k < |es| && Moves(Run(LIVE, es[..k]), es[k], uri)
      ensures |Latest(Run(LIVE, es[..k + 1]).heard, uri)| == 1
    {
      assert es[..k + 1][..k] == es[..k] && es[k] in es;
      EmittedWaits(es[..k], uri);
      EmitsStep(Run(LIVE, es[..k]), es[k], uri);
    }
  }

  /** From the k-th event on nothing moves the document's change or passes it by. */
  ghost predicate OnlyTyping(es: seq<Event>, k: nat, uri: string) {
    forall m :: k < m < |es| ==>
      !RunsOut(Run(LIVE, es[..m]), es[m], uri) && (es[m].Hear? && es[m].uri == uri ==> es[m].kind.Changed?)
  }

  /**
   However long a document is typed into, as long as its timer does not run out and nothing else of it
   is heard, nothing of it is queued: the last change heard waits, under a timer of its own.
   */
  lemma {:induction false} TypingQueuesNothing(es: seq<Event>, k: nat, uri: string)
    requires Event.Dispose !in es && k < |es| && Changes(es[k], uri)
    requires !FindsNoRoom(Run(LIVE, es[..k]), es[k], uri) && OnlyTyping(es, k, uri)
    ensures
      var s, t := Run(LIVE, es[..k]), Run(LIVE, es);
      && Of(Queue(t.chain), uri, true) == Of(Queue(s.chain), uri, true)
      && uri in t.pending && t.pending[uri].timer in t.armed && Latest(t.heard, uri) == [t.pending[uri].event]
  {
    hide Step, Talking, Of, Queue, Latest, OnlyTyping, FindsNoRoom, Changes, Moves;
    EmittedWaits(es, uri);
    ArmedWhileWaiting(Run(LIVE, es), uri);
    var before, e := es[..|es| - 1], es[|es| - 1];
    assert es == before + [e] && e in es;
    EmittedWaits(before, uri);
    if k < |before| {
      assert es[..k] == before[..k];
      OnlyTypingBefore(es, before, e, k, uri);
      TypingQueuesNothing(before, k, uri);
    }
    QuietStep(Run(LIVE, before), e, uri);
  }

  lemma OnlyTypingBefore(es: seq<Event>, before: seq<Event>, e: Event, k: nat, uri: string)
    requires es == before + [e] && k < |before| && OnlyTyping(es, k, uri)
    ensures OnlyTyping(before, k, uri)
    ensures !RunsOut(Run(LIVE, before), e, uri) && (e.Hear? && e.uri == uri ==> e.kind.Changed?)
  {
    hide Run, RunsOut;
    assert es[..|before|] == before && es[|before|] == e;
    assert forall m :: 0 <= m < |before| ==> es[..m] == before[..m] && es[m] == before[m];
    forall m | k < m < |before|
      ensures !RunsOut(Run(LIVE, before[..m]), before[m], uri)
              && (before[m].Hear? && before[m].uri == uri ==> before[m].kind.Changed?)
    {
      assert !RunsOut(Run(LIVE, es[..m]), es[m], uri);
    }
    assert !RunsOut(Run(LIVE, es[..|before|]), es[|before|], uri);
  }

  /** While a change waits, or comes and finds room, nothing else of its document happening leaves it waiting. */
  lemma QuietStep(s: State, e: Event, uri: string)
    requires Talking(s) && !e.Dispose?
    requires uri in s.pending || (Changes(e, uri) && !FindsNoRoom(s, e, uri))
    requires Changes(e, uri) || (!RunsOut(s, e, uri) && (e.Hear? && e.uri == uri ==> e.kind.Changed?))
    ensures Of(Queue(Step(s, e).chain), uri, true) == Of(Queue(s.chain), uri, true) && uri in Step(s, e).pending
  {
    hide Step, Talking, Of, Queue;
    DocumentStep(s, e, uri);
  }

  lemma ArmedWhileWaiting(s: State, uri: string)
    requires Talking(s)
    ensures uri in s.pending ==> s.pending[uri].timer in s.armed
  {}

  // ----- The queue as a whole ---------------------------------------------------------------------

  /** A queue that has not run out always has a task that is running or may start: no failure holds it up. */
  lemma SomeTaskMayGoOn(chain: seq<Link>, n: nat) returns (i: nat)
    requires InOrder(chain) && n < |chain| && !chain[n].status.Settled?
    ensures i <= n && (chain[i].status.Running? || MayStart(chain, i))
  {
    i := 0;
    while chain[i].status.Settled?
      invariant i <= n && forall j :: 0 <= j < i ==> chain[j].status.Settled?
      decreases n - i
    {
      i := i + 1;
    }
  }

  /** A task goes from queued to running to settled, in its own place, and nothing else moves it. */
  lemma TaskSteps(s: State, e: Event, i: nat)
    requires i < |s.chain|
    ensures
      var t := Step(s, e).chain;
      && i < |t| && t[i].task == s.chain[i].task
      && t[i].status == if e == Start(i) && MayStart(s.chain, i) then Running
                        else if e.Settle? && e.link == i && s.chain[i].status.Running? then Settled(e.fate)
                        else s.chain[i].status
  {
    if e.Hear? { HearExtendsChain(s, Next(s, e.uri, e.kind)); }
    hide HearEvent;
  }

  /** A gesture takes the next place in the queue of a live bridge. */
  lemma GestureIsQueued(s: State)
    ensures Step(s, GestureHeard) ==
      if s.live && !s.disposed then s.(chain := s.chain + [Link(Gesture, Queued)]) else s
  {}

  function Named(es: seq<DocumentEvent>, reason: DropReason): seq<(DocumentEvent, DropReason)> {
    seq(|es|, i requires 0 <= i < |es| => (es[i], reason))
  }

  /** Without anyone to notify, what would have been queued is dropped and named, and the queue stays. */
  lemma OfflineEventsAreNamed(s: State, e: Event)
    requires TimersInv(s) && !s.live && !s.disposed && (e.Hear? || (e.Fire? && e.timer in s.armed))
    ensures
      var uri := if e.Hear? then e.uri else s.armed[e.timer];
      Step(s, e).chain == s.chain && Step(s, e).dropped == s.dropped + Named(Adds(s, e, uri), NoNotifier)
  {}

  /** Once disposed the bridge hears nothing. */
  lemma DisposedHearsNothing(s: State, e: Event)
    requires s.disposed && e.Hear?
    ensures Step(s, e) == s
  {}
}
