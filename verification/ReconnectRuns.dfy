/** What reconnection does over a run: its attempts counted, its sockets accounted for, its handlers kept. */
module ReconnectRuns {
  import opened Common
  import opened Backoff
  import opened Reconnect

  // ----- What an event means ----------------------------------------------------------------------

  /** Something happens to a task that is there. */
  predicate At(s: State, e: Event) {
    && (e.Wakes? || e.DelayEnds? || e.Connects? || e.Restores? || e.Discards?)
    && e.task in s.activities
  }

  /** The monitor finds the connection in use closed. */
  predicate Loses(s: State, e: Event) {
    && At(s, e) && e.Wakes? && s.activities[e.task].Monitor? && !s.isClosed
    && s.activities[e.task].connection !in s.open
  }

  /** An attempt is over without a connection: none was made, or the one made has been discarded. */
  predicate Fails(s: State, e: Event) {
    && At(s, e) && !s.isClosed
    && ((e.Connects? && !e.ok && s.activities[e.task].Connecting?) || (e.Discards? && s.activities[e.task].Discarding?))
  }

  /** The session is restored on a socket that is still open. */
  predicate Restored(s: State, e: Event) {
    && At(s, e) && e.Restores? && e.ok && s.activities[e.task].Restoring? && !s.isClosed
    && s.activities[e.task].connection in s.open
  }

  /** Lost and found: what makes a connection current, and what takes it away. */
  lemma CurrentChangesIff(s: State, e: Event)
    requires Inv(s)
    ensures
      var t := Step(s, e);
      && (Restored(s, e) ==>
            t.current == Some(s.activities[e.task].connection) && t.status == Connected(t.current.value))
      && (Loses(s, e) ==> t.current.None? && t.status.Reconnecting?)
      && (e.Close? ==> t.current.None? && t.isClosed && t.status.Closed?)
      && (!Restored(s, e) && !Loses(s, e) && !e.Close? ==> t.current == s.current)
      && (t.isClosed <==> s.isClosed || e.Close?)
  {}

  // ----- Attempts ---------------------------------------------------------------------------------

  /** How many attempts have failed since the last connection was lost. */
  function FailedSince(settings: Settings, es: seq<Event>): nat {
    if es == [] then 0
    else
      var s, e := Run(Initial(settings), es[..|es| - 1]), es[|es| - 1];
      if Loses(s, e) then 0 else FailedSince(settings, es[..|es| - 1]) + if Fails(s, e) then 1 else 0
  }

  /** The draw that came with the last of those. */
  function LastDraw(settings: Settings, es: seq<Event>): Draw {
    if es == [] then 0.0
    else
      var s, e := Run(Initial(settings), es[..|es| - 1]), es[|es| - 1];
      if Loses(s, e) || Fails(s, e) then e.random else LastDraw(settings, es[..|es| - 1])
  }

  lemma AnnouncedNext(s: State, e: Event)
    requires Inv(s)
    ensures
      var t := Step(s, e);
      && (Loses(s, e) ==> t.status == Reconnecting(1, JitteredDelay(s.settings, Base(s.settings, 1), e.random)))
      && (Fails(s, e) ==>
            s.status.Reconnecting?
            && t.status == Reconnecting(s.status.attempt + 1,
                 JitteredDelay(s.settings, Base(s.settings, s.status.attempt + 1), e.random)))
      && (!Loses(s, e) && !Fails(s, e) && t.status.Reconnecting? ==> t.status == s.status)
  {
    hide JitteredDelay, HandlerInv, ConnectionInv;
    if At(s, e) { assert !s.isClosed ==> Owned(s, e.task); }
  }

  /**
   In every run the attempt announced is one more than those failed since the connection was lost,
   and its delay is that attempt's base jittered by the draw made for it.
   */
  lemma {:induction false} AttemptsAreCounted(settings: Settings, es: seq<Event>)
    ensures
      var s := Run(Initial(settings), es);
      s.status.Reconnecting? ==>
        && s.status.attempt == FailedSince(settings, es) + 1
        && s.status.nextDelayMs == JitteredDelay(settings, Base(settings, s.status.attempt), LastDraw(settings, es))
  {
    hide Step, Inv, JitteredDelay, Loses, Fails, Base;
    if es != [] {
      var before, e := es[..|es| - 1], es[|es| - 1];
      AttemptsAreCounted(settings, before);
      InitialInv(settings);
      RunKeepsInv(Initial(settings), before);
      DelaysAreAnnounced(settings, before);
      AnnouncedNext(Run(Initial(settings), before), e);
    }
  }

  // ----- Sockets ----------------------------------------------------------------------------------

  /** The connection a task is bringing up or taking down. */
  function InHand(a: Activity): set<nat> {
    match a
    case Restoring(_, c) => {c}
    case Discarding(_, c) => {c}
    case _ => {}
  }

  /** Every open socket is the current connection's, the candidate's, or in a task's hand. */
  ghost predicate NothingLeaks(s: State) {
    forall c :: c in s.open ==>
      c in Held(s.current) || c in Held(s.candidate) || exists a :: a in s.activities && c in InHand(s.activities[a])
  }

  lemma StepLeaksNothing(s: State, e: Event)
    requires Inv(s) && NothingLeaks(s)
    ensures NothingLeaks(Step(s, e))
  {
    hide HandlerInv, ConnectionInv, JitteredDelay, Detach, Attach;
    var t := Step(s, e);
    if At(s, e) {
      assert !s.isClosed ==> Owned(s, e.task);
      forall c | c in t.open && c !in Held(t.current) && c !in Held(t.candidate)
        ensures e.task in t.activities && c in InHand(t.activities[e.task])
      {}
    }
  }

  /**
   In every run no socket is left open that nobody holds: closing closes the current connection and
   the candidate at once, and once it is closed and its last task over, nothing is open.
   */
  lemma {:induction false} NoSocketIsLeftOpen(settings: Settings, es: seq<Event>)
    ensures
      var s := Run(Initial(settings), es);
      && NothingLeaks(s)
      && Step(s, Close).open !! Held(s.current) + Held(s.candidate)
      && (s.isClosed && Idle(s) ==> s.open == {})
  {
    hide Step;
    InitialInv(settings);
    RunKeepsInv(Initial(settings), es);
    CloseClosesBoth(Run(Initial(settings), es));
    if es != [] {
      var before := es[..|es| - 1];
      NoSocketIsLeftOpen(settings, before);
      RunKeepsInv(Initial(settings), before);
      StepLeaksNothing(Run(Initial(settings), before), es[|es| - 1]);
    }
  }

  lemma CloseClosesBoth(s: State)
    requires Inv(s)
    ensures Step(s, Close).open == s.open - Held(s.current) - Held(s.candidate)
  {}

  // ----- Handlers ---------------------------------------------------------------------------------

  function Registrations(es: seq<Event>): nat {
    if es == [] then 0 else Registrations(es[..|es| - 1]) + if es[|es| - 1].Register? then 1 else 0
  }

  /** The registrations made and not withdrawn, numbered as they were made. */
  function Registered(es: seq<Event>): set<nat> {
    if es == [] then {}
    else
      var earlier, e := Registered(es[..|es| - 1]), es[|es| - 1];
      if e.Register? then earlier + {Registrations(es[..|es| - 1])}
      else if e.Unregister? then earlier - {e.handler}
      else earlier
  }

  lemma HandlersStep(s: State, e: Event)
    ensures
      var t := Step(s, e);
      && t.registered == s.registered + (if e.Register? then 1 else 0)
      && t.handlers.Keys == if e.Register? then s.handlers.Keys + {s.registered}
                            else if e.Unregister? then s.handlers.Keys - {e.handler} else s.handlers.Keys
  {}

  /**
   In every run, across any number of connections, the handlers kept are exactly those registered and
   not withdrawn, and each is attached to the connection in use and to the one being restored.
   */
  lemma {:induction false} HandlersAreThoseRegistered(settings: Settings, es: seq<Event>)
    ensures
      var s := Run(Initial(settings), es);
      && s.handlers.Keys == Registered(es) && s.registered == Registrations(es)
      && (forall h :: h in Registered(es) ==> s.handlers[h] == Held(s.current) + Held(s.candidate))
  {
    OneTaskAndExactHandlers(settings, es);
    hide Step;
    if es != [] {
      HandlersAreThoseRegistered(settings, es[..|es| - 1]);
      HandlersStep(Run(Initial(settings), es[..|es| - 1]), es[|es| - 1]);
    }
  }

  // ----- Requests ---------------------------------------------------------------------------------

  /** A request is sent exactly when the connection in use is open, and on that one. */
  lemma RequestsAreSentIff(s: State, e: Event)
    ensures Step(s, e).requested ==
      if e.Request? && !s.isClosed && s.current.Some? && s.current.value in s.open
      then s.requested + [s.current.value] else s.requested
  {}
}
