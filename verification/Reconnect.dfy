/**
 A connection that replaces itself. Monitors and the retry loop are asynchronous tasks that run from
 one await to the next, so a death, a close, a registration or a request may come between any two.
 */
module Reconnect {
  import opened Common
  import opened Backoff

  /** The loop's local variables. */
  datatype Turn = Turn(attempt: nat, baseDelayMs: int)

  function NextTurn(settings: Settings, turn: Turn): Turn {
    Turn(turn.attempt + 1, NextBase(settings, turn.baseDelayMs))
  }

  /** A task suspended at an await. */
  datatype Activity =
    | Monitor(connection: nat, generation: nat)
    | Waiting(turn: Turn)
    | Connecting(turn: Turn)
    | Restoring(turn: Turn, connection: nat)
    | Discarding(turn: Turn, connection: nat)

  datatype Status = Connected(connection: nat) | Reconnecting(attempt: nat, nextDelayMs: int) | Closed

  /**
   `handlers` holds, for each registration, the connections it is attached to; `made` and `started`
   number connections and tasks; `restored` and `requested` record the connections whose restoration
   finished and the connection each accepted request was sent on.
   */
  datatype State = State(
    settings: Settings, open: set<nat>, made: nat, current: Option<nat>, candidate: Option<nat>, generation: nat,
    isClosed: bool, status: Status, activities: map<nat, Activity>, started: nat,
    handlers: map<nat, set<nat>>, registered: nat, restored: set<nat>, requested: seq<nat>)

  function Initial(settings: Settings): State {
    State(settings, {0}, 1, Some(0), None, 1, false, Connected(0), map[0 := Monitor(0, 1)], 1, map[], 0, {0}, [])
  }

  function Held(c: Option<nat>): set<nat> { if c.Some? then {c.value} else {} }

  function Attach(handlers: map<nat, set<nat>>, c: nat): map<nat, set<nat>> {
    map h | h in handlers :: handlers[h] + {c}
  }

  function Detach(handlers: map<nat, set<nat>>, cs: set<nat>): map<nat, set<nat>> {
    map h | h in handlers :: handlers[h] - cs
  }

  function End(s: State, a: nat): State { s.(activities := s.activities - {a}) }

  function Becomes(s: State, a: nat, activity: Activity): State { s.(activities := s.activities[a := activity]) }

  /** The head of the loop: a jittered delay is announced, and begins. */
  function Retry(s: State, a: nat, turn: Turn, random: Draw): State {
    Becomes(s.(status := Reconnecting(turn.attempt, JitteredDelay(s.settings, turn.baseDelayMs, random))), a,
            Waiting(turn))
  }

  /** `random` is the draw that jitters the delay when the loop goes round. */
  datatype Event =
    | Dies(connection: nat)
    | Wakes(task: nat, random: Draw)
    | DelayEnds(task: nat)
    | Connects(task: nat, ok: bool, attached: bool, random: Draw)
    | Restores(task: nat, ok: bool)
    | Discards(task: nat, random: Draw)
    | Register | Unregister(handler: nat) | Close | Request

  /** The monitor's connection has closed. */
  function WakeMonitor(s: State, a: nat, connection: nat, generation: nat, random: Draw): State {
    if s.isClosed || s.current != Some(connection) || s.generation != generation then End(s, a)
    else Retry(s.(handlers := Detach(s.handlers, {connection}), current := None), a, Turn(1, s.settings.initialDelayMs),
               random)
  }

  function Connect(s: State, a: nat, turn: Turn, ok: bool, attached: bool, random: Draw): State {
    if !ok then if s.isClosed then End(s, a) else Retry(s, a, NextTurn(s.settings, turn), random)
    else
      var c, t := s.made, s.(made := s.made + 1);
      if s.isClosed then End(t, a)
      else if !attached then Becomes(t.(open := t.open + {c}), a, Discarding(turn, c))
      else Becomes(t.(open := t.open + {c}, candidate := Some(c), handlers := Attach(t.handlers, c)), a,
                   Restoring(turn, c))
  }

  function Restore(s: State, a: nat, turn: Turn, c: nat, ok: bool): State {
    if !ok then
      Becomes(s.(handlers := Detach(s.handlers, {c}), candidate := if s.candidate == Some(c) then None
                                                                   else s.candidate),
              a, Discarding(turn, c))
    else if s.isClosed || c !in s.open then End(s.(open := s.open - {c}), a)
    else SwapCandidate(End(s, a), c)
  }

  /** The candidate becomes the current connection, under a new generation and a monitor of its own. */
  function SwapCandidate(s: State, c: nat): State {
    s.(candidate := None, current := Some(c), generation := s.generation + 1, status := Connected(c),
       activities := s.activities[s.started := Monitor(c, s.generation + 1)], started := s.started + 1,
       restored := s.restored + {c})
  }

  function Discard(s: State, a: nat, turn: Turn, c: nat, random: Draw): State {
    var t := s.(open := s.open - {c});
    if s.isClosed then End(t, a) else Retry(t, a, NextTurn(s.settings, turn), random)
  }

  function CloseAll(s: State): State {
    var cs := Held(s.current) + Held(s.candidate);
    if s.isClosed then s
    else s.(isClosed := true, current := None, candidate := None, status := Closed,
            handlers := Detach(s.handlers, cs), open := s.open - cs)
  }

  function Advance(s: State, a: nat, e: Event): State
    requires a in s.activities
  {
    match (s.activities[a], e)
    case (Monitor(c, generation), Wakes(_, random)) => if c in s.open then s
                                                       else WakeMonitor(s, a, c, generation, random)
    case (Waiting(turn), DelayEnds(_)) => if s.isClosed then End(s, a) else Becomes(s, a, Connecting(turn))
    case (Connecting(turn), Connects(_, ok, attached, random)) => Connect(s, a, turn, ok, attached, random)
    case (Restoring(turn, c), Restores(_, ok)) => Restore(s, a, turn, c, ok)
    case (Discarding(turn, c), Discards(_, random)) => Discard(s, a, turn, c, random)
    case _ => s
  }

  function Step(s: State, e: Event): State {
    match e
    case Dies(c) => s.(open := s.open - {c})
    case Register => s.(handlers := s.handlers[s.registered := Held(s.current) + Held(s.candidate)],
                        registered := s.registered + 1)
    case Unregister(h) => s.(handlers := s.handlers - {h})
    case Close => CloseAll(s)
    case Request =>
      if s.isClosed || s.current.None? || s.current.value !in s.open then s
      else s.(requested := s.requested + [s.current.value])
    case _ => if e.task in s.activities then Advance(s, e.task, e) else s
  }

  function Run(s: State, es: seq<Event>): State {
    if es == [] then s else Step(Run(s, es[..|es| - 1]), es[|es| - 1])
  }

  // ----- The invariant ----------------------------------------------------------------------------

  /** The task that owns the state of the connection: its live monitor, or the retry loop. */
  ghost predicate Owned(s: State, a: nat)
    requires a in s.activities
  {
    match s.activities[a]
    case Monitor(c, generation) => s.current == Some(c) && s.candidate.None? && generation == s.generation
      && s.status == Connected(c)
    case Waiting(turn) => s.current.None? && s.candidate.None? && Announced(s, turn)
    case Connecting(turn) => s.current.None? && s.candidate.None? && Announced(s, turn)
    case Restoring(turn, c) => s.current.None? && s.candidate == Some(c) && Announced(s, turn)
    case Discarding(turn, c) => s.current.None? && s.candidate.None? && Announced(s, turn)
  }

  /** The status names the loop's attempt; its base is that attempt's, and the delay is jittered from it. */
  ghost predicate Announced(s: State, turn: Turn) {
    && turn.attempt >= 1 && turn.baseDelayMs == Base(s.settings, turn.attempt) && s.status.Reconnecting?
    && s.status.attempt == turn.attempt
    && exists random: Draw :: s.status.nextDelayMs == JitteredDelay(s.settings, turn.baseDelayMs, random)
  }

  predicate Idle(s: State) { s.activities.Keys == {} }

  /** Reconnecting for ever: nobody watches a connection and nobody retries. */
  ghost predicate Stuck(s: State) {
    !s.isClosed && Idle(s) && s.current.None? && s.status.Reconnecting? && s.candidate.Some?
      && s.candidate.value !in s.open
  }

  /** One task at most; it owns the connection unless that is closed, and only a stuck one has none. */
  ghost predicate TaskInv(s: State) {
    && (forall a, b :: a in s.activities && b in s.activities ==> a == b)
    && (forall a :: a in s.activities ==> a < s.started && (!s.isClosed ==> Owned(s, a)))
    && (s.isClosed ==> s.current.None? && s.candidate.None? && s.status.Closed?)
    && (!s.isClosed && Idle(s) ==> Stuck(s))
  }

  /** Every registered handler is attached to the current connection and the candidate, and to nothing else. */
  ghost predicate HandlerInv(s: State) {
    forall h :: h in s.handlers ==> h < s.registered && s.handlers[h] == Held(s.current) + Held(s.candidate)
  }

  /** Requests have only ever travelled on connections whose restoration had finished; a candidate's has not. */
  ghost predicate ConnectionInv(s: State) {
    && Held(s.current) <= s.restored && (forall c :: c in s.requested ==> c in s.restored)
    && (forall c :: c in s.open || c in s.restored ==> c < s.made)
    && (s.candidate.Some? ==> s.candidate.value < s.made && s.candidate.value !in s.restored)
  }

  ghost predicate Inv(s: State) { TaskInv(s) && HandlerInv(s) && ConnectionInv(s) }

  lemma SameTask(s: State, a: nat, activity: Activity, t: State)
    requires Inv(s) && a in s.activities && t.activities == s.activities[a := activity] && t.started == s.started
    requires t.isClosed == s.isClosed && (t.isClosed ==> t.current.None? && t.candidate.None? && t.status.Closed?)
    requires !t.isClosed ==> Owned(t, a)
    ensures TaskInv(t)
  {}

  lemma LastTask(s: State, a: nat, t: State)
    requires Inv(s) && a in s.activities && t.activities == s.activities - {a}
    requires t.isClosed ==> t.current.None? && t.candidate.None? && t.status.Closed?
    requires !t.isClosed && Idle(t) ==> Stuck(t)
    ensures TaskInv(t) && Idle(t)
  {}

  lemma DetachKeepsHandlers(s: State, t: State, cs: set<nat>)
    requires HandlerInv(s) && t.handlers == Detach(s.handlers, cs) && t.registered == s.registered
    requires Held(t.current) + Held(t.candidate) == Held(s.current) + Held(s.candidate) - cs
    ensures HandlerInv(t)
  {}

  lemma WakeKeepsInv(s: State, a: nat, c: nat, generation: nat, random: Draw)
    requires Inv(s) && a in s.activities && s.activities[a] == Monitor(c, generation)
    ensures Inv(WakeMonitor(s, a, c, generation, random))
  {}

  lemma ConnectKeepsInv(s: State, a: nat, turn: Turn, ok: bool, attached: bool, random: Draw)
    requires Inv(s) && a in s.activities && s.activities[a] == Connecting(turn)
    ensures Inv(Connect(s, a, turn, ok, attached, random))
  {}

  lemma RestoreKeepsInv(s: State, a: nat, turn: Turn, c: nat, ok: bool)
    requires Inv(s) && a in s.activities && s.activities[a] == Restoring(turn, c)
    ensures Inv(Restore(s, a, turn, c, ok))
  {
    var t := Restore(s, a, turn, c, ok);
    if !ok {
      SameTask(s, a, Discarding(turn, c), t);
      DetachKeepsHandlers(s, t, {c});
    } else if s.isClosed || c !in s.open {
      LastTask(s, a, t);
    } else {
      assert t.activities.Keys == {s.started};
    }
  }

  lemma DiscardKeepsInv(s: State, a: nat, turn: Turn, c: nat, random: Draw)
    requires Inv(s) && a in s.activities && s.activities[a] == Discarding(turn, c)
    ensures Inv(Discard(s, a, turn, c, random))
  {}

  lemma AdvanceKeepsInv(s: State, a: nat, e: Event)
    requires Inv(s) && a in s.activities
    ensures Inv(Advance(s, a, e))
  {
    match (s.activities[a], e)
    case (Monitor(c, generation), Wakes(_, random)) => WakeKeepsInv(s, a, c, generation, random);
    case (Waiting(turn), DelayEnds(_)) =>
      if s.isClosed {
        LastTask(s, a, End(s, a));
      } else {
        SameTask(s, a, Connecting(turn), Becomes(s, a, Connecting(turn)));
      }
    case (Connecting(turn), Connects(_, ok, attached, random)) => ConnectKeepsInv(s, a, turn, ok, attached, random);
    case (Restoring(turn, c), Restores(_, ok)) => RestoreKeepsInv(s, a, turn, c, ok);
    case (Discarding(turn, c), Discards(_, random)) => DiscardKeepsInv(s, a, turn, c, random);
    case _ =>
  }

  lemma CloseKeepsInv(s: State)
    requires Inv(s)
    ensures Inv(CloseAll(s))
  {}

  lemma OutsideKeepsInv(s: State, e: Event)
    requires Inv(s) && (e.Dies? || e.Register? || e.Unregister? || e.Request?)
    ensures Inv(Step(s, e))
  {}

  lemma StepKeepsInv(s: State, e: Event)
    requires Inv(s)
    ensures Inv(Step(s, e))
  {
    hide Inv;
    if e.Dies? || e.Register? || e.Unregister? || e.Request? {
      OutsideKeepsInv(s, e);
    } else if e.Close? {
      CloseKeepsInv(s);
    } else if e.task in s.activities {
      AdvanceKeepsInv(s, e.task, e);
    }
  }

  // ----- Over whole runs --------------------------------------------------------------------------

  lemma InitialInv(settings: Settings)
    ensures Inv(Initial(settings))
  {
    assert 0 in Initial(settings).activities && Owned(Initial(settings), 0);
  }

  lemma {:induction false} RunKeepsInv(s: State, es: seq<Event>)
    requires Inv(s)
    ensures Inv(Run(s, es))
  {
    if es != [] {
      RunKeepsInv(s, es[..|es| - 1]);
      StepKeepsInv(Run(s, es[..|es| - 1]), es[|es| - 1]);
    }
  }

  /**
   In every run: at most one monitor or retry loop; handlers attached to exactly the current
   connection and the candidate; and requests sent only on connections that had been restored.
   */
  lemma OneTaskAndExactHandlers(settings: Settings, es: seq<Event>)
    ensures
      var s := Run(Initial(settings), es);
      && (forall a, b :: a in s.activities && b in s.activities ==> a == b)
      && (forall h :: h in s.handlers ==> s.handlers[h] == Held(s.current) + Held(s.candidate))
      && (forall c :: c in s.requested ==> c in s.restored)
      && (s.candidate.Some? ==> s.candidate.value !in s.requested)
  {
    InitialInv(settings);
    RunKeepsInv(Initial(settings), es);
  }

  /** Nothing takes a connection out of closed, and nothing is sent from there. */
  ghost predicate SilentlyClosed(s: State, t: State) {
    t.isClosed && t.status.Closed? && t.current.None? && t.candidate.None? && t.requested == s.requested
      && t.generation == s.generation
  }

  lemma ClosedStep(s: State, e: Event)
    requires Inv(s) && s.isClosed
    ensures SilentlyClosed(s, Step(s, e))
  {}

  lemma {:induction false} ClosedIsAbsorbing(s: State, es: seq<Event>)
    requires Inv(s) && s.isClosed
    ensures SilentlyClosed(s, Run(s, es))
  {
    if es != [] {
      ClosedIsAbsorbing(s, es[..|es| - 1]);
      RunKeepsInv(s, es[..|es| - 1]);
      ClosedStep(Run(s, es[..|es| - 1]), es[|es| - 1]);
    }
  }

  /** A connection that becomes current does so under the next generation. */
  lemma {:induction false} GenerationsIncrease(s: State, es: seq<Event>)
    ensures s.generation <= Run(s, es).generation
    ensures Run(s, es).current.Some? && Run(s, es).current != s.current ==> s.generation < Run(s, es).generation
  {
    if es != [] {
      GenerationsIncrease(s, es[..|es| - 1]);
      GenerationStep(Run(s, es[..|es| - 1]), es[|es| - 1]);
    }
  }

  lemma GenerationStep(s: State, e: Event)
    ensures s.generation <= Step(s, e).generation
    ensures Step(s, e).current.Some? && Step(s, e).current != s.current ==> Step(s, e).generation == s.generation + 1
  {}

  /** What is announced while reconnecting: the attempt, and a delay jittered from that attempt's base. */
  ghost predicate WellAnnounced(s: State) {
    s.status.Reconnecting? ==>
      && s.status.attempt >= 1
      && exists random: Draw ::
           s.status.nextDelayMs == JitteredDelay(s.settings, Base(s.settings, s.status.attempt), random)
  }

  lemma StepKeepsAnnounced(s: State, e: Event)
    requires Inv(s) && WellAnnounced(s)
    ensures WellAnnounced(Step(s, e))
  {
    hide HandlerInv, ConnectionInv, JitteredDelay, Base;
    StepKeepsInv(s, e);
    var t := Step(s, e);
    if !t.isClosed && !Idle(t) {
      var a :| a in t.activities;
      assert Owned(t, a);
    }
  }

  /** In every run under accepted options the delay announced is that attempt's, jittered, and within the cap. */
  lemma {:induction false} DelaysAreAnnounced(settings: Settings, es: seq<Event>)
    ensures Run(Initial(settings), es).settings == settings && WellAnnounced(Run(Initial(settings), es))
    ensures Accepted(settings) && Run(Initial(settings), es).status.Reconnecting? ==>
              1 <= Run(Initial(settings), es).status.nextDelayMs <= settings.maxDelayMs
  {
    hide Inv, JitteredDelay;
    var s := Run(Initial(settings), es);
    InitialInv(settings);
    if es != [] {
      var before := Run(Initial(settings), es[..|es| - 1]);
      DelaysAreAnnounced(settings, es[..|es| - 1]);
      RunKeepsInv(Initial(settings), es[..|es| - 1]);
      StepKeepsAnnounced(before, es[|es| - 1]);
      SettingsStay(before, es[|es| - 1]);
    }
    if Accepted(settings) && s.status.Reconnecting? {
      var random: Draw :| s.status.nextDelayMs == JitteredDelay(settings, Base(settings, s.status.attempt), random);
      BasesClimbToTheCap(settings, s.status.attempt);
      DelaysStayInRange(settings, Base(settings, s.status.attempt), random);
    }
  }

  lemma SettingsStay(s: State, e: Event)
    ensures Step(s, e).settings == s.settings
  {}

  // ----- When reconnection ends -------------------------------------------------------------------

  /** The restoration finished, and its socket had closed by then. */
  predicate RestoresDeadSocket(s: State, e: Event) {
    e.Restores? && e.ok && e.task in s.activities && s.activities[e.task].Restoring?
      && s.activities[e.task].connection !in s.open
  }

  /** The loop gives up for good exactly when a restoration finishes on a socket that is no longer open. */
  lemma GivesUpIff(s: State, e: Event)
    requires Inv(s) && !s.isClosed && !Idle(s)
    ensures Stuck(Step(s, e)) <==> RestoresDeadSocket(s, e)
  {}

  function SocketDiesWhileRestoring(random: Draw): seq<Event> {
    [Dies(0), Wakes(0, random), DelayEnds(0), Connects(0, true, true, random), Dies(1), Restores(0, true)]
  }

  /** A run that gives up: the new socket closes while its session is being restored. */
  lemma GivesUpFromTheStart(settings: Settings, random: Draw)
    ensures Stuck(Run(Initial(settings), SocketDiesWhileRestoring(random)))
  {
    var s, es := Initial(settings), SocketDiesWhileRestoring(random);
    var turn := Turn(1, settings.initialDelayMs);
    hide Run;
    Unfold(s, es);
    var dead := s.(open := {});
    assert Run(s, es[..1]) == dead;
    var waiting := Run(s, es[..2]);
    assert waiting.activities == map[0 := Waiting(turn)] && waiting.current.None? && waiting.made == 1
           && !waiting.isClosed;
    assert waiting.open == {} && waiting.candidate.None? && waiting.status.Reconnecting?;
    var connecting := Run(s, es[..3]);
    assert connecting == Becomes(waiting, 0, Connecting(turn));
    RestoresInto(s, es, connecting, turn);
  }

  lemma RestoresInto(s: State, es: seq<Event>, connecting: State, turn: Turn)
    requires |es| == 6 && Run(s, es[..3]) == connecting && es[3].Connects? && es[3].task == 0 && es[3].ok
             && es[3].attached
    requires es[4] == Dies(1) && es[5] == Restores(0, true)
    requires connecting.activities == map[0 := Connecting(turn)] && connecting.made == 1 && connecting.open == {}
    requires !connecting.isClosed && connecting.current.None? && connecting.status.Reconnecting?
    ensures Stuck(Run(s, es))
  {
    hide Run;
    Unfold(s, es);
    var restoring := Run(s, es[..4]);
    assert restoring.activities == map[0 := Restoring(turn, 1)] && restoring.open == {1}
           && restoring.candidate == Some(1);
    var orphaned := Run(s, es[..5]);
    assert orphaned == restoring.(open := {});
    var t := Run(s, es[..6]);
    assert t.activities == map[];
  }

  lemma Unfold(s: State, es: seq<Event>)
    ensures Run(s, es[..0]) == s && Run(s, es[..|es|]) == Run(s, es)
    ensures forall k :: 0 <= k < |es| ==> Run(s, es[..k + 1]) == Step(Run(s, es[..k]), es[k])
  {
    assert es[..|es|] == es;
    forall k | 0 <= k < |es| ensures Run(s, es[..k + 1]) == Step(Run(s, es[..k]), es[k]) {
      assert es[..k + 1][..k] == es[..k];
    }
  }

  /** Given up, it stays so, and refuses every request, until it is closed. */
  lemma {:induction false} StuckForGood(s: State, es: seq<Event>)
    requires Inv(s) && Stuck(s) && Close !in es
    ensures Stuck(Run(s, es)) && Run(s, es).requested == s.requested
  {
    if es != [] {
      assert es == es[..|es| - 1] + [es[|es| - 1]] && es[|es| - 1] in es;
      StuckForGood(s, es[..|es| - 1]);
    }
  }

  predicate Usable(s: State) { s.current.Some? && s.current.value in s.open }

  lemma RunSnoc(s: State, es: seq<Event>, e: Event)
    ensures Run(s, es + [e]) == Step(Run(s, es), e)
  {}

  /** From the delay, one attempt that goes well. */
  lemma AttemptRecovers(s: State, a: nat)
    requires Inv(s) && !s.isClosed && a in s.activities && s.activities[a].Waiting?
    ensures Usable(Run(s, [DelayEnds(a), Connects(a, true, true, 0.0), Restores(a, true)]))
    ensures Close !in [DelayEnds(a), Connects(a, true, true, 0.0), Restores(a, true)]
  {
    hide HandlerInv, ConnectionInv;
    var e, f, g := DelayEnds(a), Connects(a, true, true, 0.0), Restores(a, true);
    assert [] + [e] == [e] && [e] + [f] == [e, f] && [e, f] + [g] == [e, f, g];
    RunSnoc(s, [], e);
    RunSnoc(s, [e], f);
    RunSnoc(s, [e, f], g);
    var restoring := Run(s, [e, f]);
    assert restoring.activities[a] == Restoring(s.activities[a].turn, s.made) && s.made in restoring.open
           && !restoring.isClosed;
  }

  ghost predicate CanRecover(s: State) { exists es :: Close !in es && Usable(Run(s, es)) }

  lemma {:induction false} RunConcat(s: State, a: seq<Event>, b: seq<Event>)
    ensures Run(s, a + b) == Run(Run(s, a), b)
  {
    if b == [] {
      assert a + b == a;
    } else {
      assert (a + b)[..|a + b| - 1] == a + b[..|b| - 1];
      RunConcat(s, a, b[..|b| - 1]);
    }
  }

  lemma RecoversAfter(s: State, e: Event)
    requires CanRecover(Step(s, e)) && !e.Close?
    ensures CanRecover(s)
  {
    var es :| Close !in es && Usable(Run(Step(s, e), es));
    RunConcat(s, [e], es);
    assert Run(s, [e]) == Step(s, e) by { assert [e][..0] == []; }
    assert Close !in [e] + es;
  }

  /** Short of being closed, a connection can serve again by itself exactly when it has not given up. */
  lemma RecoverableIffNotStuck(s: State)
    requires Inv(s) && !s.isClosed
    ensures CanRecover(s) <==> !Stuck(s)
  {
    hide HandlerInv, ConnectionInv;
    if Stuck(s) {
      forall es | Close !in es ensures !Usable(Run(s, es)) { StuckForGood(s, es); }
    } else {
      var a :| a in s.activities;
      Recovers(s, a);
    }
  }

  /** The event that takes a task one step nearer to the head of the loop. */
  function Onward(s: State, a: nat): Event
    requires a in s.activities
  {
    match s.activities[a]
    case Monitor(_, _) => Wakes(a, 0.0)
    case Waiting(_) => DelayEnds(a)
    case Connecting(_) => Connects(a, false, false, 0.0)
    case Restoring(_, _) => Restores(a, false)
    case Discarding(_, _) => Discards(a, 0.0)
  }

  lemma {:induction false} Recovers(s: State, a: nat)
    requires Inv(s) && !s.isClosed && a in s.activities
    ensures CanRecover(s)
    decreases match s.activities[a] case Waiting(_) => 0 case Restoring(_, _) => 2 case _ => 1
  {
    hide HandlerInv, ConnectionInv;
    if s.activities[a].Monitor? && Usable(s) {
      assert Close !in [] && Run(s, []) == s;
    } else if s.activities[a].Waiting? {
      AttemptRecovers(s, a);
    } else {
      assert Owned(s, a);
      var t := Step(s, Onward(s, a));
      StepKeepsInv(s, Onward(s, a));
      assert a in t.activities && !t.isClosed;
      Recovers(t, a);
      RecoversAfter(s, Onward(s, a));
    }
  }

  lemma DetachingAll(handlers: map<nat, set<nat>>, a: Option<nat>, b: Option<nat>)
    ensures Detach(handlers, {}) == handlers
    ensures Detach(Detach(handlers, Held(a)), Held(b)) == Detach(handlers, Held(a) + Held(b))
  {
    var none: set<nat> := {};
    forall h | h in handlers ensures handlers[h] - none == handlers[h] {}
    assert Detach(handlers, none) == handlers;
    forall h | h in handlers ensures handlers[h] - Held(a) - Held(b) == handlers[h] - (Held(a) + Held(b)) {}
  }

  // ----- The object -------------------------------------------------------------------------------

  class ReconnectingBridgeConnection {
    const settings: Settings
    var open: set<nat>
    var made: nat
    var current: Option<nat>
    var candidate: Option<nat>
    var generation: nat
    var isClosed: bool
    var status: Status
    var activities: map<nat, Activity>
    var started: nat
    var handlers: map<nat, set<nat>>
    var registered: nat
    ghost var restored: set<nat>
    var requested: seq<nat>

    ghost function View(): State reads this {
      State(settings, open, made, current, candidate, generation, isClosed, status, activities, started,
            handlers, registered, restored, requested)
    }

    constructor (settings: Settings)
      ensures View() == Initial(settings)
    {
      this.settings := settings;
      open, made, current, candidate, generation := {0}, 1, Some(0), None, 1;
      isClosed, status, activities, started := false, Connected(0), map[0 := Monitor(0, 1)], 1;
      handlers, registered, restored, requested := map[], 0, {0}, [];
    }

    method DetachConnection(c: nat)
      modifies this
      ensures View() == old(View()).(handlers := Detach(old(handlers), {c}))
    {
      var left := handlers.Keys;
      while left != {}
        invariant left <= handlers.Keys == old(handlers.Keys)
        invariant View() == old(View()).(handlers := handlers)
        invariant forall h :: h in old(handlers) ==>
                    handlers[h] == if h in left then old(handlers)[h] else old(handlers)[h] - {c}
        decreases left
      {
        var h :| h in left;
        handlers := handlers[h := handlers[h] - {c}];
        left := left - {h};
      }
      assert handlers == Detach(old(handlers), {c});
    }

    method AttachConnection(c: nat)
      modifies this
      ensures View() == old(View()).(handlers := Attach(old(handlers), c))
    {
      var left := handlers.Keys;
      while left != {}
        invariant left <= handlers.Keys == old(handlers.Keys)
        invariant View() == old(View()).(handlers := handlers)
        invariant forall h :: h in old(handlers) ==>
                    handlers[h] == if h in left then old(handlers)[h] else old(handlers)[h] + {c}
        decreases left
      {
        var h :| h in left;
        handlers := handlers[h := handlers[h] + {c}];
        left := left - {h};
      }
      assert handlers == Attach(old(handlers), c);
    }

    /** The head of the retry loop. */
    method Announce(task: nat, turn: Turn, random: Draw)
      modifies this
      ensures View() == Retry(old(View()), task, turn, random)
    {
      status := Reconnecting(turn.attempt, JitteredDelay(settings, turn.baseDelayMs, random));
      activities := activities[task := Waiting(turn)];
    }

    method OnMonitored(task: nat, connection: nat, generation: nat, random: Draw)
      modifies this
      ensures View() == WakeMonitor(old(View()), task, connection, generation, random)
    {
      if isClosed || current != Some(connection) || this.generation != generation {
        activities := activities - {task};
        return;
      }
      DetachConnection(connection);
      current := None;
      Announce(task, Turn(1, settings.initialDelayMs), random);
    }

    method OnConnected(task: nat, turn: Turn, ok: bool, attached: bool, random: Draw)
      modifies this
      ensures View() == Connect(old(View()), task, turn, ok, attached, random)
    {
      if !ok && isClosed {
        activities := activities - {task};
      } else if !ok {
        Announce(task, NextTurn(settings, turn), random);
      } else {
        var c := made;
        made := made + 1;
        if isClosed {
          activities := activities - {task};
          return;
        }
        open := open + {c};
        if !attached {
          activities := activities[task := Discarding(turn, c)];
          return;
        }
        candidate := Some(c);
        AttachConnection(c);
        activities := activities[task := Restoring(turn, c)];
      }
    }

    method OnRestored(task: nat, turn: Turn, c: nat, ok: bool)
      modifies this
      ensures View() == Restore(old(View()), task, turn, c, ok)
    {
      if !ok {
        DetachConnection(c);
        if candidate == Some(c) { candidate := None; }
        activities := activities[task := Discarding(turn, c)];
        return;
      }
      if isClosed || c !in open {
        open, activities := open - {c}, activities - {task};
        return;
      }
      activities := activities - {task};
      SwapIn(c);
    }

    method SwapIn(c: nat)
      modifies this
      ensures View() == SwapCandidate(old(View()), c)
    {
      var next: nat := generation + 1;
      var watched: map<nat, Activity> := activities[started := Monitor(c, next)];
      candidate, current, generation, status, activities := None, Some(c), next, Connected(c), watched;
      started, restored := started + 1, restored + {c};
    }

    method OnDiscarded(task: nat, turn: Turn, c: nat, random: Draw)
      modifies this
      ensures View() == Discard(old(View()), task, turn, c, random)
    {
      open := open - {c};
      if isClosed {
        activities := activities - {task};
      } else {
        Announce(task, NextTurn(settings, turn), random);
      }
    }

    method OnRequest() returns (handler: nat)
      modifies this
      ensures View() == Step(old(View()), Register) && handler == old(registered)
    {
      handler := registered;
      handlers := handlers[handler := Held(current) + Held(candidate)];
      registered := registered + 1;
    }

    method DetachHeld(c: Option<nat>)
      modifies this
      ensures View() == old(View()).(handlers := Detach(old(handlers), Held(c)))
    {
      DetachingAll(handlers, None, c);
      if c.Some? { DetachConnection(c.value); }
    }

    method CloseConnection()
      modifies this
      ensures View() == CloseAll(old(View()))
    {
      hide Detach, Held;
      if isClosed { return; }
      isClosed := true;
      var connections := Held(current) + Held(candidate);
      DetachingAll(handlers, current, candidate);
      var last, next := current, candidate;
      current, candidate, status := None, None, Closed;
      DetachHeld(last);
      DetachHeld(next);
      open := open - connections;
    }

    /** The connection used, or why there is none: closed, or reconnecting. */
    method SendRequest() returns (used: Option<nat>)
      modifies this
      ensures View() == Step(old(View()), Request)
      ensures used.Some? <==> !isClosed && current.Some? && current.value in open
    {
      if isClosed || current.None? || current.value !in open { return None; }
      requested := requested + [current.value];
      used := current;
    }
  }
}
