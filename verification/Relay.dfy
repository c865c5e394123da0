/**
 The relay's connection to a shared instance that may die at any moment: the classifier that decides
 whether a failed request can have carried anything, and the call that resends only when it cannot.
 */
module Relay {
  import opened Common

  // ----- Exceptions as a graph --------------------------------------------------------------------

  datatype Errno = ECONNREFUSED | OtherErrno

  /** An exception; causes, contexts and group members are other exceptions, possibly itself. */
  datatype Exception = Exception(
    isConnectionRefusedError: bool, typeName: string, osErrno: Option<Errno>,
    exceptions: seq<nat>, cause: Option<nat>, context: Option<nat>)

  predicate IsRefusal(e: Exception) {
    e.isConnectionRefusedError || e.typeName == "ConnectError" || e.typeName == "ConnectTimeout"
      || e.osErrno == Some(ECONNREFUSED)
  }

  function Listed(item: Option<nat>): seq<nat> { match item case None => [] case Some(n) => [n] }

  function Nested(e: Exception): seq<nat> { e.exceptions + Listed(e.cause) + Listed(e.context) }

  predicate WellLinked(graph: map<nat, Exception>) {
    forall n, m :: n in graph && m in Nested(graph[n]) ==> m in graph
  }

  datatype RawFailure = Failure(graph: map<nat, Exception>, error: Option<nat>)

  /** A finite graph and the exception that was raised, if any. */
  type Failure = f: RawFailure |
    WellLinked(f.graph) && (f.error.Some? ==> f.error.value in f.graph) witness Failure(map[], None)

  const NO_FAILURE: Failure := Failure(map[], None)

  ghost predicate Path(graph: map<nat, Exception>, p: seq<nat>) {
    && p != [] && (forall n :: n in p ==> n in graph)
    && forall i :: 0 <= i < |p| - 1 ==> p[i + 1] in Nested(graph[p[i]])
  }

  ghost predicate LeadsToRefusal(graph: map<nat, Exception>, start: nat, p: seq<nat>) {
    Path(graph, p) && p[0] == start && IsRefusal(graph[p[|p| - 1]])
  }

  /** A refused connection is reachable through causes, contexts and groups. */
  ghost predicate RefusalReachable(graph: map<nat, Exception>, start: nat) {
    exists p :: LeadsToRefusal(graph, start, p)
  }

  ghost predicate Refused(f: Failure) { f.error.Some? && RefusalReachable(f.graph, f.error.value) }

  /** Exceptions whose walk is over: none is a refusal, and all they lead to has been seen. */
  ghost predicate Explored(graph: map<nat, Exception>, done: set<nat>, seen: set<nat>) {
    forall n :: n in done && n in graph ==> !IsRefusal(graph[n]) && forall m :: m in Nested(graph[n]) ==> m in seen
  }

  lemma {:induction false} PathStaysExplored(graph: map<nat, Exception>, seen: set<nat>, p: seq<nat>, k: nat)
    requires Explored(graph, seen, seen) && Path(graph, p) && p[0] in seen && k < |p|
    ensures p[k] in seen
  {
    if k > 0 {
      PathStaysExplored(graph, seen, p, k - 1);
      assert p[k - 1 + 1] in Nested(graph[p[k - 1]]);
    }
  }

  lemma ReachableFromParent(graph: map<nat, Exception>, parent: nat, child: nat)
    requires parent in graph && child in Nested(graph[parent]) && RefusalReachable(graph, child)
    ensures RefusalReachable(graph, parent)
  {
    var p :| LeadsToRefusal(graph, child, p);
    assert LeadsToRefusal(graph, parent, [parent] + p);
  }

  lemma Combine(graph: map<nat, Exception>, a: set<nat>, b: set<nat>, c: set<nat>)
    requires a <= b <= c && Explored(graph, b - a, b) && Explored(graph, c - b, c)
    ensures Explored(graph, c - a, c)
  {}

  lemma NothingReachable(graph: map<nat, Exception>, seen: set<nat>, start: nat)
    requires start in seen && Explored(graph, seen, seen)
    ensures !RefusalReachable(graph, start)
  {
    forall p | LeadsToRefusal(graph, start, p) ensures false { PathStaysExplored(graph, seen, p, |p| - 1); }
  }

  /** The depth-first walk with its shared `seen` set. */
  class Classifier {
    var seen: set<nat>

    constructor ()
      ensures seen == {}
    {
      seen := {};
    }

    method Walk(graph: map<nat, Exception>, item: Option<nat>) returns (refused: bool)
      requires WellLinked(graph) && (item.Some? ==> item.value in graph)
      modifies this
      ensures old(seen) <= seen
      ensures refused ==> item.Some? && RefusalReachable(graph, item.value)
      ensures !refused ==> (item.Some? ==> item.value in seen) && Explored(graph, seen - old(seen), seen)
      decreases graph.Keys - seen, 0
    {
      if item.None? || item.value in seen { return false; }
      var id := item.value;
      seen := seen + {id};
      if IsRefusal(graph[id]) {
        assert LeadsToRefusal(graph, id, [id]);
        return true;
      }
      var nested := graph[id].exceptions;
      ghost var entered := seen;
      for i := 0 to |nested|
        invariant entered <= seen && Explored(graph, seen - entered, seen)
        invariant forall j :: 0 <= j < i ==> nested[j] in seen
      {
        assert nested[i] in Nested(graph[id]);
        ghost var before := seen;
        refused := Walk(graph, Some(nested[i]));
        if refused { ReachableFromParent(graph, id, nested[i]); return; }
        Combine(graph, entered, before, seen);
      }
      ghost var grouped := seen;
      refused := WalkLink(graph, id, graph[id].cause);
      if refused { return; }
      Combine(graph, entered, grouped, seen);
      ghost var caused := seen;
      refused := WalkLink(graph, id, graph[id].context);
      if !refused {
        Combine(graph, entered, caused, seen);
        assert forall m :: m in Nested(graph[id]) ==> m in seen;
        assert seen - old(seen) == (seen - entered) + {id};
      }
    }

    method WalkLink(graph: map<nat, Exception>, parent: nat, item: Option<nat>) returns (refused: bool)
      requires WellLinked(graph) && parent in graph && parent in seen
      requires item == graph[parent].cause || item == graph[parent].context
      modifies this
      ensures old(seen) <= seen
      ensures refused ==> RefusalReachable(graph, parent)
      ensures !refused ==> (item.Some? ==> item.value in seen) && Explored(graph, seen - old(seen), seen)
      decreases graph.Keys - seen, 1
    {
      assert item.Some? ==> item.value in Nested(graph[parent]);
      refused := Walk(graph, item);
      if refused { ReachableFromParent(graph, parent, item.value); }
    }
  }

  /** True exactly when a refusal is reachable, however the graph loops. */
  method NeverDelivered(f: Failure) returns (refused: bool)
    ensures refused <==> Refused(f)
  {
    var classifier := new Classifier();
    refused := classifier.Walk(f.graph, f.error);
    if !refused && f.error.Some? {
      assert classifier.seen - {} == classifier.seen;
      NothingReachable(f.graph, classifier.seen, f.error.value);
    }
  }

  // ----- The call ---------------------------------------------------------------------------------

  /** How one attempt ended; `Ended` is the instance's death observed first, with the connection's error. */
  datatype Ending = Answered(answer: nat) | Raised(failure: Failure) | Ended(connection: Failure)
  datatype Attempt = Attempt(delivered: bool, ending: Ending)

  /** Looking for an instance: one that was attached to, perhaps dead again by the time it is used. */
  datatype Find = Attached(instance: nat, lost: bool) | NotFound(failure: Failure)

  /** What the n-th attempt and the n-th search will meet. */
  datatype World = World(attempts: nat -> Attempt, searches: nat -> Find)

  datatype Sent = Sent(instance: Option<nat>, attempt: Attempt)
  datatype State = State(session: Option<nat>, error: Failure, reconnections: nat, searches: nat, sent: seq<Sent>)
  datatype Result = Returned(answer: nat) | Reraised(failure: Failure) | UpstreamGone | UpstreamRestarted

  function Reconnect(w: World, s: State): (State, bool) {
    match w.searches(s.searches)
    case Attached(instance, lost) =>
      (State(if lost then None else Some(instance), NO_FAILURE, s.reconnections + 1, s.searches + 1, s.sent), true)
    case NotFound(failure) =>
      (State(None, failure, s.reconnections, s.searches + 1, s.sent), false)
  }

  /** A call without a session carries nothing, whatever the attempt says. */
  function Send(w: World, s: State): (State, Attempt) {
    var attempt := w.attempts(|s.sent|);
    (s.(sent := s.sent + [Sent(s.session, attempt.(delivered := attempt.delivered && s.session.Some?))]), attempt)
  }

  ghost function Call(w: World, s: State, retried: bool): (State, Result)
    decreases !retried
  {
    var (bound, found) := if s.session.None? then Reconnect(w, s) else (s, true);
    if !found then (bound, UpstreamGone)
    else
      var (sent, attempt) := Send(w, bound);
      match attempt.ending
      case Answered(answer) => (sent, Returned(answer))
      case Raised(failure) =>
        if retried || !Refused(failure) then (sent, Reraised(failure))
        else
          var (again, ok) := Reconnect(w, sent);
          if ok then Call(w, again, true) else (again, Reraised(failure))
      case Ended(connection) =>
        var torn := sent.(session := None, error := connection);
        if retried || !Refused(connection) then (torn, UpstreamRestarted)
        else
          var (again, ok) := Reconnect(w, torn);
          if ok then Call(w, again, true) else (again, UpstreamRestarted)
  }

  /** The failure on which the resend decision rests: the request's own, or the connection's. */
  predicate Failed(ending: Ending) { !ending.Answered? }
  function Cause(ending: Ending): Failure
    requires Failed(ending)
  {
    if ending.Raised? then ending.failure else ending.connection
  }

  /** A refusal somewhere in the failure, and yet the request was carried. */
  ghost predicate Misjudged(x: Sent) {
    Failed(x.attempt.ending) && Refused(Cause(x.attempt.ending)) && x.attempt.delivered
  }

  function Deliveries(sent: seq<Sent>): nat {
    if sent == [] then 0 else Deliveries(sent[..|sent| - 1]) + if sent[|sent| - 1].attempt.delivered then 1 else 0
  }

  lemma {:induction false} DeliveriesConcat(a: seq<Sent>, b: seq<Sent>)
    ensures Deliveries(a + b) == Deliveries(a) + Deliveries(b)
  {
    if b == [] {
      assert a + b == a;
    } else {
      assert (a + b)[..|a + b| - 1] == a + b[..|b| - 1];
      DeliveriesConcat(a, b[..|b| - 1]);
    }
  }

  /** The attempts a call adds to the record. */
  ghost function NewSends(w: World, s: State, retried: bool): seq<Sent> {
    var sent := Call(w, s, retried).0.sent;
    if s.sent <= sent then sent[|s.sent|..] else []
  }

  /** A failure told to the caller as what it is; a dead connection is torn down. */
  ghost predicate Reports(ending: Ending, t: State, result: Result)
    requires Failed(ending)
  {
    if ending.Raised? then result == Reraised(ending.failure) else result == UpstreamRestarted && t.session.None?
  }

  /**
   At most two attempts; a second only after a failure with a refusal in it; an answer ends the call,
   and so does a failure without a refusal, which is reported.
   */
  ghost predicate Restrained(sends: seq<Sent>, t: State, result: Result, retried: bool) {
    && |sends| <= (if retried then 1 else 2)
    && (|sends| == 2 ==> Failed(sends[0].attempt.ending) && Refused(Cause(sends[0].attempt.ending)))
    && (forall answer :: result == Returned(answer) ==>
          sends != [] && sends[|sends| - 1].attempt.ending == Answered(answer))
    && (forall i :: 0 <= i < |sends| && sends[i].attempt.ending.Answered? ==> i == |sends| - 1 && result.Returned?)
    && (forall i :: 0 <= i < |sends| && Failed(sends[i].attempt.ending) && !Refused(Cause(sends[i].attempt.ending)) ==>
          i == |sends| - 1 && Reports(sends[i].attempt.ending, t, result))
  }

  /** A call that finds a session sends once, and goes on only after a failure with a refusal in it. */
  lemma CallSendsThen(w: World, s: State, retried: bool, sent: State, attempt: Attempt)
    requires
      var (bound, found) := if s.session.None? then Reconnect(w, s) else (s, true);
      found && (sent, attempt) == Send(w, bound)
    ensures |sent.sent| == |s.sent| + 1 && s.sent <= sent.sent && sent.sent[|s.sent|].attempt.ending == attempt.ending
    ensures !Failed(attempt.ending) ==> Call(w, s, retried) == (sent, Returned(attempt.ending.answer))
    ensures
      Failed(attempt.ending) ==>
        var torn := if attempt.ending.Ended? then sent.(session := None, error := attempt.ending.connection) else sent;
        var otherwise := if attempt.ending.Ended? then UpstreamRestarted else Reraised(attempt.ending.failure);
        && (retried || !Refused(Cause(attempt.ending)) ==> Call(w, s, retried) == (torn, otherwise))
        && (!retried && Refused(Cause(attempt.ending)) ==>
              var (again, ok) := Reconnect(w, torn);
              again.sent == sent.sent && Call(w, s, false) == if ok then Call(w, again, true) else (again, otherwise))
  {}

  lemma {:induction false} CallIsRestrained(w: World, s: State, retried: bool)
    ensures s.sent <= Call(w, s, retried).0.sent
    ensures Restrained(NewSends(w, s, retried), Call(w, s, retried).0, Call(w, s, retried).1, retried)
    decreases !retried, 0
  {
    hide Refused;
    var (bound, found) := if s.session.None? then Reconnect(w, s) else (s, true);
    if found {
      var (sent, attempt) := Send(w, bound);
      CallSendsThen(w, s, retried, sent, attempt);
      if Failed(attempt.ending) && !retried && Refused(Cause(attempt.ending)) {
        var torn := if attempt.ending.Ended? then sent.(session := None, error := attempt.ending.connection) else sent;
        ResendIsRestrained(w, s, sent, torn);
      }
    }
  }

  lemma ResendIsRestrained(w: World, s: State, sent: State, torn: State)
    requires |sent.sent| == |s.sent| + 1 && s.sent <= sent.sent && torn.sent == sent.sent
    requires Failed(sent.sent[|s.sent|].attempt.ending) && Refused(Cause(sent.sent[|s.sent|].attempt.ending))
    ensures
      var (again, ok) := Reconnect(w, torn);
      ok ==>
        var (t, result) := Call(w, again, true);
        s.sent <= t.sent && Restrained(t.sent[|s.sent|..], t, result, false)
    decreases false, 1
  {}

  /** A request reaches an instance twice exactly when a delivered attempt was judged undeliverable and sent again. */
  lemma DeliveredTwiceIff(w: World, s: State)
    ensures
      var sends := NewSends(w, s, false);
      Deliveries(sends) > 1 <==> |sends| == 2 && Misjudged(sends[0]) && sends[1].attempt.delivered
  {
    hide Call, Refused;
    CallIsRestrained(w, s, false);
    var sends := NewSends(w, s, false);
    if |sends| == 2 {
      assert sends[..1][..0] == [] && Deliveries(sends[..1]) <= 1;
      assert sends[..1][0] == sends[0] && Deliveries(sends[..1]) == if sends[0].attempt.delivered then 1 else 0;
    } else if |sends| == 1 {
      assert sends[..0] == [];
    }
  }

  /**
   When no delivered attempt is misjudged, a request is delivered at most once, and last; and if the
   delivered attempt failed, that failure is what the caller is told.
   */
  lemma DeliveredAtMostOnce(w: World, s: State)
    requires forall x :: x in NewSends(w, s, false) ==> !Misjudged(x)
    ensures
      var sends, (t, result) := NewSends(w, s, false), Call(w, s, false);
      && Deliveries(sends) <= 1
      && forall i :: 0 <= i < |sends| && sends[i].attempt.delivered ==>
           i == |sends| - 1 && (Failed(sends[i].attempt.ending) ==> Reports(sends[i].attempt.ending, t, result))
  {
    hide Call, Refused;
    DeliveredTwiceIff(w, s);
    CallIsRestrained(w, s, false);
    var sends := NewSends(w, s, false);
    forall i | 0 <= i < |sends| ensures !Misjudged(sends[i]) { assert sends[i] in sends; }
  }

  // ----- Which instance, and when again -----------------------------------------------------------

  /** The session after a search: the instance it attached to, if that is still there. */
  function Bound(found: Find): Option<nat> {
    if found.Attached? && !found.lost then Some(found.instance) else None
  }

  /** What a call has to send on: a live session, or what a search then attached to, if anything. */
  datatype Binding = Binding(reached: bool, instance: Option<nat>, searched: nat)

  function Bind(w: World, session: Option<nat>, from: nat): Binding {
    if session.Some? then Binding(true, session, 0)
    else Binding(w.searches(from).Attached?, Bound(w.searches(from)), 1)
  }

  /** What the caller is told when the attempt is the last. */
  predicate Tells(ending: Ending, result: Result) {
    match ending
    case Answered(answer) => result == Returned(answer)
    case Raised(failure) => result == Reraised(failure)
    case Ended(_) => result == UpstreamRestarted
  }

  predicate SendsOn(sent: Sent, instance: Option<nat>, attempt: Attempt) {
    && sent.instance == instance && sent.attempt.ending == attempt.ending
    && (sent.attempt.delivered <==> attempt.delivered && instance.Some?)
  }

  /**
   A call sends to the instance the session is bound to, or to the one a search attached to; sends
   again, to the one found next, exactly when the first attempt failed with a refusal in it and there
   is one; and tells its caller how the last attempt ended, or that there was nothing to send on.
   */
  ghost predicate SendsExactly(w: World, s: State, sends: seq<Sent>, t: State, result: Result) {
    var first, attempt := Bind(w, s.session, s.searches), w.attempts(|s.sent|);
    var refused := first.reached && Failed(attempt.ending) && Refused(Cause(attempt.ending));
    var next := w.searches(s.searches + first.searched);
    var again := refused && next.Attached?;
    var second := Bind(w, Bound(next), s.searches + first.searched + 1);
    && |sends| == (if !first.reached then 0 else if again && second.reached then 2 else 1)
    && (first.reached ==> SendsOn(sends[0], first.instance, attempt))
    && (|sends| == 2 ==> SendsOn(sends[1], second.instance, w.attempts(|s.sent| + 1)))
    && (if !first.reached || (again && !second.reached) then result == UpstreamGone && t.session == None
        else
          && Tells(sends[|sends| - 1].attempt.ending, result)
          && t.session == if (refused && !again) || sends[|sends| - 1].attempt.ending.Ended? then None
                          else sends[|sends| - 1].instance)
    && t.searches == s.searches + first.searched
                     + (if again then 1 + second.searched else if refused then 1 else 0)
  }

  lemma CallSendsExactly(w: World, s: State)
    ensures SendsExactly(w, s, NewSends(w, s, false), Call(w, s, false).0, Call(w, s, false).1)
  {
    hide Refused, Call;
    var first := Bind(w, s.session, s.searches);
    if !first.reached {
      NothingToSendOn(w, s);
    } else {
      var sent, attempt := FirstSend(w, s);
      if Failed(attempt.ending) && Refused(Cause(attempt.ending)) {
        var torn := if attempt.ending.Ended? then sent.(session := None, error := attempt.ending.connection) else sent;
        var (again, ok) := Reconnect(w, torn);
        assert ok <==> w.searches(s.searches + first.searched).Attached?;
        if ok { SecondCall(w, again); }
      }
    }
  }

  lemma NothingToSendOn(w: World, s: State)
    requires !Bind(w, s.session, s.searches).reached
    ensures
      var (t, result) := Call(w, s, false);
      result == UpstreamGone && t.sent == s.sent && t.session == None && t.searches == s.searches + 1
  {}

  lemma FirstSend(w: World, s: State) returns (sent: State, attempt: Attempt)
    requires Bind(w, s.session, s.searches).reached
    ensures attempt == w.attempts(|s.sent|) && |sent.sent| == |s.sent| + 1 && s.sent <= sent.sent
    ensures
      var first := Bind(w, s.session, s.searches);
      && SendsOn(sent.sent[|s.sent|], first.instance, attempt)
      && sent.session == first.instance && sent.searches == s.searches + first.searched
    ensures !Failed(attempt.ending) ==> Call(w, s, false) == (sent, Returned(attempt.ending.answer))
    ensures
      Failed(attempt.ending) ==>
        var torn := if attempt.ending.Ended? then sent.(session := None, error := attempt.ending.connection) else sent;
        var otherwise := if attempt.ending.Ended? then UpstreamRestarted else Reraised(attempt.ending.failure);
        && (!Refused(Cause(attempt.ending)) ==> Call(w, s, false) == (torn, otherwise))
        && (Refused(Cause(attempt.ending)) ==>
              var (again, ok) := Reconnect(w, torn);
              Call(w, s, false) == if ok then Call(w, again, true) else (again, otherwise))
  {
    hide Refused;
    var (bound, found) := if s.session.None? then Reconnect(w, s) else (s, true);
    sent, attempt := Send(w, bound).0, Send(w, bound).1;
    CallSendsThen(w, s, false, sent, attempt);
  }

  /** The second attempt, on the instance just found or on another if that one is gone again. */
  lemma SecondCall(w: World, s: State)
    ensures
      var second := Bind(w, s.session, s.searches); var (t, result) := Call(w, s, true);
      && t.searches == s.searches + second.searched
      && (!second.reached ==> t.sent == s.sent && result == UpstreamGone && t.session == None)
      && (second.reached ==>
            && |t.sent| == |s.sent| + 1 && s.sent <= t.sent
            && SendsOn(t.sent[|s.sent|], second.instance, w.attempts(|s.sent|))
            && Tells(t.sent[|s.sent|].attempt.ending, result)
            && t.session == if t.sent[|s.sent|].attempt.ending.Ended? then None else second.instance)
  {
    hide Refused;
  }

  // ----- Many calls -------------------------------------------------------------------------------

  datatype Event = CallEvent | SessionLost

  ghost function Step(w: World, s: State, e: Event): State {
    match e
    case CallEvent => Call(w, s, false).0
    case SessionLost => s.(session := None)
  }

  ghost function Run(w: World, s: State, es: seq<Event>): State {
    if es == [] then s else Step(w, Run(w, s, es[..|es| - 1]), es[|es| - 1])
  }

  function Calls(es: seq<Event>): nat {
    if es == [] then 0 else Calls(es[..|es| - 1]) + if es[|es| - 1].CallEvent? then 1 else 0
  }

  /** However many instances die over a session, the deliveries never outnumber the calls. */
  lemma {:induction false} NoMoreDeliveriesThanCalls(w: World, s: State, es: seq<Event>)
    requires s.sent == [] && forall x :: x in Run(w, s, es).sent ==> !Misjudged(x)
    ensures Deliveries(Run(w, s, es).sent) <= Calls(es) && |Run(w, s, es).sent| <= 2 * Calls(es)
  {
    if es != [] {
      var before, last := Run(w, s, es[..|es| - 1]), es[|es| - 1];
      if last.CallEvent? {
        CallIsRestrained(w, before, false);
        var sends := NewSends(w, before, false);
        assert Run(w, s, es).sent == before.sent + sends;
        NoMoreDeliveriesThanCalls(w, s, es[..|es| - 1]);
        DeliveriesConcat(before.sent, sends);
        DeliveredAtMostOnce(w, before);
      } else {
        NoMoreDeliveriesThanCalls(w, s, es[..|es| - 1]);
      }
    }
  }

  // ----- The object -------------------------------------------------------------------------------

  class Upstream {
    var session: Option<nat>
    var error: Failure
    var reconnections: nat
    var searches: nat
    var sent: seq<Sent>

    ghost function View(): State reads this { State(session, error, reconnections, searches, sent) }

    constructor ()
      ensures View() == State(None, NO_FAILURE, 0, 0, [])
    {
      session, error, reconnections, searches, sent := None, NO_FAILURE, 0, 0, [];
    }

    /** Stops the old connection's task, then finds or starts an instance and binds to it. */
    method Rebind(w: World) returns (ok: bool)
      modifies this
      ensures (View(), ok) == Reconnect(w, old(View()))
      ensures
        var found := w.searches(old(searches));
        && (ok <==> found.Attached?) && session == Bound(found) && sent == old(sent)
        && error == (if ok then NO_FAILURE else found.failure)
        && reconnections == old(reconnections) + (if ok then 1 else 0)
    {
      session := None;
      var found := w.searches(searches);
      searches := searches + 1;
      match found
      case NotFound(failure) =>
        error := failure;
        ok := false;
      case Attached(instance, lost) =>
        error := NO_FAILURE;
        session := if lost then None else Some(instance);
        reconnections := reconnections + 1;
        ok := true;
    }

    method Forward(w: World, retried: bool) returns (result: Result)
      modifies this
      ensures (View(), result) == Call(w, old(View()), retried)
      decreases !retried
    {
      if session.None? {
        var found := Rebind(w);
        if !found { return UpstreamGone; }
      }
      var attempt := w.attempts(|sent|);
      sent := sent + [Sent(session, attempt.(delivered := attempt.delivered && session.Some?))];
      match attempt.ending
      case Answered(answer) =>
        result := Returned(answer);
      case Raised(failure) =>
        result := Reraised(failure);
        if !retried {
          var refused := NeverDelivered(failure);
          if refused {
            var found := Rebind(w);
            if found { result := Forward(w, true); }
          }
        }
      case Ended(connection) =>
        session, error := None, connection;
        result := UpstreamRestarted;
        if !retried {
          var refused := NeverDelivered(connection);
          if refused {
            var found := Rebind(w);
            if found { result := Forward(w, true); }
          }
        }
    }
  }
}
