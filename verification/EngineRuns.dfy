/** What the engine guarantees over every run, whatever the interleaving. */
module EngineRuns {
  import opened Common
  import opened Tables
  import O = Outbound
  import I = Inbound
  import opened Engine

  // ----- Settlement -------------------------------------------------------------------------------------

  ghost predicate SettledAt(ss: seq<O.Settlement>, n: nat, i: nat) {
    i < |ss| && ss[i].serial == n && forall j :: 0 <= j < |ss| && ss[j].serial == n ==> j == i
  }

  /**
   A request that entered the pending table is waiting or has been settled exactly once, never both;
   nothing is left waiting once the socket has closed.
   */
  lemma EveryRequestSettlesOnce(role: Role, maxInbound: nat, es: seq<Event>, n: nat)
    requires n < |Run(Start(role, maxInbound), es).out.issued|
    ensures var s := Run(Start(role, maxInbound), es);
      && ((exists i :: SettledAt(s.out.settlements, n, i)) <==> n !in Serials(s.out.pending))
      && (n in Serials(s.out.pending) ==> forall j :: 0 <= j < |s.out.settlements| ==> s.out.settlements[j].serial != n)
      && (s.socket == Closed ==> exists i :: SettledAt(s.out.settlements, n, i))
  {
    StartHoldsInv(role, maxInbound);
    RunKeepsInv(Start(role, maxInbound), es);
    var out := Run(Start(role, maxInbound), es).out;
    if n in Serials(out.pending) {
      assert n !in O.Settled(out.settlements);
    } else {
      assert n in O.Settled(out.settlements);
      var i :| 0 <= i < |out.settlements| && out.settlements[i].serial == n;
      assert SettledAt(out.settlements, n, i);
    }
  }

  /** Nothing already told to a caller, issued, received or written is ever taken back. */
  ghost predicate Extends(a: State, b: State) {
    && a.out.settlements <= b.out.settlements && a.out.issued <= b.out.issued && a.out.frames <= b.out.frames
    && a.inn.received <= b.inn.received && a.inn.wire <= b.inn.wire
    && a.violations <= b.violations && a.role == b.role && a.inn.maxRunning == b.inn.maxRunning
    && (a.socket == Closed ==> b.socket == Closed) && (b.socket == Opened ==> a.socket == Opened)
  }

  lemma {:induction false} RejectAllExtends(s: O.State, reason: O.Reason)
    ensures var r := O.RejectAll(s, reason);
      s.settlements <= r.settlements && s.issued == r.issued && s.frames == r.frames
    decreases |s.pending|
  {
    if s.pending != [] {
      var slot := s.pending[0];
      RejectAllExtends(O.Settle(s.(pending := s.pending[1..], timers := s.timers - {slot.serial},
                                   forgotten := s.forgotten + {slot.serial}), slot.serial, O.Rejected(reason)), reason);
    }
  }

  lemma {:induction false} AbortAllExtends(s: I.State)
    ensures var r := I.AbortAll(s); s.received == r.received && s.wire == r.wire && s.maxRunning == r.maxRunning
    decreases |s.inbound|
  {
    if s.inbound != [] {
      var slot := s.inbound[0];
      AbortAllExtends(s.(inbound := s.inbound[1..], timers := s.timers - {slot.serial},
                         aborted := s.aborted + {slot.serial}));
    }
  }

  lemma ResetExtends(s: State, reason: O.Reason)
    ensures Extends(s, Reset(s, reason)) && Extends(s, Violate(s)) && Extends(s, Fail(s)) && Extends(s, Finish(s))
  {
    RejectAllExtends(s.out, reason);
    RejectAllExtends(s.out, O.ProtocolViolated);
    RejectAllExtends(s.out, O.ConnectionLost);
    AbortAllExtends(s.inn);
  }

  ghost predicate InnExtends(a: I.State, b: I.State) {
    a.received <= b.received && a.wire <= b.wire && a.maxRunning == b.maxRunning
  }

  ghost predicate OutExtends(a: O.State, b: O.State) {
    a.settlements <= b.settlements && a.issued <= b.issued && a.frames <= b.frames
  }

  lemma CloseExtends(s: I.State, id: string, n: nat, answer: I.Answer, abort: bool, open: bool)
    ensures InnExtends(s, I.Close(s, id, n, answer, abort, open))
  {}

  lemma ReceiveExtends(s: I.State, id: string, verb: string, handled: bool, open: bool)
    ensures InnExtends(s, I.Receive(s, id, verb, handled, open))
  {}

  lemma InterruptExtends(s: O.State, n: nat, reason: O.Reason, open: bool)
    ensures n < |s.issued| ==> OutExtends(s, O.Interrupt(s, n, reason, open))
  {}

  lemma IssueExtends(s: O.State, r: O.Request, abortedMeanwhile: bool, open: bool)
    ensures OutExtends(s, O.Issue(s, r, abortedMeanwhile, open))
  {}

  lemma HandleExtends(s: State, m: Message)
    ensures Extends(s, Handle(s, m))
  {
    ResetExtends(s, O.ProtocolViolated);
    match m
    case Call(id, verb, wellFormed) => ReceiveExtends(s.inn, id, verb, verb in s.registered, Open(s));
    case Notification(CancelRequest(id)) =>
      if Has(s.inn.inbound, id) {
        CloseExtends(s.inn, id, Find(s.inn.inbound, id).serial, I.Failure("CANCELLED"), true, Open(s));
      }
    case _ =>
  }

  lemma CallbackExtends(s: State, e: Event)
    requires e.Request? || e.TimerFires? || e.SignalAborts? || e.GraceExpires?
    ensures Extends(s, Step(s, e))
  {
    match e
    case Request(ask) =>
      if Refused(s, ask).None? {
        var r := O.Request(FreshId(s.out, ask.draws).value, ask.verb, ask.abortable);
        IssueExtends(s.out, r, ask.abortable && ask.abortedMeanwhile, true);
      }
    case TimerFires(n) => InterruptExtends(s.out, n, O.RequestTimeout, Open(s));
    case SignalAborts(n) => InterruptExtends(s.out, n, O.RequestCancelled, Open(s));
    case _ =>
  }

  lemma HandlerExtends(s: State, e: Event)
    requires e.InboundTimesOut? || e.HandlerSettles? || e.HandlerFinishes? || e.CompletionExpires?
    ensures Extends(s, Step(s, e))
  {}

  lemma StepExtends(s: State, e: Event)
    ensures Extends(s, Step(s, e))
  {
    match e {
      case Request(_) => CallbackExtends(s, e);
      case TimerFires(_) => CallbackExtends(s, e);
      case SignalAborts(_) => CallbackExtends(s, e);
      case GraceExpires(_) => CallbackExtends(s, e);
      case InboundTimesOut(_) => HandlerExtends(s, e);
      case HandlerSettles(_, _) => HandlerExtends(s, e);
      case HandlerFinishes(_) => HandlerExtends(s, e);
      case CompletionExpires(_) => HandlerExtends(s, e);
      case Receive(m) => HandleExtends(s, m);
      case _ => ResetExtends(s, O.ConnectionLost);
    }
  }

  lemma {:induction false} RunExtends(s: State, es: seq<Event>)
    ensures Extends(s, Run(s, es))
    decreases |es|
  {
    if es != [] {
      StepExtends(s, es[0]);
      RunExtends(Step(s, es[0]), es[1..]);
    }
  }

  // ----- Bounds -----------------------------------------------------------------------------------------

  lemma TablesStayBounded(role: Role, maxInbound: nat, es: seq<Event>)
    ensures var s := Run(Start(role, maxInbound), es);
      && |s.out.late| <= 1024 && |s.inn.completions| <= 1024
      && |s.inn.inbound| <= s.inn.running <= maxInbound
      && Apart(s.out.pending, s.out.late) && Apart(s.inn.inbound, s.inn.completions)
      && s.out.timers == Serials(s.out.pending) && s.out.graces == Serials(s.out.late)
      && s.inn.timers == Serials(s.inn.inbound) && s.inn.graces == Serials(s.inn.completions)
  {
    StartHoldsInv(role, maxInbound);
    RunKeepsInv(Start(role, maxInbound), es);
    RunExtends(Start(role, maxInbound), es);
    I.InboundBounded(Run(Start(role, maxInbound), es).inn);
  }

  // ----- Inbound answers --------------------------------------------------------------------------------

  /** The requests of which the wire holds an answer. */
  ghost function Answered(wire: seq<I.Wire>): set<nat> {
    set i | 0 <= i < |wire| && wire[i].Responded? :: wire[i].serial
  }

  ghost predicate AnsweredAt(wire: seq<I.Wire>, n: nat, i: nat) {
    && i < |wire| && wire[i].Responded? && wire[i].serial == n
    && forall j :: 0 <= j < |wire| && wire[j].Responded? && wire[j].serial == n ==> j == i
  }

  /** Every request received is still open or has been answered. */
  ghost predicate Served(s: I.State) {
    forall n: nat :: n < |s.received| ==> n in Serials(s.inbound) || n in Answered(s.wire)
  }

  lemma AnswersGrow(wire: seq<I.Wire>, w: I.Wire)
    ensures Answered(wire + [w]) == if w.Responded? then Answered(wire) + {w.serial} else Answered(wire)
  {
    var r := wire + [w];
    forall n | n in Answered(wire) ensures n in Answered(r) {
      var i :| 0 <= i < |wire| && wire[i].Responded? && wire[i].serial == n;
      assert r[i] == wire[i];
    }
    assert r[|wire|] == w;
  }

  lemma CloseServes(s: I.State, id: string, n: nat, answer: I.Answer, abort: bool)
    requires I.Inv(s) && Served(s)
    ensures Served(I.Close(s, id, n, answer, abort, true))
  {
    if I.Holds(s, id, n) {
      RemoveDropsSerial(s.inbound, s.received, id);
      AnswersGrow(s.wire, I.Responded(id, n, answer));
    }
  }

  lemma RefusedServes(s: I.State, t: I.State, id: string, answer: I.Answer)
    requires Served(s) && t.inbound == s.inbound && t.received == s.received + [id]
    requires t.wire == s.wire + [I.Received(id, |s.received|)] + [I.Responded(id, |s.received|, answer)]
    ensures Served(t)
  {
    AnswersGrow(s.wire, I.Received(id, |s.received|));
    AnswersGrow(s.wire + [I.Received(id, |s.received|)], I.Responded(id, |s.received|, answer));
  }

  lemma AcceptedServes(s: I.State, t: I.State, id: string, verb: string)
    requires Served(s) && UniqueIds(s.inbound) && Issued(s.inbound, s.received) && !Has(s.inbound, id)
    requires t.inbound == Put(s.inbound, Slot(id, |s.received|, verb)) && t.received == s.received + [id]
    requires t.wire == s.wire + [I.Received(id, |s.received|)]
    ensures Served(t)
  {
    hide Serials, Answered, Put, Has, UniqueIds;
    var slot := Slot(id, |s.received|, verb);
    PutAppends(s.inbound, slot);
    AppendSerial(s.inbound, s.received + [id], slot);
    AnswersGrow(s.wire, I.Received(id, |s.received|));
  }

  lemma ReceiveServes(s: I.State, id: string, verb: string, handled: bool)
    requires I.Inv(s) && Served(s) && !Has(s.inbound, id)
    ensures Served(I.Receive(s, id, verb, handled, true))
  {
    hide Served, Put, Has, Issued, UniqueIds;
    var t := I.Receive(s, id, verb, handled, true);
    if !handled {
      RefusedServes(s, t, id, I.Failure("CAPABILITY_UNAVAILABLE"));
    } else if s.running >= s.maxRunning {
      RefusedServes(s, t, id, I.Failure("PRECONDITION_FAILED"));
    } else {
      AcceptedServes(s, t, id, verb);
    }
  }

  lemma StepServes(s: State, e: Event)
    requires Inv(s) && (Open(s) ==> Served(s.inn))
    ensures Open(Step(s, e)) ==> Served(Step(s, e).inn)
  {
    hide Served, I.Receive, I.Close, I.Cancel, I.HandlerSettles, O.Issue, O.Fire, O.ExpireGrace, O.Respond, O.RejectAll,
         I.AbortAll;
    if Open(s) {
      match e
      case InboundTimesOut(n) =>
        if n < |s.inn.received| { CloseServes(s.inn, s.inn.received[n], n, I.Failure("TIMEOUT"), true); }
      case HandlerSettles(n, c) => SettlesServes(s.inn, n, c);
      case Receive(Call(id, verb, _)) =>
        if !Has(s.inn.inbound, id) { ReceiveServes(s.inn, id, verb, verb in s.registered); }
      case Receive(Notification(CancelRequest(id))) => CancelServes(s.inn, id);
      case HandlerFinishes(n) => TablesAloneServe(s.inn, I.HandlerFinishes(s.inn, n));
      case CompletionExpires(n) => TablesAloneServe(s.inn, I.ExpireCompletion(s.inn, n));
      case _ =>
    }
  }

  lemma TablesAloneServe(s: I.State, t: I.State)
    requires Served(s) && t.received == s.received && t.inbound == s.inbound && t.wire == s.wire
    ensures Served(t)
  {}

  lemma CancelServes(s: I.State, id: string)
    requires I.Inv(s) && Served(s)
    ensures I.Cancel(s, id, true).Some? ==> Served(I.Cancel(s, id, true).value)
  {
    if Has(s.inbound, id) {
      CloseServes(s, id, Find(s.inbound, id).serial, I.Failure("CANCELLED"), true);
    } else {
      TablesAloneServe(s, I.ForgetCompletion(s, id));
    }
  }

  lemma SettlesServes(s: I.State, n: nat, c: I.Completion)
    requires I.Inv(s) && Served(s)
    ensures Served(I.HandlerSettles(s, n, c, true))
  {
    if n < |s.received| && n in s.handlers && I.Holds(s, s.received[n], n) {
      RemoveDropsSerial(s.inbound, s.received, s.received[n]);
      AnswersGrow(s.wire, I.Responded(s.received[n], n, I.AnswerOf(Find(s.inbound, s.received[n]).data, c)));
    }
  }

  lemma {:induction false} RunServes(s: State, es: seq<Event>)
    requires Inv(s) && (Open(s) ==> Served(s.inn))
    ensures Open(Run(s, es)) ==> Served(Run(s, es).inn)
    decreases |es|
  {
    if es != [] {
      StepKeepsInv(s, es[0]);
      StepServes(s, es[0]);
      hide Step, Inv, Served;
      RunServes(Step(s, es[0]), es[1..]);
    }
  }

  /** A request still open has no answer on the wire. */
  lemma OpenIsUnanswered(s: I.State, n: nat)
    requires I.Inv(s) && n in Serials(s.inbound)
    ensures n !in Answered(s.wire)
  {
    var k :| 0 <= k < |s.inbound| && s.inbound[k].serial == n;
    OpenRequestWaits(s.wire, |s.received|, s.inbound[k].id, n);
  }

  lemma OpenRequestWaits(wire: seq<I.Wire>, received: nat, id: string, n: nat)
    requires I.Answers(wire) && I.ReceivedOnce(wire, received) && I.Open(wire, id, n)
    ensures n !in Answered(wire)
  {}

  /**
   Whatever the race between handler, timeout, cancellation and reset, a response on the socket
   answers the latest request received under its id, with nothing said about that id in between, and
   no request is answered twice: a slow handler never answers a later request that reuses its id.
   While the socket is open every request received is still in the table or has been answered exactly
   once, never both.
   */
  lemma EveryRequestAnsweredAtMostOnce(role: Role, maxInbound: nat, es: seq<Event>)
    ensures var wire := Run(Start(role, maxInbound), es).inn.wire;
      && I.Answers(wire)
      && forall a, b :: 0 <= a < b < |wire| && wire[a].Responded? && wire[b].Responded? ==>
         wire[a].serial != wire[b].serial
    ensures var s := Run(Start(role, maxInbound), es); Open(s) ==>
      forall n :: 0 <= n < |s.inn.received| ==>
        (n !in Serials(s.inn.inbound) <==> exists i :: AnsweredAt(s.inn.wire, n, i))
  {
    StartHoldsInv(role, maxInbound);
    RunKeepsInv(Start(role, maxInbound), es);
    var s := Run(Start(role, maxInbound), es);
    var inn := s.inn;
    forall a, b | 0 <= a < b < |inn.wire| && inn.wire[a].Responded? && inn.wire[b].Responded?
      ensures inn.wire[a].serial != inn.wire[b].serial
    {
      I.OneResponseEach(inn.wire, |inn.received|, a, b);
    }
    RunServes(Start(role, maxInbound), es);
    forall n | Open(s) && 0 <= n < |inn.received|
      ensures n !in Serials(inn.inbound) <==> exists i :: AnsweredAt(inn.wire, n, i)
    {
      if n in Serials(inn.inbound) {
        OpenIsUnanswered(inn, n);
      } else {
        var i :| 0 <= i < |inn.wire| && inn.wire[i].Responded? && inn.wire[i].serial == n;
        assert AnsweredAt(inn.wire, n, i);
      }
    }
  }

  /**
   What becomes of a call that is no protocol violation: its handler starts, and nothing is said yet,
   exactly when its method is registered and fewer handlers are alive than the limit; otherwise it is
   told at once, as long as the socket is open, which of the two was missing.
   */
  lemma CallsAreServedIff(s: State, id: string, verb: string)
    requires Inv(s) && s.socket != Closed && s.role == Adapter
    requires !Has(s.inn.inbound, id) && !Has(s.inn.completions, id)
    ensures
      var t := Step(s, Receive(Call(id, verb, true))); var n := |s.inn.received|;
      var heard := s.inn.wire + [I.Received(id, n)];
      var served := verb in s.registered && |s.inn.handlers| < s.inn.maxRunning;
      && t == s.(inn := t.inn) && t.inn.received == s.inn.received + [id] && t.inn.aborted == s.inn.aborted
      && (served <==> n in Serials(t.inn.inbound))
      && (served <==> n in t.inn.handlers)
      && (served ==>
            && t.inn.inbound == s.inn.inbound + [Slot(id, n, verb)] && t.inn.timers == s.inn.timers + {n}
            && t.inn.handlers == s.inn.handlers[n := I.Running] && t.inn.running == s.inn.running + 1
            && t.inn.completions == s.inn.completions && t.inn.wire == heard)
      && (!served ==>
            && t.inn.inbound == s.inn.inbound && t.inn.handlers == s.inn.handlers && t.inn.running == s.inn.running
            && t.inn.completions == Newest(s.inn.completions, Slot(id, n, ()))
            && t.inn.wire == if !Open(s) then heard else
                 heard + [I.Responded(id, n, I.Failure(if verb in s.registered then "PRECONDITION_FAILED"
                                                       else "CAPABILITY_UNAVAILABLE"))])
  {
    hide I.RememberCompletion, Serials;
    var n := |s.inn.received|;
    assert n !in Serials(s.inn.inbound) && n !in s.inn.handlers by { SerialsAreReceived(s.inn); }
    PutAppends(s.inn.inbound, Slot(id, n, verb));
    NewestSerial(s.inn.inbound, Slot(id, n, verb));
    CompletionRemembered(I.Arrived(s.inn, id), id, n);
  }

  lemma SerialsAreReceived(s: I.State)
    requires I.Inv(s)
    ensures |s.received| !in Serials(s.inbound) && |s.received| !in s.handlers
  {}

  lemma NewestSerial(t: seq<Slot<string>>, slot: Slot<string>)
    ensures slot.serial in Serials(t + [slot])
  {
    assert (t + [slot])[|t|] == slot;
  }

  /** The table with one more entry, the newest; the oldest of 1024 gives way. */
  function Newest<T>(t: seq<Slot<T>>, slot: Slot<T>): seq<Slot<T>> {
    (if |t| == 1024 then t[1..] else t) + [slot]
  }

  lemma CompletionRemembered(s: I.State, id: string, n: nat)
    requires UniqueIds(s.completions) && |s.completions| <= 1024 && !Has(s.completions, id)
    ensures
      var r := I.RememberCompletion(s, id, n);
      && r == s.(completions := Newest(s.completions, Slot(id, n, ())), graces := r.graces)
      && Has(r.completions, id)
  {
    var room := I.EvictCompletion(s);
    if |s.completions| == 1024 { assert Remove(s.completions, s.completions[0].id) == s.completions[1..]; }
    forall i | 0 <= i < |room.completions| ensures room.completions[i].id != id {
      assert room.completions[i] in s.completions;
    }
    PutAppends(room.completions, Slot(id, n, ()));
    var r := room.completions + [Slot(id, n, ())];
    assert r[|room.completions|].id == id;
  }

  /** A handler still running whose request is no longer open has had its signal raised. */
  lemma ClosedRequestsAreSignalled(role: Role, maxInbound: nat, es: seq<Event>, n: nat)
    ensures var inn := Run(Start(role, maxInbound), es).inn;
      n in inn.handlers && inn.handlers[n] == I.Running && n !in Serials(inn.inbound) ==> n in inn.aborted
  {
    StartHoldsInv(role, maxInbound);
    RunKeepsInv(Start(role, maxInbound), es);
  }

  /** What a handler's result comes to for a caller of `verb`. */
  function ResultFor(verb: string, c: I.Completion): I.Answer {
    if c.Value? && verb in c.validFor then I.Result
    else if c.AdapterError? && c.wellFormed then I.Failure(c.code)
    else I.Failure("PROVIDER_FAILED")
  }

  /**
   While the socket is open, whichever of the handler, its timeout or a cancellation comes first
   closes the request: it leaves the table, its completion is remembered and its one answer is the
   last thing written.
   */
  lemma FirstFinisherAnswers(s: State, n: nat, e: Event)
    requires Inv(s) && Open(s) && s.role == Adapter && n in Serials(s.inn.inbound) && n < |s.inn.received|
    requires || e == InboundTimesOut(n) || e == Receive(Notification(CancelRequest(s.inn.received[n])))
             || (e.HandlerSettles? && e.serial == n)
    ensures var id := s.inn.received[n]; var t := Step(s, e);
      && Has(s.inn.inbound, id)
      && !Has(t.inn.inbound, id) && Serials(t.inn.inbound) == Serials(s.inn.inbound) - {n}
      && t.inn.completions == Newest(s.inn.completions, Slot(id, n, ())) && Has(t.inn.completions, id)
      && t.inn.wire == s.inn.wire + [I.Responded(id, n,
           if e.InboundTimesOut? then I.Failure("TIMEOUT")
           else if e.Receive? then I.Failure("CANCELLED")
           else ResultFor(Find(s.inn.inbound, id).data, e.completion))]
      && (n in t.inn.aborted || e.HandlerSettles?)
      && t.out == s.out && t.violations == s.violations && t.socket == Opened
      && t.inn.running == s.inn.running
  {
    var id := s.inn.received[n];
    I.LiveSerialIsHeld(s.inn.inbound, s.inn.received, n);
    LiveIsArmed(s.inn, n);
    hide I.Inv, O.Inv, I.Close, Find, Has, Remove, Serials;
    match e
    case InboundTimesOut(_) => CloseAnswers(s.inn, id, n, I.Failure("TIMEOUT"), true);
    case Receive(_) => CloseAnswers(s.inn, id, n, I.Failure("CANCELLED"), true);
    case HandlerSettles(_, c) =>
      HandlerCloses(s.inn, id, n, ResultFor(Find(s.inn.inbound, id).data, c));
  }

  lemma LiveIsArmed(s: I.State, n: nat)
    requires I.Inv(s) && n in Serials(s.inbound)
    ensures n in s.timers && n in s.handlers && s.handlers[n] == I.Running
  {}

  /** Closing an open request takes it out, remembers it and says its answer. */
  lemma CloseAnswers(s: I.State, id: string, n: nat, answer: I.Answer, abort: bool)
    requires I.Inv(s) && I.Holds(s, id, n)
    ensures
      var t := I.Close(s, id, n, answer, abort, true);
      && !Has(t.inbound, id) && Serials(t.inbound) == Serials(s.inbound) - {n}
      && t == s.(inbound := t.inbound, timers := t.timers, graces := t.graces,
                 completions := Newest(s.completions, Slot(id, n, ())),
                 aborted := if abort then s.aborted + {n} else s.aborted,
                 wire := s.wire + [I.Responded(id, n, answer)])
      && Has(t.completions, id)
  {
    hide I.RememberCompletion, Newest, Serials;
    RemoveKeepsOthers(s.inbound, id);
    RemoveDropsSerial(s.inbound, s.received, id);
    ApartShrinks(s.inbound, s.completions, id);
    var taken := I.TakeInbound(s, id);
    CompletionRemembered(if abort then taken.(aborted := s.aborted + {n}) else taken, id, n);
  }

  /** It makes no difference to the closing how far the handler's own chain has come. */
  lemma HandlerCloses(s: I.State, id: string, n: nat, answer: I.Answer)
    requires I.Inv(s) && I.Holds(s, id, n)
    ensures
      var h := s.handlers[n := I.Finishing];
      var t := I.Close(s.(handlers := h), id, n, answer, false, true);
      && !Has(t.inbound, id) && Serials(t.inbound) == Serials(s.inbound) - {n}
      && t == s.(inbound := t.inbound, timers := t.timers, graces := t.graces, handlers := h,
                 completions := Newest(s.completions, Slot(id, n, ())),
                 wire := s.wire + [I.Responded(id, n, answer)])
      && Has(t.completions, id)
  {
    CloseAnswers(s, id, n, answer, false);
    hide I.Inv, Newest, Serials, Remove, Has;
  }

  // ----- Late answers -----------------------------------------------------------------------------------

  /**
   A timeout or abort settles its own request, once, leaves a tombstone as the newest of at most
   1024, gives up the oldest one only when all are taken, and tells the peer while the socket is open.
   */
  lemma InterruptLeavesTombstone(s: State, n: nat)
    requires Inv(s) && n in s.out.timers && n < |s.out.issued|
    ensures var r := s.out.issued[n]; var t := Step(s, TimerFires(n)).out;
      var full := |s.out.late| == 1024;
      && t.late == (if full then s.out.late[1..] else s.out.late) + [Slot(r.id, n, r.verb)]
      && t.forgotten == (if full then s.out.forgotten + {s.out.late[0].serial} else s.out.forgotten)
      && t.settlements == s.out.settlements + [O.Settlement(n, O.Rejected(O.RequestTimeout))]
      && t.frames == (if Open(s) then s.out.frames + [O.CancelFrame(r.id)] else s.out.frames)
      && Serials(t.pending) == Serials(s.out.pending) - {n} && t.answered == s.out.answered
    ensures s.out.issued[n].abortable ==>
      var r := s.out.issued[n]; var a, t := Step(s, SignalAborts(n)).out, Step(s, TimerFires(n)).out;
      a == t.(settlements := s.out.settlements + [O.Settlement(n, O.Rejected(O.RequestCancelled))])
  {
    hide O.Inv, I.Inv, O.Interrupt, Serials;
    TimerIsHeld(s.out, n);
    TombstoneLeft(s.out, n, O.RequestTimeout, Open(s));
    TombstoneLeft(s.out, n, O.RequestCancelled, Open(s));
  }

  lemma TimerIsHeld(s: O.State, n: nat)
    requires O.Inv(s) && n in s.timers && n < |s.issued|
    ensures Has(s.pending, s.issued[n].id)
  {
    O.LiveSerialIsHeld(s.pending, s.issued, n);
  }

  lemma TombstoneLeft(s: O.State, n: nat, reason: O.Reason, open: bool)
    requires O.Inv(s) && n in s.timers && n < |s.issued| && Has(s.pending, s.issued[n].id)
    ensures
      var r := s.issued[n]; var t := O.Interrupt(s, n, reason, open); var full := |s.late| == 1024;
      t == s.(
        pending := Remove(s.pending, r.id), timers := s.timers - {n},
        late := (if full then s.late[1..] else s.late) + [Slot(r.id, n, r.verb)],
        graces := (if full then s.graces - {s.late[0].serial} else s.graces) + {n},
        forgotten := if full then s.forgotten + {s.late[0].serial} else s.forgotten,
        settlements := s.settlements + [O.Settlement(n, O.Rejected(reason))],
        frames := if open then s.frames + [O.CancelFrame(r.id)] else s.frames)
    ensures Serials(O.Interrupt(s, n, reason, open).pending) == Serials(s.pending) - {n}
  {
    O.InterruptIsMove(s, n, reason, open);
    O.RemoveKeepsBacked(s.pending, s.issued, s.issued[n].id);
    if |s.late| == 1024 { assert Find(s.late, s.late[0].id) == s.late[0]; }
    hide Serials, Put, Apart;
  }

  /** A message a well-behaved peer may send, judged by what has passed between the two so far. */
  ghost predicate Honest(s: State, m: Message) {
    match m
    case Garbage => false
    case Response(id, payload) =>
      exists n: nat :: n < |s.out.issued| && s.out.issued[n].id == id
                       && n !in s.out.answered && n !in s.out.forgotten && O.Acceptable(s.out.issued[n].verb, payload)
    case Call(id, verb, wellFormed) => Admissible(s, id, wellFormed)
    case Notification(Invalid) => false
    case Notification(CancelRequest(id)) => s.role == Adapter && (Has(s.inn.inbound, id) || Has(s.inn.completions, id))
    case Notification(Other(forConsumers)) => s.role == Consumer && forConsumers
  }

  /** The entry or tombstone that a response to `id` meets. */
  lemma UnansweredIsLive(out: O.State, id: string, n: nat)
    requires O.Inv(out) && n < |out.issued| && out.issued[n].id == id && n !in out.answered && n !in out.forgotten
    ensures
      if Has(out.pending, id) then
        Find(out.pending, id).serial == n && Find(out.pending, id).data == out.issued[n].verb
      else
        Has(out.late, id) && Find(out.late, id).serial == n && Find(out.late, id).data == out.issued[n].verb
  {}

  lemma LiveIsUnanswered(out: O.State, id: string)
    requires O.Inv(out)
    ensures Has(out.pending, id) ==> var n := Find(out.pending, id).serial;
      n < |out.issued| && out.issued[n].id == id && n !in out.answered && n !in out.forgotten
        && Find(out.pending, id).data == out.issued[n].verb
    ensures Has(out.late, id) ==> var n := Find(out.late, id).serial;
      n < |out.issued| && out.issued[n].id == id && n !in out.answered && n !in out.forgotten
        && Find(out.late, id).data == out.issued[n].verb
  {}

  lemma HonestResponsesAreTaken(s: State, id: string, payload: O.Payload)
    requires Inv(s)
    ensures Honest(s, Response(id, payload)) <==> O.Respond(s.out, id, payload).Some?
    ensures Honest(s, Response(id, payload)) ==>
      (exists n: nat :: n < |s.out.issued| && n !in s.out.answered
         && s.out.issued[n].id == id && O.Respond(s.out, id, payload).value.answered == s.out.answered + {n})
  {
    hide O.Inv, I.Inv, Find, Has, Remove, O.Acceptable;
    LiveIsUnanswered(s.out, id);
    if Honest(s, Response(id, payload)) {
      var n: nat :| n < |s.out.issued| && s.out.issued[n].id == id
                    && n !in s.out.answered && n !in s.out.forgotten && O.Acceptable(s.out.issued[n].verb, payload);
      UnansweredIsLive(s.out, id, n);
    }
  }

  /**
   A message is a protocol violation exactly when it is not honest. In particular a valid first
   answer is never one while its request waits or its tombstone stands, and an accepted answer is
   recorded against a request it was sent for.
   */
  lemma ViolationIffDishonest(s: State, m: Message)
    requires Inv(s) && s.socket != Closed
    ensures Step(s, Receive(m)).violations == s.violations + (if Honest(s, m) then 0 else 1)
    ensures !Honest(s, m) ==> Step(s, Receive(m)) == Violate(s) && Violate(s).out.pending == []
                              && Violate(s).inn.inbound == [] && Violate(s).socket == Closing
    ensures m.Response? && Honest(s, m) ==>
      (exists n: nat :: n < |s.out.issued| && n !in s.out.answered
         && s.out.issued[n].id == m.id && Step(s, Receive(m)).out.answered == s.out.answered + {n})
  {
    hide Inv, Handle, Violate, Honest;
    ViolateEmptiesTables(s);
    if m.Response? { ResponsesAreRefusedIff(s, m); } else { OthersAreRefusedIff(s, m); }
  }

  lemma ViolateEmptiesTables(s: State)
    requires Inv(s) && s.socket != Closed
    ensures var t := Violate(s);
      t.violations == s.violations + 1 && t.out.pending == [] && t.inn.inbound == [] && t.socket == Closing
  {
    hide Inv, Reset;
    ResetKeepsInv(s, O.ProtocolViolated);
  }

  lemma ResponsesAreRefusedIff(s: State, m: Message)
    requires Inv(s) && m.Response?
    ensures if Honest(s, m) then Handle(s, m).violations == s.violations else Handle(s, m) == Violate(s)
    ensures Honest(s, m) ==>
      (exists n: nat :: n < |s.out.issued| && n !in s.out.answered
         && s.out.issued[n].id == m.id && Handle(s, m).out.answered == s.out.answered + {n})
  {
    hide Inv, O.Respond, Honest, Violate;
    HonestResponsesAreTaken(s, m.id, m.payload);
  }

  lemma OthersAreRefusedIff(s: State, m: Message)
    requires !m.Response?
    ensures if Honest(s, m) then Handle(s, m).violations == s.violations else Handle(s, m) == Violate(s)
  {}

  /** A response settles the waiting request it answers, with the result it carries. */
  lemma ResponseSettlesItsRequest(s: State, n: nat, payload: O.Payload)
    requires Inv(s) && s.socket != Closed && n in Serials(s.out.pending) && n < |s.out.issued|
    requires O.Acceptable(s.out.issued[n].verb, payload)
    ensures var t := Step(s, Receive(Response(s.out.issued[n].id, payload))).out;
      && t.settlements == s.out.settlements
         + [O.Settlement(n, if payload.ErrorPayload? then O.Rejected(O.RpcError) else O.Resolved)]
      && Serials(t.pending) == Serials(s.out.pending) - {n} && t.late == s.out.late
  {
    O.LiveSerialIsHeld(s.out.pending, s.out.issued, n);
    O.RemoveKeepsBacked(s.out.pending, s.out.issued, s.out.issued[n].id);
  }

  ghost predicate HonestRun(s: State, es: seq<Event>)
    decreases |es|
  {
    es == [] || ((es[0].Receive? && s.socket != Closed ==> Honest(s, es[0].message))
                 && HonestRun(Step(s, es[0]), es[1..]))
  }

  lemma OnlyMessagesViolate(s: State, e: Event)
    requires e.Receive? ==> s.socket == Closed
    ensures Step(s, e).violations == s.violations
  {}

  /** With a well-behaved peer, no run ever counts a violation. */
  lemma {:induction false} HonestRunsNeverViolate(s: State, es: seq<Event>)
    requires Inv(s) && HonestRun(s, es)
    ensures Run(s, es).violations == s.violations
    decreases |es|
  {
    if es != [] {
      StepKeepsInv(s, es[0]);
      if es[0].Receive? && s.socket != Closed {
        ViolationIffDishonest(s, es[0].message);
      } else {
        OnlyMessagesViolate(s, es[0]);
      }
      hide Step, Inv, Honest, Violate;
      HonestRunsNeverViolate(Step(s, es[0]), es[1..]);
    }
  }
}
