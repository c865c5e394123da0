/**
 The client engine as one machine: a run is any interleaving of calls by the application, messages
 from the peer, timer and abort callbacks, handler completions and socket events.
 */
module Engine {
  import opened Common
  import opened Tables
  import O = Outbound
  import I = Inbound

  const MAX_CLIENT_REQUEST_TIMEOUT_MS := 300_000
  const MAX_INBOUND_REQUESTS: nat := 1024

  datatype Socket = Opened | Closing | Closed
  datatype Role = Adapter | Consumer

  datatype State = State(socket: Socket, role: Role, registered: set<string>, violations: nat, out: O.State,
                         inn: I.State)

  function Start(role: Role, maxInbound: nat): State {
    State(Opened, role, {}, 0, O.EMPTY, I.Empty(maxInbound))
  }

  datatype Notice = Invalid | CancelRequest(id: string) | Other(forConsumers: bool)

  /** `wellFormed` stands for the schema checks of an incoming request: its method is a routed one. */
  datatype Message =
    | Garbage
    | Response(id: string, payload: O.Payload)
    | Call(id: string, verb: string, wellFormed: bool)
    | Notification(notice: Notice)

  /** One application request; `draws` are the identifiers the random source offers it, in order. */
  datatype Ask = Ask(verb: string, authorized: bool, timeoutMs: int, aborted: bool, valid: bool,
                     abortable: bool, abortedMeanwhile: bool, draws: seq<string>)

  datatype Event =
    | Request(ask: Ask)
    | TimerFires(serial: nat)
    | SignalAborts(serial: nat)
    | SendCompletes(id: string, failed: bool)
    | GraceExpires(serial: nat)
    | Receive(message: Message)
    | InboundTimesOut(serial: nat)
    | HandlerSettles(serial: nat, completion: I.Completion)
    | HandlerFinishes(serial: nat)
    | CompletionExpires(serial: nat)
    | Register(verb: string)
    | Unregister(verb: string)
    | LocalClose
    | PeerCloses
    | TransportFails
    | SocketCloses

  predicate Open(s: State) { s.socket == Opened }

  // ----- Steps ----------------------------------------------------------------------------------------

  /** The first offered identifier that is in neither table. */
  function FreshId(out: O.State, draws: seq<string>): (r: Option<string>)
    ensures r.Some? ==> !Has(out.pending, r.value) && !Has(out.late, r.value) && r.value in draws
  {
    if draws == [] then None
    else if Has(out.pending, draws[0]) || Has(out.late, draws[0]) then FreshId(out, draws[1..])
    else Some(draws[0])
  }

  datatype Refusal = NotAuthorized | BadTimeout | AlreadyAborted | NotOpen | StillDrawing | BadParameters

  function Refused(s: State, ask: Ask): Option<Refusal> {
    if !ask.authorized then Some(NotAuthorized)
    else if ask.timeoutMs < 1 || ask.timeoutMs > MAX_CLIENT_REQUEST_TIMEOUT_MS then Some(BadTimeout)
    else if ask.aborted then Some(AlreadyAborted)
    else if !Open(s) then Some(NotOpen)
    else if FreshId(s.out, ask.draws).None? then Some(StillDrawing)
    else if !ask.valid then Some(BadParameters)
    else None
  }

  function Submit(s: State, ask: Ask): State {
    if Refused(s, ask).Some? then s
    else
      var r := O.Request(FreshId(s.out, ask.draws).value, ask.verb, ask.abortable);
      s.(out := O.Issue(s.out, r, ask.abortable && ask.abortedMeanwhile, true))
  }

  function Reset(s: State, reason: O.Reason): State {
    s.(out := O.RejectAll(s.out, reason), inn := I.ClearCompletions(I.AbortAll(s.inn)))
  }

  function Violate(s: State): State {
    var r := Reset(s, O.ProtocolViolated);
    r.(violations := s.violations + 1, socket := if s.socket == Opened then Closing else s.socket)
  }

  function Fail(s: State): State {
    Reset(s, O.ConnectionLost).(socket := if s.socket == Closed then Closed else Closing)
  }

  function Finish(s: State): State {
    var r := Reset(s, O.ConnectionLost);
    r.(out := O.ClearLate(r.out), socket := Closed)
  }

  predicate Admissible(s: State, id: string, wellFormed: bool) {
    s.role == Adapter && wellFormed && !Has(s.inn.inbound, id) && !Has(s.inn.completions, id)
  }

  function Handle(s: State, m: Message): State {
    match m
    case Garbage => Violate(s)
    case Response(id, payload) =>
      (match O.Respond(s.out, id, payload)
       case Some(out) => s.(out := out)
       case None => Violate(s))
    case Call(id, verb, wellFormed) =>
      if !Admissible(s, id, wellFormed) then Violate(s)
      else s.(inn := I.Receive(s.inn, id, verb, verb in s.registered, Open(s)))
    case Notification(Invalid) => Violate(s)
    case Notification(CancelRequest(id)) =>
      if s.role != Adapter then Violate(s)
      else
        (match I.Cancel(s.inn, id, Open(s))
         case Some(inn) => s.(inn := inn)
         case None => Violate(s))
    case Notification(Other(forConsumers)) =>
      if s.role == Consumer && forConsumers then s else Violate(s)
  }

  /** An event that is not enabled changes nothing; a closed socket delivers no message. */
  function Step(s: State, e: Event): State {
    match e
    case Request(ask) => Submit(s, ask)
    case TimerFires(serial) => s.(out := O.Fire(s.out, serial, O.RequestTimeout, Open(s)))
    case SignalAborts(serial) => s.(out := O.Fire(s.out, serial, O.RequestCancelled, Open(s)))
    case SendCompletes(id, failed) => if failed && Has(s.out.pending, id) then Fail(s) else s
    case GraceExpires(serial) => s.(out := O.ExpireGrace(s.out, serial))
    case Receive(m) => if s.socket == Closed then s else Handle(s, m)
    case InboundTimesOut(serial) => s.(inn := I.Timeout(s.inn, serial, Open(s)))
    case HandlerSettles(serial, c) => s.(inn := I.HandlerSettles(s.inn, serial, c, Open(s)))
    case HandlerFinishes(serial) => s.(inn := I.HandlerFinishes(s.inn, serial))
    case CompletionExpires(serial) => s.(inn := I.ExpireCompletion(s.inn, serial))
    case Register(verb) => if s.role == Adapter then s.(registered := s.registered + {verb}) else s
    case Unregister(verb) => s.(registered := s.registered - {verb})
    case LocalClose => if s.socket == Closed then s else s.(socket := Closing)
    case PeerCloses => if s.socket == Opened then s.(socket := Closing) else s
    case TransportFails => Fail(s)
    case SocketCloses => if s.socket == Closed then s else Finish(s)
  }

  function Run(s: State, es: seq<Event>): State
    decreases |es|
  {
    if es == [] then s else Run(Step(s, es[0]), es[1..])
  }

  // ----- Invariant --------------------------------------------------------------------------------------

  ghost predicate Inv(s: State) {
    && O.Inv(s.out) && I.Inv(s.inn)
    && (s.socket == Closed ==>
          s.out.pending == [] && s.out.late == [] && s.inn.inbound == [] && s.inn.completions == [])
  }

  lemma ResetKeepsInv(s: State, reason: O.Reason)
    requires Inv(s)
    ensures Inv(Reset(s, reason)) && Reset(s, reason).out.pending == [] && Reset(s, reason).out.late == s.out.late
    ensures Reset(s, reason).inn.inbound == [] && Reset(s, reason).inn.completions == []
  {
    O.RejectAllKeepsInv(s.out, reason);
    I.AbortAllKeepsInv(s.inn);
    I.ClearKeepsInv(I.AbortAll(s.inn));
  }

  lemma HandleKeepsInv(s: State, m: Message)
    requires Inv(s) && s.socket != Closed
    ensures Inv(Handle(s, m))
  {
    ResetKeepsInv(s, O.ProtocolViolated);
    match m
    case Response(id, payload) => O.RespondKeepsInv(s.out, id, payload);
    case Call(id, verb, wellFormed) =>
      if Admissible(s, id, wellFormed) { I.ReceiveKeepsInv(s.inn, id, verb, verb in s.registered, Open(s)); }
    case Notification(CancelRequest(id)) => I.CancelKeepsInv(s.inn, id, Open(s));
    case _ =>
  }

  lemma StepKeepsInv(s: State, e: Event)
    requires Inv(s)
    ensures Inv(Step(s, e))
  {
    hide O.Inv, I.Inv, Handle, O.Issue, Reset;
    match e
    case Request(ask) =>
      if Refused(s, ask).None? {
        var r := O.Request(FreshId(s.out, ask.draws).value, ask.verb, ask.abortable);
        O.IssueKeepsInv(s.out, r, ask.abortable && ask.abortedMeanwhile, true);
      }
    case TimerFires(serial) => O.FireKeepsInv(s.out, serial, O.RequestTimeout, Open(s));
    case SignalAborts(serial) => O.FireKeepsInv(s.out, serial, O.RequestCancelled, Open(s));
    case GraceExpires(serial) => O.ExpireKeepsInv(s.out, serial);
    case Receive(m) => if s.socket != Closed { HandleKeepsInv(s, m); }
    case InboundTimesOut(serial) => I.TimeoutKeepsInv(s.inn, serial, Open(s));
    case HandlerSettles(serial, c) => I.SettlesKeepsInv(s.inn, serial, c, Open(s));
    case HandlerFinishes(serial) => I.FinishesKeepsInv(s.inn, serial);
    case CompletionExpires(serial) => I.ExpireKeepsInv(s.inn, serial);
    case SocketCloses =>
      ResetKeepsInv(s, O.ConnectionLost);
      O.ClearLateKeepsInv(Reset(s, O.ConnectionLost).out);
    case _ => ResetKeepsInv(s, O.ConnectionLost);
  }

  lemma {:induction false} RunKeepsInv(s: State, es: seq<Event>)
    requires Inv(s)
    ensures Inv(Run(s, es))
    decreases |es|
  {
    if es != [] {
      StepKeepsInv(s, es[0]);
      RunKeepsInv(Step(s, es[0]), es[1..]);
    }
  }

  lemma StartHoldsInv(role: Role, maxInbound: nat)
    ensures Inv(Start(role, maxInbound))
  {}
}
