/** The engine as the client holds it: one object whose tables every callback updates in place. */
module JsonRpcEngine {
  import opened Common
  import opened Tables
  import O = Outbound
  import I = Inbound
  import opened Engine

  class ClientJsonRpcEngine {
    const role: Role
    const maxInboundRequests: nat
    var socket: Socket
    var pending: seq<Slot<string>>
    var lateResponses: seq<Slot<string>>
    var inbound: seq<Slot<string>>
    var inboundCompletions: seq<Slot<()>>
    var requestHandlers: set<string>
    var runningInboundHandlers: int
    // What the event loop and the callers hold: armed callbacks, promise chains, and what was said.
    var timers: set<nat>
    var graces: set<nat>
    var issued: seq<O.Request>
    var settlements: seq<O.Settlement>
    var frames: seq<O.Frame>
    var answered: set<nat>
    var forgotten: set<nat>
    var inboundTimers: set<nat>
    var completionTimers: set<nat>
    var aborted: set<nat>
    var handlers: map<nat, I.Stage>
    var received: seq<string>
    var wire: seq<I.Wire>
    var violations: nat

    function Out(): O.State
      reads this`pending, this`lateResponses, this`timers, this`graces, this`issued, this`settlements, this`frames,
            this`answered, this`forgotten
    {
      O.State(pending, lateResponses, timers, graces, issued, settlements, frames, answered, forgotten)
    }

    function In(): I.State
      reads this`inbound, this`inboundCompletions, this`runningInboundHandlers, this`inboundTimers,
            this`completionTimers, this`aborted, this`handlers, this`received, this`wire
    {
      I.State(inbound, inboundCompletions, runningInboundHandlers, maxInboundRequests, inboundTimers,
              completionTimers, aborted, handlers, received, wire)
    }

    function View(): State reads this {
      State(socket, role, requestHandlers, violations, Out(), In())
    }

    /** The invariant every theorem about runs rests on. */
    ghost predicate Valid() reads this { Inv(View()) }

    /** The limits the constructor of the original refuses are excluded here. */
    constructor (role: Role, maxInboundRequests: nat)
      requires 1 <= maxInboundRequests <= MAX_INBOUND_REQUESTS
      ensures View() == Start(role, maxInboundRequests) && Valid()
    {
      this.role, this.maxInboundRequests, socket := role, maxInboundRequests, Opened;
      pending, lateResponses, inbound, inboundCompletions := [], [], [], [];
      requestHandlers, runningInboundHandlers, violations := {}, 0, 0;
      timers, graces, answered, forgotten, inboundTimers, completionTimers, aborted := {}, {}, {}, {}, {}, {}, {};
      issued, settlements, frames, received, wire, handlers := [], [], [], [], [], map[];
      new;
      StartHoldsInv(role, maxInboundRequests);
      hide Inv;
    }

    // ----- Requests ---------------------------------------------------------------------------------

    method CreateRequestId(draws: seq<string>) returns (id: Option<string>)
      ensures id == FreshId(Out(), draws)
    {
      var i := 0;
      while i < |draws|
        invariant i <= |draws| && FreshId(Out(), draws) == FreshId(Out(), draws[i..])
      {
        if !Has(pending, draws[i]) && !Has(lateResponses, draws[i]) { return Some(draws[i]); }
        i := i + 1;
      }
      return None;
    }

    method TakePending(id: string) returns (taken: Option<Slot<string>>)
      modifies this
      ensures taken == if Has(old(pending), id) then Some(Find(old(pending), id)) else None
      ensures View() == if Has(old(pending), id) then old(View()).(out := O.TakePending(old(Out()), id))
                        else old(View())
    {
      if !Has(pending, id) { return None; }
      var slot := Find(pending, id);
      pending := Remove(pending, id);
      timers := timers - {slot.serial};
      return Some(slot);
    }

    method ForgetLateResponse(id: string)
      modifies this
      ensures View() == old(View()).(out := O.ForgetLate(old(Out()), id))
    {
      if !Has(lateResponses, id) { return; }
      graces := graces - {Find(lateResponses, id).serial};
      lateResponses := Remove(lateResponses, id);
    }

    method EvictLateResponse()
      modifies this
      ensures View() == old(View()).(out := O.EvictLate(old(Out())))
    {
      hide In, Find, Has, Remove;
      if |lateResponses| < O.MAX_LATE_RESPONSE_IDS { return; }
      var oldest := lateResponses[0];
      ForgetLateResponse(oldest.id);
      forgotten := forgotten + {oldest.serial};
    }

    method RememberLateResponse(id: string, serial: nat, verb: string)
      modifies this
      ensures View() == old(View()).(out := O.RememberLate(old(Out()), id, serial, verb))
    {
      hide In, Put, Remove, O.EvictLate;
      EvictLateResponse();
      lateResponses := Put(lateResponses, Slot(id, serial, verb));
      graces := graces + {serial};
    }

    /** The caller's promise settles. */
    method Settle(serial: nat, outcome: O.Outcome)
      modifies this
      ensures View() == old(View()).(out := O.Settle(old(Out()), serial, outcome))
    {
      hide In;
      settlements := settlements + [O.Settlement(serial, outcome)];
    }

    /** The body of a request's timeout and of its abort listener. */
    method Interrupt(serial: nat, reason: O.Reason)
      requires serial < |issued|
      modifies this
      ensures View() == old(View()).(out := O.Interrupt(old(Out()), serial, reason, old(socket) == Opened))
    {
      hide In, Put, Remove;
      var request := issued[serial];
      var taken := TakePending(request.id);
      if taken == None { return; }
      RememberLateResponse(request.id, serial, request.verb);
      if socket == Opened { frames := frames + [O.CancelFrame(request.id)]; }
      Settle(serial, O.Rejected(reason));
    }

    method Request(ask: Ask) returns (refusal: Option<Refusal>)
      modifies this
      ensures refusal == Refused(old(View()), ask)
      ensures View() == Submit(old(View()), ask)
    {
      if !ask.authorized { return Some(NotAuthorized); }
      if ask.timeoutMs < 1 || ask.timeoutMs > MAX_CLIENT_REQUEST_TIMEOUT_MS { return Some(BadTimeout); }
      if ask.aborted { return Some(AlreadyAborted); }
      if socket != Opened { return Some(NotOpen); }
      var id := CreateRequestId(ask.draws);
      if id == None { return Some(StillDrawing); }
      if !ask.valid { return Some(BadParameters); }
      Enter(O.Request(id.value, ask.verb, ask.abortable), ask.abortable && ask.abortedMeanwhile);
      return None;
    }

    /** The executor of the request's promise. */
    method Enter(request: O.Request, abortedMeanwhile: bool)
      modifies this
      ensures View() == old(View()).(out := O.Issue(old(Out()), request, abortedMeanwhile, old(socket) == Opened))
    {
      hide Put, O.Interrupt, In;
      var serial := |issued|;
      issued := issued + [request];
      timers := timers + {serial};
      pending := Put(pending, Slot(request.id, serial, request.verb));
      if abortedMeanwhile {
        Interrupt(serial, O.RequestCancelled);
      } else {
        frames := frames + [O.RequestFrame(serial)];
      }
    }

    method RequestTimesOut(serial: nat)
      modifies this
      ensures View() == Step(old(View()), TimerFires(serial))
    {
      if serial < |issued| && serial in timers { Interrupt(serial, O.RequestTimeout); }
    }

    method SignalAborts(serial: nat)
      modifies this
      ensures View() == Step(old(View()), Event.SignalAborts(serial))
    {
      if serial < |issued| && serial in timers && issued[serial].abortable { Interrupt(serial, O.RequestCancelled); }
    }

    method SendCompletes(id: string, failed: bool)
      modifies this
      ensures View() == Step(old(View()), Event.SendCompletes(id, failed))
    {
      if !failed || !Has(pending, id) { return; }
      FailConnection();
    }

    method LateResponseExpires(serial: nat)
      modifies this
      ensures View() == Step(old(View()), GraceExpires(serial))
    {
      hide In;
      if serial < |issued| && serial in graces && Has(lateResponses, issued[serial].id) {
        graces := graces - {serial};
        forgotten := forgotten + {serial};
        lateResponses := Remove(lateResponses, issued[serial].id);
      }
    }

    // ----- Messages ---------------------------------------------------------------------------------

    method HandleMessage(m: Message)
      requires socket != Closed
      modifies this
      ensures View() == Step(old(View()), Receive(m))
    {
      hide O.Respond, Admissible, Violate;
      match m
      case Garbage => ProtocolViolation();
      case Call(id, verb, wellFormed) => HandleIncomingRequest(id, verb, wellFormed);
      case Notification(notice) => HandleIncomingNotification(notice);
      case Response(id, payload) => HandleResponse(id, payload);
    }

    method HandleResponse(id: string, payload: O.Payload)
      modifies this
      ensures View() == Handle(old(View()), Response(id, payload))
    {
      hide In, Find, Has, Remove, O.Acceptable, Violate;
      if !Has(pending, id) { AbsorbLateResponse(id, payload); return; }
      var request := Find(pending, id);
      if !O.Acceptable(request.data, payload) { ProtocolViolation(); return; }
      var settled := TakePending(id);
      answered := answered + {request.serial};
      Settle(request.serial, if payload.ErrorPayload? then O.Rejected(O.RpcError) else O.Resolved);
    }

    method AbsorbLateResponse(id: string, payload: O.Payload)
      requires !Has(pending, id)
      modifies this
      ensures View() == Handle(old(View()), Response(id, payload))
    {
      hide In, Find, Has, Remove, O.Acceptable, Violate;
      if !Has(lateResponses, id) { ProtocolViolation(); return; }
      var late := Find(lateResponses, id);
      if !O.Acceptable(late.data, payload) { ProtocolViolation(); return; }
      ForgetLateResponse(id);
      answered := answered + {late.serial};
    }

    method HandleIncomingRequest(id: string, verb: string, wellFormed: bool)
      modifies this
      ensures View() == Handle(old(View()), Call(id, verb, wellFormed))
    {
      if role != Adapter || !wellFormed || Has(inbound, id) || Has(inboundCompletions, id) {
        ProtocolViolation();
        return;
      }
      Admit(id, verb);
    }

    method Admit(id: string, verb: string)
      modifies this
      ensures View() == old(View()).(inn := I.Receive(old(In()), id, verb, verb in old(requestHandlers),
                                                      old(socket) == Opened))
    {
      var serial := |received|;
      received := received + [id];
      wire := wire + [I.Received(id, serial)];
      assert View() == old(View()).(inn := I.Arrived(old(In()), id));
      if verb !in requestHandlers {
        Answer(id, serial, I.Failure("CAPABILITY_UNAVAILABLE"));
        return;
      }
      if runningInboundHandlers >= maxInboundRequests {
        Answer(id, serial, I.Failure("PRECONDITION_FAILED"));
        return;
      }
      StartHandler(id, serial, verb);
    }

    method StartHandler(id: string, serial: nat, verb: string)
      modifies this
      ensures View() == old(View()).(inn := In()) && In() == I.Accept(old(In()), id, serial, verb)
    {
      hide Put, Out;
      inboundTimers := inboundTimers + {serial};
      inbound := Put(inbound, Slot(id, serial, verb));
      runningInboundHandlers := runningInboundHandlers + 1;
      handlers := handlers[serial := I.Running];
    }

    method HandleIncomingNotification(notice: Notice)
      modifies this
      ensures View() == Handle(old(View()), Notification(notice))
    {
      if notice.Invalid? { ProtocolViolation(); return; }
      if role == Adapter {
        if !notice.CancelRequest? { ProtocolViolation(); return; }
        var taken := TakeInbound(notice.id, None);
        if taken == None {
          if Has(inboundCompletions, notice.id) { ForgetInboundCompletion(notice.id); return; }
          ProtocolViolation();
          return;
        }
        aborted := aborted + {taken.value.serial};
        Answer(notice.id, taken.value.serial, I.Failure("CANCELLED"));
        return;
      }
      if !notice.Other? || !notice.forConsumers { ProtocolViolation(); }
    }

    // ----- Inbound requests -------------------------------------------------------------------------

    /** `expected` is the request a callback captured; a cancellation names only the identifier. */
    method TakeInbound(id: string, expected: Option<nat>) returns (taken: Option<Slot<string>>)
      modifies this
      ensures var s := old(In());
        if Has(s.inbound, id) && (expected.Some? ==> Find(s.inbound, id).serial == expected.value)
        then taken == Some(Find(s.inbound, id)) && View() == old(View()).(inn := I.TakeInbound(s, id))
        else taken == None && View() == old(View())
    {
      if !Has(inbound, id) { return None; }
      var slot := Find(inbound, id);
      if expected.Some? && slot.serial != expected.value { return None; }
      inbound := Remove(inbound, id);
      inboundTimers := inboundTimers - {slot.serial};
      return Some(slot);
    }

    method ForgetInboundCompletion(id: string)
      modifies this
      ensures View() == old(View()).(inn := I.ForgetCompletion(old(In()), id))
    {
      if !Has(inboundCompletions, id) { return; }
      completionTimers := completionTimers - {Find(inboundCompletions, id).serial};
      inboundCompletions := Remove(inboundCompletions, id);
    }

    method RememberInboundCompletion(id: string, serial: nat)
      modifies this
      ensures View() == old(View()).(inn := I.RememberCompletion(old(In()), id, serial))
    {
      if |inboundCompletions| >= I.MAX_LATE_RESPONSE_IDS { ForgetInboundCompletion(inboundCompletions[0].id); }
      inboundCompletions := Put(inboundCompletions, Slot(id, serial, ()));
      completionTimers := completionTimers + {serial};
    }

    method SendInbound(id: string, serial: nat, answer: I.Answer)
      modifies this
      ensures View() == old(View()).(inn := I.Send(old(In()), id, serial, answer, old(socket) == Opened))
    {
      if socket != Opened { return; }
      wire := wire + [I.Responded(id, serial, answer)];
    }

    method Answer(id: string, serial: nat, answer: I.Answer)
      modifies this
      ensures View() == old(View()).(inn := I.Send(I.RememberCompletion(old(In()), id, serial), id, serial, answer,
                                                   old(socket) == Opened))
    {
      RememberInboundCompletion(id, serial);
      SendInbound(id, serial, answer);
    }

    method InboundRequestTimesOut(serial: nat)
      modifies this
      ensures View() == Step(old(View()), InboundTimesOut(serial))
    {
      if serial >= |received| || serial !in inboundTimers { return; }
      var id := received[serial];
      var taken := TakeInbound(id, Some(serial));
      if taken == None { return; }
      aborted := aborted + {serial};
      Answer(id, serial, I.Failure("TIMEOUT"));
    }

    method HandlerSettles(serial: nat, completion: I.Completion)
      modifies this
      ensures View() == Step(old(View()), Event.HandlerSettles(serial, completion))
    {
      if serial >= |received| || serial !in handlers || handlers[serial] != I.Running { return; }
      handlers := handlers[serial := I.Finishing];
      var id := received[serial];
      var taken := TakeInbound(id, Some(serial));
      if taken == None { return; }
      Answer(id, serial, I.AnswerOf(taken.value.data, completion));
    }

    method HandlerFinishes(serial: nat)
      modifies this
      ensures View() == Step(old(View()), Event.HandlerFinishes(serial))
    {
      if serial in handlers && handlers[serial] == I.Finishing {
        handlers := handlers - {serial};
        runningInboundHandlers := runningInboundHandlers - 1;
      }
    }

    method CompletionExpires(serial: nat)
      modifies this
      ensures View() == Step(old(View()), Event.CompletionExpires(serial))
    {
      if serial < |received| && serial in completionTimers {
        inboundCompletions := Remove(inboundCompletions, received[serial]);
        completionTimers := completionTimers - {serial};
      }
    }

    // ----- The connection ---------------------------------------------------------------------------

    method RejectAll(reason: O.Reason)
      modifies this
      ensures View() == old(View()).(out := O.RejectAll(old(Out()), reason))
    {
      hide In;
      while pending != []
        invariant O.RejectAll(Out(), reason) == O.RejectAll(old(Out()), reason)
        invariant View() == old(View()).(out := Out())
        decreases |pending|
      {
        var serial := pending[0].serial;
        var taken := TakePending(pending[0].id);
        forgotten := forgotten + {serial};
        Settle(serial, O.Rejected(reason));
      }
    }

    method AbortAllInbound()
      modifies this
      ensures View() == old(View()).(inn := I.AbortAll(old(In())))
    {
      while inbound != []
        invariant I.AbortAll(In()) == I.AbortAll(old(In()))
        invariant View() == old(View()).(inn := In())
        decreases |inbound|
      {
        var serial := inbound[0].serial;
        var taken := TakeInbound(inbound[0].id, None);
        aborted := aborted + {serial};
      }
    }

    method ClearInboundCompletions()
      modifies this
      ensures View() == old(View()).(inn := I.ClearCompletions(old(In())))
    {
      for i := 0 to |inboundCompletions|
        invariant View() == old(View()).(inn := old(In()).(graces := completionTimers))
        invariant completionTimers == old(completionTimers) - SerialSet(inboundCompletions[..i])
      {
        SerialsPrefix(inboundCompletions, i);
        completionTimers := completionTimers - {inboundCompletions[i].serial};
      }
      assert inboundCompletions[..|inboundCompletions|] == inboundCompletions;
      inboundCompletions := [];
    }

    method ClearLateResponses()
      modifies this
      ensures View() == old(View()).(out := O.ClearLate(old(Out())))
    {
      hide In;
      for i := 0 to |lateResponses|
        invariant View() == old(View()).(out := old(Out()).(graces := graces, forgotten := forgotten))
        invariant graces == old(graces) - SerialSet(lateResponses[..i])
        invariant forgotten == old(forgotten) + SerialSet(lateResponses[..i])
      {
        SerialsPrefix(lateResponses, i);
        graces := graces - {lateResponses[i].serial};
        forgotten := forgotten + {lateResponses[i].serial};
      }
      assert lateResponses[..|lateResponses|] == lateResponses;
      lateResponses := [];
    }

    method ProtocolViolation()
      modifies this
      ensures View() == Violate(old(View()))
    {
      RejectAll(O.ProtocolViolated);
      AbortAllInbound();
      ClearInboundCompletions();
      violations := violations + 1;
      if socket == Opened { socket := Closing; }
    }

    method FailConnection()
      modifies this
      ensures View() == Fail(old(View()))
    {
      RejectAll(O.ConnectionLost);
      AbortAllInbound();
      ClearInboundCompletions();
      if socket != Closed { socket := Closing; }
    }

    method SocketCloses()
      requires socket != Closed
      modifies this
      ensures View() == Step(old(View()), Event.SocketCloses)
    {
      RejectAll(O.ConnectionLost);
      AbortAllInbound();
      ClearInboundCompletions();
      ClearLateResponses();
      socket := Closed;
    }

    method RegisterHandler(verb: string)
      modifies this
      ensures View() == Step(old(View()), Register(verb))
    {
      if role == Adapter { requestHandlers := requestHandlers + {verb}; }
    }

    method UnregisterHandler(verb: string)
      modifies this
      ensures View() == Step(old(View()), Unregister(verb))
    {
      requestHandlers := requestHandlers - {verb};
    }

    method Close()
      modifies this
      ensures View() == Step(old(View()), LocalClose)
    {
      if socket != Closed { socket := Closing; }
    }

    method PeerStartsClosing()
      modifies this
      ensures View() == Step(old(View()), PeerCloses)
    {
      if socket == Opened { socket := Closing; }
    }

    // ----- Every event ------------------------------------------------------------------------------

    /** Whatever happens next, the object takes the protocol's step and keeps its invariant. */
    method OnEvent(e: Event)
      requires Valid()
      modifies this
      ensures Valid() && View() == Step(old(View()), e)
    {
      StepKeepsInv(View(), e);
      hide Inv;
      match e {
        case Request(ask) => var refusal := Request(ask);
        case TimerFires(serial) => RequestTimesOut(serial);
        case SignalAborts(serial) => SignalAborts(serial);
        case SendCompletes(id, failed) => SendCompletes(id, failed);
        case GraceExpires(serial) => LateResponseExpires(serial);
        case Receive(message) => if socket != Closed { HandleMessage(message); }
        case InboundTimesOut(serial) => InboundRequestTimesOut(serial);
        case HandlerSettles(serial, completion) => HandlerSettles(serial, completion);
        case HandlerFinishes(serial) => HandlerFinishes(serial);
        case CompletionExpires(serial) => CompletionExpires(serial);
        case Register(verb) => RegisterHandler(verb);
        case Unregister(verb) => UnregisterHandler(verb);
        case LocalClose => Close();
        case PeerCloses => PeerStartsClosing();
        case TransportFails => FailConnection();
        case SocketCloses => if socket != Closed { SocketCloses(); }
      }
    }
  }
}
