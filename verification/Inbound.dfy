/**
 The half of the client engine that serves requests: the inbound table, the completions that absorb
 a late cancellation, the running-handler counter, and the promise chain each handler runs in.
 */
module Inbound {
  import opened Common
  import opened Tables

  const MAX_LATE_RESPONSE_IDS: nat := 1024

  datatype Answer = Result | Failure(code: string)
  datatype Wire = Received(id: string, serial: nat) | Responded(id: string, serial: nat, answer: Answer)

  /** A handler's promise chain: its own body, then the step that gives the slot back. */
  datatype Stage = Running | Finishing

  /**
   `received`, `wire` and `handlers` record what reached the engine, what it put on the socket and
   which promise chains are alive; the rest are the fields of the engine.
   */
  datatype State = State(
    inbound: seq<Slot<string>>,
    completions: seq<Slot<()>>,
    running: int,
    maxRunning: nat,
    timers: set<nat>,
    graces: set<nat>,
    aborted: set<nat>,
    handlers: map<nat, Stage>,
    received: seq<string>,
    wire: seq<Wire>)

  function Empty(maxRunning: nat): State { State([], [], 0, maxRunning, {}, {}, {}, map[], [], []) }

  // ----- The engine's operations ------------------------------------------------------------------

  /** Nothing is written once the socket has left the open state. */
  function Send(s: State, id: string, serial: nat, answer: Answer, open: bool): State {
    if open then s.(wire := s.wire + [Responded(id, serial, answer)]) else s
  }

  function ForgetCompletion(s: State, id: string): State {
    if !Has(s.completions, id) then s
    else s.(completions := Remove(s.completions, id), graces := s.graces - {Find(s.completions, id).serial})
  }

  function EvictCompletion(s: State): State {
    if |s.completions| < MAX_LATE_RESPONSE_IDS then s else ForgetCompletion(s, s.completions[0].id)
  }

  function RememberCompletion(s: State, id: string, serial: nat): State {
    var room := EvictCompletion(s);
    room.(completions := Put(room.completions, Slot(id, serial, ())), graces := room.graces + {serial})
  }

  function TakeInbound(s: State, id: string): State
    requires Has(s.inbound, id)
  {
    s.(inbound := Remove(s.inbound, id), timers := s.timers - {Find(s.inbound, id).serial})
  }

  predicate Holds(s: State, id: string, serial: nat) {
    Has(s.inbound, id) && Find(s.inbound, id).serial == serial
  }

  /** Closes the request `serial` with one answer, if it is still the one stored under its id. */
  function Close(s: State, id: string, serial: nat, answer: Answer, abort: bool, open: bool): State {
    if !Holds(s, id, serial) then s
    else
      var taken := TakeInbound(s, id);
      var signalled := if abort then taken.(aborted := s.aborted + {serial}) else taken;
      Send(RememberCompletion(signalled, id, serial), id, serial, answer, open)
  }

  function Arrived(s: State, id: string): State {
    s.(received := s.received + [id], wire := s.wire + [Received(id, |s.received|)])
  }

  function Accept(s: State, id: string, serial: nat, verb: string): State {
    s.(inbound := Put(s.inbound, Slot(id, serial, verb)), timers := s.timers + {serial},
       handlers := s.handlers[serial := Running], running := s.running + 1)
  }

  function Receive(s: State, id: string, verb: string, handled: bool, open: bool): State {
    var serial := |s.received|;
    var arrived := Arrived(s, id);
    if !handled then
      Send(RememberCompletion(arrived, id, serial), id, serial, Failure("CAPABILITY_UNAVAILABLE"), open)
    else if s.running >= s.maxRunning then
      Send(RememberCompletion(arrived, id, serial), id, serial, Failure("PRECONDITION_FAILED"), open)
    else Accept(arrived, id, serial, verb)
  }

  /** What a handler's promise settled with. */
  datatype Completion = Value(validFor: set<string>) | AdapterError(code: string, wellFormed: bool) | OtherError

  function AnswerOf(verb: string, c: Completion): Answer {
    match c
    case Value(verbs) => if verb in verbs then Result else Failure("PROVIDER_FAILED")
    case AdapterError(code, wellFormed) => Failure(if wellFormed then code else "PROVIDER_FAILED")
    case OtherError => Failure("PROVIDER_FAILED")
  }

  function HandlerSettles(s: State, serial: nat, c: Completion, open: bool): State {
    if serial >= |s.received| || serial !in s.handlers || s.handlers[serial] != Running then s
    else
      var id := s.received[serial];
      var done := s.(handlers := s.handlers[serial := Finishing]);
      if !Holds(s, id, serial) then done
      else Close(done, id, serial, AnswerOf(Find(s.inbound, id).data, c), false, open)
  }

  function HandlerFinishes(s: State, serial: nat): State {
    if serial !in s.handlers || s.handlers[serial] != Finishing then s
    else s.(handlers := s.handlers - {serial}, running := s.running - 1)
  }

  function Timeout(s: State, serial: nat, open: bool): State {
    if serial >= |s.received| || serial !in s.timers then s
    else Close(s, s.received[serial], serial, Failure("TIMEOUT"), true, open)
  }

  /** `None` is a protocol violation. */
  function Cancel(s: State, id: string, open: bool): Option<State> {
    if Has(s.inbound, id) then Some(Close(s, id, Find(s.inbound, id).serial, Failure("CANCELLED"), true, open))
    else if Has(s.completions, id) then Some(ForgetCompletion(s, id))
    else None
  }

  function ExpireCompletion(s: State, serial: nat): State {
    if serial >= |s.received| || serial !in s.graces then s
    else s.(completions := Remove(s.completions, s.received[serial]), graces := s.graces - {serial})
  }

  function AbortAll(s: State): State
    decreases |s.inbound|
  {
    if s.inbound == [] then s
    else
      var slot := s.inbound[0];
      AbortAll(s.(inbound := s.inbound[1..], timers := s.timers - {slot.serial}, aborted := s.aborted + {slot.serial}))
  }

  function ClearCompletions(s: State): State {
    s.(completions := [], graces := s.graces - SerialSet(s.completions))
  }

  // ----- The wire -----------------------------------------------------------------------------------

  /** The last thing said about `id` is that request `serial` arrived. */
  ghost predicate Open(wire: seq<Wire>, id: string, serial: nat) {
    exists i :: 0 <= i < |wire| && wire[i] == Received(id, serial) && forall k :: i < k < |wire| ==> wire[k].id != id
  }

  /** Every response answers the latest request of its id, and nothing about that id lies between. */
  ghost predicate Answers(wire: seq<Wire>) {
    forall j :: 0 <= j < |wire| && wire[j].Responded? ==> Open(wire[..j], wire[j].id, wire[j].serial)
  }

  ghost predicate ReceivedOnce(wire: seq<Wire>, n: nat) {
    && (forall i :: 0 <= i < |wire| && wire[i].Received? ==> wire[i].serial < n)
    && forall i, j :: 0 <= i < j < |wire| && wire[i].Received? && wire[j].Received? ==> wire[i].serial != wire[j].serial
  }

  lemma AppendToWire(wire: seq<Wire>, w: Wire)
    requires Answers(wire)
    requires w.Responded? ==> Open(wire, w.id, w.serial)
    ensures Answers(wire + [w])
    ensures forall id, serial :: Open(wire, id, serial) && id != w.id ==> Open(wire + [w], id, serial)
    ensures w.Received? ==> Open(wire + [w], w.id, w.serial)
  {
    var r := wire + [w];
    forall j | 0 <= j < |r| && r[j].Responded? ensures Open(r[..j], r[j].id, r[j].serial) {
      if j < |wire| { assert r[..j] == wire[..j]; } else { assert r[..j] == wire; }
    }
    forall id, serial | Open(wire, id, serial) && id != w.id ensures Open(r, id, serial) {
      var i :| 0 <= i < |wire| && wire[i] == Received(id, serial) && forall k :: i < k < |wire| ==> wire[k].id != id;
      assert r[i] == wire[i];
    }
    assert r[|wire|] == w;
  }

  /** Two responses never carry the same request. */
  lemma OneResponseEach(wire: seq<Wire>, n: nat, a: nat, b: nat)
    requires Answers(wire) && ReceivedOnce(wire, n)
    requires a < b < |wire| && wire[a].Responded? && wire[b].Responded?
    ensures wire[a].serial != wire[b].serial
  {}

  // ----- What every operation keeps ---------------------------------------------------------------

  ghost predicate Inv(s: State) {
    && UniqueIds(s.inbound) && Issued(s.inbound, s.received)
    && UniqueIds(s.completions) && Issued(s.completions, s.received)
    && Apart(s.inbound, s.completions)
    && s.timers == Serials(s.inbound) && s.graces == Serials(s.completions)
    && |s.completions| <= MAX_LATE_RESPONSE_IDS
    && s.running == |s.handlers| <= s.maxRunning
    && (forall n :: n in s.handlers ==> n < |s.received|)
    && (forall n :: n in Serials(s.inbound) ==> n in s.handlers && s.handlers[n] == Running)
    && (forall n :: n in s.handlers && s.handlers[n] == Running ==> n in Serials(s.inbound) || n in s.aborted)
    && Answers(s.wire) && ReceivedOnce(s.wire, |s.received|)
    && AllOpen(s.inbound, s.wire)
  }

  ghost predicate AllOpen(t: seq<Slot<string>>, wire: seq<Wire>) {
    forall i :: 0 <= i < |t| ==> Open(wire, t[i].id, t[i].serial)
  }

  lemma AcceptedIsOpen(t: seq<Slot<string>>, wire: seq<Wire>, slot: Slot<string>)
    requires AllOpen(t, wire) && Open(wire, slot.id, slot.serial)
    ensures AllOpen(t + [slot], wire)
  {}

  lemma AcceptedRuns(s: State, t: seq<Slot<string>>, serial: nat)
    requires Inv(s) && serial !in s.handlers && Serials(t) == Serials(s.inbound) + {serial}
    ensures var h := s.handlers[serial := Running];
      && |h| == |s.handlers| + 1
      && (forall n :: n in Serials(t) ==> n in h && h[n] == Running)
      && (forall n :: n in h && h[n] == Running ==> n in Serials(t) || n in s.aborted)
  {}

  lemma InboundBounded(s: State)
    requires Inv(s)
    ensures |s.inbound| <= s.running <= s.maxRunning
  {
    SerialsCount(s.inbound, s.received);
    SubsetSize(Serials(s.inbound), s.handlers.Keys);
  }

  lemma LiveSerialIsHeld<T>(t: seq<Slot<T>>, ids: seq<string>, serial: nat)
    requires UniqueIds(t) && Issued(t, ids) && serial in Serials(t)
    ensures serial < |ids| && Has(t, ids[serial]) && Find(t, ids[serial]).serial == serial
  {
    var i :| 0 <= i < |t| && t[i].serial == serial;
    assert t[i] in t;
    SameIdSameSlot(t, t[i], Find(t, ids[serial]));
  }

  lemma HeldSerialIsLive<T>(t: seq<Slot<T>>, ids: seq<string>, id: string)
    requires UniqueIds(t) && Issued(t, ids) && Has(t, id)
    ensures var n := Find(t, id).serial; n in Serials(t) && n < |ids| && ids[n] == id
  {
    var f := Find(t, id);
    var k :| 0 <= k < |t| && t[k] == f;
  }

  lemma ForgetKeepsInv(s: State, id: string)
    requires Inv(s)
    ensures Inv(ForgetCompletion(s, id)) && !Has(ForgetCompletion(s, id).completions, id)
    ensures Has(s.completions, id) ==> |ForgetCompletion(s, id).completions| == |s.completions| - 1
    ensures ForgetCompletion(s, id).(completions := s.completions, graces := s.graces) == s
    ensures forall x :: x in ForgetCompletion(s, id).completions ==> x in s.completions
  {
    RemoveKeepsOthers(s.completions, id);
    if Has(s.completions, id) {
      RemoveDropsSerial(s.completions, s.received, id);
      ApartSwaps(s.inbound, s.completions);
      ApartShrinks(s.completions, s.inbound, id);
      ApartSwaps(Remove(s.completions, id), s.inbound);
    }
  }

  /** Recording a completion for a received request whose id is in neither table. */
  lemma RememberKeepsInv(s: State, id: string, serial: nat)
    requires Inv(s) && !Has(s.inbound, id) && !Has(s.completions, id)
    requires serial < |s.received| && s.received[serial] == id
    ensures Inv(RememberCompletion(s, id, serial))
    ensures var r := RememberCompletion(s, id, serial);
            r.(completions := s.completions, graces := s.graces) == s
  {
    var room := EvictCompletion(s);
    if |s.completions| >= MAX_LATE_RESPONSE_IDS {
      assert Has(s.completions, s.completions[0].id);
      ForgetKeepsInv(s, s.completions[0].id);
      forall i | 0 <= i < |room.completions| ensures room.completions[i].id != id {
        assert room.completions[i] in room.completions;
      }
    }
    var slot := Slot(id, serial, ());
    PutAppends(room.completions, slot);
    AppendSerial(room.completions, s.received, slot);
    ApartSwaps(s.inbound, room.completions);
    ApartGrows(room.completions, s.inbound, slot);
    ApartSwaps(room.completions + [slot], s.inbound);
  }

  lemma SendKeepsInv(s: State, id: string, serial: nat, answer: Answer, open: bool)
    requires Inv(s) && !Has(s.inbound, id) && Open(s.wire, id, serial)
    ensures Inv(Send(s, id, serial, answer, open))
  {
    AppendToWire(s.wire, Responded(id, serial, answer));
    forall i | 0 <= i < |s.inbound|
      ensures open ==> Open(Send(s, id, serial, answer, open).wire, s.inbound[i].id, s.inbound[i].serial) {
      assert Open(s.wire, s.inbound[i].id, s.inbound[i].serial);
    }
  }

  /** Taking a request out is safe once its handler has finished or its signal has been raised. */
  lemma TakeKeepsInv(s: State, id: string, handlers: map<nat, Stage>, aborted: set<nat>)
    requires Inv(s) && Has(s.inbound, id)
    requires var n := Find(s.inbound, id).serial;
      (handlers == s.handlers && aborted == s.aborted + {n})
        || (handlers == s.handlers[n := Finishing] && aborted == s.aborted)
    ensures Inv(TakeInbound(s, id).(handlers := handlers, aborted := aborted))
    ensures var n := Find(s.inbound, id).serial;
      !Has(TakeInbound(s, id).inbound, id) && Open(s.wire, id, n) && n < |s.received| && s.received[n] == id
      && !Has(s.completions, id)
  {
    var n := Find(s.inbound, id).serial;
    HeldSerialIsLive(s.inbound, s.received, id);
    RemoveDropsSerial(s.inbound, s.received, id);
    RemoveKeepsOthers(s.inbound, id);
    ApartShrinks(s.inbound, s.completions, id);
    var k :| 0 <= k < |s.inbound| && s.inbound[k] == Find(s.inbound, id);
    assert Open(s.wire, s.inbound[k].id, s.inbound[k].serial);
    var r := Remove(s.inbound, id);
    forall i | 0 <= i < |r| ensures r[i] in s.inbound { assert r[i] in r; }
    assert handlers.Keys == s.handlers.Keys;
    assert |handlers| == |handlers.Keys| == |s.handlers.Keys|;
  }

  lemma CloseKeepsInv(s: State, id: string, serial: nat, answer: Answer, open: bool)
    requires Inv(s)
    ensures Inv(Close(s, id, serial, answer, true, open))
  {
    if Holds(s, id, serial) {
      var taken := TakeInbound(s, id).(aborted := s.aborted + {serial});
      TakeKeepsInv(s, id, s.handlers, s.aborted + {serial});
      RememberKeepsInv(taken, id, serial);
      SendKeepsInv(RememberCompletion(taken, id, serial), id, serial, answer, open);
    }
  }

  lemma SettlesKeepsInv(s: State, serial: nat, c: Completion, open: bool)
    requires Inv(s)
    ensures Inv(HandlerSettles(s, serial, c, open))
  {
    if serial < |s.received| && serial in s.handlers && s.handlers[serial] == Running {
      var id := s.received[serial];
      var h := s.handlers[serial := Finishing];
      if Holds(s, id, serial) {
        var taken := TakeInbound(s, id).(handlers := h);
        TakeKeepsInv(s, id, h, s.aborted);
        RememberKeepsInv(taken, id, serial);
        SendKeepsInv(RememberCompletion(taken, id, serial), id, serial, AnswerOf(Find(s.inbound, id).data, c), open);
      } else {
        assert serial !in Serials(s.inbound) by {
          if serial in Serials(s.inbound) { LiveSerialIsHeld(s.inbound, s.received, serial); }
        }
        assert h.Keys == s.handlers.Keys;
        assert |h| == |h.Keys| == |s.handlers.Keys|;
      }
    }
  }

  lemma FinishesKeepsInv(s: State, serial: nat)
    requires Inv(s)
    ensures Inv(HandlerFinishes(s, serial))
  {}

  lemma ArrivedKeepsInv(s: State, id: string)
    requires Inv(s) && !Has(s.inbound, id)
    ensures Inv(Arrived(s, id)) && Open(Arrived(s, id).wire, id, |s.received|)
  {
    var event := Received(id, |s.received|);
    AppendToWire(s.wire, event);
    forall i | 0 <= i < |s.inbound| ensures Open(s.wire + [event], s.inbound[i].id, s.inbound[i].serial) {
      assert Open(s.wire, s.inbound[i].id, s.inbound[i].serial);
    }
  }

  lemma RefuseKeepsInv(s: State, id: string, serial: nat, answer: Answer, open: bool)
    requires Inv(s) && !Has(s.inbound, id) && !Has(s.completions, id)
    requires serial < |s.received| && s.received[serial] == id && Open(s.wire, id, serial)
    ensures Inv(Send(RememberCompletion(s, id, serial), id, serial, answer, open))
  {
    RememberKeepsInv(s, id, serial);
    SendKeepsInv(RememberCompletion(s, id, serial), id, serial, answer, open);
  }

  lemma AcceptKeepsInv(s: State, id: string, verb: string, serial: nat)
    requires Inv(s) && !Has(s.inbound, id) && !Has(s.completions, id)
    requires serial < |s.received| && s.received[serial] == id && Open(s.wire, id, serial)
    requires serial !in s.handlers && s.running < s.maxRunning
    ensures Inv(Accept(s, id, serial, verb))
  {
    var slot := Slot(id, serial, verb);
    PutAppends(s.inbound, slot);
    AppendSerial(s.inbound, s.received, slot);
    AcceptedIsOpen(s.inbound, s.wire, slot);
    AcceptedRuns(s, s.inbound + [slot], serial);
    ApartGrows(s.inbound, s.completions, slot);
  }

  lemma ReceiveKeepsInv(s: State, id: string, verb: string, handled: bool, open: bool)
    requires Inv(s) && !Has(s.inbound, id) && !Has(s.completions, id)
    ensures Inv(Receive(s, id, verb, handled, open))
  {
    var serial := |s.received|;
    ArrivedKeepsInv(s, id);
    if !handled {
      RefuseKeepsInv(Arrived(s, id), id, serial, Failure("CAPABILITY_UNAVAILABLE"), open);
    } else if s.running >= s.maxRunning {
      RefuseKeepsInv(Arrived(s, id), id, serial, Failure("PRECONDITION_FAILED"), open);
    } else {
      AcceptKeepsInv(Arrived(s, id), id, verb, serial);
    }
  }

  lemma TimeoutKeepsInv(s: State, serial: nat, open: bool)
    requires Inv(s)
    ensures Inv(Timeout(s, serial, open))
  {
    if serial in s.timers { CloseKeepsInv(s, s.received[serial], serial, Failure("TIMEOUT"), open); }
  }

  lemma CancelKeepsInv(s: State, id: string, open: bool)
    requires Inv(s)
    ensures Cancel(s, id, open).Some? ==> Inv(Cancel(s, id, open).value)
  {
    if Has(s.inbound, id) { CloseKeepsInv(s, id, Find(s.inbound, id).serial, Failure("CANCELLED"), open); }
    ForgetKeepsInv(s, id);
  }

  lemma ExpireKeepsInv(s: State, serial: nat)
    requires Inv(s)
    ensures Inv(ExpireCompletion(s, serial))
  {
    if serial in s.graces {
      LiveSerialIsHeld(s.completions, s.received, serial);
      ForgetKeepsInv(s, s.received[serial]);
    }
  }

  lemma {:induction false} AbortAllKeepsInv(s: State)
    requires Inv(s)
    ensures var r := AbortAll(s);
      Inv(r) && r.inbound == [] && r.wire == s.wire && r.received == s.received && r.completions == s.completions
      && r.handlers == s.handlers && r.running == s.running && r.aborted == s.aborted + Serials(s.inbound)
    decreases |s.inbound|
  {
    if s.inbound != [] {
      var slot := s.inbound[0];
      TakeKeepsInv(s, slot.id, s.handlers, s.aborted + {slot.serial});
      RemoveDropsSerial(s.inbound, s.received, slot.id);
      assert slot.serial in Serials(s.inbound);
      AbortAllKeepsInv(s.(inbound := s.inbound[1..], timers := s.timers - {slot.serial},
                          aborted := s.aborted + {slot.serial}));
    }
  }

  lemma ClearKeepsInv(s: State)
    requires Inv(s)
    ensures Inv(ClearCompletions(s)) && ClearCompletions(s).completions == []
  {}
}
