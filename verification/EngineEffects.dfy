/** What each event does to the engine, told in terms of what its callers and its peer can see. */
module EngineEffects {
  import opened Common
  import opened Tables
  import O = Outbound
  import I = Inbound
  import opened Engine
  import opened EngineRuns

  // ----- Requests -----------------------------------------------------------------------------------

  predicate Unused(s: State, id: string) { !Has(s.out.pending, id) && !Has(s.out.late, id) }

  /** The first identifier offered that is in use for no request and no late answer. */
  ghost predicate FirstUnused(s: State, draws: seq<string>, k: nat) {
    k < |draws| && Unused(s, draws[k]) && forall j :: 0 <= j < k ==> !Unused(s, draws[j])
  }

  ghost predicate MaySend(s: State, ask: Ask) {
    && ask.authorized && 1 <= ask.timeoutMs <= 300_000 && !ask.aborted && Open(s) && ask.valid
    && exists k: nat :: FirstUnused(s, ask.draws, k)
  }

  /** The request waits, with its frame sent and its timer armed; or was cancelled while being entered. */
  ghost predicate Entered(s: State, t: State, ask: Ask, id: string) {
    var n := |s.out.issued|;
    var slot := Slot(id, n, ask.verb);
    && t == s.(out := t.out) && t.out.issued == s.out.issued + [O.Request(id, ask.verb, ask.abortable)]
    && t.out.answered == s.out.answered
    && if ask.abortable && ask.abortedMeanwhile then
         && t.out.pending == s.out.pending && t.out.late == Newest(s.out.late, slot)
         && t.out.settlements == s.out.settlements + [O.Settlement(n, O.Rejected(O.RequestCancelled))]
         && t.out.frames == s.out.frames + [O.CancelFrame(id)]
       else
         && t.out.pending == s.out.pending + [slot] && t.out.timers == s.out.timers + {n}
         && t.out.late == s.out.late && t.out.settlements == s.out.settlements
         && t.out.frames == s.out.frames + [O.RequestFrame(n)]
  }

  lemma {:induction false} FreshIsFirstUnused(s: State, draws: seq<string>, k: nat)
    ensures FirstUnused(s, draws, k) ==> FreshId(s.out, draws) == Some(draws[k])
    ensures (forall j :: 0 <= j < |draws| ==> !Unused(s, draws[j])) ==> FreshId(s.out, draws).None?
  {
    hide Has;
    if draws != [] && !Unused(s, draws[0]) {
      if FirstUnused(s, draws, k) {
        assert draws[1..][k - 1] == draws[k];
        assert forall j :: 0 <= j < k - 1 ==> draws[1..][j] == draws[j + 1];
        FreshIsFirstUnused(s, draws[1..], k - 1);
      } else {
        FreshIsFirstUnused(s, draws[1..], 0);
      }
    }
  }

  lemma FirstOf(s: State, draws: seq<string>) returns (k: nat)
    requires exists j :: 0 <= j < |draws| && Unused(s, draws[j])
    ensures FirstUnused(s, draws, k)
  {
    hide Has;
    k := 0;
    while !Unused(s, draws[k])
      invariant k < |draws| && forall j :: 0 <= j < k ==> !Unused(s, draws[j])
      decreases |draws| - k
    {
      k := k + 1;
    }
  }

  /**
   A request is entered exactly when it is authorized, its time-out is in bounds, it is not already
   aborted, the socket is open, an identifier unused in both tables is drawn and its parameters are
   valid; the identifier is the first such one drawn. Otherwise nothing happens.
   */
  lemma RequestEntersIff(s: State, ask: Ask)
    requires Inv(s)
    ensures !MaySend(s, ask) ==> Step(s, Request(ask)) == s && Refused(s, ask).Some?
    ensures MaySend(s, ask) ==> Refused(s, ask).None?
    ensures MaySend(s, ask) ==>
      exists k: nat :: FirstUnused(s, ask.draws, k) && Entered(s, Step(s, Request(ask)), ask, ask.draws[k])
  {
    hide Inv, Has, O.Issue, Entered;
    if exists j :: 0 <= j < |ask.draws| && Unused(s, ask.draws[j]) {
      var k := FirstOf(s, ask.draws);
      FreshIsFirstUnused(s, ask.draws, k);
      if MaySend(s, ask) { IssueEnters(s, ask, ask.draws[k]); }
    } else {
      FreshIsFirstUnused(s, ask.draws, 0);
    }
  }

  lemma IssueEnters(s: State, ask: Ask, id: string)
    requires Inv(s) && Unused(s, id)
    ensures Entered(s, s.(out := O.Issue(s.out, O.Request(id, ask.verb, ask.abortable),
                                         ask.abortable && ask.abortedMeanwhile, true)), ask, id)
  {
    hide O.Interrupt;
    var n := |s.out.issued|;
    var slot := Slot(id, n, ask.verb);
    PutAppends(s.out.pending, slot);
    if ask.abortable && ask.abortedMeanwhile {
      var r := O.Request(id, ask.verb, ask.abortable);
      EnteringKeepsInv(s.out, r);
      var entered := s.out.(pending := s.out.pending + [slot], timers := s.out.timers + {n},
                            issued := s.out.issued + [r]);
      TimerIsHeld(entered, n);
      TombstoneLeft(entered, n, O.RequestCancelled, true);
      LastLeaves(s.out.pending, slot);
    }
    hide Inv;
  }

  lemma EnteringKeepsInv(s: O.State, r: O.Request)
    requires O.Inv(s) && !Has(s.pending, r.id) && !Has(s.late, r.id)
    ensures var n := |s.issued|;
      O.Inv(s.(pending := s.pending + [Slot(r.id, n, r.verb)], timers := s.timers + {n}, issued := s.issued + [r]))
  {
    O.IssueKeepsInv(s, r, false, false);
    PutAppends(s.pending, Slot(r.id, |s.issued|, r.verb));
  }

  lemma {:induction false} LastLeaves(t: seq<Slot<string>>, slot: Slot<string>)
    requires !Has(t, slot.id)
    ensures Remove(t + [slot], slot.id) == t
  {
    if t != [] {
      assert (t + [slot])[1..] == t[1..] + [slot];
      assert forall i :: 0 <= i < |t[1..]| ==> t[1..][i] == t[i + 1];
      LastLeaves(t[1..], slot);
    }
  }

  /** The refusal given is that of the first condition that fails, in this order. */
  lemma RefusalIsTheFirst(s: State, ask: Ask)
    ensures Refused(s, ask) == Some(NotAuthorized) <==> !ask.authorized
    ensures Refused(s, ask) == Some(BadTimeout) <==> ask.authorized && !(1 <= ask.timeoutMs <= 300_000)
    ensures Refused(s, ask) == Some(AlreadyAborted) <==> ask.authorized && 1 <= ask.timeoutMs <= 300_000 && ask.aborted
    ensures Refused(s, ask) == Some(NotOpen) <==>
      ask.authorized && 1 <= ask.timeoutMs <= 300_000 && !ask.aborted && s.socket != Opened
    ensures Refused(s, ask) == Some(BadParameters) ==>
      ask.authorized && 1 <= ask.timeoutMs <= 300_000 && !ask.aborted && s.socket == Opened && !ask.valid
    ensures Refused(s, ask) == Some(BadParameters) ==> exists i :: 0 <= i < |ask.draws| && Unused(s, ask.draws[i])
    ensures Refused(s, ask) == Some(StillDrawing) ==> forall i :: 0 <= i < |ask.draws| ==> !Unused(s, ask.draws[i])
  {
    hide Has;
    if exists j :: 0 <= j < |ask.draws| && Unused(s, ask.draws[j]) {
      var k := FirstOf(s, ask.draws);
      FreshIsFirstUnused(s, ask.draws, k);
    }
  }

  // ----- Tombstones and completions -----------------------------------------------------------------

  /** A valid answer to a request given up earlier is absorbed: its tombstone goes, and nobody is told. */
  lemma LateAnswerIsAbsorbed(s: State, n: nat, payload: O.Payload)
    requires Inv(s) && s.socket != Closed && n in Serials(s.out.late) && n < |s.out.issued|
    requires O.Acceptable(s.out.issued[n].verb, payload)
    ensures
      var t := Step(s, Receive(Response(s.out.issued[n].id, payload)));
      && t == s.(out := s.out.(late := t.out.late, graces := s.out.graces - {n}, answered := s.out.answered + {n}))
      && Serials(t.out.late) == Serials(s.out.late) - {n}
  {
    O.LiveSerialIsHeld(s.out.late, s.out.issued, n);
    O.RemoveKeepsBacked(s.out.late, s.out.issued, s.out.issued[n].id);
    NotInBoth(s.out, s.out.issued[n].id);
    hide I.Inv, O.Fates, O.SettledOnce;
  }

  lemma NotInBoth(s: O.State, id: string)
    requires O.Inv(s) && Has(s.late, id)
    ensures !Has(s.pending, id)
  {}

  /** A tombstone ends when its grace does, and nothing else changes. */
  lemma GraceEnds(s: State, n: nat)
    requires Inv(s)
    ensures
      var t := Step(s, GraceExpires(n));
      if n !in Serials(s.out.late) then t == s
      else
        && t == s.(out := s.out.(late := t.out.late, graces := s.out.graces - {n}, forgotten := s.out.forgotten + {n}))
        && Serials(t.out.late) == Serials(s.out.late) - {n}
  {
    if n in Serials(s.out.late) {
      O.LiveSerialIsHeld(s.out.late, s.out.issued, n);
      O.RemoveKeepsBacked(s.out.late, s.out.issued, s.out.issued[n].id);
    }
    hide I.Inv, O.Fates, O.SettledOnce;
  }

  /** A completion ends when its grace does, and nothing else changes. */
  lemma CompletionEnds(s: State, n: nat)
    requires Inv(s)
    ensures
      var t := Step(s, CompletionExpires(n));
      if n !in Serials(s.inn.completions) then t == s
      else
        && t == s.(inn := s.inn.(completions := t.inn.completions, graces := s.inn.graces - {n}))
        && Serials(t.inn.completions) == Serials(s.inn.completions) - {n}
  {
    if n in Serials(s.inn.completions) {
      I.LiveSerialIsHeld(s.inn.completions, s.inn.received, n);
      RemoveDropsSerial(s.inn.completions, s.inn.received, s.inn.received[n]);
    }
    hide O.Inv, I.Answers, I.AllOpen, I.ReceivedOnce;
  }

  /** A cancellation that comes after the answer is absorbed by the completion, once. */
  lemma LateCancelIsAbsorbed(s: State, n: nat)
    requires Inv(s) && s.role == Adapter && s.socket != Closed && n in Serials(s.inn.completions)
    requires n < |s.inn.received|
    ensures
      var t := Step(s, Receive(Notification(CancelRequest(s.inn.received[n]))));
      && t == s.(inn := s.inn.(completions := t.inn.completions, graces := s.inn.graces - {n}))
      && Serials(t.inn.completions) == Serials(s.inn.completions) - {n}
  {
    I.LiveSerialIsHeld(s.inn.completions, s.inn.received, n);
    RemoveDropsSerial(s.inn.completions, s.inn.received, s.inn.received[n]);
    NotOpenAndOver(s.inn, s.inn.received[n]);
    hide O.Inv, I.Answers, I.AllOpen, I.ReceivedOnce;
  }

  lemma NotOpenAndOver(s: I.State, id: string)
    requires I.Inv(s) && Has(s.completions, id)
    ensures !Has(s.inbound, id)
  {}

  // ----- Loss ---------------------------------------------------------------------------------------

  function Rejections(t: seq<Slot<string>>, reason: O.Reason): seq<O.Settlement> {
    seq(|t|, i requires 0 <= i < |t| => O.Settlement(t[i].serial, O.Rejected(reason)))
  }

  lemma {:induction false} AllAreRejected(s: O.State, reason: O.Reason)
    ensures
      var r := O.RejectAll(s, reason);
      && r == s.(pending := [], timers := r.timers, forgotten := s.forgotten + Serials(s.pending),
                 settlements := s.settlements + Rejections(s.pending, reason))
      && r.timers == s.timers - Serials(s.pending)
    decreases |s.pending|
  {
    if s.pending != [] {
      var slot, rest := s.pending[0], s.pending[1..];
      FirstSerial(s.pending);
      AllAreRejected(O.Settle(s.(pending := rest, timers := s.timers - {slot.serial},
                                 forgotten := s.forgotten + {slot.serial}), slot.serial, O.Rejected(reason)), reason);
      assert Rejections(s.pending, reason) == [O.Settlement(slot.serial, O.Rejected(reason))]
             + Rejections(rest, reason);
      hide Serials;
    } else {
      assert Rejections(s.pending, reason) == [];
    }
  }

  lemma FirstSerial<T>(t: seq<Slot<T>>)
    requires t != []
    ensures Serials(t) == {t[0].serial} + Serials(t[1..])
  {
    forall n | n in Serials(t) ensures n == t[0].serial || n in Serials(t[1..]) {
      var i :| 0 <= i < |t| && t[i].serial == n;
      if i > 0 { assert t[1..][i - 1].serial == n; }
    }
  }

  /**
   When the transport fails, a send fails while its request waits, the socket closes, or a message is
   dishonest: every waiting request is rejected, in order and with the reason; every open inbound
   request is taken back and its signal raised; no tombstone of an answered request is left; nothing
   is written; and the socket is closing, or closed.
   */
  lemma LossRejectsAll(s: State, e: Event)
    requires Inv(s)
    requires || (e.TransportFails?) || (e.SocketCloses? && s.socket != Closed)
             || (e.SendCompletes? && e.failed && Has(s.out.pending, e.id))
             || (e.Receive? && s.socket != Closed && !Honest(s, e.message))
    ensures
      var t := Step(s, e); var reason := if e.Receive? then O.ProtocolViolated else O.ConnectionLost;
      && t.out.pending == [] && t.out.settlements == s.out.settlements + Rejections(s.out.pending, reason)
      && t.out.issued == s.out.issued && t.out.frames == s.out.frames && t.out.answered == s.out.answered
      && t.out.late == (if e.SocketCloses? then [] else s.out.late)
      && t.inn.inbound == [] && t.inn.completions == [] && t.inn.aborted == s.inn.aborted + Serials(s.inn.inbound)
      && t.inn.handlers == s.inn.handlers && t.inn.running == s.inn.running && t.inn.wire == s.inn.wire
      && t.socket == (if e.SocketCloses? || s.socket == Closed then Closed else Closing)
      && t.violations == s.violations + (if e.Receive? then 1 else 0)
      && t.registered == s.registered && t.role == s.role
  {
    hide O.Inv, I.Inv, Honest, O.RejectAll, I.AbortAll, Serials;
    AllAreRejected(s.out, O.ConnectionLost);
    AllAreRejected(s.out, O.ProtocolViolated);
    I.AbortAllKeepsInv(s.inn);
    if e.Receive? {
      hide Handle;
      ViolationIffDishonest(s, e.message);
    }
  }

  // ----- The rest -----------------------------------------------------------------------------------

  /** A handler's place is given back once, when its own chain ends. */
  lemma PlaceIsGivenBack(s: State, n: nat)
    ensures
      var t := Step(s, HandlerFinishes(n));
      t == if n in s.inn.handlers && s.inn.handlers[n] == I.Finishing
           then s.(inn := s.inn.(handlers := s.inn.handlers - {n}, running := s.inn.running - 1)) else s
  {}

  /** A handler that settles after its request was closed says nothing. */
  lemma LateHandlerIsSilent(s: State, n: nat, c: I.Completion)
    requires Inv(s) && n in s.inn.handlers && s.inn.handlers[n] == I.Running && n !in Serials(s.inn.inbound)
    ensures Step(s, HandlerSettles(n, c)) == s.(inn := s.inn.(handlers := s.inn.handlers[n := I.Finishing]))
  {
    hide O.Inv, I.Inv, I.Close, I.Holds, Serials;
    ClosedIsNotHeld(s.inn, n);
  }

  lemma ClosedIsNotHeld(s: I.State, n: nat)
    requires I.Inv(s) && n in s.handlers && n !in Serials(s.inbound)
    ensures n < |s.received| && !I.Holds(s, s.received[n], n)
  {
    if Has(s.inbound, s.received[n]) { I.HeldSerialIsLive(s.inbound, s.received, s.received[n]); }
  }

  /** A timer that was cleared, an abort nobody listens to, and whatever a closed socket brings change nothing. */
  lemma ClearedCallbacksDoNothing(s: State, e: Event)
    requires Inv(s)
    requires || (e.TimerFires? && e.serial !in Serials(s.out.pending))
             || (e.SignalAborts? && e.serial !in Serials(s.out.pending))
             || (e.InboundTimesOut? && e.serial !in Serials(s.inn.inbound))
             || (e.Receive? && s.socket == Closed)
             || (e == Receive(Notification(Other(true))) && s.role == Consumer)
    ensures Step(s, e) == s
  {}

  /** The table of methods and the socket change as they are told to. */
  lemma TableAndSocket(s: State, e: Event)
    ensures e.Register? ==>
      Step(s, e) == s.(registered := if s.role == Adapter then s.registered + {e.verb} else s.registered)
    ensures e.Unregister? ==> Step(s, e) == s.(registered := s.registered - {e.verb})
    ensures e.LocalClose? ==> Step(s, e) == s.(socket := if s.socket == Closed then Closed else Closing)
    ensures e.PeerCloses? ==> Step(s, e) == s.(socket := if s.socket == Opened then Closing else s.socket)
    ensures e.SendCompletes? && !(e.failed && Has(s.out.pending, e.id)) ==> Step(s, e) == s
  {}
}
